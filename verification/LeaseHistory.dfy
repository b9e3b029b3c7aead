/** How leases evolve over runs: a status leaves `active` once and for all, so a
    dead token stays dead, and a full TTL without a new lease frees every slot. */
module LeaseHistory {
  import opened Rows
  import opened Wrappers
  import opened LeaseService
  import opened DeviceService
  import opened LicenseService
  import opened LicenseApi
  import opened Runs

  // ---------------------------------------------------------------------------
  // What every step keeps: leases only lose their status, limits are fixed

  ghost predicate Evolves(s: Db, s': Db) {
    && s.now <= s'.now && s.ttlMs == s'.ttlMs
    && LeasesEvolve(s.leases, s'.leases)
    && s.signed <= s'.signed
    && (forall t | t in s'.signed :: t in s.signed || t.jti !in s.leases)
  }

  lemma EvolvesTransitive(s: Db, s1: Db, s2: Db)
    requires Evolves(s, s1) && Evolves(s1, s2)
    ensures Evolves(s, s2)
  { }

  lemma DeactivatingEvolves(s: Db, s': Db)
    requires s'.now == s.now && s'.ttlMs == s.ttlMs && s'.signed == s.signed
    requires OnlyDeactivates(s.leases, s'.leases)
    ensures Evolves(s, s')
  { }

  lemma IssueEvolves(s: Db, lic: KeyHash, d: string, v: string, maxC: int, policy: BindingPolicy, c: IssueChoice)
    requires c.jti !in s.leases
    ensures Evolves(s, Issue(s, lic, d, v, maxC, policy, c).0)
  {
    hide ConcurrencyFull, RevokeActive, LeasesEvolve, Evolves;
    var s1 := s.(leases := RevokeActive(s.leases, d));
    var s2 := s1.(leases := RevokeActive(s1.leases, c.victim));
    RevokeActiveDeactivates(s.leases, d);
    RevokeActiveDeactivates(s1.leases, c.victim);
    DeactivatingEvolves(s, s1);
    DeactivatingEvolves(s1, s2);
    EvolvesTransitive(s, s1, s2);
    GrantEvolves(s1, lic, d, v, c.jti);
    GrantEvolves(s2, lic, d, v, c.jti);
    EvolvesTransitive(s, s1, Grant(s1, lic, d, v, c.jti).0);
    EvolvesTransitive(s, s2, Grant(s2, lic, d, v, c.jti).0);
  }

  lemma GrantEvolves(s: Db, lic: KeyHash, d: string, v: string, jti: TokenId)
    requires jti !in s.leases
    ensures Evolves(s, Grant(s, lic, d, v, jti).0)
  { }

  lemma BindEvolves(s: Db, lic: KeyHash, d: string, v: string, kicked: string)
    requires Known(s, lic)
    ensures Evolves(s, Bind(s, lic, d, v, kicked).0)
  {
    hide ActiveDevices, RevokeActive, LeasesEvolve, MaxDevices, PolicyOf, Evolves;
    RevokeActiveDeactivates(s.leases, kicked);
    var s' := Bind(s, lic, d, v, kicked).0;
    assert OnlyDeactivates(s.leases, s.leases) by { Unchanged(s.leases); }
    DeactivatingEvolves(s, s');
  }

  lemma Unchanged(leases: map<TokenId, Lease>)
    ensures OnlyDeactivates(leases, leases)
  { }

  lemma ActivateEvolves(s: Db, product: string, key: string, d: string, v: string, c: Choices)
    requires ActivateChoicesOk(s, product, key, d, v, c)
    ensures Evolves(s, Activate(s, product, key, d, v, c).0)
  {
    var (s1, r1) := ValidateLicense(s, product, key);
    assert Evolves(s, s1) by { hide EnsureValid, CardProblem; DeactivatingEvolves(s, s1); }
    if r1.Ok? {
      hide ValidateLicense, GetOrCreate, Issue, KickChoiceOk, LeasesEvolve;
      var lic := r1.value;
      var (s2, r2) := Bind(s1, lic, d, v, c.kicked);
      BindEvolves(s1, lic, d, v, c.kicked);
      EvolvesTransitive(s, s1, s2);
      if r2.Ok? {
        IssueEvolves(s2, lic, d, v, MaxConcurrency(s2, lic), PolicyOf(s2, lic), c.issue);
        var s3 := Renew(s2, lic, d, v, c.issue).0;
        EvolvesTransitive(s, s2, s3);
        assert Evolves(s, StampActivation(s3, lic));
      }
    }
  }

  lemma ValidateEvolves(s: Db, token: Token, d: string)
    ensures Evolves(s, Validate(s, token, d).0)
  { }

  lemma HeartbeatEvolves(s: Db, token: Token, product: string, d: string, v: string, c: IssueChoice)
    requires HeartbeatChoiceOk(s, token, product, d, v, c)
    ensures Evolves(s, Heartbeat(s, token, product, d, v, c).0)
  {
    hide Issue, LeasesEvolve, EnsureValid, EnsureAllowed, ConcurrencyFull;
    ValidateEvolves(s, token, d);
    var (s1, r1) := HeartbeatGate(s, token, product, d, v);
    if r1.Ok? {
      var s2 := Rotated(s, token, d, v);
      RotatedEvolves(s, token, d, v);
      IssueEvolves(s2, r1.value, d, v, MaxConcurrency(s2, r1.value), PolicyOf(s2, r1.value), c);
      EvolvesTransitive(s, s2, Renew(s2, r1.value, d, v, c).0);
    }
  }

  lemma RotatedEvolves(s: Db, token: Token, d: string, v: string)
    requires token.jti in s.leases && s.leases[token.jti].status == LeaseActive && d in s.devices
    ensures Evolves(s, Rotated(s, token, d, v))
  { }

  lemma DeactivateEvolves(s: Db, product: string, key: string, d: string)
    ensures Evolves(s, Deactivate(s, product, key, d).0)
  {
    hide EnsureValid, CardProblem, RevokeActive, LeasesEvolve;
    Unchanged(s.leases);
    RevokeActiveDeactivates(s.leases, d);
    DeactivatingEvolves(s, Deactivate(s, product, key, d).0);
  }

  lemma StepEvolves(s: Db, e: Event)
    requires Enabled(s, e)
    ensures Evolves(s, Step(s, e))
  {
    hide Activate, Heartbeat, Deactivate, Validate, ActivateChoicesOk, HeartbeatChoiceOk, EnsureValid, EnsureAllowed;
    match e
    case ActivateCall(product, key, d, v, c) => ActivateEvolves(s, product, key, d, v, c);
    case VerifyCall(token, product, d, v) => ValidateEvolves(s, token, d);
    case HeartbeatCall(token, product, d, v, c) => HeartbeatEvolves(s, token, product, d, v, c);
    case DeactivateCall(product, key, d) => DeactivateEvolves(s, product, key, d);
    case _ =>
  }

  lemma {:induction false} RunEvolves(s: Db, es: seq<Event>)
    requires ValidRun(s, es)
    ensures Evolves(s, Run(s, es))
    decreases |es|
  {
    if es != [] {
      hide Step, Enabled, Evolves;
      StepEvolves(s, es[0]);
      RunEvolves(Step(s, es[0]), es[1..]);
      EvolvesTransitive(s, Step(s, es[0]), Run(s, es));
    }
  }

  // ---------------------------------------------------------------------------
  // Dead tokens

  ghost predicate Dead(s: Db, t: Token) {
    t in s.signed && t.jti in s.leases && (s.leases[t.jti].status != LeaseActive || s.leases[t.jti].expireAt <= s.now)
  }

  lemma DeadIsRefused(s: Db, t: Token, product: string, d: string, v: string, c: IssueChoice)
    requires Dead(s, t)
    ensures Verify(s, t, product, d, v).1 in {Err(LeaseInvalid), Err(LeaseExpired)}
    ensures Heartbeat(s, t, product, d, v, c).1 in {Err(LeaseInvalid), Err(LeaseExpired)}
    ensures s.leases[t.jti].status != LeaseActive ==>
              Verify(s, t, product, d, v).1 == Err(LeaseInvalid) && Verify(s, t, product, d, v).0 == s
  { }

  /** A superseded, evicted or expired token is refused in every later state,
      whatever the API, the admins and the clock do in between. */
  lemma DeadTokenStaysDead(s: Db, es: seq<Event>, t: Token)
    requires Inv(s) && ValidRun(s, es) && Dead(s, t)
    ensures Dead(Run(s, es), t)
    ensures forall product, d, v :: Verify(Run(s, es), t, product, d, v).1.Err?
  {
    hide ValidRun, Run, Verify, Heartbeat, Inv;
    RunEvolves(s, es);
    forall product, d, v ensures Verify(Run(s, es), t, product, d, v).1.Err? {
      DeadIsRefused(Run(s, es), t, product, d, v, IssueChoice(0, ""));
    }
  }

  /** A successful heartbeat replaces its token for good. */
  lemma HeartbeatSupersedes(s: Db, t: Token, product: string, d: string, v: string, c: IssueChoice, es: seq<Event>)
    requires Inv(s) && HeartbeatChoiceOk(s, t, product, d, v, c)
    requires Heartbeat(s, t, product, d, v, c).1.Ok?
    requires ValidRun(Heartbeat(s, t, product, d, v, c).0, es)
    ensures var s' := Run(Heartbeat(s, t, product, d, v, c).0, es);
            forall p, e, w :: Verify(s', t, p, e, w).1 == Err(LeaseInvalid)
  {
    var s1 := Heartbeat(s, t, product, d, v, c).0;
    assert Dead(s1, t) && s1.leases[t.jti].status != LeaseActive by { HeartbeatKills(s, t, product, d, v, c); }
    hide Heartbeat, HeartbeatChoiceOk, Verify, ValidRun, Run;
    HeartbeatKeepsInv(s, t, product, d, v, c);
    RunEvolves(s1, es);
    var s' := Run(s1, es);
    forall p, e, w ensures Verify(s', t, p, e, w).1 == Err(LeaseInvalid) {
      DeadIsRefused(s', t, p, e, w, c);
    }
  }

  lemma HeartbeatKills(s: Db, t: Token, product: string, d: string, v: string, c: IssueChoice)
    requires HeartbeatChoiceOk(s, t, product, d, v, c)
    requires HeartbeatGate(s, t, product, d, v).1.Ok?
    ensures Dead(Heartbeat(s, t, product, d, v, c).0, t)
    ensures Heartbeat(s, t, product, d, v, c).0.leases[t.jti].status == LeaseRevoked
  {
    var s1 := Rotated(s, t, d, v);
    var lic := HeartbeatGate(s, t, product, d, v).1.value;
    assert s1.leases[t.jti].status == LeaseRevoked;
    IssueEvolves(s1, lic, d, v, MaxConcurrency(s1, lic), PolicyOf(s1, lic), c);
  }

  // ---------------------------------------------------------------------------
  // One TTL without a new lease

  /** After a full TTL in which no lease was issued no device is live, so the next
      issue passes the concurrency check whatever the limit and the policy. */
  lemma QuietTtlFreesAll(s: Db, es: seq<Event>, lic: KeyHash, d: string, v: string, maxC: int, policy: BindingPolicy, c: IssueChoice)
    requires Inv(s) && ValidRun(s, es)
    requires Run(s, es).leases.Keys == s.leases.Keys
    requires Run(s, es).now >= s.now + s.ttlMs
    ensures LiveDevices(Run(s, es), lic) == {}
    ensures Issue(Run(s, es), lic, d, v, maxC, policy, c).1.Ok?
  {
    hide ValidRun, Run;
    RunEvolves(s, es);
    var s' := Run(s, es);
    forall l | l in s'.leases ensures s'.leases[l].expireAt <= s'.now {
      assert l in s.leases;
    }
    var s1 := s'.(leases := RevokeActive(s'.leases, d));
    assert LiveDevices(s', lic) == {};
    assert LiveDevices(s1, lic) == {};
  }

  // ---------------------------------------------------------------------------
  // Licenses

  /** Licenses stay, with their expiry, and the first activation is remembered. */
  ghost predicate FirstActivationKept(before: map<KeyHash, License>, after: map<KeyHash, License>) {
    forall h | h in before ::
      && h in after && after[h].expireAt == before[h].expireAt
      && (before[h].activateAt.Some? ==> after[h].activateAt == before[h].activateAt)
  }

  lemma KeptAlong(a: map<KeyHash, License>, b: map<KeyHash, License>, c: map<KeyHash, License>)
    requires FirstActivationKept(a, b) && FirstActivationKept(b, c)
    ensures FirstActivationKept(a, c)
  { }

  lemma ValidateLicenseKeepsFirst(s: Db, product: string, key: string)
    ensures FirstActivationKept(s.licenses, ValidateLicense(s, product, key).0.licenses)
  {
    hide EnsureValid, CardProblem, PlanDurationMs;
  }

  /** A successful activation leaves the time of the license's first one: an earlier
      time if there is one, else now. */
  lemma ActivationStamped(s: Db, product: string, key: string, d: string, v: string, c: Choices)
    ensures var (s', r) := Activate(s, product, key, d, v, c);
            && FirstActivationKept(s.licenses, s'.licenses)
            && (r.Ok? ==>
                  var (s1, r1) := ValidateLicense(s, product, key);
                  var h := r.value.token.license;
                  && r1 == Ok(h) && h in s'.licenses
                  && s'.licenses[h].activateAt == if s1.licenses[h].activateAt.Some? then s1.licenses[h].activateAt else Some(s.now))
  {
    hide ValidateLicense, Bind, Issue, MaxConcurrency, PolicyOf, FeatureFlags;
    ValidateLicenseKeepsFirst(s, product, key);
    var (s1, r1) := ValidateLicense(s, product, key);
    if r1.Ok? {
      var (s2, r2) := Bind(s1, r1.value, d, v, c.kicked);
      if r2.Ok? {
        IssuedFor(s2, r1.value, d, v, MaxConcurrency(s2, r1.value), PolicyOf(s2, r1.value), c.issue);
      }
    }
  }

  lemma IssuedFor(s: Db, lic: KeyHash, d: string, v: string, maxC: int, policy: BindingPolicy, c: IssueChoice)
    ensures var r := Issue(s, lic, d, v, maxC, policy, c).1; r.Ok? ==> r.value.license == lic
  {
    hide ConcurrencyFull;
  }

  lemma StepKeepsFirst(s: Db, e: Event)
    ensures FirstActivationKept(s.licenses, Step(s, e).licenses)
  {
    hide Activate, Heartbeat, Verify, ValidateLicense;
    match e
    case ActivateCall(product, key, d, v, c) => ActivationStamped(s, product, key, d, v, c);
    case DeactivateCall(product, key, d) => ValidateLicenseKeepsFirst(s, product, key);
    case _ =>
  }

  /** In every run the expiry of a license and the time of its first activation never
      change once they are set. */
  lemma {:induction false} RunKeepsFirst(s: Db, es: seq<Event>)
    ensures FirstActivationKept(s.licenses, Run(s, es).licenses)
    decreases |es|
  {
    hide Step, FirstActivationKept;
    if es == [] {
      SameKept(s.licenses);
    } else {
      StepKeepsFirst(s, es[0]);
      RunKeepsFirst(Step(s, es[0]), es[1..]);
      KeptAlong(s.licenses, Step(s, es[0]).licenses, Run(s, es).licenses);
    }
  }

  lemma SameKept(licenses: map<KeyHash, License>)
    ensures FirstActivationKept(licenses, licenses)
  { }
}
