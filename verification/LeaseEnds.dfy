/** Why a lease stops being active: five causes, each read off the rows before the
    call, and nothing else. */
module LeaseEnds {
  import opened Rows
  import opened LeaseService
  import opened DeviceService
  import opened LicenseService
  import opened LicenseApi
  import opened Runs
  import opened ConcurrencyCap
  import opened LeaseHistory

  predicate Active(s: Db, l: TokenId) {
    l in s.leases && s.leases[l].status == LeaseActive
  }

  // ---------------------------------------------------------------------------
  // What the single operations end

  /** The other live devices fill the limit, the policy is to kick, and the lease is
      one of the device picked to go. */
  predicate Evicts(s: Db, lic: KeyHash, d: string, maxC: int, policy: BindingPolicy, victim: string, l: TokenId)
    requires l in s.leases
  {
    maxC > 0 && policy == KickOldest && |LiveDevices(s, lic) - {d}| >= maxC && s.leases[l].device == victim
  }

  /** A new device finds the cap full under the policy to kick, and the lease is one of
      the device picked to go. */
  predicate Kicks(s: Db, lic: KeyHash, d: string, kicked: string, l: TokenId)
    requires Known(s, lic) && l in s.leases
  {
    && d !in s.devices && |ActiveDevices(s, lic)| >= MaxDevices(s, lic) && PolicyOf(s, lic) == KickOldest
    && ActiveDevices(s, lic) != {} && kicked in s.devices && s.leases[l].device == kicked
  }

  /** The call presents the lease's own signed token, too late. */
  predicate TooLate(s: Db, t: Token, d: string, l: TokenId)
    requires l in s.leases
  {
    && t in s.signed && t.jti == l && s.leases[l].device in s.devices
    && s.leases[l].device == d && s.leases[l].device == t.device && s.leases[l].license == t.license
    && (s.leases[l].expireAt <= s.now || t.exp <= s.now)
  }

  lemma IssueEnds(s: Db, lic: KeyHash, d: string, v: string, maxC: int, policy: BindingPolicy, c: IssueChoice, l: TokenId)
    requires Active(s, l) && c.jti !in s.leases
    ensures !Active(Issue(s, lic, d, v, maxC, policy, c).0, l) <==>
              s.leases[l].device == d || Evicts(s, lic, d, maxC, policy, c.victim, l)
  {
    hide LiveDevices, Unexpired;
    RevokeLive(s, d, lic);
  }

  lemma BindEnds(s: Db, lic: KeyHash, d: string, v: string, kicked: string, l: TokenId)
    requires Known(s, lic) && Active(s, l)
    ensures !Active(Bind(s, lic, d, v, kicked).0, l) <==> Kicks(s, lic, d, kicked, l)
  {
    hide ActiveDevices, MaxDevices, PolicyOf;
  }

  lemma ValidateEnds(s: Db, t: Token, d: string, l: TokenId)
    requires Active(s, l)
    ensures !Active(Validate(s, t, d).0, l) <==> TooLate(s, t, d, l)
  { }

  // ---------------------------------------------------------------------------
  // The five causes

  /** The device itself is activated or sends a heartbeat, and the call gets as far as
      issuing; whether the new lease is then granted or denied. */
  predicate Replaced(s: Db, e: Event, l: TokenId)
    requires l in s.leases
  {
    match e
    case ActivateCall(product, key, d, v, c) =>
      var (s1, r1) := ValidateLicense(s, product, key);
      s.leases[l].device == d && r1.Ok? && Bind(s1, r1.value, d, v, c.kicked).1.Ok?
    case HeartbeatCall(t, product, d, v, c) => s.leases[l].device == d && HeartbeatGate(s, t, product, d, v).1.Ok?
    case _ => false
  }

  /** Another device is issued a lease at the full limit, and this one's device goes. */
  predicate Evicted(s: Db, e: Event, l: TokenId)
    requires l in s.leases
  {
    match e
    case ActivateCall(product, key, d, v, c) =>
      var (s1, r1) := ValidateLicense(s, product, key);
      r1.Ok? &&
      var (s2, r2) := Bind(s1, r1.value, d, v, c.kicked);
      r2.Ok? && Active(s2, l) && Evicts(s2, r1.value, d, MaxConcurrency(s1, r1.value), PolicyOf(s1, r1.value), c.issue.victim, l)
    case HeartbeatCall(t, product, d, v, c) =>
      var r := HeartbeatGate(s, t, product, d, v).1;
      r.Ok? && Evicts(s, r.value, d, MaxConcurrency(s, r.value), PolicyOf(s, r.value), c.victim, l)
    case _ => false
  }

  /** A new device is bound at the full cap, and this one's device goes. */
  predicate Kicked(s: Db, e: Event, l: TokenId)
    requires l in s.leases
  {
    e.ActivateCall? &&
    var (s1, r1) := ValidateLicense(s, e.product, e.key);
    r1.Ok? && Kicks(s1, r1.value, e.device, e.choices.kicked, l)
  }

  /** The device is deactivated with a key of its own license. */
  predicate Deactivated(s: Db, e: Event, l: TokenId)
    requires l in s.leases
  {
    e.DeactivateCall? && s.leases[l].device == e.device && FindActive(s, e.device).Ok?
    && ValidateLicense(s, e.product, e.key).1 == Ok(s.devices[e.device].license)
  }

  /** The lease has expired, and its token is presented. */
  predicate FoundExpired(s: Db, e: Event, l: TokenId)
    requires l in s.leases
  {
    (e.VerifyCall? || e.HeartbeatCall?) && TooLate(s, e.token, e.device, l)
  }

  predicate Ends(s: Db, e: Event, l: TokenId)
    requires l in s.leases
  {
    Replaced(s, e, l) || Evicted(s, e, l) || Kicked(s, e, l) || Deactivated(s, e, l) || FoundExpired(s, e, l)
  }

  lemma ActivateEndsIff(s: Db, product: string, key: string, d: string, v: string, c: Choices, l: TokenId)
    requires Active(s, l) && ActivateChoicesOk(s, product, key, d, v, c)
    ensures !Active(Activate(s, product, key, d, v, c).0, l) <==> Ends(s, ActivateCall(product, key, d, v, c), l)
  {
    hide ValidateLicense, Bind, Issue, Kicks, Evicts, FeatureFlags, KickChoiceOk;
    var (s1, r1) := ValidateLicense(s, product, key);
    if r1.Ok? {
      var (s2, r2) := Bind(s1, r1.value, d, v, c.kicked);
      BindEnds(s1, r1.value, d, v, c.kicked, l);
      BindKeepsRow(s1, r1.value, d, v, c.kicked, l);
      if r2.Ok? && Active(s2, l) {
        IssueEnds(s2, r1.value, d, v, MaxConcurrency(s2, r1.value), PolicyOf(s2, r1.value), c.issue, l);
      }
      if r2.Ok? && !Active(s2, l) {
        IssueRevivesNothing(s2, r1.value, d, v, MaxConcurrency(s2, r1.value), PolicyOf(s2, r1.value), c.issue, l);
      }
    }
  }

  lemma BindKeepsRow(s: Db, lic: KeyHash, d: string, v: string, kicked: string, l: TokenId)
    requires Known(s, lic) && l in s.leases
    ensures var s' := Bind(s, lic, d, v, kicked).0;
            && l in s'.leases && s'.leases[l].device == s.leases[l].device
            && MaxConcurrency(s', lic) == MaxConcurrency(s, lic) && PolicyOf(s', lic) == PolicyOf(s, lic)
  {
    hide ActiveDevices, MaxDevices;
  }

  lemma IssueRevivesNothing(s: Db, lic: KeyHash, d: string, v: string, maxC: int, policy: BindingPolicy, c: IssueChoice, l: TokenId)
    requires l in s.leases && !Active(s, l) && c.jti !in s.leases
    ensures !Active(Issue(s, lic, d, v, maxC, policy, c).0, l)
  {
    IssueEvolves(s, lic, d, v, maxC, policy, c);
  }

  /** The live devices other than `d` are the same after `d` was touched and its token's
      lease revoked. */
  lemma RotatedLive(s: Db, t: Token, d: string, v: string, lic: KeyHash)
    requires t.jti in s.leases && s.leases[t.jti].device == d && d in s.devices
    ensures LiveDevices(Rotated(s, t, d, v), lic) - {d} == LiveDevices(s, lic) - {d}
  {
    var s' := Rotated(s, t, d, v);
    FrameLive(s, s', lic);
    forall e | e in LiveDevices(s, lic) && e != d ensures e in LiveDevices(s', lic) {
      var m :| m in s.leases && s.leases[m].license == lic && s.leases[m].device == e && Unexpired(s, m);
      assert m in s'.leases && Unexpired(s', m);
    }
  }

  /** What touching, revoking and issuing end together. */
  lemma RenewalEnds(s: Db, t: Token, lic: KeyHash, d: string, v: string, c: IssueChoice, l: TokenId)
    requires Active(s, l) && Known(s, lic) && d in s.devices && c.jti !in s.leases
    requires t.jti in s.leases && s.leases[t.jti].device == d
    ensures !Active(Renew(Rotated(s, t, d, v), lic, d, v, c).0, l) <==>
              s.leases[l].device == d || Evicts(s, lic, d, MaxConcurrency(s, lic), PolicyOf(s, lic), c.victim, l)
  {
    hide LiveDevices, Issue;
    var s2 := Rotated(s, t, d, v);
    RotatedLive(s, t, d, v, lic);
    SameLimits(s, s2, lic);
    if Active(s2, l) {
      IssueEnds(s2, lic, d, v, MaxConcurrency(s2, lic), PolicyOf(s2, lic), c, l);
    } else {
      IssueRevivesNothing(s2, lic, d, v, MaxConcurrency(s2, lic), PolicyOf(s2, lic), c, l);
    }
  }

  lemma HeartbeatEndsIff(s: Db, t: Token, product: string, d: string, v: string, c: IssueChoice, l: TokenId)
    requires Inv(s) && Active(s, l) && HeartbeatChoiceOk(s, t, product, d, v, c)
    ensures !Active(Heartbeat(s, t, product, d, v, c).0, l) <==> Ends(s, HeartbeatCall(t, product, d, v, c), l)
  {
    hide Inv, Renew, Evicts, TooLate, HeartbeatGate, FeatureFlags, ConcurrencyFull;
    var r := HeartbeatGate(s, t, product, d, v).1;
    if r.Ok? {
      GateFacts(s, t, product, d, v);
      GateNotTooLate(s, t, product, d, v, l);
      RenewalEnds(s, t, r.value, d, v, c, l);
    } else {
      GateRefusedEnds(s, t, product, d, v, l);
    }
  }

  lemma GateRefusedEnds(s: Db, t: Token, product: string, d: string, v: string, l: TokenId)
    requires Active(s, l) && HeartbeatGate(s, t, product, d, v).1.Err?
    ensures !Active(HeartbeatGate(s, t, product, d, v).0, l) <==> TooLate(s, t, d, l)
  {
    hide EnsureValid, EnsureAllowed;
  }

  lemma GateNotTooLate(s: Db, t: Token, product: string, d: string, v: string, l: TokenId)
    requires l in s.leases && HeartbeatGate(s, t, product, d, v).1.Ok?
    ensures !TooLate(s, t, d, l)
  {
    hide EnsureValid, EnsureAllowed;
  }

  lemma DeactivateEndsIff(s: Db, product: string, key: string, d: string, l: TokenId)
    requires Active(s, l)
    ensures !Active(Deactivate(s, product, key, d).0, l) <==> Ends(s, DeactivateCall(product, key, d), l)
  {
    hide ValidateLicense;
  }

  /** An active lease ends in a step exactly when one of the five causes applies. */
  lemma StepEndsIff(s: Db, e: Event, l: TokenId)
    requires Inv(s) && Enabled(s, e) && Active(s, l)
    ensures !Active(Step(s, e), l) <==> Ends(s, e, l)
  {
    hide Inv, Activate, Heartbeat, Deactivate, Validate, ActivateChoicesOk, HeartbeatChoiceOk, ValidateLicense, HeartbeatGate, Bind, Evicts, Kicks, TooLate, EnsureValid, EnsureAllowed;
    match e
    case ActivateCall(product, key, d, v, c) => ActivateEndsIff(s, product, key, d, v, c, l);
    case VerifyCall(t, product, d, v) => ValidateEnds(s, t, d, l);
    case HeartbeatCall(t, product, d, v, c) => HeartbeatEndsIff(s, t, product, d, v, c, l);
    case DeactivateCall(product, key, d) => DeactivateEndsIff(s, product, key, d, l);
    case _ =>
  }

  // ---------------------------------------------------------------------------
  // Runs

  /** None of the causes applies to the lease at any step of the run. */
  predicate Undisturbed(s: Db, es: seq<Event>, l: TokenId)
    requires l in s.leases
    decreases |es|
  {
    es == [] || (!Ends(s, es[0], l) && l in Step(s, es[0]).leases && Undisturbed(Step(s, es[0]), es[1..], l))
  }

  /** Over every run an active lease stays active exactly as long as none of the five
      causes applies to it. */
  lemma {:induction false} ActiveUntilEnded(s: Db, es: seq<Event>, l: TokenId)
    requires Inv(s) && ValidRun(s, es) && Active(s, l)
    ensures Active(Run(s, es), l) <==> Undisturbed(s, es, l)
    decreases |es|
  {
    hide Inv, Step, Enabled, Ends;
    if es != [] {
      var s1 := Step(s, es[0]);
      StepKeepsInv(s, es[0]);
      StepEvolves(s, es[0]);
      StepEndsIff(s, es[0], l);
      if Active(s1, l) {
        ActiveUntilEnded(s1, es[1..], l);
      } else {
        RunEvolves(s1, es[1..]);
      }
    }
  }
}
