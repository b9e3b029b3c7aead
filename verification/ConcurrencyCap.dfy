/** The concurrency cap: how many devices can hold a live lease, and how many
    tokens the server can accept, at any moment of any run. */
module ConcurrencyCap {
  import opened Rows
  import opened LeaseService
  import opened DeviceService
  import opened LicenseService
  import opened LicenseApi
  import opened Runs

  function Max(a: int, b: int): int {
    if a >= b then a else b
  }

  lemma {:induction false} SubsetCard<T>(a: set<T>, b: set<T>)
    requires a <= b
    ensures |a| <= |b|
  {
    if a != {} {
      var x :| x in a;
      SubsetCard(a - {x}, b - {x});
    }
  }

  // ---------------------------------------------------------------------------
  // Limits are fixed

  ghost predicate SameTerms(before: map<KeyHash, License>, after: map<KeyHash, License>) {
    forall h | h in before ::
      && h in after
      && after[h].product == before[h].product && after[h].plan == before[h].plan
      && after[h].maxDevicesOverride == before[h].maxDevicesOverride
      && after[h].maxConcurrencyOverride == before[h].maxConcurrencyOverride
  }

  lemma StepKeepsTerms(s: Db, e: Event)
    ensures Step(s, e).products == s.products && Step(s, e).plans == s.plans
    ensures SameTerms(s.licenses, Step(s, e).licenses)
  {
    hide Activate, Heartbeat, Verify, ValidateLicense, RevokeActive, SameTerms;
    SameTermsKept(s.licenses);
    match e
    case DeactivateCall(product, key, d) => RedeemKeepsTerms(s, product, key);
    case ActivateCall(product, key, d, v, c) => ActivateKeepsTerms(s, product, key, d, v, c);
    case SetLicenseStatus(h, status) => if h in s.licenses { StatusKeepsTerms(s.licenses, h, status); }
    case AddLicense(h, row) => if h !in s.licenses { AddingKeepsTerms(s.licenses, h, row); }
    case _ =>
  }

  lemma SameTermsKept(licenses: map<KeyHash, License>)
    ensures SameTerms(licenses, licenses)
  { }

  lemma StatusKeepsTerms(licenses: map<KeyHash, License>, h: KeyHash, status: LicenseStatus)
    requires h in licenses
    ensures SameTerms(licenses, licenses[h := licenses[h].(status := status)])
  { }

  lemma AddingKeepsTerms(licenses: map<KeyHash, License>, h: KeyHash, row: License)
    requires h !in licenses
    ensures SameTerms(licenses, licenses[h := row])
  { }

  lemma ActivateKeepsTerms(s: Db, product: string, key: string, d: string, v: string, c: Choices)
    ensures var s' := Activate(s, product, key, d, v, c).0;
            s'.products == s.products && s'.plans == s.plans && SameTerms(s.licenses, s'.licenses)
  {
    hide ValidateLicense, GetOrCreate, Issue;
    RedeemKeepsTerms(s, product, key);
  }

  lemma RedeemKeepsTerms(s: Db, product: string, key: string)
    ensures SameTerms(s.licenses, ValidateLicense(s, product, key).0.licenses)
  { hide EnsureValid, CardProblem; }

  lemma TermsFixLimits(s: Db, s': Db, lic: KeyHash)
    requires s'.products == s.products && s'.plans == s.plans && SameTerms(s.licenses, s'.licenses)
    requires Known(s, lic)
    ensures Known(s', lic)
    ensures MaxConcurrency(s', lic) == MaxConcurrency(s, lic)
    ensures MaxDevices(s', lic) == MaxDevices(s, lic)
  { }

  lemma {:induction false} RunKeepsLimits(s: Db, es: seq<Event>, lic: KeyHash)
    requires Known(s, lic)
    ensures Known(Run(s, es), lic)
    ensures MaxConcurrency(Run(s, es), lic) == MaxConcurrency(s, lic)
    ensures MaxDevices(Run(s, es), lic) == MaxDevices(s, lic)
    decreases |es|
  {
    hide Step, SameTerms, Known, MaxConcurrency, MaxDevices;
    if es != [] {
      StepKeepsTerms(s, es[0]);
      TermsFixLimits(s, Step(s, es[0]), lic);
      RunKeepsLimits(Step(s, es[0]), es[1..], lic);
    }
  }

  // ---------------------------------------------------------------------------
  // How each change moves the set of live devices

  lemma FrameLive(s: Db, s': Db, lic: KeyHash)
    requires s'.now >= s.now
    requires forall d | d in s'.devices && s'.devices[d].status == DeviceActive :: d in s.devices && s.devices[d].status == DeviceActive
    requires s'.leases.Keys <= s.leases.Keys
    requires forall l | l in s'.leases ::
               s'.leases[l].license == s.leases[l].license && s'.leases[l].device == s.leases[l].device
               && s'.leases[l].expireAt == s.leases[l].expireAt
               && (s'.leases[l].status == LeaseActive ==> s.leases[l].status == LeaseActive)
    ensures LiveDevices(s', lic) <= LiveDevices(s, lic)
  {
    forall d | d in LiveDevices(s', lic) ensures d in LiveDevices(s, lic) {
      var l :| l in s'.leases && s'.leases[l].license == lic && s'.leases[l].device == d && Unexpired(s', l);
      assert l in s.leases && Unexpired(s, l);
    }
  }

  lemma RevokeLive(s: Db, d: string, lic: KeyHash)
    ensures var s' := s.(leases := RevokeActive(s.leases, d));
            LiveDevices(s', lic) == LiveDevices(s, lic) - {d}
  {
    var s' := s.(leases := RevokeActive(s.leases, d));
    FrameLive(s, s', lic);
    forall e | e in LiveDevices(s, lic) && e != d ensures e in LiveDevices(s', lic) {
      var l :| l in s.leases && s.leases[l].license == lic && s.leases[l].device == e && Unexpired(s, l);
      assert l in s'.leases && Unexpired(s', l);
    }
    assert d !in LiveDevices(s', lic);
  }

  lemma GrantLive(s: Db, lic: KeyHash, d: string, v: string, jti: TokenId, l: KeyHash)
    requires jti !in s.leases
    ensures LiveDevices(Grant(s, lic, d, v, jti).0, l) <= LiveDevices(s, l) + (if l == lic then {d} else {})
  {
    var s' := Grant(s, lic, d, v, jti).0;
    forall e | e in LiveDevices(s', l) && !(l == lic && e == d) ensures e in LiveDevices(s, l) {
      var m :| m in s'.leases && s'.leases[m].license == l && s'.leases[m].device == e && Unexpired(s', m);
      assert m != jti;
      assert m in s.leases && Unexpired(s, m);
    }
  }

  /** Issuing never lifts a license above its limit, and never lifts it further
      when it is above already. */
  lemma IssueLive(s: Db, lic: KeyHash, d: string, v: string, maxC: int, policy: BindingPolicy, c: IssueChoice, l: KeyHash)
    requires IssueChoiceOk(s, lic, d, maxC, policy, c)
    ensures var s' := Issue(s, lic, d, v, maxC, policy, c).0;
            && (l != lic ==> |LiveDevices(s', l)| <= |LiveDevices(s, l)|)
            && (maxC >= 1 ==> |LiveDevices(s', l)| <= Max(|LiveDevices(s, l)|, maxC))
  {
    hide LiveDevices;
    var s1 := s.(leases := RevokeActive(s.leases, d));
    var s2 := s1.(leases := RevokeActive(s1.leases, c.victim));
    RevokeLive(s, d, l);
    RevokeLive(s1, c.victim, l);
    SubsetCard(LiveDevices(s1, l), LiveDevices(s, l));
    SubsetCard(LiveDevices(s2, l), LiveDevices(s1, l));
    if !ConcurrencyFull(s1, lic, maxC) {
      GrantedLive(s1, lic, d, v, c.jti, l);
    } else if policy == KickOldest {
      GrantedLive(s2, lic, d, v, c.jti, l);
    }
  }

  lemma GrantedLive(s: Db, lic: KeyHash, d: string, v: string, jti: TokenId, l: KeyHash)
    requires jti !in s.leases
    ensures |LiveDevices(Grant(s, lic, d, v, jti).0, l)| <= |LiveDevices(s, l)| + (if l == lic then 1 else 0)
  {
    hide LiveDevices;
    GrantLive(s, lic, d, v, jti, l);
    SubsetCard(LiveDevices(Grant(s, lic, d, v, jti).0, l), LiveDevices(s, l) + (if l == lic then {d} else {}));
  }

  lemma BindLive(s: Db, lic: KeyHash, d: string, v: string, kicked: string, l: KeyHash)
    requires Inv(s) && Known(s, lic)
    ensures LiveDevices(Bind(s, lic, d, v, kicked).0, l) <= LiveDevices(s, l)
  {
    hide Bind, Inv, LiveDevices;
    BindCases(s, lic, d, v, kicked);
    var s' := Bind(s, lic, d, v, kicked).0;
    if d in s.devices {
      TouchLive(s, d, v, l);
    } else {
      CreateLive(s, lic, d, v, l);
      if kicked in s.devices {
        RevokeActiveDeactivates(s.leases, kicked);
        FrameLive(s, Kick(s, kicked), l);
        KickKeepsInv(s, kicked);
        CreateLive(Kick(s, kicked), lic, d, v, l);
      }
    }
  }

  /** Binding comes down to one of these. */
  lemma BindCases(s: Db, lic: KeyHash, d: string, v: string, kicked: string)
    requires Known(s, lic)
    ensures var s' := Bind(s, lic, d, v, kicked).0;
            || s' == s
            || (d in s.devices && s' == Touch(s, d, v))
            || (d !in s.devices && s' == Create(s, lic, d, v))
            || (d !in s.devices && kicked in s.devices && s' == Create(Kick(s, kicked), lic, d, v))
  {
    hide ActiveDevices, MaxDevices, PolicyOf;
  }

  lemma TouchLive(s: Db, d: string, v: string, l: KeyHash)
    requires Inv(s) && d in s.devices
    ensures LiveDevices(Touch(s, d, v), l) <= LiveDevices(s, l)
  {
    FrameLive(s, Touch(s, d, v), l);
  }

  /** A new device has no lease yet. */
  lemma CreateLive(s: Db, lic: KeyHash, d: string, v: string, l: KeyHash)
    requires Inv(s) && d !in s.devices
    ensures LiveDevices(Create(s, lic, d, v), l) <= LiveDevices(s, l)
  {
    var s' := Create(s, lic, d, v);
    forall e | e in LiveDevices(s', l) ensures e in LiveDevices(s, l) {
      var m :| m in s'.leases && s'.leases[m].license == l && s'.leases[m].device == e && Unexpired(s', m);
      assert m in s.leases && Unexpired(s, m);
      assert s.leases[m].device in s.devices;
    }
  }

  lemma ActivateLive(s: Db, product: string, key: string, d: string, v: string, c: Choices, l: KeyHash)
    requires Inv(s) && ActivateChoicesOk(s, product, key, d, v, c)
    requires var s' := Activate(s, product, key, d, v, c).0; Known(s', l) && MaxConcurrency(s', l) >= 1
    ensures var s' := Activate(s, product, key, d, v, c).0;
            |LiveDevices(s', l)| <= Max(|LiveDevices(s, l)|, MaxConcurrency(s', l))
  {
    hide Inv, ValidateLicense, GetOrCreate, Issue, LiveDevices, IssueChoiceOk, KickChoiceOk, MaxDevices;
    ValidateLicenseKeepsInv(s, product, key);
    var (s1, r1) := ValidateLicense(s, product, key);
    FrameLiveEqual(s, s1, l);
    if r1.Ok? {
      var lic := r1.value;
      var (s2, r2) := Bind(s1, lic, d, v, c.kicked);
      BindLive(s1, lic, d, v, c.kicked, l);
      SubsetCard(LiveDevices(s2, l), LiveDevices(s1, l));
      if r2.Ok? {
        IssueLive(s2, lic, d, v, MaxConcurrency(s2, lic), PolicyOf(s2, lic), c.issue, l);
        var (s3, r3) := Renew(s2, lic, d, v, c.issue);
        FrameLiveEqual(s3, StampActivation(s3, lic), l);
      }
    }
  }

  lemma FrameLiveEqual(s: Db, s': Db, l: KeyHash)
    requires s'.devices == s.devices && s'.leases == s.leases && s'.now == s.now
    ensures LiveDevices(s', l) == LiveDevices(s, l)
  {
    FrameLive(s, s', l);
    FrameLive(s', s, l);
  }

  lemma HeartbeatLive(s: Db, t: Token, product: string, d: string, v: string, c: IssueChoice, l: KeyHash)
    requires Inv(s) && HeartbeatChoiceOk(s, t, product, d, v, c)
    requires Known(s, l) && MaxConcurrency(s, l) >= 1
    ensures |LiveDevices(Heartbeat(s, t, product, d, v, c).0, l)| <= Max(|LiveDevices(s, l)|, MaxConcurrency(s, l))
  {
    hide Issue, LiveDevices, IssueChoiceOk, PolicyOf, EnsureValid, EnsureAllowed, Inv, MaxConcurrency, HeartbeatGate;
    GateLive(s, t, product, d, v, l);
    var (s1, r1) := HeartbeatGate(s, t, product, d, v);
    if r1.Ok? {
      var s2 := Rotated(s, t, d, v);
      SameLimits(s, s2, r1.value);
      IssueLive(s2, r1.value, d, v, MaxConcurrency(s2, r1.value), PolicyOf(s2, r1.value), c, l);
    }
  }

  lemma SameLimits(s: Db, s': Db, l: KeyHash)
    requires Known(s, l) && s'.products == s.products && s'.plans == s.plans && s'.licenses == s.licenses
    ensures Known(s', l) && MaxConcurrency(s', l) == MaxConcurrency(s, l) && PolicyOf(s', l) == PolicyOf(s, l)
  { }

  lemma GateLive(s: Db, t: Token, product: string, d: string, v: string, l: KeyHash)
    ensures var (s1, r1) := HeartbeatGate(s, t, product, d, v);
            && |LiveDevices(s1, l)| <= |LiveDevices(s, l)|
            && (r1.Ok? ==> |LiveDevices(Rotated(s, t, d, v), l)| <= |LiveDevices(s, l)|)
  {
    hide LiveDevices, EnsureValid, EnsureAllowed;
    var (s1, r1) := HeartbeatGate(s, t, product, d, v);
    FrameLive(s, s1, l);
    SubsetCard(LiveDevices(s1, l), LiveDevices(s, l));
    if r1.Ok? {
      var s2 := Rotated(s, t, d, v);
      FrameLive(s, s2, l);
      SubsetCard(LiveDevices(s2, l), LiveDevices(s, l));
    }
  }

  /** An admin turned a device of license `l` active again. */
  predicate Reenables(s: Db, e: Event, l: KeyHash) {
    && e.SetDeviceStatus? && e.deviceStatus == DeviceActive
    && e.device in s.devices && s.devices[e.device].license == l && s.devices[e.device].status != DeviceActive
  }

  lemma ReenableLive(s: Db, e: Event, l: KeyHash)
    requires Inv(s) && e.SetDeviceStatus?
    ensures |LiveDevices(Step(s, e), l)| <= |LiveDevices(s, l)| + (if Reenables(s, e, l) then 1 else 0)
  {
    hide Activate, Heartbeat, Verify, Deactivate, LiveDevices;
    var s' := Step(s, e);
    var extra := if Reenables(s, e, l) then {e.device} else {};
    ReenableAdds(s, e, l, extra);
    SubsetCard(LiveDevices(s', l), LiveDevices(s, l) + extra);
  }

  lemma ReenableAdds(s: Db, e: Event, l: KeyHash, extra: set<string>)
    requires Inv(s) && e.SetDeviceStatus?
    requires extra == if Reenables(s, e, l) then {e.device} else {}
    ensures LiveDevices(Step(s, e), l) <= LiveDevices(s, l) + extra
  {
    hide Activate, Heartbeat, Verify, Deactivate, ForeignKeys, OneActiveLease, SignedMatchLeases;
    var s' := Step(s, e);
    forall d | d in LiveDevices(s', l) ensures d in LiveDevices(s, l) + extra {
      var m :| m in s'.leases && s'.leases[m].license == l && s'.leases[m].device == d && Unexpired(s', m);
      assert m in s.leases && Unexpired(s, m);
      if s.devices[d].status == DeviceActive { assert HoldsLive(s, l, d); }
    }
  }

  /** An unexpired active lease of license `l` on device `d`, whatever the device's status. */
  predicate HoldsLease(s: Db, l: KeyHash, d: string) {
    exists m :: m in s.leases && s.leases[m].license == l && s.leases[m].device == d && Unexpired(s, m)
  }

  lemma OthersIgnoreStatus(s: Db, d: string, status: DeviceStatus, lic: KeyHash)
    requires d in s.devices
    ensures LiveDevices(Step(s, SetDeviceStatus(d, status)), lic) - {d} == LiveDevices(s, lic) - {d}
  {
    hide Activate, Heartbeat, Verify, Deactivate;
    var s' := Step(s, SetDeviceStatus(d, status));
    forall e | e != d ensures e in LiveDevices(s', lic) <==> e in LiveDevices(s, lic) {
      assert forall l | l in s.leases :: Unexpired(s', l) == Unexpired(s, l);
      assert HoldsLive(s', lic, e) <==> HoldsLive(s, lic, e);
    }
  }

  /** Turning a device active again adds it to the live devices exactly when it still
      holds an unexpired active lease; no cap is looked at. */
  lemma ReenabledLiveIff(s: Db, d: string, l: KeyHash)
    requires d in s.devices && s.devices[d].status != DeviceActive
    ensures var s' := Step(s, SetDeviceStatus(d, DeviceActive));
            && LiveDevices(s', l) == LiveDevices(s, l) + (if HoldsLease(s, l, d) then {d} else {})
            && |LiveDevices(s', l)| == |LiveDevices(s, l)| + (if HoldsLease(s, l, d) then 1 else 0)
  {
    hide Activate, Heartbeat, Verify, Deactivate;
    var s' := Step(s, SetDeviceStatus(d, DeviceActive));
    OthersIgnoreStatus(s, d, DeviceActive, l);
    assert d !in LiveDevices(s, l);
    assert d in LiveDevices(s', l) <==> HoldsLease(s, l, d) by {
      assert forall m | m in s.leases :: Unexpired(s', m) == Unexpired(s, m);
    }
    hide LiveDevices, HoldsLease;
    assert LiveDevices(s', l) == LiveDevices(s, l) + (if HoldsLease(s, l, d) then {d} else {});
  }

  lemma StepLive(s: Db, e: Event, l: KeyHash)
    requires Inv(s) && Enabled(s, e)
    requires Known(Step(s, e), l) && MaxConcurrency(Step(s, e), l) >= 1
    ensures |LiveDevices(Step(s, e), l)|
         <= Max(|LiveDevices(s, l)|, MaxConcurrency(Step(s, e), l)) + (if Reenables(s, e, l) then 1 else 0)
  {
    hide LiveDevices, Activate, Heartbeat, Verify, Deactivate, ActivateChoicesOk, HeartbeatChoiceOk, Inv, MaxConcurrency;
    match e
    case ActivateCall(product, key, d, v, c) => ActivateLive(s, product, key, d, v, c, l);
    case HeartbeatCall(token, product, d, v, c) =>
      SameLimits(Step(s, e), s, l);
      HeartbeatLive(s, token, product, d, v, c, l);
    case SetDeviceStatus(_, _) => ReenableLive(s, e, l);
    case VerifyCall(token, product, d, v) => VerifyLive(s, token, product, d, v, l);
    case DeactivateCall(product, key, d) => DeactivateLive(s, product, key, d, l);
    case _ =>
      FrameLive(s, Step(s, e), l);
      SubsetCard(LiveDevices(Step(s, e), l), LiveDevices(s, l));
  }

  lemma VerifyLive(s: Db, t: Token, product: string, d: string, v: string, l: KeyHash)
    ensures |LiveDevices(Verify(s, t, product, d, v).0, l)| <= |LiveDevices(s, l)|
  {
    hide LiveDevices, EnsureValid, EnsureAllowed;
    var s' := Validate(s, t, d).0;
    FrameLive(s, s', l);
    SubsetCard(LiveDevices(s', l), LiveDevices(s, l));
  }

  lemma DeactivateLive(s: Db, product: string, key: string, d: string, l: KeyHash)
    ensures |LiveDevices(Deactivate(s, product, key, d).0, l)| <= |LiveDevices(s, l)|
  {
    hide LiveDevices, EnsureValid, ValidateLicense, RevokeActive;
    RevokeActiveDeactivates(s.leases, d);
    var s' := Deactivate(s, product, key, d).0;
    FrameLive(s, s', l);
    SubsetCard(LiveDevices(s', l), LiveDevices(s, l));
  }

  // ---------------------------------------------------------------------------
  // Whole runs

  function ReenableCount(s: Db, es: seq<Event>, l: KeyHash): nat
    decreases |es|
  {
    if es == [] then 0
    else (if Reenables(s, es[0], l) then 1 else 0) + ReenableCount(Step(s, es[0]), es[1..], l)
  }

  lemma {:induction false} LiveDevicesBounded(s: Db, es: seq<Event>, l: KeyHash)
    requires Inv(s) && ValidRun(s, es)
    requires Known(Run(s, es), l) && MaxConcurrency(Run(s, es), l) >= 1
    ensures |LiveDevices(Run(s, es), l)|
         <= Max(|LiveDevices(s, l)|, MaxConcurrency(Run(s, es), l)) + ReenableCount(s, es, l)
    decreases |es|
  {
    hide Step, LiveDevices, Inv, Enabled, Reenables, MaxConcurrency, Known;
    if es != [] {
      var s1 := Step(s, es[0]);
      StepKeepsInv(s, es[0]);
      LiveDevicesBounded(s1, es[1..], l);
      if Known(s1, l) {
        RunKeepsLimits(s1, es[1..], l);
        StepLive(s, es[0], l);
      } else {
        UnknownHasNoLive(s1, l);
      }
    }
  }

  lemma UnknownHasNoLive(s: Db, l: KeyHash)
    requires Inv(s) && !Known(s, l)
    ensures LiveDevices(s, l) == {}
  { }

  // ---------------------------------------------------------------------------
  // Accepted tokens

  ghost predicate Accepts(s: Db, t: Token) {
    exists product, d, v :: Verify(s, t, product, d, v).1.Ok?
  }

  ghost function AcceptedTokens(s: Db, l: KeyHash): set<Token> {
    set t | t in s.signed && t.license == l && Accepts(s, t)
  }

  lemma AcceptedIsLive(s: Db, t: Token)
    requires Inv(s) && Accepts(s, t)
    ensures t in s.signed && t.jti in s.leases && s.leases[t.jti].status == LeaseActive
    ensures t.device in LiveDevices(s, t.license)
  {
    hide EnsureValid, EnsureAllowed;
    var product, d, v :| Verify(s, t, product, d, v).1.Ok?;
    assert Unexpired(s, t.jti);
  }

  lemma OneTokenPerDevice(s: Db, t: Token, u: Token)
    requires Inv(s) && t in s.signed && u in s.signed && t.device == u.device
    requires t.jti in s.leases && s.leases[t.jti].status == LeaseActive
    requires u.jti in s.leases && s.leases[u.jti].status == LeaseActive
    ensures t == u
  {
    assert s.leases[t.jti].device == s.leases[u.jti].device;
  }

  lemma {:induction false} DistinctDevices(ts: set<Token>, ds: set<string>)
    requires forall t | t in ts :: t.device in ds
    requires forall t, u | t in ts && u in ts && t.device == u.device :: t == u
    ensures |ts| <= |ds|
  {
    if ts != {} {
      var t :| t in ts;
      DistinctDevices(ts - {t}, ds - {t.device});
    }
  }

  lemma AcceptedBounded(s: Db, l: KeyHash)
    requires Inv(s)
    ensures |AcceptedTokens(s, l)| <= |LiveDevices(s, l)|
  {
    hide Inv, Accepts, LiveDevices;
    var ts := AcceptedTokens(s, l);
    forall t | t in ts ensures t.device in LiveDevices(s, l) && t.jti in s.leases && s.leases[t.jti].status == LeaseActive {
      AcceptedIsLive(s, t);
    }
    forall t, u | t in ts && u in ts && t.device == u.device ensures t == u { OneTokenPerDevice(s, t, u); }
    DistinctDevices(ts, LiveDevices(s, l));
  }

  /** In every state of every run the server accepts at most as many distinct tokens
      of a license as its concurrency limit, plus one for each device an admin has
      turned active again (which checks no cap). */
  lemma AcceptedTokensBounded(s: Db, es: seq<Event>, l: KeyHash)
    requires Inv(s) && ValidRun(s, es) && LiveDevices(s, l) == {}
    requires Known(Run(s, es), l) && MaxConcurrency(Run(s, es), l) >= 1
    ensures |AcceptedTokens(Run(s, es), l)| <= MaxConcurrency(Run(s, es), l) + ReenableCount(s, es, l)
  {
    hide Inv, ValidRun, AcceptedTokens, LiveDevices, MaxConcurrency, Known;
    RunKeepsInv(s, es);
    LiveDevicesBounded(s, es, l);
    AcceptedBounded(Run(s, es), l);
  }
}
