/** Inputs and runs at which the protocol gives less than one might expect, next to the
    condition under which it does. */
module Shortfalls {
  import opened Rows
  import opened Wrappers
  import opened LeaseService
  import opened DeviceService
  import opened LicenseService
  import opened LicenseApi
  import opened Runs
  import opened ConcurrencyCap
  import opened Renewal
  import opened SdkClient
  import LeaseEnds

  // ---------------------------------------------------------------------------
  // Heartbeats do not look at the device

  /** A heartbeat succeeds exactly when its checks pass and the other live devices leave
      room, or the policy makes room. */
  lemma HeartbeatOkIff(s: Db, t: Token, product: string, d: string, v: string, c: IssueChoice)
    requires Inv(s)
    ensures Heartbeat(s, t, product, d, v, c).1.Ok? <==>
              var r := HeartbeatGate(s, t, product, d, v).1;
              r.Ok? && !(MaxConcurrency(s, r.value) > 0 && PolicyOf(s, r.value) != KickOldest
                         && |LiveDevices(s, r.value) - {d}| >= MaxConcurrency(s, r.value))
  {
    hide Inv, HeartbeatGate, Issue, LiveDevices, FeatureFlags;
    var r := HeartbeatGate(s, t, product, d, v).1;
    if r.Ok? {
      GateFacts(s, t, product, d, v);
      var s2 := Rotated(s, t, d, v);
      LeaseEnds.RotatedLive(s, t, d, v, r.value);
      SameLimits(s, s2, r.value);
      IssueDeniedIff(s2, r.value, d, v, MaxConcurrency(s2, r.value), PolicyOf(s2, r.value), c);
    }
  }

  lemma GateIgnoresStatus(s: Db, t: Token, product: string, d: string, v: string, status: DeviceStatus)
    requires d in s.devices
    ensures HeartbeatGate(Step(s, SetDeviceStatus(d, status)), t, product, d, v).1 == HeartbeatGate(s, t, product, d, v).1
  {
    hide Activate, Heartbeat, Verify, Deactivate, EnsureAllowed;
    AllowedSame(s, Step(s, SetDeviceStatus(d, status)), product, v);
  }

  /** Banning or removing a device, or turning it active, changes nothing about whether
      its heartbeats succeed. */
  lemma HeartbeatIgnoresStatus(s: Db, t: Token, product: string, d: string, v: string, c: IssueChoice, status: DeviceStatus)
    requires Inv(s) && d in s.devices
    ensures Heartbeat(Step(s, SetDeviceStatus(d, status)), t, product, d, v, c).1.Ok? <==> Heartbeat(s, t, product, d, v, c).1.Ok?
  {
    hide Inv, Step, Heartbeat, HeartbeatGate, LiveDevices, MaxConcurrency, PolicyOf;
    var s' := Step(s, SetDeviceStatus(d, status));
    AdminDeviceKeepsInv(s, SetDeviceStatus(d, status));
    HeartbeatOkIff(s, t, product, d, v, c);
    HeartbeatOkIff(s', t, product, d, v, c);
    GateIgnoresStatus(s, t, product, d, v, status);
    var r := HeartbeatGate(s, t, product, d, v).1;
    if r.Ok? {
      OthersIgnoreStatus(s, d, status, r.value);
      CatalogSame(s, d, status);
      SameLimits(s, s', r.value);
    }
  }

  lemma CatalogSame(s: Db, d: string, status: DeviceStatus)
    ensures var s' := Step(s, SetDeviceStatus(d, status));
            s'.products == s.products && s'.plans == s.plans && s'.licenses == s.licenses
  {
    hide Activate, Heartbeat, Verify, Deactivate;
  }

  // ---------------------------------------------------------------------------
  // Activations do not look at the version

  lemma BindIgnoresVersion(s: Db, lic: KeyHash, d: string, v: string, w: string, kicked: string)
    requires Known(s, lic)
    ensures Bind(s, lic, d, v, kicked).1 == Bind(s, lic, d, w, kicked).1
    ensures var (s1, s2) := (Bind(s, lic, d, v, kicked).0, Bind(s, lic, d, w, kicked).0);
            && s2 == s1.(devices := s2.devices) && s2.devices.Keys == s1.devices.Keys
            && forall e | e in s1.devices :: s2.devices[e] == s1.devices[e].(appVersion := s2.devices[e].appVersion)
  {
    hide ActiveDevices, MaxDevices, PolicyOf, RevokeActive;
  }

  /** An activation answers every version alike. */
  lemma ActivateIgnoresVersion(s: Db, product: string, key: string, d: string, v: string, w: string, c: Choices)
    ensures Activate(s, product, key, d, v, c).1 == Activate(s, product, key, d, w, c).1
  {
    hide ValidateLicense, Bind, Issue, MaxConcurrency, PolicyOf, FeatureFlags;
    var (s1, r1) := ValidateLicense(s, product, key);
    if r1.Ok? {
      var lic := r1.value;
      BindIgnoresVersion(s1, lic, d, v, w, c.kicked);
      var s2, t2 := Bind(s1, lic, d, v, c.kicked).0, Bind(s1, lic, d, w, c.kicked).0;
      if Bind(s1, lic, d, v, c.kicked).1.Ok? {
        LimitsOf(s1, s2, lic);
        LimitsOf(s1, t2, lic);
        IssueIgnoresVersion(s2, t2, lic, d, v, w, MaxConcurrency(s2, lic), PolicyOf(s2, lic), c.issue);
      }
    }
  }

  lemma LimitsOf(s: Db, s': Db, lic: KeyHash)
    requires Known(s, lic) && s' == s.(devices := s'.devices, leases := s'.leases)
    ensures Known(s', lic) && MaxConcurrency(s', lic) == MaxConcurrency(s, lic) && PolicyOf(s', lic) == PolicyOf(s, lic)
  { }

  lemma IssueIgnoresVersion(s: Db, t: Db, lic: KeyHash, d: string, v: string, w: string, maxC: int, policy: BindingPolicy, c: IssueChoice)
    requires t == s.(devices := t.devices) && t.devices.Keys == s.devices.Keys
    requires forall e | e in s.devices :: t.devices[e].status == s.devices[e].status
    ensures Issue(s, lic, d, v, maxC, policy, c).1 == Issue(t, lic, d, w, maxC, policy, c).1
  {
    hide LiveDevices, RevokeActive;
    TouchedLive(s.(leases := RevokeActive(s.leases, d)), t.(leases := RevokeActive(t.leases, d)), lic);
  }

  // ---------------------------------------------------------------------------
  // One device banned and back: both caps exceeded

  const OWN := Hmac("OWN")
  const OTHER := Hmac("OTHER")
  const PLAN := PlanRef("p", "plan")
  const LICENSE := License("p", PLAN, LicenseActive, None, None, None, None, None)
  const TOKEN_A := Token(0, OWN, "a", 0, 1000)
  const TOKEN_B := Token(1, OWN, "b", 0, 1000)
  const LEASE_A := Lease(OWN, "a", 0, 1000, LeaseActive, "1")
  const LEASE_B := Lease(OWN, "b", 0, 1000, LeaseActive, "1")

  /** One device and one live device allowed; `a` is both. */
  const START := Db(
    map["p" := Product(true, None)],
    map[PLAN := Plan(true, 30, 1, 1, map[])],
    map[OWN := LICENSE, OTHER := LICENSE],
    map[],
    map["a" := Device(OWN, DeviceActive, 0, 0, "1")],
    map[0 := LEASE_A],
    {TOKEN_A}, 0, 1000)

  /** `a` and `b` are both active and live. */
  const CROWDED := START.(
    licenses := map[OWN := LICENSE.(activateAt := Some(0)), OTHER := LICENSE],
    devices := map["a" := Device(OWN, DeviceActive, 0, 0, "1"), "b" := Device(OWN, DeviceActive, 0, 0, "1")],
    leases := map[0 := LEASE_A, 1 := LEASE_B],
    signed := {TOKEN_A, TOKEN_B})

  const BAN := SetDeviceStatus("a", DeviceBanned)
  const ARRIVAL := ActivateCall("p", "OWN", "b", "1", Choices("", IssueChoice(1, "")))
  const UNBAN := SetDeviceStatus("a", DeviceActive)

  const BANNED_A := START.(devices := map["a" := Device(OWN, DeviceBanned, 0, 0, "1")])
  const WITH_B := CROWDED.(devices := map["a" := Device(OWN, DeviceBanned, 0, 0, "1"), "b" := Device(OWN, DeviceActive, 0, 0, "1")])

  lemma StartIsSound()
    ensures Inv(START) && Known(START, OWN) && MaxDevices(START, OWN) == 1 && MaxConcurrency(START, OWN) == 1 && PolicyOf(START, OWN) == DenyNew
    ensures |ActiveDevices(START, OWN)| == 1 && |LiveDevices(START, OWN)| == 1
  {
    assert ActiveDevices(START, OWN) == {"a"};
    assert Unexpired(START, 0);
    assert LiveDevices(START, OWN) == {"a"};
  }

  /** The newcomer finds the only device banned, so there is room for it. */
  lemma NewcomerAdmitted()
    ensures Enabled(BANNED_A, ARRIVAL) && Step(BANNED_A, ARRIVAL) == WITH_B
  {
    assert ValidateLicense(BANNED_A, "p", "OWN") == (BANNED_A, Ok(OWN));
    assert ActiveDevices(BANNED_A, OWN) == {};
    var s2 := BANNED_A.(devices := WITH_B.devices);
    assert Bind(BANNED_A, OWN, "b", "1", "") == (s2, Ok(()));
    NewcomerLeased(s2);
    hide Bind, Renew, ValidateLicense;
  }

  lemma NewcomerLeased(s: Db)
    requires s == BANNED_A.(devices := WITH_B.devices)
    ensures IssueChoiceOk(s, OWN, "b", MaxConcurrency(s, OWN), PolicyOf(s, OWN), IssueChoice(1, ""))
    ensures Renew(s, OWN, "b", "1", IssueChoice(1, "")) == (WITH_B.(licenses := START.licenses), Ok(TOKEN_B))
  {
    assert RevokeActive(s.leases, "b") == s.leases;
    assert s.(leases := s.leases) == s;
    assert LiveDevices(s, OWN) == {};
    assert MaxConcurrency(s, OWN) == 1;
    hide LiveDevices, RevokeActive, PolicyOf, MaxConcurrency;
    assert s.leases[1 := LEASE_B] == WITH_B.leases && s.signed + {TOKEN_B} == WITH_B.signed;
  }

  lemma CrowdedIsOver()
    ensures ActiveDevices(CROWDED, OWN) == {"a", "b"} && LiveDevices(CROWDED, OWN) == {"a", "b"}
    ensures AcceptedTokens(CROWDED, OWN) == {TOKEN_A, TOKEN_B}
    ensures |ActiveDevices(CROWDED, OWN)| == 2 && |LiveDevices(CROWDED, OWN)| == 2 && |AcceptedTokens(CROWDED, OWN)| == 2
  {
    assert Unexpired(CROWDED, 0) && Unexpired(CROWDED, 1);
    assert Verify(CROWDED, TOKEN_A, "p", "a", "1").1.Ok?;
    assert Verify(CROWDED, TOKEN_B, "p", "b", "1").1.Ok?;
  }

  /** From within both caps, one ban, one activation and one lifted ban lead above both,
      and above the bound on accepted tokens by the one re-enabling. */
  lemma ReenablingExceedsCaps()
    ensures Inv(START) && ValidRun(START, [BAN, ARRIVAL, UNBAN]) && Run(START, [BAN, ARRIVAL, UNBAN]) == CROWDED
    ensures |ActiveDevices(START, OWN)| == MaxDevices(START, OWN) && |LiveDevices(START, OWN)| == MaxConcurrency(START, OWN)
    ensures |ActiveDevices(CROWDED, OWN)| == MaxDevices(START, OWN) + 1
    ensures |LiveDevices(CROWDED, OWN)| == MaxConcurrency(START, OWN) + 1
    ensures |AcceptedTokens(CROWDED, OWN)| == MaxConcurrency(START, OWN) + 1
  {
    StartIsSound();
    CrowdedIsOver();
    NewcomerAdmitted();
    BansStep();
    hide *;
    RunOfThree(START, BAN, ARRIVAL, UNBAN);
  }

  lemma BansStep()
    ensures Step(START, BAN) == BANNED_A && Step(WITH_B, UNBAN) == CROWDED
    ensures forall s :: Enabled(s, BAN) && Enabled(s, UNBAN)
  { }

  lemma RunOfThree(s: Db, a: Event, b: Event, c: Event)
    ensures Run(s, [a, b, c]) == Step(Step(Step(s, a), b), c)
    ensures ValidRun(s, [a, b, c]) <==> Enabled(s, a) && Enabled(Step(s, a), b) && Enabled(Step(Step(s, a), b), c)
  {
    hide Step, Enabled;
    var s1, s2 := Step(s, a), Step(Step(s, a), b);
    assert [c][1..] == [] && [b, c][1..] == [c] && [a, b, c][1..] == [b, c];
    var last := [c];
    assert last != [] && last[0] == c && ValidRun(Step(s2, last[0]), last[1..]);
    assert ValidRun(s2, last) <==> Enabled(s2, c);
    assert Run(s2, [c]) == Step(s2, c) && (ValidRun(s2, [c]) <==> Enabled(s2, c));
    assert Run(s1, [b, c]) == Step(s2, c) && (ValidRun(s1, [b, c]) <==> Enabled(s1, b) && Enabled(s2, c));
  }

  // ---------------------------------------------------------------------------
  // A client that reports `active` on a lease it has just lost

  const CONFIG := Config("p", "a", "1", 24)
  const CLIENT := Renewed(Started(CONFIG, None), Cache(TOKEN_A, 1000, "a", map[]))
  const RETRY := Choices("", IssueChoice(2, ""))

  /** Over the limit, activating again fails, takes the device's lease, and leaves the
      client reporting `active` on the old token. */
  lemma DeniedActivationStrandsClient()
    ensures SdkFits(CROWDED, CLIENT) && LeaseEnds.Active(CROWDED, 0)
    ensures var (s', c') := ClientActivate(CROWDED, CLIENT, "OWN", true, RETRY);
            && Activate(CROWDED, "p", "OWN", "a", "1", RETRY).1 == Err(DeviceLimitReached)
            && c' == CLIENT && c'.state.status == SdkStatus.Active
            && !LeaseEnds.Active(s', c'.cache.value.token.jti)
  {
    assert ValidateLicense(CROWDED, "p", "OWN") == (CROWDED, Ok(OWN));
    var s2 := Touch(CROWDED, "a", "1");
    assert Bind(CROWDED, OWN, "a", "1", "") == (s2, Ok(()));
    assert MaxConcurrency(s2, OWN) == 1 && PolicyOf(s2, OWN) == DenyNew;
    TouchedDenied(s2);
    hide Bind, Issue, ValidateLicense, MaxConcurrency, PolicyOf, LeaseEnds.Active;
  }

  lemma TouchedDenied(s: Db)
    requires s == Touch(CROWDED, "a", "1")
    ensures var (s', r) := Issue(s, OWN, "a", "1", 1, DenyNew, IssueChoice(2, ""));
            r == Err(DeviceLimitReached) && !LeaseEnds.Active(s', 0)
  {
    CrowdedIsOver();
    TouchedLive(CROWDED, s, OWN);
    assert {"a", "b"} - {"a"} == {"b"};
    IssueDeniedIff(s, OWN, "a", "1", 1, DenyNew, IssueChoice(2, ""));
    LeaseEnds.IssueEnds(s, OWN, "a", "1", 1, DenyNew, IssueChoice(2, ""), 0);
    hide LiveDevices, LeaseEnds.Active, RevokeActive, ActiveDevices, AcceptedTokens;
  }

  /** Deactivating with the key of another license succeeds, clears the client, and
      leaves device and lease as they were. */
  lemma WrongKeyKeepsLease()
    ensures SdkFits(START, CLIENT)
    ensures Deactivate(START, "p", "OTHER", "a") == (START, Ok(()))
    ensures var (s', c') := ClientDeactivate(START, CLIENT, "OTHER", true);
            s' == START && c'.cache.None? && LeaseEnds.Active(s', 0) && s'.devices["a"].status == DeviceActive
  {
    assert ValidateLicense(START, "p", "OTHER") == (START, Ok(OTHER));
  }
}
