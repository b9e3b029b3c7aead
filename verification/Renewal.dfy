/** When an issue is denied, what a denial leaves behind, and why a device that
    already holds a slot can always renew. */
module Renewal {
  import opened Rows
  import opened LeaseService
  import opened DeviceService
  import opened LicenseService
  import opened LicenseApi
  import opened Runs
  import opened ConcurrencyCap

  /** Denial in terms of the state before the call: the other live devices fill the
      limit. A limit of 0 or less never denies. */
  lemma IssueDeniedIff(s: Db, lic: KeyHash, d: string, v: string, maxC: int, policy: BindingPolicy, c: IssueChoice)
    ensures Issue(s, lic, d, v, maxC, policy, c).1.Err? <==>
              maxC > 0 && policy != KickOldest && |LiveDevices(s, lic) - {d}| >= maxC
  {
    hide LiveDevices;
    RevokeLive(s, d, lic);
  }

  /** The leases that count: active, unexpired, of an active device. */
  function LiveLeases(s: Db): set<TokenId> {
    set l | l in s.leases && Unexpired(s, l) && s.leases[l].device in s.devices && s.devices[s.leases[l].device].status == DeviceActive
  }

  lemma DeniedLeavesRevoked(s: Db, lic: KeyHash, d: string, v: string, maxC: int, policy: BindingPolicy, c: IssueChoice)
    requires Issue(s, lic, d, v, maxC, policy, c).1.Err?
    ensures Issue(s, lic, d, v, maxC, policy, c).0 == s.(leases := RevokeActive(s.leases, d))
  { }

  lemma LiveLeasesAfterRevoke(s: Db, d: string)
    requires Inv(s)
    ensures LiveLeases(s.(leases := RevokeActive(s.leases, d))) == LiveLeases(s)
       <==> (d in s.devices ==> d !in LiveDevices(s, s.devices[d].license))
  {
    var s' := s.(leases := RevokeActive(s.leases, d));
    if d in s.devices && d in LiveDevices(s, s.devices[d].license) {
      var l :| l in s.leases && s.leases[l].license == s.devices[d].license && s.leases[l].device == d && Unexpired(s, l);
      assert l in LiveLeases(s) && l !in LiveLeases(s');
    } else {
      forall l | l in LiveLeases(s) ensures l in LiveLeases(s') {
        if s.leases[l].device == d {
          assert s.leases[l].license == s.devices[d].license;
          assert HoldsLive(s, s.devices[d].license, d);
        }
      }
      forall l | l in LiveLeases(s') ensures l in LiveLeases(s) { }
    }
  }

  /** Although its own leases are revoked before the check, a denied issue changes
      the set of live leases exactly when the device itself was live, and that never
      happens while the license is within its limit. */
  lemma DeniedIssueKeepsLive(s: Db, lic: KeyHash, d: string, v: string, maxC: int, policy: BindingPolicy, c: IssueChoice)
    requires Inv(s) && d in s.devices && s.devices[d].license == lic
    requires Issue(s, lic, d, v, maxC, policy, c).1.Err?
    ensures LiveLeases(Issue(s, lic, d, v, maxC, policy, c).0) == LiveLeases(s) <==> d !in LiveDevices(s, lic)
    ensures |LiveDevices(s, lic)| <= maxC ==> LiveLeases(Issue(s, lic, d, v, maxC, policy, c).0) == LiveLeases(s)
  {
    hide Inv, LiveDevices, LiveLeases, Issue;
    DeniedLeavesRevoked(s, lic, d, v, maxC, policy, c);
    LiveLeasesAfterRevoke(s, d);
    IssueDeniedIff(s, lic, d, v, maxC, policy, c);
    if d in LiveDevices(s, lic) {
      assert |LiveDevices(s, lic) - {d}| == |LiveDevices(s, lic)| - 1;
    } else {
      assert LiveDevices(s, lic) - {d} == LiveDevices(s, lic);
    }
  }

  /** With room among the others, issuing succeeds and touches only `d`'s leases. */
  lemma IssueWithRoom(s: Db, lic: KeyHash, d: string, v: string, maxC: int, policy: BindingPolicy, c: IssueChoice)
    requires maxC <= 0 || |LiveDevices(s, lic) - {d}| < maxC
    requires c.jti !in s.leases
    ensures var (s', r) := Issue(s, lic, d, v, maxC, policy, c);
            r.Ok? && forall l | l in s.leases && s.leases[l].device != d :: l in s'.leases && s'.leases[l] == s.leases[l]
  {
    hide LiveDevices;
    RevokeLive(s, d, lic);
  }

  /** A heartbeat that reaches the issue, from an active device of a license within
      its limit, is never denied and leaves every other device's leases alone. */
  lemma HeartbeatNeverDenied(s: Db, t: Token, product: string, d: string, v: string, c: IssueChoice)
    requires Inv(s) && HeartbeatChoiceOk(s, t, product, d, v, c)
    requires HeartbeatGate(s, t, product, d, v).1.Ok? && s.devices[d].status == DeviceActive
    requires var lic := HeartbeatGate(s, t, product, d, v).1.value; |LiveDevices(s, lic)| <= MaxConcurrency(s, lic)
    ensures var (s', r) := Heartbeat(s, t, product, d, v, c);
            r.Ok? && forall l | l in s.leases && s.leases[l].device != d :: l in s'.leases && s'.leases[l] == s.leases[l]
  {
    hide Issue, LiveDevices, EnsureValid, EnsureAllowed, Inv, ConcurrencyFull;
    var lic := HeartbeatGate(s, t, product, d, v).1.value;
    var s2 := Rotated(s, t, d, v);
    GateFacts(s, t, product, d, v);
    assert d in LiveDevices(s, lic) by { HoldsByToken(s, t, product, d, v); }
    FrameLive(s, s2, lic);
    SubsetCard(LiveDevices(s2, lic) - {d}, LiveDevices(s, lic) - {d});
    assert |LiveDevices(s, lic) - {d}| == |LiveDevices(s, lic)| - 1;
    IssueWithRoom(s2, lic, d, v, MaxConcurrency(s2, lic), PolicyOf(s2, lic), c);
  }

  lemma HoldsByToken(s: Db, t: Token, product: string, d: string, v: string)
    requires Inv(s) && HeartbeatGate(s, t, product, d, v).1.Ok? && s.devices[d].status == DeviceActive
    ensures d in LiveDevices(s, HeartbeatGate(s, t, product, d, v).1.value)
  {
    hide EnsureValid, EnsureAllowed;
    assert Unexpired(s, t.jti);
  }

  lemma BoundAgain(s: Db, lic: KeyHash, d: string, v: string, kicked: string)
    requires Known(s, lic) && d in LiveDevices(s, lic) && s.devices[d].license == lic
    ensures d in s.devices && s.devices[d].status == DeviceActive && Bind(s, lic, d, v, kicked) == (Touch(s, d, v), Ok(()))
  {
    hide ActiveDevices, MaxDevices, PolicyOf;
  }

  /** The same for re-activating a device that holds a live lease. */
  lemma ReactivationNeverDenied(s: Db, product: string, key: string, d: string, v: string, c: Choices)
    requires Inv(s) && ActivateChoicesOk(s, product, key, d, v, c)
    requires ValidateLicense(s, product, key).1.Ok?
    requires var (s1, r1) := ValidateLicense(s, product, key);
             d in LiveDevices(s1, r1.value) && s1.devices[d].license == r1.value
             && |LiveDevices(s1, r1.value)| <= MaxConcurrency(s1, r1.value)
    ensures var (s', r) := Activate(s, product, key, d, v, c);
            r.Ok? && forall l | l in s.leases && s.leases[l].device != d :: l in s'.leases && s'.leases[l] == s.leases[l]
  {
    hide ValidateLicense, Bind, Issue, LiveDevices, KickChoiceOk, FeatureFlags, Inv, ConcurrencyFull, PolicyOf;
    var (s1, r1) := ValidateLicense(s, product, key);
    var lic := r1.value;
    BoundAgain(s1, lic, d, v, c.kicked);
    var s2 := Bind(s1, lic, d, v, c.kicked).0;
    FrameLive(s1, s2, lic);
    SubsetCard(LiveDevices(s2, lic) - {d}, LiveDevices(s1, lic) - {d});
    assert |LiveDevices(s1, lic) - {d}| == |LiveDevices(s1, lic)| - 1;
    IssueWithRoom(s2, lic, d, v, MaxConcurrency(s2, lic), PolicyOf(s2, lic), c.issue);
  }

  /** A banned device can keep rotating its lease, because the heartbeat does not look
      at the device, but no token of it is accepted while it stays banned. */
  lemma BannedDeviceIsRefused(s: Db, t: Token, product: string, d: string, v: string)
    requires d in s.devices && s.devices[d].status != DeviceActive
    ensures Verify(s, t, product, d, v).1.Err?
  { hide EnsureValid, EnsureAllowed; }
}
