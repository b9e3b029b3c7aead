/** The server as a state machine: API calls, admin actions and the passing of
    time as atomic steps, and the invariant every run keeps. */
module Runs {
  import opened Rows
  import opened LeaseService
  import opened DeviceService
  import opened LicenseService
  import opened LicenseApi

  datatype Event =
    | ActivateCall(product: string, key: string, device: string, appVersion: string, choices: Choices)
    | VerifyCall(token: Token, product: string, device: string, appVersion: string)
    | HeartbeatCall(token: Token, product: string, device: string, appVersion: string, choice: IssueChoice)
    | DeactivateCall(product: string, key: string, device: string)
    | AdvanceClock(ms: nat)
    // admin actions; none of them touches a lease
    | SetLicenseStatus(license: KeyHash, licenseStatus: LicenseStatus)
    | SetDeviceStatus(device: string, deviceStatus: DeviceStatus)
    | ApproveUnbind(device: string)
    | SetCardKeyStatus(key: string, cardStatus: CardKeyStatus)
    | AddLicense(license: KeyHash, row: License)
    | AddCardKey(key: string, card: CardKey)

  function Step(s: Db, e: Event): Db {
    match e
    case ActivateCall(product, key, d, v, c) => Activate(s, product, key, d, v, c).0
    case VerifyCall(token, product, d, v) => Verify(s, token, product, d, v).0
    case HeartbeatCall(token, product, d, v, c) => Heartbeat(s, token, product, d, v, c).0
    case DeactivateCall(product, key, d) => Deactivate(s, product, key, d).0
    case AdvanceClock(ms) => s.(now := s.now + ms)
    case SetLicenseStatus(h, status) =>
      if h in s.licenses then s.(licenses := s.licenses[h := s.licenses[h].(status := status)]) else s
    case SetDeviceStatus(d, status) =>
      if d in s.devices then s.(devices := s.devices[d := s.devices[d].(status := status)]) else s
    case ApproveUnbind(d) =>
      if d in s.devices then s.(devices := MarkRemoved(s.devices, d)) else s
    case SetCardKeyStatus(k, status) =>
      if k in s.cardKeys then s.(cardKeys := s.cardKeys[k := s.cardKeys[k].(status := status)]) else s
    case AddLicense(h, row) =>
      if h !in s.licenses && row.product in s.products && row.plan in s.plans
      then s.(licenses := s.licenses[h := row]) else s
    case AddCardKey(k, card) =>
      if k !in s.cardKeys && card.product in s.products && card.plan in s.plans && card.license.None?
      then s.(cardKeys := s.cardKeys[k := card]) else s
  }

  /** The choices recorded in the event are ones the database could make. */
  predicate Enabled(s: Db, e: Event) {
    match e
    case ActivateCall(product, key, d, v, c) => ActivateChoicesOk(s, product, key, d, v, c)
    case HeartbeatCall(token, product, d, v, c) => HeartbeatChoiceOk(s, token, product, d, v, c)
    case _ => true
  }

  function Run(s: Db, es: seq<Event>): Db
    decreases |es|
  {
    if es == [] then s else Run(Step(s, es[0]), es[1..])
  }

  predicate ValidRun(s: Db, es: seq<Event>)
    decreases |es|
  {
    es == [] || (Enabled(s, es[0]) && ValidRun(Step(s, es[0]), es[1..]))
  }

  // ---------------------------------------------------------------------------
  // The invariant

  ghost predicate LeasesWellFormed(s: Db) {
    forall l | l in s.leases ::
      && s.leases[l].device in s.devices
      && s.leases[l].license == s.devices[s.leases[l].device].license
      && s.leases[l].issuedAt <= s.now
      && s.leases[l].expireAt == s.leases[l].issuedAt + s.ttlMs
  }

  ghost predicate OneActiveLease(s: Db) {
    forall l, m | l in s.leases && m in s.leases
                  && s.leases[l].status == LeaseActive && s.leases[m].status == LeaseActive
                  && s.leases[l].device == s.leases[m].device :: l == m
  }

  ghost predicate SignedMatchLeases(s: Db) {
    forall t | t in s.signed ::
      && t.jti in s.leases
      && s.leases[t.jti].license == t.license && s.leases[t.jti].device == t.device
      && s.leases[t.jti].issuedAt == t.iat && s.leases[t.jti].expireAt == t.exp
  }

  ghost predicate Inv(s: Db) {
    ForeignKeys(s) && LeasesWellFormed(s) && OneActiveLease(s) && SignedMatchLeases(s)
  }

  // Five kinds of change keep the invariant; every step is built from them.

  /** Rows stay, and change at most from active to another status. */
  ghost predicate LeasesEvolve(before: map<TokenId, Lease>, after: map<TokenId, Lease>) {
    forall l | l in before ::
      && l in after
      && (after[l] != before[l] ==>
            before[l].status == LeaseActive && after[l].status != LeaseActive && after[l] == before[l].(status := after[l].status))
  }

  ghost predicate OnlyDeactivates(before: map<TokenId, Lease>, after: map<TokenId, Lease>) {
    after.Keys == before.Keys && LeasesEvolve(before, after)
  }

  lemma DeactivatingKeepsInv(s: Db, leases: map<TokenId, Lease>)
    requires Inv(s) && OnlyDeactivates(s.leases, leases)
    ensures Inv(s.(leases := leases))
  {
    StillOneActive(s, leases);
    hide OneActiveLease;
  }

  lemma StillOneActive(s: Db, leases: map<TokenId, Lease>)
    requires OneActiveLease(s) && OnlyDeactivates(s.leases, leases)
    ensures OneActiveLease(s.(leases := leases))
  { }

  lemma RevokeActiveDeactivates(leases: map<TokenId, Lease>, d: string)
    ensures OnlyDeactivates(leases, RevokeActive(leases, d))
    ensures forall l | l in leases && leases[l].device == d :: RevokeActive(leases, d)[l].status != LeaseActive
  { }

  /** Devices keep their license; new ones belong to a known license. */
  lemma DevicesKeepInv(s: Db, devices: map<string, Device>)
    requires Inv(s) && s.devices.Keys <= devices.Keys
    requires forall d | d in s.devices :: devices[d].license == s.devices[d].license
    requires forall d | d in devices :: devices[d].license in s.licenses
    ensures Inv(s.(devices := devices))
  { }

  /** Licenses and card keys keep their references. */
  lemma CatalogKeepsInv(s: Db, licenses: map<KeyHash, License>, cardKeys: map<string, CardKey>)
    requires Inv(s) && s.licenses.Keys <= licenses.Keys
    requires ForeignKeys(s.(licenses := licenses, cardKeys := cardKeys))
    ensures Inv(s.(licenses := licenses, cardKeys := cardKeys))
  { }

  lemma ClockKeepsInv(s: Db, ms: nat)
    requires Inv(s)
    ensures Inv(s.(now := s.now + ms))
  { }

  lemma GrantKeepsInv(s: Db, lic: KeyHash, d: string, v: string, jti: TokenId)
    requires Inv(s) && d in s.devices && s.devices[d].license == lic && jti !in s.leases
    requires forall l | l in s.leases && s.leases[l].device == d :: s.leases[l].status != LeaseActive
    ensures Inv(Grant(s, lic, d, v, jti).0)
  {
    var s' := Grant(s, lic, d, v, jti).0;
    assert ForeignKeys(s');
    assert LeasesWellFormed(s');
    assert OneActiveLease(s');
    assert SignedMatchLeases(s');
  }

  lemma IssueKeepsInv(s: Db, lic: KeyHash, d: string, v: string, maxC: int, policy: BindingPolicy, c: IssueChoice)
    requires Inv(s) && d in s.devices && s.devices[d].license == lic
    requires IssueChoiceOk(s, lic, d, maxC, policy, c)
    ensures Inv(Issue(s, lic, d, v, maxC, policy, c).0)
  {
    hide Inv, ConcurrencyFull;
    var s1 := s.(leases := RevokeActive(s.leases, d));
    var s2 := s1.(leases := RevokeActive(s1.leases, c.victim));
    RevokeActiveDeactivates(s.leases, d);
    RevokeActiveDeactivates(s1.leases, c.victim);
    DeactivatingKeepsInv(s, s1.leases);
    DeactivatingKeepsInv(s1, s2.leases);
    GrantKeepsInv(s1, lic, d, v, c.jti);
    GrantKeepsInv(s2, lic, d, v, c.jti);
  }

  lemma DevicesInLicenses(s: Db)
    requires Inv(s)
    ensures forall d | d in s.devices :: s.devices[d].license in s.licenses
  { }

  lemma KickKeepsInv(s: Db, d: string)
    requires Inv(s) && d in s.devices
    ensures Inv(Kick(s, d))
  {
    hide Inv;
    DevicesInLicenses(s);
    DevicesKeepInv(s, MarkRemoved(s.devices, d));
    RevokeActiveDeactivates(s.leases, d);
    DeactivatingKeepsInv(s.(devices := MarkRemoved(s.devices, d)), RevokeActive(s.leases, d));
  }

  lemma CreateKeepsInv(s: Db, lic: KeyHash, d: string, v: string)
    requires Inv(s) && lic in s.licenses && d !in s.devices
    ensures Inv(Create(s, lic, d, v))
  {
    hide Inv;
    DevicesInLicenses(s);
    DevicesKeepInv(s, Create(s, lic, d, v).devices);
  }

  lemma GetOrCreateKeepsInv(s: Db, lic: KeyHash, maxD: int, d: string, v: string, policy: BindingPolicy, kicked: string)
    requires Inv(s) && lic in s.licenses
    ensures var (s', r) := GetOrCreate(s, lic, maxD, d, v, policy, kicked);
            && Inv(s')
            && (r.Ok? ==> d in s'.devices && s'.devices[d].license == lic && s'.devices[d].status == DeviceActive)
  {
    if d in s.devices {
      hide Inv;
      DevicesInLicenses(s);
      DevicesKeepInv(s, Touch(s, d, v).devices);
    } else {
      hide Inv, ActiveDevices, RevokeActive;
      CreateKeepsInv(s, lic, d, v);
      if kicked in s.devices {
        KickKeepsInv(s, kicked);
        CreateKeepsInv(Kick(s, kicked), lic, d, v);
      }
    }
  }

  lemma ValidateLicenseKeepsInv(s: Db, product: string, key: string)
    requires Inv(s)
    ensures var s' := ValidateLicense(s, product, key).0;
            && Inv(s')
            && (forall h | h in s.licenses :: h in s'.licenses && s'.licenses[h] == s.licenses[h])
  {
    hide Inv, PlanDurationMs;
    var s' := ValidateLicense(s, product, key).0;
    assert ForeignKeys(s) by { InvForeignKeys(s); }
    assert ForeignKeys(s');
    assert s' == s.(licenses := s'.licenses, cardKeys := s'.cardKeys);
    CatalogKeepsInv(s, s'.licenses, s'.cardKeys);
  }

  lemma InvForeignKeys(s: Db)
    requires Inv(s)
    ensures ForeignKeys(s)
  { }

  lemma ActivateKeepsInv(s: Db, product: string, key: string, d: string, v: string, c: Choices)
    requires Inv(s) && ActivateChoicesOk(s, product, key, d, v, c)
    ensures Inv(Activate(s, product, key, d, v, c).0)
  {
    hide Inv, ValidateLicense, GetOrCreate, Issue, IssueChoiceOk, KickChoiceOk;
    ValidateLicenseKeepsInv(s, product, key);
    var (s1, r1) := ValidateLicense(s, product, key);
    if r1.Ok? {
      var lic := r1.value;
      GetOrCreateKeepsInv(s1, lic, MaxDevices(s1, lic), d, v, PolicyOf(s1, lic), c.kicked);
      var (s2, r2) := Bind(s1, lic, d, v, c.kicked);
      if r2.Ok? {
        IssueKeepsInv(s2, lic, d, v, MaxConcurrency(s2, lic), PolicyOf(s2, lic), c.issue);
        var (s3, r3) := Renew(s2, lic, d, v, c.issue);
        StampKeepsInv(s3, lic);
      }
    }
  }

  lemma StampKeepsInv(s: Db, lic: KeyHash)
    requires Inv(s) && lic in s.licenses
    ensures Inv(StampActivation(s, lic))
  {
    InvForeignKeys(s);
    CatalogKeepsInv(s, StampActivation(s, lic).licenses, s.cardKeys);
  }

  lemma RotatedKeepsInv(s: Db, token: Token, d: string, v: string)
    requires Inv(s) && token.jti in s.leases && s.leases[token.jti].status == LeaseActive && d in s.devices
    ensures Inv(Rotated(s, token, d, v))
  {
    hide Inv;
    DevicesInLicenses(s);
    DevicesKeepInv(s, Touch(s, d, v).devices);
    DeactivatingKeepsInv(Touch(s, d, v), Rotated(s, token, d, v).leases);
  }

  lemma GateFacts(s: Db, token: Token, product: string, d: string, v: string)
    requires Inv(s)
    ensures Inv(HeartbeatGate(s, token, product, d, v).0)
    ensures var r := HeartbeatGate(s, token, product, d, v).1;
            r.Ok? ==> s.leases[token.jti].status == LeaseActive && s.leases[token.jti].device == d && s.devices[d].license == r.value
  {
    hide EnsureValid, EnsureAllowed, ForeignKeys, OneActiveLease;
    var s1 := Validate(s, token, d).0;
    assert OnlyDeactivates(s.leases, s1.leases);
    DeactivatingKeepsInv(s, s1.leases);
  }

  lemma HeartbeatKeepsInv(s: Db, token: Token, product: string, d: string, v: string, c: IssueChoice)
    requires Inv(s) && HeartbeatChoiceOk(s, token, product, d, v, c)
    ensures Inv(Heartbeat(s, token, product, d, v, c).0)
  {
    hide Inv, HeartbeatGate, Issue, IssueChoiceOk;
    GateFacts(s, token, product, d, v);
    var (s1, r1) := HeartbeatGate(s, token, product, d, v);
    if r1.Ok? {
      var s2 := Rotated(s1, token, d, v);
      RotatedKeepsInv(s1, token, d, v);
      IssueKeepsInv(s2, r1.value, d, v, MaxConcurrency(s2, r1.value), PolicyOf(s2, r1.value), c);
    }
  }

  lemma VerifyKeepsInv(s: Db, token: Token, product: string, d: string, v: string)
    requires Inv(s)
    ensures Inv(Verify(s, token, product, d, v).0)
  {
    hide Inv, EnsureValid, EnsureAllowed;
    var s1 := Validate(s, token, d).0;
    assert OnlyDeactivates(s.leases, s1.leases);
    DeactivatingKeepsInv(s, s1.leases);
  }

  lemma DeactivateKeepsInv(s: Db, product: string, key: string, d: string)
    requires Inv(s)
    ensures Inv(Deactivate(s, product, key, d).0)
  {
    hide Inv, ValidateLicense;
    ValidateLicenseKeepsInv(s, product, key);
    var s1 := ValidateLicense(s, product, key).0;
    if d in s1.devices { KickKeepsInv(s1, d); }
  }

  lemma AdminDeviceKeepsInv(s: Db, e: Event)
    requires Inv(s) && (e.SetDeviceStatus? || e.ApproveUnbind?)
    ensures Inv(Step(s, e))
  {
    hide Inv, Activate, Heartbeat, Verify, Deactivate;
    DevicesInLicenses(s);
    DevicesKeepInv(s, Step(s, e).devices);
  }

  lemma AdminCatalogKeepsInv(s: Db, e: Event)
    requires Inv(s)
    requires e.SetLicenseStatus? || e.SetCardKeyStatus? || e.AddLicense? || e.AddCardKey?
    ensures Inv(Step(s, e))
  {
    hide Inv, ForeignKeys, Activate, Heartbeat, Verify, Deactivate;
    InvForeignKeys(s);
    var s' := Step(s, e);
    assert s' == s.(licenses := s'.licenses, cardKeys := s'.cardKeys);
    AdminCatalogForeignKeys(s, e);
    CatalogKeepsInv(s, s'.licenses, s'.cardKeys);
  }

  lemma AdminCatalogForeignKeys(s: Db, e: Event)
    requires ForeignKeys(s)
    requires e.SetLicenseStatus? || e.SetCardKeyStatus? || e.AddLicense? || e.AddCardKey?
    ensures ForeignKeys(Step(s, e))
  {
    hide Activate, Heartbeat, Verify, Deactivate;
  }

  lemma StepKeepsInv(s: Db, e: Event)
    requires Inv(s) && Enabled(s, e)
    ensures Inv(Step(s, e))
  {
    hide Inv, Activate, Heartbeat, Verify, Deactivate, ActivateChoicesOk, HeartbeatChoiceOk;
    match e
    case ActivateCall(product, key, d, v, c) => ActivateKeepsInv(s, product, key, d, v, c);
    case VerifyCall(token, product, d, v) => VerifyKeepsInv(s, token, product, d, v);
    case HeartbeatCall(token, product, d, v, c) => HeartbeatKeepsInv(s, token, product, d, v, c);
    case DeactivateCall(product, key, d) => DeactivateKeepsInv(s, product, key, d);
    case AdvanceClock(ms) => ClockKeepsInv(s, ms);
    case SetDeviceStatus(_, _) => AdminDeviceKeepsInv(s, e);
    case ApproveUnbind(_) => AdminDeviceKeepsInv(s, e);
    case _ => AdminCatalogKeepsInv(s, e);
  }

  lemma {:induction false} RunKeepsInv(s: Db, es: seq<Event>)
    requires Inv(s) && ValidRun(s, es)
    ensures Inv(Run(s, es))
    decreases |es|
  {
    hide Inv, Step, Enabled;
    if es != [] {
      StepKeepsInv(s, es[0]);
      RunKeepsInv(Step(s, es[0]), es[1..]);
    }
  }
}
