/** The public license API, one function per endpoint, and the services that
    compose it (server/src/license/activation.service.ts and
    server/src/license/verify-heartbeat.service.ts). */
module LicenseApi {
  import opened Rows
  import opened Wrappers
  import opened VersionService
  import opened LeaseService
  import opened DeviceService
  import opened LicenseService

  // ---------------------------------------------------------------------------
  // Specification

  datatype LeaseReply = LeaseReply(token: Token, expireAt: Time, flags: Flags)
  datatype VerifyReply = VerifyReply(status: LicenseStatus, needRefresh: bool, flags: Flags)

  // Everything the database may pick during one activation.
  datatype Choices = Choices(kicked: string, issue: IssueChoice)

  function StampActivation(s: Db, lic: KeyHash): Db
    requires lic in s.licenses
  {
    if s.licenses[lic].activateAt.Some? then s
    else s.(licenses := s.licenses[lic := s.licenses[lic].(activateAt := Some(s.now))])
  }

  function Bind(s: Db, lic: KeyHash, d: string, appVersion: string, kicked: string): (out: (Db, Result<()>))
    requires Known(s, lic)
    ensures out.0 == s.(devices := out.0.devices, leases := out.0.leases)
  {
    GetOrCreate(s, lic, MaxDevices(s, lic), d, appVersion, PolicyOf(s, lic), kicked)
  }

  function Renew(s: Db, lic: KeyHash, d: string, appVersion: string, c: IssueChoice): (out: (Db, Result<Token>))
    requires Known(s, lic)
    ensures out.0 == s.(leases := out.0.leases, signed := out.0.signed)
  {
    Issue(s, lic, d, appVersion, MaxConcurrency(s, lic), PolicyOf(s, lic), c)
  }

  function Activate(s: Db, product: string, key: string, d: string, appVersion: string, c: Choices): (Db, Result<LeaseReply>) {
    var (s1, r1) := ValidateLicense(s, product, key);
    if r1.Err? then (s1, Err(r1.code))
    else
      var lic := r1.value;
      var (s2, r2) := Bind(s1, lic, d, appVersion, c.kicked);
      if r2.Err? then (s2, Err(r2.code))
      else
        var (s3, r3) := Renew(s2, lic, d, appVersion, c.issue);
        if r3.Err? then (s3, Err(r3.code))
        else (StampActivation(s3, lic), Ok(LeaseReply(r3.value, r3.value.exp, FeatureFlags(s1, lic))))
  }

  predicate ActivateChoicesOk(s: Db, product: string, key: string, d: string, appVersion: string, c: Choices) {
    var (s1, r1) := ValidateLicense(s, product, key);
    r1.Ok? ==>
      var lic := r1.value;
      && KickChoiceOk(s1, lic, MaxDevices(s1, lic), d, PolicyOf(s1, lic), c.kicked)
      && var (s2, r2) := Bind(s1, lic, d, appVersion, c.kicked);
         r2.Ok? ==> IssueChoiceOk(s2, lic, d, MaxConcurrency(s2, lic), PolicyOf(s2, lic), c.issue)
  }

  function EnsureAllowed(s: Db, product: string, appVersion: string): Result<()> {
    if product !in s.products || !s.products[product].active then Err(ProductMismatch)
    else if s.products[product].policy.Some? && !Allowed(s.products[product].policy.value, appVersion) then Err(ForceUpgradeRequired)
    else Ok(())
  }

  const REFRESH_MARGIN_MS := 30 * 60 * 1000

  function Verify(s: Db, token: Token, product: string, d: string, appVersion: string): (out: (Db, Result<VerifyReply>))
    ensures out.0 == s.(leases := out.0.leases)
  {
    var (s1, r1) := Validate(s, token, d);
    if r1.Err? then (s1, Err(r1.code))
    else
      var lease := s1.leases[r1.value];
      var r2 := EnsureValid(s1, Some(lease.license), product);
      if r2.Err? then (s1, Err(r2.code))
      else if FindActive(s1, d).Err? then (s1, Err(FindActive(s1, d).code))
      else if EnsureAllowed(s1, product, appVersion).Err? then (s1, Err(EnsureAllowed(s1, product, appVersion).code))
      else (s1, Ok(VerifyReply(s1.licenses[lease.license].status, lease.expireAt - s1.now < REFRESH_MARGIN_MS, FeatureFlags(s1, lease.license))))
  }

  /** Everything `heartbeat` checks before it changes a row. */
  function HeartbeatGate(s: Db, token: Token, product: string, d: string, appVersion: string): (out: (Db, Result<KeyHash>))
    ensures out.0 == s.(leases := out.0.leases)
    ensures out.1.Ok? ==>
              && out.0 == s && Validate(s, token, d).1 == Ok(token.jti)
              && out.1.value == s.leases[token.jti].license && Known(s, out.1.value)
  {
    var (s1, r1) := Validate(s, token, d);
    if r1.Err? then (s1, Err(r1.code))
    else
      var r2 := EnsureValid(s1, Some(s1.leases[r1.value].license), product);
      if r2.Err? then (s1, r2)
      else if EnsureAllowed(s1, product, appVersion).Err? then (s1, Err(EnsureAllowed(s1, product, appVersion).code))
      else (s1, r2)
  }

  function Rotated(s: Db, token: Token, d: string, appVersion: string): Db
    requires token.jti in s.leases && d in s.devices
  {
    Revoke(Touch(s, d, appVersion), token.jti)
  }

  function Heartbeat(s: Db, token: Token, product: string, d: string, appVersion: string, c: IssueChoice): (out: (Db, Result<LeaseReply>))
    ensures out.0 == s.(devices := out.0.devices, leases := out.0.leases, signed := out.0.signed)
  {
    var (s1, r1) := HeartbeatGate(s, token, product, d, appVersion);
    if r1.Err? then (s1, Err(r1.code))
    else
      var (s2, r2) := Renew(Rotated(s1, token, d, appVersion), r1.value, d, appVersion, c);
      if r2.Err? then (s2, Err(r2.code))
      else (s2, Ok(LeaseReply(r2.value, r2.value.exp, FeatureFlags(s1, r1.value))))
  }

  predicate HeartbeatChoiceOk(s: Db, token: Token, product: string, d: string, appVersion: string, c: IssueChoice) {
    var (s1, r1) := HeartbeatGate(s, token, product, d, appVersion);
    r1.Ok? ==> IssueChoiceOk(Rotated(s1, token, d, appVersion), r1.value, d, MaxConcurrency(s1, r1.value), PolicyOf(s1, r1.value), c)
  }

  /** A device bound to another license is left alone, and the call still succeeds. */
  function Deactivate(s: Db, product: string, key: string, d: string): (Db, Result<()>) {
    var (s1, r1) := ValidateLicense(s, product, key);
    if r1.Err? then (s1, Err(r1.code))
    else if FindActive(s1, d).Err? then (s1, FindActive(s1, d))
    else if s1.devices[d].license != r1.value then (s1, Ok(()))
    else (Kick(s1, d), Ok(()))
  }

  // ---------------------------------------------------------------------------
  // The services

  method Limits(db: Database, lic: KeyHash) returns (maxDevices: int, maxConcurrency: int, policy: BindingPolicy, flags: Flags)
    requires Known(db.State(), lic)
    ensures maxDevices == MaxDevices(db.State(), lic)
    ensures maxConcurrency == MaxConcurrency(db.State(), lic)
    ensures policy == PolicyOf(db.State(), lic)
    ensures flags == FeatureFlags(db.State(), lic)
  {
    var license := db.licenses[lic];
    var plan := db.plans[license.plan];
    maxDevices := if license.maxDevicesOverride.Some? then license.maxDevicesOverride.value else plan.maxDevices;
    maxConcurrency := if license.maxConcurrencyOverride.Some? then license.maxConcurrencyOverride.value else plan.maxConcurrency;
    policy := FlagPolicy(plan.flags);
    flags := plan.flags + (if license.flagsOverride.Some? then license.flagsOverride.value else map[]);
  }

  method ActivateDevice(db: Database, product: string, key: string, d: string, appVersion: string)
    returns (r: Result<LeaseReply>, ghost c: Choices)
    requires ForeignKeys(db.State())
    modifies db
    ensures ActivateChoicesOk(old(db.State()), product, key, d, appVersion, c)
    ensures (db.State(), r) == Activate(old(db.State()), product, key, d, appVersion, c)
  {
    hide ForeignKeys, ValidateLicense, GetOrCreate, Issue, KickChoiceOk, IssueChoiceOk, FeatureFlags;
    c := Choices("", IssueChoice(0, ""));
    var license := ValidateLicenseKey(db, product, key);
    if license.Err? { return Err(license.code), c; }
    var lic := license.value;
    var maxDevices, maxConcurrency, policy, flags := Limits(db, lic);
    var bound;
    ghost var kicked;
    bound, kicked := GetOrCreateDevice(db, lic, maxDevices, d, appVersion, policy);
    c := c.(kicked := kicked);
    if bound.Err? { return Err(bound.code), c; }
    var issued;
    ghost var choice;
    issued, choice := IssueLease(db, lic, d, appVersion, maxConcurrency, policy);
    c := c.(issue := choice);
    if issued.Err? { return Err(issued.code), c; }
    if db.licenses[lic].activateAt.None? {
      db.licenses := db.licenses[lic := db.licenses[lic].(activateAt := Some(db.now))];
    }
    r := Ok(LeaseReply(issued.value, issued.value.exp, flags));
  }

  method EnsureVersionAllowed(db: Database, product: string, appVersion: string) returns (r: Result<()>)
    ensures r == EnsureAllowed(db.State(), product, appVersion)
  {
    if product !in db.products || !db.products[product].active { return Err(ProductMismatch); }
    var policy := db.products[product].policy;
    if policy.Some? && policy.value.forceUpgrade {
      var diff := CompareVersion(appVersion, policy.value.minSupportedVersion);
      if diff < 0 { return Err(ForceUpgradeRequired); }
    }
    r := Ok(());
  }

  method FindActiveByCode(db: Database, d: string) returns (r: Result<()>)
    ensures r.Ok? <==> d in db.devices && db.devices[d].status == DeviceActive
    ensures r == FindActive(db.State(), d)
  {
    if d !in db.devices || db.devices[d].status == DeviceRemoved { return Err(DeviceGone); }
    if db.devices[d].status == DeviceBanned { return Err(DeviceGone); }
    r := Ok(());
  }

  method VerifyDevice(db: Database, token: Token, signatureOk: bool, product: string, d: string, appVersion: string)
    returns (r: Result<VerifyReply>)
    requires ForeignKeys(db.State())
    requires signatureOk <==> token in db.signed
    modifies db
    ensures (db.State(), r) == Verify(old(db.State()), token, product, d, appVersion)
  {
    var valid := ValidateLease(db, token, signatureOk, d);
    if valid.Err? { return Err(valid.code); }
    var lease := db.leases[valid.value];
    var license := EnsureValidLicenseRecord(db, Some(lease.license), product);
    if license.Err? { return Err(license.code); }
    var found := FindActiveByCode(db, d);
    if found.Err? { return Err(found.code); }
    var allowed := EnsureVersionAllowed(db, product, appVersion);
    if allowed.Err? { return Err(allowed.code); }
    var _, _, _, flags := Limits(db, lease.license);
    r := Ok(VerifyReply(db.licenses[lease.license].status, lease.expireAt - db.now < REFRESH_MARGIN_MS, flags));
  }

  method HeartbeatDevice(db: Database, token: Token, signatureOk: bool, product: string, d: string, appVersion: string)
    returns (r: Result<LeaseReply>, ghost c: IssueChoice)
    requires ForeignKeys(db.State())
    requires signatureOk <==> token in db.signed
    modifies db
    ensures HeartbeatChoiceOk(old(db.State()), token, product, d, appVersion, c)
    ensures (db.State(), r) == Heartbeat(old(db.State()), token, product, d, appVersion, c)
  {
    hide ForeignKeys, Validate, EnsureValid, EnsureAllowed, Issue, IssueChoiceOk, FeatureFlags;
    c := IssueChoice(0, "");
    var valid := ValidateLease(db, token, signatureOk, d);
    if valid.Err? { return Err(valid.code), c; }
    var lic := db.leases[valid.value].license;
    var license := EnsureValidLicenseRecord(db, Some(lic), product);
    if license.Err? { return Err(license.code), c; }
    var allowed := EnsureVersionAllowed(db, product, appVersion);
    if allowed.Err? { return Err(allowed.code), c; }
    var _, maxConcurrency, policy, flags := Limits(db, lic);
    TouchDevice(db, d, appVersion);
    RevokeLease(db, valid.value);
    var issued;
    issued, c := IssueLease(db, lic, d, appVersion, maxConcurrency, policy);
    if issued.Err? { return Err(issued.code), c; }
    r := Ok(LeaseReply(issued.value, issued.value.exp, flags));
  }

  method DeactivateDevice(db: Database, product: string, key: string, d: string) returns (r: Result<()>)
    requires ForeignKeys(db.State())
    modifies db
    ensures (db.State(), r) == Deactivate(old(db.State()), product, key, d)
  {
    var license := ValidateLicenseKey(db, product, key);
    if license.Err? { return Err(license.code); }
    var found := FindActiveByCode(db, d);
    if found.Err? { return found; }
    if db.devices[d].license != license.value { return Ok(()); }
    RemoveDevice(db, d);
    RevokeActiveByDevice(db, d);
    r := Ok(());
  }
}
