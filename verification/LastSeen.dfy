/** What `lastSeenAt` means over runs, and therefore who is kicked or evicted. */
module LastSeen {
  import opened Rows
  import opened Wrappers
  import opened LeaseService
  import opened DeviceService
  import opened LicenseService
  import opened LicenseApi
  import opened Runs
  import opened DeviceCap

  /** A call of the device that gets through: an activation that binds it, or a
      heartbeat that passes its checks. */
  predicate Calls(s: Db, e: Event, d: string) {
    match e
    case ActivateCall(product, key, f, v, c) =>
      var (s1, r1) := ValidateLicense(s, product, key);
      f == d && r1.Ok? && Bind(s1, r1.value, d, v, c.kicked).1.Ok?
    case HeartbeatCall(t, product, f, v, c) => f == d && HeartbeatGate(s, t, product, d, v).1.Ok?
    case _ => false
  }

  /** The two fields of a row that a call refreshes are as given. */
  predicate Shows(s: Db, d: string, seen: Time, version: string) {
    d in s.devices && s.devices[d].lastSeenAt == seen && s.devices[d].appVersion == version
  }

  /** Rows come and go for `d` alone, and every other device shows what it showed. */
  ghost predicate OthersShow(s: Db, s': Db, d: string) {
    && (forall e | e != d :: e in s'.devices <==> e in s.devices)
    && (forall e | e in s.devices && e != d :: Shows(s', e, s.devices[e].lastSeenAt, s.devices[e].appVersion))
  }

  ghost predicate AllShow(s: Db, s': Db) {
    && s'.devices.Keys == s.devices.Keys
    && (forall e | e in s.devices :: Shows(s', e, s.devices[e].lastSeenAt, s.devices[e].appVersion))
  }

  lemma BindShows(s: Db, lic: KeyHash, d: string, v: string, kicked: string)
    requires Known(s, lic)
    ensures var (s', r) := Bind(s, lic, d, v, kicked);
            if r.Ok? then Shows(s', d, s.now, v) && OthersShow(s, s', d) else s' == s
  {
    hide ActiveDevices, MaxDevices, PolicyOf, RevokeActive;
  }

  /** Only the binding writes device rows. */
  lemma ActivateDevices(s: Db, product: string, key: string, d: string, v: string, c: Choices)
    ensures var (s1, r1) := ValidateLicense(s, product, key);
            && s1.devices == s.devices && s1.now == s.now
            && Activate(s, product, key, d, v, c).0.devices ==
                 if r1.Ok? then Bind(s1, r1.value, d, v, c.kicked).0.devices else s.devices
  {
    hide ValidateLicense, Bind, Renew, FeatureFlags;
  }

  lemma ActivateShows(s: Db, product: string, key: string, d: string, v: string, c: Choices)
    ensures var s' := Activate(s, product, key, d, v, c).0;
            if Calls(s, ActivateCall(product, key, d, v, c), d) then Shows(s', d, s.now, v) && OthersShow(s, s', d) else AllShow(s, s')
  {
    ActivateDevices(s, product, key, d, v, c);
    hide ValidateLicense, Bind, Activate;
    var (s1, r1) := ValidateLicense(s, product, key);
    if r1.Ok? { BindShows(s1, r1.value, d, v, c.kicked); }
  }

  lemma HeartbeatShows(s: Db, t: Token, product: string, d: string, v: string, c: IssueChoice)
    ensures var s' := Heartbeat(s, t, product, d, v, c).0;
            if Calls(s, HeartbeatCall(t, product, d, v, c), d) then Shows(s', d, s.now, v) && OthersShow(s, s', d) else AllShow(s, s')
  {
    hide Renew, EnsureValid, EnsureAllowed, FeatureFlags;
  }

  /** A call that gets through marks its device as seen now, with the version it sent;
      nothing else in the system touches those two fields of any device. */
  lemma StepShows(s: Db, e: Event)
    ensures (e.ActivateCall? || e.HeartbeatCall?) && Calls(s, e, e.device) ==>
              Shows(Step(s, e), e.device, s.now, e.appVersion) && OthersShow(s, Step(s, e), e.device)
    ensures !((e.ActivateCall? || e.HeartbeatCall?) && Calls(s, e, e.device)) ==> AllShow(s, Step(s, e))
  {
    hide Calls, Activate, Heartbeat, Validate, EnsureValid, EnsureAllowed, ValidateLicense, RevokeActive;
    match e
    case ActivateCall(product, key, d, v, c) => ActivateShows(s, product, key, d, v, c);
    case HeartbeatCall(t, product, d, v, c) => HeartbeatShows(s, t, product, d, v, c);
    case _ =>
  }

  /** The time of the device's last call that got through, or what was known before. */
  function LastCall(s: Db, es: seq<Event>, d: string, before: Option<Time>): Option<Time>
    decreases |es|
  {
    if es == [] then before
    else LastCall(Step(s, es[0]), es[1..], d, if Calls(s, es[0], d) then Some(s.now) else before)
  }

  function SeenAt(s: Db, d: string): Option<Time> {
    if d in s.devices then Some(s.devices[d].lastSeenAt) else None
  }

  lemma CallsOwn(s: Db, e: Event, d: string)
    requires Calls(s, e, d)
    ensures (e.ActivateCall? || e.HeartbeatCall?) && e.device == d
  { }

  lemma StepSeen(s: Db, e: Event, d: string)
    ensures SeenAt(Step(s, e), d) == if Calls(s, e, d) then Some(s.now) else SeenAt(s, d)
  {
    hide Calls, Step;
    StepShows(s, e);
    if Calls(s, e, d) { CallsOwn(s, e, d); }
  }

  /** In every run the row of a device tells the time of its last such call, and a
      device without one has no row unless it had one at the start. */
  lemma {:induction false} RunSeen(s: Db, es: seq<Event>, d: string)
    ensures SeenAt(Run(s, es), d) == LastCall(s, es, d, SeenAt(s, d))
    decreases |es|
  {
    hide Step, Calls, SeenAt;
    if es != [] {
      StepSeen(s, es[0], d);
      RunSeen(Step(s, es[0]), es[1..], d);
    }
  }

  /** After any run, a kick removes an active device whose last call is longest ago. */
  lemma KickTakesLongestSilent(s: Db, es: seq<Event>, lic: KeyHash, maxD: int, d: string, v: string, kicked: string)
    requires KickChoiceOk(Run(s, es), lic, maxD, d, KickOldest, kicked)
    requires var s1 := Run(s, es); d !in s1.devices && |ActiveDevices(s1, lic)| >= maxD && ActiveDevices(s1, lic) != {}
    ensures var s1 := Run(s, es);
            var s2 := GetOrCreate(s1, lic, maxD, d, v, KickOldest, kicked).0;
            && ActiveDevices(s2, lic) == ActiveDevices(s1, lic) - {kicked} + {d} && kicked in ActiveDevices(s1, lic)
            && forall e | e in ActiveDevices(s1, lic) ::
                 LastCall(s, es, kicked, SeenAt(s, kicked)).Some? && LastCall(s, es, e, SeenAt(s, e)).Some?
                 && LastCall(s, es, kicked, SeenAt(s, kicked)).value <= LastCall(s, es, e, SeenAt(s, e)).value
  {
    var s1 := Run(s, es);
    KickSwapsOldest(s1, lic, maxD, d, v, kicked);
    assert forall e | e in ActiveDevices(s1, lic) :: e in s1.devices;
    hide Run, LastCall, GetOrCreate, ActiveDevices, KickChoiceOk;
    RunSeen(s, es, kicked);
    forall e | e in ActiveDevices(s1, lic)
      ensures LastCall(s, es, kicked, SeenAt(s, kicked)).Some? && LastCall(s, es, e, SeenAt(s, e)).Some?
      ensures LastCall(s, es, kicked, SeenAt(s, kicked)).value <= LastCall(s, es, e, SeenAt(s, e)).value
    {
      RunSeen(s, es, e);
    }
  }

  /** After any run, an issue at the full limit takes the leases of a live device whose
      last call is longest ago. */
  lemma EvictionTakesLongestSilent(s: Db, es: seq<Event>, lic: KeyHash, d: string, maxC: int, c: IssueChoice)
    requires IssueChoiceOk(Run(s, es), lic, d, maxC, KickOldest, c)
    requires var s1 := Run(s, es); ConcurrencyFull(s1.(leases := RevokeActive(s1.leases, d)), lic, maxC)
    ensures var s1 := Run(s, es);
            var live := LiveDevices(s1.(leases := RevokeActive(s1.leases, d)), lic);
            && c.victim in live
            && forall e | e in live ::
                 LastCall(s, es, c.victim, SeenAt(s, c.victim)).Some? && LastCall(s, es, e, SeenAt(s, e)).Some?
                 && LastCall(s, es, c.victim, SeenAt(s, c.victim)).value <= LastCall(s, es, e, SeenAt(s, e)).value
  {
    var s1 := Run(s, es);
    var live := LiveDevices(s1.(leases := RevokeActive(s1.leases, d)), lic);
    assert IsOldest(s1.devices, live, c.victim) && forall e | e in live :: e in s1.devices;
    hide Run, LastCall, LiveDevices, RevokeActive, ConcurrencyFull, IssueChoiceOk;
    RunSeen(s, es, c.victim);
    forall e | e in live
      ensures LastCall(s, es, c.victim, SeenAt(s, c.victim)).Some? && LastCall(s, es, e, SeenAt(s, e)).Some?
      ensures LastCall(s, es, c.victim, SeenAt(s, c.victim)).value <= LastCall(s, es, e, SeenAt(s, e)).value
    {
      RunSeen(s, es, e);
    }
  }
}
