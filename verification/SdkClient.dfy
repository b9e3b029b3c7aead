/** The Electron SDK (sdk-electron/src/license-client.ts, heartbeat-scheduler.ts and
    lease-verifier.ts) as a closed system with the server: every device code belongs to
    one client, every call is atomic, and a call the server received is answered. */
module SdkClient {
  import opened Rows
  import opened Wrappers
  import opened LeaseService
  import opened DeviceService
  import opened LicenseService
  import opened LicenseApi
  import opened Runs
  import opened LeaseHistory
  import opened ConcurrencyCap
  import opened Renewal
  import LeaseEnds

  // ---------------------------------------------------------------------------
  // Specification

  datatype SdkStatus = Inactive | Active | Grace | Expired | Banned | Removed | NetworkError | Invalid

  // What a failed call carries: a code of the server, or no answer at all.
  datatype Code = Refused(code: ErrorCode) | Unreachable

  datatype SdkState = SdkState(status: SdkStatus, code: Option<Code>, flags: Flags, expireAt: Option<Time>)

  datatype Cache = Cache(token: Token, expireAt: Time, device: string, flags: Flags)

  datatype Config = Config(product: string, device: string, appVersion: string, graceHours: int)

  datatype Sdk = Sdk(cfg: Config, cache: Option<Cache>, gate: Flags, state: SdkState, ticking: bool)

  datatype Local = Missing | Valid | InGrace | PastGrace

  const MS_PER_HOUR := 60 * 60 * 1000

  function Check(cache: Option<Cache>, graceHours: int, clock: Time): Local {
    if cache.None? then Missing
    else if cache.value.expireAt > clock then Valid
    else if cache.value.expireAt + graceHours * MS_PER_HOUR > clock then InGrace
    else PastGrace
  }

  function MapCode(code: Code): SdkStatus {
    match code
    case Unreachable => NetworkError
    case Refused(LicenseBanned) => Banned
    case Refused(LicenseExpired) => Expired
    case Refused(LeaseExpired) => Expired
    case Refused(DeviceGone) => Removed
    case Refused(_) => Invalid
  }

  predicate StopsTimer(code: Code) {
    code in {Refused(LicenseBanned), Refused(LicenseExpired), Refused(DeviceGone), Refused(LeaseExpired), Refused(LeaseInvalid)}
  }

  const IDLE := SdkState(Inactive, None, map[], None)

  /** A process start over whatever the store holds. */
  function Started(cfg: Config, cache: Option<Cache>): Sdk {
    if cache.None? then Sdk(cfg, None, map[], IDLE, false)
    else Sdk(cfg, cache, cache.value.flags, SdkState(Inactive, None, cache.value.flags, Some(cache.value.expireAt)), false)
  }

  function Renewed(c: Sdk, cache: Cache): Sdk {
    c.(cache := Some(cache), gate := cache.flags, state := SdkState(Active, None, cache.flags, Some(cache.expireAt)))
  }

  // What a client does. `online` says whether the request reaches the server at all.
  datatype Move =
    | ActivateMove(key: string, online: bool, choices: Choices)
    | VerifyMove(online: bool, clock: Time)
    | DeactivateMove(key: string, online: bool)
    | TickMove(online: bool, choice: IssueChoice)
    | StartMove | StopMove | RestartMove

  function ClientActivate(s: Db, c: Sdk, key: string, online: bool, ch: Choices): (Db, Sdk) {
    if !online then (s, c)
    else
      var (s', r) := Activate(s, c.cfg.product, key, c.cfg.device, c.cfg.appVersion, ch);
      if r.Err? then (s', c)
      else (s', Renewed(c, Cache(r.value.token, r.value.expireAt, c.cfg.device, r.value.flags)))
  }

  function VerifyFailed(c: Sdk, cache: Cache, local: Local, code: Code): Sdk {
    var status := if code == Unreachable && local == InGrace then Grace else MapCode(code);
    c.(state := SdkState(status, Some(code), cache.flags, Some(cache.expireAt)))
  }

  function ClientVerify(s: Db, c: Sdk, online: bool, clock: Time): (Db, Sdk) {
    var local := Check(c.cache, c.cfg.graceHours, clock);
    if local == Missing then (s, c.(state := IDLE))
    else
      var cache := c.cache.value;
      if local == PastGrace then (s, c.(state := SdkState(Expired, None, cache.flags, Some(cache.expireAt))))
      else if !online then (s, VerifyFailed(c, cache, local, Unreachable))
      else
        var (s', r) := Verify(s, cache.token, c.cfg.product, cache.device, c.cfg.appVersion);
        if r.Err? then (s', VerifyFailed(c, cache, local, Refused(r.code)))
        else
          var status := if local == InGrace then Grace else Active;
          (s', c.(cache := Some(cache.(flags := r.value.flags)), gate := r.value.flags,
                  state := SdkState(status, None, r.value.flags, Some(cache.expireAt))))
  }

  function ClientDeactivate(s: Db, c: Sdk, key: string, online: bool): (Db, Sdk) {
    var cleared := c.(cache := None, gate := map[], state := IDLE);
    if c.cache.None? then (s, cleared)
    else if !online then (s, c)
    else
      var (s', r) := Deactivate(s, c.cfg.product, key, c.cache.value.device);
      if r.Err? then (s', c) else (s', cleared)
  }

  function TickFailed(c: Sdk, cache: Cache, code: Code): Sdk {
    c.(ticking := c.ticking && !StopsTimer(code), state := SdkState(MapCode(code), Some(code), cache.flags, None))
  }

  function ClientTick(s: Db, c: Sdk, online: bool, ch: IssueChoice): (Db, Sdk) {
    if c.cache.None? then (s, c.(ticking := false, state := IDLE))
    else
      var cache := c.cache.value;
      if !online then (s, TickFailed(c, cache, Unreachable))
      else
        var (s', r) := Heartbeat(s, cache.token, c.cfg.product, cache.device, c.cfg.appVersion, ch);
        if r.Err? then (s', TickFailed(c, cache, Refused(r.code)))
        else (s', Renewed(c, cache.(token := r.value.token, expireAt := r.value.expireAt, flags := r.value.flags)))
  }

  function MoveStep(s: Db, c: Sdk, m: Move): (Db, Sdk) {
    match m
    case ActivateMove(key, online, ch) => ClientActivate(s, c, key, online, ch)
    case VerifyMove(online, clock) => ClientVerify(s, c, online, clock)
    case DeactivateMove(key, online) => ClientDeactivate(s, c, key, online)
    case TickMove(online, ch) => ClientTick(s, c, online, ch)
    case StartMove => (s, c.(ticking := true))
    case StopMove => (s, c.(ticking := false))
    case RestartMove => (s, Started(c.cfg, c.cache))
  }

  predicate MoveEnabled(s: Db, c: Sdk, m: Move) {
    match m
    case ActivateMove(key, online, ch) => online ==> ActivateChoicesOk(s, c.cfg.product, key, c.cfg.device, c.cfg.appVersion, ch)
    case TickMove(online, ch) =>
      online && c.cache.Some? ==>
        HeartbeatChoiceOk(s, c.cache.value.token, c.cfg.product, c.cache.value.device, c.cfg.appVersion, ch)
    case _ => true
  }

  // ---------------------------------------------------------------------------
  // The client object

  class LicenseClient {
    const cfg: Config
    var store: Option<Cache>
    var gate: Flags
    var state: SdkState
    var timer: bool

    ghost function View(): Sdk
      reads this
    {
      Sdk(cfg, store, gate, state, timer)
    }

    constructor (cfg: Config, store: Option<Cache>)
      ensures View() == Started(cfg, store)
    {
      this.cfg, this.store, this.timer := cfg, store, false;
      gate, state := map[], IDLE;
      if store.Some? {
        gate := store.value.flags;
        state := SdkState(Inactive, None, store.value.flags, Some(store.value.expireAt));
      }
    }

    /** On failure the error reaches the caller and the client is as before. */
    method ActivateKey(db: Database, key: string, online: bool) returns (failure: Option<Code>, ghost ch: Choices)
      requires ForeignKeys(db.State())
      modifies this, db
      ensures MoveEnabled(old(db.State()), old(View()), ActivateMove(key, online, ch))
      ensures (db.State(), View()) == ClientActivate(old(db.State()), old(View()), key, online, ch)
      ensures failure.Some? ==> View() == old(View())
    {
      hide Activate, ActivateChoicesOk, ForeignKeys;
      ch := Choices("", IssueChoice(0, ""));
      if !online { return Some(Unreachable), ch; }
      var result;
      result, ch := ActivateDevice(db, cfg.product, key, cfg.device, cfg.appVersion);
      if result.Err? { return Some(Refused(result.code)), ch; }
      store := Some(Cache(result.value.token, result.value.expireAt, cfg.device, result.value.flags));
      gate := result.value.flags;
      state := SdkState(Active, None, result.value.flags, Some(result.value.expireAt));
      failure := None;
    }

    method VerifyOnStartup(db: Database, signatureOk: bool, online: bool, clock: Time)
      requires ForeignKeys(db.State())
      requires store.Some? ==> (signatureOk <==> store.value.token in db.signed)
      modifies this, db
      ensures (db.State(), View()) == ClientVerify(old(db.State()), old(View()), online, clock)
    {
      hide Verify, ForeignKeys;
      var local := Check(store, cfg.graceHours, clock);
      if local == Missing {
        state := IDLE;
        return;
      }
      var cache := store.value;
      if local == PastGrace {
        state := SdkState(Expired, None, cache.flags, Some(cache.expireAt));
        return;
      }
      var code := Unreachable;
      if online {
        var result := VerifyDevice(db, cache.token, signatureOk, cfg.product, cache.device, cfg.appVersion);
        if result.Ok? {
          store := Some(cache.(flags := result.value.flags));
          gate := result.value.flags;
          state := SdkState(if local == InGrace then Grace else Active, None, result.value.flags, Some(cache.expireAt));
          return;
        }
        code := Refused(result.code);
      }
      if code == Unreachable && local == InGrace {
        state := SdkState(Grace, Some(code), cache.flags, Some(cache.expireAt));
        return;
      }
      state := SdkState(MapCode(code), Some(code), cache.flags, Some(cache.expireAt));
    }

    method DeactivateKey(db: Database, key: string, online: bool) returns (failure: Option<Code>)
      requires ForeignKeys(db.State())
      modifies this, db
      ensures (db.State(), View()) == ClientDeactivate(old(db.State()), old(View()), key, online)
      ensures failure.Some? ==> View() == old(View())
    {
      hide Deactivate, ForeignKeys;
      if store.Some? {
        if !online { return Some(Unreachable); }
        var result := DeactivateDevice(db, cfg.product, key, store.value.device);
        if result.Err? { return Some(Refused(result.code)); }
      }
      store := None;
      gate := map[];
      state := IDLE;
      failure := None;
    }

    method StartHeartbeat()
      modifies this`timer
      ensures View() == old(View()).(ticking := true)
    {
      if timer { return; }
      timer := true;
    }

    method StopHeartbeat()
      modifies this`timer
      ensures View() == old(View()).(ticking := false)
    {
      if timer { timer := false; }
    }

    method Tick(db: Database, signatureOk: bool, online: bool) returns (ghost ch: IssueChoice)
      requires ForeignKeys(db.State())
      requires store.Some? ==> (signatureOk <==> store.value.token in db.signed)
      modifies this, db
      ensures MoveEnabled(old(db.State()), old(View()), TickMove(online, ch))
      ensures (db.State(), View()) == ClientTick(old(db.State()), old(View()), online, ch)
    {
      hide Heartbeat, HeartbeatChoiceOk, ForeignKeys;
      ch := IssueChoice(0, "");
      if store.None? {
        StopHeartbeat();
        state := IDLE;
        return;
      }
      var cache := store.value;
      var code := Unreachable;
      if online {
        var result;
        result, ch := HeartbeatDevice(db, cache.token, signatureOk, cfg.product, cache.device, cfg.appVersion);
        if result.Ok? {
          store := Some(cache.(token := result.value.token, expireAt := result.value.expireAt, flags := result.value.flags));
          gate := result.value.flags;
          state := SdkState(Active, None, result.value.flags, Some(result.value.expireAt));
          return;
        }
        code := Refused(result.code);
      }
      if code in {Refused(LicenseBanned), Refused(LicenseExpired), Refused(DeviceGone), Refused(LeaseExpired), Refused(LeaseInvalid)} {
        StopHeartbeat();
      }
      state := SdkState(MapCode(code), Some(code), cache.flags, None);
    }
  }

  // ---------------------------------------------------------------------------
  // The closed system

  datatype World = World(db: Db, sdks: map<string, Sdk>)

  datatype WorldEvent = ClientMove(device: string, move: Move) | ServerEvent(event: Event)

  function WorldStep(w: World, e: WorldEvent): World {
    match e
    case ClientMove(d, m) =>
      if d !in w.sdks then w
      else
        var (s', c') := MoveStep(w.db, w.sdks[d], m);
        World(s', w.sdks[d := c'])
    case ServerEvent(ev) => w.(db := Step(w.db, ev))
  }

  /** Besides the clients, the server sees admins, the clock, other devices' calls, and
      any verify or deactivate call; a client's device code leases only through it. */
  predicate WorldEnabled(w: World, e: WorldEvent) {
    match e
    case ClientMove(d, m) => d in w.sdks ==> MoveEnabled(w.db, w.sdks[d], m)
    case ServerEvent(ev) => Enabled(w.db, ev) && (ev.ActivateCall? || ev.HeartbeatCall? ==> ev.device !in w.sdks)
  }

  function WorldRun(w: World, es: seq<WorldEvent>): World
    decreases |es|
  {
    if es == [] then w else WorldRun(WorldStep(w, es[0]), es[1..])
  }

  predicate ValidWorldRun(w: World, es: seq<WorldEvent>)
    decreases |es|
  {
    es == [] || (WorldEnabled(w, es[0]) && ValidWorldRun(WorldStep(w, es[0]), es[1..]))
  }

  /** The gate shows the cached flags, or nothing without a cache. */
  predicate GateMatches(c: Sdk) {
    c.gate == if c.cache.Some? then c.cache.value.flags else map[]
  }

  /** A client that reports `active` or `grace` has a cache and shows it. */
  predicate StateMatches(c: Sdk) {
    c.state.status in {Active, Grace} ==>
      c.cache.Some? && c.state.flags == c.cache.value.flags && c.state.expireAt == Some(c.cache.value.expireAt)
  }

  /** The cached token is one the server signed for this device, with the cached
      expiry, and no other lease of the device is active. */
  ghost predicate CacheBacked(s: Db, c: Sdk) {
    c.cache.Some? ==>
      var cache := c.cache.value;
      && cache.device == c.cfg.device
      && cache.token in s.signed && cache.token.device == c.cfg.device && cache.token.exp == cache.expireAt
      && forall l | l in s.leases && s.leases[l].status == LeaseActive && s.leases[l].device == c.cfg.device :: l == cache.token.jti
  }

  ghost predicate SdkFits(s: Db, c: Sdk) {
    GateMatches(c) && StateMatches(c) && CacheBacked(s, c)
  }

  ghost predicate Agrees(w: World) {
    Inv(w.db) && forall d | d in w.sdks :: w.sdks[d].cfg.device == d && SdkFits(w.db, w.sdks[d])
  }

  // ---------------------------------------------------------------------------
  // Which device a call may lease for

  ghost predicate NewOnlyFor(s: Db, s': Db, devices: set<string>) {
    forall l | l in s'.leases && l !in s.leases :: s'.leases[l].device in devices
  }

  /** The reply's token is signed, and its lease is active and the device's own. */
  ghost predicate Leased(s: Db, d: string, reply: LeaseReply) {
    && reply.token in s.signed && reply.token.device == d && reply.token.exp == reply.expireAt
    && reply.token.jti in s.leases && s.leases[reply.token.jti].device == d
    && s.leases[reply.token.jti].status == LeaseActive
  }

  lemma IssueLeases(s: Db, lic: KeyHash, d: string, v: string, maxC: int, policy: BindingPolicy, c: IssueChoice)
    ensures var (s', r) := Issue(s, lic, d, v, maxC, policy, c);
            && NewOnlyFor(s, s', if r.Ok? then {d} else {})
            && (r.Ok? ==> forall flags :: Leased(s', d, LeaseReply(r.value, r.value.exp, flags)))
  {
    hide ConcurrencyFull;
  }

  lemma ActivateLeases(s: Db, product: string, key: string, d: string, v: string, c: Choices)
    ensures var (s', r) := Activate(s, product, key, d, v, c);
            && NewOnlyFor(s, s', if r.Ok? then {d} else {})
            && (r.Ok? ==> Leased(s', d, r.value))
  {
    hide ValidateLicense, Issue, MaxDevices, MaxConcurrency, PolicyOf, FeatureFlags, ActiveDevices;
    var (s1, r1) := ValidateLicense(s, product, key);
    if r1.Ok? {
      var s2 := Bind(s1, r1.value, d, v, c.kicked).0;
      assert s2.leases.Keys == s.leases.Keys;
      IssueLeases(s2, r1.value, d, v, MaxConcurrency(s2, r1.value), PolicyOf(s2, r1.value), c.issue);
    }
  }

  lemma HeartbeatLeases(s: Db, t: Token, product: string, d: string, v: string, c: IssueChoice)
    ensures var (s', r) := Heartbeat(s, t, product, d, v, c);
            && NewOnlyFor(s, s', if r.Ok? then {d} else {})
            && (r.Ok? ==> Leased(s', d, r.value))
  {
    hide Issue, MaxConcurrency, PolicyOf, FeatureFlags, EnsureValid, EnsureAllowed;
    var (s1, r1) := HeartbeatGate(s, t, product, d, v);
    if r1.Ok? {
      var s2 := Rotated(s1, t, d, v);
      IssueLeases(s2, r1.value, d, v, MaxConcurrency(s2, r1.value), PolicyOf(s2, r1.value), c);
    }
  }

  lemma StepLeases(s: Db, e: Event)
    ensures NewOnlyFor(s, Step(s, e), if e.ActivateCall? || e.HeartbeatCall? then {e.device} else {})
  {
    hide Activate, Heartbeat, ValidateLicense, EnsureValid, EnsureAllowed;
    match e
    case ActivateCall(product, key, d, v, c) => ActivateLeases(s, product, key, d, v, c);
    case HeartbeatCall(token, product, d, v, c) => HeartbeatLeases(s, token, product, d, v, c);
    case _ =>
  }

  // ---------------------------------------------------------------------------
  // Every run keeps caches, gates and leases in agreement

  /** A client whose device gets no new lease stays backed. */
  lemma BystanderFits(s: Db, s': Db, c: Sdk, devices: set<string>)
    requires SdkFits(s, c) && Evolves(s, s') && NewOnlyFor(s, s', devices) && c.cfg.device !in devices
    ensures SdkFits(s', c)
  { }

  lemma RenewedFits(s: Db, c: Sdk, reply: LeaseReply)
    requires Inv(s) && Leased(s, c.cfg.device, reply)
    ensures SdkFits(s, Renewed(c, Cache(reply.token, reply.expireAt, c.cfg.device, reply.flags)))
  { }

  /** One client move: the database keeps its invariant, the client stays in agreement,
      and nobody else's device is leased. */
  ghost predicate MoveOk(s: Db, s': Db, c': Sdk) {
    Inv(s') && Evolves(s, s') && SdkFits(s', c') && NewOnlyFor(s, s', {c'.cfg.device})
  }

  lemma ClientActivateOk(s: Db, c: Sdk, key: string, online: bool, ch: Choices)
    requires Inv(s) && SdkFits(s, c) && MoveEnabled(s, c, ActivateMove(key, online, ch))
    ensures var (s', c') := ClientActivate(s, c, key, online, ch); MoveOk(s, s', c') && c'.cfg == c.cfg
  {
    hide Inv, Evolves, Activate, ActivateChoicesOk, SdkFits, NewOnlyFor, Leased;
    if online {
      ActivateKeepsInv(s, c.cfg.product, key, c.cfg.device, c.cfg.appVersion, ch);
      ActivateEvolves(s, c.cfg.product, key, c.cfg.device, c.cfg.appVersion, ch);
      ActivateLeases(s, c.cfg.product, key, c.cfg.device, c.cfg.appVersion, ch);
      var (s', r) := Activate(s, c.cfg.product, key, c.cfg.device, c.cfg.appVersion, ch);
      if r.Ok? {
        RenewedFits(s', c, r.value);
      } else {
        BystanderFits(s, s', c, {});
        NoneIsFew(s, s', {c.cfg.device});
      }
    } else {
      Idle(s, {c.cfg.device});
    }
  }

  lemma NoneIsFew(s: Db, s': Db, devices: set<string>)
    requires NewOnlyFor(s, s', {})
    ensures NewOnlyFor(s, s', devices)
  { }

  lemma Idle(s: Db, devices: set<string>)
    ensures Evolves(s, s) && NewOnlyFor(s, s, devices)
  { }

  lemma ClientTickOk(s: Db, c: Sdk, online: bool, ch: IssueChoice)
    requires Inv(s) && SdkFits(s, c) && MoveEnabled(s, c, TickMove(online, ch))
    ensures var (s', c') := ClientTick(s, c, online, ch); MoveOk(s, s', c') && c'.cfg == c.cfg
  {
    hide Inv, Evolves, Heartbeat, HeartbeatChoiceOk, NewOnlyFor, Leased, StopsTimer, MapCode;
    Idle(s, {c.cfg.device});
    if c.cache.Some? {
      FailedStatus();
      if online {
        var cache := c.cache.value;
        var (s', r) := Heartbeat(s, cache.token, c.cfg.product, cache.device, c.cfg.appVersion, ch);
        HeartbeatKeepsInv(s, cache.token, c.cfg.product, cache.device, c.cfg.appVersion, ch);
        HeartbeatEvolves(s, cache.token, c.cfg.product, cache.device, c.cfg.appVersion, ch);
        HeartbeatLeases(s, cache.token, c.cfg.product, cache.device, c.cfg.appVersion, ch);
        if r.Ok? {
          RenewedFits(s', c, r.value);
        } else {
          BystanderFits(s, s', c, {});
          NoneIsFew(s, s', {c.cfg.device});
        }
      }
    }
  }

  lemma FailedStatus()
    ensures forall code :: MapCode(code) !in {Active, Grace}
  { }

  lemma ClientVerifyOk(s: Db, c: Sdk, online: bool, clock: Time)
    requires Inv(s) && SdkFits(s, c)
    ensures var (s', c') := ClientVerify(s, c, online, clock); MoveOk(s, s', c') && c'.cfg == c.cfg
  {
    hide Inv, Evolves, Verify, NewOnlyFor, MapCode;
    Idle(s, {c.cfg.device});
    FailedStatus();
    if c.cache.Some? {
      var cache := c.cache.value;
      var s' := Verify(s, cache.token, c.cfg.product, cache.device, c.cfg.appVersion).0;
      var e := VerifyCall(cache.token, c.cfg.product, cache.device, c.cfg.appVersion);
      StepKeepsInv(s, e);
      StepEvolves(s, e);
      StepLeases(s, e);
      BystanderFits(s, s', c, {});
      NoneIsFew(s, s', {c.cfg.device});
    }
  }

  lemma ClientDeactivateOk(s: Db, c: Sdk, key: string, online: bool)
    requires Inv(s) && SdkFits(s, c)
    ensures var (s', c') := ClientDeactivate(s, c, key, online); MoveOk(s, s', c') && c'.cfg == c.cfg
  {
    hide Inv, Evolves, Deactivate, NewOnlyFor;
    Idle(s, {c.cfg.device});
    if c.cache.Some? {
      var s' := Deactivate(s, c.cfg.product, key, c.cache.value.device).0;
      var e := DeactivateCall(c.cfg.product, key, c.cache.value.device);
      StepKeepsInv(s, e);
      StepEvolves(s, e);
      StepLeases(s, e);
      BystanderFits(s, s', c, {});
      NoneIsFew(s, s', {c.cfg.device});
    }
  }

  lemma MoveKeepsAgreement(s: Db, c: Sdk, m: Move)
    requires Inv(s) && SdkFits(s, c) && MoveEnabled(s, c, m)
    ensures var (s', c') := MoveStep(s, c, m); MoveOk(s, s', c') && c'.cfg == c.cfg
  {
    hide Inv, Evolves, ClientActivate, ClientVerify, ClientDeactivate, ClientTick, NewOnlyFor;
    match m
    case ActivateMove(key, online, ch) => ClientActivateOk(s, c, key, online, ch);
    case VerifyMove(online, clock) => ClientVerifyOk(s, c, online, clock);
    case DeactivateMove(key, online) => ClientDeactivateOk(s, c, key, online);
    case TickMove(online, ch) => ClientTickOk(s, c, online, ch);
    case _ => Idle(s, {c.cfg.device});
  }

  lemma WorldStepAgrees(w: World, e: WorldEvent)
    requires Agrees(w) && WorldEnabled(w, e)
    ensures Agrees(WorldStep(w, e))
  {
    hide Inv, Evolves, MoveStep, MoveEnabled, Step, Enabled, SdkFits, NewOnlyFor;
    var w' := WorldStep(w, e);
    match e
    case ClientMove(d, m) =>
      if d in w.sdks {
        MoveKeepsAgreement(w.db, w.sdks[d], m);
        forall f | f in w'.sdks ensures w'.sdks[f].cfg.device == f && SdkFits(w'.db, w'.sdks[f]) {
          if f != d { BystanderFits(w.db, w'.db, w.sdks[f], {d}); }
        }
      }
    case ServerEvent(ev) =>
      StepKeepsInv(w.db, ev);
      StepEvolves(w.db, ev);
      StepLeases(w.db, ev);
      forall f | f in w'.sdks ensures w'.sdks[f].cfg.device == f && SdkFits(w'.db, w'.sdks[f]) {
        BystanderFits(w.db, w'.db, w.sdks[f], if ev.ActivateCall? || ev.HeartbeatCall? then {ev.device} else {});
      }
  }

  lemma {:induction false} WorldRunKeepsAgreement(w: World, es: seq<WorldEvent>)
    requires Agrees(w) && ValidWorldRun(w, es)
    ensures Agrees(WorldRun(w, es))
    decreases |es|
  {
    hide Agrees, WorldStep, WorldEnabled;
    if es != [] {
      WorldStepAgrees(w, es[0]);
      WorldRunKeepsAgreement(WorldStep(w, es[0]), es[1..]);
    }
  }

  // ---------------------------------------------------------------------------
  // The cached lease: active until something named ends it

  /** The server call a move makes, if it makes one. */
  function MoveCall(c: Sdk, m: Move): Option<Event> {
    match m
    case ActivateMove(key, online, ch) =>
      if online then Some(ActivateCall(c.cfg.product, key, c.cfg.device, c.cfg.appVersion, ch)) else None
    case VerifyMove(online, clock) =>
      if online && Check(c.cache, c.cfg.graceHours, clock) in {Valid, InGrace}
      then Some(VerifyCall(c.cache.value.token, c.cfg.product, c.cache.value.device, c.cfg.appVersion)) else None
    case DeactivateMove(key, online) =>
      if online && c.cache.Some? then Some(DeactivateCall(c.cfg.product, key, c.cache.value.device)) else None
    case TickMove(online, ch) =>
      if online && c.cache.Some?
      then Some(HeartbeatCall(c.cache.value.token, c.cfg.product, c.cache.value.device, c.cfg.appVersion, ch)) else None
    case _ => None
  }

  function CallOf(w: World, e: WorldEvent): Option<Event> {
    match e
    case ClientMove(d, m) => if d in w.sdks then MoveCall(w.sdks[d], m) else None
    case ServerEvent(ev) => Some(ev)
  }

  /** The client's own activation or heartbeat succeeds. */
  predicate Renews(w: World, e: WorldEvent, d: string) {
    e.ClientMove? && e.device == d && d in w.sdks &&
    match MoveCall(w.sdks[d], e.move)
    case Some(ActivateCall(product, key, f, v, ch)) => Activate(w.db, product, key, f, v, ch).1.Ok?
    case Some(HeartbeatCall(t, product, f, v, ch)) => Heartbeat(w.db, t, product, f, v, ch).1.Ok?
    case _ => false
  }

  /** The client's own deactivation succeeds, or has nothing to deactivate. */
  predicate Forgets(w: World, e: WorldEvent, d: string) {
    && e.ClientMove? && e.device == d && d in w.sdks && e.move.DeactivateMove?
    && (w.sdks[d].cache.Some? ==>
          e.move.online && Deactivate(w.db, w.sdks[d].cfg.product, e.move.key, w.sdks[d].cache.value.device).1.Ok?)
  }

  /** A call, the client's own or anybody's, ends the cached lease for one of the five
      causes of `LeaseEnds`. */
  predicate Loses(w: World, e: WorldEvent, d: string) {
    && CallOf(w, e).Some? && d in w.sdks && w.sdks[d].cache.Some? && w.sdks[d].cache.value.token.jti in w.db.leases
    && LeaseEnds.Ends(w.db, CallOf(w, e).value, w.sdks[d].cache.value.token.jti)
  }

  /** The client has a cache, and the lease in it is active. */
  predicate Holds(w: World, d: string) {
    d in w.sdks && w.sdks[d].cache.Some? && LeaseEnds.Active(w.db, w.sdks[d].cache.value.token.jti)
  }

  lemma MoveIsCall(s: Db, c: Sdk, m: Move)
    requires MoveEnabled(s, c, m)
    ensures MoveStep(s, c, m).0 == match MoveCall(c, m) case None => s case Some(ev) => Step(s, ev)
    ensures MoveCall(c, m).Some? ==> Enabled(s, MoveCall(c, m).value)
  {
    hide Activate, Verify, Heartbeat, Deactivate, ActivateChoicesOk, HeartbeatChoiceOk;
  }

  /** What a move does to the cached token. */
  lemma MoveCache(s: Db, c: Sdk, m: Move)
    ensures var w := World(s, map[c.cfg.device := c]);
            var e, c' := ClientMove(c.cfg.device, m), MoveStep(s, c, m).1;
            && !(Renews(w, e, c.cfg.device) && Forgets(w, e, c.cfg.device))
            && (Forgets(w, e, c.cfg.device) <==> m.DeactivateMove? && c'.cache.None?)
            && (!Renews(w, e, c.cfg.device) && !Forgets(w, e, c.cfg.device) ==>
                  c'.cache.Some? == c.cache.Some? && (c.cache.Some? ==> c'.cache.value.token == c.cache.value.token))
  {
    hide Activate, Verify, Heartbeat, Deactivate, MapCode, StopsTimer;
  }

  lemma RenewedHolds(s: Db, c: Sdk, m: Move)
    requires Renews(World(s, map[c.cfg.device := c]), ClientMove(c.cfg.device, m), c.cfg.device)
    requires CacheBacked(s, c)
    ensures var (s', c') := MoveStep(s, c, m); c'.cache.Some? && LeaseEnds.Active(s', c'.cache.value.token.jti)
  {
    hide Activate, Heartbeat, Leased;
    match m
    case ActivateMove(key, online, ch) =>
      ActivateLeases(s, c.cfg.product, key, c.cfg.device, c.cfg.appVersion, ch);
      LeasedIsActive(MoveStep(s, c, m).0, c.cfg.device, Activate(s, c.cfg.product, key, c.cfg.device, c.cfg.appVersion, ch).1.value);
    case TickMove(online, ch) =>
      var cache := c.cache.value;
      HeartbeatLeases(s, cache.token, c.cfg.product, cache.device, c.cfg.appVersion, ch);
      LeasedIsActive(MoveStep(s, c, m).0, cache.device, Heartbeat(s, cache.token, c.cfg.product, cache.device, c.cfg.appVersion, ch).1.value);
    case _ =>
  }

  lemma LeasedIsActive(s: Db, d: string, reply: LeaseReply)
    requires Leased(s, d, reply)
    ensures LeaseEnds.Active(s, reply.token.jti)
  { }

  /** A call ends the lease for a named cause, or leaves it as it is. */
  lemma CallEnds(s: Db, call: Option<Event>, s': Db, l: TokenId)
    requires Inv(s) && l in s.leases && s' == match call case None => s case Some(ev) => Step(s, ev)
    requires call.Some? ==> Enabled(s, call.value)
    ensures LeaseEnds.Active(s', l) <==> LeaseEnds.Active(s, l) && !(call.Some? && LeaseEnds.Ends(s, call.value, l))
  {
    hide Inv, Step, Enabled, LeaseEnds.Ends;
    if call.Some? {
      if LeaseEnds.Active(s, l) {
        LeaseEnds.StepEndsIff(s, call.value, l);
      } else {
        StepEvolves(s, call.value);
      }
    }
  }

  lemma WorldIsCall(w: World, e: WorldEvent)
    requires WorldEnabled(w, e)
    ensures WorldStep(w, e).db == match CallOf(w, e) case None => w.db case Some(ev) => Step(w.db, ev)
    ensures CallOf(w, e).Some? ==> Enabled(w.db, CallOf(w, e).value)
  {
    hide MoveStep, MoveCall, MoveEnabled, Step, Enabled;
    if e.ClientMove? && e.device in w.sdks { MoveIsCall(w.db, w.sdks[e.device], e.move); }
  }

  /** Renewing and forgetting depend on the rows and on the client alone. */
  lemma OneClient(w: World, m: Move, d: string)
    requires d in w.sdks
    ensures Renews(w, ClientMove(d, m), d) == Renews(World(w.db, map[d := w.sdks[d]]), ClientMove(d, m), d)
    ensures Forgets(w, ClientMove(d, m), d) == Forgets(World(w.db, map[d := w.sdks[d]]), ClientMove(d, m), d)
  {
    hide Activate, Heartbeat, Deactivate, MoveCall;
  }

  lemma JtiKnown(w: World, d: string)
    requires Agrees(w) && d in w.sdks && w.sdks[d].cache.Some?
    ensures w.sdks[d].cache.value.token.jti in w.db.leases
  { }

  /** After a step the client holds an active lease exactly if its own call renewed it,
      or it held one before, did not forget it, and no cause ended it. */
  lemma HoldsStepIff(w: World, e: WorldEvent, d: string)
    requires Agrees(w) && WorldEnabled(w, e) && d in w.sdks
    ensures Holds(WorldStep(w, e), d) <==> Renews(w, e, d) || (Holds(w, d) && !Forgets(w, e, d) && !Loses(w, e, d))
  {
    var c, w' := w.sdks[d], WorldStep(w, e);
    assert Inv(w.db) && c.cfg.device == d && CacheBacked(w.db, c);
    if c.cache.Some? { JtiKnown(w, d); }
    hide Inv, Agrees, CacheBacked, MoveStep, MoveCall, MoveEnabled, Step, Enabled, Renews, Forgets, LeaseEnds.Active, LeaseEnds.Ends;
    WorldIsCall(w, e);
    if c.cache.Some? { CallEnds(w.db, CallOf(w, e), w'.db, c.cache.value.token.jti); }
    if e.ClientMove? && e.device == d {
      OneClient(w, e.move, d);
      MoveCache(w.db, c, e.move);
      if Renews(w, e, d) { RenewedHolds(w.db, c, e.move); }
    } else {
      NotOwn(w, e, d);
    }
  }

  lemma NotOwn(w: World, e: WorldEvent, d: string)
    requires !(e.ClientMove? && e.device == d)
    ensures !Renews(w, e, d) && !Forgets(w, e, d)
  { }

  /** The same, folded over a run. */
  predicate Tracked(w: World, es: seq<WorldEvent>, d: string, holds: bool)
    decreases |es|
  {
    if es == [] then holds
    else
      var next := Renews(w, es[0], d) || (holds && !Forgets(w, es[0], d) && !Loses(w, es[0], d));
      Tracked(WorldStep(w, es[0]), es[1..], d, next)
  }

  /** Over every run, exactly: the cached lease is active as long as the client does not
      forget it and none of the named causes ends it, and again after each renewal. */
  lemma {:induction false} WorldRunHoldsIff(w: World, es: seq<WorldEvent>, d: string)
    requires Agrees(w) && ValidWorldRun(w, es) && d in w.sdks
    ensures Holds(WorldRun(w, es), d) <==> Tracked(w, es, d, Holds(w, d))
    decreases |es|
  {
    if es != [] {
      ClientsStay(w, es[0], d);
      hide Agrees, Holds, WorldStep, WorldEnabled, Renews, Forgets, Loses;
      WorldStepAgrees(w, es[0]);
      HoldsStepIff(w, es[0], d);
      WorldRunHoldsIff(WorldStep(w, es[0]), es[1..], d);
    }
  }

  /** In every run a non-empty cache holds a token the server signed for that very
      device with that expiry, no other lease of the device is active, and the feature
      gate shows exactly the cached flags; and the cached lease itself is active exactly
      as long as the client does not forget it and none of the named causes ends it. */
  lemma WorldRunAgrees(w: World, es: seq<WorldEvent>)
    requires Agrees(w) && ValidWorldRun(w, es)
    ensures Agrees(WorldRun(w, es))
    ensures forall d | d in w.sdks :: Holds(WorldRun(w, es), d) <==> Tracked(w, es, d, Holds(w, d))
  {
    hide Agrees, Holds, Tracked;
    WorldRunKeepsAgreement(w, es);
    forall d | d in w.sdks ensures Holds(WorldRun(w, es), d) <==> Tracked(w, es, d, Holds(w, d)) {
      WorldRunHoldsIff(w, es, d);
    }
  }

  lemma ClientsStay(w: World, e: WorldEvent, d: string)
    requires d in w.sdks
    ensures d in WorldStep(w, e).sdks
  {
    hide MoveStep, Step;
  }

  /** A client that held an active lease and no longer does lost it at one step of the
      run: it forgot it there, or a named cause ended it. */
  lemma {:induction false} LossHasCause(w: World, es: seq<WorldEvent>, d: string) returns (i: nat)
    requires Agrees(w) && ValidWorldRun(w, es) && Holds(w, d) && !Holds(WorldRun(w, es), d)
    ensures i < |es|
    ensures var before := WorldRun(w, es[..i]);
            && Holds(before, d) && !Holds(WorldStep(before, es[i]), d)
            && (Forgets(before, es[i], d) || Loses(before, es[i], d))
    decreases |es|
  {
    HoldersAreClients(w, d);
    hide *;
    RunUnfolds(w, es);
    var w1 := WorldStep(w, es[0]);
    if Holds(w1, d) {
      WorldStepAgrees(w, es[0]);
      var j := LossHasCause(w1, es[1..], d);
      i := j + 1;
      PrefixRun(w, es, j);
    } else {
      HoldsStepIff(w, es[0], d);
      i := 0;
      EmptyRun(w, es[..0]);
    }
  }

  lemma HoldersAreClients(w: World, d: string)
    ensures Holds(w, d) ==> d in w.sdks
  { }

  lemma EmptyRun(w: World, es: seq<WorldEvent>)
    requires es == []
    ensures WorldRun(w, es) == w
  { }

  lemma RunUnfolds(w: World, es: seq<WorldEvent>)
    requires ValidWorldRun(w, es)
    ensures es == [] ==> WorldRun(w, es) == w
    ensures es != [] ==>
              && WorldEnabled(w, es[0]) && ValidWorldRun(WorldStep(w, es[0]), es[1..])
              && WorldRun(w, es) == WorldRun(WorldStep(w, es[0]), es[1..])
  {
    hide WorldStep, WorldEnabled;
  }

  lemma PrefixRun(w: World, es: seq<WorldEvent>, j: nat)
    requires j < |es|
    ensures WorldRun(w, es[..j + 1]) == WorldRun(WorldStep(w, es[0]), es[1..][..j])
  {
    hide WorldStep;
    assert es[..j + 1][1..] == es[1..][..j];
  }

  /** A re-activation that fails leaves the client as it was. It ends the cached lease
      all the same exactly when it got past binding, that is, when the key is good for
      the device's own license and the device is active; then the other live devices
      fill the limit, and unless the lease had expired the license was over it. */
  lemma DeniedActivationIff(s: Db, c: Sdk, key: string, ch: Choices)
    requires Inv(s) && SdkFits(s, c) && c.cache.Some? && LeaseEnds.Active(s, c.cache.value.token.jti)
    requires MoveEnabled(s, c, ActivateMove(key, true, ch))
    requires Activate(s, c.cfg.product, key, c.cfg.device, c.cfg.appVersion, ch).1.Err?
    ensures var (s', c') := ClientActivate(s, c, key, true, ch);
            var (s1, r1) := ValidateLicense(s, c.cfg.product, key);
            var d := c.cfg.device;
            var ended := !LeaseEnds.Active(s', c.cache.value.token.jti);
            && c' == c && d in s.devices
            && (ended <==> r1 == Ok(s.devices[d].license) && s.devices[d].status == DeviceActive)
            && (ended ==>
                  && MaxConcurrency(s1, r1.value) > 0 && PolicyOf(s1, r1.value) != KickOldest
                  && |LiveDevices(s, r1.value) - {d}| >= MaxConcurrency(s1, r1.value)
                  && (c.cache.value.expireAt > s.now ==> |LiveDevices(s, r1.value)| > MaxConcurrency(s1, r1.value)))
  {
    var d, l := c.cfg.device, c.cache.value.token.jti;
    assert d in s.devices && s.leases[l].device == d && s.leases[l].license == s.devices[d].license && s.leases[l].expireAt == c.cache.value.expireAt;
    hide Inv, SdkFits, ValidateLicense, Activate, MoveEnabled, LiveDevices, MaxConcurrency, PolicyOf, ActivateChoicesOk;
    DeniedActivation(s, c.cfg.product, key, d, c.cfg.appVersion, ch, l);
    assert LeaseEnds.Active(s, l) && c.cache.value.expireAt > s.now && s.devices[d].status == DeviceActive ==> d in LiveDevices(s, s.devices[d].license) by {
      if LeaseEnds.Active(s, l) && c.cache.value.expireAt > s.now && s.devices[d].status == DeviceActive { HoldsByLease(s, d, l); }
    }
    if d in LiveDevices(s, s.devices[d].license) {
      assert |LiveDevices(s, s.devices[d].license) - {d}| == |LiveDevices(s, s.devices[d].license)| - 1;
    }
  }

  lemma HoldsByLease(s: Db, d: string, l: TokenId)
    requires LeaseEnds.Active(s, l) && s.leases[l].expireAt > s.now && s.leases[l].device == d
    requires d in s.devices && s.devices[d].status == DeviceActive && s.leases[l].license == s.devices[d].license
    ensures d in LiveDevices(s, s.devices[d].license)
  {
    assert Unexpired(s, l);
  }

  lemma DeniedActivation(s: Db, product: string, key: string, d: string, v: string, ch: Choices, l: TokenId)
    requires Inv(s) && LeaseEnds.Active(s, l) && s.leases[l].device == d && d in s.devices
    requires ActivateChoicesOk(s, product, key, d, v, ch) && Activate(s, product, key, d, v, ch).1.Err?
    ensures var s' := Activate(s, product, key, d, v, ch).0;
            var (s1, r1) := ValidateLicense(s, product, key);
            var ended := !LeaseEnds.Active(s', l);
            && (ended <==> r1 == Ok(s.devices[d].license) && s.devices[d].status == DeviceActive)
            && (ended ==>
                  && MaxConcurrency(s1, r1.value) > 0 && PolicyOf(s1, r1.value) != KickOldest
                  && |LiveDevices(s, r1.value) - {d}| >= MaxConcurrency(s1, r1.value))
  {
    hide Inv, ValidateLicense, Issue, LiveDevices, MaxDevices, ActiveDevices, KickChoiceOk, FeatureFlags, RevokeActive;
    var (s1, r1) := ValidateLicense(s, product, key);
    if r1.Ok? {
      var (s2, r2) := Bind(s1, r1.value, d, v, ch.kicked);
      if r2.Ok? {
        assert s2 == Touch(s1, d, v);
        LeaseEnds.IssueEnds(s2, r1.value, d, v, MaxConcurrency(s2, r1.value), PolicyOf(s2, r1.value), ch.issue, l);
        IssueDeniedIff(s2, r1.value, d, v, MaxConcurrency(s2, r1.value), PolicyOf(s2, r1.value), ch.issue);
        TouchedLive(s, s2, r1.value);
      }
    }
  }

  lemma TouchedLive(s: Db, s': Db, lic: KeyHash)
    requires s'.leases == s.leases && s'.now == s.now && s'.devices.Keys == s.devices.Keys
    requires forall d | d in s.devices :: s'.devices[d].status == s.devices[d].status
    ensures LiveDevices(s', lic) == LiveDevices(s, lic)
  {
    FrameLive(s, s', lic);
    FrameLive(s', s, lic);
  }

  // ---------------------------------------------------------------------------
  // What the client may conclude

  /** With a clock that is not ahead of the server's, a token the client no longer
      holds for valid is refused by the server. So `grace` is only reported when the
      server was not reached, or when the client's clock runs ahead. */
  lemma GraceOnlyOffline(s: Db, c: Sdk, online: bool, clock: Time)
    requires Inv(s) && SdkFits(s, c)
    ensures clock <= s.now && Check(c.cache, c.cfg.graceHours, clock) in {InGrace, PastGrace} ==>
              forall p, d, v :: Verify(s, c.cache.value.token, p, d, v).1 in {Err(LeaseInvalid), Err(LeaseExpired)}
    ensures var grace := ClientVerify(s, c, online, clock).1.state.status == Grace;
            && (clock <= s.now ==> (grace <==> !online && Check(c.cache, c.cfg.graceHours, clock) == InGrace))
            && (grace && online ==> clock > s.now && c.cache.value.expireAt > s.now)
  {
    if Check(c.cache, c.cfg.graceHours, clock) in {InGrace, PastGrace} && c.cache.value.expireAt <= s.now {
      hide EnsureValid, EnsureAllowed;
      var t := c.cache.value.token;
      forall p, d, v ensures Verify(s, t, p, d, v).1 in {Err(LeaseInvalid), Err(LeaseExpired)} {
        DeadIsRefused(s, t, p, d, v, IssueChoice(0, ""));
      }
    }
    hide Verify, Inv, SdkFits;
    VerifiedStatus(s, c, online, clock);
  }

  lemma VerifiedStatus(s: Db, c: Sdk, online: bool, clock: Time)
    ensures ClientVerify(s, c, online, clock).1.state.status == Grace <==>
              && Check(c.cache, c.cfg.graceHours, clock) == InGrace
              && (online ==> Verify(s, c.cache.value.token, c.cfg.product, c.cache.value.device, c.cfg.appVersion).1.Ok?)
  {
    hide Verify;
    FailedStatus();
  }

  /** Activation checks no version, so the token it hands out is accepted right away
      exactly when the version policy allows the client. */
  lemma ActivatedIsAcceptedIff(s: Db, c: Sdk, key: string, ch: Choices)
    requires Inv(s) && s.ttlMs > 0 && MoveEnabled(s, c, ActivateMove(key, true, ch))
    requires Activate(s, c.cfg.product, key, c.cfg.device, c.cfg.appVersion, ch).1.Ok?
    ensures var (s', c') := ClientActivate(s, c, key, true, ch);
            ClientVerify(s', c', true, s'.now).1.state.status == Active <==>
              EnsureAllowed(s, c.cfg.product, c.cfg.appVersion).Ok?
  {
    hide Inv, Activate, Verify, EnsureAllowed, ClientVerify, ActivateChoicesOk;
    ActivatedVerifies(s, c.cfg.product, key, c.cfg.device, c.cfg.appVersion, ch);
    var (s', r) := Activate(s, c.cfg.product, key, c.cfg.device, c.cfg.appVersion, ch);
    FreshlyVerified(s', c, Cache(r.value.token, r.value.expireAt, c.cfg.device, r.value.flags));
  }

  lemma FreshlyVerified(s: Db, c: Sdk, cache: Cache)
    requires cache.expireAt > s.now
    ensures ClientVerify(s, Renewed(c, cache), true, s.now).1.state.status == Active <==>
              Verify(s, cache.token, c.cfg.product, cache.device, c.cfg.appVersion).1.Ok?
  {
    hide Verify;
    FailedStatus();
  }

  lemma ActivatedVerifies(s: Db, product: string, key: string, d: string, v: string, ch: Choices)
    requires Inv(s) && s.ttlMs > 0 && ActivateChoicesOk(s, product, key, d, v, ch)
    requires Activate(s, product, key, d, v, ch).1.Ok?
    ensures var (s', r) := Activate(s, product, key, d, v, ch);
            && Verify(s', r.value.token, product, d, v).1.Ok? == EnsureAllowed(s, product, v).Ok?
            && r.value.expireAt > s'.now
  {
    hide Inv, ValidateLicense, Issue, MaxDevices, MaxConcurrency, PolicyOf, FeatureFlags, KickChoiceOk, IssueChoiceOk, EnsureAllowed;
    var (s1, r1) := ValidateLicense(s, product, key);
    ValidatedIsValid(s, product, key);
    var lic := r1.value;
    var s2 := Bind(s1, lic, d, v, ch.kicked).0;
    assert d in s2.devices && s2.devices[d].status == DeviceActive;
    IssueGrants(s2, lic, d, v, MaxConcurrency(s2, lic), PolicyOf(s2, lic), ch.issue);
    var s3 := Renew(s2, lic, d, v, ch.issue).0;
    var s' := StampActivation(s3, lic);
    StampedIsValid(s1, s', lic, product);
    AllowedSame(s, s', product, v);
  }

  lemma ValidatedIsValid(s: Db, product: string, key: string)
    requires ValidateLicense(s, product, key).1.Ok?
    ensures var (s1, r1) := ValidateLicense(s, product, key); EnsureValid(s1, Some(r1.value), product).Ok?
  {
    hide EnsureValid, Redeem;
  }

  lemma StampedIsValid(s: Db, s': Db, lic: KeyHash, product: string)
    requires EnsureValid(s, Some(lic), product).Ok?
    requires lic in s'.licenses && s'.licenses[lic] == s.licenses[lic].(activateAt := s'.licenses[lic].activateAt)
    requires s'.products == s.products && s'.plans == s.plans && s'.now == s.now
    ensures EnsureValid(s', Some(lic), product).Ok?
  { }

  lemma AllowedSame(s: Db, s': Db, product: string, v: string)
    requires s'.products == s.products
    ensures EnsureAllowed(s', product, v) == EnsureAllowed(s, product, v)
  { }

  /** The lease behind an issued token carries what the token says. */
  lemma IssueGrants(s: Db, lic: KeyHash, d: string, v: string, maxC: int, policy: BindingPolicy, c: IssueChoice)
    requires Issue(s, lic, d, v, maxC, policy, c).1.Ok?
    ensures var (s', r) := Issue(s, lic, d, v, maxC, policy, c);
            && r.value in s'.signed && r.value.jti in s'.leases
            && s'.leases[r.value.jti] == Lease(lic, d, s.now, s.now + s.ttlMs, LeaseActive, v)
            && r.value == Token(r.value.jti, lic, d, s.now, s.now + s.ttlMs)
  {
    hide ConcurrencyFull;
  }

  /** A heartbeat does not look at the device, so its token is accepted right away
      exactly when the device is neither banned nor removed. */
  lemma TickedIsAcceptedIff(s: Db, c: Sdk, ch: IssueChoice)
    requires Inv(s) && s.ttlMs > 0 && SdkFits(s, c) && c.cache.Some? && MoveEnabled(s, c, TickMove(true, ch))
    requires Heartbeat(s, c.cache.value.token, c.cfg.product, c.cache.value.device, c.cfg.appVersion, ch).1.Ok?
    ensures var (s', c') := ClientTick(s, c, true, ch);
            ClientVerify(s', c', true, s'.now).1.state.status == Active <==>
              c.cfg.device in s.devices && s.devices[c.cfg.device].status == DeviceActive
  {
    hide Inv, Heartbeat, Verify, ClientVerify, HeartbeatChoiceOk;
    var cache := c.cache.value;
    HeartbeatVerifies(s, cache.token, c.cfg.product, c.cfg.device, c.cfg.appVersion, ch);
    var (s', r) := Heartbeat(s, cache.token, c.cfg.product, c.cfg.device, c.cfg.appVersion, ch);
    FreshlyVerified(s', c, cache.(token := r.value.token, expireAt := r.value.expireAt, flags := r.value.flags));
  }

  lemma HeartbeatVerifies(s: Db, t: Token, product: string, d: string, v: string, ch: IssueChoice)
    requires Inv(s) && s.ttlMs > 0 && HeartbeatChoiceOk(s, t, product, d, v, ch)
    requires Heartbeat(s, t, product, d, v, ch).1.Ok?
    ensures var (s', r) := Heartbeat(s, t, product, d, v, ch);
            && (Verify(s', r.value.token, product, d, v).1.Ok? <==> d in s.devices && s.devices[d].status == DeviceActive)
            && r.value.expireAt > s'.now
  {
    hide Inv, Issue, MaxConcurrency, PolicyOf, FeatureFlags, IssueChoiceOk, EnsureAllowed, EnsureValid;
    var lic := HeartbeatGate(s, t, product, d, v).1.value;
    var s2 := Rotated(s, t, d, v);
    IssueGrants(s2, lic, d, v, MaxConcurrency(s2, lic), PolicyOf(s2, lic), ch);
    var s' := Heartbeat(s, t, product, d, v, ch).0;
    StampedIsValid(s, s', lic, product);
    AllowedSame(s, s', product, v);
  }

  /** A heartbeat with a dead token stops the timer, for good and in every later state. */
  lemma DeadTokenStopsTimer(s: Db, c: Sdk, es: seq<Event>, ch: IssueChoice)
    requires Inv(s) && ValidRun(s, es) && c.cache.Some? && Dead(s, c.cache.value.token)
    ensures var c' := ClientTick(Run(s, es), c, true, ch).1;
            !c'.ticking && c'.state.status in {Expired, Invalid} && c'.cache == c.cache
  {
    hide Inv, ValidRun, Run, Heartbeat, Verify, Dead;
    var t := c.cache.value.token;
    DeadTokenStaysDead(s, es, t);
    DeadIsRefused(Run(s, es), t, c.cfg.product, c.cache.value.device, c.cfg.appVersion, ch);
  }

  /** A heartbeat refused for the concurrency limit does not stop the timer, but it has
      used the token up. */
  lemma DeniedTickUsesTokenUp(s: Db, c: Sdk, ch: IssueChoice)
    requires Inv(s) && c.cache.Some? && c.ticking && MoveEnabled(s, c, TickMove(true, ch))
    requires ClientTick(s, c, true, ch).1.state.code == Some(Refused(DeviceLimitReached))
    ensures var (s', c') := ClientTick(s, c, true, ch);
            c'.ticking && c'.cache == c.cache && Inv(s') && Dead(s', c.cache.value.token)
  {
    hide Inv, HeartbeatChoiceOk, Heartbeat, HeartbeatGate, Dead;
    var t, d := c.cache.value.token, c.cache.value.device;
    DenialPassedGate(s, t, c.cfg.product, d, c.cfg.appVersion, ch);
    HeartbeatKills(s, t, c.cfg.product, d, c.cfg.appVersion, ch);
    HeartbeatKeepsInv(s, t, c.cfg.product, d, c.cfg.appVersion, ch);
  }

  /** So the next heartbeat that reaches the server, however much later, stops it. */
  lemma DeniedTickStopsNext(s: Db, c: Sdk, ch: IssueChoice, es: seq<Event>, next: IssueChoice)
    requires Inv(s) && c.cache.Some? && c.ticking && MoveEnabled(s, c, TickMove(true, ch))
    requires ClientTick(s, c, true, ch).1.state.code == Some(Refused(DeviceLimitReached))
    requires ValidRun(ClientTick(s, c, true, ch).0, es)
    ensures var (s', c') := ClientTick(s, c, true, ch); c'.ticking && !ClientTick(Run(s', es), c', true, next).1.ticking
  {
    hide Inv, ClientTick, MoveEnabled, ValidRun, Run, Dead;
    DeniedTickUsesTokenUp(s, c, ch);
    var (s', c') := ClientTick(s, c, true, ch);
    DeadTokenStopsTimer(s', c', es, next);
  }

  lemma DenialPassedGate(s: Db, t: Token, product: string, d: string, v: string, ch: IssueChoice)
    requires Heartbeat(s, t, product, d, v, ch).1 == Err(DeviceLimitReached)
    ensures HeartbeatGate(s, t, product, d, v).1.Ok?
  {
    hide Issue, FeatureFlags, MaxConcurrency, PolicyOf;
  }

  predicate Idles(s: Db, d: string) {
    forall l | l in s.leases && s.leases[l].device == d :: s.leases[l].status != LeaseActive
  }

  /** The server answers a deactivation for the wrong license with success and does
      nothing; the client clears its cache all the same. The device's leases are gone
      exactly when the license was the right one, or none was active. */
  lemma ClearedFreesDeviceIff(s: Db, c: Sdk, key: string)
    requires Inv(s) && SdkFits(s, c) && c.cache.Some?
    requires Deactivate(s, c.cfg.product, key, c.cfg.device).1.Ok?
    ensures var (s', c') := ClientDeactivate(s, c, key, true);
            && c'.cache.None?
            && (Idles(s', c.cfg.device) <==>
                  Idles(s, c.cfg.device) || ValidateLicense(s, c.cfg.product, key).1 == Ok(s.devices[c.cfg.device].license))
  {
    hide Inv, ValidateLicense;
    var d := c.cfg.device;
    RevokeActiveDeactivates(s.leases, d);
  }
}
