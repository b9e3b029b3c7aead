/** The public API with every await as a step boundary, under `deny_new`: requests in
    flight interleave freely with each other, the clock and admin actions, and each
    database statement is atomic on its own. */
module Interleaving {
  import opened Rows
  import opened Wrappers
  import opened LeaseService
  import opened DeviceService
  import opened LicenseService
  import opened LicenseApi
  import opened Runs
  import opened ConcurrencyCap
  import opened DeviceCap

  // Where a request in flight stands: what its next database statement is.
  datatype Request =
    | LookUpDevice(lic: KeyHash, device: string)
    | CountDevices(lic: KeyHash, device: string)
    | CreateDevice(lic: KeyHash, device: string)
    | TouchDevice(lic: KeyHash, device: string)
    | RevokeOld(lic: KeyHash, device: string, lease: TokenId)
    | TouchOld(lic: KeyHash, device: string, lease: TokenId)
    | RevokeOwn(lic: KeyHash, device: string)
    | CheckLimit(lic: KeyHash, device: string)
    | CreateLease(lic: KeyHash, device: string)
    | RemoveRow(lic: KeyHash, device: string)
    | RevokeRemoved(lic: KeyHash, device: string)

  datatype Sys = Sys(db: Db, requests: map<nat, Request>)

  datatype Action =
    // a request whose license was found valid enters; a heartbeat or a deactivation
    // has also read its rows
    | Arrive(id: nat, request: Request)
    // the next statement of a request from a client of that version; `jti` is the
    // fresh token id of a new lease
    | Proceed(id: nat, appVersion: string, jti: TokenId)
    | Environment(event: Event)
    // a late `validate` marks a lease expired that it read as active earlier
    | MarkExpired(lease: TokenId)

  predicate Arrival(s: Db, r: Request) {
    && Known(s, r.lic)
    && match r
       case LookUpDevice(lic, d) => true
       case TouchOld(lic, d, l) =>
         l in s.leases && Unexpired(s, l) && s.leases[l].license == lic && s.leases[l].device == d && d in s.devices
       case RemoveRow(lic, d) => d in s.devices && s.devices[d].status == DeviceActive && s.devices[d].license == lic
       case _ => false
  }

  /** Time, and admin actions that do not turn a device active. */
  predicate Background(e: Event) {
    e.AdvanceClock? || e.ApproveUnbind? || (e.SetDeviceStatus? && e.deviceStatus != DeviceActive)
  }

  predicate Possible(y: Sys, a: Action) {
    match a
    case Arrive(id, r) => id !in y.requests && Arrival(y.db, r)
    case Proceed(id, v, jti) => id in y.requests && Known(y.db, y.requests[id].lic) && jti !in y.db.leases
    case Environment(e) => Background(e)
    case MarkExpired(l) => l in y.db.leases
  }

  /** One statement: the rows after it, and the request's next position, if any. */
  function Statement(s: Db, r: Request, v: string, jti: TokenId): (out: (Db, Option<Request>))
    requires Known(s, r.lic)
    ensures out.0 == s.(devices := out.0.devices, leases := out.0.leases, signed := out.0.signed)
    ensures s.devices.Keys <= out.0.devices.Keys
    ensures out.1.Some? ==> out.1.value.lic == r.lic && out.1.value.device == r.device
  {
    match r
    case LookUpDevice(lic, d) =>
      if d !in s.devices then (s, Some(CountDevices(lic, d)))
      else if s.devices[d].license != lic || s.devices[d].status != DeviceActive then (s, None)
      else (s, Some(TouchDevice(lic, d)))
    case CountDevices(lic, d) =>
      if |ActiveDevices(s, lic)| >= MaxDevices(s, lic) then (s, None) else (s, Some(CreateDevice(lic, d)))
    case CreateDevice(lic, d) =>
      if d in s.devices then (s, None)  // refused by the unique device code
      else (Create(s, lic, d, v), Some(RevokeOwn(lic, d)))
    case TouchDevice(lic, d) =>
      if d in s.devices then (Touch(s, d, v), Some(RevokeOwn(lic, d))) else (s, None)
    case TouchOld(lic, d, l) =>
      if d in s.devices then (Touch(s, d, v), Some(RevokeOld(lic, d, l))) else (s, None)
    case RevokeOld(lic, d, l) =>
      if l in s.leases then (Revoke(s, l), Some(RevokeOwn(lic, d))) else (s, None)
    case RevokeOwn(lic, d) =>
      (s.(leases := RevokeActive(s.leases, d)),
       Some(if MaxConcurrency(s, lic) > 0 then CheckLimit(lic, d) else CreateLease(lic, d)))
    case CheckLimit(lic, d) =>
      if |LiveDevices(s, lic)| >= MaxConcurrency(s, lic) then (s, None) else (s, Some(CreateLease(lic, d)))
    case CreateLease(lic, d) => (Grant(s, lic, d, v, jti).0, None)
    case RemoveRow(lic, d) =>
      if d in s.devices then (s.(devices := MarkRemoved(s.devices, d)), Some(RevokeRemoved(lic, d))) else (s, None)
    case RevokeRemoved(lic, d) => (s.(leases := RevokeActive(s.leases, d)), None)
  }

  function Act(y: Sys, a: Action): Sys
    requires Possible(y, a)
  {
    match a
    case Arrive(id, r) => y.(requests := y.requests[id := r])
    case Proceed(id, v, jti) =>
      var (s', next) := Statement(y.db, y.requests[id], v, jti);
      Sys(s', if next.Some? then y.requests[id := next.value] else y.requests - {id})
    case Environment(e) => y.(db := Step(y.db, e))
    case MarkExpired(l) => y.(db := y.db.(leases := y.db.leases[l := y.db.leases[l].(status := LeaseExpiredStatus)]))
  }

  // ---------------------------------------------------------------------------
  // A request that nothing interrupts

  /** How many statements lie ahead at most. */
  function Ahead(r: Request): nat {
    match r
    case LookUpDevice(_, _) => 7
    case CountDevices(_, _) => 6
    case TouchOld(_, _, _) => 6
    case CreateDevice(_, _) => 5
    case TouchDevice(_, _) => 5
    case RevokeOld(_, _, _) => 5
    case RevokeOwn(_, _) => 4
    case CheckLimit(_, _) => 3
    case CreateLease(_, _) => 2
    case RemoveRow(_, _) => 2
    case RevokeRemoved(_, _) => 1
  }

  function Complete(s: Db, r: Request, v: string, jti: TokenId): (out: Db)
    requires Known(s, r.lic)
    ensures out == s.(devices := out.devices, leases := out.leases, signed := out.signed)
    decreases Ahead(r)
  {
    var (s', next) := Statement(s, r, v, jti);
    if next.None? then s' else Complete(s', next.value, v, jti)
  }

  lemma CompleteIssue(s: Db, lic: KeyHash, d: string, v: string, c: IssueChoice)
    requires Known(s, lic)
    ensures Complete(s, RevokeOwn(lic, d), v, c.jti) == Issue(s, lic, d, v, MaxConcurrency(s, lic), DenyNew, c).0
  {
    hide LiveDevices, RevokeActive, MaxDevices;
    var s1 := s.(leases := RevokeActive(s.leases, d));
    assert MaxConcurrency(s1, lic) == MaxConcurrency(s, lic);
    assert Complete(s1, CreateLease(lic, d), v, c.jti) == Grant(s1, lic, d, v, c.jti).0;
    if MaxConcurrency(s, lic) > 0 {
      assert Complete(s, RevokeOwn(lic, d), v, c.jti) == Complete(s1, CheckLimit(lic, d), v, c.jti);
    }
  }

  lemma SameMaxConcurrency(s: Db, s': Db, lic: KeyHash)
    requires Known(s, lic) && s'.products == s.products && s'.plans == s.plans && s'.licenses == s.licenses
    ensures Known(s', lic) && MaxConcurrency(s', lic) == MaxConcurrency(s, lic)
  { }

  lemma BindingAlone(s: Db, lic: KeyHash, d: string, v: string, kicked: string, c: IssueChoice)
    requires Known(s, lic)
    ensures var (s1, bound) := GetOrCreate(s, lic, MaxDevices(s, lic), d, v, DenyNew, kicked);
            Complete(s, LookUpDevice(lic, d), v, c.jti) ==
              if bound.Err? then s1 else Issue(s1, lic, d, v, MaxConcurrency(s, lic), DenyNew, c).0
  {
    hide Issue, LiveDevices, ActiveDevices, RevokeActive, MaxDevices, MaxConcurrency;
    if d in s.devices {
      var s1 := Touch(s, d, v);
      SameMaxConcurrency(s, s1, lic);
      CompleteIssue(s1, lic, d, v, c);
      assert s.devices[d].license == lic && s.devices[d].status == DeviceActive ==>
               Complete(s, TouchDevice(lic, d), v, c.jti) == Complete(s1, RevokeOwn(lic, d), v, c.jti);
    } else {
      var s1 := Create(s, lic, d, v);
      SameMaxConcurrency(s, s1, lic);
      CompleteIssue(s1, lic, d, v, c);
      assert Complete(s, CreateDevice(lic, d), v, c.jti) == Complete(s1, RevokeOwn(lic, d), v, c.jti);
      assert Complete(s, LookUpDevice(lic, d), v, c.jti) == Complete(s, CountDevices(lic, d), v, c.jti);
    }
  }

  lemma RotatingAlone(s: Db, lic: KeyHash, d: string, l: TokenId, v: string, c: IssueChoice)
    requires Known(s, lic) && d in s.devices && l in s.leases
    ensures Complete(s, TouchOld(lic, d, l), v, c.jti) ==
              Issue(Revoke(Touch(s, d, v), l), lic, d, v, MaxConcurrency(s, lic), DenyNew, c).0
  {
    hide Issue, LiveDevices, ActiveDevices, RevokeActive, MaxDevices, MaxConcurrency;
    var s0 := Touch(s, d, v);
    var s1 := Revoke(s0, l);
    SameMaxConcurrency(s, s0, lic);
    SameMaxConcurrency(s, s1, lic);
    CompleteIssue(s1, lic, d, v, c);
    assert Complete(s0, RevokeOld(lic, d, l), v, c.jti) == Complete(s1, RevokeOwn(lic, d), v, c.jti);
  }

  /** The statements of an activation that nothing interrupts, between the validation
      of the license and the stamp of its first activation, are the atomic step. */
  lemma ActivationAlone(s: Db, product: string, key: string, d: string, v: string, c: Choices)
    requires var (s1, r1) := ValidateLicense(s, product, key); r1.Ok? ==> PolicyOf(s1, r1.value) == DenyNew
    ensures var (s1, r1) := ValidateLicense(s, product, key);
            var (s', r) := Activate(s, product, key, d, v, c);
            if r1.Err? then s' == s1
            else
              var s2 := Complete(s1, LookUpDevice(r1.value, d), v, c.issue.jti);
              s' == if r.Ok? then StampActivation(s2, r1.value) else s2
  {
    hide ValidateLicense, GetOrCreate, Issue, FeatureFlags, Complete, MaxDevices, MaxConcurrency;
    var (s1, r1) := ValidateLicense(s, product, key);
    if r1.Ok? {
      BindingAlone(s1, r1.value, d, v, c.kicked, c.issue);
      SameMaxConcurrency(s1, Bind(s1, r1.value, d, v, c.kicked).0, r1.value);
    }
  }

  /** The same for a heartbeat after its checks. */
  lemma HeartbeatAlone(s: Db, t: Token, product: string, d: string, v: string, c: IssueChoice)
    requires HeartbeatGate(s, t, product, d, v).1.Ok?
    requires PolicyOf(s, HeartbeatGate(s, t, product, d, v).1.value) == DenyNew
    ensures var start := TouchOld(HeartbeatGate(s, t, product, d, v).1.value, d, t.jti);
            Arrival(s, start) && Heartbeat(s, t, product, d, v, c).0 == Complete(s, start, v, c.jti)
  {
    hide Issue, FeatureFlags, Complete, MaxConcurrency, EnsureValid, EnsureAllowed;
    var lic := HeartbeatGate(s, t, product, d, v).1.value;
    RotatingAlone(s, lic, d, t.jti, v, c);
    SameMaxConcurrency(s, Rotated(s, t, d, v), lic);
  }

  /** And for a deactivation: either nothing follows the checks, or these statements. */
  lemma DeactivationAlone(s: Db, product: string, key: string, d: string, v: string, jti: TokenId)
    ensures var (s1, r1) := ValidateLicense(s, product, key);
            Deactivate(s, product, key, d).0 ==
              if r1.Ok? && Arrival(s1, RemoveRow(r1.value, d)) then Complete(s1, RemoveRow(r1.value, d), v, jti) else s1
  {
    hide ValidateLicense, RevokeActive;
  }

  function InFlight(y: Sys, lic: KeyHash): set<nat> {
    set id | id in y.requests && y.requests[id].lic == lic
  }

  /** Every action is possible, and at no moment are more than `k` requests of the
      license in flight. */
  ghost predicate Possibles(y: Sys, actions: seq<Action>, lic: KeyHash, k: nat)
    decreases |actions|
  {
    |InFlight(y, lic)| <= k && (actions == [] || (Possible(y, actions[0]) && Possibles(Act(y, actions[0]), actions[1..], lic, k)))
  }

  ghost function After(y: Sys, actions: seq<Action>, lic: KeyHash, k: nat): Sys
    requires Possibles(y, actions, lic, k)
    decreases |actions|
  {
    if actions == [] then y else After(Act(y, actions[0]), actions[1..], lic, k)
  }

  // ---------------------------------------------------------------------------
  // Past the check, before the write

  function Creating(y: Sys, lic: KeyHash): set<nat> {
    set id | id in y.requests && y.requests[id].lic == lic && y.requests[id].CreateDevice?
  }

  function Granting(y: Sys, lic: KeyHash): set<nat> {
    set id | id in y.requests && y.requests[id].lic == lic && y.requests[id].CreateLease?
  }

  ghost predicate CapInv(y: Sys, lic: KeyHash, k: nat) {
    && Known(y.db, lic)
    && |ActiveDevices(y.db, lic)| + |Creating(y, lic)| <= MaxDevices(y.db, lic) + k - 1
    && (MaxConcurrency(y.db, lic) >= 1 ==>
          |LiveDevices(y.db, lic)| + |Granting(y, lic)| <= MaxConcurrency(y.db, lic) + k - 1)
  }

  lemma BackgroundFrame(s: Db, e: Event)
    requires Background(e)
    ensures var s' := Step(s, e);
            && s' == s.(now := s'.now, devices := s'.devices) && s'.now >= s.now
            && s'.devices.Keys == s.devices.Keys
            && forall d | d in s.devices ::
                 s'.devices[d].license == s.devices[d].license && (s'.devices[d].status == DeviceActive ==> s.devices[d].status == DeviceActive)
  {
    hide Activate, Heartbeat, Verify, Deactivate;
  }

  /** Only devices, leases, signatures and the clock move. */
  lemma ActKeepsLimits(y: Sys, a: Action, lic: KeyHash)
    requires Possible(y, a) && Known(y.db, lic)
    ensures var y' := Act(y, a);
            Known(y'.db, lic) && MaxDevices(y'.db, lic) == MaxDevices(y.db, lic) && MaxConcurrency(y'.db, lic) == MaxConcurrency(y.db, lic)
  {
    hide Statement, Step;
    if a.Environment? { BackgroundFrame(y.db, a.event); }
  }

  /** Leases point at devices; rows are never deleted. */
  ghost predicate RowsInv(s: Db) {
    forall l | l in s.leases :: s.leases[l].device in s.devices
  }

  lemma StatementDevices(s: Db, r: Request, v: string, jti: TokenId, lic: KeyHash)
    requires Known(s, r.lic)
    ensures var (s', next) := Statement(s, r, v, jti);
            && |ActiveDevices(s', lic)| <= |ActiveDevices(s, lic)| + (if r.lic == lic && r.CreateDevice? then 1 else 0)
            && (next.Some? && next.value.CreateDevice? ==> !r.CreateDevice? && s' == s && |ActiveDevices(s, r.lic)| < MaxDevices(s, r.lic))
  {
    StatementCounts(s, r, v, jti);
    StatementActive(s, r, v, jti, lic);
    hide Statement;
  }

  lemma StatementCounts(s: Db, r: Request, v: string, jti: TokenId)
    requires Known(s, r.lic)
    ensures var (s', next) := Statement(s, r, v, jti);
            next.Some? && next.value.CreateDevice? ==> !r.CreateDevice? && s' == s && |ActiveDevices(s, r.lic)| < MaxDevices(s, r.lic)
  {
    hide LiveDevices, RevokeActive, ActiveDevices, MaxDevices, MaxConcurrency;
  }

  /** Devices are not added and not turned active; leases only lose their status. */
  ghost predicate OnlyShrinks(s: Db, s': Db) {
    && s'.now == s.now
    && (forall d | d in s'.devices && s'.devices[d].status == DeviceActive ::
          d in s.devices && s.devices[d].status == DeviceActive && s.devices[d].license == s'.devices[d].license)
    && s'.leases.Keys == s.leases.Keys
    && (forall l | l in s.leases ::
          && s'.leases[l].license == s.leases[l].license && s'.leases[l].device == s.leases[l].device
          && s'.leases[l].expireAt == s.leases[l].expireAt
          && (s'.leases[l].status == LeaseActive ==> s.leases[l].status == LeaseActive))
  }

  lemma Unchanged(s: Db)
    ensures OnlyShrinks(s, s)
  { }

  lemma DevicesShrink(s: Db, d: string, v: string)
    requires d in s.devices
    ensures OnlyShrinks(s, Touch(s, d, v)) && OnlyShrinks(s, s.(devices := MarkRemoved(s.devices, d)))
  { }

  lemma LeasesShrink(s: Db, d: string)
    ensures OnlyShrinks(s, s.(leases := RevokeActive(s.leases, d)))
  { }

  lemma LeaseShrinks(s: Db, l: TokenId)
    requires l in s.leases
    ensures OnlyShrinks(s, Revoke(s, l))
  { }

  lemma StatementShrinks(s: Db, r: Request, v: string, jti: TokenId)
    requires Known(s, r.lic) && !r.CreateDevice? && !r.CreateLease?
    ensures OnlyShrinks(s, Statement(s, r, v, jti).0)
  {
    hide OnlyShrinks, LiveDevices, ActiveDevices, MaxDevices, MaxConcurrency, RevokeActive, Touch, Revoke, MarkRemoved;
    Unchanged(s);
    if r.device in s.devices { DevicesShrink(s, r.device, v); }
    LeasesShrink(s, r.device);
    if r.RevokeOld? && r.lease in s.leases { LeaseShrinks(s, r.lease); }
  }

  lemma StatementActive(s: Db, r: Request, v: string, jti: TokenId, lic: KeyHash)
    requires Known(s, r.lic)
    ensures |ActiveDevices(Statement(s, r, v, jti).0, lic)| <= |ActiveDevices(s, lic)| + (if r.lic == lic && r.CreateDevice? then 1 else 0)
  {
    hide LiveDevices, RevokeActive, ActiveDevices, MaxDevices, MaxConcurrency;
    var s' := Statement(s, r, v, jti).0;
    if r.CreateDevice? {
      if r.device !in s.devices { CreateActive(s, r.lic, r.device, v, lic); }
    } else if r.CreateLease? {
      FrameActive(s, s', lic);
    } else {
      hide Statement;
      StatementShrinks(s, r, v, jti);
      ShrinkActive(s, s', lic);
    }
  }

  lemma StatementLive(s: Db, r: Request, v: string, jti: TokenId, lic: KeyHash)
    requires Known(s, r.lic) && jti !in s.leases && RowsInv(s)
    ensures |LiveDevices(Statement(s, r, v, jti).0, lic)| <= |LiveDevices(s, lic)| + (if r.lic == lic && r.CreateLease? then 1 else 0)
  {
    hide ActiveDevices, LiveDevices, RevokeActive, RowsInv, MaxDevices, MaxConcurrency, Grant;
    var s' := Statement(s, r, v, jti).0;
    if r.CreateLease? {
      GrantedLive(s, r.lic, r.device, v, jti, lic);
    } else if r.CreateDevice? {
      if r.device !in s.devices {
        CreateNotLive(s, r.lic, r.device, v, lic);
        SubsetCard(LiveDevices(s', lic), LiveDevices(s, lic));
      }
    } else {
      hide Statement;
      StatementShrinks(s, r, v, jti);
      FrameLive(s, s', lic);
      SubsetCard(LiveDevices(s', lic), LiveDevices(s, lic));
    }
  }

  /** A lease is about to be created only after the limit was checked in this state. */
  lemma StatementChecks(s: Db, r: Request, v: string, jti: TokenId)
    requires Known(s, r.lic) && MaxConcurrency(s, r.lic) >= 1
    ensures var (s', next) := Statement(s, r, v, jti);
            next.Some? && next.value.CreateLease? ==>
              !r.CreateLease? && s' == s && |LiveDevices(s, r.lic)| < MaxConcurrency(s, r.lic)
  {
    hide ActiveDevices, LiveDevices, RevokeActive, MaxDevices, MaxConcurrency;
  }

  lemma CreateNotLive(s: Db, l: KeyHash, d: string, v: string, lic: KeyHash)
    requires RowsInv(s) && d !in s.devices
    ensures LiveDevices(Create(s, l, d, v), lic) <= LiveDevices(s, lic)
  {
    var s' := Create(s, l, d, v);
    forall e | e in LiveDevices(s', lic) ensures e in LiveDevices(s, lic) {
      var m :| m in s'.leases && s'.leases[m].license == lic && s'.leases[m].device == e && Unexpired(s', m);
      assert m in s.leases && Unexpired(s, m) && s.leases[m].device in s.devices;
    }
  }

  predicate PastWrite(r: Request) {
    r.RevokeOld? || r.RevokeOwn? || r.CheckLimit? || r.CreateLease?
  }

  /** A request past its first device write has a device row. */
  ghost predicate SysInv(y: Sys) {
    && RowsInv(y.db)
    && forall id | id in y.requests && PastWrite(y.requests[id]) :: y.requests[id].device in y.db.devices
  }

  lemma StatementRows(s: Db, r: Request, v: string, jti: TokenId)
    requires Known(s, r.lic) && RowsInv(s) && (PastWrite(r) ==> r.device in s.devices)
    ensures RowsInv(Statement(s, r, v, jti).0)
    ensures var (s', next) := Statement(s, r, v, jti);
            next.Some? && PastWrite(next.value) ==> r.device in s'.devices
  {
    hide ActiveDevices, LiveDevices, MaxDevices, MaxConcurrency;
  }

  lemma ActKeepsSysInv(y: Sys, a: Action)
    requires Possible(y, a) && SysInv(y)
    ensures SysInv(Act(y, a))
  {
    hide ActiveDevices, LiveDevices, MaxDevices, MaxConcurrency, Step;
    match a
    case Environment(e) => BackgroundFrame(y.db, e);
    case Proceed(id, v, jti) =>
      StatementRows(y.db, y.requests[id], v, jti);
    case _ =>
  }

  lemma ProceedCounts(y: Sys, id: nat, v: string, jti: TokenId, lic: KeyHash)
    requires Possible(y, Proceed(id, v, jti))
    ensures var y' := Act(y, Proceed(id, v, jti)); var r := y.requests[id]; var next := Statement(y.db, r, v, jti).1;
            && (next.Some? ==> next.value.lic == r.lic)
            && Creating(y', lic) == Creating(y, lic) - {id} + (if next.Some? && next.value.CreateDevice? && r.lic == lic then {id} else {})
            && Granting(y', lic) == Granting(y, lic) - {id} + (if next.Some? && next.value.CreateLease? && r.lic == lic then {id} else {})
            && Creating(y', lic) <= InFlight(y', lic) && Granting(y', lic) <= InFlight(y', lic)
            && (r.lic == lic && r.CreateDevice? <==> id in Creating(y, lic))
            && (r.lic == lic && r.CreateLease? <==> id in Granting(y, lic))
  {
    hide ActiveDevices, LiveDevices, MaxDevices, MaxConcurrency, RevokeActive;
  }

  lemma ProceedKeepsDevices(y: Sys, id: nat, v: string, jti: TokenId, lic: KeyHash, k: nat)
    requires Possible(y, Proceed(id, v, jti)) && CapInv(y, lic, k) && k >= 1
    requires |InFlight(Act(y, Proceed(id, v, jti)), lic)| <= k
    ensures var y' := Act(y, Proceed(id, v, jti)); |ActiveDevices(y'.db, lic)| + |Creating(y', lic)| <= MaxDevices(y.db, lic) + k - 1
  {
    hide ActiveDevices, LiveDevices, MaxDevices, MaxConcurrency, Known, Statement, Creating, Granting, InFlight;
    var y' := Act(y, Proceed(id, v, jti));
    ProceedCounts(y, id, v, jti, lic);
    StatementDevices(y.db, y.requests[id], v, jti, lic);
    SubsetCard(Creating(y', lic), InFlight(y', lic));
  }

  lemma ProceedKeepsLive(y: Sys, id: nat, v: string, jti: TokenId, lic: KeyHash, k: nat)
    requires Possible(y, Proceed(id, v, jti)) && SysInv(y) && CapInv(y, lic, k) && k >= 1 && MaxConcurrency(y.db, lic) >= 1
    requires |InFlight(Act(y, Proceed(id, v, jti)), lic)| <= k
    ensures var y' := Act(y, Proceed(id, v, jti)); |LiveDevices(y'.db, lic)| + |Granting(y', lic)| <= MaxConcurrency(y.db, lic) + k - 1
  {
    hide ActiveDevices, LiveDevices, MaxDevices, MaxConcurrency, Known, Statement, Creating, Granting, InFlight;
    var y' := Act(y, Proceed(id, v, jti));
    ProceedCounts(y, id, v, jti, lic);
    StatementLive(y.db, y.requests[id], v, jti, lic);
    if MaxConcurrency(y.db, y.requests[id].lic) >= 1 { StatementChecks(y.db, y.requests[id], v, jti); }
    SubsetCard(Granting(y', lic), InFlight(y', lic));
  }

  lemma ProceedKeepsCap(y: Sys, id: nat, v: string, jti: TokenId, lic: KeyHash, k: nat)
    requires Possible(y, Proceed(id, v, jti)) && SysInv(y) && CapInv(y, lic, k) && k >= 1
    requires |InFlight(Act(y, Proceed(id, v, jti)), lic)| <= k
    ensures CapInv(Act(y, Proceed(id, v, jti)), lic, k)
  {
    hide ActiveDevices, LiveDevices, MaxDevices, MaxConcurrency, Known, Act, Creating, Granting, InFlight, SysInv;
    ActKeepsLimits(y, Proceed(id, v, jti), lic);
    ProceedKeepsDevices(y, id, v, jti, lic, k);
    if MaxConcurrency(y.db, lic) >= 1 { ProceedKeepsLive(y, id, v, jti, lic, k); }
  }

  lemma OtherKeepsCap(y: Sys, a: Action, lic: KeyHash, k: nat)
    requires Possible(y, a) && !a.Proceed? && CapInv(y, lic, k)
    ensures CapInv(Act(y, a), lic, k)
  {
    hide ActiveDevices, LiveDevices, MaxDevices, MaxConcurrency, Known;
    var y' := Act(y, a);
    ActKeepsLimits(y, a, lic);
    assert Creating(y', lic) == Creating(y, lic);
    assert Granting(y', lic) == Granting(y, lic);
    BackgroundShrinks(y.db, a, y'.db, lic);
  }

  lemma BackgroundShrinks(s: Db, a: Action, s': Db, lic: KeyHash)
    requires match a
             case Arrive(_, _) => s' == s
             case Environment(e) => Background(e) && s' == Step(s, e)
             case MarkExpired(l) => l in s.leases && s' == s.(leases := s.leases[l := s.leases[l].(status := LeaseExpiredStatus)])
             case Proceed(_, _, _) => false
    ensures |ActiveDevices(s', lic)| <= |ActiveDevices(s, lic)|
    ensures |LiveDevices(s', lic)| <= |LiveDevices(s, lic)|
  {
    hide LiveDevices, ActiveDevices, Step;
    if a.Environment? { BackgroundFrame(s, a.event); }
    ShrinkActive(s, s', lic);
    FrameLive(s, s', lic);
    SubsetCard(LiveDevices(s', lic), LiveDevices(s, lic));
  }

  /** With at most `k` requests of a license in flight at any moment, its active
      devices never exceed `maxDevices + k - 1` and its devices with live leases never
      exceed `maxConcurrency + k - 1`, in any interleaving. */
  lemma {:induction false} OvershootBounded(y: Sys, actions: seq<Action>, lic: KeyHash, k: nat)
    requires k >= 1 && SysInv(y) && CapInv(y, lic, k) && Possibles(y, actions, lic, k)
    ensures var y' := After(y, actions, lic, k);
            && CapInv(y', lic, k)
            && |ActiveDevices(y'.db, lic)| <= MaxDevices(y.db, lic) + k - 1
            && (MaxConcurrency(y.db, lic) >= 1 ==> |LiveDevices(y'.db, lic)| <= MaxConcurrency(y.db, lic) + k - 1)
    decreases |actions|
  {
    hide SysInv, ActiveDevices, LiveDevices, InFlight, Act, Possible, Known, MaxDevices, MaxConcurrency, Creating, Granting;
    if actions != [] {
      var a := actions[0];
      ActKeepsLimits(y, a, lic);
      ActKeepsSysInv(y, a);
      FirstKeepsCap(y, a, lic, k);
      OvershootBounded(Act(y, a), actions[1..], lic, k);
    }
  }

  lemma FirstKeepsCap(y: Sys, a: Action, lic: KeyHash, k: nat)
    requires k >= 1 && SysInv(y) && CapInv(y, lic, k) && Possible(y, a) && |InFlight(Act(y, a), lic)| <= k
    ensures CapInv(Act(y, a), lic, k)
  {
    hide CapInv, SysInv, Act, InFlight;
    match a
    case Proceed(id, v, jti) => ProceedKeepsCap(y, id, v, jti, lic, k);
    case _ => OtherKeepsCap(y, a, lic, k);
  }

  /** Starting idle and within both limits. With `k == 1` the caps are exact. */
  lemma OvershootFromIdle(s: Db, actions: seq<Action>, lic: KeyHash, k: nat)
    requires k >= 1 && Inv(s) && Known(s, lic)
    requires |ActiveDevices(s, lic)| <= MaxDevices(s, lic)
    requires |LiveDevices(s, lic)| <= MaxConcurrency(s, lic)
    requires Possibles(Sys(s, map[]), actions, lic, k)
    ensures var s' := After(Sys(s, map[]), actions, lic, k).db;
            && |ActiveDevices(s', lic)| <= MaxDevices(s, lic) + k - 1
            && (MaxConcurrency(s, lic) >= 1 ==> |LiveDevices(s', lic)| <= MaxConcurrency(s, lic) + k - 1)
  {
    var y := Sys(s, map[]);
    assert SysInv(y);
    hide Inv, SysInv, ActiveDevices, LiveDevices, MaxDevices, MaxConcurrency, Known, Possibles, After;
    assert Creating(y, lic) == {} && Granting(y, lic) == {};
    OvershootBounded(y, actions, lic, k);
  }

  // ---------------------------------------------------------------------------
  // The bound is reached

  lemma Cons(y: Sys, a: Action, rest: seq<Action>, lic: KeyHash, k: nat)
    requires |InFlight(y, lic)| <= k && Possible(y, a) && Possibles(Act(y, a), rest, lic, k)
    ensures Possibles(y, [a] + rest, lic, k) && After(y, [a] + rest, lic, k) == After(Act(y, a), rest, lic, k)
  {
    hide InFlight, Act, Possible;
    assert ([a] + rest)[1..] == rest;
  }

  lemma {:induction false} BoundedIds(ids: set<nat>, n: nat)
    requires forall id | id in ids :: id < n
    ensures |ids| <= n
  {
    if n > 0 {
      BoundedIds(ids - {n - 1}, n - 1);
    }
  }

  lemma FewInFlight(y: Sys, lic: KeyHash, n: nat)
    requires forall id | id in y.requests :: id < n
    ensures |InFlight(y, lic)| <= n
  {
    BoundedIds(InFlight(y, lic), n);
  }

  ghost predicate FreshCodes(s: Db, codes: seq<string>, from: nat) {
    && (forall p | from <= p < |codes| :: codes[p] !in s.devices)
    && (forall p, q | 0 <= p < q < |codes| :: codes[p] != codes[q])
  }

  /** The first `i` requests have written their device row, the others are about to. */
  ghost function HalfWritten(lic: KeyHash, codes: seq<string>, i: nat): map<nat, Request> {
    map p: nat | p < |codes| :: if p < i then RevokeOwn(lic, codes[p]) else CreateDevice(lic, codes[p])
  }

  lemma {:induction false} WriteAll(y: Sys, lic: KeyHash, codes: seq<string>, i: nat) returns (actions: seq<Action>)
    requires Known(y.db, lic) && i <= |codes| && FreshCodes(y.db, codes, i) && y.requests == HalfWritten(lic, codes, i)
    ensures Possibles(y, actions, lic, |codes|)
    ensures |ActiveDevices(After(y, actions, lic, |codes|).db, lic)| == |ActiveDevices(y.db, lic)| + |codes| - i
    decreases |codes| - i
  {
    hide ActiveDevices, MaxDevices, MaxConcurrency, LiveDevices, InFlight, Grant, Revoke, RevokeActive;
    FewInFlight(y, lic, |codes|);
    if i == |codes| {
      actions := [];
    } else {
      var id := FreshTokenId(y.db.leases.Keys);
      assert id !in y.db.leases;
      var a := Proceed(i, "", id);
      assert y.requests[i] == CreateDevice(lic, codes[i]);
      var y1 := Act(y, a);
      assert y1 == Sys(Create(y.db, lic, codes[i], ""), HalfWritten(lic, codes, i + 1));
      CreateActive(y.db, lic, codes[i], "", lic);
      assert codes[i] !in ActiveDevices(y.db, lic) by { NotActive(y.db, lic, codes[i]); }
      var rest := WriteAll(y1, lic, codes, i + 1);
      Cons(y, a, rest, lic, |codes|);
      actions := [a] + rest;
    }
  }

  lemma NotActive(s: Db, lic: KeyHash, d: string)
    requires d !in s.devices
    ensures d !in ActiveDevices(s, lic)
  { }

  /** `i` requests have counted the devices and found room. */
  ghost function Counted(lic: KeyHash, codes: seq<string>, i: nat): map<nat, Request>
    requires i <= |codes|
  {
    map p: nat | p < i :: CreateDevice(lic, codes[p])
  }

  /** One more activation arrives, finds no row and counts. */
  lemma EnterOne(s: Db, lic: KeyHash, codes: seq<string>, i: nat, id: TokenId, rest: seq<Action>) returns (actions: seq<Action>)
    requires Known(s, lic) && i < |codes| && codes[i] !in s.devices && id !in s.leases
    requires |ActiveDevices(s, lic)| < MaxDevices(s, lic)
    requires Possibles(Sys(s, Counted(lic, codes, i + 1)), rest, lic, |codes|)
    ensures var y := Sys(s, Counted(lic, codes, i));
            && Possibles(y, actions, lic, |codes|)
            && After(y, actions, lic, |codes|) == After(Sys(s, Counted(lic, codes, i + 1)), rest, lic, |codes|)
  {
    hide ActiveDevices, MaxDevices, MaxConcurrency, LiveDevices, RevokeActive, Possibles, After, InFlight, Grant, Revoke;
    var arrive, proceed := Arrive(i, LookUpDevice(lic, codes[i])), Proceed(i, "", id);
    var y := Sys(s, Counted(lic, codes, i));
    var y1, y2 := Sys(s, y.requests[i := LookUpDevice(lic, codes[i])]), Sys(s, y.requests[i := CountDevices(lic, codes[i])]);
    assert Act(y, arrive) == y1 && Act(y1, proceed) == y2;
    assert y2.requests[i := CreateDevice(lic, codes[i])] == Counted(lic, codes, i + 1);
    FewInFlight(y, lic, |codes|);
    FewInFlight(y1, lic, |codes|);
    FewInFlight(y2, lic, |codes|);
    Cons(y2, proceed, rest, lic, |codes|);
    Cons(y1, proceed, [proceed] + rest, lic, |codes|);
    Cons(y, arrive, [proceed] + ([proceed] + rest), lic, |codes|);
    actions := [arrive] + ([proceed] + ([proceed] + rest));
  }

  lemma {:induction false} EnterAll(s: Db, lic: KeyHash, codes: seq<string>, i: nat) returns (actions: seq<Action>)
    requires Known(s, lic) && i <= |codes| && FreshCodes(s, codes, 0)
    requires |ActiveDevices(s, lic)| < MaxDevices(s, lic)
    ensures var y := Sys(s, Counted(lic, codes, i));
            && Possibles(y, actions, lic, |codes|)
            && |ActiveDevices(After(y, actions, lic, |codes|).db, lic)| == |ActiveDevices(s, lic)| + |codes|
    decreases |codes| - i
  {
    hide ActiveDevices, MaxDevices, Possibles, After;
    if i == |codes| {
      assert Counted(lic, codes, i) == HalfWritten(lic, codes, 0);
      actions := WriteAll(Sys(s, HalfWritten(lic, codes, 0)), lic, codes, 0);
    } else {
      var id := FreshTokenId(s.leases.Keys);
      assert id !in s.leases;
      var rest := EnterAll(s, lic, codes, i + 1);
      actions := EnterOne(s, lic, codes, i, id, rest);
    }
  }

  /** The device bound cannot be improved: from one free slot, any number `k` of
      simultaneous activations of new devices can all get in. */
  lemma OvershootReached(s: Db, lic: KeyHash, codes: seq<string>) returns (actions: seq<Action>)
    requires Known(s, lic) && codes != [] && FreshCodes(s, codes, 0)
    requires |ActiveDevices(s, lic)| == MaxDevices(s, lic) - 1
    ensures Possibles(Sys(s, map[]), actions, lic, |codes|)
    ensures |ActiveDevices(After(Sys(s, map[]), actions, lic, |codes|).db, lic)| == MaxDevices(s, lic) + |codes| - 1
  {
    hide ActiveDevices, Possibles, After;
    actions := EnterAll(s, lic, codes, 0);
    assert Counted(lic, codes, 0) == map[];
  }

  // ---------------------------------------------------------------------------
  // The bound on live devices is reached as well

  /** The devices are bound, active and without a live lease, and one slot is free. */
  ghost predicate OneSlotFor(s: Db, lic: KeyHash, codes: seq<string>) {
    && Known(s, lic) && s.ttlMs > 0
    && |LiveDevices(s, lic)| == MaxConcurrency(s, lic) - 1
    && (forall p | 0 <= p < |codes| ::
          codes[p] in s.devices && s.devices[codes[p]].license == lic && s.devices[codes[p]].status == DeviceActive && codes[p] !in LiveDevices(s, lic))
    && (forall p, q | 0 <= p < q < |codes| :: codes[p] != codes[q])
  }

  /** `i` requests have checked the limit and found room. */
  ghost function Checked(lic: KeyHash, codes: seq<string>, i: nat): map<nat, Request>
    requires i <= |codes|
  {
    map p: nat | p < i :: CreateLease(lic, codes[p])
  }

  /** The requests from `i` on are about to create their lease. */
  ghost function Unwritten(lic: KeyHash, codes: seq<string>, i: nat): map<nat, Request> {
    map p: nat | i <= p < |codes| :: CreateLease(lic, codes[p])
  }

  lemma GrantMakesLive(s: Db, lic: KeyHash, d: string, v: string, jti: TokenId)
    requires s.ttlMs > 0 && jti !in s.leases && d in s.devices && s.devices[d].status == DeviceActive
    ensures LiveDevices(Grant(s, lic, d, v, jti).0, lic) == LiveDevices(s, lic) + {d}
  {
    var s' := Grant(s, lic, d, v, jti).0;
    GrantLive(s, lic, d, v, jti, lic);
    assert Unexpired(s', jti);
    forall e | e in LiveDevices(s, lic) ensures e in LiveDevices(s', lic) {
      var m :| m in s.leases && s.leases[m].license == lic && s.leases[m].device == e && Unexpired(s, m);
      assert m in s'.leases && Unexpired(s', m);
    }
  }

  lemma {:induction false} GrantAll(y: Sys, lic: KeyHash, codes: seq<string>, i: nat) returns (actions: seq<Action>)
    requires Known(y.db, lic) && y.db.ttlMs > 0 && i <= |codes| && y.requests == Unwritten(lic, codes, i)
    requires forall p | i <= p < |codes| ::
               codes[p] in y.db.devices && y.db.devices[codes[p]].status == DeviceActive && codes[p] !in LiveDevices(y.db, lic)
    requires forall p, q | 0 <= p < q < |codes| :: codes[p] != codes[q]
    ensures Possibles(y, actions, lic, |codes|)
    ensures |LiveDevices(After(y, actions, lic, |codes|).db, lic)| == |LiveDevices(y.db, lic)| + |codes| - i
    decreases |codes| - i
  {
    hide ActiveDevices, MaxDevices, MaxConcurrency, LiveDevices, InFlight, Revoke, RevokeActive;
    FewInFlight(y, lic, |codes|);
    if i == |codes| {
      actions := [];
    } else {
      var id := FreshTokenId(y.db.leases.Keys);
      assert id !in y.db.leases;
      var a := Proceed(i, "", id);
      assert y.requests[i] == CreateLease(lic, codes[i]);
      var y1 := Act(y, a);
      assert y1 == Sys(Grant(y.db, lic, codes[i], "", id).0, Unwritten(lic, codes, i + 1));
      GrantMakesLive(y.db, lic, codes[i], "", id);
      var rest := GrantAll(y1, lic, codes, i + 1);
      Cons(y, a, rest, lic, |codes|);
      actions := [a] + rest;
    }
  }

  /** The rows once the device was touched and its stale leases were revoked. */
  ghost function Readied(s: Db, d: string): Db
    requires d in s.devices
  {
    Touch(s, d, "").(leases := RevokeActive(s.leases, d))
  }

  lemma ReadiedLive(s: Db, lic: KeyHash, d: string)
    requires d in s.devices && d !in LiveDevices(s, lic)
    ensures LiveDevices(Touch(s, d, ""), lic) == LiveDevices(s, lic)
    ensures LiveDevices(Readied(s, d), lic) == LiveDevices(s, lic)
  {
    hide LiveDevices, RevokeActive;
    var s1 := Touch(s, d, "");
    FrameLive(s, s1, lic);
    FrameLive(s1, s, lic);
    RevokeLive(s1, d, lic);
  }

  lemma ReadiedKeepsSlot(s: Db, lic: KeyHash, codes: seq<string>, i: nat)
    requires OneSlotFor(s, lic, codes) && i < |codes|
    ensures OneSlotFor(Readied(s, codes[i]), lic, codes)
  {
    hide LiveDevices, RevokeActive;
    ReadiedLive(s, lic, codes[i]);
  }

  /** The statements from the lookup to the limit check of a bound device. */
  lemma CheckStatements(s: Db, lic: KeyHash, d: string, id: TokenId)
    requires Known(s, lic) && d in s.devices && s.devices[d].license == lic && s.devices[d].status == DeviceActive
    requires 0 < MaxConcurrency(s, lic) && |LiveDevices(Readied(s, d), lic)| < MaxConcurrency(s, lic)
    ensures Statement(s, LookUpDevice(lic, d), "", id) == (s, Some(TouchDevice(lic, d)))
    ensures Statement(s, TouchDevice(lic, d), "", id) == (Touch(s, d, ""), Some(RevokeOwn(lic, d)))
    ensures Known(Touch(s, d, ""), lic) && Known(Readied(s, d), lic)
    ensures Statement(Touch(s, d, ""), RevokeOwn(lic, d), "", id) == (Readied(s, d), Some(CheckLimit(lic, d)))
    ensures Statement(Readied(s, d), CheckLimit(lic, d), "", id) == (Readied(s, d), Some(CreateLease(lic, d)))
    ensures Readied(s, d).leases.Keys == s.leases.Keys
  {
    hide MaxDevices, LiveDevices, ActiveDevices;
  }

  /** A request at position `r` takes its next statement. */
  lemma Advance(s: Db, waiting: map<nat, Request>, i: nat, r: Request, id: TokenId, s': Db, next: Request, rest: seq<Action>, k: nat)
    requires Known(s, r.lic) && id !in s.leases && Statement(s, r, "", id) == (s', Some(next))
    requires i < k && forall p | p in waiting :: p < k
    requires Possibles(Sys(s', waiting[i := next]), rest, r.lic, k)
    ensures Possibles(Sys(s, waiting[i := r]), [Proceed(i, "", id)] + rest, r.lic, k)
    ensures After(Sys(s, waiting[i := r]), [Proceed(i, "", id)] + rest, r.lic, k) == After(Sys(s', waiting[i := next]), rest, r.lic, k)
  {
    hide Statement, InFlight, Possibles, After, Known;
    var y := Sys(s, waiting[i := r]);
    assert y.requests[i := next] == waiting[i := next];
    FewInFlight(y, r.lic, k);
    Cons(y, Proceed(i, "", id), rest, r.lic, k);
  }

  /** From the touch to past the limit check. */
  lemma CheckLate(s: Db, waiting: map<nat, Request>, lic: KeyHash, d: string, i: nat, id: TokenId, rest: seq<Action>, k: nat)
    returns (actions: seq<Action>)
    requires Known(s, lic) && d in s.devices && s.devices[d].license == lic && s.devices[d].status == DeviceActive && id !in s.leases
    requires 0 < MaxConcurrency(s, lic) && |LiveDevices(Readied(s, d), lic)| < MaxConcurrency(s, lic)
    requires i < k && forall p | p in waiting :: p < k
    requires Possibles(Sys(Readied(s, d), waiting[i := CreateLease(lic, d)]), rest, lic, k)
    ensures Possibles(Sys(s, waiting[i := TouchDevice(lic, d)]), actions, lic, k)
    ensures After(Sys(s, waiting[i := TouchDevice(lic, d)]), actions, lic, k)
         == After(Sys(Readied(s, d), waiting[i := CreateLease(lic, d)]), rest, lic, k)
  {
    CheckStatements(s, lic, d, id);
    hide LiveDevices, Possibles, After, Statement, Readied, MaxConcurrency;
    var r1 := [Proceed(i, "", id)] + rest;
    var r2 := [Proceed(i, "", id)] + r1;
    Advance(Readied(s, d), waiting, i, CheckLimit(lic, d), id, Readied(s, d), CreateLease(lic, d), rest, k);
    Advance(Touch(s, d, ""), waiting, i, RevokeOwn(lic, d), id, Readied(s, d), CheckLimit(lic, d), r1, k);
    Advance(s, waiting, i, TouchDevice(lic, d), id, Touch(s, d, ""), RevokeOwn(lic, d), r2, k);
    actions := [Proceed(i, "", id)] + r2;
  }

  /** From the arrival to the touch. */
  lemma CheckEarly(s: Db, waiting: map<nat, Request>, lic: KeyHash, d: string, i: nat, id: TokenId, rest: seq<Action>, k: nat)
    returns (actions: seq<Action>)
    requires Known(s, lic) && d in s.devices && s.devices[d].license == lic && s.devices[d].status == DeviceActive && id !in s.leases
    requires i !in waiting && i < k && forall p | p in waiting :: p < k
    requires Possibles(Sys(s, waiting[i := TouchDevice(lic, d)]), rest, lic, k)
    ensures Possibles(Sys(s, waiting), actions, lic, k)
    ensures After(Sys(s, waiting), actions, lic, k) == After(Sys(s, waiting[i := TouchDevice(lic, d)]), rest, lic, k)
  {
    assert Statement(s, LookUpDevice(lic, d), "", id) == (s, Some(TouchDevice(lic, d)));
    hide Possibles, After, Statement, InFlight;
    var r1 := [Proceed(i, "", id)] + rest;
    Advance(s, waiting, i, LookUpDevice(lic, d), id, s, TouchDevice(lic, d), rest, k);
    FewInFlight(Sys(s, waiting), lic, k);
    Cons(Sys(s, waiting), Arrive(i, LookUpDevice(lic, d)), r1, lic, k);
    actions := [Arrive(i, LookUpDevice(lic, d))] + r1;
  }

  lemma OneMoreChecked(lic: KeyHash, codes: seq<string>, i: nat)
    requires i < |codes|
    ensures Checked(lic, codes, i)[i := CreateLease(lic, codes[i])] == Checked(lic, codes, i + 1)
  { }

  lemma SlotLeft(s: Db, lic: KeyHash, codes: seq<string>, i: nat)
    requires OneSlotFor(s, lic, codes) && i < |codes|
    ensures Known(s, lic) && |LiveDevices(Readied(s, codes[i]), lic)| < MaxConcurrency(s, lic)
    ensures codes[i] in s.devices && s.devices[codes[i]].license == lic && s.devices[codes[i]].status == DeviceActive
    ensures i !in Checked(lic, codes, i) && forall p | p in Checked(lic, codes, i) :: p < |codes|
  {
    ReadiedLive(s, lic, codes[i]);
  }

  /** One more activation of a bound device arrives and gets past the limit check. */
  lemma CheckOne(s: Db, lic: KeyHash, codes: seq<string>, i: nat, id: TokenId, rest: seq<Action>) returns (actions: seq<Action>)
    requires OneSlotFor(s, lic, codes) && i < |codes| && id !in s.leases && MaxConcurrency(s, lic) >= 1
    requires Possibles(Sys(Readied(s, codes[i]), Checked(lic, codes, i + 1)), rest, lic, |codes|)
    ensures var y := Sys(s, Checked(lic, codes, i));
            && Possibles(y, actions, lic, |codes|)
            && After(y, actions, lic, |codes|) == After(Sys(Readied(s, codes[i]), Checked(lic, codes, i + 1)), rest, lic, |codes|)
  {
    hide *;
    var d := codes[i];
    var waiting := Checked(lic, codes, i);
    OneMoreChecked(lic, codes, i);
    SlotLeft(s, lic, codes, i);
    var late := CheckLate(s, waiting, lic, d, i, id, rest, |codes|);
    actions := CheckEarly(s, waiting, lic, d, i, id, late, |codes|);
  }

  lemma {:induction false} CheckAll(s: Db, lic: KeyHash, codes: seq<string>, i: nat) returns (actions: seq<Action>)
    requires OneSlotFor(s, lic, codes) && i <= |codes| && MaxConcurrency(s, lic) >= 1
    ensures var y := Sys(s, Checked(lic, codes, i));
            && Possibles(y, actions, lic, |codes|)
            && |LiveDevices(After(y, actions, lic, |codes|).db, lic)| == |LiveDevices(s, lic)| + |codes|
    decreases |codes| - i
  {
    hide LiveDevices, Possibles, After, RevokeActive, MaxDevices;
    if i == |codes| {
      assert Checked(lic, codes, i) == Unwritten(lic, codes, 0);
      actions := GrantAll(Sys(s, Unwritten(lic, codes, 0)), lic, codes, 0);
    } else {
      var id := FreshTokenId(s.leases.Keys);
      assert id !in s.leases;
      ReadiedKeepsSlot(s, lic, codes, i);
      ReadiedLive(s, lic, codes[i]);
      SameMaxConcurrency(s, Readied(s, codes[i]), lic);
      var rest := CheckAll(Readied(s, codes[i]), lic, codes, i + 1);
      actions := CheckOne(s, lic, codes, i, id, rest);
    }
  }

  /** The bound on live devices cannot be improved either: from one free slot, any
      number `k` of simultaneous activations of bound devices can all get a lease. */
  lemma LiveOvershootReached(s: Db, lic: KeyHash, codes: seq<string>) returns (actions: seq<Action>)
    requires codes != [] && OneSlotFor(s, lic, codes) && MaxConcurrency(s, lic) >= 1
    ensures Possibles(Sys(s, map[]), actions, lic, |codes|)
    ensures |LiveDevices(After(Sys(s, map[]), actions, lic, |codes|).db, lic)| == MaxConcurrency(s, lic) + |codes| - 1
  {
    hide LiveDevices, Possibles, After;
    actions := CheckAll(s, lic, codes, 0);
    assert Checked(lic, codes, 0) == map[];
  }
}
