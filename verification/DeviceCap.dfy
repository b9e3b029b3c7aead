/** The device cap, the choice of the kicked device, and the finality of removal. */
module DeviceCap {
  import opened Rows
  import opened LeaseService
  import opened DeviceService
  import opened LicenseService
  import opened LicenseApi
  import opened Runs
  import opened ConcurrencyCap

  // ---------------------------------------------------------------------------
  // The cap

  /** Binding a device never lifts a license above its cap, and never lifts it
      further when it is above already. */
  lemma BindActive(s: Db, lic: KeyHash, maxD: int, d: string, v: string, policy: BindingPolicy, kicked: string, l: KeyHash)
    requires KickChoiceOk(s, lic, maxD, d, policy, kicked)
    ensures var s' := GetOrCreate(s, lic, maxD, d, v, policy, kicked).0;
            && (l != lic ==> |ActiveDevices(s', l)| <= |ActiveDevices(s, l)|)
            && |ActiveDevices(s', l)| <= Max(|ActiveDevices(s, l)|, maxD)
  {
    hide ActiveDevices, RevokeActive;
    var s' := GetOrCreate(s, lic, maxD, d, v, policy, kicked).0;
    if d in s.devices {
      TouchActive(s, d, v, l);
    } else {
      CreateActive(s, lic, d, v, l);
      if kicked in s.devices {
        RemoveActive(s, kicked, l);
        CreateActive(Kick(s, kicked), lic, d, v, l);
      }
    }
  }

  lemma TouchActive(s: Db, d: string, v: string, l: KeyHash)
    requires d in s.devices
    ensures ActiveDevices(Touch(s, d, v), l) == ActiveDevices(s, l)
  { }

  lemma CreateActive(s: Db, lic: KeyHash, d: string, v: string, l: KeyHash)
    requires d !in s.devices
    ensures ActiveDevices(Create(s, lic, d, v), l) == ActiveDevices(s, l) + (if l == lic then {d} else {})
  { }

  lemma RemoveActive(s: Db, d: string, l: KeyHash)
    requires d in s.devices
    ensures ActiveDevices(Kick(s, d), l) == ActiveDevices(s, l) - {d}
    ensures |ActiveDevices(Kick(s, d), l)| <= |ActiveDevices(s, l)|
  {
    assert ActiveDevices(Kick(s, d), l) == ActiveDevices(s, l) - {d};
  }

  lemma ActivateActive(s: Db, product: string, key: string, d: string, v: string, c: Choices, l: KeyHash)
    requires ActivateChoicesOk(s, product, key, d, v, c)
    requires Known(Activate(s, product, key, d, v, c).0, l)
    ensures var s' := Activate(s, product, key, d, v, c).0;
            |ActiveDevices(s', l)| <= Max(|ActiveDevices(s, l)|, MaxDevices(s', l))
  {
    hide ValidateLicense, GetOrCreate, Issue, ActiveDevices, KickChoiceOk, IssueChoiceOk, MaxConcurrency;
    var (s1, r1) := ValidateLicense(s, product, key);
    FrameActive(s, s1, l);
    if r1.Ok? {
      var lic := r1.value;
      var (s2, r2) := Bind(s1, lic, d, v, c.kicked);
      BindActive(s1, lic, MaxDevices(s1, lic), d, v, PolicyOf(s1, lic), c.kicked, l);
      if r2.Ok? {
        FrameActive(s2, Activate(s, product, key, d, v, c).0, l);
      }
    }
  }

  lemma FrameActive(s: Db, s': Db, l: KeyHash)
    requires s'.devices == s.devices
    ensures ActiveDevices(s', l) == ActiveDevices(s, l)
  { }

  lemma ShrinkActive(s: Db, s': Db, l: KeyHash)
    requires forall d | d in s'.devices && s'.devices[d].status == DeviceActive ::
               d in s.devices && s.devices[d].status == DeviceActive && s.devices[d].license == s'.devices[d].license
    ensures |ActiveDevices(s', l)| <= |ActiveDevices(s, l)|
  {
    SubsetCard(ActiveDevices(s', l), ActiveDevices(s, l));
  }

  lemma StepActive(s: Db, e: Event, l: KeyHash)
    requires Enabled(s, e) && Known(Step(s, e), l)
    ensures |ActiveDevices(Step(s, e), l)|
         <= Max(|ActiveDevices(s, l)|, MaxDevices(Step(s, e), l)) + (if Reenables(s, e, l) then 1 else 0)
  {
    hide ActiveDevices, Activate, Verify, Deactivate, Heartbeat, ActivateChoicesOk, HeartbeatChoiceOk, Known, MaxDevices;
    match e
    case ActivateCall(product, key, d, v, c) => ActivateActive(s, product, key, d, v, c, l);
    case HeartbeatCall(token, product, d, v, c) => HeartbeatActive(s, token, product, d, v, c, l);
    case DeactivateCall(product, key, d) => DeactivateActive(s, product, key, d, l);
    case SetDeviceStatus(d, _) => ReenableActive(s, e, l);
    case ApproveUnbind(_) => ShrinkActive(s, Step(s, e), l);
    case _ => FrameActive(s, Step(s, e), l);
  }

  lemma HeartbeatActive(s: Db, t: Token, product: string, d: string, v: string, c: IssueChoice, l: KeyHash)
    ensures |ActiveDevices(Heartbeat(s, t, product, d, v, c).0, l)| <= |ActiveDevices(s, l)|
  {
    hide ActiveDevices, Issue, EnsureValid, EnsureAllowed;
    ShrinkActive(s, Heartbeat(s, t, product, d, v, c).0, l);
  }

  lemma DeactivateActive(s: Db, product: string, key: string, d: string, l: KeyHash)
    ensures |ActiveDevices(Deactivate(s, product, key, d).0, l)| <= |ActiveDevices(s, l)|
  {
    hide ActiveDevices, ValidateLicense, RevokeActive;
    ShrinkActive(s, Deactivate(s, product, key, d).0, l);
  }

  lemma ReenableActive(s: Db, e: Event, l: KeyHash)
    requires e.SetDeviceStatus?
    ensures |ActiveDevices(Step(s, e), l)| <= |ActiveDevices(s, l)| + (if Reenables(s, e, l) then 1 else 0)
  {
    hide Activate, Verify, Deactivate, Heartbeat;
    SubsetCard(ActiveDevices(Step(s, e), l), ActiveDevices(s, l) + (if Reenables(s, e, l) then {e.device} else {}));
  }

  /** Turning a device active again always adds it; no cap is looked at. */
  lemma ReenabledActive(s: Db, d: string)
    requires d in s.devices && s.devices[d].status != DeviceActive
    ensures var s', l := Step(s, SetDeviceStatus(d, DeviceActive)), s.devices[d].license;
            ActiveDevices(s', l) == ActiveDevices(s, l) + {d} && |ActiveDevices(s', l)| == |ActiveDevices(s, l)| + 1
  {
    hide Activate, Verify, Deactivate, Heartbeat;
    var s', l := Step(s, SetDeviceStatus(d, DeviceActive)), s.devices[d].license;
    assert ActiveDevices(s', l) == ActiveDevices(s, l) + {d};
  }

  /** Active devices never rise above the larger of where they started and the cap,
      except by one for each device an admin turned active again. */
  lemma {:induction false} ActiveDevicesBounded(s: Db, es: seq<Event>, l: KeyHash)
    requires Inv(s) && ValidRun(s, es) && Known(Run(s, es), l)
    ensures |ActiveDevices(Run(s, es), l)|
         <= Max(|ActiveDevices(s, l)|, MaxDevices(Run(s, es), l)) + ReenableCount(s, es, l)
    decreases |es|
  {
    hide Step, ActiveDevices, Inv, Enabled, Reenables, MaxDevices, Known;
    if es != [] {
      var s1 := Step(s, es[0]);
      StepKeepsInv(s, es[0]);
      ActiveDevicesBounded(s1, es[1..], l);
      if Known(s1, l) {
        RunKeepsLimits(s1, es[1..], l);
        StepActive(s, es[0], l);
      } else {
        UnknownHasNoDevices(s1, l);
      }
    }
  }

  lemma UnknownHasNoDevices(s: Db, l: KeyHash)
    requires Inv(s) && !Known(s, l)
    ensures ActiveDevices(s, l) == {}
  { }

  // ---------------------------------------------------------------------------
  // Who is kicked

  /** Under `kick_oldest` a full license swaps exactly one device, one of those seen
      least recently, for the new one; the loser keeps no active lease. */
  lemma KickSwapsOldest(s: Db, lic: KeyHash, maxD: int, d: string, v: string, kicked: string)
    requires KickChoiceOk(s, lic, maxD, d, KickOldest, kicked)
    requires d !in s.devices && |ActiveDevices(s, lic)| >= maxD && ActiveDevices(s, lic) != {}
    ensures var (s', r) := GetOrCreate(s, lic, maxD, d, v, KickOldest, kicked);
            && r.Ok?
            && ActiveDevices(s', lic) == ActiveDevices(s, lic) - {kicked} + {d}
            && kicked in ActiveDevices(s, lic)
            && (forall e | e in ActiveDevices(s, lic) :: s.devices[kicked].lastSeenAt <= s.devices[e].lastSeenAt)
            && s'.devices[kicked] == s.devices[kicked].(status := DeviceRemoved, unbindCount := s.devices[kicked].unbindCount + 1)
            && (forall e | e in s.devices && e != kicked :: s'.devices[e] == s.devices[e])
            && (forall m | m in s'.leases && s'.leases[m].device == kicked :: s'.leases[m].status != LeaseActive)
            && (forall m | m in s.leases && s.leases[m].device != kicked :: m in s'.leases && s'.leases[m] == s.leases[m])
  {
    assert kicked != d;
  }

  // ---------------------------------------------------------------------------
  // Removal is final for the public API

  predicate PublicApi(e: Event) {
    e.ActivateCall? || e.VerifyCall? || e.HeartbeatCall? || e.DeactivateCall? || e.AdvanceClock?
  }

  predicate PublicRun(es: seq<Event>) {
    forall e | e in es :: PublicApi(e)
  }

  /** Removed devices were unbound once and hold nothing; the others never were. */
  ghost predicate RemovedClean(s: Db) {
    && (forall d | d in s.devices :: s.devices[d].unbindCount == if s.devices[d].status == DeviceRemoved then 1 else 0)
    && (forall l | l in s.leases && s.leases[l].status == LeaseActive && s.leases[l].device in s.devices ::
          s.devices[s.leases[l].device].status != DeviceRemoved)
  }

  /** Every removed device of `s` is the same row in `s'`. */
  ghost predicate RemovedKept(s: Db, s': Db) {
    forall d | d in s.devices && s.devices[d].status == DeviceRemoved :: d in s'.devices && s'.devices[d] == s.devices[d]
  }

  ghost predicate CleanStep(s: Db, s': Db) {
    RemovedClean(s') && RemovedKept(s, s')
  }

  lemma IssueClean(s: Db, lic: KeyHash, d: string, v: string, maxC: int, policy: BindingPolicy, c: IssueChoice)
    requires RemovedClean(s) && d in s.devices && s.devices[d].status != DeviceRemoved
    ensures RemovedClean(Issue(s, lic, d, v, maxC, policy, c).0)
  {
    hide ConcurrencyFull;
  }

  lemma KickClean(s: Db, d: string)
    requires RemovedClean(s) && d in s.devices && s.devices[d].status == DeviceActive
    ensures CleanStep(s, Kick(s, d))
  { }

  lemma CreateClean(s: Db, lic: KeyHash, d: string, v: string)
    requires RemovedClean(s) && d !in s.devices
    ensures CleanStep(s, Create(s, lic, d, v))
  { }

  lemma BindClean(s: Db, lic: KeyHash, d: string, v: string, kicked: string)
    requires RemovedClean(s) && Known(s, lic) && KickChoiceOk(s, lic, MaxDevices(s, lic), d, PolicyOf(s, lic), kicked)
    ensures var (s', r) := Bind(s, lic, d, v, kicked);
            && CleanStep(s, s')
            && (r.Ok? ==> d in s'.devices && s'.devices[d].status == DeviceActive)
  {
    if d in s.devices {
      hide ActiveDevices, RevokeActive, MaxDevices, PolicyOf;
    } else {
      hide RevokeActive, RemovedClean, RemovedKept, MaxDevices, PolicyOf;
      CreateClean(s, lic, d, v);
      Kept(s);
      if kicked in ActiveDevices(s, lic) {
        KickClean(s, kicked);
        CreateClean(Kick(s, kicked), lic, d, v);
        KeptTransitive(s, Kick(s, kicked), Create(Kick(s, kicked), lic, d, v));
      }
    }
  }

  lemma Kept(s: Db)
    ensures RemovedKept(s, s)
  { }

  lemma KeptTransitive(s: Db, s1: Db, s2: Db)
    requires RemovedKept(s, s1) && RemovedKept(s1, s2)
    ensures RemovedKept(s, s2)
  { }

  lemma FrameClean(s: Db, s': Db)
    requires RemovedClean(s) && s'.devices == s.devices && OnlyDeactivates(s.leases, s'.leases)
    ensures CleanStep(s, s')
  { }

  lemma ActivateClean(s: Db, product: string, key: string, d: string, v: string, c: Choices)
    requires RemovedClean(s) && ActivateChoicesOk(s, product, key, d, v, c)
    ensures CleanStep(s, Activate(s, product, key, d, v, c).0)
  {
    hide ValidateLicense, GetOrCreate, Issue, KickChoiceOk, IssueChoiceOk, MaxDevices, MaxConcurrency, PolicyOf;
    var (s1, r1) := ValidateLicense(s, product, key);
    assert RemovedClean(s1);
    if r1.Ok? {
      var lic := r1.value;
      var (s2, r2) := Bind(s1, lic, d, v, c.kicked);
      BindClean(s1, lic, d, v, c.kicked);
      if r2.Ok? {
        IssueClean(s2, lic, d, v, MaxConcurrency(s2, lic), PolicyOf(s2, lic), c.issue);
      }
    }
  }

  lemma HeartbeatClean(s: Db, t: Token, product: string, d: string, v: string, c: IssueChoice)
    requires Inv(s) && RemovedClean(s)
    ensures CleanStep(s, Heartbeat(s, t, product, d, v, c).0)
  {
    hide Issue, EnsureValid, EnsureAllowed, MaxConcurrency, PolicyOf, ForeignKeys, OneActiveLease, SignedMatchLeases;
    var (s1, r1) := HeartbeatGate(s, t, product, d, v);
    if r1.Ok? {
      var s2 := Rotated(s, t, d, v);
      assert RemovedClean(s2);
      IssueClean(s2, r1.value, d, v, MaxConcurrency(s2, r1.value), PolicyOf(s2, r1.value), c);
    }
  }

  lemma DeactivateClean(s: Db, product: string, key: string, d: string)
    requires RemovedClean(s)
    ensures CleanStep(s, Deactivate(s, product, key, d).0)
  {
    hide ValidateLicense, RevokeActive, Kick, MarkRemoved;
    var s1 := ValidateLicense(s, product, key).0;
    assert CleanStep(s, s1);
    if d in s1.devices && s1.devices[d].status == DeviceActive { KickClean(s1, d); }
  }

  lemma StepClean(s: Db, e: Event)
    requires Inv(s) && RemovedClean(s) && Enabled(s, e) && PublicApi(e)
    ensures CleanStep(s, Step(s, e))
  {
    hide Inv, Activate, Heartbeat, Deactivate, ActivateChoicesOk, HeartbeatChoiceOk, EnsureValid, EnsureAllowed;
    match e
    case ActivateCall(product, key, d, v, c) => ActivateClean(s, product, key, d, v, c);
    case HeartbeatCall(token, product, d, v, c) => HeartbeatClean(s, token, product, d, v, c);
    case DeactivateCall(product, key, d) => DeactivateClean(s, product, key, d);
    case VerifyCall(token, product, d, v) => FrameClean(s, Step(s, e));
    case AdvanceClock(ms) => FrameClean(s, Step(s, e));
  }

  /** In every run of the public API removal is permanent, a removed device holds no
      active lease, and exactly the removed devices have been unbound, once each. */
  lemma {:induction false} RemovalIsFinal(s: Db, es: seq<Event>)
    requires Inv(s) && RemovedClean(s) && ValidRun(s, es) && PublicRun(es)
    ensures RemovedClean(Run(s, es)) && RemovedKept(s, Run(s, es))
    decreases |es|
  {
    hide Inv, RemovedClean, RemovedKept, Step, Enabled, PublicApi;
    if es == [] {
      Kept(s);
    } else {
      var s1 := Step(s, es[0]);
      assert PublicApi(es[0]);
      StepClean(s, es[0]);
      StepKeepsInv(s, es[0]);
      RemovalIsFinal(s1, es[1..]);
      KeptTransitive(s, s1, Run(s, es));
    }
  }

  const UNBIND_ALERT := 3

  /** Without admins no device is unbound twice, so the alert on frequent unbinding,
      raised from three on, never sounds. */
  lemma UnbindAlertSilent(s: Db, es: seq<Event>, d: string)
    requires Inv(s) && RemovedClean(s) && ValidRun(s, es) && PublicRun(es)
    requires d in Run(s, es).devices
    ensures Run(s, es).devices[d].unbindCount < UNBIND_ALERT
  {
    RemovalIsFinal(s, es);
  }
}
