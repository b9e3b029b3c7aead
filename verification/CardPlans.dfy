/** Card keys without an explicit plan (server/src/admin/p2/p2.controller.ts): the code
    of the default plan spells out what was asked for, so an upsert that never updates
    still returns the plan that was asked for. */
module CardPlans {
  import opened Rows
  import opened Wrappers
  import opened VersionService
  import opened LicenseService
  import opened LicenseApi
  import opened Runs

  // ---------------------------------------------------------------------------
  // Specification

  datatype DurationType = Hour | Day | Week | Month | Quarter | Year

  // What a default plan is made from. Only `Hour` carries a number of hours.
  datatype PlanSpec = PlanSpec(duration: DurationType, hours: nat, maxDevices: nat, maxConcurrency: nat, policy: BindingPolicy)

  predicate WellFormed(p: PlanSpec) {
    p.maxDevices >= 1 && p.maxConcurrency >= 1 && if p.duration == Hour then p.hours >= 1 else p.hours == 0
  }

  datatype CardKeyRequest = CardKeyRequest(
    product: string,
    plan: Option<PlanRef>,
    durationType: Option<DurationType>,
    durationHours: Option<int>,
    maxDevices: Option<int>,
    maxConcurrency: Option<int>,
    kickOldest: bool,
    status: Option<CardKeyStatus>)

  function AtLeastOne(n: Option<int>): (m: nat)
    ensures m >= 1
  {
    if n.Some? && n.value > 1 then n.value else 1
  }

  function SpecOf(r: CardKeyRequest): (p: PlanSpec)
    ensures WellFormed(p)
  {
    var duration := if r.durationType.Some? then r.durationType.value else Day;
    PlanSpec(duration, if duration == Hour then AtLeastOne(r.durationHours) else 0,
             AtLeastOne(r.maxDevices), AtLeastOne(r.maxConcurrency), if r.kickOldest then KickOldest else DenyNew)
  }

  function DurationName(d: DurationType): string {
    match d
    case Hour => "hour"
    case Day => "day"
    case Week => "week"
    case Month => "month"
    case Quarter => "quarter"
    case Year => "year"
  }

  function PolicyName(policy: BindingPolicy): string {
    if policy == KickOldest then "kick" else "deny"
  }

  function DeviceSuffix(p: PlanSpec): string {
    "d" + Numeral(p.maxDevices) + ("_" + ("c" + Numeral(p.maxConcurrency) + ("_" + PolicyName(p.policy))))
  }

  function PlanCode(p: PlanSpec): string {
    "card_" + (DurationName(p.duration) + ("_" +
      if p.duration == Hour then Numeral(p.hours) + ("_" + DeviceSuffix(p)) else DeviceSuffix(p)))
  }

  function Days(p: PlanSpec): nat {
    match p.duration
    case Hour => if (p.hours + 23) / 24 > 1 then (p.hours + 23) / 24 else 1
    case Day => 1
    case Week => 7
    case Month => 30
    case Quarter => 90
    case Year => 365
  }

  function Seconds(p: PlanSpec): nat {
    if p.duration == Hour then p.hours * 60 * 60 else Days(p) * 24 * 60 * 60
  }

  function PolicyFlag(policy: BindingPolicy): Flag {
    FlagText(if policy == KickOldest then "kick_oldest" else "deny_new")
  }

  function PlanFor(p: PlanSpec): Plan {
    var flags := if p.duration == Hour
      then map["durationUnit" := FlagText("hour"), "durationHours" := FlagNumber(p.hours),
               "durationSeconds" := FlagNumber(Seconds(p)), "deviceBindingPolicy" := PolicyFlag(p.policy)]
      else map["durationSeconds" := FlagNumber(Seconds(p)), "deviceBindingPolicy" := PolicyFlag(p.policy)];
    Plan(true, Days(p), p.maxDevices, p.maxConcurrency, flags)
  }

  /** An upsert with an empty update. */
  function EnsurePlan(s: Db, product: string, p: PlanSpec): (Db, Result<PlanRef>) {
    var ref := PlanRef(product, PlanCode(p));
    if ref in s.plans then (s, Ok(ref))
    else if product !in s.products then (s, Err(InternalError))
    else (s.(plans := s.plans[ref := PlanFor(p)]), Ok(ref))
  }

  /** The plan stays even if the card key is then refused by its own keys. */
  function CreateCard(s: Db, r: CardKeyRequest, key: string): (Db, Result<PlanRef>) {
    var (s1, r1) := if r.plan.Some? then (s, Ok(r.plan.value)) else EnsurePlan(s, r.product, SpecOf(r));
    if r1.Err? then (s1, r1)
    else if key in s1.cardKeys || r.product !in s1.products || r1.value !in s1.plans then (s1, Err(InternalError))
    else
      var status := if r.status.Some? then r.status.value else CardUnused;
      (s1.(cardKeys := s1.cardKeys[key := CardKey(r.product, r1.value, status, None, None, None)]), r1)
  }

  // ---------------------------------------------------------------------------
  // The service

  method EnsureDefaultCardKeyPlan(db: Database, product: string, durationType: DurationType, durationHours: Option<int>,
                                  maxDevices: nat, maxConcurrency: nat, policy: BindingPolicy)
    returns (r: Result<PlanRef>)
    modifies db`plans
    ensures var hours := if durationType == Hour then AtLeastOne(durationHours) else 0;
            (db.State(), r) == EnsurePlan(old(db.State()), product, PlanSpec(durationType, hours, maxDevices, maxConcurrency, policy))
  {
    var policyCode := if policy == KickOldest then "kick" else "deny";
    var deviceSuffix := "d" + Numeral(maxDevices) + ("_" + ("c" + Numeral(maxConcurrency) + ("_" + policyCode)));
    var code, plan;
    if durationType == Hour {
      var hours := AtLeastOne(durationHours);
      code := "card_" + ("hour" + ("_" + (Numeral(hours) + ("_" + deviceSuffix))));
      var days := if (hours + 23) / 24 > 1 then (hours + 23) / 24 else 1;
      plan := Plan(true, days, maxDevices, maxConcurrency,
                   map["durationUnit" := FlagText("hour"), "durationHours" := FlagNumber(hours),
                       "durationSeconds" := FlagNumber(hours * 60 * 60), "deviceBindingPolicy" := PolicyFlag(policy)]);
    } else {
      var days, seconds := 1, 24 * 60 * 60;
      match durationType {
        case Week => days, seconds := 7, 7 * 24 * 60 * 60;
        case Month => days, seconds := 30, 30 * 24 * 60 * 60;
        case Quarter => days, seconds := 90, 90 * 24 * 60 * 60;
        case Year => days, seconds := 365, 365 * 24 * 60 * 60;
        case _ =>
      }
      code := "card_" + (DurationName(durationType) + ("_" + deviceSuffix));
      plan := Plan(true, days, maxDevices, maxConcurrency,
                   map["durationSeconds" := FlagNumber(seconds), "deviceBindingPolicy" := PolicyFlag(policy)]);
    }
    var ref := PlanRef(product, code);
    if ref in db.plans { return Ok(ref); }
    if product !in db.products { return Err(InternalError); }
    db.plans := db.plans[ref := plan];
    r := Ok(ref);
  }

  method CreateCardKey(db: Database, request: CardKeyRequest, key: string) returns (r: Result<PlanRef>)
    modifies db`plans, db`cardKeys
    ensures (db.State(), r) == CreateCard(old(db.State()), request, key)
  {
    hide EnsurePlan;
    var durationType := if request.durationType.Some? then request.durationType.value else Day;
    var maxDevices := AtLeastOne(request.maxDevices);
    var maxConcurrency := AtLeastOne(request.maxConcurrency);
    var policy := if request.kickOldest then KickOldest else DenyNew;
    if request.plan.Some? {
      r := Ok(request.plan.value);
    } else {
      r := EnsureDefaultCardKeyPlan(db, request.product, durationType, request.durationHours, maxDevices, maxConcurrency, policy);
    }
    if r.Err? { return; }
    if key in db.cardKeys || request.product !in db.products || r.value !in db.plans { return Err(InternalError); }
    var status := if request.status.Some? then request.status.value else CardUnused;
    db.cardKeys := db.cardKeys[key := CardKey(request.product, r.value, status, None, None, None)];
  }

  // ---------------------------------------------------------------------------
  // Codes determine the plan

  lemma NumeralsDiffer(m: nat, n: nat)
    ensures '_' !in Numeral(m) && '_' !in Numeral(n)
    ensures Numeral(m) == Numeral(n) ==> m == n
  {
    NumeralReads(m);
    NumeralReads(n);
  }

  /** Text up to the first underscore, and text after it, are read off uniquely. */
  lemma FirstField(a: string, b: string, x: string, y: string)
    requires '_' !in a && '_' !in b
    requires a + ("_" + x) == b + ("_" + y)
    ensures a == b && x == y
  {
    var s := a + ("_" + x);
    var t := b + ("_" + y);
    assert s[|a|] == '_' && t[|b|] == '_';
    assert forall i | 0 <= i < |a| :: s[i] == a[i];
    assert forall i | 0 <= i < |b| :: t[i] == b[i];
    assert |a| == |b|;
    assert s[..|a|] == a && t[..|b|] == b;
    assert s[|a| + 1..] == x && t[|b| + 1..] == y;
  }

  lemma DeviceSuffixInjective(p: PlanSpec, q: PlanSpec)
    requires DeviceSuffix(p) == DeviceSuffix(q)
    ensures p.maxDevices == q.maxDevices && p.maxConcurrency == q.maxConcurrency && p.policy == q.policy
  {
    NumeralsDiffer(p.maxDevices, q.maxDevices);
    NumeralsDiffer(p.maxConcurrency, q.maxConcurrency);
    hide Numeral;
    var a, b := "d" + Numeral(p.maxDevices), "d" + Numeral(q.maxDevices);
    var c, d := "c" + Numeral(p.maxConcurrency), "c" + Numeral(q.maxConcurrency);
    FirstField(a, b, c + ("_" + PolicyName(p.policy)), d + ("_" + PolicyName(q.policy)));
    FirstField(c, d, PolicyName(p.policy), PolicyName(q.policy));
    assert a[1..] == Numeral(p.maxDevices) && b[1..] == Numeral(q.maxDevices);
    assert c[1..] == Numeral(p.maxConcurrency) && d[1..] == Numeral(q.maxConcurrency);
    assert PolicyName(p.policy)[0] == PolicyName(q.policy)[0];
  }

  lemma DurationNameInjective(a: DurationType, b: DurationType)
    requires DurationName(a) == DurationName(b)
    ensures a == b
  {
    assert DurationName(a)[0] == DurationName(b)[0];
  }

  lemma DurationNameIsField(d: DurationType)
    ensures '_' !in DurationName(d)
  { }

  lemma PlanCodeInjective(p: PlanSpec, q: PlanSpec)
    requires WellFormed(p) && WellFormed(q) && PlanCode(p) == PlanCode(q)
    ensures p == q
  {
    DurationNameIsField(p.duration);
    DurationNameIsField(q.duration);
    NumeralsDiffer(p.hours, q.hours);
    hide Numeral, DeviceSuffix, DurationName;
    var rest := (r: PlanSpec) => if r.duration == Hour then Numeral(r.hours) + ("_" + DeviceSuffix(r)) else DeviceSuffix(r);
    assert PlanCode(p)[5..] == DurationName(p.duration) + ("_" + rest(p));
    assert PlanCode(q)[5..] == DurationName(q.duration) + ("_" + rest(q));
    FirstField(DurationName(p.duration), DurationName(q.duration), rest(p), rest(q));
    DurationNameInjective(p.duration, q.duration);
    if p.duration == Hour {
      FirstField(Numeral(p.hours), Numeral(q.hours), DeviceSuffix(p), DeviceSuffix(q));
    }
    DeviceSuffixInjective(p, q);
  }

  // ---------------------------------------------------------------------------
  // Runs: plans whose code starts with `card_` are written only here

  datatype PlanEvent =
    | MakeCard(request: CardKeyRequest, key: string)
    | WritePlan(ref: PlanRef, plan: Plan)
    | ServerStep(event: Event)

  function PlanStep(s: Db, e: PlanEvent): Db {
    match e
    case MakeCard(r, key) => CreateCard(s, r, key).0
    case WritePlan(ref, plan) => s.(plans := s.plans[ref := plan])
    case ServerStep(ev) => Step(s, ev)
  }

  predicate PlanEventOk(e: PlanEvent) {
    e.WritePlan? ==> !("card_" <= e.ref.code)
  }

  function PlanRun(s: Db, es: seq<PlanEvent>): Db
    decreases |es|
  {
    if es == [] then s else PlanRun(PlanStep(s, es[0]), es[1..])
  }

  ghost predicate CardPlansRight(s: Db) {
    forall product: string, p: PlanSpec :: WellFormed(p) && PlanRef(product, PlanCode(p)) in s.plans ==>
      s.plans[PlanRef(product, PlanCode(p))] == PlanFor(p)
  }

  /** Card keys stay, with their product and plan, and so do plans. */
  ghost predicate CardsKept(s: Db, s': Db) {
    && s.plans.Keys <= s'.plans.Keys
    && forall k | k in s.cardKeys :: k in s'.cardKeys && s'.cardKeys[k].plan == s.cardKeys[k].plan && s'.cardKeys[k].product == s.cardKeys[k].product
  }

  lemma EnsurePlanRight(s: Db, product: string, p: PlanSpec)
    requires CardPlansRight(s) && WellFormed(p)
    ensures var (s', r) := EnsurePlan(s, product, p);
            && CardPlansRight(s') && CardsKept(s, s') && s' == s.(plans := s'.plans)
            && (r.Ok? ==> r.value in s'.plans && r.value == PlanRef(product, PlanCode(p)))
  {
    hide PlanCode, PlanFor;
    var (s', r) := EnsurePlan(s, product, p);
    forall other: string, q: PlanSpec | WellFormed(q) && PlanRef(other, PlanCode(q)) in s'.plans
      ensures s'.plans[PlanRef(other, PlanCode(q))] == PlanFor(q)
    {
      if PlanCode(q) == PlanCode(p) { PlanCodeInjective(p, q); }
    }
  }

  lemma CreateCardRight(s: Db, r: CardKeyRequest, key: string)
    requires CardPlansRight(s)
    ensures var (s', result) := CreateCard(s, r, key);
            && CardPlansRight(s') && CardsKept(s, s')
            && (result.Ok? ==> key in s'.cardKeys && s'.cardKeys[key].plan == result.value && result.value in s'.plans)
            && (result.Ok? && r.plan.None? ==> result.value == PlanRef(r.product, PlanCode(SpecOf(r))))
  {
    hide PlanCode, PlanFor, EnsurePlan, WellFormed, SpecOf;
    EnsurePlanRight(s, r.product, SpecOf(r));
  }

  lemma WriteOtherPlan(s: Db, ref: PlanRef, plan: Plan)
    requires CardPlansRight(s) && !("card_" <= ref.code)
    ensures CardPlansRight(s.(plans := s.plans[ref := plan])) && CardsKept(s, s.(plans := s.plans[ref := plan]))
  {
    hide PlanFor;
    forall p: PlanSpec ensures "card_" <= PlanCode(p) { }
    hide PlanCode;
  }

  lemma ValidateLicenseKeepsCards(s: Db, product: string, key: string)
    ensures CardsKept(s, ValidateLicense(s, product, key).0)
  {
    hide EnsureValid, CardProblem, PlanDurationMs;
  }

  lemma ActivateKeepsCards(s: Db, product: string, key: string, d: string, v: string, c: Choices)
    ensures var s' := Activate(s, product, key, d, v, c).0; s'.plans == s.plans && CardsKept(s, s')
  {
    hide ValidateLicense, Bind, Renew, FeatureFlags;
    ValidateLicenseKeepsCards(s, product, key);
  }

  lemma ServerKeepsCards(s: Db, e: Event)
    ensures Step(s, e).plans == s.plans && CardsKept(s, Step(s, e))
  {
    hide Activate, Verify, Heartbeat, ValidateLicense;
    match e
    case ActivateCall(product, key, d, v, c) => ActivateKeepsCards(s, product, key, d, v, c);
    case DeactivateCall(product, key, d) => ValidateLicenseKeepsCards(s, product, key);
    case _ =>
  }

  lemma PlanStepKeeps(s: Db, e: PlanEvent)
    requires CardPlansRight(s) && PlanEventOk(e)
    ensures CardPlansRight(PlanStep(s, e)) && CardsKept(s, PlanStep(s, e))
  {
    hide CreateCard, Step, PlanCode, PlanFor, CardsKept, WellFormed;
    match e
    case MakeCard(r, key) => CreateCardRight(s, r, key);
    case WritePlan(ref, plan) => WriteOtherPlan(s, ref, plan);
    case ServerStep(ev) => ServerKeepsCards(s, ev);
  }

  lemma {:induction false} PlanRunKeeps(s: Db, es: seq<PlanEvent>)
    requires CardPlansRight(s) && forall i | 0 <= i < |es| :: PlanEventOk(es[i])
    ensures CardPlansRight(PlanRun(s, es)) && CardsKept(s, PlanRun(s, es))
    decreases |es|
  {
    if es != [] {
      hide CardPlansRight, PlanStep, PlanEventOk;
      assert PlanEventOk(es[0]);
      PlanStepKeeps(s, es[0]);
      PlanRunKeeps(PlanStep(s, es[0]), es[1..]);
    }
  }

  // ---------------------------------------------------------------------------
  // What the buyer gets

  function RequestedMs(p: PlanSpec): nat {
    match p.duration
    case Hour => p.hours * 3_600_000
    case Day => MS_PER_DAY
    case Week => 7 * MS_PER_DAY
    case Month => 30 * MS_PER_DAY
    case Quarter => 90 * MS_PER_DAY
    case Year => 365 * MS_PER_DAY
  }

  lemma PlanForMeansRequest(p: PlanSpec)
    requires WellFormed(p)
    ensures PlanDurationMs(PlanFor(p)) == RequestedMs(p) && FlagPolicy(PlanFor(p).flags) == p.policy
  { }

  lemma LookedUp(s: Db, product: string, p: PlanSpec)
    requires CardPlansRight(s) && WellFormed(p)
    ensures PlanRef(product, PlanCode(p)) in s.plans ==> s.plans[PlanRef(product, PlanCode(p))] == PlanFor(p)
  { }

  /** A redemption at time `at` that made a license with exactly what `p` asks for. */
  predicate Delivered(s: Db, redeemed: Result<Option<KeyHash>>, at: Time, p: PlanSpec) {
    redeemed.Ok? && redeemed.value.Some? &&
    var h := redeemed.value.value;
    && Known(s, h)
    && s.licenses[h].expireAt == Some(at + RequestedMs(p))
    && MaxDevices(s, h) == p.maxDevices && MaxConcurrency(s, h) == p.maxConcurrency && PolicyOf(s, h) == p.policy
  }

  lemma RedeemDelivers(s: Db, key: string, product: string, p: PlanSpec)
    requires WellFormed(p) && key in s.cardKeys && s.cardKeys[key].license.None?
    requires s.cardKeys[key].plan in s.plans && s.plans[s.cardKeys[key].plan] == PlanFor(p)
    requires Redeem(s, product, key).1.Ok?
    ensures var (s', r) := Redeem(s, product, key); Delivered(s', r, s.now, p)
  {
    PlanForMeansRequest(p);
    hide PlanDurationMs, FlagPolicy, RequestedMs, WellFormed;
  }

  /** However long the card lies around, and whatever other cards, plans and licenses
      are made meanwhile, redeeming it at time T gives an expiry of T plus exactly the
      requested duration, the requested limits and the requested policy. */
  lemma RedeemedAsRequested(s: Db, r: CardKeyRequest, key: string, es: seq<PlanEvent>, product: string)
    requires CardPlansRight(s) && r.plan.None? && CreateCard(s, r, key).1.Ok?
    requires forall i | 0 <= i < |es| :: PlanEventOk(es[i])
    requires var s2 := PlanRun(CreateCard(s, r, key).0, es);
             key in s2.cardKeys && s2.cardKeys[key].license.None? && Redeem(s2, product, key).1.Ok?
    ensures var s2 := PlanRun(CreateCard(s, r, key).0, es);
            var (s3, redeemed) := Redeem(s2, product, key);
            Delivered(s3, redeemed, s2.now, SpecOf(r))
  {
    hide CreateCard, Redeem, PlanRun, PlanFor, PlanCode, SpecOf, CardPlansRight, WellFormed, Delivered;
    var (s1, result) := CreateCard(s, r, key);
    var s2 := PlanRun(s1, es);
    CreateCardRight(s, r, key);
    PlanRunKeeps(s1, es);
    LookedUp(s2, r.product, SpecOf(r));
    RedeemDelivers(s2, key, product, SpecOf(r));
  }

  /** What was asked for, with the defaults: a day, one device, one at a time, deny new
      ones; an hour card lasts at least one hour, and numbers below one count as one. */
  lemma AskedFor(r: CardKeyRequest)
    ensures var p := SpecOf(r);
            && p.duration == (if r.durationType.Some? then r.durationType.value else Day)
            && (p.duration == Hour ==> p.hours == if r.durationHours.Some? && r.durationHours.value >= 1 then r.durationHours.value else 1)
            && p.maxDevices == (if r.maxDevices.Some? && r.maxDevices.value >= 1 then r.maxDevices.value else 1)
            && p.maxConcurrency == (if r.maxConcurrency.Some? && r.maxConcurrency.value >= 1 then r.maxConcurrency.value else 1)
            && p.policy == (if r.kickOldest then KickOldest else DenyNew)
  { }

  /** The plan's whole days are the fewest that cover the requested time, and its flags
      say the same in seconds, and in hours for an hour card. */
  lemma PlanDaysCover(p: PlanSpec)
    requires WellFormed(p)
    ensures var plan := PlanFor(p);
            && plan.active
            && (plan.durationDays - 1) * 86_400_000 < RequestedMs(p) <= plan.durationDays * 86_400_000
            && "durationSeconds" in plan.flags && plan.flags["durationSeconds"] == FlagNumber(RequestedMs(p) / 1000)
            && (p.duration == Hour ==>
                  && "durationUnit" in plan.flags && plan.flags["durationUnit"] == FlagText("hour")
                  && "durationHours" in plan.flags && plan.flags["durationHours"] == FlagNumber(p.hours))
            && (p.duration != Hour ==> "durationUnit" !in plan.flags && "durationHours" !in plan.flags)
  {
    if p.duration == Hour { HoursInDays(p.hours); }
  }

  lemma HoursInDays(hours: nat)
    requires hours >= 1
    ensures (hours + 23) / 24 >= 1 && ((hours + 23) / 24 - 1) * 24 < hours <= (hours + 23) / 24 * 24
  { }

  /** The row of a new card key: unused unless asked otherwise, without a license. */
  lemma CardRow(s: Db, r: CardKeyRequest, key: string)
    ensures var (s', result) := CreateCard(s, r, key);
            && (result.Ok? ==>
                  && key !in s.cardKeys && s'.cardKeys == s.cardKeys[key := s'.cardKeys[key]]
                  && s'.cardKeys[key] == CardKey(r.product, result.value, if r.status.Some? then r.status.value else CardUnused, None, None, None)
                  && (r.plan.Some? ==> result.value == r.plan.value && s'.plans == s.plans))
            && (result.Err? ==> s'.cardKeys == s.cardKeys)
            && (result.Err? <==>
                  key in s.cardKeys || r.product !in s.products || (r.plan.Some? && r.plan.value !in s.plans))
  {
    hide PlanCode, PlanFor, SpecOf;
  }

  /** The code as text: what is asked for, spelled out and joined by underscores. */
  lemma CodeText(p: PlanSpec)
    ensures p.duration == Hour ==> PlanCode(p) == "card_hour_" + (Numeral(p.hours) + ("_" + DeviceSuffix(p)))
    ensures p.duration == Day ==> PlanCode(p) == "card_day_" + DeviceSuffix(p)
    ensures p.duration == Week ==> PlanCode(p) == "card_week_" + DeviceSuffix(p)
    ensures p.duration == Month ==> PlanCode(p) == "card_month_" + DeviceSuffix(p)
    ensures p.duration == Quarter ==> PlanCode(p) == "card_quarter_" + DeviceSuffix(p)
    ensures p.duration == Year ==> PlanCode(p) == "card_year_" + DeviceSuffix(p)
  {
    hide Numeral, DeviceSuffix;
    var suffix := if p.duration == Hour then Numeral(p.hours) + ("_" + DeviceSuffix(p)) else DeviceSuffix(p);
    assert "card_" + (DurationName(p.duration) + ("_" + suffix)) == ("card_" + DurationName(p.duration) + "_") + suffix;
  }

  lemma SuffixText(p: PlanSpec)
    ensures DeviceSuffix(p) == "d" + Numeral(p.maxDevices) + "_c" + Numeral(p.maxConcurrency) + (if p.policy == KickOldest then "_kick" else "_deny")
  {
    hide Numeral;
  }
}
