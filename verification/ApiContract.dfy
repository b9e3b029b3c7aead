/** What the public API answers and writes, told on the rows alone: limits with their
    overrides, reasons of refusal, replies, redeemed licenses and written rows. */
module ApiContract {
  import opened Rows
  import opened Wrappers
  import opened VersionService
  import opened LeaseService
  import opened DeviceService
  import opened LicenseService
  import opened LicenseApi
  import opened Runs
  import opened ConcurrencyCap
  import opened DeviceCap
  import opened Renewal
  import LeaseEnds

  // ---------------------------------------------------------------------------
  // Rows read directly

  /** The override of the license if it has one, else the number of its plan. */
  predicate DeviceLimit(s: Db, lic: KeyHash, n: int) {
    lic in s.licenses && s.licenses[lic].plan in s.plans &&
    match s.licenses[lic].maxDevicesOverride
    case Some(m) => n == m
    case None => n == s.plans[s.licenses[lic].plan].maxDevices
  }

  predicate ConcurrencyLimit(s: Db, lic: KeyHash, n: int) {
    lic in s.licenses && s.licenses[lic].plan in s.plans &&
    match s.licenses[lic].maxConcurrencyOverride
    case Some(m) => n == m
    case None => n == s.plans[s.licenses[lic].plan].maxConcurrency
  }

  /** The plan's flags name the policy to kick; the license's override of flags is not read. */
  predicate KicksByPlan(s: Db, lic: KeyHash)
    requires lic in s.licenses && s.licenses[lic].plan in s.plans
  {
    var flags := s.plans[s.licenses[lic].plan].flags;
    "deviceBindingPolicy" in flags && flags["deviceBindingPolicy"] == FlagText("kick_oldest")
  }

  function BoundDevices(s: Db, lic: KeyHash): set<string> {
    set d | d in s.devices && s.devices[d].license == lic && s.devices[d].status == DeviceActive
  }

  function DevicesWithLease(s: Db, lic: KeyHash): set<string> {
    set d | d in s.devices && s.devices[d].status == DeviceActive
            && exists l :: l in s.leases && s.leases[l].license == lic && s.leases[l].device == d
                           && s.leases[l].status == LeaseActive && s.leases[l].expireAt > s.now
  }

  predicate ProductOpen(s: Db, product: string) {
    product in s.products && s.products[product].active
  }

  predicate Lapsed(s: Db, lic: KeyHash)
    requires lic in s.licenses
  {
    s.licenses[lic].expireAt.Some? && s.licenses[lic].expireAt.value <= s.now
  }

  predicate LicenseGood(s: Db, lic: KeyHash, product: string) {
    && lic in s.licenses && s.licenses[lic].plan in s.plans
    && s.licenses[lic].product == product && ProductOpen(s, product)
    && s.licenses[lic].status == LicenseActive && !Lapsed(s, lic)
    && s.plans[s.licenses[lic].plan].active
  }

  predicate TokenGood(s: Db, t: Token, d: string) {
    && t in s.signed && t.jti in s.leases && d in s.devices
    && s.leases[t.jti].status == LeaseActive
    && s.leases[t.jti].device == d && t.device == d && s.leases[t.jti].license == t.license
    && s.leases[t.jti].expireAt > s.now && t.exp > s.now
  }

  ghost predicate VersionRefused(s: Db, product: string, v: string)
    requires product in s.products
  {
    var policy := s.products[product].policy;
    policy.Some? && policy.value.forceUpgrade && Less(Parts(v), Parts(policy.value.minSupportedVersion))
  }

  /** The key's license: by the current hash, by the legacy one only without it. */
  predicate LicenseOfKey(s: Db, key: string, lic: KeyHash) {
    lic in s.licenses && (lic == Hmac(key) || (lic == LegacySha(key) && Hmac(key) !in s.licenses))
  }

  // ---------------------------------------------------------------------------
  // Limits

  lemma LimitsOnRows(s: Db, lic: KeyHash)
    requires Known(s, lic)
    ensures DeviceLimit(s, lic, MaxDevices(s, lic)) && ConcurrencyLimit(s, lic, MaxConcurrency(s, lic))
    ensures PolicyOf(s, lic) == KickOldest <==> KicksByPlan(s, lic)
  { }

  lemma SetsOnRows(s: Db, lic: KeyHash)
    ensures ActiveDevices(s, lic) == BoundDevices(s, lic) && LiveDevices(s, lic) == DevicesWithLease(s, lic)
  { }

  /** Binding under the license's own number `n`: a known device needs to be active and
      of this license; a new one is refused exactly when `n` are bound already and none
      can be kicked. What is bound is marked as seen now, with the version sent. */
  lemma BindAnswer(s: Db, lic: KeyHash, n: int, d: string, v: string, kicked: string)
    requires Known(s, lic) && DeviceLimit(s, lic, n)
    requires KickChoiceOk(s, lic, MaxDevices(s, lic), d, PolicyOf(s, lic), kicked)
    ensures var (s', r) := Bind(s, lic, d, v, kicked);
            && (d in s.devices ==> (r == Err(DeviceGone) <==> s.devices[d].license != lic || s.devices[d].status != DeviceActive))
            && (d !in s.devices ==>
                  (r == Err(DeviceLimitReached) <==>
                     |BoundDevices(s, lic)| >= n && (!KicksByPlan(s, lic) || BoundDevices(s, lic) == {})))
            && (r.Err? ==> s' == s && r.code == if d in s.devices then DeviceGone else DeviceLimitReached)
            && (r.Ok? && d in s.devices ==> s'.devices[d] == s.devices[d].(lastSeenAt := s.now, appVersion := v))
            && (r.Ok? && d !in s.devices ==> s'.devices[d] == Device(lic, DeviceActive, s.now, 0, v))
  {
    hide RevokeActive;
    LimitsOnRows(s, lic);
    SetsOnRows(s, lic);
    hide ActiveDevices, MaxDevices, PolicyOf, DeviceLimit, BoundDevices, KicksByPlan;
  }

  /** Issuing under the license's own number `n`: denied exactly when it is positive, the
      plan does not kick, and that many other devices hold a live lease. What is granted
      is one new row and its token. */
  lemma IssueAnswer(s: Db, lic: KeyHash, n: int, d: string, v: string, c: IssueChoice)
    requires Known(s, lic) && ConcurrencyLimit(s, lic, n)
    ensures var (s', r) := Renew(s, lic, d, v, c);
            && (r == Err(DeviceLimitReached) <==> n > 0 && !KicksByPlan(s, lic) && |DevicesWithLease(s, lic) - {d}| >= n)
            && (r.Err? ==> r == Err(DeviceLimitReached))
            && (r.Ok? ==> r.value == Token(c.jti, lic, d, s.now, s.now + s.ttlMs) && s'.signed == s.signed + {r.value})
            && (r.Ok? ==> c.jti in s'.leases && s'.leases[c.jti] == Lease(lic, d, s.now, s.now + s.ttlMs, LeaseActive, v))
            && (r.Err? ==> s'.signed == s.signed)
  {
    hide LiveDevices, ConcurrencyFull, RevokeActive;
    LimitsOnRows(s, lic);
    SetsOnRows(s, lic);
    IssueDeniedIff(s, lic, d, v, MaxConcurrency(s, lic), PolicyOf(s, lic), c);
    hide MaxConcurrency, PolicyOf, KicksByPlan, ConcurrencyLimit, DevicesWithLease;
  }

  /** The cap over runs, with the number read off the rows at the start. */
  lemma CapOverRuns(s: Db, es: seq<Event>, lic: KeyHash, n: int)
    requires Inv(s) && ValidRun(s, es) && Known(s, lic) && DeviceLimit(s, lic, n)
    ensures |BoundDevices(Run(s, es), lic)| <= Max(|BoundDevices(s, lic)|, n) + ReenableCount(s, es, lic)
  {
    RunKeepsLimits(s, es, lic);
    LimitsOnRows(s, lic);
    SetsOnRows(s, lic);
    SetsOnRows(Run(s, es), lic);
    hide Inv, ValidRun, Run, Known, MaxDevices, MaxConcurrency, BoundDevices, ActiveDevices;
    ActiveDevicesBounded(s, es, lic);
  }

  /** The same for accepted tokens and the number of concurrent devices. */
  lemma TokensOverRuns(s: Db, es: seq<Event>, lic: KeyHash, n: int)
    requires Inv(s) && ValidRun(s, es) && Known(s, lic) && ConcurrencyLimit(s, lic, n) && n >= 1
    requires DevicesWithLease(s, lic) == {}
    ensures |AcceptedTokens(Run(s, es), lic)| <= n + ReenableCount(s, es, lic)
  {
    RunKeepsLimits(s, es, lic);
    LimitsOnRows(s, lic);
    SetsOnRows(s, lic);
    hide Inv, ValidRun, Run, Known, MaxDevices, MaxConcurrency, DevicesWithLease, LiveDevices, AcceptedTokens;
    AcceptedTokensBounded(s, es, lic);
  }

  // ---------------------------------------------------------------------------
  // Reasons of refusal

  /** The first thing wrong with a license decides the code. */
  lemma LicenseAnswer(s: Db, lic: KeyHash, product: string)
    requires ForeignKeys(s) && lic in s.licenses
    ensures var r := EnsureValid(s, Some(lic), product);
            var row := s.licenses[lic];
            var fits := row.product == product && ProductOpen(s, product);
            && (r == Ok(lic) <==> LicenseGood(s, lic, product))
            && (r == Err(ProductMismatch) <==> !fits)
            && (r == Err(LicenseBanned) <==> fits && row.status == LicenseBannedStatus)
            && (r == Err(LicenseInactive) <==> fits && row.status in {LicenseInactiveStatus, LicenseExpiredStatus, LicenseSuspended})
            && (r == Err(LicenseExpired) <==> fits && row.status == LicenseActive && Lapsed(s, lic))
            && (r == Err(PlanInvalid) <==> fits && row.status == LicenseActive && !Lapsed(s, lic) && !s.plans[row.plan].active)
  { }

  lemma AllowedAnswer(s: Db, product: string, v: string)
    ensures EnsureAllowed(s, product, v) == Err(ProductMismatch) <==> !ProductOpen(s, product)
    ensures EnsureAllowed(s, product, v) == Err(ForceUpgradeRequired) <==> ProductOpen(s, product) && VersionRefused(s, product, v)
    ensures EnsureAllowed(s, product, v).Ok? <==> ProductOpen(s, product) && !VersionRefused(s, product, v)
  {
    hide Less, Parts;
    if product in s.products && s.products[product].policy.Some? { AllowedIff(s.products[product].policy.value, v); }
  }

  /** Validation of a token: what passes, what is invalid, and what is merely late. Only
      a late one writes, and it writes one status. */
  lemma TokenAnswer(s: Db, t: Token, d: string)
    requires ForeignKeys(s)
    ensures var (s', r) := Validate(s, t, d);
            && (r == Ok(t.jti) <==> TokenGood(s, t, d))
            && (r == Err(LeaseExpired) <==> t in s.signed && TokenLate(s, t, d))
            && (r.Err? ==> r.code in {LeaseInvalid, LeaseExpired})
            && (r != Err(LeaseExpired) ==> s' == s)
            && (r == Err(LeaseExpired) ==>
                  s' == s.(leases := s.leases[t.jti := s.leases[t.jti].(status := LeaseExpiredStatus)]))
  { }

  /** The token's own active lease, presented for its device after its expiry. */
  predicate TokenLate(s: Db, t: Token, d: string) {
    && t.jti in s.leases && s.leases[t.jti].status == LeaseActive
    && s.leases[t.jti].device == d && t.device == d && s.leases[t.jti].license == t.license
    && (s.leases[t.jti].expireAt <= s.now || t.exp <= s.now)
  }

  // ---------------------------------------------------------------------------
  // Replies

  /** A key of the override has the override's value, any other key of the plan the
      plan's, and there is no further key. */
  predicate Merged(flags: Flags, plan: Flags, override: Option<Flags>) {
    && (forall k | override.Some? && k in override.value :: k in flags && flags[k] == override.value[k])
    && (forall k | k in plan && !(override.Some? && k in override.value) :: k in flags && flags[k] == plan[k])
    && (forall k | k in flags :: k in plan || (override.Some? && k in override.value))
  }

  predicate FlagsOf(s: Db, lic: KeyHash, flags: Flags) {
    && lic in s.licenses && s.licenses[lic].plan in s.plans
    && Merged(flags, s.plans[s.licenses[lic].plan].flags, s.licenses[lic].flagsOverride)
  }

  lemma FlagsOnRows(s: Db, lic: KeyHash)
    requires Known(s, lic)
    ensures FlagsOf(s, lic, FeatureFlags(s, lic))
  { }

  /** Verification: exactly what is accepted, the code of the first obstacle, and what
      the reply says. */
  lemma VerifyAnswer(s: Db, t: Token, product: string, d: string, v: string)
    requires ForeignKeys(s)
    ensures var (s', r) := Verify(s, t, product, d, v);
            && (r.Ok? <==>
                  TokenGood(s, t, d) && LicenseGood(s, t.license, product) && s.devices[d].status == DeviceActive
                  && !VersionRefused(s, product, v))
            && (r == Err(DeviceGone) <==>
                  TokenGood(s, t, d) && LicenseGood(s, t.license, product) && s.devices[d].status != DeviceActive)
            && (r == Err(ForceUpgradeRequired) <==>
                  TokenGood(s, t, d) && LicenseGood(s, t.license, product) && s.devices[d].status == DeviceActive
                  && VersionRefused(s, product, v))
            && (TokenGood(s, t, d) && !LicenseGood(s, t.license, product) ==> r == Err(EnsureValid(s, Some(t.license), product).code))
            && (!TokenGood(s, t, d) ==> r == Err(Validate(s, t, d).1.code))
            && s' == Validate(s, t, d).0
            && (r.Ok? ==>
                  && r.value.status == LicenseActive && FlagsOf(s, t.license, r.value.flags)
                  && (r.value.needRefresh <==> s.leases[t.jti].expireAt - s.now < 1_800_000))
  {
    TokenAnswer(s, t, d);
    if TokenGood(s, t, d) {
      LicenseAnswer(s, t.license, product);
      AllowedAnswer(s, product, v);
      if LicenseGood(s, t.license, product) { FlagsOnRows(s, t.license); }
    }
    hide Validate, EnsureValid, EnsureAllowed, FeatureFlags, FlagsOf, VersionRefused;
  }

  /** What `heartbeat` checks before it writes: the device's status is not among it. */
  lemma HeartbeatGateAnswer(s: Db, t: Token, product: string, d: string, v: string)
    requires ForeignKeys(s)
    ensures var (s', r) := HeartbeatGate(s, t, product, d, v);
            && (r.Ok? <==> TokenGood(s, t, d) && LicenseGood(s, t.license, product) && !VersionRefused(s, product, v))
            && (r.Ok? ==> s' == s && r.value == t.license)
            && (r == Err(ForceUpgradeRequired) <==>
                  TokenGood(s, t, d) && LicenseGood(s, t.license, product) && VersionRefused(s, product, v))
            && (TokenGood(s, t, d) && !LicenseGood(s, t.license, product) ==> r == Err(EnsureValid(s, Some(t.license), product).code))
            && (!TokenGood(s, t, d) ==> r == Err(Validate(s, t, d).1.code))
            && s' == Validate(s, t, d).0
  {
    TokenAnswer(s, t, d);
    if TokenGood(s, t, d) {
      LicenseAnswer(s, t.license, product);
      AllowedAnswer(s, product, v);
    }
    hide Validate, EnsureValid, EnsureAllowed, VersionRefused;
  }

  // ---------------------------------------------------------------------------
  // Finding and redeeming

  lemma KeyAnswer(s: Db, key: string)
    ensures FindLicense(s, key).None? <==> forall h | h in s.licenses :: h.key != key
    ensures FindLicense(s, key).Some? ==> LicenseOfKey(s, key, FindLicense(s, key).value)
  {
    if FindLicense(s, key).None? {
      forall h | h in s.licenses ensures h.key != key { assert h == Hmac(h.key) || h == LegacySha(h.key); }
    }
  }

  /** Seconds named by the plan's flags if they are a positive number, else its days. */
  predicate Lasts(plan: Plan, ms: int) {
    if "durationSeconds" in plan.flags && plan.flags["durationSeconds"].FlagNumber? && plan.flags["durationSeconds"].n > 0
    then ms == plan.flags["durationSeconds"].n * 1000
    else ms == plan.durationDays * 86_400_000
  }

  predicate CardFits(s: Db, card: CardKey, product: string) {
    card.product == product && ProductOpen(s, product)
  }

  predicate PlanOpen(s: Db, plan: PlanRef) {
    plan in s.plans && s.plans[plan].active
  }

  predicate CardOpen(card: CardKey) {
    card.status == CardUnused || card.status == CardIssued
  }

  predicate CardLapsed(s: Db, card: CardKey) {
    card.expireAt.Some? && card.expireAt.value <= s.now
  }

  /** Redeeming a card key that led to no license yet: what is refused and why. */
  lemma RedeemAnswer(s: Db, product: string, key: string)
    requires key in s.cardKeys && s.cardKeys[key].license.None?
    ensures var card, (s', r) := s.cardKeys[key], Redeem(s, product, key);
            var fits := CardFits(s, card, product);
            && (r.Ok? <==> fits && PlanOpen(s, card.plan) && CardOpen(card) && !CardLapsed(s, card) && Hmac(key) !in s.licenses)
            && (r == Err(ProductMismatch) <==> !fits)
            && (r == Err(PlanInvalid) <==> fits && !PlanOpen(s, card.plan))
            && (r == Err(LicenseInactive) <==> fits && PlanOpen(s, card.plan) && !CardOpen(card))
            && (r == Err(LicenseExpired) <==> fits && PlanOpen(s, card.plan) && CardOpen(card) && CardLapsed(s, card))
            && (r.Err? ==> s' == s)
  {
    hide NewLicense;
  }

  /** What a redemption writes: one license with the card's product and plan and the
      plan's duration from now, the card's link to it, and nothing else. */
  lemma RedeemWrites(s: Db, product: string, key: string, ms: int)
    requires key in s.cardKeys && s.cardKeys[key].license.None? && Redeem(s, product, key).1.Ok?
    requires s.cardKeys[key].plan in s.plans && Lasts(s.plans[s.cardKeys[key].plan], ms)
    ensures var card, (s', r) := s.cardKeys[key], Redeem(s, product, key);
            && r == Ok(Some(Hmac(key))) && Hmac(key) !in s.licenses
            && s' == s.(
                 licenses := s.licenses[Hmac(key) := License(card.product, card.plan, LicenseActive, None, Some(s.now + ms), None, None, None)],
                 cardKeys := s.cardKeys[key :=
                   CardKey(card.product, card.plan, CardRedeemed, Some(Hmac(key)), card.expireAt, Some(s.now))])
  { }

  /** Validation of a key: an existing license is judged as it stands; without one a
      known card key is redeemed, or leads to the license it is linked to; without
      either there is no license. Redeeming first and validating again is the same. */
  lemma ValidateKeyAnswer(s: Db, product: string, key: string)
    ensures var (s', r) := ValidateLicense(s, product, key);
            && (forall lic | LicenseOfKey(s, key, lic) :: s' == s && r == EnsureValid(s, Some(lic), product))
            && ((forall h | h in s.licenses :: h.key != key) && key !in s.cardKeys ==> s' == s && r == Err(LicenseNotFound))
            && ((forall h | h in s.licenses :: h.key != key) && key in s.cardKeys ==>
                  s' == Redeem(s, product, key).0
                  && r == match Redeem(s, product, key).1 case Err(code) => Err(code) case Ok(found) => EnsureValid(s', found, product))
  {
    assert EnsureValid(s, None, product) == Err(LicenseNotFound);
    hide EnsureValid, CardProblem, NewLicense;
    KeyAnswer(s, key);
  }

  // ---------------------------------------------------------------------------
  // Activation

  /** The device may be bound: it is bound already, or there is room, or room is made. */
  predicate MayBind(s: Db, lic: KeyHash, n: int, d: string)
    requires lic in s.licenses && s.licenses[lic].plan in s.plans
  {
    if d in s.devices then s.devices[d].license == lic && s.devices[d].status == DeviceActive
    else |BoundDevices(s, lic)| < n || (KicksByPlan(s, lic) && BoundDevices(s, lic) != {})
  }

  /** The device may be leased to: room among the others, or room is made. */
  predicate MayLease(s: Db, lic: KeyHash, m: int, d: string)
    requires lic in s.licenses && s.licenses[lic].plan in s.plans
  {
    m <= 0 || KicksByPlan(s, lic) || |DevicesWithLease(s, lic) - {d}| < m
  }

  lemma BoundKeepsOthers(s: Db, lic: KeyHash, d: string, v: string, kicked: string)
    requires Inv(s) && Known(s, lic) && !KicksByPlan(s, lic)
    ensures DevicesWithLease(Bind(s, lic, d, v, kicked).0, lic) - {d} == DevicesWithLease(s, lic) - {d}
  {
    LimitsOnRows(s, lic);
    var s' := Bind(s, lic, d, v, kicked).0;
    assert s'.leases == s.leases && forall e | e != d :: e in s'.devices <==> e in s.devices by {
      hide ActiveDevices, MaxDevices, Inv, RevokeActive;
    }
    hide ActiveDevices, MaxDevices, RevokeActive;
    forall e | e != d ensures e in DevicesWithLease(s', lic) <==> e in DevicesWithLease(s, lic) { }
  }

  /** Activation with the key of a license, on the rows before the call. */
  lemma ActivateAnswer(s: Db, product: string, key: string, lic: KeyHash, n: int, m: int, d: string, v: string, c: Choices)
    requires Inv(s) && ActivateChoicesOk(s, product, key, d, v, c)
    requires LicenseOfKey(s, key, lic) && DeviceLimit(s, lic, n) && ConcurrencyLimit(s, lic, m)
    ensures var r := Activate(s, product, key, d, v, c).1;
            var good := LicenseGood(s, lic, product);
            && (r.Ok? <==> good && MayBind(s, lic, n, d) && MayLease(s, lic, m, d))
            && (r == Err(DeviceGone) <==> good && d in s.devices && !MayBind(s, lic, n, d))
            && (r == Err(DeviceLimitReached) <==>
                  good && ((d !in s.devices && !MayBind(s, lic, n, d)) || (MayBind(s, lic, n, d) && !MayLease(s, lic, m, d))))
            && (!good ==> r == Err(EnsureValid(s, Some(lic), product).code))
            && (r.Ok? ==>
                  && r.value.token == Token(c.issue.jti, lic, d, s.now, s.now + s.ttlMs)
                  && r.value.expireAt == s.now + s.ttlMs && FlagsOf(s, lic, r.value.flags))
  {
    InvForeignKeys(s);
    LicenseAnswer(s, lic, product);
    ValidateKeyAnswer(s, product, key);
    assert ValidateLicense(s, product, key) == (s, EnsureValid(s, Some(lic), product));
    ActivateComposes(s, product, key, lic, d, v, c);
    if LicenseGood(s, lic, product) {
      hide *;
      GoodActivateAnswer(s, product, key, lic, n, m, d, v, c);
    } else {
      hide ValidateLicense, EnsureValid, LicenseGood, ForeignKeys, Inv;
    }
  }

  /** Past validation: binding, then renewing, then the reply. */
  lemma ActivateComposes(s: Db, product: string, key: string, lic: KeyHash, d: string, v: string, c: Choices)
    requires Known(s, lic)
    ensures ValidateLicense(s, product, key) == (s, Ok(lic)) ==>
              var (s2, r2) := Bind(s, lic, d, v, c.kicked);
              && (ActivateChoicesOk(s, product, key, d, v, c) ==> KickChoiceOk(s, lic, MaxDevices(s, lic), d, PolicyOf(s, lic), c.kicked))
              && (r2.Err? ==> Activate(s, product, key, d, v, c).1 == Err(r2.code))
              && (r2.Ok? ==>
                    Activate(s, product, key, d, v, c).1 ==
                      match Renew(s2, lic, d, v, c.issue).1
                      case Err(code) => Err(code)
                      case Ok(token) => Ok(LeaseReply(token, token.exp, FeatureFlags(s, lic))))
  {
    hide ValidateLicense, GetOrCreate, Issue, KickChoiceOk, IssueChoiceOk, FeatureFlags, MaxDevices, MaxConcurrency, PolicyOf;
  }

  lemma GoodActivateAnswer(s: Db, product: string, key: string, lic: KeyHash, n: int, m: int, d: string, v: string, c: Choices)
    requires Inv(s) && ActivateChoicesOk(s, product, key, d, v, c) && Known(s, lic)
    requires ValidateLicense(s, product, key) == (s, Ok(lic)) && DeviceLimit(s, lic, n) && ConcurrencyLimit(s, lic, m)
    ensures var r := Activate(s, product, key, d, v, c).1;
            && (r.Ok? <==> MayBind(s, lic, n, d) && MayLease(s, lic, m, d))
            && (r == Err(DeviceGone) <==> d in s.devices && !MayBind(s, lic, n, d))
            && (r == Err(DeviceLimitReached) <==>
                  (d !in s.devices && !MayBind(s, lic, n, d)) || (MayBind(s, lic, n, d) && !MayLease(s, lic, m, d)))
            && (r.Ok? ==>
                  && r.value.token == Token(c.issue.jti, lic, d, s.now, s.now + s.ttlMs)
                  && r.value.expireAt == s.now + s.ttlMs && FlagsOf(s, lic, r.value.flags))
  {
    hide Inv, ValidateLicense, Activate, ActivateChoicesOk, Bind, Renew, KickChoiceOk;
    hide DeviceLimit, ConcurrencyLimit, BoundDevices, DevicesWithLease, KicksByPlan, FlagsOf, FeatureFlags, MaxDevices, MaxConcurrency, PolicyOf;
    ActivateComposes(s, product, key, lic, d, v, c);
    FlagsOnRows(s, lic);
    BindAnswer(s, lic, n, d, v, c.kicked);
    var s2 := Bind(s, lic, d, v, c.kicked).0;
    SameLicenseRows(s, s2, lic, n, m);
    IssueAnswer(s2, lic, m, d, v, c.issue);
    if !KicksByPlan(s, lic) { BoundKeepsOthers(s, lic, d, v, c.kicked); }
  }

  lemma SameLicenseRows(s: Db, s': Db, lic: KeyHash, n: int, m: int)
    requires s' == s.(devices := s'.devices, leases := s'.leases) && Known(s, lic)
    ensures Known(s', lic) && DeviceLimit(s', lic, n) == DeviceLimit(s, lic, n) && ConcurrencyLimit(s', lic, m) == ConcurrencyLimit(s, lic, m)
    ensures KicksByPlan(s', lic) == KicksByPlan(s, lic)
  { }

  // ---------------------------------------------------------------------------
  // Heartbeat and deactivation

  /** A heartbeat on the rows before the call: when it succeeds, and with what. */
  lemma HeartbeatAnswer(s: Db, t: Token, product: string, d: string, v: string, m: int, c: IssueChoice)
    requires Inv(s) && ConcurrencyLimit(s, t.license, m)
    ensures var r := Heartbeat(s, t, product, d, v, c).1;
            var gate := TokenGood(s, t, d) && LicenseGood(s, t.license, product) && !VersionRefused(s, product, v);
            && (r.Ok? <==> gate && MayLease(s, t.license, m, d))
            && (r == Err(DeviceLimitReached) <==> gate && !MayLease(s, t.license, m, d))
            && (!gate ==> r == Err(HeartbeatGate(s, t, product, d, v).1.code))
            && (r.Ok? ==>
                  && r.value.token == Token(c.jti, t.license, d, s.now, s.now + s.ttlMs)
                  && r.value.expireAt == s.now + s.ttlMs && FlagsOf(s, t.license, r.value.flags))
  {
    InvForeignKeys(s);
    HeartbeatGateAnswer(s, t, product, d, v);
    GateRefusalCodes(s, t, product, d, v);
    hide Inv, ForeignKeys, LicenseGood, TokenGood, VersionRefused, HeartbeatGate, Issue, ConcurrencyFull;
    var r := HeartbeatGate(s, t, product, d, v).1;
    if r.Ok? {
      GateFacts(s, t, product, d, v);
      FlagsOnRows(s, t.license);
      var s2 := Rotated(s, t, d, v);
      SameLicenseRows(s, s2, t.license, 0, m);
      LeaseEnds.RotatedLive(s, t, d, v, t.license);
      SetsOnRows(s, t.license);
      SetsOnRows(s2, t.license);
      hide LiveDevices, DevicesWithLease, Rotated, FeatureFlags, FlagsOf;
      IssueAnswer(s2, t.license, m, d, v, c);
    }
  }

  /** The row of the license fits the call: same product, and that product is open. */
  predicate Fits(s: Db, lic: KeyHash, product: string) {
    lic in s.licenses && s.licenses[lic].product == product && ProductOpen(s, product)
  }

  /** Fitting, active and unexpired. */
  predicate Sound(s: Db, lic: KeyHash, product: string) {
    Fits(s, lic, product) && s.licenses[lic].status == LicenseActive && !Lapsed(s, lic)
  }

  lemma GoodIsSound(s: Db, lic: KeyHash, product: string)
    requires ForeignKeys(s) && lic in s.licenses
    ensures LicenseGood(s, lic, product) <==> Sound(s, lic, product) && PlanOpen(s, s.licenses[lic].plan)
  { }

  /** Every code a heartbeat with a good token can be refused with, and exactly when. */
  lemma HeartbeatCodes(s: Db, t: Token, product: string, d: string, v: string, m: int, c: IssueChoice)
    requires Inv(s) && ConcurrencyLimit(s, t.license, m) && TokenGood(s, t, d)
    ensures var r, lic := Heartbeat(s, t, product, d, v, c).1, t.license;
            var good := LicenseGood(s, lic, product);
            && (r == Err(ProductMismatch) <==> !Fits(s, lic, product))
            && (r == Err(LicenseBanned) <==> Fits(s, lic, product) && s.licenses[lic].status == LicenseBannedStatus)
            && (r == Err(LicenseInactive) <==>
                  Fits(s, lic, product) && s.licenses[lic].status in {LicenseInactiveStatus, LicenseExpiredStatus, LicenseSuspended})
            && (r == Err(LicenseExpired) <==> Fits(s, lic, product) && s.licenses[lic].status == LicenseActive && Lapsed(s, lic))
            && (r == Err(PlanInvalid) <==> Sound(s, lic, product) && !good)
            && (r == Err(ForceUpgradeRequired) <==> good && VersionRefused(s, product, v))
            && (r == Err(DeviceLimitReached) <==> good && !VersionRefused(s, product, v) && !MayLease(s, lic, m, d))
            && (r.Ok? <==> good && !VersionRefused(s, product, v) && MayLease(s, lic, m, d))
  {
    InvForeignKeys(s);
    LicenseAnswer(s, t.license, product);
    GoodIsSound(s, t.license, product);
    HeartbeatAnswer(s, t, product, d, v, m, c);
    HeartbeatGateAnswer(s, t, product, d, v);
    hide Inv, ForeignKeys, TokenGood, LicenseGood, VersionRefused, MayLease, EnsureValid, HeartbeatGate, Heartbeat, FlagsOf, Validate, ConcurrencyLimit, Lapsed, ProductOpen, PlanOpen;
  }

  /** The same for a verification. */
  lemma VerifyCodes(s: Db, t: Token, product: string, d: string, v: string)
    requires ForeignKeys(s) && TokenGood(s, t, d) && t.license in s.licenses
    ensures var r, lic := Verify(s, t, product, d, v).1, t.license;
            var good := LicenseGood(s, lic, product);
            && (r == Err(ProductMismatch) <==> !Fits(s, lic, product))
            && (r == Err(LicenseBanned) <==> Fits(s, lic, product) && s.licenses[lic].status == LicenseBannedStatus)
            && (r == Err(LicenseInactive) <==>
                  Fits(s, lic, product) && s.licenses[lic].status in {LicenseInactiveStatus, LicenseExpiredStatus, LicenseSuspended})
            && (r == Err(LicenseExpired) <==> Fits(s, lic, product) && s.licenses[lic].status == LicenseActive && Lapsed(s, lic))
            && (r == Err(PlanInvalid) <==> Sound(s, lic, product) && !good)
            && (r == Err(DeviceGone) <==> good && s.devices[d].status != DeviceActive)
            && (r == Err(ForceUpgradeRequired) <==> good && s.devices[d].status == DeviceActive && VersionRefused(s, product, v))
            && (r.Ok? <==> good && s.devices[d].status == DeviceActive && !VersionRefused(s, product, v))
  {
    LicenseAnswer(s, t.license, product);
    GoodIsSound(s, t.license, product);
    VerifyAnswer(s, t, product, d, v);
    hide ForeignKeys, LicenseGood, VersionRefused, EnsureValid, Verify, FlagsOf, Validate, Lapsed, ProductOpen, PlanOpen;
  }

  lemma GateRefusalCodes(s: Db, t: Token, product: string, d: string, v: string)
    requires ForeignKeys(s)
    ensures HeartbeatGate(s, t, product, d, v).1 != Err(DeviceLimitReached) && HeartbeatGate(s, t, product, d, v).1 != Err(DeviceGone)
  { }

  /** Deactivation with the key of a good license: which rows change, and how. */
  lemma DeactivateAnswer(s: Db, product: string, key: string, lic: KeyHash, d: string)
    requires ForeignKeys(s) && LicenseOfKey(s, key, lic)
    ensures var (s', r) := Deactivate(s, product, key, d);
            var good := LicenseGood(s, lic, product);
            var active := d in s.devices && s.devices[d].status == DeviceActive;
            && (r.Ok? <==> good && active)
            && (r == Err(DeviceGone) <==> good && !active)
            && (!good ==> r == Err(EnsureValid(s, Some(lic), product).code))
            && (if good && active && s.devices[d].license == lic then
                  && s'.devices == s.devices[d := s.devices[d].(status := DeviceRemoved, unbindCount := s.devices[d].unbindCount + 1)]
                  && s'.leases.Keys == s.leases.Keys
                  && (forall l | l in s.leases ::
                        s'.leases[l] == if s.leases[l].device == d && s.leases[l].status == LeaseActive
                                        then s.leases[l].(status := LeaseRevoked) else s.leases[l])
                  && s' == s.(devices := s'.devices, leases := s'.leases)
                else s' == s)
  {
    LicenseAnswer(s, lic, product);
    ValidateKeyAnswer(s, product, key);
    assert ValidateLicense(s, product, key) == (s, EnsureValid(s, Some(lic), product));
    hide ForeignKeys, ValidateLicense, EnsureValid, LicenseGood;
  }
}
