/** What the client shows and does after each call, told on the server's rows and the
    clock (sdk-electron/src/license-client.ts and heartbeat-scheduler.ts). */
module SdkOutcomes {
  import opened Rows
  import opened Wrappers
  import opened LeaseService
  import opened LicenseService
  import opened LicenseApi
  import opened Runs
  import opened SdkClient
  import opened ApiContract

  /** A failed call leaves cache and gate alone, and the state says why. */
  predicate FailsWith(c: Sdk, c': Sdk, status: SdkStatus, code: Code) {
    && c'.cfg == c.cfg && c'.cache == c.cache && c'.gate == c.gate
    && c'.state.status == status && c'.state.code == Some(code)
    && c.cache.Some? && c'.state.flags == c.cache.value.flags
  }

  /** The timer as it was. */
  predicate GoesOn(c: Sdk, c': Sdk) {
    c'.ticking == c.ticking
  }

  lemma RefusedTick(s: Db, c: Sdk, ch: IssueChoice, code: ErrorCode)
    requires SdkFits(s, c) && c.cache.Some?
    requires Heartbeat(s, c.cache.value.token, c.cfg.product, c.cfg.device, c.cfg.appVersion, ch).1 == Err(code)
    ensures var c' := ClientTick(s, c, true, ch).1;
            && FailsWith(c, c', MapCode(Refused(code)), Refused(code))
            && c'.ticking == (c.ticking && !StopsTimer(Refused(code))) && c'.state.expireAt == None
  {
    hide Heartbeat, MapCode, StopsTimer;
  }

  /** Which refusals stop the timer, and what they are shown as. */
  lemma CodesShown()
    ensures MapCode(Refused(LicenseBanned)) == Banned && StopsTimer(Refused(LicenseBanned))
    ensures MapCode(Refused(LicenseExpired)) == Expired && StopsTimer(Refused(LicenseExpired))
    ensures MapCode(Refused(LeaseExpired)) == Expired && StopsTimer(Refused(LeaseExpired))
    ensures MapCode(Refused(DeviceGone)) == Removed && StopsTimer(Refused(DeviceGone))
    ensures MapCode(Refused(LeaseInvalid)) == Invalid && StopsTimer(Refused(LeaseInvalid))
    ensures MapCode(Unreachable) == NetworkError && !StopsTimer(Unreachable)
    ensures forall code | code in {LicenseNotFound, LicenseInactive, ProductMismatch, PlanInvalid, DeviceLimitReached, ForceUpgradeRequired, InternalError} ::
              MapCode(Refused(code)) == Invalid && !StopsTimer(Refused(code))
  { }

  /** What each answer to a heartbeat makes of the client. */
  lemma TickByAnswer(s: Db, c: Sdk, ch: IssueChoice)
    requires SdkFits(s, c) && c.cache.Some?
    ensures var r := Heartbeat(s, c.cache.value.token, c.cfg.product, c.cfg.device, c.cfg.appVersion, ch).1;
            var c' := ClientTick(s, c, true, ch).1;
            && (r == Err(LicenseBanned) ==> FailsWith(c, c', Banned, Refused(LicenseBanned)) && !c'.ticking)
            && (r == Err(LicenseExpired) ==> FailsWith(c, c', Expired, Refused(LicenseExpired)) && !c'.ticking)
            && (r == Err(LeaseExpired) ==> FailsWith(c, c', Expired, Refused(LeaseExpired)) && !c'.ticking)
            && (r == Err(LeaseInvalid) ==> FailsWith(c, c', Invalid, Refused(LeaseInvalid)) && !c'.ticking)
            && (r.Err? && r.code in {LicenseInactive, ProductMismatch, PlanInvalid, ForceUpgradeRequired, DeviceLimitReached} ==>
                  FailsWith(c, c', Invalid, Refused(r.code)) && GoesOn(c, c'))
            && (r.Ok? ==>
                  GoesOn(c, c') && c'.cache == Some(Cache(r.value.token, r.value.expireAt, c.cfg.device, r.value.flags)) && c'.gate == r.value.flags
                  && c'.state == SdkState(SdkStatus.Active, None, r.value.flags, Some(r.value.expireAt)))
  {
    CodesShown();
    hide SdkFits, Heartbeat, ClientTick, MapCode, StopsTimer, FailsWith;
    var r := Heartbeat(s, c.cache.value.token, c.cfg.product, c.cfg.device, c.cfg.appVersion, ch).1;
    if r.Err? { RefusedTick(s, c, ch, r.code); } else { GrantedTick(s, c, ch); }
  }

  /** A heartbeat with a good token that is refused, row by row: a banned or an expired
      license stops the timer; a suspended one, another or a closed product, a closed
      plan, a refused version and a full limit do not. */
  lemma TickRefused(s: Db, c: Sdk, ch: IssueChoice, m: int)
    requires Inv(s) && SdkFits(s, c) && c.cache.Some? && TokenGood(s, c.cache.value.token, c.cfg.device)
    requires ConcurrencyLimit(s, c.cache.value.token.license, m)
    ensures var lic, product, c' := c.cache.value.token.license, c.cfg.product, ClientTick(s, c, true, ch).1;
            var good := LicenseGood(s, lic, product);
            && (Fits(s, lic, product) && s.licenses[lic].status == LicenseBannedStatus ==>
                  FailsWith(c, c', Banned, Refused(LicenseBanned)) && !c'.ticking)
            && (Fits(s, lic, product) && s.licenses[lic].status == LicenseActive && Lapsed(s, lic) ==>
                  FailsWith(c, c', Expired, Refused(LicenseExpired)) && !c'.ticking)
            && (Fits(s, lic, product) && s.licenses[lic].status in {LicenseInactiveStatus, LicenseExpiredStatus, LicenseSuspended} ==>
                  FailsWith(c, c', Invalid, Refused(LicenseInactive)) && GoesOn(c, c'))
            && (!Fits(s, lic, product) ==> FailsWith(c, c', Invalid, Refused(ProductMismatch)) && GoesOn(c, c'))
            && (Sound(s, lic, product) && !good ==> FailsWith(c, c', Invalid, Refused(PlanInvalid)) && GoesOn(c, c'))
            && (good && VersionRefused(s, product, c.cfg.appVersion) ==>
                  FailsWith(c, c', Invalid, Refused(ForceUpgradeRequired)) && GoesOn(c, c'))
            && (good && !VersionRefused(s, product, c.cfg.appVersion) && !MayLease(s, lic, m, c.cfg.device) ==>
                  FailsWith(c, c', Invalid, Refused(DeviceLimitReached)) && GoesOn(c, c'))
  {
    hide *;
    var t, d := c.cache.value.token, c.cfg.device;
    TokenHasLicense(s, t, d);
    HeartbeatCodes(s, t, c.cfg.product, d, c.cfg.appVersion, m, ch);
    TickByAnswer(s, c, ch);
  }

  lemma TokenHasLicense(s: Db, t: Token, d: string)
    requires Inv(s) && TokenGood(s, t, d)
    ensures t.license in s.licenses
  { }

  /** In every other case the client is renewed: a new token for one lifetime, the flags
      of the rows, the status active, and the timer as it was. */
  lemma TickRenews(s: Db, c: Sdk, ch: IssueChoice, m: int)
    requires Inv(s) && SdkFits(s, c) && c.cache.Some? && TokenGood(s, c.cache.value.token, c.cfg.device)
    requires LicenseGood(s, c.cache.value.token.license, c.cfg.product)
    requires !VersionRefused(s, c.cfg.product, c.cfg.appVersion)
    requires ConcurrencyLimit(s, c.cache.value.token.license, m)
    requires MayLease(s, c.cache.value.token.license, m, c.cfg.device)
    ensures var lic, c' := c.cache.value.token.license, ClientTick(s, c, true, ch).1;
            && GoesOn(c, c') && FlagsOf(s, lic, c'.gate)
            && c'.cache == Some(Cache(Token(ch.jti, lic, c.cfg.device, s.now, s.now + s.ttlMs), s.now + s.ttlMs, c.cfg.device, c'.gate))
            && c'.state == SdkState(SdkStatus.Active, None, c'.gate, Some(s.now + s.ttlMs))
  {
    hide *;
    HeartbeatAnswer(s, c.cache.value.token, c.cfg.product, c.cfg.device, c.cfg.appVersion, m, ch);
    TickByAnswer(s, c, ch);
  }

  lemma GrantedTick(s: Db, c: Sdk, ch: IssueChoice)
    requires SdkFits(s, c) && c.cache.Some?
    requires Heartbeat(s, c.cache.value.token, c.cfg.product, c.cfg.device, c.cfg.appVersion, ch).1.Ok?
    ensures var reply := Heartbeat(s, c.cache.value.token, c.cfg.product, c.cfg.device, c.cfg.appVersion, ch).1.value;
            ClientTick(s, c, true, ch).1 ==
              c.(cache := Some(Cache(reply.token, reply.expireAt, c.cfg.device, reply.flags)), gate := reply.flags,
                 state := SdkState(SdkStatus.Active, None, reply.flags, Some(reply.expireAt)))
  {
    hide Heartbeat;
  }

  /** Without a good token the timer stops; a late token shows as expired, any other as
      invalid. Without the server it goes on; without a cache it stops. */
  lemma OtherTicks(s: Db, c: Sdk, ch: IssueChoice)
    requires Inv(s) && SdkFits(s, c)
    ensures c.cache.None? ==> ClientTick(s, c, true, ch).1 == c.(ticking := false, state := SdkState(Inactive, None, map[], None))
    ensures c.cache.None? ==> ClientTick(s, c, false, ch).1 == ClientTick(s, c, true, ch).1
    ensures c.cache.Some? ==>
              var c' := ClientTick(s, c, false, ch).1; FailsWith(c, c', NetworkError, Unreachable) && GoesOn(c, c')
    ensures c.cache.Some? && !TokenGood(s, c.cache.value.token, c.cfg.device) ==>
              var c' := ClientTick(s, c, true, ch).1;
              && !c'.ticking
              && if TokenLate(s, c.cache.value.token, c.cfg.device) then FailsWith(c, c', Expired, Refused(LeaseExpired))
                 else FailsWith(c, c', Invalid, Refused(LeaseInvalid))
  {
    if c.cache.Some? && !TokenGood(s, c.cache.value.token, c.cfg.device) {
      var t, d := c.cache.value.token, c.cfg.device;
      InvForeignKeys(s);
      TokenAnswer(s, t, d);
      HeartbeatGateAnswer(s, t, c.cfg.product, d, c.cfg.appVersion);
      CodesShown();
      assert c.cache.value.device == d && t in s.signed;
      hide Inv, ForeignKeys, SdkFits, TokenGood, TokenLate, VersionRefused, HeartbeatGate, Validate, MapCode, StopsTimer, LicenseGood, ClientTick, FailsWith;
      RefusedTick(s, c, ch, Validate(s, t, d).1.code);
      hide Heartbeat;
    }
  }

  // ---------------------------------------------------------------------------
  // A banned license

  /** Only an admin changes the status of a license, and nobody its product or plan. */
  lemma StepKeepsStatus(s: Db, e: Event, lic: KeyHash)
    requires lic in s.licenses && !(e.SetLicenseStatus? && e.license == lic)
    ensures var s' := Step(s, e);
            lic in s'.licenses && s'.licenses[lic].status == s.licenses[lic].status && s'.licenses[lic].product == s.licenses[lic].product
            && s'.products == s.products
  {
    hide Activate, Heartbeat, Verify, ValidateLicense;
    match e
    case ActivateCall(product, key, d, v, c) => ActivateKeepsStatus(s, product, key, d, v, c, lic);
    case DeactivateCall(product, key, d) => ValidateKeepsStatus(s, product, key, lic);
    case _ =>
  }

  lemma ValidateKeepsStatus(s: Db, product: string, key: string, lic: KeyHash)
    requires lic in s.licenses
    ensures var s' := ValidateLicense(s, product, key).0; lic in s'.licenses && s'.licenses[lic] == s.licenses[lic] && s'.products == s.products
  {
    hide EnsureValid, CardProblem, NewLicense;
  }

  lemma ActivateKeepsStatus(s: Db, product: string, key: string, d: string, v: string, c: Choices, lic: KeyHash)
    requires lic in s.licenses
    ensures var s' := Activate(s, product, key, d, v, c).0;
            lic in s'.licenses && s'.licenses[lic].status == s.licenses[lic].status && s'.licenses[lic].product == s.licenses[lic].product
            && s'.products == s.products
  {
    hide ValidateLicense, Bind, Renew, FeatureFlags;
    ValidateKeepsStatus(s, product, key, lic);
  }

  predicate LeavesStatus(es: seq<Event>, lic: KeyHash) {
    forall i | 0 <= i < |es| :: !(es[i].SetLicenseStatus? && es[i].license == lic)
  }

  lemma {:induction false} RunKeepsStatus(s: Db, es: seq<Event>, lic: KeyHash)
    requires lic in s.licenses && LeavesStatus(es, lic)
    ensures var s' := Run(s, es);
            lic in s'.licenses && s'.licenses[lic].status == s.licenses[lic].status && s'.licenses[lic].product == s.licenses[lic].product
            && s'.products == s.products
    decreases |es|
  {
    hide Step;
    if es != [] {
      StepKeepsStatus(s, es[0], lic);
      RunKeepsStatus(Step(s, es[0]), es[1..], lic);
    }
  }

  /** As long as no admin touches the status of a banned license, every heartbeat of it
      that reaches the server is refused and stops the timer. */
  lemma BannedStopsEveryTick(s: Db, es: seq<Event>, c: Sdk, ch: IssueChoice)
    requires Inv(s) && ValidRun(s, es) && SdkFits(Run(s, es), c) && c.cache.Some?
    requires Fits(s, c.cache.value.token.license, c.cfg.product) && s.licenses[c.cache.value.token.license].status == LicenseBannedStatus
    requires LeavesStatus(es, c.cache.value.token.license)
    ensures var s1 := Run(s, es);
            var c' := ClientTick(s1, c, true, ch).1;
            && !c'.ticking && c'.state.status in {Banned, Expired, Invalid}
            && Heartbeat(s1, c.cache.value.token, c.cfg.product, c.cfg.device, c.cfg.appVersion, ch).1.Err?
            && (TokenGood(s1, c.cache.value.token, c.cfg.device) ==> FailsWith(c, c', Banned, Refused(LicenseBanned)))
  {
    var s1, t := Run(s, es), c.cache.value.token;
    RunKeepsInv(s, es);
    RunKeepsStatus(s, es, t.license);
    InvForeignKeys(s1);
    KnownLimit(s1, t.license);
    hide Run, ValidRun, Inv, ForeignKeys, ClientTick, Heartbeat, TokenGood, VersionRefused, MayLease, FlagsOf, SdkFits, TokenLate;
    HeartbeatAnswer(s1, t, c.cfg.product, c.cfg.device, c.cfg.appVersion, MaxConcurrency(s1, t.license), ch);
    if TokenGood(s1, t, c.cfg.device) {
      TickRefused(s1, c, ch, MaxConcurrency(s1, t.license));
    } else {
      OtherTicks(s1, c, ch);
    }
  }

  lemma KnownLimit(s: Db, lic: KeyHash)
    requires ForeignKeys(s) && lic in s.licenses
    ensures Known(s, lic) && ConcurrencyLimit(s, lic, MaxConcurrency(s, lic))
  { }

  // ---------------------------------------------------------------------------
  // Starting up

  /** Before its expiry a cached lease is valid; for `graceHours` after it, in grace. */
  lemma LocalVerdict(cache: Option<Cache>, graceHours: int, clock: Time)
    ensures var local := Check(cache, graceHours, clock);
            && (local == Missing <==> cache.None?)
            && (local == Valid <==> cache.Some? && clock < cache.value.expireAt)
            && (local == InGrace <==> cache.Some? && cache.value.expireAt <= clock < cache.value.expireAt + graceHours * 3_600_000)
  { }

  /** A process start shows the stored flags, reports inactive, and has no timer. */
  lemma RestartShows(cfg: Config, cache: Option<Cache>)
    ensures var c := Started(cfg, cache);
            && c.state.status == Inactive && c.state.code == None && !c.ticking && c.cache == cache && c.cfg == cfg
            && c.gate == c.state.flags && c.gate == (if cache.Some? then cache.value.flags else map[])
            && c.state.expireAt == if cache.Some? then Some(cache.value.expireAt) else None
  { }

  /** Verification at start, without the server: nothing but the state changes. */
  lemma OfflineStartup(s: Db, c: Sdk, clock: Time)
    ensures var (s', c') := ClientVerify(s, c, false, clock);
            && s' == s && c' == c.(state := c'.state)
            && (c.cache.None? ==> c'.state == SdkState(Inactive, None, map[], None))
            && (c.cache.Some? ==>
                  var expireAt := c.cache.value.expireAt;
                  && c'.state.flags == c.cache.value.flags && c'.state.expireAt == Some(expireAt)
                  && (clock < expireAt ==> c'.state.status == NetworkError && c'.state.code == Some(Unreachable))
                  && (expireAt <= clock < expireAt + c.cfg.graceHours * 3_600_000 ==> c'.state.status == Grace && c'.state.code == Some(Unreachable))
                  && (clock >= expireAt && clock >= expireAt + c.cfg.graceHours * 3_600_000 ==> c'.state.status == Expired && c'.state.code == None))
  { }

  /** What each answer to a verification makes of a client whose lease is valid locally. */
  lemma StartupByAnswer(s: Db, c: Sdk, clock: Time)
    requires SdkFits(s, c) && c.cache.Some?
    requires clock < c.cache.value.expireAt || clock < c.cache.value.expireAt + c.cfg.graceHours * 3_600_000
    ensures var r := Verify(s, c.cache.value.token, c.cfg.product, c.cfg.device, c.cfg.appVersion).1;
            var c' := ClientVerify(s, c, true, clock).1;
            && GoesOn(c, c')
            && (r == Err(LicenseBanned) ==> FailsWith(c, c', Banned, Refused(LicenseBanned)))
            && (r == Err(LicenseExpired) ==> FailsWith(c, c', Expired, Refused(LicenseExpired)))
            && (r == Err(LeaseExpired) ==> FailsWith(c, c', Expired, Refused(LeaseExpired)))
            && (r == Err(DeviceGone) ==> FailsWith(c, c', Removed, Refused(DeviceGone)))
            && (r.Err? && r.code in {LeaseInvalid, LicenseInactive, ProductMismatch, PlanInvalid, ForceUpgradeRequired} ==>
                  FailsWith(c, c', Invalid, Refused(r.code)))
            && (r.Ok? ==>
                  && c'.gate == r.value.flags && c'.cache == Some(c.cache.value.(flags := r.value.flags))
                  && c'.state == SdkState(if clock < c.cache.value.expireAt then SdkStatus.Active else Grace, None, r.value.flags, Some(c.cache.value.expireAt)))
  {
    CodesShown();
    hide Verify, MapCode;
  }

  /** Verification at start with a lease that is valid locally, row by row. A success
      takes over the flags of the rows; a failure keeps cache and gate. */
  lemma StartupOutcome(s: Db, c: Sdk, clock: Time)
    requires Inv(s) && SdkFits(s, c) && c.cache.Some? && clock < c.cache.value.expireAt
    requires TokenGood(s, c.cache.value.token, c.cfg.device)
    ensures var lic, product, c' := c.cache.value.token.license, c.cfg.product, ClientVerify(s, c, true, clock).1;
            var good := LicenseGood(s, lic, product);
            var bound := good && s.devices[c.cfg.device].status == DeviceActive;
            && (Fits(s, lic, product) && s.licenses[lic].status == LicenseBannedStatus ==> FailsWith(c, c', Banned, Refused(LicenseBanned)))
            && (Fits(s, lic, product) && s.licenses[lic].status == LicenseActive && Lapsed(s, lic) ==>
                  FailsWith(c, c', Expired, Refused(LicenseExpired)))
            && (Fits(s, lic, product) && s.licenses[lic].status in {LicenseInactiveStatus, LicenseExpiredStatus, LicenseSuspended} ==>
                  FailsWith(c, c', Invalid, Refused(LicenseInactive)))
            && (!Fits(s, lic, product) ==> FailsWith(c, c', Invalid, Refused(ProductMismatch)))
            && (Sound(s, lic, product) && !good ==> FailsWith(c, c', Invalid, Refused(PlanInvalid)))
            && (good && !bound ==> FailsWith(c, c', Removed, Refused(DeviceGone)))
            && (bound && VersionRefused(s, product, c.cfg.appVersion) ==> FailsWith(c, c', Invalid, Refused(ForceUpgradeRequired)))
            && (bound && !VersionRefused(s, product, c.cfg.appVersion) ==>
                  && FlagsOf(s, lic, c'.gate) && c'.cache == Some(c.cache.value.(flags := c'.gate))
                  && c'.state == SdkState(SdkStatus.Active, None, c'.gate, Some(c.cache.value.expireAt)))
            && GoesOn(c, c')
  {
    var t, d := c.cache.value.token, c.cfg.device;
    assert ForeignKeys(s) && t.license in s.licenses && d in s.devices;
    hide *;
    VerifyCodes(s, t, c.cfg.product, d, c.cfg.appVersion);
    VerifyAnswer(s, t, c.cfg.product, d, c.cfg.appVersion);
    StartupByAnswer(s, c, clock);
  }

  /** With a token that is no longer good the server refuses it, in grace or not. */
  lemma StartupRefused(s: Db, c: Sdk, clock: Time)
    requires Inv(s) && SdkFits(s, c) && c.cache.Some? && !TokenGood(s, c.cache.value.token, c.cfg.device)
    requires clock < c.cache.value.expireAt || clock < c.cache.value.expireAt + c.cfg.graceHours * 3_600_000
    ensures var c' := ClientVerify(s, c, true, clock).1;
            if TokenLate(s, c.cache.value.token, c.cfg.device) then FailsWith(c, c', Expired, Refused(LeaseExpired))
            else FailsWith(c, c', Invalid, Refused(LeaseInvalid))
  {
    var t, d := c.cache.value.token, c.cfg.device;
    assert ForeignKeys(s) && t in s.signed;
    hide *;
    TokenAnswer(s, t, d);
    VerifyAnswer(s, t, c.cfg.product, d, c.cfg.appVersion);
    StartupByAnswer(s, c, clock);
  }

  // ---------------------------------------------------------------------------
  // Activating and deactivating

  /** After an activation the client shows what the server granted; after a refused or
      unsent one it is as before. */
  lemma ActivationOutcome(s: Db, c: Sdk, key: string, online: bool, ch: Choices)
    ensures var c' := ClientActivate(s, c, key, online, ch).1;
            var r := Activate(s, c.cfg.product, key, c.cfg.device, c.cfg.appVersion, ch).1;
            if online && r.Ok? then
              && c'.cache == Some(Cache(r.value.token, r.value.expireAt, c.cfg.device, r.value.flags)) && c'.gate == r.value.flags
              && c'.state == SdkState(SdkStatus.Active, None, r.value.flags, Some(r.value.expireAt)) && GoesOn(c, c') && c'.cfg == c.cfg
            else c' == c
  {
    hide Activate;
  }

  /** A deactivation clears the client exactly when there was no cache or the server
      agreed; the timer is left to the next heartbeat. */
  lemma DeactivationOutcome(s: Db, c: Sdk, key: string, online: bool)
    ensures var c' := ClientDeactivate(s, c, key, online).1;
            if c.cache.None? || (online && Deactivate(s, c.cfg.product, key, c.cache.value.device).1.Ok?)
            then c' == Sdk(c.cfg, None, map[], SdkState(Inactive, None, map[], None), c.ticking)
            else c' == c
  {
    hide Deactivate;
  }
}
