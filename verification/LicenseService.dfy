/** Looking up, redeeming and validating licenses (server/src/license/license.service.ts). */
module LicenseService {
  import opened Rows
  import opened Wrappers

  // ---------------------------------------------------------------------------
  // Specification

  function PlanOf(s: Db, lic: KeyHash): Plan
    requires lic in s.licenses && s.licenses[lic].plan in s.plans
  {
    s.plans[s.licenses[lic].plan]
  }

  predicate Known(s: Db, lic: KeyHash) {
    lic in s.licenses && s.licenses[lic].plan in s.plans && s.licenses[lic].product in s.products
  }

  function MaxDevices(s: Db, lic: KeyHash): int
    requires Known(s, lic)
  {
    if s.licenses[lic].maxDevicesOverride.Some? then s.licenses[lic].maxDevicesOverride.value else PlanOf(s, lic).maxDevices
  }

  function MaxConcurrency(s: Db, lic: KeyHash): int
    requires Known(s, lic)
  {
    if s.licenses[lic].maxConcurrencyOverride.Some? then s.licenses[lic].maxConcurrencyOverride.value else PlanOf(s, lic).maxConcurrency
  }

  function FlagPolicy(flags: Flags): BindingPolicy {
    if "deviceBindingPolicy" in flags && flags["deviceBindingPolicy"] == FlagText("kick_oldest") then KickOldest else DenyNew
  }

  function PolicyOf(s: Db, lic: KeyHash): BindingPolicy
    requires Known(s, lic)
  {
    FlagPolicy(PlanOf(s, lic).flags)
  }

  function FeatureFlags(s: Db, lic: KeyHash): Flags
    requires Known(s, lic)
  {
    PlanOf(s, lic).flags + (if s.licenses[lic].flagsOverride.Some? then s.licenses[lic].flagsOverride.value else map[])
  }

  const MS_PER_DAY := 24 * 60 * 60 * 1000

  function PlanDurationMs(plan: Plan): int {
    if "durationSeconds" in plan.flags && plan.flags["durationSeconds"].FlagNumber? && plan.flags["durationSeconds"].n > 0
    then plan.flags["durationSeconds"].n * 1000
    else plan.durationDays * MS_PER_DAY
  }

  /** By the current hash, else by the hash older rows still carry. */
  function FindLicense(s: Db, key: string): Option<KeyHash> {
    if Hmac(key) in s.licenses then Some(Hmac(key))
    else if LegacySha(key) in s.licenses then Some(LegacySha(key))
    else None
  }

  function NewLicense(s: Db, card: CardKey): License
    requires card.plan in s.plans
  {
    License(card.product, card.plan, LicenseActive, None, Some(s.now + PlanDurationMs(s.plans[card.plan])), None, None, None)
  }

  /** Why a card key without a license cannot be redeemed, if it cannot. */
  function CardProblem(s: Db, card: CardKey, product: string): Option<ErrorCode> {
    if card.product != product then Some(ProductMismatch)
    else if card.product !in s.products || !s.products[card.product].active then Some(ProductMismatch)
    else if card.plan !in s.plans || !s.plans[card.plan].active then Some(PlanInvalid)
    else if card.status == CardDisabled then Some(LicenseInactive)
    else if card.status == CardRedeemed then Some(LicenseInactive)
    else if card.expireAt.Some? && card.expireAt.value <= s.now then Some(LicenseExpired)
    else None
  }

  /** Creates the license of a fresh card key; the unique key hash may refuse it. */
  function Redeem(s: Db, product: string, key: string): (Db, Result<Option<KeyHash>>) {
    if key !in s.cardKeys then (s, Ok(None))
    else
      var card := s.cardKeys[key];
      if card.license.Some? then (s, Ok(card.license))
      else if CardProblem(s, card, product).Some? then (s, Err(CardProblem(s, card, product).value))
      else if Hmac(key) in s.licenses then (s, Err(InternalError))
      else
        (s.(licenses := s.licenses[Hmac(key) := NewLicense(s, card)],
            cardKeys := s.cardKeys[key := card.(status := CardRedeemed, license := Some(Hmac(key)), redeemedAt := Some(s.now))]),
         Ok(Some(Hmac(key))))
  }

  function EnsureValid(s: Db, found: Option<KeyHash>, product: string): (r: Result<KeyHash>)
    ensures r.Ok? ==> found == Some(r.value) && Known(s, r.value)
  {
    if found.None? || found.value !in s.licenses then Err(LicenseNotFound)
    else
      var license := s.licenses[found.value];
      if !Known(s, found.value) then Err(InternalError)  // excluded by the foreign keys
      else if license.product != product then Err(ProductMismatch)
      else if !s.products[license.product].active then Err(ProductMismatch)
      else if license.status == LicenseBannedStatus then Err(LicenseBanned)
      else if license.status != LicenseActive then Err(LicenseInactive)
      else if license.expireAt.Some? && license.expireAt.value <= s.now then Err(LicenseExpired)
      else if !PlanOf(s, found.value).active then Err(PlanInvalid)
      else Ok(found.value)
  }

  /** A failed validation may still have redeemed the card key. */
  function ValidateLicense(s: Db, product: string, key: string): (out: (Db, Result<KeyHash>))
    ensures out.0 == s.(licenses := out.0.licenses, cardKeys := out.0.cardKeys)
    ensures out.1.Ok? ==> Known(out.0, out.1.value)
  {
    if FindLicense(s, key).Some? then (s, EnsureValid(s, FindLicense(s, key), product))
    else
      var (s1, r) := Redeem(s, product, key);
      if r.Err? then (s1, Err(r.code)) else (s1, EnsureValid(s1, r.value, product))
  }

  // ---------------------------------------------------------------------------
  // The service

  method FindLicenseByKey(db: Database, key: string) returns (found: Option<KeyHash>)
    ensures found.None? <==> forall h | h in db.licenses :: h.key != key
    ensures found.Some? ==> found.value in db.licenses && found.value.key == key
    ensures found.Some? && found.value.LegacySha? ==> Hmac(key) !in db.licenses
    ensures found == FindLicense(db.State(), key)
  {
    if Hmac(key) in db.licenses { return Some(Hmac(key)); }
    if LegacySha(key) in db.licenses { return Some(LegacySha(key)); }
    found := None;
  }

  /** `key` is the card key after trimming and upper-casing. */
  method RedeemCardKey(db: Database, product: string, key: string) returns (r: Result<Option<KeyHash>>)
    requires ForeignKeys(db.State())
    modifies db`licenses, db`cardKeys
    ensures (db.State(), r) == Redeem(old(db.State()), product, key)
  {
    if key !in db.cardKeys { return Ok(None); }
    var cardKey := db.cardKeys[key];
    if cardKey.license.Some? { return Ok(cardKey.license); }
    if cardKey.product != product { return Err(ProductMismatch); }
    if !db.products[cardKey.product].active { return Err(ProductMismatch); }
    if !db.plans[cardKey.plan].active { return Err(PlanInvalid); }
    if cardKey.status == CardDisabled { return Err(LicenseInactive); }
    if cardKey.status == CardRedeemed { return Err(LicenseInactive); }
    if cardKey.expireAt.Some? && cardKey.expireAt.value <= db.now { return Err(LicenseExpired); }

    // the transaction; nothing ran in between, so the second look agrees with the first
    var current := db.cardKeys[key];
    if current.license.Some? { return Ok(current.license); }
    if current.status != CardUnused && current.status != CardIssued { return Err(LicenseInactive); }
    if Hmac(key) in db.licenses { return Err(InternalError); }
    var plan := db.plans[cardKey.plan];
    var license := License(cardKey.product, cardKey.plan, LicenseActive, None, Some(db.now + PlanDurationMs(plan)), None, None, None);
    db.licenses := db.licenses[Hmac(key) := license];
    db.cardKeys := db.cardKeys[key := current.(status := CardRedeemed, license := Some(Hmac(key)), redeemedAt := Some(db.now))];
    r := Ok(Some(Hmac(key)));
  }

  method EnsureValidLicenseRecord(db: Database, found: Option<KeyHash>, product: string) returns (r: Result<KeyHash>)
    requires ForeignKeys(db.State())
    ensures r.Ok? <==>
              && found.Some? && found.value in db.licenses
              && db.licenses[found.value].product == product && db.products[product].active
              && db.licenses[found.value].status == LicenseActive
              && (db.licenses[found.value].expireAt.Some? ==> db.now < db.licenses[found.value].expireAt.value)
              && db.plans[db.licenses[found.value].plan].active
    ensures r.Ok? ==> r.value == found.value
    ensures r == Err(LicenseNotFound) <==> found.None? || found.value !in db.licenses
    ensures r == Err(LicenseBanned) ==> found.Some? && found.value in db.licenses && db.licenses[found.value].status == LicenseBannedStatus
    ensures r == EnsureValid(db.State(), found, product)
  {
    if found.None? || found.value !in db.licenses { return Err(LicenseNotFound); }
    var license := db.licenses[found.value];
    if license.product != product { return Err(ProductMismatch); }
    if !db.products[license.product].active { return Err(ProductMismatch); }
    if license.status == LicenseBannedStatus { return Err(LicenseBanned); }
    if license.status != LicenseActive { return Err(LicenseInactive); }
    if license.expireAt.Some? && license.expireAt.value <= db.now { return Err(LicenseExpired); }
    if !db.plans[license.plan].active { return Err(PlanInvalid); }
    r := Ok(found.value);
  }

  method ValidateLicenseKey(db: Database, product: string, key: string) returns (r: Result<KeyHash>)
    requires ForeignKeys(db.State())
    modifies db`licenses, db`cardKeys
    ensures (db.State(), r) == ValidateLicense(old(db.State()), product, key)
  {
    var found := FindLicenseByKey(db, key);
    if found.None? {
      var redeemed := RedeemCardKey(db, product, key);
      if redeemed.Err? { return Err(redeemed.code); }
      found := redeemed.value;
    }
    r := EnsureValidLicenseRecord(db, found, product);
  }
}
