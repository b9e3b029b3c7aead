/** The database rows the public API works on (server/prisma/schema.prisma), the
    lease tokens the server signs, and the clock.

    Every table is a map from a unique column of its rows: licenses by key hash,
    devices by device code, leases by token id, card keys by their text. */
module Rows {
  import opened VersionService
  import opened Wrappers

  type Time = int
  type TokenId = nat

  datatype ErrorCode =
    | LicenseNotFound | LicenseInactive | LicenseExpired | LicenseBanned
    | ProductMismatch | PlanInvalid
    | DeviceLimitReached | DeviceGone
    | LeaseInvalid | LeaseExpired
    | ForceUpgradeRequired
    | InternalError

  datatype Result<+T> = Ok(value: T) | Err(code: ErrorCode)

  // The two ways a license key was hashed over time; both are injective.
  datatype KeyHash = Hmac(key: string) | LegacySha(key: string)

  datatype PlanRef = PlanRef(product: string, code: string)

  datatype Flag = FlagBool(b: bool) | FlagNumber(n: int) | FlagText(t: string) | FlagNull
  type Flags = map<string, Flag>

  datatype BindingPolicy = DenyNew | KickOldest
  datatype LicenseStatus = LicenseActive | LicenseInactiveStatus | LicenseExpiredStatus | LicenseBannedStatus | LicenseSuspended
  datatype DeviceStatus = DeviceActive | DeviceRemoved | DeviceBanned
  datatype LeaseStatus = LeaseActive | LeaseExpiredStatus | LeaseRevoked
  datatype CardKeyStatus = CardUnused | CardIssued | CardRedeemed | CardDisabled

  datatype Product = Product(active: bool, policy: Option<VersionPolicy>)

  datatype Plan = Plan(active: bool, durationDays: int, maxDevices: int, maxConcurrency: int, flags: Flags)

  datatype License = License(
    product: string,
    plan: PlanRef,
    status: LicenseStatus,
    activateAt: Option<Time>,
    expireAt: Option<Time>,
    maxDevicesOverride: Option<int>,
    maxConcurrencyOverride: Option<int>,
    flagsOverride: Option<Flags>)

  datatype CardKey = CardKey(
    product: string,
    plan: PlanRef,
    status: CardKeyStatus,
    license: Option<KeyHash>,
    expireAt: Option<Time>,
    redeemedAt: Option<Time>)

  datatype Device = Device(license: KeyHash, status: DeviceStatus, lastSeenAt: Time, unbindCount: nat, appVersion: string)

  datatype Lease = Lease(license: KeyHash, device: string, issuedAt: Time, expireAt: Time, status: LeaseStatus, clientVersion: string)

  // The payload inside a lease token. Its signature verifies exactly when the
  // server signed this very payload.
  datatype Token = Token(jti: TokenId, license: KeyHash, device: string, iat: Time, exp: Time)

  datatype Db = Db(
    products: map<string, Product>,
    plans: map<PlanRef, Plan>,
    licenses: map<KeyHash, License>,
    cardKeys: map<string, CardKey>,
    devices: map<string, Device>,
    leases: map<TokenId, Lease>,
    signed: set<Token>,
    now: Time,
    ttlMs: nat)

  /** The tables behind the database client the services share. */
  class Database {
    var products: map<string, Product>
    var plans: map<PlanRef, Plan>
    var licenses: map<KeyHash, License>
    var cardKeys: map<string, CardKey>
    var devices: map<string, Device>
    var leases: map<TokenId, Lease>
    ghost var signed: set<Token>
    var now: Time
    var ttlMs: nat

    ghost function State(): Db
      reads this
    {
      Db(products, plans, licenses, cardKeys, devices, leases, signed, now, ttlMs)
    }
  }

  /** Foreign keys among the rows. */
  ghost predicate ForeignKeys(s: Db) {
    && (forall h | h in s.licenses :: s.licenses[h].product in s.products && s.licenses[h].plan in s.plans)
    && (forall k | k in s.cardKeys ::
          && s.cardKeys[k].product in s.products
          && s.cardKeys[k].plan in s.plans
          && (s.cardKeys[k].license.Some? ==> s.cardKeys[k].license.value in s.licenses))
    && (forall d | d in s.devices :: s.devices[d].license in s.licenses)
    && (forall l | l in s.leases :: s.leases[l].license in s.licenses && s.leases[l].device in s.devices)
  }
}
