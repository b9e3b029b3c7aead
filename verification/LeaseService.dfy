/** Issuing, validating and revoking leases (server/src/lease/lease.service.ts). */
module LeaseService {
  import opened Rows
  import opened Wrappers

  // ---------------------------------------------------------------------------
  // Specification

  predicate Unexpired(s: Db, l: TokenId)
    requires l in s.leases
  {
    s.leases[l].status == LeaseActive && s.leases[l].expireAt > s.now
  }

  /** Device `d` is active and holds an unexpired active lease of license `lic`. */
  predicate HoldsLive(s: Db, lic: KeyHash, d: string) {
    && d in s.devices
    && s.devices[d].status == DeviceActive
    && exists l :: l in s.leases && s.leases[l].license == lic && s.leases[l].device == d && Unexpired(s, l)
  }

  function LiveDevices(s: Db, lic: KeyHash): set<string> {
    set d | d in s.devices && HoldsLive(s, lic, d)
  }

  predicate IsOldest(devices: map<string, Device>, among: set<string>, d: string) {
    && d in among && d in devices
    && forall e | e in among && e in devices :: devices[d].lastSeenAt <= devices[e].lastSeenAt
  }

  function RevokeActive(leases: map<TokenId, Lease>, d: string): map<TokenId, Lease> {
    map l | l in leases ::
      if leases[l].device == d && leases[l].status == LeaseActive then leases[l].(status := LeaseRevoked) else leases[l]
  }

  /** The limit is switched on and reached. */
  predicate ConcurrencyFull(s: Db, lic: KeyHash, maxConcurrency: int) {
    maxConcurrency > 0 && |LiveDevices(s, lic)| >= maxConcurrency
  }

  // What the database and the random generator are free to choose while a lease
  // is issued: the fresh token id, and which of several equally old devices goes.
  datatype IssueChoice = IssueChoice(jti: TokenId, victim: string)

  function Grant(s: Db, lic: KeyHash, d: string, clientVersion: string, jti: TokenId): (Db, Result<Token>) {
    var token := Token(jti, lic, d, s.now, s.now + s.ttlMs);
    var lease := Lease(lic, d, s.now, s.now + s.ttlMs, LeaseActive, clientVersion);
    (s.(leases := s.leases[jti := lease], signed := s.signed + {token}), Ok(token))
  }

  function Issue(s: Db, lic: KeyHash, d: string, clientVersion: string, maxConcurrency: int, policy: BindingPolicy, c: IssueChoice): (out: (Db, Result<Token>))
    ensures out.0 == s.(leases := out.0.leases, signed := out.0.signed)
  {
    var s1 := s.(leases := RevokeActive(s.leases, d));
    if !ConcurrencyFull(s1, lic, maxConcurrency) then Grant(s1, lic, d, clientVersion, c.jti)
    else if policy != KickOldest then (s1, Err(DeviceLimitReached))
    else Grant(s1.(leases := RevokeActive(s1.leases, c.victim)), lic, d, clientVersion, c.jti)
  }

  predicate IssueChoiceOk(s: Db, lic: KeyHash, d: string, maxConcurrency: int, policy: BindingPolicy, c: IssueChoice) {
    var s1 := s.(leases := RevokeActive(s.leases, d));
    && c.jti !in s.leases
    && (ConcurrencyFull(s1, lic, maxConcurrency) && policy == KickOldest ==>
          IsOldest(s1.devices, LiveDevices(s1, lic), c.victim))
  }

  function Validate(s: Db, token: Token, deviceCode: string): (out: (Db, Result<TokenId>))
    ensures out.0 == s.(leases := out.0.leases)
    ensures out.1.Ok? ==> out.1.value == token.jti && token.jti in s.leases && out.0 == s && deviceCode in s.devices
  {
    if token !in s.signed then (s, Err(LeaseInvalid))
    else if token.jti !in s.leases || s.leases[token.jti].status != LeaseActive then (s, Err(LeaseInvalid))
    else
      var lease := s.leases[token.jti];
      if lease.device !in s.devices then (s, Err(LeaseInvalid))  // excluded by the foreign keys
      else if lease.device != deviceCode || lease.device != token.device || lease.license != token.license then (s, Err(LeaseInvalid))
      else if lease.expireAt <= s.now || token.exp <= s.now then
        (s.(leases := s.leases[token.jti := lease.(status := LeaseExpiredStatus)]), Err(LeaseExpired))
      else (s, Ok(token.jti))
  }

  function Revoke(s: Db, l: TokenId): Db
    requires l in s.leases
  {
    s.(leases := s.leases[l := s.leases[l].(status := LeaseRevoked)])
  }

  // ---------------------------------------------------------------------------
  // The service

  lemma {:induction false} FreshTokenId(used: set<TokenId>) returns (id: TokenId)
    ensures forall u | u in used :: u < id
  {
    id := 0;
    if used != {} {
      var u :| u in used;
      id := FreshTokenId(used - {u});
      assert forall v | v in used :: v == u || v in used - {u};
      if u >= id { id := u + 1; }
    }
  }

  lemma {:induction false} OldestExists(devices: map<string, Device>, among: set<string>) returns (d: string)
    requires among <= devices.Keys && among != {}
    ensures IsOldest(devices, among, d)
  {
    d :| d in among;
    if among != {d} {
      var e := OldestExists(devices, among - {d});
      if devices[e].lastSeenAt < devices[d].lastSeenAt { d := e; }
    }
  }

  /** `updateMany` on the active leases of one device. */
  method RevokeActiveByDevice(db: Database, d: string)
    modifies db`leases
    ensures db.leases.Keys == old(db.leases).Keys
    ensures forall l | l in old(db.leases) && old(db.leases)[l].device == d :: db.leases[l].status != LeaseActive
    ensures forall l | l in old(db.leases) && !(old(db.leases)[l].device == d && old(db.leases)[l].status == LeaseActive) ::
              db.leases[l] == old(db.leases)[l]
    ensures forall l | l in old(db.leases) && old(db.leases)[l].device == d && old(db.leases)[l].status == LeaseActive ::
              db.leases[l] == old(db.leases)[l].(status := LeaseRevoked)
    ensures db.leases == RevokeActive(old(db.leases), d)
  {
    db.leases := map l | l in db.leases ::
      if db.leases[l].device == d && db.leases[l].status == LeaseActive then db.leases[l].(status := LeaseRevoked) else db.leases[l];
  }

  /** Grouping the unexpired leases of a license by device yields its live devices. */
  lemma LiveByLease(s: Db, lic: KeyHash, rows: set<TokenId>, byDevice: map<string, TokenId>)
    requires forall l :: l in rows <==>
               && l in s.leases && s.leases[l].license == lic && Unexpired(s, l)
               && s.leases[l].device in s.devices && s.devices[s.leases[l].device].status == DeviceActive
    requires forall d | d in byDevice :: byDevice[d] in rows && s.leases[byDevice[d]].device == d
    requires forall l | l in rows :: s.leases[l].device in byDevice
    ensures byDevice.Keys == LiveDevices(s, lic)
  {
    forall d | d in LiveDevices(s, lic) ensures d in byDevice {
      var l :| l in s.leases && s.leases[l].license == lic && s.leases[l].device == d && Unexpired(s, l);
      assert l in rows;
    }
  }

  /** Returns an error, or makes room for one more device. */
  method EnforceConcurrencyLimit(db: Database, lic: KeyHash, maxConcurrency: int, policy: BindingPolicy)
    returns (error: Option<ErrorCode>, ghost victim: string)
    requires maxConcurrency > 0
    modifies db`leases
    ensures ConcurrencyFull(old(db.State()), lic, maxConcurrency) && policy == KickOldest ==>
              IsOldest(db.devices, LiveDevices(old(db.State()), lic), victim)
    ensures error == if ConcurrencyFull(old(db.State()), lic, maxConcurrency) && policy != KickOldest then Some(DeviceLimitReached) else None
    ensures db.leases == if ConcurrencyFull(old(db.State()), lic, maxConcurrency) && policy == KickOldest
                         then RevokeActive(old(db.leases), victim) else old(db.leases)
  {
    hide HoldsLive;
    error, victim := None, "";
    var activeLeases := set l | l in db.leases
                          && db.leases[l].license == lic
                          && db.leases[l].status == LeaseActive && db.leases[l].expireAt > db.now
                          && db.leases[l].device in db.devices && db.devices[db.leases[l].device].status == DeviceActive;
    var activeByDevice: map<string, TokenId> := map[];
    var todo := activeLeases;
    while todo != {}
      invariant todo <= activeLeases
      invariant forall d | d in activeByDevice :: activeByDevice[d] in activeLeases && db.leases[activeByDevice[d]].device == d
      invariant forall l | l in activeLeases - todo :: db.leases[l].device in activeByDevice
      decreases todo
    {
      var l :| l in todo;
      var d := db.leases[l].device;
      if d !in activeByDevice || db.devices[d].lastSeenAt < db.devices[db.leases[activeByDevice[d]].device].lastSeenAt {
        activeByDevice := activeByDevice[d := l];
      }
      todo := todo - {l};
    }
    ghost var live := LiveDevices(db.State(), lic);
    LiveByLease(db.State(), lic, activeLeases, activeByDevice);
    assert |activeByDevice| == |live|;
    if |activeByDevice| < maxConcurrency { return; }
    if policy != KickOldest { return Some(DeviceLimitReached), victim; }
    ghost var some := OldestExists(db.devices, activeByDevice.Keys);
    var oldest :| oldest in activeByDevice.Keys && IsOldest(db.devices, activeByDevice.Keys, oldest);
    victim := oldest;
    RevokeActiveByDevice(db, oldest);
  }

  method IssueLease(db: Database, lic: KeyHash, d: string, clientVersion: string, maxConcurrency: int, policy: BindingPolicy)
    returns (r: Result<Token>, ghost c: IssueChoice)
    modifies db`leases, db`signed
    ensures IssueChoiceOk(old(db.State()), lic, d, maxConcurrency, policy, c)
    ensures (db.State(), r) == Issue(old(db.State()), lic, d, clientVersion, maxConcurrency, policy, c)
  {
    ghost var unused := FreshTokenId(db.leases.Keys);
    assert unused !in db.leases;
    var jti: TokenId :| jti !in db.leases;
    ghost var victim := "";
    RevokeActiveByDevice(db, d);
    if maxConcurrency > 0 {
      var error;
      error, victim := EnforceConcurrencyLimit(db, lic, maxConcurrency, policy);
      if error.Some? { return Err(error.value), IssueChoice(jti, victim); }
    }
    c := IssueChoice(jti, victim);
    var token := Token(jti, lic, d, db.now, db.now + db.ttlMs);
    db.leases := db.leases[jti := Lease(lic, d, db.now, db.now + db.ttlMs, LeaseActive, clientVersion)];
    db.signed := db.signed + {token};
    r := Ok(token);
  }

  method ValidateLease(db: Database, token: Token, signatureOk: bool, deviceCode: string) returns (r: Result<TokenId>)
    requires ForeignKeys(db.State())
    requires signatureOk <==> token in db.signed
    modifies db`leases
    ensures (db.State(), r) == Validate(old(db.State()), token, deviceCode)
  {
    if !signatureOk { return Err(LeaseInvalid); }
    if token.jti !in db.leases || db.leases[token.jti].status != LeaseActive { return Err(LeaseInvalid); }
    var lease := db.leases[token.jti];
    if lease.device != deviceCode || lease.device != token.device || lease.license != token.license { return Err(LeaseInvalid); }
    if lease.expireAt <= db.now || token.exp <= db.now {
      db.leases := db.leases[token.jti := lease.(status := LeaseExpiredStatus)];
      return Err(LeaseExpired);
    }
    r := Ok(token.jti);
  }

  method RevokeLease(db: Database, l: TokenId)
    requires l in db.leases
    modifies db`leases
    ensures db.State() == Revoke(old(db.State()), l)
  {
    db.leases := db.leases[l := db.leases[l].(status := LeaseRevoked)];
  }
}
