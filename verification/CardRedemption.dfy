/** Concurrent redemption of card keys (server/src/license/license.service.ts): every
    read and every transaction of every redeemer is a step of its own, interleaved with
    admin actions. A transaction reads the card and writes it in two steps, so nothing
    is assumed about isolation beyond the unique key hash of licenses. */
module CardRedemption {
  import opened Rows
  import opened Wrappers

  datatype Card = Card(status: CardKeyStatus, license: Option<nat>)

  // Where one call of `validateLicense(key)` stands.
  datatype Redeemer =
    | FindByHash(key: string)
    | FindByLegacyHash(key: string)
    | PreCheck(key: string)
    | ReadInTx(key: string)
    | WriteInTx(key: string)

  datatype Finished = Finished(key: string, result: Result<nat>)

  datatype Shop = Shop(
    licenses: map<nat, KeyHash>,
    cards: map<string, Card>,
    redeemers: map<nat, Redeemer>,
    finished: map<nat, Finished>,
    created: seq<(string, nat)>)   // redemptions that created a license, oldest first

  datatype Move =
    | Begin(who: nat, key: string)
    // `refused` stands for the product, plan and expiry checks; `newId` is an unused row id
    | Next(who: nat, refused: bool, newId: nat)
    | SetStatus(key: string, status: CardKeyStatus)
    | AddCard(key: string, status: CardKeyStatus)
    | AddLicense(key: string, newId: nat)

  predicate HasHash(licenses: map<nat, KeyHash>, h: KeyHash) {
    exists id :: id in licenses && licenses[id] == h
  }

  predicate Allowed(s: Shop, m: Move) {
    match m
    case Begin(who, _) => who !in s.redeemers && who !in s.finished
    case Next(who, _, newId) => who in s.redeemers && newId !in s.licenses
    case SetStatus(key, _) => key in s.cards
    case AddCard(key, _) => key !in s.cards
    case AddLicense(key, newId) => newId !in s.licenses && !HasHash(s.licenses, Hmac(key))
  }

  ghost function IdOf(licenses: map<nat, KeyHash>, h: KeyHash): nat
    requires HasHash(licenses, h)
  {
    var id :| id in licenses && licenses[id] == h;
    id
  }

  function Finish(s: Shop, who: nat, key: string, r: Result<nat>): Shop {
    s.(redeemers := s.redeemers - {who}, finished := s.finished[who := Finished(key, r)])
  }

  function Go(s: Shop, who: nat, r: Redeemer): Shop {
    s.(redeemers := s.redeemers[who := r])
  }

  ghost function Proceed(s: Shop, who: nat, refused: bool, newId: nat): Shop
    requires who in s.redeemers
  {
    match s.redeemers[who]
    case FindByHash(key) =>
      if HasHash(s.licenses, Hmac(key)) then Finish(s, who, key, Ok(IdOf(s.licenses, Hmac(key)))) else Go(s, who, FindByLegacyHash(key))
    case FindByLegacyHash(key) =>
      if HasHash(s.licenses, LegacySha(key)) then Finish(s, who, key, Ok(IdOf(s.licenses, LegacySha(key)))) else Go(s, who, PreCheck(key))
    case PreCheck(key) =>
      if key !in s.cards then Finish(s, who, key, Err(LicenseNotFound))
      else if s.cards[key].license.Some? then Finish(s, who, key, Ok(s.cards[key].license.value))
      else if refused then Finish(s, who, key, Err(ProductMismatch))
      else if s.cards[key].status == CardDisabled || s.cards[key].status == CardRedeemed then Finish(s, who, key, Err(LicenseInactive))
      else Go(s, who, ReadInTx(key))
    case ReadInTx(key) =>
      if key !in s.cards then Finish(s, who, key, Err(LicenseInactive))
      else if s.cards[key].license.Some? then Finish(s, who, key, Ok(s.cards[key].license.value))
      else if s.cards[key].status != CardUnused && s.cards[key].status != CardIssued then Finish(s, who, key, Err(LicenseInactive))
      else Go(s, who, WriteInTx(key))
    case WriteInTx(key) =>
      if key !in s.cards || HasHash(s.licenses, Hmac(key)) then Finish(s, who, key, Err(InternalError))
      else
        Finish(s, who, key, Ok(newId)).(
          licenses := s.licenses[newId := Hmac(key)],
          cards := s.cards[key := Card(CardRedeemed, Some(newId))],
          created := s.created + [(key, newId)])
  }

  ghost function Apply(s: Shop, m: Move): Shop
    requires Allowed(s, m)
  {
    match m
    case Begin(who, key) => Go(s, who, FindByHash(key))
    case Next(who, refused, newId) => Proceed(s, who, refused, newId)
    case SetStatus(key, status) => s.(cards := s.cards[key := s.cards[key].(status := status)])
    case AddCard(key, status) => s.(cards := s.cards[key := Card(status, None)])
    case AddLicense(key, newId) => s.(licenses := s.licenses[newId := Hmac(key)])
  }

  ghost predicate AllAllowed(s: Shop, ms: seq<Move>)
    decreases |ms|
  {
    ms == [] || (Allowed(s, ms[0]) && AllAllowed(Apply(s, ms[0]), ms[1..]))
  }

  ghost function ApplyAll(s: Shop, ms: seq<Move>): Shop
    requires AllAllowed(s, ms)
    decreases |ms|
  {
    if ms == [] then s else ApplyAll(Apply(s, ms[0]), ms[1..])
  }

  // ---------------------------------------------------------------------------
  // The invariant

  ghost predicate UniqueHashes(s: Shop) {
    forall a, b | a in s.licenses && b in s.licenses && s.licenses[a] == s.licenses[b] :: a == b
  }

  ghost predicate Linked(s: Shop, key: string, id: nat) {
    key in s.cards && s.cards[key].license == Some(id)
  }

  /** A linked card's license carries the card's own hash. */
  ghost predicate LinksByHash(s: Shop) {
    forall key, id | Linked(s, key, id) :: id in s.licenses && s.licenses[id] == Hmac(key)
  }

  /** Nobody gets past the legacy lookup of a key that has a legacy license, and a key
      found only by legacy hash has no linked card. */
  ghost predicate LegacyFirst(s: Shop) {
    && (forall w | w in s.redeemers && !s.redeemers[w].FindByHash? && !s.redeemers[w].FindByLegacyHash? ::
          !HasHash(s.licenses, LegacySha(s.redeemers[w].key)))
    && (forall w | w in s.redeemers && s.redeemers[w].FindByLegacyHash? && HasHash(s.licenses, LegacySha(s.redeemers[w].key)) ::
          forall id :: !Linked(s, s.redeemers[w].key, id))
  }

  /** What a finished call returned: the license with the key's hash, or a legacy one
      of a key whose card is not linked. */
  ghost predicate ResultsMatch(s: Shop) {
    forall w | w in s.finished && s.finished[w].result.Ok? ::
      var id, key := s.finished[w].result.value, s.finished[w].key;
      && id in s.licenses
      && (s.licenses[id] == Hmac(key) || (s.licenses[id] == LegacySha(key) && forall i :: !Linked(s, key, i)))
  }

  ghost predicate LogMatches(s: Shop) {
    && (forall i | 0 <= i < |s.created| :: Linked(s, s.created[i].0, s.created[i].1))
    && (forall i, j | 0 <= i < j < |s.created| :: s.created[i].0 != s.created[j].0)
  }

  ghost predicate Inv(s: Shop) {
    UniqueHashes(s) && LinksByHash(s) && LegacyFirst(s) && ResultsMatch(s) && LogMatches(s)
  }

  ghost predicate LinksKept(s: Shop, s': Shop) {
    forall key, id | Linked(s, key, id) :: Linked(s', key, id)
  }

  /** A call moves on or ends without touching a row. */
  lemma MovingOn(s: Shop, s': Shop, who: nat)
    requires Inv(s) && who in s.redeemers
    requires s'.licenses == s.licenses && s'.cards == s.cards && s'.created == s.created
    requires var key := s.redeemers[who].key;
             || (exists r :: s' == Finish(s, who, key, r) && (r.Ok? ==>
                   && r.value in s.licenses
                   && (s.licenses[r.value] == Hmac(key) || (s.licenses[r.value] == LegacySha(key) && forall i :: !Linked(s, key, i)))))
             || (s' == Go(s, who, FindByLegacyHash(key)) && !HasHash(s.licenses, Hmac(key)))
             || (exists r :: s' == Go(s, who, r) && r.key == key && !r.FindByHash? && !r.FindByLegacyHash? && !HasHash(s.licenses, LegacySha(key)))
    ensures Inv(s') && LinksKept(s, s')
  {
    forall key, id ensures Linked(s', key, id) == Linked(s, key, id) { }
    assert UniqueHashes(s') && LinksByHash(s') && LogMatches(s');
    assert ResultsMatch(s');
    assert LegacyFirst(s');
  }

  /** The write of a transaction that the unique hash lets through. */
  lemma Writing(s: Shop, who: nat, newId: nat)
    requires Inv(s) && who in s.redeemers && s.redeemers[who].WriteInTx? && newId !in s.licenses
    requires var key := s.redeemers[who].key; key in s.cards && !HasHash(s.licenses, Hmac(key))
    ensures var s' := Proceed(s, who, false, newId); Inv(s') && LinksKept(s, s')
  {
    var key := s.redeemers[who].key;
    var s' := Proceed(s, who, false, newId);
    assert forall id :: !Linked(s, key, id);
    forall k, id ensures Linked(s', k, id) <==> (Linked(s, k, id) || (k == key && id == newId)) { }
    SameLegacy(s, s', newId, key);
    assert UniqueHashes(s');
    assert LinksByHash(s');
    assert LegacyFirst(s');
    assert ResultsMatch(s');
    assert LogMatches(s');
  }

  lemma SameLegacy(s: Shop, s': Shop, newId: nat, key: string)
    requires newId !in s.licenses && s'.licenses == s.licenses[newId := Hmac(key)]
    ensures forall k :: HasHash(s'.licenses, LegacySha(k)) <==> HasHash(s.licenses, LegacySha(k))
  {
    forall k ensures HasHash(s'.licenses, LegacySha(k)) <==> HasHash(s.licenses, LegacySha(k)) {
      if HasHash(s.licenses, LegacySha(k)) {
        var id :| id in s.licenses && s.licenses[id] == LegacySha(k);
        assert id in s'.licenses && s'.licenses[id] == LegacySha(k);
      }
      if HasHash(s'.licenses, LegacySha(k)) {
        var id :| id in s'.licenses && s'.licenses[id] == LegacySha(k);
        assert id in s.licenses && s.licenses[id] == LegacySha(k);
      }
    }
  }

  lemma ProceedKeeps(s: Shop, who: nat, refused: bool, newId: nat)
    requires Inv(s) && who in s.redeemers && newId !in s.licenses
    ensures var s' := Proceed(s, who, refused, newId); Inv(s') && LinksKept(s, s')
  {
    var s' := Proceed(s, who, refused, newId);
    var key := s.redeemers[who].key;
    if s.redeemers[who].WriteInTx? && key in s.cards && !HasHash(s.licenses, Hmac(key)) {
      Writing(s, who, newId);
    } else {
      if key in s.cards && s.cards[key].license.Some? { assert Linked(s, key, s.cards[key].license.value); }
      MovingOn(s, s', who);
    }
  }

  lemma AdminKeeps(s: Shop, m: Move)
    requires Inv(s) && Allowed(s, m) && !m.Next?
    ensures var s' := Apply(s, m); Inv(s') && LinksKept(s, s')
  {
    var s' := Apply(s, m);
    forall key, id ensures Linked(s', key, id) == Linked(s, key, id) { }
    if m.AddLicense? { SameLegacy(s, s', m.newId, m.key); }
    assert UniqueHashes(s');
    assert LinksByHash(s');
    assert LegacyFirst(s');
    assert ResultsMatch(s');
    assert LogMatches(s');
  }

  lemma StepKeeps(s: Shop, m: Move)
    requires Inv(s) && Allowed(s, m)
    ensures var s' := Apply(s, m); Inv(s') && LinksKept(s, s')
  {
    hide Inv, Proceed;
    match m
    case Next(who, refused, newId) => ProceedKeeps(s, who, refused, newId);
    case _ => AdminKeeps(s, m);
  }

  lemma {:induction false} RunKeeps(s: Shop, ms: seq<Move>)
    requires Inv(s) && AllAllowed(s, ms)
    ensures Inv(ApplyAll(s, ms)) && LinksKept(s, ApplyAll(s, ms))
    decreases |ms|
  {
    hide Inv, Proceed;
    if ms != [] {
      StepKeeps(s, ms[0]);
      RunKeeps(Apply(s, ms[0]), ms[1..]);
    }
  }

  // ---------------------------------------------------------------------------
  // The theorem

  /** Whatever the redeemers and the admins do and however their steps interleave:
      each card key creates at most one license, its link never changes once set, and
      every call that succeeds for a linked card key returns the linked license. */
  lemma RedeemedOnce(s: Shop, ms: seq<Move>)
    requires Inv(s) && AllAllowed(s, ms)
    ensures var s' := ApplyAll(s, ms);
            && (forall i, j | 0 <= i < |s'.created| && 0 <= j < |s'.created| && s'.created[i].0 == s'.created[j].0 :: i == j)
            && (forall key, id | Linked(s, key, id) :: Linked(s', key, id))
            && (forall w, key, id | w in s'.finished && s'.finished[w].key == key && s'.finished[w].result.Ok? && Linked(s', key, id) ::
                  s'.finished[w].result.value == id)
  {
    RunKeeps(s, ms);
    var s' := ApplyAll(s, ms);
    forall w, key, id | w in s'.finished && s'.finished[w].key == key && s'.finished[w].result.Ok? && Linked(s', key, id)
      ensures s'.finished[w].result.value == id
    {
      assert s'.licenses[id] == Hmac(key);
    }
  }

  /** A transaction that writes has its license linked at once. */
  lemma RedemptionLinks(s: Shop, who: nat, newId: nat)
    requires who in s.redeemers && s.redeemers[who].WriteInTx? && newId !in s.licenses
    requires Proceed(s, who, false, newId).finished[who].result.Ok?
    ensures var s' := Proceed(s, who, false, newId);
            && Linked(s', s.redeemers[who].key, newId)
            && s'.created == s.created + [(s.redeemers[who].key, newId)]
            && s'.licenses.Keys == s.licenses.Keys + {newId}
  { }

  function Added(ms: seq<Move>): nat {
    if ms == [] then 0 else (if ms[0].AddLicense? then 1 else 0) + Added(ms[1..])
  }

  lemma StepAccounted(s: Shop, m: Move)
    requires Allowed(s, m)
    ensures var s' := Apply(s, m);
            && s.licenses.Keys <= s'.licenses.Keys && s.created <= s'.created
            && |s'.licenses| == |s.licenses| + (|s'.created| - |s.created|) + (if m.AddLicense? then 1 else 0)
  {
    if m.Next? && s.redeemers[m.who].WriteInTx? && Apply(s, m).finished[m.who].result.Ok? {
      RedemptionLinks(s, m.who, m.newId);
    }
  }

  /** No license appears from nowhere or twice: over any run each new one was added by
      an admin or created by one of the logged redemptions, and each of those created
      exactly one and linked its card to it. */
  lemma {:induction false} LicensesAccounted(s: Shop, ms: seq<Move>)
    requires Inv(s) && AllAllowed(s, ms)
    ensures var s' := ApplyAll(s, ms);
            && |s'.licenses| == |s.licenses| + (|s'.created| - |s.created|) + Added(ms)
            && forall i | 0 <= i < |s'.created| :: Linked(s', s'.created[i].0, s'.created[i].1) && s'.created[i].1 in s'.licenses
    decreases |ms|
  {
    RunKeeps(s, ms);
    assert LogMatches(ApplyAll(s, ms)) && LinksByHash(ApplyAll(s, ms));
    hide Inv, Apply, Allowed;
    if ms != [] {
      StepAccounted(s, ms[0]);
      StepKeeps(s, ms[0]);
      LicensesAccounted(Apply(s, ms[0]), ms[1..]);
    }
  }

  /** A call reaches its write only from a read of an unlinked card that was unused or
      issued, and reaches that read only past the checks, which refuse a disabled or
      redeemed card; only the write creates a license, under the key's current hash, and
      marks the card redeemed. */
  lemma OnlyOpenCardsRedeemed(s: Shop, who: nat, refused: bool, newId: nat)
    requires who in s.redeemers && newId !in s.licenses
    ensures var r, s' := s.redeemers[who], Proceed(s, who, refused, newId);
            && (who in s'.redeemers && s'.redeemers[who].WriteInTx? ==>
                  r == ReadInTx(r.key) && r.key in s.cards && s.cards[r.key].license.None?
                  && (s.cards[r.key].status == CardUnused || s.cards[r.key].status == CardIssued))
            && (who in s'.redeemers && s'.redeemers[who].ReadInTx? ==>
                  r == PreCheck(r.key) && r.key in s.cards && s.cards[r.key].license.None? && !refused
                  && s.cards[r.key].status != CardDisabled && s.cards[r.key].status != CardRedeemed)
            && (s'.licenses != s.licenses ==>
                  r == WriteInTx(r.key) && s'.licenses == s.licenses[newId := Hmac(r.key)]
                  && s'.cards == s.cards[r.key := Card(CardRedeemed, Some(newId))])
            && (s'.licenses == s.licenses ==> s'.cards == s.cards)
  { }
}
