/** Replay protection of signed requests: the timestamp window of the guard and the
    nonce memory behind it (server/src/common/guards/request-signature.guard.ts). */
module NonceReplay {

  const WINDOW_MS := 5 * 60 * 1000
  const RETENTION_MS := 5 * 60 * 1000

  type Seen = map<string, int>

  // ---------------------------------------------------------------------------
  // Specification

  function Forget(seen: Seen, now: int): Seen {
    map k | k in seen && seen[k] > now :: seen[k]
  }

  function Use(seen: Seen, nonce: string, now: int): (Seen, bool) {
    var kept := Forget(seen, now);
    if nonce in kept then (kept, false) else (kept[nonce := now + RETENTION_MS], true)
  }

  // A request whose signature verified: the text of its timestamp header, the number
  // that text denotes (if finite), its nonce header, and when it arrived.
  datatype Request = Request(timestampText: string, timestampMs: int, nonce: string, now: int)

  function PairKey(r: Request): string {
    r.timestampText + ":" + r.nonce
  }

  function Distance(a: int, b: int): nat {
    if a >= b then a - b else b - a
  }

  predicate InWindow(r: Request) {
    Distance(r.now, r.timestampMs) <= WINDOW_MS
  }

  function Guard(seen: Seen, r: Request): (Seen, bool) {
    if !InWindow(r) then (seen, false) else Use(seen, PairKey(r), r.now)
  }

  // ---------------------------------------------------------------------------
  // The service

  class NonceReplayService {
    var seen: Seen

    constructor ()
      ensures seen == map[]
    {
      seen := map[];
    }

    method UseNonce(nonce: string, now: int) returns (isNew: bool)
      modifies this
      ensures (seen, isNew) == Use(old(seen), nonce, now)
    {
      var todo := seen.Keys;
      while todo != {}
        invariant todo <= old(seen).Keys
        invariant seen == map k | k in old(seen) && (k in todo || old(seen)[k] > now) :: old(seen)[k]
        decreases todo
      {
        var k :| k in todo;
        if seen[k] <= now { seen := seen - {k}; }
        todo := todo - {k};
      }
      assert seen == Forget(old(seen), now);
      if nonce in seen { return false; }
      seen := seen[nonce := now + RETENTION_MS];
      isNew := true;
    }

    /** The window first, so a request outside it never consumes its nonce. */
    method CanActivate(r: Request) returns (accepted: bool)
      modifies this
      ensures (seen, accepted) == Guard(old(seen), r)
    {
      var age := r.now - r.timestampMs;
      if age > WINDOW_MS || -age > WINDOW_MS { return false; }
      accepted := UseNonce(r.timestampText + ":" + r.nonce, r.now);
    }
  }

  // ---------------------------------------------------------------------------
  // Runs

  function Answers(seen: Seen, rs: seq<Request>): (a: seq<bool>)
    ensures |a| == |rs|
    decreases |rs|
  {
    if rs == [] then []
    else
      var (next, accepted) := Guard(seen, rs[0]);
      [accepted] + Answers(next, rs[1..])
  }

  ghost predicate Monotone(rs: seq<Request>) {
    forall i, j | 0 <= i < j < |rs| :: rs[i].now <= rs[j].now
  }

  /** A header without a colon is recovered from the pair, so equal pairs are equal
      headers and equal nonces. */
  lemma {:induction false} PairKeyInjective(a: string, m: string, b: string, n: string)
    requires ':' !in a && ':' !in b && a + ":" + m == b + ":" + n
    ensures a == b && m == n
  {
    assert (a + ":" + m)[0] == (b + ":" + n)[0];
    if a != "" && b != "" {
      assert (a + ":" + m)[1..] == a[1..] + ":" + m;
      assert (b + ":" + n)[1..] == b[1..] + ":" + n;
      PairKeyInjective(a[1..], m, b[1..], n);
    } else {
      assert (a + ":" + m)[1..] == m || a != "";
      assert (b + ":" + n)[1..] == n || b != "";
    }
  }

  /** No acceptance of the pair of request `j` lies less than one retention before it. */
  ghost predicate NotRecentlyAccepted(rs: seq<Request>, a: seq<bool>, j: nat)
    requires |a| == |rs| && j < |rs|
  {
    forall i | 0 <= i < j && a[i] && PairKey(rs[i]) == PairKey(rs[j]) :: rs[j].now >= rs[i].now + RETENTION_MS
  }

  /** Every entry still in force stems from an acceptance one retention before. */
  ghost predicate Justified(seen: Seen, past: seq<Request>, pa: seq<bool>, now: int)
    requires |pa| == |past|
  {
    forall k | k in seen && seen[k] > now :: AcceptedAt(past, pa, k, seen[k] - RETENTION_MS)
  }

  ghost predicate AcceptedAt(past: seq<Request>, pa: seq<bool>, k: string, t: int)
    requires |pa| == |past|
  {
    exists i :: 0 <= i < |past| && pa[i] && PairKey(past[i]) == k && past[i].now == t
  }

  /** Every acceptance within the last retention has an entry. */
  ghost predicate Recorded(seen: Seen, past: seq<Request>, pa: seq<bool>, now: int)
    requires |pa| == |past|
  {
    forall i | 0 <= i < |past| && pa[i] && past[i].now + RETENTION_MS > now ::
      PairKey(past[i]) in seen && seen[PairKey(past[i])] >= past[i].now + RETENTION_MS
  }

  lemma JustifiedNext(seen: Seen, past: seq<Request>, pa: seq<bool>, r: Request, from: int)
    requires |pa| == |past| && Justified(seen, past, pa, from) && from <= r.now
    ensures var (next, accepted) := Guard(seen, r); Justified(next, past + [r], pa + [accepted], r.now)
  {
    hide PairKey, InWindow;
    var (next, accepted) := Guard(seen, r);
    var rs, a := past + [r], pa + [accepted];
    forall k | k in next && next[k] > r.now ensures AcceptedAt(rs, a, k, next[k] - RETENTION_MS) {
      if accepted && k == PairKey(r) {
        assert a[|past|] && rs[|past|] == r;
      } else {
        var i :| 0 <= i < |past| && pa[i] && PairKey(past[i]) == k && past[i].now == seen[k] - RETENTION_MS;
        assert a[i] && rs[i] == past[i];
      }
    }
  }

  lemma RecordedNext(seen: Seen, past: seq<Request>, pa: seq<bool>, r: Request, from: int)
    requires |pa| == |past| && Recorded(seen, past, pa, from) && from <= r.now
    ensures var (next, accepted) := Guard(seen, r); Recorded(next, past + [r], pa + [accepted], r.now)
  {
    hide PairKey, InWindow;
    var (next, accepted) := Guard(seen, r);
    var rs, a := past + [r], pa + [accepted];
    forall i | 0 <= i < |rs| && a[i] && rs[i].now + RETENTION_MS > r.now
      ensures PairKey(rs[i]) in next && next[PairKey(rs[i])] >= rs[i].now + RETENTION_MS
    {
      if i < |past| { assert rs[i] == past[i] && a[i] == pa[i]; }
    }
  }

  lemma Decision(seen: Seen, past: seq<Request>, pa: seq<bool>, r: Request, from: int)
    requires |pa| == |past| && Justified(seen, past, pa, from) && Recorded(seen, past, pa, from) && from <= r.now
    ensures var accepted := Guard(seen, r).1;
            accepted <==> InWindow(r) && NotRecentlyAccepted(past + [r], pa + [accepted], |past|)
  {
    hide PairKey, InWindow;
    var accepted := Guard(seen, r).1;
    var rs, a := past + [r], pa + [accepted];
    assert forall i | 0 <= i < |past| :: rs[i] == past[i] && a[i] == pa[i];
    assert rs[|past|] == r;
    if InWindow(r) && !accepted {
      var i :| 0 <= i < |past| && pa[i] && PairKey(past[i]) == PairKey(r) && past[i].now == seen[PairKey(r)] - RETENTION_MS;
      assert a[i];
    }
  }

  /** Only what lies before a request matters. */
  lemma NotRecentlyPrefix(rs: seq<Request>, a: seq<bool>, more: seq<Request>, b: seq<bool>, j: nat)
    requires |a| == |rs| && |b| == |more| && j < |rs|
    ensures NotRecentlyAccepted(rs + more, a + b, j) <==> NotRecentlyAccepted(rs, a, j)
  {
    hide PairKey;
    assert forall i | 0 <= i <= j :: (rs + more)[i] == rs[i] && (a + b)[i] == a[i];
  }

  lemma {:induction false} AnswersFrom(seen: Seen, past: seq<Request>, pa: seq<bool>, rs: seq<Request>, from: int)
    requires |pa| == |past| && Justified(seen, past, pa, from) && Recorded(seen, past, pa, from)
    requires Monotone(rs) && (rs != [] ==> from <= rs[0].now)
    ensures var all, a := past + rs, pa + Answers(seen, rs);
            forall j | |past| <= j < |all| :: a[j] <==> InWindow(all[j]) && NotRecentlyAccepted(all, a, j)
    decreases |rs|
  {
    hide PairKey, InWindow, Guard, Justified, Recorded;
    if rs != [] {
      var r := rs[0];
      var (next, accepted) := Guard(seen, r);
      JustifiedNext(seen, past, pa, r, from);
      RecordedNext(seen, past, pa, r, from);
      Decision(seen, past, pa, r, from);
      NotRecentlyPrefix(past + [r], pa + [accepted], rs[1..], Answers(next, rs[1..]), |past|);
      AnswersFrom(next, past + [r], pa + [accepted], rs[1..], r.now);
      assert (past + [r]) + rs[1..] == past + rs;
      assert (pa + [accepted]) + Answers(next, rs[1..]) == pa + Answers(seen, rs);
    }
  }

  lemma AcceptedByKey(rs: seq<Request>)
    requires Monotone(rs)
    ensures var a := Answers(map[], rs);
            forall j | 0 <= j < |rs| :: a[j] <==> InWindow(rs[j]) && NotRecentlyAccepted(rs, a, j)
  {
    if rs != [] {
      AnswersFrom(map[], [], [], rs, rs[0].now);
      assert [] + rs == rs && [] + Answers(map[], rs) == Answers(map[], rs);
    }
  }

  /** The text of a finite number has no colon. */
  predicate ColonFree(rs: seq<Request>) {
    forall i | 0 <= i < |rs| :: ':' !in rs[i].timestampText
  }

  predicate SameHeaders(r: Request, q: Request) {
    r.timestampText == q.timestampText && r.nonce == q.nonce
  }

  lemma SameKeySameHeaders(r: Request, q: Request)
    requires ':' !in r.timestampText && ':' !in q.timestampText
    ensures PairKey(r) == PairKey(q) <==> SameHeaders(r, q)
  {
    if PairKey(r) == PairKey(q) { PairKeyInjective(r.timestampText, r.nonce, q.timestampText, q.nonce); }
  }

  /** The exact meaning of the guard over every run with a monotone clock: a request is
      accepted if and only if it arrives within five minutes of its timestamp and the
      same headers were not accepted within the preceding five minutes. */
  lemma AcceptedIff(rs: seq<Request>)
    requires Monotone(rs) && ColonFree(rs)
    ensures var a := Answers(map[], rs);
            forall j | 0 <= j < |rs| ::
              a[j] <==>
                && -300_000 <= rs[j].now - rs[j].timestampMs <= 300_000
                && forall i | 0 <= i < j && a[i] && SameHeaders(rs[i], rs[j]) :: rs[j].now - rs[i].now >= 300_000
  {
    AcceptedByKey(rs);
    var a := Answers(map[], rs);
    hide PairKey, SameHeaders, Answers, InWindow, NotRecentlyAccepted;
    forall j | 0 <= j < |rs|
      ensures a[j] <==>
                && -300_000 <= rs[j].now - rs[j].timestampMs <= 300_000
                && forall i | 0 <= i < j && a[i] && SameHeaders(rs[i], rs[j]) :: rs[j].now - rs[i].now >= 300_000
    {
      OnHeaders(rs, a, j);
    }
  }

  lemma OnHeaders(rs: seq<Request>, a: seq<bool>, j: nat)
    requires |a| == |rs| && j < |rs| && ColonFree(rs)
    ensures InWindow(rs[j]) <==> -300_000 <= rs[j].now - rs[j].timestampMs <= 300_000
    ensures NotRecentlyAccepted(rs, a, j) <==>
              forall i | 0 <= i < j && a[i] && SameHeaders(rs[i], rs[j]) :: rs[j].now - rs[i].now >= 300_000
  {
    forall i | 0 <= i < |rs| ensures PairKey(rs[i]) == PairKey(rs[j]) <==> SameHeaders(rs[i], rs[j]) {
      SameKeySameHeaders(rs[i], rs[j]);
    }
    hide PairKey, SameHeaders;
  }

  predicate SamePair(rs: seq<Request>, i: nat, j: nat)
    requires i < |rs| && j < |rs|
  {
    SameHeaders(rs[i], rs[j]) && rs[i].timestampMs == rs[j].timestampMs
  }

  /** Two acceptances of one pair are at least five minutes apart and both within five
      minutes of its timestamp; so a pair accepted after its own timestamp is never
      accepted again. */
  lemma AcceptancesApart(rs: seq<Request>, i: nat, j: nat)
    requires Monotone(rs) && ColonFree(rs) && i < j < |rs| && SamePair(rs, i, j)
    requires Answers(map[], rs)[i] && Answers(map[], rs)[j]
    ensures rs[j].now - rs[i].now >= 300_000
    ensures -300_000 <= rs[i].now - rs[i].timestampMs <= 0
    ensures -300_000 <= rs[j].now - rs[i].timestampMs <= 300_000
  {
    AcceptedIff(rs);
  }

  /** No pair is accepted four times. */
  lemma AtMostThree(rs: seq<Request>, i: nat, j: nat, k: nat, l: nat)
    requires Monotone(rs) && ColonFree(rs) && i < j < k < l < |rs|
    requires SamePair(rs, i, j) && SamePair(rs, j, k) && SamePair(rs, k, l)
    ensures var a := Answers(map[], rs); !(a[i] && a[j] && a[k] && a[l])
  {
    hide Answers, Monotone, ColonFree;
    var a := Answers(map[], rs);
    if a[i] && a[j] && a[k] && a[l] {
      AcceptancesApart(rs, i, j);
      AcceptancesApart(rs, j, k);
      AcceptancesApart(rs, k, l);
      assert false;
    }
  }

  /** With `i` the last accepted copy before `j`, it alone decides. */
  lemma LastCopyDecides(rs: seq<Request>, a: seq<bool>, i: nat, j: nat)
    requires Monotone(rs) && |a| == |rs| && i < j < |rs| && SameHeaders(rs[i], rs[j]) && a[i]
    requires forall k | i < k < j && SameHeaders(rs[k], rs[i]) :: !a[k]
    ensures (forall k | 0 <= k < j && a[k] && SameHeaders(rs[k], rs[j]) :: rs[j].now - rs[k].now >= 300_000)
       <==> rs[j].now - rs[i].now >= 300_000
  {
    forall k | 0 <= k < j && a[k] && SameHeaders(rs[k], rs[j]) ensures rs[k].now <= rs[i].now {
      assert k <= i;
    }
  }

  /** When a further copy of a pair gets in, in any run: the copy that follows an
      accepted one, with none accepted in between, is accepted exactly when it arrives
      at least five minutes later and at most five minutes after the timestamp. */
  lemma ReplayIff(rs: seq<Request>, i: nat, j: nat)
    requires Monotone(rs) && ColonFree(rs) && i < j < |rs| && SamePair(rs, i, j) && Answers(map[], rs)[i]
    requires forall k | i < k < j && SameHeaders(rs[k], rs[i]) :: !Answers(map[], rs)[k]
    ensures Answers(map[], rs)[j] <==>
              rs[j].now - rs[i].now >= 300_000 && rs[j].now <= rs[i].timestampMs + 300_000
  {
    AcceptedIff(rs);
    LastCopyDecides(rs, Answers(map[], rs), i, j);
    assert rs[i].now <= rs[j].now;
    hide *;
    assert -300_000 <= rs[i].now - rs[i].timestampMs;
  }

  /** Three acceptances of one pair pin down their times: both edges of the window and
      its middle. */
  lemma ThreeTimes(rs: seq<Request>, i: nat, j: nat, k: nat)
    requires Monotone(rs) && ColonFree(rs) && i < j < k < |rs| && SamePair(rs, i, j) && SamePair(rs, j, k)
    requires Answers(map[], rs)[i] && Answers(map[], rs)[j] && Answers(map[], rs)[k]
    ensures rs[i].now == rs[i].timestampMs - 300_000
    ensures rs[j].now == rs[i].timestampMs
    ensures rs[k].now == rs[i].timestampMs + 300_000
  {
    AcceptancesApart(rs, i, j);
    AcceptancesApart(rs, j, k);
  }

  /** And at those times every pair is accepted three times. */
  lemma ThreeAcceptances(text: string, timestampMs: int, nonce: string)
    requires ':' !in text
    ensures Answers(map[], [Request(text, timestampMs, nonce, timestampMs - 300_000),
                            Request(text, timestampMs, nonce, timestampMs),
                            Request(text, timestampMs, nonce, timestampMs + 300_000)]) == [true, true, true]
  {
    var rs := [Request(text, timestampMs, nonce, timestampMs - 300_000),
               Request(text, timestampMs, nonce, timestampMs),
               Request(text, timestampMs, nonce, timestampMs + 300_000)];
    AcceptedIff(rs);
    hide PairKey;
    var a := Answers(map[], rs);
    assert a[0];
    assert a[1];
    assert a[2];
  }

  /** The memory holds no entry that could not refuse a request any more, and none that
      was not made by an acceptance within five minutes. */
  lemma MemoryIsRecent(seen: Seen, r: Request)
    requires forall k | k in seen :: seen[k] <= r.now + 300_000
    ensures var (next, accepted) := Guard(seen, r);
            InWindow(r) ==> forall k | k in next :: r.now < next[k] <= r.now + 300_000
  { }
}
