/** The fixed-window limiter (server/src/common/guards/rate-limit.guard.ts). */
module RateLimit {

  datatype Bucket = Bucket(count: nat, resetAt: int)
  type Buckets = map<string, Bucket>

  datatype Call = Call(key: string, now: int)

  // ---------------------------------------------------------------------------
  // Specification

  predicate Open(buckets: Buckets, key: string, now: int) {
    key in buckets && buckets[key].resetAt > now
  }

  function Evict(buckets: Buckets, now: int): Buckets {
    map k | k in buckets && buckets[k].resetAt > now :: buckets[k]
  }

  /** One hit, without eviction. */
  function HitOnly(buckets: Buckets, key: string, limit: nat, windowMs: nat, now: int): (Buckets, bool) {
    if !Open(buckets, key, now) then (buckets[key := Bucket(1, now + windowMs)], true)
    else
      var count := buckets[key].count + 1;
      (buckets[key := buckets[key].(count := count)], count <= limit)
  }

  function Hit(buckets: Buckets, key: string, limit: nat, windowMs: nat, now: int): (Buckets, bool) {
    HitOnly(Evict(buckets, now), key, limit, windowMs, now)
  }

  // ---------------------------------------------------------------------------
  // The service

  class RateLimitService {
    var buckets: Buckets

    constructor ()
      ensures buckets == map[]
    {
      buckets := map[];
    }

    method Cleanup(now: int)
      modifies this
      ensures buckets == Evict(old(buckets), now)
    {
      var todo := buckets.Keys;
      while todo != {}
        invariant todo <= old(buckets).Keys
        invariant buckets == map k | k in old(buckets) && (k in todo || old(buckets)[k].resetAt > now) :: old(buckets)[k]
        decreases todo
      {
        var k :| k in todo;
        if buckets[k].resetAt <= now { buckets := buckets - {k}; }
        todo := todo - {k};
      }
    }

    method HitKey(key: string, limit: nat, windowMs: nat, now: int) returns (accepted: bool)
      modifies this
      ensures (buckets, accepted) == Hit(old(buckets), key, limit, windowMs, now)
    {
      Cleanup(now);
      if key !in buckets || buckets[key].resetAt <= now {
        buckets := buckets[key := Bucket(1, now + windowMs)];
        return true;
      }
      buckets := buckets[key := buckets[key].(count := buckets[key].count + 1)];
      accepted := buckets[key].count <= limit;
    }
  }

  // ---------------------------------------------------------------------------
  // Runs

  function Answers(buckets: Buckets, calls: seq<Call>, limit: nat, windowMs: nat): (r: seq<bool>)
    ensures |r| == |calls|
    decreases |calls|
  {
    if calls == [] then []
    else
      var (next, accepted) := Hit(buckets, calls[0].key, limit, windowMs, calls[0].now);
      [accepted] + Answers(next, calls[1..], limit, windowMs)
  }

  function LazyAnswers(buckets: Buckets, calls: seq<Call>, limit: nat, windowMs: nat): (r: seq<bool>)
    ensures |r| == |calls|
    decreases |calls|
  {
    if calls == [] then []
    else
      var (next, accepted) := HitOnly(buckets, calls[0].key, limit, windowMs, calls[0].now);
      [accepted] + LazyAnswers(next, calls[1..], limit, windowMs)
  }

  ghost predicate Monotone(calls: seq<Call>, from: int) {
    && (forall i | 0 <= i < |calls| :: from <= calls[i].now)
    && (forall i, j | 0 <= i < j < |calls| :: calls[i].now <= calls[j].now)
  }

  lemma MonotoneTail(calls: seq<Call>, from: int)
    requires Monotone(calls, from) && calls != []
    ensures Monotone(calls[1..], calls[0].now)
  { }

  /** The table never holds an ended window after a hit, so it stays as small as the
      number of keys seen within one window. */
  lemma OnlyOpenKept(buckets: Buckets, c: Call, limit: nat, windowMs: nat)
    requires windowMs >= 1
    ensures var next := Hit(buckets, c.key, limit, windowMs, c.now).0;
            forall k | k in next :: next[k].resetAt > c.now && (k == c.key || (k in buckets && next[k] == buckets[k]))
  { }

  /** The buckets that still matter are the same. */
  ghost predicate SameOpen(a: Buckets, b: Buckets, now: int) {
    forall k :: Open(a, k, now) == Open(b, k, now) && (Open(a, k, now) ==> a[k] == b[k])
  }

  /** Eviction is invisible: a limiter that never evicts gives the same answers. */
  lemma {:induction false} EvictionInvisible(a: Buckets, b: Buckets, calls: seq<Call>, limit: nat, windowMs: nat, from: int)
    requires SameOpen(a, b, from) && Monotone(calls, from)
    ensures Answers(a, calls, limit, windowMs) == LazyAnswers(b, calls, limit, windowMs)
    decreases |calls|
  {
    if calls != [] {
      var c := calls[0];
      var a1, b1 := Hit(a, c.key, limit, windowMs, c.now).0, HitOnly(b, c.key, limit, windowMs, c.now).0;
      forall k ensures Open(a, k, c.now) == Open(b, k, c.now) && (Open(a, k, c.now) ==> a[k] == b[k]) {
        assert Open(a, k, from) == Open(b, k, from);
      }
      assert SameOpen(a1, b1, c.now);
      MonotoneTail(calls, from);
      EvictionInvisible(a1, b1, calls[1..], limit, windowMs, c.now);
    }
  }

  // ---------------------------------------------------------------------------
  // Counting

  /** Calls of `key` at a time in `[lo, hi)`. */
  function HitsIn(calls: seq<Call>, key: string, lo: int, hi: int): nat {
    if calls == [] then 0
    else (if calls[0].key == key && lo <= calls[0].now < hi then 1 else 0) + HitsIn(calls[1..], key, lo, hi)
  }

  /** Those of them that were accepted. */
  function AcceptedIn(calls: seq<Call>, answers: seq<bool>, key: string, lo: int, hi: int): nat
    requires |answers| == |calls|
  {
    if calls == [] then 0
    else (if answers[0] && calls[0].key == key && lo <= calls[0].now < hi then 1 else 0)
         + AcceptedIn(calls[1..], answers[1..], key, lo, hi)
  }

  /** How many more hits an open bucket accepts. */
  function Room(b: Bucket, limit: nat): nat {
    if b.count <= limit then limit - b.count else 0
  }

  function Min(a: int, b: int): int {
    if a <= b then a else b
  }

  lemma AnswersHead(buckets: Buckets, calls: seq<Call>, limit: nat, windowMs: nat)
    requires calls != []
    ensures var (next, accepted) := Hit(buckets, calls[0].key, limit, windowMs, calls[0].now);
            var r := Answers(buckets, calls, limit, windowMs);
            r[0] == accepted && r[1..] == Answers(next, calls[1..], limit, windowMs)
  { }

  /** How one hit moves the bucket of `key`. */
  lemma HitMoves(buckets: Buckets, c: Call, key: string, limit: nat, windowMs: nat)
    ensures var (next, accepted) := Hit(buckets, c.key, limit, windowMs, c.now);
            if c.key == key then
              if Open(buckets, key, c.now)
              then key in next && next[key] == buckets[key].(count := buckets[key].count + 1) && (accepted <==> buckets[key].count + 1 <= limit)
              else key in next && next[key] == Bucket(1, c.now + windowMs) && accepted
            else
              forall t :: t >= c.now ==> (Open(next, key, t) <==> Open(buckets, key, t)) && (Open(next, key, t) ==> next[key] == buckets[key])
  { }

  /** A bucket accepts exactly the first `limit` of its hits: from a bucket with
      `count` hits that stays open up to `hi`, the room left. */
  lemma {:induction false} BucketAccepts(buckets: Buckets, calls: seq<Call>, key: string, limit: nat, windowMs: nat, from: int, lo: int, hi: int)
    requires Monotone(calls, from) && lo <= from
    requires from < hi ==> key in buckets && buckets[key].resetAt >= hi && buckets[key].count >= 1
    ensures var accepted := AcceptedIn(calls, Answers(buckets, calls, limit, windowMs), key, lo, hi);
            accepted == if from < hi then Min(HitsIn(calls, key, lo, hi), Room(buckets[key], limit)) else 0
    ensures from >= hi ==> HitsIn(calls, key, lo, hi) == 0
    decreases |calls|
  {
    if calls != [] {
      var c := calls[0];
      var next := Hit(buckets, c.key, limit, windowMs, c.now).0;
      AnswersHead(buckets, calls, limit, windowMs);
      HitMoves(buckets, c, key, limit, windowMs);
      MonotoneTail(calls, from);
      hide Hit, Answers;
      if c.now < hi { assert Open(buckets, key, c.now); }
      BucketAccepts(next, calls[1..], key, limit, windowMs, c.now, lo, hi);
    }
  }

  /** Once a window opens at `t0`, of the hits in `[t0, t0 + windowMs)` exactly
      `min(limit, hits)` are accepted. */
  lemma WindowAcceptsExactly(buckets: Buckets, calls: seq<Call>, limit: nat, windowMs: nat)
    requires limit >= 1 && windowMs >= 1 && calls != [] && Monotone(calls, calls[0].now)
    requires !Open(buckets, calls[0].key, calls[0].now)
    ensures var t0, key := calls[0].now, calls[0].key;
            var accepted := AcceptedIn(calls, Answers(buckets, calls, limit, windowMs), key, t0, t0 + windowMs);
            accepted == Min(limit, HitsIn(calls, key, t0, t0 + windowMs))
  {
    var c := calls[0];
    var next := Hit(buckets, c.key, limit, windowMs, c.now).0;
    AnswersHead(buckets, calls, limit, windowMs);
    HitMoves(buckets, c, c.key, limit, windowMs);
    MonotoneTail(calls, c.now);
    BucketAccepts(next, calls[1..], c.key, limit, windowMs, c.now, c.now, c.now + windowMs);
  }

  /** No interval of one window length sees more than `2 * limit - 1` accepted hits: at
      most one window is open when it begins, which has used one hit already, and at
      most one more opens inside it. */
  lemma {:induction false} AtMostTwiceLimit(buckets: Buckets, calls: seq<Call>, key: string, limit: nat, windowMs: nat, from: int, lo: int)
    requires limit >= 1 && windowMs >= 1 && Monotone(calls, from)
    requires key in buckets ==> buckets[key].count >= 1
    ensures AcceptedIn(calls, Answers(buckets, calls, limit, windowMs), key, lo, lo + windowMs)
         <= (if from < lo then 2 * limit - 1
             else if Open(buckets, key, from) then Room(buckets[key], limit) + limit
             else limit)
    decreases |calls|
  {
    if calls != [] {
      var c := calls[0];
      var next := Hit(buckets, c.key, limit, windowMs, c.now).0;
      AnswersHead(buckets, calls, limit, windowMs);
      HitMoves(buckets, c, key, limit, windowMs);
      MonotoneTail(calls, from);
      CountKept(buckets, c, key, limit, windowMs);
      hide Hit, Answers;
      AtMostTwiceLimit(next, calls[1..], key, limit, windowMs, c.now, lo);
      if c.key == key && !Open(buckets, key, c.now) && lo <= c.now {
        BucketAccepts(next, calls[1..], key, limit, windowMs, c.now, lo, lo + windowMs);
      }
    }
  }

  lemma CountKept(buckets: Buckets, c: Call, key: string, limit: nat, windowMs: nat)
    requires key in buckets ==> buckets[key].count >= 1
    ensures var next := Hit(buckets, c.key, limit, windowMs, c.now).0; key in next ==> next[key].count >= 1
  { }

  /** The bound for a limiter that starts empty. */
  lemma EmptyStartBound(calls: seq<Call>, key: string, limit: nat, windowMs: nat, from: int, lo: int)
    requires limit >= 1 && windowMs >= 1 && Monotone(calls, from)
    ensures AcceptedIn(calls, Answers(map[], calls, limit, windowMs), key, lo, lo + windowMs) <= 2 * limit - 1
  {
    AtMostTwiceLimit(map[], calls, key, limit, windowMs, from, lo);
  }

  // ---------------------------------------------------------------------------
  // The bound is reached

  function Burst(key: string, now: int, n: nat): (calls: seq<Call>)
    ensures |calls| == n && forall i | 0 <= i < n :: calls[i] == Call(key, now)
  {
    seq(n, i => Call(key, now))
  }

  /** `n` hits that an open bucket has room for are all accepted. */
  lemma {:induction false} BurstAccepted(buckets: Buckets, key: string, limit: nat, windowMs: nat, now: int, n: nat, rest: seq<Call>, lo: int, hi: int)
    returns (after: Buckets)
    requires Open(buckets, key, now) && buckets[key].count + n <= limit && lo <= now < hi
    ensures AcceptedIn(Burst(key, now, n) + rest, Answers(buckets, Burst(key, now, n) + rest, limit, windowMs), key, lo, hi)
         == n + AcceptedIn(rest, Answers(after, rest, limit, windowMs), key, lo, hi)
    ensures key in after && after[key] == Bucket(buckets[key].count + n, buckets[key].resetAt)
    decreases n
  {
    var calls := Burst(key, now, n) + rest;
    if n == 0 {
      assert calls == rest;
      after := buckets;
    } else {
      var next := Hit(buckets, key, limit, windowMs, now).0;
      assert calls[0] == Call(key, now) && calls[1..] == Burst(key, now, n - 1) + rest;
      AnswersHead(buckets, calls, limit, windowMs);
      HitMoves(buckets, calls[0], key, limit, windowMs);
      hide Hit, Answers;
      after := BurstAccepted(next, key, limit, windowMs, now, n - 1, rest, lo, hi);
    }
  }

  /** One hit opens a window, the rest of its room is used at its very end, and the
      next window is used up at its very start. */
  function Straddle(key: string, limit: nat, windowMs: nat): seq<Call>
    requires limit >= 1
  {
    [Call(key, 0)] + (Burst(key, windowMs - 1, limit - 1) + ([Call(key, windowMs)] + (Burst(key, windowMs, limit - 1) + [])))
  }

  /** The hit that opens a window is accepted. */
  lemma OpeningAccepted(buckets: Buckets, key: string, limit: nat, windowMs: nat, now: int, rest: seq<Call>, lo: int, hi: int)
    returns (after: Buckets)
    requires !Open(buckets, key, now)
    ensures AcceptedIn([Call(key, now)] + rest, Answers(buckets, [Call(key, now)] + rest, limit, windowMs), key, lo, hi)
         == (if lo <= now < hi then 1 else 0) + AcceptedIn(rest, Answers(after, rest, limit, windowMs), key, lo, hi)
    ensures key in after && after[key] == Bucket(1, now + windowMs)
  {
    var calls := [Call(key, now)] + rest;
    assert calls[1..] == rest;
    after := Hit(buckets, key, limit, windowMs, now).0;
    AnswersHead(buckets, calls, limit, windowMs);
    HitMoves(buckets, calls[0], key, limit, windowMs);
    hide Hit, Answers;
  }

  lemma StraddleMonotone(key: string, limit: nat, windowMs: nat)
    requires limit >= 1 && windowMs >= 1
    ensures Monotone(Straddle(key, limit, windowMs), 0)
  {
    var calls := Straddle(key, limit, windowMs);
    forall i | 0 <= i < |calls| ensures calls[i].now == if i == 0 then 0 else if i < limit then windowMs - 1 else windowMs { }
  }

  lemma StraddleReachesBound(key: string, limit: nat, windowMs: nat)
    requires limit >= 1 && windowMs >= 2
    ensures Monotone(Straddle(key, limit, windowMs), 0)
    ensures var calls, lo := Straddle(key, limit, windowMs), windowMs - 1;
            AcceptedIn(calls, Answers(map[], calls, limit, windowMs), key, lo, lo + windowMs) == 2 * limit - 1
  {
    hide Answers, AcceptedIn, Burst, Monotone;
    StraddleMonotone(key, limit, windowMs);
    var lo, hi := windowMs - 1, 2 * windowMs - 1;
    var last := Burst(key, windowMs, limit - 1) + [];
    var second := [Call(key, windowMs)] + last;
    var first := Burst(key, windowMs - 1, limit - 1) + second;
    var b1 := OpeningAccepted(map[], key, limit, windowMs, 0, first, lo, hi);
    var b2 := BurstAccepted(b1, key, limit, windowMs, windowMs - 1, limit - 1, second, lo, hi);
    var b3 := OpeningAccepted(b2, key, limit, windowMs, windowMs, last, lo, hi);
    var b4 := BurstAccepted(b3, key, limit, windowMs, windowMs, limit - 1, [], lo, hi);
    NothingAccepted(b4, key, limit, windowMs, lo, hi);
  }

  lemma NothingAccepted(buckets: Buckets, key: string, limit: nat, windowMs: nat, lo: int, hi: int)
    ensures AcceptedIn([], Answers(buckets, [], limit, windowMs), key, lo, hi) == 0
  { }
}
