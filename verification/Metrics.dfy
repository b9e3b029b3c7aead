/** Request metrics (server/src/monitoring/metrics.service.ts): counters updated in
    place agree with an account of the whole history since the last reset. */
module Metrics {
  import opened Wrappers

  datatype Input = Input(httpMethod: string, path: string, statusCode: int, durationMs: int, code: Option<string>)

  datatype RouteMetric = RouteMetric(count: nat, failures: nat, totalLatencyMs: int, maxLatencyMs: nat)

  function Max(a: nat, b: int): nat {
    if b > a then b else a
  }

  function UpperChar(c: char): char {
    if 'a' <= c <= 'z' then (c - 'a') + 'A' else c
  }

  function ToUpper(s: string): string {
    seq(|s|, i requires 0 <= i < |s| => UpperChar(s[i]))
  }

  function RouteKey(i: Input): string {
    ToUpper(i.httpMethod) + " " + i.path
  }

  predicate Failed(i: Input) {
    i.statusCode >= 400 || (i.code.Some? && i.code.value != "OK")
  }

  /** A failure counted under its code: an empty code is not. */
  predicate FailedWith(i: Input, code: string) {
    Failed(i) && i.code == Some(code) && code != ""
  }

  // ---------------------------------------------------------------------------
  // The account of a history, oldest first

  function All(i: Input): int { 1 }
  function Failures(i: Input): int { if Failed(i) then 1 else 0 }
  function Latency(i: Input): int { i.durationMs }

  function Sum(h: seq<Input>, weight: Input -> int): int {
    if h == [] then 0 else Sum(h[..|h| - 1], weight) + weight(h[|h| - 1])
  }

  function Slowest(h: seq<Input>): nat {
    if h == [] then 0
    else Max(Slowest(h[..|h| - 1]), h[|h| - 1].durationMs)
  }

  /** The part of the history on one route. */
  function OnRoute(h: seq<Input>, key: string): seq<Input> {
    if h == [] then []
    else OnRoute(h[..|h| - 1], key) + if RouteKey(h[|h| - 1]) == key then [h[|h| - 1]] else []
  }

  function WithCode(h: seq<Input>, code: string): nat {
    if h == [] then 0
    else WithCode(h[..|h| - 1], code) + if FailedWith(h[|h| - 1], code) then 1 else 0
  }

  ghost predicate DescribesRoute(m: RouteMetric, h: seq<Input>) {
    m.count == |h| && m.failures == Sum(h, Failures) && m.totalLatencyMs == Sum(h, Latency) && m.maxLatencyMs == Slowest(h)
  }

  /** Exactly the routes that were hit are listed, each with its own account. */
  ghost predicate RoutesRight(routes: map<string, RouteMetric>, h: seq<Input>) {
    && (forall k | k in routes :: DescribesRoute(routes[k], OnRoute(h, k)) && OnRoute(h, k) != [])
    && (forall k | k !in routes :: OnRoute(h, k) == [])
  }

  ghost predicate CodesRight(codes: map<string, nat>, h: seq<Input>) {
    && (forall c | c in codes :: codes[c] == WithCode(h, c) && codes[c] > 0)
    && (forall c | c !in codes :: WithCode(h, c) == 0)
  }

  // ---------------------------------------------------------------------------
  // The service

  class MetricsService {
    var startedAt: int
    var totalRequests: nat
    var failedRequests: nat
    var totalLatencyMs: int
    var maxLatencyMs: nat
    var routes: map<string, RouteMetric>
    var errorCodes: map<string, nat>
    ghost var history: seq<Input>

    /** The counters are exactly the account of the history since the last reset. */
    ghost predicate Valid()
      reads this
    {
      && totalRequests == |history|
      && failedRequests == Sum(history, Failures)
      && totalLatencyMs == Sum(history, Latency)
      && maxLatencyMs == Slowest(history)
      && RoutesRight(routes, history)
      && CodesRight(errorCodes, history)
    }

    constructor (now: int)
      ensures Valid() && history == [] && startedAt == now
    {
      startedAt, totalRequests, failedRequests, totalLatencyMs, maxLatencyMs := now, 0, 0, 0, 0;
      routes, errorCodes, history := map[], map[], [];
    }

    method Record(input: Input)
      requires Valid()
      modifies this
      ensures Valid() && history == old(history) + [input] && startedAt == old(startedAt)
    {
      hide RoutesRight, CodesRight, Slowest, Sum, RouteKey, FailedWith, Latency, OnRoute, WithCode, DescribesRoute, ToUpper;
      RouteRecorded(routes, history, input);
      CodeRecorded(errorCodes, history, input);
      Recorded(history, input);
      totalRequests := totalRequests + 1;
      totalLatencyMs := totalLatencyMs + input.durationMs;
      maxLatencyMs := Max(maxLatencyMs, input.durationMs);
      var failed := input.statusCode >= 400 || (input.code.Some? && input.code.value != "OK");
      if failed {
        failedRequests := failedRequests + 1;
        if input.code.Some? && input.code.value != "" {
          var code := input.code.value;
          errorCodes := errorCodes[code := (if code in errorCodes then errorCodes[code] else 0) + 1];
        }
      }
      var key := RouteKey(input);
      var route := if key in routes then routes[key] else RouteMetric(0, 0, 0, 0);
      route := route.(count := route.count + 1,
                      failures := route.failures + if failed then 1 else 0,
                      totalLatencyMs := route.totalLatencyMs + input.durationMs,
                      maxLatencyMs := Max(route.maxLatencyMs, input.durationMs));
      routes := routes[key := route];
      history := history + [input];
    }

    method Reset(now: int)
      modifies this
      ensures Valid() && history == [] && startedAt == now
    {
      startedAt := now;
      totalRequests := 0;
      failedRequests := 0;
      totalLatencyMs := 0;
      maxLatencyMs := 0;
      routes := map[];
      errorCodes := map[];
      history := [];
    }
  }

  function Bumped(m: RouteMetric, i: Input): RouteMetric {
    RouteMetric(m.count + 1, m.failures + if Failed(i) then 1 else 0, m.totalLatencyMs + i.durationMs,
                Max(m.maxLatencyMs, i.durationMs))
  }

  lemma Recorded(h: seq<Input>, i: Input)
    ensures Sum(h + [i], Failures) == Sum(h, Failures) + Failures(i)
    ensures Sum(h + [i], Latency) == Sum(h, Latency) + i.durationMs
    ensures Slowest(h + [i]) == Max(Slowest(h), i.durationMs)
  {
    assert (h + [i])[..|h|] == h;
  }

  lemma BumpedDescribes(m: RouteMetric, h: seq<Input>, i: Input)
    requires DescribesRoute(m, h)
    ensures DescribesRoute(Bumped(m, i), h + [i])
  {
    Recorded(h, i);
  }

  lemma RouteRecorded(routes: map<string, RouteMetric>, h: seq<Input>, i: Input)
    requires RoutesRight(routes, h)
    ensures var k := RouteKey(i);
            RoutesRight(routes[k := Bumped(if k in routes then routes[k] else RouteMetric(0, 0, 0, 0), i)], h + [i])
  {
    hide DescribesRoute, RouteKey, Bumped;
    var k := RouteKey(i);
    var m := if k in routes then routes[k] else RouteMetric(0, 0, 0, 0);
    assert (h + [i])[..|h|] == h;
    EmptyDescribed();
    BumpedDescribes(m, OnRoute(h, k), i);
    forall j ensures OnRoute(h + [i], j) == if j == k then OnRoute(h, k) + [i] else OnRoute(h, j) {
      assert OnRoute(h, j) + [] == OnRoute(h, j);
    }
  }

  lemma EmptyDescribed()
    ensures DescribesRoute(RouteMetric(0, 0, 0, 0), [])
  { }

  lemma CodeRecorded(codes: map<string, nat>, h: seq<Input>, i: Input)
    requires CodesRight(codes, h)
    ensures var counted := Failed(i) && i.code.Some? && i.code.value != "";
            CodesRight(if counted then codes[i.code.value := (if i.code.value in codes then codes[i.code.value] else 0) + 1] else codes, h + [i])
  {
    assert (h + [i])[..|h|] == h;
    forall c ensures WithCode(h + [i], c) == WithCode(h, c) + if FailedWith(i, c) then 1 else 0 { }
  }

  /** What counts as a failure, and under which code it is listed. */
  lemma FailureCounted(h: seq<Input>, i: Input)
    ensures Sum(h + [i], Failures) == Sum(h, Failures) + if i.statusCode >= 400 || (i.code.Some? && i.code.value != "OK") then 1 else 0
    ensures forall c :: WithCode(h + [i], c) == WithCode(h, c) +
              if (i.statusCode >= 400 || c != "OK") && i.code == Some(c) && c != "" then 1 else 0
  {
    assert (h + [i])[..|h|] == h;
  }

  /** The slowest request: at least as slow as any, and one of them unless it is 0. */
  lemma {:induction false} SlowestIsMaximum(h: seq<Input>)
    ensures forall i | 0 <= i < |h| :: h[i].durationMs <= Slowest(h)
    ensures Slowest(h) == 0 || exists i :: 0 <= i < |h| && h[i].durationMs == Slowest(h)
  {
    if h != [] {
      var n := |h| - 1;
      SlowestIsMaximum(h[..n]);
      assert forall i | 0 <= i < n :: h[..n][i] == h[i];
      if Slowest(h) != 0 && Slowest(h) != h[n].durationMs {
        var i :| 0 <= i < n && h[..n][i].durationMs == Slowest(h[..n]);
        assert h[i].durationMs == Slowest(h);
      }
    }
  }

  /** Requests share a route exactly if their paths are equal and their methods are up to
      the case of their letters, for methods without a space. */
  lemma SameRouteIff(i: Input, j: Input)
    requires ' ' !in i.httpMethod && ' ' !in j.httpMethod
    ensures RouteKey(i) == RouteKey(j) <==> i.path == j.path && ToUpper(i.httpMethod) == ToUpper(j.httpMethod)
  {
    var a, b := ToUpper(i.httpMethod), ToUpper(j.httpMethod);
    var s, t := RouteKey(i), RouteKey(j);
    assert forall k | 0 <= k < |a| :: s[k] == a[k] && a[k] != ' ';
    assert forall k | 0 <= k < |b| :: t[k] == b[k] && b[k] != ' ';
    assert s[|a|] == ' ' && t[|b|] == ' ';
    if s == t {
      assert |a| == |b|;
      assert s[..|a|] == a && t[..|b|] == b;
      assert s[|a| + 1..] == i.path && t[|b| + 1..] == j.path;
    }
  }

  lemma UpperCased()
    ensures forall c: char | 'a' <= c <= 'z' :: UpperChar(c) as int == c as int - 32
    ensures forall c: char | !('a' <= c <= 'z') :: UpperChar(c) == c
    ensures ToUpper("get") == "GET" && RouteKey(Input("post", "/api", 200, 0, None)) == "POST /api"
  { }

  // ---------------------------------------------------------------------------
  // Totals against routes. `order` is any listing of the routes without repeats, like
  // the sorted one in a snapshot.

  predicate NoRepeats(order: seq<string>) {
    forall i, j | 0 <= i < j < |order| :: order[i] != order[j]
  }

  predicate Covers(order: seq<string>, h: seq<Input>) {
    forall i | 0 <= i < |h| :: RouteKey(h[i]) in order
  }

  function SumOverRoutes(order: seq<string>, h: seq<Input>, weight: Input -> int): int {
    if order == [] then 0 else SumOverRoutes(order[1..], h, weight) + Sum(OnRoute(h, order[0]), weight)
  }

  lemma {:induction false} OneRouteGrows(order: seq<string>, h: seq<Input>, i: Input, weight: Input -> int)
    requires NoRepeats(order)
    ensures SumOverRoutes(order, h + [i], weight) == SumOverRoutes(order, h, weight) + if RouteKey(i) in order then weight(i) else 0
  {
    if order != [] {
      var k := order[0];
      OneRouteGrows(order[1..], h, i, weight);
      assert (h + [i])[..|h|] == h;
      var part := OnRoute(h, k);
      assert (part + [i])[..|part|] == part && part + [] == part;
      assert k !in order[1..];
      assert RouteKey(i) in order <==> RouteKey(i) == k || RouteKey(i) in order[1..];
    }
  }

  /** Any total over the history is the sum of the same total over the routes. */
  lemma {:induction false} TotalIsSumOverRoutes(order: seq<string>, h: seq<Input>, weight: Input -> int)
    requires NoRepeats(order) && Covers(order, h)
    ensures Sum(h, weight) == SumOverRoutes(order, h, weight)
  {
    hide RouteKey, OnRoute, SumOverRoutes, NoRepeats;
    if h == [] {
      NothingOnRoutes(order, weight);
    } else {
      var last := |h| - 1;
      assert h[last] == h[|h| - 1] && forall i | 0 <= i < last :: h[..last][i] == h[i];
      TotalIsSumOverRoutes(order, h[..last], weight);
      OneRouteGrows(order, h[..last], h[last], weight);
      assert h[..last] + [h[last]] == h;
    }
  }

  lemma {:induction false} NothingOnRoutes(order: seq<string>, weight: Input -> int)
    ensures SumOverRoutes(order, [], weight) == 0
  {
    if order != [] { NothingOnRoutes(order[1..], weight); }
  }

  lemma {:induction false} CountIsSum(h: seq<Input>)
    ensures Sum(h, All) == |h|
  {
    if h != [] { CountIsSum(h[..|h| - 1]); }
  }

  /** The listed metrics, summed. */
  function SumOf(order: seq<string>, routes: map<string, RouteMetric>, field: RouteMetric -> int): int
    requires forall i | 0 <= i < |order| :: order[i] in routes
  {
    if order == [] then 0 else SumOf(order[1..], routes, field) + field(routes[order[0]])
  }

  lemma {:induction false} ListedSums(order: seq<string>, routes: map<string, RouteMetric>, h: seq<Input>)
    requires RoutesRight(routes, h) && forall i | 0 <= i < |order| :: order[i] in routes
    ensures SumOf(order, routes, (m: RouteMetric) => m.count) == SumOverRoutes(order, h, All)
    ensures SumOf(order, routes, (m: RouteMetric) => m.failures) == SumOverRoutes(order, h, Failures)
    ensures SumOf(order, routes, (m: RouteMetric) => m.totalLatencyMs) == SumOverRoutes(order, h, Latency)
  {
    if order != [] {
      ListedSums(order[1..], routes, h);
      assert order[0] in routes;
      CountIsSum(OnRoute(h, order[0]));
    }
  }

  lemma {:induction false} HitsAreOnTheirRoute(h: seq<Input>, i: nat)
    requires i < |h|
    ensures h[i] in OnRoute(h, RouteKey(h[i]))
  {
    if i < |h| - 1 { HitsAreOnTheirRoute(h[..|h| - 1], i); }
  }

  ghost predicate Lists(order: seq<string>, routes: map<string, RouteMetric>) {
    NoRepeats(order) && (forall i | 0 <= i < |order| :: order[i] in routes) && (forall k | k in routes :: k in order)
  }

  /** The global counters are the sums of the listed routes' counters. */
  lemma TotalsAreSums(order: seq<string>, routes: map<string, RouteMetric>, h: seq<Input>)
    requires RoutesRight(routes, h) && Lists(order, routes)
    ensures |h| == SumOf(order, routes, (m: RouteMetric) => m.count)
    ensures Sum(h, Failures) == SumOf(order, routes, (m: RouteMetric) => m.failures)
    ensures Sum(h, Latency) == SumOf(order, routes, (m: RouteMetric) => m.totalLatencyMs)
  {
    forall i | 0 <= i < |h| ensures RouteKey(h[i]) in order {
      HitsAreOnTheirRoute(h, i);
      assert RouteKey(h[i]) in routes;
    }
    hide RoutesRight, OnRoute, RouteKey;
    TotalIsSumOverRoutes(order, h, All);
    TotalIsSumOverRoutes(order, h, Failures);
    TotalIsSumOverRoutes(order, h, Latency);
    ListedSums(order, routes, h);
    CountIsSum(h);
  }

  lemma {:induction false} SlowestBounds(h: seq<Input>)
    ensures forall i | 0 <= i < |h| :: h[i].durationMs <= Slowest(h)
    ensures Slowest(h) == 0 || exists i :: 0 <= i < |h| && h[i].durationMs == Slowest(h)
  {
    if h != [] {
      var last := |h| - 1;
      SlowestBounds(h[..last]);
      forall i | 0 <= i < |h| ensures h[i].durationMs <= Slowest(h) {
        if i < last { assert h[i] == h[..last][i]; }
      }
      if Slowest(h) != 0 {
        if Slowest(h) == h[last].durationMs {
        } else {
          var i :| 0 <= i < last && h[..last][i].durationMs == Slowest(h[..last]);
          assert h[i].durationMs == Slowest(h);
        }
      }
    }
  }

  lemma {:induction false} OnRouteIsPart(h: seq<Input>, k: string)
    ensures forall i | i in OnRoute(h, k) :: i in h
  {
    if h != [] { OnRouteIsPart(h[..|h| - 1], k); }
  }

  /** The global maximum is the maximum over the routes: none exceeds it, and one
      reaches it unless it is 0. */
  lemma MaximumIsOverRoutes(routes: map<string, RouteMetric>, h: seq<Input>)
    requires RoutesRight(routes, h)
    ensures forall k | k in routes :: routes[k].maxLatencyMs <= Slowest(h)
    ensures Slowest(h) == 0 || exists k :: k in routes && routes[k].maxLatencyMs == Slowest(h)
  {
    hide OnRoute, RouteKey, Slowest, Sum;
    SlowestBounds(h);
    forall k | k in routes ensures routes[k].maxLatencyMs <= Slowest(h) {
      RouteNotSlower(h, k);
    }
    if Slowest(h) != 0 {
      var i :| 0 <= i < |h| && h[i].durationMs == Slowest(h);
      var k := RouteKey(h[i]);
      HitsAreOnTheirRoute(h, i);
      RouteNotSlower(h, k);
      SlowestBounds(OnRoute(h, k));
      assert k in routes && routes[k].maxLatencyMs == Slowest(h);
    }
  }

  lemma RouteNotSlower(h: seq<Input>, k: string)
    ensures Slowest(OnRoute(h, k)) <= Slowest(h)
  {
    hide OnRoute, Slowest;
    SlowestBounds(h);
    var part := OnRoute(h, k);
    SlowestBounds(part);
    OnRouteIsPart(h, k);
    if Slowest(part) != 0 {
      var i :| 0 <= i < |part| && part[i].durationMs == Slowest(part);
      assert part[i] in h;
    }
  }

  // ---------------------------------------------------------------------------
  // Error codes against failures

  function SumOverCodes(order: seq<string>, h: seq<Input>): nat {
    if order == [] then 0 else SumOverCodes(order[1..], h) + WithCode(h, order[0])
  }

  /** Failures that carry no code, or an empty one. */
  function Uncoded(i: Input): int {
    if Failed(i) && (i.code.None? || i.code.value == "") then 1 else 0
  }

  lemma {:induction false} OneCodeGrows(order: seq<string>, h: seq<Input>, i: Input)
    requires NoRepeats(order)
    ensures SumOverCodes(order, h + [i]) == SumOverCodes(order, h) +
              if Failed(i) && i.code.Some? && i.code.value != "" && i.code.value in order then 1 else 0
  {
    if order != [] {
      OneCodeGrows(order[1..], h, i);
      assert (h + [i])[..|h|] == h;
      assert order[0] !in order[1..];
    }
  }

  lemma {:induction false} NoCodes(order: seq<string>)
    ensures SumOverCodes(order, []) == 0
  {
    if order != [] { NoCodes(order[1..]); }
  }

  lemma {:induction false} CodesOverHistory(order: seq<string>, h: seq<Input>)
    requires NoRepeats(order)
    requires forall i | 0 <= i < |h| && Failed(h[i]) && h[i].code.Some? && h[i].code.value != "" :: h[i].code.value in order
    ensures SumOverCodes(order, h) + Sum(h, Uncoded) == Sum(h, Failures)
    ensures SumOverCodes(order, h) <= Sum(h, Failures)
  {
    if h == [] {
      NoCodes(order);
    } else {
      var last := |h| - 1;
      CodesOverHistory(order, h[..last]);
      OneCodeGrows(order, h[..last], h[last]);
      assert h[..last] + [h[last]] == h;
    }
    UncodedNonNegative(h);
  }

  /** The stored counts of the listed codes, summed. */
  function SumOfCodes(order: seq<string>, codes: map<string, nat>): nat
    requires forall i | 0 <= i < |order| :: order[i] in codes
  {
    if order == [] then 0 else SumOfCodes(order[1..], codes) + codes[order[0]]
  }

  lemma {:induction false} ListedCodes(order: seq<string>, codes: map<string, nat>, h: seq<Input>)
    requires CodesRight(codes, h) && forall i | 0 <= i < |order| :: order[i] in codes
    ensures SumOfCodes(order, codes) == SumOverCodes(order, h)
  {
    hide WithCode;
    if order != [] {
      assert order[0] in codes;
      ListedCodes(order[1..], codes, h);
    }
  }

  lemma {:induction false} CodedIsCounted(h: seq<Input>, i: nat)
    requires i < |h| && h[i].code.Some? && FailedWith(h[i], h[i].code.value)
    ensures WithCode(h, h[i].code.value) > 0
  {
    if i < |h| - 1 { CodedIsCounted(h[..|h| - 1], i); }
  }

  /** Over any listing of the stored codes without repeats, the stored counts add up to
      the failures but for those without a code, hence to at most the failures. */
  lemma CodesSumToFailures(order: seq<string>, codes: map<string, nat>, h: seq<Input>)
    requires CodesRight(codes, h) && NoRepeats(order)
    requires (forall i | 0 <= i < |order| :: order[i] in codes) && (forall c | c in codes :: c in order)
    ensures SumOfCodes(order, codes) + Sum(h, Uncoded) == Sum(h, Failures)
    ensures SumOfCodes(order, codes) <= Sum(h, Failures)
  {
    forall i | 0 <= i < |h| && Failed(h[i]) && h[i].code.Some? && h[i].code.value != "" ensures h[i].code.value in order {
      CodedIsCounted(h, i);
    }
    hide CodesRight;
    CodesOverHistory(order, h);
    ListedCodes(order, codes, h);
  }

  lemma {:induction false} UncodedNonNegative(h: seq<Input>)
    ensures Sum(h, Uncoded) >= 0
  {
    if h != [] { UncodedNonNegative(h[..|h| - 1]); }
  }

  // ---------------------------------------------------------------------------
  // The rates of a snapshot, over the rationals

  function Rounded(x: real): int {
    (x + 0.5).Floor
  }

  function Ratio(value: int, total: int): real {
    if total > 0 then Rounded(value as real / total as real * 10000.0) as real / 10000.0 else 0.0
  }

  lemma {:induction false} FailuresBounded(h: seq<Input>)
    ensures 0 <= Sum(h, Failures) <= |h|
  {
    if h != [] { FailuresBounded(h[..|h| - 1]); }
  }

  lemma RoundedWithin(x: real, scale: real)
    requires scale > 0.0 && 0.0 <= x <= 1.0 && scale == scale.Floor as real
    ensures 0.0 <= Rounded(x * scale) as real <= scale
    ensures x * scale - 0.5 <= Rounded(x * scale) as real <= x * scale + 0.5
  {
    assert 0.0 <= x * scale <= scale;
    assert (x * scale + 0.5).Floor as real <= x * scale + 0.5 < (x * scale + 0.5).Floor as real + 1.0;
    assert (x * scale + 0.5).Floor <= scale.Floor;
  }

  /** The reported failure rate lies between 0 and 1 and within half of 1/10000 of the
      true share of failures. */
  lemma FailureRateIsClose(h: seq<Input>)
    requires h != []
    ensures var rate, share := Ratio(Sum(h, Failures), |h|), Sum(h, Failures) as real / |h| as real;
            0.0 <= rate <= 1.0 && share - 0.00005 <= rate <= share + 0.00005
  {
    FailuresBounded(h);
    RoundedWithin(Sum(h, Failures) as real / |h| as real, 10000.0);
  }
}
