/** Ordering of dotted version strings and the force-upgrade gate
    (server/src/version/version.service.ts). */
module VersionService {

  /** `s.split('.')`: always at least one part. */
  function Split(s: string): (parts: seq<string>)
    ensures |parts| >= 1
  {
    if s == "" then [""]
    else
      var rest := Split(s[1..]);
      if s[0] == '.' then [""] + rest
      else [[s[0]] + rest[0]] + rest[1..]
  }

  predicate IsDigit(c: char) {
    '0' <= c <= '9'
  }

  function DecimalValue(digits: string): nat
    requires forall c | c in digits :: IsDigit(c)
  {
    if digits == "" then 0
    else
      var k := |digits| - 1;
      assert IsDigit(digits[k]);
      10 * DecimalValue(digits[..k]) + (digits[k] - '0') as nat
  }

  /** `Number(part) || 0` on plain decimal numerals; any other text counts as 0. */
  function PartValue(part: string): nat {
    if forall c | c in part :: IsDigit(c) then DecimalValue(part) else 0
  }

  function Parts(version: string): (values: seq<nat>)
    ensures |values| >= 1
  {
    var texts := Split(version);
    seq(|texts|, i requires 0 <= i < |texts| => PartValue(texts[i]))
  }

  /** `parts[index] ?? 0`. */
  function At(parts: seq<nat>, index: nat): nat {
    if index < |parts| then parts[index] else 0
  }

  function Numeral(n: nat): string {
    var digit := ['0', '1', '2', '3', '4', '5', '6', '7', '8', '9'][n % 10];
    if n < 10 then [digit] else Numeral(n / 10) + [digit]
  }

  /** Numerals joined by dots. */
  function Dotted(values: seq<nat>): string
    requires values != []
  {
    if |values| == 1 then Numeral(values[0]) else Numeral(values[0]) + ("." + Dotted(values[1..]))
  }

  lemma {:induction false} NumeralReads(n: nat)
    ensures forall c | c in Numeral(n) :: IsDigit(c)
    ensures DecimalValue(Numeral(n)) == n
  {
    var t := Numeral(n);
    if n >= 10 {
      NumeralReads(n / 10);
      assert t[..|t| - 1] == Numeral(n / 10);
    }
  }

  lemma {:induction false} SplitFirst(a: string, rest: string)
    requires '.' !in a
    ensures Split(a) == [a] && Split(a + ("." + rest)) == [a] + Split(rest)
  {
    if a == "" {
      assert a + ("." + rest) == "." + rest && ("." + rest)[1..] == rest;
    } else {
      SplitFirst(a[1..], rest);
      assert (a + ("." + rest))[1..] == a[1..] + ("." + rest);
      assert a == [a[0]] + a[1..];
    }
  }

  /** A part counts as 0 exactly when it is not a plain numeral, or nothing but zeros. */
  lemma PartZeroIff(part: string)
    ensures PartValue(part) == 0 <==> (exists c :: c in part && !('0' <= c <= '9')) || forall c | c in part :: c == '0'
  {
    if forall c | c in part :: IsDigit(c) { DecimalZeroIff(part); }
  }

  lemma {:induction false} DecimalZeroIff(digits: string)
    requires forall c | c in digits :: IsDigit(c)
    ensures DecimalValue(digits) == 0 <==> forall c | c in digits :: c == '0'
  {
    if digits != "" {
      var k := |digits| - 1;
      var d := digits[k];
      assert IsDigit(d) && (d - '0') as int == d as int - 48;
      DecimalZeroIff(digits[..k]);
      assert digits == digits[..k] + [d];
      assert d in digits && (d == '0' <==> d as int == 48);
      assert forall c :: c in digits <==> c in digits[..k] || c == d;
    }
  }

  /** Every dotted numeral is read as the numbers it is made of. */
  lemma {:induction false} DottedReads(values: seq<nat>)
    requires values != []
    ensures Parts(Dotted(values)) == values
    decreases |values|
  {
    var first := Numeral(values[0]);
    NumeralReads(values[0]);
    assert '.' !in first;
    assert PartValue(first) == values[0];
    hide Numeral, DecimalValue, PartValue, IsDigit;
    if |values| == 1 {
      SplitFirst(first, "");
      assert Parts(Dotted(values)) == values;
    } else {
      SplitFirst(first, Dotted(values[1..]));
      DottedReads(values[1..]);
      assert values == [values[0]] + values[1..];
      assert Parts(Dotted(values)) == [values[0]] + Parts(Dotted(values[1..]));
    }
  }

  /** The independent reading of a version: an infinite sequence, zero from some
      place on, ordered lexicographically. */
  ghost predicate Agree(a: seq<nat>, b: seq<nat>, upTo: nat) {
    forall j: nat | j < upTo :: At(a, j) == At(b, j)
  }

  ghost predicate Less(a: seq<nat>, b: seq<nat>) {
    exists i: nat :: At(a, i) < At(b, i) && Agree(a, b, i)
  }

  function DropTrailingZeros(parts: seq<nat>): (r: seq<nat>)
    ensures |r| <= |parts|
  {
    if parts != [] && parts[|parts| - 1] == 0 then DropTrailingZeros(parts[..|parts| - 1])
    else parts
  }

  lemma {:induction false} DropTrailingZerosKeeps(parts: seq<nat>, i: nat)
    ensures At(DropTrailingZeros(parts), i) == At(parts, i)
    ensures var r := DropTrailingZeros(parts); r == [] || r[|r| - 1] != 0
    decreases |parts|
  {
    if parts != [] && parts[|parts| - 1] == 0 {
      DropTrailingZerosKeeps(parts[..|parts| - 1], i);
    }
  }

  lemma LongerDiffers(x: seq<nat>, y: seq<nat>)
    requires |x| < |y| && y[|y| - 1] != 0
    ensures At(x, |y| - 1) != At(y, |y| - 1)
  { }

  lemma SamePartsSameTrimmed(a: seq<nat>, b: seq<nat>)
    ensures (forall i: nat :: At(a, i) == At(b, i)) <==> DropTrailingZeros(a) == DropTrailingZeros(b)
  {
    var x, y := DropTrailingZeros(a), DropTrailingZeros(b);
    forall i: nat ensures At(x, i) == At(a, i) && At(y, i) == At(b, i) {
      DropTrailingZerosKeeps(a, i);
      DropTrailingZerosKeeps(b, i);
    }
    if forall i: nat :: At(a, i) == At(b, i) {
      DropTrailingZerosKeeps(a, 0);
      DropTrailingZerosKeeps(b, 0);
      if |x| < |y| { LongerDiffers(x, y); assert false; }
      if |y| < |x| { LongerDiffers(y, x); assert false; }
      forall i | 0 <= i < |x| && |x| == |y| ensures x[i] == y[i] {
        assert At(x, i) == At(y, i);
      }
    }
  }

  /** What the comparison returns: the difference at the first place where the two
      zero-padded sequences differ, 0 when there is none. */
  ghost predicate IsComparison(a: seq<nat>, b: seq<nat>, diff: int) {
    && (diff == 0 ==> forall i: nat :: At(a, i) == At(b, i))
    && (diff != 0 ==> exists i: nat :: Agree(a, b, i) && diff == At(a, i) - At(b, i))
  }

  /** The same value as a function, for use in specifications. */
  function Compare(a: seq<nat>, b: seq<nat>, from: nat := 0): (diff: int)
    decreases |a| + |b| - from
  {
    if from >= |a| && from >= |b| then 0
    else if At(a, from) != At(b, from) then At(a, from) - At(b, from)
    else Compare(a, b, from + 1)
  }

  lemma {:induction false} CompareFinds(a: seq<nat>, b: seq<nat>, from: nat)
    requires Agree(a, b, from)
    ensures IsComparison(a, b, Compare(a, b, from))
    decreases |a| + |b| - from
  {
    if from >= |a| && from >= |b| {
      forall i: nat ensures At(a, i) == At(b, i) { }
    } else if At(a, from) == At(b, from) {
      CompareFinds(a, b, from + 1);
    }
  }

  /** A comparison result is unique, so the loop returns exactly `Compare`. */
  lemma ComparisonUnique(a: seq<nat>, b: seq<nat>, d: int, e: int)
    requires IsComparison(a, b, d) && IsComparison(a, b, e)
    ensures d == e
  {
    if d != 0 && e != 0 {
      var i: nat :| Agree(a, b, i) && d == At(a, i) - At(b, i);
      var j: nat :| Agree(a, b, j) && e == At(a, j) - At(b, j);
      assert i < j ==> At(a, i) == At(b, i);
      assert j < i ==> At(a, j) == At(b, j);
    }
  }

  method CompareVersion(left: string, right: string) returns (diff: int)
    ensures IsComparison(Parts(left), Parts(right), diff)
    ensures diff == Compare(Parts(left), Parts(right))
  {
    var leftParts, rightParts := Parts(left), Parts(right);
    var length := if |leftParts| >= |rightParts| then |leftParts| else |rightParts|;
    CompareFinds(leftParts, rightParts, 0);
    var index := 0;
    while index < length
      invariant 0 <= index <= length
      invariant Agree(leftParts, rightParts, index)
    {
      diff := At(leftParts, index) - At(rightParts, index);
      if diff != 0 {
        ComparisonUnique(leftParts, rightParts, diff, Compare(leftParts, rightParts));
        return;
      }
      index := index + 1;
    }
    diff := 0;
    assert forall i: nat :: At(leftParts, i) == At(rightParts, i);
    ComparisonUnique(leftParts, rightParts, 0, Compare(leftParts, rightParts));
  }

  lemma CompareSign(a: seq<nat>, b: seq<nat>)
    ensures Compare(a, b) < 0 <==> Less(a, b)
    ensures Compare(a, b) > 0 <==> Less(b, a)
    ensures Compare(a, b) == 0 <==> DropTrailingZeros(a) == DropTrailingZeros(b)
  {
    CompareFinds(a, b, 0);
    SamePartsSameTrimmed(a, b);
    var d := Compare(a, b);
    if Less(a, b) {
      var i: nat :| At(a, i) < At(b, i) && Agree(a, b, i);
      ComparisonUnique(a, b, d, At(a, i) - At(b, i));
    }
    if Less(b, a) {
      var i: nat :| At(b, i) < At(a, i) && Agree(b, a, i);
      assert Agree(a, b, i) by {
        forall j: nat | j < i ensures At(a, j) == At(b, j) { assert At(b, j) == At(a, j); }
      }
      ComparisonUnique(a, b, d, At(a, i) - At(b, i));
    }
    if d != 0 {
      var i: nat :| Agree(a, b, i) && d == At(a, i) - At(b, i);
      if d > 0 {
        assert Agree(b, a, i) by {
          forall j: nat | j < i ensures At(b, j) == At(a, j) { assert At(a, j) == At(b, j); }
        }
      }
    }
  }

  /** Total preorder: antisymmetric in sign and transitive. */
  lemma CompareTotalPreorder(a: seq<nat>, b: seq<nat>, c: seq<nat>)
    ensures Compare(a, b) < 0 <==> Compare(b, a) > 0
    ensures Compare(a, b) == 0 <==> Compare(b, a) == 0
    ensures Compare(a, b) <= 0 && Compare(b, c) <= 0 ==> Compare(a, c) <= 0
    ensures Compare(a, b) <= 0 && Compare(b, c) < 0 ==> Compare(a, c) < 0
  {
    CompareSign(a, b);
    CompareSign(b, a);
    CompareSign(b, c);
    CompareSign(a, c);
    CompareSign(c, a);
    SamePartsSameTrimmed(a, b);
    SamePartsSameTrimmed(b, c);
    if Compare(a, b) <= 0 && Compare(b, c) <= 0 && !(Compare(a, b) == 0 && Compare(b, c) == 0) {
      LessOrSameTransitive(a, b, c);
    }
  }

  lemma LessOrSameTransitive(a: seq<nat>, b: seq<nat>, c: seq<nat>)
    requires Less(a, b) || forall i: nat :: At(a, i) == At(b, i)
    requires Less(b, c) || forall i: nat :: At(b, i) == At(c, i)
    requires Less(a, b) || Less(b, c)
    ensures Less(a, c)
  {
    if Less(a, b) && Less(b, c) {
      var i: nat :| At(a, i) < At(b, i) && Agree(a, b, i);
      var j: nat :| At(b, j) < At(c, j) && Agree(b, c, j);
      var k := if i < j then i else j;
      assert At(a, k) < At(c, k) by {
        if i < j { assert At(b, i) == At(c, i); }
        if j < i { assert At(a, j) == At(b, j); }
      }
      AgreeTransitive(a, b, c, k);
    } else if Less(a, b) {
      var i: nat :| At(a, i) < At(b, i) && Agree(a, b, i);
      assert At(b, i) == At(c, i);
      AgreeTransitive(a, b, c, i);
    } else {
      var j: nat :| At(b, j) < At(c, j) && Agree(b, c, j);
      assert At(a, j) == At(b, j);
      AgreeTransitive(a, b, c, j);
    }
  }

  lemma AgreeTransitive(a: seq<nat>, b: seq<nat>, c: seq<nat>, k: nat)
    requires forall j: nat | j < k :: At(a, j) == At(b, j)
    requires forall j: nat | j < k :: At(b, j) == At(c, j)
    ensures Agree(a, c, k)
  {
    forall j: nat | j < k ensures At(a, j) == At(c, j) { assert At(a, j) == At(b, j); }
  }

  datatype VersionPolicy = VersionPolicy(minSupportedVersion: string, forceUpgrade: bool)

  /** `ensureAllowed` does not throw. */
  predicate Allowed(policy: VersionPolicy, appVersion: string) {
    !(policy.forceUpgrade && Compare(Parts(appVersion), Parts(policy.minSupportedVersion)) < 0)
  }

  /** Refused exactly when upgrading is forced and the version is below the minimum, in
      the independent reading of versions. */
  lemma AllowedIff(policy: VersionPolicy, appVersion: string)
    ensures !Allowed(policy, appVersion) <==> policy.forceUpgrade && Less(Parts(appVersion), Parts(policy.minSupportedVersion))
  {
    CompareSign(Parts(appVersion), Parts(policy.minSupportedVersion));
  }

  /** An application that was let in keeps being let in after an upgrade. */
  lemma AllowedUpwardClosed(policy: VersionPolicy, v: string, w: string)
    requires Allowed(policy, v)
    requires Compare(Parts(v), Parts(w)) <= 0
    ensures Allowed(policy, w)
  {
    CompareTotalPreorder(Parts(v), Parts(w), Parts(policy.minSupportedVersion));
  }
}
