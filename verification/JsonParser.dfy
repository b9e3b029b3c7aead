/** A JSON parser after RFC 8259, with JavaScript's reading of repeated keys (the last
    one wins), and the round trips between it and the canonical printer. */
module JsonParser {
  import opened Json
  import opened StableStringify
  import opened Wrappers

  // ---------------------------------------------------------------------------
  // The parser; every function returns what it read and the text after it

  predicate IsBlank(c: CodeUnit) {
    c == 9 || c == 10 || c == 13 || c == 32
  }

  function SkipBlanks(t: Text): (r: Text)
    ensures |r| <= |t|
  {
    if t != [] && IsBlank(t[0]) then SkipBlanks(t[1..]) else t
  }

  function HexValue(c: CodeUnit): Option<int> {
    if 48 <= c <= 57 then Some(c - 48)
    else if 97 <= c <= 102 then Some(c - 87)
    else if 65 <= c <= 70 then Some(c - 55)
    else None
  }

  function ParseHex4(t: Text): (r: Option<CodeUnit>)
    requires |t| >= 4
  {
    var a, b, c, d := HexValue(t[0]), HexValue(t[1]), HexValue(t[2]), HexValue(t[3]);
    if a.None? || b.None? || c.None? || d.None? then None
    else
      var n := a.value * 4096 + b.value * 256 + c.value * 16 + d.value;
      if 0 <= n < 0x1_0000 then Some(n) else None
  }

  /** The code unit a two-character escape stands for. */
  function ShortEscape(c: CodeUnit): Option<CodeUnit> {
    if c == QUOTE || c == BACKSLASH || c == 47 then Some(c)
    else if c == 98 then Some(8)
    else if c == 102 then Some(12)
    else if c == 110 then Some(10)
    else if c == 114 then Some(13)
    else if c == 116 then Some(9)
    else None
  }

  /** The rest of a string whose opening quote has been read. */
  function ParseString(t: Text): (r: Option<(Text, Text)>)
    ensures r.Some? ==> |r.value.1| < |t|
  {
    if t == [] || t[0] < 32 then None
    else if t[0] == QUOTE then Some(([], t[1..]))
    else if t[0] != BACKSLASH then Prepend(t[0], ParseString(t[1..]))
    else if |t| >= 6 && t[1] == 117 then
      var c := ParseHex4(t[2..6]);
      if c.None? then None else Prepend(c.value, ParseString(t[6..]))
    else if |t| >= 2 && ShortEscape(t[1]).Some? then Prepend(ShortEscape(t[1]).value, ParseString(t[2..]))
    else None
  }

  function Prepend(c: CodeUnit, r: Option<(Text, Text)>): Option<(Text, Text)> {
    if r.None? then None else Some(([c] + r.value.0, r.value.1))
  }

  /** The longest prefix of number characters. */
  function NumberPrefix(t: Text): (n: nat)
    ensures n <= |t|
    ensures forall i | 0 <= i < n :: IsNumberUnit(t[i])
    ensures n < |t| ==> !IsNumberUnit(t[n])
  {
    if t != [] && IsNumberUnit(t[0]) then 1 + NumberPrefix(t[1..]) else 0
  }

  predicate StartsWith(t: Text, prefix: Text) {
    |t| >= |prefix| && t[..|prefix|] == prefix
  }

  function ParseValue(text: Text): (r: Option<(Json, Text)>)
    ensures r.Some? ==> |r.value.1| < |text|
    decreases |text|, 0
  {
    var t := SkipBlanks(text);
    if t == [] then None
    else if t[0] == QUOTE then
      var s := ParseString(t[1..]);
      if s.None? then None else Some((Str(s.value.0), s.value.1))
    else if t[0] == OPEN_BRACKET then
      var u := SkipBlanks(t[1..]);
      if u != [] && u[0] == CLOSE_BRACKET then Some((Arr(NoItems), u[1..]))
      else
        var items := ParseItems(t[1..]);
        if items.None? then None else Some((Arr(items.value.0), items.value.1))
    else if t[0] == OPEN_BRACE then
      var u := SkipBlanks(t[1..]);
      if u != [] && u[0] == CLOSE_BRACE then Some((Obj(NoFields), u[1..]))
      else
        var fields := ParseFields(t[1..]);
        if fields.None? then None else Some((Obj(fields.value.0), fields.value.1))
    else if StartsWith(t, NULL_TEXT) then Some((Null, t[4..]))
    else if StartsWith(t, TRUE_TEXT) then Some((Bool(true), t[4..]))
    else if StartsWith(t, FALSE_TEXT) then Some((Bool(false), t[5..]))
    else
      var n := NumberPrefix(t);
      if n > 0 && IsNumeral(t[..n]) then Some((Num(t[..n]), t[n..])) else None
  }

  function ParseItems(text: Text): (r: Option<(Items, Text)>)
    ensures r.Some? ==> |r.value.1| < |text|
    decreases |text|, 1
  {
    var v := ParseValue(text);
    if v.None? then None
    else
      var t := SkipBlanks(v.value.1);
      if t == [] then None
      else if t[0] == CLOSE_BRACKET then Some((Item(v.value.0, NoItems), t[1..]))
      else if t[0] != COMMA then None
      else
        var rest := ParseItems(t[1..]);
        if rest.None? then None else Some((Item(v.value.0, rest.value.0), rest.value.1))
  }

  function ParseFields(text: Text): (r: Option<(Fields, Text)>)
    ensures r.Some? ==> |r.value.1| < |text|
    decreases |text|, 1
  {
    var t := SkipBlanks(text);
    if t == [] || t[0] != QUOTE then None
    else
      var key := ParseString(t[1..]);
      if key.None? then None
      else
        var u := SkipBlanks(key.value.1);
        if u == [] || u[0] != COLON then None
        else
          var v := ParseValue(u[1..]);
          if v.None? then None
          else
            var w := SkipBlanks(v.value.1);
            if w == [] then None
            else if w[0] == CLOSE_BRACE then Some((Field(key.value.0, v.value.0, NoFields), w[1..]))
            else if w[0] != COMMA then None
            else
              var rest := ParseFields(w[1..]);
              if rest.None? then None
              else Some((if key.value.0 in Keys(rest.value.0) then rest.value.0 else Field(key.value.0, v.value.0, rest.value.0), rest.value.1))
  }

  /** `JSON.parse` of a whole text. */
  function Parse(text: Text): Option<Json> {
    var v := ParseValue(text);
    if v.None? || SkipBlanks(v.value.1) != [] then None else Some(v.value.0)
  }

  // ---------------------------------------------------------------------------
  // Strings come back

  lemma HexDigitBack(d: int)
    requires 0 <= d < 16
    ensures HexValue(HexDigit(d)) == Some(d)
  { }

  lemma Nibbles(c: CodeUnit)
    ensures 0 <= c / 4096 < 16 && c == c / 4096 * 4096 + c / 256 % 16 * 256 + c / 16 % 16 * 16 + c % 16
  {
    assert c / 256 == c / 16 / 16 && c / 4096 == c / 256 / 16;
  }

  lemma HexRoundTrip(c: CodeUnit)
    ensures ParseHex4(Hex4(c)) == Some(c)
  {
    hide HexValue, HexDigit;
    Nibbles(c);
    HexDigitBack(c / 4096);
    HexDigitBack(c / 256 % 16);
    HexDigitBack(c / 16 % 16);
    HexDigitBack(c % 16);
  }

  lemma EscapeUnitRoundTrip(c: CodeUnit, rest: Text)
    ensures ParseString(EscapeUnit(c) + rest) == Prepend(c, ParseString(rest))
  {
    hide Hex4, ParseHex4;
    var t := EscapeUnit(c) + rest;
    assert t[|EscapeUnit(c)|..] == rest;
    if |EscapeUnit(c)| == 6 {
      HexRoundTrip(c);
      assert t[2..6] == Hex4(c);
    }
  }

  lemma PlainUnitRoundTrip(c: CodeUnit, rest: Text)
    requires c >= 32 && c != QUOTE && c != BACKSLASH
    ensures ParseString([c] + rest) == Prepend(c, ParseString(rest))
  {
    assert ([c] + rest)[1..] == rest;
  }

  lemma ClosingQuote(rest: Text)
    ensures ParseString([QUOTE] + rest) == Some(([], rest))
  {
    assert ([QUOTE] + rest)[1..] == rest;
  }

  lemma {:induction false} StringRoundTrip(s: Text, rest: Text)
    ensures ParseString(Escape(s) + [QUOTE] + rest) == Some((s, rest))
    decreases |s|
  {
    hide ParseString, EscapeUnit;
    if s == [] {
      assert Escape(s) + [QUOTE] + rest == [QUOTE] + rest;
      ClosingQuote(rest);
    } else if StartsWithPair(s) {
      StringRoundTrip(s[2..], rest);
      var tail := Escape(s[2..]) + [QUOTE] + rest;
      assert Escape(s) + [QUOTE] + rest == [s[0]] + ([s[1]] + tail);
      PlainUnitRoundTrip(s[0], [s[1]] + tail);
      PlainUnitRoundTrip(s[1], tail);
      assert s == [s[0]] + ([s[1]] + s[2..]);
    } else {
      StringRoundTrip(s[1..], rest);
      var tail := Escape(s[1..]) + [QUOTE] + rest;
      assert Escape(s) + [QUOTE] + rest == EscapeUnit(s[0]) + tail;
      EscapeUnitRoundTrip(s[0], tail);
      assert s == [s[0]] + s[1..];
    }
  }

  // ---------------------------------------------------------------------------
  // Numbers come back

  lemma {:induction false} SkipDigitsUnits(t: Text)
    ensures forall c | c in t :: IsDigit(c) || c in SkipDigits(t)
  {
    if t != [] && IsDigit(t[0]) {
      SkipDigitsUnits(t[1..]);
      assert t == [t[0]] + t[1..];
    }
  }

  lemma AfterIntUnits(t: Text)
    requires t != [] && IsDigit(t[0])
    ensures forall c | c in t :: IsNumberUnit(c) || c in AfterInt(t)
  {
    SkipDigitsUnits(t);
    assert t == [t[0]] + t[1..];
  }

  lemma AfterFractionUnits(t: Text)
    ensures forall c | c in t :: IsNumberUnit(c) || c in AfterFraction(t)
  {
    if |t| >= 2 && t[0] == 46 && IsDigit(t[1]) {
      SkipDigitsUnits(t[1..]);
      assert t == [t[0]] + t[1..];
    }
  }

  lemma AfterExponentUnits(t: Text)
    ensures forall c | c in t :: IsNumberUnit(c) || c in AfterExponent(t)
  {
    if |t| >= 2 && (t[0] == 69 || t[0] == 101) {
      SkipDigitsUnits(t[1..]);
      SkipDigitsUnits(t[2..]);
      assert t == [t[0]] + t[1..];
      assert t[1..] == [t[1]] + t[2..];
    }
  }

  lemma NumeralUnits(t: Text)
    requires IsNumeral(t)
    ensures t != [] && (IsDigit(t[0]) || t[0] == 45)
    ensures forall i | 0 <= i < |t| :: IsNumberUnit(t[i])
  {
    var unsigned := if t[0] == 45 then t[1..] else t;
    AfterIntUnits(unsigned);
    AfterFractionUnits(AfterInt(unsigned));
    AfterExponentUnits(AfterFraction(AfterInt(unsigned)));
    forall i | 0 <= i < |t| ensures IsNumberUnit(t[i]) {
      if unsigned == t { assert t[i] in unsigned; }
      else if i > 0 { assert t[i] == unsigned[i - 1]; }
    }
  }

  /** The text after a value does not continue a number. */
  predicate Stops(rest: Text) {
    rest == [] || !IsNumberUnit(rest[0])
  }

  lemma {:induction false} NumberPrefixExact(t: Text, rest: Text)
    requires (forall i | 0 <= i < |t| :: IsNumberUnit(t[i])) && Stops(rest)
    ensures NumberPrefix(t + rest) == |t|
  {
    if t == [] {
      assert t + rest == rest;
    } else {
      assert (t + rest)[1..] == t[1..] + rest;
      NumberPrefixExact(t[1..], rest);
    }
  }

  // ---------------------------------------------------------------------------
  // Values come back

  /** How a printed value begins. */
  predicate ValueHead(c: CodeUnit) {
    !IsBlank(c) && c != CLOSE_BRACKET && c != CLOSE_BRACE && c != COMMA && c != COLON
  }

  lemma RenderHead(v: Json)
    ensures Render(v) != [] && ValueHead(Render(v)[0])
  {
    if v.Num? { NumeralUnits(v.numeral); }
  }

  lemma OtherHead(t: Text, prefix: Text)
    requires t != [] && prefix != [] && t[0] != prefix[0]
    ensures !StartsWith(t, prefix)
  {
    if |t| >= |prefix| { assert t[..|prefix|][0] == t[0]; }
  }

  lemma NumberRoundTrip(numeral: Numeral, rest: Text)
    requires Stops(rest)
    ensures ParseValue(numeral + rest) == Some((Num(numeral), rest))
  {
    NumeralUnits(numeral);
    NumberPrefixExact(numeral, rest);
    var t := numeral + rest;
    assert t[..|numeral|] == numeral && t[|numeral|..] == rest;
    assert t[0] == numeral[0];
    OtherHead(t, NULL_TEXT);
    OtherHead(t, TRUE_TEXT);
    OtherHead(t, FALSE_TEXT);
  }

  lemma LiteralRoundTrip(v: Json, rest: Text)
    requires v.Null? || v.Bool?
    ensures ParseValue(Render(v) + rest) == Some((v, rest))
  {
    var t := Render(v) + rest;
    assert t[..|Render(v)|] == Render(v) && t[|Render(v)|..] == rest;
    assert t[0] == Render(v)[0];
    if v.Bool? { OtherHead(t, NULL_TEXT); }
    if v == Bool(false) { OtherHead(t, TRUE_TEXT); }
  }

  lemma Framed(open: CodeUnit, inner: Text, close: CodeUnit, rest: Text)
    ensures ([open] + inner + [close]) + rest == [open] + (inner + ([close] + rest))
    ensures inner + [close] + rest == inner + ([close] + rest)
  { }

  lemma {:induction false} ValueRoundTrip(v: Json, rest: Text)
    requires WellFormed(v) && Stops(rest)
    ensures ParseValue(Render(v) + rest) == Some((v, rest))
    decreases Size(v), 0
  {
    hide ParseValue, ParseString, ParseItems, ParseFields, Escape;
    match v
    case Num(numeral) => NumberRoundTrip(numeral, rest);
    case Str(s) =>
      StringRoundTrip(s, rest);
      Framed(QUOTE, Escape(s), QUOTE, rest);
      ParseValueString(Escape(s) + [QUOTE] + rest);
    case Arr(items) =>
      var inside := RenderItems(items) + ([CLOSE_BRACKET] + rest);
      Framed(OPEN_BRACKET, RenderItems(items), CLOSE_BRACKET, rest);
      if items.Item? { ItemsRoundTrip(items, rest); } else { assert inside == [CLOSE_BRACKET] + rest; }
      ParseValueArray(inside);
    case Obj(fields) =>
      var inside := RenderFields(fields) + ([CLOSE_BRACE] + rest);
      Framed(OPEN_BRACE, RenderFields(fields), CLOSE_BRACE, rest);
      if fields.Field? { FieldsRoundTrip(fields, rest); } else { assert inside == [CLOSE_BRACE] + rest; }
      ParseValueObject(inside);
    case _ => LiteralRoundTrip(v, rest);
  }

  // One unfolding of the parser on each kind of head.

  lemma ParseValueString(t: Text)
    requires ParseString(t).Some?
    ensures ParseValue([QUOTE] + t) == Some((Str(ParseString(t).value.0), ParseString(t).value.1))
  {
    hide ParseString;
    assert ([QUOTE] + t)[1..] == t;
  }

  lemma ParseValueArray(t: Text)
    requires t != [] && !IsBlank(t[0])
    ensures t[0] == CLOSE_BRACKET ==> ParseValue([OPEN_BRACKET] + t) == Some((Arr(NoItems), t[1..]))
    ensures t[0] != CLOSE_BRACKET && ParseItems(t).Some? ==>
              ParseValue([OPEN_BRACKET] + t) == Some((Arr(ParseItems(t).value.0), ParseItems(t).value.1))
  {
    hide ParseItems;
    assert ([OPEN_BRACKET] + t)[1..] == t;
    assert SkipBlanks(t) == t;
  }

  lemma ParseValueObject(t: Text)
    requires t != [] && !IsBlank(t[0])
    ensures t[0] == CLOSE_BRACE ==> ParseValue([OPEN_BRACE] + t) == Some((Obj(NoFields), t[1..]))
    ensures t[0] != CLOSE_BRACE && ParseFields(t).Some? ==>
              ParseValue([OPEN_BRACE] + t) == Some((Obj(ParseFields(t).value.0), ParseFields(t).value.1))
  {
    hide ParseFields;
    assert ([OPEN_BRACE] + t)[1..] == t;
    assert SkipBlanks(t) == t;
  }

  lemma ParseField(inside: Text, key: Text, text: Text, v: Json, after: Text)
    requires ParseString(inside) == Some((key, [COLON] + text)) && ParseValue(text) == Some((v, after))
    requires after != [] && (after[0] == CLOSE_BRACE || after[0] == COMMA)
    ensures after[0] == CLOSE_BRACE ==> ParseFields([QUOTE] + inside) == Some((Field(key, v, NoFields), after[1..]))
    ensures after[0] == COMMA && ParseFields(after[1..]).Some? && key !in Keys(ParseFields(after[1..]).value.0) ==>
              ParseFields([QUOTE] + inside) == Some((Field(key, v, ParseFields(after[1..]).value.0), ParseFields(after[1..]).value.1))
  {
    hide ParseString, ParseValue;
    assert ([QUOTE] + inside)[1..] == inside;
    assert ([COLON] + text)[1..] == text;
    assert SkipBlanks([QUOTE] + inside) == [QUOTE] + inside && SkipBlanks([COLON] + text) == [COLON] + text && SkipBlanks(after) == after;
  }

  lemma {:induction false} ItemsRoundTrip(items: Items, rest: Text)
    requires items.Item? && ItemsWellFormed(items)
    ensures var t := RenderItems(items) + ([CLOSE_BRACKET] + rest);
            t != [] && ValueHead(t[0]) && ParseItems(t) == Some((items, rest))
    decreases ItemsSize(items), 1
  {
    var after := if items.tail.Item? then [COMMA] + (RenderItems(items.tail) + ([CLOSE_BRACKET] + rest)) else [CLOSE_BRACKET] + rest;
    var t := RenderItems(items) + ([CLOSE_BRACKET] + rest);
    assert t == Render(items.head) + after;
    RenderHead(items.head);
    ValueRoundTrip(items.head, after);
    assert SkipBlanks(after) == after;
    if items.tail.Item? {
      ItemsRoundTrip(items.tail, rest);
      assert after[1..] == RenderItems(items.tail) + ([CLOSE_BRACKET] + rest);
    } else {
      assert after[1..] == rest;
    }
  }

  lemma {:induction false} FieldsRoundTrip(fields: Fields, rest: Text)
    requires fields.Field? && FieldsWellFormed(fields)
    ensures var t := RenderFields(fields) + ([CLOSE_BRACE] + rest);
            t != [] && ValueHead(t[0]) && ParseFields(t) == Some((fields, rest))
    decreases FieldsSize(fields), 1
  {
    hide ParseString, ParseValue, ParseFields, Escape, Render;
    var after := if fields.rest.Field? then [COMMA] + (RenderFields(fields.rest) + ([CLOSE_BRACE] + rest)) else [CLOSE_BRACE] + rest;
    var text := Render(fields.value) + after;
    var inside := Escape(fields.key) + [QUOTE] + ([COLON] + text);
    assert RenderFields(fields) + ([CLOSE_BRACE] + rest) == [QUOTE] + inside;
    StringRoundTrip(fields.key, [COLON] + text);
    ValueRoundTrip(fields.value, after);
    if fields.rest.Field? {
      FieldsRoundTrip(fields.rest, rest);
      assert after[1..] == RenderFields(fields.rest) + ([CLOSE_BRACE] + rest);
    } else {
      assert after[1..] == rest;
    }
    ParseField(inside, fields.key, text, fields.value, after);
  }

  // ---------------------------------------------------------------------------
  // The theorems

  /** Parsing the canonical text recovers the value, up to key order. */
  lemma ParseStringify(v: Json)
    requires WellFormed(v)
    ensures Parse(Stringify(v)) == Some(Canon(v))
    ensures Equivalent(Canon(v), v)
  {
    CanonWellFormed(v);
    StringifyIsRenderCanon(v);
    ValueRoundTrip(Canon(v), []);
    assert Render(Canon(v)) + [] == Render(Canon(v));
    CanonIsFixed(v);
    EquivalentIffCanon(Canon(v), v);
  }

  /** Canonical: two values print alike exactly when they are equal up to key order. */
  lemma StringifyCanonical(v: Json, w: Json)
    requires WellFormed(v) && WellFormed(w)
    ensures Stringify(v) == Stringify(w) <==> Equivalent(v, w)
  {
    ParseStringify(v);
    ParseStringify(w);
    StringifyIsRenderCanon(v);
    StringifyIsRenderCanon(w);
    EquivalentIffCanon(v, w);
  }

  /** The server signs what the SDK signed: printing the value parsed from the
      canonical body gives the body back. */
  lemma SignedPayloadAgrees(body: Json)
    requires WellFormed(body)
    ensures Parse(Stringify(body)).Some?
    ensures Stringify(Parse(Stringify(body)).value) == Stringify(body)
  {
    ParseStringify(body);
    CanonWellFormed(body);
    StringifyCanonical(Canon(body), body);
  }

  /** Putting keys in order twice changes nothing more. */
  lemma {:induction false} CanonIsFixed(v: Json)
    requires WellFormed(v)
    ensures Canon(Canon(v)) == Canon(v)
    decreases Size(v)
  {
    match v
    case Arr(items) => CanonItemsFixed(items);
    case Obj(fields) => CanonFieldsFixed(fields);
    case _ =>
  }

  lemma {:induction false} CanonItemsFixed(items: Items)
    requires ItemsWellFormed(items)
    ensures CanonItems(CanonItems(items)) == CanonItems(items)
    decreases ItemsSize(items)
  {
    if items.Item? {
      CanonIsFixed(items.head);
      CanonItemsFixed(items.tail);
    }
  }

  lemma {:induction false} CanonFieldsFixed(fields: Fields)
    requires FieldsWellFormed(fields)
    ensures CanonFields(CanonFields(fields)) == CanonFields(fields)
    decreases FieldsSize(fields)
  {
    var ordered := CanonFields(fields);
    CanonFieldsWellFormed(fields);
    CanonFieldsKeys(fields);
    CanonFieldsKeys(ordered);
    WellFormedDistinct(fields);
    SortKeysSorted(Keys(fields));
    SortKeysMembers(Keys(fields));
    SortKeysMembers(Keys(ordered));
    WellFormedDistinct(ordered);
    SortKeysSorted(Keys(ordered));
    SortedUnique(Keys(CanonFields(ordered)), Keys(ordered));
    forall k | k in Keys(ordered) ensures Lookup(CanonFields(ordered), k) == Lookup(ordered, k) {
      CanonFieldsLookup(fields, k);
      CanonFieldsLookup(ordered, k);
      WellFormedLookup(fields, k);
      CanonIsFixed(Lookup(fields, k));
    }
    CanonFieldsWellFormed(ordered);
    FieldsEqual(CanonFields(ordered), ordered);
  }

  // ---------------------------------------------------------------------------
  // The text itself, in code units

  /** The literal names and the empty values. */
  lemma PrintedNames(v: Json)
    ensures Render(v) == Ascii("null") <== v == Null
    ensures Render(Bool(true)) == Ascii("true") && Render(Bool(false)) == Ascii("false")
    ensures Render(Arr(NoItems)) == Ascii("[]") && Render(Obj(NoFields)) == Ascii("{}")
  { }

  /** The brackets and the comma of an array of two. */
  lemma PrintedArray(a: Json, b: Json)
    ensures Render(Arr(Item(a, Item(b, NoItems)))) == [91] + Render(a) + [44] + Render(b) + [93]
  {
    assert RenderItems(Item(b, NoItems)) == Render(b);
  }

  /** The braces, the colons, the comma and the quotes of an object of two. */
  lemma PrintedObject(k: Text, a: Json, l: Text, b: Json)
    ensures Quote(k) == [34] + Escape(k) + [34]
    ensures Render(Obj(Field(k, a, Field(l, b, NoFields))))
         == [123] + (Quote(k) + [58] + Render(a) + [44] + (Quote(l) + [58] + Render(b))) + [125]
  {
    LastField(l, b);
    FieldBefore(k, a, Field(l, b, NoFields));
    BracesAround(Field(k, a, Field(l, b, NoFields)));
    QuotesAround(k);
    hide *;
  }

  lemma LastField(k: Text, a: Json)
    ensures RenderFields(Field(k, a, NoFields)) == Quote(k) + [58] + Render(a)
  { }

  lemma FieldBefore(k: Text, a: Json, rest: Fields)
    requires rest.Field?
    ensures RenderFields(Field(k, a, rest)) == Quote(k) + [58] + Render(a) + [44] + RenderFields(rest)
  { }

  lemma QuotesAround(s: Text)
    ensures Quote(s) == [34] + Escape(s) + [34]
  { }

  lemma BracesAround(fields: Fields)
    ensures Render(Obj(fields)) == [123] + RenderFields(fields) + [125]
  { }

  /** The escapes of two units, and the units that stay as they are. */
  lemma ShortEscapes(c: CodeUnit)
    ensures EscapeUnit(c) == [c] <==> c >= 32 && c != 34 && c != 92 && !(0xD800 <= c < 0xE000)
    ensures EscapeUnit(8) == Ascii("\\b") && EscapeUnit(9) == Ascii("\\t") && EscapeUnit(10) == Ascii("\\n")
    ensures EscapeUnit(12) == Ascii("\\f") && EscapeUnit(13) == Ascii("\\r")
    ensures EscapeUnit(34) == Ascii("\\\"") && EscapeUnit(92) == Ascii("\\\\")
  { }

  /** The escapes of six units: four hexadecimal digits in lower case. */
  lemma LongEscapes(d: int, e: int, f: int, g: int)
    requires 0 <= d < 16 && 0 <= e < 16 && 0 <= f < 16 && 0 <= g < 16
    requires var c := 4096 * d + 256 * e + 16 * f + g; (c < 32 && c !in {8, 9, 10, 12, 13}) || 0xD800 <= c < 0xE000
    ensures EscapeUnit(4096 * d + 256 * e + 16 * f + g)
         == [92, 117, LowerHex(d) as int, LowerHex(e) as int, LowerHex(f) as int, LowerHex(g) as int]
  {
    var c := 4096 * d + 256 * e + 16 * f + g;
    HexParts(d, e, f, g);
    DigitsAgree(d);
    DigitsAgree(e);
    DigitsAgree(f);
    DigitsAgree(g);
    hide HexDigit, LowerHex;
    assert EscapeUnit(c) == [92, 117] + Hex4(c);
  }

  lemma HexParts(d: int, e: int, f: int, g: int)
    requires 0 <= d < 16 && 0 <= e < 16 && 0 <= f < 16 && 0 <= g < 16
    ensures var c := 4096 * d + 256 * e + 16 * f + g; c / 4096 == d && c / 256 % 16 == e && c / 16 % 16 == f && c % 16 == g
  {
    var c := 4096 * d + 256 * e + 16 * f + g;
    assert c / 256 == 16 * d + e && c / 16 == 16 * (16 * d + e) + f;
  }

  lemma DigitsAgree(d: int)
    requires 0 <= d < 16
    ensures HexDigit(d) == LowerHex(d) as int
  { }

  function LowerHex(d: int): (c: char)
    requires 0 <= d < 16
    ensures c < 128 as char
  {
    "0123456789abcdef"[d]
  }
}
