/** JSON values and the pieces of JSON text they share (RFC 8259 sections 3 to 7).
    Text is a sequence of UTF-16 code units, as in JavaScript strings. */
module Json {

  type CodeUnit = n: int | 0 <= n < 0x1_0000
  type Text = seq<CodeUnit>

  /** A text literal. */
  function Ascii(s: string): Text
    requires forall i | 0 <= i < |s| :: s[i] < 128 as char
  {
    seq(|s|, i requires 0 <= i < |s| => s[i] as int)
  }

  const QUOTE: CodeUnit := 34
  const COMMA: CodeUnit := 44
  const COLON: CodeUnit := 58
  const OPEN_BRACKET: CodeUnit := 91
  const BACKSLASH: CodeUnit := 92
  const CLOSE_BRACKET: CodeUnit := 93
  const OPEN_BRACE: CodeUnit := 123
  const CLOSE_BRACE: CodeUnit := 125

  const NULL_TEXT: Text := [110, 117, 108, 108]
  const TRUE_TEXT: Text := [116, 114, 117, 101]
  const FALSE_TEXT: Text := [102, 97, 108, 115, 101]

  // ---------------------------------------------------------------------------
  // Numbers

  predicate IsDigit(c: CodeUnit) {
    48 <= c <= 57
  }

  /** Digits, sign, point and exponent marks. */
  predicate IsNumberUnit(c: CodeUnit) {
    IsDigit(c) || c == 43 || c == 45 || c == 46 || c == 69 || c == 101
  }

  function SkipDigits(t: Text): (r: Text)
    ensures |r| <= |t|
  {
    if t != [] && IsDigit(t[0]) then SkipDigits(t[1..]) else t
  }

  /** `int`: a zero, or digits without a leading zero. */
  function AfterInt(t: Text): Text
    requires t != [] && IsDigit(t[0])
  {
    if t[0] == 48 then t[1..] else SkipDigits(t)
  }

  /** `[ frac ]`. */
  function AfterFraction(t: Text): Text {
    if |t| >= 2 && t[0] == 46 && IsDigit(t[1]) then SkipDigits(t[1..]) else t
  }

  /** `[ exp ]`. */
  function AfterExponent(t: Text): Text {
    if |t| >= 2 && (t[0] == 69 || t[0] == 101) then
      if IsDigit(t[1]) then SkipDigits(t[1..])
      else if |t| >= 3 && (t[1] == 43 || t[1] == 45) && IsDigit(t[2]) then SkipDigits(t[2..])
      else t
    else t
  }

  /** RFC 8259 section 6. */
  predicate IsNumeral(t: Text) {
    var unsigned := if t != [] && t[0] == 45 then t[1..] else t;
    unsigned != [] && IsDigit(unsigned[0]) && AfterExponent(AfterFraction(AfterInt(unsigned))) == []
  }

  // A finite number stands for the numeral JavaScript prints for it; the numeral
  // determines the number.
  type Numeral = t: Text | IsNumeral(t) witness [48]

  // ---------------------------------------------------------------------------
  // Values

  datatype Json =
    | Null
    | Bool(b: bool)
    | Num(numeral: Numeral)
    | Str(s: Text)
    | Arr(items: Items)
    | Obj(fields: Fields)

  datatype Items = NoItems | Item(head: Json, tail: Items)

  // Own properties in creation order.
  datatype Fields = NoFields | Field(key: Text, value: Json, rest: Fields)

  function Size(v: Json): (n: nat)
    ensures n >= 1
  {
    match v
    case Arr(items) => 1 + ItemsSize(items)
    case Obj(fields) => 1 + FieldsSize(fields)
    case _ => 1
  }

  function ItemsSize(items: Items): nat {
    match items
    case NoItems => 0
    case Item(head, tail) => 1 + Size(head) + ItemsSize(tail)
  }

  function FieldsSize(fields: Fields): nat {
    match fields
    case NoFields => 0
    case Field(_, value, rest) => 1 + Size(value) + FieldsSize(rest)
  }

  /** `Object.keys`. */
  function Keys(fields: Fields): seq<Text> {
    match fields
    case NoFields => []
    case Field(key, _, rest) => [key] + Keys(rest)
  }

  /** `object[key]`. */
  function Lookup(fields: Fields, key: Text): (v: Json)
    requires key in Keys(fields)
    ensures Size(v) < FieldsSize(fields)
  {
    if fields.key == key then fields.value else Lookup(fields.rest, key)
  }

  /** Keys of one object are distinct, at every level. */
  predicate WellFormed(v: Json) {
    match v
    case Arr(items) => ItemsWellFormed(items)
    case Obj(fields) => FieldsWellFormed(fields)
    case _ => true
  }

  predicate ItemsWellFormed(items: Items) {
    match items
    case NoItems => true
    case Item(head, tail) => WellFormed(head) && ItemsWellFormed(tail)
  }

  predicate FieldsWellFormed(fields: Fields) {
    match fields
    case NoFields => true
    case Field(key, value, rest) => key !in Keys(rest) && WellFormed(value) && FieldsWellFormed(rest)
  }

  /** Equal up to the order of object keys. */
  ghost predicate Equivalent(v: Json, w: Json)
    decreases Size(v)
  {
    match (v, w)
    case (Arr(xs), Arr(ys)) => ItemsEquivalent(xs, ys)
    case (Obj(fs), Obj(gs)) =>
      && (forall k :: k in Keys(fs) <==> k in Keys(gs))
      && forall k | k in Keys(fs) && k in Keys(gs) :: Equivalent(Lookup(fs, k), Lookup(gs, k))
    case _ => v == w
  }

  ghost predicate ItemsEquivalent(xs: Items, ys: Items)
    decreases ItemsSize(xs)
  {
    match (xs, ys)
    case (NoItems, NoItems) => true
    case (Item(x, xt), Item(y, yt)) => Equivalent(x, y) && ItemsEquivalent(xt, yt)
    case _ => false
  }

  // ---------------------------------------------------------------------------
  // Strings

  predicate IsHighSurrogate(c: CodeUnit) {
    0xD800 <= c <= 0xDBFF
  }

  predicate IsLowSurrogate(c: CodeUnit) {
    0xDC00 <= c <= 0xDFFF
  }

  function HexDigit(d: int): CodeUnit
    requires 0 <= d < 16
  {
    if d < 10 then 48 + d else 87 + d
  }

  function Hex4(c: CodeUnit): (t: Text)
    ensures |t| == 4
  {
    [HexDigit(c / 4096), HexDigit(c / 256 % 16), HexDigit(c / 16 % 16), HexDigit(c % 16)]
  }

  /** One code unit that is not half of a surrogate pair. */
  function EscapeUnit(c: CodeUnit): (t: Text)
    ensures t != []
  {
    if c == QUOTE || c == BACKSLASH then [BACKSLASH, c]
    else if c == 8 then [BACKSLASH, 98]
    else if c == 9 then [BACKSLASH, 116]
    else if c == 10 then [BACKSLASH, 110]
    else if c == 12 then [BACKSLASH, 102]
    else if c == 13 then [BACKSLASH, 114]
    else if c < 32 || IsHighSurrogate(c) || IsLowSurrogate(c) then [BACKSLASH, 117] + Hex4(c)
    else [c]
  }

  predicate StartsWithPair(s: Text) {
    |s| >= 2 && IsHighSurrogate(s[0]) && IsLowSurrogate(s[1])
  }

  function Escape(s: Text): Text {
    if s == [] then []
    else if StartsWithPair(s) then [s[0], s[1]] + Escape(s[2..])
    else EscapeUnit(s[0]) + Escape(s[1..])
  }

  /** `JSON.stringify` of a string. */
  function Quote(s: Text): Text {
    [QUOTE] + Escape(s) + [QUOTE]
  }
}
