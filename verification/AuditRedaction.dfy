/** Redaction of payloads before they are logged (server/src/audit/audit.service.ts). */
module AuditRedaction {
  import Json

  type Text = Json.Text

  // The JavaScript values a payload is built from. A date stands for its ISO text.
  datatype Value =
    | Undefined
    | Null
    | Bool(b: bool)
    | Num(numeral: Json.Numeral)
    | Str(s: Text)
    | Date(iso: Text)
    | Arr(items: Items)
    | Obj(entries: Entries)

  datatype Items = NoItems | Item(head: Value, tail: Items)
  datatype Entries = NoEntries | Entry(key: Text, value: Value, rest: Entries)

  // ---------------------------------------------------------------------------
  // Which keys are sensitive

  function Lower(c: Json.CodeUnit): Json.CodeUnit {
    if 65 <= c <= 90 then c + 32 else c
  }

  function LowerCase(t: Text): Text {
    seq(|t|, i requires 0 <= i < |t| => Lower(t[i]))
  }

  predicate OccursAt(t: Text, part: Text, i: nat) {
    i + |part| <= |t| && t[i..i + |part|] == part
  }

  predicate Contains(t: Text, part: Text) {
    exists i | 0 <= i <= |t| :: OccursAt(t, part, i)
  }

  /** `/token|secret|password|licensekey/i`. */
  predicate MatchesPattern(key: Text) {
    var lower := LowerCase(key);
    || Contains(lower, Json.Ascii("token")) || Contains(lower, Json.Ascii("secret"))
    || Contains(lower, Json.Ascii("password")) || Contains(lower, Json.Ascii("licensekey"))
  }

  const LISTED_KEYS: set<Text> := {
    Json.Ascii("licenseKey"), Json.Ascii("leaseToken"), Json.Ascii("requestSigningSecret"), Json.Ascii("publicApiSigningSecret"),
    Json.Ascii("password"), Json.Ascii("passwordHash"), Json.Ascii("oldPassword"), Json.Ascii("newPassword"),
    Json.Ascii("jwtSecret"), Json.Ascii("leaseSecret"), Json.Ascii("authorization")}

  predicate IsSensitiveKey(key: Text) {
    key in LISTED_KEYS || MatchesPattern(key)
  }

  lemma PatternAt(key: Text, part: Text, i: nat)
    requires i + |part| <= |key|
    requires forall j | 0 <= j < |part| :: Lower(key[i + j]) == part[j]
    ensures Contains(LowerCase(key), part)
  {
    assert LowerCase(key)[i..i + |part|] == part;
    assert OccursAt(LowerCase(key), part, i);
  }

  lemma SigningKeysMatch()
    ensures MatchesPattern(Json.Ascii("requestSigningSecret")) && MatchesPattern(Json.Ascii("publicApiSigningSecret"))
  {
    hide Contains, LowerCase;
    PatternAt(Json.Ascii("requestSigningSecret"), Json.Ascii("secret"), 14);
    PatternAt(Json.Ascii("publicApiSigningSecret"), Json.Ascii("secret"), 16);
  }

  lemma SecretKeysMatch()
    ensures MatchesPattern(Json.Ascii("jwtSecret")) && MatchesPattern(Json.Ascii("leaseSecret"))
  {
    hide Contains, LowerCase;
    PatternAt(Json.Ascii("jwtSecret"), Json.Ascii("secret"), 3);
    PatternAt(Json.Ascii("leaseSecret"), Json.Ascii("secret"), 5);
  }

  lemma LicensingKeysMatch()
    ensures MatchesPattern(Json.Ascii("licenseKey")) && MatchesPattern(Json.Ascii("leaseToken"))
  {
    hide Contains, LowerCase;
    PatternAt(Json.Ascii("licenseKey"), Json.Ascii("licensekey"), 0);
    PatternAt(Json.Ascii("leaseToken"), Json.Ascii("token"), 5);
  }

  lemma PasswordKeysMatch()
    ensures MatchesPattern(Json.Ascii("password")) && MatchesPattern(Json.Ascii("passwordHash"))
  {
    hide Contains, LowerCase;
    PatternAt(Json.Ascii("password"), Json.Ascii("password"), 0);
    PatternAt(Json.Ascii("passwordHash"), Json.Ascii("password"), 0);
  }

  lemma NewPasswordKeysMatch()
    ensures MatchesPattern(Json.Ascii("oldPassword")) && MatchesPattern(Json.Ascii("newPassword"))
  {
    hide Contains, LowerCase;
    PatternAt(Json.Ascii("oldPassword"), Json.Ascii("password"), 3);
    PatternAt(Json.Ascii("newPassword"), Json.Ascii("password"), 3);
  }

  /** Of the listed keys the pattern misses only one. */
  lemma SensitiveIff(key: Text)
    ensures IsSensitiveKey(key) <==> MatchesPattern(key) || key == Json.Ascii("authorization")
  {
    hide MatchesPattern, Json.Ascii;
    SigningKeysMatch();
    SecretKeysMatch();
    LicensingKeysMatch();
    PasswordKeysMatch();
    NewPasswordKeysMatch();
  }

  // ---------------------------------------------------------------------------
  // Redaction

  // `[REDACTED]` and `...`
  const REDACTED: Text := [91, 82, 69, 68, 65, 67, 84, 69, 68, 93]
  const DOTS: Text := [46, 46, 46]

  /** A text long enough that its two ends are kept. */
  predicate KeepsEnds(v: Value) {
    v.Str? && |v.s| > 8
  }

  function RedactValue(v: Value): Value {
    if !v.Str? then Str(REDACTED)
    else if |v.s| <= 8 then Str(REDACTED)
    else Str(v.s[..4] + DOTS + v.s[|v.s| - 4..])
  }

  function Sanitize(v: Value): Value {
    match v
    case Arr(items) => Arr(SanitizeItems(items))
    case Date(iso) => Str(iso)
    case Obj(entries) => Obj(SanitizeEntries(entries))
    case _ => v
  }

  function SanitizeItems(items: Items): Items {
    match items
    case NoItems => NoItems
    case Item(head, tail) => Item(Sanitize(head), SanitizeItems(tail))
  }

  function SanitizeEntries(entries: Entries): Entries {
    match entries
    case NoEntries => NoEntries
    case Entry(key, value, rest) =>
      Entry(key, if IsSensitiveKey(key) then RedactValue(value) else Sanitize(value), SanitizeEntries(rest))
  }

  // ---------------------------------------------------------------------------
  // What an output still tells

  /** Two values under a sensitive key that look alike from outside. */
  predicate LookAlike(v: Value, w: Value) {
    if KeepsEnds(v) && KeepsEnds(w) then v.s[..4] == w.s[..4] && v.s[|v.s| - 4..] == w.s[|w.s| - 4..]
    else !KeepsEnds(v) && !KeepsEnds(w)
  }

  lemma RedactedEqualIff(v: Value, w: Value)
    ensures RedactValue(v) == RedactValue(w) <==> LookAlike(v, w)
  {
    if KeepsEnds(v) && KeepsEnds(w) {
      var x, y := RedactValue(v).s, RedactValue(w).s;
      assert x[..4] == v.s[..4] && x[7..] == v.s[|v.s| - 4..];
      assert y[..4] == w.s[..4] && y[7..] == w.s[|w.s| - 4..];
    } else {
      assert |REDACTED| == 10;
    }
  }

  /** The same payload but for what redaction hides; a date and its text count as one. */
  predicate Same(v: Value, w: Value) {
    match (v, w)
    case (Arr(xs), Arr(ys)) => SameItems(xs, ys)
    case (Obj(es), Obj(fs)) => SameEntries(es, fs)
    case (Date(x), Date(y)) => x == y
    case (Date(x), Str(y)) => x == y
    case (Str(x), Date(y)) => x == y
    case _ => v == w
  }

  predicate SameItems(xs: Items, ys: Items) {
    match (xs, ys)
    case (NoItems, NoItems) => true
    case (Item(x, xt), Item(y, yt)) => Same(x, y) && SameItems(xt, yt)
    case _ => false
  }

  predicate SameEntries(es: Entries, fs: Entries) {
    match (es, fs)
    case (NoEntries, NoEntries) => true
    case (Entry(k, x, et), Entry(l, y, ft)) =>
      k == l && (if IsSensitiveKey(k) then LookAlike(x, y) else Same(x, y)) && SameEntries(et, ft)
    case _ => false
  }

  /** The log tells two payloads apart exactly when they differ outside the hidden
      parts: of a value under a sensitive key at most its first and last four units show. */
  lemma {:induction false} SanitizeEqualIff(v: Value, w: Value)
    ensures Sanitize(v) == Sanitize(w) <==> Same(v, w)
    decreases v
  {
    match (v, w)
    case (Arr(xs), Arr(ys)) => SanitizeItemsEqualIff(xs, ys);
    case (Obj(es), Obj(fs)) => SanitizeEntriesEqualIff(es, fs);
    case _ =>
  }

  lemma {:induction false} SanitizeItemsEqualIff(xs: Items, ys: Items)
    ensures SanitizeItems(xs) == SanitizeItems(ys) <==> SameItems(xs, ys)
    decreases xs
  {
    if xs.Item? && ys.Item? {
      SanitizeEqualIff(xs.head, ys.head);
      SanitizeItemsEqualIff(xs.tail, ys.tail);
    }
  }

  lemma {:induction false} SanitizeEntriesEqualIff(es: Entries, fs: Entries)
    ensures SanitizeEntries(es) == SanitizeEntries(fs) <==> SameEntries(es, fs)
    decreases es
  {
    hide IsSensitiveKey, RedactValue, LookAlike;
    if es.Entry? && fs.Entry? {
      SanitizeEqualIff(es.value, fs.value);
      RedactedEqualIff(es.value, fs.value);
      SanitizeEntriesEqualIff(es.rest, fs.rest);
    }
  }

  // ---------------------------------------------------------------------------
  // What an output keeps

  function Length(items: Items): nat {
    match items
    case NoItems => 0
    case Item(_, tail) => 1 + Length(tail)
  }

  function Keys(entries: Entries): seq<Text> {
    match entries
    case NoEntries => []
    case Entry(key, _, rest) => [key] + Keys(rest)
  }

  // What can be reached from a payload without passing a sensitive key.
  datatype Path = Here | AtItem(index: nat, next: Path) | AtKey(key: Text, next: Path)

  function ItemAt(items: Items, i: nat): Value
    requires i < Length(items)
  {
    if i == 0 then items.head else ItemAt(items.tail, i - 1)
  }

  function EntryAt(entries: Entries, key: Text): Value
    requires key in Keys(entries)
  {
    if entries.key == key then entries.value else EntryAt(entries.rest, key)
  }

  predicate Reaches(v: Value, p: Path)
    decreases p
  {
    match p
    case Here => true
    case AtItem(i, next) => v.Arr? && i < Length(v.items) && Reaches(ItemAt(v.items, i), next)
    case AtKey(k, next) => v.Obj? && k in Keys(v.entries) && !IsSensitiveKey(k) && Reaches(EntryAt(v.entries, k), next)
  }

  function Reached(v: Value, p: Path): Value
    requires Reaches(v, p)
    decreases p
  {
    match p
    case Here => v
    case AtItem(i, next) => Reached(ItemAt(v.items, i), next)
    case AtKey(k, next) => Reached(EntryAt(v.entries, k), next)
  }

  lemma {:induction false} ItemsKept(items: Items)
    ensures Length(SanitizeItems(items)) == Length(items)
    ensures forall i: nat | i < Length(items) :: ItemAt(SanitizeItems(items), i) == Sanitize(ItemAt(items, i))
  {
    if items.Item? { ItemsKept(items.tail); }
  }

  lemma {:induction false} EntriesKept(entries: Entries)
    ensures Keys(SanitizeEntries(entries)) == Keys(entries)
    ensures forall k | k in Keys(entries) ::
              EntryAt(SanitizeEntries(entries), k) == if IsSensitiveKey(k) then RedactValue(EntryAt(entries, k)) else Sanitize(EntryAt(entries, k))
  {
    hide IsSensitiveKey, RedactValue;
    if entries.Entry? { EntriesKept(entries.rest); }
  }

  /** Outside sensitive keys the same paths exist before and after, and at their ends
      stand the same keys, the same number of items and the same plain values. */
  lemma {:induction false} ShapeKept(v: Value, p: Path)
    ensures Reaches(Sanitize(v), p) <==> Reaches(v, p)
    ensures Reaches(v, p) ==>
              var x, y := Reached(v, p), Reached(Sanitize(v), p);
              && y == Sanitize(x)
              && (x.Arr? ==> y.Arr? && Length(y.items) == Length(x.items))
              && (x.Obj? ==> y.Obj? && Keys(y.entries) == Keys(x.entries))
    decreases p
  {
    hide IsSensitiveKey, RedactValue;
    if v.Arr? { ItemsKept(v.items); }
    if v.Obj? { EntriesKept(v.entries); }
    match p
    case Here =>
    case AtItem(i, next) => if v.Arr? && i < Length(v.items) { ShapeKept(ItemAt(v.items, i), next); }
    case AtKey(k, next) => if v.Obj? && k in Keys(v.entries) && !IsSensitiveKey(k) { ShapeKept(EntryAt(v.entries, k), next); }
    var x := if Reaches(v, p) then Reached(v, p) else v;
    if x.Arr? { ItemsKept(x.items); }
    if x.Obj? { EntriesKept(x.entries); }
  }

  // ---------------------------------------------------------------------------
  // Sanitising again

  lemma RedactTwice(v: Value)
    ensures RedactValue(RedactValue(RedactValue(v))) == RedactValue(RedactValue(v))
    ensures RedactValue(RedactValue(v)) == RedactValue(v) <==> KeepsEnds(v)
  {
    var once := RedactValue(v);
    EndsStay(once.s);
    if KeepsEnds(v) {
      EndsStay(v.s);
    } else {
      assert |once.s| == 10 && |RedactValue(once).s| == 11;
    }
  }

  lemma EndsStay(s: Text)
    requires |s| > 8
    ensures RedactValue(RedactValue(Str(s))) == RedactValue(Str(s))
  {
    var r := s[..4] + DOTS + s[|s| - 4..];
    assert r[..4] == s[..4] && r[|r| - 4..] == s[|s| - 4..];
  }

  /** Every value under a sensitive key is a text longer than eight units. */
  predicate NothingBlanked(v: Value) {
    match v
    case Arr(items) => NothingBlankedItems(items)
    case Obj(entries) => NothingBlankedEntries(entries)
    case _ => true
  }

  predicate NothingBlankedItems(items: Items) {
    items.Item? ==> NothingBlanked(items.head) && NothingBlankedItems(items.tail)
  }

  predicate NothingBlankedEntries(entries: Entries) {
    entries.Entry? ==>
      && (if IsSensitiveKey(entries.key) then KeepsEnds(entries.value) else NothingBlanked(entries.value))
      && NothingBlankedEntries(entries.rest)
  }

  /** Sanitising is not idempotent, because `[REDACTED]` is itself redacted: a second
      round changes the log exactly when something was blanked out whole. */
  lemma {:induction false} SanitizeTwiceIff(v: Value)
    ensures Sanitize(Sanitize(v)) == Sanitize(v) <==> NothingBlanked(v)
    ensures Sanitize(Sanitize(Sanitize(v))) == Sanitize(Sanitize(v))
    decreases v
  {
    match v
    case Arr(items) => SanitizeItemsTwiceIff(items);
    case Obj(entries) => SanitizeEntriesTwiceIff(entries);
    case _ =>
  }

  lemma {:induction false} SanitizeItemsTwiceIff(items: Items)
    ensures SanitizeItems(SanitizeItems(items)) == SanitizeItems(items) <==> NothingBlankedItems(items)
    ensures SanitizeItems(SanitizeItems(SanitizeItems(items))) == SanitizeItems(SanitizeItems(items))
    decreases items
  {
    if items.Item? {
      SanitizeTwiceIff(items.head);
      SanitizeItemsTwiceIff(items.tail);
    }
  }

  lemma {:induction false} SanitizeEntriesTwiceIff(entries: Entries)
    ensures SanitizeEntries(SanitizeEntries(entries)) == SanitizeEntries(entries) <==> NothingBlankedEntries(entries)
    ensures SanitizeEntries(SanitizeEntries(SanitizeEntries(entries))) == SanitizeEntries(SanitizeEntries(entries))
    decreases entries
  {
    hide IsSensitiveKey, RedactValue, KeepsEnds;
    if entries.Entry? {
      RedactTwice(entries.value);
      SanitizeTwiceIff(entries.value);
      SanitizeEntriesTwiceIff(entries.rest);
    }
  }

  // ---------------------------------------------------------------------------
  // Unit by unit

  /** What stands in the log for a value under a sensitive key: the first and the last
      four units of a text of nine or more, otherwise a fixed word. */
  lemma RedactedText(v: Value)
    ensures RedactValue(v).Str?
    ensures v.Str? && |v.s| >= 9 ==>
              var t := RedactValue(v).s;
              |t| == 11 && t[..4] == v.s[..4] && t[4..7] == Json.Ascii("...") && t[7..] == v.s[|v.s| - 4..]
    ensures !(v.Str? && |v.s| >= 9) ==> RedactValue(v).s == Json.Ascii("[REDACTED]")
  { }

  /** The word as a part of the key, capitals or not. */
  predicate WordAt(key: Text, word: Text, i: nat) {
    i + |word| <= |key| && forall j | 0 <= j < |word| :: key[i + j] == word[j] || (65 <= key[i + j] <= 90 && key[i + j] + 32 == word[j])
  }

  predicate HasWord(key: Text, word: Text) {
    exists i: nat | i <= |key| :: WordAt(key, word, i)
  }

  lemma HasWordIff(key: Text, word: Text)
    requires forall j | 0 <= j < |word| :: 97 <= word[j] <= 122
    ensures Contains(LowerCase(key), word) <==> HasWord(key, word)
  {
    var lower := LowerCase(key);
    if Contains(lower, word) {
      var i :| 0 <= i <= |lower| && OccursAt(lower, word, i);
      forall j | 0 <= j < |word| ensures Lower(key[i + j]) == word[j] {
        assert lower[i..i + |word|][j] == lower[i + j];
      }
      assert WordAt(key, word, i);
    }
    if HasWord(key, word) {
      var i: nat :| i <= |key| && WordAt(key, word, i);
      PatternAt(key, word, i);
    }
  }

  /** Which keys are hidden, by their letters. */
  lemma HiddenKeys(key: Text)
    ensures IsSensitiveKey(key) <==>
              || HasWord(key, Json.Ascii("token")) || HasWord(key, Json.Ascii("secret")) || HasWord(key, Json.Ascii("password"))
              || HasWord(key, Json.Ascii("licensekey")) || key == Json.Ascii("authorization")
  {
    SensitiveIff(key);
    HasWordIff(key, Json.Ascii("token"));
    HasWordIff(key, Json.Ascii("secret"));
    HasWordIff(key, Json.Ascii("password"));
    HasWordIff(key, Json.Ascii("licensekey"));
    hide IsSensitiveKey, Contains, HasWord, LowerCase;
  }
}
