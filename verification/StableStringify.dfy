/** The canonical form both sides sign: `stableStringify`
    (server/src/common/guards/request-signature.guard.ts and
    sdk-electron/src/license-api-client.ts). */
module StableStringify {
  import opened Json

  // ---------------------------------------------------------------------------
  // Key order

  /** Order of `Array.prototype.sort`: by code units, a prefix first. */
  predicate KeyLess(a: Text, b: Text) {
    if b == [] then false
    else if a == [] then true
    else if a[0] != b[0] then a[0] < b[0]
    else KeyLess(a[1..], b[1..])
  }

  /** One key is a proper prefix of the other, or smaller where they first differ. */
  predicate Before(a: Text, b: Text, k: nat) {
    k <= |a| && k < |b| && a[..k] == b[..k] && (k == |a| || a[k] < b[k])
  }

  lemma {:induction false} KeyLessIff(a: Text, b: Text)
    ensures KeyLess(a, b) <==> exists k: nat :: Before(a, b, k)
  {
    if a == [] || b == [] {
      assert b != [] ==> Before(a, b, 0);
    } else if a[0] != b[0] {
      assert a[0] < b[0] ==> Before(a, b, 0);
    } else {
      KeyLessIff(a[1..], b[1..]);
      assert a == [a[0]] + a[1..] && b == [b[0]] + b[1..];
      if k: nat :| Before(a[1..], b[1..], k) { assert a[..k + 1] == [a[0]] + a[1..][..k] && Before(a, b, k + 1); }
      if k: nat :| Before(a, b, k) { assert a[1..][..k - 1] == a[..k][1..] && Before(a[1..], b[1..], k - 1); }
    }
  }

  function InsertKey(k: Text, ks: seq<Text>): seq<Text> {
    if ks == [] || !KeyLess(ks[0], k) then [k] + ks else [ks[0]] + InsertKey(k, ks[1..])
  }

  function SortKeys(ks: seq<Text>): seq<Text> {
    if ks == [] then [] else InsertKey(ks[0], SortKeys(ks[1..]))
  }

  ghost predicate Sorted(ks: seq<Text>) {
    forall i, j | 0 <= i < j < |ks| :: KeyLess(ks[i], ks[j])
  }

  ghost predicate Distinct(ks: seq<Text>) {
    forall i, j | 0 <= i < j < |ks| :: ks[i] != ks[j]
  }

  lemma {:induction false} KeyLessIrreflexive(a: Text)
    ensures !KeyLess(a, a)
  {
    if a != [] { KeyLessIrreflexive(a[1..]); }
  }

  lemma {:induction false} KeyLessTotal(a: Text, b: Text)
    ensures KeyLess(a, b) || KeyLess(b, a) || a == b
  {
    if a != [] && b != [] && a[0] == b[0] {
      KeyLessTotal(a[1..], b[1..]);
      assert a == [a[0]] + a[1..] && b == [b[0]] + b[1..];
    }
  }

  lemma {:induction false} KeyLessTransitive(a: Text, b: Text, c: Text)
    requires KeyLess(a, b) && KeyLess(b, c)
    ensures KeyLess(a, c)
  {
    if a != [] && b != [] && c != [] && a[0] == b[0] && b[0] == c[0] {
      KeyLessTransitive(a[1..], b[1..], c[1..]);
    }
  }

  lemma {:induction false} InsertKeyMembers(k: Text, ks: seq<Text>)
    ensures forall x :: x in InsertKey(k, ks) <==> x == k || x in ks
    ensures |InsertKey(k, ks)| == |ks| + 1
  {
    if ks != [] && KeyLess(ks[0], k) {
      InsertKeyMembers(k, ks[1..]);
      assert ks == [ks[0]] + ks[1..];
    }
  }

  lemma {:induction false} InsertKeySorted(k: Text, ks: seq<Text>)
    requires Sorted(ks) && k !in ks
    ensures Sorted(InsertKey(k, ks))
  {
    if ks == [] {
    } else if !KeyLess(ks[0], k) {
      KeyLessTotal(ks[0], k);
      assert KeyLess(k, ks[0]);
      forall i | 0 <= i < |ks| ensures KeyLess(k, ks[i]) {
        if i > 0 { KeyLessTransitive(k, ks[0], ks[i]); }
      }
    } else {
      InsertKeySorted(k, ks[1..]);
      InsertKeyMembers(k, ks[1..]);
      var r := InsertKey(k, ks[1..]);
      forall i | 0 <= i < |r| ensures KeyLess(ks[0], r[i]) {
        assert r[i] in r;
        if r[i] != k { var j :| 0 <= j < |ks[1..]| && ks[1..][j] == r[i]; }
      }
    }
  }

  lemma {:induction false} SortKeysMembers(ks: seq<Text>)
    ensures forall x :: x in SortKeys(ks) <==> x in ks
    ensures |SortKeys(ks)| == |ks|
  {
    if ks != [] {
      SortKeysMembers(ks[1..]);
      InsertKeyMembers(ks[0], SortKeys(ks[1..]));
      assert ks == [ks[0]] + ks[1..];
    }
  }

  lemma {:induction false} SortKeysSorted(ks: seq<Text>)
    requires Distinct(ks)
    ensures Sorted(SortKeys(ks))
  {
    if ks != [] {
      SortKeysSorted(ks[1..]);
      SortKeysMembers(ks[1..]);
      assert ks[0] !in ks[1..];
      InsertKeySorted(ks[0], SortKeys(ks[1..]));
    }
  }

  /** Two sorted lists of the same keys are the same list. */
  lemma {:induction false} SortedUnique(ks: seq<Text>, ls: seq<Text>)
    requires Sorted(ks) && Sorted(ls) && forall x :: x in ks <==> x in ls
    ensures ks == ls
  {
    assert (ks == [] || ks[0] in ks) && (ls == [] || ls[0] in ls);
    if ks != [] && ls != [] {
      SmallestFirst(ks, ls);
      SmallestFirst(ls, ks);
      if ks[0] != ls[0] { KeyLessTransitive(ks[0], ls[0], ks[0]); KeyLessIrreflexive(ks[0]); assert false; }
      forall x ensures x in ks[1..] <==> x in ls[1..] {
        FirstOnlyOnce(ks);
        FirstOnlyOnce(ls);
        assert ks == [ks[0]] + ks[1..] && ls == [ls[0]] + ls[1..];
        assert x in ks <==> x in ls;
      }
      SortedUnique(ks[1..], ls[1..]);
      assert ks == [ks[0]] + ks[1..] && ls == [ls[0]] + ls[1..];
    }
  }

  lemma SmallestFirst(ks: seq<Text>, ls: seq<Text>)
    requires Sorted(ls) && ks != [] && ls != [] && ks[0] in ls
    ensures ks[0] == ls[0] || KeyLess(ls[0], ks[0])
  { }

  lemma FirstOnlyOnce(ks: seq<Text>)
    requires Sorted(ks) && ks != []
    ensures ks[0] !in ks[1..]
  {
    if ks[0] in ks[1..] {
      var j :| 0 <= j < |ks[1..]| && ks[1..][j] == ks[0];
      KeyLessIrreflexive(ks[0]);
      assert false;
    }
  }

  // ---------------------------------------------------------------------------
  // The printer

  function Stringify(v: Json): Text
    decreases Size(v), 0
  {
    match v
    case Null => NULL_TEXT
    case Bool(b) => if b then TRUE_TEXT else FALSE_TEXT
    case Num(numeral) => numeral
    case Str(s) => Quote(s)
    case Arr(items) => [OPEN_BRACKET] + StringifyItems(items) + [CLOSE_BRACKET]
    case Obj(fields) =>
      SortKeysMembers(Keys(fields));
      [OPEN_BRACE] + StringifyMembers(SortKeys(Keys(fields)), fields) + [CLOSE_BRACE]
  }

  function StringifyItems(items: Items): Text
    decreases ItemsSize(items), 0
  {
    match items
    case NoItems => []
    case Item(head, NoItems) => Stringify(head)
    case Item(head, tail) => Stringify(head) + [COMMA] + StringifyItems(tail)
  }

  function StringifyMembers(keys: seq<Text>, fields: Fields): Text
    requires forall k | k in keys :: k in Keys(fields)
    decreases FieldsSize(fields), |keys|
  {
    if keys == [] then []
    else
      var member := Quote(keys[0]) + [COLON] + Stringify(Lookup(fields, keys[0]));
      if |keys| == 1 then member else member + [COMMA] + StringifyMembers(keys[1..], fields)
  }

  // ---------------------------------------------------------------------------
  // Normal form: every object has its keys in order

  function Canon(v: Json): Json {
    match v
    case Arr(items) => Arr(CanonItems(items))
    case Obj(fields) => Obj(CanonFields(fields))
    case _ => v
  }

  function CanonItems(items: Items): Items {
    match items
    case NoItems => NoItems
    case Item(head, tail) => Item(Canon(head), CanonItems(tail))
  }

  function CanonFields(fields: Fields): Fields {
    match fields
    case NoFields => NoFields
    case Field(key, value, rest) => InsertField(key, Canon(value), CanonFields(rest))
  }

  function InsertField(key: Text, value: Json, fields: Fields): Fields {
    match fields
    case NoFields => Field(key, value, NoFields)
    case Field(k, v, rest) =>
      if KeyLess(k, key) then Field(k, v, InsertField(key, value, rest)) else Field(key, value, fields)
  }

  lemma {:induction false} InsertFieldKeys(key: Text, value: Json, fields: Fields)
    ensures Keys(InsertField(key, value, fields)) == InsertKey(key, Keys(fields))
  {
    if fields.Field? && KeyLess(fields.key, key) {
      InsertFieldKeys(key, value, fields.rest);
      assert Keys(fields)[1..] == Keys(fields.rest);
    }
  }

  lemma {:induction false} InsertFieldLookup(key: Text, value: Json, fields: Fields, k: Text)
    requires key !in Keys(fields) && (k == key || k in Keys(fields))
    ensures k in Keys(InsertField(key, value, fields))
    ensures Lookup(InsertField(key, value, fields), k) == if k == key then value else Lookup(fields, k)
  {
    InsertFieldKeys(key, value, fields);
    InsertKeyMembers(key, Keys(fields));
    if fields.Field? && KeyLess(fields.key, key) {
      if k != fields.key {
        InsertFieldLookup(key, value, fields.rest, k);
      }
    }
  }

  lemma {:induction false} InsertFieldWellFormed(key: Text, value: Json, fields: Fields)
    requires FieldsWellFormed(fields) && WellFormed(value) && key !in Keys(fields)
    ensures FieldsWellFormed(InsertField(key, value, fields))
  {
    if fields.Field? && KeyLess(fields.key, key) {
      InsertFieldWellFormed(key, value, fields.rest);
      InsertFieldKeys(key, value, fields.rest);
      InsertKeyMembers(key, Keys(fields.rest));
    }
  }

  lemma {:induction false} CanonFieldsKeys(fields: Fields)
    ensures Keys(CanonFields(fields)) == SortKeys(Keys(fields))
  {
    if fields.Field? {
      CanonFieldsKeys(fields.rest);
      InsertFieldKeys(fields.key, Canon(fields.value), CanonFields(fields.rest));
      assert Keys(fields)[1..] == Keys(fields.rest);
    }
  }

  lemma {:induction false} CanonFieldsLookup(fields: Fields, k: Text)
    requires FieldsWellFormed(fields) && k in Keys(fields)
    ensures k in Keys(CanonFields(fields)) && Lookup(CanonFields(fields), k) == Canon(Lookup(fields, k))
  {
    CanonFieldsKeys(fields.rest);
    SortKeysMembers(Keys(fields.rest));
    if k != fields.key { CanonFieldsLookup(fields.rest, k); }
    InsertFieldLookup(fields.key, Canon(fields.value), CanonFields(fields.rest), k);
  }

  lemma {:induction false} WellFormedLookup(fields: Fields, k: Text)
    requires FieldsWellFormed(fields) && k in Keys(fields)
    ensures WellFormed(Lookup(fields, k))
  {
    if fields.key != k { WellFormedLookup(fields.rest, k); }
  }

  lemma {:induction false} CanonWellFormed(v: Json)
    requires WellFormed(v)
    ensures WellFormed(Canon(v))
    decreases Size(v)
  {
    match v
    case Arr(items) => CanonItemsWellFormed(items);
    case Obj(fields) => CanonFieldsWellFormed(fields);
    case _ =>
  }

  lemma {:induction false} CanonItemsWellFormed(items: Items)
    requires ItemsWellFormed(items)
    ensures ItemsWellFormed(CanonItems(items))
    decreases ItemsSize(items)
  {
    if items.Item? {
      CanonWellFormed(items.head);
      CanonItemsWellFormed(items.tail);
    }
  }

  lemma {:induction false} CanonFieldsWellFormed(fields: Fields)
    requires FieldsWellFormed(fields)
    ensures FieldsWellFormed(CanonFields(fields))
    decreases FieldsSize(fields)
  {
    if fields.Field? {
      CanonWellFormed(fields.value);
      CanonFieldsWellFormed(fields.rest);
      CanonFieldsKeys(fields.rest);
      SortKeysMembers(Keys(fields.rest));
      InsertFieldWellFormed(fields.key, Canon(fields.value), CanonFields(fields.rest));
    }
  }

  lemma {:induction false} WellFormedDistinct(fields: Fields)
    requires FieldsWellFormed(fields)
    ensures Distinct(Keys(fields))
  {
    if fields.Field? {
      WellFormedDistinct(fields.rest);
      var ks := Keys(fields);
      assert ks[1..] == Keys(fields.rest);
      forall i, j | 0 <= i < j < |ks| ensures ks[i] != ks[j] {
        assert ks[j] == ks[1..][j - 1];
        if i > 0 { assert ks[i] == ks[1..][i - 1]; }
      }
    }
  }

  // ---------------------------------------------------------------------------
  // Printing in the order given

  function Render(v: Json): Text {
    match v
    case Null => NULL_TEXT
    case Bool(b) => if b then TRUE_TEXT else FALSE_TEXT
    case Num(numeral) => numeral
    case Str(s) => Quote(s)
    case Arr(items) => [OPEN_BRACKET] + RenderItems(items) + [CLOSE_BRACKET]
    case Obj(fields) => [OPEN_BRACE] + RenderFields(fields) + [CLOSE_BRACE]
  }

  function RenderItems(items: Items): Text {
    match items
    case NoItems => []
    case Item(head, NoItems) => Render(head)
    case Item(head, tail) => Render(head) + [COMMA] + RenderItems(tail)
  }

  function RenderFields(fields: Fields): Text {
    match fields
    case NoFields => []
    case Field(key, value, NoFields) => Quote(key) + [COLON] + Render(value)
    case Field(key, value, rest) => Quote(key) + [COLON] + Render(value) + [COMMA] + RenderFields(rest)
  }

  /** `stableStringify` prints the normal form as it stands. */
  lemma {:induction false} StringifyIsRenderCanon(v: Json)
    requires WellFormed(v)
    ensures Stringify(v) == Render(Canon(v))
    decreases Size(v), 0
  {
    match v
    case Arr(items) => StringifyItemsIsRender(items);
    case Obj(fields) =>
      CanonFieldsKeys(fields);
      SortKeysMembers(Keys(fields));
      forall k | k in Keys(fields) ensures Lookup(CanonFields(fields), k) == Canon(Lookup(fields, k)) {
        CanonFieldsLookup(fields, k);
      }
      CanonFieldsWellFormed(fields);
      StringifyMembersIsRender(fields, CanonFields(fields));
    case _ =>
  }

  lemma {:induction false} StringifyItemsIsRender(items: Items)
    requires ItemsWellFormed(items)
    ensures StringifyItems(items) == RenderItems(CanonItems(items))
    decreases ItemsSize(items), 0
  {
    if items.Item? {
      StringifyIsRenderCanon(items.head);
      StringifyItemsIsRender(items.tail);
    }
  }

  lemma {:induction false} StringifyMembersIsRender(fields: Fields, ordered: Fields)
    requires FieldsWellFormed(fields) && FieldsWellFormed(ordered)
    requires forall k | k in Keys(ordered) :: k in Keys(fields) && Lookup(ordered, k) == Canon(Lookup(fields, k))
    ensures StringifyMembers(Keys(ordered), fields) == RenderFields(ordered)
    decreases FieldsSize(fields), |Keys(ordered)|
  {
    if ordered.Field? {
      assert Keys(ordered)[1..] == Keys(ordered.rest);
      assert Keys(ordered)[0] == ordered.key;
      forall k | k in Keys(ordered.rest) ensures k in Keys(fields) && Lookup(ordered.rest, k) == Canon(Lookup(fields, k)) {
        assert k in Keys(ordered) && k != ordered.key;
      }
      StringifyMembersIsRender(fields, ordered.rest);
      WellFormedLookup(fields, ordered.key);
      StringifyIsRenderCanon(Lookup(fields, ordered.key));
      assert Lookup(ordered, ordered.key) == ordered.value;
    }
  }

  // ---------------------------------------------------------------------------
  // Equal up to key order exactly when the normal forms are equal

  lemma {:induction false} FieldsEqual(fs: Fields, gs: Fields)
    requires FieldsWellFormed(fs) && FieldsWellFormed(gs) && Keys(fs) == Keys(gs)
    requires forall k | k in Keys(fs) :: Lookup(fs, k) == Lookup(gs, k)
    ensures fs == gs
  {
    assert fs.Field? == (Keys(fs) != []) && gs.Field? == (Keys(gs) != []);
    if fs.Field? {
      assert fs.key == Keys(fs)[0] && gs.key == Keys(gs)[0];
      assert Keys(fs)[1..] == Keys(fs.rest) && Keys(gs)[1..] == Keys(gs.rest);
      assert Lookup(fs, fs.key) == Lookup(gs, fs.key);
      forall k | k in Keys(fs.rest) ensures Lookup(fs.rest, k) == Lookup(gs.rest, k) {
        assert k in Keys(fs) && k != fs.key;
        assert Lookup(fs, k) == Lookup(gs, k);
      }
      FieldsEqual(fs.rest, gs.rest);
    }
  }

  lemma {:induction false} EquivalentIffCanon(v: Json, w: Json)
    requires WellFormed(v) && WellFormed(w)
    ensures Equivalent(v, w) <==> Canon(v) == Canon(w)
    decreases Size(v)
  {
    match (v, w) {
      case (Arr(xs), Arr(ys)) => ItemsEquivalentIffCanon(xs, ys);
      case (Obj(fs), Obj(gs)) =>
        CanonFieldsKeys(fs);
        CanonFieldsKeys(gs);
        SortKeysMembers(Keys(fs));
        SortKeysMembers(Keys(gs));
        forall k | k in Keys(fs) && k in Keys(gs)
          ensures Equivalent(Lookup(fs, k), Lookup(gs, k)) <==> Lookup(CanonFields(fs), k) == Lookup(CanonFields(gs), k)
        {
          WellFormedLookup(fs, k);
          WellFormedLookup(gs, k);
          CanonFieldsLookup(fs, k);
          CanonFieldsLookup(gs, k);
          EquivalentIffCanon(Lookup(fs, k), Lookup(gs, k));
        }
        if Equivalent(v, w) { CanonFieldsEqual(fs, gs); }
      case _ =>
    }
  }

  lemma CanonFieldsEqual(fs: Fields, gs: Fields)
    requires FieldsWellFormed(fs) && FieldsWellFormed(gs)
    requires forall k :: k in Keys(fs) <==> k in Keys(gs)
    requires forall k | k in Keys(fs) :: k in Keys(CanonFields(fs)) && k in Keys(CanonFields(gs)) && Lookup(CanonFields(fs), k) == Lookup(CanonFields(gs), k)
    ensures CanonFields(fs) == CanonFields(gs)
  {
    CanonFieldsKeys(fs);
    CanonFieldsKeys(gs);
    SortKeysMembers(Keys(fs));
    SortKeysMembers(Keys(gs));
    WellFormedDistinct(fs);
    WellFormedDistinct(gs);
    SortKeysSorted(Keys(fs));
    SortKeysSorted(Keys(gs));
    SortedUnique(SortKeys(Keys(fs)), SortKeys(Keys(gs)));
    CanonFieldsWellFormed(fs);
    CanonFieldsWellFormed(gs);
    FieldsEqual(CanonFields(fs), CanonFields(gs));
  }

  lemma {:induction false} ItemsEquivalentIffCanon(xs: Items, ys: Items)
    requires ItemsWellFormed(xs) && ItemsWellFormed(ys)
    ensures ItemsEquivalent(xs, ys) <==> CanonItems(xs) == CanonItems(ys)
    decreases ItemsSize(xs)
  {
    if xs.Item? && ys.Item? {
      EquivalentIffCanon(xs.head, ys.head);
      ItemsEquivalentIffCanon(xs.tail, ys.tail);
    }
  }
}
