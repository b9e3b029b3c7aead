/** The hand-written JSON of the C++ SDK (sdk-cpp/src/license_client.cpp), compared
    with the canonical form the server signs. Text is a sequence of code units; on
    well-formed text the byte loops of the SDK act unit by unit, because all bytes they
    treat specially are ASCII. */
module CppSdk {
  import opened Json
  import opened StableStringify
  import opened Wrappers
  import JsonParser

  // ---------------------------------------------------------------------------
  // jsonEscape

  function CppEscapeUnit(c: CodeUnit): (t: Text)
    ensures t != []
  {
    if c == BACKSLASH then [BACKSLASH, BACKSLASH]
    else if c == QUOTE then [BACKSLASH, QUOTE]
    else if c == 10 then [BACKSLASH, 110]
    else if c == 13 then [BACKSLASH, 114]
    else if c == 9 then [BACKSLASH, 116]
    else [c]
  }

  function CppEscape(s: Text): Text {
    if s == [] then [] else CppEscapeUnit(s[0]) + CppEscape(s[1..])
  }

  lemma {:induction false} CppEscapeSnoc(s: Text, c: CodeUnit)
    ensures CppEscape(s + [c]) == CppEscape(s) + CppEscapeUnit(c)
  {
    if s == [] {
      assert s + [c] == [c];
    } else {
      assert (s + [c])[1..] == s[1..] + [c];
      CppEscapeSnoc(s[1..], c);
    }
  }

  method JsonEscape(value: Text) returns (escaped: Text)
    ensures escaped == CppEscape(value)
  {
    escaped := [];
    for i := 0 to |value|
      invariant escaped == CppEscape(value[..i])
    {
      var ch := value[i];
      CppEscapeSnoc(value[..i], ch);
      assert value[..i] + [ch] == value[..i + 1];
      if ch == BACKSLASH { escaped := escaped + [BACKSLASH, BACKSLASH]; }
      else if ch == QUOTE { escaped := escaped + [BACKSLASH, QUOTE]; }
      else if ch == 10 { escaped := escaped + [BACKSLASH, 110]; }
      else if ch == 13 { escaped := escaped + [BACKSLASH, 114]; }
      else if ch == 9 { escaped := escaped + [BACKSLASH, 116]; }
      else { escaped := escaped + [ch]; }
    }
    assert value[..|value|] == value;
  }

  /** No control character other than newline, return and tab, no lone surrogate. */
  predicate PlainUnit(c: CodeUnit) {
    (c >= 32 || c == 9 || c == 10 || c == 13) && !IsHighSurrogate(c) && !IsLowSurrogate(c)
  }

  predicate Plain(s: Text) {
    if s == [] then true
    else if StartsWithPair(s) then Plain(s[2..])
    else PlainUnit(s[0]) && Plain(s[1..])
  }

  lemma UnitsAgreeIff(c: CodeUnit)
    ensures PlainUnit(c) ==> CppEscapeUnit(c) == EscapeUnit(c)
    ensures !PlainUnit(c) ==> |CppEscapeUnit(c)| < |EscapeUnit(c)|
    ensures IsHighSurrogate(c) || IsLowSurrogate(c) ==> CppEscapeUnit(c) == [c]
  { }

  /** The hand-written escape equals `JSON.stringify`'s exactly on plain text, and is
      shorter on any other. */
  lemma {:induction false} EscapesAgreeIff(s: Text)
    ensures CppEscape(s) == Escape(s) <==> Plain(s)
    ensures |CppEscape(s)| <= |Escape(s)|
    ensures |CppEscape(s)| == |Escape(s)| <==> Plain(s)
    decreases |s|
  {
    hide CppEscapeUnit, EscapeUnit, PlainUnit;
    if s == [] {
    } else if StartsWithPair(s) {
      EscapesAgreeIff(s[2..]);
      UnitsAgreeIff(s[0]);
      UnitsAgreeIff(s[1]);
      assert s[1..][1..] == s[2..];
      assert CppEscape(s) == [s[0]] + ([s[1]] + CppEscape(s[2..]));
      assert Escape(s) == [s[0]] + ([s[1]] + Escape(s[2..]));
    } else {
      EscapesAgreeIff(s[1..]);
      UnitsAgreeIff(s[0]);
    }
  }

  // ---------------------------------------------------------------------------
  // The shape the bodies share: the canonical layout with the hand-written escape

  function CppRender(v: Json): Text {
    match v
    case Str(s) => [QUOTE] + CppEscape(s) + [QUOTE]
    case Obj(fields) => [OPEN_BRACE] + CppRenderFields(fields) + [CLOSE_BRACE]
    case _ => Render(v)
  }

  function CppRenderFields(fields: Fields): Text {
    match fields
    case NoFields => []
    case Field(key, value, NoFields) => [QUOTE] + key + [QUOTE, COLON] + CppRender(value)
    case Field(key, value, rest) => [QUOTE] + key + [QUOTE, COLON] + CppRender(value) + [COMMA] + CppRenderFields(rest)
  }

  /** Printable ASCII that needs no escape: what the literal keys consist of. */
  predicate Literal(s: Text) {
    forall i | 0 <= i < |s| :: 32 <= s[i] < 127 && s[i] != QUOTE && s[i] != BACKSLASH
  }

  lemma {:induction false} LiteralEscape(s: Text)
    requires Literal(s)
    ensures Escape(s) == s
  {
    if s != [] {
      LiteralEscape(s[1..]);
      assert s == [s[0]] + s[1..];
    }
  }

  predicate LiteralKeys(v: Json) {
    v.Obj? ==> LiteralKeysIn(v.fields)
  }

  predicate LiteralKeysIn(fields: Fields) {
    fields.Field? ==> Literal(fields.key) && LiteralKeys(fields.value) && LiteralKeysIn(fields.rest)
  }

  predicate PlainStrings(v: Json) {
    match v
    case Str(s) => Plain(s)
    case Obj(fields) => PlainStringsIn(fields)
    case _ => true
  }

  predicate PlainStringsIn(fields: Fields) {
    fields.Field? ==> PlainStrings(fields.value) && PlainStringsIn(fields.rest)
  }

  lemma {:induction false} CppRenderIff(v: Json)
    requires LiteralKeys(v)
    ensures |CppRender(v)| <= |Render(v)|
    ensures |CppRender(v)| == |Render(v)| <==> PlainStrings(v)
    ensures CppRender(v) == Render(v) <==> PlainStrings(v)
    decreases Size(v), 0
  {
    match v
    case Str(s) => EscapesAgreeIff(s);
    case Obj(fields) => CppRenderFieldsIff(fields);
    case _ =>
  }

  lemma {:induction false} CppRenderFieldsIff(fields: Fields)
    requires LiteralKeysIn(fields)
    ensures |CppRenderFields(fields)| <= |RenderFields(fields)|
    ensures |CppRenderFields(fields)| == |RenderFields(fields)| <==> PlainStringsIn(fields)
    ensures CppRenderFields(fields) == RenderFields(fields) <==> PlainStringsIn(fields)
    decreases FieldsSize(fields), 1
  {
    if fields.Field? {
      CppRenderIff(fields.value);
      CppRenderFieldsIff(fields.rest);
      LiteralEscape(fields.key);
      assert Quote(fields.key) + [COLON] == [QUOTE] + fields.key + [QUOTE, COLON];
    }
  }

  // ---------------------------------------------------------------------------
  // Canonical objects

  lemma KeyLessAsymmetric(a: Text, b: Text)
    requires KeyLess(a, b)
    ensures !KeyLess(b, a)
  {
    if KeyLess(b, a) {
      KeyLessTransitive(a, b, a);
      KeyLessIrreflexive(a);
      assert false;
    }
  }

  /** Strings and objects, with keys in order at every level. */
  ghost predicate Ordered(fields: Fields) {
    fields.Field? ==>
      && (fields.value.Str? || (fields.value.Obj? && Ordered(fields.value.fields)))
      && Ordered(fields.rest)
      && (fields.rest.Field? ==> KeyLess(fields.key, fields.rest.key))
  }

  lemma {:induction false} OrderedIsCanon(fields: Fields)
    requires Ordered(fields)
    ensures CanonFields(fields) == fields
    decreases FieldsSize(fields)
  {
    if fields.Field? {
      OrderedIsCanon(fields.rest);
      if fields.value.Obj? {
        assert Size(fields.value) == 1 + FieldsSize(fields.value.fields);
        OrderedIsCanon(fields.value.fields);
      }
      if fields.rest.Field? { KeyLessAsymmetric(fields.key, fields.rest.key); }
    }
  }

  /** Keys below the first key do not occur in ordered fields. */
  lemma {:induction false} OrderedAbsent(k: Text, fields: Fields)
    requires Ordered(fields) && (fields.Field? ==> KeyLess(k, fields.key))
    ensures k !in Keys(fields)
  {
    if fields.Field? {
      KeyLessIrreflexive(k);
      if fields.rest.Field? { KeyLessTransitive(k, fields.key, fields.rest.key); }
      OrderedAbsent(k, fields.rest);
    }
  }

  lemma {:induction false} OrderedWellFormed(fields: Fields)
    requires Ordered(fields)
    ensures FieldsWellFormed(fields)
    decreases FieldsSize(fields)
  {
    if fields.Field? {
      OrderedWellFormed(fields.rest);
      if fields.value.Obj? {
        assert Size(fields.value) == 1 + FieldsSize(fields.value.fields);
        OrderedWellFormed(fields.value.fields);
      }
      OrderedAbsent(fields.key, fields.rest);
    }
  }

  /** A body laid out in key order equals the canonical form of its object exactly
      when all its strings are plain. */
  lemma BodyCanonicalIff(fields: Fields)
    requires Ordered(fields) && LiteralKeysIn(fields)
    ensures CppRender(Obj(fields)) == Stringify(Obj(fields)) <==> PlainStringsIn(fields)
  {
    OrderedIsCanon(fields);
    OrderedWellFormed(fields);
    StringifyIsRenderCanon(Obj(fields));
    CppRenderIff(Obj(fields));
  }

  // ---------------------------------------------------------------------------
  // The four bodies

  const APP_VERSION := Ascii("appVersion")
  const DEVICE := Ascii("device")
  const DEVICE_CODE := Ascii("deviceCode")
  const DEVICE_NAME := Ascii("deviceName")
  const FINGERPRINT_HASH := Ascii("fingerprintHash")
  const HARDWARE_SUMMARY := Ascii("hardwareSummary")
  const LEASE_TOKEN := Ascii("leaseToken")
  const LICENSE_KEY := Ascii("licenseKey")
  const OS_TYPE := Ascii("osType")
  const OS_VERSION := Ascii("osVersion")
  const PRODUCT_CODE := Ascii("productCode")
  const RUNTIME := Ascii("runtime")

  lemma DeviceKeysAreLiteral()
    ensures Literal(APP_VERSION) && Literal(DEVICE_CODE) && Literal(DEVICE_NAME) && Literal(FINGERPRINT_HASH)
    ensures Literal(HARDWARE_SUMMARY) && Literal(OS_TYPE) && Literal(OS_VERSION)
  { }

  lemma TopKeysAreLiteral()
    ensures Literal(DEVICE) && Literal(LEASE_TOKEN) && Literal(LICENSE_KEY) && Literal(PRODUCT_CODE) && Literal(RUNTIME)
  { }

  /** `"name":"escaped value"`. */
  function Member(name: Text, value: Text): Text {
    [QUOTE] + name + [QUOTE, COLON, QUOTE] + CppEscape(value) + [QUOTE]
  }

  /** `"name":{}`. */
  function EmptyMember(name: Text): Text {
    [QUOTE] + name + [QUOTE, COLON, OPEN_BRACE, CLOSE_BRACE]
  }

  datatype DeviceInfo = DeviceInfo(appVersion: Text, deviceCode: Text, deviceName: Text, fingerprintHash: Text, osType: Text, osVersion: Text)

  /** The text between the braces of the device object. */
  function DeviceText(d: DeviceInfo): Text {
    Member(APP_VERSION, d.appVersion) + [COMMA]
    + (Member(DEVICE_CODE, d.deviceCode) + [COMMA]
    + (Member(DEVICE_NAME, d.deviceName) + [COMMA]
    + (Member(FINGERPRINT_HASH, d.fingerprintHash) + [COMMA]
    + (EmptyMember(HARDWARE_SUMMARY) + [COMMA]
    + (Member(OS_TYPE, d.osType) + [COMMA]
    + Member(OS_VERSION, d.osVersion))))))
  }

  function ActivateBody(licenseKey: Text, device: DeviceInfo, productCode: Text): Text {
    [OPEN_BRACE]
    + ([QUOTE] + DEVICE + [QUOTE, COLON] + ([OPEN_BRACE] + DeviceText(device) + [CLOSE_BRACE]) + [COMMA]
    + (Member(LICENSE_KEY, licenseKey) + [COMMA]
    + Member(PRODUCT_CODE, productCode)))
    + [CLOSE_BRACE]
  }

  function VerifyBody(appVersion: Text, deviceCode: Text, leaseToken: Text, productCode: Text): Text {
    [OPEN_BRACE]
    + (Member(APP_VERSION, appVersion) + [COMMA]
    + (Member(DEVICE_CODE, deviceCode) + [COMMA]
    + (Member(LEASE_TOKEN, leaseToken) + [COMMA]
    + Member(PRODUCT_CODE, productCode))))
    + [CLOSE_BRACE]
  }

  function HeartbeatBody(appVersion: Text, deviceCode: Text, leaseToken: Text, productCode: Text): Text {
    [OPEN_BRACE]
    + (Member(APP_VERSION, appVersion) + [COMMA]
    + (Member(DEVICE_CODE, deviceCode) + [COMMA]
    + (Member(LEASE_TOKEN, leaseToken) + [COMMA]
    + (Member(PRODUCT_CODE, productCode) + [COMMA]
    + EmptyMember(RUNTIME)))))
    + [CLOSE_BRACE]
  }

  function DeactivateBody(deviceCode: Text, licenseKey: Text, productCode: Text): Text {
    [OPEN_BRACE]
    + (Member(DEVICE_CODE, deviceCode) + [COMMA]
    + (Member(LICENSE_KEY, licenseKey) + [COMMA]
    + Member(PRODUCT_CODE, productCode)))
    + [CLOSE_BRACE]
  }

  // The objects the other SDKs would print for the same calls.

  function DeviceFields(d: DeviceInfo): Fields {
    Field(APP_VERSION, Str(d.appVersion),
    Field(DEVICE_CODE, Str(d.deviceCode),
    Field(DEVICE_NAME, Str(d.deviceName),
    Field(FINGERPRINT_HASH, Str(d.fingerprintHash),
    Field(HARDWARE_SUMMARY, Obj(NoFields),
    Field(OS_TYPE, Str(d.osType),
    Field(OS_VERSION, Str(d.osVersion), NoFields)))))))
  }

  function ActivateFields(licenseKey: Text, device: DeviceInfo, productCode: Text): Fields {
    Field(DEVICE, Obj(DeviceFields(device)), Field(LICENSE_KEY, Str(licenseKey), Field(PRODUCT_CODE, Str(productCode), NoFields)))
  }

  function VerifyFields(appVersion: Text, deviceCode: Text, leaseToken: Text, productCode: Text): Fields {
    Field(APP_VERSION, Str(appVersion),
    Field(DEVICE_CODE, Str(deviceCode),
    Field(LEASE_TOKEN, Str(leaseToken),
    Field(PRODUCT_CODE, Str(productCode), NoFields))))
  }

  function HeartbeatFields(appVersion: Text, deviceCode: Text, leaseToken: Text, productCode: Text): Fields {
    Field(APP_VERSION, Str(appVersion),
    Field(DEVICE_CODE, Str(deviceCode),
    Field(LEASE_TOKEN, Str(leaseToken),
    Field(PRODUCT_CODE, Str(productCode),
    Field(RUNTIME, Obj(NoFields), NoFields)))))
  }

  function DeactivateFields(deviceCode: Text, licenseKey: Text, productCode: Text): Fields {
    Field(DEVICE_CODE, Str(deviceCode), Field(LICENSE_KEY, Str(licenseKey), Field(PRODUCT_CODE, Str(productCode), NoFields)))
  }

  lemma {:induction false} KeyLessAt(a: Text, b: Text, k: nat)
    requires k < |a| && k < |b| && a[..k] == b[..k] && a[k] < b[k]
    ensures KeyLess(a, b)
  {
    if k > 0 {
      assert a[0] == a[..k][0] && b[0] == b[..k][0];
      assert a[1..][..k - 1] == a[..k][1..] && b[1..][..k - 1] == b[..k][1..];
      KeyLessAt(a[1..], b[1..], k - 1);
    }
  }

  lemma DeviceKeyOrder()
    ensures KeyLess(APP_VERSION, DEVICE_CODE) && KeyLess(DEVICE_CODE, DEVICE_NAME)
    ensures KeyLess(DEVICE_NAME, FINGERPRINT_HASH) && KeyLess(FINGERPRINT_HASH, HARDWARE_SUMMARY)
    ensures KeyLess(HARDWARE_SUMMARY, OS_TYPE) && KeyLess(OS_TYPE, OS_VERSION)
  {
    KeyLessAt(APP_VERSION, DEVICE_CODE, 0);
    KeyLessAt(DEVICE_CODE, DEVICE_NAME, 6);
    KeyLessAt(DEVICE_NAME, FINGERPRINT_HASH, 0);
    KeyLessAt(FINGERPRINT_HASH, HARDWARE_SUMMARY, 0);
    KeyLessAt(HARDWARE_SUMMARY, OS_TYPE, 0);
    KeyLessAt(OS_TYPE, OS_VERSION, 2);
  }

  lemma TopKeyOrder()
    ensures KeyLess(DEVICE, LICENSE_KEY) && KeyLess(LICENSE_KEY, PRODUCT_CODE) && KeyLess(DEVICE_CODE, LICENSE_KEY)
    ensures KeyLess(DEVICE_CODE, LEASE_TOKEN) && KeyLess(LEASE_TOKEN, PRODUCT_CODE) && KeyLess(PRODUCT_CODE, RUNTIME)
  {
    KeyLessAt(DEVICE, LICENSE_KEY, 0);
    KeyLessAt(LICENSE_KEY, PRODUCT_CODE, 0);
    KeyLessAt(DEVICE_CODE, LICENSE_KEY, 0);
    KeyLessAt(DEVICE_CODE, LEASE_TOKEN, 0);
    KeyLessAt(LEASE_TOKEN, PRODUCT_CODE, 0);
    KeyLessAt(PRODUCT_CODE, RUNTIME, 0);
  }

  /** Fields in key order whose text, without the outer braces, is `text`, and whose
      strings are plain exactly when `plain` says so. */
  ghost predicate Layout(fields: Fields, text: Text, plain: bool) {
    Ordered(fields) && LiteralKeysIn(fields) && CppRenderFields(fields) == text && PlainStringsIn(fields) == plain
  }

  function Joined(first: Text, rest: Fields, text: Text): Text {
    if rest.Field? then first + [COMMA] + text else first
  }

  lemma StringInFront(key: Text, s: Text, rest: Fields, text: Text, plain: bool)
    requires Layout(rest, text, plain) && Literal(key) && (rest.Field? ==> KeyLess(key, rest.key))
    ensures Layout(Field(key, Str(s), rest), Joined(Member(key, s), rest, text), Plain(s) && plain)
  {
    hide Literal, KeyLess, CppEscape, Plain;
    var fields := Field(key, Str(s), rest);
    assert [QUOTE] + key + [QUOTE, COLON] + CppRender(Str(s)) == Member(key, s);
    assert LiteralKeys(Str(s)) && PlainStrings(Str(s)) == Plain(s);
    assert PlainStringsIn(fields) == (PlainStrings(Str(s)) && PlainStringsIn(rest));
    assert CppRenderFields(fields) == Joined(Member(key, s), rest, text);
  }

  lemma ObjectInFront(key: Text, fields: Fields, inner: Text, p: bool, rest: Fields, text: Text, plain: bool)
    requires Layout(fields, inner, p)
    requires Layout(rest, text, plain) && Literal(key) && (rest.Field? ==> KeyLess(key, rest.key))
    ensures Layout(Field(key, Obj(fields), rest),
                   Joined([QUOTE] + key + [QUOTE, COLON] + ([OPEN_BRACE] + inner + [CLOSE_BRACE]), rest, text), p && plain)
  {
    hide Literal, KeyLess;
    var o := Obj(fields);
    assert CppRender(o) == [OPEN_BRACE] + inner + [CLOSE_BRACE];
    assert LiteralKeys(o) && PlainStrings(o) == p;
    assert PlainStringsIn(Field(key, o, rest)) == (PlainStrings(o) && PlainStringsIn(rest));
    assert CppRenderFields(Field(key, o, rest)) == Joined([QUOTE] + key + [QUOTE, COLON] + CppRender(o), rest, text);
  }

  lemma NoFieldsLayout()
    ensures Layout(NoFields, [], true)
  { }

  lemma LayoutCanonicalIff(fields: Fields, text: Text, plain: bool)
    requires Layout(fields, text, plain)
    ensures [OPEN_BRACE] + text + [CLOSE_BRACE] == Stringify(Obj(fields)) <==> plain
  {
    hide Ordered, LiteralKeysIn, CppRenderFields, PlainStringsIn, Stringify;
    BodyCanonicalIff(fields);
  }

  /** Each hand-written body is the canonical form of its object, the text the server
      recomputes, exactly when all strings put into it are plain. */
  lemma DeactivateBodyCanonicalIff(deviceCode: Text, licenseKey: Text, productCode: Text)
    ensures DeactivateBody(deviceCode, licenseKey, productCode) == Stringify(Obj(DeactivateFields(deviceCode, licenseKey, productCode)))
       <==> Plain(deviceCode) && Plain(licenseKey) && Plain(productCode)
  {
    TopKeysAreLiteral();
    DeviceKeysAreLiteral();
    TopKeyOrder();
    hide Literal, KeyLess, Plain, Stringify, Layout, Member, Ascii;
    NoFieldsLayout();
    var f2 := Field(PRODUCT_CODE, Str(productCode), NoFields);
    var f1 := Field(LICENSE_KEY, Str(licenseKey), f2);
    var t2 := Member(PRODUCT_CODE, productCode);
    var t1 := Member(LICENSE_KEY, licenseKey) + [COMMA] + t2;
    var t0 := Member(DEVICE_CODE, deviceCode) + [COMMA] + t1;
    StringInFront(PRODUCT_CODE, productCode, NoFields, [], true);
    StringInFront(LICENSE_KEY, licenseKey, f2, t2, Plain(productCode));
    StringInFront(DEVICE_CODE, deviceCode, f1, t1, Plain(licenseKey) && Plain(productCode));
    LayoutCanonicalIff(Field(DEVICE_CODE, Str(deviceCode), f1), t0, Plain(deviceCode) && Plain(licenseKey) && Plain(productCode));
  }

  lemma DeactivateKeysInOrder(deviceCode: Text, licenseKey: Text, productCode: Text)
    ensures Ordered(DeactivateFields(deviceCode, licenseKey, productCode))
    ensures APP_VERSION !in Keys(DeactivateFields(deviceCode, licenseKey, productCode))
  {
    TopKeyOrder();
    assert APP_VERSION[0] != DEVICE_CODE[0] && APP_VERSION[0] != LICENSE_KEY[0] && APP_VERSION[0] != PRODUCT_CODE[0];
    hide KeyLess, Ascii;
    var f2 := Field(PRODUCT_CODE, Str(productCode), NoFields);
    var f1 := Field(LICENSE_KEY, Str(licenseKey), f2);
    assert Ordered(f2) && APP_VERSION !in Keys(f2);
    assert Ordered(f1) && APP_VERSION !in Keys(f1);
  }

  /** What a server reads from the deactivation body: device code, license key and
      product code, and no application version. */
  lemma DeactivateBodyLacksVersion(deviceCode: Text, licenseKey: Text, productCode: Text)
    requires Plain(deviceCode) && Plain(licenseKey) && Plain(productCode)
    ensures var fields := DeactivateFields(deviceCode, licenseKey, productCode);
            && JsonParser.Parse(DeactivateBody(deviceCode, licenseKey, productCode)) == Some(Obj(fields))
            && APP_VERSION !in Keys(fields)
  {
    hide *;
    var fields := DeactivateFields(deviceCode, licenseKey, productCode);
    DeactivateBodyCanonicalIff(deviceCode, licenseKey, productCode);
    DeactivateKeysInOrder(deviceCode, licenseKey, productCode);
    OrderedWellFormed(fields);
    OrderedIsCanon(fields);
    ObjWellFormed(fields);
    JsonParser.ParseStringify(Obj(fields));
  }

  lemma ObjWellFormed(fields: Fields)
    ensures WellFormed(Obj(fields)) == FieldsWellFormed(fields)
    ensures Canon(Obj(fields)) == Obj(CanonFields(fields))
  { }

  lemma VerifyBodyCanonicalIff(appVersion: Text, deviceCode: Text, leaseToken: Text, productCode: Text)
    ensures VerifyBody(appVersion, deviceCode, leaseToken, productCode)
         == Stringify(Obj(VerifyFields(appVersion, deviceCode, leaseToken, productCode)))
       <==> Plain(appVersion) && Plain(deviceCode) && Plain(leaseToken) && Plain(productCode)
  {
    TopKeysAreLiteral();
    DeviceKeysAreLiteral();
    TopKeyOrder();
    assert KeyLess(APP_VERSION, DEVICE_CODE) by { DeviceKeyOrder(); }
    hide Literal, KeyLess, Plain, Stringify, Layout, Member, Ascii;
    NoFieldsLayout();
    var p3 := Plain(productCode);
    var p2 := Plain(leaseToken) && p3;
    var p1 := Plain(deviceCode) && p2;
    var f3 := Field(PRODUCT_CODE, Str(productCode), NoFields);
    var f2 := Field(LEASE_TOKEN, Str(leaseToken), f3);
    var f1 := Field(DEVICE_CODE, Str(deviceCode), f2);
    var t3 := Member(PRODUCT_CODE, productCode);
    var t2 := Member(LEASE_TOKEN, leaseToken) + [COMMA] + t3;
    var t1 := Member(DEVICE_CODE, deviceCode) + [COMMA] + t2;
    var t0 := Member(APP_VERSION, appVersion) + [COMMA] + t1;
    StringInFront(PRODUCT_CODE, productCode, NoFields, [], true);
    StringInFront(LEASE_TOKEN, leaseToken, f3, t3, p3);
    StringInFront(DEVICE_CODE, deviceCode, f2, t2, p2);
    StringInFront(APP_VERSION, appVersion, f1, t1, p1);
    LayoutCanonicalIff(Field(APP_VERSION, Str(appVersion), f1), t0, Plain(appVersion) && p1);
  }

  lemma HeartbeatBodyCanonicalIff(appVersion: Text, deviceCode: Text, leaseToken: Text, productCode: Text)
    ensures HeartbeatBody(appVersion, deviceCode, leaseToken, productCode)
         == Stringify(Obj(HeartbeatFields(appVersion, deviceCode, leaseToken, productCode)))
       <==> Plain(appVersion) && Plain(deviceCode) && Plain(leaseToken) && Plain(productCode)
  {
    TopKeysAreLiteral();
    DeviceKeysAreLiteral();
    TopKeyOrder();
    assert KeyLess(APP_VERSION, DEVICE_CODE) by { DeviceKeyOrder(); }
    hide Literal, KeyLess, Plain, Stringify, Layout, Member, Ascii;
    NoFieldsLayout();
    var p3 := Plain(productCode);
    var p2 := Plain(leaseToken) && p3;
    var p1 := Plain(deviceCode) && p2;
    var f4 := Field(RUNTIME, Obj(NoFields), NoFields);
    var f3 := Field(PRODUCT_CODE, Str(productCode), f4);
    var f2 := Field(LEASE_TOKEN, Str(leaseToken), f3);
    var f1 := Field(DEVICE_CODE, Str(deviceCode), f2);
    var t4 := EmptyMember(RUNTIME);
    var t3 := Member(PRODUCT_CODE, productCode) + [COMMA] + t4;
    var t2 := Member(LEASE_TOKEN, leaseToken) + [COMMA] + t3;
    var t1 := Member(DEVICE_CODE, deviceCode) + [COMMA] + t2;
    var t0 := Member(APP_VERSION, appVersion) + [COMMA] + t1;
    ObjectInFront(RUNTIME, NoFields, [], true, NoFields, [], true);
    assert t4 == [QUOTE] + RUNTIME + [QUOTE, COLON] + ([OPEN_BRACE] + [] + [CLOSE_BRACE]);
    StringInFront(PRODUCT_CODE, productCode, f4, t4, true);
    StringInFront(LEASE_TOKEN, leaseToken, f3, t3, p3);
    StringInFront(DEVICE_CODE, deviceCode, f2, t2, p2);
    StringInFront(APP_VERSION, appVersion, f1, t1, p1);
    LayoutCanonicalIff(Field(APP_VERSION, Str(appVersion), f1), t0, Plain(appVersion) && p1);
  }

  predicate PlainDevice(d: DeviceInfo) {
    && Plain(d.appVersion) && Plain(d.deviceCode) && Plain(d.deviceName)
    && Plain(d.fingerprintHash) && Plain(d.osType) && Plain(d.osVersion)
  }

  lemma DeviceLayout(d: DeviceInfo)
    ensures Layout(DeviceFields(d), DeviceText(d), PlainDevice(d))
  {
    DeviceKeysAreLiteral();
    DeviceKeyOrder();
    hide Literal, KeyLess, Plain, Layout, Member, Ascii;
    NoFieldsLayout();
    var p6 := Plain(d.osVersion);
    var p5 := Plain(d.osType) && p6;
    var p3 := Plain(d.fingerprintHash) && p5;
    var p2 := Plain(d.deviceName) && p3;
    var p1 := Plain(d.deviceCode) && p2;
    var f6 := Field(OS_VERSION, Str(d.osVersion), NoFields);
    var f5 := Field(OS_TYPE, Str(d.osType), f6);
    var f4 := Field(HARDWARE_SUMMARY, Obj(NoFields), f5);
    var f3 := Field(FINGERPRINT_HASH, Str(d.fingerprintHash), f4);
    var f2 := Field(DEVICE_NAME, Str(d.deviceName), f3);
    var f1 := Field(DEVICE_CODE, Str(d.deviceCode), f2);
    var t6 := Member(OS_VERSION, d.osVersion);
    var t5 := Member(OS_TYPE, d.osType) + [COMMA] + t6;
    var t4 := EmptyMember(HARDWARE_SUMMARY) + [COMMA] + t5;
    var t3 := Member(FINGERPRINT_HASH, d.fingerprintHash) + [COMMA] + t4;
    var t2 := Member(DEVICE_NAME, d.deviceName) + [COMMA] + t3;
    var t1 := Member(DEVICE_CODE, d.deviceCode) + [COMMA] + t2;
    StringInFront(OS_VERSION, d.osVersion, NoFields, [], true);
    StringInFront(OS_TYPE, d.osType, f6, t6, p6);
    ObjectInFront(HARDWARE_SUMMARY, NoFields, [], true, f5, t5, p5);
    assert EmptyMember(HARDWARE_SUMMARY) == [QUOTE] + HARDWARE_SUMMARY + [QUOTE, COLON] + ([OPEN_BRACE] + [] + [CLOSE_BRACE]);
    StringInFront(FINGERPRINT_HASH, d.fingerprintHash, f4, t4, p5);
    StringInFront(DEVICE_NAME, d.deviceName, f3, t3, p3);
    StringInFront(DEVICE_CODE, d.deviceCode, f2, t2, p2);
    StringInFront(APP_VERSION, d.appVersion, f1, t1, p1);
  }

  lemma ActivateBodyCanonicalIff(licenseKey: Text, device: DeviceInfo, productCode: Text)
    ensures ActivateBody(licenseKey, device, productCode) == Stringify(Obj(ActivateFields(licenseKey, device, productCode)))
       <==> PlainDevice(device) && Plain(licenseKey) && Plain(productCode)
  {
    TopKeysAreLiteral();
    TopKeyOrder();
    DeviceLayout(device);
    hide Literal, KeyLess, Plain, PlainDevice, Stringify, Layout, Member, EmptyMember, Ascii, DeviceFields;
    NoFieldsLayout();
    var p2 := Plain(productCode);
    var p1 := Plain(licenseKey) && p2;
    var f2 := Field(PRODUCT_CODE, Str(productCode), NoFields);
    var f1 := Field(LICENSE_KEY, Str(licenseKey), f2);
    var t2 := Member(PRODUCT_CODE, productCode);
    var t1 := Member(LICENSE_KEY, licenseKey) + [COMMA] + t2;
    var t0 := [QUOTE] + DEVICE + [QUOTE, COLON] + ([OPEN_BRACE] + DeviceText(device) + [CLOSE_BRACE]) + [COMMA] + t1;
    StringInFront(PRODUCT_CODE, productCode, NoFields, [], true);
    StringInFront(LICENSE_KEY, licenseKey, f2, t2, p2);
    ObjectInFront(DEVICE, DeviceFields(device), DeviceText(device), PlainDevice(device), f1, t1, p1);
    LayoutCanonicalIff(Field(DEVICE, Obj(DeviceFields(device)), f1), t0, PlainDevice(device) && p1);
  }

  // ---------------------------------------------------------------------------
  // The keys and the marks around them, as written

  /** The objects with their keys spelled out. */
  lemma ObjectsAsWritten(code: Text, key: Text, product: Text, version: Text, token: Text)
    ensures Obj(DeactivateFields(code, key, product))
         == Obj(Field(Ascii("deviceCode"), Str(code),
                Field(Ascii("licenseKey"), Str(key), Field(Ascii("productCode"), Str(product), NoFields))))
    ensures Obj(VerifyFields(version, code, token, product))
         == Obj(Field(Ascii("appVersion"), Str(version), Field(Ascii("deviceCode"), Str(code),
                Field(Ascii("leaseToken"), Str(token), Field(Ascii("productCode"), Str(product), NoFields)))))
    ensures Obj(HeartbeatFields(version, code, token, product))
         == Obj(Field(Ascii("appVersion"), Str(version), Field(Ascii("deviceCode"), Str(code),
                Field(Ascii("leaseToken"), Str(token), Field(Ascii("productCode"), Str(product),
                Field(Ascii("runtime"), Obj(NoFields), NoFields))))))
  { }

  lemma ActivationAsWritten(key: Text, d: DeviceInfo, product: Text)
    ensures ActivateFields(key, d, product)
         == Field(Ascii("device"), Obj(DeviceFields(d)),
            Field(Ascii("licenseKey"), Str(key), Field(Ascii("productCode"), Str(product), NoFields)))
    ensures DeviceFields(d)
         == Field(Ascii("appVersion"), Str(d.appVersion), Field(Ascii("deviceCode"), Str(d.deviceCode),
            Field(Ascii("deviceName"), Str(d.deviceName), Field(Ascii("fingerprintHash"), Str(d.fingerprintHash),
            Field(Ascii("hardwareSummary"), Obj(NoFields), Field(Ascii("osType"), Str(d.osType),
            Field(Ascii("osVersion"), Str(d.osVersion), NoFields)))))))
  { }

  // ---------------------------------------------------------------------------
  // extractJsonString

  predicate At(text: Text, pattern: Text, i: nat) {
    i + |pattern| <= |text| && text[i..i + |pattern|] == pattern
  }

  /** `find`: the first occurrence at or after `from`, or -1. */
  function Find(text: Text, pattern: Text, from: nat): (r: int)
    ensures r == -1 ==> forall i: nat | i >= from :: !At(text, pattern, i)
    ensures r != -1 ==> r >= from && At(text, pattern, r) && forall i: nat | from <= i < r :: !At(text, pattern, i)
    decreases |text| + 1 - from
  {
    if from + |pattern| > |text| then -1
    else if At(text, pattern, from) then from
    else Find(text, pattern, from + 1)
  }

  /** The units up to the first unescaped quote, each escape reduced to its second unit. */
  function ReadString(t: Text): Text {
    if t == [] || t[0] == QUOTE then []
    else if t[0] != BACKSLASH then [t[0]] + ReadString(t[1..])
    else if |t| == 1 then []
    else [t[1]] + ReadString(t[2..])
  }

  function Needle(key: Text): Text {
    [QUOTE] + key + [QUOTE, COLON]
  }

  function Extract(body: Text, key: Text): Text {
    var keyPos := Find(body, Needle(key), 0);
    if keyPos == -1 then []
    else
      var valuePos := Find(body, [QUOTE], keyPos + |Needle(key)|);
      if valuePos == -1 then [] else ReadString(body[valuePos + 1..])
  }

  /** The loop's view: what is still to be read, with `escaped` pending or not. */
  function ReadRest(t: Text, escaped: bool): Text {
    if !escaped then ReadString(t) else if t == [] then [] else [t[0]] + ReadString(t[1..])
  }

  lemma ReadRestStep(t: Text, escaped: bool)
    requires t != []
    ensures escaped ==> ReadRest(t, true) == [t[0]] + ReadRest(t[1..], false)
    ensures !escaped && t[0] == BACKSLASH ==> ReadRest(t, false) == ReadRest(t[1..], true)
    ensures !escaped && t[0] == QUOTE ==> ReadRest(t, false) == []
    ensures !escaped && t[0] != BACKSLASH && t[0] != QUOTE ==> ReadRest(t, false) == [t[0]] + ReadRest(t[1..], false)
  {
    if |t| >= 2 { assert t[1..][1..] == t[2..]; }
  }

  method ExtractJsonString(body: Text, key: Text) returns (value: Text)
    ensures value == Extract(body, key)
  {
    hide Find, ReadString, ReadRest, Needle;
    value := [];
    var keyPos := Find(body, Needle(key), 0);
    if keyPos == -1 { return; }
    var valuePos := Find(body, [QUOTE], keyPos + |Needle(key)|);
    if valuePos == -1 { return; }
    FoundFits(body, keyPos + |Needle(key)|);
    valuePos := valuePos + 1;
    ghost var result := ReadString(body[valuePos..]);
    assert Extract(body, key) == result;
    var escaped := false;
    StartUnescaped(body[valuePos..]);
    var i := valuePos;
    while i < |body|
      invariant valuePos <= i <= |body|
      invariant result == value + ReadRest(body[i..], escaped)
    {
      var ch := body[i];
      ReadRestStep(body[i..], escaped);
      assert body[i..][0] == ch && body[i..][1..] == body[i + 1..];
      ghost var rest := ReadRest(body[i + 1..], false);
      assert value + ([ch] + rest) == (value + [ch]) + rest;
      i := i + 1;
      if escaped {
        value := value + [ch];
        escaped := false;
        continue;
      }
      if ch == BACKSLASH {
        escaped := true;
        continue;
      }
      if ch == QUOTE {
        assert value + [] == value;
        return;
      }
      value := value + [ch];
    }
    assert body[i..] == [] && value + [] == value;
    NothingLeft(escaped);
  }

  lemma FoundFits(body: Text, from: nat)
    ensures Find(body, [QUOTE], from) < |body|
  { }

  lemma StartUnescaped(t: Text)
    ensures ReadRest(t, false) == ReadString(t)
  { }

  lemma NothingLeft(escaped: bool)
    ensures ReadRest([], escaped) == []
  { }

  /** What reading back makes of one unit: the control characters the escape knows
      turn into their letters. */
  function FlattenedUnit(c: CodeUnit): CodeUnit {
    if c == 10 then 110 else if c == 13 then 114 else if c == 9 then 116 else c
  }

  function Flattened(s: Text): Text {
    if s == [] then [] else [FlattenedUnit(s[0])] + Flattened(s[1..])
  }

  predicate NoLineOrTab(s: Text) {
    forall i | 0 <= i < |s| :: s[i] != 10 && s[i] != 13 && s[i] != 9
  }

  lemma ReadUnit(c: CodeUnit, tail: Text)
    ensures ReadString(CppEscapeUnit(c) + tail) == [FlattenedUnit(c)] + ReadString(tail)
  {
    var t := CppEscapeUnit(c) + tail;
    assert t[|CppEscapeUnit(c)|..] == tail;
  }

  lemma {:induction false} ReadStringEscape(s: Text, rest: Text)
    ensures ReadString(CppEscape(s) + [QUOTE] + rest) == Flattened(s)
  {
    if s == [] {
      assert CppEscape(s) + [QUOTE] + rest == [QUOTE] + rest;
    } else {
      hide ReadString, CppEscapeUnit, FlattenedUnit;
      ReadStringEscape(s[1..], rest);
      var tail := CppEscape(s[1..]) + [QUOTE] + rest;
      assert CppEscape(s) + [QUOTE] + rest == CppEscapeUnit(s[0]) + tail;
      ReadUnit(s[0], tail);
    }
  }

  lemma {:induction false} FlattenedIff(s: Text)
    ensures |Flattened(s)| == |s|
    ensures Flattened(s) == s <==> NoLineOrTab(s)
  {
    if s != [] {
      FlattenedIff(s[1..]);
      assert s == [s[0]] + s[1..];
      if NoLineOrTab(s[1..]) && s[0] != 10 && s[0] != 13 && s[0] != 9 {
        forall i | 0 <= i < |s| ensures s[i] != 10 && s[i] != 13 && s[i] != 9 {
          if i > 0 { assert s[i] == s[1..][i - 1]; }
        }
      }
      if NoLineOrTab(s) {
        forall i | 0 <= i < |s[1..]| ensures s[1..][i] != 10 && s[1..][i] != 13 && s[1..][i] != 9 {
          assert s[1..][i] == s[i + 1];
        }
      }
      assert Flattened(s)[1..] == Flattened(s[1..]);
    }
  }

  lemma FindHere(text: Text, k: nat)
    requires k < |text| && text[k] == QUOTE
    ensures Find(text, [QUOTE], k) == k
  { }

  lemma ExtractAt(body: Text, key: Text, keyPos: nat)
    requires Find(body, Needle(key), 0) == keyPos
    requires keyPos + |Needle(key)| < |body| && body[keyPos + |Needle(key)|] == QUOTE
    ensures Extract(body, key) == ReadString(body[keyPos + |Needle(key)| + 1..])
  {
    hide Find, At, ReadString, Needle;
    FindHere(body, keyPos + |Needle(key)|);
  }

  /** On the field it finds, extraction undoes the escape exactly for values without
      newline, return and tab. */
  lemma ExtractUndoesEscapeIff(before: Text, key: Text, value: Text, rest: Text)
    requires Find(before + Needle(key) + ([QUOTE] + (CppEscape(value) + [QUOTE] + rest)), Needle(key), 0) == |before|
    ensures Extract(before + Needle(key) + ([QUOTE] + (CppEscape(value) + [QUOTE] + rest)), key) == value <==> NoLineOrTab(value)
  {
    hide *;
    var inner, needle := CppEscape(value) + [QUOTE] + rest, Needle(key);
    var body := before + needle + ([QUOTE] + inner);
    var k := |before| + |needle|;
    assert body[k] == QUOTE && body[k + 1..] == inner;
    ExtractAt(body, key, |before|);
    ReadStringEscape(value, rest);
    FlattenedIff(value);
  }

  // ---------------------------------------------------------------------------
  // Reading a server reply, which `JSON.stringify` printed

  /** What reading back makes of one unit the server printed. */
  function PrintedUnit(c: CodeUnit): (t: Text)
    ensures t != []
  {
    if c == 8 then [98]
    else if c == 9 then [116]
    else if c == 10 then [110]
    else if c == 12 then [102]
    else if c == 13 then [114]
    else if c < 32 || IsHighSurrogate(c) || IsLowSurrogate(c) then [117] + Hex4(c)
    else [c]
  }

  function Printed(s: Text): Text {
    if s == [] then []
    else if StartsWithPair(s) then [s[0], s[1]] + Printed(s[2..])
    else PrintedUnit(s[0]) + Printed(s[1..])
  }

  /** No control character and no lone surrogate. */
  predicate Verbatim(s: Text) {
    if s == [] then true
    else if StartsWithPair(s) then Verbatim(s[2..])
    else s[0] >= 32 && !IsHighSurrogate(s[0]) && !IsLowSurrogate(s[0]) && Verbatim(s[1..])
  }

  /** Units that need no unescaping are copied. */
  lemma {:induction false} ReadCopied(plain: Text, tail: Text)
    requires forall i | 0 <= i < |plain| :: plain[i] != QUOTE && plain[i] != BACKSLASH
    ensures ReadString(plain + tail) == plain + ReadString(tail)
  {
    if plain == [] {
      assert plain + tail == tail;
    } else {
      assert (plain + tail)[1..] == plain[1..] + tail;
      ReadCopied(plain[1..], tail);
    }
  }

  lemma ReadEscaped(c: CodeUnit, tail: Text)
    ensures ReadString([BACKSLASH, c] + tail) == [c] + ReadString(tail)
  {
    assert ([BACKSLASH, c] + tail)[2..] == tail;
  }

  lemma EscapeShape(c: CodeUnit)
    requires |EscapeUnit(c)| > 1
    ensures var e := EscapeUnit(c);
            && e[0] == BACKSLASH && PrintedUnit(c) == [e[1]] + e[2..]
            && forall i | 0 <= i < |e[2..]| :: e[2..][i] != QUOTE && e[2..][i] != BACKSLASH
  { }

  lemma ReadLongEscape(second: CodeUnit, digits: Text, tail: Text)
    requires forall i | 0 <= i < |digits| :: digits[i] != QUOTE && digits[i] != BACKSLASH
    ensures ReadString([BACKSLASH, second] + digits + tail) == [second] + digits + ReadString(tail)
  {
    ReadEscaped(second, digits + tail);
    ReadCopied(digits, tail);
    hide ReadString;
    assert [BACKSLASH, second] + digits + tail == [BACKSLASH, second] + (digits + tail);
  }

  lemma ReadPrintedUnit(c: CodeUnit, tail: Text)
    ensures ReadString(EscapeUnit(c) + tail) == PrintedUnit(c) + ReadString(tail)
  {
    hide ReadString;
    if |EscapeUnit(c)| == 1 {
      ReadCopied([c], tail);
    } else {
      EscapeShape(c);
      var e := EscapeUnit(c);
      ReadLongEscape(e[1], e[2..], tail);
      assert e == [BACKSLASH, e[1]] + e[2..];
    }
  }

  lemma Assoc(a: Text, b: Text, rest: Text)
    ensures (a + b) + [QUOTE] + rest == a + (b + [QUOTE] + rest)
  { }

  lemma {:induction false} ReadPrinted(s: Text, rest: Text)
    ensures ReadString(Escape(s) + [QUOTE] + rest) == Printed(s)
    decreases |s|
  {
    if s == [] {
      assert Escape(s) + [QUOTE] + rest == [QUOTE] + rest;
    } else {
      hide ReadString, EscapeUnit, PrintedUnit;
      if StartsWithPair(s) {
        var tail := Escape(s[2..]) + [QUOTE] + rest;
        ReadPrinted(s[2..], rest);
        Assoc([s[0], s[1]], Escape(s[2..]), rest);
        ReadCopied([s[0], s[1]], tail);
      } else {
        var tail := Escape(s[1..]) + [QUOTE] + rest;
        ReadPrinted(s[1..], rest);
        Assoc(EscapeUnit(s[0]), Escape(s[1..]), rest);
        ReadPrintedUnit(s[0], tail);
      }
    }
  }

  lemma {:induction false} PrintedIff(s: Text)
    ensures |Printed(s)| >= |s|
    ensures Printed(s) == s <==> Verbatim(s)
    decreases |s|
  {
    if s == [] {
    } else if StartsWithPair(s) {
      PrintedIff(s[2..]);
      assert s == [s[0], s[1]] + s[2..];
      assert Printed(s)[2..] == Printed(s[2..]);
    } else {
      PrintedIff(s[1..]);
      assert s == [s[0]] + s[1..];
      assert Printed(s)[|PrintedUnit(s[0])|..] == Printed(s[1..]);
    }
  }

  /** The field found in a reply is read back exactly when its value holds no control
      character and no lone surrogate. */
  lemma ExtractReadsReplyIff(before: Text, key: Text, value: Text, rest: Text)
    requires Find(before + Needle(key) + ([QUOTE] + (Escape(value) + [QUOTE] + rest)), Needle(key), 0) == |before|
    ensures Extract(before + Needle(key) + ([QUOTE] + (Escape(value) + [QUOTE] + rest)), key) == value <==> Verbatim(value)
  {
    hide *;
    var inner, needle := Escape(value) + [QUOTE] + rest, Needle(key);
    var body := before + needle + ([QUOTE] + inner);
    var k := |before| + |needle|;
    assert body[k] == QUOTE && body[k + 1..] == inner;
    ExtractAt(body, key, |before|);
    ReadPrinted(value, rest);
    PrintedIff(value);
  }

  // ---------------------------------------------------------------------------
  // What is read in general

  /** Reading copies units until a quote, the end or a backslash; after a backslash the
      next unit is taken as it is, whatever it means in JSON. */
  lemma ReadInGeneral(plain: Text, c: CodeUnit, tail: Text)
    requires forall i | 0 <= i < |plain| :: plain[i] != 34 && plain[i] != 92
    ensures ReadString(plain) == plain && ReadString(plain + [92]) == plain && ReadString(plain + ([34] + tail)) == plain
    ensures ReadString(plain + ([92, c] + tail)) == plain + ([c] + ReadString(tail))
  {
    ReadCopied(plain, []);
    ReadCopied(plain, [92]);
    ReadCopied(plain, [34] + tail);
    ReadCopied(plain, [92, c] + tail);
    ReadEscaped(c, tail);
    assert plain + [] == plain;
    assert ReadString([]) == [] && ReadString([92]) == [] && ReadString([34] + tail) == [];
    hide ReadString;
  }

  /** What is extracted starts after the first quote that follows the key, wherever that
      is: behind a value that is no string it belongs to a later member. */
  lemma ExtractInGeneral(body: Text, key: Text, k: nat, q: nat)
    requires At(body, Needle(key), k) && forall i: nat | i < k :: !At(body, Needle(key), i)
    requires k + |Needle(key)| <= q < |body| && body[q] == 34
    requires forall i | k + |Needle(key)| <= i < q :: body[i] != 34
    ensures Extract(body, key) == ReadString(body[q + 1..])
  {
    hide ReadString, Needle;
    var from := k + |Needle(key)|;
    assert Find(body, Needle(key), 0) == k;
    FirstQuote(body, from, q);
    hide At, Find;
  }

  lemma {:induction false} FirstQuote(body: Text, from: nat, q: nat)
    requires from <= q < |body| && body[q] == 34 && forall i | from <= i < q :: body[i] != 34
    ensures Find(body, [QUOTE], from) == q
    decreases q - from
  {
    assert body[from..from + 1] == [body[from]];
    if from < q { FirstQuote(body, from + 1, q); }
  }

  /** Asked for `a` in `"a":1,"b":2`, the reader answers `b`. */
  lemma ExtractStrays()
    ensures Extract([34, 97, 34, 58, 49, 44, 34, 98, 34, 58, 50], [97]) == [98]
  {
    var body: Text := [34, 97, 34, 58, 49, 44, 34, 98, 34, 58, 50];
    assert At(body, Needle([97]), 0);
    ExtractInGeneral(body, [97], 0, 6);
    assert body[7..] == [98] + ([34] + [58, 50]);
    ReadInGeneral([98], 0, [58, 50]);
  }

  /** Without the key, or without a quote behind it, the result is empty. */
  lemma ExtractNothing(body: Text, key: Text, k: nat)
    ensures (forall i: nat :: !At(body, Needle(key), i)) ==> Extract(body, key) == []
    ensures At(body, Needle(key), k) && (forall i | k + |Needle(key)| <= i < |body| :: body[i] != 34) ==>
              (forall i: nat | i < k :: !At(body, Needle(key), i)) ==> Extract(body, key) == []
  {
    hide ReadString, Needle;
    if At(body, Needle(key), k) && forall i: nat | i < k :: !At(body, Needle(key), i) {
      assert Find(body, Needle(key), 0) == k;
      var q := Find(body, [QUOTE], k + |Needle(key)|);
      if q != -1 { assert body[q..q + 1][0] == body[q]; }
    }
  }
}
