/**
  Content keys that decide whether a derived view is recomputed: the length-prefixed, type-tagged
  encoding of untrusted values, a decoder for it, and the keys built from it. A character stands
  for one UTF-16 code unit.
*/
module ContentKey {
  import opened Options
  import opened Text
  import opened Numerals

  /** A field's value. Num carries the text String(value) prints, Json the text JSON.stringify prints. */
  datatype Value = Undefined | Null | Num(text: string) | Str(s: string) | Json(json: string)

  predicate NumChar(c: char) {
    IsDigit(c) || c == '.' || c == '-' || c == '+' || c == 'e'
  }

  /** What Number::toString prints: a decimal numeral, or one of three words. */
  predicate NumText(s: string) {
    || s == "NaN" || s == "Infinity" || s == "-Infinity"
    || (s != "" && forall i :: 0 <= i < |s| ==> NumChar(s[i]))
  }

  predicate Printable(v: Value) {
    v.Num? ==> NumText(v.text)
  }

  function Sized(tag: char, s: string): string {
    [tag] + Decimal(|s|) + ":" + s
  }

  /** encodeKeyPart on the values it tells apart. */
  function EncodeKeyPart(v: Value): string {
    match v
    case Undefined => "u"
    case Null => "z"
    case Num(text) => "n" + text
    case Str(s) => Sized('s', s)
    case Json(s) => Sized('j', s)
  }

  function EncodeParts(values: seq<Value>): string {
    if values == [] then "" else EncodeKeyPart(values[0]) + EncodeParts(values[1..])
  }

  lemma {:induction false} EncodePartsConcat(a: seq<Value>, b: seq<Value>)
    ensures EncodeParts(a + b) == EncodeParts(a) + EncodeParts(b)
    decreases |a|
  {
    if a == [] {
      assert a + b == b;
    } else {
      assert (a + b)[1..] == a[1..] + b;
      EncodePartsConcat(a[1..], b);
      assert EncodeKeyPart(a[0]) + (EncodeParts(a[1..]) + EncodeParts(b)) == EncodeParts(a) + EncodeParts(b);
    }
  }

  lemma EncodeOne(v: Value)
    ensures EncodeParts([v]) == EncodeKeyPart(v)
  {
    assert [v][1..] == [];
  }

  method EncodeKeyList(values: Option<seq<Value>>) returns (key: string)
    ensures key == EncodeParts(values.Or([]))
  {
    if values.None? { return ""; }
    key := "";
    for i := 0 to |values.value|
      invariant key == EncodeParts(values.value[..i])
    {
      var v := values.value[i];
      EncodePartsConcat(values.value[..i], [v]);
      EncodeOne(v);
      assert values.value[..i + 1] == values.value[..i] + [v];
      key := key + EncodeKeyPart(v);
    }
    assert values.value[..|values.value|] == values.value;
  }

  // ---- decoding ----

  function NumRun(s: string): (n: nat)
    ensures n <= |s| && forall i :: 0 <= i < n ==> NumChar(s[i])
  {
    if s != "" && NumChar(s[0]) then 1 + NumRun(s[1..]) else 0
  }

  function TakeNum(s: string): string {
    if "NaN" <= s then "NaN"
    else if "Infinity" <= s then "Infinity"
    else if "-Infinity" <= s then "-Infinity"
    else s[..NumRun(s)]
  }

  /** A size, a colon, and that many characters; the rest follows. */
  function TakeSized(s: string): Option<(string, string)> {
    var (size, rest) := Cut(s, ':');
    if !Numeric(size) || Numerals.Value(size) > |rest| then None
    else Some((rest[..Numerals.Value(size)], rest[Numerals.Value(size)..]))
  }

  /** The first part of a key and what follows it. */
  function TakePart(key: string): Option<(Value, string)> {
    if key == "" then None
    else if key[0] == 'u' then Some((Undefined, key[1..]))
    else if key[0] == 'z' then Some((Null, key[1..]))
    else if key[0] == 'n' then
      var text := TakeNum(key[1..]);
      if |text| + 1 > |key| then None else Some((Num(text), key[|text| + 1..]))
    else if key[0] == 's' || key[0] == 'j' then
      var r := TakeSized(key[1..]);
      if r.None? then None
      else Some((if key[0] == 's' then Str(r.value.0) else Json(r.value.0), r.value.1))
    else None
  }

  function Decode(key: string): Option<seq<Value>>
    decreases |key|
  {
    if key == "" then Some([])
    else
      var r := TakePart(key);
      if r.None? || |r.value.1| >= |key| then None
      else if Decode(r.value.1).None? then None
      else Some([r.value.0] + Decode(r.value.1).value)
  }

  predicate Tagged(rest: string) {
    rest == "" || rest[0] in {'u', 'z', 'n', 's', 'j'}
  }

  lemma DigitsHold(s: string, c: char)
    requires Numeric(s) && !IsDigit(c)
    ensures c !in s
  {
  }

  lemma SizedComesBack(s: string, rest: string)
    ensures TakeSized(Decimal(|s|) + [':'] + (s + rest)) == Some((s, rest))
  {
    hide Decimal, Numerals.Value, Cut;
    var n := Decimal(|s|);
    DigitsHold(n, ':');
    CutAt(n, ':', s + rest);
    DecimalValue(|s|);
    assert (s + rest)[..|s|] == s && (s + rest)[|s|..] == rest;
  }

  lemma {:induction false} NumRunIs(p: string, rest: string)
    requires forall i :: 0 <= i < |p| ==> NumChar(p[i])
    requires rest == "" || !NumChar(rest[0])
    ensures NumRun(p + rest) == |p|
  {
    if p == "" {
      assert p + rest == rest;
    } else {
      assert (p + rest)[1..] == p[1..] + rest;
      NumRunIs(p[1..], rest);
    }
  }

  lemma NumComesBack(text: string, rest: string)
    requires NumText(text) && Tagged(rest)
    ensures TakeNum(text + rest) == text
  {
    var s := text + rest;
    assert s[..|text|] == text && s[0] == text[0];
    assert "NaN" <= s ==> s[0] == 'N';
    assert "Infinity" <= s ==> s[0] == 'I';
    assert "-Infinity" <= s ==> s[0] == '-' && s[1] == 'I';
    if text == "NaN" || text == "Infinity" || text == "-Infinity" {
      assert text <= s;
    } else {
      assert NumChar(s[0]) && !NumChar('N') && !NumChar('I');
      assert |s| > 1 ==> s[1] == if |text| > 1 then text[1] else rest[0];
      NumRunIs(text, rest);
    }
  }

  lemma SizedPart(tag: char, s: string, rest: string)
    requires tag == 's' || tag == 'j'
    ensures TakePart(Sized(tag, s) + rest) == Some((if tag == 's' then Str(s) else Json(s), rest))
    ensures Sized(tag, s) + rest != "" && (Sized(tag, s) + rest)[0] == tag
  {
    hide TakeSized, TakeNum, Decimal;
    SizedComesBack(s, rest);
    var key := Sized(tag, s) + rest;
    assert key[1..] == Decimal(|s|) + [':'] + (s + rest);
  }

  lemma NumPart(text: string, rest: string)
    requires NumText(text) && Tagged(rest)
    ensures TakePart("n" + text + rest) == Some((Num(text), rest))
  {
    hide TakeSized, TakeNum;
    NumComesBack(text, rest);
    var key := "n" + text + rest;
    assert key[1..] == text + rest && key[|text| + 1..] == rest;
  }

  /** Whatever follows, the first part of an encoding is read back whole. */
  lemma PartComesBack(v: Value, rest: string)
    requires Printable(v) && Tagged(rest)
    ensures TakePart(EncodeKeyPart(v) + rest) == Some((v, rest))
    ensures EncodeKeyPart(v) != "" && Tagged(EncodeKeyPart(v) + rest)
  {
    hide Sized, NumText, TakeSized, TakeNum;
    match v
    case Undefined => assert ("u" + rest)[1..] == rest;
    case Null => assert ("z" + rest)[1..] == rest;
    case Num(text) => NumPart(text, rest);
    case Str(s) => SizedPart('s', s, rest); SizedPart('s', s, "");
    case Json(s) => SizedPart('j', s, rest); SizedPart('j', s, "");
  }

  /** The decoder recovers every list of parts from its encoding. */
  lemma {:induction false} DecodeEncode(values: seq<Value>)
    requires forall v :: v in values ==> Printable(v)
    ensures Decode(EncodeParts(values)) == Some(values) && Tagged(EncodeParts(values))
    decreases |values|
  {
    hide TakePart, EncodeKeyPart;
    if values != [] {
      DecodeEncode(values[1..]);
      PartComesBack(values[0], EncodeParts(values[1..]));
      assert values == [values[0]] + values[1..];
    }
  }

  /** Equal keys mean equal lists. */
  lemma EncodingIsInjective(a: seq<Value>, b: seq<Value>)
    requires forall v :: v in a || v in b ==> Printable(v)
    ensures EncodeParts(a) == EncodeParts(b) <==> a == b
  {
    DecodeEncode(a);
    DecodeEncode(b);
  }

  // ---- the keys ----

  /** One history point's two fields, whatever a hand-edit left there. */
  datatype Point = Point(time: Value, score: Value)

  predicate PointOk(p: Point) { Printable(p.time) && Printable(p.score) }

  function Fields(points: seq<Point>): (r: seq<Value>)
    ensures |r| == 2 * |points|
    ensures forall i :: 0 <= i < |points| ==> r[2 * i] == points[i].time && r[2 * i + 1] == points[i].score
  {
    if points == [] then []
    else
      assert forall i :: 0 < i < |points| ==> points[i] == points[1..][i - 1];
      [points[0].time, points[0].score] + Fields(points[1..])
  }

  lemma FieldsDistinct(a: seq<Point>, b: seq<Point>)
    requires Fields(a) == Fields(b)
    ensures a == b
  {
    assert |a| == |b|;
    forall i | 0 <= i < |a| ensures a[i] == b[i] {
      assert Fields(a)[2 * i] == Fields(b)[2 * i] && Fields(a)[2 * i + 1] == Fields(b)[2 * i + 1];
    }
  }

  lemma {:induction false} FieldsConcat(a: seq<Point>, b: seq<Point>)
    ensures Fields(a + b) == Fields(a) + Fields(b)
    decreases |a|
  {
    if a == [] {
      assert a + b == b;
    } else {
      assert (a + b)[1..] == a[1..] + b;
      FieldsConcat(a[1..], b);
    }
  }

  function HistoryKey(history: seq<Point>): string {
    if history == [] then "" else Decimal(|history|) + "\U{1}" + EncodeParts(Fields(history))
  }

  lemma FieldsOne(p: Point)
    ensures Fields([p]) == [p.time, p.score]
  {
    assert [p][1..] == [];
  }

  lemma PointEncoded(h: seq<Point>, i: nat)
    requires i < |h|
    ensures EncodeParts(Fields(h[..i + 1])) == EncodeParts(Fields(h[..i])) + EncodeKeyPart(h[i].time) + EncodeKeyPart(h[i].score)
  {
    hide EncodeKeyPart, Fields, EncodeParts;
    FieldsConcat(h[..i], [h[i]]);
    EncodePartsConcat(Fields(h[..i]), [h[i].time, h[i].score]);
    EncodePartsConcat([h[i].time], [h[i].score]);
    EncodeOne(h[i].time);
    EncodeOne(h[i].score);
    FieldsOne(h[i]);
    assert [h[i].time, h[i].score] == [h[i].time] + [h[i].score];
    assert h[..i + 1] == h[..i] + [h[i]];
  }

  /** Accumulates point by point behind the ring's length. */
  method HistoryContentKey(history: Option<seq<Point>>) returns (key: string)
    ensures key == HistoryKey(history.Or([]))
  {
    hide EncodeKeyPart, Fields, Decimal;
    if history.None? || history.value == [] { return ""; }
    var h := history.value;
    key := Decimal(|h|) + "\U{1}";
    assert Fields(h[..0]) == [];
    for i := 0 to |h|
      invariant key == Decimal(|h|) + "\U{1}" + EncodeParts(Fields(h[..i]))
    {
      PointEncoded(h, i);
      key := key + EncodeKeyPart(h[i].time) + EncodeKeyPart(h[i].score);
    }
    assert h[..|h|] == h;
  }

  /** Two rings share a key exactly when they hold the same points. */
  lemma HistoryKeyInjective(a: seq<Point>, b: seq<Point>)
    requires forall p :: p in a || p in b ==> PointOk(p)
    ensures HistoryKey(a) == HistoryKey(b) <==> a == b
  {
    hide EncodeParts, Decimal;
    if a != [] && b != [] && HistoryKey(a) == HistoryKey(b) {
      LengthStandsApart(a);
      LengthStandsApart(b);
      FieldsPrintable(a);
      FieldsPrintable(b);
      EncodingIsInjective(Fields(a), Fields(b));
      FieldsDistinct(a, b);
    }
  }

  lemma LengthStandsApart(a: seq<Point>)
    requires a != []
    ensures Cut(HistoryKey(a), '\U{1}') == (Decimal(|a|), EncodeParts(Fields(a)))
    ensures HistoryKey(a) != ""
  {
    var n := Decimal(|a|);
    assert '\U{1}' !in n by {
      forall i | 0 <= i < |n| ensures n[i] != '\U{1}' { assert IsDigit(n[i]); }
    }
    CutAt(n, '\U{1}', EncodeParts(Fields(a)));
  }

  lemma FieldsPrintable(a: seq<Point>)
    requires forall p :: p in a ==> PointOk(p)
    ensures forall v :: v in Fields(a) ==> Printable(v)
  {
    forall v | v in Fields(a) ensures Printable(v) {
      var k :| 0 <= k < |Fields(a)| && Fields(a)[k] == v;
      assert a[k / 2] in a && k == 2 * (k / 2) + k % 2;
    }
  }

  /** A waiver's name and expiry as the key reads them; the clock's key adds its fixed offsets. */
  function WaiversKey(waivers: seq<Point>): string {
    EncodeParts(Fields(waivers))
  }

  function ClockKey(waivers: seq<Point>, offsets: seq<Value>): string {
    WaiversKey(waivers) + EncodeParts(offsets)
  }

  /** Names are not numbers and offsets are. */
  ghost predicate Typed(waivers: seq<Point>, offsets: seq<Value>) {
    (forall p :: p in waivers ==> !p.time.Num?) && (forall v :: v in offsets ==> v.Num?)
  }

  /** Where the offsets start is decided by the first number in a name's place. */
  lemma SameLength(a: seq<Point>, b: seq<Point>, x: seq<Value>, y: seq<Value>)
    requires Fields(a) + x == Fields(b) + y && Typed(a, x) && Typed(b, y)
    ensures |a| >= |b|
  {
    if |a| < |b| {
      NameAt(b, y, |a|);
      FirstOffset(a, x);
    }
  }

  lemma NameAt(b: seq<Point>, y: seq<Value>, i: nat)
    requires i < |b| && Typed(b, y)
    ensures !(Fields(b) + y)[2 * i].Num?
  {
  }

  lemma FirstOffset(a: seq<Point>, x: seq<Value>)
    requires x != [] && Typed(a, x)
    ensures (Fields(a) + x)[2 * |a|].Num?
  {
  }

  /**
    Equal keys mean the same waivers; the clock's keys are equal exactly when the waivers' fields
    followed by the offsets are, so when the offsets are as many, or the values have the types the
    console gives them, exactly when both lists agree.
  */
  lemma ClockKeyInjective(a: seq<Point>, b: seq<Point>, x: seq<Value>, y: seq<Value>)
    requires forall p :: p in a || p in b ==> PointOk(p)
    requires forall v :: v in x || v in y ==> Printable(v)
    ensures WaiversKey(a) == WaiversKey(b) <==> a == b
    ensures ClockKey(a, x) == ClockKey(b, y) <==> Fields(a) + x == Fields(b) + y
    ensures |x| == |y| || (Typed(a, x) && Typed(b, y)) ==> (ClockKey(a, x) == ClockKey(b, y) <==> a == b && x == y)
  {
    hide EncodeParts;
    FieldsPrintable(a);
    FieldsPrintable(b);
    EncodingIsInjective(Fields(a), Fields(b));
    EncodePartsConcat(Fields(a), x);
    EncodePartsConcat(Fields(b), y);
    EncodingIsInjective(Fields(a) + x, Fields(b) + y);
    if Fields(a) == Fields(b) { FieldsDistinct(a, b); }
    if Fields(a) + x == Fields(b) + y && (|x| == |y| || (Typed(a, x) && Typed(b, y))) {
      if |x| != |y| {
        SameLength(a, b, x, y);
        SameLength(b, a, y, x);
      }
      assert (Fields(a) + x)[..|Fields(a)|] == Fields(a) && (Fields(b) + y)[..|Fields(b)|] == Fields(b);
      assert (Fields(a) + x)[|Fields(a)|..] == x && (Fields(b) + y)[|Fields(b)|..] == y;
    }
  }

  /** Without the encoding's tags the keys would collide: a join of the same characters does not tell lists apart. */
  lemma PlainJoinCollides()
    ensures Join(["a,b"], ',') == Join(["a", "b"], ',') && EncodeParts([Str("a,b")]) != EncodeParts([Str("a"), Str("b")])
  {
    EncodingIsInjective([Str("a,b")], [Str("a"), Str("b")]);
    assert ["a", "b"][1..] == ["b"];
  }
}
