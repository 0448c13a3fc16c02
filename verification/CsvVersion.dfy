/**
  Versions read from compliance-operator CSV names and the order they are compared in, in the
  spirit of section 11 of Semantic Versioning 2.0.0.
*/
module CsvVersion {
  import opened Options
  import opened Text
  import opened Numerals

  const PREFIX := "compliance-operator.v"
  const MAX_INT: int := 0x7FFF_FFFF_FFFF_FFFF

  datatype Version = Version(parts: seq<int>, prerelease: string)

  function Sign(n: int): int { if n < 0 then -1 else if n > 0 then 1 else 0 }

  // ---- parsing ----

  /** strconv.Atoi on text without a sign: digits whose value fits 64 bits. */
  function Atoi(s: string): Option<int> {
    if Numeric(s) && Value(s) <= MAX_INT then Some(Value(s)) else None
  }

  function ParseParts(texts: seq<string>): Option<seq<int>> {
    if texts == [] then Some([])
    else if Atoi(texts[0]).None? || ParseParts(texts[1..]).None? then None
    else Some([Atoi(texts[0]).value] + ParseParts(texts[1..]).value)
  }

  predicate HasPrefix(name: string) {
    PREFIX <= name
  }

  function Parse(name: string): Option<Version> {
    if !HasPrefix(name) || name[|PREFIX|..] == "" then None
    else
      var v := Cut(name[|PREFIX|..], '+').0;
      var parts := ParseParts(Split(Cut(v, '-').0, '.'));
      if parts.None? then None else Some(Version(parts.value, Cut(v, '-').1))
  }

  // ---- comparing ----

  function Head(a: seq<int>): int { if a == [] then 0 else a[0] }
  function Tail(a: seq<int>): seq<int> { if a == [] then [] else a[1..] }

  /** Part by part, missing parts read as zero. */
  function CompareParts(a: seq<int>, b: seq<int>): (c: int)
    decreases |a| + |b|
  {
    if a == [] && b == [] then 0
    else if Head(a) != Head(b) then Sign(Head(a) - Head(b))
    else CompareParts(Tail(a), Tail(b))
  }

  function TrimZeros(s: string): string {
    if s != "" && s[0] == '0' then TrimZeros(s[1..]) else s
  }

  /** Longer runs of significant digits are larger; equal lengths compare as text. */
  function CompareNumeric(a: string, b: string): int {
    var x, y := TrimZeros(a), TrimZeros(b);
    if |x| != |y| then Sign(|x| - |y|) else Compare(x, y)
  }

  function CompareSegment(a: string, b: string): int {
    if Numeric(a) && Numeric(b) then CompareNumeric(a, b)
    else if Numeric(a) then -1
    else if Numeric(b) then 1
    else Compare(a, b)
  }

  function CompareSegments(a: seq<string>, b: seq<string>): int {
    if a == [] || b == [] then Sign(|a| - |b|)
    else if CompareSegment(a[0], b[0]) != 0 then CompareSegment(a[0], b[0])
    else CompareSegments(a[1..], b[1..])
  }

  /** A release is above its prereleases. */
  function ComparePre(a: string, b: string): int {
    if a == "" && b == "" then 0
    else if a == "" then 1
    else if b == "" then -1
    else CompareSegments(Split(a, '.'), Split(b, '.'))
  }

  function CompareVersions(a: Version, b: Version): int {
    if CompareParts(a.parts, b.parts) != 0 then CompareParts(a.parts, b.parts)
    else ComparePre(a.prerelease, b.prerelease)
  }

  /** The order on CSV names: parsed above unparsed, then by version, then by text. */
  function CompareNames(a: string, b: string): int {
    var v, w := Parse(a), Parse(b);
    if v.Some? && w.Some? then
      if CompareVersions(v.value, w.value) != 0 then CompareVersions(v.value, w.value) else Compare(a, b)
    else if v.Some? then 1
    else if w.Some? then -1
    else Compare(a, b)
  }

  // ---- digit runs compare by value ----

  function Pow10(n: nat): nat { if n == 0 then 1 else 10 * Pow10(n - 1) }

  predicate Digits(s: string) { forall i :: 0 <= i < |s| ==> IsDigit(s[i]) }

  lemma TimesTen(d: nat, p: nat, x: nat)
    ensures (d * p + x) * 10 == d * (10 * p) + x * 10
  {
  }

  lemma ValueBack(s: string)
    requires Digits(s) && s != ""
    ensures Value(s) == Value(s[..|s| - 1]) * 10 + Digit(s[|s| - 1])
  {
  }

  lemma {:induction false} ValueFront(s: string)
    requires Digits(s) && s != ""
    ensures Digits(s[1..]) && Value(s) == Digit(s[0]) * Pow10(|s| - 1) + Value(s[1..])
  {
    ValueBack(s);
    if |s| > 1 {
      hide Value;
      var f := s[..|s| - 1];
      ValueFront(f);
      ValueBack(s[1..]);
      assert s[1..][..|s| - 2] == f[1..];
      TimesTen(Digit(s[0]), Pow10(|s| - 2), Value(f[1..]));
    } else {
      assert s[..0] == "";
    }
  }

  lemma {:induction false} ValueBelow(s: string)
    requires Digits(s)
    ensures Value(s) < Pow10(|s|)
  {
    if s != "" { ValueBelow(s[..|s| - 1]); }
  }

  lemma {:induction false} TrimKeepsValue(s: string)
    requires Digits(s)
    ensures Digits(TrimZeros(s)) && Value(TrimZeros(s)) == Value(s)
    ensures TrimZeros(s) != "" ==> TrimZeros(s)[0] != '0'
  {
    if s != "" && s[0] == '0' {
      ValueFront(s);
      TrimKeepsValue(s[1..]);
    }
  }

  lemma {:induction false} SameLengthByValue(a: string, b: string)
    requires Digits(a) && Digits(b) && |a| == |b|
    ensures Compare(a, b) == Sign(Value(a) - Value(b))
  {
    if a != "" {
      hide Value, Pow10;
      ValueFront(a);
      ValueFront(b);
      ValueBelow(a[1..]);
      ValueBelow(b[1..]);
      SameLengthByValue(a[1..], b[1..]);
      var p := Pow10(|a| - 1);
      if a[0] < b[0] { LeadingDigit(Digit(a[0]), Digit(b[0]), Value(a[1..]), Value(b[1..]), p); }
      if b[0] < a[0] { LeadingDigit(Digit(b[0]), Digit(a[0]), Value(b[1..]), Value(a[1..]), p); }
      assert a == [a[0]] + a[1..] && b == [b[0]] + b[1..];
    }
  }

  lemma LeadingDigit(d: nat, e: nat, x: nat, y: nat, p: nat)
    requires x < p && y < p && d < e
    ensures d * p + x < e * p + y
  {
    assert (d + 1) * p <= e * p;
  }

  lemma LongerIsLarger(a: string, b: string)
    requires Digits(a) && Digits(b) && |a| < |b| && b[0] != '0'
    ensures Value(a) < Value(b)
  {
    hide Value, Pow10;
    ValueBelow(a);
    ValueFront(b);
    PowGrows(|a|, |b| - 1);
    var d, p: nat := Digit(b[0]), Pow10(|b| - 1);
    assert d >= 1 && (d - 1) * p >= 0;
  }

  lemma {:induction false} PowGrows(m: nat, n: nat)
    requires m <= n
    ensures Pow10(m) <= Pow10(n)
  {
    if m < n { PowGrows(m, n - 1); }
  }

  /** Digit runs of any length compare by the integer they spell. */
  lemma NumericByValue(a: string, b: string)
    requires Digits(a) && Digits(b)
    ensures CompareNumeric(a, b) == Sign(Value(a) - Value(b))
  {
    TrimKeepsValue(a);
    TrimKeepsValue(b);
    var x, y := TrimZeros(a), TrimZeros(b);
    if |x| < |y| { LongerIsLarger(x, y); }
    else if |y| < |x| { LongerIsLarger(y, x); }
    else { SameLengthByValue(x, y); }
  }

  // ---- a strict total order on all names ----

  /** How comparisons a:b and b:c bound a:c under a total preorder. */
  predicate Chained(ab: int, bc: int, ac: int) {
    ab <= 0 && bc <= 0 ==> ac <= 0 && (ab < 0 || bc < 0 ==> ac < 0)
  }

  lemma TextChained(a: string, b: string, c: string)
    ensures Compare(a, b) == -Compare(b, a)
    ensures Chained(Compare(a, b), Compare(b, c), Compare(a, c))
  {
    CompareAntisymmetric(a, b);
    if Less(a, b) && Less(b, c) { LessTransitive(a, b, c); }
  }

  lemma {:induction false} PartsChained(a: seq<int>, b: seq<int>, c: seq<int>)
    ensures CompareParts(a, b) == -CompareParts(b, a)
    ensures Chained(CompareParts(a, b), CompareParts(b, c), CompareParts(a, c))
    decreases |a| + |b| + |c|
  {
    if a != [] || b != [] || c != [] {
      PartsChained(Tail(a), Tail(b), Tail(c));
      PartsUnfold(a, b);
      PartsUnfold(b, a);
      PartsUnfold(b, c);
      PartsUnfold(a, c);
    }
  }

  lemma PartsUnfold(a: seq<int>, b: seq<int>)
    ensures CompareParts(a, b)
         == if Head(a) != Head(b) then Sign(Head(a) - Head(b)) else CompareParts(Tail(a), Tail(b))
  {
  }

  lemma SegmentChained(a: string, b: string, c: string)
    ensures CompareSegment(a, b) == -CompareSegment(b, a)
    ensures Chained(CompareSegment(a, b), CompareSegment(b, c), CompareSegment(a, c))
  {
    hide CompareNumeric;
    TextChained(a, b, c);
    if Numeric(a) && Numeric(b) { NumericByValue(a, b); NumericByValue(b, a); }
    if Numeric(b) && Numeric(c) { NumericByValue(b, c); }
    if Numeric(a) && Numeric(c) { NumericByValue(a, c); }
  }

  lemma {:induction false} SegmentsChained(a: seq<string>, b: seq<string>, c: seq<string>)
    ensures CompareSegments(a, b) == -CompareSegments(b, a)
    ensures Chained(CompareSegments(a, b), CompareSegments(b, c), CompareSegments(a, c))
    decreases |a| + |b| + |c|
  {
    hide CompareSegment;
    if a != [] && b != [] { SegmentChained(a[0], b[0], if c != [] then c[0] else ""); }
    if b != [] && c != [] { SegmentChained(b[0], c[0], ""); }
    if a != [] && b != [] { SegmentsChained(a[1..], b[1..], if c != [] then c[1..] else []); }
  }

  lemma PreChained(a: string, b: string, c: string)
    ensures ComparePre(a, b) == -ComparePre(b, a)
    ensures Chained(ComparePre(a, b), ComparePre(b, c), ComparePre(a, c))
  {
    hide CompareSegments;
    SegmentsChained(Split(a, '.'), Split(b, '.'), Split(c, '.'));
  }

  lemma VersionsChained(a: Version, b: Version, c: Version)
    ensures CompareVersions(a, b) == -CompareVersions(b, a)
    ensures Chained(CompareVersions(a, b), CompareVersions(b, c), CompareVersions(a, c))
  {
    hide ComparePre, CompareParts;
    PartsChained(a.parts, b.parts, c.parts);
    PartsChained(b.parts, c.parts, a.parts);
    PreChained(a.prerelease, b.prerelease, c.prerelease);
  }

  lemma NamesChained(a: string, b: string, c: string)
    ensures CompareNames(a, b) == -CompareNames(b, a)
    ensures CompareNames(a, b) == 0 <==> a == b
    ensures Chained(CompareNames(a, b), CompareNames(b, c), CompareNames(a, c))
  {
    hide CompareVersions, Parse;
    TextChained(a, b, c);
    var v, w, u := Parse(a), Parse(b), Parse(c);
    if v.Some? && w.Some? {
      VersionsChained(v.value, w.value, v.value);
      if u.Some? {
        VersionsChained(v.value, w.value, u.value);
        VersionsChained(u.value, w.value, v.value);
      }
    }
  }

  /** Antisymmetric, zero only on equal names, transitive: a strict total order on all names. */
  lemma NamesTotallyOrdered(a: string, b: string, c: string)
    ensures CompareNames(a, b) == -CompareNames(b, a)
    ensures CompareNames(a, b) == 0 <==> a == b
    ensures CompareNames(a, b) > 0 && CompareNames(b, c) > 0 ==> CompareNames(a, c) > 0
    ensures CompareNames(a, b) >= 0 && CompareNames(b, c) >= 0 ==> CompareNames(a, c) >= 0
  {
    hide CompareNames;
    NamesChained(a, b, c);
    NamesChained(c, b, a);
    NamesChained(a, c, b);
  }

  // ---- the loops ----

  /** Part by part up to the longer length. */
  method CompareVersionParts(a: seq<int>, b: seq<int>) returns (c: int)
    ensures c == CompareParts(a, b)
  {
    var n := if |a| > |b| then |a| else |b|;
    assert Drop(a, 0) == a && Drop(b, 0) == b;
    for i := 0 to n
      invariant CompareParts(a, b) == CompareParts(Drop(a, i), Drop(b, i))
    {
      var av := if i < |a| then a[i] else 0;
      var bv := if i < |b| then b[i] else 0;
      assert Head(Drop(a, i)) == av && Head(Drop(b, i)) == bv;
      assert Tail(Drop(a, i)) == Drop(a, i + 1) && Tail(Drop(b, i)) == Drop(b, i + 1);
      PartsUnfold(Drop(a, i), Drop(b, i));
      if av != bv { return Sign(av - bv); }
    }
    c := 0;
  }

  function Drop(a: seq<int>, i: nat): seq<int> {
    if i <= |a| then a[i..] else []
  }

  /** Segment by segment up to the shorter length, then by length. */
  method ComparePrerelease(a: string, b: string) returns (c: int)
    ensures c == CompareSegments(Split(a, '.'), Split(b, '.'))
  {
    var ap, bp := Split(a, '.'), Split(b, '.');
    var n := if |ap| < |bp| then |ap| else |bp|;
    assert ap[0..] == ap && bp[0..] == bp;
    for i := 0 to n
      invariant CompareSegments(ap, bp) == CompareSegments(ap[i..], bp[i..])
    {
      assert ap[i..][1..] == ap[i + 1..] && bp[i..][1..] == bp[i + 1..];
      var aNum, bNum := Numeric(ap[i]), Numeric(bp[i]);
      if aNum && bNum {
        var d := CompareNumeric(ap[i], bp[i]);
        if d != 0 { return d; }
      } else if aNum {
        return -1;
      } else if bNum {
        return 1;
      } else {
        var d := Compare(ap[i], bp[i]);
        if d != 0 { return d; }
      }
    }
    c := Sign(|ap| - |bp|);
  }

  function Prepend(out: seq<int>, rest: Option<seq<int>>): Option<seq<int>> {
    if rest.None? then None else Some(out + rest.value)
  }

  lemma PrependMore(out: seq<int>, n: int, rest: Option<seq<int>>)
    ensures Prepend(out, Prepend([n], rest)) == Prepend(out + [n], rest)
    ensures Prepend([], rest) == rest
  {
    if rest.Some? {
      assert out + ([n] + rest.value) == (out + [n]) + rest.value;
      assert [] + rest.value == rest.value;
    }
  }

  /** The dot-separated core, each part an integer, or no version at all. */
  method ComplianceCSVVersion(name: string) returns (v: Option<Version>)
    ensures v == Parse(name)
  {
    if !HasPrefix(name) || name[|PREFIX|..] == "" { return None; }
    var text := Cut(name[|PREFIX|..], '+').0;
    var texts := Split(Cut(text, '-').0, '.');
    var out: seq<int> := [];
    PrependMore([], 0, ParseParts(texts));
    assert texts[0..] == texts;
    for i := 0 to |texts|
      invariant ParseParts(texts) == Prepend(out, ParseParts(texts[i..]))
    {
      hide Value, Parse, Split;
      PrependMore(out, Atoi(texts[i]).Or(0), ParseParts(texts[i + 1..]));
      assert texts[i..][0] == texts[i] && texts[i..][1..] == texts[i + 1..];
      if texts[i] == "" { return None; }
      var n := Atoi(texts[i]);
      if n.None? { return None; }
      out := out + [n.value];
    }
    assert out + [] == out;
    v := Some(Version(out, Cut(text, '-').1));
  }
}
