/**
  What the CSV order means, by section 11 of Semantic Versioning 2.0.0: which name is the newer
  one, and what a name has to look like to carry a version.
*/
module CsvPrecedence {
  import opened Options
  import opened Text
  import opened Numerals
  import opened CsvVersion

  // ---- cores ----

  /** The i-th part of a core padded with zeros. */
  function Part(parts: seq<int>, i: nat): int {
    if i < |parts| then parts[i] else 0
  }

  /** The cores agree before i, and a's part there is smaller. */
  ghost predicate CoreBelowAt(a: seq<int>, b: seq<int>, i: nat) {
    Part(a, i) < Part(b, i) && forall j: nat :: j < i ==> Part(a, j) == Part(b, j)
  }

  ghost predicate CoreBelow(a: seq<int>, b: seq<int>) {
    exists i: nat :: CoreBelowAt(a, b, i)
  }

  ghost predicate SameCore(a: seq<int>, b: seq<int>) {
    forall i: nat :: Part(a, i) == Part(b, i)
  }

  lemma TailPart(a: seq<int>, i: nat)
    ensures Part(Tail(a), i) == Part(a, i + 1) && Head(a) == Part(a, 0)
  {
  }

  lemma CoreBelowTail(a: seq<int>, b: seq<int>)
    requires Head(a) == Head(b)
    ensures CoreBelow(a, b) <==> CoreBelow(Tail(a), Tail(b))
    ensures SameCore(a, b) <==> SameCore(Tail(a), Tail(b))
  {
    TailPart(a, 0);
    TailPart(b, 0);
    forall i: nat ensures Part(Tail(a), i) == Part(a, i + 1) && Part(Tail(b), i) == Part(b, i + 1) {
      TailPart(a, i);
      TailPart(b, i);
    }
    if i: nat :| CoreBelowAt(a, b, i) {
      assert i > 0;
      assert CoreBelowAt(Tail(a), Tail(b), i - 1);
    }
    if i: nat :| CoreBelowAt(Tail(a), Tail(b), i) {
      forall j: nat | j < i + 1 ensures Part(a, j) == Part(b, j) {
        if j > 0 { assert Part(Tail(a), j - 1) == Part(Tail(b), j - 1); }
      }
      assert CoreBelowAt(a, b, i + 1);
    }
    if SameCore(Tail(a), Tail(b)) {
      forall j: nat ensures Part(a, j) == Part(b, j) {
        if j > 0 { assert Part(Tail(a), j - 1) == Part(Tail(b), j - 1); }
      }
    }
    if SameCore(a, b) {
      forall j: nat ensures Part(Tail(a), j) == Part(Tail(b), j) { assert Part(a, j + 1) == Part(b, j + 1); }
    }
  }

  /** The padded cores compare at the first part in which they differ. */
  lemma {:induction false} CoresExactly(a: seq<int>, b: seq<int>)
    ensures CompareParts(a, b) < 0 <==> CoreBelow(a, b)
    ensures CompareParts(a, b) == 0 <==> SameCore(a, b)
    decreases |a| + |b|
  {
    TailPart(a, 0);
    TailPart(b, 0);
    PartsUnfold(a, b);
    if a == [] && b == [] {
      assert SameCore(a, b) && !CoreBelow(a, b);
    } else if Head(a) == Head(b) {
      CoresExactly(Tail(a), Tail(b));
      CoreBelowTail(a, b);
    } else {
      assert !SameCore(a, b);
      assert Head(a) < Head(b) ==> CoreBelowAt(a, b, 0);
    }
  }

  // ---- prereleases ----

  /** Digits compare as numbers and stand below text; text compares as text. */
  ghost predicate SegmentBelow(s: string, t: string) {
    if Numeric(s) && Numeric(t) then Value(s) < Value(t)
    else if Numeric(s) || Numeric(t) then Numeric(s)
    else exists k: nat :: BelowAt(s, t, k)
  }

  ghost predicate SameSegment(s: string, t: string) {
    if Numeric(s) && Numeric(t) then Value(s) == Value(t) else s == t
  }

  lemma SegmentExactly(s: string, t: string)
    ensures CompareSegment(s, t) < 0 <==> SegmentBelow(s, t)
    ensures CompareSegment(s, t) == 0 <==> SameSegment(s, t)
  {
    hide CompareNumeric, Value;
    LessExactly(s, t);
    if Numeric(s) && Numeric(t) { NumericByValue(s, t); }
  }

  /** They agree before i; there x has ended, or has the lower segment. */
  ghost predicate SegmentsBelowAt(x: seq<string>, y: seq<string>, i: nat) {
    && i <= |x| && i < |y| && (forall j :: 0 <= j < i ==> SameSegment(x[j], y[j]))
    && (i == |x| || SegmentBelow(x[i], y[i]))
  }

  ghost predicate SegmentsBelow(x: seq<string>, y: seq<string>) {
    exists i: nat :: SegmentsBelowAt(x, y, i)
  }

  ghost predicate SameSegments(x: seq<string>, y: seq<string>) {
    |x| == |y| && forall i :: 0 <= i < |x| ==> SameSegment(x[i], y[i])
  }

  lemma {:induction false} SegmentsExactly(x: seq<string>, y: seq<string>)
    ensures CompareSegments(x, y) < 0 <==> SegmentsBelow(x, y)
    ensures CompareSegments(x, y) == 0 <==> SameSegments(x, y)
    decreases |x|
  {
    hide CompareSegment, SegmentBelow, SameSegment;
    if x == [] || y == [] {
      assert y != [] ==> SegmentsBelowAt(x, y, 0);
    } else {
      SegmentExactly(x[0], y[0]);
      SegmentsExactly(x[1..], y[1..]);
      if CompareSegment(x[0], y[0]) == 0 {
        SegmentsBelowTail(x, y);
      } else {
        Exclusive(x[0], y[0]);
        assert SegmentBelow(x[0], y[0]) ==> SegmentsBelowAt(x, y, 0);
      }
    }
  }

  lemma Exclusive(s: string, t: string)
    ensures !(SegmentBelow(s, t) && SameSegment(s, t))
  {
    hide CompareSegment;
    SegmentExactly(s, t);
  }

  lemma SegmentsBelowTail(x: seq<string>, y: seq<string>)
    requires x != [] && y != [] && SameSegment(x[0], y[0])
    ensures SegmentsBelow(x, y) <==> SegmentsBelow(x[1..], y[1..])
    ensures SameSegments(x, y) <==> SameSegments(x[1..], y[1..])
  {
    hide SegmentBelow, SameSegment;
    Exclusive(x[0], y[0]);
    if i: nat :| SegmentsBelowAt(x, y, i) {
      assert i > 0;
      forall j | 0 <= j < i - 1 ensures SameSegment(x[1..][j], y[1..][j]) { assert SameSegment(x[j + 1], y[j + 1]); }
      assert SegmentsBelowAt(x[1..], y[1..], i - 1);
    }
    if i: nat :| SegmentsBelowAt(x[1..], y[1..], i) {
      forall j | 0 <= j < i + 1 ensures SameSegment(x[j], y[j]) {
        if j > 0 { assert SameSegment(x[1..][j - 1], y[1..][j - 1]); }
      }
      assert SegmentsBelowAt(x, y, i + 1);
    }
    if SameSegments(x[1..], y[1..]) {
      forall j | 0 <= j < |x| ensures SameSegment(x[j], y[j]) {
        if j > 0 { assert SameSegment(x[1..][j - 1], y[1..][j - 1]); }
      }
    }
    if SameSegments(x, y) {
      forall j | 0 <= j < |x[1..]| ensures SameSegment(x[1..][j], y[1..][j]) { assert SameSegment(x[j + 1], y[j + 1]); }
    }
  }

  // ---- versions and names ----

  /** v is the older version: its core is below, or with the same core its prerelease is. */
  ghost predicate Older(v: Version, w: Version) {
    || CoreBelow(v.parts, w.parts)
    || (SameCore(v.parts, w.parts) && v.prerelease != "" && w.prerelease == "")
    || (SameCore(v.parts, w.parts) && v.prerelease != "" && w.prerelease != ""
        && SegmentsBelow(Split(v.prerelease, '.'), Split(w.prerelease, '.')))
  }

  ghost predicate SameVersion(v: Version, w: Version) {
    && SameCore(v.parts, w.parts)
    && (v.prerelease == "" <==> w.prerelease == "")
    && (v.prerelease != "" && w.prerelease != "" ==> SameSegments(Split(v.prerelease, '.'), Split(w.prerelease, '.')))
  }

  lemma VersionsExactly(v: Version, w: Version)
    ensures CompareVersions(v, w) < 0 <==> Older(v, w)
    ensures CompareVersions(v, w) == 0 <==> SameVersion(v, w)
  {
    hide CompareParts, CompareSegments, CoreBelow, SameCore, SegmentsBelow, SameSegments;
    CoresExactly(v.parts, w.parts);
    SegmentsExactly(Split(v.prerelease, '.'), Split(w.prerelease, '.'));
  }

  /** a is the lesser name: no version where b has one, the older version, or the lesser text of equal versions. */
  ghost predicate Lesser(a: string, b: string) {
    var v, w := Parse(a), Parse(b);
    if v.Some? && w.Some? then Older(v.value, w.value) || (SameVersion(v.value, w.value) && Less(a, b))
    else if v.None? && w.None? then Less(a, b)
    else w.Some?
  }

  /** The order on names goes by version: cores part by part, releases above prereleases, segments by value. */
  lemma NamesExactly(a: string, b: string)
    ensures CompareNames(a, b) < 0 <==> Lesser(a, b)
    ensures CompareNames(a, b) > 0 <==> Lesser(b, a)
  {
    hide Parse, CompareVersions, Older, SameVersion;
    NamesChained(a, b, a);
    var v, w := Parse(a), Parse(b);
    if v.Some? && w.Some? {
      VersionsExactly(v.value, w.value);
      VersionsExactly(w.value, v.value);
      VersionsChained(v.value, w.value, v.value);
    }
    CompareAntisymmetric(a, b);
  }

  // ---- what carries a version ----

  /** The dotted text between the prefix and the first dash or plus sign. */
  function CoreText(name: string): string
    requires "compliance-operator.v" <= name
  {
    Cut(Cut(name[|"compliance-operator.v"|..], '+').0, '-').0
  }

  lemma {:induction false} PartsParsed(texts: seq<string>)
    ensures ParseParts(texts).Some? <==> forall t :: t in texts ==> Numeric(t) && Value(t) <= 0x7FFF_FFFF_FFFF_FFFF
    ensures ParseParts(texts).Some? ==>
      var parts := ParseParts(texts).value;
      |parts| == |texts| && forall i :: 0 <= i < |texts| ==> Numeric(texts[i]) && parts[i] == Value(texts[i])
  {
    hide Value, Numeric;
    if texts != [] {
      PartsParsed(texts[1..]);
      assert texts == [texts[0]] + texts[1..];
    }
  }

  /**
    A name carries a version if and only if it has the prefix and every dotted part of its core is
    a run of digits that fits 64 bits; the version's parts are the numbers they spell.
  */
  lemma ParsesExactly(name: string)
    ensures Parse(name).Some? <==>
      && "compliance-operator.v" <= name && |name| > |"compliance-operator.v"|
      && forall t :: t in Split(CoreText(name), '.') ==> Numeric(t) && Value(t) <= 0x7FFF_FFFF_FFFF_FFFF
    ensures Parse(name).Some? ==>
      var texts, v := Split(CoreText(name), '.'), Parse(name).value;
      |v.parts| == |texts| && forall i :: 0 <= i < |texts| ==> Numeric(texts[i]) && v.parts[i] == Value(texts[i])
  {
    hide Value, Cut, Split, ParseParts;
    if HasPrefix(name) { PartsParsed(Split(CoreText(name), '.')); }
  }

  function Printed(parts: seq<nat>): (r: seq<string>)
    ensures |r| == |parts| && forall i :: 0 <= i < |r| ==> r[i] == Decimal(parts[i])
  {
    seq(|parts|, i requires 0 <= i < |parts| => Decimal(parts[i]))
  }

  lemma {:induction false} JoinedDigits(texts: seq<string>)
    requires forall t :: t in texts ==> Numeric(t)
    ensures forall c :: c in Join(texts, '.') ==> IsDigit(c) || c == '.'
  {
    if texts != [] {
      assert texts == [texts[0]] + texts[1..] && texts[0] in texts;
      JoinedDigits(texts[1..]);
      forall c | c in texts[0] ensures IsDigit(c) {
        var i :| 0 <= i < |texts[0]| && texts[0][i] == c;
      }
    }
  }

  /** A printed version, with any prerelease and build, is read back part by part. */
  lemma PrintedParses(parts: seq<nat>, pre: string, build: string)
    requires parts != [] && (forall p :: p in parts ==> p <= 0x7FFF_FFFF_FFFF_FFFF) && '+' !in pre
    ensures var core := Join(Printed(parts), '.');
      && Parse("compliance-operator.v" + core) == Some(Version(parts, ""))
      && Parse("compliance-operator.v" + core + "-" + pre) == Some(Version(parts, pre))
      && Parse("compliance-operator.v" + core + "-" + pre + "+" + build) == Some(Version(parts, pre))
  {
    hide Parse, Value, Decimal, Join, Split, Cut, ParseParts;
    var texts := Printed(parts);
    forall i | 0 <= i < |texts| ensures Numeric(texts[i]) && Value(texts[i]) == parts[i] && parts[i] in parts {
      DecimalValue(parts[i]);
    }
    forall t | t in texts ensures Numeric(t) && Value(t) <= 0x7FFF_FFFF_FFFF_FFFF && '.' !in t {
      var i :| 0 <= i < |texts| && texts[i] == t;
    }
    var core := Join(texts, '.');
    JoinedDigits(texts);
    SplitJoin(texts, '.');
    SplitNothing();
    assert texts[0] in texts;
    PartsParsed(texts);
    assert ParseParts(texts).value == parts;
    CutWhole(core, '+');
    CutWhole(core, '-');
    ReadsBack(core, core, "", parts);
    CutAt(core, '-', pre);
    CutWhole(core + "-" + pre, '+');
    ReadsBack(core + "-" + pre, core + "-" + pre, pre, parts);
    CutAt(core + "-" + pre, '+', build);
    ReadsBack(core + "-" + pre + "+" + build, core + "-" + pre, pre, parts);
    assert "compliance-operator.v" + core + "-" + pre == "compliance-operator.v" + (core + "-" + pre);
    assert "compliance-operator.v" + core + "-" + pre + "+" + build
        == "compliance-operator.v" + (core + "-" + pre + "+" + build);
  }

  lemma SplitNothing()
    ensures Split("", '.') == [""]
  {
  }

  lemma ReadsBack(text: string, v: string, pre: string, parts: seq<int>)
    requires text != "" && Cut(text, '+').0 == v && Cut(v, '-').1 == pre
    requires ParseParts(Split(Cut(v, '-').0, '.')) == Some(parts)
    ensures Parse("compliance-operator.v" + text) == Some(Version(parts, pre))
  {
    hide Cut, Split, ParseParts;
    var name := "compliance-operator.v" + text;
    assert name[|PREFIX|..] == text;
  }
}
