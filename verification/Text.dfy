/** Values that may be missing. */
module Options {
  datatype Option<+T> = None | Some(value: T) {
    function Or(fallback: T): T {
      if Some? then value else fallback
    }
  }
}

/**
  Text order and comma-separated lists: the byte order the operator sorts names in,
  the sorted duplicate-free lists it compares requests by, and the CSV spelling it
  stores in annotations.
*/
module Text {

  /** Lexicographic comparison: negative, zero or positive like strings.Compare. */
  function Compare(a: string, b: string): (c: int)
    ensures c == 0 <==> a == b
    ensures -1 <= c <= 1
  {
    if a == [] then (if b == [] then 0 else -1)
    else if b == [] then 1
    else if a[0] < b[0] then -1
    else if a[0] > b[0] then 1
    else
      assert a == [a[0]] + a[1..] && b == [b[0]] + b[1..];
      Compare(a[1..], b[1..])
  }

  predicate Less(a: string, b: string) {
    Compare(a, b) < 0
  }

  /** At k, a is a proper prefix of b or has the smaller character, and before k they agree. */
  predicate BelowAt(a: string, b: string, k: nat) {
    k <= |a| && k < |b| && a[..k] == b[..k] && (k == |a| || a[k] < b[k])
  }

  lemma BelowLater(a: string, b: string, k: nat)
    requires BelowAt(a, b, k) && k > 0
    ensures a != "" && a[0] == b[0]
  {
    assert a[..k][0] == b[..k][0];
  }

  /** One text is less than another exactly when it is below it at the first place they differ. */
  lemma {:induction false} LessExactly(a: string, b: string)
    ensures Less(a, b) <==> exists k: nat :: BelowAt(a, b, k)
  {
    if a != [] && b != [] && a[0] == b[0] {
      LessExactly(a[1..], b[1..]);
      assert a == [a[0]] + a[1..] && b == [b[0]] + b[1..];
      if k: nat :| BelowAt(a[1..], b[1..], k) {
        assert a[..k + 1] == [a[0]] + a[1..][..k] && b[..k + 1] == [b[0]] + b[1..][..k];
        assert BelowAt(a, b, k + 1);
      }
      if k: nat :| BelowAt(a, b, k) {
        assert k > 0;
        assert a[1..][..k - 1] == a[..k][1..] && b[1..][..k - 1] == b[..k][1..];
        assert BelowAt(a[1..], b[1..], k - 1);
      }
    } else if b != [] {
      assert a[..0] == b[..0];
      if k: nat :| BelowAt(a, b, k) {
        if k > 0 { BelowLater(a, b, k); }
      }
      assert Less(a, b) ==> BelowAt(a, b, 0);
    }
  }

  lemma {:induction false} CompareAntisymmetric(a: string, b: string)
    ensures Compare(a, b) == -Compare(b, a)
  {
    if a != [] && b != [] && a[0] == b[0] {
      CompareAntisymmetric(a[1..], b[1..]);
    }
  }

  lemma {:induction false} LessTransitive(a: string, b: string, c: string)
    requires Less(a, b) && Less(b, c)
    ensures Less(a, c)
  {
    if a != [] && a[0] == b[0] == c[0] {
      LessTransitive(a[1..], b[1..], c[1..]);
    }
  }

  /** Ascending without duplicates, the only order the operator stores name lists in. */
  ghost predicate StrictlySorted(s: seq<string>) {
    forall i, j :: 0 <= i < j < |s| ==> Less(s[i], s[j])
  }

  /** A strictly sorted list is determined by its elements: comparing two of them compares sets. */
  lemma {:induction false} SortedIsCanonical(a: seq<string>, b: seq<string>)
    requires StrictlySorted(a) && StrictlySorted(b)
    requires forall x :: x in a <==> x in b
    ensures a == b
    decreases |a|
  {
    HasMember(a);
    HasMember(b);
    if a != [] && b != [] {
      assert a[0] in b;
      assert b[0] in a;
      HeadIsLeast(a, b[0]);
      HeadIsLeast(b, a[0]);
      CompareAntisymmetric(a[0], b[0]);
      assert a[0] == b[0];
      forall x ensures x in a[1..] <==> x in b[1..] {
        TailMembers(a, x);
        TailMembers(b, x);
      }
      SortedIsCanonical(a[1..], b[1..]);
      assert a == [a[0]] + a[1..];
      assert b == [b[0]] + b[1..];
    }
  }

  lemma HasMember(s: seq<string>)
    ensures s != [] ==> exists x :: x in s
  {
    if s != [] { assert s[0] in s; }
  }

  lemma HeadIsLeast(s: seq<string>, x: string)
    requires StrictlySorted(s) && x in s
    ensures Compare(s[0], x) <= 0
  {
    var i :| 0 <= i < |s| && s[i] == x;
    assert i > 0 ==> Less(s[0], s[i]);
  }

  lemma TailMembers(s: seq<string>, x: string)
    requires StrictlySorted(s) && s != []
    ensures x in s[1..] <==> x in s && x != s[0]
  {
    assert forall i :: 0 < i < |s| ==> s[i] == s[1..][i - 1];
    assert forall i :: 0 < i < |s| ==> Less(s[0], s[i]);
  }

  /** Inserts x into a strictly sorted list, keeping it strictly sorted. */
  function Insert(x: string, s: seq<string>): (r: seq<string>)
    requires StrictlySorted(s)
    ensures StrictlySorted(r)
    ensures forall y :: y in r <==> y == x || y in s
  {
    if s == [] then [x]
    else if x == s[0] then s
    else if Less(x, s[0]) then
      assert forall i :: 0 <= i < |s| ==> Less(x, s[i]) by {
        forall i | 0 < i < |s| ensures Less(x, s[i]) { LessTransitive(x, s[0], s[i]); }
      }
      [x] + s
    else
      var t := Insert(x, s[1..]);
      assert Less(s[0], x) by { CompareAntisymmetric(x, s[0]); }
      assert forall y :: y in t ==> Less(s[0], y);
      assert forall i :: 0 < i < |s| ==> s[i] == s[1..][i - 1];
      [s[0]] + t
  }

  /** The non-empty values, sorted, each once. */
  function UniqueSorted(values: seq<string>): (r: seq<string>)
    ensures StrictlySorted(r)
    ensures forall y :: y in r <==> y != "" && y in values
    ensures |r| <= |values|
  {
    if values == [] then []
    else
      var rest := UniqueSorted(values[1..]);
      assert values == [values[0]] + values[1..];
      if values[0] == "" then rest
      else
        var r := Insert(values[0], rest);
        InsertLength(values[0], rest);
        r
  }

  lemma {:induction false} InsertLength(x: string, s: seq<string>)
    requires StrictlySorted(s)
    ensures |Insert(x, s)| == |s| + (if x in s then 0 else 1)
  {
    if s != [] && x != s[0] {
      TailMembers(s, x);
      if Less(x, s[0]) {
        if x in s { HeadIsLeast(s, x); CompareAntisymmetric(x, s[0]); }
      } else {
        InsertLength(x, s[1..]);
      }
    }
  }

  /** A strictly sorted list of non-empty names is its own sorted set. */
  lemma UniqueSortedFixpoint(s: seq<string>)
    requires StrictlySorted(s) && "" !in s
    ensures UniqueSorted(s) == s
  {
    SortedIsCanonical(UniqueSorted(s), s);
  }

  // ---- splitting and joining ----

  /** strings.Split for a one-character separator: always at least one part. */
  function Split(s: string, sep: char): (parts: seq<string>)
    ensures |parts| >= 1
    ensures forall p :: p in parts ==> sep !in p
  {
    if s == "" then [""]
    else
      var rest := Split(s[1..], sep);
      if s[0] == sep then [""] + rest
      else [[s[0]] + rest[0]] + rest[1..]
  }

  function Join(parts: seq<string>, sep: char): string {
    if parts == [] then ""
    else if |parts| == 1 then parts[0]
    else parts[0] + [sep] + Join(parts[1..], sep)
  }

  /** A part without the separator stays in one piece in front of anything. */
  lemma {:induction false} SplitAfter(p: string, sep: char, rest: string)
    requires sep !in p
    ensures Split(p + [sep] + rest, sep) == [p] + Split(rest, sep)
    ensures Split(p, sep) == [p]
  {
    var s := p + [sep] + rest;
    if p == "" {
      assert s[1..] == rest;
    } else {
      SplitAfter(p[1..], sep, rest);
      assert s[1..] == p[1..] + [sep] + rest;
      assert [p[0]] + p[1..] == p;
      assert Split(s, sep) == [[s[0]] + Split(s[1..], sep)[0]] + Split(s[1..], sep)[1..];
    }
  }

  /** Splitting a joined list gives the list back when no part holds the separator. */
  lemma {:induction false} SplitJoin(parts: seq<string>, sep: char)
    requires parts != [] && forall p :: p in parts ==> sep !in p
    ensures Split(Join(parts, sep), sep) == parts
  {
    if |parts| == 1 {
      SplitAfter(parts[0], sep, "");
    } else {
      SplitJoin(parts[1..], sep);
      SplitAfter(parts[0], sep, Join(parts[1..], sep));
      assert parts == [parts[0]] + parts[1..];
    }
  }

  /** Go's unicode.IsSpace, the set strings.TrimSpace drops. */
  predicate IsGoSpace(c: char) {
    '\t' <= c <= '\r' || c == ' ' || c == '\U{85}' || c == '\U{A0}' || c == '\U{1680}'
    || '\U{2000}' <= c <= '\U{200A}' || c == '\U{2028}' || c == '\U{2029}' || c == '\U{202F}'
    || c == '\U{205F}' || c == '\U{3000}'
  }

  function TrimSpace(s: string): (r: string)
    ensures r == "" || (!IsGoSpace(r[0]) && !IsGoSpace(r[|r| - 1]))
    ensures |r| <= |s|
    decreases |s|
  {
    if s == "" then ""
    else if IsGoSpace(s[0]) then TrimSpace(s[1..])
    else if IsGoSpace(s[|s| - 1]) then TrimSpace(s[..|s| - 1])
    else s
  }

  lemma TrimStep(s: string)
    ensures TrimSpace(s)
         == if s == "" then "" else if IsGoSpace(s[0]) then TrimSpace(s[1..])
            else if IsGoSpace(s[|s| - 1]) then TrimSpace(s[..|s| - 1]) else s
  {
    hide IsGoSpace;
  }

  lemma {:induction false} TrimBlank(s: string)
    requires forall c :: c in s ==> IsGoSpace(c)
    ensures TrimSpace(s) == ""
  {
    hide IsGoSpace, TrimSpace;
    TrimStep(s);
    if s != "" {
      assert s[0] in s;
      TrimBlank(s[1..]);
    }
  }

  lemma {:induction false} TrimTail(core: string, back: string)
    requires core != "" && !IsGoSpace(core[0]) && !IsGoSpace(core[|core| - 1])
    requires forall c :: c in back ==> IsGoSpace(c)
    ensures TrimSpace(core + back) == core
    decreases |back|
  {
    hide IsGoSpace, TrimSpace;
    var s := core + back;
    TrimStep(s);
    if back != "" {
      assert s[|s| - 1] == back[|back| - 1] && back[|back| - 1] in back;
      assert s[..|s| - 1] == core + back[..|back| - 1];
      TrimTail(core, back[..|back| - 1]);
    } else {
      assert s == core;
    }
  }

  /** Exactly the white space around the text is trimmed. */
  lemma {:induction false} TrimSpaceExactly(front: string, core: string, back: string)
    requires forall c :: c in front || c in back ==> IsGoSpace(c)
    requires core == "" || (!IsGoSpace(core[0]) && !IsGoSpace(core[|core| - 1]))
    ensures TrimSpace(front + core + back) == core
    decreases |front|
  {
    hide IsGoSpace, TrimSpace;
    var s := front + core + back;
    if front != "" {
      TrimStep(s);
      TrimSpaceExactly(front[1..], core, back);
      assert s[0] == front[0] && front[0] in front && s[1..] == front[1..] + core + back;
    } else if core == "" {
      assert s == back;
      TrimBlank(back);
    } else {
      assert s == core + back;
      TrimTail(core, back);
    }
  }

  /** The trimmed non-empty items of a comma-separated list, in order. */
  function SplitCsv(s: string): seq<string> {
    TrimmedItems(Split(s, ','))
  }

  function TrimmedItems(parts: seq<string>): (r: seq<string>)
    ensures "" !in r
  {
    if parts == [] then []
    else
      var p := TrimSpace(parts[0]);
      (if p == "" then [] else [p]) + TrimmedItems(parts[1..])
  }

  /** Text that survives a CSV list unchanged. */
  predicate PlainItem(s: string) {
    s != "" && ',' !in s && !IsGoSpace(s[0]) && !IsGoSpace(s[|s| - 1])
  }

  lemma {:induction false} TrimmedPlain(parts: seq<string>)
    requires forall p :: p in parts ==> PlainItem(p)
    ensures TrimmedItems(parts) == parts
  {
    if parts != [] {
      assert PlainItem(parts[0]);
      TrimmedPlain(parts[1..]);
      assert parts == [parts[0]] + parts[1..];
    }
  }

  /** Writing plain items as CSV and reading them back is the identity, for the empty list too. */
  lemma SplitCsvJoin(items: seq<string>)
    requires forall p :: p in items ==> PlainItem(p)
    ensures SplitCsv(Join(items, ',')) == items
  {
    if items == [] {
      assert TrimmedItems([""]) == [] + TrimmedItems([""][1..]);
    } else {
      SplitJoin(items, ',');
      TrimmedPlain(items);
    }
  }

  // ---- the loops the operator runs ----

  method SplitCsvLoop(s: string) returns (out: seq<string>)
    ensures out == SplitCsv(s)
  {
    hide TrimSpace, Split, TrimmedItems;
    out := [];
    var parts := Split(s, ',');
    NoItems();
    for i := 0 to |parts|
      invariant out == TrimmedItems(parts[..i])
    {
      var p := TrimSpace(parts[i]);
      TrimmedAppend(parts[..i], parts[i]);
      assert parts[..i + 1] == parts[..i] + [parts[i]];
      if p != "" {
        out := out + [p];
      }
    }
    assert parts[..|parts|] == parts;
  }

  lemma NoItems()
    ensures TrimmedItems([]) == []
  {
  }

  lemma {:induction false} TrimmedAppend(parts: seq<string>, p: string)
    ensures TrimmedItems(parts + [p]) == TrimmedItems(parts) + (if TrimSpace(p) == "" then [] else [TrimSpace(p)])
  {
    hide TrimSpace;
    if parts == [] {
      assert [p][1..] == [];
    } else {
      TrimmedAppend(parts[1..], p);
      assert (parts + [p])[1..] == parts[1..] + [p];
    }
  }

  lemma TrimmedStep(parts: seq<string>, i: nat)
    requires i < |parts|
    ensures TrimmedItems(parts[i..])
         == (if TrimSpace(parts[i]) == "" then [] else [TrimSpace(parts[i])]) + TrimmedItems(parts[i + 1..])
  {
    var rest := parts[i..];
    assert rest[0] == parts[i] && rest[1..] == parts[i + 1..];
  }

  /** The map of seen values, then its sorted keys. */
  method UniqueSortedStrings(values: seq<string>) returns (r: seq<string>)
    ensures r == UniqueSorted(values)
  {
    var seen: set<string> := {};
    for i := 0 to |values|
      invariant forall y :: y in seen <==> y != "" && y in values[..i]
    {
      if values[i] != "" {
        seen := seen + {values[i]};
      }
      assert values[..i + 1] == values[..i] + [values[i]];
    }
    assert values[..|values|] == values;
    r := [];
    ghost var all := seen;
    while seen != {}
      invariant StrictlySorted(r) && seen <= all
      invariant forall y :: y in all <==> y in seen || y in r
      decreases |seen|
    {
      var x :| x in seen;
      r := Insert(x, r);
      seen := seen - {x};
    }
    SortedIsCanonical(r, UniqueSorted(values));
  }
}

/** Kubernetes resource names. */
module K8sNames {
  import opened Text

  predicate IsAlnum(c: char) {
    'a' <= c <= 'z' || '0' <= c <= '9'
  }

  /** A DNS-1123 subdomain of at most 253 characters (section 2.1 of RFC 1123, lower case). */
  predicate ValidName(s: string) {
    && 0 < |s| <= 253
    && IsAlnum(s[0]) && IsAlnum(s[|s| - 1])
    && (forall i :: 0 <= i < |s| ==> IsAlnum(s[i]) || s[i] == '-' || s[i] == '.')
    && (forall i :: 0 < i < |s| - 1 && s[i] == '.' ==> IsAlnum(s[i - 1]) && IsAlnum(s[i + 1]))
  }

  predicate LabelChar(c: char) {
    'a' <= c <= 'z' || '0' <= c <= '9' || c == '-'
  }

  /** A label: letters, digits and dashes, no dash at either end. */
  predicate Label(s: string) {
    s != "" && (forall c :: c in s ==> LabelChar(c)) && s[0] != '-' && s[|s| - 1] != '-'
  }

  /** ValidName without its length. */
  predicate Dotted(s: string) {
    && s != "" && IsAlnum(s[0]) && IsAlnum(s[|s| - 1])
    && (forall i :: 0 <= i < |s| ==> IsAlnum(s[i]) || s[i] == '-' || s[i] == '.')
    && (forall i :: 0 < i < |s| - 1 && s[i] == '.' ==> IsAlnum(s[i - 1]) && IsAlnum(s[i + 1]))
  }

  lemma OneLabel(s: string)
    requires '.' !in s
    ensures Dotted(s) <==> Label(s)
  {
    assert forall i :: 0 <= i < |s| ==> s[i] in s;
  }

  lemma Places(p: string, rest: string)
    ensures var s, n := p + "." + rest, |p|;
      && |s| == n + 1 + |rest| && s[n] == '.'
      && (forall i :: 0 <= i < n ==> s[i] == p[i])
      && (forall i :: n < i < |s| ==> s[i] == rest[i - n - 1])
  {
  }

  lemma SplitsDotted(p: string, rest: string)
    requires '.' !in p && Dotted(p + "." + rest)
    ensures Label(p) && Dotted(rest)
  {
    var s, n := p + "." + rest, |p|;
    Places(p, rest);
    assert n > 0 && rest != "";
    assert IsAlnum(s[n - 1]) && IsAlnum(s[n + 1]);
    forall c | c in p ensures LabelChar(c) {
      var i :| 0 <= i < n && p[i] == c;
      assert s[i] == c;
    }
    assert s[|s| - 1] == rest[|rest| - 1];
    forall i | 0 <= i < |rest| ensures IsAlnum(rest[i]) || rest[i] == '-' || rest[i] == '.' {
      assert s[n + 1 + i] == rest[i];
    }
    forall i | 0 < i < |rest| - 1 && rest[i] == '.' ensures IsAlnum(rest[i - 1]) && IsAlnum(rest[i + 1]) {
      assert s[n + 1 + i] == '.';
      assert IsAlnum(s[n + 1 + i - 1]) && IsAlnum(s[n + 1 + i + 1]);
    }
  }

  lemma JoinsDotted(p: string, rest: string)
    requires '.' !in p && Label(p) && Dotted(rest)
    ensures Dotted(p + "." + rest)
  {
    var s, n := p + "." + rest, |p|;
    Places(p, rest);
    assert forall i :: 0 <= i < n ==> p[i] in p;
    assert s[|s| - 1] == rest[|rest| - 1];
    assert forall i :: 0 <= i < |s| ==> IsAlnum(s[i]) || s[i] == '-' || s[i] == '.';
    forall i | 0 < i < |s| - 1 && s[i] == '.' ensures IsAlnum(s[i - 1]) && IsAlnum(s[i + 1]) {
      if i > n {
        var k := i - n - 1;
        assert rest[k] == '.' && k > 0;
        assert IsAlnum(rest[k - 1]) && IsAlnum(rest[k + 1]);
      }
    }
  }

  /** A name is dot-separated labels, no longer than 253 characters. */
  lemma {:induction false} DottedExactly(s: string)
    ensures Dotted(s) <==> forall l :: l in Split(s, '.') ==> Label(l)
    decreases |s|
  {
    hide Dotted, Label, Split;
    if '.' in s {
      var i := FirstDot(s);
      var p, rest := s[..i], s[i + 1..];
      assert s == p + "." + rest;
      SplitAfter(p, '.', rest);
      if Dotted(s) { SplitsDotted(p, rest); }
      if Label(p) && Dotted(rest) { JoinsDotted(p, rest); }
      DottedExactly(rest);
    } else {
      SplitAfter(s, '.', "");
      OneLabel(s);
    }
  }

  lemma FirstDot(s: string) returns (i: nat)
    requires '.' in s
    ensures i < |s| && s[i] == '.' && '.' !in s[..i]
  {
    i := 0;
    while s[i] != '.'
      invariant i < |s| && '.' !in s[..i] && '.' in s[i..]
      decreases |s| - i
    {
      assert s[i..] == [s[i]] + s[i + 1..] && s[..i + 1] == s[..i] + [s[i]];
      i := i + 1;
    }
  }

  lemma ValidExactly(s: string)
    ensures ValidName(s) <==> |s| <= 253 && forall l :: l in Split(s, '.') ==> Label(l)
  {
    hide Label, Split;
    DottedExactly(s);
  }

  lemma ValidIsPlain(s: string)
    requires ValidName(s)
    ensures PlainItem(s)
  {
  }

  /** The names a CSV annotation holds: trimmed, sorted, each once. */
  function NamesIn(raw: string): (r: seq<string>)
    ensures StrictlySorted(r) && "" !in r
  {
    UniqueSorted(SplitCsv(raw))
  }

  /** Storing a sorted list of valid names and reading it back is the identity. */
  lemma NamesRoundTrip(names: seq<string>)
    requires StrictlySorted(names)
    requires forall n :: n in names ==> ValidName(n)
    ensures NamesIn(Join(UniqueSorted(names), ',')) == names
    ensures UniqueSorted(names) == names
  {
    forall n | n in names ensures PlainItem(n) { ValidIsPlain(n); }
    UniqueSortedFixpoint(names);
    SplitCsvJoin(names);
  }
}

/** Decimal numerals. */
module Numerals {

  predicate IsDigit(c: char) { '0' <= c <= '9' }

  predicate Numeric(s: string) {
    s != "" && forall i :: 0 <= i < |s| ==> IsDigit(s[i])
  }

  function Digit(c: char): nat
    requires IsDigit(c)
  {
    c as int - '0' as int
  }

  /** The integer a run of digits spells. */
  function Value(s: string): nat
    requires forall i :: 0 <= i < |s| ==> IsDigit(s[i])
  {
    if s == "" then 0 else Value(s[..|s| - 1]) * 10 + Digit(s[|s| - 1])
  }

  /** The text before the first sep, and what follows it. */
  function Cut(s: string, sep: char): (string, string) {
    if s == "" then ("", "")
    else if s[0] == sep then ("", s[1..])
    else ([s[0]] + Cut(s[1..], sep).0, Cut(s[1..], sep).1)
  }

  lemma {:induction false} CutAt(p: string, c: char, rest: string)
    requires c !in p
    ensures Cut(p + [c] + rest, c) == (p, rest)
  {
    var s := p + [c] + rest;
    if p == "" {
      assert s[1..] == rest;
    } else {
      CutAt(p[1..], c, rest);
      assert s[1..] == p[1..] + [c] + rest && [p[0]] + p[1..] == p;
    }
  }

  lemma {:induction false} CutWhole(p: string, c: char)
    requires c !in p
    ensures Cut(p, c) == (p, "")
  {
    if p != "" {
      CutWhole(p[1..], c);
      assert [p[0]] + p[1..] == p;
    }
  }

  /** The decimal spelling of a number. */
  function Decimal(n: nat): (s: string)
    ensures Numeric(s)
  {
    if n < 10 then [('0' as int + n) as char] else Decimal(n / 10) + [('0' as int + n % 10) as char]
  }

  lemma {:induction false} DecimalValue(n: nat)
    ensures Value(Decimal(n)) == n
  {
    var s := Decimal(n);
    if n < 10 {
      assert s[..|s| - 1] == "" && Digit(s[0]) == n;
    } else {
      DecimalValue(n / 10);
      assert s[..|s| - 1] == Decimal(n / 10) && Digit(s[|s| - 1]) == n % 10;
    }
  }

  /** Different numbers are spelled differently. */
  lemma DecimalDistinct(m: nat, n: nat)
    ensures Decimal(m) == Decimal(n) <==> m == n
  {
    DecimalValue(m);
    DecimalValue(n);
  }
}
