/**
  Misspelled flag names: the Levenshtein distance computed over two swapped rows, its meaning
  as the least number of single-character edits, and the choice of the nearest flag.
*/
module EditDistance {

  function Min(a: int, b: int): int { if a < b then a else b }
  function Max(a: int, b: int): int { if a > b then a else b }

  function Front(a: string): string
    requires a != ""
  {
    a[..|a| - 1]
  }

  function Last(a: string): char
    requires a != ""
  {
    a[|a| - 1]
  }

  function Cost(x: char, y: char): nat { if x == y then 0 else 1 }

  /** The recursive definition, on last characters; a character stands for one byte. */
  function Lev(a: string, b: string): nat
    decreases |a| + |b|
  {
    if a == "" then |b|
    else if b == "" then |a|
    else Min(Lev(Front(a), b) + 1, Min(Lev(a, Front(b)) + 1, Lev(Front(a), Front(b)) + Cost(Last(a), Last(b))))
  }

  // ---- a metric ----

  lemma {:induction false} LevBounds(a: string, b: string)
    ensures |a| - |b| <= Lev(a, b) && |b| - |a| <= Lev(a, b)
    ensures Lev(a, b) <= Max(|a|, |b|)
    decreases |a| + |b|
  {
    if a != "" && b != "" {
      LevBounds(Front(a), b);
      LevBounds(a, Front(b));
      LevBounds(Front(a), Front(b));
    }
  }

  lemma {:induction false} LevSymmetric(a: string, b: string)
    ensures Lev(a, b) == Lev(b, a)
    decreases |a| + |b|
  {
    if a != "" && b != "" {
      LevSymmetric(Front(a), b);
      LevSymmetric(a, Front(b));
      LevSymmetric(Front(a), Front(b));
    }
  }

  lemma {:induction false} LevZero(a: string, b: string)
    ensures Lev(a, b) == 0 <==> a == b
    decreases |a| + |b|
  {
    if a != "" && b != "" {
      LevZero(Front(a), Front(b));
      assert a == Front(a) + [Last(a)] && b == Front(b) + [Last(b)];
      assert a == b <==> Front(a) == Front(b) && Last(a) == Last(b);
    }
  }

  lemma {:induction false} LevTriangle(a: string, b: string, c: string)
    ensures Lev(a, c) <= Lev(a, b) + Lev(b, c)
    decreases |a| + |b| + |c|
  {
    if a == "" || b == "" || c == "" {
      LevBounds(a, b);
      LevBounds(b, c);
      LevBounds(a, c);
    } else {
      LevTriangle(Front(a), b, c);
      LevTriangle(a, b, Front(c));
      LevTriangle(a, Front(b), c);
      LevTriangle(a, Front(b), Front(c));
      LevTriangle(Front(a), Front(b), c);
      LevTriangle(Front(a), Front(b), Front(c));
    }
  }

  // ---- the least number of edits ----

  /** b is a with one character inserted before position i. */
  ghost predicate InsertsAt(a: string, b: string, i: nat) {
    i < |b| && |b| == |a| + 1 && b[..i] == a[..i] && b[i + 1..] == a[i..]
  }

  /** b is a with the character at position i replaced. */
  ghost predicate ReplacesAt(a: string, b: string, i: nat) {
    i < |b| && |b| == |a| && b[..i] == a[..i] && b[i + 1..] == a[i + 1..]
  }

  ghost predicate OneEdit(a: string, b: string) {
    exists i: nat :: InsertsAt(a, b, i) || InsertsAt(b, a, i) || ReplacesAt(a, b, i)
  }

  /** A chain of single edits from its first text to its last. */
  ghost predicate Edits(path: seq<string>, a: string, b: string) {
    && path != [] && path[0] == a && path[|path| - 1] == b
    && forall k :: 0 <= k < |path| - 1 ==> OneEdit(path[k], path[k + 1])
  }

  lemma {:induction false} LevAppend(a: string, b: string, s: string)
    ensures Lev(a + s, b + s) <= Lev(a, b)
  {
    if s == "" {
      assert a + s == a && b + s == b;
    } else {
      LevAppend(a, b, Front(s));
      assert Front(a + s) == a + Front(s) && Front(b + s) == b + Front(s);
      assert Last(a + s) == Last(s) == Last(b + s);
    }
  }

  lemma InsertCostsOne(a: string, b: string, i: nat)
    requires InsertsAt(a, b, i)
    ensures Lev(a, b) <= 1
  {
    var p, s := a[..i], a[i..];
    assert a == p + s && b == (p + [b[i]]) + s;
    LevAppend(p, p + [b[i]], s);
    assert Front(p + [b[i]]) == p;
    LevZero(p, p);
  }

  lemma ReplaceCostsOne(a: string, b: string, i: nat)
    requires ReplacesAt(a, b, i)
    ensures Lev(a, b) <= 1
  {
    var p, s := a[..i], a[i + 1..];
    var x, y := p + [a[i]], p + [b[i]];
    assert a == x + s && b == y + s;
    LevAppend(x, y, s);
    assert Front(x) == p && Front(y) == p;
    LevZero(p, p);
  }

  lemma OneEditCostsOne(a: string, b: string)
    requires OneEdit(a, b)
    ensures Lev(a, b) <= 1
  {
    hide Lev, InsertsAt, ReplacesAt;
    var i: nat :| InsertsAt(a, b, i) || InsertsAt(b, a, i) || ReplacesAt(a, b, i);
    if InsertsAt(a, b, i) {
      InsertCostsOne(a, b, i);
    } else if InsertsAt(b, a, i) {
      InsertCostsOne(b, a, i);
      LevSymmetric(a, b);
    } else {
      ReplaceCostsOne(a, b, i);
    }
  }

  lemma {:induction false} NoShorterEdits(path: seq<string>, a: string, b: string)
    requires Edits(path, a, b)
    ensures Lev(a, b) <= |path| - 1
    decreases |path|
  {
    if |path| == 1 {
      LevZero(a, b);
    } else {
      var rest := path[1..];
      assert OneEdit(path[0], path[1]);
      forall k | 0 <= k < |rest| - 1 ensures OneEdit(rest[k], rest[k + 1]) {
        var j := k + 1;
        assert OneEdit(path[j], path[j + 1]);
      }
      assert Edits(rest, path[1], b);
      NoShorterEdits(rest, path[1], b);
      OneEditCostsOne(a, path[1]);
      LevTriangle(a, path[1], b);
    }
  }

  /** The path with one character appended to every text. */
  function Suffixed(path: seq<string>, x: char): seq<string> {
    seq(|path|, k requires 0 <= k < |path| => path[k] + [x])
  }

  lemma OneEditAppend(a: string, b: string, x: char)
    requires OneEdit(a, b)
    ensures OneEdit(a + [x], b + [x])
  {
    var i: nat :| InsertsAt(a, b, i) || InsertsAt(b, a, i) || ReplacesAt(a, b, i);
    var c, d := a + [x], b + [x];
    if InsertsAt(a, b, i) {
      assert d[i + 1..] == b[i + 1..] + [x] && c[i..] == a[i..] + [x] && d[..i] == b[..i] && c[..i] == a[..i];
      assert InsertsAt(c, d, i);
    } else if InsertsAt(b, a, i) {
      assert c[i + 1..] == a[i + 1..] + [x] && d[i..] == b[i..] + [x] && d[..i] == b[..i] && c[..i] == a[..i];
      assert InsertsAt(d, c, i);
    } else {
      assert c[i + 1..] == a[i + 1..] + [x] && d[i + 1..] == b[i + 1..] + [x] && d[..i] == b[..i] && c[..i] == a[..i];
      assert ReplacesAt(c, d, i);
    }
  }

  lemma EditsAppend(path: seq<string>, a: string, b: string, x: char)
    requires Edits(path, a, b)
    ensures Edits(Suffixed(path, x), a + [x], b + [x])
  {
    forall k | 0 <= k < |path| - 1 ensures OneEdit(path[k] + [x], path[k + 1] + [x]) {
      OneEditAppend(path[k], path[k + 1], x);
    }
  }

  lemma InsertLast(a: string, b: string)
    requires b != "" && a == Front(b)
    ensures OneEdit(a, b) && OneEdit(b, a)
  {
    assert b[..|a|] == a[..|a|] && b[|a| + 1..] == "" == a[|a|..];
    assert InsertsAt(a, b, |a|);
  }

  lemma ReplaceLast(p: string, x: char, y: char)
    ensures OneEdit(p + [x], p + [y])
  {
    assert (p + [x])[|p| + 1..] == "" == (p + [y])[|p| + 1..];
    assert (p + [x])[..|p|] == p == (p + [y])[..|p|];
    assert ReplacesAt(p + [x], p + [y], |p|);
  }

  lemma EditsThen(path: seq<string>, a: string, b: string, c: string)
    requires Edits(path, a, b) && OneEdit(b, c)
    ensures Edits(path + [c], a, c)
  {
    var more := path + [c];
    forall k | 0 <= k < |more| - 1 ensures OneEdit(more[k], more[k + 1]) {
      if k < |path| - 1 { assert OneEdit(path[k], path[k + 1]); }
    }
  }

  lemma EditThen(a: string, b: string, path: seq<string>, c: string)
    requires OneEdit(a, b) && Edits(path, b, c)
    ensures Edits([a] + path, a, c)
  {
    var more := [a] + path;
    forall k | 0 <= k < |more| - 1 ensures OneEdit(more[k], more[k + 1]) {
      if k > 0 { assert OneEdit(path[k - 1], path[k]); }
    }
  }

  lemma NoEdits(a: string)
    ensures Edits([a], a, a)
  {
  }

  /** A chain of exactly Lev(a, b) edits exists. */
  lemma {:induction false} EditsExist(a: string, b: string) returns (path: seq<string>)
    ensures Edits(path, a, b) && |path| == Lev(a, b) + 1
    decreases |a| + |b|
  {
    hide Edits, OneEdit;
    if a == "" && b == "" {
      path := [""];
      NoEdits("");
    } else if a == "" || (b != "" && Lev(a, b) == Lev(a, Front(b)) + 1) {
      var p := EditsExist(a, Front(b));
      InsertLast(Front(b), b);
      EditsThen(p, a, Front(b), b);
      path := p + [b];
    } else if b == "" || Lev(a, b) == Lev(Front(a), b) + 1 {
      var p := EditsExist(Front(a), b);
      InsertLast(Front(a), a);
      EditThen(a, Front(a), p, b);
      path := [a] + p;
    } else {
      var p := EditsExist(Front(a), Front(b));
      EditsAppend(p, Front(a), Front(b), Last(a));
      assert a == Front(a) + [Last(a)] && b == Front(b) + [Last(b)];
      path := Suffixed(p, Last(a));
      if Last(a) != Last(b) {
        ReplaceLast(Front(b), Last(a), Last(b));
        EditsThen(path, a, Front(b) + [Last(a)], b);
        path := path + [b];
      }
    }
  }

  /** The distance is the least number of single-character edits between the two texts. */
  lemma LeastEdits(a: string, b: string, n: nat)
    ensures Lev(a, b) == n <==>
      (exists path :: Edits(path, a, b) && |path| == n + 1) && (forall path :: Edits(path, a, b) ==> n + 1 <= |path|)
  {
    var best := EditsExist(a, b);
    forall path | Edits(path, a, b) ensures Lev(a, b) + 1 <= |path| { NoShorterEdits(path, a, b); }
  }

  // ---- the two-row computation ----

  lemma LevEdge(a: string, b: string, i: nat, j: nat)
    requires i <= |a| && j <= |b|
    ensures Lev(a[..0], b[..j]) == j && Lev(a[..i], b[..0]) == i
  {
  }

  lemma LevCell(a: string, b: string, i: nat, j: nat)
    requires 0 < i <= |a| && 0 < j <= |b|
    ensures Lev(a[..i], b[..j])
         == Min(Lev(a[..i - 1], b[..j]) + 1,
                Min(Lev(a[..i], b[..j - 1]) + 1, Lev(a[..i - 1], b[..j - 1]) + Cost(a[i - 1], b[j - 1])))
  {
    assert Front(a[..i]) == a[..i - 1] && Front(b[..j]) == b[..j - 1];
  }

  /** Fills one row of the table from the row above it. */
  method FillRow(a: string, b: string, i: nat, prev: array<int>, cur: array<int>)
    requires 0 < i <= |a| && prev != cur && prev.Length == cur.Length == |b| + 1
    requires forall k :: 0 <= k <= |b| ==> prev[k] == Lev(a[..i - 1], b[..k])
    modifies cur
    ensures forall k :: 0 <= k <= |b| ==> cur[k] == Lev(a[..i], b[..k])
  {
    hide Lev;
    cur[0] := i;
    LevEdge(a, b, i, 0);
    for j := 1 to |b| + 1
      invariant forall k :: 0 <= k < j ==> cur[k] == Lev(a[..i], b[..k])
    {
      var cost := 1;
      if a[i - 1] == b[j - 1] { cost := 0; }
      LevCell(a, b, i, j);
      cur[j] := Min(prev[j] + 1, Min(cur[j - 1] + 1, prev[j - 1] + cost));
    }
  }

  method Distance(a: string, b: string) returns (d: int)
    ensures d == Lev(a, b)
  {
    hide Lev;
    var prev := new int[|b| + 1];
    var cur := new int[|b| + 1];
    for j := 0 to |b| + 1
      invariant forall k :: 0 <= k < j ==> prev[k] == k
    {
      prev[j] := j;
    }
    forall k | 0 <= k <= |b| ensures prev[k] == Lev(a[..0], b[..k]) { LevEdge(a, b, 0, k); }
    for i := 1 to |a| + 1
      invariant prev != cur && prev.Length == cur.Length == |b| + 1 && fresh(prev) && fresh(cur)
      invariant forall k :: 0 <= k <= |b| ==> prev[k] == Lev(a[..i - 1], b[..k])
    {
      FillRow(a, b, i, prev, cur);
      prev, cur := cur, prev;
    }
    assert a[..|a|] == a && b[..|b|] == b;
    d := prev[|b|];
  }

  const SUGGESTION_MAX := 3

  predicate Candidate(given: string, name: string) {
    name != "help" && Lev(given, name) <= 3
  }

  /** names[k] is the first candidate of least distance. */
  ghost predicate Nearest(given: string, names: seq<string>, k: nat) {
    && k < |names| && Candidate(given, names[k])
    && (forall i :: 0 <= i < |names| && Candidate(given, names[i]) ==> Lev(given, names[k]) <= Lev(given, names[i]))
    && (forall i :: 0 <= i < k && Candidate(given, names[i]) ==> Lev(given, names[k]) < Lev(given, names[i]))
  }

  ghost predicate NoCandidate(given: string, names: seq<string>) {
    forall i :: 0 <= i < |names| ==> !Candidate(given, names[i])
  }

  lemma NearestOfMore(given: string, names: seq<string>, at: nat, name: string)
    requires Nearest(given, names, at) || NoCandidate(given, names)
    ensures !Candidate(given, name) || (Nearest(given, names, at) && Lev(given, names[at]) <= Lev(given, name)) ==>
      (Nearest(given, names, at) ==> Nearest(given, names + [name], at))
      && (NoCandidate(given, names) && !Candidate(given, name) ==> NoCandidate(given, names + [name]))
    ensures Candidate(given, name) && (Nearest(given, names, at) ==> Lev(given, name) < Lev(given, names[at])) ==>
      Nearest(given, names + [name], |names|)
  {
    hide Lev;
  }

  /** Visits the registered names in order. */
  method ClosestFlag(given: string, names: seq<string>) returns (best: string)
    ensures (exists k: nat :: Nearest(given, names, k) && best == names[k])
         || (best == "" && NoCandidate(given, names))
  {
    hide Lev, Nearest, NoCandidate;
    var bestDistance := SUGGESTION_MAX + 1;
    best := "";
    ghost var at: nat := 0;
    NoneAtFirst(given);
    for i := 0 to |names|
      invariant if bestDistance > SUGGESTION_MAX
                then bestDistance == SUGGESTION_MAX + 1 && best == "" && NoCandidate(given, names[..i])
                else at < i && best == names[at] && bestDistance == Lev(given, best) && Nearest(given, names[..i], at)
    {
      assert names[..i + 1] == names[..i] + [names[i]];
      NearestOfMore(given, names[..i], at, names[i]);
      NoneIsNotNearest(given, names[..i], at);
      if names[i] != "help" {
        var d := Distance(given, names[i]);
        if d < bestDistance {
          best, bestDistance, at := names[i], d, i;
        }
      }
    }
    assert names[..|names|] == names;
    if bestDistance > SUGGESTION_MAX { return ""; }
  }

  lemma NoneAtFirst(given: string)
    ensures forall names: seq<string> :: NoCandidate(given, names[..0])
  {
  }

  lemma NoneIsNotNearest(given: string, names: seq<string>, at: nat)
    ensures NoCandidate(given, names) ==> !Nearest(given, names, at)
  {
    hide Lev;
  }
}
