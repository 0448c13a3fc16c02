/**
  The reported differences against the scans themselves: exactly when a check that failed in both
  scans is reported as newly failed or as fixed, and exactly when a real change goes unreported.
*/
module HistoryInventions {
  import opened Options
  import opened Text
  import opened HistoryModel
  import opened HistoryRuns
  import opened HistoryTheorems

  /** What the status keeps of a scan's failing names for the next scan to compare with. */
  function Kept(raw: seq<string>): (r: seq<string>)
    ensures r <= raw && |r| <= FAILURE_LIST_MAX
    ensures Cost(raw) <= SHARE_BUDGET && |raw| <= FAILURE_LIST_MAX ==> r == raw
  {
    ClampList(TrimToShare(raw))
  }

  /** The stored report of newly failed names. */
  function NewlyOf(now: seq<string>, before: seq<string>): seq<string> {
    ClampList(Diff(TrimToShare(now), Kept(before)))
  }

  function FixedOf(now: seq<string>, before: seq<string>): seq<string> {
    ClampList(Diff(Kept(before), TrimToShare(now)))
  }

  /** The share keeps the longest prefix that fits: one name more would not. */
  lemma {:induction false} TrimIsLongest(names: seq<string>)
    ensures var r := TrimToShare(names);
      r == names || Cost(names[..|r| + 1]) > 768 * 1024 / 4
    decreases |names|
  {
    hide Cost;
    CostEmpty();
    if Cost(names) > SHARE_BUDGET {
      var front := names[..|names| - 1];
      TrimIsLongest(front);
      var r := TrimToShare(front);
      if r == front {
        assert names[..|r| + 1] == names;
      } else {
        assert front[..|r| + 1] == names[..|r| + 1];
      }
    }
  }

  /** What is kept fits the share and 4096 names, and one name more would break one of the two. */
  lemma KeptIsLongest(raw: seq<string>)
    ensures var r := Kept(raw);
      && Cost(r) <= 768 * 1024 / 4 && |r| <= 4096
      && (r == raw || |r| == 4096 || Cost(raw[..|r| + 1]) > 768 * 1024 / 4)
  {
    hide Cost, TrimToShare;
    TrimIsLongest(raw);
    CostPrefix(TrimToShare(raw), |Kept(raw)|);
  }

  // ---- where a name stands in a difference ----

  lemma DiffOne(x: string, b: seq<string>)
    requires x !in b
    ensures Diff([x], b) == [x]
  {
    assert [x][1..] == [];
  }

  /** A name of a sorted list stands in the difference behind the new names before it. */
  lemma StandsAt(f: seq<string>, b: seq<string>, i: nat)
    requires StrictlySorted(f) && i < |f| && f[i] !in b
    ensures var k := |Diff(f[..i], b)|;
      k < |Diff(f, b)| && Diff(f, b)[k] == f[i]
  {
    hide Diff, StrictlySorted;
    TailSorted(f, i);
    DiffSplit(f, i, b);
    DiffSplit(f[i..], 1, b);
    assert f[i..][..1] == [f[i]];
    DiffOne(f[i], b);
  }

  lemma IndexIsUnique(s: seq<string>, i: nat, j: nat)
    requires StrictlySorted(s) && i < |s| && j < |s| && s[i] == s[j]
    ensures i == j
  {
  }

  /** A name is on the bounded list exactly when fewer than 4096 new names stand before it. */
  lemma ListedExactly(f: seq<string>, b: seq<string>, i: nat)
    requires StrictlySorted(f) && i < |f|
    ensures f[i] in ClampList(Diff(f, b)) <==> f[i] !in b && |Diff(f[..i], b)| < FAILURE_LIST_MAX
  {
    hide Diff, StrictlySorted;
    var d, r := Diff(f, b), ClampList(Diff(f, b));
    assert forall j :: 0 <= j < |r| ==> r[j] == d[j];
    if f[i] !in b {
      StandsAt(f, b, i);
      if f[i] in r {
        var j :| 0 <= j < |r| && r[j] == f[i];
        IndexIsUnique(d, j, |Diff(f[..i], b)|);
      }
    }
  }

  /** A prefix of a sorted list lacks exactly the names behind it. */
  lemma CutOff(raw: seq<string>, kept: seq<string>)
    requires StrictlySorted(raw) && kept <= raw
    ensures forall x :: x in raw ==> (x !in kept <==> x in raw[|kept|..])
  {
    Separate(raw, |kept|);
    assert raw == raw[..|kept|] + raw[|kept|..];
  }

  // ---- reports that are not true ----

  /** A name reported as newly failed that failed in the scan before. */
  ghost predicate InventsNew(now: seq<string>, before: seq<string>) {
    exists x :: x in NewlyOf(now, before) && x in before
  }

  /** A name reported as fixed that still fails. */
  ghost predicate InventsFixed(now: seq<string>, before: seq<string>) {
    exists x :: x in FixedOf(now, before) && x in now
  }

  /** A name cut from the previous scan's set fails again, fewer than 4096 new names before it. */
  ghost predicate Resurfaces(now: seq<string>, before: seq<string>) {
    var f, b := TrimToShare(now), Kept(before);
    exists i: nat :: i < |f| && f[i] in before[|b|..] && |Diff(f[..i], b)| < FAILURE_LIST_MAX
  }

  /** A name the previous set kept fails again beyond the size share. */
  ghost predicate Sinks(now: seq<string>, before: seq<string>) {
    exists x :: x in now[|TrimToShare(now)|..] && x in Kept(before)
  }

  lemma ResurfacesAt(now: seq<string>, before: seq<string>, i: nat)
    requires StrictlySorted(now) && StrictlySorted(before) && i < |TrimToShare(now)|
    ensures var f, b := TrimToShare(now), Kept(before);
      f[i] in NewlyOf(now, before) && f[i] in before
      <==> f[i] in before[|b|..] && |Diff(f[..i], b)| < FAILURE_LIST_MAX
  {
    hide Diff, StrictlySorted, TrimToShare, Kept, ClampList;
    var f, b := TrimToShare(now), Kept(before);
    TrimSorted(now);
    CutOff(before, b);
    ListedExactly(f, b, i);
    assert before == before[..|b|] + before[|b|..];
  }

  /** A failure is invented if and only if a name cut from the previous set resurfaces. */
  lemma InventsNewExactly(now: seq<string>, before: seq<string>)
    requires StrictlySorted(now) && StrictlySorted(before)
    ensures InventsNew(now, before) <==> Resurfaces(now, before)
  {
    hide Diff, StrictlySorted, TrimToShare, Kept, NewlyOf;
    var f, b := TrimToShare(now), Kept(before);
    if x :| x in NewlyOf(now, before) && x in before {
      NewIsKept(now, before, x);
      var i: nat :| i < |f| && f[i] == x;
      ResurfacesAt(now, before, i);
    }
    if i: nat :| i < |f| && f[i] in before[|b|..] && |Diff(f[..i], b)| < FAILURE_LIST_MAX {
      ResurfacesAt(now, before, i);
    }
  }

  lemma NewIsKept(now: seq<string>, before: seq<string>, x: string)
    requires x in NewlyOf(now, before)
    ensures x in TrimToShare(now) && x in now
  {
    hide Diff, TrimToShare, Kept;
    assert x in Diff(TrimToShare(now), Kept(before));
  }

  /** When the scan's own set fits 4096 names, any cut name that fails again within the share comes back. */
  lemma ResurfacesWithinBound(now: seq<string>, before: seq<string>)
    requires |TrimToShare(now)| <= FAILURE_LIST_MAX
    ensures Resurfaces(now, before) <==> exists x :: x in TrimToShare(now) && x in before[|Kept(before)|..]
  {
    hide Diff, TrimToShare, Kept;
    var f, b := TrimToShare(now), Kept(before);
    if x :| x in f && x in before[|b|..] {
      var i: nat :| i < |f| && f[i] == x;
      assert |Diff(f[..i], b)| <= i;
    }
  }

  /** The list of fixed names never meets the 4096-name bound. */
  lemma FixedIsWhole(now: seq<string>, before: seq<string>)
    ensures FixedOf(now, before) == Diff(Kept(before), TrimToShare(now))
  {
    hide Diff, TrimToShare, Kept;
  }

  /** A fix is invented if and only if a kept name sinks below the share. */
  lemma InventsFixedExactly(now: seq<string>, before: seq<string>)
    requires StrictlySorted(now) && StrictlySorted(before)
    ensures InventsFixed(now, before) <==> Sinks(now, before)
  {
    hide Diff, TrimToShare, Kept, FixedOf, StrictlySorted;
    var f, b := TrimToShare(now), Kept(before);
    FixedIsWhole(now, before);
    CutOff(now, f);
    assert now == now[..|f|] + now[|f|..];
    if Sinks(now, before) {
      var x :| x in now[|f|..] && x in b;
      assert x in FixedOf(now, before) && x in now;
    }
  }

  /** A previous set within both bounds invents no failure; a current set within the share no fix. */
  lemma FittingSetsInventNothing(now: seq<string>, before: seq<string>)
    requires StrictlySorted(now) && StrictlySorted(before)
    ensures Cost(before) <= SHARE_BUDGET && |before| <= FAILURE_LIST_MAX ==> !InventsNew(now, before)
    ensures Cost(now) <= SHARE_BUDGET ==> !InventsFixed(now, before)
  {
    hide Diff, StrictlySorted, Cost, InventsNew, InventsFixed;
    InventsNewExactly(now, before);
    InventsFixedExactly(now, before);
  }

  // ---- changes that go unreported ----

  ghost predicate MissesNew(now: seq<string>, before: seq<string>) {
    exists x :: x in now && x !in before && x !in NewlyOf(now, before)
  }

  ghost predicate MissesFixed(now: seq<string>, before: seq<string>) {
    exists x :: x in before && x !in now && x !in FixedOf(now, before)
  }

  /** A new failure lies beyond the share, or behind 4096 listed names. */
  ghost predicate Crowded(now: seq<string>, before: seq<string>) {
    var f, b := TrimToShare(now), Kept(before);
    || (exists x :: x in now[|f|..] && x !in before)
    || (exists i: nat :: i < |f| && f[i] !in before && |Diff(f[..i], b)| >= FAILURE_LIST_MAX)
  }

  /** A name cut from the previous set no longer fails. */
  ghost predicate Forgotten(now: seq<string>, before: seq<string>) {
    exists x :: x in before[|Kept(before)|..] && x !in now
  }

  lemma MissesNewExactly(now: seq<string>, before: seq<string>)
    requires StrictlySorted(now) && StrictlySorted(before)
    ensures MissesNew(now, before) <==> Crowded(now, before)
  {
    hide Diff, StrictlySorted, TrimToShare, Kept, ClampList;
    var f, b := TrimToShare(now), Kept(before);
    TrimSorted(now);
    CutOff(now, f);
    assert now == now[..|f|] + now[|f|..];
    forall i: nat | i < |f|
      ensures f[i] in ClampList(Diff(f, b)) <==> f[i] !in b && |Diff(f[..i], b)| < FAILURE_LIST_MAX
    {
      ListedExactly(f, b, i);
    }
    assert forall x :: x in NewlyOf(now, before) ==> x in f;
    if MissesNew(now, before) {
      var x :| x in now && x !in before && x !in NewlyOf(now, before);
      if x in f {
        var i: nat :| i < |f| && f[i] == x;
        assert |Diff(f[..i], b)| >= FAILURE_LIST_MAX;
      }
    }
    if x :| x in now[|f|..] && x !in before { assert x in now && x !in NewlyOf(now, before); }
    if i: nat :| i < |f| && f[i] !in before && |Diff(f[..i], b)| >= FAILURE_LIST_MAX {
      assert f[i] in now && f[i] !in NewlyOf(now, before);
    }
  }

  lemma MissesFixedExactly(now: seq<string>, before: seq<string>)
    requires StrictlySorted(before)
    ensures MissesFixed(now, before) <==> Forgotten(now, before)
  {
    hide Diff, StrictlySorted, TrimToShare, Kept, FixedOf;
    var f, b := TrimToShare(now), Kept(before);
    FixedIsWhole(now, before);
    CutOff(before, b);
    assert before == before[..|b|] + before[|b|..];
    assert forall x :: x in f ==> x in now;
    if Forgotten(now, before) {
      var x :| x in before[|b|..] && x !in now;
      assert x in before && x !in FixedOf(now, before);
    }
  }

  ghost predicate Faithful(now: seq<string>, before: seq<string>) {
    !Resurfaces(now, before) && !Sinks(now, before) && !Crowded(now, before) && !Forgotten(now, before)
  }

  lemma ReportsSorted(now: seq<string>, before: seq<string>)
    ensures StrictlySorted(NewlyOf(now, before)) && StrictlySorted(FixedOf(now, before))
  {
    hide Diff, TrimToShare, Kept;
  }

  /** The reports are the exact differences of the two scans if and only if none of the four happens. */
  lemma ReportsExactly(now: seq<string>, before: seq<string>)
    requires StrictlySorted(now) && StrictlySorted(before)
    ensures NewlyOf(now, before) == Diff(now, before) && FixedOf(now, before) == Diff(before, now)
       <==> Faithful(now, before)
  {
    hide Diff, StrictlySorted, NewlyOf, FixedOf, Resurfaces, Sinks, Crowded, Forgotten;
    InventsNewExactly(now, before);
    InventsFixedExactly(now, before);
    MissesNewExactly(now, before);
    MissesFixedExactly(now, before);
    ReportsSorted(now, before);
    ReportsAreSubsets(now, before);
    if Faithful(now, before) {
      SortedIsCanonical(NewlyOf(now, before), Diff(now, before));
      SortedIsCanonical(FixedOf(now, before), Diff(before, now));
    }
  }

  lemma ReportsAreSubsets(now: seq<string>, before: seq<string>)
    ensures forall x :: x in NewlyOf(now, before) ==> x in now
    ensures forall x :: x in FixedOf(now, before) ==> x in before
  {
    hide Diff, TrimToShare, Kept, NewlyOf, FixedOf;
    forall x | x in NewlyOf(now, before) ensures x in now { NewIsKept(now, before, x); }
    FixedIsWhole(now, before);
  }

  // ---- over whole runs ----

  lemma EmptyAgrees()
    ensures Agrees(EMPTY, Log([], true))
  {
  }

  /** A stored state that agrees with the log reports on its last two scans. */
  lemma AgreesReports(h: Hist, log: Log)
    requires Agrees(h, log)
    ensures var n := |log.scans|;
      && (n < 2 || !log.shown ==> h.newly == [] && h.fixed == [])
      && (n >= 2 && log.shown ==>
            && h.newly == NewlyOf(log.scans[n - 1].raw, log.scans[n - 2].raw)
            && h.fixed == FixedOf(log.scans[n - 1].raw, log.scans[n - 2].raw))
  {
    hide Diff, TrimToShare, ClampList;
  }

  /**
    After any run from an empty status, with each scan taken at its last recorded look: the first
    scan reports nothing, and what later ones show invents a failure, invents a fix, or differs
    from the scans' own difference exactly when the two scans' failing names say so.
  */
  lemma ReportsOverRuns(mode: Mode, es: seq<Event>)
    requires Named(es)
    ensures var h := Run(World(EMPTY, mode), es).hist;
            var log := LogRun(Log([], true), World(EMPTY, mode), es);
            var n := |log.scans|;
            && (n < 2 || !log.shown ==> h.newly == [] && h.fixed == [])
            && (n >= 2 && log.shown ==>
                  var now, before := log.scans[n - 1].raw, log.scans[n - 2].raw;
                  && ((exists x :: x in h.newly && x in before) <==> Resurfaces(now, before))
                  && ((exists x :: x in h.fixed && x in now) <==> Sinks(now, before))
                  && (h.newly == Diff(now, before) && h.fixed == Diff(before, now) <==> Faithful(now, before)))
  {
    hide Run, LogRun, Diff, Resurfaces, Sinks, Faithful, Agrees, NewlyOf, FixedOf, Sound;
    var w := World(EMPTY, mode);
    EmptyIsSound();
    assert Agrees(w.hist, Log([], true)) by { EmptyAgrees(); }
    RunAgrees(w, Log([], true), es);
    RunSorted(Log([], true), w, es);
    var log := LogRun(Log([], true), w, es);
    AgreesReports(Run(w, es).hist, log);
    var n := |log.scans|;
    if n >= 2 {
      assert log.scans[n - 1] in log.scans && log.scans[n - 2] in log.scans;
      InventsNewExactly(log.scans[n - 1].raw, log.scans[n - 2].raw);
      InventsFixedExactly(log.scans[n - 1].raw, log.scans[n - 2].raw);
      ReportsExactly(log.scans[n - 1].raw, log.scans[n - 2].raw);
    }
  }

  // ---- both bounds invent ----

  /** A failing name that either bound cut is reported as newly failed by a next scan in which it fails alone. */
  lemma CutNameComesBack(before: seq<string>, x: string)
    requires StrictlySorted(before) && x in before && x !in Kept(before) && Cost([x]) <= SHARE_BUDGET
    ensures Run(World(EMPTY, Flat), TwoScans(before, [x])).hist.newly == [x]
  {
    hide Run, LogRun, Diff, TwoScans, StrictlySorted, Cost;
    EmptyIsSound();
    RunAgrees(World(EMPTY, Flat), Log([], true), TwoScans(before, [x]));
    TwoScansLogged(before, [x]);
    DiffOne(x, Kept(before));
  }

  /** A failing name beyond the share is reported as fixed when it was the only failure before. */
  lemma SunkNameLooksFixed(now: seq<string>, x: string)
    requires StrictlySorted(now) && x in now && x !in TrimToShare(now) && Cost([x]) <= SHARE_BUDGET
    ensures Run(World(EMPTY, Flat), TwoScans([x], now)).hist.fixed == [x]
  {
    hide Run, LogRun, Diff, TwoScans, StrictlySorted, Cost;
    EmptyIsSound();
    RunAgrees(World(EMPTY, Flat), Log([], true), TwoScans([x], now));
    TwoScansLogged([x], now);
    DiffOne(x, TrimToShare(now));
  }

  lemma {:induction false} LessExtended(a: string, b: string, c: string)
    requires |a| == |b| && Less(a, b)
    ensures Less(a + c, b + c)
  {
    assert (a + c)[0] == a[0] && (b + c)[0] == b[0];
    assert (a + c)[1..] == a[1..] + c && (b + c)[1..] == b[1..] + c;
    if a[0] == b[0] { LessExtended(a[1..], b[1..], c); }
  }

  /** The i-th of many names of the greatest length, in byte order. */
  function LongName(i: nat): (r: string)
    requires i < 8000
    ensures |r| == 253
  {
    Name(i) + seq(250, j requires 0 <= j < 250 => 'x')
  }

  lemma {:induction false} LongNamesCost(names: seq<string>)
    requires forall x :: x in names ==> |x| == 253
    ensures Cost(names) == 256 * |names|
  {
    if names != [] {
      assert names[|names| - 1] in names;
      LongNamesCost(names[..|names| - 1]);
    }
  }

  /**
    The size share alone invents, with 769 names of 253 characters, far fewer than 4096: a failure
    when only the last of them fails next, and a fix when only the last of them failed before.
  */
  lemma ShareAloneInvents()
    ensures exists names: seq<string> ::
      && StrictlySorted(names) && |names| == 769
      && Run(World(EMPTY, Flat), TwoScans(names, [names[768]])).hist.newly == [names[768]]
      && Run(World(EMPTY, Flat), TwoScans([names[768]], names)).hist.fixed == [names[768]]
  {
    hide Run, Cost, TwoScans, LongName, Kept;
    var n := 769;
    var names := seq(n, i requires 0 <= i < n => LongName(i));
    forall i, j | 0 <= i < j < n ensures Less(names[i], names[j]) {
      LongNamesAscend(i, j);
    }
    LongNamesCost(names);
    LongNamesCost([names[768]]);
    LastIsCut(names);
    CutNameComesBack(names, names[768]);
    SunkNameLooksFixed(names, names[768]);
  }

  lemma LongNamesAscend(i: nat, j: nat)
    requires i < j < 8000
    ensures Less(LongName(i), LongName(j))
  {
    NamesAscend(i, j);
    LessExtended(Name(i), Name(j), seq(250, k requires 0 <= k < 250 => 'x'));
  }

  /** A list beyond the share loses its last name. */
  lemma LastIsCut(names: seq<string>)
    requires StrictlySorted(names) && Cost(names) > SHARE_BUDGET
    ensures names != [] && names[|names| - 1] !in TrimToShare(names) && names[|names| - 1] !in Kept(names)
  {
    hide StrictlySorted, Cost, TrimToShare;
    CostEmpty();
    var kept := TrimToShare(names);
    assert kept != names;
    Separate(names, |kept|);
    assert names[|names| - 1] in names[|kept|..];
    assert forall x :: x in Kept(names) ==> x in kept;
  }
}
