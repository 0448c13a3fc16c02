/**
  The status fields the operator updates in place when it records a look at the cluster.
  Every method leaves exactly the state its specification function computes.
*/
module HistoryRecorder {
  import opened Options
  import opened Text
  import opened HistoryModel

  predicate Ascending(s: seq<string>) {
    forall i :: 0 < i < |s| ==> Compare(s[i - 1], s[i]) <= 0
  }

  lemma {:induction false} AscendingFrom(s: seq<string>, i: nat, k: nat)
    requires Ascending(s) && i <= k < |s|
    ensures Compare(s[i], s[k]) <= 0
    decreases k
  {
    if i < k {
      AscendingFrom(s, i, k - 1);
      if Less(s[i], s[k - 1]) && Less(s[k - 1], s[k]) { LessTransitive(s[i], s[k - 1], s[k]); }
    }
  }

  method IsSorted(s: seq<string>) returns (r: bool)
    ensures r == Ascending(s)
  {
    if s == [] { return true; }
    for i := 1 to |s|
      invariant forall k :: 0 < k < i ==> Compare(s[k - 1], s[k]) <= 0
    {
      if Less(s[i], s[i - 1]) {
        CompareAntisymmetric(s[i], s[i - 1]);
        return false;
      }
      CompareAntisymmetric(s[i], s[i - 1]);
    }
    return true;
  }

  /** One linear pass over two ascending lists, runs of equal names counted once. */
  method SortedDiff(a: seq<string>, b: seq<string>) returns (out: seq<string>)
    requires Ascending(a) && Ascending(b)
    ensures out == Diff(a, b)
  {
    out := [];
    var i, j := 0, 0;
    while i < |a|
      invariant i <= |a| && j <= |b|
      invariant StrictlySorted(out)
      invariant forall x :: x in out <==> x in a[..i] && x !in b
      invariant i < |a| ==> forall k :: 0 <= k < i ==> Less(a[k], a[i])
      invariant i < |a| ==> forall k :: 0 <= k < j ==> Less(b[k], a[i])
    {
      var v := a[i];
      var start, from := i, j;
      while i < |a| && a[i] == v
        invariant start <= i <= |a|
        invariant forall k :: start <= k < i ==> a[k] == v
        decreases |a| - i
      {
        i := i + 1;
      }
      while j < |b| && Less(b[j], v)
        invariant from <= j <= |b|
        invariant forall k :: 0 <= k < j ==> Less(b[k], v)
      {
        j := j + 1;
      }
      SkippedRun(a, start, i, v);
      Absent(b, j, v);
      assert a[..i] == a[..start] + a[start..i];
      if j < |b| && b[j] == v {
        while j < |b| && b[j] == v
          invariant j <= |b|
          invariant forall k :: 0 <= k < j ==> Less(b[k], v) || b[k] == v
        {
          j := j + 1;
        }
      } else {
        assert forall k :: 0 <= k < |out| ==> Less(out[k], v) by {
          forall k | 0 <= k < |out| ensures Less(out[k], v) { assert out[k] in out; }
        }
        out := out + [v];
      }
      if i < |a| {
        forall k | 0 <= k < j ensures Less(b[k], a[i]) {
          if b[k] != v { LessTransitive(b[k], v, a[i]); }
        }
      }
    }
    assert a[..i] == a;
    SortedIsCanonical(out, Diff(a, b));
  }

  /** After a run of v, everything before the next position is below what follows. */
  lemma SkippedRun(a: seq<string>, start: nat, i: nat, v: string)
    requires Ascending(a) && start < i <= |a|
    requires forall k :: start <= k < i ==> a[k] == v
    requires forall k :: 0 <= k < start ==> Less(a[k], v)
    requires i < |a| ==> a[i] != v
    ensures i < |a| ==> Less(v, a[i])
    ensures i < |a| ==> forall k :: 0 <= k < i ==> Less(a[k], a[i])
    ensures forall x :: x in a[..i] <==> x in a[..start] || x == v
  {
    if i < |a| {
      assert Compare(a[i - 1], a[i]) <= 0 && a[i - 1] == v;
      forall k | 0 <= k < start ensures Less(a[k], a[i]) { LessTransitive(a[k], v, a[i]); }
    }
    assert a[..i][start] == v;
    forall x ensures x in a[..i] <==> x in a[..start] || x == v {
      if x in a[..start] {
        var k :| 0 <= k < start && a[..start][k] == x;
        assert a[..i][k] == x;
      }
      if x in a[..i] {
        var k :| 0 <= k < i && a[..i][k] == x;
        assert k < start ==> a[..start][k] == x;
      }
    }
  }

  /** With everything before j below v, v is in b exactly when it stands at j. */
  lemma Absent(b: seq<string>, j: nat, v: string)
    requires Ascending(b) && j <= |b|
    requires forall k :: 0 <= k < j ==> Less(b[k], v)
    requires j < |b| ==> !Less(b[j], v)
    ensures v in b <==> j < |b| && b[j] == v
  {
    if v in b {
      var k :| 0 <= k < |b| && b[k] == v;
      AscendingFrom(b, j, k);
      CompareAntisymmetric(b[j], v);
    }
  }

  /** The map-based difference, for lists that are not ascending. */
  method NotIn(a: seq<string>, b: set<string>) returns (out: seq<string>)
    ensures StrictlySorted(out)
    ensures forall x :: x in out <==> x in a && x !in b
  {
    var seen: set<string> := {};
    for i := 0 to |a|
      invariant forall x :: x in seen <==> x in a[..i] && x !in b
    {
      assert a[..i + 1] == a[..i] + [a[i]];
      if a[i] !in b && a[i] !in seen {
        seen := seen + {a[i]};
      }
    }
    assert a[..|a|] == a;
    out := SortedKeys(seen);
  }

  method SortedKeys(s: set<string>) returns (out: seq<string>)
    ensures StrictlySorted(out)
    ensures forall x :: x in out <==> x in s
  {
    out := [];
    var rest := s;
    while rest != {}
      invariant rest <= s && StrictlySorted(out)
      invariant forall x :: x in s <==> x in rest || x in out
      decreases |rest|
    {
      var x :| x in rest;
      out := Insert(x, out);
      rest := rest - {x};
    }
  }

  method SetOf(a: seq<string>) returns (s: set<string>)
    ensures forall x :: x in s <==> x in a
  {
    s := {};
    for i := 0 to |a|
      invariant forall x :: x in s <==> x in a[..i]
    {
      assert a[..i + 1] == a[..i] + [a[i]];
      s := s + {a[i]};
    }
    assert a[..|a|] == a;
  }

  /** Drops names from the tail until the list fits its share, keeping a running size. */
  method TrimFailureListToShare(names: seq<string>) returns (out: seq<string>)
    ensures out == TrimToShare(names)
  {
    var size := 0;
    for i := 0 to |names|
      invariant size == Cost(names[..i])
    {
      assert names[..i + 1][..i] == names[..i];
      size := size + |names[i]| + 3;
    }
    assert names[..|names|] == names;
    out := names;
    while size > SHARE_BUDGET
      invariant size == Cost(out) && TrimToShare(out) == TrimToShare(names)
      decreases |out|
    {
      size := size - (|out[|out| - 1]| + 3);
      out := out[..|out| - 1];
    }
  }

  /** Trims a ring to its newest max points and repairs each score and zero time, one by one. */
  method ClampHistoryLoop(hist: seq<Snap>, max: nat) returns (r: seq<Snap>)
    ensures r == ClampHistory(hist, max)
  {
    r := hist;
    if max > 0 && |hist| > max { r := hist[|hist| - max..]; }
    ghost var kept := r;
    for i := 0 to |r|
      invariant |r| == |kept|
      invariant forall k :: 0 <= k < i ==> r[k] == Repaired(kept[k])
      invariant forall k :: i <= k < |r| ==> r[k] == kept[k]
    {
      if r[i].score < 0 { r := r[i := r[i].(score := 0)]; }
      else if r[i].score > 100 { r := r[i := r[i].(score := 100)]; }
      if r[i].time == ZERO_TIME { r := r[i := r[i].(time := 0)]; }
    }
    assert r == RepairAll(kept);
  }

  method SyncHistorySnapshot(hist: seq<Snap>, t: int, s: Option<int>, mode: Mode) returns (r: seq<Snap>)
    ensures r == SyncSnapshot(hist, t, s, mode)
  {
    var n := |hist|;
    if n > 0 && hist[n - 1].time == t {
      if s.None? { return hist[..n - 1]; }
      r := ClampHistoryLoop(hist[n - 1 := Snap(t, s.value, mode)], HISTORY_MAX);
    } else if s.None? {
      r := hist;
    } else {
      r := ClampHistoryLoop(hist + [Snap(t, s.value, mode)], HISTORY_MAX);
    }
  }

  /** Member scans one by one, stopping at the first that is not done or has no usable end. */
  method CompletedSuiteTimes(suite: Suite, now: int) returns (run: Option<Span>)
    ensures run == SuiteSpan(suite, now)
  {
    if !suite.done { return None; }
    run := None;
    var rest := suite.members;
    while rest != []
      invariant MembersSpan(suite.members, now, None) == MembersSpan(rest, now, run)
      decreases |rest|
    {
      if !rest[0].done { return None; }
      var completed := ParseScanEnd(rest[0].end, now);
      if completed.None? { return None; }
      run := Some(Widen(run, completed.value));
      rest := rest[1..];
    }
  }

  ghost predicate Finished(obs: Obs, k: Key, span: Span) {
    && obs.suites.Some? && k in obs.suites.value
    && SuiteSpan(obs.suites.value[k], obs.now) == Some(span)
  }

  ghost function Spans(obs: Obs): map<Key, Span>
    requires Complete(obs)
  {
    map k | k in obs.buckets :: SpanOf(obs, k)
  }

  ghost predicate Newest(done: map<Key, Span>, latest: int) {
    && (forall k :: k in done ==> done[k].latest <= latest)
    && (exists k :: k in done && done[k].latest == latest)
  }

  lemma NewestOfMore(done: map<Key, Span>, latest: int, k: Key, span: Span)
    requires k !in done && (done != map[] ==> Newest(done, latest))
    ensures Newest(done[k := span], if done == map[] || span.latest > latest then span.latest else latest)
  {
    var more := done[k := span];
    assert more[k] == span;
    if done != map[] {
      var j :| j in done && done[j].latest == latest;
      assert more[j].latest == latest;
    }
  }

  lemma MissingSuite(obs: Obs, k: Key)
    requires obs.suites.Some? && k in obs.buckets
    requires k !in obs.suites.value || SuiteSpan(obs.suites.value[k], obs.now).None?
    ensures !Complete(obs)
  {
    hide SuiteSpan;
  }

  lemma AllFinished(obs: Obs, done: map<Key, Span>)
    requires obs.suites.Some? && done.Keys == obs.buckets.Keys
    requires forall k :: k in done ==> Finished(obs, k, done[k])
    ensures Complete(obs) && done == Spans(obs)
  {
    hide SuiteSpan;
    forall k | k in obs.buckets
      ensures k in obs.suites.value && SuiteSpan(obs.suites.value[k], obs.now) == Some(done[k])
    {
      assert Finished(obs, k, done[k]);
    }
  }

  /** The newest end and the oldest start agree with the generation's range. */
  lemma GenerationRange(obs: Obs, latest: int, t: int)
    requires Complete(obs) && obs.buckets != map[] && Newest(Spans(obs), latest)
    ensures Generation(obs).value.latest == latest
    ensures (forall k :: k in Spans(obs) ==> Spans(obs)[k].earliest > t) <==> Generation(obs).value.earliest > t
  {
    hide SuiteSpan;
    var g := Generation(obs).value;
    var top :| top in Spans(obs) && Spans(obs)[top].latest == latest;
    assert SpanOf(obs, top).latest == latest;
    var k :| k in obs.buckets && SpanOf(obs, k).latest == g.latest;
    assert Spans(obs)[k].latest == g.latest;
    var low :| low in obs.buckets && SpanOf(obs, low).earliest == g.earliest;
    assert Spans(obs)[low].earliest == g.earliest;
  }

  class Recorder {
    var last: Option<int>
    var overall: seq<Snap>
    var rings: map<Key, seq<Snap>>
    var previous: seq<string>
    var diffBase: seq<string>
    var diffBaseTime: Option<int>
    var newly: seq<string>
    var fixed: seq<string>
    var stamp: Option<Mode>

    ghost function St(): Hist
      reads this
    {
      Hist(last, overall, rings, previous, diffBase, diffBaseTime, newly, fixed, stamp)
    }

    constructor (st: Hist)
      ensures St() == st
    {
      last, overall, rings, previous := st.last, st.overall, st.rings, st.previous;
      diffBase, diffBaseTime, newly, fixed, stamp := st.diffBase, st.diffBaseTime, st.newly, st.fixed, st.stamp;
    }

    /** The linear pass when both lists are ascending, the map path otherwise: one result. */
    method SyncFailureDiff(current: seq<string>, base: seq<string>)
      modifies this`newly, this`fixed
      ensures newly == Diff(current, base) && fixed == Diff(base, current)
    {
      var currentSorted := IsSorted(current);
      var baseSorted := IsSorted(base);
      if currentSorted && baseSorted {
        newly := SortedDiff(current, base);
        fixed := SortedDiff(base, current);
      } else {
        var inBase := SetOf(base);
        var inCurrent := SetOf(current);
        newly := NotIn(current, inBase);
        fixed := NotIn(base, inCurrent);
        SortedIsCanonical(newly, Diff(current, base));
        SortedIsCanonical(fixed, Diff(base, current));
      }
    }

    method ClearHistoryRings()
      modifies this`overall, this`rings
      ensures overall == [] && rings == EmptyRings(old(rings))
    {
      overall := [];
      var todo := rings.Keys;
      ghost var before := rings;
      while todo != {}
        invariant todo <= rings.Keys == before.Keys && overall == []
        invariant forall k :: k in rings && k !in todo ==> rings[k] == []
        decreases |todo|
      {
        var k :| k in todo;
        rings := rings[k := []];
        todo := todo - {k};
      }
      assert rings == EmptyRings(before);
    }

    method SyncProfileHistory(t: int, obs: Obs)
      modifies this`rings
      ensures rings == SyncRings(old(rings), t, obs)
    {
      var todo := rings.Keys;
      ghost var before := rings;
      ghost var after := SyncRings(rings, t, obs);
      while todo != {}
        invariant todo <= rings.Keys == before.Keys
        invariant forall k :: k in todo ==> rings[k] == before[k]
        invariant forall k :: k in rings && k !in todo ==> rings[k] == after[k]
        decreases |todo|
      {
        var k :| k in todo;
        var s := if k in obs.buckets then BucketScore(obs.buckets[k], obs.mode) else None;
        var ring := SyncHistorySnapshot(rings[k], t, s, obs.mode);
        rings := rings[k := ring];
        todo := todo - {k};
      }
      assert rings == after;
    }

    /** Completion times of every selected suite, or none while one is missing or unfinished. */
    method CompletedSuites(obs: Obs) returns (completed: Option<map<Key, Span>>, latest: int)
      requires obs.suites.Some? && obs.buckets != map[]
      ensures completed.Some? <==> Complete(obs)
      ensures completed.Some? ==> completed.value == Spans(obs) && Newest(completed.value, latest)
    {
      hide SuiteSpan, Complete;
      var done: map<Key, Span> := map[];
      var todo := obs.buckets.Keys;
      latest := 0;
      while todo != {}
        invariant todo <= obs.buckets.Keys && done.Keys == obs.buckets.Keys - todo
        invariant forall k :: k in done ==> Finished(obs, k, done[k])
        invariant done != map[] ==> Newest(done, latest)
        decreases |todo|
      {
        var k :| k in todo;
        if k !in obs.suites.value { MissingSuite(obs, k); return None, 0; }
        var span := CompletedSuiteTimes(obs.suites.value[k], obs.now);
        if span.None? { MissingSuite(obs, k); return None, 0; }
        NewestOfMore(done, latest, k, span.value);
        if done == map[] || span.value.latest > latest { latest := span.value.latest; }
        done := done[k := span.value];
        todo := todo - {k};
      }
      AllFinished(obs, done);
      assert done != map[] by { assert done.Keys == obs.buckets.Keys; }
      completed := Some(done);
    }

    /** Whether every suite's oldest member scan ended after t. */
    method AllAfter(completed: map<Key, Span>, t: int) returns (r: bool)
      ensures r <==> forall k :: k in completed ==> completed[k].earliest > t
    {
      var todo := completed.Keys;
      while todo != {}
        invariant todo <= completed.Keys
        invariant forall k :: k in completed && k !in todo ==> completed[k].earliest > t
        decreases |todo|
      {
        var k :| k in todo;
        if completed[k].earliest <= t { return false; }
        todo := todo - {k};
      }
      return true;
    }

    method RefreshScan(t: int, obs: Obs, fails: seq<string>)
      modifies this
      ensures St() == Refresh(old(St()), t, obs, fails)
    {
      if ModeMatches(stamp, obs.mode) {
        overall := SyncHistorySnapshot(overall, t, obs.score, obs.mode);
        SyncProfileHistory(t, obs);
        stamp := Some(obs.mode);
      }
      if diffBaseTime == Some(t) {
        SyncFailureDiff(fails, diffBase);
      }
      previous := fails;
    }

    method AdvanceScan(t: int, obs: Obs, fails: seq<string>)
      modifies this
      ensures St() == Advance(old(St()), t, obs, fails)
    {
      var hadPreviousScan := last.Some?;
      last := Some(t);
      if !ModeMatches(stamp, obs.mode) { ClearHistoryRings(); }
      overall := SyncHistorySnapshot(overall, t, obs.score, obs.mode);
      if hadPreviousScan {
        diffBase := previous;
        diffBaseTime := Some(t);
        SyncFailureDiff(fails, diffBase);
      } else {
        newly, fixed, diffBase, diffBaseTime := [], [], [], None;
      }
      previous := fails;
      SyncProfileHistory(t, obs);
      stamp := Some(obs.mode);
    }

    method RecordHistory(obs: Obs)
      modifies this
      ensures St() == Record(old(St()), obs)
    {
      hide Advance, Refresh, SuiteSpan, Spans, Newest, Covers, TrimToShare;
      if obs.buckets == map[] { return; }
      var fails := TrimFailureListToShare(obs.fails);
      if obs.suites.None? { return; }
      var completed, latest := CompletedSuites(obs);
      if completed.None? { return; }
      GenerationRange(obs, latest, last.Or(0));
      if last.Some? && latest <= last.value {
        if latest == last.value { RefreshScan(latest, obs, fails); }
        return;
      }
      if last.Some? {
        var allAfter := AllAfter(completed.value, last.value);
        if !allAfter { return; }
      }
      AdvanceScan(latest, obs, fails);
    }

    /** Preserves per-profile history across the rebuild of the profile lists. */
    method CarryHistory(buckets: map<Key, Bucket>)
      modifies this`rings
      ensures rings == Rebuild(old(rings), buckets)
    {
      var kept: map<Key, seq<Snap>> := map[];
      var todo := buckets.Keys;
      while todo != {}
        invariant todo <= buckets.Keys && kept.Keys == buckets.Keys - todo && rings == old(rings)
        invariant forall k :: k in kept ==> kept[k] == if k in rings then rings[k] else []
        decreases |todo|
      {
        var k :| k in todo;
        kept := kept[k := if k in rings then rings[k] else []];
        todo := todo - {k};
      }
      assert kept.Keys == buckets.Keys;
      rings := kept;
    }

    /** The part of one aggregation that touches history. */
    method Aggregate(input: Input)
      modifies this
      ensures St() == Step(old(St()), input)
    {
      match input
      case Absent =>
        last, overall, rings, previous, diffBase, diffBaseTime, newly, fixed :=
          None, [], map[], [], [], None, [], [];
      case Seen(obs) =>
        CarryHistory(obs.buckets);
        if obs.buckets == map[] {
          newly, fixed := [], [];
        } else {
          RecordHistory(obs);
        }
    }
  }
}
