/**
  What history recording guarantees over whole runs: monotone scan times, repeatable looks,
  scan differences that match the simple per-scan specification, and rings of one mode.
*/
module HistoryTheorems {
  import opened Options
  import opened Text
  import opened HistoryModel
  import opened HistoryRuns

  // ---- scan times ----

  /** Each member scan of each selected suite is done and ended strictly after t. */
  ghost predicate EveryMemberAfter(obs: Obs, t: int) {
    forall k :: k in obs.buckets ==>
      obs.suites.Some? && k in obs.suites.value && SuiteAfter(obs.suites.value[k], obs.now, t)
  }

  ghost predicate SuiteAfter(s: Suite, now: int, t: int) {
    s.done && s.members != [] && forall m :: m in s.members ==>
      m.done && ParseScanEnd(m.end, now).Some? && ParseScanEnd(m.end, now).value > t
  }

  lemma {:induction false} SpanBoundsMembers(members: seq<Member>, now: int, acc: Option<Span>)
    requires MembersSpan(members, now, acc).Some?
    ensures var g := MembersSpan(members, now, acc).value;
            && (acc.Some? ==> g.earliest <= acc.value.earliest)
            && (forall m :: m in members ==>
                  m.done && ParseScanEnd(m.end, now).Some? && g.earliest <= ParseScanEnd(m.end, now).value)
    decreases |members|
  {
    if members != [] {
      SpanBoundsMembers(members[1..], now, Some(Widen(acc, ParseScanEnd(members[0].end, now).value)));
      assert members == [members[0]] + members[1..];
    }
  }

  lemma SuiteAfterItsStart(s: Suite, now: int, t: int)
    requires SuiteSpan(s, now).Some? && SuiteSpan(s, now).value.earliest > t
    ensures SuiteAfter(s, now, t)
  {
    SpanBoundsMembers(s.members, now, None);
  }

  /**
    LastScanTime never rewinds while the compliance CRDs exist, and moves on only when every
    member scan of every selected suite ended after the previous scan.
  */
  lemma AdvanceNeedsEveryMember(st: Hist, obs: Obs)
    ensures var r := Step(st, Seen(obs));
            && (st.last.Some? ==> r.last.Some? && st.last.value <= r.last.value)
            && (st.last.Some? && r.last != st.last ==>
                  st.last.value < r.last.value && EveryMemberAfter(obs, st.last.value))
  {
    hide SuiteSpan, SyncRings, SyncSnapshot, Rebuild, EmptyRings, SuiteAfter, Diff, TrimToShare, Covers;
    var r := Step(st, Seen(obs));
    if st.last.Some? && r.last != st.last {
      var g := Generation(obs).value;
      forall k | k in obs.buckets
        ensures obs.suites.Some? && k in obs.suites.value
             && SuiteAfter(obs.suites.value[k], obs.now, st.last.value)
      {
        StartsAfter(obs, k, st.last.value);
        SuiteAfterItsStart(obs.suites.value[k], obs.now, st.last.value);
      }
    }
  }

  lemma StartsAfter(obs: Obs, k: Key, t: int)
    requires Generation(obs).Some? && Generation(obs).value.earliest > t && k in obs.buckets
    ensures SpanOf(obs, k).earliest > t
  {
  }

  /** Over any run in which the CRDs stay present, crashes and mode changes included. */
  lemma {:induction false} ScanTimeNeverRewinds(w: World, es: seq<Event>)
    requires Sound(w.hist) && w.hist.last.Some?
    requires forall e :: e in es && e.Reconcile? ==> e.input.Seen?
    ensures Run(w, es).hist.last.Some? && w.hist.last.value <= Run(w, es).hist.last.value
    decreases |es|
  {
    hide Step, Sound, Persist;
    if es != [] {
      var e := es[0];
      assert e in es;
      NextIsSound(w, e);
      if e.Reconcile? { AdvanceNeedsEveryMember(w.hist, e.input.obs.(mode := w.mode)); }
      ScanTimeNeverRewinds(After(w, e), es[1..]);
    }
  }

  // ---- looking twice ----

  /** Syncing these rings a second time with the same scan would change nothing. */
  ghost predicate Settles(overall: seq<Snap>, rings: map<Key, seq<Snap>>, t: int, obs: Obs) {
    && SyncSnapshot(SyncSnapshot(overall, t, obs.score, obs.mode), t, obs.score, obs.mode)
       == SyncSnapshot(overall, t, obs.score, obs.mode)
    && SyncRings(SyncRings(rings, t, obs), t, obs) == SyncRings(rings, t, obs)
  }

  lemma RingsSettle(st: Hist, t: nat, obs: Obs)
    requires RingsOk(st) && (st.last.Some? ==> st.last.value <= t)
    ensures Settles(st.overall, st.rings, t, obs) && Settles([], EmptyRings(st.rings), t, obs)
  {
    hide SyncSnapshot, RingOk, BucketScore;
    forall ring, s, last | RingOk(ring, last) && (last.Some? ==> last.value <= t)
      ensures SyncSnapshot(SyncSnapshot(ring, t, s, obs.mode), t, s, obs.mode) == SyncSnapshot(ring, t, s, obs.mode)
    {
      SyncIsIdempotent(ring, last, t, s, obs.mode);
    }
    EmptyRing(st.last);
  }

  lemma RefreshTwice(st: Hist, t: int, obs: Obs, fails: seq<string>)
    requires Settles(st.overall, st.rings, t, obs)
    ensures Refresh(Refresh(st, t, obs, fails), t, obs, fails) == Refresh(st, t, obs, fails)
  {
    hide SyncSnapshot, SyncRings, Diff;
  }

  lemma RefreshAfterAdvance(st: Hist, t: int, obs: Obs, fails: seq<string>)
    requires Settles(st.overall, st.rings, t, obs) && Settles([], EmptyRings(st.rings), t, obs)
    ensures Refresh(Advance(st, t, obs, fails), t, obs, fails) == Advance(st, t, obs, fails)
  {
    hide SyncSnapshot, SyncRings, EmptyRings, Diff;
  }

  /** A second look at the same cluster changes nothing in the recorded state. */
  lemma SecondLookIsIdentity(st: Hist, obs: Obs)
    requires RingsOk(st)
    ensures Record(Record(st, obs), obs) == Record(st, obs)
  {
    hide Refresh, Advance, RingsOk, Covers, Complete, TrimToShare, Settles;
    var g := Generation(obs);
    if g.Some? && KindOf(st.last, g.value) != Nothing {
      var t, fails := g.value.latest, TrimToShare(obs.fails);
      RecordKeepsBase(st, obs);
      RingsSettle(st, t, obs);
      RefreshTwice(st, t, obs, fails);
      RefreshAfterAdvance(st, t, obs, fails);
    }
  }

  /** An unchanged cluster leaves the stored state unchanged, so the status write can be skipped. */
  lemma RepeatedReconcileIsNoOp(w: World, obs: Obs)
    requires Sound(w.hist) && Clamped(w.hist) == w.hist
    ensures var once := After(w, Reconcile(Seen(obs), Both));
            After(once, Reconcile(Seen(obs), Both)) == once
  {
    hide Record, Sound, Persist, RingsOk, WithinShare;
    var look := obs.(mode := w.mode);
    var e := Reconcile(Seen(obs), Both);
    var once := After(w, e);
    NextIsSound(w, e);
    NextIsSound(once, e);
    var st1 := w.hist.(rings := Rebuild(w.hist.rings, obs.buckets));
    if obs.buckets != map[] {
      assert RingsOk(st1) by { RebuildKeepsRings(w.hist, obs); }
      RecordKeepsKeys(st1, look);
      assert Rebuild(Record(st1, look).rings, obs.buckets) == Record(st1, look).rings;
      SecondLookIsIdentity(st1, look);
      ClampThenRecord(st1, look);
    } else {
      assert Rebuild(st1.rings, obs.buckets) == st1.rings;
    }
  }

  lemma RebuildKeepsRings(h: Hist, obs: Obs)
    requires Sound(h)
    ensures RingsOk(h.(rings := Rebuild(h.rings, obs.buckets)))
  {
    hide RingOk;
    EmptyRing(h.last);
  }

  lemma RecordKeepsKeys(st: Hist, obs: Obs)
    ensures Record(st, obs).rings.Keys == st.rings.Keys
  {
    hide SyncSnapshot, Covers, Complete, TrimToShare, BucketScore, Diff;
  }

  lemma ClampTwice(s: seq<string>)
    ensures ClampList(ClampList(s)) == ClampList(s)
    ensures |s| <= FAILURE_LIST_MAX ==> ClampList(s) == s
  {
  }

  lemma RefreshOfClamped(st: Hist, t: int, obs: Obs, fails: seq<string>)
    requires ClampList(st.diffBase) == st.diffBase
    ensures Clamped(Refresh(Clamped(st), t, obs, fails)) == Clamped(Refresh(st, t, obs, fails))
  {
    hide SyncSnapshot, SyncRings, Diff, ClampList;
    ClampTwice(st.newly);
    ClampTwice(st.fixed);
    ClampTwice(st.previous);
  }

  /** Recording over the clamped result stores the same lists as recording over the result. */
  lemma ClampThenRecord(st: Hist, obs: Obs)
    requires ClampList(st.previous) == st.previous && ClampList(st.diffBase) == st.diffBase
    requires Clamped(st) == st
    ensures Clamped(Record(Clamped(Record(st, obs)), obs)) == Clamped(Record(Record(st, obs), obs))
  {
    hide SyncSnapshot, SyncRings, EmptyRings, Covers, Complete, TrimToShare, Diff, ClampList, Refresh, Clamped;
    var g := Generation(obs);
    if g.Some? {
      var t := g.value.latest;
      var once := Record(st, obs);
      ClampFrame(once);
      if KindOf(st.last, g.value) != Nothing {
        RecordKeepsBase(st, obs);
        ClampTwice([]);
        RefreshOfClamped(once, t, obs, TrimToShare(obs.fails));
      }
    }
  }

  lemma ClampFrame(h: Hist)
    ensures Clamped(h).last == h.last
  {
  }

  lemma RecordKeepsBase(st: Hist, obs: Obs)
    ensures Record(st, obs).diffBase in {st.diffBase, st.previous, []}
    ensures Generation(obs).Some? && KindOf(st.last, Generation(obs).value) != Nothing ==>
      Record(st, obs).last == Some(Generation(obs).value.latest)
  {
    hide SyncSnapshot, SyncRings, EmptyRings, Covers, Complete, TrimToShare, Diff;
  }

  // ---- scan differences ----

  /** One completed scan: every failing name of the look that recorded it last, and what the share keeps of them. */
  datatype Scan = Scan(time: int, raw: seq<string>) {
    function Seen(): seq<string> {
      TrimToShare(raw)
    }
  }

  /** The simple history: completed scans since the rollup was last cleared, and whether a diff is on show. */
  datatype Log = Log(scans: seq<Scan>, shown: bool)

  function LogLast(log: Log): Option<int> {
    if log.scans == [] then None else Some(log.scans[|log.scans| - 1].time)
  }

  ghost function Logged(log: Log, input: Input): Log {
    match input
    case Absent => Log([], true)
    case Seen(obs) =>
      if obs.buckets == map[] then log.(shown := false)
      else if Generation(obs).None? then log
      else
        match KindOf(LogLast(log), Generation(obs).value)
        case Nothing => log
        case Late(t) => Log(log.scans[|log.scans| - 1 := Scan(t, obs.fails)], true)
        case Next(t) => Log(log.scans + [Scan(t, obs.fails)], true)
  }

  ghost function LogRun(log: Log, w: World, es: seq<Event>): Log
    decreases |es|
  {
    if es == [] then log
    else
      var e := es[0];
      LogRun(if e.Reconcile? && e.write != Lost then Logged(log, Look(e.input, w.mode)) else log,
             After(w, e), es[1..])
  }

  /** The failure set stored for the i-th scan. */
  function Stored(log: Log, i: nat): seq<string>
    requires i < |log.scans|
  {
    ClampList(log.scans[i].Seen())
  }

  ghost predicate Agrees(h: Hist, log: Log) {
    var n := |log.scans|;
    && h.last == LogLast(log)
    && h.previous == (if n == 0 then [] else Stored(log, n - 1))
    && h.diffBase == (if n < 2 then [] else Stored(log, n - 2))
    && h.diffBaseTime == (if n < 2 then None else h.last)
    && h.newly == (if n < 2 || !log.shown then [] else ClampList(Diff(log.scans[n - 1].Seen(), h.diffBase)))
    && h.fixed == (if n < 2 || !log.shown then [] else ClampList(Diff(h.diffBase, log.scans[n - 1].Seen())))
  }

  lemma RefreshFields(st: Hist, t: int, obs: Obs, fails: seq<string>)
    ensures var r, again := Refresh(st, t, obs, fails), st.diffBaseTime == Some(t);
      && r.last == st.last && r.diffBase == st.diffBase && r.diffBaseTime == st.diffBaseTime && r.previous == fails
      && r.newly == (if again then Diff(fails, st.diffBase) else st.newly)
      && r.fixed == (if again then Diff(st.diffBase, fails) else st.fixed)
  {
    hide SyncSnapshot, SyncRings, Diff, ModeMatches;
  }

  /** A late look that moved only the last scan's entry keeps the agreement. */
  lemma LastScanAgain(st: Hist, r: Hist, log: Log, t: int, raw: seq<string>)
    requires Agrees(st, log) && st.last == Some(t)
    requires r.last == st.last && r.diffBase == st.diffBase && r.diffBaseTime == st.diffBaseTime
    requires r.previous == TrimToShare(raw)
    requires r.newly == (if st.diffBaseTime == Some(t) then Diff(TrimToShare(raw), st.diffBase) else st.newly)
    requires r.fixed == (if st.diffBaseTime == Some(t) then Diff(st.diffBase, TrimToShare(raw)) else st.fixed)
    ensures Agrees(Clamped(r), Log(log.scans[|log.scans| - 1 := Scan(t, raw)], true))
  {
    hide Diff, ClampList, TrimToShare;
    var n := |log.scans|;
    var after := log.scans[n - 1 := Scan(t, raw)];
    assert |after| == n && after[n - 1] == Scan(t, raw) && after[n - 1].Seen() == TrimToShare(raw);
    ClampTwice([]);
    if n >= 2 {
      ClampTwice(log.scans[n - 2].Seen());
      assert after[n - 2] == log.scans[n - 2];
    } else {
      assert st.diffBaseTime == None && st.newly == [] && st.fixed == [];
    }
  }

  lemma RefreshAgrees(st: Hist, log: Log, t: int, obs: Obs)
    requires Agrees(st, log) && st.last == Some(t)
    ensures var n := |log.scans|;
            Agrees(Clamped(Refresh(st, t, obs, TrimToShare(obs.fails))), Log(log.scans[n - 1 := Scan(t, obs.fails)], true))
  {
    hide Refresh, Diff, ClampList, TrimToShare, Agrees, Clamped;
    RefreshFields(st, t, obs, TrimToShare(obs.fails));
    LastScanAgain(st, Refresh(st, t, obs, TrimToShare(obs.fails)), log, t, obs.fails);
    assert log.scans != [] by { SameLast(st, log); }
  }

  lemma AdvanceAgrees(st: Hist, log: Log, t: int, obs: Obs)
    requires Agrees(st, log)
    ensures Agrees(Clamped(Advance(st, t, obs, TrimToShare(obs.fails))), Log(log.scans + [Scan(t, obs.fails)], true))
  {
    hide SyncSnapshot, SyncRings, EmptyRings, Diff, ClampList;
    var n := |log.scans|;
    ClampTwice([]);
    var after := log.scans + [Scan(t, obs.fails)];
    if n >= 1 {
      ClampTwice(log.scans[n - 1].Seen());
      assert after[n - 1] == log.scans[n - 1];
    }
  }

  lemma ClampAgrees(st: Hist, log: Log)
    requires Agrees(st, log)
    ensures Agrees(Clamped(st), log)
  {
    hide Diff, ClampList;
    var n := |log.scans|;
    ClampTwice([]);
    if n >= 1 { ClampTwice(log.scans[n - 1].Seen()); }
    if n >= 2 {
      ClampTwice(log.scans[n - 2].Seen());
      ClampTwice(Diff(log.scans[n - 1].Seen(), st.diffBase));
      ClampTwice(Diff(st.diffBase, log.scans[n - 1].Seen()));
    }
  }

  lemma RecordAgrees(st: Hist, log: Log, obs: Obs)
    requires Agrees(st, log) && obs.buckets != map[]
    ensures Agrees(Clamped(Record(st, obs)), Logged(log, Seen(obs)))
  {
    hide Refresh, Advance, Covers, Complete, TrimToShare, Clamped, Agrees;
    assert st.last == LogLast(log) by { SameLast(st, log); }
    var g := Generation(obs);
    if g.None? || KindOf(st.last, g.value) == Nothing {
      ClampAgrees(st, log);
    } else if KindOf(st.last, g.value).Late? {
      RefreshAgrees(st, log, g.value.latest, obs);
    } else {
      AdvanceAgrees(st, log, g.value.latest, obs);
    }
  }

  lemma SameLast(st: Hist, log: Log)
    requires Agrees(st, log)
    ensures st.last == LogLast(log)
  {
  }

  lemma StepAgrees(st: Hist, log: Log, input: Input)
    requires Agrees(st, log)
    ensures Agrees(Clamped(Step(st, input)), Logged(log, input))
  {
    hide Record, Diff, Complete, Covers, TrimToShare;
    if input.Seen? {
      var st1 := st.(rings := Rebuild(st.rings, input.obs.buckets));
      assert Agrees(st1, log);
      if input.obs.buckets == map[] {
        ClampAgrees(st1.(newly := [], fixed := []), log.(shown := false));
      } else {
        RecordAgrees(st1, log, input.obs);
      }
    }
  }

  lemma AgreesAside(h: Hist, log: Log, stamp: Option<Mode>)
    requires Agrees(h, log)
    ensures Agrees(h.(stamp := stamp), log)
  {
  }

  lemma NextAgrees(w: World, log: Log, e: Event)
    requires Sound(w.hist) && Agrees(w.hist, log)
    ensures Agrees(After(w, e).hist,
                   if e.Reconcile? && e.write != Lost then Logged(log, Look(e.input, w.mode)) else log)
  {
    hide Step, Sound, Persist, Agrees, Logged, Clamped;
    NextIsSound(w, e);
    if e.Reconcile? {
      var look := Look(e.input, w.mode);
      StepAgrees(w.hist, log, look);
      AgreesAside(Clamped(Step(w.hist, look)), Logged(log, look), w.hist.stamp);
    }
  }

  /** Over every run the stored lists are the per-scan specification's, up to the 4096-name bound. */
  lemma {:induction false} RunAgrees(w: World, log: Log, es: seq<Event>)
    requires Sound(w.hist) && Agrees(w.hist, log)
    ensures Agrees(Run(w, es).hist, LogRun(log, w, es))
    decreases |es|
  {
    hide After, Sound, Agrees, Logged;
    if es != [] {
      NextIsSound(w, es[0]);
      NextAgrees(w, log, es[0]);
      var e := es[0];
      RunAgrees(After(w, e),
                if e.Reconcile? && e.write != Lost then Logged(log, Look(e.input, w.mode)) else log, es[1..]);
    }
  }

  // ---- when the stored lists are exact ----

  lemma {:induction false} DiffShorter(a: seq<string>, b: seq<string>, x: string)
    requires x in a && x in b
    ensures |Diff(a, b)| < |a|
  {
    assert a == [a[0]] + a[1..];
    InsertLength(a[0], Diff(a[1..], b));
    if a[0] !in b { DiffShorter(a[1..], b, x); }
  }

  ghost predicate Disjoint(a: seq<string>, b: seq<string>) {
    forall x :: x in a ==> x !in b
  }

  lemma DiffDisjoint(a: seq<string>, b: seq<string>)
    requires StrictlySorted(a) && Disjoint(a, b)
    ensures Diff(a, b) == a
  {
    SortedIsCanonical(Diff(a, b), a);
  }

  /** Splitting a sorted list splits its difference. */
  lemma DiffSplit(f: seq<string>, n: nat, b: seq<string>)
    requires StrictlySorted(f) && n <= |f|
    ensures Diff(f, b) == Diff(f[..n], b) + Diff(f[n..], b)
  {
    hide Diff;
    var x, y := Diff(f[..n], b), Diff(f[n..], b);
    assert f == f[..n] + f[n..];
    forall i, j | 0 <= i < |x| && 0 <= j < |y| ensures Less(x[i], y[j]) {
      assert x[i] in f[..n] && y[j] in f[n..];
    }
    SortedIsCanonical(x + y, Diff(f, b));
  }

  lemma Separate(f: seq<string>, n: nat)
    requires StrictlySorted(f) && n <= |f|
    ensures forall x :: x in f[..n] ==> x !in f[n..]
  {
    forall x | x in f[..n] ensures x !in f[n..] {
      var i :| 0 <= i < n && f[i] == x;
      forall j | 0 <= j < |f| - n ensures f[n..][j] != x {
        assert Less(f[i], f[n + j]);
      }
    }
  }

  /** A name beyond the bound that the previous set holds is missing from the fixed list. */
  lemma LateOverlap(f: seq<string>, b: seq<string>, y: string)
    requires StrictlySorted(f) && |f| > FAILURE_LIST_MAX
    requires y in f[FAILURE_LIST_MAX..] && y in b
    ensures Diff(b, f) != Diff(b, f[..FAILURE_LIST_MAX])
  {
    hide Diff;
    Separate(f, FAILURE_LIST_MAX);
    assert f == f[..FAILURE_LIST_MAX] + f[FAILURE_LIST_MAX..];
    assert y in Diff(b, f[..FAILURE_LIST_MAX]) && y !in Diff(b, f);
  }

  /** A shared name within the bound makes room on the new list for one from beyond it. */
  lemma EarlyOverlap(f: seq<string>, b: seq<string>, x: string)
    requires StrictlySorted(f) && |f| > FAILURE_LIST_MAX
    requires x in f[..FAILURE_LIST_MAX] && x in b && Disjoint(f[FAILURE_LIST_MAX..], b)
    ensures ClampList(Diff(f, b)) != Diff(f[..FAILURE_LIST_MAX], b)
  {
    hide Diff;
    var head, tail := f[..FAILURE_LIST_MAX], f[FAILURE_LIST_MAX..];
    DiffSplit(f, FAILURE_LIST_MAX, b);
    DiffShorter(head, b, x);
    TailSorted(f, FAILURE_LIST_MAX);
    DiffDisjoint(tail, b);
    assert |ClampList(Diff(f, b))| > |Diff(head, b)|;
  }

  lemma TailSorted(f: seq<string>, n: nat)
    requires StrictlySorted(f) && n <= |f|
    ensures StrictlySorted(f[n..]) && StrictlySorted(f[..n])
  {
  }

  lemma NoOverlap(f: seq<string>, b: seq<string>)
    requires StrictlySorted(f) && |f| > FAILURE_LIST_MAX && Disjoint(f, b)
    ensures ClampList(Diff(f, b)) == Diff(f[..FAILURE_LIST_MAX], b) && Diff(b, f) == Diff(b, f[..FAILURE_LIST_MAX])
  {
    hide Diff;
    TailSorted(f, FAILURE_LIST_MAX);
    DiffDisjoint(f, b);
    DiffDisjoint(f[..FAILURE_LIST_MAX], b);
    SortedIsCanonical(Diff(b, f), Diff(b, f[..FAILURE_LIST_MAX]));
  }

  /**
    The bounded lists are the exact difference of the bounded failure sets if and only if the
    scan's set fits the bound, or shares no name with the set of the scan before it.
  */
  lemma BoundedDiffExact(f: seq<string>, b: seq<string>)
    requires StrictlySorted(f) && StrictlySorted(b) && |b| <= FAILURE_LIST_MAX
    ensures (ClampList(Diff(f, b)) == Diff(ClampList(f), b) && ClampList(Diff(b, f)) == Diff(b, ClampList(f)))
        <==> |f| <= FAILURE_LIST_MAX || Disjoint(f, b)
  {
    hide Diff, StrictlySorted;
    if |f| > FAILURE_LIST_MAX {
      var head, tail := f[..FAILURE_LIST_MAX], f[FAILURE_LIST_MAX..];
      if Disjoint(f, b) {
        NoOverlap(f, b);
      } else if Disjoint(tail, b) {
        assert f == head + tail;
        var x :| x in f && x in b;
        EarlyOverlap(f, b, x);
      } else {
        var y :| y in tail && y in b;
        LateOverlap(f, b, y);
      }
    }
  }

  /** Every look lists its failing results sorted, each name once. */
  ghost predicate Named(es: seq<Event>) {
    forall e :: e in es && e.Reconcile? && e.input.Seen? ==> StrictlySorted(e.input.obs.fails)
  }

  ghost predicate LogSorted(log: Log) {
    forall s :: s in log.scans ==> StrictlySorted(s.raw)
  }

  lemma TrimSorted(names: seq<string>)
    requires StrictlySorted(names)
    ensures StrictlySorted(TrimToShare(names)) && StrictlySorted(ClampList(TrimToShare(names)))
  {
    hide TrimToShare;
  }

  lemma LoggedSorted(log: Log, input: Input)
    requires LogSorted(log) && (input.Seen? ==> StrictlySorted(input.obs.fails))
    requires log.scans == [] ==> LogLast(log).None?
    ensures LogSorted(Logged(log, input))
  {
    hide TrimToShare, Covers, Complete;
    if input.Seen? {
    }
  }

  lemma {:induction false} RunSorted(log: Log, w: World, es: seq<Event>)
    requires LogSorted(log) && Named(es)
    ensures LogSorted(LogRun(log, w, es))
    decreases |es|
  {
    hide After, Logged, LogSorted;
    if es != [] {
      var e := es[0];
      assert e in es;
      if e.Reconcile? { LoggedSorted(log, Look(e.input, w.mode)); }
      RunSorted(if e.Reconcile? && e.write != Lost then Logged(log, Look(e.input, w.mode)) else log, After(w, e), es[1..]);
    }
  }

  /**
    After any run from an empty status the stored lists compare the failure sets the status keeps
    of the last two scans. The first scan reports nothing. For later scans the lists on show are
    exactly the differences of those two kept sets, if and only if the scan's trimmed failures fit
    4096 names or are disjoint from the kept set before.
  */
  lemma DiffOverRuns(mode: Mode, es: seq<Event>)
    requires Named(es)
    ensures var h := Run(World(EMPTY, mode), es).hist;
            var log := LogRun(Log([], true), World(EMPTY, mode), es);
            var n := |log.scans|;
            && h.last == LogLast(log)
            && (n > 0 ==> h.previous == Stored(log, n - 1))
            && (n < 2 || !log.shown ==> h.newly == [] && h.fixed == [])
            && (n >= 2 && log.shown ==>
                  (h.newly == Diff(Stored(log, n - 1), Stored(log, n - 2))
                   && h.fixed == Diff(Stored(log, n - 2), Stored(log, n - 1))
                   <==> |log.scans[n - 1].Seen()| <= FAILURE_LIST_MAX
                        || Disjoint(log.scans[n - 1].Seen(), Stored(log, n - 2))))
  {
    hide Run, LogRun, Diff;
    var w := World(EMPTY, mode);
    EmptyIsSound();
    RunAgrees(w, Log([], true), es);
    RunSorted(Log([], true), w, es);
    var log := LogRun(Log([], true), w, es);
    var n := |log.scans|;
    if n >= 2 {
      assert log.scans[n - 1] in log.scans && log.scans[n - 2] in log.scans;
      TrimSorted(log.scans[n - 1].raw);
      TrimSorted(log.scans[n - 2].raw);
      BoundedDiffExact(log.scans[n - 1].Seen(), Stored(log, n - 2));
    }
  }

  lemma EmptyIsSound()
    ensures Sound(EMPTY)
  {
    CostEmpty();
  }

  // ---- the bound does invent regressions ----

  /** A complete scan of one profile, ended at t seconds, that reports the given failures. */
  function OneScan(t: int, fails: seq<string>): Obs {
    Obs(Flat, Some(0), fails, map[Profile("cis") := Bucket(0, 1, 0, 0)],
        Some(map[Profile("cis") := Suite(true, [Member(true, Some(t * SECOND))])]), t * SECOND)
  }

  lemma OneScanIsComplete(t: int, fails: seq<string>, mode: Mode)
    requires t >= 0
    ensures Generation(OneScan(t, fails).(mode := mode)) == Some(Span(t, t))
  {
    var obs := OneScan(t, fails).(mode := mode);
    var suite := obs.suites.value[Profile("cis")];
    assert suite.members[1..] == [];
    assert ParseScanEnd(suite.members[0].end, obs.now) == Some(t);
    assert MembersSpan(suite.members, obs.now, None) == MembersSpan([], obs.now, Some(Span(t, t)));
    assert SuiteSpan(suite, obs.now) == Some(Span(t, t));
    assert Complete(obs) && obs.buckets != map[] by { assert Profile("cis") in obs.buckets; }
    assert SpanOf(obs, Profile("cis")) == Span(t, t);
    CoversUnique(obs, Generation(obs).value, Span(t, t));
  }

  lemma LogRunTwo(log: Log, w: World, a: Event, b: Event)
    requires a.Reconcile? && a.write == Both && b.Reconcile? && b.write == Both
    ensures LogRun(log, w, [a, b])
         == Logged(Logged(log, Look(a.input, w.mode)), Look(b.input, After(w, a).mode))
  {
    hide After, Logged;
    assert [a, b][1..] == [b] && [b][1..] == [];
    var log1, w1 := Logged(log, Look(a.input, w.mode)), After(w, a);
    assert LogRun(log, w, [a, b]) == LogRun(log1, w1, [b]);
    assert LogRun(log1, w1, [b]) == LogRun(Logged(log1, Look(b.input, w1.mode)), After(w1, b), []);
  }

  function TwoScans(first: seq<string>, second: seq<string>): seq<Event> {
    [Reconcile(Seen(OneScan(1, first)), Both), Reconcile(Seen(OneScan(2, second)), Both)]
  }

  lemma TwoScansLogged(first: seq<string>, second: seq<string>)
    ensures LogRun(Log([], true), World(EMPTY, Flat), TwoScans(first, second))
         == Log([Scan(1, first), Scan(2, second)], true)
  {
    hide After, OneScan, Generation, LogRun;
    var w := World(EMPTY, Flat);
    var a, b := Reconcile(Seen(OneScan(1, first)), Both), Reconcile(Seen(OneScan(2, second)), Both);
    LogRunTwo(Log([], true), w, a, b);
    var mode2 := After(w, a).mode;
    OneScanIsComplete(1, first, Flat);
    OneScanIsComplete(2, second, mode2);
    OneScanShape(1, first);
    OneScanShape(2, second);
    var log1 := Logged(Log([], true), Look(a.input, Flat));
    assert log1 == Log([Scan(1, first)], true);
  }

  /**
    Scanning twice with the same more than 4096 failures, all within the size share, reports
    names as newly failed that failed before.
  */
  lemma RepeatedFailuresInvented(fails: seq<string>)
    requires StrictlySorted(fails) && |fails| > FAILURE_LIST_MAX && Cost(fails) <= SHARE_BUDGET
    ensures Run(World(EMPTY, Flat), TwoScans(fails, fails)).hist.newly == ClampList(fails[FAILURE_LIST_MAX..]) != []
  {
    hide Run, LogRun, Diff, TwoScans, StrictlySorted;
    EmptyIsSound();
    RunAgrees(World(EMPTY, Flat), Log([], true), TwoScans(fails, fails));
    TwoScansLogged(fails, fails);
    NewBeyond(fails, FAILURE_LIST_MAX);
  }

  lemma NewBeyond(fails: seq<string>, n: nat)
    requires StrictlySorted(fails) && n <= |fails|
    ensures Diff(fails, fails[..n]) == fails[n..]
  {
    Separate(fails, n);
    TailSorted(fails, n);
    assert fails == fails[..n] + fails[n..];
    SortedIsCanonical(Diff(fails, fails[..n]), fails[n..]);
  }

  lemma OneScanShape(t: int, fails: seq<string>)
    ensures OneScan(t, fails).fails == fails && OneScan(t, fails).buckets != map[]
  {
    assert Profile("cis") in OneScan(t, fails).buckets;
  }

  function Letter(d: nat): char
    requires d < 20
  {
    'a' + d as char
  }

  /** The i-th three-letter name in byte order. */
  function Name(i: nat): string
    requires i < 8000
  {
    [Letter(i / 400), Letter(i / 20 % 20), Letter(i % 20)]
  }

  lemma NamesAscend(i: nat, j: nat)
    requires i < j < 8000
    ensures Less(Name(i), Name(j))
  {
    var a, b := Name(i), Name(j);
    assert i / 400 == i / 20 / 20 && j / 400 == j / 20 / 20;
    if a[0] == b[0] {
      assert i / 400 == j / 400;
      if a[1] == b[1] {
        assert i / 20 == j / 20;
        assert i % 20 < j % 20;
        assert Compare(a[2..], b[2..]) < 0;
        assert a[1..][1..] == a[2..] && b[1..][1..] == b[2..];
      }
    }
  }

  lemma {:induction false} ShortNamesCost(names: seq<string>)
    requires forall x :: x in names ==> |x| == 3
    ensures Cost(names) == 6 * |names|
  {
    if names != [] {
      assert names[|names| - 1] in names;
      ShortNamesCost(names[..|names| - 1]);
    }
  }

  /** Such scans exist: 4097 three-letter names use an eighth of the share. */
  lemma InventedRegressionsExist()
    ensures exists fails: seq<string> ::
      StrictlySorted(fails) && |fails| == 4097 && Cost(fails) <= SHARE_BUDGET
      && Run(World(EMPTY, Flat), TwoScans(fails, fails)).hist.newly == [fails[4096]]
  {
    hide Run, Cost, TwoScans;
    var n := FAILURE_LIST_MAX + 1;
    var fails := seq(n, i requires 0 <= i < n => Name(i));
    forall i, j | 0 <= i < j < n ensures Less(fails[i], fails[j]) { NamesAscend(i, j); }
    ShortNamesCost(fails);
    RepeatedFailuresInvented(fails);
    assert fails[FAILURE_LIST_MAX..] == [fails[4096]];
  }
}
