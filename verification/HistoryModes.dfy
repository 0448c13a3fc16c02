/**
  Exactly when a ring comes to hold points of two scoring modes, at any point between the status
  write and the stamp write; and that it never does while the mode in the spec does not change
  before the stamp catches up with the rings.
*/
module HistoryModes {
  import opened Options
  import opened HistoryModel
  import opened HistoryRuns
  import opened HistoryTheorems

  ghost predicate RingOfMode(ring: seq<Snap>, t: Mode) {
    forall p :: p in ring ==> p.mode == t
  }

  /** Every point of every ring was scored in mode t. */
  ghost predicate OfMode(h: Hist, t: Mode) {
    RingOfMode(h.overall, t) && forall k :: k in h.rings ==> RingOfMode(h.rings[k], t)
  }

  ghost predicate NoPoints(h: Hist) {
    h.overall == [] && forall k :: k in h.rings ==> h.rings[k] == []
  }

  /** The durable stamp does not name the mode of the stored points. */
  ghost predicate Lagging(h: Hist) {
    !NoPoints(h) && !(h.stamp.Some? && OfMode(h, h.stamp.value))
  }

  /** The spec's mode changes only while the stamp is level with the rings. */
  ghost predicate Patient(w: World, es: seq<Event>)
    decreases |es|
  {
    es == [] || ((es[0].SetMode? ==> !Lagging(w.hist)) && Patient(After(w, es[0]), es[1..]))
  }

  /** One mode throughout, and it is the stamp's or the spec's. */
  ghost predicate Pure(w: World, t: Mode) {
    OfMode(w.hist, t) && (NoPoints(w.hist) || w.hist.stamp == Some(t) || w.mode == t)
  }

  lemma SyncKeepsMode(ring: seq<Snap>, t: int, s: Option<int>, mode: Mode)
    requires RingOfMode(ring, mode)
    ensures RingOfMode(SyncSnapshot(ring, t, s, mode), mode)
  {
    var n := |ring|;
    if s.Some? {
      var grown := if n > 0 && ring[n - 1].time == t then ring[n - 1 := Snap(t, s.value, mode)]
                   else ring + [Snap(t, s.value, mode)];
      assert RingOfMode(grown, mode);
      ClampKeepsMode(grown, mode);
    }
  }

  lemma ClampKeepsMode(ring: seq<Snap>, t: Mode)
    requires RingOfMode(ring, t)
    ensures RingOfMode(ClampHistory(ring, HISTORY_MAX), t)
  {
    var r := ClampHistory(ring, HISTORY_MAX);
    var skip := |ring| - |r|;
    forall i | 0 <= i < |r| ensures r[i].mode == t { assert ring[skip + i] in ring; }
  }

  lemma EmptyOfMode(t: Mode)
    ensures RingOfMode([], t)
  {
  }

  /** A look leaves the rings in their mode, or holding only points of its own mode. */
  lemma RecordKeepsMode(st: Hist, obs: Obs, t: Mode)
    requires OfMode(st, t) && (NoPoints(st) || st.stamp == Some(t) || obs.mode == t)
    ensures var r := Record(st, obs);
            || (r.overall == st.overall && r.rings == st.rings && r.stamp == st.stamp)
            || (OfMode(r, obs.mode) && r.stamp == Some(obs.mode))
  {
    hide SyncSnapshot, SyncRings, ScoreFor, RingOfMode, Covers, Complete, TrimToShare, Diff;
    var g := Generation(obs);
    if g.Some? && KindOf(st.last, g.value) != Nothing {
      forall ring, at, s | RingOfMode(ring, obs.mode)
        ensures RingOfMode(SyncSnapshot(ring, at, s, obs.mode), obs.mode)
      {
        SyncKeepsMode(ring, at, s, obs.mode);
      }
      EmptyOfMode(obs.mode);
      SyncedRings(st.rings, g.value.latest, obs);
      SyncedRings(EmptyRings(st.rings), g.value.latest, obs);
    }
  }

  lemma StepKeepsMode(st: Hist, input: Input, t: Mode) returns (u: Mode)
    requires OfMode(st, t) && (input.Seen? ==> NoPoints(st) || st.stamp == Some(t) || input.obs.mode == t)
    ensures var r := Step(st, input);
            && OfMode(r, u)
            && (NoPoints(r) || (input.Seen? && u == input.obs.mode) || r.stamp == st.stamp == Some(u))
  {
    hide Record, RingOfMode;
    EmptyOfMode(t);
    u := t;
    if input.Seen? && input.obs.buckets != map[] {
      var st1 := st.(rings := Rebuild(st.rings, input.obs.buckets));
      assert OfMode(st1, t) && (NoPoints(st) ==> NoPoints(st1));
      RecordKeepsMode(st1, input.obs, t);
      var r := Record(st1, input.obs);
      if !(r.overall == st1.overall && r.rings == st1.rings && r.stamp == st1.stamp) { u := input.obs.mode; }
    }
  }

  lemma AfterKeepsPure(w: World, e: Event, t: Mode) returns (u: Mode)
    requires Sound(w.hist) && Pure(w, t) && (e.SetMode? ==> !Lagging(w.hist))
    ensures Pure(After(w, e), u)
  {
    hide Step, Sound, RingOfMode, Persist;
    u := t;
    match e
    case SetMode(m) =>
      if !NoPoints(w.hist) { u := w.hist.stamp.value; }
    case Reconcile(input, write) =>
      NextIsSound(w, e);
      if write != Lost { u := StepKeepsMode(w.hist, Look(input, w.mode), t); }
  }

  /** Mode purity over whole runs: at every crash point each ring holds points of one mode. */
  lemma {:induction false} RingsStayPure(w: World, es: seq<Event>, t: Mode) returns (u: Mode)
    requires Sound(w.hist) && Pure(w, t) && Patient(w, es)
    ensures OfMode(Run(w, es).hist, u)
    decreases |es|
  {
    hide After, Sound, OfMode, NoPoints, Lagging;
    u := t;
    if es != [] {
      NextIsSound(w, es[0]);
      var v := AfterKeepsPure(w, es[0], t);
      u := RingsStayPure(After(w, es[0]), es[1..], v);
    }
  }

  /** From an empty status, so from the first scan on. */
  lemma ModePurity(mode: Mode, es: seq<Event>)
    requires Patient(World(EMPTY, mode), es)
    ensures exists u :: OfMode(Run(World(EMPTY, mode), es).hist, u)
  {
    hide Run, Patient;
    EmptyIsSound();
    var u := RingsStayPure(World(EMPTY, mode), es, mode);
  }

  // ---- exactly when a ring mixes ----

  ghost predicate Uniform(ring: seq<Snap>) {
    forall i, j :: 0 <= i < |ring| && 0 <= j < |ring| ==> ring[i].mode == ring[j].mode
  }

  /** Each ring holds points of one mode. */
  ghost predicate Unmixed(h: Hist) {
    Uniform(h.overall) && forall k :: k in h.rings ==> Uniform(h.rings[k])
  }

  /** A score for the scan at time at joins a point of another scan scored in another mode. */
  ghost predicate RingGrafts(ring: seq<Snap>, at: int, s: Option<int>, mode: Mode) {
    s.Some? && exists i :: 0 <= i < |ring| && ring[i].time != at && ring[i].mode != mode
  }

  ghost function ScoreFor(obs: Obs, k: Key): Option<int> {
    if k in obs.buckets then BucketScore(obs.buckets[k], obs.mode) else None
  }

  /**
    The look is recorded, the stored stamp is missing or names the look's mode, and some ring
    that gets a score keeps a point of another scan from the other mode.
  */
  ghost predicate Grafts(st: Hist, obs: Obs) {
    var g := Generation(obs);
    && g.Some? && KindOf(st.last, g.value) != Nothing && ModeMatches(st.stamp, obs.mode)
    && (RingGrafts(st.overall, g.value.latest, obs.score, obs.mode)
        || exists k :: k in st.rings && RingGrafts(st.rings[k], g.value.latest, ScoreFor(obs, k), obs.mode))
  }

  lemma SyncMixesExactly(ring: seq<Snap>, last: Option<int>, at: int, s: Option<int>, mode: Mode)
    requires RingOk(ring, last) && Uniform(ring)
    ensures Uniform(SyncSnapshot(ring, at, s, mode)) <==> !RingGrafts(ring, at, s, mode)
  {
    var n := |ring|;
    if s.Some? {
      var p := Snap(at, s.value, mode);
      if n > 0 && ring[n - 1].time == at {
        var r := SyncSnapshot(ring, at, s, mode);
        assert forall i :: 0 <= i < n - 1 ==> r[i].mode == ring[i].mode && ring[i].time != at;
        assert r[n - 1].mode == mode;
      } else {
        AppendMixes(ring, last, p);
      }
    }
  }

  lemma AppendMixes(ring: seq<Snap>, last: Option<int>, p: Snap)
    requires RingOk(ring, last) && Uniform(ring) && (ring == [] || ring[|ring| - 1].time != p.time)
    ensures Uniform(AppendRing(ring, p, HISTORY_MAX)) <==> !RingGrafts(ring, p.time, Some(p.score), p.mode)
  {
    hide ClampHistory, RingOk;
    var n, r := |ring|, AppendRing(ring, p, HISTORY_MAX);
    ClampModes(ring + [p]);
    var skip := n + 1 - |r|;
    assert r[|r| - 1].mode == p.mode;
    assert n > 0 ==> |ring| > 0 && |r| >= 2 && r[|r| - 2].mode == ring[n - 1].mode;
    assert forall i :: 0 <= i < |r| - 1 ==> r[i].mode == ring[skip + i].mode;
  }

  /** Trimming keeps the newest points in their modes, two of them at least. */
  lemma ClampModes(list: seq<Snap>)
    ensures var r := ClampHistory(list, HISTORY_MAX);
      && |r| == Min(|list|, HISTORY_MAX)
      && forall i :: 0 <= i < |r| ==> r[i].mode == list[|list| - |r| + i].mode
  {
  }

  lemma FreshRing(at: int, s: Option<int>, mode: Mode)
    ensures Uniform(SyncSnapshot([], at, s, mode))
  {
  }

  lemma SyncedRings(rings: map<Key, seq<Snap>>, at: int, obs: Obs)
    ensures SyncRings(rings, at, obs).Keys == rings.Keys
    ensures forall k :: k in rings ==> SyncRings(rings, at, obs)[k] == SyncSnapshot(rings[k], at, ScoreFor(obs, k), obs.mode)
  {
  }

  /** From unmixed rings, recording a look mixes a ring if and only if it grafts. */
  lemma RecordMixesExactly(st: Hist, obs: Obs)
    requires RingsOk(st) && Unmixed(st)
    ensures Unmixed(Record(st, obs)) <==> !Grafts(st, obs)
  {
    hide SyncSnapshot, SyncRings, ScoreFor, RingOk, Uniform, RingGrafts, Covers, Complete, TrimToShare, Diff;
    var g := Generation(obs);
    if g.Some? && KindOf(st.last, g.value) != Nothing {
      var at := g.value.latest;
      forall ring, s | RingOk(ring, st.last) && Uniform(ring)
        ensures Uniform(SyncSnapshot(ring, at, s, obs.mode)) <==> !RingGrafts(ring, at, s, obs.mode)
      {
        SyncMixesExactly(ring, st.last, at, s, obs.mode);
      }
      forall s ensures Uniform(SyncSnapshot([], at, s, obs.mode)) {
        FreshRing(at, s, obs.mode);
      }
      SyncedRings(st.rings, at, obs);
      SyncedRings(EmptyRings(st.rings), at, obs);
    }
  }

  /** A ring that gets a score for the scan at time at keeps a point of another scan. */
  ghost predicate RingKeeps(ring: seq<Snap>, at: int, s: Option<int>) {
    s.Some? && exists i :: 0 <= i < |ring| && ring[i].time != at
  }

  /**
    From rings all of one mode and a look in the other, a ring mixes if and only if the look is
    recorded, the stored stamp is missing or names the look's mode, and some ring that gets a
    score keeps a point of another scan.
  */
  lemma LookMixesExactly(st: Hist, obs: Obs, t: Mode)
    requires RingsOk(st) && OfMode(st, t) && obs.mode != t
    ensures var g := Generation(obs);
      !Unmixed(Record(st, obs)) <==>
        && g.Some? && KindOf(st.last, g.value) != Nothing && ModeMatches(st.stamp, obs.mode)
        && (RingKeeps(st.overall, g.value.latest, obs.score)
            || exists k :: k in st.rings && RingKeeps(st.rings[k], g.value.latest, ScoreFor(obs, k)))
  {
    hide Record, RingsOk, KindOf, Generation, OfMode, ScoreFor, Unmixed;
    OneModeIsUnmixed(st, t);
    RecordMixesExactly(st, obs);
    forall at, s ensures RingGrafts(st.overall, at, s, obs.mode) <==> RingKeeps(st.overall, at, s) {
      KeepsOther(st.overall, at, s, obs.mode, t);
    }
    forall k, at, s | k in st.rings
      ensures RingGrafts(st.rings[k], at, s, obs.mode) <==> RingKeeps(st.rings[k], at, s)
    {
      KeepsOther(st.rings[k], at, s, obs.mode, t);
    }
  }

  lemma KeepsOther(ring: seq<Snap>, at: int, s: Option<int>, mode: Mode, t: Mode)
    requires RingOfMode(ring, t) && mode != t
    ensures RingGrafts(ring, at, s, mode) <==> RingKeeps(ring, at, s)
  {
  }

  lemma OneModeIsUnmixed(h: Hist, t: Mode)
    requires OfMode(h, t)
    ensures Unmixed(h)
    ensures RingOfMode(h.overall, t) && forall k :: k in h.rings ==> RingOfMode(h.rings[k], t)
  {
  }

  /** A kept status write of a look that grafts. */
  ghost predicate EventGrafts(w: World, e: Event) {
    && e.Reconcile? && e.write != Lost && e.input.Seen?
    && Grafts(w.hist.(rings := Rebuild(w.hist.rings, e.input.obs.buckets)), e.input.obs.(mode := w.mode))
  }

  lemma EventMixesExactly(w: World, e: Event)
    requires Sound(w.hist) && Unmixed(w.hist)
    ensures Unmixed(After(w, e).hist) <==> !EventGrafts(w, e)
  {
    hide Record, Uniform, RingOk, Persist, WithinShare, Grafts, Generation, Step;
    if e.Reconcile? && e.write != Lost {
      NextIsSound(w, e);
      StepMixesExactly(w.hist, Look(e.input, w.mode));
    }
  }

  lemma StepMixesExactly(st: Hist, input: Input)
    requires RingsOk(st) && Unmixed(st)
    ensures Unmixed(Step(st, input))
       <==> !(input.Seen? && Grafts(st.(rings := Rebuild(st.rings, input.obs.buckets)), input.obs))
  {
    hide Record, Uniform, RingOk, RingGrafts;
    NothingIsUniform();
    EmptyRing(st.last);
    if input.Seen? {
      var st1 := st.(rings := Rebuild(st.rings, input.obs.buckets));
      assert RingsOk(st1) && Unmixed(st1);
      RecordMixesExactly(st1, input.obs);
    }
  }

  lemma NothingIsUniform()
    ensures Uniform([])
  {
  }

  /** At every point of the run each ring holds points of one mode. */
  ghost predicate StaysUnmixed(w: World, es: seq<Event>)
    decreases |es|
  {
    Unmixed(w.hist) && (es == [] || StaysUnmixed(After(w, es[0]), es[1..]))
  }

  ghost predicate NeverGrafts(w: World, es: seq<Event>)
    decreases |es|
  {
    es == [] || (!EventGrafts(w, es[0]) && NeverGrafts(After(w, es[0]), es[1..]))
  }

  /** A run keeps its rings unmixed at every point if and only if none of its writes grafts. */
  lemma {:induction false} RunMixesExactly(w: World, es: seq<Event>)
    requires Sound(w.hist) && Unmixed(w.hist)
    ensures StaysUnmixed(w, es) <==> NeverGrafts(w, es)
    decreases |es|
  {
    hide After, Sound, Unmixed, EventGrafts;
    if es != [] {
      NextIsSound(w, es[0]);
      EventMixesExactly(w, es[0]);
      if Unmixed(After(w, es[0]).hist) {
        RunMixesExactly(After(w, es[0]), es[1..]);
      } else {
        MixedAtOnce(After(w, es[0]), es[1..]);
      }
    }
  }

  lemma MixedAtOnce(w: World, es: seq<Event>)
    requires !Unmixed(w.hist)
    ensures !StaysUnmixed(w, es)
  {
  }

  // ---- the hypothesis is needed ----

  /** A scan recorded whose stamp write fails, a mode change, and one more scan. */
  function FlipWhileLagging(): seq<Event> {
    [Reconcile(Seen(OneScan(1, [])), RingsOnly), SetMode(Weighted), Reconcile(Seen(OneScan(2, [])), Both)]
  }

  /** What one more scan leaves: rings of another mode than the stamp's survive only without a stamp. */
  lemma ScanRecorded(w: World, t: int, write: Write)
    requires Sound(w.hist) && t >= 0 && (w.hist.last.Some? ==> w.hist.last.value < t)
    requires write != Lost
    ensures var h := After(w, Reconcile(Seen(OneScan(t, [])), write)).hist;
            && h.overall == SyncSnapshot(if ModeMatches(w.hist.stamp, w.mode) then w.hist.overall else [], t, Some(0), w.mode)
            && h.last == Some(t) && h.stamp == (if write == Both then Some(w.mode) else w.hist.stamp)
  {
    hide OneScan, Persist, Generation, SyncRings, SyncSnapshot, Diff, Rebuild, RingsOk, WithinShare, TrimToShare;
    OneScanIsComplete(t, [], w.mode);
    ScanScore(t);
    NextIsSound(w, Reconcile(Seen(OneScan(t, [])), write));
  }

  lemma PointAdded(ring: seq<Snap>, last: Option<int>, t: int, mode: Mode)
    requires RingOk(ring, last) && |ring| < HISTORY_MAX && t >= 0 && (last.Some? ==> last.value < t)
    ensures SyncSnapshot(ring, t, Some(0), mode) == ring + [Snap(t, 0, mode)]
  {
    var grown := ring + [Snap(t, 0, mode)];
    assert RepairAll(grown) == grown;
  }

  /** One more scan appends one point of the spec's mode, after dropping the ring when the stamp names the other. */
  lemma ScanAppends(w: World, t: int, write: Write)
    requires Sound(w.hist) && t >= 0 && (w.hist.last.Some? ==> w.hist.last.value < t)
    requires write != Lost && |w.hist.overall| < HISTORY_MAX
    ensures var h := After(w, Reconcile(Seen(OneScan(t, [])), write)).hist;
            && h.overall == (if ModeMatches(w.hist.stamp, w.mode) then w.hist.overall else []) + [Snap(t, 0, w.mode)]
            && Sound(h) && h.last == Some(t) && h.stamp == (if write == Both then Some(w.mode) else w.hist.stamp)
  {
    hide OneScan, After, SyncSnapshot, WithinShare, RingOk;
    NextIsSound(w, Reconcile(Seen(OneScan(t, [])), write));
    ScanRecorded(w, t, write);
    PointAdded(w.hist.overall, w.hist.last, t, w.mode);
    EmptyRing(w.hist.last);
    PointAdded([], w.hist.last, t, w.mode);
  }

  lemma ModeSet(w: World, mode: Mode)
    ensures After(w, SetMode(mode)) == w.(mode := mode)
  {
  }

  lemma OnePoint(h: Hist, p: Snap)
    requires h.overall == [p] && h.stamp != Some(p.mode)
    ensures Lagging(h)
  {
  }

  lemma {:induction false} RunSplits(w: World, es: seq<Event>, e: Event)
    ensures Run(w, es + [e]) == After(Run(w, es), e)
    decreases |es|
  {
    hide After;
    if es == [] {
      assert ([] + [e])[0] == e && ([] + [e])[1..] == [];
      assert Run(w, [] + [e]) == Run(After(w, e), []);
    } else {
      assert (es + [e])[0] == es[0] && (es + [e])[1..] == es[1..] + [e];
      RunSplits(After(w, es[0]), es[1..], e);
    }
  }

  /** Two points of different modes in one ring: no stamp was stored when the mode changed. */
  lemma FlipWhileLaggingMixes()
    ensures !Patient(World(EMPTY, Flat), FlipWhileLagging())
    ensures Run(World(EMPTY, Flat), FlipWhileLagging()).hist.overall == [Snap(1, 0, Flat), Snap(2, 0, Weighted)]
    ensures !Unmixed(Run(World(EMPTY, Flat), FlipWhileLagging()).hist)
  {
    hide OneScan, After, Run, Patient, Lagging, Sound;
    var w0 := World(EMPTY, Flat);
    var es := FlipWhileLagging();
    RunOfThree(w0, es[0], es[1], es[2]);
    EmptyIsSound();
    ScanAppends(w0, 1, RingsOnly);
    var w1 := After(w0, es[0]);
    OnePoint(w1.hist, Snap(1, 0, Flat));
    ModeSet(w1, Weighted);
    ScanAppends(w1.(mode := Weighted), 2, Both);
    TwoModes(Run(w0, es).hist, Snap(1, 0, Flat), Snap(2, 0, Weighted));
  }

  lemma TwoModes(h: Hist, p: Snap, q: Snap)
    requires h.overall == [p, q] && p.mode != q.mode
    ensures !Unmixed(h)
  {
    assert h.overall[0].mode != h.overall[1].mode;
  }

  /** A full scan, a change of mode, a scan whose stamp write fails, the old mode again, and one more scan. */
  function FlipBackWhileLagging(): seq<Event> {
    [Reconcile(Seen(OneScan(1, [])), Both), SetMode(Weighted), Reconcile(Seen(OneScan(2, [])), RingsOnly),
     SetMode(Flat), Reconcile(Seen(OneScan(3, [])), Both)]
  }

  /** Two points of different modes in one ring: the stamp still names the mode the spec went back to. */
  lemma FlipBackWhileLaggingMixes()
    ensures Run(World(EMPTY, Flat), FlipBackWhileLagging()[..4]).hist.stamp == Some(Flat)
    ensures Run(World(EMPTY, Flat), FlipBackWhileLagging()).hist.overall == [Snap(2, 0, Weighted), Snap(3, 0, Flat)]
    ensures !Unmixed(Run(World(EMPTY, Flat), FlipBackWhileLagging()).hist)
  {
    hide OneScan, After, Run, Sound;
    var w0 := World(EMPTY, Flat);
    var es := FlipBackWhileLagging();
    RunOfThree(w0, es[0], es[1], es[2]);
    RunSplits(w0, es[..3], es[3]);
    RunSplits(w0, es[..4], es[4]);
    assert es[..3] == [es[0], es[1], es[2]] && es[..4] == es[..3] + [es[3]] && es == es[..4] + [es[4]];
    EmptyIsSound();
    ScanAppends(w0, 1, Both);
    var w1 := After(w0, es[0]);
    ModeSet(w1, Weighted);
    var w2 := w1.(mode := Weighted);
    ScanAppends(w2, 2, RingsOnly);
    var w3 := After(w2, es[2]);
    ModeSet(w3, Flat);
    ScanAppends(w3.(mode := Flat), 3, Both);
    TwoModes(Run(w0, es).hist, Snap(2, 0, Weighted), Snap(3, 0, Flat));
  }

  lemma RunOfThree(w: World, a: Event, b: Event, c: Event)
    ensures Run(w, [a, b, c]) == After(After(After(w, a), b), c)
    ensures b.SetMode? && Lagging(After(w, a).hist) ==> !Patient(w, [a, b, c])
  {
    hide After, Lagging;
    var w1 := After(w, a);
    var w2 := After(w1, b);
    assert [a, b, c][1..] == [b, c] && [b, c][1..] == [c] && [c][1..] == [];
    assert Run(w, [a, b, c]) == Run(w1, [b, c]);
    assert Run(w1, [b, c]) == Run(w2, [c]);
    assert Run(w2, [c]) == Run(After(w2, c), []);
  }

  lemma ScanScore(t: int)
    ensures OneScan(t, []).score == Some(0) && OneScan(t, []).buckets != map[]
  {
    OneScanShape(t, []);
  }
}
