/**
  Whole runs of history recording over the durable status: every reconcile reads the stored
  state, records a look at the cluster, and then writes the status and the mode stamp in two
  separate API calls, any of which a crash or an error can cut off.
*/
module HistoryRuns {
  import opened Options
  import opened Text
  import opened HistoryModel

  // ---- what the status write stores ----

  /** The CRD's item bound: the first 4096 names. */
  function ClampList(names: seq<string>): (r: seq<string>)
    ensures r <= names && |r| <= FAILURE_LIST_MAX
  {
    if |names| > FAILURE_LIST_MAX then names[..FAILURE_LIST_MAX] else names
  }

  datatype Lists = Lists(newly: seq<string>, fixed: seq<string>, previous: seq<string>, diffBase: seq<string>)

  function Total(l: Lists): nat {
    Cost(l.newly) + Cost(l.fixed) + Cost(l.previous) + Cost(l.diffBase)
  }

  function Shorter(s: seq<string>): seq<string>
    requires s != []
  {
    s[..|s| - 1]
  }

  /** Drops the tail of the first list of the largest size. */
  function DropLargest(l: Lists): (r: Lists)
    requires Total(l) > 0
    ensures |r.newly| + |r.fixed| + |r.previous| + |r.diffBase|
         == |l.newly| + |l.fixed| + |l.previous| + |l.diffBase| - 1
  {
    var a, b, c, d := Cost(l.newly), Cost(l.fixed), Cost(l.previous), Cost(l.diffBase);
    if a >= b && a >= c && a >= d then l.(newly := Shorter(l.newly))
    else if b >= c && b >= d then l.(fixed := Shorter(l.fixed))
    else if c >= d then l.(previous := Shorter(l.previous))
    else l.(diffBase := Shorter(l.diffBase))
  }

  function TrimLists(l: Lists): (r: Lists)
    ensures Total(r) <= 4 * SHARE_BUDGET
    decreases |l.newly| + |l.fixed| + |l.previous| + |l.diffBase|
  {
    if Total(l) <= 4 * SHARE_BUDGET then l else TrimLists(DropLargest(l))
  }

  function ClampRings(rings: map<Key, seq<Snap>>): map<Key, seq<Snap>> {
    map k | k in rings :: ClampHistory(rings[k], HISTORY_MAX)
  }

  function Persist(h: Hist): Hist {
    var l := TrimLists(Lists(ClampList(h.newly), ClampList(h.fixed), ClampList(h.previous), ClampList(h.diffBase)));
    h.(overall := ClampHistory(h.overall, HISTORY_MAX), rings := ClampRings(h.rings),
       newly := l.newly, fixed := l.fixed, previous := l.previous, diffBase := l.diffBase)
  }

  // ---- runs ----

  /** How far the two writes at the end of a reconcile got. */
  datatype Write = Lost | RingsOnly | Both

  datatype Event = Reconcile(input: Input, write: Write) | SetMode(mode: Mode)

  datatype World = World(hist: Hist, mode: Mode)

  /** A reconcile scores with the mode the spec holds. */
  function Look(input: Input, mode: Mode): Input {
    if input.Seen? then Seen(input.obs.(mode := mode)) else input
  }

  ghost function After(w: World, e: Event): World {
    match e
    case SetMode(m) => w.(mode := m)
    case Reconcile(input, write) =>
      var st := Persist(Step(w.hist, Look(input, w.mode)));
      match write
      case Lost => w
      case RingsOnly => w.(hist := st.(stamp := w.hist.stamp))
      case Both => w.(hist := st)
  }

  ghost function Run(w: World, es: seq<Event>): World
    decreases |es|
  {
    if es == [] then w else Run(After(w, es[0]), es[1..])
  }

  const EMPTY := Hist(None, [], map[], [], [], None, [], [], None)

  // ---- rings ----

  ghost predicate RingOk(ring: seq<Snap>, last: Option<int>) {
    && |ring| <= HISTORY_MAX
    && (forall i :: 0 <= i < |ring| ==> 0 <= ring[i].score <= 100)
    && (forall i, j :: 0 <= i < j < |ring| ==> ring[i].time < ring[j].time)
    && (forall i :: 0 <= i < |ring| ==> last.Some? && 0 <= ring[i].time <= last.value)
  }

  ghost predicate RingsOk(h: Hist) {
    RingOk(h.overall, h.last) && forall k :: k in h.rings ==> RingOk(h.rings[k], h.last)
  }

  ghost predicate Climbing(list: seq<Snap>, t: int) {
    && (forall i, j :: 0 <= i < j < |list| ==> list[i].time < list[j].time)
    && (forall i :: 0 <= i < |list| ==> 0 <= list[i].time <= t)
  }

  /** Keeping the newest points of a climbing list gives a ring. */
  lemma ClampClimbing(list: seq<Snap>, t: int)
    requires Climbing(list, t)
    ensures RingOk(ClampHistory(list, HISTORY_MAX), Some(t))
  {
    var kept := if |list| > HISTORY_MAX then list[|list| - HISTORY_MAX..] else list;
    assert Climbing(kept, t);
    assert ClampHistory(list, HISTORY_MAX) == RepairAll(kept);
  }

  lemma SyncKeepsRing(ring: seq<Snap>, last: Option<int>, t: int, s: Option<int>, mode: Mode)
    requires RingOk(ring, last) && t >= 0 && (last.Some? ==> last.value <= t)
    ensures RingOk(SyncSnapshot(ring, t, s, mode), Some(t))
  {
    hide ClampHistory;
    var n := |ring|;
    if n > 0 && ring[n - 1].time == t {
      if s.Some? {
        ClampClimbing(ring[n - 1 := Snap(t, s.value, mode)], t);
      }
    } else if s.Some? {
      assert n > 0 ==> ring[n - 1].time < t;
      assert Climbing(ring + [Snap(t, s.value, mode)], t);
      ClampClimbing(ring + [Snap(t, s.value, mode)], t);
    }
  }

  lemma ClampEnd(list: seq<Snap>)
    requires list != []
    ensures var r := ClampHistory(list, HISTORY_MAX);
            r != [] && r[|r| - 1] == Repaired(list[|list| - 1])
  {
  }

  /** A synced ring ends with the clamped point. */
  lemma SyncEnd(ring: seq<Snap>, t: nat, s: int, mode: Mode)
    ensures var r := SyncSnapshot(ring, t, Some(s), mode);
            r != [] && r[|r| - 1] == Snap(t, ClampScore(s), mode)
  {
    hide ClampHistory;
    var n := |ring|;
    if n > 0 && ring[n - 1].time == t {
      ClampEnd(ring[n - 1 := Snap(t, s, mode)]);
    } else {
      ClampEnd(ring + [Snap(t, s, mode)]);
    }
  }

  lemma ResyncEnd(ring: seq<Snap>, t: nat, s: int, mode: Mode)
    requires RingOk(ring, Some(t)) && ring != [] && ring[|ring| - 1] == Snap(t, ClampScore(s), mode)
    ensures SyncSnapshot(ring, t, Some(s), mode) == ring
  {
    var n := |ring|;
    var again := ring[n - 1 := Snap(t, s, mode)];
    assert RepairAll(again) == ring;
  }

  /** Repeating a snapshot of the same scan changes nothing. */
  lemma SyncIsIdempotent(ring: seq<Snap>, last: Option<int>, t: nat, s: Option<int>, mode: Mode)
    requires RingOk(ring, last) && (last.Some? ==> last.value <= t)
    ensures SyncSnapshot(SyncSnapshot(ring, t, s, mode), t, s, mode) == SyncSnapshot(ring, t, s, mode)
  {
    if s.Some? {
      hide SyncSnapshot, RingOk;
      SyncKeepsRing(ring, last, t, s, mode);
      SyncEnd(ring, t, s.value, mode);
      ResyncEnd(SyncSnapshot(ring, t, s, mode), t, s.value, mode);
    } else if |ring| > 1 && ring[|ring| - 1].time == t {
      assert ring[|ring| - 2].time < ring[|ring| - 1].time;
    }
  }

  lemma ClampKeepsRing(ring: seq<Snap>, last: Option<int>)
    requires RingOk(ring, last)
    ensures ClampHistory(ring, HISTORY_MAX) == ring
  {
  }

  lemma RecordKeepsRings(st: Hist, obs: Obs)
    requires RingsOk(st)
    ensures RingsOk(Record(st, obs))
  {
    hide SyncSnapshot, RingOk, Covers, Complete, TrimToShare, BucketScore;
    var g := Generation(obs);
    if g.Some? && KindOf(st.last, g.value) != Nothing {
      var t := g.value.latest;
      forall ring, s | RingOk(ring, st.last) ensures RingOk(SyncSnapshot(ring, t, s, obs.mode), Some(t)) {
        SyncKeepsRing(ring, st.last, t, s, obs.mode);
      }
      forall s ensures RingOk(SyncSnapshot([], t, s, obs.mode), Some(t)) {
        EmptyRing(None);
        SyncKeepsRing([], None, t, s, obs.mode);
      }
    }
  }

  lemma EmptyRing(last: Option<int>)
    ensures RingOk([], last)
  {
  }

  lemma StepKeepsRings(st: Hist, input: Input)
    requires RingsOk(st)
    ensures RingsOk(Step(st, input))
  {
    hide Record, RingOk;
    EmptyRing(st.last);
    EmptyRing(None);
    if input.Seen? {
      var st1 := st.(rings := Rebuild(st.rings, input.obs.buckets));
      assert RingsOk(st1);
      RecordKeepsRings(st1, input.obs);
    }
  }

  // ---- list sizes ----

  lemma {:induction false} CostFront(x: string, s: seq<string>)
    ensures Cost([x] + s) == Cost(s) + |x| + 3
  {
    if s == [] {
      assert ([x] + s)[..0] == [];
    } else {
      CostFront(x, s[..|s| - 1]);
      assert ([x] + s)[..|s|] == [x] + s[..|s| - 1];
    }
  }

  lemma {:induction false} CostInsert(x: string, s: seq<string>)
    requires StrictlySorted(s)
    ensures Cost(Insert(x, s)) <= Cost(s) + |x| + 3
  {
    CostFront(x, s);
    if s != [] {
      assert s == [s[0]] + s[1..];
      CostFront(s[0], s[1..]);
      if x != s[0] && !Less(x, s[0]) {
        CostInsert(x, s[1..]);
        CostFront(s[0], Insert(x, s[1..]));
      }
    } else {
      assert [x] + s == [x];
    }
  }

  /** A difference is never larger than the list it was taken from. */
  lemma {:induction false} CostDiff(a: seq<string>, b: seq<string>)
    ensures Cost(Diff(a, b)) <= Cost(a)
  {
    if a != [] {
      assert a == [a[0]] + a[1..];
      CostFront(a[0], a[1..]);
      CostDiff(a[1..], b);
      CostInsert(a[0], Diff(a[1..], b));
    }
  }

  lemma {:induction false} CostPrefix(a: seq<string>, n: nat)
    requires n <= |a|
    ensures Cost(a[..n]) <= Cost(a)
  {
    if n < |a| {
      CostPrefix(a[..|a| - 1], n);
      assert a[..|a| - 1][..n] == a[..n];
    } else {
      assert a[..n] == a;
    }
  }

  predicate WithinShare(h: Hist) {
    && Cost(h.newly) <= SHARE_BUDGET && Cost(h.fixed) <= SHARE_BUDGET
    && Cost(h.previous) <= SHARE_BUDGET && Cost(h.diffBase) <= SHARE_BUDGET
  }

  lemma CostEmpty()
    ensures Cost([]) == 0
  {
  }

  lemma RecordKeepsShares(st: Hist, obs: Obs)
    requires WithinShare(st)
    ensures WithinShare(Record(st, obs))
  {
    hide SyncSnapshot, SyncRings, EmptyRings, Covers, Complete, Diff, Cost, TrimToShare;
    CostEmpty();
    var fails := TrimToShare(obs.fails);
    CostDiff(fails, st.previous);
    CostDiff(st.previous, fails);
    CostDiff(fails, st.diffBase);
    CostDiff(st.diffBase, fails);
  }

  lemma StepKeepsShares(st: Hist, input: Input)
    requires WithinShare(st)
    ensures WithinShare(Step(st, input))
  {
    hide Record, Cost;
    CostEmpty();
    if input.Seen? {
      RecordKeepsShares(st.(rings := Rebuild(st.rings, input.obs.buckets)), input.obs);
    }
  }

  // ---- the status write changes nothing but over-long lists ----

  function Clamped(h: Hist): Hist {
    h.(newly := ClampList(h.newly), fixed := ClampList(h.fixed),
       previous := ClampList(h.previous), diffBase := ClampList(h.diffBase))
  }

  ghost predicate Sound(h: Hist) {
    RingsOk(h) && WithinShare(h)
  }

  /** The joint size budget never trims a list: four shares always fit. */
  lemma BudgetNeverTrims(h: Hist)
    requires Sound(h)
    ensures Persist(h) == Clamped(h)
    ensures Sound(Clamped(h))
  {
    ClampCost(h.newly);
    ClampCost(h.fixed);
    ClampCost(h.previous);
    ClampCost(h.diffBase);
    ClampKeepsRing(h.overall, h.last);
    forall k | k in h.rings ensures ClampHistory(h.rings[k], HISTORY_MAX) == h.rings[k] {
      ClampKeepsRing(h.rings[k], h.last);
    }
    assert ClampRings(h.rings) == h.rings;
  }

  lemma ClampCost(names: seq<string>)
    ensures Cost(ClampList(names)) <= Cost(names)
  {
    if |names| > FAILURE_LIST_MAX { CostPrefix(names, FAILURE_LIST_MAX); }
  }

  lemma NextIsSound(w: World, e: Event)
    requires Sound(w.hist)
    ensures Sound(After(w, e).hist)
    ensures e.Reconcile? ==>
      Persist(Step(w.hist, Look(e.input, w.mode))) == Clamped(Step(w.hist, Look(e.input, w.mode)))
  {
    hide Step, RingsOk, WithinShare, Persist, Clamped;
    if e.Reconcile? {
      var st := Step(w.hist, Look(e.input, w.mode));
      StepKeepsRings(w.hist, Look(e.input, w.mode));
      StepKeepsShares(w.hist, Look(e.input, w.mode));
      BudgetNeverTrims(st);
      StampIsAside(Clamped(st), w.hist.stamp);
    }
  }

  lemma StampIsAside(h: Hist, stamp: Option<Mode>)
    requires Sound(h)
    ensures Sound(h.(stamp := stamp))
  {
  }

  /** Every reachable ring is strictly increasing, ends by LastScanTime, and stays in bounds. */
  lemma {:induction false} RingsHold(w: World, es: seq<Event>)
    requires Sound(w.hist)
    ensures Sound(Run(w, es).hist)
    decreases |es|
  {
    if es != [] {
      NextIsSound(w, es[0]);
      RingsHold(After(w, es[0]), es[1..]);
    }
  }
}
