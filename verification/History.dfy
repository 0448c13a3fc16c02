/** Percentage scores: floor(pass * 100 / (pass + fail)), or none when nothing is countable. */
module Scores {
  import opened Options

  const MAX_INT64: int := 0x7FFF_FFFF_FFFF_FFFF

  function Score64(pass: int, fail: int): (s: Option<int>)
    ensures s.Some? ==> 0 <= s.value <= 100
    ensures s.Some? <==> pass >= 0 && fail >= 0 && 0 < pass + fail <= MAX_INT64
    ensures s.Some? ==> s.value * (pass + fail) <= pass * 100 < (s.value + 1) * (pass + fail)
  {
    if pass < 0 || fail < 0 || pass + fail > MAX_INT64 || pass + fail == 0 then None
    else
      var total := pass + fail;
      var q := pass * 100 / total;
      assert pass * 100 == q * total + pass * 100 % total;
      assert 0 <= q <= 100 by { Quotient(pass, total, q, pass * 100 % total); }
      Some(q)
  }

  lemma Quotient(pass: int, total: int, q: int, r: int)
    requires 0 <= pass <= total && 0 < total && 0 <= r < total && pass * 100 == q * total + r
    ensures 0 <= q <= 100
  {
    assert q < 0 ==> q * total <= -total;
    assert q > 100 ==> q * total >= 101 * total;
  }
}

/**
  Scan history: what one reconcile's look at the cluster does to the stored scan time, the
  score rings, the failure snapshots and the scoring-mode stamp.
*/
module HistoryModel {
  import opened Options
  import opened Text
  import opened Scores

  const HISTORY_MAX: nat := 30
  const FAILURE_LIST_MAX: nat := 4096
  const SHARE_BUDGET: nat := 768 * 1024 / 4
  const SECOND: int := 1_000_000_000
  const SKEW: int := 3600 * SECOND

  datatype Mode = Flat | Weighted

  /** One ring point. mode is the formula its score came from; the stored point does not carry it. */
  datatype Snap = Snap(time: int, score: int, mode: Mode)

  /** A selected built-in or tailored profile, which is also its suite's key. */
  datatype Key = Profile(key: string) | Tailored(name: string)

  datatype Bucket = Bucket(pass: nat, fail: nat, wPass: nat, wFail: nat)

  /** A member scan's phase and its parsed end timestamp in nanoseconds, if readable. */
  datatype Member = Member(done: bool, end: Option<int>)
  datatype Suite = Suite(done: bool, members: seq<Member>)

  /** What a reconcile saw: its mode, rollup score, failing names, buckets and, if listed, the suites. */
  datatype Obs = Obs(
    mode: Mode, score: Option<int>, fails: seq<string>, buckets: map<Key, Bucket>,
    suites: Option<map<Key, Suite>>, now: int)

  datatype Hist = Hist(
    last: Option<int>, overall: seq<Snap>, rings: map<Key, seq<Snap>>,
    previous: seq<string>, diffBase: seq<string>, diffBaseTime: Option<int>,
    newly: seq<string>, fixed: seq<string>, stamp: Option<Mode>)

  // ---- completed generations ----

  /** Far-future and pre-epoch ends are rejected; the rest is truncated to whole seconds. */
  function ParseScanEnd(end: Option<int>, now: int): (t: Option<int>)
    ensures t.Some? ==> t.value >= 0
  {
    if end.None? || end.value > now + SKEW || end.value < 0 then None else Some(end.value / SECOND)
  }

  datatype Span = Span(earliest: int, latest: int)

  function Min(a: int, b: int): int { if a < b then a else b }
  function Max(a: int, b: int): int { if a > b then a else b }

  function Widen(s: Option<Span>, t: int): Span {
    if s.None? then Span(t, t) else Span(Min(s.value.earliest, t), Max(s.value.latest, t))
  }

  /** The members' completion range when every one is done with a usable end. */
  function MembersSpan(members: seq<Member>, now: int, acc: Option<Span>): (r: Option<Span>)
    ensures (acc.Some? ==> acc.value.latest >= 0) && r.Some? ==> r.value.latest >= 0
    decreases |members|
  {
    if members == [] then acc
    else if !members[0].done || ParseScanEnd(members[0].end, now).None? then None
    else MembersSpan(members[1..], now, Some(Widen(acc, ParseScanEnd(members[0].end, now).value)))
  }

  function SuiteSpan(s: Suite, now: int): Option<Span> {
    if !s.done then None else MembersSpan(s.members, now, None)
  }

  predicate Complete(obs: Obs) {
    && obs.suites.Some?
    && (forall k :: k in obs.buckets ==>
          k in obs.suites.value && SuiteSpan(obs.suites.value[k], obs.now).Some?)
  }

  function SpanOf(obs: Obs, k: Key): Span
    requires Complete(obs) && k in obs.buckets
  {
    SuiteSpan(obs.suites.value[k], obs.now).value
  }

  /** g covers every selected suite: its ends are the least start and the greatest end. */
  ghost predicate Covers(obs: Obs, g: Span)
    requires Complete(obs)
  {
    && (forall k :: k in obs.buckets ==> g.earliest <= SpanOf(obs, k).earliest && SpanOf(obs, k).latest <= g.latest)
    && (exists k :: k in obs.buckets && SpanOf(obs, k).earliest == g.earliest)
    && (exists k :: k in obs.buckets && SpanOf(obs, k).latest == g.latest)
  }

  /** The range of a fully completed generation of a non-empty selection. */
  ghost function Generation(obs: Obs): (g: Option<Span>)
    ensures g.Some? <==> Complete(obs) && obs.buckets != map[]
    ensures g.Some? ==> Covers(obs, g.value) && g.value.latest >= 0
  {
    if !Complete(obs) || obs.buckets == map[] then None
    else
      var lo := Least(obs, obs.buckets.Keys);
      var hi := Greatest(obs, obs.buckets.Keys);
      assert Covers(obs, Span(lo, hi));
      Some(Span(lo, hi))
  }

  ghost function Least(obs: Obs, ks: set<Key>): (t: int)
    requires Complete(obs) && ks != {} && ks <= obs.buckets.Keys
    ensures forall k :: k in ks ==> t <= SpanOf(obs, k).earliest
    ensures exists k :: k in ks && SpanOf(obs, k).earliest == t
    decreases |ks|
  {
    var k :| k in ks;
    if ks == {k} then SpanOf(obs, k).earliest
    else
      assert ks - {k} != {};
      Min(SpanOf(obs, k).earliest, Least(obs, ks - {k}))
  }

  ghost function Greatest(obs: Obs, ks: set<Key>): (t: int)
    requires Complete(obs) && ks != {} && ks <= obs.buckets.Keys
    ensures forall k :: k in ks ==> SpanOf(obs, k).latest <= t
    ensures exists k :: k in ks && SpanOf(obs, k).latest == t
    decreases |ks|
  {
    var k :| k in ks;
    if ks == {k} then SpanOf(obs, k).latest
    else
      assert ks - {k} != {};
      Max(SpanOf(obs, k).latest, Greatest(obs, ks - {k}))
  }

  lemma CoversUnique(obs: Obs, a: Span, b: Span)
    requires Complete(obs) && Covers(obs, a) && Covers(obs, b)
    ensures a == b
  {
  }

  // ---- rings ----

  function ClampScore(s: int): int {
    if s < 0 then 0 else if s > 100 then 100 else s
  }

  /** Go's zero time, in seconds. */
  const ZERO_TIME: int := -62_135_596_800

  /** A score outside 0..100 is forced in, and a zero time becomes the epoch. */
  function Repaired(p: Snap): Snap {
    p.(score := ClampScore(p.score), time := if p.time == ZERO_TIME then 0 else p.time)
  }

  function RepairAll(hist: seq<Snap>): (r: seq<Snap>)
    ensures |r| == |hist|
    ensures forall i :: 0 <= i < |hist| ==> r[i] == Repaired(hist[i])
  {
    seq(|hist|, i requires 0 <= i < |hist| => Repaired(hist[i]))
  }

  /** The newest max points, each repaired. */
  function ClampHistory(hist: seq<Snap>, max: nat): seq<Snap> {
    RepairAll(if max > 0 && |hist| > max then hist[|hist| - max..] else hist)
  }

  function AppendRing(hist: seq<Snap>, p: Snap, max: nat): seq<Snap> {
    ClampHistory(hist + [p], max)
  }

  /** Refresh the point of the same scan, append a new scan's first point, or drop a vanished one. */
  function SyncSnapshot(hist: seq<Snap>, t: int, s: Option<int>, mode: Mode): seq<Snap> {
    var n := |hist|;
    if n > 0 && hist[n - 1].time == t then
      if s.None? then hist[..n - 1]
      else ClampHistory(hist[n - 1 := Snap(t, s.value, mode)], HISTORY_MAX)
    else if s.None? then hist
    else AppendRing(hist, Snap(t, s.value, mode), HISTORY_MAX)
  }

  function BucketScore(b: Bucket, mode: Mode): Option<int> {
    if mode == Weighted then Score64(b.wPass, b.wFail) else Score64(b.pass, b.fail)
  }

  function SyncRings(rings: map<Key, seq<Snap>>, t: int, obs: Obs): map<Key, seq<Snap>> {
    map k | k in rings ::
      SyncSnapshot(rings[k], t, if k in obs.buckets then BucketScore(obs.buckets[k], obs.mode) else None, obs.mode)
  }

  // ---- failure differences ----

  /** The members of a not in b, sorted, each once. */
  function Diff(a: seq<string>, b: seq<string>): (r: seq<string>)
    ensures StrictlySorted(r)
    ensures forall x :: x in r <==> x in a && x !in b
    ensures |r| <= |a|
  {
    if a == [] then []
    else
      var rest := Diff(a[1..], b);
      assert a == [a[0]] + a[1..];
      InsertLength(a[0], rest);
      if a[0] in b then rest else Insert(a[0], rest)
  }

  /** Bytes a name takes in the serialized list: its ASCII characters, two quotes and a comma. */
  function Cost(names: seq<string>): nat {
    if names == [] then 0 else Cost(names[..|names| - 1]) + |names[|names| - 1]| + 3
  }

  /** The longest prefix within one list's share of the size budget. */
  function TrimToShare(names: seq<string>): (r: seq<string>)
    ensures r <= names && Cost(r) <= SHARE_BUDGET
    ensures Cost(names) <= SHARE_BUDGET ==> r == names
  {
    if Cost(names) <= SHARE_BUDGET then names else TrimToShare(names[..|names| - 1])
  }

  // ---- recording ----

  predicate ModeMatches(stamp: Option<Mode>, mode: Mode) {
    stamp.None? || stamp.value == mode
  }

  /** Late results for the scan already recorded. */
  function Refresh(st: Hist, t: int, obs: Obs, fails: seq<string>): Hist {
    var st1 :=
      if ModeMatches(st.stamp, obs.mode)
      then st.(overall := SyncSnapshot(st.overall, t, obs.score, obs.mode),
               rings := SyncRings(st.rings, t, obs), stamp := Some(obs.mode))
      else st;
    var st2 :=
      if st.diffBaseTime == Some(t)
      then st1.(newly := Diff(fails, st.diffBase), fixed := Diff(st.diffBase, fails))
      else st1;
    st2.(previous := fails)
  }

  function EmptyRings(rings: map<Key, seq<Snap>>): map<Key, seq<Snap>> {
    map k | k in rings :: []
  }

  /** A newly completed scan. */
  function Advance(st: Hist, t: int, obs: Obs, fails: seq<string>): Hist {
    var overall := if ModeMatches(st.stamp, obs.mode) then st.overall else [];
    var rings := if ModeMatches(st.stamp, obs.mode) then st.rings else EmptyRings(st.rings);
    var had := st.last.Some?;
    Hist(Some(t), SyncSnapshot(overall, t, obs.score, obs.mode), SyncRings(rings, t, obs),
         fails, if had then st.previous else [], if had then Some(t) else None,
         if had then Diff(fails, st.previous) else [], if had then Diff(st.previous, fails) else [],
         Some(obs.mode))
  }

  datatype Kind = Nothing | Late(t: int) | Next(t: int)

  /** What a completed generation means for a stored scan time. */
  function KindOf(last: Option<int>, g: Span): Kind {
    if last.Some? && g.latest <= last.value then
      if g.latest == last.value then Late(g.latest) else Nothing
    else if last.Some? && g.earliest <= last.value then Nothing
    else Next(g.latest)
  }

  ghost function Record(st: Hist, obs: Obs): Hist {
    var g := Generation(obs);
    if g.None? then st
    else
      match KindOf(st.last, g.value)
      case Nothing => st
      case Late(t) => Refresh(st, t, obs, TrimToShare(obs.fails))
      case Next(t) => Advance(st, t, obs, TrimToShare(obs.fails))
  }

  /** Per-profile rings survive the rebuild of the profile lists, keyed by profile. */
  function Rebuild(rings: map<Key, seq<Snap>>, buckets: map<Key, Bucket>): map<Key, seq<Snap>> {
    map k | k in buckets :: if k in rings then rings[k] else []
  }

  /** One aggregation: compliance CRDs absent, or a look at the results. */
  datatype Input = Absent | Seen(obs: Obs)

  ghost function Step(st: Hist, input: Input): Hist {
    match input
    case Absent => Hist(None, [], map[], [], [], None, [], [], st.stamp)
    case Seen(obs) =>
      var st1 := st.(rings := Rebuild(st.rings, obs.buckets));
      if obs.buckets == map[] then st1.(newly := [], fixed := []) else Record(st1, obs)
  }
}
