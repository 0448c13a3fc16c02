/**
  What one look stores, read off the cluster: which scan time it records, which score each ring's
  last point holds, and which earlier points every ring keeps.
*/
module HistoryPoints {
  import opened Options
  import opened Scores
  import opened HistoryModel
  import opened HistoryRuns

  // ---- the scan time ----

  /** A member scan that is over at a believable instant: from 1970 to an hour from now. */
  predicate Ended(m: Member, now: int) {
    m.done && m.end.Some? && 0 <= m.end.value <= now + 3600 * 1_000_000_000
  }

  /** The whole second a scan ended in. */
  function EndSecond(m: Member): int
    requires m.end.Some?
  {
    m.end.value / 1_000_000_000
  }

  predicate SuiteEnded(s: Suite, now: int) {
    s.done && s.members != [] && forall m :: m in s.members ==> Ended(m, now)
  }

  /** Every selected suite is over, with all its member scans. */
  predicate AllEnded(obs: Obs) {
    && obs.buckets != map[] && obs.suites.Some?
    && forall k :: k in obs.buckets ==> k in obs.suites.value && SuiteEnded(obs.suites.value[k], obs.now)
  }

  lemma EndedParses(m: Member, now: int)
    ensures m.done && ParseScanEnd(m.end, now).Some? <==> Ended(m, now)
    ensures Ended(m, now) ==> ParseScanEnd(m.end, now).value == EndSecond(m)
  {
  }

  /** lo and hi are the first and the last second in which one of the members ended. */
  ghost predicate Spans(members: seq<Member>, lo: int, hi: int) {
    && (forall m :: m in members ==> m.end.Some? && lo <= EndSecond(m) <= hi)
    && (exists m :: m in members && m.end.Some? && EndSecond(m) == lo)
    && (exists m :: m in members && m.end.Some? && EndSecond(m) == hi)
  }

  lemma {:induction false} MembersExactly(members: seq<Member>, now: int, acc: Option<Span>, before: seq<Member>)
    requires acc.Some? <==> before != []
    requires acc.Some? ==> Spans(before, acc.value.earliest, acc.value.latest)
    ensures before == [] && members == [] ==> MembersSpan(members, now, acc).None?
    ensures before + members != [] ==>
      (MembersSpan(members, now, acc).Some? <==> forall m :: m in members ==> Ended(m, now))
    ensures MembersSpan(members, now, acc).Some? ==>
      var g := MembersSpan(members, now, acc).value;
      Spans(before + members, g.earliest, g.latest)
    decreases |members|
  {
    hide ParseScanEnd, Ended, EndSecond;
    if members == [] {
      assert before + members == before;
    } else {
      var m := members[0];
      assert members == [m] + members[1..];
      EndedParses(m, now);
      if Ended(m, now) {
        assert m.end.Some? by { EndedHasEnd(m, now); }
        var more := Some(Widen(acc, EndSecond(m)));
        SpansMore(before, acc, m);
        MembersExactly(members[1..], now, more, before + [m]);
        assert before + members == (before + [m]) + members[1..];
      }
    }
  }

  lemma EndedHasEnd(m: Member, now: int)
    requires Ended(m, now)
    ensures m.end.Some?
  {
  }

  lemma SpansMore(before: seq<Member>, acc: Option<Span>, m: Member)
    requires m.end.Some? && (acc.Some? <==> before != [])
    requires acc.Some? ==> Spans(before, acc.value.earliest, acc.value.latest)
    ensures var g := Widen(acc, EndSecond(m));
      Spans(before + [m], g.earliest, g.latest)
  {
    hide EndSecond;
    assert m in before + [m];
    if acc.Some? {
      var lo :| lo in before && lo.end.Some? && EndSecond(lo) == acc.value.earliest;
      var hi :| hi in before && hi.end.Some? && EndSecond(hi) == acc.value.latest;
      assert lo in before + [m] && hi in before + [m];
    }
  }

  lemma SuiteExactly(s: Suite, now: int)
    ensures SuiteSpan(s, now).Some? <==> SuiteEnded(s, now)
    ensures SuiteSpan(s, now).Some? ==> Spans(s.members, SuiteSpan(s, now).value.earliest, SuiteSpan(s, now).value.latest)
  {
    hide Ended;
    MembersExactly(s.members, now, None, []);
    assert [] + s.members == s.members;
  }

  lemma CompleteExactly(obs: Obs)
    ensures Complete(obs) && obs.buckets != map[] <==> AllEnded(obs)
  {
    hide SuiteSpan, SuiteEnded;
    if obs.suites.Some? {
      forall k | k in obs.buckets && k in obs.suites.value
        ensures SuiteSpan(obs.suites.value[k], obs.now).Some? <==> SuiteEnded(obs.suites.value[k], obs.now)
      {
        SuiteExactly(obs.suites.value[k], obs.now);
      }
    }
  }

  /** A member of a selected suite. */
  ghost predicate Selected(obs: Obs, k: Key, m: Member) {
    k in obs.buckets && obs.suites.Some? && k in obs.suites.value && m in obs.suites.value[k].members
  }

  lemma SelectedWithin(obs: Obs, k: Key)
    requires Complete(obs) && k in obs.buckets
    ensures var p := SpanOf(obs, k);
      && (forall m :: Selected(obs, k, m) ==> m.end.Some? && p.earliest <= EndSecond(m) <= p.latest)
      && (exists m :: Selected(obs, k, m) && m.end.Some? && EndSecond(m) == p.earliest)
      && (exists m :: Selected(obs, k, m) && m.end.Some? && EndSecond(m) == p.latest)
  {
    hide SuiteSpan, EndSecond, SuiteEnded;
    SuiteExactly(obs.suites.value[k], obs.now);
    var p, members := SpanOf(obs, k), obs.suites.value[k].members;
    var lo :| lo in members && lo.end.Some? && EndSecond(lo) == p.earliest;
    var hi :| hi in members && hi.end.Some? && EndSecond(hi) == p.latest;
    assert Selected(obs, k, lo) && Selected(obs, k, hi);
  }

  /** A generation is recorded if and only if every selected suite is over; its ends are the first and last second of any member. */
  lemma GenerationExactly(obs: Obs)
    ensures Generation(obs).Some? <==> AllEnded(obs)
    ensures Generation(obs).Some? ==>
      var g := Generation(obs).value;
      && (forall k, m :: Selected(obs, k, m) ==> m.end.Some? && g.earliest <= EndSecond(m) <= g.latest)
      && (exists k, m :: Selected(obs, k, m) && m.end.Some? && EndSecond(m) == g.earliest)
      && (exists k, m :: Selected(obs, k, m) && m.end.Some? && EndSecond(m) == g.latest)
  {
    hide SuiteSpan, SuiteEnded, EndSecond, AllEnded, Selected;
    CompleteExactly(obs);
    if Generation(obs).Some? {
      var g := Generation(obs).value;
      var a :| a in obs.buckets && SpanOf(obs, a).earliest == g.earliest;
      var b :| b in obs.buckets && SpanOf(obs, b).latest == g.latest;
      SelectedWithin(obs, a);
      SelectedWithin(obs, b);
      forall k, m | Selected(obs, k, m) ensures m.end.Some? && g.earliest <= EndSecond(m) <= g.latest {
        SelectedIs(obs, k, m);
        SelectedWithin(obs, k);
      }
    }
  }

  lemma SelectedIs(obs: Obs, k: Key, m: Member)
    requires Selected(obs, k, m)
    ensures k in obs.buckets
  {
  }

  /** Every member of every selected suite ended in a second after t. */
  ghost predicate AllAfter(obs: Obs, t: int)
  {
    forall k, m :: Selected(obs, k, m) ==> m.end.Some? && EndSecond(m) > t
  }

  /** LastScanTime moves to the newest member's second exactly when there was none or every member ended after it. */
  lemma ScanTimeExactly(st: Hist, obs: Obs)
    ensures var r := Step(st, Seen(obs));
      if !AllEnded(obs) then r.last == st.last
      else if st.last.None? || AllAfter(obs, st.last.value) then
        Generation(obs).Some? && r.last == Some(Generation(obs).value.latest)
      else r.last == st.last
  {
    hide SuiteSpan, SyncRings, SyncSnapshot, EmptyRings, Diff, TrimToShare, AllEnded, EndSecond, Covers, Selected;
    GenerationExactly(obs);
    if AllEnded(obs) {
      Endless(obs);
      var g := Generation(obs).value;
      if st.last.Some? {
        assert AllAfter(obs, st.last.value) <==> g.earliest > st.last.value;
      }
    }
  }

  lemma Endless(obs: Obs)
    requires AllEnded(obs)
    ensures obs.buckets != map[] && obs.suites.Some?
  {
  }

  // ---- the points ----

  /** The ring without its point at t. */
  function Earlier(ring: seq<Snap>, t: int): seq<Snap> {
    if ring != [] && ring[|ring| - 1].time == t then ring[..|ring| - 1] else ring
  }

  /**
    ring became r when scan t was recorded with p passes and f failures, or their weights: the point
    at t holds their percentage, or is missing when nothing is countable, and the earlier points
    stay, the oldest of thirty making room for a new one.
  */
  ghost predicate Records(ring: seq<Snap>, r: seq<Snap>, t: int, mode: Mode, p: int, f: int) {
    var n := |r|;
    if p >= 0 && f >= 0 && 0 < p + f <= 0x7FFF_FFFF_FFFF_FFFF then
      && n > 0 && r[n - 1].time == t && r[n - 1].mode == mode
      && r[n - 1].score * (p + f) <= 100 * p < (r[n - 1].score + 1) * (p + f)
      && r[..n - 1] == (if |Earlier(ring, t)| == 30 then Earlier(ring, t)[1..] else Earlier(ring, t))
    else r == Earlier(ring, t) && forall i :: 0 <= i < n ==> r[i].time != t
  }

  lemma SyncRecords(ring: seq<Snap>, last: Option<int>, t: nat, p: int, f: int, mode: Mode)
    requires RingOk(ring, last) && (last.Some? ==> last.value <= t)
    ensures Records(ring, SyncSnapshot(ring, t, Score64(p, f), mode), t, mode, p, f)
  {
    var s := Score64(p, f);
    if s.None? {
      var n := |ring|;
      assert n > 0 && ring[n - 1].time == t ==> forall i :: 0 <= i < n - 1 ==> ring[i].time < ring[n - 1].time;
      assert n > 0 && ring[n - 1].time != t ==> forall i :: 0 <= i < n - 1 ==> ring[i].time < ring[n - 1].time <= t;
    } else {
      SyncScored(ring, last, t, s.value, mode);
    }
  }

  /**
    The clamp keeps the newest points, forces each score into 0 to 100 from its own side, and moves
    Go's zero time to the epoch; nothing else changes.
  */
  lemma ClampExactly(list: seq<Snap>, max: nat, i: nat)
    ensures var r := ClampHistory(list, max);
      && |r| == (if max > 0 && |list| > max then max else |list|)
      && (i < |r| ==>
            var p, q := list[|list| - |r| + i], r[i];
            && q.score == (if p.score < 0 then 0 else if p.score > 100 then 100 else p.score)
            && q.time == (if p.time == -62_135_596_800 then 0 else p.time) && q.mode == p.mode)
  {
  }

  /** Trimming sound points only drops the oldest. */
  lemma ClampSound(list: seq<Snap>)
    requires forall i :: 0 <= i < |list| ==> 0 <= list[i].score <= 100 && list[i].time >= 0
    ensures ClampHistory(list, 30) == if |list| > 30 then list[|list| - 30..] else list
  {
    var kept := if |list| > 30 then list[|list| - 30..] else list;
    assert RepairAll(kept) == kept;
  }

  lemma SyncScored(ring: seq<Snap>, last: Option<int>, t: nat, s: int, mode: Mode)
    requires RingOk(ring, last) && (last.Some? ==> last.value <= t) && 0 <= s <= 100
    ensures var r, e := SyncSnapshot(ring, t, Some(s), mode), Earlier(ring, t);
      r == (if |e| == 30 then e[1..] else e) + [Snap(t, s, mode)]
  {
    hide ClampHistory;
    var e, n := Earlier(ring, t), |ring|;
    var grown := e + [Snap(t, s, mode)];
    if n > 0 && ring[n - 1].time == t {
      assert ring[n - 1 := Snap(t, s, mode)] == grown;
    }
    assert forall i :: 0 <= i < |e| ==> e[i] == ring[i];
    ClampSound(grown);
    assert |e| == 30 ==> grown[1..] == e[1..] + [Snap(t, s, mode)];
  }

  /** The ring a selected profile had before the look, empty when it was not selected. */
  function RingBefore(st: Hist, k: Key): seq<Snap> {
    if k in st.rings then st.rings[k] else []
  }

  /** A scan is recorded at g.latest: a new one, or late results for the last one in its own mode. */
  predicate RecordsAt(st: Hist, obs: Obs, g: Span) {
    || st.last.None? || g.earliest > st.last.value
    || (g.latest == st.last.value && ModeMatches(st.stamp, obs.mode))
  }

  /**
    After a look every selected profile has a ring. When the look records a scan at t, its point
    there is the floored percentage of the bucket's passes, or of its weighted passes in the weighted
    mode, and all earlier points stay unless the rings are of the other mode, in which case they are
    dropped. When it records none, the ring is the one before.
  */
  lemma RingsExactly(st: Hist, obs: Obs, k: Key)
    requires RingsOk(st) && k in obs.buckets
    ensures var r := Step(st, Seen(obs));
      k in r.rings && r.rings.Keys == obs.buckets.Keys
    ensures var r, b := Step(st, Seen(obs)), obs.buckets[k];
      if Generation(obs).Some? && RecordsAt(st, obs, Generation(obs).value) then
        var t := Generation(obs).value.latest;
        Records(if ModeMatches(st.stamp, obs.mode) then RingBefore(st, k) else [], r.rings[k], t, obs.mode,
                if obs.mode == Flat then b.pass else b.wPass, if obs.mode == Flat then b.fail else b.wFail)
      else r.rings[k] == RingBefore(st, k)
  {
    hide SyncSnapshot, RingOk, Records, Score64, Step, RecordsAt, Generation;
    StepRings(st, obs, k);
    var g := Generation(obs);
    EmptyRing(st.last);
    if g.Some? && RecordsAt(st, obs, g.value) {
      var b := obs.buckets[k];
      var p, f := if obs.mode == Flat then b.pass else b.wPass, if obs.mode == Flat then b.fail else b.wFail;
      assert BucketScore(b, obs.mode) == Score64(p, f);
      RecordsLater(st, obs);
      SyncRecords(RingBefore(st, k), st.last, g.value.latest, p, f, obs.mode);
      EmptyRing(None);
      SyncRecords([], None, g.value.latest, p, f, obs.mode);
    }
  }

  lemma RecordsLater(st: Hist, obs: Obs)
    requires Generation(obs).Some? && RecordsAt(st, obs, Generation(obs).value)
    ensures Generation(obs).value.latest >= 0
    ensures st.last.Some? ==> st.last.value <= Generation(obs).value.latest
  {
    SpanIsOrdered(obs);
  }

  lemma RefreshRing(st: Hist, t: int, obs: Obs, fails: seq<string>, k: Key)
    requires k in st.rings && k in obs.buckets
    ensures var r := Refresh(st, t, obs, fails);
      && r.rings.Keys == st.rings.Keys
      && r.rings[k] == if ModeMatches(st.stamp, obs.mode)
                       then SyncSnapshot(st.rings[k], t, BucketScore(obs.buckets[k], obs.mode), obs.mode) else st.rings[k]
  {
    hide SyncSnapshot, Diff, BucketScore;
  }

  lemma AdvanceRing(st: Hist, t: int, obs: Obs, fails: seq<string>, k: Key)
    requires k in st.rings && k in obs.buckets
    ensures var r := Advance(st, t, obs, fails);
      && r.rings.Keys == st.rings.Keys
      && r.rings[k] == SyncSnapshot(if ModeMatches(st.stamp, obs.mode) then st.rings[k] else [],
                                    t, BucketScore(obs.buckets[k], obs.mode), obs.mode)
  {
    hide SyncSnapshot, Diff, BucketScore;
  }

  lemma RecordRing(st: Hist, obs: Obs, k: Key)
    requires k in st.rings && k in obs.buckets
    ensures var r := Record(st, obs);
      && r.rings.Keys == st.rings.Keys
      && r.rings[k] == if Generation(obs).Some? && RecordsAt(st, obs, Generation(obs).value)
                       then SyncSnapshot(if ModeMatches(st.stamp, obs.mode) then st.rings[k] else [],
                                         Generation(obs).value.latest, BucketScore(obs.buckets[k], obs.mode), obs.mode)
                       else st.rings[k]
  {
    hide SyncSnapshot, Generation, TrimToShare, Refresh, Advance, BucketScore;
    if Generation(obs).Some? {
      SpanIsOrdered(obs);
      var t := Generation(obs).value.latest;
      RefreshRing(st, t, obs, TrimToShare(obs.fails), k);
      AdvanceRing(st, t, obs, TrimToShare(obs.fails), k);
    }
  }

  lemma StepRings(st: Hist, obs: Obs, k: Key)
    requires k in obs.buckets
    ensures var r := Step(st, Seen(obs));
      k in r.rings && r.rings.Keys == obs.buckets.Keys
    ensures var r := Step(st, Seen(obs));
      if Generation(obs).Some? && RecordsAt(st, obs, Generation(obs).value) then
        r.rings[k] == SyncSnapshot(if ModeMatches(st.stamp, obs.mode) then RingBefore(st, k) else [],
                                   Generation(obs).value.latest, BucketScore(obs.buckets[k], obs.mode), obs.mode)
      else r.rings[k] == RingBefore(st, k)
  {
    hide SyncSnapshot, Generation, Record, BucketScore, ModeMatches;
    assert obs.buckets != map[];
    RecordRing(st.(rings := Rebuild(st.rings, obs.buckets)), obs, k);
  }

  lemma SpanIsOrdered(obs: Obs)
    requires Generation(obs).Some?
    ensures Generation(obs).value.earliest <= Generation(obs).value.latest
  {
    hide EndSecond, AllEnded, Selected;
    GenerationExactly(obs);
  }

  /** The overall ring records the rollup's score in the same way. */
  lemma OverallExactly(st: Hist, obs: Obs)
    requires RingsOk(st) && obs.buckets != map[] && (obs.score.Some? ==> 0 <= obs.score.value <= 100)
    ensures var r := Step(st, Seen(obs));
      if Generation(obs).Some? && RecordsAt(st, obs, Generation(obs).value) then
        var t := Generation(obs).value.latest;
        var e := Earlier(if ModeMatches(st.stamp, obs.mode) then st.overall else [], t);
        r.overall == (if obs.score.None? then e
                      else (if |e| == 30 then e[1..] else e) + [Snap(t, obs.score.value, obs.mode)])
      else r.overall == st.overall
  {
    hide SyncSnapshot, RingOk, Covers, Complete, TrimToShare, Diff, Earlier, SyncRings;
    EmptyRing(None);
    var g := Generation(obs);
    if g.Some? && RecordsAt(st, obs, g.value) {
      SpanIsOrdered(obs);
      Unscored(st.overall, g.value.latest, obs.mode);
      Unscored([], g.value.latest, obs.mode);
      if obs.score.Some? {
        SyncScored(st.overall, st.last, g.value.latest, obs.score.value, obs.mode);
        SyncScored([], None, g.value.latest, obs.score.value, obs.mode);
      }
    }
  }

  lemma Unscored(ring: seq<Snap>, t: int, mode: Mode)
    ensures SyncSnapshot(ring, t, None, mode) == Earlier(ring, t)
  {
  }
}
