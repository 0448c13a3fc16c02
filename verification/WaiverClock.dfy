/**
  Waivers in time: which are active, which expire soon, and when the console's timer or the
  operator's poll must look again. Console instants are milliseconds, the operator's nanoseconds.
*/
module WaiverClock {
  import opened Options

  const MAX_TIMEOUT: int := 2_147_483_647
  const PAD: int := 25

  /** An expiry as read: none, unreadable, or an instant. */
  datatype Expiry = Never | Unreadable | At(ms: int)

  datatype Waiver = Waiver(name: string, expiry: Expiry)

  predicate Expired(w: Waiver, now: int) {
    w.expiry.Unreadable? || (w.expiry.At? && w.expiry.ms <= now)
  }

  /** The names of the active waivers. */
  function ActiveNames(waivers: seq<Waiver>, now: int): set<string> {
    set w | w in waivers && w.name != "" && !Expired(w, now) :: w.name
  }

  /** A waiver of this name that never expires, or expires later than now; an unreadable expiry is none of both. */
  ghost predicate Held(name: string, waivers: seq<Waiver>, now: int) {
    name != "" && exists w :: w in waivers && w.name == name && (w.expiry.Never? || (w.expiry.At? && w.expiry.ms > now))
  }

  lemma ActiveExactly(waivers: seq<Waiver>, now: int)
    ensures forall n :: n in ActiveNames(waivers, now) <==> Held(n, waivers, now)
  {
  }

  method ActiveWaivedNames(waivers: seq<Waiver>, now: int) returns (names: set<string>)
    ensures names == ActiveNames(waivers, now)
    ensures forall n :: n in names <==> Held(n, waivers, now)
  {
    ActiveExactly(waivers, now);
    names := {};
    for i := 0 to |waivers|
      invariant forall n :: n in names <==> exists k :: 0 <= k < i && waivers[k].name == n != "" && !Expired(waivers[k], now)
    {
      if waivers[i].name != "" && !Expired(waivers[i], now) {
        names := names + {waivers[i].name};
      }
    }
    forall n ensures n in names <==> n in ActiveNames(waivers, now) {
      if n in ActiveNames(waivers, now) {
        var w :| w in waivers && w.name == n && w.name != "" && !Expired(w, now);
        var k :| 0 <= k < |waivers| && waivers[k] == w;
      }
    }
  }

  /** A check is waived when any entry of its name is active, as in the active set. */
  method IsWaived(name: string, waivers: seq<Waiver>, now: int) returns (r: bool)
    ensures r <==> name in ActiveNames(waivers, now)
    ensures r <==> Held(name, waivers, now)
  {
    ActiveExactly(waivers, now);
    if name == "" { return false; }
    for i := 0 to |waivers|
      invariant forall k :: 0 <= k < i ==> waivers[k].name != name || Expired(waivers[k], now)
    {
      if waivers[i].name != name { continue; }
      if !Expired(waivers[i], now) { return true; }
    }
    r := false;
  }

  /** An expiry still ahead of now. */
  function FutureExpiry(w: Waiver, now: int): Option<int> {
    if w.expiry.At? && w.expiry.ms > now then Some(w.expiry.ms) else None
  }

  predicate Soon(w: Waiver, within: int, now: int) {
    FutureExpiry(w, now).Some? && FutureExpiry(w, now).value <= now + within
  }

  function Expiring(waivers: seq<Waiver>, within: int, now: int): seq<Waiver> {
    if waivers == [] then []
    else (if Soon(waivers[0], within, now) then [waivers[0]] else []) + Expiring(waivers[1..], within, now)
  }

  lemma {:induction false} ExpiringConcat(a: seq<Waiver>, b: seq<Waiver>, within: int, now: int)
    ensures Expiring(a + b, within, now) == Expiring(a, within, now) + Expiring(b, within, now)
    decreases |a|
  {
    if a == [] {
      assert a + b == b;
    } else {
      assert (a + b)[1..] == a[1..] + b;
      ExpiringConcat(a[1..], b, within, now);
    }
  }

  /** The expiring-soon list keeps, in order, exactly the waivers with a readable expiry ahead by no more than the window. */
  lemma ExpiringExactly(before: seq<Waiver>, w: Waiver, after: seq<Waiver>, within: int, now: int)
    ensures Expiring(before + [w] + after, within, now)
         == Expiring(before, within, now)
            + (if w.expiry.At? && now < w.expiry.ms <= now + within then [w] else [])
            + Expiring(after, within, now)
    ensures Expiring([], within, now) == []
  {
    ExpiringConcat(before + [w], after, within, now);
    ExpiringConcat(before, [w], within, now);
    assert [w][1..] == [];
  }

  // ---- deadlines ----

  /** t is an instant the clock must look at again: a future expiry, or one of its future offsets. */
  predicate Deadline(waivers: seq<Waiver>, now: int, offsets: seq<int>, t: int) {
    t > now && exists w :: w in waivers && FutureExpiry(w, now).Some?
                           && (t == w.expiry.ms || (t - w.expiry.ms) in offsets)
  }

  method FutureWaiverDeadlines(waivers: seq<Waiver>, now: int, offsets: seq<int>) returns (out: seq<int>)
    ensures forall t :: t in out <==> Deadline(waivers, now, offsets, t)
  {
    out := [];
    for i := 0 to |waivers|
      invariant forall t :: t in out <==> Deadline(waivers[..i], now, offsets, t)
    {
      assert waivers[..i + 1] == waivers[..i] + [waivers[i]];
      var t := FutureExpiry(waivers[i], now);
      if t.None? {
        DeadlinesOfMore(waivers[..i], waivers[i], now, offsets);
        continue;
      }
      ghost var before := out;
      out := out + [t.value];
      for j := 0 to |offsets|
        invariant forall d :: d in out <==> d in before || d == t.value || (d > now && (d - t.value) in offsets[..j])
      {
        assert offsets[..j + 1] == offsets[..j] + [offsets[j]];
        var d := t.value + offsets[j];
        if d > now { out := out + [d]; }
      }
      assert offsets[..|offsets|] == offsets;
      DeadlinesOfMore(waivers[..i], waivers[i], now, offsets);
    }
    assert waivers[..|waivers|] == waivers;
  }

  lemma DeadlinesOfMore(waivers: seq<Waiver>, w: Waiver, now: int, offsets: seq<int>)
    ensures forall t :: Deadline(waivers + [w], now, offsets, t) <==>
      Deadline(waivers, now, offsets, t)
      || (FutureExpiry(w, now).Some? && t > now && (t == w.expiry.ms || (t - w.expiry.ms) in offsets))
  {
    forall t | Deadline(waivers + [w], now, offsets, t) && !Deadline(waivers, now, offsets, t)
      ensures FutureExpiry(w, now).Some? && (t == w.expiry.ms || (t - w.expiry.ms) in offsets)
    {
      var v :| v in waivers + [w] && FutureExpiry(v, now).Some? && (t == v.expiry.ms || (t - v.expiry.ms) in offsets);
      assert v in waivers || v == w;
    }
    forall t | FutureExpiry(w, now).Some? && t > now && (t == w.expiry.ms || (t - w.expiry.ms) in offsets)
      ensures Deadline(waivers + [w], now, offsets, t)
    {
      assert w in waivers + [w];
    }
    forall t | Deadline(waivers, now, offsets, t) ensures Deadline(waivers + [w], now, offsets, t) {
      var v :| v in waivers && FutureExpiry(v, now).Some? && (t == v.expiry.ms || (t - v.expiry.ms) in offsets);
      assert v in waivers + [w];
    }
  }

  /** s is the soonest of the deadlines ahead. */
  ghost predicate Soonest(deadlines: seq<int>, now: int, s: int) {
    s in deadlines && s > now && forall t :: t in deadlines && t > now ==> s <= t
  }

  /** 25 ms more than the distance, and at most the longest timer there is. */
  function Delay(now: int, soonest: int): (d: int)
    ensures now <= soonest && soonest - now + 25 <= 2_147_483_647 ==> d == soonest - now + 25
    ensures soonest - now + 25 > 2_147_483_647 ==> d == 2_147_483_647
  {
    var d := soonest - now + PAD;
    var padded := if d < PAD then PAD else d;
    if padded > MAX_TIMEOUT then MAX_TIMEOUT else padded
  }

  /** Zero serves as "no deadline", which is sound from the epoch on. */
  method SoonestDeadlineDelay(now: int, deadlines: seq<int>) returns (delay: int)
    requires now >= 0
    ensures delay == 0 <==> forall t :: t in deadlines ==> t <= now
    ensures delay != 0 ==> exists s :: Soonest(deadlines, now, s) && delay == Delay(now, s)
  {
    var soonest := 0;
    for i := 0 to |deadlines|
      invariant soonest == 0 ==> forall t :: t in deadlines[..i] ==> t <= now
      invariant soonest != 0 ==> Soonest(deadlines[..i], now, soonest)
    {
      assert deadlines[..i + 1] == deadlines[..i] + [deadlines[i]];
      var t := deadlines[i];
      if t <= now { continue; }
      if soonest == 0 || t < soonest { soonest := t; }
    }
    assert deadlines[..|deadlines|] == deadlines;
    if soonest == 0 { return 0; }
    assert Soonest(deadlines, now, soonest);
    delay := Delay(now, soonest);
  }

  // ---- nothing changes before the soonest deadline ----

  /** No deadline lies after now and up to t. */
  ghost predicate Quiet(waivers: seq<Waiver>, offsets: seq<int>, now: int, t: int) {
    forall d :: Deadline(waivers, now, offsets, d) ==> t < d
  }

  lemma ExpiryUnchanged(waivers: seq<Waiver>, offsets: seq<int>, w: Waiver, within: int, now: int, t: int)
    requires w in waivers && now <= t && Quiet(waivers, offsets, now, t)
    ensures Expired(w, t) == Expired(w, now)
    ensures -within in offsets ==> Soon(w, within, t) == Soon(w, within, now)
  {
    if w.expiry.At? && w.expiry.ms > now {
      assert Deadline(waivers, now, offsets, w.expiry.ms);
      var d := w.expiry.ms - within;
      assert d - w.expiry.ms == -within;
      if -within in offsets && d > now { assert Deadline(waivers, now, offsets, d); }
    }
  }

  lemma {:induction false} ExpiringUnchanged(
      all: seq<Waiver>, waivers: seq<Waiver>, offsets: seq<int>, within: int, now: int, t: int)
    requires (forall w :: w in waivers ==> w in all) && now <= t && Quiet(all, offsets, now, t) && -within in offsets
    ensures Expiring(waivers, within, t) == Expiring(waivers, within, now)
    decreases |waivers|
  {
    if waivers != [] {
      assert waivers[0] in waivers;
      ExpiryUnchanged(all, offsets, waivers[0], within, now, t);
      ExpiringUnchanged(all, waivers[1..], offsets, within, now, t);
    }
  }

  /**
    From now until the soonest deadline both views are constant: the active set always, the
    expiring-soon list when its window is among the offsets. Without any deadline, for ever.
  */
  lemma ConstantUntilDeadline(waivers: seq<Waiver>, offsets: seq<int>, within: int, now: int, t: int)
    requires now <= t && Quiet(waivers, offsets, now, t)
    ensures ActiveNames(waivers, t) == ActiveNames(waivers, now)
    ensures -within in offsets ==> Expiring(waivers, within, t) == Expiring(waivers, within, now)
  {
    forall w | w in waivers ensures Expired(w, t) == Expired(w, now) {
      ExpiryUnchanged(waivers, offsets, w, within, now, t);
    }
    if -within in offsets { ExpiringUnchanged(waivers, waivers, offsets, within, now, t); }
  }

  // ---- ticks ----

  /** s is the soonest deadline seen at now. */
  ghost predicate Next(waivers: seq<Waiver>, offsets: seq<int>, now: int, s: int) {
    Deadline(waivers, now, offsets, s) && forall d :: Deadline(waivers, now, offsets, d) ==> s <= d
  }

  /** One effect run of the hook: the delay it schedules, 0 for none. */
  method Schedule(waivers: seq<Waiver>, now: int, offsets: seq<int>) returns (delay: int)
    requires now >= 0
    ensures delay == 0 <==> forall t :: !Deadline(waivers, now, offsets, t)
    ensures delay != 0 ==> exists s :: Next(waivers, offsets, now, s) && delay == Delay(now, s)
  {
    var deadlines := FutureWaiverDeadlines(waivers, now, offsets);
    delay := SoonestDeadlineDelay(now, deadlines);
    if delay == 0 {
      forall t ensures !Deadline(waivers, now, offsets, t) {
        assert Deadline(waivers, now, offsets, t) ==> t in deadlines;
      }
    } else {
      ghost var s :| Soonest(deadlines, now, s) && delay == Delay(now, s);
      assert Next(waivers, offsets, now, s);
    }
  }

  /** Before the soonest deadline, or with none at all, both views stand still. */
  lemma StandsStill(waivers: seq<Waiver>, offsets: seq<int>, within: int, now: int, t: int)
    requires now <= t && -within in offsets
    requires (exists s :: Next(waivers, offsets, now, s) && t < s) || (forall d :: !Deadline(waivers, now, offsets, d))
    ensures ActiveNames(waivers, t) == ActiveNames(waivers, now)
    ensures Expiring(waivers, within, t) == Expiring(waivers, within, now)
  {
    assert Quiet(waivers, offsets, now, t);
    ConstantUntilDeadline(waivers, offsets, within, now, t);
  }

  /** Looking again before the soonest deadline finds the same one. */
  lemma NextIsStable(waivers: seq<Waiver>, offsets: seq<int>, now: int, s: int, later: int)
    requires Next(waivers, offsets, now, s) && now <= later < s
    ensures Next(waivers, offsets, later, s)
  {
    var w :| w in waivers && FutureExpiry(w, now).Some? && (s == w.expiry.ms || (s - w.expiry.ms) in offsets);
    assert Deadline(waivers, now, offsets, w.expiry.ms);
    assert Deadline(waivers, later, offsets, s);
    forall d | Deadline(waivers, later, offsets, d) ensures s <= d {
      var v :| v in waivers && FutureExpiry(v, later).Some? && (d == v.expiry.ms || (d - v.expiry.ms) in offsets);
      assert Deadline(waivers, now, offsets, d);
    }
  }

  /** The instant the n-th timer fires, each scheduled when the one before it fired. */
  function Fires(s: int, now: int, n: nat): int
    decreases n
  {
    if n == 0 then now else Fires(s, now + Delay(now, s), n - 1)
  }

  /**
    Repeated capped delays reach the soonest deadline after finitely many ticks, about one per
    24.8 days, and the tick that reaches it is at most 25 ms late. Every tick before it sees the
    same deadline still ahead.
  */
  lemma {:induction false} TicksReachDeadline(waivers: seq<Waiver>, offsets: seq<int>, now: int, s: int) returns (n: nat)
    requires Next(waivers, offsets, now, s)
    ensures n >= 1 && s <= Fires(s, now, n) <= s + PAD
    ensures forall k: nat :: k < n ==> now <= Fires(s, now, k) < s && Next(waivers, offsets, Fires(s, now, k), s)
    ensures (n - 1) * MAX_TIMEOUT < s - now
    decreases s - now
  {
    hide Next;
    assert s > now by { NextIsAhead(waivers, offsets, now, s); }
    var after := now + Delay(now, s);
    assert Fires(s, now, 1) == Fires(s, after, 0) == after;
    if after >= s {
      n := 1;
    } else {
      NextIsStable(waivers, offsets, now, s, after);
      var m := TicksReachDeadline(waivers, offsets, after, s);
      n := m + 1;
      forall k: nat | k < n ensures now <= Fires(s, now, k) < s && Next(waivers, offsets, Fires(s, now, k), s) {
        if k > 0 { assert Fires(s, now, k) == Fires(s, after, k - 1); }
      }
    }
  }

  lemma NextIsAhead(waivers: seq<Waiver>, offsets: seq<int>, now: int, s: int)
    requires Next(waivers, offsets, now, s)
    ensures s > now
  {
  }

  // ---- the operator's poll ----

  const SECOND: int := 1_000_000_000

  /** The time to the soonest expiry ahead, or 0. */
  method NearestWaiverExpiry(expiries: seq<Option<int>>, now: int) returns (soonest: int)
    ensures soonest == 0 <==> forall e :: e in expiries && e.Some? ==> e.value <= now
    ensures soonest != 0 ==> soonest > 0 && Some(now + soonest) in expiries
    ensures soonest != 0 ==> forall e :: e in expiries && e.Some? && e.value > now ==> now + soonest <= e.value
  {
    soonest := 0;
    for i := 0 to |expiries|
      invariant soonest == 0 ==> forall e :: e in expiries[..i] && e.Some? ==> e.value <= now
      invariant soonest != 0 ==> soonest > 0 && Some(now + soonest) in expiries[..i]
      invariant soonest != 0 ==> forall e :: e in expiries[..i] && e.Some? && e.value > now ==> now + soonest <= e.value
    {
      assert expiries[..i + 1] == expiries[..i] + [expiries[i]];
      var exp := expiries[i];
      if exp.None? || exp.value <= now { continue; }
      var d := exp.value - now;
      if soonest == 0 || d < soonest { soonest := d; }
    }
    assert expiries[..|expiries|] == expiries;
  }

  /** Between 1 s and a minute, 15 s while busy, and never past an expiry by more than the 1 s floor. */
  method RequeueAfterAt(expiries: seq<Option<int>>, progressing: bool, batching: bool, now: int) returns (d: int)
    ensures 1_000_000_000 <= d <= 60_000_000_000
    ensures progressing || batching ==> d <= 15_000_000_000
    ensures forall e :: e in expiries && e.Some? && e.value > now ==> now + d <= e.value || (d == SECOND && now + d < e.value + SECOND)
    ensures d == 60 * SECOND || (d == 15 * SECOND && (progressing || batching)) || d == SECOND || Some(now + d) in expiries
    ensures !progressing && !batching && d < 60 * SECOND ==>
      exists e :: e in expiries && e.Some? && now < e.value <= now + d
  {
    var slow := !(progressing || batching);
    d := if slow then 60 * SECOND else 15 * SECOND;
    var until := NearestWaiverExpiry(expiries, now);
    if until > 0 && until < d {
      assert Some(now + until) in expiries;
      if until < SECOND { return SECOND; }
      return until;
    }
  }
}
