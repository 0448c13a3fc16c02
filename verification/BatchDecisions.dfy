/**
  What the batch routines decide, stated from what they observe: when a finish waits or releases
  and which reason it counts, which remediations and pools an open takes up, and that an open
  which succeeds has paused and applied them.
*/
module BatchDecisions {
  import opened Options
  import opened Text
  import opened K8sNames
  import opened BatchModel
  import opened BatchSpec
  import opened BatchPaths
  import opened BatchFrames
  import opened BatchSafety

  // ---- finish: what it observes ----

  /** The first 256 names the batch lists. */
  function Watched(b: Batch): seq<string> {
    if |b.remediations| > 256 then b.remediations[..256] else b.remediations
  }

  /** Nothing can be said of the name: invalid, gone, or its state or spec.apply unreadable. */
  predicate Unobservable(n: string, rems: map<string, Remediation>) {
    !ValidName(n) || n !in rems || rems[n].state.None? || rems[n].apply.Unreadable?
  }

  predicate ReadsApplied(n: string, rems: map<string, Remediation>) {
    n in rems && rems[n].state == Some("Applied")
  }

  predicate ReadsOff(n: string, rems: map<string, Remediation>) {
    n in rems && rems[n].apply == Is(false)
  }

  lemma {:induction false} ValidsExactly(names: seq<string>)
    ensures forall n :: n in Valids(names) <==> n in names && ValidName(n)
    ensures |Valids(names)| == |names| <==> forall n :: n in names ==> ValidName(n)
  {
    hide ValidName;
    if names != [] {
      ValidsExactly(names[1..]);
      assert names == [names[0]] + names[1..];
    }
  }

  /** One look at the names, by quantifiers. */
  lemma {:induction false} LookSees(names: seq<string>, rems: map<string, Remediation>, s: Survey)
    requires forall n :: n in names ==> ValidName(n)
    ensures var r := Look(names, rems, s);
      && (r.missing > 0 <==> s.missing > 0 || exists n :: n in names && Unobservable(n, rems))
      && (r.missing == 0 ==>
            && (r.applied <==> s.applied && forall n :: n in names ==> ReadsApplied(n, rems))
            && (r.anyApplying <==> s.anyApplying || exists n :: n in names && !ReadsOff(n, rems)))
    decreases |names|
  {
    hide ValidName;
    if names != [] {
      var n := names[0];
      assert names == [n] + names[1..] && n in names;
      var next :=
        if n !in rems || rems[n].state.None? then s.(missing := s.missing + 1)
        else
          var s1 := if rems[n].state.value != "Applied" then s.(applied := false) else s;
          if rems[n].apply.Unreadable? then s1.(missing := s1.missing + 1)
          else if rems[n].apply.on then s1.(anyApplying := true)
          else s1;
      assert Look(names, rems, s) == Look(names[1..], rems, next);
      LookSees(names[1..], rems, next);
    }
  }

  // ---- finish: what it decides ----

  /** A name worth asking the API server about. */
  predicate AnyValid(names: seq<string>) {
    exists n :: n in names && ValidName(n)
  }

  /** The world once the batch's remediations are listed; nothing is asked when no name is valid. */
  function AfterLook(w: World): World
    requires w.mem.batch.Some?
  {
    if AnyValid(Watched(w.mem.batch.value)) then Call(w).0 else w
  }

  function LookOutcome(w: World): Outcome
    requires w.mem.batch.Some?
  {
    if AnyValid(Watched(w.mem.batch.value)) then Call(w).1 else Served
  }

  ghost predicate Waits(w: World, w2: World)
    requires w.mem.batch.Some?
  {
    w2 == AfterLook(w) && w2.mem == w.mem
  }

  lemma LookIs(w: World)
    requires w.mem.batch.Some?
    ensures var names := Valids(Capped(w.mem.batch.value.remediations));
      var (w1, l) := ListRemediations(w, names);
      && Capped(w.mem.batch.value.remediations) == Watched(w.mem.batch.value)
      && w1 == AfterLook(w) && w1.mem == w.mem
      && (l == ListDied <==> LookOutcome(w) == Crash)
      && (l == ListErr <==> LookOutcome(w) != Crash && LookOutcome(w) != Served)
      && (l == NoCrd <==> names != [] && LookOutcome(w) == Served && !w1.d.remCrd)
      && (l.Listed? ==> (names != [] ==> l.rems == w1.d.rems))
      && (names == [] <==> !AnyValid(Watched(w.mem.batch.value)))
  {
    hide ValidName;
    var names := Valids(Watched(w.mem.batch.value));
    ValidsExactly(Watched(w.mem.batch.value));
    assert names != [] ==> names[0] in names;
  }

  /** The outcome a finish counts: cancelled before grace, grace before applied. */
  function Reason(off: bool, late: bool): string {
    if off then "cancelled" else if late then "grace" else "applied"
  }

  /**
    With the remediations listed, a finish releases if and only if every name reads Applied, or
    every one reads switched off, or one cannot be observed, or the grace is past. Otherwise it
    waits: nothing moves after the listing and the batch stays.
  */
  lemma FinishDecides(w: World)
    requires w.mem.batch.Some? && LookOutcome(w) == Served
    requires AnyValid(Watched(w.mem.batch.value)) ==> AfterLook(w).d.remCrd
    ensures var b, w1 := w.mem.batch.value, AfterLook(w);
      var names, rems := Watched(b), w1.d.rems;
      var allApplied := forall n :: n in names ==> ReadsApplied(n, rems);
      var allOff := forall n :: n in names ==> ReadsOff(n, rems);
      var hidden := exists n :: n in names && Unobservable(n, rems);
      var past := BatchPastGrace(b.startedAt, w1.d.now);
      if allApplied || allOff || hidden || past
      then Finish(w) == Release(w1, b, Unreported(w.mem), Reason(allOff && !hidden, past || hidden))
      else Waits(w, Finish(w).0) && Finish(w).1 == Ok
  {
    hide ValidName, Look, Release, BatchPastGrace, Unreported, Call;
    var b := w.mem.batch.value;
    var listed := Watched(b);
    LookIs(w);
    ValidsExactly(listed);
    var names := Valids(listed);
    var l := ListRemediations(w, names).1;
    assert l.Listed?;
    LookSees(names, l.rems, Survey(true, false, |listed| - |names|));
    assert |names| < |listed| <==> exists n :: n in listed && !ValidName(n);
  }

  /** A failed listing waits with an error, unless the grace is past or a name is invalid. */
  lemma FailedLookWaits(w: World)
    requires w.mem.batch.Some? && LookOutcome(w) != Served && LookOutcome(w) != Crash
    ensures var b, w1 := w.mem.batch.value, AfterLook(w);
      if BatchPastGrace(b.startedAt, w1.d.now) || exists n :: n in Watched(b) && !ValidName(n)
      then Finish(w) == Release(w1, b, Unreported(w.mem), "grace")
      else Waits(w, Finish(w).0) && Finish(w).1 == Err
  {
    hide ValidName, Look, Release, BatchPastGrace, Unreported, Call;
    LookIs(w);
    ValidsExactly(Watched(w.mem.batch.value));
  }

  /** Without the remediation CRD every name is unobservable: the batch is released and counted as grace. */
  lemma AbsentCrdReleases(w: World)
    requires w.mem.batch.Some? && LookOutcome(w) == Served
    requires AnyValid(Watched(w.mem.batch.value)) && !AfterLook(w).d.remCrd
    ensures Finish(w) == Release(AfterLook(w), w.mem.batch.value, Unreported(w.mem), "grace")
  {
    hide ValidName, Look, Release, BatchPastGrace, Unreported, Call;
    LookIs(w);
    ValidsExactly(Watched(w.mem.batch.value));
  }

  /** A release that succeeds counts its reason once when the batch is unreported, and otherwise nothing. */
  lemma ReleaseCounts(w: World, b: Batch, countThis: bool, reason: string)
    requires Start0(ANYTHING, w) && w.d.cr.batch == Some(b) == w.mem.batch
    ensures var (w2, r) := Release(w, b, countThis, reason);
      && (forall i :: |w.trace| <= i < |w2.trace| && w2.trace[i].what.Counted? ==>
            countThis && r == Ok && i == |w2.trace| - 1 && w2.trace[i].what == Counted(reason))
      && (r == Ok && countThis ==> |w2.trace| > |w.trace| && EndsIn(w2, Counted(reason)))
      && w.trace <= w2.trace
  {
    hide Path, Linked, Fine, Wf, ResumeAll, ClearAnnotations;
    var s := ANYTHING.(countable := false);
    BatchIsOurs(s, w);
    ResumeAllPath(s, w, b.pools);
    var (w1, r1) := ResumeAll(w, b.pools, b.owner);
    Uncounted(s, w, w1);
    Grows(s, w, w1);
    if r1 == Ok {
      ClearPath(s, w1, b.remediations, true, w.tries);
      var (w2, r2) := ClearAnnotations(w1, b.remediations, true, w.tries);
      Uncounted(s, w1, w2);
      Grows(s, w1, w2);
    }
  }

  lemma Uncounted(s: Scope, w: World, w2: World)
    requires Reach(s, w, w2) && !s.countable
    ensures forall i :: |w.trace| <= i < |w2.trace| ==> !w2.trace[i].what.Counted?
  {
    hide Linked, Wf, NoLeak, Lawful;
    forall i | |w.trace| <= i < |w2.trace| ensures !w2.trace[i].what.Counted? {
      LinkedEvent(s, w.owner, w.d, w2.trace[|w.trace|..], w2.d, i - |w.trace|);
    }
  }

  lemma Grows(s: Scope, w: World, w2: World)
    requires Reach(s, w, w2)
    ensures w.trace <= w2.trace
  {
  }

  // ---- open: what it takes up ----

  lemma {:induction false} KeepExactly(names: seq<string>, rems: map<string, Remediation>, suites: set<string>)
    ensures forall n :: n in Keep(names, rems, suites) <==> n in names && n in rems && Eligible(suites, rems[n])
  {
    hide Eligible;
    if names != [] {
      KeepExactly(names[1..], rems, suites);
      assert names == [names[0]] + names[1..];
    }
  }

  lemma {:induction false} PoolsOfExactly(names: seq<string>, rems: map<string, Remediation>, suites: set<string>)
    requires forall n :: n in names ==> n in rems && rems[n].suite in suites
    ensures forall p :: p in PoolsOf(names, rems, suites) <==>
      p != "" && exists n :: n in names && PoolFromRemediation(rems[n]) == p
  {
    hide PoolFromRemediation;
    if names != [] {
      PoolsOfExactly(names[1..], rems, suites);
      assert names == [names[0]] + names[1..] && names[0] in names;
    }
  }

  // ---- open: what it has done ----

  /** d is a state between w and w2. */
  ghost predicate OnTheWay(w: World, w2: World, d: Durable) {
    d == w2.d || exists i :: |w.trace| <= i < |w2.trace| && w2.trace[i].pre == d
  }

  /** Nothing is left to pause: the pool is ours, or an administrator's pause, or cannot be paused. */
  predicate PauseDone(d: Durable, owner: string, p: string) {
    p !in d.mcps || d.mcps[p].paused.Unreadable?
    || (d.mcps[p].paused.on && (d.mcps[p].marker == "" || d.mcps[p].marker == owner))
  }

  /** Nothing is left to apply: spec.apply is on, or the remediation may no longer be applied. */
  predicate ApplyDone(d: Durable, suites: set<string>, n: string) {
    n !in d.rems || !Eligible(suites, d.rems[n]) || d.rems[n].apply.on
  }

  lemma StillOnTheWay(s: Scope, w: World, w1: World, w2: World, d: Durable)
    requires Reach(s, w, w1) && Reach(s, w1, w2)
    requires OnTheWay(w, w1, d) || OnTheWay(w1, w2, d)
    ensures OnTheWay(w, w2, d)
  {
    hide Fine, Wf;
    if d == w1.d && |w2.trace| > |w1.trace| {
      assert w2.trace[|w1.trace|..][0] == w2.trace[|w1.trace|];
    } else if i :| |w.trace| <= i < |w1.trace| && w1.trace[i].pre == d {
      assert w2.trace[..|w1.trace|][i] == w2.trace[i];
    }
  }

  lemma {:induction false} PauseIsDone(w: World, pool: string, attempts: nat)
    requires Start0(ANYTHING, w)
    ensures var (w2, r) := SetPaused(w, pool, true, w.owner, attempts);
      r == Ok ==> PauseDone(w2.d, w.owner, pool)
    decreases attempts
  {
    hide Path, Linked, Fine, NoLeak, Call;
    if ValidName(pool) && attempts > 0 {
      CallPath(ANYTHING, w);
      var (w1, o) := Call(w);
      if o == Served && pool in w1.d.mcps && Decide(w1.d.mcps[pool], true, w.owner).Write? {
        var before := w1.d.mcps[pool];
        WriteMcpPath(ANYTHING, w1, pool, true, before);
        var (w2, r) := WriteMcp(w1, pool, true, before, Decide(before, true, w.owner).after);
        if r == Stale {
          PauseIsDone(w2, pool, attempts - 1);
        }
      }
    }
  }

  lemma {:induction false} PausesAreDone(w: World, pools: seq<string>, n: nat)
    requires Start0(ANYTHING, w) && n <= |pools|
    ensures var (w2, r, m) := PauseFrom(w, pools, n);
      r == Ok ==> forall j :: n <= j < |pools| ==> exists d :: OnTheWay(w, w2, d) && PauseDone(d, w.owner, pools[j])
    decreases |pools| - n
  {
    hide Path, Linked, Fine, Wf, PauseDone, SetPaused, OnTheWay;
    if n < |pools| {
      SetPausedPath(ANYTHING, w, pools[n], true, w.tries);
      PauseIsDone(w, pools[n], w.tries);
      var (w1, r) := SetPaused(w, pools[n], true, w.owner, w.tries);
      if r == Ok {
        PausesAreDone(w1, pools, n + 1);
        PauseFromPath(ANYTHING, w1, pools, n + 1);
        var w2 := PauseFrom(w1, pools, n + 1).0;
        EndIsOnTheWay(w, w1);
        forall d | OnTheWay(w, w1, d) || OnTheWay(w1, w2, d) ensures OnTheWay(w, w2, d) {
          StillOnTheWay(ANYTHING, w, w1, w2, d);
        }
      }
    }
  }

  lemma EndIsOnTheWay(w: World, w2: World)
    ensures OnTheWay(w, w2, w2.d)
  {
  }

  lemma {:induction false} ApplyIsDone(w: World, name: string, suites: set<string>, attempts: nat)
    ensures var (w2, r) := ApplyOne(w, name, suites, attempts);
      r == Ok ==> ApplyDone(w2.d, suites, name)
    decreases attempts
  {
    hide Call;
    if attempts > 0 {
      var (w1, o) := Call(w);
      if o == Served && w1.d.remCrd && !ApplyDone(w1.d, suites, name) {
        var before := w1.d.rems[name];
        var (w2, r) := WriteRem(w1, name, suites, before, before.(apply := Is(true)));
        if r == Stale {
          ApplyIsDone(w2, name, suites, attempts - 1);
        }
      }
    }
  }

  lemma {:induction false} AppliesAreDone(w: World, names: seq<string>, suites: set<string>)
    requires Start0(ANYTHING, w)
    ensures var (w2, r) := ApplyEach(w, names, suites);
      r == Ok ==> forall n :: n in names ==> exists d :: OnTheWay(w, w2, d) && ApplyDone(d, suites, n)
    decreases |names|
  {
    hide Path, Linked, Fine, Wf, ApplyDone, ApplyOne, OnTheWay;
    if names != [] {
      assert names == [names[0]] + names[1..];
      ApplyOnePath(ANYTHING, w, names[0], suites, w.tries);
      ApplyIsDone(w, names[0], suites, w.tries);
      var (w1, r) := ApplyOne(w, names[0], suites, w.tries);
      if r == Ok {
        AppliesAreDone(w1, names[1..], suites);
        ApplyEachPath(ANYTHING, w1, names[1..], suites);
        var w2 := ApplyEach(w1, names[1..], suites).0;
        EndIsOnTheWay(w, w1);
        forall d | OnTheWay(w, w1, d) || OnTheWay(w1, w2, d) ensures OnTheWay(w, w2, d) {
          StillOnTheWay(ANYTHING, w, w1, w2, d);
        }
      }
    }
  }

  /** A start that succeeds has paused every pool it could and applied every remediation it still may. */
  ghost predicate Carried(w: World, w2: World, b: Batch, suites: set<string>) {
    && (forall p :: p in b.pools ==> exists d :: OnTheWay(w, w2, d) && PauseDone(d, w.owner, p))
    && (forall n :: n in b.remediations ==> exists d :: OnTheWay(w, w2, d) && ApplyDone(d, suites, n))
  }

  lemma StartCarries(w: World, pools: seq<string>, kept: seq<string>, at: Stamp)
    requires Start0(ANYTHING, w)
    ensures var (w2, r) := Start(w, pools, kept, at);
      r == Ok ==> w2.mem.batch == Some(Batch(pools, kept, at, w.owner)) && w2.mem.suites == w.mem.suites
                  && Carried(w, w2, w2.mem.batch.value, w.mem.suites)
  {
    hide Path, Linked, Fine, Wf, PauseDone, ApplyDone, PauseFrom, ApplyEach, ResumeBestEffort, OnTheWay;
    PausesAreDone(w, pools, 0);
    PauseFromPath(ANYTHING, w, pools, 0);
    var (w1, r, n) := PauseFrom(w, pools, 0);
    if r == Ok {
      AppliesAreDone(w1, kept, w.mem.suites);
      ApplyEachPath(ANYTHING, w1, kept, w.mem.suites);
      var (w2, r2) := ApplyEach(w1, kept, w.mem.suites);
      forall d | OnTheWay(w, w1, d) || OnTheWay(w1, w2, d) ensures OnTheWay(w, Hold(w2, pools, kept, at), d) {
        StillOnTheWay(ANYTHING, w, w1, w2, d);
        HoldMovesNothing(w, w2, pools, kept, at, d);
      }
    }
  }

  lemma HoldMovesNothing(w: World, w2: World, pools: seq<string>, kept: seq<string>, at: Stamp, d: Durable)
    ensures OnTheWay(w, Hold(w2, pools, kept, at), d) <==> OnTheWay(w, w2, d)
  {
  }

  lemma CarriedFrom(w: World, w1: World, w2: World, b: Batch, suites: set<string>)
    requires Reach(ANYTHING, w, w1) && Reach(ANYTHING, w1, w2) && Carried(w1, w2, b, suites)
    ensures Carried(w, w2, b, suites)
  {
    hide Path, Linked, Fine, Wf, PauseDone, ApplyDone, OnTheWay;
    forall d | OnTheWay(w1, w2, d) ensures OnTheWay(w, w2, d) {
      StillOnTheWay(ANYTHING, w, w1, w2, d);
    }
  }

  lemma {:induction false} RecordedAreNamed(w: World, names: seq<string>, derived: seq<string>)
    ensures forall p :: p in RecordedOurs(w, names, derived).2 ==> p in names
    decreases |names|
  {
    hide PausedBy;
    if names != [] {
      assert names == [names[0]] + names[1..];
      if names[0] in derived {
        RecordedAreNamed(w, names[1..], derived);
      } else {
        RecordedAreNamed(PausedBy(w, names[0], w.owner).0, names[1..], derived);
      }
    }
  }

  /** What an open for these remediations and pools holds when it succeeds. */
  ghost predicate Holds(w: World, w2: World, kept: seq<string>, derived: seq<string>) {
    w2.mem.batch.Some? &&
    var b := w2.mem.batch.value;
    && b.remediations == kept && b.owner == w.owner && b.startedAt.At?
    && StrictlySorted(b.pools) && |b.pools| <= 32
    && (forall p :: p in b.pools <==> p in derived || (p in NamesIn(Raw(w.mem.pools)) && Ours(w.d, w.owner, p)))
    && Carried(w, w2, b, w.mem.suites)
  }

  lemma KeptIsHeld(w: World, requested: seq<string>, kept: seq<string>, derived: seq<string>)
    requires Start0(ANYTHING, w) && JustRead(w) && w.mem.batch.None?
    requires forall p :: p in derived ==> ValidName(p)
    ensures var (w2, r) := OpenKept(w, requested, kept, derived);
      r == Ok && w2.mem.batch.Some? ==> Holds(w, w2, kept, derived)
  {
    hide Path, Linked, Fine, Wf, Carried, Start, EnsureMetadata, ClearAnnotations, RecordedOurs, NamesIn;
    var s := ANYTHING;
    var recorded := NamesIn(Raw(w.mem.pools));
    RecordedOursPath(s, w, recorded, derived);
    RecordedAreNamed(w, recorded, derived);
    var (w1, r, ours) := RecordedOurs(w, recorded, derived);
    if r == Ok {
      var pools := UniqueSorted(derived + ours);
      assert forall p :: p in pools ==> p in derived || p in ours;
      if |pools| > MAX_POOLS {
        ClearPath(s, w1, requested, false, w.tries);
      } else {
        SortedValid(derived, ours);
        EnsurePath(s, w1, pools, requested, kept, w.tries);
        var (w2, r2, at) := EnsureMetadata(w1, pools, requested, kept, w.tries);
        PathTrans(s, w, w1, w2);
        if r2 == Ok {
          StartCarries(w2, pools, kept, at);
          StartReaches(w2, pools, kept, at);
          if Start(w2, pools, kept, at).1 == Ok {
            CarriedFrom(w, w2, Start(w2, pools, kept, at).0, Batch(pools, kept, at, w.owner), w.mem.suites);
          }
        }
      }
    }
  }

  lemma SortedValid(derived: seq<string>, ours: seq<string>)
    requires forall p :: p in derived || p in ours ==> ValidName(p)
    ensures |UniqueSorted(derived + ours)| <= MAX_POOLS ==> SortedNames(UniqueSorted(derived + ours), MAX_POOLS)
    ensures forall p :: p in UniqueSorted(derived + ours) <==> p in derived || p in ours
  {
    hide ValidName;
    assert !ValidName("") by { NoEmptyName(); }
  }

  lemma NoEmptyName()
    ensures !ValidName("")
  {
  }

  lemma StartReaches(w: World, pools: seq<string>, kept: seq<string>, at: Stamp)
    requires Start0(ANYTHING, w)
    ensures Start(w, pools, kept, at).1 == Ok ==> Reach(ANYTHING, w, Start(w, pools, kept, at).0)
  {
    hide Path, Linked, Fine, Wf, PauseFrom, ApplyEach;
    PauseFromPath(ANYTHING, w, pools, 0);
    var (w1, r, n) := PauseFrom(w, pools, 0);
    if r == Ok {
      ApplyEachPath(ANYTHING, w1, kept, w.mem.suites);
      PathTrans(ANYTHING, w, w1, ApplyEach(w1, kept, w.mem.suites).0);
      HeldPath(w, ApplyEach(w1, kept, w.mem.suites).0, pools, kept, at);
    }
  }

  lemma HeldPath(w: World, w2: World, pools: seq<string>, kept: seq<string>, at: Stamp)
    requires Reach(ANYTHING, w, w2)
    ensures Reach(ANYTHING, w, Hold(w2, pools, kept, at))
  {
    hide Linked, Wf;
  }

  /** The names a request asks for. */
  function Requested(w: World): seq<string> {
    NamesIn(Raw(w.mem.request))
  }

  /** What the first call of an open shows: exactly these remediations may be applied. */
  ghost predicate TakesUp(w: World, b: Batch) {
    var rems := Call(w).0.d.rems;
    && StrictlySorted(b.remediations) && StrictlySorted(b.pools)
    && (forall n :: n in b.remediations <==> n in Requested(w) && n in rems && Eligible(w.mem.suites, rems[n]))
    && (forall p :: p in b.pools <==>
          || (p != "" && exists n :: n in b.remediations && PoolFromRemediation(rems[n]) == p)
          || (p in NamesIn(Raw(w.mem.pools)) && Ours(w.d, w.owner, p)))
  }

  lemma TakenUp(requested: seq<string>, rems: map<string, Remediation>, suites: set<string>)
    requires StrictlySorted(requested) && |requested| <= MAX_REMEDIATIONS && AllValid(requested)
    ensures var kept := Keep(requested, rems, suites);
      var derived := PoolsOf(kept, rems, suites);
      && SortedNames(kept, MAX_REMEDIATIONS)
      && (forall n :: n in kept <==> n in requested && n in rems && Eligible(suites, rems[n]))
      && (forall p :: p in derived ==> ValidName(p))
      && (forall p :: p in derived <==> p != "" && exists n :: n in kept && PoolFromRemediation(rems[n]) == p)
  {
    hide ValidName, PoolFromRemediation, StrictlySorted;
    var kept := Keep(requested, rems, suites);
    KeepSorted(requested, rems, suites);
    KeepExactly(requested, rems, suites);
    PoolsOfValid(kept, rems, suites);
    PoolsOfExactly(kept, rems, suites);
  }

  /** What holding a batch for the remediations taken up means for the open that listed them. */
  lemma HoldsTakesUp(w: World, w1: World, w2: World, rems: map<string, Remediation>)
    requires w1 == Call(w).0 && rems == w1.d.rems && w1.mem == w.mem && w1.owner == w.owner
    requires SameOurs(w.owner, w.d, w1.d)
    requires StrictlySorted(Requested(w)) && |Requested(w)| <= MAX_REMEDIATIONS && AllValid(Requested(w))
    requires var kept := Keep(Requested(w), rems, w.mem.suites);
      Holds(w1, w2, kept, PoolsOf(kept, rems, w.mem.suites))
    ensures TakesUp(w, w2.mem.batch.value)
  {
    hide Carried, Call, ValidName, PoolFromRemediation, Eligible, NamesIn, Ours, Keep, PoolsOf;
    TakenUp(Requested(w), rems, w.mem.suites);
  }

  lemma ValidRequestTakesUp(w: World)
    requires Start0(ANYTHING, w) && JustRead(w) && w.mem.batch.None?
    requires 0 < |Requested(w)| <= MAX_REMEDIATIONS && AllValid(Requested(w))
    ensures var (w2, r) := OpenValid(w, Requested(w));
      r == Ok && w2.mem.batch.Some? ==>
        var b := w2.mem.batch.value;
        && TakesUp(w, b) && Carried(w, w2, b, w.mem.suites)
        && b.owner == w.owner && b.startedAt.At? && b.remediations != [] && |b.pools| <= 32
  {
    hide Path, Linked, Fine, Wf, Carried, OpenKept, ClearAnnotations, NamesIn, ValidName, Call, TakesUp, StrictlySorted, Eligible;
    var s := ANYTHING;
    var requested := Requested(w);
    ListPath(s, w, requested);
    var (w1, l) := ListRemediations(w, requested);
    if l.Listed? {
      var kept := Keep(requested, l.rems, w.mem.suites);
      if kept == [] {
        ClearPath(s, w1, requested, false, w.tries);
      } else {
        var derived := PoolsOf(kept, l.rems, w.mem.suites);
        TakenUp(requested, l.rems, w.mem.suites);
        KeptIsHeld(w1, requested, kept, derived);
        OpenKeptPath(s, w1, requested, kept, derived);
        var (w2, r) := OpenKept(w1, requested, kept, derived);
        if r == Ok && w2.mem.batch.Some? {
          CarriedFrom(w, w1, w2, w2.mem.batch.value, w.mem.suites);
          HoldsTakesUp(w, w1, w2, l.rems);
        }
      }
    }
  }

  /**
    An open that succeeds and holds a batch has taken up exactly the requested remediations that
    exist and may be applied, and exactly the pools they reboot or that were recorded and are
    ours; it has paused every such pool it could and applied every such remediation it still may.
  */
  lemma OpenTakesUp(w: World)
    requires Start0(ANYTHING, w) && JustRead(w) && w.mem.batch.None?
    ensures var (w2, r) := Open(w);
      r == Ok && w2.mem.batch.Some? ==>
        var b := w2.mem.batch.value;
        && TakesUp(w, b) && Carried(w, w2, b, w.mem.suites)
        && b.owner == w.owner && b.startedAt.At? && b.remediations != []
        && 0 < |Requested(w)| <= 256 && (forall n :: n in Requested(w) ==> ValidName(n)) && |b.pools| <= 32
  {
    hide Path, Linked, Fine, Wf, Carried, OpenValid, ClearAnnotations, ResumeOrphaned, NamesIn, ValidName, TakesUp;
    var requested := Requested(w);
    if requested == [] {
      OrphanHoldsNothing(w);
    } else if |requested| > MAX_REMEDIATIONS || !AllValid(requested) {
      ClearPath(ANYTHING, w, requested, false, w.tries);
    } else {
      ValidRequestTakesUp(w);
    }
  }

  lemma OrphanHoldsNothing(w: World)
    requires Start0(ANYTHING, w) && JustRead(w) && w.mem.batch.None?
    ensures ResumeOrphaned(w).0.mem.batch.None?
  {
    hide Path, Linked, Fine, Wf, NamesIn, ResumeAll, ClearAnnotations;
    var pools := NamesIn(Raw(w.mem.pools));
    ResumeAllPath(ANYTHING, w, pools);
    ClearPath(ANYTHING, ResumeAll(w, pools, w.owner).0, [], true, w.tries);
  }

  /** The pools an open would take up, whether or not they are few enough. */
  ghost predicate WouldTake(w: World, pools: seq<string>) {
    var rems := Call(w).0.d.rems;
    StrictlySorted(pools) && forall p :: p in pools <==>
      || (p != "" && exists n :: n in Requested(w) && n in rems && Eligible(w.mem.suites, rems[n]) && PoolFromRemediation(rems[n]) == p)
      || (p in NamesIn(Raw(w.mem.pools)) && Ours(w.d, w.owner, p))
  }

  /**
    An open of a request that succeeds without a batch has dropped the request for one of four
    reasons: too many names, an invalid one, none that may be applied, or too many pools.
  */
  lemma OpenDrops(w: World)
    requires Start0(ANYTHING, w) && JustRead(w) && w.mem.batch.None? && Requested(w) != []
    ensures var (w2, r) := Open(w);
      r == Ok && w2.mem.batch.None? ==>
        || |Requested(w)| > 256
        || (exists n :: n in Requested(w) && !ValidName(n))
        || (forall n :: n in Requested(w) && n in Call(w).0.d.rems ==> !Eligible(w.mem.suites, Call(w).0.d.rems[n]))
        || (exists pools :: WouldTake(w, pools) && |pools| > 32)
  {
    hide Path, Linked, Fine, Wf, OpenKept, NamesIn, ValidName, Call, StrictlySorted, Eligible, WouldTake, ClearAnnotations, PoolFromRemediation, PoolsOf;
    var requested := Requested(w);
    if |requested| <= MAX_REMEDIATIONS && AllValid(requested) {
      ListPath(ANYTHING, w, requested);
      var (w1, l) := ListRemediations(w, requested);
      if l.Listed? {
        var kept := Keep(requested, l.rems, w.mem.suites);
        KeepExactly(requested, l.rems, w.mem.suites);
        assert kept != [] ==> kept[0] in kept;
        if kept != [] {
          TakenUp(requested, l.rems, w.mem.suites);
          var derived := PoolsOf(kept, l.rems, w.mem.suites);
          KeptDrops(w1, requested, kept, derived);
          if OpenKept(w1, requested, kept, derived).1 == Ok && OpenKept(w1, requested, kept, derived).0.mem.batch.None? {
            var pools :| TooMany(w1, pools, derived);
            TooManyTaken(w, w1, pools, l.rems);
          }
        }
      }
    }
  }

  /**
    When an open drops its request: at once for too many names or an invalid one, after the listing
    when nothing may be applied, and after looking at the recorded pools when there would be more
    than 32. A failed listing, or none for want of the CRD, is an error that leaves the request.
  */
  lemma OpenClears(w: World, pools: seq<string>)
    requires Start0(ANYTHING, w) && JustRead(w) && w.mem.batch.None? && Requested(w) != []
    ensures var n, w1, o := Requested(w), Call(w).0, Call(w).1;
      var rems := w1.d.rems;
      if |n| > 256 || exists x :: x in n && !ValidName(x) then Open(w) == ClearAnnotations(w, n, false, w.tries)
      else if o == Crash then Open(w) == (w1, Died)
      else if o != Served || !w1.d.remCrd then Open(w) == (w1, Err)
      else if forall x :: x in n && x in rems ==> !Eligible(w.mem.suites, rems[x]) then
        Open(w) == ClearAnnotations(w1, n, false, w.tries)
      else WouldTake(w, pools) && |pools| > 32 ==> ClearsLater(w, n)
  {
    hide Path, Linked, Fine, Wf, OpenKept, NamesIn, ValidName, Call, StrictlySorted, Eligible, WouldTake, ClearAnnotations, PoolFromRemediation, PoolsOf;
    var requested := Requested(w);
    ListPath(ANYTHING, w, requested);
    var (w1, l) := ListRemediations(w, requested);
    if |requested| <= MAX_REMEDIATIONS && AllValid(requested) && l.Listed? {
      var kept := Keep(requested, l.rems, w.mem.suites);
      KeepExactly(requested, l.rems, w.mem.suites);
      assert kept != [] ==> kept[0] in kept;
      if kept != [] && WouldTake(w, pools) && |pools| > 32 {
        TakenUp(requested, l.rems, w.mem.suites);
        KeptClears(w, w1, pools, l.rems);
      }
    }
  }

  /** The open looks at the recorded pools and then clears the request, unless a look fails. */
  ghost predicate ClearsLater(w: World, names: seq<string>) {
    exists derived :: LooksThenClears(w, derived, names)
  }

  ghost predicate LooksThenClears(w: World, derived: seq<string>, names: seq<string>) {
    var (w2, r, ours) := RecordedOurs(Call(w).0, NamesIn(Raw(w.mem.pools)), derived);
    Open(w) == if r == Ok then ClearAnnotations(w2, names, false, w.tries) else (w2, r)
  }

  lemma KeptClears(w: World, w1: World, pools: seq<string>, rems: map<string, Remediation>)
    requires Start0(ANYTHING, w) && JustRead(w) && w.mem.batch.None?
    requires 0 < |Requested(w)| <= MAX_REMEDIATIONS && AllValid(Requested(w))
    requires (w1, Listed(rems)) == ListRemediations(w, Requested(w)) && rems == w1.d.rems && w1 == Call(w).0
    requires Keep(Requested(w), rems, w.mem.suites) != [] && WouldTake(w, pools) && |pools| > 32
    ensures ClearsLater(w, Requested(w))
  {
    hide Path, Linked, Fine, Wf, NamesIn, ValidName, Call, StrictlySorted, Eligible, ClearAnnotations, PoolFromRemediation, PoolsOf, RecordedOurs, Start, EnsureMetadata, UniqueSorted;
    var requested := Requested(w);
    ListPath(ANYTHING, w, requested);
    var kept := Keep(requested, rems, w.mem.suites);
    TakenUp(requested, rems, w.mem.suites);
    var derived := PoolsOf(kept, rems, w.mem.suites);
    var recorded := NamesIn(Raw(w.mem.pools));
    RecordedOursPath(ANYTHING, w1, recorded, derived);
    RecordedAreNamed(w1, recorded, derived);
    var (w2, r, ours) := RecordedOurs(w1, recorded, derived);
    var built := UniqueSorted(derived + ours);
    SortedValid(derived, ours);
    assert Open(w) == OpenKept(w1, requested, kept, derived);
    if r == Ok {
      SamePools(w, pools, built, rems);
      assert Open(w) == ClearAnnotations(w2, requested, false, w.tries);
    } else {
      assert Open(w) == (w2, r);
    }
    assert LooksThenClears(w, derived, requested);
  }

  lemma SamePools(w: World, pools: seq<string>, built: seq<string>, rems: map<string, Remediation>)
    requires StrictlySorted(Requested(w)) && |Requested(w)| <= MAX_REMEDIATIONS && AllValid(Requested(w))
    requires WouldTake(w, pools) && StrictlySorted(built) && rems == Call(w).0.d.rems
    requires var derived := PoolsOf(Keep(Requested(w), rems, w.mem.suites), rems, w.mem.suites);
      forall p :: p in built <==> p in derived || (p in NamesIn(Raw(w.mem.pools)) && Ours(w.d, w.owner, p))
    ensures built == pools
  {
    hide Call, Eligible, PoolFromRemediation, NamesIn, Ours, StrictlySorted, Keep, PoolsOf, ValidName;
    TakenUp(Requested(w), rems, w.mem.suites);
    SortedIsCanonical(built, pools);
  }

  ghost predicate TooMany(w: World, pools: seq<string>, derived: seq<string>) {
    && StrictlySorted(pools) && |pools| > MAX_POOLS
    && forall p :: p in pools <==> p in derived || (p in NamesIn(Raw(w.mem.pools)) && Ours(w.d, w.owner, p))
  }

  lemma TooManyTaken(w: World, w1: World, pools: seq<string>, rems: map<string, Remediation>)
    requires w1 == Call(w).0 && rems == w1.d.rems && w1.mem == w.mem && w1.owner == w.owner
    requires SameOurs(w.owner, w.d, w1.d)
    requires StrictlySorted(Requested(w)) && |Requested(w)| <= MAX_REMEDIATIONS && AllValid(Requested(w))
    requires TooMany(w1, pools, PoolsOf(Keep(Requested(w), rems, w.mem.suites), rems, w.mem.suites))
    ensures WouldTake(w, pools)
  {
    hide Call, Eligible, PoolFromRemediation, NamesIn, Ours, StrictlySorted, Keep, PoolsOf, ValidName;
    TakenUp(Requested(w), rems, w.mem.suites);
  }

  lemma KeptDrops(w: World, requested: seq<string>, kept: seq<string>, derived: seq<string>)
    requires Start0(ANYTHING, w) && w.mem.batch.None? && forall p :: p in derived ==> ValidName(p)
    ensures var (w2, r) := OpenKept(w, requested, kept, derived);
      r == Ok && w2.mem.batch.None? ==> exists pools :: TooMany(w, pools, derived)
  {
    hide Path, Linked, Fine, Wf, Start, EnsureMetadata, ClearAnnotations, RecordedOurs, NamesIn;
    var recorded := NamesIn(Raw(w.mem.pools));
    RecordedOursPath(ANYTHING, w, recorded, derived);
    RecordedAreNamed(w, recorded, derived);
    var (w1, r, ours) := RecordedOurs(w, recorded, derived);
    if r == Ok {
      var pools := UniqueSorted(derived + ours);
      SortedValid(derived, ours);
      if |pools| > MAX_POOLS {
        assert TooMany(w, pools, derived);
      } else {
        var (w2, r2, at) := EnsureMetadata(w1, pools, requested, kept, w.tries);
        if r2 == Ok { StartHolds(w2, pools, kept, at); }
      }
    }
  }

  lemma StartHolds(w: World, pools: seq<string>, kept: seq<string>, at: Stamp)
    ensures Start(w, pools, kept, at).1 == Ok ==> Start(w, pools, kept, at).0.mem.batch.Some?
  {
    hide PauseFrom, ApplyEach, ResumeBestEffort;
  }

  // ---- what is written down ----

  /** A start already there stays, an unusable one becomes a long-past instant, a missing one the clock. */
  predicate StartsAs(note: StartNote, at: Stamp, earliest: int, latest: int) {
    match note
    case StartedAt(t) => at == At(t)
    case BadStart => at == At(1_000_000_000)
    case NoStart => at.At? && earliest <= at.ns <= latest
  }

  /** The start an open records and works with, however many attempts the write takes. */
  lemma {:induction false} FirstStart(w: World, pools: seq<string>, requested: seq<string>, kept: seq<string>, attempts: nat)
    requires Start0(ANYTHING, w)
    ensures var (w2, r, at) := EnsureMetadata(w, pools, requested, kept, attempts);
      r == Ok ==> StartsAs(w.d.cr.started, at, w.d.now, w2.d.now)
    decreases attempts
  {
    hide Path, Linked, Fine, Wf, TryRecord;
    if attempts > 0 {
      TryRecordStart(w, pools, requested, kept);
      var (w1, r, at) := TryRecord(w, pools, requested, kept);
      if r == Stale {
        FirstStart(w1, pools, requested, kept, attempts - 1);
      }
    }
  }

  lemma TryRecordStart(w: World, pools: seq<string>, requested: seq<string>, kept: seq<string>)
    requires Start0(ANYTHING, w)
    ensures var (w2, r, at) := TryRecord(w, pools, requested, kept);
      && w.d.now <= w2.d.now
      && (r == Stale ==> Start0(ANYTHING, w2) && w2.d.cr.started == w.d.cr.started)
      && (r == Done ==> StartsAs(w.d.cr.started, at, w.d.now, w2.d.now))
  {
    hide Path, Linked, Fine, Wf, NamesIn, UniqueSorted, Join;
    CallPath(ANYTHING, w);
    var (w1, o) := Call(w);
    if o == Served {
      CallPath(ANYTHING, w1);
    }
  }

  /** A reconcile that succeeds has stored exactly the batch its work left, none included. */
  lemma ReconcileStores(w: World)
    requires Start0(ANYTHING, w) && Reconcile(w).1 == Ok
    ensures var w1 := Call(w).0;
      var (w3, r) := ApplyBatch(w1.(mem := w1.d.cr, base := w1.d.cr));
      r == Ok && Reconcile(w).0.d.cr.batch == w3.mem.batch
  {
    hide Path, Linked, Fine, Wf, ApplyBatch, Dirty, Losing, SanitizeBatch;
    var w1 := Call(w).0;
    var (w3, r) := ApplyBatch(w1.(mem := w1.d.cr, base := w1.d.cr));
    BatchWorkPath(ANYTHING, w);
    OwnerFits(w3);
    if w3.mem.batch.Some? {
      SanitizeIdentity(w3.mem.batch.value, w3.owner);
    } else {
      assert SanitizeBatch(None) == None by { NothingToSanitize(); }
    }
    CallPath(ANYTHING, w3);
  }

  lemma NothingToSanitize()
    ensures SanitizeBatch(None) == None
  {
  }

  lemma OwnerFits(w: World)
    requires Start0(ANYTHING, w)
    ensures |w.owner| <= 253
  {
  }

  // ---- the pool a remediation reboots ----

  /** pat stands in s at i. */
  predicate StandsAt(s: string, pat: string, i: int) {
    0 <= i && i + |pat| <= |s| && s[i..i + |pat|] == pat
  }

  ghost predicate LastStand(s: string, pat: string, i: int) {
    StandsAt(s, pat, i) && forall j :: StandsAt(s, pat, j) ==> j <= i
  }

  /** An occurrence before the last character is one in the text without it. */
  lemma StandsInFront(s: string, pat: string, j: int)
    requires s != "" && StandsAt(s, pat, j)
    ensures j + |pat| < |s| ==> StandsAt(s[..|s| - 1], pat, j)
    ensures j + |pat| == |s| ==> s[|s| - |pat|..] == pat
  {
    if j + |pat| < |s| {
      assert s[..|s| - 1][j..j + |pat|] == s[j..j + |pat|];
    } else {
      assert s[|s| - |pat|..|s|] == s[|s| - |pat|..];
    }
  }

  lemma {:induction false} LastIndexIsLast(s: string, pat: string)
    requires pat != ""
    ensures var i := LastIndex(s, pat);
      && (i == -1 || StandsAt(s, pat, i))
      && forall j :: StandsAt(s, pat, j) ==> j <= i
    decreases |s|
  {
    if |s| >= |pat| && s[|s| - |pat|..] != pat {
      LastIndexIsLast(s[..|s| - 1], pat);
      forall j | StandsAt(s, pat, j) ensures j <= LastIndex(s, pat) {
        StandsInFront(s, pat, j);
      }
    }
  }

  /** The role label when it is a name, else what follows the scan name's last "-node-" when that is one. */
  lemma PoolIs(r: Remediation, i: nat)
    ensures ValidName(r.role) ==> PoolFromRemediation(r) == r.role
    ensures !ValidName(r.role) && LastStand(r.scan, "-node-", i) ==>
      PoolFromRemediation(r) == if ValidName(r.scan[i + 6..]) then r.scan[i + 6..] else ""
    ensures !ValidName(r.role) && (forall j :: !StandsAt(r.scan, "-node-", j)) ==> PoolFromRemediation(r) == ""
  {
    hide ValidName, LastIndex;
    LastIndexIsLast(r.scan, NODE_INFIX);
  }

  // ---- what is counted ----

  /** The ClusterBaseline carries one of the three annotations of an unfinished batch. */
  predicate Annotated(cr: Cr) {
    Raw(cr.request) != "" || cr.started != NoStart || Raw(cr.pools) != ""
  }

  /** Between w and w2 exactly one outcome is counted, as the last event, or none at all. */
  ghost predicate Counts(w: World, w2: World, one: bool) {
    && (forall i :: |w.trace| <= i < |w2.trace| && w2.trace[i].what.Counted? ==> one && i == |w2.trace| - 1)
    && (one ==> |w2.trace| > |w.trace| && w2.trace[|w2.trace| - 1].what.Counted?)
  }

  /**
    Recovery without a request does nothing when nothing is annotated; otherwise its success
    leaves no recovery annotation and counts one outcome, orphaned.
  */
  lemma OrphanCounts(w: World)
    requires Start0(ANYTHING, w) && JustRead(w) && w.mem.batch.None? && NamesIn(Raw(w.mem.request)) == []
    ensures var (w2, r) := ResumeOrphaned(w);
      var annotated := w.mem.request.Some? || w.mem.started != NoStart || Raw(w.mem.pools) != "";
      && (!annotated ==> w2 == w && r == Ok)
      && (annotated && r == Ok ==> Counts(w, w2, true) && EndsIn(w2, Counted("orphaned"))
                                   && w2.d.cr.started == NoStart && w2.d.cr.pools == None)
  {
    hide Path, Linked, Fine, Wf, NoLeak, Ours, ResumeAll, ClearAnnotations, NamesIn;
    var s := ANYTHING.(countable := false);
    var pools := NamesIn(Raw(w.mem.pools));
    ResumeAllPath(s, w, pools);
    var (w1, r1) := ResumeAll(w, pools, w.owner);
    Uncounted(s, w, w1);
    Grows(s, w, w1);
    if r1 == Ok {
      ClearPath(s, w1, [], true, w.tries);
      var (w2, r2) := ClearAnnotations(w1, [], true, w.tries);
      Uncounted(s, w1, w2);
      Grows(s, w1, w2);
    }
  }

  /** A finish that drops the batch counts one outcome exactly when the batch was still annotated. */
  lemma FinishCounts(w: World)
    requires Start0(ANYTHING, w) && JustRead(w) && w.mem.batch.Some?
    ensures var (w2, r) := Finish(w);
      r == Ok && w2.mem.batch.None? ==> Counts(w, w2, Annotated(w.mem))
  {
    hide Path, Linked, Fine, Wf, Release, Look, BatchPastGrace;
    var s := ANYTHING.(countable := false);
    var batch := w.mem.batch.value;
    var names := Valids(Capped(batch.remediations));
    ListPath(s, w, names);
    var w1 := ListRemediations(w, names).0;
    Uncounted(s, w, w1);
    Grows(s, w, w1);
    forall reason: string
      ensures var (w2, r) := Release(w1, batch, Unreported(w.mem), reason);
        r == Ok ==> Counts(w, w2, Annotated(w.mem))
    {
      ReleaseCounts(w1, batch, Unreported(w.mem), reason);
    }
  }
}
