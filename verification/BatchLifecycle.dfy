/**
  The life of one request: who may clear it, that a finished batch leaves nothing behind and
  cannot reopen, that it is counted at most once, and that its pause is bounded in time.
*/
module BatchLifecycle {
  import opened Options
  import opened Text
  import opened K8sNames
  import opened BatchModel
  import opened BatchSpec
  import opened BatchPaths
  import opened BatchSafety
  import opened BatchOwnership

  // ---- a concurrent resubmit survives ----

  /** The set of names the reconcile is working for. */
  ghost function OwnRequest(w: World): seq<string> {
    if w.mem.batch.Some? then w.mem.batch.value.remediations else NamesIn(Raw(w.mem.request))
  }

  /** Whatever the operator writes, a request naming any other set is left as it is. */
  lemma ResubmitSurvives(w: World, i: nat)
    requires Wf(w.owner, w.d) && JustRead(w)
    requires |w.trace| <= i < |ApplyBatch(w).0.trace|
    ensures var ev := ApplyBatch(w).0.trace[i];
      !ev.what.Env? && ev.post.cr.request != ev.pre.cr.request ==>
        ev.pre.cr.request.Some? && NamesIn(ev.pre.cr.request.value) == OwnRequest(w)
  {
    hide Open, Finish, Linked;
    var s := ANYTHING.(answerable := iset{OwnRequest(w)});
    if w.mem.batch.None? { OpenPath(s, w); } else { FinishPath(s, w); }
    var w2 := ApplyBatch(w).0;
    LinkedEvent(s, w.owner, w.d, w2.trace[|w.trace|..], w2.d, i - |w.trace|);
    assert "" !in OwnRequest(w) by {
      if w.mem.batch.Some? { assert !ValidName(""); }
    }
    UniqueSortedFixpoint(OwnRequest(w));
  }

  // ---- counting ----

  ghost function Count(evs: seq<Event>): nat {
    if evs == [] then 0 else (if evs[0].what.Counted? then 1 else 0) + Count(evs[1..])
  }

  lemma {:induction false} CountAppend(a: seq<Event>, b: seq<Event>)
    ensures Count(a + b) == Count(a) + Count(b)
  {
    if a == [] {
      assert a + b == b;
    } else {
      assert (a + b)[0] == a[0] && (a + b)[1..] == a[1..] + b;
      CountAppend(a[1..], b);
    }
  }

  lemma {:induction false} LinkedUncounted(s: Scope, owner: string, d: Durable, evs: seq<Event>, d2: Durable)
    requires Linked(s, owner, d, evs, d2) && !s.countable
    ensures Count(evs) == 0
    decreases |evs|
  {
    if evs != [] {
      LinkedUncounted(s, owner, evs[0].post, evs[1..], d2);
    }
  }

  /** A path that may not count, counts nothing. */
  lemma PathUncounted(s: Scope, w: World, w2: World)
    requires Path(s, w, w2) && !s.countable
    ensures Count(w2.trace) == Count(w.trace)
  {
    var evs := w2.trace[|w.trace|..];
    LinkedUncounted(s, w.owner, w.d, evs, w2.d);
    CountAppend(w.trace, evs);
    assert w2.trace == w.trace + evs;
  }

  ghost const UNCOUNTED: Scope := ANYTHING.(countable := false)

  /** What a spent batch may still do: resume pools and rewrite nothing, pause and apply nothing. */
  ghost const HANDS_OFF: Scope := UNCOUNTED.(pausable := iset{}, appliable := iset{})

  // ---- without interference ----

  /** Nothing of the request is left on the CR. */
  ghost predicate Spent(cr: Cr) {
    cr.request == None && cr.started == NoStart && cr.pools == None
  }

  /** A stored batch still has its own request, or everything is already cleared. */
  ghost predicate Matched(cr: Cr) {
    cr.batch.Some? ==>
      Spent(cr) || (cr.request.Some? && NamesIn(cr.request.value) == cr.batch.value.remediations)
  }

  ghost predicate FullyRead(w: World) {
    JustRead(w) && w.mem.request == w.d.cr.request
  }

  /** What a routine leaves for the status write: the request of the batch held in memory. */
  ghost predicate MemMatched(w: World) {
    && Quiet(w)
    && (w.mem.batch.Some? ==> Matched(w.d.cr.(batch := w.mem.batch)))
    && Matched(w.d.cr)
  }

  lemma QuietStart(w: World, pools: seq<string>, kept: seq<string>, at: Stamp)
    requires Start0(UNCOUNTED, w) && w.d.cr.batch.None? && w.mem.batch.None? && Quiet(w)
    requires NamesIn(Raw(w.d.cr.pools)) == pools && SortedNames(pools, MAX_POOLS)
    requires SortedNames(kept, MAX_REMEDIATIONS) && at != Zero
    requires w.d.cr.request.Some? && NamesIn(w.d.cr.request.value) == kept
    ensures MemMatched(Start(w, pools, kept, at).0)
    ensures Start(w, pools, kept, at).0.d.cr.batch.None?
    ensures Count(Start(w, pools, kept, at).0.trace) == Count(w.trace)
  {
    hide Path, Linked, Fine, Wf, Quiet, PauseFrom, ResumeBestEffort, ApplyEach, MemMatched, Hold, RecordPrefix, NamesIn;
    var s := UNCOUNTED;
    StartPath(s, w, pools, kept, at);
    PathUncounted(s, w, Start(w, pools, kept, at).0);
    PauseFromPath(s, w, pools, 0);
    var (w1, r, n) := PauseFrom(w, pools, 0);
    NoBatchMatched(w1);
    if r == Err {
      BestEffortPath(s, w1, pools[..n], false);
      var w2 := ResumeBestEffort(w1, pools[..n], w.owner, false).0;
      NoBatchMatched(w2);
      HoldMatched(w2, pools, n, kept, at);
    } else if r == Ok {
      ApplyEachPath(s, w1, kept, w.mem.suites);
      var (w2, r2) := ApplyEach(w1, kept, w.mem.suites);
      NoBatchMatched(w2);
      HoldMatched(w2, pools, 0, kept, at);
      BestEffortPath(s, w2, pools, false);
      var w3 := ResumeBestEffort(w2, pools, w.owner, false).0;
      NoBatchMatched(w3);
      HoldMatched(w3, pools, 0, kept, at);
    }
  }

  lemma NoBatchMatched(w: World)
    requires Quiet(w) && w.d.cr.batch.None? && w.mem.batch.None?
    ensures MemMatched(w)
  {
  }

  /** Holding a batch for the request that is stored is matched, recorded whole or as a prefix. */
  lemma HoldMatched(w: World, pools: seq<string>, n: nat, kept: seq<string>, at: Stamp)
    requires Quiet(w) && w.d.cr.batch.None? && n <= |pools|
    requires w.d.cr.request.Some? && NamesIn(w.d.cr.request.value) == kept
    ensures MemMatched(Hold(w, pools, kept, at)) && Hold(w, pools, kept, at).d == w.d
    ensures forall held, landed ::
      var w2 := RecordPrefix(w, pools, n, kept, at, held, landed);
      MemMatched(w2) && w2.d == w.d
  {
  }

  lemma QuietSame(w: World, w2: World)
    requires w2.script == w.script
    ensures Quiet(w) ==> Quiet(w2)
  {
  }

  lemma {:induction false} KeepAll(names: seq<string>, rems: map<string, Remediation>, suites: set<string>)
    ensures |Keep(names, rems, suites)| == |names| ==> Keep(names, rems, suites) == names
  {
    if names != [] {
      KeepAll(names[1..], rems, suites);
    }
  }

  /** Recording rewrites the request to the kept names, or they already are the request. */
  lemma RecordedRequest(cr: Cr, pools: seq<string>, requested: seq<string>, kept: seq<string>)
    requires cr.request.Some? && NamesIn(cr.request.value) == requested
    requires SortedNames(kept, MAX_REMEDIATIONS) && |kept| <= |requested|
    requires |kept| == |requested| ==> kept == requested
    ensures var r := Recorded(cr, pools, requested, kept, 0).request;
      r.Some? && NamesIn(r.value) == kept
  {
    NamesRoundTrip(kept);
    UniqueSortedFixpoint(requested);
  }

  lemma QuietOpenKept(w: World, requested: seq<string>, kept: seq<string>, derived: seq<string>)
    requires Start0(UNCOUNTED, w) && FullyRead(w) && w.mem.batch.None? && Quiet(w)
    requires w.d.cr.request.Some? && NamesIn(w.d.cr.request.value) == requested
    requires SortedNames(kept, MAX_REMEDIATIONS) && |kept| <= |requested|
    requires |kept| == |requested| ==> kept == requested
    requires forall p :: p in derived ==> ValidName(p)
    ensures var w2 := OpenKept(w, requested, kept, derived).0;
      MemMatched(w2) && w2.d.cr.batch.None? && Count(w2.trace) == Count(w.trace)
  {
    hide Path, Linked, Fine, Wf, Quiet, Start, Recorded;
    var s := UNCOUNTED;
    OpenKeptPath(s, w, requested, kept, derived);
    PathUncounted(s, w, OpenKept(w, requested, kept, derived).0);
    RecordedOursPath(s, w, NamesIn(Raw(w.mem.pools)), derived);
    var (w1, r, ours) := RecordedOurs(w, NamesIn(Raw(w.mem.pools)), derived);
    if r == Ok {
      var pools := UniqueSorted(derived + ours);
      ClearPath(s, w1, requested, false, w.tries);
      if |pools| <= MAX_POOLS {
        OursStayListed(s, w, w1, derived, ours, pools);
        EnsurePath(s, w1, pools, requested, kept, w.tries);
        var (w2, r2, at) := EnsureMetadata(w1, pools, requested, kept, w.tries);
        if r2 == Ok {
          RecordedRequest(w1.d.cr, pools, requested, kept);
          QuietStart(w2, pools, kept, at);
          PathUncountedEnsure(w1, pools, requested, kept);
        }
      }
    }
  }

  lemma PathUncountedEnsure(w: World, pools: seq<string>, requested: seq<string>, kept: seq<string>)
    requires Start0(UNCOUNTED, w) && w.d.cr.batch.None? && SortedNames(pools, MAX_POOLS)
    ensures Count(EnsureMetadata(w, pools, requested, kept, w.tries).0.trace) == Count(w.trace)
  {
    EnsurePath(UNCOUNTED, w, pools, requested, kept, w.tries);
    PathUncounted(UNCOUNTED, w, EnsureMetadata(w, pools, requested, kept, w.tries).0);
  }

  /** What one job does to an unattended request. */
  ghost predicate Progress(w: World, w2: World) {
    && Quiet(w2) && Matched(w2.d.cr)
    && Count(w.trace) <= Count(w2.trace) <= Count(w.trace) + 1
    && (Count(w2.trace) > Count(w.trace) ==> Spent(w2.d.cr))
    && (Spent(w.d.cr) ==> Spent(w2.d.cr) && Count(w2.trace) == Count(w.trace))
  }

  lemma QuietOrphan(w: World)
    requires Start0(UNCOUNTED, w) && FullyRead(w) && w.mem.batch.None? && Quiet(w)
    requires NamesIn(Raw(w.mem.request)) == []
    ensures var w2 := ResumeOrphaned(w).0;
      Progress(w, w2) && MemMatched(w2) && w2.mem.batch.None? && w2.d.cr.batch.None?
  {
    hide Path, Linked, Fine, Wf, Quiet, ResumeAll, ClearAnnotations, NamesIn, Ours, NoLeak;
    var s := UNCOUNTED;
    var pools := NamesIn(Raw(w.mem.pools));
    ResumeAllPath(s, w, pools);
    var (w1, r) := ResumeAll(w, pools, w.owner);
    PathUncounted(s, w, w1);
    if r == Ok {
      ClearPath(s, w1, [], true, w.tries);
      var (w2, r2) := ClearAnnotations(w1, [], true, w.tries);
      PathUncounted(s, w1, w2);
      QuietSame(w2, Note(w2, Counted("orphaned")));
      CountAppend(w2.trace, [Event(Counted("orphaned"), w2.d, w2.d)]);
      OneCounted("orphaned", w2.d);
    }
  }

  lemma OneCounted(reason: string, d: Durable)
    ensures Count([Event(Counted(reason), d, d)]) == 1
  {
    assert [Event(Counted(reason), d, d)][1..] == [];
  }

  lemma QuietOpen(w: World)
    requires Start0(UNCOUNTED, w) && FullyRead(w) && w.mem.batch.None? && Quiet(w)
    ensures var w2 := Open(w).0;
      Progress(w, w2) && MemMatched(w2) && w2.d.cr.batch.None? && (Spent(w.d.cr) ==> w2.mem.batch.None?)
      && (Count(w2.trace) > Count(w.trace) ==> w2.mem.batch.None?)
  {
    hide Path, Linked, Fine, Wf, Quiet, OpenKept, NamesIn, Ours;
    var s := UNCOUNTED;
    var requested := NamesIn(Raw(w.mem.request));
    EmptyTextHasNoNames();
    if requested == [] {
      QuietOrphan(w);
    } else if |requested| > MAX_REMEDIATIONS || !AllValid(requested) {
      ClearPath(s, w, requested, false, w.tries);
      PathUncounted(s, w, ClearAnnotations(w, requested, false, w.tries).0);
    } else {
      ListPath(s, w, requested);
      var (w1, l) := ListRemediations(w, requested);
      PathUncounted(s, w, w1);
      if l.Listed? {
        var kept := Keep(requested, l.rems, w.mem.suites);
        KeepSorted(requested, l.rems, w.mem.suites);
        KeepAll(requested, l.rems, w.mem.suites);
        PoolsOfValid(kept, l.rems, w.mem.suites);
        if kept == [] {
          ClearPath(s, w1, requested, false, w.tries);
          PathUncounted(s, w1, ClearAnnotations(w1, requested, false, w.tries).0);
        } else {
          QuietOpenKept(w1, requested, kept, PoolsOf(kept, l.rems, w.mem.suites));
        }
      }
    }
  }

  lemma EmptyTextHasNoNames()
    ensures NamesIn("") == []
  {
    assert Split("", ',') == [""] && TrimmedItems([""]) == [];
  }

  lemma QuietRelease(w: World, batch: Batch, countThis: bool, reason: string)
    requires Start0(UNCOUNTED, w) && w.d.cr.batch == Some(batch) == w.mem.batch && Quiet(w)
    requires Matched(w.d.cr) && (countThis ==> !Spent(w.d.cr))
    ensures var (w2, r) := Release(w, batch, countThis, reason);
      && Progress(w, w2) && MemMatched(w2) && (r == Ok ==> Spent(w2.d.cr))
      && (w2.mem.batch.Some? ==> w2.mem.batch == w.mem.batch)
  {
    hide Path, Linked, Fine, Wf, Quiet, ResumeAll, ClearAnnotations;
    var s := UNCOUNTED;
    BatchIsOurs(s, w);
    ResumeAllPath(s, w, batch.pools);
    var (w1, r) := ResumeAll(w, batch.pools, batch.owner);
    PathUncounted(s, w, w1);
    assert !ValidName("");
    UniqueSortedFixpoint(batch.remediations);
    if r == Ok {
      ClearPath(s, w1, batch.remediations, true, w.tries);
      var (w2, r2) := ClearAnnotations(w1, batch.remediations, true, w.tries);
      PathUncounted(s, w1, w2);
      if r2 == Ok {
        assert Spent(w2.d.cr);
        var w3 := if countThis then Note(w2, Counted(reason)) else w2;
        QuietSame(w2, w3.(mem := w3.mem.(batch := None)));
        CountAppend(w2.trace, [Event(Counted(reason), w2.d, w2.d)]);
        OneCounted(reason, w2.d);
      }
    }
  }

  lemma QuietFinish(w: World)
    requires Start0(UNCOUNTED, w) && FullyRead(w) && w.mem.batch.Some? && Quiet(w) && Matched(w.d.cr)
    ensures var (w2, r) := Finish(w);
      && Progress(w, w2) && MemMatched(w2)
      && (r == Ok && w2.mem.batch.None? ==> Spent(w2.d.cr))
      && (w2.mem.batch.Some? ==> w2.mem.batch == w.mem.batch)
  {
    hide Path, Linked, Fine, Wf, Quiet, Release, Look, BatchPastGrace, NoLeak, Ours, NamesIn;
    var s := UNCOUNTED;
    var batch := w.mem.batch.value;
    var names := Valids(Capped(batch.remediations));
    ListPath(s, w, names);
    var w1 := ListRemediations(w, names).0;
    PathUncounted(s, w, w1);
    forall reason: string
      ensures var (w2, r) := Release(w1, batch, Unreported(w.mem), reason);
        && Progress(w1, w2) && MemMatched(w2) && (r == Ok ==> Spent(w2.d.cr))
        && (w2.mem.batch.Some? ==> w2.mem.batch == w1.mem.batch)
    {
      QuietRelease(w1, batch, Unreported(w.mem), reason);
    }
  }

  lemma QuietStatus(w: World)
    requires Start0(UNCOUNTED, w) && StatusReady(UNCOUNTED, w) && MemMatched(w)
    ensures var w2 := WriteStatus(w).0;
      Quiet(w2) && Matched(w2.d.cr) && Count(w2.trace) == Count(w.trace) && SameNotes(w2.d.cr, w.d.cr)
  {
    WriteStatusPath(UNCOUNTED, w);
    PathUncounted(UNCOUNTED, w, WriteStatus(w).0);
    CallPath(UNCOUNTED, w);
    if w.mem.batch.Some? {
      SanitizeIdentity(w.mem.batch.value, w.owner);
    }
  }

  lemma QuietReconcile(w: World)
    requires Start0(UNCOUNTED, w) && Quiet(w) && Matched(w.d.cr)
    ensures Progress(w, Reconcile(w).0)
  {
    hide Path, Linked, Fine, Wf, Quiet, Open, Finish, WriteStatus;
    var all := ANYTHING;
    CallPath(UNCOUNTED, w);
    var (w1, o) := Call(w);
    PathUncounted(UNCOUNTED, w, w1);
    if o == Served {
      var w2 := w1.(mem := w1.d.cr, base := w1.d.cr);
      QuietSame(w1, w2);
      var (w3, r) := ApplyBatch(w2);
      if w2.mem.batch.None? {
        QuietOpen(w2);
        OpenPath(all, w2);
      } else {
        QuietFinish(w2);
        FinishPath(all, w2);
      }
      if r != Died {
        QuietStatus(w3);
      }
    }
  }

  lemma QuietDelete(w: World)
    requires Start0(UNCOUNTED, w) && Quiet(w) && Matched(w.d.cr)
    ensures Progress(w, DeleteJob(w).0)
  {
    hide Path, Linked, Fine, Wf, Quiet, ResumeAll, ListRemediations, UniqueSorted, NamesIn, Ours, NoLeak, Call;
    var s := UNCOUNTED;
    DeletePath(s, w);
    PathUncounted(s, w, DeleteJob(w).0);
    CallPath(s, w);
    var (w1, o) := Call(w);
    if o == Served {
      var w2 := w1.(mem := w1.d.cr, base := w1.d.cr);
      QuietSame(w1, w2);
      var batchPools := if w2.mem.batch.Some? then UniqueSorted(w2.mem.batch.value.pools) else [];
      if batchPools != [] {
        BatchIsOurs(s, w2);
        ResumeAllPath(s, w2, batchPools);
      } else {
        var names := Valids(Capped(NamesIn(Raw(w2.mem.request))));
        ListPath(s, w2, names);
        var (w3, l) := ListRemediations(w2, names);
        if l.Listed? || l == NoCrd {
          var found := if l.Listed? then PoolsOf(names, l.rems, w2.mem.suites) else [];
          ResumeAllPath(s, w3, UniqueSorted(NamesIn(Raw(w2.mem.pools)) + found));
        }
      }
    }
  }

  /**
    Left alone, a request's batch outcome is counted at most once over any run, whatever
    crashes and failed status writes fall in between; once counted, nothing of it is left.
  */
  lemma {:induction false} CountedAtMostOnce(w: World, jobs: seq<Job>)
    requires Wf(w.owner, w.d) && Quiet(w) && Matched(w.d.cr)
    ensures Progress(w, Run(w, jobs))
    decreases |jobs|
  {
    hide Wf, Quiet, Reconcile, DeleteJob;
    if jobs != [] {
      var w1 := if jobs[0] == DoReconcile then Reconcile(w).0 else DeleteJob(w).0;
      if jobs[0] == DoReconcile {
        QuietReconcile(w);
        ReconcilePath(ANYTHING, w);
      } else {
        QuietDelete(w);
        DeletePath(ANYTHING, w);
      }
      CountedAtMostOnce(w1, jobs[1..]);
    }
  }

  /** Left alone, a finish that drops the batch leaves no request and no recovery annotation. */
  lemma FinishLeavesNothing(w: World)
    requires Wf(w.owner, w.d) && FullyRead(w) && w.mem.batch.Some? && Quiet(w) && Matched(w.d.cr)
    ensures Finish(w).1 == Ok && Finish(w).0.mem.batch.None? ==> Spent(Finish(w).0.d.cr)
  {
    QuietFinish(w);
  }

  /** A spent batch cannot reopen: no later job pauses a pool, applies a remediation or counts. */
  lemma {:induction false} SpentNeverReopens(w: World, jobs: seq<Job>)
    requires Wf(w.owner, w.d) && Quiet(w) && Spent(w.d.cr)
    ensures Spent(Run(w, jobs).d.cr) && Reach(HANDS_OFF, w, Run(w, jobs))
    decreases |jobs|
  {
    hide Path, Linked, Fine, Wf, Quiet, Reconcile, DeleteJob;
    PathRefl(HANDS_OFF, w);
    if jobs != [] {
      var w1 := if jobs[0] == DoReconcile then Reconcile(w).0 else DeleteJob(w).0;
      if jobs[0] == DoReconcile {
        QuietReconcile(w);
        SpentReconcile(w);
      } else {
        QuietDelete(w);
        DeletePath(HANDS_OFF, w);
      }
      SpentNeverReopens(w1, jobs[1..]);
      PathTrans(HANDS_OFF, w, w1, Run(w1, jobs[1..]));
    }
  }

  lemma SpentReconcile(w: World)
    requires Start0(HANDS_OFF, w) && Quiet(w) && Spent(w.d.cr)
    ensures Reach(HANDS_OFF, w, Reconcile(w).0)
  {
    hide Path, Linked, Fine, Wf, Quiet, Finish, WriteStatus;
    var s := HANDS_OFF;
    CallPath(s, w);
    var (w1, o) := Call(w);
    if o == Served {
      var w2 := w1.(mem := w1.d.cr, base := w1.d.cr);
      SameTrace(s, w, w1, w2);
      assert Spent(w2.mem);
      EmptyTextHasNoNames();
      var (w3, r) := ApplyBatch(w2);
      if w2.mem.batch.None? {
        assert w3 == w2 && r == Ok;
      } else {
        FinishPath(s, w2);
        PathTrans(s, w, w2, w3);
      }
      if r != Died {
        ReadyAfter(s, w2, w3);
        WriteStatusPath(s, w3);
        PathTrans(s, w, w3, WriteStatus(w3).0);
      }
    }
  }

  lemma ReadyAfter(s: Scope, w2: World, w3: World)
    requires !s.safe && Start0(s, w3) && (w2.mem.batch.Some? ==> StatusReady(s, w3))
    requires w2.mem.batch.None? ==> w3.mem.batch.None?
    ensures StatusReady(s, w3)
  {
  }

  // ---- the pause is bounded ----

  predicate DropsRecovery(what: What) {
    what.Annotated? && what.cause.Clearing? && what.cause.recovery
  }

  /** Once recorded, the start time stays until a clear drops the recovery annotations. */
  lemma {:induction false} StartNeverMoves(s: Scope, owner: string, d: Durable, evs: seq<Event>, d2: Durable)
    requires Linked(s, owner, d, evs, d2) && d.cr.started.StartedAt?
    requires forall i :: 0 <= i < |evs| ==> !DropsRecovery(evs[i].what)
    ensures d2.cr.started == d.cr.started
    decreases |evs|
  {
    if evs != [] {
      assert Lawful(owner, evs[0]);
      forall i | 0 <= i < |evs[1..]| ensures !DropsRecovery(evs[1..][i].what) {
        assert evs[1..][i] == evs[i + 1];
      }
      StartNeverMoves(s, owner, evs[0].post, evs[1..], d2);
    }
  }

  /** A failed or retried open, any number of times: the durable start time is the first one. */
  lemma RetriedOpensKeepStart(w: World, jobs: seq<Job>)
    requires Wf(w.owner, w.d) && w.d.cr.started.StartedAt?
    requires forall i :: |w.trace| <= i < |Run(w, jobs).trace| ==> !DropsRecovery(Run(w, jobs).trace[i].what)
    ensures Run(w, jobs).d.cr.started == w.d.cr.started
  {
    RunPath(ANYTHING, w, jobs);
    var w2 := Run(w, jobs);
    var evs := w2.trace[|w.trace|..];
    forall i | 0 <= i < |evs| ensures !DropsRecovery(evs[i].what) {
      assert evs[i] == w2.trace[|w.trace| + i];
    }
    StartNeverMoves(ANYTHING, w.owner, w.d, evs, w2.d);
  }

  /** The batch an open records carries the durable start time. */
  lemma RecordedStartIsDurable(w: World, pools: seq<string>, requested: seq<string>, kept: seq<string>)
    requires Wf(w.owner, w.d) && w.d.cr.batch.None? && SortedNames(pools, MAX_POOLS)
    ensures var (w2, r, at) := EnsureMetadata(w, pools, requested, kept, w.tries);
      r == Ok ==> w2.d.cr.started.StartedAt? && at == At(w2.d.cr.started.ns)
  {
    EnsurePath(ANYTHING, w, pools, requested, kept, w.tries);
  }

  /** Past its grace is a start that is missing, or more than ten minutes away from now in either direction. */
  lemma GraceExactly(started: Stamp, now: int)
    ensures BatchPastGrace(started, now) <==>
      started.Zero? || now - started.ns > 600_000_000_000 || started.ns - now > 600_000_000_000
  {
  }

  /** Whatever the start value, the valve is open now or at every instant past twice the grace. */
  lemma GraceIsBounded(started: Stamp, t: int, u: int)
    requires u > t + 2 * GRACE
    ensures BatchPastGrace(started, t) || BatchPastGrace(started, u)
  {
  }

  /**
    The valve closes again exactly when the start lies more than the grace after t and within it
    of u; one eleven minutes ahead is corrupt now and plausible in two minutes.
  */
  lemma GraceIsNotMonotone(started: Stamp, t: int, u: int)
    requires t < u
    ensures BatchPastGrace(started, t) && !BatchPastGrace(started, u)
       <==> started.At? && t + GRACE < started.ns && u - GRACE <= started.ns <= u + GRACE
    ensures BatchPastGrace(At(660 * SECOND), 0) && !BatchPastGrace(At(660 * SECOND), 120 * SECOND)
  {
  }

  /** Nobody else writes the ClusterBaseline; pools, remediations and the clock may move. */
  ghost predicate Aloof(env: seq<EnvStep>) {
    forall e :: e in env ==> !e.Resubmit? && !e.Withdraw? && !e.SetSuites?
  }

  /** The next n calls are served, and meanwhile only the operator writes the ClusterBaseline. */
  ghost predicate Smooth(w: World, n: nat) {
    |w.script| >= n && forall i :: 0 <= i < n ==> w.script[i].outcome == Served && Aloof(w.script[i].env)
  }

  /** The ClusterBaseline and the pools carrying our marker stay. */
  ghost predicate Untouched(w: World, w1: World) {
    && w1.owner == w.owner && w1.tries == w.tries && w1.mem == w.mem && w1.d.cr == w.d.cr
    && forall p :: p in w.d.mcps && w.d.mcps[p].marker == w.owner ==> p in w1.d.mcps && w1.d.mcps[p] == w.d.mcps[p]
  }

  lemma {:induction false} SettleUntouched(w: World, env: seq<EnvStep>)
    requires Aloof(env)
    ensures Untouched(w, Settle(w, env))
    decreases |env|
  {
    if env != [] {
      SettleUntouched(Move(w, Env(env[0]), ApplyEnv(w.owner, w.d, env[0])), env[1..]);
    }
  }

  lemma SmoothCall(w: World, n: nat)
    requires n > 0 && Smooth(w, n)
    ensures var (w1, o) := Call(w);
      o == Served && Smooth(w1, n - 1) && Untouched(w, w1)
  {
    SettleUntouched(w.(script := w.script[1..]), w.script[0].env);
  }

  lemma SmoothResume(w: World, pool: string, n: nat)
    requires w.tries > 0 && w.owner != "" && Smooth(w, n + 2)
    ensures var (w2, r) := SetPaused(w, pool, false, w.owner, w.tries);
      r == Ok && Smooth(w2, n) && w2.owner == w.owner && w2.tries == w.tries && w2.mem == w.mem
  {
    SmoothCall(w, n + 2);
    var w1 := Call(w).0;
    SmoothCall(w1, n + 1);
  }

  lemma {:induction false} SmoothResumeAll(w: World, pools: seq<string>, n: nat)
    requires w.tries > 0 && w.owner != "" && Smooth(w, n + 2 * |pools|)
    ensures var (w2, r) := ResumeAll(w, pools, w.owner);
      r == Ok && Smooth(w2, n) && w2.owner == w.owner && w2.tries == w.tries && w2.mem == w.mem
    decreases |pools|
  {
    hide SetPaused, Smooth;
    if pools != [] {
      SmoothResume(w, pools[0], n + 2 * |pools[1..]|);
      SmoothResumeAll(SetPaused(w, pools[0], false, w.owner, w.tries).0, pools[1..], n);
    }
  }

  lemma SmoothClear(w: World, names: seq<string>)
    requires w.tries > 0 && Smooth(w, 2)
    ensures ClearAnnotations(w, names, true, w.tries).1 == Ok
  {
    SmoothCall(w, 2);
    var w1 := Call(w).0;
    SmoothCall(w1.(base := w1.d.cr), 1);
  }

  /** The cluster as a finish sees it after listing the batch's remediations. */
  ghost function AfterListing(w: World): World
    requires w.mem.batch.Some?
  {
    ListRemediations(w, Valids(Capped(w.mem.batch.value.remediations))).0
  }

  /**
    A reconcile that finds the batch past its grace, with calls served and no other writer on
    the ClusterBaseline, resumes every pool, clears the annotations and drops the batch,
    whatever the remediations show and others do to the cluster.
  */
  lemma PastGraceFrees(w: World)
    requires Wf(w.owner, w.d) && NoLeak(w.owner, w.d) && JustRead(w) && w.mem.batch.Some? && w.tries > 0
    requires Smooth(w, 3 + 2 * |w.mem.batch.value.pools|)
    requires BatchPastGrace(w.mem.batch.value.startedAt, AfterListing(w).d.now)
    ensures var (w2, r) := Finish(w);
      && r == Ok && w2.mem.batch.None? && NoneOurs(w.owner, w2.d)
      && w2.d.cr.started == NoStart && w2.d.cr.pools == None
  {
    hide NoLeak, ResumeAll, ClearAnnotations, Smooth;
    FinishReleasesAll(w);
    BatchIsOurs(ANYTHING, w);
    var batch := w.mem.batch.value;
    SmoothCall(w, 3 + 2 * |batch.pools|);
    var w1 := AfterListing(w);
    SmoothLess(w, 2 + 2 * |batch.pools|);
    SmoothResumeAll(w1, batch.pools, 2);
    SmoothClear(ResumeAll(w1, batch.pools, batch.owner).0, batch.remediations);
  }

  lemma SmoothLess(w: World, n: nat)
    requires Smooth(w, n + 1)
    ensures Smooth(w, n)
  {
  }

  /** Recovery without a request succeeds when its calls are served and nobody else writes the ClusterBaseline. */
  lemma OrphanSucceeds(w: World)
    requires w.tries > 0 && w.owner != "" && Smooth(w, 2 + 2 * |NamesIn(Raw(w.mem.pools))|)
    ensures ResumeOrphaned(w).1 == Ok
  {
    hide ResumeAll, ClearAnnotations, NamesIn, Smooth;
    SmoothResumeAll(w, NamesIn(Raw(w.mem.pools)), 2);
    SmoothClear(ResumeAll(w, NamesIn(Raw(w.mem.pools)), w.owner).0, []);
  }

  /** The pools a delete goes through: the batch's, else the recorded ones and those the request leads to. */
  ghost function DeleteList(w: World): seq<string> {
    var cr := Call(w).0.d.cr;
    var pools := if cr.batch.Some? then UniqueSorted(cr.batch.value.pools) else [];
    if pools != [] then pools
    else
      var names := Valids(Capped(NamesIn(Raw(cr.request))));
      var w2 := Call(w).0.(mem := cr, base := cr);
      var l := ListRemediations(w2, names).1;
      UniqueSorted(NamesIn(Raw(cr.pools)) + if l.Listed? then PoolsOf(names, l.rems, cr.suites) else [])
  }

  /** A delete succeeds when its calls are served and nobody else writes the ClusterBaseline. */
  lemma DeleteSucceeds(w: World)
    requires Wf(w.owner, w.d) && w.tries > 0 && Smooth(w, 2 + 2 * |DeleteList(w)|)
    ensures DeleteJob(w).1 == Ok
  {
    hide ResumeAll, NamesIn, Smooth, UniqueSorted, Wf, PoolsOf;
    var n := |DeleteList(w)|;
    OwnedBy(w);
    SmoothCall(w, 2 + 2 * n);
    CallPath(ANYTHING, w);
    var w1 := Call(w).0;
    var w2 := w1.(mem := w1.d.cr, base := w1.d.cr);
    SmoothSame(w1, w2, 1 + 2 * n);
    if w2.mem.batch.Some? { BatchIsOurs(ANYTHING, w2); }
    if w2.mem.batch.Some? && UniqueSorted(w2.mem.batch.value.pools) != [] {
      SmoothResumeAll(w2, DeleteList(w), 1);
    } else {
      var names := Valids(Capped(NamesIn(Raw(w2.mem.request))));
      SmoothCall(w2, 1 + 2 * n);
      SmoothLess(w2, 2 * n);
      var w3 := ListRemediations(w2, names).0;
      SmoothResumeAll(w3, DeleteList(w), 0);
    }
  }

  lemma OwnedBy(w: World)
    requires Wf(w.owner, w.d)
    ensures w.owner != ""
  {
  }

  lemma SmoothSame(w: World, w2: World, n: nat)
    requires w2.script == w.script && Smooth(w, n)
    ensures Smooth(w2, n)
  {
  }
}
