/**
  Whose pauses are touched, which remediations are applied, and exactly when the
  partial-pause branch strands a pool.
*/
module BatchOwnership {
  import opened Options
  import opened Text
  import opened K8sNames
  import opened BatchModel
  import opened BatchSpec
  import opened BatchPaths
  import opened BatchFrames
  import opened BatchSafety

  /**
    Over any run, clean or not: an administrator's pause (paused, no marker) is never
    written; pausing marks the pool ours; only our own marker is ever taken back, leaving the
    pool running and unmarked; spec.apply only goes from false to true, on a suite-owned
    remediation without missing dependencies; no other operator step moves a pool or a
    remediation.
  */
  lemma OwnedWritesOnly(w: World, jobs: seq<Job>, i: nat)
    requires Wf(w.owner, w.d)
    requires |w.trace| <= i < |Run(w, jobs).trace|
    ensures var ev := Run(w, jobs).trace[i];
      match ev.what
      case PoolSet(p, pausing) =>
        && p in ev.pre.mcps && ev.pre.mcps[p] != Pool(Is(true), "")
        && (!pausing ==> ev.pre.mcps[p].marker == w.owner)
        && ev.post == ev.pre.(mcps := ev.pre.mcps[p := if pausing then Pool(Is(true), w.owner) else Pool(Is(false), "")])
      case ApplySet(n, suites) =>
        && n in ev.pre.rems && ev.pre.rems[n].apply == Is(false) && ev.pre.rems[n].suite in suites
        && (exists k: nat :: AppliedBy(w, jobs, k, i, suites))
        && ev.pre.rems[n].state != Some("MissingDependencies")
        && ev.post == ev.pre.(rems := ev.pre.rems[n := ev.pre.rems[n].(apply := Is(true))])
      case Env(_) => true
      case _ => ev.post.mcps == ev.pre.mcps && ev.post.rems == ev.pre.rems
  {
    hide Run;
    RunPath(ANYTHING, w, jobs);
    LinkedEvent(ANYTHING, w.owner, w.d, Run(w, jobs).trace[|w.trace|..], Run(w, jobs).d, i - |w.trace|);
    if Run(w, jobs).trace[i].what.ApplySet? {
      var k := WhoApplies(w, jobs, i);
    }
  }

  /** Event i belongs to job k, a reconcile that read these suites from the ClusterBaseline it began with. */
  ghost predicate AppliedBy(w: World, jobs: seq<Job>, k: nat, i: nat, suites: set<string>) {
    && k < |jobs| && jobs[k] == DoReconcile
    && |Run(w, jobs[..k]).trace| <= i < |Run(w, jobs[..k + 1]).trace|
    && suites == Call(Run(w, jobs[..k])).0.d.cr.suites
  }

  lemma ReconcileAppliesOwn(w: World, i: nat)
    requires Wf(w.owner, w.d) && |w.trace| <= i < |Reconcile(w).0.trace|
    requires Reconcile(w).0.trace[i].what.ApplySet?
    ensures Reconcile(w).0.trace[i].what.suites == Call(w).0.d.cr.suites
  {
    hide Reconcile, Call, Wf, Linked;
    var s := ANYTHING.(owning := iset{Call(w).0.d.cr.suites});
    ReconcilePath(s, w);
    var w2 := Reconcile(w).0;
    LinkedEvent(s, w.owner, w.d, w2.trace[|w.trace|..], w2.d, i - |w.trace|);
  }

  lemma DeleteAppliesNothing(w: World, i: nat)
    requires Wf(w.owner, w.d) && |w.trace| <= i < |DeleteJob(w).0.trace|
    ensures !DeleteJob(w).0.trace[i].what.ApplySet?
  {
    hide DeleteJob, Wf, Linked;
    var s := ANYTHING.(appliable := iset{});
    DeletePath(s, w);
    var w2 := DeleteJob(w).0;
    LinkedEvent(s, w.owner, w.d, w2.trace[|w.trace|..], w2.d, i - |w.trace|);
  }

  lemma {:induction false} WhoApplies(w: World, jobs: seq<Job>, i: nat) returns (k: nat)
    requires Wf(w.owner, w.d) && |w.trace| <= i < |Run(w, jobs).trace| && Run(w, jobs).trace[i].what.ApplySet?
    ensures AppliedBy(w, jobs, k, i, Run(w, jobs).trace[i].what.suites)
    decreases |jobs|
  {
    hide Reconcile, DeleteJob, Wf, Linked, Call;
    var w1 := if jobs[0] == DoReconcile then Reconcile(w).0 else DeleteJob(w).0;
    if jobs[0] == DoReconcile { ReconcilePath(ANYTHING, w); } else { DeletePath(ANYTHING, w); }
    RunPath(ANYTHING, w1, jobs[1..]);
    assert Run(w, jobs[..0]) == w;
    assert jobs[..1][1..] == [] && Run(w, jobs[..1]) == Run(w1, []);
    if i < |w1.trace| {
      assert Run(w, jobs).trace[i] == Run(w, jobs).trace[..|w1.trace|][i];
      if jobs[0] == DoReconcile { ReconcileAppliesOwn(w, i); } else { DeleteAppliesNothing(w, i); }
      k := 0;
    } else {
      k := WhoApplies(w1, jobs[1..], i);
      assert jobs[..k + 1][1..] == jobs[1..][..k] && jobs[..k + 2][1..] == jobs[1..][..k + 1];
      k := k + 1;
    }
  }

  /** One reconcile pauses only pools its kept remediations lead to or that were already ours, and applies only requested names. */
  lemma OnlyRequestedTouched(w: World, i: nat)
    requires Wf(w.owner, w.d) && JustRead(w)
    requires |w.trace| <= i < |ApplyBatch(w).0.trace|
    ensures var ev := ApplyBatch(w).0.trace[i];
      && (ev.what.PoolSet? && ev.what.pausing ==>
            w.mem.batch.None? && (ev.what.pool in DerivedAtOpen(w) || Ours(w.d, w.owner, ev.what.pool)))
      && (ev.what.ApplySet? ==>
            w.mem.batch.None? && ev.what.rem in NamesIn(Raw(w.mem.request)) && ev.what.suites == w.mem.suites)
  {
    hide Open, Finish, Wf, Linked;
    var s := if w.mem.batch.None?
             then ANYTHING.(pausable := (iset p: string | p in DerivedAtOpen(w) || Ours(w.d, w.owner, p)),
                            appliable := (iset n: string | n in NamesIn(Raw(w.mem.request))),
                            owning := iset{w.mem.suites})
             else ANYTHING.(pausable := iset{}, appliable := iset{});
    if w.mem.batch.None? { OpenPath(s, w); } else { FinishPath(s, w); }
    var w2 := ApplyBatch(w).0;
    LinkedEvent(s, w.owner, w.d, w2.trace[|w.trace|..], w2.d, i - |w.trace|);
  }

  // ---- a pool gets its own value back ----

  predicate Touches(what: What, q: string) {
    what.Env? && ((what.step.SetPool? && what.step.name == q) || (what.step.DropPool? && what.step.name == q))
  }

  /** q is as it was, or it was running and we hold it. */
  ghost predicate AsBefore(owner: string, orig: Pool, d: Durable, q: string) {
    q in d.mcps && (d.mcps[q] == orig || (orig.paused == Is(false) && d.mcps[q] == Pool(Is(true), owner)))
  }

  lemma EventAsBefore(owner: string, orig: Pool, ev: Event, q: string)
    requires Lawful(owner, ev) && AsBefore(owner, orig, ev.pre, q)
    requires orig.marker == "" && owner != "" && !Touches(ev.what, q)
    ensures AsBefore(owner, orig, ev.post, q)
  {
    if ev.what.PoolSet? && ev.what.pool == q {
      assert ev.pre.mcps[q] != Pool(Is(true), "");
    }
  }

  lemma {:induction false} LinkedAsBefore(s: Scope, owner: string, orig: Pool, d: Durable, evs: seq<Event>, d2: Durable, q: string)
    requires Linked(s, owner, d, evs, d2) && AsBefore(owner, orig, d, q)
    requires orig.marker == "" && owner != ""
    requires forall i :: 0 <= i < |evs| ==> !Touches(evs[i].what, q)
    ensures AsBefore(owner, orig, d2, q)
    decreases |evs|
  {
    hide Lawful, AsBefore, Wf, NoLeak;
    if evs != [] {
      var ev := evs[0];
      EventAsBefore(owner, orig, ev, q);
      forall i | 0 <= i < |evs[1..]| ensures !Touches(evs[1..][i].what, q) {
        assert evs[1..][i] == evs[i + 1];
      }
      LinkedAsBefore(s, owner, orig, ev.post, evs[1..], d2, q);
    }
  }

  /**
    A pool without a marker that no administrator touches keeps its value through every run:
    when we hold nothing at the end, it is exactly what it was.
  */
  lemma PoolRestored(w: World, jobs: seq<Job>, q: string)
    requires Wf(w.owner, w.d)
    requires q in w.d.mcps && w.d.mcps[q].marker == ""
    requires forall i :: |w.trace| <= i < |Run(w, jobs).trace| ==> !Touches(Run(w, jobs).trace[i].what, q)
    ensures var d2 := Run(w, jobs).d;
      && q in d2.mcps
      && (!Ours(d2, w.owner, q) ==> d2.mcps[q] == w.d.mcps[q])
      && (Ours(d2, w.owner, q) ==> w.d.mcps[q].paused == Is(false))
  {
    RunPath(ANYTHING, w, jobs);
    var w2 := Run(w, jobs);
    var evs := w2.trace[|w.trace|..];
    forall i | 0 <= i < |evs| ensures !Touches(evs[i].what, q) {
      assert evs[i] == w2.trace[|w.trace| + i];
    }
    LinkedAsBefore(ANYTHING, w.owner, w.d.mcps[q], w.d, evs, w2.d, q);
  }

  // ---- the partial-pause branch, exactly ----

  /** The object stored when the status write after w takes effect. */
  ghost function Stored(w: World): Durable {
    w.d.(cr := w.d.cr.(batch := SanitizeBatch(w.mem.batch)))
  }

  /** The partial-pause branch runs: pool n cannot be paused and freeing the first n fails. */
  ghost predicate TakesPrefixBranch(w: World, pools: seq<string>) {
    var (w1, r, n) := PauseFrom(w, pools, 0);
    r == Err && ResumeBestEffort(w1, pools[..n], w.owner, false).1 == SomeStuck
  }

  /**
    The status stored by the partial-pause branch is leak-free if and only if none of the pools
    from the failing one on was ours when the open began pausing, and the failing pause had no
    effect.
  */
  lemma PrefixLeaksExactly(w: World, pools: seq<string>, kept: seq<string>, at: Stamp)
    requires Start0(ANYTHING, w) && NoLeak(w.owner, w.d) && w.d.cr.batch.None? && w.mem.batch.None?
    requires NamesIn(Raw(w.d.cr.pools)) == pools && SortedNames(pools, MAX_POOLS)
    requires SortedNames(kept, MAX_REMEDIATIONS) && at != Zero
    requires TakesPrefixBranch(w, pools)
    ensures var (w1, r, n) := PauseFrom(w, pools, 0);
      NoLeak(w.owner, Stored(Start(w, pools, kept, at).0))
      <==> (forall p :: p in pools[n..] ==> !Ours(w.d, w.owner, p)) && !PauseLanded(w, w1, pools[n])
  {
    hide Wf, Path, Linked, Fine, Honest, Ours, PauseLanded, NoLeak, Start, Stored, PauseFrom, ResumeBestEffort, NamesIn;
    var (w1, r, n) := PauseFrom(w, pools, 0);
    var w2 := ResumeBestEffort(w1, pools[..n], w.owner, false).0;
    PauseFromPath(SAFE, w, pools, 0);
    BestEffortPath(SAFE, w1, pools[..n], false);
    StrayExactly(w, pools);
    PrefixStored(w, pools, kept, at);
    AllListed(w2, pools);
    StoredLeaks(w2, pools, n, Stored(Start(w, pools, kept, at).0));
    StrayEmpty(w.d, w.owner, pools[n..]);
  }

  lemma StrayEmpty(d: Durable, owner: string, rest: seq<string>)
    ensures Stray(d, owner, rest) == {} <==> forall p :: p in rest ==> !Ours(d, owner, p)
  {
    if Stray(d, owner, rest) == {} {
      assert forall p :: p in rest && Ours(d, owner, p) ==> p in Stray(d, owner, rest);
    }
  }

  /** A status write that succeeds leaves what Stored says, as far as leaks go. */
  lemma StatusStores(w: World)
    requires Start0(ANYTHING, w)
    ensures WriteStatus(w).1 == Ok ==> (NoLeak(w.owner, WriteStatus(w).0.d) <==> NoLeak(w.owner, Stored(w)))
  {
    hide Path, Linked, Fine, SanitizeBatch, NamesIn;
    CallPath(ANYTHING, w);
    var d1, d2 := Call(w).0.d, WriteStatus(w).0.d;
    assert SameOurs(w.owner, w.d, d1);
    if WriteStatus(w).1 == Ok {
      assert d2 == d1.(cr := d1.cr.(batch := SanitizeBatch(w.mem.batch)));
      assert SameOurs(w.owner, d1, d2) && SameOurs(w.owner, w.d, Stored(w));
      assert Named(d2.cr) == Named(Stored(w).cr);
    }
  }

  /** The same of the cluster once the reconcile's status write has succeeded. */
  lemma PrefixWriteLeaksExactly(w: World, pools: seq<string>, kept: seq<string>, at: Stamp)
    requires Start0(ANYTHING, w) && NoLeak(w.owner, w.d) && w.d.cr.batch.None? && w.mem.batch.None?
    requires NamesIn(Raw(w.d.cr.pools)) == pools && SortedNames(pools, MAX_POOLS)
    requires SortedNames(kept, MAX_REMEDIATIONS) && at != Zero
    requires TakesPrefixBranch(w, pools)
    ensures var (w1, r, n) := PauseFrom(w, pools, 0);
      var (w4, stored) := WriteStatus(Start(w, pools, kept, at).0);
      stored == Ok ==>
        (NoLeak(w.owner, w4.d)
         <==> (forall p :: p in pools[n..] ==> !Ours(w.d, w.owner, p)) && !PauseLanded(w, w1, pools[n]))
  {
    hide Start, WriteStatus, Stored, NoLeak, Ours, PauseLanded, PauseFrom, TakesPrefixBranch, Fine, Linked, Wf, SortedNames;
    PrefixLeaksExactly(w, pools, kept, at);
    StartPath(ANYTHING, w, pools, kept, at);
    StatusStores(Start(w, pools, kept, at).0);
  }

  /** What the branch stores: the pools before the failing one, on the cluster the undo left. */
  lemma PrefixStored(w: World, pools: seq<string>, kept: seq<string>, at: Stamp)
    requires Start0(ANYTHING, w) && SortedNames(pools, MAX_POOLS)
    requires SortedNames(kept, MAX_REMEDIATIONS) && at != Zero
    requires TakesPrefixBranch(w, pools)
    ensures var (w1, r, n) := PauseFrom(w, pools, 0);
      var w2 := ResumeBestEffort(w1, pools[..n], w.owner, false).0;
      var d := Stored(Start(w, pools, kept, at).0);
      Named(d.cr) == pools[..n] && SameOurs(w.owner, w2.d, d)
  {
    hide PauseFrom, ResumeBestEffort, SanitizeBatch, Stray, PauseLanded, Elsewhere, FailsAt;
    var (w1, r, n) := PauseFrom(w, pools, 0);
    PauseFromFrame(w, pools, 0);
    BestEffortFrame(w1, pools[..n], false);
    PrefixSorted(pools, n, MAX_POOLS);
    SanitizeIdentity(Batch(pools[..n], kept, at, w.owner), w.owner);
  }

  lemma AllListed(w: World, pools: seq<string>)
    requires NoLeak(w.owner, w.d) && w.d.cr.batch.None? && NamesIn(Raw(w.d.cr.pools)) == pools
    ensures OursIn(w.owner, w.d, pools)
  {
  }

  /** Storing the first n of the pools is leak-free exactly when none of the rest is ours. */
  lemma StoredLeaks(w: World, pools: seq<string>, n: nat, d: Durable)
    requires SortedNames(pools, MAX_POOLS) && n <= |pools| && OursIn(w.owner, w.d, pools)
    requires Named(d.cr) == pools[..n] && SameOurs(w.owner, w.d, d)
    ensures NoLeak(w.owner, d) <==> Stray(w.d, w.owner, pools[n..]) == {}
  {
    PrefixSorted(pools, n, MAX_POOLS);
    Disjoint(pools, n);
    StrayEmpty(w.d, w.owner, pools[n..]);
  }

  /** An open that starts with no pool of ours stores a clean status exactly when its failing pause had no effect. */
  lemma FreshOpenIsClean(w: World, pools: seq<string>, kept: seq<string>, at: Stamp)
    requires Start0(ANYTHING, w) && NoneOurs(w.owner, w.d) && w.d.cr.batch.None? && w.mem.batch.None?
    requires NamesIn(Raw(w.d.cr.pools)) == pools && SortedNames(pools, MAX_POOLS)
    requires SortedNames(kept, MAX_REMEDIATIONS) && at != Zero
    requires TakesPrefixBranch(w, pools)
    ensures var (w1, r, n) := PauseFrom(w, pools, 0);
      && (NoLeak(w.owner, Stored(Start(w, pools, kept, at).0)) <==> !PauseLanded(w, w1, pools[n]))
      && (Honest(w) ==> !PauseLanded(w, w1, pools[n]))
  {
    hide Wf, Honest, Start, PauseLanded;
    PrefixLeaksExactly(w, pools, kept, at);
    StrayExactly(w, pools);
  }

  // ---- two runs that strand a pool ----

  /** The request names r, which reboots a and b; both pools are already recorded. */
  ghost function TwoPools(tries: nat, b: Pool, script: seq<Tick>): World {
    var cr := Cr(Some("r"), StartedAt(1), Some(Join(["a", "b"], ',')), None, {});
    World("uid", tries, Durable(cr, map["a" := Pool(Is(false), ""), "b" := b], map[], true, 1), cr, cr, script, [])
  }

  /** Pool b was paused by us before a crash; a is running; reading b is refused, and so is freeing a. */
  ghost function StrandingWorld(tries: nat): World {
    TwoPools(tries, Pool(Is(true), "uid"), [Tick([], Served), Tick([], Served), Tick([], Refused), Tick([], Refused)])
  }

  /** Both pools are running; the write pausing b takes effect but reports an error, and freeing a is refused. */
  ghost function LandingWorld(tries: nat): World {
    TwoPools(tries, Pool(Is(false), ""),
             [Tick([], Served), Tick([], Served), Tick([], Served), Tick([], Landed), Tick([], Refused)])
  }

  /** w after its pool is read and paused. */
  ghost function Paused(w: World, pool: string): World
    requires |w.script| >= 2
  {
    Move(w.(script := w.script[2..]), PoolSet(pool, true), w.d.(mcps := w.d.mcps[pool := Pool(Is(true), w.owner)]))
  }

  lemma PausingTakes(w: World, pool: string, o: Outcome)
    requires w.tries > 0 && ValidName(pool) && w.owner != "" && |w.script| >= 2
    requires w.script[0] == Tick([], Served) && w.script[1] == Tick([], o) && (o == Served || o == Landed)
    requires pool in w.d.mcps && w.d.mcps[pool] == Pool(Is(false), "")
    ensures SetPaused(w, pool, true, w.owner, w.tries) == (Paused(w, pool), if o == Served then Ok else Err)
  {
    var w1 := w.(script := w.script[1..]);
    assert Call(w) == (w1, Served);
    assert w1.script[1..] == w.script[2..];
    assert Call(w1) == (w.(script := w.script[2..]), o);
    assert WriteMcp(w1, pool, true, Pool(Is(false), ""), Pool(Is(true), w.owner))
        == (Paused(w, pool), if o == Served then Done else Failed);
  }

  /** A refused read leaves everything but the script. */
  lemma RefusedCall(w: World, pool: string, paused: bool)
    requires w.tries > 0 && w.script != [] && w.script[0] == Tick([], Refused) && ValidName(pool)
    ensures SetPaused(w, pool, paused, w.owner, w.tries) == (w.(script := w.script[1..]), Err)
  {
    assert Call(w) == (w.(script := w.script[1..]), Refused);
  }

  /** The first of two pools is paused, the second fails, and the first cannot be freed. */
  lemma SecondFails(w: World, w1: World, w2: World, w3: World, a: string, b: string)
    requires w1.owner == w2.owner == w.owner && w1.tries == w2.tries == w.tries
    requires SetPaused(w, a, true, w.owner, w.tries) == (w1, Ok)
    requires SetPaused(w1, b, true, w.owner, w.tries) == (w2, Err)
    requires SetPaused(w2, a, false, w.owner, w.tries) == (w3, Err)
    ensures PauseFrom(w, [a, b], 0) == (w2, Err, 1) && TakesPrefixBranch(w, [a, b])
  {
    hide SetPaused;
    var pools := [a, b];
    assert PauseFrom(w1, pools, 1) == (w2, Err, 1);
    assert pools[..1] == [a];
    assert [a][1..] == [];
    assert ResumeBestEffort(w3, [], w.owner, true) == (w3, SomeStuck);
    assert ResumeBestEffort(w2, [a], w.owner, false) == (w3, SomeStuck);
  }

  lemma StrandingBranch(tries: nat)
    requires tries > 0
    ensures var w := StrandingWorld(tries);
      PauseFrom(w, ["a", "b"], 0).2 == 1 && TakesPrefixBranch(w, ["a", "b"])
  {
    hide SetPaused, Join, PauseFrom, TakesPrefixBranch;
    TwoNames();
    var w := StrandingWorld(tries);
    PausingTakes(w, "a", Served);
    var w1 := Paused(w, "a");
    RefusedCall(w1, "b", true);
    var w2 := w1.(script := w1.script[1..]);
    RefusedCall(w2, "a", false);
    SecondFails(w, w1, w2, w2.(script := w2.script[1..]), "a", "b");
  }

  lemma LandingBranch(tries: nat)
    requires tries > 0
    ensures var w := LandingWorld(tries);
      var (w2, r, n) := PauseFrom(w, ["a", "b"], 0);
      n == 1 && TakesPrefixBranch(w, ["a", "b"]) && PauseLanded(w, w2, "b")
  {
    hide SetPaused, Join, PauseFrom, TakesPrefixBranch;
    TwoNames();
    var w := LandingWorld(tries);
    PausingTakes(w, "a", Served);
    var w1 := Paused(w, "a");
    PausingTakes(w1, "b", Landed);
    var w2 := Paused(w1, "b");
    RefusedCall(w2, "a", false);
    SecondFails(w, w1, w2, w2.(script := w2.script[1..]), "a", "b");
    assert w2.trace[1].what == PoolSet("b", true);
  }

  /** The stored batch names only a, while b stays paused under our marker with no record of it. */
  lemma StrandedPool(tries: nat)
    requires tries > 0
    ensures var w := StrandingWorld(tries);
      && Start0(ANYTHING, w) && NoLeak(w.owner, w.d) && TakesPrefixBranch(w, ["a", "b"])
      && !NoLeak(w.owner, Stored(Start(w, ["a", "b"], ["r"], At(1)).0))
  {
    hide Start, PauseFrom, TakesPrefixBranch, Start0, NoLeak, NamesIn, SortedNames, Stored, PauseLanded;
    StrandingBranch(tries);
    TwoNames();
    Sites(tries, Pool(Is(true), "uid"), StrandingWorld(tries).script);
    PrefixLeaksExactly(StrandingWorld(tries), ["a", "b"], ["r"], At(1));
    assert ["a", "b"][1..] == ["b"];
    assert "b" in ["b"];
  }

  /** Even an open that starts with no pool of ours strands b when pausing it takes effect unseen. */
  lemma LandedPool(tries: nat)
    requires tries > 0
    ensures var w := LandingWorld(tries);
      && Start0(ANYTHING, w) && NoneOurs(w.owner, w.d) && NoLeak(w.owner, w.d) && TakesPrefixBranch(w, ["a", "b"])
      && !NoLeak(w.owner, Stored(Start(w, ["a", "b"], ["r"], At(1)).0))
  {
    hide Start, PauseFrom, TakesPrefixBranch, Start0, NoLeak, NamesIn, SortedNames, Stored, PauseLanded;
    LandingBranch(tries);
    TwoNames();
    Sites(tries, Pool(Is(false), ""), LandingWorld(tries).script);
    FreshOpenIsClean(LandingWorld(tries), ["a", "b"], ["r"], At(1));
  }

  lemma Sites(tries: nat, b: Pool, script: seq<Tick>)
    requires b == Pool(Is(true), "uid") || b == Pool(Is(false), "")
    ensures var w := TwoPools(tries, b, script);
      && Start0(ANYTHING, w) && NoLeak(w.owner, w.d) && NamesIn(Raw(w.d.cr.pools)) == ["a", "b"]
      && (if b.paused.on then Ours(w.d, w.owner, "b") else NoneOurs(w.owner, w.d))
  {
    hide NamesIn, Join, SortedNames, ValidName;
    TwoNames();
    var w := TwoPools(tries, b, script);
    assert forall p :: Ours(w.d, "uid", p) ==> p == ["a", "b"][1];
  }

  lemma TwoNames()
    ensures SortedNames(["a", "b"], MAX_POOLS) && SortedNames(["r"], MAX_REMEDIATIONS)
    ensures NamesIn(Join(["a", "b"], ',')) == ["a", "b"]
    ensures ValidName("a") && ValidName("b")
  {
    hide UniqueSorted, Insert, Join, NamesIn, SplitCsv;
    assert Compare("a", "b") == -1;
    var pools := ["a", "b"];
    assert forall p :: p in pools ==> p == "a" || p == "b";
    NamesRoundTrip(pools);
  }
}
