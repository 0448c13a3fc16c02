/**
  No leaked pause. Whole reconciles, deletions and runs follow lawful paths; every state between
  two API writes of a run names every pool paused under our marker if and only if no reconcile
  stores a prefix that strands one; finishing and deleting release them all.
*/
module BatchSafety {
  import opened Options
  import opened Text
  import opened K8sNames
  import opened BatchModel
  import opened BatchSpec
  import opened BatchPaths
  import opened BatchFrames

  /** At every recorded prefix, no pool from the failing one on was ours when pausing began. */
  ghost predicate Unheld(evs: seq<Event>) {
    forall i :: 0 <= i < |evs| && evs[i].what.PrefixRecorded? ==> evs[i].what.held == {}
  }

  /** At every recorded prefix, the pause that reported an error had no effect. */
  ghost predicate NoneLanded(evs: seq<Event>) {
    forall i :: 0 <= i < |evs| && evs[i].what.PrefixRecorded? ==> !evs[i].what.landed
  }

  ghost predicate Clean(evs: seq<Event>) {
    Unheld(evs) && NoneLanded(evs)
  }

  /** Storing the status held in memory keeps every pool of ours named. */
  ghost predicate StatusReady(s: Scope, w: World) {
    match w.mem.batch
    case Some(b) => Shaped(b, w.owner) && (s.safe ==> OursIn(w.owner, w.d, b.pools))
    case None => s.safe ==> OursIn(w.owner, w.d, NamesIn(Raw(w.d.cr.pools)))
  }

  // ---- recorded prefixes ----

  /** Between w and w2 a prefix was recorded while a later pool was ours before, or the failing pause took effect. */
  ghost predicate Dirty(w: World, w2: World) {
    exists i :: |w.trace| <= i < |w2.trace| && w2.trace[i].what.PrefixRecorded?
                && (w2.trace[i].what.held != {} || w2.trace[i].what.landed)
  }

  ghost predicate EndsIn(w: World, what: What) {
    w.trace != [] && w.trace[|w.trace| - 1].what == what
  }

  /** What holding a dirty prefix in memory means: storing it loses a pool. */
  ghost predicate Losing(s: Scope, w: World) {
    && w.mem.batch.Some? && Shaped(w.mem.batch.value, w.owner)
    && (s.safe ==> !OursIn(w.owner, w.d, w.mem.batch.value.pools))
    && w.trace != [] && w.trace[|w.trace| - 1].what.PrefixRecorded?
  }

  /** An open follows a path; it is ready for the status write exactly when it recorded no dirty prefix. */
  ghost predicate Opened(s: Scope, w: World, w2: World, r: Res) {
    && Reach(s, w, w2)
    && (r != Died && (s.safe ==> !Dirty(w, w2)) ==> StatusReady(s, w2))
    && (Dirty(w, w2) ==> r == Err && Losing(s, w2))
  }

  /** The scope in which no prefix may be dirty. */
  ghost function Tidy(s: Scope): Scope {
    s.(bare := true, honest := true)
  }

  lemma {:induction false} LinkedWidens(s: Scope, owner: string, d: Durable, evs: seq<Event>, d2: Durable)
    requires Linked(Tidy(s), owner, d, evs, d2)
    ensures Linked(s, owner, d, evs, d2)
    decreases |evs|
  {
    hide Lawful, Wf, NoLeak;
    if evs != [] {
      LinkedWidens(s, owner, evs[0].post, evs[1..], d2);
    }
  }

  /** A tidy path is a path without dirty prefixes. */
  lemma Widens(s: Scope, w: World, w2: World)
    requires Reach(Tidy(s), w, w2)
    ensures Reach(s, w, w2) && !Dirty(w, w2)
  {
    hide Lawful, Wf, NoLeak, Linked;
    var evs := w2.trace[|w.trace|..];
    LinkedWidens(s, w.owner, w.d, evs, w2.d);
    forall i | |w.trace| <= i < |w2.trace| && w2.trace[i].what.PrefixRecorded?
      ensures w2.trace[i].what.held == {} && !w2.trace[i].what.landed
    {
      LinkedEvent(Tidy(s), w.owner, w.d, evs, w2.d, i - |w.trace|);
    }
  }

  lemma OpenedTidy(s: Scope, w: World, w2: World, r: Res)
    requires Reach(Tidy(s), w, w2) && (r != Died ==> StatusReady(s, w2))
    ensures Opened(s, w, w2, r)
  {
    hide Path;
    Widens(s, w, w2);
  }

  lemma OpenedAfter(s: Scope, w: World, w1: World, w2: World, r: Res)
    requires Reach(Tidy(s), w, w1) && Opened(s, w1, w2, r)
    ensures Opened(s, w, w2, r)
  {
    hide Linked, Wf, StatusReady, Losing, Fine;
    Widens(s, w, w1);
    PathTrans(s, w, w1, w2);
    assert w1.trace == w2.trace[..|w1.trace|];
  }

  // ---- lists ----

  lemma {:induction false} KeepSorted(names: seq<string>, rems: map<string, Remediation>, suites: set<string>)
    requires StrictlySorted(names)
    ensures StrictlySorted(Keep(names, rems, suites))
    ensures forall n :: n in Keep(names, rems, suites) ==> n in names && n in rems && Eligible(suites, rems[n])
  {
    if names != [] {
      var rest := Keep(names[1..], rems, suites);
      KeepSorted(names[1..], rems, suites);
      assert forall n :: n in names[1..] ==> n in names && Less(names[0], n);
    }
  }

  lemma {:induction false} PoolsOfValid(names: seq<string>, rems: map<string, Remediation>, suites: set<string>)
    ensures forall p :: p in PoolsOf(names, rems, suites) ==> ValidName(p)
  {
    if names != [] {
      PoolsOfValid(names[1..], rems, suites);
    }
  }

  /** Cutting a list's names keeps exactly their first 253 characters, each once, and no empty name. */
  lemma {:induction false} ClampItemsExactly(names: seq<string>, kept: seq<string>)
    requires forall i, j :: 0 <= i < j < |kept| ==> kept[i] != kept[j]
    ensures var r := ClampItems(names, kept);
      && (forall i, j :: 0 <= i < j < |r| ==> r[i] != r[j])
      && forall n :: n in r <==> n in kept || (n != "" && exists s :: s in names && n == (if |s| <= 253 then s else s[..253]))
    decreases |names|
  {
    if names != [] {
      assert names == [names[0]] + names[1..];
      var n := ClampName(names[0]);
      ClampItemsExactly(names[1..], if n == "" || n in kept then kept else kept + [n]);
    }
  }

  /** Names a clamped, sorted, valid list loses nothing: the sanitizer is the identity on it. */
  lemma {:induction false} ClampItemsIdentity(names: seq<string>, kept: seq<string>)
    requires forall n :: n in names ==> ValidName(n) && n !in kept
    requires StrictlySorted(names)
    ensures ClampItems(names, kept) == kept + names
  {
    if names != [] {
      assert names[0] in names && ValidName(names[0]) && ClampName(names[0]) == names[0];
      forall n | n in names[1..] ensures n !in kept + [names[0]] {
        TailMembers(names, n);
      }
      ClampItemsIdentity(names[1..], kept + [names[0]]);
      assert kept + names == (kept + [names[0]]) + names[1..];
    }
  }

  lemma SanitizeIdentity(b: Batch, owner: string)
    requires Shaped(b, owner) && |owner| <= 253
    ensures SanitizeBatch(Some(b)) == Some(b)
  {
    ClampItemsIdentity(b.pools, []);
    ClampItemsIdentity(b.remediations, []);
    assert [] + b.pools == b.pools && [] + b.remediations == b.remediations;
  }

  // ---- phase one ----

  lemma PrefixSorted(pools: seq<string>, n: nat, max: nat)
    requires SortedNames(pools, max) && n <= |pools|
    ensures SortedNames(pools[..n], max)
    ensures forall p :: p in pools ==> p in pools[..n] || p in pools[n..]
  {
    assert pools == pools[..n] + pools[n..];
  }

  lemma StartPath(s: Scope, w: World, pools: seq<string>, kept: seq<string>, at: Stamp)
    requires Start0(s, w) && w.d.cr.batch.None? && w.mem.batch.None?
    requires NamesIn(Raw(w.d.cr.pools)) == pools && SortedNames(pools, MAX_POOLS)
    requires SortedNames(kept, MAX_REMEDIATIONS) && at != Zero
    requires forall p :: p in pools ==> p in s.pausable
    requires w.mem.suites in s.owning && forall n :: n in kept ==> n in s.appliable
    requires (s.bare ==> NoneOurs(w.owner, w.d)) && (s.honest ==> Honest(w))
    ensures Opened(s, w, Start(w, pools, kept, at).0, Start(w, pools, kept, at).1)
  {
    hide Path, Linked, Fine, SortedNames, Wf, PauseFrom, ResumeBestEffort, ApplyEach, Stray, PauseLanded, NamesIn, Honest, Opened, Dirty;
    var t := Tidy(s);
    PauseFromPath(t, w, pools, 0);
    var (w1, r, n) := PauseFrom(w, pools, 0);
    if r == Err {
      BestEffortPath(t, w1, pools[..n], false);
      var (w2, e) := ResumeBestEffort(w1, pools[..n], w.owner, false);
      PathTrans(t, w, w1, w2);
      if e == SomeStuck {
        var held, landed := Stray(w.d, w.owner, pools[n..]), PauseLanded(w, w1, pools[n]);
        SortedIsStrict(pools, MAX_POOLS);
        StrayExactly(w, pools);
        NoStray(w, pools[n..]);
        PrefixRecordedReady(s, w2, pools, n, kept, at, held, landed);
        OpenedAfter(s, w, w2, RecordPrefix(w2, pools, n, kept, at, held, landed), Err);
      } else {
        OpenedTidy(s, w, w2, if e == EffortDied then Died else Err);
      }
    } else if r == Ok {
      ApplyEachPath(t, w1, kept, w.mem.suites);
      var (w2, r2) := ApplyEach(w1, kept, w.mem.suites);
      PathTrans(t, w, w1, w2);
      if r2 == Ok {
        HoldReady(t, w, w2, pools, kept, at);
        OpenedTidy(s, w, Hold(w2, pools, kept, at), Ok);
      } else if r2 == Err {
        BestEffortPath(t, w2, pools, false);
        var (w3, e) := ResumeBestEffort(w2, pools, w.owner, false);
        PathTrans(t, w, w2, w3);
        if e == SomeStuck {
          HoldReady(t, w, w3, pools, kept, at);
          OpenedTidy(s, w, Hold(w3, pools, kept, at), Err);
        } else {
          OpenedTidy(s, w, w3, if e == EffortDied then Died else Err);
        }
      } else {
        OpenedTidy(s, w, w2, Died);
      }
    } else {
      OpenedTidy(s, w, w1, Died);
    }
  }

  lemma HoldReady(s: Scope, w: World, w2: World, pools: seq<string>, kept: seq<string>, at: Stamp)
    requires Reach(s, w, w2)
    requires SortedNames(pools, MAX_POOLS) && SortedNames(kept, MAX_REMEDIATIONS) && at != Zero
    requires s.safe ==> OursIn(w2.owner, w2.d, pools)
    ensures Reach(s, w, Hold(w2, pools, kept, at)) && StatusReady(s, Hold(w2, pools, kept, at))
  {
  }

  lemma SortedIsStrict(names: seq<string>, max: nat)
    requires SortedNames(names, max)
    ensures StrictlySorted(names)
  {
  }

  lemma NoStray(w: World, rest: seq<string>)
    ensures NoneOurs(w.owner, w.d) ==> Stray(w.d, w.owner, rest) == {}
  {
  }

  /**
    The partial-pause branch is ready for the status write exactly when nothing was ours before
    among the pools it leaves out and the failing pause had no effect.
  */
  lemma PrefixRecordedReady(
    s: Scope, w: World, pools: seq<string>, n: nat, kept: seq<string>, at: Stamp, held: set<string>, landed: bool)
    requires Start0(s, w) && n < |pools|
    requires SortedNames(pools, MAX_POOLS) && SortedNames(kept, MAX_REMEDIATIONS) && at != Zero
    requires s.safe ==> OursIn(w.owner, w.d, pools)
    requires Stray(w.d, w.owner, pools[n..]) == held + (if landed then {pools[n]} else {})
    requires PrefixFits(s, PrefixRecorded(held, landed))
    ensures Opened(s, w, RecordPrefix(w, pools, n, kept, at, held, landed), Err)
  {
    hide Path, Linked, Fine, Wf, Dirty, Losing, StatusReady, RecordPrefix, OursIn, SortedNames, NoLeak;
    PrefixPath(s, w, pools, n, kept, at, held, landed);
    PrefixIsDirty(w, pools, n, kept, at, held, landed);
    PrefixHeld(s, w, pools, n, kept, at, held, landed);
  }

  lemma PrefixPath(
    s: Scope, w: World, pools: seq<string>, n: nat, kept: seq<string>, at: Stamp, held: set<string>, landed: bool)
    requires Start0(s, w) && n < |pools| && PrefixFits(s, PrefixRecorded(held, landed))
    ensures Reach(s, w, RecordPrefix(w, pools, n, kept, at, held, landed))
  {
    hide Linked, Fine, Wf, NoLeak;
    NotePath(s, w, PrefixRecorded(held, landed));
  }

  lemma PrefixIsDirty(
    w: World, pools: seq<string>, n: nat, kept: seq<string>, at: Stamp, held: set<string>, landed: bool)
    requires n < |pools|
    ensures Dirty(w, RecordPrefix(w, pools, n, kept, at, held, landed)) <==> held != {} || landed
  {
    var w2 := RecordPrefix(w, pools, n, kept, at, held, landed);
    assert w2.trace[|w.trace|].what == PrefixRecorded(held, landed);
  }

  lemma PrefixHeld(
    s: Scope, w: World, pools: seq<string>, n: nat, kept: seq<string>, at: Stamp, held: set<string>, landed: bool)
    requires Wf(w.owner, w.d) && n < |pools|
    requires SortedNames(pools, MAX_POOLS) && SortedNames(kept, MAX_REMEDIATIONS) && at != Zero
    requires s.safe ==> OursIn(w.owner, w.d, pools)
    requires Stray(w.d, w.owner, pools[n..]) == held + (if landed then {pools[n]} else {})
    ensures var w2 := RecordPrefix(w, pools, n, kept, at, held, landed);
      && (!s.safe || (held == {} && !landed) ==> StatusReady(s, w2))
      && (held != {} || landed ==> Losing(s, w2))
  {
    hide Ours;
    var rest := pools[n..];
    PrefixSorted(pools, n, MAX_POOLS);
    SortedIsStrict(pools, MAX_POOLS);
    Disjoint(pools, n);
    assert forall p :: p in rest && Ours(w.d, w.owner, p) ==> p in Stray(w.d, w.owner, rest);
    if held != {} || landed {
      var p :| p in Stray(w.d, w.owner, rest);
      assert Ours(w.d, w.owner, p) && p !in pools[..n];
    }
  }

  /** The pools this open derives from the remediations it keeps. */
  ghost function DerivedAtOpen(w: World): seq<string> {
    var requested := NamesIn(Raw(w.mem.request));
    var l := ListRemediations(w, requested).1;
    if l.Listed? then PoolsOf(Keep(requested, l.rems, w.mem.suites), l.rems, w.mem.suites) else []
  }

  /** mem mirrors the stored object, as right after the reconcile's first read. */
  ghost predicate JustRead(w: World) {
    w.mem.pools == w.d.cr.pools && w.mem.batch == w.d.cr.batch && w.mem.started == w.d.cr.started
  }

  lemma OpenKeptPath(s: Scope, w: World, requested: seq<string>, kept: seq<string>, derived: seq<string>)
    requires Start0(s, w) && JustRead(w) && w.mem.batch.None?
    requires SortedNames(kept, MAX_REMEDIATIONS)
    requires forall p :: p in derived ==> ValidName(p) && p in s.pausable
    requires forall p :: Ours(w.d, w.owner, p) ==> p in s.pausable
    requires w.mem.suites in s.owning && forall n :: n in kept ==> n in s.appliable
    requires requested in s.answerable
    requires (s.bare ==> NoneOurs(w.owner, w.d)) && (s.honest ==> Honest(w))
    ensures Opened(s, w, OpenKept(w, requested, kept, derived).0, OpenKept(w, requested, kept, derived).1)
  {
    hide Path, Linked, Fine, Wf, Opened, Honest;
    var t := Tidy(s);
    var recorded := NamesIn(Raw(w.mem.pools));
    RecordedOursPath(t, w, recorded, derived);
    var (w1, r, ours) := RecordedOurs(w, recorded, derived);
    if r == Ok {
      var pools := UniqueSorted(derived + ours);
      assert forall p :: p in pools ==> p in derived || p in ours;
      if |pools| > MAX_POOLS {
        var (w2, r2) := ClearAnnotations(w1, requested, false, w.tries);
        ClearPath(t, w1, requested, false, w.tries);
        PathTrans(t, w, w1, w2);
        ClearedReady(s, w1, w2);
        OpenedTidy(s, w, w2, r2);
      } else {
        OursStayListed(s, w, w1, derived, ours, pools);
        EnsurePath(t, w1, pools, requested, kept, w.tries);
        var (w2, r2, at) := EnsureMetadata(w1, pools, requested, kept, w.tries);
        PathTrans(t, w, w1, w2);
        if r2 == Ok {
          if s.honest { PathHonest(t, w, w2); }
          StartPath(s, w2, pools, kept, at);
          OpenedAfter(s, w, w2, Start(w2, pools, kept, at).0, Start(w2, pools, kept, at).1);
        } else {
          ClearedReady(s, w1, w2);
          OpenedTidy(s, w, w2, r2);
        }
      }
    } else {
      ClearedReady(s, w, w1);
      OpenedTidy(s, w, w1, r);
    }
  }

  /** With no batch anywhere, leak freedom is readiness. */
  lemma ClearedReady(s: Scope, w: World, w2: World)
    requires Start0(s, w2) && w2.mem.batch.None? && w2.d.cr.batch.None?
    ensures StatusReady(s, w2)
  {
  }

  /** Every pool of ours is in the list the open builds. */
  lemma OursStayListed(s: Scope, w: World, w1: World, derived: seq<string>, ours: seq<string>, pools: seq<string>)
    requires Start0(s, w) && JustRead(w) && w.mem.batch.None? && w1.owner == w.owner
    requires Calm(w.owner, w.d, w1.d)
    requires forall p :: p in NamesIn(Raw(w.mem.pools)) && Ours(w.d, w.owner, p) ==> p in derived || p in ours
    requires pools == UniqueSorted(derived + ours)
    requires forall p :: p in derived || p in ours ==> ValidName(p)
    requires |pools| <= MAX_POOLS
    ensures SortedNames(pools, MAX_POOLS)
    ensures s.safe ==> OursIn(w1.owner, w1.d, pools)
  {
    if s.safe {
      forall p | Ours(w1.d, w1.owner, p) ensures p in pools {
        assert Ours(w.d, w.owner, p);
        assert p in NamesIn(Raw(w.mem.pools));
      }
    }
  }

  lemma OpenPath(s: Scope, w: World)
    requires Start0(s, w) && JustRead(w) && w.mem.batch.None?
    requires forall p :: p in DerivedAtOpen(w) || Ours(w.d, w.owner, p) ==> p in s.pausable
    requires w.mem.suites in s.owning && forall n :: n in NamesIn(Raw(w.mem.request)) ==> n in s.appliable
    requires NamesIn(Raw(w.mem.request)) in s.answerable && (NamesIn(Raw(w.mem.request)) == [] ==> s.countable)
    requires s.bare && NamesIn(Raw(w.mem.request)) != [] ==> NoneOurs(w.owner, w.d)
    requires s.honest ==> Honest(w)
    ensures Opened(s, w, Open(w).0, Open(w).1)
  {
    hide Path, Linked, Fine, Wf, OpenKept, Opened, Honest, NoLeak, Ours;
    var t := Tidy(s);
    var requested := NamesIn(Raw(w.mem.request));
    if requested == [] {
      OrphanPath(t, w);
      OpenedTidy(s, w, Open(w).0, Open(w).1);
    } else if |requested| > MAX_REMEDIATIONS || !AllValid(requested) {
      ClearPath(t, w, requested, false, w.tries);
      ClearedReady(s, w, ClearAnnotations(w, requested, false, w.tries).0);
      OpenedTidy(s, w, Open(w).0, Open(w).1);
    } else {
      ListPath(t, w, requested);
      var (w1, l) := ListRemediations(w, requested);
      if l.Listed? {
        var kept := Keep(requested, l.rems, w.mem.suites);
        KeepSorted(requested, l.rems, w.mem.suites);
        PoolsOfValid(kept, l.rems, w.mem.suites);
        if kept == [] {
          ClearPath(t, w1, requested, false, w.tries);
          PathTrans(t, w, w1, ClearAnnotations(w1, requested, false, w.tries).0);
          ClearedReady(s, w1, ClearAnnotations(w1, requested, false, w.tries).0);
          OpenedTidy(s, w, Open(w).0, Open(w).1);
        } else {
          if s.honest { PathHonest(t, w, w1); }
          OpenKeptPath(s, w1, requested, kept, PoolsOf(kept, l.rems, w.mem.suites));
          OpenedAfter(s, w, w1, Open(w).0, Open(w).1);
        }
      } else {
        ClearedReady(s, w, w1);
        OpenedTidy(s, w, Open(w).0, Open(w).1);
      }
    }
  }

  lemma OrphanPath(s: Scope, w: World)
    requires Start0(s, w) && JustRead(w) && w.mem.batch.None? && [] in s.answerable && s.countable
    ensures var (w2, r) := ResumeOrphaned(w);
      Reach(s, w, w2) && (r != Died ==> StatusReady(s, w2))
  {
    hide Path, Linked, Fine, Wf, NamesIn, Ours, ResumeAll, ClearAnnotations;
    var pools := NamesIn(Raw(w.mem.pools));
    PathRefl(s, w);
    ResumeAllPath(s, w, pools);
    var (w1, r) := ResumeAll(w, pools, w.owner);
    if r == Ok {
      AllReleased(s, w, w1, pools);
      ClearPath(s, w1, [], true, w.tries);
      var (w2, r2) := ClearAnnotations(w1, [], true, w.tries);
      PathTrans(s, w, w1, w2);
      NotePath(s, w2, Counted("orphaned"));
      PathTrans(s, w, w2, Note(w2, Counted("orphaned")));
    }
  }

  /** Resuming every named pool leaves none of ours. */
  lemma AllReleased(s: Scope, w: World, w1: World, pools: seq<string>)
    requires Start0(s, w) && w1.owner == w.owner && OursGrowth(w.owner, w.d, w1.d, [])
    requires forall p :: p in pools ==> !Ours(w1.d, w.owner, p)
    requires s.safe ==> OursIn(w.owner, w.d, pools)
    ensures s.safe ==> NoneOurs(w1.owner, w1.d)
  {
    if s.safe {
      forall p ensures !Ours(w1.d, w.owner, p) {
        assert Ours(w1.d, w.owner, p) ==> Ours(w.d, w.owner, p);
      }
    }
  }

  // ---- phase two ----

  lemma ReleasePath(s: Scope, w: World, batch: Batch, countThis: bool, reason: string)
    requires Start0(s, w) && w.d.cr.batch == Some(batch) == w.mem.batch
    requires batch.remediations in s.answerable && (countThis ==> s.countable)
    ensures var (w2, r) := Release(w, batch, countThis, reason);
      && Reach(s, w, w2) && (r != Died ==> StatusReady(s, w2))
      && (r == Ok ==> w2.mem.batch.None? && (s.safe ==> NoneOurs(w2.owner, w2.d))
                      && w2.d.cr.started == NoStart && w2.d.cr.pools == None)
      && (r == Err ==> w2.mem.batch == w.mem.batch)
  {
    hide Path, Linked, Fine, Wf, NoLeak, ResumeAll, ClearAnnotations;
    BatchIsOurs(s, w);
    ResumeAllPath(s, w, batch.pools);
    var (w1, r) := ResumeAll(w, batch.pools, batch.owner);
    if r == Ok {
      AllReleased(s, w, w1, batch.pools);
      ClearPath(s, w1, batch.remediations, true, w.tries);
      var (w2, r2) := ClearAnnotations(w1, batch.remediations, true, w.tries);
      PathTrans(s, w, w1, w2);
      if countThis {
        NotePath(s, w2, Counted(reason));
        PathTrans(s, w, w2, Note(w2, Counted(reason)));
      }
      var w3 := if countThis then Note(w2, Counted(reason)) else w2;
      SameTrace(s, w, w3, w3.(mem := w3.mem.(batch := None)));
    }
  }

  lemma BatchIsOurs(s: Scope, w: World)
    requires Start0(s, w) && w.d.cr.batch.Some?
    ensures w.d.cr.batch.value.owner == w.owner && Shaped(w.d.cr.batch.value, w.owner)
    ensures s.safe ==> OursIn(w.owner, w.d, w.d.cr.batch.value.pools)
  {
  }

  lemma FinishPath(s: Scope, w: World)
    requires Start0(s, w) && JustRead(w) && w.mem.batch.Some?
    requires w.mem.batch.value.remediations in s.answerable && (Unreported(w.mem) ==> s.countable)
    ensures Reach(s, w, Finish(w).0)
    ensures Finish(w).1 != Died ==> StatusReady(s, Finish(w).0)
  {
    hide Path, Linked, Fine, Wf, Release, Look, BatchPastGrace;
    var batch := w.mem.batch.value;
    var names := Valids(Capped(batch.remediations));
    ListPath(s, w, names);
    var w1 := ListRemediations(w, names).0;
    forall reason: string
      ensures var (w2, r) := Release(w1, batch, Unreported(w.mem), reason);
        Reach(s, w, w2) && (r != Died ==> StatusReady(s, w2))
    {
      ReleasePath(s, w1, batch, Unreported(w.mem), reason);
      PathTrans(s, w, w1, Release(w1, batch, Unreported(w.mem), reason).0);
    }
    StillReady(s, w1);
  }

  lemma StillReady(s: Scope, w: World)
    requires Start0(s, w) && w.mem.batch == w.d.cr.batch && w.mem.batch.Some?
    ensures StatusReady(s, w)
  {
  }

  // ---- reconcile, delete, runs ----

  /** The status write takes effect. */
  ghost predicate Saved(w: World) {
    var (w1, o) := Call(w);
    Takes(o, w1.d.cr == w1.base)
  }

  lemma WriteStatusPath(s: Scope, w: World)
    requires Start0(s, w) && (Saved(w) ==> StatusReady(s, w))
    ensures Reach(s, w, WriteStatus(w).0)
  {
    hide Path, Linked;
    CallPath(s, w);
    var (w1, o) := Call(w);
    if Takes(o, w1.d.cr == w1.base) {
      if w1.mem.batch.Some? {
        SanitizeIdentity(w1.mem.batch.value, w.owner);
      }
      var d2 := w1.d.(cr := w1.d.cr.(batch := SanitizeBatch(w1.mem.batch)));
      assert SameOurs(w.owner, w1.d, d2);
      PathMove(s, w1, StatusSet, d2);
      PathTrans(s, w, w1, Move(w1, StatusSet, d2));
      PathEnd(s, w, Move(w1, StatusSet, d2));
    }
  }

  /** Allows everything but the choice of owned suites. */
  ghost predicate Broad(s: Scope) {
    && (forall x: string :: x in s.pausable && x in s.appliable)
    && (forall x: seq<string> :: x in s.answerable)
    && s.countable
  }

  ghost predicate Universal(s: Scope) {
    Broad(s) && forall x: set<string> :: x in s.owning
  }

  /** A reconcile that reads a request and no batch reads no pool of ours either. */
  ghost predicate FreshOpen(w: World) {
    var d := Call(w).0.d;
    d.cr.batch.None? && NamesIn(Raw(d.cr.request)) != [] ==> NoneOurs(w.owner, d)
  }

  /** Every open of the run starts with no pool of ours. */
  ghost predicate OpensFresh(w: World, jobs: seq<Job>)
    decreases |jobs|
  {
    jobs == [] || (if jobs[0] == DoReconcile then FreshOpen(w) && OpensFresh(Reconcile(w).0, jobs[1..])
                   else OpensFresh(DeleteJob(w).0, jobs[1..]))
  }

  /** A reconcile that recorded a dirty prefix and ended in the status write that stored it. */
  ghost predicate LeakyReconcile(w: World) {
    Dirty(w, Reconcile(w).0) && EndsIn(Reconcile(w).0, StatusSet)
  }

  /** None of the run's reconciles is leaky. */
  ghost predicate NoneLeaky(w: World, jobs: seq<Job>)
    decreases |jobs|
  {
    jobs == [] || (if jobs[0] == DoReconcile then !LeakyReconcile(w) && NoneLeaky(Reconcile(w).0, jobs[1..])
                   else NoneLeaky(DeleteJob(w).0, jobs[1..]))
  }

  /** The status write appends at most its own event to what others do. */
  lemma WriteStatusEnds(w: World)
    requires Wf(w.owner, w.d)
    ensures var w2 := WriteStatus(w).0;
      && w.trace <= w2.trace
      && (Saved(w) ==> EndsIn(w2, StatusSet) && w2.trace[|w2.trace| - 1].post == w2.d && |w2.trace| > |w.trace|)
      && (!Saved(w) && w.trace != [] && w.trace[|w.trace| - 1].what.PrefixRecorded? ==> !EndsIn(w2, StatusSet))
  {
    hide Wf;
    CallFrame(w);
  }

  lemma ReconcilePath(s: Scope, w: World)
    requires Start0(s, w) && Broad(s) && Call(w).0.d.cr.suites in s.owning
    requires s.safe ==> !LeakyReconcile(w)
    requires (s.bare ==> FreshOpen(w)) && (s.honest ==> Honest(w))
    ensures Reach(s, w, Reconcile(w).0)
  {
    hide Path, Linked, Fine, Wf, NoLeak, StatusReady, Losing, Dirty, WriteStatus, ApplyBatch;
    CallPath(s, w);
    var (w1, o) := Call(w);
    if o == Served {
      var w2 := w1.(mem := w1.d.cr, base := w1.d.cr);
      var (w3, r) := ApplyBatch(w2);
      BatchWorkPath(s, w);
      if r != Died {
        if s.safe && Dirty(w, w3) { DirtyStays(s, w, w3); }
        WriteStatusPath(s, w3);
        PathTrans(s, w, w3, WriteStatus(w3).0);
      }
    }
  }

  /** Up to the status write, whatever prefix was recorded. */
  lemma BatchWorkPath(s: Scope, w: World)
    requires Start0(s, w) && Broad(s) && Call(w).0.d.cr.suites in s.owning && Call(w).1 == Served
    requires (s.bare ==> FreshOpen(w)) && (s.honest ==> Honest(w))
    ensures var w1 := Call(w).0;
      var (w3, r) := ApplyBatch(w1.(mem := w1.d.cr, base := w1.d.cr));
      Opened(s, w, w3, r)
  {
    hide Path, Linked, Fine, Wf, NoLeak, Open, Finish, StatusReady, Opened, Honest;
    var t := Tidy(s);
    CallPath(t, w);
    var w1 := Call(w).0;
    var w2 := w1.(mem := w1.d.cr, base := w1.d.cr);
    SameTrace(t, w, w1, w2);
    if s.honest { PathHonest(t, w, w2); }
    var (w3, r) := ApplyBatch(w2);
    if w2.mem.batch.None? {
      OpenPath(s, w2);
    } else {
      FinishPath(t, w2);
      SameReady(s, w3);
      OpenedTidy(s, w2, w3, r);
    }
    OpenedAfter(s, w, w2, w3, r);
  }

  lemma SameReady(s: Scope, w: World)
    ensures StatusReady(Tidy(s), w) <==> StatusReady(s, w)
  {
  }

  /** A dirty prefix stays on the trace, and a status write that takes effect ends it. */
  lemma DirtyStays(s: Scope, w: World, w3: World)
    requires Reach(s, w, w3) && Dirty(w, w3)
    ensures Dirty(w, WriteStatus(w3).0) && (Saved(w3) ==> EndsIn(WriteStatus(w3).0, StatusSet))
  {
    hide Path, Linked, Fine, WriteStatus, Wf, NoLeak;
    assert Wf(w3.owner, w3.d);
    WriteStatusEnds(w3);
    var i :| |w.trace| <= i < |w3.trace| && w3.trace[i].what.PrefixRecorded?
             && (w3.trace[i].what.held != {} || w3.trace[i].what.landed);
    assert WriteStatus(w3).0.trace[i] == w3.trace[i];
  }

  lemma SameTrace(s: Scope, w: World, w1: World, w2: World)
    requires Reach(s, w, w1) && w2 == w1.(mem := w2.mem, base := w2.base)
    ensures Reach(s, w, w2)
  {
  }

  lemma DeletePath(s: Scope, w: World)
    requires Start0(s, w)
    ensures var (w2, r) := DeleteJob(w);
      && Reach(s, w, w2)
      && (r == Ok && s.safe ==> NoneOurs(w2.owner, w2.d))
  {
    hide Path, Linked, Fine, Wf, NoLeak, ReleaseRecorded;
    CallPath(s, w);
    var (w1, o) := Call(w);
    if o == Served {
      var w2 := w1.(mem := w1.d.cr, base := w1.d.cr);
      SameTrace(s, w, w1, w2);
      if w2.mem.batch.Some? && UniqueSorted(w2.mem.batch.value.pools) != [] {
        BatchIsOurs(s, w2);
        var batchPools := w2.mem.batch.value.pools;
        NamesAreNonEmpty(batchPools);
        ResumeAllPath(s, w2, batchPools);
        var (w3, r) := ResumeAll(w2, batchPools, w.owner);
        PathTrans(s, w, w2, w3);
        if r == Ok {
          AllReleased(s, w2, w3, batchPools);
        }
      } else {
        if w2.mem.batch.Some? {
          BatchIsOurs(s, w2);
          NamesAreNonEmpty(w2.mem.batch.value.pools);
        }
        ReleaseRecordedPath(s, w2);
        PathTrans(s, w, w2, ReleaseRecorded(w2).0);
      }
    }
  }

  lemma ReleaseRecordedPath(s: Scope, w: World)
    requires Start0(s, w) && JustRead(w)
    requires w.d.cr.batch.Some? ==> w.d.cr.batch.value.pools == []
    ensures var (w2, r) := ReleaseRecorded(w);
      && Reach(s, w, w2)
      && (r == Ok && s.safe ==> NoneOurs(w2.owner, w2.d))
  {
    hide Path, Linked, Fine, Wf;
    var names := Valids(Capped(NamesIn(Raw(w.mem.request))));
    ListPath(s, w, names);
    var (w1, l) := ListRemediations(w, names);
    if l.Listed? || l == NoCrd {
      var found := if l.Listed? then PoolsOf(names, l.rems, w.mem.suites) else [];
      var pools := UniqueSorted(NamesIn(Raw(w.mem.pools)) + found);
      ResumeAllPath(s, w1, pools);
      var (w2, r) := ResumeAll(w1, pools, w.owner);
      PathTrans(s, w, w1, w2);
      if r == Ok && s.safe {
        assert OursIn(w.owner, w1.d, pools);
        AllReleased(s, w1, w2, pools);
      }
    }
  }

  lemma NamesAreNonEmpty(names: seq<string>)
    requires SortedNames(names, MAX_POOLS)
    ensures UniqueSorted(names) == names
  {
    UniqueSortedFixpoint(names);
  }

  // ---- main results ----

  /**
    A run of any length, with crashes anywhere, follows a lawful path; and if no reconcile
    stores a dirty prefix, no state along it leaks.
  */
  lemma {:induction false} RunPath(s: Scope, w: World, jobs: seq<Job>)
    requires Start0(s, w) && Universal(s)
    requires s.safe ==> NoneLeaky(w, jobs)
    requires (s.bare ==> OpensFresh(w, jobs)) && (s.honest ==> Honest(w))
    ensures Reach(s, w, Run(w, jobs))
    decreases |jobs|
  {
    hide Path, Linked, Fine, Wf, NoLeak;
    if jobs == [] {
      PathRefl(s, w);
    } else {
      var w1 := if jobs[0] == DoReconcile then Reconcile(w).0 else DeleteJob(w).0;
      if jobs[0] == DoReconcile { ReconcilePath(s, w); } else { DeletePath(s, w); }
      if s.honest { PathHonest(s, w, w1); }
      RunPath(s, w1, jobs[1..]);
      PathTrans(s, w, w1, Run(w1, jobs[1..]));
    }
  }

  /** Every state between w and w2 names every pool of ours. */
  ghost predicate LeakFree(w: World, w2: World) {
    && NoLeak(w2.owner, w2.d)
    && forall i :: |w.trace| <= i < |w2.trace| ==>
         NoLeak(w2.owner, w2.trace[i].pre) && NoLeak(w2.owner, w2.trace[i].post)
  }

  lemma RunIsLeakFree(w: World, jobs: seq<Job>)
    requires Wf(w.owner, w.d) && NoLeak(w.owner, w.d) && NoneLeaky(w, jobs)
    ensures LeakFree(w, Run(w, jobs))
  {
    hide Run, Linked, NoLeak, NoneLeaky;
    RunPath(SAFE, w, jobs);
    var w2 := Run(w, jobs);
    forall i | |w.trace| <= i < |w2.trace|
      ensures NoLeak(w2.owner, w2.trace[i].pre) && NoLeak(w2.owner, w2.trace[i].post)
    {
      LinkedEvent(SAFE, w.owner, w.d, w2.trace[|w.trace|..], w2.d, i - |w.trace|);
    }
  }

  /** Storing a prefix that loses a pool leaks. */
  lemma SavedLoses(w: World)
    requires Start0(SAFE, w) && Losing(SAFE, w) && Saved(w)
    ensures !NoLeak(w.owner, WriteStatus(w).0.d)
  {
    hide Path, Linked, Fine;
    CallPath(SAFE, w);
    SanitizeIdentity(w.mem.batch.value, w.owner);
    var d2 := WriteStatus(w).0.d;
    var p :| Ours(w.d, w.owner, p) && p !in w.mem.batch.value.pools;
    assert Ours(d2, w.owner, p);
  }

  /** A leaky reconcile ends in a leak. */
  lemma LeakyLeaks(w: World)
    requires Start0(SAFE, w) && LeakyReconcile(w)
    ensures var w2 := Reconcile(w).0;
      w2.trace[|w2.trace| - 1].post == w2.d && !NoLeak(w.owner, w2.d) && |w2.trace| > |w.trace|
  {
    hide Path, Linked, Fine, Wf, NoLeak, Losing, WriteStatus, ApplyBatch, Saved;
    var (w1, o) := Call(w);
    CallPath(SAFE, w);
    CallPath(Tidy(SAFE), w);
    Widens(SAFE, w, w1);
    if o == Served {
      var w2 := w1.(mem := w1.d.cr, base := w1.d.cr);
      var (w3, r) := ApplyBatch(w2);
      BatchWorkPath(SAFE, w);
      if r != Died {
        WriteStatusEnds(w3);
        ReachGrows(SAFE, w, w3);
        StatusIsNoPrefix(w, w3);
        LosingEnds(SAFE, w3);
        SavedLoses(w3);
      }
    }
  }

  lemma LosingEnds(s: Scope, w: World)
    requires Losing(s, w)
    ensures w.trace != [] && w.trace[|w.trace| - 1].what.PrefixRecorded?
  {
  }

  /** A run is leak-free at every point if and only if none of its reconciles stores a dirty prefix. */
  lemma {:induction false} RunLeaksExactly(w: World, jobs: seq<Job>)
    requires Wf(w.owner, w.d) && NoLeak(w.owner, w.d)
    ensures LeakFree(w, Run(w, jobs)) <==> NoneLeaky(w, jobs)
    decreases |jobs|
  {
    hide Path, Linked, Fine, Wf, NoLeak, LeakyReconcile, Reconcile, DeleteJob;
    if NoneLeaky(w, jobs) {
      RunIsLeakFree(w, jobs);
    } else {
      var w1 := if jobs[0] == DoReconcile then Reconcile(w).0 else DeleteJob(w).0;
      var w2 := Run(w, jobs);
      if jobs[0] == DoReconcile { ReconcilePath(ANYTHING, w); } else { DeletePath(ANYTHING, w); }
      RunPath(ANYTHING, w1, jobs[1..]);
      ReachGrows(ANYTHING, w, w1);
      ReachGrows(ANYTHING, w1, w2);
      if jobs[0] == DoReconcile && LeakyReconcile(w) {
        LeakyLeaks(w);
        assert w2.trace[|w1.trace| - 1] == w1.trace[|w1.trace| - 1];
      } else {
        if jobs[0] == DoReconcile { ReconcilePath(SAFE, w); } else { DeletePath(SAFE, w); }
        RunLeaksExactly(w1, jobs[1..]);
      }
    }
  }

  lemma ReachGrows(s: Scope, w: World, w2: World)
    requires Reach(s, w, w2)
    ensures w.trace <= w2.trace && w2.owner == w.owner && Wf(w2.owner, w2.d)
  {
  }

  /** When no recorded prefix on the trace is dirty, no reconcile is leaky. */
  lemma {:induction false} CleanIsNotLeaky(w: World, jobs: seq<Job>)
    requires Wf(w.owner, w.d) && Clean(Run(w, jobs).trace)
    ensures NoneLeaky(w, jobs)
    decreases |jobs|
  {
    hide Path, Linked, Fine, Wf, NoLeak, Reconcile, DeleteJob;
    if jobs != [] {
      var w1 := if jobs[0] == DoReconcile then Reconcile(w).0 else DeleteJob(w).0;
      var w2 := Run(w, jobs);
      if jobs[0] == DoReconcile { ReconcilePath(ANYTHING, w); } else { DeletePath(ANYTHING, w); }
      RunPath(ANYTHING, w1, jobs[1..]);
      ReachGrows(ANYTHING, w, w1);
      ReachGrows(ANYTHING, w1, w2);
      assert forall i :: 0 <= i < |w1.trace| ==> w2.trace[i] == w1.trace[i];
      CleanIsNotLeaky(w1, jobs[1..]);
    }
  }

  /**
    Between any two API writes of a run every pool of ours is named, unless the partial-pause
    branch runs when a pool from the failing one on was already ours, or when the failing pause
    took effect.
  */
  lemma NoLeakedPause(w: World, jobs: seq<Job>, i: nat)
    requires Wf(w.owner, w.d) && NoLeak(w.owner, w.d)
    requires Clean(Run(w, jobs).trace)
    requires |w.trace| <= i < |Run(w, jobs).trace|
    ensures NoLeak(w.owner, Run(w, jobs).trace[i].pre)
    ensures NoLeak(w.owner, Run(w, jobs).trace[i].post)
    ensures NoLeak(w.owner, Run(w, jobs).d)
  {
    hide Run, NoLeak, NoneLeaky, Wf, Linked;
    CleanIsNotLeaky(w, jobs);
    RunIsLeakFree(w, jobs);
    RunPath(ANYTHING, w, jobs);
  }

  /** The status write records no prefix. */
  lemma StatusIsNoPrefix(w: World, w3: World)
    requires Wf(w3.owner, w3.d) && w.trace <= w3.trace && Dirty(w, WriteStatus(w3).0)
    ensures Dirty(w, w3)
  {
    hide Wf;
    CallFrame(w3);
  }
  /** Opens that start with no pool of ours leave none held in a recorded prefix. */
  lemma FreshOpensHoldNothing(w: World, jobs: seq<Job>)
    requires Wf(w.owner, w.d) && Unheld(w.trace) && OpensFresh(w, jobs)
    ensures Unheld(Run(w, jobs).trace)
  {
    hide Run, Linked, OpensFresh;
    var s := ANYTHING.(bare := true);
    RunPath(s, w, jobs);
    var w2 := Run(w, jobs);
    forall i | |w.trace| <= i < |w2.trace| && w2.trace[i].what.PrefixRecorded? ensures w2.trace[i].what.held == {} {
      LinkedEvent(s, w.owner, w.d, w2.trace[|w.trace|..], w2.d, i - |w.trace|);
    }
    assert forall i :: 0 <= i < |w.trace| ==> w2.trace[i] == w2.trace[..|w.trace|][i];
  }

  /** When no call takes effect while looking failed, no failing pause does. */
  lemma HonestRunsLandNothing(w: World, jobs: seq<Job>)
    requires Wf(w.owner, w.d) && NoneLanded(w.trace) && Honest(w)
    ensures NoneLanded(Run(w, jobs).trace)
  {
    hide Run, Linked;
    var s := ANYTHING.(honest := true);
    RunPath(s, w, jobs);
    var w2 := Run(w, jobs);
    forall i | |w.trace| <= i < |w2.trace| && w2.trace[i].what.PrefixRecorded? ensures !w2.trace[i].what.landed {
      LinkedEvent(s, w.owner, w.d, w2.trace[|w.trace|..], w2.d, i - |w.trace|);
    }
    assert forall i :: 0 <= i < |w.trace| ==> w2.trace[i] == w2.trace[..|w.trace|][i];
  }

  /** A run whose opens start with no pool of ours, and whose failed pauses have no effect, never leaks. */
  lemma FreshRunsNeverLeak(w: World, jobs: seq<Job>, i: nat)
    requires Wf(w.owner, w.d) && NoLeak(w.owner, w.d) && w.trace == []
    requires OpensFresh(w, jobs) && (Honest(w) || NoneLanded(Run(w, jobs).trace))
    requires i < |Run(w, jobs).trace|
    ensures NoLeak(w.owner, Run(w, jobs).trace[i].pre) && NoLeak(w.owner, Run(w, jobs).trace[i].post)
    ensures NoLeak(w.owner, Run(w, jobs).d)
  {
    hide Run, OpensFresh, NoLeak, Honest;
    FreshOpensHoldNothing(w, jobs);
    if Honest(w) { HonestRunsLandNothing(w, jobs); }
    NoLeakedPause(w, jobs, i);
  }

  /** A completed delete leaves no pool paused by us. */
  lemma DeleteReleasesAll(w: World)
    requires Wf(w.owner, w.d) && NoLeak(w.owner, w.d)
    ensures DeleteJob(w).1 == Ok ==> NoneOurs(w.owner, DeleteJob(w).0.d)
  {
    DeletePath(SAFE, w);
  }

  /** A finish that drops the batch leaves no pool paused by us and no recovery annotation. */
  lemma FinishReleasesAll(w: World)
    requires Wf(w.owner, w.d) && NoLeak(w.owner, w.d) && JustRead(w) && w.mem.batch.Some?
    ensures var (w2, r) := Finish(w);
      r == Ok && w2.mem.batch.None? ==>
        NoneOurs(w.owner, w2.d) && w2.d.cr.started == NoStart && w2.d.cr.pools == None
  {
    hide Release, Wf, NoLeak;
    var s := SAFE;
    var batch := w.mem.batch.value;
    var names := Valids(Capped(batch.remediations));
    ListPath(s, w, names);
    var w1 := ListRemediations(w, names).0;
    forall reason: string
      ensures var (w2, r) := Release(w1, batch, Unreported(w.mem), reason);
        r == Ok ==> NoneOurs(w.owner, w2.d) && w2.d.cr.started == NoStart && w2.d.cr.pools == None
    {
      ReleasePath(s, w1, batch, Unreported(w.mem), reason);
    }
  }

  /** Crash recovery without a request releases everything the annotations name. */
  lemma OrphanReleasesAll(w: World)
    requires Wf(w.owner, w.d) && NoLeak(w.owner, w.d) && JustRead(w) && w.mem.batch.None?
    ensures ResumeOrphaned(w).1 == Ok ==> NoneOurs(w.owner, ResumeOrphaned(w).0.d)
  {
    var s := SAFE;
    var pools := NamesIn(Raw(w.mem.pools));
    if w.mem.started == NoStart && Raw(w.mem.pools) == "" {
      assert Split("", ',') == [""] && TrimmedItems([""]) == [];
      assert pools == [];
    }
    ResumeAllPath(s, w, pools);
    var (w1, r) := ResumeAll(w, pools, w.owner);
    if r == Ok {
      AllReleased(s, w, w1, pools);
      ClearPath(s, w1, [], true, w.tries);
    }
  }
}
