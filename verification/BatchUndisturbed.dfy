/**
  A reconcile nobody disturbs: every call is served and nobody else writes meanwhile. Then a valid
  request opens, is paused for and applied, and its batch is stored, in that one reconcile.
*/
module BatchUndisturbed {
  import opened Options
  import opened Text
  import opened K8sNames
  import opened BatchModel
  import opened BatchSpec
  import opened BatchPaths
  import opened BatchSafety
  import opened BatchDecisions

  /** The next n calls are served and nothing happens around them. */
  ghost predicate Undisturbed(w: World, n: nat) {
    |w.script| >= n && forall i :: 0 <= i < n ==> w.script[i] == Tick([], Served)
  }

  /** w2 is reached from w, with n undisturbed calls left and retries and an owner as before. */
  ghost predicate Leaves(w: World, w2: World, n: nat) {
    Undisturbed(w2, n) && w2.owner == w.owner && w2.tries == w.tries && w2.mem.suites == w.mem.suites
  }

  lemma NextCall(w: World, n: nat)
    requires n > 0 && Undisturbed(w, n)
    ensures Call(w) == (w.(script := w.script[1..]), Served)
    ensures Undisturbed(w.(script := w.script[1..]), n - 1)
  {
  }

  lemma Fewer(w: World, n: nat, m: nat)
    requires Undisturbed(w, n) && m <= n
    ensures Undisturbed(w, m)
  {
  }

  // ---- pools ----

  lemma PausesOne(w: World, pool: string, n: nat)
    requires w.tries > 0 && w.owner != "" && Undisturbed(w, n + 2)
    ensures var (w2, r) := SetPaused(w, pool, true, w.owner, w.tries);
      r == Ok && Leaves(w, w2, n) && w2.mem == w.mem && w2.base == w.base
      && w2.d == w.d.(mcps := w2.d.mcps)
      && (forall p :: PauseDone(w.d, w.owner, p) ==> PauseDone(w2.d, w.owner, p))
  {
    NextCall(w, n + 2);
    var w1 := Call(w).0;
    NextCall(w1, n + 1);
    Fewer(w, n + 2, n);
    Fewer(w1, n + 1, n);
  }

  lemma {:induction false} PausesAll(w: World, pools: seq<string>, k: nat, n: nat)
    requires w.tries > 0 && Start0(ANYTHING, w) && k <= |pools| && Undisturbed(w, n + 2 * (|pools| - k))
    ensures var (w2, r, m) := PauseFrom(w, pools, k);
      r == Ok && Leaves(w, w2, n) && w2.mem == w.mem && w2.base == w.base
      && w2.d == w.d.(mcps := w2.d.mcps)
      && (forall p :: PauseDone(w.d, w.owner, p) ==> PauseDone(w2.d, w.owner, p))
      && (forall j :: k <= j < |pools| ==> PauseDone(w2.d, w.owner, pools[j]))
    decreases |pools| - k
  {
    hide SetPaused, PauseDone, Path, Linked, Fine;
    if k < |pools| {
      OwnerIsSet(w);
      PausesOne(w, pools[k], n + 2 * (|pools| - k - 1));
      PauseIsDone(w, pools[k], w.tries);
      SetPausedPath(ANYTHING, w, pools[k], true, w.tries);
      PausesAll(SetPaused(w, pools[k], true, w.owner, w.tries).0, pools, k + 1, n);
    }
  }

  lemma OwnerIsSet(w: World)
    requires Start0(ANYTHING, w)
    ensures w.owner != ""
  {
  }

  lemma {:induction false} LooksAt(w: World, names: seq<string>, derived: seq<string>, n: nat)
    requires Undisturbed(w, n + |names|)
    requires forall p :: p in names && p in w.d.mcps ==> w.d.mcps[p].paused.Is?
    ensures var (w2, r, ours) := RecordedOurs(w, names, derived);
      r == Ok && Leaves(w, w2, n) && w2.mem == w.mem && w2.base == w.base && w2.d == w.d
    decreases |names|
  {
    hide ValidName;
    if names == [] {
    } else {
      assert names == [names[0]] + names[1..];
      NextCall(w, n + |names|);
      Fewer(w, n + |names|, n + |names| - 1);
      if names[0] in derived || !ValidName(names[0]) || w.owner == "" {
        LooksAt(w, names[1..], derived, n);
      } else {
        LooksAt(Call(w).0, names[1..], derived, n);
      }
    }
  }

  /**
    One undisturbed change of one pool. Pausing puts it under our marker unless it stood paused
    without one; resuming takes back exactly what stood under the given owner's. A pool that is not
    there, has no valid name or cannot be read is passed over, and every other pool stays.
  */
  lemma SetsOne(w: World, pool: string, paused: bool, owner: string)
    requires w.tries > 0 && Undisturbed(w, 2)
    ensures var (w2, r) := SetPaused(w, pool, paused, owner, w.tries);
      var known := ValidName(pool) && pool in w.d.mcps && w.d.mcps[pool].paused.Is?;
      && (r == if known && paused && owner == "" then Err else Ok)
      && w2.d == w.d.(mcps :=
           if known && paused && owner != "" && (w.d.mcps[pool].paused == Is(false) || w.d.mcps[pool].marker != "")
           then w.d.mcps[pool := Pool(Is(true), owner)]
           else if known && !paused && w.d.mcps[pool].marker == owner then w.d.mcps[pool := Pool(Is(false), "")]
           else w.d.mcps)
  {
    hide ValidName;
    NextCall(w, 2);
    NextCall(Call(w).0, 1);
    if pool in w.d.mcps {
      assert w.d.mcps[pool := w.d.mcps[pool]] == w.d.mcps;
    }
  }

  /** The recorded pool has a valid name the remediations did not lead to, stands there and cannot be read. */
  predicate Hides(d: Durable, derived: seq<string>, p: string) {
    p !in derived && ValidName(p) && p in d.mcps && d.mcps[p].paused.Unreadable?
  }

  /** Looking at the recorded pools keeps exactly those paused by us, and fails exactly when one of them hides. */
  lemma {:induction false} LooksExactly(w: World, names: seq<string>, derived: seq<string>)
    requires w.owner != "" && Undisturbed(w, |names|)
    ensures var (w2, r, ours) := RecordedOurs(w, names, derived);
      && (r == if exists p :: p in names && Hides(w.d, derived, p) then Err else Ok)
      && (r == Ok ==> forall p :: p in ours <==> p in names && p !in derived && ValidName(p) && Ours(w.d, w.owner, p))
    decreases |names|
  {
    hide ValidName;
    if names != [] {
      assert names == [names[0]] + names[1..] && names[0] in names;
      NextCall(w, |names|);
      Fewer(w, |names|, |names| - 1);
      if names[0] in derived || !ValidName(names[0]) {
        LooksExactly(w, names[1..], derived);
      } else if Hides(w.d, derived, names[0]) {
      } else {
        LooksExactly(Call(w).0, names[1..], derived);
      }
    }
  }

  // ---- remediations ----

  lemma AppliesOne(w: World, name: string, suites: set<string>, n: nat)
    requires w.tries > 0 && w.d.remCrd && Undisturbed(w, n + 2)
    ensures var (w2, r) := ApplyOne(w, name, suites, w.tries);
      r == Ok && Leaves(w, w2, n) && w2.mem == w.mem && w2.base == w.base
      && w2.d == w.d.(rems := w2.d.rems)
      && (forall x :: ApplyDone(w.d, suites, x) ==> ApplyDone(w2.d, suites, x))
  {
    NextCall(w, n + 2);
    var w1 := Call(w).0;
    NextCall(w1, n + 1);
    Fewer(w1, n + 1, n);
  }

  lemma {:induction false} AppliesAll(w: World, names: seq<string>, suites: set<string>, n: nat)
    requires w.tries > 0 && w.d.remCrd && Undisturbed(w, n + 2 * |names|)
    ensures var (w2, r) := ApplyEach(w, names, suites);
      r == Ok && Leaves(w, w2, n) && w2.mem == w.mem && w2.base == w.base
      && w2.d == w.d.(rems := w2.d.rems)
      && (forall x :: ApplyDone(w.d, suites, x) ==> ApplyDone(w2.d, suites, x))
      && (forall x :: x in names ==> ApplyDone(w2.d, suites, x))
    decreases |names|
  {
    hide ApplyOne, ApplyDone;
    if names != [] {
      assert names == [names[0]] + names[1..];
      AppliesOne(w, names[0], suites, n + 2 * |names[1..]|);
      ApplyIsDone(w, names[0], suites, w.tries);
      AppliesAll(ApplyOne(w, names[0], suites, w.tries).0, names[1..], suites, n);
    }
  }

  // ---- the open ----

  lemma RecordsAtOnce(w: World, pools: seq<string>, requested: seq<string>, kept: seq<string>, n: nat)
    requires w.tries > 0 && Undisturbed(w, n + 2)
    ensures var (w2, r, at) := EnsureMetadata(w, pools, requested, kept, w.tries);
      r == Ok && Leaves(w, w2, n) && w2.d == w.d.(cr := w2.d.cr) && w2.base == w2.d.cr
      && w2.mem.batch == w.mem.batch
  {
    hide Recorded;
    NextCall(w, n + 2);
    var w1 := Call(w).0;
    NextCall(w1, n + 1);
    Fewer(w1, n + 1, n);
  }

  /** Everything the batch is about is paused and applied. */
  ghost predicate InPlace(d: Durable, owner: string, suites: set<string>, b: Batch) {
    && (forall p :: p in b.pools ==> PauseDone(d, owner, p))
    && (forall n :: n in b.remediations ==> ApplyDone(d, suites, n))
  }

  lemma StartsAtOnce(w: World, pools: seq<string>, kept: seq<string>, at: Stamp, n: nat)
    requires w.tries > 0 && Start0(ANYTHING, w) && w.d.remCrd && w.base == w.d.cr
    requires Undisturbed(w, n + 2 * |pools| + 2 * |kept|)
    ensures var (w2, r) := Start(w, pools, kept, at);
      && r == Ok && Leaves(w, w2, n) && w2.base == w2.d.cr
      && w2.mem.batch == Some(Batch(pools, kept, at, w.owner))
      && InPlace(w2.d, w.owner, w.mem.suites, w2.mem.batch.value)
  {
    hide PauseFrom, ApplyEach, ResumeBestEffort, PauseDone, ApplyDone, Undisturbed;
    PausesAll(w, pools, 0, n + 2 * |kept|);
    var w1 := PauseFrom(w, pools, 0).0;
    AppliesAll(w1, kept, w.mem.suites, n);
    var w2 := ApplyEach(w1, kept, w.mem.suites).0;
    forall p | p in pools ensures PauseDone(w2.d, w.owner, p) {
      var j :| 0 <= j < |pools| && pools[j] == p;
      SamePauses(w1.d, w2.d, w.owner, p);
    }
    Held2(w2, pools, kept, at, n);
  }

  lemma SamePauses(d: Durable, d2: Durable, owner: string, p: string)
    requires d2.mcps == d.mcps
    ensures PauseDone(d2, owner, p) <==> PauseDone(d, owner, p)
  {
  }

  lemma Held2(w: World, pools: seq<string>, kept: seq<string>, at: Stamp, n: nat)
    requires Undisturbed(w, n)
    ensures Leaves(w, Hold(w, pools, kept, at), n)
  {
  }

  /** mem is the stored object, as right after the reconcile's read, and names a request worth opening. */
  ghost predicate Openable(w: World, pools: seq<string>) {
    && w.mem == w.base == w.d.cr && w.mem.batch.None? && w.d.remCrd
    && 0 < |Requested(w)| <= 256 && AllValid(Requested(w))
    && (exists x :: x in Requested(w) && x in w.d.rems && Eligible(w.mem.suites, w.d.rems[x]))
    && (forall p :: p in NamesIn(Raw(w.mem.pools)) && p in w.d.mcps ==> w.d.mcps[p].paused.Is?)
    && WouldTake(w, pools) && |pools| <= 32
  }

  /** How many calls an open of this many remediations with this many recorded names can take. */
  function Budget(recorded: nat): nat {
    4 + recorded + 2 * 32 + 2 * 256
  }

  /** From the listing on: the recorded pools are looked at, the batch is recorded and started. */
  lemma KeptOpensAtOnce(w: World, requested: seq<string>, kept: seq<string>, derived: seq<string>)
    requires Start0(ANYTHING, w) && w.tries > 0 && w.mem.batch.None? && w.d.cr.batch.None? && w.d.remCrd
    requires |kept| <= 256 && forall p :: p in derived ==> ValidName(p)
    requires forall p :: p in NamesIn(Raw(w.mem.pools)) && p in w.d.mcps ==> w.d.mcps[p].paused.Is?
    requires var ours := RecordedOurs(w, NamesIn(Raw(w.mem.pools)), derived).2;
      |UniqueSorted(derived + ours)| <= 32
    requires Undisturbed(w, 3 + 2 * 32 + 2 * 256 + |NamesIn(Raw(w.mem.pools))|)
    ensures var (w2, r) := OpenKept(w, requested, kept, derived);
      && r == Ok && w2.mem.batch.Some? && Leaves(w, w2, 1) && w2.base == w2.d.cr
      && InPlace(w2.d, w.owner, w.mem.suites, w2.mem.batch.value)
  {
    hide Path, Linked, Fine, Wf, InPlace, NamesIn, ValidName, Undisturbed, RecordedOurs, EnsureMetadata, Start, UniqueSorted, StrictlySorted;
    var recorded := NamesIn(Raw(w.mem.pools));
    RecordedOursPath(ANYTHING, w, recorded, derived);
    LooksAt(w, recorded, derived, 3 + 2 * 32 + 2 * 256);
    var (w1, r, ours) := RecordedOurs(w, recorded, derived);
    var built := UniqueSorted(derived + ours);
    SortedValid(derived, ours);
    RecordsAtOnce(w1, built, requested, kept, 1 + 2 * 32 + 2 * 256);
    EnsurePath(ANYTHING, w1, built, requested, kept, w.tries);
    var (w2, r2, at) := EnsureMetadata(w1, built, requested, kept, w.tries);
    Fewer(w2, 1 + 2 * 32 + 2 * 256, 1 + 2 * |built| + 2 * |kept|);
    StartsAtOnce(w2, built, kept, at, 1);
  }

  lemma OpensAtOnce(w: World, pools: seq<string>)
    requires Start0(ANYTHING, w) && w.tries > 0 && Openable(w, pools)
    requires Undisturbed(w, Budget(|NamesIn(Raw(w.mem.pools))|))
    ensures var (w2, r) := Open(w);
      && r == Ok && w2.mem.batch.Some? && Leaves(w, w2, 1) && w2.base == w2.d.cr
      && InPlace(w2.d, w.owner, w.mem.suites, w2.mem.batch.value)
  {
    hide Path, Linked, Fine, Wf, InPlace, NamesIn, ValidName, WouldTake, Undisturbed, Eligible, RecordedOurs, OpenKept, StrictlySorted, PoolFromRemediation, UniqueSorted, Keep, PoolsOf;
    var requested, recorded := Requested(w), NamesIn(Raw(w.mem.pools));
    NextCall(w, Budget(|recorded|));
    ListPath(ANYTHING, w, requested);
    var w1 := Call(w).0;
    assert ListRemediations(w, requested) == (w1, Listed(w.d.rems)) && w1.d == w.d;
    var kept := Keep(requested, w.d.rems, w.mem.suites);
    var derived := PoolsOf(kept, w.d.rems, w.mem.suites);
    KeepExactly(requested, w.d.rems, w.mem.suites);
    ValidPools(requested, w.d.rems, w.mem.suites);
    RecordedOursPath(ANYTHING, w1, recorded, derived);
    RecordedAreNamed(w1, recorded, derived);
    LooksAt(w1, recorded, derived, 3 + 2 * 32 + 2 * 256);
    var ours := RecordedOurs(w1, recorded, derived).2;
    SortedValid(derived, ours);
    SamePools(w, pools, UniqueSorted(derived + ours), w.d.rems);
    KeptOpensAtOnce(w1, requested, kept, derived);
    assert Open(w) == OpenKept(w1, requested, kept, derived);
  }

  lemma ValidPools(requested: seq<string>, rems: map<string, Remediation>, suites: set<string>)
    requires StrictlySorted(requested) && |requested| <= MAX_REMEDIATIONS && AllValid(requested)
    ensures |Keep(requested, rems, suites)| <= 256
    ensures forall p :: p in PoolsOf(Keep(requested, rems, suites), rems, suites) ==> ValidName(p)
  {
    hide ValidName, StrictlySorted;
    TakenUp(requested, rems, suites);
  }

  /** The world right after the reconcile's first read. */
  ghost function JustReadWorld(w: World): World {
    var w1 := Call(w).0;
    w1.(mem := w1.d.cr, base := w1.d.cr)
  }

  /**
    A reconcile that finds a request for at most 256 valid names, at least one of which may be
    applied, with at most 32 pools to pause and no recorded pool unreadable, succeeds when nobody
    disturbs it; the stored batch then takes up exactly those remediations and pools, and
    everything it is about is paused and applied.
  */
  lemma ReconcileOpens(w: World, pools: seq<string>)
    requires Start0(ANYTHING, w) && w.tries > 0
    requires Undisturbed(w, 1 + Budget(|NamesIn(Raw(w.d.cr.pools))|))
    requires Openable(JustReadWorld(w), pools)
    ensures var (w2, r) := Reconcile(w);
      && r == Ok && w2.d.cr.batch.Some?
      && TakesUp(JustReadWorld(w), w2.d.cr.batch.value)
      && InPlace(w2.d, w.owner, w.d.cr.suites, w2.d.cr.batch.value)
  {
    hide Path, Linked, Fine, Wf, Open, TakesUp, Carried, InPlace, NamesIn, ValidName, WouldTake, Undisturbed, Eligible;
    NextCall(w, 1 + Budget(|NamesIn(Raw(w.d.cr.pools))|));
    var w1 := JustReadWorld(w);
    CallPath(ANYTHING, w);
    SameTrace(ANYTHING, w, Call(w).0, w1);
    SameCalls(Call(w).0, w1, Budget(|NamesIn(Raw(w.d.cr.pools))|));
    OpensAtOnce(w1, pools);
    OpenTakesUp(w1);
    var (w3, r) := Open(w1);
    NextCall(w3, 1);
    StatusAtOnce(w3);
    ReconcileStores(w);
    SamePlace(w3.d, Reconcile(w).0.d, w.owner, w.d.cr.suites, w3.mem.batch.value);
  }

  lemma SameCalls(w: World, w1: World, n: nat)
    requires w1.script == w.script && Undisturbed(w, n)
    ensures Undisturbed(w1, n)
  {
  }

  lemma StatusAtOnce(w: World)
    requires w.script != [] && Call(w) == (w.(script := w.script[1..]), Served) && w.base == w.d.cr
    ensures WriteStatus(w).1 == Ok && WriteStatus(w).0.d.mcps == w.d.mcps && WriteStatus(w).0.d.rems == w.d.rems
  {
    hide SanitizeBatch;
  }

  lemma SamePlace(d: Durable, d2: Durable, owner: string, suites: set<string>, b: Batch)
    requires d2.mcps == d.mcps && d2.rems == d.rems && InPlace(d, owner, suites, b)
    ensures InPlace(d2, owner, suites, b)
  {
    assert forall p :: PauseDone(d2, owner, p) <==> PauseDone(d, owner, p);
    assert forall n :: ApplyDone(d2, suites, n) <==> ApplyDone(d, suites, n);
  }
}
