/**
  Every routine of the batch protocol walks a path of lawful events between well-formed
  states; until a prefix that strands a pool is stored, no state on the path leaks a paused pool.
*/
module BatchPaths {
  import opened Options
  import opened Text
  import opened K8sNames
  import opened BatchModel
  import opened BatchSpec

  // ---- states ----

  ghost predicate SortedNames(names: seq<string>, max: nat) {
    StrictlySorted(names) && |names| <= max && forall n :: n in names ==> ValidName(n)
  }

  /** A batch the status schema admits and the sanitizer leaves alone. */
  ghost predicate Shaped(b: Batch, owner: string) {
    && SortedNames(b.pools, MAX_POOLS) && SortedNames(b.remediations, MAX_REMEDIATIONS)
    && b.startedAt != Zero && b.owner == owner
  }

  ghost predicate Wf(owner: string, d: Durable) {
    && 0 < |owner| <= 253
    && (forall p :: p in d.mcps ==> ValidName(p))
    && (forall p :: p in d.mcps && d.mcps[p].marker == owner ==> d.mcps[p].paused == Is(true))
    && (d.cr.batch.Some? ==> Shaped(d.cr.batch.value, owner))
  }

  /** The pools the durable ClusterBaseline names for release. */
  ghost function Named(cr: Cr): seq<string> {
    if cr.batch.Some? then cr.batch.value.pools else NamesIn(Raw(cr.pools))
  }

  ghost predicate OursIn(owner: string, d: Durable, names: seq<string>) {
    forall p :: Ours(d, owner, p) ==> p in names
  }

  ghost predicate NoLeak(owner: string, d: Durable) {
    OursIn(owner, d, Named(d.cr))
  }

  ghost predicate NoneOurs(owner: string, d: Durable) {
    forall p :: !Ours(d, owner, p)
  }

  // ---- events ----

  /**
    What is claimed of a path: leak freedom, which pools may be paused, which names applied
    for which owned suites, which requests rewritten or cleared, whether a batch outcome may be
    counted, whether a recorded prefix finds none of its later pools ours before, and whether its
    failing pause had no effect.
  */
  datatype Scope = Scope(
    safe: bool, pausable: iset<string>, appliable: iset<string>, owning: iset<set<string>>,
    answerable: iset<seq<string>>, countable: bool, bare: bool, honest: bool)

  ghost const EVERYTHING: iset<string> := iset x: string | true
  ghost const EVERY_SET: iset<seq<string>> := iset x: seq<string> | true
  ghost const ALL_SUITES: iset<set<string>> := iset x: set<string> | true

  ghost const ANYTHING: Scope := Scope(false, EVERYTHING, EVERYTHING, ALL_SUITES, EVERY_SET, true, false, false)
  ghost const SAFE: Scope := ANYTHING.(safe := true)

  ghost predicate Lawful(owner: string, ev: Event) {
    var pre, post := ev.pre, ev.post;
    match ev.what
    case Env(step) => post == ApplyEnv(owner, pre, step)
    case PoolSet(p, pausing) =>
      && p in pre.mcps && Decide(pre.mcps[p], pausing, owner).Write?
      && post == pre.(mcps := pre.mcps[p := Decide(pre.mcps[p], pausing, owner).after])
    case ApplySet(n, suites) =>
      && n in pre.rems && Eligible(suites, pre.rems[n]) && pre.rems[n].apply == Is(false)
      && post == pre.(rems := pre.rems[n := pre.rems[n].(apply := Is(true))])
    case Annotated(Recording(kept, requested, pools)) =>
      && post.cr.started.StartedAt?
      && post == pre.(cr := Recorded(pre.cr, pools, requested, kept, post.cr.started.ns))
    case Annotated(Clearing(names, recovery)) =>
      post == pre.(cr := Cleared(pre.cr, names, recovery))
    case StatusSet => post == pre.(cr := pre.cr.(batch := post.cr.batch))
    case Counted(_) => post == pre
    case PrefixRecorded(_, _) => post == pre
  }

  ghost predicate PrefixFits(s: Scope, what: What)
    requires what.PrefixRecorded?
  {
    (s.bare ==> what.held == {}) && (s.honest ==> !what.landed)
  }

  ghost predicate Fine(s: Scope, owner: string, ev: Event) {
    && Lawful(owner, ev)
    && Wf(owner, ev.pre) && Wf(owner, ev.post)
    && (s.safe ==> NoLeak(owner, ev.pre) && NoLeak(owner, ev.post))
    && (ev.what.PoolSet? && ev.what.pausing ==> ev.what.pool in s.pausable)
    && (ev.what.ApplySet? ==> ev.what.rem in s.appliable && ev.what.suites in s.owning)
    && (ev.what.Annotated? && ev.what.cause.Clearing? ==> ev.what.cause.names in s.answerable)
    && (ev.what.Annotated? && ev.what.cause.Recording? ==> ev.what.cause.requested in s.answerable)
    && (ev.what.Counted? ==> s.countable)
    && (ev.what.PrefixRecorded? ==> PrefixFits(s, ev.what))
  }

  /** evs leads from d to d2, each event fine. */
  ghost predicate Linked(s: Scope, owner: string, d: Durable, evs: seq<Event>, d2: Durable)
    decreases |evs|
  {
    if evs == [] then d == d2
    else evs[0].pre == d && Fine(s, owner, evs[0]) && Linked(s, owner, evs[0].post, evs[1..], d2)
  }

  ghost predicate Path(s: Scope, w: World, w2: World) {
    && w2.owner == w.owner && w2.tries == w.tries
    && |w.trace| <= |w2.trace| && w2.trace[..|w.trace|] == w.trace
    && Linked(s, w.owner, w.d, w2.trace[|w.trace|..], w2.d)
    && (Honest(w) ==> Honest(w2))
  }

  /** No call takes effect while looking failed. */
  ghost predicate Honest(w: World) {
    forall t :: t in w.script ==> t.outcome != Landed
  }

  ghost predicate Start0(s: Scope, w: World) {
    Wf(w.owner, w.d) && (s.safe ==> NoLeak(w.owner, w.d))
  }

  /** A path whose end is again a good start. */
  ghost predicate Reach(s: Scope, w: World, w2: World) {
    Path(s, w, w2) && Start0(s, w2) && w2.owner == w.owner && w2.tries == w.tries
  }

  lemma {:induction false} LinkedAppend(s: Scope, owner: string, d: Durable, a: seq<Event>, m: Durable, b: seq<Event>, d2: Durable)
    requires Linked(s, owner, d, a, m) && Linked(s, owner, m, b, d2)
    ensures Linked(s, owner, d, a + b, d2)
    decreases |a|
  {
    if a == [] {
      assert a + b == b;
    } else {
      LinkedAppend(s, owner, a[0].post, a[1..], m, b, d2);
      assert (a + b)[0] == a[0] && (a + b)[1..] == a[1..] + b;
    }
  }

  lemma PathRefl(s: Scope, w: World)
    ensures Path(s, w, w)
  {
  }

  lemma PathTrans(s: Scope, w: World, w1: World, w2: World)
    requires Path(s, w, w1) && Path(s, w1, w2)
    ensures Path(s, w, w2)
  {
    var a, b := w1.trace[|w.trace|..], w2.trace[|w1.trace|..];
    LinkedAppend(s, w.owner, w.d, a, w1.d, b, w2.d);
    assert w2.trace[|w.trace|..] == a + b;
    assert w2.trace[..|w.trace|] == w2.trace[..|w1.trace|][..|w.trace|];
  }

  /** One event appended. */
  lemma PathMove(s: Scope, w: World, what: What, d: Durable)
    requires Fine(s, w.owner, Event(what, w.d, d))
    ensures Path(s, w, Move(w, what, d))
  {
    var w2 := Move(w, what, d);
    assert w2.trace[|w.trace|..] == [Event(what, w.d, d)];
    assert [Event(what, w.d, d)][1..] == [];
  }

  /** The end of a path is as well-formed and as leak-free as its events. */
  lemma {:induction false} LinkedEnd(s: Scope, owner: string, d: Durable, evs: seq<Event>, d2: Durable)
    requires Linked(s, owner, d, evs, d2)
    requires Wf(owner, d) && (s.safe ==> NoLeak(owner, d))
    ensures Wf(owner, d2) && (s.safe ==> NoLeak(owner, d2))
    decreases |evs|
  {
    if evs != [] {
      LinkedEnd(s, owner, evs[0].post, evs[1..], d2);
    }
  }

  lemma PathEnd(s: Scope, w: World, w2: World)
    requires Path(s, w, w2) && Start0(s, w)
    ensures Start0(s, w2)
  {
    LinkedEnd(s, w.owner, w.d, w2.trace[|w.trace|..], w2.d);
  }

  lemma {:induction false} LinkedEvent(s: Scope, owner: string, d: Durable, evs: seq<Event>, d2: Durable, i: nat)
    requires Linked(s, owner, d, evs, d2) && i < |evs|
    ensures Fine(s, owner, evs[i])
    decreases |evs|
  {
    if i > 0 {
      LinkedEvent(s, owner, evs[0].post, evs[1..], d2, i - 1);
    }
  }

  lemma PathHonest(s: Scope, w: World, w2: World)
    requires Path(s, w, w2) && Honest(w)
    ensures Honest(w2)
  {
  }

  // ---- one call ----

  /** Nothing we own moved: same annotations we wrote, same status, same pools of ours. */
  ghost predicate Calm(owner: string, d: Durable, d2: Durable) {
    && SameKeys(d, d2)
    && (forall p :: Ours(d2, owner, p) <==> Ours(d, owner, p))
    && d.now <= d2.now
  }

  ghost predicate SameKeys(d: Durable, d2: Durable) {
    d2.cr.started == d.cr.started && d2.cr.pools == d.cr.pools && d2.cr.batch == d.cr.batch
  }

  ghost predicate QuietEnv(env: seq<EnvStep>) {
    forall e :: e in env ==> !e.Resubmit? && !e.Withdraw?
  }

  /** From here on nobody but the operator touches the request. */
  ghost predicate Quiet(w: World) {
    forall t :: t in w.script ==> QuietEnv(t.env)
  }

  /** The operator's memory and the annotations and status stay; unattended, so does the request. */
  ghost predicate Held(w: World, w2: World) {
    && w2.mem == w.mem && w2.base == w.base && SameKeys(w.d, w2.d)
    && (Quiet(w) ==> Quiet(w2) && w2.d.cr.request == w.d.cr.request)
  }

  lemma EnvFine(s: Scope, owner: string, d: Durable, e: EnvStep)
    requires Wf(owner, d) && (s.safe ==> NoLeak(owner, d))
    ensures Fine(s, owner, Event(Env(e), d, ApplyEnv(owner, d, e)))
    ensures Calm(owner, d, ApplyEnv(owner, d, e))
    ensures !e.Resubmit? && !e.Withdraw? ==> ApplyEnv(owner, d, e).cr.request == d.cr.request
  {
    var d2 := ApplyEnv(owner, d, e);
    assert forall p :: Ours(d2, owner, p) <==> Ours(d, owner, p);
  }

  lemma {:induction false} SettlePath(s: Scope, w: World, env: seq<EnvStep>)
    requires Start0(s, w)
    ensures Reach(s, w, Settle(w, env))
    ensures Calm(w.owner, w.d, Settle(w, env).d)
    ensures QuietEnv(env) ==> Settle(w, env).d.cr.request == w.d.cr.request
    decreases |env|
  {
    hide Path, Linked, Wf, NoLeak, Fine, ApplyEnv;
    if env == [] {
      PathRefl(s, w);
    } else {
      EnvFine(s, w.owner, w.d, env[0]);
      var w1 := Move(w, Env(env[0]), ApplyEnv(w.owner, w.d, env[0]));
      PathMove(s, w, Env(env[0]), w1.d);
      SettlePath(s, w1, env[1..]);
      PathTrans(s, w, w1, Settle(w, env));
    }
  }

  lemma CallPath(s: Scope, w: World)
    requires Start0(s, w)
    ensures Reach(s, w, Call(w).0)
    ensures Calm(w.owner, w.d, Call(w).0.d) && Held(w, Call(w).0)
  {
    if w.script == [] {
      PathRefl(s, w);
    } else {
      var w1 := w.(script := w.script[1..]);
      assert w.script == [w.script[0]] + w.script[1..];
      SettlePath(s, w1, w.script[0].env);
      assert w1.trace == w.trace && w1.d == w.d;
    }
  }

  // ---- the writes, one event each ----

  /** The three annotations are the same. */
  ghost predicate SameNotes(a: Cr, b: Cr) {
    a.request == b.request && a.started == b.started && a.pools == b.pools
  }

  ghost predicate SameOurs(owner: string, d: Durable, d2: Durable) {
    forall p :: Ours(d2, owner, p) <==> Ours(d, owner, p)
  }

  lemma PoolSetFine(s: Scope, owner: string, d: Durable, pool: string, pausing: bool)
    requires Wf(owner, d) && (s.safe ==> NoLeak(owner, d))
    requires pool in d.mcps && Decide(d.mcps[pool], pausing, owner).Write?
    requires pausing ==> pool in s.pausable && (s.safe ==> pool in Named(d.cr))
    ensures var d2 := d.(mcps := d.mcps[pool := Decide(d.mcps[pool], pausing, owner).after]);
      && Fine(s, owner, Event(PoolSet(pool, pausing), d, d2))
      && (forall p :: p != pool ==> (Ours(d2, owner, p) <==> Ours(d, owner, p)))
      && (Ours(d2, owner, pool) <==> pausing)
  {
    var d2 := d.(mcps := d.mcps[pool := Decide(d.mcps[pool], pausing, owner).after]);
    assert forall p :: p != pool ==> (Ours(d2, owner, p) <==> Ours(d, owner, p));
    assert Ours(d2, owner, pool) <==> pausing;
  }

  lemma ApplySetFine(s: Scope, owner: string, d: Durable, name: string, suites: set<string>)
    requires Wf(owner, d) && (s.safe ==> NoLeak(owner, d))
    requires name in d.rems && Eligible(suites, d.rems[name]) && !d.rems[name].apply.on && name in s.appliable && suites in s.owning
    ensures var d2 := d.(rems := d.rems[name := d.rems[name].(apply := Is(true))]);
      && Fine(s, owner, Event(ApplySet(name, suites), d, d2)) && Calm(owner, d, d2)
  {
    var d2 := d.(rems := d.rems[name := d.rems[name].(apply := Is(true))]);
    assert SameOurs(owner, d, d2);
  }

  lemma RecordedFine(s: Scope, owner: string, d: Durable, pools: seq<string>, requested: seq<string>, kept: seq<string>, now: int)
    requires Wf(owner, d) && (s.safe ==> NoLeak(owner, d)) && d.cr.batch.None? && requested in s.answerable
    requires SortedNames(pools, MAX_POOLS) && (s.safe ==> OursIn(owner, d, pools))
    ensures var d2 := d.(cr := Recorded(d.cr, pools, requested, kept, now));
      && Fine(s, owner, Event(Annotated(Recording(kept, requested, pools)), d, d2))
      && SameOurs(owner, d, d2) && NamesIn(Raw(d2.cr.pools)) == pools
  {
    NamesRoundTrip(pools);
    var d2 := d.(cr := Recorded(d.cr, pools, requested, kept, now));
    assert SameOurs(owner, d, d2);
  }

  lemma ClearedFine(s: Scope, owner: string, d: Durable, names: seq<string>, recovery: bool)
    requires names in s.answerable
    requires Wf(owner, d) && (s.safe ==> NoLeak(owner, d))
    requires s.safe && recovery && d.cr.batch.None? ==> NoneOurs(owner, d)
    ensures var d2 := d.(cr := Cleared(d.cr, names, recovery));
      && Fine(s, owner, Event(Annotated(Clearing(names, recovery)), d, d2)) && SameOurs(owner, d, d2)
  {
    var d2 := d.(cr := Cleared(d.cr, names, recovery));
    assert SameOurs(owner, d, d2);
  }

  lemma PathRebase(s: Scope, w: World, cr: Cr, w2: World)
    requires Path(s, w.(base := cr), w2)
    ensures Path(s, w, w2)
  {
  }

  lemma PathAlign(s: Scope, w: World, w2: World, cr: Cr)
    requires Path(s, w, w2)
    ensures Path(s, w, Align(w2, cr))
  {
  }

  lemma OursIsNamed(s: Scope, w: World, p: string)
    requires Start0(s, w) && Ours(w.d, w.owner, p)
    ensures ValidName(p) && (s.safe ==> p in Named(w.d.cr))
  {
  }

  // ---- pools ----

  /** Ours in d2 only if ours in d or one of extra. */
  ghost predicate OursGrowth(owner: string, d: Durable, d2: Durable, extra: seq<string>) {
    forall p :: Ours(d2, owner, p) ==> Ours(d, owner, p) || p in extra
  }


  lemma WriteMcpPath(s: Scope, w: World, pool: string, pausing: bool, before: Pool)
    requires Start0(s, w) && ValidName(pool)
    requires pausing ==> pool in s.pausable && (s.safe ==> pool in Named(w.d.cr))
    requires Decide(before, pausing, w.owner).Write?
    ensures var (w2, r) := WriteMcp(w, pool, pausing, before, Decide(before, pausing, w.owner).after);
      && Reach(s, w, w2) && Held(w, w2)
      && OursGrowth(w.owner, w.d, w2.d, if pausing then [pool] else [])
      && (pausing ==> forall p :: Ours(w.d, w.owner, p) ==> Ours(w2.d, w.owner, p))
      && (r == Done ==> (Ours(w2.d, w.owner, pool) <==> pausing))
  {
    hide Path, Linked, Wf, NoLeak, Fine;
    CallPath(s, w);
    var (w1, o) := Call(w);
    if Takes(o, pool in w1.d.mcps && w1.d.mcps[pool] == before) {
      PoolSetFine(s, w.owner, w1.d, pool, pausing);
      var d2 := w1.d.(mcps := w1.d.mcps[pool := Decide(before, pausing, w.owner).after]);
      PathMove(s, w1, PoolSet(pool, pausing), d2);
      PathTrans(s, w, w1, Move(w1, PoolSet(pool, pausing), d2));
      PathEnd(s, w1, Move(w1, PoolSet(pool, pausing), d2));
    }
  }

  /** Pausing or resuming one pool. */
  lemma {:induction false} SetPausedPath(s: Scope, w: World, pool: string, paused: bool, attempts: nat)
    requires Start0(s, w)
    requires paused ==> pool in s.pausable && (s.safe ==> pool in Named(w.d.cr))
    ensures var (w2, r) := SetPaused(w, pool, paused, w.owner, attempts);
      && Reach(s, w, w2) && Held(w, w2)
      && OursGrowth(w.owner, w.d, w2.d, if paused then [pool] else [])
      && (paused ==> forall p :: Ours(w.d, w.owner, p) ==> Ours(w2.d, w.owner, p))
      && (r == Ok && !paused ==> !Ours(w2.d, w.owner, pool))
    decreases attempts
  {
    hide Path, Linked, Wf, NoLeak, Fine, Quiet, Call, WriteMcp;
    if !ValidName(pool) || attempts == 0 {
      PathRefl(s, w);
      if Ours(w.d, w.owner, pool) { OursIsNamed(s, w, pool); }
    } else {
      CallPath(s, w);
      var (w1, o) := Call(w);
      if o == Served && pool in w1.d.mcps && Decide(w1.d.mcps[pool], paused, w.owner).Write? {
        var before := w1.d.mcps[pool];
        WriteMcpPath(s, w1, pool, paused, before);
        var (w2, r) := WriteMcp(w1, pool, paused, before, Decide(before, paused, w.owner).after);
        PathTrans(s, w, w1, w2);
        if r == Stale {
          SetPausedPath(s, w2, pool, paused, attempts - 1);
          PathTrans(s, w, w2, SetPaused(w2, pool, paused, w.owner, attempts - 1).0);
        }
      }
    }
  }

  lemma {:induction false} ResumeAllPath(s: Scope, w: World, pools: seq<string>)
    requires Start0(s, w)
    ensures var (w2, r) := ResumeAll(w, pools, w.owner);
      && Reach(s, w, w2) && Held(w, w2)
      && OursGrowth(w.owner, w.d, w2.d, [])
      && (r == Ok ==> forall p :: p in pools ==> !Ours(w2.d, w.owner, p))
    decreases |pools|
  {
    if pools == [] {
      PathRefl(s, w);
    } else {
      SetPausedPath(s, w, pools[0], false, w.tries);
      var (w1, r) := SetPaused(w, pools[0], false, w.owner, w.tries);
      if r == Ok {
        ResumeAllPath(s, w1, pools[1..]);
        PathTrans(s, w, w1, ResumeAll(w1, pools[1..], w.owner).0);
      }
    }
  }

  lemma {:induction false} BestEffortPath(s: Scope, w: World, pools: seq<string>, stuck: bool)
    requires Start0(s, w)
    ensures var (w2, e) := ResumeBestEffort(w, pools, w.owner, stuck);
      && Reach(s, w, w2) && Held(w, w2)
      && OursGrowth(w.owner, w.d, w2.d, [])
    decreases |pools|
  {
    if pools == [] {
      PathRefl(s, w);
    } else {
      SetPausedPath(s, w, pools[0], false, w.tries);
      var (w1, r) := SetPaused(w, pools[0], false, w.owner, w.tries);
      if r != Died {
        BestEffortPath(s, w1, pools[1..], stuck || r == Err);
        PathTrans(s, w, w1, ResumeBestEffort(w1, pools[1..], w.owner, stuck || r == Err).0);
      }
    }
  }

  lemma {:induction false} PauseFromPath(s: Scope, w: World, pools: seq<string>, n: nat)
    requires Start0(s, w) && n <= |pools|
    requires forall p :: p in pools ==> p in s.pausable
    requires s.safe ==> forall p :: p in pools ==> p in Named(w.d.cr)
    ensures var (w2, r, m) := PauseFrom(w, pools, n);
      && Reach(s, w, w2) && Held(w, w2)
      && OursGrowth(w.owner, w.d, w2.d, pools)
      && (forall p :: Ours(w.d, w.owner, p) ==> Ours(w2.d, w.owner, p))
      && (r == Ok ==> m == |pools|)
    decreases |pools| - n
  {
    if n == |pools| {
      PathRefl(s, w);
    } else {
      SetPausedPath(s, w, pools[n], true, w.tries);
      var (w1, r) := SetPaused(w, pools[n], true, w.owner, w.tries);
      if r == Ok {
        PauseFromPath(s, w1, pools, n + 1);
        PathTrans(s, w, w1, PauseFrom(w1, pools, n + 1).0);
      }
    }
  }

  lemma PausedByPath(s: Scope, w: World, pool: string)
    requires Start0(s, w)
    ensures var (w2, a) := PausedBy(w, pool, w.owner);
      && Reach(s, w, w2) && Held(w, w2) && Calm(w.owner, w.d, w2.d)
      && (a == Yes ==> ValidName(pool) && Ours(w2.d, w.owner, pool))
      && (a == No ==> !Ours(w2.d, w.owner, pool))
  {
    PathRefl(s, w);
    if ValidName(pool) {
      CallPath(s, w);
    }
  }

  /** Which recorded names survive: valid, ours, and none of ours is lost. */
  lemma {:induction false} RecordedOursPath(s: Scope, w: World, names: seq<string>, derived: seq<string>)
    requires Start0(s, w)
    ensures var (w2, r, ours) := RecordedOurs(w, names, derived);
      && Reach(s, w, w2) && Held(w, w2) && Calm(w.owner, w.d, w2.d)
      && (forall p :: p in ours ==> ValidName(p) && Ours(w.d, w.owner, p))
      && (r == Ok ==> forall p :: p in names && Ours(w.d, w.owner, p) ==> p in derived || p in ours)
    decreases |names|
  {
    hide Path, Linked, Wf, NoLeak, Fine, PausedBy, Quiet;
    if names == [] {
      PathRefl(s, w);
    } else if names[0] in derived {
      RecordedOursPath(s, w, names[1..], derived);
      assert names == [names[0]] + names[1..];
    } else {
      PausedByPath(s, w, names[0]);
      var (w1, a) := PausedBy(w, names[0], w.owner);
      if a == Yes || a == No {
        RecordedOursPath(s, w1, names[1..], derived);
        PathTrans(s, w, w1, RecordedOurs(w1, names[1..], derived).0);
        assert names == [names[0]] + names[1..];
      }
    }
  }

  // ---- annotations ----

  lemma TryRecordPath(s: Scope, w: World, pools: seq<string>, requested: seq<string>, kept: seq<string>)
    requires Start0(s, w) && w.d.cr.batch.None? && requested in s.answerable
    requires SortedNames(pools, MAX_POOLS)
    requires s.safe ==> OursIn(w.owner, w.d, pools)
    ensures var (w2, r, at) := TryRecord(w, pools, requested, kept);
      && Reach(s, w, w2)
      && SameOurs(w.owner, w.d, w2.d) && w2.d.cr.batch.None?
      && w2.mem.batch == w.mem.batch && w2.mem.suites == w.mem.suites
      && (r == Done ==> NamesIn(Raw(w2.d.cr.pools)) == pools && at != Zero)
      && (r == Done ==> w2.d.cr.started.StartedAt? && at == At(w2.d.cr.started.ns))
      && (Quiet(w) ==> Quiet(w2) && (r == Stale ==> w2.d.cr.request == w.d.cr.request))
      && (Quiet(w) && r == Done ==> w2.d.cr.request == Recorded(w.d.cr, pools, requested, kept, 0).request)
  {
    hide Path, Linked, Wf, NoLeak, Fine, UniqueSorted, StrictlySorted, Join, Ours, WriteCr;
    CallPath(s, w);
    NamesRoundTrip(pools);
    var (w1, o) := Call(w);
    if o == Served {
      var after := Recorded(w1.d.cr, pools, requested, kept, w1.d.now);
      if after != w1.d.cr {
        WriteRecordedPath(s, w1, w1.d.cr, pools, requested, kept, w1.d.now);
        var w2 := WriteCr(w1, Recording(kept, requested, pools), w1.d.cr, after).0;
        PathTrans(s, w, w1, w2);
        PathAlign(s, w, w2, after);
      } else {
        PathAlign(s, w, w1, after);
      }
    }
  }

  lemma WriteRecordedPath(s: Scope, w: World, before: Cr, pools: seq<string>, requested: seq<string>, kept: seq<string>, now: int)
    requires Start0(s, w) && w.d.cr.batch.None? && requested in s.answerable
    requires SortedNames(pools, MAX_POOLS) && (s.safe ==> OursIn(w.owner, w.d, pools))
    ensures var (w2, r) := WriteCr(w, Recording(kept, requested, pools), before, Recorded(before, pools, requested, kept, now));
      && Reach(s, w, w2) && w2.d.cr.batch.None? && SameOurs(w.owner, w.d, w2.d)
      && w2.mem == w.mem && w2.base == w.base
      && (r == Done ==> NamesIn(Raw(w2.d.cr.pools)) == pools)
      && (r == Done ==> w2.d.cr == Recorded(before, pools, requested, kept, now))
      && (Quiet(w) ==> Quiet(w2) && (r == Stale ==> w2.d.cr.request == w.d.cr.request))
      && (r == Done && Quiet(w) ==> before.request == w.d.cr.request)
  {
    hide Path, Linked, Wf, NoLeak, Fine, UniqueSorted, StrictlySorted, Join;
    CallPath(s, w);
    var (w1, o) := Call(w);
    if Takes(o, w1.d.cr == before) {
      RecordedFine(s, w.owner, w1.d, pools, requested, kept, now);
      var what := Annotated(Recording(kept, requested, pools));
      var d2 := w1.d.(cr := Recorded(before, pools, requested, kept, now));
      PathMove(s, w1, what, d2);
      PathTrans(s, w, w1, Move(w1, what, d2));
      PathEnd(s, w1, Move(w1, what, d2));
    }
  }

  lemma {:induction false} EnsurePath(s: Scope, w: World, pools: seq<string>, requested: seq<string>, kept: seq<string>, attempts: nat)
    requires Start0(s, w) && w.d.cr.batch.None? && requested in s.answerable
    requires SortedNames(pools, MAX_POOLS)
    requires s.safe ==> OursIn(w.owner, w.d, pools)
    ensures var (w2, r, at) := EnsureMetadata(w, pools, requested, kept, attempts);
      && Reach(s, w, w2) && w2.d.cr.batch.None?
      && SameOurs(w.owner, w.d, w2.d)
      && w2.mem.batch == w.mem.batch && w2.mem.suites == w.mem.suites
      && (r == Ok ==> NamesIn(Raw(w2.d.cr.pools)) == pools && at != Zero)
      && (r == Ok ==> w2.d.cr.started.StartedAt? && at == At(w2.d.cr.started.ns))
      && (Quiet(w) ==> Quiet(w2))
      && (Quiet(w) && r == Ok ==> w2.d.cr.request == Recorded(w.d.cr, pools, requested, kept, 0).request)
    decreases attempts
  {
    hide Path, Linked, Wf, NoLeak, Fine, TryRecord, SortedNames;
    if attempts == 0 {
      PathRefl(s, w);
    } else {
      TryRecordPath(s, w, pools, requested, kept);
      var (w1, r, at) := TryRecord(w, pools, requested, kept);
      if r == Stale {
        EnsurePath(s, w1, pools, requested, kept, attempts - 1);
        PathTrans(s, w, w1, EnsureMetadata(w1, pools, requested, kept, attempts - 1).0);
      }
    }
  }

  lemma {:induction false} ClearPath(s: Scope, w: World, names: seq<string>, recovery: bool, attempts: nat)
    requires names in s.answerable
    requires Start0(s, w)
    requires s.safe && recovery && w.d.cr.batch.None? ==> NoneOurs(w.owner, w.d)
    ensures var (w2, r) := ClearAnnotations(w, names, recovery, attempts);
      && Reach(s, w, w2) && w2.d.cr.batch == w.d.cr.batch
      && SameOurs(w.owner, w.d, w2.d)
      && w2.mem.batch == w.mem.batch && w2.mem.suites == w.mem.suites
      && (r == Ok && recovery ==> w2.d.cr.started == NoStart && w2.d.cr.pools == None)
      && (Quiet(w) ==> Quiet(w2))
      && (Quiet(w) ==> SameNotes(w2.d.cr, w.d.cr) || SameNotes(w2.d.cr, Cleared(w.d.cr, names, recovery)))
      && (Quiet(w) && r == Ok ==> SameNotes(w2.d.cr, Cleared(w.d.cr, names, recovery)))
    decreases attempts
  {
    hide Path, Linked, Wf, NoLeak, Fine, TryClear;
    if attempts == 0 {
      PathRefl(s, w);
    } else {
      TryClearPath(s, w, names, recovery);
      var (w1, r) := TryClear(w, names, recovery);
      if r == Stale {
        ClearPath(s, w1, names, recovery, attempts - 1);
        PathTrans(s, w, w1, ClearAnnotations(w1, names, recovery, attempts - 1).0);
      }
    }
  }

  lemma TryClearPath(s: Scope, w: World, names: seq<string>, recovery: bool)
    requires names in s.answerable
    requires Start0(s, w)
    requires s.safe && recovery && w.d.cr.batch.None? ==> NoneOurs(w.owner, w.d)
    ensures var (w2, r) := TryClear(w, names, recovery);
      && Reach(s, w, w2) && w2.d.cr.batch == w.d.cr.batch
      && SameOurs(w.owner, w.d, w2.d)
      && w2.mem.batch == w.mem.batch && w2.mem.suites == w.mem.suites
      && (r == Done && recovery ==> w2.d.cr.started == NoStart && w2.d.cr.pools == None)
      && (Quiet(w) ==> Quiet(w2) && (r == Stale ==> SameNotes(w2.d.cr, w.d.cr)))
      && (Quiet(w) ==> SameNotes(w2.d.cr, w.d.cr) || SameNotes(w2.d.cr, Cleared(w.d.cr, names, recovery)))
      && (Quiet(w) && r == Done ==> SameNotes(w2.d.cr, Cleared(w.d.cr, names, recovery)))
  {
    hide Path, Linked, Wf, NoLeak, Fine, NamesIn, UniqueSorted, Ours, WriteCr;
    CallPath(s, w);
    var (w1, o) := Call(w);
    if o == Served {
      var after := Cleared(w1.d.cr, names, recovery);
      if after != w1.d.cr {
        var wb := w1.(base := w1.d.cr);
        WriteClearedPath(s, wb, w1.d.cr, names, recovery);
        var w3 := WriteCr(wb, Clearing(names, recovery), w1.d.cr, after).0;
        PathRebase(s, w1, w1.d.cr, w3);
        PathTrans(s, w, w1, w3);
        PathAlign(s, w, w3, after);
      } else {
        PathAlign(s, w, w1, after);
      }
    }
  }

  lemma WriteClearedPath(s: Scope, w: World, before: Cr, names: seq<string>, recovery: bool)
    requires names in s.answerable
    requires Start0(s, w)
    requires s.safe && recovery && w.d.cr.batch.None? ==> NoneOurs(w.owner, w.d)
    ensures var (w2, r) := WriteCr(w, Clearing(names, recovery), before, Cleared(before, names, recovery));
      && Reach(s, w, w2) && w2.d.cr.batch == w.d.cr.batch && SameOurs(w.owner, w.d, w2.d)
      && w2.mem == w.mem
      && (r == Done ==> w2.d.cr == Cleared(before, names, recovery))
      && (Quiet(w) ==> Quiet(w2) && (r == Stale ==> SameNotes(w2.d.cr, w.d.cr)))
      && (r == Done && Quiet(w) ==> SameNotes(before, w.d.cr))
      && (Quiet(w) && SameNotes(before, w.d.cr) ==>
            SameNotes(w2.d.cr, w.d.cr) || SameNotes(w2.d.cr, Cleared(w.d.cr, names, recovery)))
  {
    hide Path, Linked, Wf, NoLeak, Fine;
    CallPath(s, w);
    var (w1, o) := Call(w);
    if Takes(o, w1.d.cr == before) {
      ClearedFine(s, w.owner, w1.d, names, recovery);
      var what := Annotated(Clearing(names, recovery));
      var d2 := w1.d.(cr := Cleared(before, names, recovery));
      PathMove(s, w1, what, d2);
      PathTrans(s, w, w1, Move(w1, what, d2));
      PathEnd(s, w1, Move(w1, what, d2));
    }
  }

  lemma NotePath(s: Scope, w: World, what: What)
    requires Start0(s, w) && ((what.Counted? && s.countable) || (what.PrefixRecorded? && PrefixFits(s, what)))
    ensures Reach(s, w, Note(w, what))
  {
    PathMove(s, w, what, w.d);
    assert Note(w, what) == Move(w, what, w.d);
  }

  // ---- remediations ----

  lemma {:induction false} ApplyOnePath(s: Scope, w: World, name: string, suites: set<string>, attempts: nat)
    requires Start0(s, w) && name in s.appliable && suites in s.owning
    ensures var (w2, r) := ApplyOne(w, name, suites, attempts);
      && Reach(s, w, w2) && Held(w, w2) && Calm(w.owner, w.d, w2.d)
    decreases attempts
  {
    hide Path, Linked, Wf, NoLeak, Fine, Quiet, Call, WriteRem;
    if attempts == 0 {
      PathRefl(s, w);
    } else {
      CallPath(s, w);
      var (w1, o) := Call(w);
      if o == Served && w1.d.remCrd && name in w1.d.rems && Eligible(suites, w1.d.rems[name]) && !w1.d.rems[name].apply.on {
        var before := w1.d.rems[name];
        var after := before.(apply := Is(true));
        WriteRemPath(s, w1, name, suites, before);
        var (w3, r) := WriteRem(w1, name, suites, before, after);
        PathTrans(s, w, w1, w3);
        if r == Stale {
          ApplyOnePath(s, w3, name, suites, attempts - 1);
          PathTrans(s, w, w3, ApplyOne(w3, name, suites, attempts - 1).0);
        }
      }
    }
  }

  lemma WriteRemPath(s: Scope, w: World, name: string, suites: set<string>, before: Remediation)
    requires Start0(s, w) && name in s.appliable && suites in s.owning
    requires Eligible(suites, before) && !before.apply.on
    ensures var (w2, r) := WriteRem(w, name, suites, before, before.(apply := Is(true)));
      && Reach(s, w, w2) && Held(w, w2) && Calm(w.owner, w.d, w2.d)
  {
    hide Path, Linked, Wf, NoLeak, Fine;
    CallPath(s, w);
    var (w1, o) := Call(w);
    if Takes(o, name in w1.d.rems && w1.d.rems[name] == before) {
      ApplySetFine(s, w.owner, w1.d, name, suites);
      var d2 := w1.d.(rems := w1.d.rems[name := before.(apply := Is(true))]);
      PathMove(s, w1, ApplySet(name, suites), d2);
      PathTrans(s, w, w1, Move(w1, ApplySet(name, suites), d2));
      PathEnd(s, w1, Move(w1, ApplySet(name, suites), d2));
    }
  }

  lemma {:induction false} ApplyEachPath(s: Scope, w: World, names: seq<string>, suites: set<string>)
    requires Start0(s, w) && suites in s.owning && forall n :: n in names ==> n in s.appliable
    ensures var (w2, r) := ApplyEach(w, names, suites);
      && Reach(s, w, w2) && Held(w, w2) && Calm(w.owner, w.d, w2.d)
    decreases |names|
  {
    if names == [] {
      PathRefl(s, w);
    } else {
      ApplyOnePath(s, w, names[0], suites, w.tries);
      var (w1, r) := ApplyOne(w, names[0], suites, w.tries);
      if r == Ok {
        ApplyEachPath(s, w1, names[1..], suites);
        PathTrans(s, w, w1, ApplyEach(w1, names[1..], suites).0);
      }
    }
  }

  lemma ListPath(s: Scope, w: World, names: seq<string>)
    requires Start0(s, w)
    ensures var (w2, l) := ListRemediations(w, names);
      Reach(s, w, w2) && Held(w, w2) && Calm(w.owner, w.d, w2.d)
  {
    PathRefl(s, w);
    CallPath(s, w);
  }
}
