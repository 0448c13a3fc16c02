/**
  What a partial pause touches, pool by pool, whatever the API server answers: every other pool
  keeps its marker, and the failing pool becomes ours exactly when its write was taken.
*/
module BatchFrames {
  import opened Options
  import opened Text
  import opened K8sNames
  import opened BatchModel
  import opened BatchSpec
  import opened BatchPaths

  /** Between w and w2 the trace only grew, by environment steps and writes pausing one of pools. */
  ghost predicate OnlyPauses(w: World, w2: World, pools: seq<string>) {
    && w.trace <= w2.trace
    && forall i :: |w.trace| <= i < |w2.trace| ==>
         var what := w2.trace[i].what;
         what.Env? || (what.PoolSet? && what.pool in pools)
  }

  lemma {:induction false} SettleFrame(w: World, env: seq<EnvStep>)
    ensures OnlyPauses(w, Settle(w, env), [])
    decreases |env|
  {
    if env != [] {
      SettleFrame(Move(w, Env(env[0]), ApplyEnv(w.owner, w.d, env[0])), env[1..]);
    }
  }

  lemma CallFrame(w: World)
    requires Wf(w.owner, w.d)
    ensures var (w1, o) := Call(w);
      && Wf(w1.owner, w1.d) && w1.owner == w.owner && w1.tries == w.tries
      && SameOurs(w.owner, w.d, w1.d) && OnlyPauses(w, w1, [])
      && (Honest(w) ==> Honest(w1) && o != Landed)
  {
    CallPath(ANYTHING, w);
    if w.script != [] {
      SettleFrame(w.(script := w.script[1..]), w.script[0].env);
    }
  }

  /** Every pool but these keeps its marker. */
  ghost predicate Elsewhere(w: World, w2: World, pools: seq<string>) {
    && OnlyPauses(w, w2, pools) && (Honest(w) ==> Honest(w2))
    && forall p :: p !in pools ==> (Ours(w2.d, w.owner, p) <==> Ours(w.d, w.owner, p))
  }

  ghost predicate Sane(w: World, w2: World) {
    Wf(w2.owner, w2.d) && w2.owner == w.owner && w2.tries == w.tries
  }

  lemma ElsewhereTrans(w: World, w1: World, w2: World, a: seq<string>, b: seq<string>, c: seq<string>)
    requires w1.owner == w.owner && Elsewhere(w, w1, a) && Elsewhere(w1, w2, b)
    requires forall p :: p in a || p in b ==> p in c
    ensures Elsewhere(w, w2, c)
  {
    hide Honest, Wf;
  }

  lemma NothingElsewhere(w: World)
    ensures Elsewhere(w, w, [])
  {
  }

  /** A failing pause leaves the pool ours if it was, or if a write was taken all the same. */
  ghost predicate FailsAt(w: World, w2: World, pool: string) {
    && (Ours(w2.d, w.owner, pool) <==> Ours(w.d, w.owner, pool) || PauseLanded(w, w2, pool))
    && (Honest(w) ==> !PauseLanded(w, w2, pool))
  }

  lemma WriteMcpFrame(w: World, pool: string, paused: bool, before: Pool)
    requires Wf(w.owner, w.d) && Decide(before, paused, w.owner).Write?
    ensures var (w2, r) := WriteMcp(w, pool, paused, before, Decide(before, paused, w.owner).after);
      && Sane(w, w2) && Elsewhere(w, w2, [pool])
      && (paused && r != Done ==> FailsAt(w, w2, pool))
      && (r == Stale ==> SameOurs(w.owner, w.d, w2.d) && !PauseLanded(w, w2, pool))
  {
    CallFrame(w);
    var (w1, o) := Call(w);
    assert !PauseLanded(w, w1, pool);
    if Takes(o, pool in w1.d.mcps && w1.d.mcps[pool] == before) {
      PoolSetFine(ANYTHING, w.owner, w1.d, pool, paused);
      var w2 := WriteMcp(w, pool, paused, before, Decide(before, paused, w.owner).after).0;
      assert w2.trace[|w1.trace|].what == PoolSet(pool, paused);
    }
  }

  lemma {:induction false} SetPausedFrame(w: World, pool: string, paused: bool, attempts: nat)
    requires Wf(w.owner, w.d)
    ensures var (w2, r) := SetPaused(w, pool, paused, w.owner, attempts);
      && Sane(w, w2) && Elsewhere(w, w2, [pool])
      && (paused && r != Ok ==> FailsAt(w, w2, pool))
    decreases attempts
  {
    hide Honest, Wf, Call, WriteMcp;
    if ValidName(pool) && attempts > 0 {
      CallFrame(w);
      var (w1, o) := Call(w);
      if o == Served && pool in w1.d.mcps && Decide(w1.d.mcps[pool], paused, w.owner).Write? {
        WriteMcpFrame(w1, pool, paused, w1.d.mcps[pool]);
        var (w2, r) := WriteMcp(w1, pool, paused, w1.d.mcps[pool], Decide(w1.d.mcps[pool], paused, w.owner).after);
        if r == Stale {
          SetPausedFrame(w2, pool, paused, attempts - 1);
        }
      }
    }
  }

  lemma FailsLater(w: World, w1: World, w2: World, pools: seq<string>, n: nat, m: nat)
    requires StrictlySorted(pools) && n < m < |pools|
    requires w1.owner == w.owner && Elsewhere(w, w1, [pools[n]]) && Elsewhere(w1, w2, pools[n + 1..m + 1]) && FailsAt(w1, w2, pools[m])
    ensures FailsAt(w, w2, pools[m])
  {
    hide Honest, Wf;
    assert Less(pools[n], pools[m]);
    assert forall i :: |w.trace| <= i < |w1.trace| ==> w2.trace[i].what != PoolSet(pools[m], true);
  }

  /** Pausing fails at pools[m]: the pools after it are untouched, and it is as FailsAt says. */
  lemma {:induction false} PauseFromFrame(w: World, pools: seq<string>, n: nat)
    requires Wf(w.owner, w.d) && n <= |pools| && StrictlySorted(pools)
    ensures var (w2, r, m) := PauseFrom(w, pools, n);
      r != Ok ==> Sane(w, w2) && FailsAt(w, w2, pools[m]) && Elsewhere(w, w2, pools[n..m + 1])
    decreases |pools| - n
  {
    hide Honest, Wf, SetPaused, Elsewhere, FailsAt;
    if n < |pools| {
      SetPausedFrame(w, pools[n], true, w.tries);
      var (w1, r) := SetPaused(w, pools[n], true, w.owner, w.tries);
      if r == Ok {
        PauseFromFrame(w1, pools, n + 1);
        var (w2, r2, m) := PauseFrom(w1, pools, n + 1);
        if r2 != Ok {
          ElsewhereTrans(w, w1, w2, [pools[n]], pools[n + 1..m + 1], pools[n..m + 1]);
          FailsLater(w, w1, w2, pools, n, m);
        }
      } else {
        assert pools[n..n + 1] == [pools[n]];
      }
    }
  }

  lemma {:induction false} BestEffortFrame(w: World, pools: seq<string>, stuck: bool)
    requires Wf(w.owner, w.d)
    ensures var w2 := ResumeBestEffort(w, pools, w.owner, stuck).0;
      Sane(w, w2) && Elsewhere(w, w2, pools)
    decreases |pools|
  {
    hide Honest, Wf, SetPaused, Elsewhere;
    NothingElsewhere(w);
    if pools != [] {
      SetPausedFrame(w, pools[0], false, w.tries);
      var (w1, r) := SetPaused(w, pools[0], false, w.owner, w.tries);
      if r != Died {
        BestEffortFrame(w1, pools[1..], stuck || r == Err);
        ElsewhereTrans(w, w1, ResumeBestEffort(w1, pools[1..], w.owner, stuck || r == Err).0, [pools[0]], pools[1..], pools);
      } else {
        ElsewhereTrans(w, w, w1, [], [pools[0]], pools);
      }
    }
  }

  lemma Disjoint(pools: seq<string>, n: nat)
    requires StrictlySorted(pools) && n <= |pools|
    ensures forall p :: p in pools[n..] ==> p !in pools[..n]
  {
    forall p | p in pools[n..] ensures p !in pools[..n] {
      var i :| 0 <= i < |pools[n..]| && pools[n..][i] == p;
      forall j | 0 <= j < n ensures pools[..n][j] != p {
        assert Less(pools[j], pools[n + i]);
      }
    }
  }

  /**
    The pools of ours a partial pause leaves out of its record: those that were ours when
    pausing began, and the failing one when its write was taken although it reported an error.
  */
  lemma StrayExactly(w: World, pools: seq<string>)
    requires Wf(w.owner, w.d) && StrictlySorted(pools) && PauseFrom(w, pools, 0).1 == Err
    ensures var (w1, r, n) := PauseFrom(w, pools, 0);
      && Stray(ResumeBestEffort(w1, pools[..n], w.owner, false).0.d, w.owner, pools[n..])
         == Stray(w.d, w.owner, pools[n..]) + (if PauseLanded(w, w1, pools[n]) then {pools[n]} else {})
      && (Honest(w) ==> !PauseLanded(w, w1, pools[n]))
  {
    hide Wf, Honest, PauseFrom, ResumeBestEffort, Ours, PauseLanded, OnlyPauses;
    var (w1, r, n) := PauseFrom(w, pools, 0);
    PauseFromFrame(w, pools, 0);
    BestEffortFrame(w1, pools[..n], false);
    Disjoint(pools, n);
    Disjoint(pools, n + 1);
    assert pools[..n + 1] == pools[0..n + 1];
    assert pools[n..] == [pools[n]] + pools[n + 1..];
  }
}
