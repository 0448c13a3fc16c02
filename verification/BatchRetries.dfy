/**
  What the conflict-retry loops retry and when they give up. An attempt is one read and one write;
  only a write that conflicts starts another attempt.
*/
module BatchRetries {
  import opened K8sNames
  import opened BatchModel
  import opened BatchSpec

  /** How many calls were made on the way from w to w2. */
  function Spent(w: World, w2: World): int {
    |w.script| - |w2.script|
  }

  ghost predicate Continues(w: World, w2: World) {
    0 <= Spent(w, w2) && w2.script == w.script[Spent(w, w2)..]
  }

  /**
    The calls of one retried operation. Every call but the last was a served read or a write that
    may have conflicted. An error means that all attempts are used up, or that the last call was a
    read not served or not usable, or a write not taken for another reason than a conflict.
  */
  ghost predicate Retried(w: World, w2: World, r: Res, attempts: nat, unusable: bool) {
    Continues(w, w2) &&
    var n := Spent(w, w2);
    && n <= 2 * attempts
    && (forall i :: 0 <= i < n - 1 ==> if i % 2 == 0 then w.script[i].outcome == Served else MayConflict(w.script[i].outcome))
    && (r == Ok && n > 0 ==> w.script[n - 1].outcome == Served)
    && (r == Died ==> w2.script == [] || (n > 0 && w.script[n - 1].outcome == Crash))
    && (r == Err && n < 2 * attempts ==>
          && n > 0
          && if n % 2 == 1 then w.script[n - 1].outcome != Served || unusable
             else w.script[n - 1].outcome in {Refused, Landed})
  }

  predicate MayConflict(o: Outcome) {
    o != Refused && o != Crash
  }

  /** One more attempt in front. */
  lemma OneMore(w: World, w1: World, w2: World, r: Res, attempts: nat, unusable: bool)
    requires Continues(w, w1) && Spent(w, w1) == 2 && w.script[0].outcome == Served && MayConflict(w.script[1].outcome)
    requires attempts > 0 && Retried(w1, w2, r, attempts - 1, unusable) && (r == Ok ==> Spent(w1, w2) > 0)
    ensures Retried(w, w2, r, attempts, unusable)
  {
    var n := Spent(w1, w2);
    forall i | 0 <= i < n ensures w.script[i + 2] == w1.script[i] {
    }
    forall i | 0 <= i < n + 1
      ensures if i % 2 == 0 then w.script[i].outcome == Served else MayConflict(w.script[i].outcome)
    {
      if i > 1 { assert w.script[i] == w1.script[i - 2]; }
    }
    if n > 0 { assert w.script[n + 1] == w1.script[n - 1]; }
  }

  /** One call: it takes the next outcome of the script, and there is none after the operator died. */
  ghost predicate Called(w: World, w1: World, o: Outcome) {
    if w.script == [] then w1.script == [] && o == Crash
    else w1.script == w.script[1..] && o == w.script[0].outcome
  }

  /** One write, and what its reply tells of the call. */
  ghost predicate Wrote(w: World, w1: World, reply: Reply) {
    exists o, current :: Called(w, w1, o) && reply == ReplyOf(o, current)
  }

  lemma CallIs(w: World)
    ensures Called(w, Call(w).0, Call(w).1)
  {
  }

  lemma WriteIs(w: World, w1: World, o: Outcome, current: bool)
    requires Called(w, w1, o)
    ensures Wrote(w, w1, ReplyOf(o, current))
  {
  }

  /** An operation that ends with its first read. */
  lemma EndsReading(w: World, w2: World, o: Outcome, r: Res, attempts: nat, unusable: bool)
    requires attempts > 0 && Called(w, w2, o)
    requires if o == Crash then r == Died else if o != Served || unusable then r == Err else r == Ok
    ensures Retried(w, w2, r, attempts, unusable) && (r == Ok ==> Spent(w, w2) > 0)
  {
  }

  /** An operation that ends with its first write. */
  lemma EndsWriting(w: World, w1: World, w2: World, reply: Reply, r: Res, attempts: nat, unusable: bool)
    requires attempts > 0 && Called(w, w1, Served) && Wrote(w1, w2, reply)
    requires reply != Stale && r == match reply case Done => Ok case Dead => Died case _ => Err
    ensures Retried(w, w2, r, attempts, unusable) && (r == Ok ==> Spent(w, w2) > 0)
  {
    var o, current :| Called(w1, w2, o) && reply == ReplyOf(o, current);
    assert w1.script != [] ==> w1.script[0] == w.script[1] && w2.script == w.script[2..];
  }

  /** A first write that conflicts starts the operation again. */
  lemma StartsAgain(w: World, w1: World, w3: World, w2: World, r: Res, attempts: nat, unusable: bool)
    requires attempts > 0 && Called(w, w1, Served) && Wrote(w1, w3, Stale)
    requires Retried(w3, w2, r, attempts - 1, unusable) && (r == Ok ==> Spent(w3, w2) > 0)
    ensures Retried(w, w2, r, attempts, unusable) && (r == Ok ==> Spent(w, w2) > 0)
  {
    hide Retried;
    var o, current :| Called(w1, w3, o) && Stale == ReplyOf(o, current);
    assert w1.script[0] == w.script[1] && w3.script == w.script[2..];
    SpentIs(w3, w2, r, attempts - 1, unusable);
    OneMore(w, w3, w2, r, attempts, unusable);
  }

  lemma SpentIs(w: World, w2: World, r: Res, attempts: nat, unusable: bool)
    requires Retried(w, w2, r, attempts, unusable)
    ensures Continues(w, w2)
  {
  }

  lemma NoAttempts(w: World, unusable: bool)
    ensures Retried(w, w, Err, 0, unusable)
  {
  }

  lemma McpWrite(w: World, pool: string, pausing: bool, before: Pool, after: Pool)
    ensures Wrote(w, WriteMcp(w, pool, pausing, before, after).0, WriteMcp(w, pool, pausing, before, after).1)
  {
    hide Wrote, Called, ReplyOf, Settle, Call;
    CallIs(w);
    var (w1, o) := Call(w);
    SameScript(w, w1, WriteMcp(w, pool, pausing, before, after).0, o);
    WriteIs(w, WriteMcp(w, pool, pausing, before, after).0, o, pool in w1.d.mcps && w1.d.mcps[pool] == before);
  }

  lemma RemWrite(w: World, name: string, suites: set<string>, before: Remediation, after: Remediation)
    ensures Wrote(w, WriteRem(w, name, suites, before, after).0, WriteRem(w, name, suites, before, after).1)
  {
    hide Wrote, Called, ReplyOf, Settle, Call;
    CallIs(w);
    var (w1, o) := Call(w);
    SameScript(w, w1, WriteRem(w, name, suites, before, after).0, o);
    WriteIs(w, WriteRem(w, name, suites, before, after).0, o, name in w1.d.rems && w1.d.rems[name] == before);
  }

  lemma CrWrite(w: World, cause: Cause, before: Cr, after: Cr)
    ensures Wrote(w, WriteCr(w, cause, before, after).0, WriteCr(w, cause, before, after).1)
  {
    hide Wrote, Called, ReplyOf, Settle, Call;
    CallIs(w);
    var (w1, o) := Call(w);
    SameScript(w, w1, WriteCr(w, cause, before, after).0, o);
    WriteIs(w, WriteCr(w, cause, before, after).0, o, w1.d.cr == before);
  }

  lemma SameScript(w: World, w1: World, w2: World, o: Outcome)
    requires Called(w, w1, o) && w2.script == w1.script
    ensures Called(w, w2, o)
  {
  }

  /** Only the script counts, at either end. */
  lemma SameWrite(w: World, v: World, w1: World, v1: World, reply: Reply)
    requires Wrote(w, w1, reply) && v.script == w.script && v1.script == w1.script
    ensures Wrote(v, v1, reply)
  {
    var o, current :| Called(w, w1, o) && reply == ReplyOf(o, current);
    assert Called(v, v1, o);
  }

  // ---- the four loops ----

  /** Pausing or resuming a pool. */
  lemma {:induction false} PauseRetries(w: World, pool: string, paused: bool, owner: string, attempts: nat)
    requires ValidName(pool)
    ensures var (w2, r) := SetPaused(w, pool, paused, owner, attempts);
      && Retried(w, w2, r, attempts, pool in w2.d.mcps && Decide(w2.d.mcps[pool], paused, owner) == Fail)
      && (r == Ok ==> Spent(w, w2) > 0)
    decreases attempts
  {
    hide ValidName, Decide, Retried, Called, Wrote, Call, WriteMcp, Spent;
    if attempts == 0 {
      NoAttempts(w, pool in w.d.mcps && Decide(w.d.mcps[pool], paused, owner) == Fail);
    } else {
      CallIs(w);
      var (w1, o) := Call(w);
      var (w2, r) := SetPaused(w, pool, paused, owner, attempts);
      var unusable := pool in w2.d.mcps && Decide(w2.d.mcps[pool], paused, owner) == Fail;
      if o == Served && pool in w1.d.mcps && Decide(w1.d.mcps[pool], paused, owner).Write? {
        var before, after := w1.d.mcps[pool], Decide(w1.d.mcps[pool], paused, owner).after;
        McpWrite(w1, pool, paused, before, after);
        var (w3, reply) := WriteMcp(w1, pool, paused, before, after);
        if reply == Stale {
          PauseRetries(w3, pool, paused, owner, attempts - 1);
          StartsAgain(w, w1, w3, w2, r, attempts, unusable);
        } else {
          EndsWriting(w, w1, w3, reply, r, attempts, unusable);
        }
      } else {
        EndsReading(w, w1, o, r, attempts, unusable);
      }
    }
  }

  /** Applying a remediation; a read is of no use without the remediation CRD. */
  lemma {:induction false} ApplyRetries(w: World, name: string, suites: set<string>, attempts: nat)
    ensures var (w2, r) := ApplyOne(w, name, suites, attempts);
      Retried(w, w2, r, attempts, !w2.d.remCrd) && (r == Ok ==> Spent(w, w2) > 0)
    decreases attempts
  {
    hide Retried, Called, Wrote, Call, WriteRem, Spent;
    if attempts == 0 {
      NoAttempts(w, !w.d.remCrd);
    } else {
      CallIs(w);
      var (w1, o) := Call(w);
      var (w2, r) := ApplyOne(w, name, suites, attempts);
      if o == Served && w1.d.remCrd && name in w1.d.rems && Eligible(suites, w1.d.rems[name]) && w1.d.rems[name].apply == Is(false) {
        var before, after := w1.d.rems[name], w1.d.rems[name].(apply := Is(true));
        RemWrite(w1, name, suites, before, after);
        var (w3, reply) := WriteRem(w1, name, suites, before, after);
        if reply == Stale {
          ApplyRetries(w3, name, suites, attempts - 1);
          StartsAgain(w, w1, w3, w2, r, attempts, !w2.d.remCrd);
        } else {
          EndsWriting(w, w1, w3, reply, r, attempts, !w2.d.remCrd);
        }
      } else {
        EndsReading(w, w1, o, r, attempts, !w2.d.remCrd);
      }
    }
  }

  /** Recording what a batch needs. */
  lemma {:induction false} RecordRetries(
      w: World, pools: seq<string>, requested: seq<string>, kept: seq<string>, attempts: nat)
    ensures var (w2, r, at) := EnsureMetadata(w, pools, requested, kept, attempts);
      Retried(w, w2, r, attempts, false) && (r == Ok ==> Spent(w, w2) > 0)
    decreases attempts
  {
    hide Retried, Called, Wrote, Call, WriteCr, Spent, Recorded;
    if attempts == 0 {
      NoAttempts(w, false);
    } else {
      CallIs(w);
      var (w1, o) := Call(w);
      var (w2, r, at) := EnsureMetadata(w, pools, requested, kept, attempts);
      var (w3, reply, _) := TryRecord(w, pools, requested, kept);
      var after := Recorded(w1.d.cr, pools, requested, kept, w1.d.now);
      if o == Served && after != w1.d.cr {
        CrWrite(w1, Recording(kept, requested, pools), w1.d.cr, after);
        SameWrite(w1, w1, WriteCr(w1, Recording(kept, requested, pools), w1.d.cr, after).0, w3, reply);
        if reply == Stale {
          RecordRetries(w3, pools, requested, kept, attempts - 1);
          StartsAgain(w, w1, w3, w2, r, attempts, false);
        } else {
          EndsWriting(w, w1, w3, reply, r, attempts, false);
        }
      } else {
        SameScript(w, w1, w3, o);
        EndsReading(w, w3, o, r, attempts, false);
      }
    }
  }

  /** Clearing the annotations. */
  lemma {:induction false} ClearRetries(w: World, names: seq<string>, recovery: bool, attempts: nat)
    ensures var (w2, r) := ClearAnnotations(w, names, recovery, attempts);
      Retried(w, w2, r, attempts, false) && (r == Ok ==> Spent(w, w2) > 0)
    decreases attempts
  {
    hide Retried, Called, Wrote, Call, WriteCr, Spent, Cleared;
    if attempts == 0 {
      NoAttempts(w, false);
    } else {
      CallIs(w);
      var (w1, o) := Call(w);
      var (w2, r) := ClearAnnotations(w, names, recovery, attempts);
      var (w3, reply) := TryClear(w, names, recovery);
      var after := Cleared(w1.d.cr, names, recovery);
      if o == Served && after != w1.d.cr {
        var based := w1.(base := w1.d.cr);
        CrWrite(based, Clearing(names, recovery), w1.d.cr, after);
        SameWrite(based, w1, WriteCr(based, Clearing(names, recovery), w1.d.cr, after).0, w3, reply);
        if reply == Stale {
          ClearRetries(w3, names, recovery, attempts - 1);
          StartsAgain(w, w1, w3, w2, r, attempts, false);
        } else {
          EndsWriting(w, w1, w3, reply, r, attempts, false);
        }
      } else {
        SameScript(w, w1, w3, o);
        EndsReading(w, w3, o, r, attempts, false);
      }
    }
  }
}
