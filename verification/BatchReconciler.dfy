/**
  The operator's batch routines, step by step on a mutable reconciler. Each is proved to do
  exactly what its function in BatchSpec does, on every script of call outcomes.
*/
module BatchReconciler {
  import opened Options
  import opened Text
  import opened K8sNames
  import opened BatchModel
  import opened BatchSpec

  class Reconciler {
    const owner: string
    const tries: nat
    var d: Durable
    var mem: Cr
    var base: Cr
    var script: seq<Tick>
    ghost var trace: seq<Event>

    ghost function W(): World
      reads this
    {
      World(owner, tries, d, mem, base, script, trace)
    }

    constructor (owner: string, d: Durable, script: seq<Tick>)
      ensures W() == World(owner, 5, d, d.cr, d.cr, script, [])
    {
      this.owner := owner;
      this.tries := CONFLICT_ATTEMPTS;
      this.d := d;
      this.mem := d.cr;
      this.base := d.cr;
      this.script := script;
      this.trace := [];
    }

    // ---- API calls ----

    method Settle(env: seq<EnvStep>)
      modifies this
      ensures W() == BatchModel.Settle(old(W()), env)
    {
      for i := 0 to |env|
        invariant BatchModel.Settle(W(), env[i..]) == BatchModel.Settle(old(W()), env)
      {
        assert env[i..][0] == env[i] && env[i..][1..] == env[i + 1..];
        var after := ApplyEnv(owner, d, env[i]);
        trace := trace + [Event(Env(env[i]), d, after)];
        d := after;
      }
    }

    method Call() returns (o: Outcome)
      modifies this
      ensures (W(), o) == BatchModel.Call(old(W()))
    {
      if script == [] {
        return Crash;
      }
      var tick := script[0];
      script := script[1..];
      Settle(tick.env);
      o := tick.outcome;
    }

    method WriteMcp(pool: string, pausing: bool, before: Pool, after: Pool) returns (r: Reply)
      modifies this
      ensures (W(), r) == BatchModel.WriteMcp(old(W()), pool, pausing, before, after)
    {
      var o := Call();
      var current := pool in d.mcps && d.mcps[pool] == before;
      if Takes(o, current) {
        var next := d.(mcps := d.mcps[pool := after]);
        trace := trace + [Event(PoolSet(pool, pausing), d, next)];
        d := next;
      }
      r := ReplyOf(o, current);
    }

    method WriteRem(name: string, suites: set<string>, before: Remediation, after: Remediation) returns (r: Reply)
      modifies this
      ensures (W(), r) == BatchModel.WriteRem(old(W()), name, suites, before, after)
    {
      var o := Call();
      var current := name in d.rems && d.rems[name] == before;
      if Takes(o, current) {
        var next := d.(rems := d.rems[name := after]);
        trace := trace + [Event(ApplySet(name, suites), d, next)];
        d := next;
      }
      r := ReplyOf(o, current);
    }

    method WriteCr(cause: Cause, before: Cr, after: Cr) returns (r: Reply)
      modifies this
      ensures (W(), r) == BatchModel.WriteCr(old(W()), cause, before, after)
    {
      var o := Call();
      var current := d.cr == before;
      if Takes(o, current) {
        var next := d.(cr := after);
        trace := trace + [Event(Annotated(cause), d, next)];
        d := next;
      }
      r := ReplyOf(o, current);
    }

    // ---- pools ----

    method SetMcpPaused(pool: string, paused: bool, who: string) returns (r: Res)
      modifies this
      ensures (W(), r) == SetPaused(old(W()), pool, paused, who, tries)
    {
      if !ValidName(pool) {
        return Ok;
      }
      for attempt := 0 to tries
        invariant SetPaused(W(), pool, paused, who, tries - attempt)
               == SetPaused(old(W()), pool, paused, who, tries)
      {
        var o := Call();
        if o == Crash {
          return Died;
        }
        if o != Served {
          return Err;
        }
        if pool !in d.mcps {
          return Ok;
        }
        var before := d.mcps[pool];
        var choice := Decide(before, paused, who);
        if choice == Skip {
          return Ok;
        }
        if choice == Fail {
          return Err;
        }
        var reply := WriteMcp(pool, paused, before, choice.after);
        if reply != Stale {
          return match reply case Done => Ok case Dead => Died case _ => Err;
        }
      }
      r := Err;
    }

    method ResumePools(pools: seq<string>, who: string) returns (r: Res)
      modifies this
      ensures (W(), r) == ResumeAll(old(W()), pools, who)
    {
      for i := 0 to |pools|
        invariant ResumeAll(W(), pools[i..], who) == ResumeAll(old(W()), pools, who)
      {
        assert pools[i..][0] == pools[i] && pools[i..][1..] == pools[i + 1..];
        var one := SetMcpPaused(pools[i], false, who);
        if one != Ok {
          return one;
        }
      }
      r := Ok;
    }

    method ResumePoolsBestEffort(pools: seq<string>, who: string) returns (e: Effort)
      modifies this
      ensures (W(), e) == ResumeBestEffort(old(W()), pools, who, false)
    {
      var stuck := false;
      for i := 0 to |pools|
        invariant ResumeBestEffort(W(), pools[i..], who, stuck) == ResumeBestEffort(old(W()), pools, who, false)
      {
        assert pools[i..][0] == pools[i] && pools[i..][1..] == pools[i + 1..];
        var one := SetMcpPaused(pools[i], false, who);
        if one == Died {
          return EffortDied;
        }
        if one == Err {
          stuck := true;
        }
      }
      e := if stuck then SomeStuck else AllFreed;
    }

    method PoolPausedBy(pool: string, who: string) returns (a: Answer)
      modifies this
      ensures (W(), a) == PausedBy(old(W()), pool, who)
    {
      if !ValidName(pool) || who == "" {
        return No;
      }
      var o := Call();
      if o == Crash {
        return Gone;
      }
      if o != Served {
        return Unknown;
      }
      if pool !in d.mcps {
        return No;
      }
      var read := d.mcps[pool];
      if read.paused.Unreadable? {
        return Unknown;
      }
      a := if read.paused.on && read.marker == who then Yes else No;
    }

    // ---- annotations ----

    method AlignWith(cr: Cr)
      modifies this
      ensures W() == Align(old(W()), cr)
    {
      mem := mem.(request := cr.request, started := cr.started, pools := cr.pools);
      base := cr;
    }

    method EnsureBatchMetadata(pools: seq<string>, requested: seq<string>, kept: seq<string>)
      returns (r: Res, at: Stamp)
      modifies this
      ensures (W(), r, at) == EnsureMetadata(old(W()), pools, requested, kept, tries)
    {
      hide BatchSpec.TryRecord;
      for attempt := 0 to tries
        invariant EnsureMetadata(W(), pools, requested, kept, tries - attempt)
               == EnsureMetadata(old(W()), pools, requested, kept, tries)
      {
        var reply, stamp := TryRecord(pools, requested, kept);
        match reply {
          case Done => return Ok, stamp;
          case Failed => return Err, Zero;
          case Dead => return Died, Zero;
          case Stale =>
        }
      }
      r, at := Err, Zero;
    }

    method TryRecord(pools: seq<string>, requested: seq<string>, kept: seq<string>)
      returns (reply: Reply, at: Stamp)
      modifies this
      ensures (W(), reply, at) == BatchSpec.TryRecord(old(W()), pools, requested, kept)
    {
      var o := Call();
      if o == Crash {
        return Dead, Zero;
      }
      if o != Served {
        return Failed, Zero;
      }
      var latest := d.cr;
      var after := Recorded(latest, pools, requested, kept, d.now);
      at := At(after.started.ns);
      if after == latest {
        AlignWith(after);
        return Done, at;
      }
      reply := WriteCr(Recording(kept, requested, pools), latest, after);
      if reply == Done {
        AlignWith(after);
      }
    }

    method ClearBatchAnnotations(names: seq<string>, recovery: bool) returns (r: Res)
      modifies this
      ensures (W(), r) == ClearAnnotations(old(W()), names, recovery, tries)
    {
      hide BatchSpec.TryClear;
      for attempt := 0 to tries
        invariant ClearAnnotations(W(), names, recovery, tries - attempt)
               == ClearAnnotations(old(W()), names, recovery, tries)
      {
        var reply := TryClear(names, recovery);
        match reply {
          case Done => return Ok;
          case Failed => return Err;
          case Dead => return Died;
          case Stale =>
        }
      }
      r := Err;
    }

    method TryClear(names: seq<string>, recovery: bool) returns (reply: Reply)
      modifies this
      ensures (W(), reply) == BatchSpec.TryClear(old(W()), names, recovery)
    {
      var o := Call();
      if o == Crash {
        return Dead;
      }
      if o != Served {
        return Failed;
      }
      var latest := d.cr;
      var after := Cleared(latest, names, recovery);
      if after == latest {
        AlignWith(after);
        return Done;
      }
      base := latest;
      reply := WriteCr(Clearing(names, recovery), latest, after);
      if reply == Done {
        AlignWith(after);
      }
    }

    method Tally(outcome: string)
      modifies this`trace
      ensures W() == Note(old(W()), Counted(outcome))
    {
      trace := trace + [Event(Counted(outcome), d, d)];
    }

    method ResumeOrphanedBatch() returns (r: Res)
      modifies this
      ensures (W(), r) == ResumeOrphaned(old(W()))
    {
      var emptyRequest := mem.request.Some? && NamesIn(mem.request.value) == [];
      if mem.started == NoStart && Raw(mem.pools) == "" && !emptyRequest {
        return Ok;
      }
      r := ResumePools(NamesIn(Raw(mem.pools)), owner);
      if r != Ok {
        return;
      }
      r := ClearBatchAnnotations([], true);
      if r != Ok {
        return;
      }
      Tally("orphaned");
    }

    // ---- remediations ----

    method ApplyOwnedRemediation(name: string, suites: set<string>) returns (r: Res)
      modifies this
      ensures (W(), r) == ApplyOne(old(W()), name, suites, tries)
    {
      for attempt := 0 to tries
        invariant ApplyOne(W(), name, suites, tries - attempt)
               == ApplyOne(old(W()), name, suites, tries)
      {
        var o := Call();
        if o == Crash {
          return Died;
        }
        if o != Served || !d.remCrd {
          return Err;
        }
        if name !in d.rems || !Eligible(suites, d.rems[name]) || d.rems[name].apply.on {
          return Ok;
        }
        var before := d.rems[name];
        var reply := WriteRem(name, suites, before, before.(apply := Is(true)));
        if reply != Stale {
          return match reply case Done => Ok case Dead => Died case _ => Err;
        }
      }
      r := Err;
    }

    method ListRemediationsForBatch(names: seq<string>) returns (l: Listing)
      modifies this
      ensures (W(), l) == ListRemediations(old(W()), names)
    {
      if names == [] {
        return Listed(map[]);
      }
      var o := Call();
      l := if o == Crash then ListDied
           else if o != Served then ListErr
           else if !d.remCrd then NoCrd
           else Listed(d.rems);
    }

    // ---- phase one ----

    method OpenRemediationBatch() returns (r: Res)
      modifies this
      ensures (W(), r) == Open(old(W()))
    {
      var requested := NamesIn(Raw(mem.request));
      if requested == [] {
        r := ResumeOrphanedBatch();
        return;
      }
      if |requested| > MAX_REMEDIATIONS || !AllValid(requested) {
        r := ClearBatchAnnotations(requested, false);
        return;
      }
      r := OpenValidRequest(requested);
    }

    method OpenValidRequest(requested: seq<string>) returns (r: Res)
      modifies this
      ensures (W(), r) == OpenValid(old(W()), requested)
    {
      var l := ListRemediationsForBatch(requested);
      if l == ListDied {
        return Died;
      }
      if !l.Listed? {
        return Err;
      }
      var kept, derived := ValidateTargets(requested, l.rems);
      if kept == [] {
        r := ClearBatchAnnotations(requested, false);
        return;
      }
      r := PauseAndApply(requested, kept, derived);
    }

    /** The validation loop: which targets stay, and which pools they reboot. */
    method ValidateTargets(requested: seq<string>, rems: map<string, Remediation>)
      returns (kept: seq<string>, derived: seq<string>)
      ensures kept == Keep(requested, rems, mem.suites)
      ensures derived == PoolsOf(kept, rems, mem.suites)
    {
      hide Eligible, PoolFromRemediation, Keep, PoolsOf;
      NothingKept(rems, mem.suites);
      kept, derived := [], [];
      assert requested[0..] == requested;
      for i := 0 to |requested|
        invariant kept + Keep(requested[i..], rems, mem.suites) == Keep(requested, rems, mem.suites)
        invariant derived == PoolsOf(kept, rems, mem.suites)
      {
        var name := requested[i];
        KeepStep(requested, i, rems, mem.suites);
        if name in rems && Eligible(mem.suites, rems[name]) {
          PoolsOfOneMore(kept, name, rems, mem.suites);
          kept := kept + [name];
          var p := PoolFromRemediation(rems[name]);
          if p != "" {
            derived := derived + [p];
          }
        }
      }
    }

    lemma NothingKept(rems: map<string, Remediation>, suites: set<string>)
      ensures Keep([], rems, suites) == [] && PoolsOf([], rems, suites) == []
    {
    }

    lemma KeepStep(names: seq<string>, i: nat, rems: map<string, Remediation>, suites: set<string>)
      requires i < |names|
      ensures Keep(names[i..], rems, suites)
           == (if names[i] in rems && Eligible(suites, rems[names[i]]) then [names[i]] else []) + Keep(names[i + 1..], rems, suites)
    {
      assert names[i..][0] == names[i] && names[i..][1..] == names[i + 1..];
    }

    lemma PoolsOfOneMore(kept: seq<string>, name: string, rems: map<string, Remediation>, suites: set<string>)
      requires name in rems && Eligible(suites, rems[name])
      ensures PoolsOf(kept + [name], rems, suites)
           == PoolsOf(kept, rems, suites) + (if PoolFromRemediation(rems[name]) == "" then [] else [PoolFromRemediation(rems[name])])
    {
      PoolsOfAppend(kept, [name], rems, suites);
      assert [name][1..] == [];
    }

    lemma {:induction false} PoolsOfAppend(a: seq<string>, b: seq<string>, rems: map<string, Remediation>, suites: set<string>)
      ensures PoolsOf(a + b, rems, suites) == PoolsOf(a, rems, suites) + PoolsOf(b, rems, suites)
    {
      if a == [] {
        assert a + b == b;
      } else {
        assert (a + b)[0] == a[0] && (a + b)[1..] == a[1..] + b;
        PoolsOfAppend(a[1..], b, rems, suites);
      }
    }

    method PauseAndApply(requested: seq<string>, kept: seq<string>, derived: seq<string>) returns (r: Res)
      modifies this
      ensures (W(), r) == OpenKept(old(W()), requested, kept, derived)
    {
      var recorded := NamesIn(Raw(mem.pools));
      var ours;
      r, ours := KeepRecordedOurs(recorded, derived);
      if r != Ok {
        return;
      }
      var pools := UniqueSorted(derived + ours);
      if |pools| > MAX_POOLS {
        r := ClearBatchAnnotations(requested, false);
        return;
      }
      var at;
      r, at := EnsureBatchMetadata(pools, requested, kept);
      if r != Ok {
        return;
      }
      r := StartBatch(pools, kept, at);
    }

    method KeepRecordedOurs(names: seq<string>, derived: seq<string>) returns (r: Res, ours: seq<string>)
      modifies this
      ensures (W(), r) == (RecordedOurs(old(W()), names, derived).0, RecordedOurs(old(W()), names, derived).1)
      ensures r == Ok ==> ours == RecordedOurs(old(W()), names, derived).2
    {
      ours := [];
      for i := 0 to |names|
        invariant RecordedOurs(W(), names[i..], derived).0 == RecordedOurs(old(W()), names, derived).0
        invariant RecordedOurs(W(), names[i..], derived).1 == RecordedOurs(old(W()), names, derived).1
        invariant RecordedOurs(old(W()), names, derived).1 == Ok
          ==> ours + RecordedOurs(W(), names[i..], derived).2 == RecordedOurs(old(W()), names, derived).2
      {
        var p := names[i];
        assert names[i..][0] == p && names[i..][1..] == names[i + 1..];
        if p !in derived {
          var a := PoolPausedBy(p, owner);
          if a == Gone {
            return Died, ours;
          }
          if a == Unknown {
            return Err, ours;
          }
          if a == Yes {
            ours := ours + [p];
          }
        }
      }
      r := Ok;
    }

    method HoldBatch(pools: seq<string>, kept: seq<string>, at: Stamp)
      modifies this`mem
      ensures W() == Hold(old(W()), pools, kept, at)
    {
      mem := mem.(batch := Some(Batch(pools, kept, at, owner)));
    }

    method StartBatch(pools: seq<string>, kept: seq<string>, at: Stamp) returns (r: Res)
      modifies this
      ensures (W(), r) == Start(old(W()), pools, kept, at)
    {
      var suites := mem.suites;
      ghost var began := W();
      var paused: nat := 0;
      while paused < |pools|
        invariant paused <= |pools|
        invariant PauseFrom(W(), pools, paused) == PauseFrom(began, pools, 0)
      {
        var one := SetMcpPaused(pools[paused], true, owner);
        if one == Died {
          return Died;
        }
        if one == Err {
          r := UndoPause(pools, paused, kept, at, Stray(began.d, owner, pools[paused..]), PauseLanded(began, W(), pools[paused]));
          return;
        }
        paused := paused + 1;
      }
      label applying:
      for i := 0 to |kept|
        invariant ApplyEach(W(), kept[i..], suites) == ApplyEach(old@applying(W()), kept, suites)
      {
        assert kept[i..][0] == kept[i] && kept[i..][1..] == kept[i + 1..];
        var one := ApplyOwnedRemediation(kept[i], suites);
        if one == Died {
          return Died;
        }
        if one == Err {
          var e := ResumePoolsBestEffort(pools, owner);
          if e == EffortDied {
            return Died;
          }
          if e == SomeStuck {
            HoldBatch(pools, kept, at);
          }
          return Err;
        }
      }
      HoldBatch(pools, kept, at);
      r := Ok;
    }

    /** A pool could not be paused: free the ones this attempt paused, or record them. */
    method UndoPause(
      pools: seq<string>, paused: nat, kept: seq<string>, at: Stamp, ghost held: set<string>, ghost landed: bool)
      returns (r: Res)
      requires paused <= |pools|
      modifies this
      ensures (W(), r) ==
        var (w2, e) := ResumeBestEffort(old(W()), pools[..paused], owner, false);
        match e
        case EffortDied => (w2, Died)
        case AllFreed => (w2, Err)
        case SomeStuck => (RecordPrefix(w2, pools, paused, kept, at, held, landed), Err)
    {
      var e := ResumePoolsBestEffort(pools[..paused], owner);
      if e == EffortDied {
        return Died;
      }
      if e == SomeStuck {
        trace := trace + [Event(PrefixRecorded(held, landed), d, d)];
        HoldBatch(pools[..paused], kept, at);
      }
      r := Err;
    }

    // ---- phase two ----

    method FinishRemediationBatch() returns (r: Res)
      requires mem.batch.Some?
      modifies this
      ensures (W(), r) == Finish(old(W()))
    {
      var batch := mem.batch.value;
      var countThis := Unreported(mem);
      var listed := Capped(batch.remediations);
      var names := Valids(listed);
      var missing: nat := |listed| - |names|;
      var applied, anyApplying := true, false;
      var l := ListRemediationsForBatch(names);
      if l == ListDied {
        return Died;
      }
      var waiting := l == ListErr;
      if waiting {
        applied := false;
      } else if l == NoCrd {
        missing := missing + |names|;
      } else {
        applied, anyApplying, missing := LookAt(names, l.rems, missing);
      }
      var unconfirmed := missing > 0;
      if unconfirmed {
        applied := false;
      }
      var cancelled := !anyApplying && !waiting && !unconfirmed;
      var past := BatchPastGrace(batch.startedAt, d.now);
      if applied || past || cancelled || unconfirmed {
        r := ResumePools(batch.pools, batch.owner);
        if r != Ok {
          return;
        }
        r := ClearBatchAnnotations(batch.remediations, true);
        if r != Ok {
          return;
        }
        if countThis {
          Tally(if cancelled then "cancelled" else if past || unconfirmed then "grace" else "applied");
        }
        mem := mem.(batch := None);
        return Ok;
      }
      r := if waiting then Err else Ok;
    }

    /** The wait loop over the listed remediations. */
    method LookAt(names: seq<string>, rems: map<string, Remediation>, unseen: nat)
      returns (applied: bool, anyApplying: bool, missing: nat)
      ensures Survey(applied, anyApplying, missing) == Look(names, rems, Survey(true, false, unseen))
    {
      applied, anyApplying, missing := true, false, unseen;
      assert names[0..] == names;
      for i := 0 to |names|
        invariant Look(names[i..], rems, Survey(applied, anyApplying, missing))
               == Look(names, rems, Survey(true, false, unseen))
      {
        assert names[i..][0] == names[i] && names[i..][1..] == names[i + 1..];
        if names[i] !in rems || rems[names[i]].state.None? {
          missing := missing + 1;
        } else {
          var rem := rems[names[i]];
          if rem.state.value != "Applied" {
            applied := false;
          }
          if rem.apply.Unreadable? {
            missing := missing + 1;
          } else if rem.apply.on {
            anyApplying := true;
          }
        }
      }
    }

    // ---- reconcile and delete ----

    method UpdateStatus() returns (r: Res)
      modifies this
      ensures (W(), r) == WriteStatus(old(W()))
    {
      var o := Call();
      var current := d.cr == base;
      if Takes(o, current) {
        var next := d.(cr := d.cr.(batch := SanitizeBatch(mem.batch)));
        trace := trace + [Event(StatusSet, d, next)];
        d := next;
      }
      var reply := ReplyOf(o, current);
      r := if reply == Done then Ok else if reply == Dead then Died else Err;
    }

    method Reconcile() returns (r: Res)
      modifies this
      ensures (W(), r) == BatchSpec.Reconcile(old(W()))
    {
      var o := Call();
      if o == Crash {
        return Died;
      }
      if o != Served {
        return Err;
      }
      mem, base := d.cr, d.cr;
      if mem.batch.None? {
        r := OpenRemediationBatch();
      } else {
        r := FinishRemediationBatch();
      }
      if r == Died {
        return;
      }
      var stored := UpdateStatus();
      if stored != Ok {
        r := stored;
      }
    }

    method ResumeBatchPoolsOnDelete() returns (r: Res)
      modifies this
      ensures (W(), r) == DeleteJob(old(W()))
    {
      var o := Call();
      if o == Crash {
        return Died;
      }
      if o != Served {
        return Err;
      }
      mem, base := d.cr, d.cr;
      var pools: seq<string> := [];
      if mem.batch.Some? {
        pools := UniqueSorted(mem.batch.value.pools);
      }
      if pools != [] {
        r := ResumePools(pools, mem.batch.value.owner);
        return;
      }
      var recorded, suites := NamesIn(Raw(mem.pools)), mem.suites;
      var names := Valids(Capped(NamesIn(Raw(mem.request))));
      var l := ListRemediationsForBatch(names);
      if l == ListDied {
        return Died;
      }
      if l == ListErr {
        return Err;
      }
      var found := if l.Listed? then PoolsOf(names, l.rems, suites) else [];
      r := ResumePools(UniqueSorted(recorded + found), owner);
    }
  }
}
