/**
  The batch protocol as functions from world to world: what each operator routine does to
  the API server, to the ClusterBaseline it holds and to the script of call outcomes.
*/
module BatchSpec {
  import opened Options
  import opened Text
  import opened K8sNames
  import opened BatchModel

  // ---- pools ----

  /** setMCPPaused with the remaining conflict attempts. */
  function SetPaused(w: World, pool: string, paused: bool, owner: string, attempts: nat): (World, Res)
    decreases attempts
  {
    if !ValidName(pool) then (w, Ok)
    else if attempts == 0 then (w, Err)
    else
      var (w1, o) := Call(w);
      if o == Crash then (w1, Died)
      else if o != Served then (w1, Err)
      else if pool !in w1.d.mcps then (w1, Ok)
      else
        match Decide(w1.d.mcps[pool], paused, owner)
        case Skip => (w1, Ok)
        case Fail => (w1, Err)
        case Write(after) =>
          var (w2, r) := WriteMcp(w1, pool, paused, w1.d.mcps[pool], after);
          match r
          case Done => (w2, Ok)
          case Failed => (w2, Err)
          case Dead => (w2, Died)
          case Stale => SetPaused(w2, pool, paused, owner, attempts - 1)
  }

  /** Resume in order, giving up at the first failure. */
  function ResumeAll(w: World, pools: seq<string>, owner: string): (World, Res)
    decreases |pools|
  {
    if pools == [] then (w, Ok)
    else
      var (w1, r) := SetPaused(w, pools[0], false, owner, w.tries);
      if r != Ok then (w1, r) else ResumeAll(w1, pools[1..], owner)
  }

  datatype Effort = AllFreed | SomeStuck | EffortDied

  /** resumePoolsBestEffort: one stuck pool does not stop the others. */
  function ResumeBestEffort(w: World, pools: seq<string>, owner: string, stuck: bool): (World, Effort)
    decreases |pools|
  {
    if pools == [] then (w, if stuck then SomeStuck else AllFreed)
    else
      var (w1, r) := SetPaused(w, pools[0], false, owner, w.tries);
      if r == Died then (w1, EffortDied)
      else ResumeBestEffort(w1, pools[1..], owner, stuck || r == Err)
  }

  /** Pause pools[n..]; the number is how many are paused when it stops. */
  function PauseFrom(w: World, pools: seq<string>, n: nat): (result: (World, Res, nat))
    requires n <= |pools|
    ensures n <= result.2 <= |pools|
    ensures result.1 != Ok ==> result.2 < |pools|
    decreases |pools| - n
  {
    if n == |pools| then (w, Ok, n)
    else
      var (w1, r) := SetPaused(w, pools[n], true, w.owner, w.tries);
      if r != Ok then (w1, r, n) else PauseFrom(w1, pools, n + 1)
  }

  datatype Answer = Yes | No | Unknown | Gone

  /** poolPausedBy: paused and carrying owner's marker. */
  function PausedBy(w: World, pool: string, owner: string): (World, Answer) {
    if !ValidName(pool) || owner == "" then (w, No)
    else
      var (w1, o) := Call(w);
      if o == Crash then (w1, Gone)
      else if o != Served then (w1, Unknown)
      else if pool !in w1.d.mcps then (w1, No)
      else
        match w1.d.mcps[pool].paused
        case Unreadable => (w1, Unknown)
        case Is(on) => (w1, if on && w1.d.mcps[pool].marker == owner then Yes else No)
  }

  /** Names a prior open recorded that are kept: derived again, or paused by us. */
  function RecordedOurs(w: World, names: seq<string>, derived: seq<string>): (World, Res, seq<string>)
    decreases |names|
  {
    if names == [] then (w, Ok, [])
    else if names[0] in derived then RecordedOurs(w, names[1..], derived)
    else
      var (w1, a) := PausedBy(w, names[0], w.owner);
      if a == Gone then (w1, Died, [])
      else if a == Unknown then (w1, Err, [])
      else
        var (w2, r, rest) := RecordedOurs(w1, names[1..], derived);
        (w2, r, if a == Yes then [names[0]] + rest else rest)
  }

  // ---- the ClusterBaseline's annotations ----

  const EPOCH: int := SECOND

  /** The annotations a batch over these pools needs, given the stored ones. */
  function Recorded(latest: Cr, pools: seq<string>, requested: seq<string>, kept: seq<string>, now: int): Cr {
    var desired := Join(UniqueSorted(pools), ',');
    var started :=
      match latest.started
      case NoStart => StartedAt(now)
      case BadStart => StartedAt(EPOCH)
      case StartedAt(t) => latest.started;
    latest.(
      started := started,
      pools := if Raw(latest.pools) != desired then Some(desired) else latest.pools,
      request :=
        if |kept| < |requested| && latest.request.Some?
           && NamesIn(latest.request.value) == UniqueSorted(requested)
        then Some(Join(UniqueSorted(kept), ',')) else latest.request)
  }

  /** Aligns the annotations mem holds with the stored ones. */
  function Align(w: World, cr: Cr): World {
    w.(mem := w.mem.(request := cr.request, started := cr.started, pools := cr.pools), base := cr)
  }

  function EnsureMetadata(w: World, pools: seq<string>, requested: seq<string>, kept: seq<string>, attempts: nat)
    : (World, Res, Stamp)
    decreases attempts
  {
    if attempts == 0 then (w, Err, Zero)
    else
      var (w1, reply, at) := TryRecord(w, pools, requested, kept);
      match reply
      case Done => (w1, Ok, at)
      case Failed => (w1, Err, Zero)
      case Dead => (w1, Died, Zero)
      case Stale => EnsureMetadata(w1, pools, requested, kept, attempts - 1)
  }

  function TryRecord(w: World, pools: seq<string>, requested: seq<string>, kept: seq<string>): (World, Reply, Stamp) {
    var (w1, o) := Call(w);
    if o == Crash then (w1, Dead, Zero)
    else if o != Served then (w1, Failed, Zero)
    else
      var after := Recorded(w1.d.cr, pools, requested, kept, w1.d.now);
      if after == w1.d.cr then (Align(w1, after), Done, At(after.started.ns))
      else
        var (w2, r) := WriteCr(w1, Recording(kept, requested, pools), w1.d.cr, after);
        (if r == Done then Align(w2, after) else w2, r, At(after.started.ns))
  }

  /** The annotations left once the request is dropped if it names the given set. */
  function Cleared(latest: Cr, names: seq<string>, recovery: bool): Cr {
    latest.(
      request :=
        if latest.request.Some? && NamesIn(latest.request.value) == UniqueSorted(names)
        then None else latest.request,
      started := if recovery then NoStart else latest.started,
      pools := if recovery then None else latest.pools)
  }

  function ClearAnnotations(w: World, names: seq<string>, recovery: bool, attempts: nat): (World, Res)
    decreases attempts
  {
    if attempts == 0 then (w, Err)
    else
      var (w1, reply) := TryClear(w, names, recovery);
      match reply
      case Done => (w1, Ok)
      case Failed => (w1, Err)
      case Dead => (w1, Died)
      case Stale => ClearAnnotations(w1, names, recovery, attempts - 1)
  }

  /** One attempt: read the latest object, drop what must go, write it back. */
  function TryClear(w: World, names: seq<string>, recovery: bool): (World, Reply) {
    var (w1, o) := Call(w);
    if o == Crash then (w1, Dead)
    else if o != Served then (w1, Failed)
    else
      var after := Cleared(w1.d.cr, names, recovery);
      if after == w1.d.cr then (Align(w1, after), Done)
      else
        var (w2, r) := WriteCr(w1.(base := w1.d.cr), Clearing(names, recovery), w1.d.cr, after);
        (if r == Done then Align(w2, after) else w2, r)
  }

  /** Request gone but recovery keys left: release what they name, then drop them. */
  function ResumeOrphaned(w: World): (World, Res) {
    var cr := w.mem;
    var emptyRequest := cr.request.Some? && NamesIn(cr.request.value) == [];
    if cr.started == NoStart && Raw(cr.pools) == "" && !emptyRequest then (w, Ok)
    else
      var (w1, r) := ResumeAll(w, NamesIn(Raw(cr.pools)), w.owner);
      if r != Ok then (w1, r)
      else
        var (w2, r2) := ClearAnnotations(w1, [], true, w.tries);
        if r2 != Ok then (w2, r2) else (Note(w2, Counted("orphaned")), Ok)
  }

  // ---- remediations ----

  function ApplyOne(w: World, name: string, suites: set<string>, attempts: nat): (World, Res)
    decreases attempts
  {
    if attempts == 0 then (w, Err)
    else
      var (w1, o) := Call(w);
      if o == Crash then (w1, Died)
      else if o != Served || !w1.d.remCrd then (w1, Err)
      else if name !in w1.d.rems || !Eligible(suites, w1.d.rems[name]) || w1.d.rems[name].apply.on then (w1, Ok)
      else
        var (w2, r) := WriteRem(w1, name, suites, w1.d.rems[name], w1.d.rems[name].(apply := Is(true)));
        match r
        case Done => (w2, Ok)
        case Failed => (w2, Err)
        case Dead => (w2, Died)
        case Stale => ApplyOne(w2, name, suites, attempts - 1)
  }

  function ApplyEach(w: World, names: seq<string>, suites: set<string>): (World, Res)
    decreases |names|
  {
    if names == [] then (w, Ok)
    else
      var (w1, r) := ApplyOne(w, names[0], suites, w.tries);
      if r != Ok then (w1, r) else ApplyEach(w1, names[1..], suites)
  }

  datatype Listing = Listed(rems: map<string, Remediation>) | NoCrd | ListErr | ListDied

  function ListRemediations(w: World, names: seq<string>): (World, Listing) {
    if names == [] then (w, Listed(map[]))
    else
      var (w1, o) := Call(w);
      (w1,
       if o == Crash then ListDied
       else if o != Served then ListErr
       else if !w1.d.remCrd then NoCrd
       else Listed(w1.d.rems))
  }

  /** The requested names that still exist and may be applied. */
  function Keep(names: seq<string>, rems: map<string, Remediation>, suites: set<string>): (kept: seq<string>)
    ensures |kept| <= |names|
  {
    if names == [] then []
    else
      var rest := Keep(names[1..], rems, suites);
      if names[0] in rems && Eligible(suites, rems[names[0]]) then [names[0]] + rest else rest
  }

  /** The pools of those of the names that exist and are of interest. */
  function PoolsOf(names: seq<string>, rems: map<string, Remediation>, suites: set<string>): seq<string> {
    if names == [] then []
    else
      var rest := PoolsOf(names[1..], rems, suites);
      if names[0] in rems && rems[names[0]].suite in suites && PoolFromRemediation(rems[names[0]]) != ""
      then [PoolFromRemediation(rems[names[0]])] + rest else rest
  }

  // ---- phase one ----

  predicate AllValid(names: seq<string>) {
    forall i :: 0 <= i < |names| ==> ValidName(names[i])
  }

  function Open(w: World): (World, Res) {
    var requested := NamesIn(Raw(w.mem.request));
    if requested == [] then ResumeOrphaned(w)
    else if |requested| > MAX_REMEDIATIONS || !AllValid(requested) then
      ClearAnnotations(w, requested, false, w.tries)
    else OpenValid(w, requested)
  }

  function OpenValid(w: World, requested: seq<string>): (World, Res) {
    var (w1, l) := ListRemediations(w, requested);
    match l
    case ListDied => (w1, Died)
    case ListErr => (w1, Err)
    case NoCrd => (w1, Err)
    case Listed(rems) =>
      var kept := Keep(requested, rems, w.mem.suites);
      if kept == [] then ClearAnnotations(w1, requested, false, w.tries)
      else OpenKept(w1, requested, kept, PoolsOf(kept, rems, w.mem.suites))
  }

  function OpenKept(w: World, requested: seq<string>, kept: seq<string>, derived: seq<string>): (World, Res) {
    var (w1, r, ours) := RecordedOurs(w, NamesIn(Raw(w.mem.pools)), derived);
    if r != Ok then (w1, r)
    else
      var pools := UniqueSorted(derived + ours);
      if |pools| > MAX_POOLS then ClearAnnotations(w1, requested, false, w.tries)
      else
        var (w2, r2, at) := EnsureMetadata(w1, pools, requested, kept, w.tries);
        if r2 != Ok then (w2, r2) else Start(w2, pools, kept, at)
  }

  /** Pause every pool, then apply; any failure resumes, and what stays stuck is recorded. */
  function Start(w: World, pools: seq<string>, kept: seq<string>, at: Stamp): (World, Res) {
    var (w1, r, n) := PauseFrom(w, pools, 0);
    match r
    case Died => (w1, Died)
    case Err =>
      var (w2, e) := ResumeBestEffort(w1, pools[..n], w.owner, false);
      (match e
       case EffortDied => (w2, Died)
       case AllFreed => (w2, Err)
       case SomeStuck => (RecordPrefix(w2, pools, n, kept, at, Stray(w.d, w.owner, pools[n..]), PauseLanded(w, w1, pools[n])), Err))
    case Ok =>
      var (w2, r2) := ApplyEach(w1, kept, w.mem.suites);
      match r2
      case Died => (w2, Died)
      case Ok => (Hold(w2, pools, kept, at), Ok)
      case Err =>
        var (w3, e) := ResumeBestEffort(w2, pools, w.owner, false);
        match e
        case EffortDied => (w3, Died)
        case AllFreed => (w3, Err)
        case SomeStuck => (Hold(w3, pools, kept, at), Err)
  }

  /** Puts a batch over these pools into the status held in memory. */
  function Hold(w: World, pools: seq<string>, kept: seq<string>, at: Stamp): World {
    w.(mem := w.mem.(batch := Some(Batch(pools, kept, at, w.owner))))
  }

  /** Pools from rest that are paused under our marker. */
  function Stray(d: Durable, owner: string, rest: seq<string>): set<string> {
    set p | p in rest && Ours(d, owner, p)
  }

  predicate Ours(d: Durable, owner: string, p: string) {
    p in d.mcps && d.mcps[p].paused == Is(true) && d.mcps[p].marker == owner
  }

  /** Between w and w1 the API server took a write pausing this pool. */
  predicate PauseLanded(w: World, w1: World, pool: string) {
    exists i :: |w.trace| <= i < |w1.trace| && w1.trace[i].what == PoolSet(pool, true)
  }

  /** The partial-pause branch: only the n pools paused by this attempt are recorded. */
  function RecordPrefix(
    w: World, pools: seq<string>, n: nat, kept: seq<string>, at: Stamp, held: set<string>, landed: bool): World
    requires n <= |pools|
  {
    Hold(Note(w, PrefixRecorded(held, landed)), pools[..n], kept, at)
  }

  // ---- phase two ----

  /** What one look at the batch's remediations shows. */
  datatype Survey = Survey(applied: bool, anyApplying: bool, missing: nat)

  function Look(names: seq<string>, rems: map<string, Remediation>, s: Survey): Survey
    decreases |names|
  {
    if names == [] then s
    else
      var next :=
        if names[0] !in rems || rems[names[0]].state.None? then s.(missing := s.missing + 1)
        else
          var r := rems[names[0]];
          var s1 := if r.state.value != "Applied" then s.(applied := false) else s;
          if r.apply.Unreadable? then s1.(missing := s1.missing + 1)
          else if r.apply.on then s1.(anyApplying := true)
          else s1;
      Look(names[1..], rems, next)
  }

  function Valids(names: seq<string>): (valid: seq<string>)
    ensures |valid| <= |names|
  {
    if names == [] then []
    else (if ValidName(names[0]) then [names[0]] else []) + Valids(names[1..])
  }

  function Capped(names: seq<string>): seq<string> {
    if |names| > MAX_REMEDIATIONS then names[..MAX_REMEDIATIONS] else names
  }

  function Finish(w: World): (World, Res)
    requires w.mem.batch.Some?
  {
    var batch := w.mem.batch.value;
    var countThis := Unreported(w.mem);
    var listed := Capped(batch.remediations);
    var names := Valids(listed);
    var invalid: nat := |listed| - |names|;
    var (w1, l) := ListRemediations(w, names);
    if l == ListDied then (w1, Died)
    else
      var s :=
        if l.Listed? then Look(names, l.rems, Survey(true, false, invalid))
        else Survey(l == NoCrd, false, invalid + if l == NoCrd then |names| else 0);
      var unconfirmed := s.missing > 0;
      var applied := s.applied && !unconfirmed;
      var cancelled := !s.anyApplying && l != ListErr && !unconfirmed;
      var past := BatchPastGrace(batch.startedAt, w1.d.now);
      if applied || past || cancelled || unconfirmed then
        var reason := if cancelled then "cancelled" else if past || unconfirmed then "grace" else "applied";
        Release(w1, batch, countThis, reason)
      else (w1, if l == ListErr then Err else Ok)
  }

  /** Resume every pool of the batch, clear its annotations, count it, drop it from memory. */
  function Release(w: World, batch: Batch, countThis: bool, reason: string): (World, Res) {
    var (w2, r2) := ResumeAll(w, batch.pools, batch.owner);
    if r2 != Ok then (w2, r2)
    else
      var (w3, r3) := ClearAnnotations(w2, batch.remediations, true, w.tries);
      if r3 != Ok then (w3, r3)
      else
        var w4 := if countThis then Note(w3, Counted(reason)) else w3;
        (w4.(mem := w4.mem.(batch := None)), Ok)
  }

  // ---- reconcile and delete ----

  function ApplyBatch(w: World): (World, Res) {
    if w.mem.batch.None? then Open(w) else Finish(w)
  }

  /** The trailing Status().Update, refused unless mem's resourceVersion is the stored one. */
  function WriteStatus(w: World): (World, Res) {
    var (w1, o) := Call(w);
    var current := w1.d.cr == w1.base;
    var stored := w1.d.cr.(batch := SanitizeBatch(w1.mem.batch));
    (if Takes(o, current) then Move(w1, StatusSet, w1.d.(cr := stored)) else w1,
     match ReplyOf(o, current) case Done => Ok case Dead => Died case _ => Err)
  }

  function Reconcile(w: World): (World, Res) {
    var (w1, o) := Call(w);
    if o == Crash then (w1, Died)
    else if o != Served then (w1, Err)
    else
      var (w2, r) := ApplyBatch(w1.(mem := w1.d.cr, base := w1.d.cr));
      if r == Died then (w2, Died)
      else
        var (w3, r3) := WriteStatus(w2);
        (w3, if r3 == Ok then r else r3)
  }

  /** Pools to release on delete: the batch's, else whatever the annotations lead to. */
  function DeleteJob(w: World): (World, Res) {
    var (w1, o) := Call(w);
    if o == Crash then (w1, Died)
    else if o != Served then (w1, Err)
    else
      var w2 := w1.(mem := w1.d.cr, base := w1.d.cr);
      var batchPools := if w2.mem.batch.Some? then UniqueSorted(w2.mem.batch.value.pools) else [];
      if batchPools != [] then ResumeAll(w2, batchPools, w2.mem.batch.value.owner)
      else ReleaseRecorded(w2)
  }

  /** Status lost: the recorded pools and those the requested remediations lead to. */
  function ReleaseRecorded(w: World): (World, Res) {
    var names := Valids(Capped(NamesIn(Raw(w.mem.request))));
    var (w1, l) := ListRemediations(w, names);
    if l == ListDied then (w1, Died)
    else if l == ListErr then (w1, Err)
    else
      var found := if l.Listed? then PoolsOf(names, l.rems, w.mem.suites) else [];
      ResumeAll(w1, UniqueSorted(NamesIn(Raw(w.mem.pools)) + found), w.owner)
  }

  datatype Job = DoReconcile | DoDelete

  /** A run: one worker, one job after another, each possibly dying in the middle. */
  function Run(w: World, jobs: seq<Job>): World
    decreases |jobs|
  {
    if jobs == [] then w
    else
      var (w1, r) := if jobs[0] == DoReconcile then Reconcile(w) else DeleteJob(w);
      Run(w1, jobs[1..])
  }
}
