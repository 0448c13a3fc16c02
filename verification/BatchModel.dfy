/**
  The world a remediation batch runs in: what the API server stores, what other
  writers do to it, and the one-at-a-time API calls the operator makes.

  Every call takes the next Tick of a script. The tick first lets the environment act,
  then decides whether the call is served, conflicts, is refused, takes effect although
  the operator sees an error, or never happens because the operator died. An empty script
  is a crash, so quantifying over scripts quantifies over every run and crash point.
*/
module BatchModel {
  import opened Options
  import opened Text
  import opened K8sNames

  const MAX_REMEDIATIONS: nat := 256
  const MAX_POOLS: nat := 32
  const CONFLICT_ATTEMPTS: nat := 5
  const SECOND: int := 1_000_000_000
  const GRACE: int := 600 * SECOND

  /** A boolean field of an untrusted object: false when missing, Unreadable when not a boolean. */
  datatype Flag = Is(on: bool) | Unreadable

  /** spec.paused and the batch-pause-owner marker of a MachineConfigPool; "" is no marker. */
  datatype Pool = Pool(paused: Flag, marker: string)

  /** role is the rendered MachineConfig's role label, scan the scan-name label. */
  datatype Remediation = Remediation(apply: Flag, state: Option<string>, suite: string, role: string, scan: string)

  /** An instant in nanoseconds, or Go's zero time. */
  datatype Stamp = Zero | At(ns: int)

  /** The batch-started-at annotation: absent or empty, unusable text, or an instant. */
  datatype StartNote = NoStart | BadStart | StartedAt(ns: int)

  datatype Batch = Batch(pools: seq<string>, remediations: seq<string>, startedAt: Stamp, owner: string)

  /** The parts of the ClusterBaseline the protocol reads and writes. */
  datatype Cr = Cr(
    request: Option<string>,      // batch-apply
    started: StartNote,           // batch-started-at
    pools: Option<string>,        // batch-pools
    batch: Option<Batch>,         // status.remediationBatch
    suites: set<string>)          // the suites its spec owns

  datatype Durable = Durable(
    cr: Cr, mcps: map<string, Pool>, rems: map<string, Remediation>, remCrd: bool, now: int)

  /** What other writers do. A step that would touch a pool carrying our marker has no effect. */
  datatype EnvStep =
    | Resubmit(raw: string)
    | Withdraw
    | SetRemediation(name: string, rem: Remediation)
    | DropRemediation(name: string)
    | SetCrd(present: bool)
    | SetSuites(suites: set<string>)
    | SetPool(name: string, pool: Pool)
    | DropPool(name: string)
    | Advance(dt: nat)

  function ApplyEnv(owner: string, d: Durable, e: EnvStep): Durable {
    match e
    case Resubmit(raw) => d.(cr := d.cr.(request := Some(raw)))
    case Withdraw => d.(cr := d.cr.(request := None))
    case SetRemediation(n, r) => if ValidName(n) then d.(rems := d.rems[n := r]) else d
    case DropRemediation(n) => d.(rems := d.rems - {n})
    case SetCrd(present) => d.(remCrd := present)
    case SetSuites(s) => d.(cr := d.cr.(suites := s))
    case SetPool(n, p) =>
      if ValidName(n) && p.marker != owner && (n in d.mcps ==> d.mcps[n].marker != owner)
      then d.(mcps := d.mcps[n := p]) else d
    case DropPool(n) =>
      if n in d.mcps && d.mcps[n].marker != owner then d.(mcps := d.mcps - {n}) else d
    case Advance(dt) => d.(now := d.now + dt)
  }

  datatype Outcome = Served | Conflict | Refused | Landed | Crash

  datatype Tick = Tick(env: seq<EnvStep>, outcome: Outcome)

  /**
    Why the durable state moved, or what the operator noted without moving it. PrefixRecorded
    notes the partial-pause branch: which pools from the failing one on were ours when pausing
    began, and whether the failing pause took effect although it reported an error.
  */
  datatype What =
    | Env(step: EnvStep)
    | PoolSet(pool: string, pausing: bool)
    | ApplySet(rem: string, suites: set<string>)
    | Annotated(cause: Cause)
    | StatusSet
    | Counted(outcome: string)
    | PrefixRecorded(held: set<string>, landed: bool)

  /** Why annotations are rewritten: to record a batch, or to clear a request naming match. */
  datatype Cause = Recording(kept: seq<string>, requested: seq<string>, pools: seq<string>)
                 | Clearing(names: seq<string>, recovery: bool)

  datatype Event = Event(what: What, pre: Durable, post: Durable)

  /**
    owner is the pause owner and tries the number of attempts a conflicting write gets;
    d is the API server, mem the ClusterBaseline the reconcile holds, base the stored object
    at the resourceVersion mem carries.
  */
  datatype World = World(owner: string, tries: nat, d: Durable, mem: Cr, base: Cr, script: seq<Tick>, trace: seq<Event>)

  datatype Res = Ok | Err | Died
  datatype Reply = Done | Stale | Failed | Dead

  function Note(w: World, what: What): World {
    w.(trace := w.trace + [Event(what, w.d, w.d)])
  }

  function Move(w: World, what: What, d: Durable): World {
    w.(d := d, trace := w.trace + [Event(what, w.d, d)])
  }

  /** The environment acts; the operator's own memory stays. */
  function Settle(w: World, env: seq<EnvStep>): (r: World)
    ensures r.owner == w.owner && r.tries == w.tries && r.mem == w.mem && r.base == w.base && r.script == w.script
    decreases |env|
  {
    if env == [] then w
    else Settle(Move(w, Env(env[0]), ApplyEnv(w.owner, w.d, env[0])), env[1..])
  }

  /** One API call: the environment acts, then the call gets its outcome. */
  function Call(w: World): (World, Outcome) {
    if w.script == [] then (w, Crash)
    else (Settle(w.(script := w.script[1..]), w.script[0].env), w.script[0].outcome)
  }

  /** Did the write land, and what does the operator see? */
  function ReplyOf(o: Outcome, current: bool): Reply {
    match o
    case Served => if current then Done else Stale
    case Conflict => Stale
    case Refused => Failed
    case Landed => if current then Failed else Stale
    case Crash => Dead
  }

  predicate Takes(o: Outcome, current: bool) {
    current && (o == Served || o == Landed)
  }

  /** Patch of one pool with an optimistic lock on the object read before. */
  function WriteMcp(w: World, pool: string, pausing: bool, before: Pool, after: Pool): (World, Reply) {
    var (w1, o) := Call(w);
    var current := pool in w1.d.mcps && w1.d.mcps[pool] == before;
    (if Takes(o, current) then Move(w1, PoolSet(pool, pausing), w1.d.(mcps := w1.d.mcps[pool := after])) else w1,
     ReplyOf(o, current))
  }

  function WriteRem(w: World, name: string, suites: set<string>, before: Remediation, after: Remediation)
    : (World, Reply)
  {
    var (w1, o) := Call(w);
    var current := name in w1.d.rems && w1.d.rems[name] == before;
    (if Takes(o, current) then Move(w1, ApplySet(name, suites), w1.d.(rems := w1.d.rems[name := after])) else w1,
     ReplyOf(o, current))
  }

  /** Update of the ClusterBaseline's metadata, against the object read before. */
  function WriteCr(w: World, cause: Cause, before: Cr, after: Cr): (World, Reply) {
    var (w1, o) := Call(w);
    var current := w1.d.cr == before;
    (if Takes(o, current) then Move(w1, Annotated(cause), w1.d.(cr := after)) else w1, ReplyOf(o, current))
  }

  // ---- small decisions shared by the calls ----

  function BatchPauseOwner(uid: string, name: string): (owner: string)
    ensures owner != "" && (uid != "" ==> owner == uid)
    ensures uid == "" ==> owner == (if name == "" then "cluster" else name)
  {
    if uid != "" then uid else if name != "" then name else "cluster"
  }

  function BatchPastGrace(started: Stamp, now: int): bool {
    match started
    case Zero => true
    case At(s) => s > now + GRACE || now - s > GRACE
  }

  /** Index of the last occurrence of pat in s, or -1. */
  function LastIndex(s: string, pat: string): (i: int)
    ensures i == -1 || (0 <= i && i + |pat| <= |s| && s[i..i + |pat|] == pat)
    decreases |s|
  {
    if |s| < |pat| then -1
    else if s[|s| - |pat|..] == pat then |s| - |pat|
    else if s == "" then -1
    else
      var i := LastIndex(s[..|s| - 1], pat);
      assert i != -1 ==> s[..|s| - 1][i..i + |pat|] == s[i..i + |pat|];
      i
  }

  const NODE_INFIX: string := "-node-"

  /** The pool a node remediation reboots, or "": the role label, else the scan name's suffix. */
  function PoolFromRemediation(r: Remediation): (pool: string)
    ensures pool == "" || ValidName(pool)
  {
    if ValidName(r.role) then r.role
    else
      var i := LastIndex(r.scan, NODE_INFIX);
      if i >= 0 && ValidName(r.scan[i + |NODE_INFIX|..]) then r.scan[i + |NODE_INFIX|..] else ""
  }

  /** Owned, readable, and no missing dependencies: a target the batch may apply. */
  predicate Eligible(suites: set<string>, r: Remediation) {
    r.suite in suites && r.state.Some? && r.state.value != "MissingDependencies" && r.apply.Is?
  }

  /** What setMCPPaused does to one pool it has just read. */
  datatype Decision = Skip | Fail | Write(after: Pool)

  function PauseDecision(pool: Pool, owner: string): Decision {
    if pool.paused.Unreadable? then Skip
    else if owner == "" then Fail
    else if pool.paused.on && pool.marker == "" then Skip
    else if pool.paused.on && pool.marker == owner then Skip
    else Write(Pool(Is(true), owner))
  }

  function ResumeDecision(pool: Pool, owner: string): Decision {
    if pool.paused.Unreadable? then Skip
    else if owner == "" then
      if pool.marker != "" || !pool.paused.on then Skip else Write(Pool(Is(false), ""))
    else if pool.marker != owner then Skip
    else Write(Pool(Is(false), ""))
  }

  function Decide(pool: Pool, paused: bool, owner: string): Decision {
    if paused then PauseDecision(pool, owner) else ResumeDecision(pool, owner)
  }

  /** Annotation values read through a map: a missing key reads as "". */
  function Raw(o: Option<string>): string {
    o.Or("")
  }

  /** The CR still carries a marker of an unfinished batch. */
  predicate Unreported(cr: Cr) {
    Raw(cr.request) != "" || cr.started != NoStart || Raw(cr.pools) != ""
  }

  // ---- the status sanitizer's part for batches ----

  function ClampName(s: string): string {
    if |s| <= 253 then s else s[..253]
  }

  /** Clamp each name, drop empties, keep first occurrences. */
  function ClampItems(names: seq<string>, kept: seq<string>): seq<string> {
    if names == [] then kept
    else
      var n := ClampName(names[0]);
      ClampItems(names[1..], if n == "" || n in kept then kept else kept + [n])
  }

  function ClampList(names: seq<string>, max: nat): seq<string> {
    var r := ClampItems(names, []);
    if |r| > max then r[..max] else r
  }

  function SanitizeBatch(b: Option<Batch>): Option<Batch> {
    match b
    case None => None
    case Some(x) =>
      Some(Batch(ClampList(x.pools, MAX_POOLS), ClampList(x.remediations, MAX_REMEDIATIONS),
                 if x.startedAt == Zero then At(0) else x.startedAt, ClampName(x.owner)))
  }
}
