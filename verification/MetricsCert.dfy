/**
  The metrics server's certificate cache: concurrent TLS handshakes share one cached pair
  while the files underneath rotate. Each handshake is a sequence of atomic steps, and other
  handshakes and disk rotations may fall between any two of them.
*/
module MetricsCert {
  import opened Options

  /** What the two files hold. The bytes decide both the digest and what they parse to. */
  datatype Content = Content(bytes: nat, cert: Option<nat>)

  /** A parsed pair with the digest of the content it came from; digests are injective. */
  datatype Entry = Entry(cert: nat, fingerprint: Content)

  datatype Cache = Cache(
    entry: Option<Entry>, selfSigned: Option<nat>,
    loggedBad: bool, badFingerprint: Option<Content>, loggedMissing: bool)

  const EMPTY_CACHE := Cache(None, None, false, None, false)

  datatype Identity = Service(entry: Entry) | SelfSigned(id: nat)

  datatype Read = Unreadable | Got(content: Content)

  // ---- critical sections ----

  predicate Hit(c: Cache, fingerprint: Content) {
    c.entry.Some? && c.entry.value.fingerprint == fingerprint
  }

  function Installed(c: Cache, content: Content): Cache
    requires content.cert.Some?
  {
    c.(entry := Some(Entry(content.cert.value, content)), loggedBad := false, loggedMissing := false)
  }

  predicate NewlyBad(c: Cache, fingerprint: Content) {
    !c.loggedBad || c.badFingerprint != Some(fingerprint)
  }

  function NotedBad(c: Cache, fingerprint: Content): Cache {
    if NewlyBad(c, fingerprint) then c.(loggedBad := true, badFingerprint := Some(fingerprint)) else c
  }

  /** What the freshness re-read under the lock decides about a finished parse. */
  datatype Verdict = Install | Keep | Retry

  function Judge(c: Cache, content: Content, again: Read): Verdict {
    if again == Got(content) then Install
    else if c.entry.Some? then Keep
    else if again.Got? then Retry
    else Install
  }

  // ---- handshakes ----

  /** Where a handshake stands; left counts the attempts after this one. */
  datatype Pc =
    | Reading(left: nat)
    | Missing
    | Checking(left: nat, content: Content)
    | Parsing(left: nat, content: Content)
    | Locking(left: nat, content: Content)
    | Rereading(left: nat, content: Content)
    | Deciding(left: nat, content: Content, again: Read)
    | Corrupt(content: Content)
    | FallingBack
    | Served(identity: Identity)
    | Refused

  predicate Over(pc: Pc) { pc.Served? || pc.Refused? }
  predicate Holding(pc: Pc) { pc.Rereading? || pc.Deciding? }

  /** Steps that need the mutex and do not hold it yet. */
  predicate NeedsLock(pc: Pc) {
    pc.Missing? || pc.Checking? || pc.Locking? || pc.Corrupt? || pc.FallingBack?
  }

  /**
    What the handshakes share. log lists every content the files ever held, the newest last;
    made, installs and missingLogs count generated keys, cache installs and logged episodes.
  */
  datatype Shared = Shared(
    log: seq<Content>, cache: Cache, lock: Option<nat>, made: nat, installs: nat, missingLogs: nat)

  datatype State = State(dir: bool, sh: Shared, threads: map<nat, Pc>)

  const FRESH := Shared([], EMPTY_CACHE, None, 0, 0, 0)

  function Init(dir: bool): State {
    State(dir, FRESH, map[])
  }

  datatype Event =
    | Rotate(content: Content)
    | Begin(t: nat)
    | Go(t: nat, ok: bool)

  predicate CanGo(s: State, t: nat) {
    && t in s.threads && !Over(s.threads[t])
    && (NeedsLock(s.threads[t]) ==> s.sh.lock.None?)
  }

  /** Reading the pair is one step; it fails when nothing was ever projected, or on any error. */
  function DiskRead(log: seq<Content>, ok: bool): Read {
    if ok && log != [] then Got(log[|log| - 1]) else Unreadable
  }

  function Serve(c: Cache): Pc
    requires c.entry.Some?
  {
    Served(Service(c.entry.value))
  }

  function AfterMissing(sh: Shared): Shared {
    if sh.cache.loggedMissing then sh
    else sh.(cache := sh.cache.(loggedMissing := true), missingLogs := sh.missingLogs + 1)
  }

  /** The end of the install section: what it publishes, whom it serves. */
  function Decide(sh: Shared, left: nat, content: Content, again: Read): (Shared, Pc)
    requires content.cert.Some?
  {
    var free := sh.(lock := None);
    match Judge(sh.cache, content, again)
    case Keep => (free, if sh.cache.entry.Some? then Serve(sh.cache) else FallingBack)
    case Retry => (free, if left == 0 then FallingBack else Reading(left - 1))
    case Install =>
      var c := Installed(sh.cache, content);
      (free.(cache := c, installs := sh.installs + 1), Serve(c))
  }

  /** The last known-good pair, else one self-signed identity generated under the lock. */
  function FallBack(sh: Shared, ok: bool): (Shared, Pc) {
    if sh.cache.entry.Some? then (sh, Serve(sh.cache))
    else if sh.cache.selfSigned.Some? then (sh, Served(SelfSigned(sh.cache.selfSigned.value)))
    else if !ok then (sh, Refused)
    else (sh.(cache := sh.cache.(selfSigned := Some(sh.made)), made := sh.made + 1), Served(SelfSigned(sh.made)))
  }

  predicate Parsed(pc: Pc) {
    (pc.Locking? || Holding(pc)) ==> pc.content.cert.Some?
  }

  /** One atomic step of handshake t; ok resolves a read or a key generation. */
  function Act(sh: Shared, t: nat, pc: Pc, ok: bool): (Shared, Pc)
    requires Parsed(pc)
  {
    match pc
    case Reading(left) =>
      var r := DiskRead(sh.log, ok);
      (sh, if r.Got? then Checking(left, r.content) else Missing)
    case Missing => (AfterMissing(sh), FallingBack)
    case Checking(left, content) =>
      (sh, if Hit(sh.cache, content) then Serve(sh.cache) else Parsing(left, content))
    case Parsing(left, content) => (sh, if content.cert.Some? then Locking(left, content) else Corrupt(content))
    case Locking(left, content) =>
      if Hit(sh.cache, content) then (sh, Serve(sh.cache))
      else (sh.(lock := Some(t)), Rereading(left, content))
    case Rereading(left, content) => (sh, Deciding(left, content, DiskRead(sh.log, ok)))
    case Deciding(left, content, again) => Decide(sh, left, content, again)
    case Corrupt(content) => (sh.(cache := NotedBad(sh.cache, content)), FallingBack)
    case FallingBack => FallBack(sh, ok)
    case Served(_) => (sh, pc)
    case Refused => (sh, pc)
  }

  function Next(s: State, e: Event): State {
    match e
    case Rotate(content) => s.(sh := s.sh.(log := s.sh.log + [content]))
    case Begin(t) =>
      if t in s.threads && !Over(s.threads[t]) then s
      else s.(threads := s.threads[t := if s.dir then Reading(1) else FallingBack])
    case Go(t, ok) =>
      if CanGo(s, t) && Parsed(s.threads[t]) then
        var r := Act(s.sh, t, s.threads[t], ok);
        s.(sh := r.0, threads := s.threads[t := r.1])
      else s
  }

  function Run(s: State, es: seq<Event>): State
    decreases |es|
  {
    if es == [] then s else Run(Next(s, es[0]), es[1..])
  }

  // ---- invariant over all interleavings ----

  /** The cached pair parsed from its own content, and that content was once on disk. */
  predicate Genuine(e: Entry, log: seq<Content>) {
    e.fingerprint in log && e.fingerprint.cert == Some(e.cert)
  }

  predicate SharedOk(sh: Shared) {
    && (sh.cache.entry.Some? ==> Genuine(sh.cache.entry.value, sh.log))
    && sh.cache.selfSigned == (if sh.made == 0 then None else Some(0))
    && sh.made <= 1
    && (sh.cache.entry.Some? <==> sh.installs > 0)
    && sh.missingLogs <= sh.installs + (if sh.cache.loggedMissing then 1 else 0)
  }

  predicate Carries(pc: Pc) {
    pc.Checking? || pc.Parsing? || pc.Locking? || pc.Rereading? || pc.Deciding? || pc.Corrupt?
  }

  predicate PcOk(pc: Pc, sh: Shared) {
    && (Carries(pc) ==> pc.content in sh.log)
    && Parsed(pc)
    && ((pc.Reading? || (Carries(pc) && !pc.Corrupt?)) ==> pc.left <= 1)
    && (pc.Served? && pc.identity.Service? ==> Genuine(pc.identity.entry, sh.log))
    && (pc.Served? && pc.identity.SelfSigned? ==> sh.cache.selfSigned == Some(pc.identity.id))
  }

  ghost predicate LockOk(s: State) {
    && (forall t :: t in s.threads && Holding(s.threads[t]) ==> s.sh.lock == Some(t))
    && (s.sh.lock.Some? ==> s.sh.lock.value in s.threads && Holding(s.threads[s.sh.lock.value]))
  }

  ghost predicate Inv(s: State) {
    SharedOk(s.sh) && LockOk(s) && forall t :: t in s.threads ==> PcOk(s.threads[t], s.sh)
  }

  predicate Grows(sh: Shared, r: Shared) {
    sh.log <= r.log && (sh.cache.selfSigned.Some? ==> r.cache.selfSigned == sh.cache.selfSigned)
  }

  lemma PcOkGrows(pc: Pc, sh: Shared, r: Shared)
    requires PcOk(pc, sh) && Grows(sh, r)
    ensures PcOk(pc, r)
  {
  }

  lemma DecideIsOk(sh: Shared, left: nat, content: Content, again: Read)
    requires SharedOk(sh) && content in sh.log && content.cert.Some? && left <= 1
    ensures var r := Decide(sh, left, content, again);
            SharedOk(r.0) && PcOk(r.1, r.0) && Grows(sh, r.0) && r.0.lock.None? && !Holding(r.1)
  {
  }

  lemma FallBackIsOk(sh: Shared, ok: bool)
    requires SharedOk(sh)
    ensures var r := FallBack(sh, ok);
            SharedOk(r.0) && PcOk(r.1, r.0) && Grows(sh, r.0) && r.0.lock == sh.lock && !Holding(r.1)
  {
  }

  lemma ActIsOk(sh: Shared, t: nat, pc: Pc, ok: bool)
    requires SharedOk(sh) && PcOk(pc, sh)
    ensures var r := Act(sh, t, pc, ok);
            && SharedOk(r.0) && PcOk(r.1, r.0) && Grows(sh, r.0)
            && r.0.lock == (if Holding(r.1) then (if pc.Locking? then Some(t) else sh.lock)
                            else if pc.Deciding? then None else sh.lock)
            && (Holding(r.1) ==> pc.Locking? || pc.Rereading?) && (pc.Rereading? ==> Holding(r.1))
  {
    hide Decide, FallBack;
    match pc
    case Deciding(left, content, again) => DecideIsOk(sh, left, content, again);
    case FallingBack => FallBackIsOk(sh, ok);
    case _ =>
  }

  lemma NextKeepsInv(s: State, e: Event)
    requires Inv(s)
    ensures Inv(Next(s, e)) && Grows(s.sh, Next(s, e).sh)
  {
    hide PcOk, SharedOk, Act;
    match e {
      case Rotate(content) => RotateIsOk(s.sh, content);
      case Begin(t) => StartIsOk(s.sh);
      case Go(t, ok) => if CanGo(s, t) { ActIsOk(s.sh, t, s.threads[t], ok); }
    }
    forall t | t in s.threads ensures PcOk(s.threads[t], Next(s, e).sh) {
      PcOkGrows(s.threads[t], s.sh, Next(s, e).sh);
    }
  }

  lemma RotateIsOk(sh: Shared, content: Content)
    requires SharedOk(sh)
    ensures SharedOk(sh.(log := sh.log + [content]))
  {
  }

  lemma StartIsOk(sh: Shared)
    ensures PcOk(Reading(1), sh) && PcOk(FallingBack, sh)
  {
  }

  /** The invariant holds of every interleaving. */
  lemma {:induction false} RunKeepsInv(s: State, es: seq<Event>)
    requires Inv(s)
    ensures Inv(Run(s, es))
    decreases |es|
  {
    hide Inv, Next;
    if es != [] {
      NextKeepsInv(s, es[0]);
      RunKeepsInv(Next(s, es[0]), es[1..]);
    }
  }

  // ---- what the invariant buys ----

  /**
    In every reachable state the cached pair is the parse of content that was on disk, every
    served service identity was too, and all self-signed answers are one identity.
  */
  lemma ServesOnlyGenuine(dir: bool, es: seq<Event>)
    ensures var s := Run(Init(dir), es);
            && (s.sh.cache.entry.Some? ==> Genuine(s.sh.cache.entry.value, s.sh.log))
            && s.sh.made <= 1
            && (forall t :: t in s.threads && s.threads[t].Served? ==>
                  match s.threads[t].identity
                  case Service(e) => Genuine(e, s.sh.log)
                  case SelfSigned(id) => id == 0 && s.sh.cache.selfSigned == Some(0))
  {
    hide Run;
    RunKeepsInv(Init(dir), es);
    var s := Run(Init(dir), es);
    forall t | t in s.threads && s.threads[t].Served?
      ensures match s.threads[t].identity
              case Service(e) => Genuine(e, s.sh.log)
              case SelfSigned(id) => id == 0 && s.sh.cache.selfSigned == Some(0)
    {
      assert PcOk(s.threads[t], s.sh);
    }
  }

  /** Unreadable-file logs: at most one per episode, an episode ending with an install. */
  lemma MissingLoggedOncePerEpisode(dir: bool, es: seq<Event>)
    ensures var s := Run(Init(dir), es);
            s.sh.missingLogs <= s.sh.installs + 1 && (s.sh.cache.entry.None? ==> s.sh.missingLogs <= 1)
  {
    hide Run;
    RunKeepsInv(Init(dir), es);
  }

  /** A handshake is handed the self-signed identity only at a moment when the cache is empty. */
  lemma SelfSignedOnlyWhenEmpty(s: State, e: Event, t: nat)
    requires Inv(s) && t in Next(s, e).threads
    requires Next(s, e).threads[t].Served? && Next(s, e).threads[t].identity.SelfSigned?
    ensures Next(s, e).sh.cache.entry.None? || (t in s.threads && s.threads[t] == Next(s, e).threads[t])
  {
    if e.Go? && e.t == t && CanGo(s, t) {
      assert PcOk(s.threads[t], s.sh);
    }
  }

  // ---- never back to empty, never back to an older rotation ----

  /** Every rotation writes content the files never held before. */
  ghost predicate Distinct(log: seq<Content>) {
    forall i, j :: 0 <= i < j < |log| ==> log[i] != log[j]
  }

  /** The rotation that wrote c, counted from the first. */
  ghost function Age(log: seq<Content>, c: Content): (i: nat)
    requires c in log
    ensures i < |log| && log[i] == c
  {
    var i: nat :| i < |log| && log[i] == c;
    i
  }

  lemma AgeIsStable(log: seq<Content>, more: seq<Content>, c: Content)
    requires c in log && log <= more && Distinct(more)
    ensures c in more && Age(more, c) == Age(log, c)
  {
    var i := Age(log, c);
    assert more[i] == c;
  }

  ghost predicate NoOlder(sh: Shared, e: Entry, c: Content) {
    e.fingerprint in sh.log && c in sh.log && Age(sh.log, e.fingerprint) <= Age(sh.log, c)
  }

  /** A parse the disk still held at the re-read is no older than the cached pair. */
  ghost predicate Ahead(pc: Pc, sh: Shared) {
    pc.Deciding? && pc.again == Got(pc.content) && sh.cache.entry.Some? ==>
      NoOlder(sh, sh.cache.entry.value, pc.content)
  }

  ghost predicate AllAhead(s: State) {
    forall t :: t in s.threads ==> Ahead(s.threads[t], s.sh)
  }

  /** The cached rotation did not move back, and the cache did not empty. */
  ghost predicate Forward(sh: Shared, r: Shared) {
    sh.cache.entry.Some? ==>
      r.cache.entry.Some? && NoOlder(r, sh.cache.entry.value, r.cache.entry.value.fingerprint)
  }

  lemma LastIsNewest(log: seq<Content>, c: Content)
    requires Distinct(log) && c in log
    ensures log[|log| - 1] in log && Age(log, c) <= Age(log, log[|log| - 1])
  {
    assert log[|log| - 1] in log;
  }

  /** The cache changes only at the end of an install section, to the content decided there. */
  lemma EntryChanges(sh: Shared, t: nat, pc: Pc, ok: bool)
    requires Parsed(pc)
    ensures var r := Act(sh, t, pc, ok);
            && r.0.log == sh.log
            && (r.0.cache.entry != sh.cache.entry ==>
                  && pc.Deciding? && r.0.cache.entry.Some? && r.0.cache.entry.value.fingerprint == pc.content
                  && (pc.again == Got(pc.content) || sh.cache.entry.None?))
            && (r.1.Deciding? ==> pc.Rereading? && r.1.content == pc.content && r.1.again == DiskRead(sh.log, ok))
  {
  }

  lemma GoMovesForward(s: State, t: nat, ok: bool)
    requires Inv(s) && AllAhead(s) && Distinct(s.sh.log) && CanGo(s, t)
    ensures Forward(s.sh, Next(s, Go(t, ok)).sh) && AllAhead(Next(s, Go(t, ok)))
  {
    hide Act, Distinct;
    var pc := s.threads[t];
    assert PcOk(pc, s.sh) && Ahead(pc, s.sh);
    var r := Next(s, Go(t, ok));
    EntryChanges(s.sh, t, pc, ok);
    if s.sh.cache.entry.Some? && pc.Rereading? && s.sh.log != [] {
      LastIsNewest(s.sh.log, s.sh.cache.entry.value.fingerprint);
    }
    forall u | u in r.threads ensures Ahead(r.threads[u], r.sh) {
      if u != t { assert Ahead(s.threads[u], s.sh); }
    }
  }

  lemma RotateMovesForward(s: State, content: Content)
    requires Inv(s) && AllAhead(s) && Distinct(s.sh.log + [content])
    ensures Forward(s.sh, Next(s, Rotate(content)).sh) && AllAhead(Next(s, Rotate(content)))
  {
    hide Act, Distinct;
    var r := Next(s, Rotate(content));
    forall c | c in s.sh.log ensures c in r.sh.log && Age(r.sh.log, c) == Age(s.sh.log, c) {
      AgeIsStable(s.sh.log, r.sh.log, c);
    }
    forall u | u in r.threads ensures Ahead(r.threads[u], r.sh) {
      assert Ahead(s.threads[u], s.sh);
    }
  }

  lemma PrefixDistinct(log: seq<Content>, more: seq<Content>)
    requires log <= more && Distinct(more)
    ensures Distinct(log)
  {
  }

  lemma NextMovesForward(s: State, e: Event)
    requires Inv(s) && AllAhead(s) && Distinct(Next(s, e).sh.log)
    ensures Forward(s.sh, Next(s, e).sh) && AllAhead(Next(s, e))
  {
    hide Act, Distinct, Inv;
    NextGrows(s, e);
    PrefixDistinct(s.sh.log, Next(s, e).sh.log);
    match e {
      case Rotate(content) => RotateMovesForward(s, content);
      case Begin(t) =>
        GenuineInLog(s);
        forall u | u in Next(s, e).threads && u != t ensures Ahead(Next(s, e).threads[u], s.sh) {
          assert Ahead(s.threads[u], s.sh);
        }
      case Go(t, ok) =>
        GenuineInLog(s);
        if CanGo(s, t) { GoMovesForward(s, t, ok); }
    }
  }

  lemma NextGrows(s: State, e: Event)
    requires Inv(s)
    ensures s.sh.log <= Next(s, e).sh.log
  {
    NextKeepsInv(s, e);
  }

  lemma GenuineInLog(s: State)
    requires Inv(s)
    ensures s.sh.cache.entry.Some? ==> s.sh.cache.entry.value.fingerprint in s.sh.log
  {
  }

  lemma {:induction false} LogGrows(s: State, es: seq<Event>)
    requires Inv(s)
    ensures s.sh.log <= Run(s, es).sh.log
    decreases |es|
  {
    hide Inv, Next;
    if es != [] {
      NextGrows(s, es[0]);
      NextKeepsInv(s, es[0]);
      LogGrows(Next(s, es[0]), es[1..]);
    }
  }

  lemma ForwardTwice(a: Shared, b: Shared, c: Shared)
    requires Forward(a, b) && Forward(b, c) && b.log <= c.log && Distinct(c.log)
    ensures Forward(a, c)
  {
    if a.cache.entry.Some? {
      AgeIsStable(b.log, c.log, a.cache.entry.value.fingerprint);
      AgeIsStable(b.log, c.log, b.cache.entry.value.fingerprint);
    }
  }

  /**
    While every rotation writes new content, no interleaving empties the cache or moves it back
    to an older rotation, however long a stale parse was in flight.
  */
  lemma {:induction false} NeverOlder(s: State, es: seq<Event>)
    requires Inv(s) && AllAhead(s) && Distinct(Run(s, es).sh.log)
    ensures Forward(s.sh, Run(s, es).sh) && AllAhead(Run(s, es))
    decreases |es|
  {
    hide Inv, Next, AllAhead, Distinct, Forward;
    if es == [] {
      ForwardSelf(s);
    } else {
      var r := Next(s, es[0]);
      NextKeepsInv(s, es[0]);
      LogGrows(r, es[1..]);
      PrefixDistinct(r.sh.log, Run(s, es).sh.log);
      NextMovesForward(s, es[0]);
      NeverOlder(r, es[1..]);
      ForwardTwice(s.sh, r.sh, Run(s, es).sh);
    }
  }

  lemma ForwardSelf(s: State)
    requires Inv(s)
    ensures Forward(s.sh, s.sh)
  {
  }

  /** Between any two moments of a run that starts with nothing cached. */
  lemma CacheOnlyMovesForward(dir: bool, before: seq<Event>, after: seq<Event>)
    requires Distinct(Run(Run(Init(dir), before), after).sh.log)
    ensures Forward(Run(Init(dir), before).sh, Run(Run(Init(dir), before), after).sh)
  {
    hide Run, Distinct, Forward;
    var mid := Run(Init(dir), before);
    RunKeepsInv(Init(dir), before);
    LogGrows(mid, after);
    PrefixDistinct(mid.sh.log, Run(mid, after).sh.log);
    NeverOlder(Init(dir), before);
    NeverOlder(mid, after);
  }

  // ---- an undisturbed handshake is current, and every handshake ends ----

  /** The files hold c, whole and parseable, from the handshake's start on. */
  predicate Current(s: State, c: Content) {
    s.sh.log != [] && s.sh.log[|s.sh.log| - 1] == c && c.cert.Some?
  }

  predicate OnTrack(pc: Pc, c: Content) {
    match pc
    case Reading(_) => true
    case Checking(_, content) => content == c
    case Parsing(_, content) => content == c
    case Locking(_, content) => content == c
    case Rereading(_, content) => content == c
    case Deciding(_, content, again) => content == c && again == Got(c)
    case Served(identity) => c.cert.Some? && identity == Service(Entry(c.cert.value, c))
    case _ => false
  }

  lemma ActStaysOnTrack(sh: Shared, t: nat, pc: Pc, c: Content)
    requires SharedOk(sh) && sh.log != [] && sh.log[|sh.log| - 1] == c && c.cert.Some? && OnTrack(pc, c)
    ensures Parsed(pc) && OnTrack(Act(sh, t, pc, true).1, c)
  {
  }

  /**
    While no rotation happens and its own reads succeed, handshake t stays on the way to serving
    exactly the pair on disk, whatever other handshakes with stale parses do in between.
  */
  lemma {:induction false} UndisturbedIsCurrent(s: State, t: nat, c: Content, es: seq<Event>)
    requires Inv(s) && Current(s, c) && t in s.threads && OnTrack(s.threads[t], c)
    requires forall e :: e in es ==> !e.Rotate? && e != Begin(t) && e != Go(t, false)
    ensures t in Run(s, es).threads && OnTrack(Run(s, es).threads[t], c)
    decreases |es|
  {
    hide Inv, Act, OnTrack, SharedOk;
    if es != [] {
      var e := es[0];
      assert e in es;
      NextKeepsInv(s, e);
      TrackedStep(s, t, c, e);
      assert forall e' :: e' in es[1..] ==> e' in es;
      UndisturbedIsCurrent(Next(s, e), t, c, es[1..]);
    }
  }

  lemma TrackedStep(s: State, t: nat, c: Content, e: Event)
    requires Inv(s) && Current(s, c) && t in s.threads && OnTrack(s.threads[t], c)
    requires !e.Rotate? && e != Begin(t) && e != Go(t, false)
    ensures var r := Next(s, e); Current(r, c) && t in r.threads && OnTrack(r.threads[t], c)
  {
    hide Act, OnTrack;
    match e
    case Begin(u) =>
    case Go(u, ok) =>
      if CanGo(s, u) {
        assert PcOk(s.threads[u], s.sh);
        EntryChanges(s.sh, u, s.threads[u], ok);
        if u == t { ActStaysOnTrack(s.sh, t, s.threads[t], c); }
      }
  }

  /** A read of the cached pair's own content is answered from the cache, without parsing or installing again. */
  lemma CachedIsServed(s: State, t: nat)
    requires CanGo(s, t) && s.threads[t].Checking? && s.sh.cache.entry.Some?
    requires s.sh.cache.entry.value.fingerprint == s.threads[t].content
    ensures var r := Next(s, Go(t, true));
      r.threads[t] == Served(Service(s.sh.cache.entry.value)) && r.sh == s.sh
  {
  }

  /**
    What each step logs: missing files once until the next install, which clears both flags; a
    corrupt pair is remembered by its content; no other step touches a flag.
  */
  lemma LogsExactly(s: State, e: Event)
    requires Inv(s)
    ensures var c, d := s.sh.cache, Next(s, e).sh.cache;
      var goes := e.Go? && CanGo(s, e.t);
      var installs := Next(s, e).sh.installs > s.sh.installs;
      && (goes && s.threads[e.t].Missing? ==>
            d.loggedMissing && Next(s, e).sh.missingLogs == s.sh.missingLogs + (if c.loggedMissing then 0 else 1))
      && (goes && s.threads[e.t].Corrupt? ==> d.loggedBad && d.badFingerprint == Some(s.threads[e.t].content))
      && (installs ==> !d.loggedMissing && !d.loggedBad)
      && (!(goes && s.threads[e.t].Missing?) && !installs ==>
            d.loggedMissing == c.loggedMissing && Next(s, e).sh.missingLogs == s.sh.missingLogs)
      && (!(goes && s.threads[e.t].Corrupt?) && !installs ==>
            d.loggedBad == c.loggedBad && d.badFingerprint == c.badFingerprint)
  {
    if e.Go? && CanGo(s, e.t) { assert PcOk(s.threads[e.t], s.sh); }
  }

  /** Steps a handshake can still take: at most two reads and two parses. */
  function Rank(pc: Pc): nat {
    match pc
    case Reading(left) => 6 * left + 8
    case Checking(left, _) => 6 * left + 7
    case Parsing(left, _) => 6 * left + 6
    case Locking(left, _) => 6 * left + 5
    case Rereading(left, _) => 6 * left + 4
    case Deciding(left, _, _) => 6 * left + 3
    case Missing => 2
    case Corrupt(_) => 2
    case FallingBack => 1
    case Served(_) => 0
    case Refused => 0
  }

  /** Every step a handshake takes brings it closer to an answer, at most fourteen in all. */
  lemma EveryStepProgresses(s: State, t: nat, ok: bool)
    requires Inv(s) && CanGo(s, t)
    ensures Rank(Next(s, Go(t, ok)).threads[t]) < Rank(s.threads[t]) <= 14
  {
    assert PcOk(s.threads[t], s.sh);
  }

  /** No deadlock: a handshake that cannot move waits for one that can. */
  lemma SomeoneCanGo(s: State, t: nat)
    requires Inv(s) && t in s.threads && !Over(s.threads[t])
    ensures CanGo(s, t) || (s.sh.lock.Some? && CanGo(s, s.sh.lock.value))
  {
  }
}

/** The provider object: its guarded fields, its critical sections, and one call from start to answer. */
module MetricsCertProvider {
  import opened Options
  import opened MetricsCert

  /**
    What happens around one step of a call: what other handshakes and rotations do to the shared
    state before it, and whether its own read or key generation works.
  */
  datatype Io = Io(others: Shared -> Shared, ok: bool)

  /** The transition system's steps for one handshake, up to its answer. */
  function Finish(sh: Shared, t: nat, pc: Pc, ios: seq<Io>): (Shared, Pc)
    decreases |ios|
  {
    if Over(pc) || !Parsed(pc) || ios == [] then (sh, pc)
    else
      var r := Act(ios[0].others(sh), t, pc, ios[0].ok);
      Finish(r.0, t, r.1, ios[1..])
  }

  lemma FinishStep(sh: Shared, t: nat, pc: Pc, ios: seq<Io>, k: nat)
    requires k < |ios| && !Over(pc) && Parsed(pc)
    ensures var r := Act(ios[k].others(sh), t, pc, ios[k].ok);
            Finish(sh, t, pc, ios[k..]) == Finish(r.0, t, r.1, ios[k + 1..])
  {
    hide Act;
    assert ios[k..][0] == ios[k] && ios[k..][1..] == ios[k + 1..];
  }

  lemma Finished(sh: Shared, t: nat, pc: Pc, ios: seq<Io>)
    requires Over(pc)
    ensures Finish(sh, t, pc, ios) == (sh, pc)
  {
  }

  class Provider {
    const certDir: bool
    /** The mounted files' contents over time; reads see the last. */
    var disk: seq<Content>
    var mu: Option<nat>
    var cert: Option<Entry>
    var selfSigned: Option<nat>
    var loggedBad: bool
    var badFingerprint: Option<Content>
    var loggedMissing: bool
    var made: nat
    var installs: nat
    var missingLogs: nat

    function Sh(): Shared
      reads this
    {
      Shared(disk, Cache(cert, selfSigned, loggedBad, badFingerprint, loggedMissing), mu, made, installs, missingLogs)
    }

    constructor (dir: bool)
      ensures certDir == dir && Sh() == FRESH
    {
      certDir := dir;
      disk, mu, cert, selfSigned, made, installs, missingLogs := [], None, None, None, 0, 0, 0;
      loggedBad, badFingerprint, loggedMissing := false, None, false;
    }

    /** The others' turn: whatever they leave of the shared state. */
    method Yield(io: Io)
      modifies this
      ensures Sh() == io.others(old(Sh()))
    {
      var sh := io.others(Sh());
      disk, mu, made, installs, missingLogs := sh.log, sh.lock, sh.made, sh.installs, sh.missingLogs;
      cert, selfSigned := sh.cache.entry, sh.cache.selfSigned;
      loggedBad, badFingerprint, loggedMissing := sh.cache.loggedBad, sh.cache.badFingerprint, sh.cache.loggedMissing;
    }

    method LoadCertPair(io: Io) returns (r: Read)
      modifies this
      ensures Sh() == io.others(old(Sh())) && r == DiskRead(disk, io.ok)
    {
      Yield(io);
      r := DiskRead(disk, io.ok);
    }

    method LogMissingOnce(t: nat, io: Io)
      modifies this
      ensures (Sh(), FallingBack) == Act(io.others(old(Sh())), t, Missing, io.ok)
    {
      Yield(io);
      if loggedMissing { return; }
      loggedMissing := true;
      missingLogs := missingLogs + 1;
    }

    method CacheHit(t: nat, left: nat, fingerprint: Content, io: Io) returns (c: Option<Entry>)
      modifies this
      ensures Act(io.others(old(Sh())), t, Checking(left, fingerprint), io.ok)
           == (Sh(), if c.Some? then Served(Service(c.value)) else Parsing(left, fingerprint))
    {
      Yield(io);
      if cert.Some? && cert.value.fingerprint == fingerprint { c := cert; } else { c := None; }
    }

    /** Takes the mutex unless the same content was published in the meantime. */
    method LockForInstall(t: nat, left: nat, pair: Content, io: Io) returns (c: Option<Entry>)
      requires pair.cert.Some?
      modifies this
      ensures Act(io.others(old(Sh())), t, Locking(left, pair), io.ok)
           == (Sh(), if c.Some? then Served(Service(c.value)) else Rereading(left, pair))
    {
      Yield(io);
      if cert.Some? && cert.value.fingerprint == pair {
        c := cert;
      } else {
        mu := Some(t);
        c := None;
      }
    }

    /** The stale-parse guard after the re-read, and the install; always releases the mutex. */
    method InstallOrKeep(t: nat, left: nat, pair: Content, again: Read, io: Io) returns (c: Option<Entry>)
      requires pair.cert.Some?
      modifies this
      ensures Act(io.others(old(Sh())), t, Deciding(left, pair, again), io.ok)
           == (Sh(), if c.Some? then Served(Service(c.value)) else if left == 0 then FallingBack else Reading(left - 1))
    {
      Yield(io);
      mu := None;
      if again.Unreadable? || again.content != pair {
        if cert.Some? { return cert; }
        if again.Got? { return None; }
      }
      cert := Some(Entry(pair.cert.value, pair));
      loggedBad := false;
      loggedMissing := false;
      installs := installs + 1;
      c := cert;
    }

    method LogBadOnce(t: nat, fingerprint: Content, io: Io)
      modifies this
      ensures (Sh(), FallingBack) == Act(io.others(old(Sh())), t, Corrupt(fingerprint), io.ok)
    {
      Yield(io);
      if !loggedBad || badFingerprint != Some(fingerprint) {
        loggedBad := true;
        badFingerprint := Some(fingerprint);
      }
    }

    method LastKnownGood(t: nat, io: Io) returns (answer: Pc)
      modifies this
      ensures (Sh(), answer) == Act(io.others(old(Sh())), t, FallingBack, io.ok) && Over(answer)
    {
      Yield(io);
      if cert.Some? { return Served(Service(cert.value)); }
      if selfSigned.Some? { return Served(SelfSigned(selfSigned.value)); }
      if !io.ok { return Refused; }
      selfSigned := Some(made);
      made := made + 1;
      answer := Served(SelfSigned(selfSigned.value));
    }

    /** Reads the pair and looks in the cache. */
    method ReadAndCheck(t: nat, left: nat, ios: seq<Io>, k: nat) returns (pc: Pc, used: nat)
      requires k + 6 < |ios|
      modifies this
      ensures used <= |ios| && Finish(Sh(), t, pc, ios[used..]) == Finish(old(Sh()), t, Reading(left), ios[k..])
      ensures used == k + 2 && ((pc.Served?) || pc == FallingBack || (pc.Parsing? && pc.left == left))
    {
      hide Act, Finish;
      FinishStep(Sh(), t, Reading(left), ios, k);
      ReadStep(Sh(), t, left, ios[k]);
      var r := LoadCertPair(ios[k]);
      used := k + 2;
      if r.Unreadable? {
        FinishStep(Sh(), t, Missing, ios, k + 1);
        LogMissingOnce(t, ios[k + 1]);
        return FallingBack, used;
      }
      FinishStep(Sh(), t, Checking(left, r.content), ios, k + 1);
      var c := CacheHit(t, left, r.content, ios[k + 1]);
      pc := if c.Some? then Served(Service(c.value)) else Parsing(left, r.content);
    }

    /** Parses outside the mutex; a corrupt pair is logged once per content. */
    method Parse(t: nat, left: nat, pair: Content, ios: seq<Io>, k: nat) returns (pc: Pc, used: nat)
      requires k + 4 < |ios|
      modifies this
      ensures used <= |ios| && Finish(Sh(), t, pc, ios[used..]) == Finish(old(Sh()), t, Parsing(left, pair), ios[k..])
      ensures (pc == Locking(left, pair) && pair.cert.Some? && used == k + 1) || (pc == FallingBack && used == k + 2)
    {
      hide Act, Finish;
      FinishStep(Sh(), t, Parsing(left, pair), ios, k);
      ParseStep(Sh(), t, left, pair, ios[k]);
      Yield(ios[k]);
      if pair.cert.Some? { return Locking(left, pair), k + 1; }
      FinishStep(Sh(), t, Corrupt(pair), ios, k + 1);
      LogBadOnce(t, pair, ios[k + 1]);
      return FallingBack, k + 2;
    }

    /** The install section under the mutex: published already, still on disk, or moved on. */
    method Publish(t: nat, left: nat, pair: Content, ios: seq<Io>, k: nat) returns (pc: Pc, used: nat)
      requires k + 3 < |ios| && pair.cert.Some?
      modifies this
      ensures used <= |ios| && Finish(Sh(), t, pc, ios[used..]) == Finish(old(Sh()), t, Locking(left, pair), ios[k..])
      ensures (pc.Served? && used <= k + 3)
           || (pc == (if left == 0 then FallingBack else Reading(left - 1)) && used == k + 3)
    {
      hide Act, Finish;
      FinishStep(Sh(), t, Locking(left, pair), ios, k);
      var c := LockForInstall(t, left, pair, ios[k]);
      if c.Some? { return Served(Service(c.value)), k + 1; }
      FinishStep(Sh(), t, Rereading(left, pair), ios, k + 1);
      RereadStep(Sh(), t, left, pair, ios[k + 1]);
      var again := LoadCertPair(ios[k + 1]);
      FinishStep(Sh(), t, Deciding(left, pair, again), ios, k + 2);
      c := InstallOrKeep(t, left, pair, again, ios[k + 2]);
      used := k + 3;
      pc := if c.Some? then Served(Service(c.value)) else if left == 0 then FallingBack else Reading(left - 1);
    }

    /** One call: at most two attempts, then the fallback. ios[k] surrounds its k-th step. */
    method GetCertificate(t: nat, ios: seq<Io>) returns (answer: Pc)
      requires |ios| >= 14
      modifies this
      ensures (Sh(), answer) == Finish(old(Sh()), t, if certDir then Reading(1) else FallingBack, ios)
      ensures Over(answer)
    {
      hide Act, Finish;
      var k: nat, left: nat := 0, 2;
      var pc := if certDir then Reading(1) else FallingBack;
      assert ios[0..] == ios;
      while left > 0 && certDir
        invariant left <= 2 && k + 6 * left <= 12
        invariant pc == if left > 0 && certDir then Reading(left - 1) else FallingBack
        invariant Finish(Sh(), t, pc, ios[k..])
               == Finish(old(Sh()), t, if certDir then Reading(1) else FallingBack, ios)
        decreases left
      {
        left := left - 1;
        pc, k := ReadAndCheck(t, left, ios, k);
        if pc.Parsing? { pc, k := Parse(t, left, pc.content, ios, k); }
        if pc.Locking? { pc, k := Publish(t, left, pc.content, ios, k); }
        if pc.Served? {
          Finished(Sh(), t, pc, ios[k..]);
          return pc;
        }
        if pc == FallingBack { break; }
      }
      FinishStep(Sh(), t, FallingBack, ios, k);
      answer := LastKnownGood(t, ios[k]);
      Finished(Sh(), t, answer, ios[k + 1..]);
    }
  }

  function AfterRead(left: nat, r: Read): Pc {
    if r.Got? then Checking(left, r.content) else Missing
  }

  lemma ReadStep(sh: Shared, t: nat, left: nat, io: Io)
    ensures Act(io.others(sh), t, Reading(left), io.ok)
         == (io.others(sh), AfterRead(left, DiskRead(io.others(sh).log, io.ok)))
  {
  }

  lemma RereadStep(sh: Shared, t: nat, left: nat, content: Content, io: Io)
    requires content.cert.Some?
    ensures Act(io.others(sh), t, Rereading(left, content), io.ok)
         == (io.others(sh), Deciding(left, content, DiskRead(io.others(sh).log, io.ok)))
  {
  }

  lemma ParseStep(sh: Shared, t: nat, left: nat, content: Content, io: Io)
    ensures Act(io.others(sh), t, Parsing(left, content), io.ok)
         == (io.others(sh), if content.cert.Some? then Locking(left, content) else Corrupt(content))
  {
  }

  // ---- a call among others ----

  /** One turn: events of others, then a step of the handshake. */
  datatype Turn = Turn(others: seq<Event>, ok: bool)

  predicate Concerns(e: Event, t: nat) {
    (e.Begin? || e.Go?) && e.t == t
  }

  /** Others act first and the handshake's step is possible, turn after turn until it has its answer. */
  ghost predicate Scheduled(s: State, t: nat, turns: seq<Turn>)
    decreases |turns|
  {
    t in s.threads && (turns == [] || Over(s.threads[t]) ||
      (var s1 := Run(s, turns[0].others);
       && (forall e :: e in turns[0].others ==> !Concerns(e, t))
       && CanGo(s1, t) && Scheduled(Next(s1, Go(t, turns[0].ok)), t, turns[1..])))
  }

  /** The transition system over the turns, up to the handshake's answer. */
  function Play(s: State, t: nat, turns: seq<Turn>): State
    decreases |turns|
  {
    if turns == [] || t !in s.threads || Over(s.threads[t]) then s
    else Play(Next(Run(s, turns[0].others), Go(t, turns[0].ok)), t, turns[1..])
  }

  /** The same turns as a call meets them. */
  ghost function Met(s: State, t: nat, turns: seq<Turn>): (ios: seq<Io>)
    ensures |ios| == |turns|
    decreases |turns|
  {
    if turns == [] then []
    else
      var s1 := Run(s, turns[0].others);
      [Io((sh: Shared) => s1.sh, turns[0].ok)] + Met(Next(s1, Go(t, turns[0].ok)), t, turns[1..])
  }

  lemma {:induction false} OthersLeaveMe(s: State, t: nat, es: seq<Event>)
    requires t in s.threads && forall e :: e in es ==> !Concerns(e, t)
    ensures t in Run(s, es).threads && Run(s, es).threads[t] == s.threads[t]
    decreases |es|
  {
    hide Act;
    if es != [] {
      assert !Concerns(es[0], t);
      OthersLeaveMe(Next(s, es[0]), t, es[1..]);
    }
  }

  /** Among any other handshakes and rotations, a call's steps are the transition system's. */
  lemma {:induction false} CallIsInterleaved(s: State, t: nat, turns: seq<Turn>)
    requires Inv(s) && Scheduled(s, t, turns)
    ensures var r := Play(s, t, turns);
      t in r.threads && Finish(s.sh, t, s.threads[t], Met(s, t, turns)) == (r.sh, r.threads[t])
    decreases |turns|
  {
    hide Act, Inv;
    if turns != [] && !Over(s.threads[t]) {
      var s1 := Run(s, turns[0].others);
      RunKeepsInv(s, turns[0].others);
      OthersLeaveMe(s, t, turns[0].others);
      ThreadParsed(s1, t);
      var s2 := Next(s1, Go(t, turns[0].ok));
      NextKeepsInv(s1, Go(t, turns[0].ok));
      var ios := Met(s, t, turns);
      assert ios[0].others(s.sh) == s1.sh && ios[1..] == Met(s2, t, turns[1..]);
      CallIsInterleaved(s2, t, turns[1..]);
    }
  }

  lemma ThreadParsed(s: State, t: nat)
    requires Inv(s) && t in s.threads
    ensures Parsed(s.threads[t])
  {
    assert PcOk(s.threads[t], s.sh);
  }

  lemma {:induction false} RunAppend(s: State, a: seq<Event>, b: seq<Event>)
    ensures Run(s, a + b) == Run(Run(s, a), b)
    decreases |a|
  {
    hide Next;
    if a == [] {
      assert a + b == b;
    } else {
      assert (a + b)[0] == a[0] && (a + b)[1..] == a[1..] + b;
      RunAppend(Next(s, a[0]), a[1..], b);
    }
  }

  /** Playing the turns is a run of the transition system. */
  lemma {:induction false} PlayIsRun(s: State, t: nat, turns: seq<Turn>) returns (es: seq<Event>)
    ensures Play(s, t, turns) == Run(s, es)
    decreases |turns|
  {
    hide Next;
    es := [];
    if turns != [] && t in s.threads && !Over(s.threads[t]) {
      var s1 := Run(s, turns[0].others);
      var go := Go(t, turns[0].ok);
      var rest := PlayIsRun(Next(s1, go), t, turns[1..]);
      es := turns[0].others + ([go] + rest);
      RunAppend(s, turns[0].others, [go] + rest);
      assert ([go] + rest)[0] == go && ([go] + rest)[1..] == rest;
    }
  }

  /** Whatever others do meanwhile, a call answers with a pair that was on disk or the one self-signed identity. */
  lemma CallAnswersGenuine(dir: bool, before: seq<Event>, t: nat, turns: seq<Turn>)
    requires Scheduled(Run(Init(dir), before), t, turns)
    ensures var s := Run(Init(dir), before);
      var (sh, pc) := Finish(s.sh, t, s.threads[t], Met(s, t, turns));
      pc.Served? ==>
        match pc.identity
        case Service(e) => Genuine(e, sh.log)
        case SelfSigned(id) => id == 0
  {
    hide Run, Act;
    var s := Run(Init(dir), before);
    RunKeepsInv(Init(dir), before);
    CallIsInterleaved(s, t, turns);
    var es := PlayIsRun(s, t, turns);
    RunAppend(Init(dir), before, es);
    ServesOnlyGenuine(dir, before + es);
  }
}
