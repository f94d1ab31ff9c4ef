// The lifecycle coordinator as a function of values: one staged transaction over the mirrors, and one
// apply call (runtime/core/src/lifecycle.cpp).
//
// Mirror callbacks and the clock belong to the environment.  An `Env` gives the answer of each
// callback (a callback runs at most once per transaction) and the tick of each clock read.
module LifecycleCore {

  datatype State = Absent | Present | Online | Quiescing | Draining | Resetting | Lost
  datatype Operation = Add | Remove | Reset | TransportLoss | Recover | UnknownOperation
  datatype Source = Admin | Memfd | Cdev | VfioUser | Qmp | Disconnect | Restart | UnknownSource
  datatype Result =
    | Accepted | Duplicate | Stale | Conflict | Invalid | ResourceExhausted | CallbackRejected | DeviceLost | Timeout
  datatype Resolution = IsOnline | IsLost | IsAbsent | IsUnknown
  datatype Kind = MemfdMirror | CdevMirror | VfioUserMirror | UnknownMirror
  datatype Stage = Prepare | Quiesce | Drain | Commit | Abort | PublishLost

  const MAX_MIRRORS := 3
  const REQUEST_CAPACITY := 4096
  const TOMBSTONE_CAPACITY := 2048

  datatype Request = Request(id: nat, device: nat, incarnation: nat, identity: nat, generation: nat, epoch: nat,
                             deadline: nat, source: Source, operation: Operation)
  /** A mirror; `calls` are its non-null callbacks. */
  datatype Mirror = Mirror(kind: Kind, name: string, context: nat, calls: set<Stage>)
  datatype Candidate = Candidate(generation: nat, identity: nat)
  datatype Tombstone = Tombstone(generation: nat, identity: nat, epoch: nat)
  datatype Record = Record(request: Request, result: Result, candidate: Candidate)

  datatype Config = Config(device: nat, incarnation: nat, identity: nat, generation: nat, epoch: nat, state: State,
                           identityTerminal: nat, generationTerminal: nat, epochTerminal: nat, hasClock: bool)

  /** The coordinator's authority. */
  datatype Core = Core(state: State, identity: nat, generation: nat, epoch: nat, identityHigh: nat, generationHigh: nat,
                       tombstones: seq<Tombstone>, records: seq<Record>)

  datatype Env = Env(answers: (nat, Stage) -> bool, clock: nat -> nat)

  /** One callback made: which mirror, which stage, and the state the event announces. */
  datatype Event = Event(mirror: nat, stage: Stage, announced: State)

  /** What a transaction has done so far; `ticks` counts clock reads. */
  datatype Progress = Progress(touched: set<nat>, committed: set<nat>, timedOut: bool, ticks: nat, log: seq<Event>)

  const NO_CANDIDATE := Candidate(0, 0)

  predicate ValidConfig(c: Config) {
    && c.identityTerminal > 1 && c.generationTerminal > 1 && c.epochTerminal > 1
    && c.device != 0 && c.incarnation != 0 && 0 < c.epoch < c.epochTerminal
    && (if c.state.Absent? then c.generation == 0 && c.identity == 0
        else 0 < c.generation < c.generationTerminal && 0 < c.identity < c.identityTerminal)
  }

  function InitialCore(c: Config): Core {
    Core(c.state, c.identity, c.generation, c.epoch, c.identity, c.generation, [], [])
  }

  // ---- The staged protocol ----

  function Announced(operation: Operation, target: State, stage: Stage): State {
    match stage
    case Abort => target
    case PublishLost => Lost
    case _ =>
      match operation
      case Add =>
        (match stage case Prepare => Present case Quiesce => Quiescing case Drain => Draining case _ => Online)
      case Remove => (match stage case Prepare => Quiescing case Quiesce => Draining case _ => Absent)
      case Reset =>
        (match stage case Prepare => Quiescing case Quiesce => Draining case Drain => Resetting case _ => Online)
      case Recover =>
        (match stage case Prepare => Quiescing case Quiesce => Draining case Drain => Resetting case _ => Online)
      case _ => target
  }

  /** What stays fixed during a transaction. */
  datatype Job = Job(mirrors: seq<Mirror>, operation: Operation, target: State, timed: bool, deadline: nat)

  function EventOf(job: Job, i: nat, stage: Stage): Event {
    Event(i, stage, Announced(job.operation, job.target, stage))
  }

  predicate Expired(job: Job, env: Env, p: Progress) {
    job.timed && env.clock(p.ticks) >= job.deadline
  }

  function Ticked(job: Job, p: Progress): Progress {
    if job.timed then p.(ticks := p.ticks + 1) else p
  }

  /** One stage over the mirrors from index i on; false when a callback refused or time ran out. */
  function InvokeFrom(job: Job, env: Env, stage: Stage, p: Progress, i: nat): (Progress, bool)
    requires i <= |job.mirrors|
    decreases |job.mirrors| - i
  {
    if i == |job.mirrors| then (p, true)
    else if Expired(job, env, p) then (Ticked(job, p).(timedOut := true), false)
    else
      var q := Ticked(job, p);
      if stage !in job.mirrors[i].calls then InvokeFrom(job, env, stage, q, i + 1)
      else
        var r := q.(touched := q.touched + {i}, log := q.log + [EventOf(job, i, stage)]);
        if !env.answers(i, stage) then (r, false)
        else InvokeFrom(job, env, stage, if stage.Commit? then r.(committed := r.committed + {i}) else r, i + 1)
  }

  /** Callbacks of one kind to the mirrors below n that `chosen` selects. */
  function Calls(job: Job, stage: Stage, chosen: nat -> bool, n: nat): seq<Event>
    requires n <= |job.mirrors|
  {
    if n == 0 then []
    else
      Calls(job, stage, chosen, n - 1)
      + if chosen(n - 1) && stage in job.mirrors[n - 1].calls then [EventOf(job, n - 1, stage)] else []
  }

  function Aborted(job: Job, p: Progress): Progress {
    p.(log := p.log + Calls(job, Abort, i => i in p.touched && i !in p.committed, |job.mirrors|))
  }

  function LostPublished(job: Job, p: Progress): Progress {
    p.(log := p.log + Calls(job, PublishLost, _ => true, |job.mirrors|))
  }

  /** How the four stages end: all done, stopped with no commit, or stopped after some commit. */
  datatype Ending = Completed | Stopped | Torn

  function EndingOf(p: Progress): Ending { if p.committed == {} then Stopped else Torn }

  /** Prepare, quiesce, drain, commit; each stage starts only when the one before went through. */
  function Forward(job: Job, env: Env, p: Progress): (Progress, Ending) {
    var (p1, ok1) := InvokeFrom(job, env, Prepare, p, 0);
    if !ok1 then (p1, Stopped) else
    var (p2, ok2) := InvokeFrom(job, env, Quiesce, p1, 0);
    if !ok2 then (p2, Stopped) else
    var (p3, ok3) := InvokeFrom(job, env, Drain, p2, 0);
    if !ok3 then (p3, Stopped) else
    var (p4, ok4) := InvokeFrom(job, env, Commit, p3, 0);
    (p4, if ok4 then Completed else EndingOf(p4))
  }

  function Refusal(p: Progress): Result { if p.timedOut then Timeout else CallbackRejected }

  // ---- One operation ----

  datatype Reply = Reply(core: Core, result: Result, candidate: Candidate, log: seq<Event>)

  function Refused(core: Core, result: Result): Reply { Reply(core, result, NO_CANDIDATE, []) }

  predicate CanReserve(c: Config, core: Core) {
    core.generationHigh + 1 < c.generationTerminal && core.identityHigh + 1 < c.identityTerminal
  }

  function NextCandidate(core: Core): Candidate { Candidate(core.generationHigh + 1, core.identityHigh + 1) }

  function Reserved(core: Core): Core {
    core.(generationHigh := core.generationHigh + 1, identityHigh := core.identityHigh + 1)
  }

  predicate CanRetire(core: Core) { |core.tombstones| < TOMBSTONE_CAPACITY }

  predicate CanAdvance(c: Config, core: Core) { core.epoch + 1 < c.epochTerminal }

  function Retired(core: Core): Core {
    core.(tombstones := core.tombstones + [Tombstone(core.generation, core.identity, core.epoch + 1)],
          epoch := core.epoch + 1)
  }

  function Installed(core: Core, candidate: Candidate, state: State): Core {
    core.(generation := candidate.generation, identity := candidate.identity, state := state)
  }

  function JobOf(c: Config, mirrors: seq<Mirror>, r: Request, target: State): Job {
    Job(mirrors, r.operation, target, r.deadline != 0 && c.hasClock, r.deadline)
  }

  const FRESH := Progress({}, {}, false, 0, [])

  /** Clock reads made by apply before an operation starts. */
  function Begun(c: Config, r: Request): Progress {
    FRESH.(ticks := if r.deadline != 0 && c.hasClock then 2 else 0)
  }

  function ApplyAdd(c: Config, core: Core, mirrors: seq<Mirror>, r: Request, env: Env): Reply {
    if !core.state.Absent? || core.generation != 0 || core.identity != 0 then Refused(core, Invalid)
    else if !CanReserve(c, core) then Refused(core, ResourceExhausted)
    else
      var candidate, job := NextCandidate(core), JobOf(c, mirrors, r, Online);
      var (p, ending) := Forward(job, env, Begun(c, r));
      match ending
      case Completed => Reply(Installed(Reserved(core), candidate, Online), Accepted, candidate, p.log)
      case Stopped => Reply(Reserved(core), Refusal(p), candidate, Aborted(job, p).log)
      case Torn =>
        Reply(Installed(Reserved(core), candidate, Lost), Refusal(p), candidate,
              LostPublished(job, Aborted(job, p)).log)
  }

  function ApplyRemove(c: Config, core: Core, mirrors: seq<Mirror>, r: Request, env: Env): Reply {
    if !(core.state.Online? || core.state.Lost?) || core.generation == 0 || !CanRetire(core) then
      Refused(core, if core.state.Lost? then DeviceLost else Invalid)
    else if !CanAdvance(c, core) then Refused(core, ResourceExhausted)
    else
      var job := JobOf(c, mirrors, r, Absent);
      var (p, ending) := Forward(job, env, Begun(c, r));
      var gone := Installed(Retired(core), NO_CANDIDATE, Absent);
      if ending.Completed? then Reply(gone, Accepted, NO_CANDIDATE, p.log)
      else Reply(gone, Refusal(p), NO_CANDIDATE, LostPublished(job, Aborted(job, p)).log)
  }

  function ApplyReplace(c: Config, core: Core, mirrors: seq<Mirror>, r: Request, env: Env): Reply {
    if !(if r.operation.Recover? then core.state.Lost? else core.state.Online?) || core.generation == 0
        || !CanRetire(core) then
      Refused(core, if core.state.Lost? then DeviceLost else Invalid)
    else if !CanAdvance(c, core) || !CanReserve(c, core) then Refused(core, ResourceExhausted)
    else
      var candidate, job := NextCandidate(core), JobOf(c, mirrors, r, Online);
      var (p, ending) := Forward(job, env, Begun(c, r));
      match ending
      case Completed => Reply(Installed(Retired(Reserved(core)), candidate, Online), Accepted, candidate, p.log)
      case Stopped => Reply(Reserved(core), Refusal(p), candidate, Aborted(job, p).log)
      case Torn =>
        Reply(Installed(Retired(Reserved(core)), candidate, Lost), Refusal(p), candidate,
              LostPublished(job, Aborted(job, p)).log)
  }

  function ApplyTransportLoss(c: Config, core: Core, mirrors: seq<Mirror>, r: Request): Reply {
    if core.state.Absent? || core.generation == 0 then Refused(core, Invalid)
    else if core.state.Lost? then Refused(core, DeviceLost)
    else
      Reply(core.(state := Lost), Accepted, NO_CANDIDATE, LostPublished(JobOf(c, mirrors, r, Lost), FRESH).log)
  }

  function Execute(c: Config, core: Core, mirrors: seq<Mirror>, r: Request, env: Env): Reply {
    match r.operation
    case Add => ApplyAdd(c, core, mirrors, r, env)
    case Remove => ApplyRemove(c, core, mirrors, r, env)
    case TransportLoss => ApplyTransportLoss(c, core, mirrors, r)
    case _ => ApplyReplace(c, core, mirrors, r, env)
  }

  // ---- apply ----

  predicate Known(records: seq<Record>, id: nat) {
    exists k :: 0 <= k < |records| && records[k].request.id == id
  }

  /** Index of the first record with this id, or the number of records. */
  function FindFrom(records: seq<Record>, id: nat, i: nat): (k: nat)
    requires i <= |records|
    ensures i <= k <= |records| && (k < |records| ==> records[k].request.id == id)
    ensures forall j :: i <= j < k ==> records[j].request.id != id
    decreases |records| - i
  {
    if i == |records| || records[i].request.id == id then i else FindFrom(records, id, i + 1)
  }

  predicate OnTime(c: Config, r: Request, env: Env) {
    r.deadline != 0 && c.hasClock ==> env.clock(0) < r.deadline
  }

  predicate MatchesCore(core: Core, r: Request) {
    r.epoch == core.epoch && r.identity == core.identity && r.generation == core.generation
  }

  predicate ValidRequest(c: Config, core: Core, r: Request, env: Env) {
    && r.id != 0 && r.device == c.device && r.incarnation == c.incarnation
    && !r.source.UnknownSource? && !r.operation.UnknownOperation?
    && (r.deadline != 0 && c.hasClock ==> env.clock(1) < r.deadline)
    && MatchesCore(core, r)
  }

  function Remembered(reply: Reply, r: Request): Reply {
    reply.(core := reply.core.(records := reply.core.records + [Record(r, reply.result, reply.candidate)]))
  }

  /** The request reaches an operation and is recorded. */
  predicate Executes(c: Config, core: Core, r: Request, env: Env) {
    && !Known(core.records, r.id) && |core.records| < REQUEST_CAPACITY && OnTime(c, r, env)
        && ValidRequest(c, core, r, env)
  }

  function Apply(c: Config, core: Core, mirrors: seq<Mirror>, r: Request, env: Env): Reply {
    var k := FindFrom(core.records, r.id, 0);
    if k < |core.records| then
      if core.records[k].request != r then Refused(core, Conflict)
      else Refused(core, Duplicate).(candidate := core.records[k].candidate)
    else if |core.records| >= REQUEST_CAPACITY then Refused(core, ResourceExhausted)
    else if !OnTime(c, r, env) then Refused(core, Timeout)
    else if !ValidRequest(c, core, r, env) then
      Refused(core, if r.incarnation != c.incarnation || !MatchesCore(core, r) then Stale else Invalid)
    else Remembered(Execute(c, core, mirrors, r, env), r)
  }

  lemma {:induction false} ApplyCases(c: Config, core: Core, mirrors: seq<Mirror>, r: Request, env: Env)
    ensures Executes(c, core, r, env) ==>
              Apply(c, core, mirrors, r, env) == Remembered(Execute(c, core, mirrors, r, env), r)
    ensures !Executes(c, core, r, env) ==>
              Apply(c, core, mirrors, r, env).core == core && Apply(c, core, mirrors, r, env).log == []
  {
  }

  function Resolve(core: Core, generation: nat): Resolution {
    if generation == 0 then IsAbsent
    else if generation == core.generation then (if core.state.Online? then IsOnline else IsLost)
    else if exists k :: 0 <= k < |core.tombstones| && core.tombstones[k].generation == generation then IsLost
    else IsUnknown
  }
}
