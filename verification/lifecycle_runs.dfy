// What the lifecycle coordinator keeps over every sequence of apply calls, whatever the mirrors, the
// callbacks and the clock do.
module LifecycleRuns {
  import opened LifecycleCore
  import opened LifecycleStages

  // ---- The authority's invariant ----

  ghost predicate TombstonesInv(c: Config, core: Core) {
    && |core.tombstones| <= TOMBSTONE_CAPACITY && core.epoch == c.epoch + |core.tombstones|
    && (forall i :: 0 <= i < |core.tombstones| ==>
          && 0 < core.tombstones[i].generation <= core.generationHigh && c.generation <= core.tombstones[i].generation
          && core.tombstones[i].epoch == c.epoch + i + 1
          && (core.generation != 0 ==> core.tombstones[i].generation < core.generation))
    && (forall i, j :: 0 <= i < j < |core.tombstones| ==> core.tombstones[i].generation < core.tombstones[j].generation)
  }

  ghost predicate RecordsInv(records: seq<Record>) {
    && |records| <= REQUEST_CAPACITY
    && (forall i :: 0 <= i < |records| ==> records[i].request.id != 0)
    && (forall i, j :: 0 <= i < j < |records| ==> records[i].request.id != records[j].request.id)
  }

  ghost predicate CoreInv(c: Config, core: Core) {
    && ValidConfig(c)
    && core.generation <= core.generationHigh < c.generationTerminal && c.generation <= core.generationHigh
    && (core.generation != 0 ==> c.generation <= core.generation)
    && core.identity <= core.identityHigh < c.identityTerminal
    && core.epoch < c.epochTerminal
    && (core.state.Absent? <==> core.generation == 0) && (core.generation == 0 <==> core.identity == 0)
    && TombstonesInv(c, core) && RecordsInv(core.records)
  }

  lemma {:induction false} InitialCoreInv(c: Config)
    requires ValidConfig(c)
    ensures CoreInv(c, InitialCore(c))
  {
  }

  // ---- One operation ----

  /** What an executed operation may do to the authority. */
  datatype Change = Nothing | Burnt | Install(state: State) | Retire | Replace(state: State) | Lose

  /** Why an operation was refused before it started. */
  ghost predicate RefusedAtOnce(c: Config, core: Core, r: Request) {
    match r.operation
    case Add => !core.state.Absent? || !CanReserve(c, core)
    case Remove => !(core.state.Online? || core.state.Lost?) || !CanRetire(core) || !CanAdvance(c, core)
    case TransportLoss => core.state.Absent? || core.state.Lost?
    case _ =>
      || (if r.operation.Recover? then !core.state.Lost? else !core.state.Online?)
      || !CanRetire(core) || !CanAdvance(c, core) || !CanReserve(c, core)
  }

  function ChangeOf(operation: Operation, ending: Ending): Change {
    match operation
    case Add => (match ending case Completed => Install(Online) case Stopped => Burnt case Torn => Install(Lost))
    case Remove => Retire
    case TransportLoss => Lose
    case _ => (match ending case Completed => Replace(Online) case Stopped => Burnt case Torn => Replace(Lost))
  }

  function Changed(core: Core, change: Change): Core {
    match change
    case Nothing => core
    case Burnt => Reserved(core)
    case Install(state) => Installed(Reserved(core), NextCandidate(core), state)
    case Retire => Installed(Retired(core), NO_CANDIDATE, Absent)
    case Replace(state) => Installed(Retired(Reserved(core)), NextCandidate(core), state)
    case Lose => core.(state := Lost)
  }

  /** The target state an operation announces. */
  function TargetOf(operation: Operation): State {
    match operation case Remove => Absent case TransportLoss => Lost case _ => Online
  }

  /**
   * The effect of an operation on the authority depends only on how the stages end: a new generation
   * becomes Online only when every commit callback said yes, a stop before any commit leaves nothing
   * but burnt candidates, and a stop after some commit leaves the candidate Lost.
   */
  lemma {:induction false} AllOrLost(c: Config, core: Core, mirrors: seq<Mirror>, r: Request, env: Env)
    requires CoreInv(c, core) && Executes(c, core, r, env)
    ensures
      var reply := Execute(c, core, mirrors, r, env);
      var job := JobOf(c, mirrors, r, TargetOf(r.operation));
      var (p, ending) := Forward(job, env, Begun(c, r));
      if RefusedAtOnce(c, core, r) then reply.core == core && reply.log == [] && reply.candidate == NO_CANDIDATE
      else
        && reply.core == Changed(core, ChangeOf(r.operation, ending))
        && (reply.result == Accepted <==> ending.Completed? || r.operation.TransportLoss?)
        && (reply.result != Accepted ==> reply.result == if p.timedOut then Timeout else CallbackRejected)
        && (r.operation.TransportLoss? ==> reply.log == LostPublished(job, FRESH).log)
        && (!r.operation.TransportLoss? && ending.Completed? ==>
              reply.log == p.log && Agreed(job, env, Commit, |mirrors|) == Having(job, Commit, |mirrors|))
        && (!r.operation.TransportLoss? && ending.Stopped? ==>
              p.committed == {} && (!r.operation.Remove? ==> reply.log == Aborted(job, p).log))
        && (!r.operation.TransportLoss? && ending.Torn? ==>
              p.committed != {} && (p.timedOut || exists n :: RefusedCommit(job, env, n)))
        && (!r.operation.TransportLoss? && (ending.Torn? || (ending.Stopped? && r.operation.Remove?)) ==>
              reply.log == LostPublished(job, Aborted(job, p)).log)
  {
    hide Forward, InvokeFrom, LostPublished, Aborted, Agreed, Having, TombstonesInv, RecordsInv, Retired, Reserved,
        Installed;
    var job := JobOf(c, mirrors, r, TargetOf(r.operation));
    var x := ForwardDoes(job, env, Begun(c, r));
    var (p, ending) := Forward(job, env, Begun(c, r));
    assert !p.timedOut && ending.Torn? ==> RefusedCommit(job, env, x.committed);
  }

  /** The change a call makes to the authority, records aside. */
  ghost function ChangeBy(c: Config, core: Core, mirrors: seq<Mirror>, r: Request, env: Env): Change {
    if !Executes(c, core, r, env) || RefusedAtOnce(c, core, r) then Nothing
    else
      var (_, ending) := Forward(JobOf(c, mirrors, r, TargetOf(r.operation)), env, Begun(c, r));
      ChangeOf(r.operation, ending)
  }

  /** The change is one the authority's state and capacities admit. */
  ghost predicate Admits(c: Config, core: Core, change: Change) {
    match change
    case Nothing => true
    case Burnt => CanReserve(c, core)
    case Install(_) => core.state.Absent? && CanReserve(c, core)
    case Retire => (core.state.Online? || core.state.Lost?) && CanRetire(core) && CanAdvance(c, core)
    case Replace(_) =>
      (core.state.Online? || core.state.Lost?) && CanRetire(core) && CanAdvance(c, core) && CanReserve(c, core)
    case Lose => !core.state.Absent? && !core.state.Lost?
  }

  /** Every call is one change plus, when it executes, one new record. */
  lemma {:induction false} ApplyIsChange(c: Config, core: Core, mirrors: seq<Mirror>, r: Request, env: Env)
    requires CoreInv(c, core)
    ensures
      var reply := Apply(c, core, mirrors, r, env);
      var change := ChangeBy(c, core, mirrors, r, env);
      && Admits(c, core, change) && (change.Install? || change.Replace? ==> change.state.Online? || change.state.Lost?)
      && reply.core.(records := core.records) == Changed(core, change)
      && reply.core.records
          == core.records + (if Executes(c, core, r, env) then [Record(r, reply.result, reply.candidate)] else [])
      && (change.Burnt? || change.Install? || change.Replace? ==> reply.candidate == NextCandidate(core))
      && (Executes(c, core, r, env) && !change.Burnt? && !change.Install? && !change.Replace? ==>
            reply.candidate == NO_CANDIDATE)
  {
    ApplyCases(c, core, mirrors, r, env);
    if Executes(c, core, r, env) {
      AllOrLost(c, core, mirrors, r, env);
      CandidateOf(c, core, mirrors, r, env);
    }
    hide Forward, Apply, Execute, CoreInv;
  }

  lemma {:induction false} CandidateOf(c: Config, core: Core, mirrors: seq<Mirror>, r: Request, env: Env)
    requires CoreInv(c, core) && Executes(c, core, r, env)
    ensures
      var change := ChangeBy(c, core, mirrors, r, env);
      var reply := Execute(c, core, mirrors, r, env);
      && Admits(c, core, change) && (change.Install? || change.Replace? ==> change.state.Online? || change.state.Lost?)
      && reply.core.records == core.records && Changed(core, change).records == core.records
      && reply.candidate == if change.Burnt? || change.Install?
          || change.Replace? then NextCandidate(core) else NO_CANDIDATE
  {
    hide Forward, InvokeFrom, LostPublished, Aborted, TombstonesInv, RecordsInv;
  }

  lemma {:induction false} ChangeKeepsTombstones(c: Config, core: Core, change: Change)
    requires CoreInv(c, core) && Admits(c, core, change)
    ensures TombstonesInv(c, Changed(core, change))
  {
    hide RecordsInv;
  }

  lemma {:induction false} ChangeKeepsCore(c: Config, core: Core, change: Change)
    requires CoreInv(c, core) && Admits(c, core, change)
    requires change.Install? || change.Replace? ==> change.state.Online? || change.state.Lost?
    ensures CoreInv(c, Changed(core, change))
  {
    ChangeKeepsTombstones(c, core, change);
    hide TombstonesInv, RecordsInv;
  }

  lemma {:induction false} RecordKept(records: seq<Record>, record: Record)
    requires RecordsInv(records) && |records| < REQUEST_CAPACITY && record.request.id != 0
        && !Known(records, record.request.id)
    ensures RecordsInv(records + [record])
  {
  }

  lemma {:induction false} ApplyKeepsInv(c: Config, core: Core, mirrors: seq<Mirror>, r: Request, env: Env)
    requires CoreInv(c, core)
    ensures CoreInv(c, Apply(c, core, mirrors, r, env).core)
  {
    var change, reply := ChangeBy(c, core, mirrors, r, env), Apply(c, core, mirrors, r, env);
    ApplyIsChange(c, core, mirrors, r, env);
    ChangeKeepsCore(c, core, change);
    if Executes(c, core, r, env) { RecordKept(core.records, Record(r, reply.result, reply.candidate)); }
    hide Apply, ChangeBy, Admits, RecordsInv, Changed;
    assert reply.core == Changed(core, change).(records := reply.core.records);
  }

  // ---- Resolution ----

  function Rank(x: Resolution): nat {
    match x case IsUnknown => 0 case IsOnline => 1 case IsLost => 2 case IsAbsent => 0
  }

  lemma {:induction false} ChangeResolves(c: Config, core: Core, change: Change, generation: nat)
    requires CoreInv(c, core) && Admits(c, core, change) && generation != 0
    ensures Rank(Resolve(core, generation)) <= Rank(Resolve(Changed(core, change), generation))
    ensures generation <= core.generationHigh && Resolve(core, generation).IsUnknown? ==>
              Resolve(Changed(core, change), generation).IsUnknown?
    ensures core.generationHigh <= Changed(core, change).generationHigh
  {
    hide RecordsInv;
    var after := Changed(core, change);
    if change.Retire? || change.Replace? {
      var n := |core.tombstones|;
      assert after.tombstones[n].generation == core.generation;
      assert forall k :: 0 <= k < n ==> after.tombstones[k] == core.tombstones[k];
    }
  }

  // ---- Runs ----

  /** One call with the mirrors registered at that time. */
  datatype Call = Call(mirrors: seq<Mirror>, request: Request, env: Env)

  function Answer(c: Config, core: Core, call: Call): Reply { Apply(c, core, call.mirrors, call.request, call.env) }

  /** The authority before each call and after the last. */
  function Run(c: Config, core: Core, calls: seq<Call>): (run: seq<Core>)
    ensures |run| == |calls| + 1 && run[0] == core
    decreases |calls|
  {
    if calls == [] then [core] else [core] + Run(c, Answer(c, core, calls[0]).core, calls[1..])
  }

  lemma {:induction false} RunNext(c: Config, core: Core, calls: seq<Call>, i: nat)
    requires i < |calls|
    ensures Run(c, core, calls)[i + 1] == Answer(c, Run(c, core, calls)[i], calls[i]).core
    decreases |calls|
  {
    hide Answer;
    if i > 0 { RunNext(c, Answer(c, core, calls[0]).core, calls[1..], i - 1); }
  }

  /** Epoch counts tombstones, tombstone generations strictly increase, the terminals are never reached. */
  lemma {:induction false} RunKeepsInv(c: Config, calls: seq<Call>, i: nat)
    requires ValidConfig(c) && i <= |calls|
    ensures CoreInv(c, Run(c, InitialCore(c), calls)[i])
  {
    if i == 0 {
      InitialCoreInv(c);
    } else {
      RunKeepsInv(c, calls, i - 1);
      RunNext(c, InitialCore(c), calls, i - 1);
      var before := Run(c, InitialCore(c), calls)[i - 1];
      ApplyKeepsInv(c, before, calls[i - 1].mirrors, calls[i - 1].request, calls[i - 1].env);
    }
  }

  lemma {:induction false} StepResolves(c: Config, core: Core, call: Call, generation: nat)
    requires CoreInv(c, core) && generation != 0
    ensures
      var after := Answer(c, core, call).core;
      && Rank(Resolve(core, generation)) <= Rank(Resolve(after, generation))
      && (generation <= core.generationHigh && Resolve(core, generation).IsUnknown? ==>
            Resolve(after, generation).IsUnknown?)
      && core.generationHigh <= after.generationHigh
  {
    hide Apply, ChangeBy, Changed, CoreInv, Admits;
    var change := ChangeBy(c, core, call.mirrors, call.request, call.env);
    ApplyIsChange(c, core, call.mirrors, call.request, call.env);
    ChangeResolves(c, core, change, generation);
    var after := Answer(c, core, call).core;
    assert after.(records := core.records) == Changed(core, change);
    assert Resolve(after, generation) == Resolve(after.(records := core.records), generation);
  }

  /**
   * Over every run a generation's resolution only moves from Unknown to Online to DeviceLost, and a
   * generation that was consumed without being installed stays Unknown for ever.
   */
  lemma {:induction false} ResolutionMovesForward(c: Config, calls: seq<Call>, i: nat, j: nat, generation: nat)
    requires ValidConfig(c) && i <= j <= |calls| && generation != 0
    ensures
      var run := Run(c, InitialCore(c), calls);
      && Rank(Resolve(run[i], generation)) <= Rank(Resolve(run[j], generation))
      && (generation <= run[i].generationHigh && Resolve(run[i], generation).IsUnknown? ==>
            Resolve(run[j], generation).IsUnknown?)
      && run[i].generationHigh <= run[j].generationHigh
    decreases j - i
  {
    hide Resolve, Answer, CoreInv;
    if i < j {
      ResolutionMovesForward(c, calls, i, j - 1, generation);
      RunKeepsInv(c, calls, j - 1);
      RunNext(c, InitialCore(c), calls, j - 1);
      StepResolves(c, Run(c, InitialCore(c), calls)[j - 1], calls[j - 1], generation);
    }
  }

  /** The call reserved a candidate. */
  ghost predicate Reserves(c: Config, core: Core, call: Call) {
    var change := ChangeBy(c, core, call.mirrors, call.request, call.env);
    change.Burnt? || change.Install? || change.Replace?
  }

  lemma {:induction false} CandidateIsNew(c: Config, core: Core, call: Call)
    requires CoreInv(c, core) && Reserves(c, core, call)
    ensures
      var reply := Answer(c, core, call);
      core.generationHigh < reply.candidate.generation == reply.core.generationHigh
  {
    hide Apply, ChangeBy, CoreInv, Admits;
    ApplyIsChange(c, core, call.mirrors, call.request, call.env);
  }

  /** A candidate is new when it is reserved, and no later call reserves it again. */
  lemma {:induction false} CandidatesNeverReused(c: Config, calls: seq<Call>, i: nat, j: nat)
    requires ValidConfig(c) && i < j < |calls|
    requires Reserves(c, Run(c, InitialCore(c), calls)[i], calls[i])
    requires Reserves(c, Run(c, InitialCore(c), calls)[j], calls[j])
    ensures
      var run := Run(c, InitialCore(c), calls);
      var first, second := Answer(c, run[i], calls[i]).candidate, Answer(c, run[j], calls[j]).candidate;
      run[i].generationHigh < first.generation < second.generation
  {
    hide Run, Answer, Reserves, CoreInv, Resolve;
    RunKeepsInv(c, calls, i);
    RunKeepsInv(c, calls, j);
    RunNext(c, InitialCore(c), calls, i);
    CandidateIsNew(c, Run(c, InitialCore(c), calls)[i], calls[i]);
    CandidateIsNew(c, Run(c, InitialCore(c), calls)[j], calls[j]);
    ResolutionMovesForward(c, calls, i + 1, j, 1);
  }

  // ---- Request identifiers ----

  lemma {:induction false} RecordsGrow(c: Config, calls: seq<Call>, i: nat, j: nat)
    requires ValidConfig(c) && i <= j <= |calls|
    ensures Run(c, InitialCore(c), calls)[i].records <= Run(c, InitialCore(c), calls)[j].records
    decreases j - i
  {
    hide Apply, ChangeBy, CoreInv, Admits, Changed;
    if i < j {
      RecordsGrow(c, calls, i, j - 1);
      RunKeepsInv(c, calls, j - 1);
      RunNext(c, InitialCore(c), calls, j - 1);
      var before := Run(c, InitialCore(c), calls)[j - 1];
      ApplyIsChange(c, before, calls[j - 1].mirrors, calls[j - 1].request, calls[j - 1].env);
    }
  }

  /**
   * Once a request has executed, no call with its identifier executes again: the same request is
   * answered Duplicate with the candidate it was first given, any other Conflict, and neither changes
   * anything or calls a mirror.
   */
  lemma {:induction false} OneTransactionPerRequest(c: Config, calls: seq<Call>, i: nat, j: nat)
    requires ValidConfig(c) && i < j < |calls| && calls[i].request.id == calls[j].request.id
    requires Executes(c, Run(c, InitialCore(c), calls)[i], calls[i].request, calls[i].env)
    ensures
      var run := Run(c, InitialCore(c), calls);
      var first, again := Answer(c, run[i], calls[i]), Answer(c, run[j], calls[j]);
      && again.core == run[j] && again.log == []
      && (if calls[j].request == calls[i].request then again.result == Duplicate && again.candidate == first.candidate
          else again.result == Conflict)
  {
    var run := Run(c, InitialCore(c), calls);
    RunKeepsInv(c, calls, i);
    RunKeepsInv(c, calls, j);
    RunNext(c, InitialCore(c), calls, i);
    RecordsGrow(c, calls, i + 1, j);
    var n := |run[i].records|;
    RecordMade(c, run[i], calls[i]);
    var k := FindFrom(run[j].records, calls[j].request.id, 0);
    assert run[j].records[n] == run[i + 1].records[n];
    hide Execute, ChangeBy, Admits, TombstonesInv;
    assert k == n;
  }

  lemma {:induction false} RecordMade(c: Config, core: Core, call: Call)
    requires CoreInv(c, core) && Executes(c, core, call.request, call.env)
    ensures
      var reply := Answer(c, core, call);
      reply.core.records == core.records + [Record(call.request, reply.result, reply.candidate)]
  {
    ApplyIsChange(c, core, call.mirrors, call.request, call.env);
  }
}
