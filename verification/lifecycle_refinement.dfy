// The coordinator refines the abstract lifecycle model.
module LifecycleRefinement {
  import opened LifecycleCore
  import opened LifecycleStages
  import opened LifecycleRuns
  import M = LifecycleModel

  function BoundsOf(c: Config): M.Bounds {
    M.Bounds(c.state, c.generation, c.epoch, c.generation, c.generationTerminal, c.epochTerminal)
  }

  function Range(low: int, high: int): (r: set<int>)
    ensures forall g :: g in r <==> low <= g <= high
    decreases high - low + 1
  {
    if high < low then {} else Range(low, high - 1) + {high}
  }

  function Generations(tombstones: seq<Tombstone>): set<int> {
    if tombstones == [] then {}
    else Generations(tombstones[..|tombstones| - 1]) + {tombstones[|tombstones| - 1].generation}
  }

  function History(records: seq<Record>): map<int, Operation> {
    if records == [] then map[]
    else
      var last := records[|records| - 1].request;
      History(records[..|records| - 1])[last.id := last.operation]
  }

  /** Tombstoned generations are retired; those and the live one are committed. */
  function Abstract(c: Config, core: Core): M.Snapshot {
    var retired := Generations(core.tombstones);
    var live: set<int> := if core.generation != 0 then {core.generation} else {};
    var first: set<int> := if c.generation == 0 then {0} else {};
    M.Snapshot(core.state, core.generation, core.epoch, core.generationHigh, Range(c.generation, core.generationHigh),
               retired + live + first, retired, retired + (if core.state.Lost? then live else {}),
                   History(core.records),
               M.NO_VIEW, M.NO_VIEW, 0)
  }

  function FaultOf(ending: Ending): M.Fault {
    match ending case Completed => M.NoFault case Stopped => M.PreCommit case Torn => M.PostCommit
  }

  /** A fixed capacity the abstract model does not have is used up. */
  predicate Saturated(c: Config, core: Core, operation: Operation) {
    || (!operation.Add? && !operation.TransportLoss? && !CanRetire(core))
    || (!operation.Remove? && !operation.TransportLoss? && core.identityHigh + 1 >= c.identityTerminal)
  }

  lemma {:induction false} GenerationsAppend(tombstones: seq<Tombstone>, t: Tombstone)
    ensures Generations(tombstones + [t]) == Generations(tombstones) + {t.generation}
  {
    assert (tombstones + [t])[..|tombstones|] == tombstones;
  }

  lemma {:induction false} HistoryAppend(records: seq<Record>, record: Record)
    ensures History(records + [record]) == History(records)[record.request.id := record.request.operation]
  {
    assert (records + [record])[..|records|] == records;
  }

  lemma {:induction false} HistoryKnows(records: seq<Record>, id: int)
    ensures id in History(records) <==> exists k :: 0 <= k < |records| && records[k].request.id == id
  {
    if records != [] {
      var n := |records| - 1;
      HistoryKnows(records[..n], id);
      assert records == records[..n] + [records[n]];
    }
  }

  lemma {:induction false} ReservedRefines(c: Config, core: Core)
    requires c.generation <= core.generationHigh
    ensures Abstract(c, Reserved(core)) == M.ReserveCandidate(Abstract(c, core))
  {
    hide Generations, History;
    assert Range(c.generation, core.generationHigh + 1)
        == Range(c.generation, core.generationHigh) + {core.generationHigh + 1};
  }

  lemma {:induction false} RetiredRefines(c: Config, core: Core)
    requires core.generation > 0
    ensures Abstract(c, Installed(Retired(core), NO_CANDIDATE, Absent))
         == M.Retire(Abstract(c, core)).(state := Absent, generation := 0)
  {
    hide Generations, History, Range;
    GenerationsAppend(core.tombstones, Tombstone(core.generation, core.identity, core.epoch + 1));
  }

  lemma {:induction false} InstalledRefines(c: Config, core: Core, candidate: Candidate, state: State)
    requires core.generation == 0 && core.state.Absent? && candidate.generation > 0
    ensures Abstract(c, Installed(core, candidate, state)) == M.Install(Abstract(c, core), candidate.generation, state)
  {
    hide Generations, History, Range;
  }

  /** How each change to the authority looks in the abstract model. */
  lemma {:induction false} ChangeRefines(c: Config, core: Core, change: Change)
    requires CoreInv(c, core) && Admits(c, core, change)
    requires change.Install? || change.Replace? ==> change.state.Online? || change.state.Lost?
    ensures
      var a := Abstract(c, core);
      Abstract(c, Changed(core, change))
      == match change
         case Nothing => a
         case Burnt => M.ReserveCandidate(a)
         case Install(state) => M.Install(M.ReserveCandidate(a), a.high + 1, state)
         case Retire => M.Retire(a).(state := Absent, generation := 0)
         case Replace(state) => M.Install(M.Retire(M.ReserveCandidate(a)), a.high + 1, state)
         case Lose => M.MarkProviderLoss(a, a.generation).(state := Lost, tombstones := a.tombstones + {a.generation})
  {
    hide Generations, History, Range, RecordsInv, TombstonesInv;
    ReservedRefines(c, core);
    match change
    case Install(state) => InstalledRefines(c, Reserved(core), NextCandidate(core), state);
    case Retire => RetiredRefines(c, core);
    case Replace(state) =>
      var gone := Installed(Retired(Reserved(core)), NO_CANDIDATE, Absent);
      RetiredRefines(c, Reserved(core));
      InstalledRefines(c, gone, NextCandidate(core), state);
    case _ =>
  }

  /** The abstract effect of an operation is the change the coordinator makes, unless a capacity is used up. */
  lemma {:induction false} EffectMatches(c: Config, core: Core, mirrors: seq<Mirror>, r: Request, env: Env)
    requires CoreInv(c, core) && Executes(c, core, r, env)
    ensures
      var change := ChangeBy(c, core, mirrors, r, env);
      var (_, ending) := Forward(JobOf(c, mirrors, r, TargetOf(r.operation)), env, Begun(c, r));
      Abstract(c, Changed(core, change))
      == if Saturated(c, core, r.operation) then Abstract(c, core)
         else M.Effect(BoundsOf(c), Abstract(c, core), r.operation, FaultOf(ending))
  {
    hide Forward, Generations, History, Range, TombstonesInv, RecordsInv, Apply, Changed;
    hide M.Install, M.Retire, M.ReserveCandidate, M.MarkProviderLoss;
    ApplyIsChange(c, core, mirrors, r, env);
    ChangeRefines(c, core, ChangeBy(c, core, mirrors, r, env));
  }

  /**
   * Every apply call is a step of the abstract model: a stutter when it is rejected early or its
   * identifier is known, a record-only step when a fixed capacity is used up, and otherwise the
   * abstract step with the fault its mirrors produced.
   */
  lemma {:induction false} ApplyRefines(c: Config, core: Core, mirrors: seq<Mirror>, r: Request, env: Env)
    requires CoreInv(c, core)
    ensures
      var a, after := Abstract(c, core), Abstract(c, Apply(c, core, mirrors, r, env).core);
      var (_, ending) := Forward(JobOf(c, mirrors, r, TargetOf(r.operation)), env, Begun(c, r));
      if !Executes(c, core, r, env) then after == a
      else if Saturated(c, core, r.operation) then after == M.Recorded(a, r.id, r.operation)
      else after == M.ApplyLifecycle(BoundsOf(c), a, r.operation, r.id, FaultOf(ending))
  {
    var reply, change := Apply(c, core, mirrors, r, env), ChangeBy(c, core, mirrors, r, env);
    ApplyIsChange(c, core, mirrors, r, env);
    if Executes(c, core, r, env) {
      EffectMatches(c, core, mirrors, r, env);
      HistoryAppend(core.records, Record(r, reply.result, reply.candidate));
      HistoryKnows(core.records, r.id);
      assert reply.core == Changed(core, change).(records := reply.core.records);
      assert Abstract(c, reply.core) == Abstract(c, Changed(core, change)).(history := History(reply.core.records));
    }
    hide Forward, Generations, History, Range, TombstonesInv, RecordsInv, Apply, M.Effect, Changed, ChangeBy, Admits;
  }

  lemma {:induction false} GenerationsCount(tombstones: seq<Tombstone>, low: int, high: int)
    requires forall i, j :: 0 <= i < j < |tombstones| ==> tombstones[i].generation < tombstones[j].generation
    requires forall i :: 0 <= i < |tombstones| ==> low <= tombstones[i].generation < high
    ensures |Generations(tombstones)| == |tombstones|
    ensures forall g :: g in Generations(tombstones) ==> low <= g < high
  {
    if tombstones != [] {
      var n := |tombstones| - 1;
      GenerationsCount(tombstones[..n], low, tombstones[n].generation);
    }
  }

  lemma {:induction false} GenerationsBounds(c: Config, core: Core)
    requires TombstonesInv(c, core)
    ensures |Generations(core.tombstones)| == |core.tombstones|
    ensures forall g :: g in Generations(core.tombstones) ==>
              0 < g <= core.generationHigh && c.generation <= g && (core.generation != 0 ==> g < core.generation)
  {
    GenerationsCount(core.tombstones, if c.generation == 0 then 1 else c.generation,
                     if core.generation != 0
                         && core.generation <= core.generationHigh then core.generation else core.generationHigh + 1);
  }

  lemma {:induction false} CoreMeetsAssertion(c: Config, core: Core)
    requires CoreInv(c, core)
    ensures M.SnapshotAssertion(BoundsOf(c), Abstract(c, core))
  {
    hide History, RecordsInv, Generations, Range, TombstonesInv;
    GenerationsBounds(c, core);
    EpochCounts(c, core);
    var s := Abstract(c, core);
    assert s.committed <= s.accepted && s.retired <= s.committed && s.retired <= s.tombstones;
    assert M.ViewsAssertion(s);
    hide M.ViewsAssertion;
  }

  lemma {:induction false} EpochCounts(c: Config, core: Core)
    requires TombstonesInv(c, core)
    ensures core.epoch == c.epoch + |core.tombstones|
  {
  }

  /** Every authority the coordinator reaches passes the abstract model's own assertion. */
  lemma {:induction false} CoordinatorMeetsAssertion(c: Config, calls: seq<Call>, i: nat)
    requires ValidConfig(c) && i <= |calls|
    ensures M.SnapshotAssertion(BoundsOf(c), Abstract(c, Run(c, InitialCore(c), calls)[i]))
  {
    hide *;
    RunKeepsInv(c, calls, i);
    CoreMeetsAssertion(c, Run(c, InitialCore(c), calls)[i]);
  }

  lemma {:induction false} InitialRefines(c: Config)
    requires ValidConfig(c)
    ensures Abstract(c, InitialCore(c)) == M.InitialSnapshot(BoundsOf(c)) <==> !c.state.Lost?
  {
    assert Abstract(c, InitialCore(c)).accepted == {c.generation};
  }

  // ---- Whole runs ----

  /** A step of the abstract model, its `Replay` for a stutter, or a step that only records the request. */
  datatype Label = Act(action: M.Action) | RecordOnly(id: int, operation: Operation)

  function Follow(b: M.Bounds, s: M.Snapshot, labels: seq<Label>): M.Snapshot
    decreases |labels|
  {
    if labels == [] then s
    else
      var next := match labels[0]
        case Act(action) => M.ApplyAction(b, s, action)
        case RecordOnly(id, operation) => M.Recorded(s, id, operation);
      Follow(b, next, labels[1..])
  }

  function LabelOf(c: Config, core: Core, call: Call): Label {
    var r := call.request;
    if !Executes(c, core, r, call.env) then Act(M.Replay)
    else if Saturated(c, core, r.operation) then RecordOnly(r.id, r.operation)
    else
      var (_, ending) := Forward(JobOf(c, call.mirrors, r, TargetOf(r.operation)), call.env, Begun(c, r));
      Act(M.Lifecycle(r.operation, r.id, FaultOf(ending)))
  }

  function Labels(c: Config, core: Core, calls: seq<Call>): (labels: seq<Label>)
    ensures |labels| == |calls|
    decreases |calls|
  {
    if calls == [] then [] else [LabelOf(c, core, calls[0])] + Labels(c, Answer(c, core, calls[0]).core, calls[1..])
  }

  lemma {:induction false} CallFollows(c: Config, core: Core, call: Call)
    requires CoreInv(c, core)
    ensures Abstract(c, Answer(c, core, call).core) == Follow(BoundsOf(c), Abstract(c, core), [LabelOf(c, core, call)])
  {
    hide Forward, Abstract, Apply, Executes, Saturated, CoreInv, M.ApplyLifecycle;
    ApplyRefines(c, core, call.mirrors, call.request, call.env);
    var first := LabelOf(c, core, call);
    assert [first][1..] == [];
  }

  /** The abstraction of every coordinator run is a run of the abstract model, label by label. */
  lemma {:induction false} RunSimulates(c: Config, core: Core, calls: seq<Call>)
    requires CoreInv(c, core)
    ensures Abstract(c, Run(c, core, calls)[|calls|]) == Follow(BoundsOf(c), Abstract(c, core), Labels(c, core, calls))
    decreases |calls|
  {
    hide Abstract, CoreInv, LabelOf, Apply;
    if calls != [] {
      var next := Answer(c, core, calls[0]).core;
      CallFollows(c, core, calls[0]);
      ApplyKeepsInv(c, core, calls[0].mirrors, calls[0].request, calls[0].env);
      RunSimulates(c, next, calls[1..]);
      var first := LabelOf(c, core, calls[0]);
      assert [first][1..] == [] && Labels(c, core, calls)[1..] == Labels(c, next, calls[1..]);
    }
  }

  /** No fixed capacity is used up along the run. */
  predicate Unsaturated(labels: seq<Label>) { forall i :: 0 <= i < |labels| ==> labels[i].Act? }

  function Actions(labels: seq<Label>): seq<M.Action>
    requires Unsaturated(labels)
  {
    seq(|labels|, i requires 0 <= i < |labels| => labels[i].action)
  }

  lemma {:induction false} FollowIsRun(b: M.Bounds, s: M.Snapshot, labels: seq<Label>)
    requires Unsaturated(labels)
    ensures Follow(b, s, labels) == M.RunModel(b, s, Actions(labels))
    decreases |labels|
  {
    hide M.ApplyAction;
    if labels != [] {
      FollowIsRun(b, M.ApplyAction(b, s, labels[0].action), labels[1..]);
      assert Actions(labels)[1..] == Actions(labels[1..]);
    }
  }

  /** From a configuration that is not lost, within the fixed capacities, the coordinator runs the abstract model. */
  lemma {:induction false} CoordinatorRunsModel(c: Config, calls: seq<Call>)
    requires ValidConfig(c) && !c.state.Lost? && Unsaturated(Labels(c, InitialCore(c), calls))
    ensures
      Abstract(c, Run(c, InitialCore(c), calls)[|calls|])
      == M.RunModel(BoundsOf(c), M.InitialSnapshot(BoundsOf(c)), Actions(Labels(c, InitialCore(c), calls)))
  {
    hide Abstract, CoreInv, Labels, Run, M.RunModel, M.InitialSnapshot;
    InitialCoreInv(c);
    RunSimulates(c, InitialCore(c), calls);
    InitialRefines(c);
    FollowIsRun(BoundsOf(c), Abstract(c, InitialCore(c)), Labels(c, InitialCore(c), calls));
  }
}
