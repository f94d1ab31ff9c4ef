// The abstract lifecycle model and its snapshot assertion (tools/check-lifecycle-model.py), for runs
// of any length.  The model's ordered tuples of distinct numbers are sets here.
module LifecycleModel {
  import opened LifecycleCore

  /** Limits and initial values of the model's bounds file. */
  datatype Bounds = Bounds(state: State, generation: int, epoch: int, generationHigh: int, generationTerminal: int,
                           epochTerminal: int)

  /** A provider's frozen device list: members and those reported lost. */
  datatype View = View(initialized: bool, membership: set<int>, lost: set<int>)

  datatype Snapshot = Snapshot(state: State, generation: int, epoch: int, high: int, accepted: set<int>,
                               committed: set<int>,
                               retired: set<int>, tombstones: set<int>, history: map<int, Operation>,
                               cuda: View, nvml: View, nvmlEpoch: int)

  datatype Fault = NoFault | PreCommit | PostCommit

  const NO_VIEW := View(false, {}, {})

  function InitialSnapshot(b: Bounds): Snapshot {
    Snapshot(b.state, b.generation, b.epoch, b.generationHigh, {b.generation}, {b.generation}, {}, {}, map[], NO_VIEW,
             NO_VIEW, 0)
  }

  function Recorded(s: Snapshot, id: int, event: Operation): Snapshot { s.(history := s.history[id := event]) }

  function MarkLost(v: View, generation: int): View {
    if generation in v.membership then v.(lost := v.lost + {generation}) else v
  }

  function MarkProviderLoss(s: Snapshot, generation: int): Snapshot {
    if generation <= 0 then s else s.(cuda := MarkLost(s.cuda, generation), nvml := MarkLost(s.nvml, generation))
  }

  function ReserveCandidate(s: Snapshot): Snapshot { s.(high := s.high + 1, accepted := s.accepted + {s.high + 1}) }

  function Install(s: Snapshot, candidate: int, state: State): Snapshot {
    s.(state := state, generation := candidate, committed := s.committed + {candidate},
       tombstones := if state.Lost? then s.tombstones + {candidate} else s.tombstones)
  }

  function Retire(s: Snapshot): Snapshot {
    MarkProviderLoss(s, s.generation).(epoch := s.epoch + 1, retired := s.retired + {s.generation},
                                       tombstones := s.tombstones + {s.generation})
  }

  function Outcome(fault: Fault): State { if fault.PostCommit? then Lost else Online }

  /** The snapshot an event leads to, history aside. */
  function Effect(b: Bounds, s: Snapshot, event: Operation, fault: Fault): Snapshot {
    match event
    case Add =>
      if !s.state.Absent? || s.high + 1 >= b.generationTerminal then s
      else if fault.PreCommit? then ReserveCandidate(s)
      else Install(ReserveCandidate(s), s.high + 1, Outcome(fault))
    case Remove =>
      if !(s.state.Online? || s.state.Lost?) || s.generation <= 0 || s.epoch + 1 >= b.epochTerminal then s
      else Retire(s).(state := Absent, generation := 0)
    case TransportLoss =>
      if s.state.Absent? || s.state.Lost? || s.generation <= 0 then s
      else MarkProviderLoss(s, s.generation).(state := Lost, tombstones := s.tombstones + {s.generation})
    case _ =>
      if !(if event.Recover? then s.state.Lost? else s.state.Online?) || s.generation <= 0
          || s.epoch + 1 >= b.epochTerminal
         || s.high + 1 >= b.generationTerminal then s
      else if fault.PreCommit? then ReserveCandidate(s)
      else Install(Retire(ReserveCandidate(s)), s.high + 1, Outcome(fault))
  }

  function ApplyLifecycle(b: Bounds, s: Snapshot, event: Operation, id: int, fault: Fault): Snapshot {
    if id in s.history then s else Recorded(Effect(b, s, event, fault), id, event)
  }

  datatype ViewEvent = CaptureCuda | CaptureNvml | NvmlReinit

  function Captured(s: Snapshot): View {
    View(true, if s.state.Online? && s.generation > 0 then {s.generation} else {}, {})
  }

  function ApplyView(s: Snapshot, event: ViewEvent): Snapshot {
    match event
    case CaptureCuda => if s.cuda.initialized then s else s.(cuda := Captured(s))
    case CaptureNvml =>
      if s.nvml.initialized then s
      else s.(nvml := Captured(s), nvmlEpoch := if s.nvmlEpoch > 1 then s.nvmlEpoch else 1)
    case NvmlReinit => s.(nvml := Captured(s), nvmlEpoch := s.nvmlEpoch + 1)
  }

  datatype Action = Lifecycle(event: Operation, id: int, fault: Fault) | Viewing(view: ViewEvent) | Replay

  function ApplyAction(b: Bounds, s: Snapshot, action: Action): Snapshot {
    match action
    case Lifecycle(event, id, fault) => ApplyLifecycle(b, s, event, id, fault)
    case Viewing(view) => ApplyView(s, view)
    case Replay => s
  }

  // ---- The model's own assertion ----

  /** A provider's list names committed generations and reports every retired or lost one. */
  ghost predicate ViewAssertion(committed: set<int>, retired: set<int>, generation: int, lost: bool, v: View) {
    && v.lost <= v.membership
    && (if !v.initialized then v.membership == {} && v.lost == {}
        else && v.membership <= committed
             && forall g :: g in v.membership && (g in retired || (g == generation && lost)) ==> g in v.lost)
  }

  ghost predicate ViewsAssertion(s: Snapshot) {
    && ViewAssertion(s.committed, s.retired, s.generation, s.state.Lost?, s.cuda)
    && ViewAssertion(s.committed, s.retired, s.generation, s.state.Lost?, s.nvml)
    && (if s.nvml.initialized then s.nvmlEpoch > 0 else s.nvmlEpoch == 0)
  }

  ghost predicate SnapshotAssertion(b: Bounds, s: Snapshot) {
    && s.high < b.generationTerminal && s.epoch < b.epochTerminal
    && (forall g :: g in s.accepted <==> b.generation <= g <= s.high)
    && s.committed <= s.accepted && s.retired <= s.committed && s.generation !in s.retired
    && s.epoch == b.epoch + |s.retired|
    && (s.state.Online? || s.state.Lost? ==> s.generation > 0 && s.generation in s.committed)
    && (s.state.Absent? ==> s.generation == 0)
    && s.retired <= s.tombstones && (s.state.Lost? ==> s.generation in s.tombstones)
    && ViewsAssertion(s)
  }

  /** The assertion made inductive: a positive generation is committed and only such ones retire. */
  ghost predicate SnapshotInv(b: Bounds, s: Snapshot) {
    && SnapshotAssertion(b, s)
    && (s.generation > 0 ==> s.generation in s.committed) && (forall g :: g in s.retired ==> g > 0)
    && b.generation <= s.high && (s.state.Absent? ==> s.high >= 0)
  }

  lemma {:induction false} InitialSnapshotInv(b: Bounds)
    requires SnapshotAssertion(b, InitialSnapshot(b))
    ensures SnapshotInv(b, InitialSnapshot(b))
  {
    assert b.generation in InitialSnapshot(b).accepted;
  }

  // ---- Views ----

  lemma {:induction false} ViewsAfterRetire(s: Snapshot)
    requires ViewsAssertion(s) && s.generation > 0
    ensures
      var t := Retire(s);
      && ViewAssertion(t.committed, t.retired, 0, false, t.cuda)
          && ViewAssertion(t.committed, t.retired, 0, false, t.nvml)
      && t.nvmlEpoch == s.nvmlEpoch && t.nvml.initialized == s.nvml.initialized
  {
  }

  lemma {:induction false} ViewAfterInstall(committed: set<int>, retired: set<int>, v: View, candidate: int, lost: bool)
    requires ViewAssertion(committed, retired, 0, false, v) && candidate !in committed && candidate !in retired
    ensures ViewAssertion(committed + {candidate}, retired, candidate, lost, v)
  {
  }

  // ---- The history-free steps ----

  lemma {:induction false} ReserveKeeps(b: Bounds, s: Snapshot)
    requires SnapshotInv(b, s) && s.high + 1 < b.generationTerminal && (s.state.Absent? || s.generation > 0)
    ensures SnapshotInv(b, ReserveCandidate(s)) && s.high + 1 > 0 && s.high + 1 > s.generation
    ensures s.high + 1 !in s.committed && s.high + 1 !in s.retired
  {
    hide ViewAssertion;
    assert s.generation > 0 ==> s.generation in s.accepted;
  }

  lemma {:induction false} RemoveKeeps(b: Bounds, s: Snapshot)
    requires SnapshotInv(b, s) && (s.state.Online? || s.state.Lost?) && s.epoch + 1 < b.epochTerminal
    ensures SnapshotInv(b, Retire(s).(state := Absent, generation := 0))
  {
    ViewsAfterRetire(s);
    hide ViewAssertion;
    var t := Retire(s).(state := Absent, generation := 0);
    assert s.generation in s.accepted;
    assert ViewsAssertion(t);
    hide ViewsAssertion;
    assert t.retired == s.retired + {s.generation} && |t.retired| == |s.retired| + 1;
    assert t.accepted == s.accepted && t.committed == s.committed && t.high == s.high;
    hide MarkProviderLoss, Retire;
  }

  /** Install the candidate just reserved, on an empty or a just retired device. */
  lemma {:induction false} InstallKeeps(b: Bounds, s: Snapshot, state: State)
    requires SnapshotInv(b, s) && s.state.Absent? && s.high > 0 && s.high !in s.committed && s.high !in s.retired
    requires state.Online? || state.Lost?
    ensures SnapshotInv(b, Install(s, s.high, state))
  {
    ViewAfterInstall(s.committed, s.retired, s.cuda, s.high, state.Lost?);
    ViewAfterInstall(s.committed, s.retired, s.nvml, s.high, state.Lost?);
    hide ViewAssertion;
    assert s.high in s.accepted;
  }

  lemma {:induction false} LossKeeps(b: Bounds, s: Snapshot)
    requires SnapshotInv(b, s) && s.generation > 0
    ensures SnapshotInv(b,
                        MarkProviderLoss(s, s.generation).(state := Lost, tombstones := s.tombstones + {s.generation}))
  {
  }

  lemma {:induction false} AddKeeps(b: Bounds, s: Snapshot, fault: Fault)
    requires SnapshotInv(b, s) && s.state.Absent? && s.high + 1 < b.generationTerminal
    ensures SnapshotInv(b, ReserveCandidate(s))
        && SnapshotInv(b, Install(ReserveCandidate(s), s.high + 1, Outcome(fault)))
  {
    hide SnapshotInv, Install;
    ReserveKeeps(b, s);
    InstallKeeps(b, ReserveCandidate(s), Outcome(fault));
  }

  lemma {:induction false} ReplaceKeeps(b: Bounds, s: Snapshot, fault: Fault)
    requires SnapshotInv(b, s) && (s.state.Online? || s.state.Lost?) && s.epoch + 1 < b.epochTerminal
        && s.high + 1 < b.generationTerminal
    ensures SnapshotInv(b, ReserveCandidate(s))
    ensures SnapshotInv(b, Install(Retire(ReserveCandidate(s)), s.high + 1, Outcome(fault)))
  {
    assert s.generation > 0;
    hide SnapshotInv;
    ReserveKeeps(b, s);
    var r := ReserveCandidate(s);
    RemoveKeeps(b, r);
    InstallKeeps(b, Retire(r).(state := Absent, generation := 0), Outcome(fault));
  }

  lemma {:induction false} EffectKeeps(b: Bounds, s: Snapshot, event: Operation, fault: Fault)
    requires SnapshotInv(b, s)
    ensures SnapshotInv(b, Effect(b, s, event, fault))
  {
    hide SnapshotInv, Install, Retire, ReserveCandidate, MarkProviderLoss;
    if event.TransportLoss? {
      if s.generation > 0 { LossKeeps(b, s); }
    } else if event.Remove? {
      if (s.state.Online? || s.state.Lost?) && s.epoch + 1 < b.epochTerminal { RemoveKeeps(b, s); }
    } else if event.Add? {
      if s.state.Absent? && s.high + 1 < b.generationTerminal { AddKeeps(b, s, fault); }
    } else if (s.state.Online? || s.state.Lost?) && s.epoch + 1 < b.epochTerminal && s.high + 1 < b.generationTerminal {
      ReplaceKeeps(b, s, fault);
    }
  }

  lemma {:induction false} ViewKeeps(b: Bounds, s: Snapshot, event: ViewEvent)
    requires SnapshotInv(b, s)
    ensures SnapshotInv(b, ApplyView(s, event))
  {
  }

  lemma {:induction false} ActionKeeps(b: Bounds, s: Snapshot, action: Action)
    requires SnapshotInv(b, s)
    ensures SnapshotInv(b, ApplyAction(b, s, action))
  {
    hide Effect, ViewAssertion, ApplyView;
    match action
    case Lifecycle(event, id, fault) => EffectKeeps(b, s, event, fault);
    case Viewing(view) => ViewKeeps(b, s, view);
    case Replay =>
  }

  function RunModel(b: Bounds, s: Snapshot, actions: seq<Action>): Snapshot
    decreases |actions|
  {
    if actions == [] then s else RunModel(b, ApplyAction(b, s, actions[0]), actions[1..])
  }

  lemma {:induction false} RunModelKeeps(b: Bounds, s: Snapshot, actions: seq<Action>)
    requires SnapshotInv(b, s)
    ensures SnapshotInv(b, RunModel(b, s, actions))
    decreases |actions|
  {
    if actions != [] {
      ActionKeeps(b, s, actions[0]);
      hide SnapshotInv;
      RunModelKeeps(b, ApplyAction(b, s, actions[0]), actions[1..]);
    }
  }

  /**
   * For all bounds whose initial snapshot passes the assertion, every snapshot of every run of any
   * length passes it.
   */
  lemma {:induction false} SnapshotAssertionAlways(b: Bounds, actions: seq<Action>)
    requires SnapshotAssertion(b, InitialSnapshot(b))
    ensures SnapshotAssertion(b, RunModel(b, InitialSnapshot(b), actions))
  {
    InitialSnapshotInv(b);
    RunModelKeeps(b, InitialSnapshot(b), actions);
  }
}
