// When a LOST fence is final: exactly when no identity publisher that claimed the device before it was
// closed can still reach its stores.
module RegistryLoss {
  import opened RegistryProtocol
  import opened RegistryInvariants
  import opened RegistrySafety
  import opened RegistryTheorems
  import opened RegistryLatches

  // ---- The threat ----

  /** A publisher of device d past its claim whose next latch, if it has read one already, has not moved. */
  predicate Threat(g: Globals, dev: Device, pc: Pc, d: nat) {
    pc.Replacing? && pc.x.d == d
    && match pc.ip
       case IControlLoad => true
       case IControlTake => g.controlLatch == pc.x.control
       case IFenceLoad => true
       case IFenceTake => dev.latch == pc.x.latch
       case ITelemetryLoad => true
       case ITelemetryTake => g.telemetryLatch == pc.x.telemetry
       case IWriteIdentity => true
       case IWriteGeneration => true
       case IWriteFence(k) => k <= STATE
       case _ => false
  }

  predicate Threatens(s: System, a: nat, d: nat)
    requires a < |s.actors|
  {
    Threat(s.g, At(s.devices, d), s.actors[a], d)
  }

  predicate Unthreatened(s: System, d: nat) {
    forall a :: 0 <= a < |s.actors| ==> !Threatens(s, a, d)
  }

  predicate LostAt(s: System, d: nat) { Lost(At(s.devices, d)) }

  /** A publisher comes from a publisher of the same device, or from a call. */
  lemma {:induction false} ReplacingStep(viewId: nat, g: Globals, dev: Device, count: nat, now: nat, pc: Pc, call: Call)
    ensures
      var e := ActorStep(viewId, g, dev, count, now, pc, call);
      e.pc.Replacing? ==>
        || (pc.Replacing? && e.pc.x.d == pc.x.d)
        || (call.PublishIdentity? && e.pc == Replacing(call.x, IView))
  {
  }

  /** No step makes its own actor a threat to a closed device. */
  lemma {:induction false} MoverUnthreatening(viewId: nat, g: Globals, dev: Device, count: nat, now: nat, pc: Pc,
                                              call: Call, d: nat)
    requires DeviceInv(dev) && Local(g, dev, now, pc) && TelemetryInv(g.telemetryLatch, pc) && Target(pc) == d
    requires dev.word.state.Closed? && !Threat(g, dev, pc, d)
    ensures
      var e := ActorStep(viewId, g, dev, count, now, pc, call);
      forall dev2 :: !Threat(e.g, dev2, e.pc, d)
  {
    hide ReaderStep, WriterStep, MarkStep, ClaimStep, CloseStep, ReaderInv, WriterInv, MarkInv, CloserInv;
    ReplacingStep(viewId, g, dev, count, now, pc, call);
  }

  /** A latch somebody has overtaken stays overtaken. */
  lemma {:induction false} BystanderUnthreatening(g: Globals, dev: Device, now: nat, pc: Pc, g2: Globals, dev2: Device,
                                                  d: nat)
    requires Local(g, dev, now, pc) && TelemetryInv(g.telemetryLatch, pc) && Target(pc) == d && !Threat(g, dev, pc, d)
    requires g.controlLatch <= g2.controlLatch && dev.latch <= dev2.latch && g.telemetryLatch <= g2.telemetryLatch
    ensures !Threat(g2, dev2, pc, d)
  {
    hide ReaderInv, WriterInv, MarkInv, CloserInv;
  }

  lemma {:induction false} UnthreatenedStep(s: System, a: nat, call: Call, d: nat)
    requires LatchInv(s) && a < |s.actors| && d < |s.devices| && LostAt(s, d) && Unthreatened(s, d)
    ensures LostAt(SystemStep(s, a, call), d) && Unthreatened(SystemStep(s, a, call), d)
  {
    hide ActorStep, Local, DeviceInv, TelemetryInv, LatchesHeld, PairInv, Threat;
    var s2 := SystemStep(s, a, call);
    var dev, dev2 := At(s.devices, d), At(s2.devices, d);
    MoverLatches(s, a, call);
    assert dev.latch <= dev2.latch;
    assert !Threatens(s, a, d);
    LostLeavesOnlyByIdentity(s, a, call, d);
    assert !Resurrects(s.actors[a], d) by { StoringThreatens(s.g, dev, s.actors[a], d); }
    forall b | 0 <= b < |s2.actors| ensures !Threatens(s2, b, d) {
      MoverKnows(s, b);
      assert !Threatens(s, b, d) && ActorInv(s, b);
      if Target(s.actors[b]) != d {
        ElsewhereUnthreatening(s.viewId, s.g, At(s.devices, Target(s.actors[b])), |s.devices|, s.now, s.actors[b], call,
                               d);
        ThreatensHere(s2.g, dev2, s.actors[b], d);
      } else if b == a {
        MoverUnthreatening(s.viewId, s.g, dev, |s.devices|, s.now, s.actors[b], call, d);
      } else {
        BystanderUnthreatening(s.g, dev, s.now, s.actors[b], s2.g, dev2, d);
      }
    }
  }

  lemma {:induction false} StoringThreatens(g: Globals, dev: Device, pc: Pc, d: nat)
    ensures Resurrects(pc, d) ==> Threat(g, dev, pc, d)
  {
  }

  lemma {:induction false} ThreatensHere(g: Globals, dev: Device, pc: Pc, d: nat)
    ensures Threat(g, dev, pc, d) ==> Target(pc) == d
  {
  }

  lemma {:induction false} ElsewhereUnthreatening(viewId: nat, g: Globals, dev: Device, count: nat, now: nat, pc: Pc,
                                                  call: Call, d: nat)
    requires Target(pc) != d
    ensures
      var e := ActorStep(viewId, g, dev, count, now, pc, call);
      forall dev2 :: !Threat(e.g, dev2, e.pc, d)
  {
    hide ActorStep;
    ReplacingStep(viewId, g, dev, count, now, pc, call);
  }

  lemma {:induction false} LatchInvSystem(s: System)
    requires LatchInv(s)
    ensures SystemInv(s)
  {
  }

  /** Whatever anybody calls afterwards, a LOST fence that nobody threatens stays LOST and unthreatened. */
  lemma {:induction false} UnthreatenedStaysLost(s: System, schedule: seq<Move>, i: nat, j: nat, d: nat)
    requires LatchInv(s) && Schedulable(s, schedule) && i <= j <= |schedule| && d < |s.devices|
    requires LostAt(Run(s, schedule)[i], d) && Unthreatened(Run(s, schedule)[i], d)
    ensures LostAt(Run(s, schedule)[j], d) && Unthreatened(Run(s, schedule)[j], d)
    decreases j - i
  {
    hide LatchInv, SystemStep, LostAt, Unthreatened;
    if i < j {
      UnthreatenedStaysLost(s, schedule, i, j - 1, d);
      RunKeepsLatches(s, schedule, j - 1);
      LatchInvSystem(s);
      RunKeepsInvariant(s, schedule, j - 1);
      UnthreatenedStep(Run(s, schedule)[j - 1], schedule[j - 1].actor, schedule[j - 1].call, d);
    }
  }

  // ---- A threat can be carried out ----

  /** Latches of the view and of device d are n steps away from being used up. */
  predicate Room(g: Globals, dev: Device, n: nat) {
    g.controlLatch + n <= U64_MAX - 2 && dev.latch + n <= U64_MAX - 2 && g.telemetryLatch + n <= U64_MAX - 2
  }

  predicate Roomy(s: System, d: nat, n: nat) { Room(s.g, At(s.devices, d), n) }

  /** The actor holds a latch that a publisher of device d needs. */
  predicate Busy(pc: Pc, d: nat) {
    HoldsControl(pc) || HoldsFence(pc, d) || HoldsTelemetry(pc)
  }

  /** Steps an actor needs at most to give up every latch it holds. */
  function Rank(pc: Pc): nat {
    match pc
    case Replacing(_, ip) => IdentityRank(ip)
    case Writing(_, WField(_, k)) => if k < FENCE_WORDS then FENCE_WORDS + 1 - k else 2
    case Writing(_, WRelease(_)) => 1
    case Closing(CGate(_)) => 3
    case Closing(CTerminal(_)) => 2
    case Closing(_) => 1
    case _ => 0
  }

  function IdentityRank(ip: IdentityPoint): nat {
    match ip
    case IControlLoad => 17
    case IControlTake => 16
    case IFenceLoad => 15
    case IFenceTake => 14
    case ITelemetryLoad => 13
    case ITelemetryTake => 12
    case IWriteIdentity => 11
    case IWriteGeneration => 10
    case IWriteFence(k) => if k < FENCE_WORDS then FENCE_WORDS + 3 - k else 4
    case ITelemetryRelease => 3
    case IFenceRelease => 2
    case IControlRelease => 1
    case IUndoFence(_) => 2
    case IUndoControl(_) => 1
    case _ => 0
  }

  const LONGEST := 17

  lemma {:induction false} BusyIdentityStep(g: Globals, dev: Device, x: Identity, ip: IdentityPoint, d: nat)
    requires DeviceInv(dev) && IdentityInv(g, dev, x, ip) && Busy(Replacing(x, ip), d)
    ensures
      var e := IdentityStep(g, dev, x, ip);
      !Busy(e.pc, d) || Rank(e.pc) < Rank(Replacing(x, ip))
  {
  }

  lemma {:induction false} BusyStep(viewId: nat, g: Globals, dev: Device, count: nat, now: nat, pc: Pc, call: Call,
                                    d: nat)
    requires DeviceInv(dev) && Local(g, dev, now, pc) && Busy(pc, d)
    ensures
      var e := ActorStep(viewId, g, dev, count, now, pc, call);
      !Busy(e.pc, d) || Rank(e.pc) < Rank(pc)
    ensures Rank(pc) <= LONGEST
  {
    if pc.Replacing? {
      BusyIdentityStep(g, dev, pc.x, pc.ip, d);
      hide IdentityStep;
    }
  }

  /** A busy actor's step does not spoil another actor's threat. */
  lemma {:induction false} ThreatSurvives(viewId: nat, g: Globals, dev: Device, count: nat, now: nat, pc: Pc,
                                          call: Call,
                                          here: Device, a: Pc, d: nat)
    requires DeviceInv(dev) && Local(g, dev, now, pc) && Busy(pc, d) && Threat(g, here, a, d)
    requires Local(g, here, now, a) && !(HoldsControl(pc) && HoldsControl(a)) && (Target(pc) == d ==> here == dev)
    requires Target(pc) == d ==> Excludes(dev, RightsOf(pc), RightsOf(a))
    requires TelemetryInv(g.telemetryLatch, pc) && TelemetryInv(g.telemetryLatch, a)
    ensures
      var e := ActorStep(viewId, g, dev, count, now, pc, call);
      Threat(e.g, if Target(pc) == d then e.dev else here, a, d)
  {
    hide ReaderInv, MarkInv;
  }

  /** The state a schedule leads to. */
  function After(s: System, schedule: seq<Move>): System
    requires Schedulable(s, schedule)
  {
    Run(s, schedule)[|schedule|]
  }

  lemma {:induction false} AfterFirst(s: System, a: nat, rest: seq<Move>)
    requires a < |s.actors| && Schedulable(SystemStep(s, a, Stay), rest)
    ensures Schedulable(s, [Move(a, Stay)] + rest)
    ensures After(s, [Move(a, Stay)] + rest) == After(SystemStep(s, a, Stay), rest)
  {
    hide ActorStep;
    var schedule := [Move(a, Stay)] + rest;
    assert schedule[0] == Move(a, Stay) && schedule[1..] == rest;
  }

  lemma {:induction false} AfterBoth(s: System, first: seq<Move>, second: seq<Move>)
    requires Schedulable(s, first) && Schedulable(After(s, first), second)
    ensures Schedulable(s, first + second) && After(s, first + second) == After(After(s, first), second)
    decreases |first|
  {
    hide SystemStep;
    if first == [] {
      assert first + second == second;
    } else {
      var whole := first + second;
      var next := SystemStep(s, first[0].actor, first[0].call);
      assert whole[0] == first[0] && whole[1..] == first[1..] + second;
      assert Run(s, first)[1] == next;
      assert Run(s, first) == [s] + Run(next, first[1..]);
      AfterBoth(next, first[1..], second);
      assert Schedulable(s, whole);
      assert Run(s, whole) == [s] + Run(next, whole[1..]);
    }
  }

  lemma {:induction false} BusySystemStep(s: System, a: nat, b: nat, d: nat, n: nat)
    requires LatchInv(s) && a < |s.actors| && b < |s.actors| && a != b && d < |s.devices|
    requires Busy(s.actors[b], d) && Threatens(s, a, d) && Roomy(s, d, n + 1)
    ensures
      var s2 := SystemStep(s, b, Stay);
      && Threatens(s2, a, d) && Roomy(s2, d, n)
      && (!Busy(s2.actors[b], d) || Rank(s2.actors[b]) < Rank(s.actors[b]))
      && Rank(s.actors[b]) <= LONGEST
  {
    hide ActorStep, Local, DeviceInv, TelemetryInv, LatchesHeld, Threat, Busy, Rank, HoldsTelemetry, RightsOf, Target,
        SeesRestorable, Excludes;
    var pc, pca := s.actors[b], s.actors[a];
    MoverKnows(s, b);
    MoverKnows(s, a);
    MoverLatches(s, b, Stay);
    ThreatensHere(s.g, At(s.devices, d), pca, d);
    var dev := At(s.devices, Target(pc));
    assert PairInv(s, b, a) && TelemetryInv(s.g.telemetryLatch, pc) && TelemetryInv(s.g.telemetryLatch, pca);
    ActorStepPlaced(s.viewId, s.g, dev, |s.devices|, s.now, pc, Stay);
    BusyStep(s.viewId, s.g, dev, |s.devices|, s.now, pc, Stay, d);
    ThreatSurvives(s.viewId, s.g, dev, |s.devices|, s.now, pc, Stay, At(s.devices, d), pca, d);
  }

  /** The two schedules differ in nobody but b. */
  predicate OnlyMoved(s: System, r: System, b: nat) {
    |r.actors| == |s.actors| && |r.devices| == |s.devices| && forall c :: 0 <= c < |s.actors| && c != b ==>
        r.actors[c] == s.actors[c]
  }

  /** Run a busy actor until it holds nothing. */
  lemma {:induction false} Drain(s: System, a: nat, b: nat, d: nat, n: nat) returns (more: seq<Move>)
    requires LatchInv(s) && a < |s.actors| && b < |s.actors| && a != b && d < |s.devices|
    requires Threatens(s, a, d) && Roomy(s, d, n + Rank(s.actors[b]))
    ensures Schedulable(s, more)
    ensures
      var r := After(s, more);
      LatchInv(r) && OnlyMoved(s, r, b) && Threatens(r, a, d) && Roomy(r, d, n) && !Busy(r.actors[b], d)
    decreases Rank(s.actors[b])
  {
    hide LatchInv, ActorStep, Threatens, Busy, Rank;
    if !Busy(s.actors[b], d) {
      more := [];
    } else {
      BusyPositive(s.actors[b], d);
      var m := n + Rank(s.actors[b]) - 1;
      BusySystemStep(s, a, b, d, m);
      StepKeepsLatches(s, b, Stay);
      var s2 := SystemStep(s, b, Stay);
      if Busy(s2.actors[b], d) {
        var rest := Drain(s2, a, b, d, n);
        AfterFirst(s, b, rest);
        more := [Move(b, Stay)] + rest;
      } else {
        AfterFirst(s, b, []);
        more := [Move(b, Stay)] + [];
      }
    }
  }

  lemma {:induction false} BusyPositive(pc: Pc, d: nat)
    requires Busy(pc, d)
    ensures 0 < Rank(pc) <= LONGEST
  {
  }

  datatype Latch = ControlLatch | FenceLatch | TelemetryLatch

  predicate Holds(kind: Latch, pc: Pc, d: nat) {
    match kind
    case ControlLatch => HoldsControl(pc)
    case FenceLatch => HoldsFence(pc, d)
    case TelemetryLatch => HoldsTelemetry(pc)
  }

  /** Nobody but actor a holds the latch. */
  predicate FreeFor(s: System, a: nat, kind: Latch, d: nat) {
    forall c :: 0 <= c < |s.actors| && c != a ==> !Holds(kind, s.actors[c], d)
  }

  lemma {:induction false} OneHolder(s: System, kind: Latch, b: nat, c: nat, d: nat)
    requires LatchInv(s) && b < |s.actors| && c < |s.actors| && b != c
    ensures !(Holds(kind, s.actors[b], d) && Holds(kind, s.actors[c], d))
  {
    hide Local, DeviceInv, TelemetryInv, RightsOf, Target, HoldsTelemetry, SeesRestorable;
    assert PairInv(s, b, c);
  }

  /** Run whoever holds a latch that a needs until it is free; no other latch is taken meanwhile. */
  lemma {:induction false} Release(s: System, a: nat, kind: Latch, d: nat, n: nat) returns (more: seq<Move>)
    requires LatchInv(s) && a < |s.actors| && d < |s.devices| && Threatens(s, a, d) && Roomy(s, d, n + LONGEST)
    ensures Schedulable(s, more)
    ensures
      var r := After(s, more);
      && LatchInv(r) && |r.actors| == |s.actors| && |r.devices| == |s.devices| && r.actors[a] == s.actors[a]
      && Threatens(r, a, d) && Roomy(r, d, n) && FreeFor(r, a, kind, d)
      && (forall other :: FreeFor(s, a, other, d) ==> FreeFor(r, a, other, d))
  {
    hide LatchInv, Threatens, Holds, Rank;
    if FreeFor(s, a, kind, d) {
      more := [];
    } else {
      var b :| 0 <= b < |s.actors| && b != a && Holds(kind, s.actors[b], d);
      forall c | 0 <= c < |s.actors| && c != b ensures !Holds(kind, s.actors[c], d) { OneHolder(s, kind, b, c, d); }
      HolderBusy(kind, s.actors[b], d);
      BusyPositive(s.actors[b], d);
      more := Drain(s, a, b, d, n);
      var r := After(s, more);
      forall other ensures !Holds(other, r.actors[b], d) {
        if Holds(other, r.actors[b], d) { HolderBusy(other, r.actors[b], d); }
      }
    }
  }

  lemma {:induction false} HolderBusy(kind: Latch, pc: Pc, d: nat)
    requires Holds(kind, pc, d)
    ensures Busy(pc, d)
  {
  }

  /** Latches the publisher has not taken yet are free. */
  predicate Free(g: Globals, dev: Device, pc: Pc, d: nat) {
    && (HoldsControl(pc) || !Odd(g.controlLatch)) && (HoldsFence(pc, d) || !Odd(dev.latch))
    && (HoldsTelemetry(pc) || !Odd(g.telemetryLatch))
  }

  lemma {:induction false} AllFree(s: System, a: nat, d: nat)
    requires LatchInv(s) && a < |s.actors| && d < |s.devices|
    requires FreeFor(s, a, ControlLatch, d) && FreeFor(s, a, FenceLatch, d) && FreeFor(s, a, TelemetryLatch, d)
    ensures Free(s.g, At(s.devices, d), s.actors[a], d)
  {
    hide SystemInv, TelemetryExclusive, HoldsControl, HoldsFence, HoldsTelemetry;
    if Odd(s.g.controlLatch) {
      var c :| 0 <= c < |s.actors| && HoldsControl(s.actors[c]);
      assert Holds(ControlLatch, s.actors[c], d);
    }
    if Odd(s.g.telemetryLatch) {
      var c :| 0 <= c < |s.actors| && HoldsTelemetry(s.actors[c]);
      assert Holds(TelemetryLatch, s.actors[c], d);
    }
    if Odd(s.devices[d].latch) {
      var c :| 0 <= c < |s.actors| && HoldsFence(s.actors[c], d);
      assert Holds(FenceLatch, s.actors[c], d);
    }
  }

  /** Alone, a threatening publisher comes closer to its stores or has made them. */
  lemma {:induction false} SoloStep(g: Globals, dev: Device, x: Identity, ip: IdentityPoint)
    requires DeviceInv(dev) && IdentityInv(g, dev, x, ip) && TelemetryInv(g.telemetryLatch, Replacing(x, ip))
    requires Threat(g, dev, Replacing(x, ip), x.d) && Free(g, dev, Replacing(x, ip), x.d) && Room(g, dev, 0)
    ensures
      var e := IdentityStep(g, dev, x, ip);
      || !Lost(e.dev)
      || (&& e.pc.Replacing? && e.pc.x.d == x.d && Threat(e.g, e.dev, e.pc, x.d) && Free(e.g, e.dev, e.pc, x.d)
          && IdentityRank(e.pc.ip) < IdentityRank(ip))
  {
  }

  lemma {:induction false} Solo(s: System, a: nat, d: nat) returns (more: seq<Move>)
    requires LatchInv(s) && a < |s.actors| && d < |s.devices| && Threatens(s, a, d) && Roomy(s, d, Rank(s.actors[a]))
    requires Free(s.g, At(s.devices, d), s.actors[a], d)
    ensures Schedulable(s, more) && !LostAt(After(s, more), d)
    decreases Rank(s.actors[a])
  {
    hide LatchesHeld, Local, DeviceInv, IdentityStep, Threat, Free, IdentityRank, HoldsTelemetry, TelemetryInv,
        RightsOf;
    var pc := s.actors[a];
    var dev := At(s.devices, d);
    ThreatIsPublisher(s.g, dev, pc, d);
    MoverKnows(s, a);
    KnowsIdentity(s.g, dev, s.now, pc.x, pc.ip);
    MoverLatches(s, a, Stay);
    StepKeepsLatches(s, a, Stay);
    SoloStep(s.g, dev, pc.x, pc.ip);
    var s2 := SystemStep(s, a, Stay);
    assert At(s2.devices, d) == IdentityStep(s.g, dev, pc.x, pc.ip).dev;
    if LostAt(s2, d) {
      var rest := Solo(s2, a, d);
      AfterFirst(s, a, rest);
      more := [Move(a, Stay)] + rest;
    } else {
      AfterFirst(s, a, []);
      more := [Move(a, Stay)] + [];
    }
  }

  lemma {:induction false} ThreatIsPublisher(g: Globals, dev: Device, pc: Pc, d: nat)
    requires Threat(g, dev, pc, d)
    ensures pc.Replacing? && pc.x.d == d && 0 < IdentityRank(pc.ip) <= LONGEST
  {
  }

  lemma {:induction false} KnowsIdentity(g: Globals, dev: Device, now: nat, x: Identity, ip: IdentityPoint)
    requires Local(g, dev, now, Replacing(x, ip))
    ensures IdentityInv(g, dev, x, ip)
  {
  }

  /** Steps within which every threat can be carried out. */
  const ENOUGH := 4 * LONGEST

  lemma {:induction false} ThreatComesTrue(s: System, a: nat, d: nat) returns (more: seq<Move>)
    requires LatchInv(s) && a < |s.actors| && d < |s.devices| && Threatens(s, a, d) && Roomy(s, d, ENOUGH)
    ensures Schedulable(s, more) && !LostAt(After(s, more), d)
  {
    hide LatchInv, Threatens, Holds, FreeFor, Free, After, LostAt;
    var m1 := Release(s, a, ControlLatch, d, 3 * LONGEST);
    var s1 := After(s, m1);
    var m2 := Release(s1, a, FenceLatch, d, 2 * LONGEST);
    var s2 := After(s1, m2);
    var m3 := Release(s2, a, TelemetryLatch, d, LONGEST);
    var s3 := After(s2, m3);
    AllFree(s3, a, d);
    ThreatenerRank(s3, a, d);
    var m4 := Solo(s3, a, d);
    AfterBoth(s2, m3, m4);
    AfterBoth(s1, m2, m3 + m4);
    AfterBoth(s, m1, m2 + (m3 + m4));
    more := m1 + (m2 + (m3 + m4));
  }

  lemma {:induction false} ThreatenerRank(s: System, a: nat, d: nat)
    requires a < |s.actors| && Threatens(s, a, d)
    ensures Rank(s.actors[a]) <= LONGEST
    ensures forall m, n :: n <= m && Roomy(s, d, m) ==> Roomy(s, d, n)
  {
    ThreatIsPublisher(s.g, At(s.devices, d), s.actors[a], d);
  }

  // ---- Exactly when LOST is final ----

  ghost predicate StaysLost(s: System, d: nat) {
    forall more: seq<Move> :: Schedulable(s, more) ==> LostAt(After(s, more), d)
  }

  /**
   * In every reachable state with a LOST fence: if nobody threatens it, it stays LOST whatever is called
   * afterwards.  If somebody does, some continuation overwrites it, provided the latches are not about to be
   * used up.
   */
  lemma {:induction false} LostFinalIffUnthreatened(s: System, schedule: seq<Move>, i: nat, d: nat)
    requires InitialSystem(s) && Schedulable(s, schedule) && i <= |schedule| && d < |s.devices|
    requires LostAt(Run(s, schedule)[i], d)
    ensures
      var r := Run(s, schedule)[i];
      && (Unthreatened(r, d) ==> StaysLost(r, d))
      && (Roomy(r, d, ENOUGH) ==> (StaysLost(r, d) <==> Unthreatened(r, d)))
  {
    hide LatchInv, SystemStep, LostAt, Threatens, InitialSystem, Roomy;
    var r := Run(s, schedule)[i];
    InitialLatches(s);
    LatchInvSystem(s);
    RunKeepsLatches(s, schedule, i);
    RunKeepsInvariant(s, schedule, i);
    if Unthreatened(r, d) {
      forall more: seq<Move> | Schedulable(r, more) ensures LostAt(After(r, more), d) {
        UnthreatenedStaysLost(r, more, 0, |more|, d);
      }
    } else if Roomy(r, d, ENOUGH) {
      var a :| 0 <= a < |r.actors| && Threatens(r, a, d);
      var more := ThreatComesTrue(r, a, d);
      assert !LostAt(After(r, more), d);
    }
  }

  /** No call up to time i publishes an identity on device d. */
  predicate NoIdentityCall(schedule: seq<Move>, i: nat, d: nat) {
    forall j :: 0 <= j < i && j < |schedule| && schedule[j].call.PublishIdentity? ==> schedule[j].call.x.d != d
  }

  lemma {:induction false} NoReplacing(s: System, schedule: seq<Move>, i: nat, a: nat, d: nat)
    requires InitialSystem(s) && Schedulable(s, schedule) && i <= |schedule| && a < |s.actors|
        && NoIdentityCall(schedule, i, d)
    ensures var pc := Run(s, schedule)[i].actors[a]; pc.Replacing? ==> pc.x.d != d
  {
    hide ActorStep;
    if i > 0 {
      NoReplacing(s, schedule, i - 1, a, d);
      var before := Run(s, schedule)[i - 1];
      ReplacingStep(before.viewId, before.g, At(before.devices, Target(before.actors[a])), |before.devices|, before.now,
                    before.actors[a], schedule[i - 1].call);
    }
  }

  /** A device lost before anybody published an identity on it stays LOST, whatever is called later. */
  lemma {:induction false} LostIsFinal(s: System, schedule: seq<Move>, i: nat, j: nat, d: nat)
    requires InitialSystem(s) && Schedulable(s, schedule) && i <= j <= |schedule| && d < |s.devices|
    requires NoIdentityCall(schedule, i, d) && LostAt(Run(s, schedule)[i], d)
    ensures LostAt(Run(s, schedule)[j], d)
  {
    hide SystemStep, SystemInv, LatchesHeld, TelemetryExclusive;
    var r := Run(s, schedule)[i];
    forall a | 0 <= a < |r.actors| ensures !Threatens(r, a, d) { NoReplacing(s, schedule, i, a, d); }
    InitialLatches(s);
    RunKeepsInvariant(s, schedule, i);
    UnthreatenedStaysLost(s, schedule, i, j, d);
  }
}
