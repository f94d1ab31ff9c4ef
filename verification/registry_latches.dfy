// Who holds the latches of a registry view: an odd latch has exactly one holder, and latches only grow.
module RegistryLatches {
  import opened RegistryProtocol
  import opened RegistryInvariants
  import opened RegistrySafety
  import opened RegistryTheorems

  // ---- The telemetry latch ----

  predicate HoldsTelemetry(pc: Pc) {
    || (pc.Closing? && pc.cp.TRelease?)
    || (pc.Replacing?
          && (pc.ip.IWriteIdentity? || pc.ip.IWriteGeneration? || pc.ip.IWriteFence? || pc.ip.ITelemetryRelease?))
  }

  /** The value an actor read, or took, the telemetry latch at. */
  function TelemetrySeen(pc: Pc): nat {
    match pc
    case Closing(TTake(even)) => even
    case Closing(TRelease(even)) => even
    case Replacing(x, _) => x.telemetry
    case _ => 0
  }

  ghost predicate TelemetryInv(latch: nat, pc: Pc) {
    && (HoldsTelemetry(pc) ==> Held(latch, TelemetrySeen(pc)))
    && ((pc.Closing? && pc.cp.TTake?) || (pc.Replacing? && pc.ip.ITelemetryTake?) ==>
          TelemetrySeen(pc) <= latch && !Odd(TelemetrySeen(pc)))
  }

  /** A step takes the latch, releases it, or leaves it. */
  ghost predicate LatchMoves(latch: nat, holds: bool, latch2: nat, holds2: bool) {
    if latch2 == latch then holds2 == holds
    else latch2 == latch + 1 && holds2 == !holds && (holds2 <==> !Odd(latch))
  }

  lemma {:induction false} TelemetryIdentityStep(g: Globals, dev: Device, x: Identity, ip: IdentityPoint)
    requires TelemetryInv(g.telemetryLatch, Replacing(x, ip)) && IdentityInv(g, dev, x, ip) && DeviceInv(dev)
    ensures
      var e := IdentityStep(g, dev, x, ip);
      && TelemetryInv(e.g.telemetryLatch, e.pc)
      && LatchMoves(g.telemetryLatch, HoldsTelemetry(Replacing(x, ip)), e.g.telemetryLatch, HoldsTelemetry(e.pc))
  {
  }

  lemma {:induction false} TelemetryStep(viewId: nat, g: Globals, dev: Device, count: nat, now: nat, pc: Pc, call: Call)
    requires TelemetryInv(g.telemetryLatch, pc) && DeviceInv(dev) && Local(g, dev, now, pc)
    ensures
      var e := ActorStep(viewId, g, dev, count, now, pc, call);
      && TelemetryInv(e.g.telemetryLatch, e.pc)
      && LatchMoves(g.telemetryLatch, HoldsTelemetry(pc), e.g.telemetryLatch, HoldsTelemetry(e.pc))
  {
    if pc.Replacing? {
      TelemetryIdentityStep(g, dev, pc.x, pc.ip);
    }
  }

  lemma {:induction false} TelemetryUndisturbed(latch: nat, holds: bool, latch2: nat, holds2: bool, pc: Pc)
    requires LatchMoves(latch, holds, latch2, holds2) && TelemetryInv(latch, pc) && !(holds && HoldsTelemetry(pc))
    ensures TelemetryInv(latch2, pc) && !(holds2 && HoldsTelemetry(pc))
  {
  }

  // ---- Every odd latch has a holder ----

  predicate HoldsControl(pc: Pc) { RightsOf(pc).control }

  predicate HoldsFence(pc: Pc, d: nat) { Target(pc) == d && RightsOf(pc).latch }

  ghost predicate LatchesHeld(s: System) {
    && (Odd(s.g.controlLatch) ==> exists a :: 0 <= a < |s.actors| && HoldsControl(s.actors[a]))
    && (Odd(s.g.telemetryLatch) ==> exists a :: 0 <= a < |s.actors| && HoldsTelemetry(s.actors[a]))
    && (forall d :: 0 <= d < |s.devices| && Odd(s.devices[d].latch) ==>
          exists a :: 0 <= a < |s.actors| && HoldsFence(s.actors[a], d))
  }

  ghost predicate TelemetryExclusive(s: System) {
    && (forall a :: 0 <= a < |s.actors| ==> TelemetryInv(s.g.telemetryLatch, s.actors[a]))
    && (forall a, b :: 0 <= a < |s.actors| && 0 <= b < |s.actors| && a != b ==>
          !(HoldsTelemetry(s.actors[a]) && HoldsTelemetry(s.actors[b])))
  }

  ghost predicate LatchInv(s: System) {
    SystemInv(s) && TelemetryExclusive(s) && LatchesHeld(s)
  }

  lemma {:induction false} InitialLatches(s: System)
    requires InitialSystem(s)
    ensures LatchInv(s)
  {
    InitialSystemInv(s);
  }

  /** The latches the moving actor may touch. */
  lemma {:induction false} MoverLatches(s: System, a: nat, call: Call)
    requires LatchInv(s) && a < |s.actors|
    ensures
      var d, s2 := Target(s.actors[a]), SystemStep(s, a, call);
      && TelemetryInv(s2.g.telemetryLatch, s2.actors[a])
      && LatchMoves(s.g.telemetryLatch, HoldsTelemetry(s.actors[a]), s2.g.telemetryLatch, HoldsTelemetry(s2.actors[a]))
      && LatchMoves(s.g.controlLatch, HoldsControl(s.actors[a]), s2.g.controlLatch, HoldsControl(s2.actors[a]))
      && LatchMoves(At(s.devices, d).latch, HoldsFence(s.actors[a], d), At(s2.devices, d).latch,
                    HoldsFence(s2.actors[a], d))
      && (forall far :: far != d ==> At(s2.devices, far) == At(s.devices, far) && !HoldsFence(s2.actors[a], far))
  {
    hide Local, ActorStep, RightsOf, DeviceInv, TelemetryInv, HoldsTelemetry, Unanchored, Target, Placed, LatchesHeld,
        SystemInv,
      WordMoves;
    var pc := s.actors[a];
    var d := Target(pc);
    var dev := At(s.devices, d);
    MoverKnows(s, a);
    TelemetryStep(s.viewId, s.g, dev, |s.devices|, s.now, pc, call);
    ActorStepKeeps(s.viewId, s.g, dev, |s.devices|, s.now, pc, call);
    ActorStepRelocates(s.viewId, s.g, dev, |s.devices|, s.now, pc, call);
    ActorStepPlaced(s.viewId, s.g, dev, |s.devices|, s.now, pc, call);
    var e := ActorStep(s.viewId, s.g, dev, |s.devices|, s.now, pc, call);
    if Target(e.pc) != d {
      UnanchoredAnywhere(e.g, e.dev, s.now + 1, e.pc, e.dev);
    }
  }

  lemma {:induction false} TelemetryKept(s: System, a: nat, call: Call)
    requires LatchInv(s) && a < |s.actors|
    ensures TelemetryExclusive(SystemStep(s, a, call))
  {
    hide SystemInv, LatchesHeld, ActorStep, TelemetryInv, HoldsTelemetry, HoldsControl, HoldsFence, LatchMoves, Target;
    var s2 := SystemStep(s, a, call);
    MoverLatches(s, a, call);
    forall b | 0 <= b < |s.actors| && b != a
      ensures TelemetryInv(s2.g.telemetryLatch, s2.actors[b])
          && !(HoldsTelemetry(s2.actors[a]) && HoldsTelemetry(s2.actors[b]))
    {
      TelemetryUndisturbed(s.g.telemetryLatch, HoldsTelemetry(s.actors[a]), s2.g.telemetryLatch,
                           HoldsTelemetry(s2.actors[a]),
                           s.actors[b]);
    }
  }

  /** A latch that is odd after a step is held by the mover or by whoever held it before. */
  lemma {:induction false} HoldersKept(s: System, a: nat, call: Call)
    requires LatchInv(s) && a < |s.actors|
    ensures LatchesHeld(SystemStep(s, a, call))
  {
    hide SystemInv, ActorStep, TelemetryInv, HoldsTelemetry, HoldsControl, RightsOf, Target, TelemetryExclusive;
    var s2 := SystemStep(s, a, call);
    MoverLatches(s, a, call);
    assert forall b :: 0 <= b < |s.actors| && b != a ==> s2.actors[b] == s.actors[b];
    assert |s2.actors| == |s.actors|;
    if Odd(s2.g.controlLatch) && !HoldsControl(s2.actors[a]) {
      var b :| 0 <= b < |s.actors| && HoldsControl(s.actors[b]);
      assert HoldsControl(s2.actors[b]);
    }
    if Odd(s2.g.telemetryLatch) && !HoldsTelemetry(s2.actors[a]) {
      var b :| 0 <= b < |s.actors| && HoldsTelemetry(s.actors[b]);
      assert HoldsTelemetry(s2.actors[b]);
    }
    forall d | 0 <= d < |s2.devices| && Odd(s2.devices[d].latch)
      ensures exists b :: 0 <= b < |s2.actors| && HoldsFence(s2.actors[b], d)
    {
      assert At(s2.devices, d) == s2.devices[d] && At(s.devices, d) == s.devices[d];
      if !HoldsFence(s2.actors[a], d) {
        var b :| 0 <= b < |s.actors| && HoldsFence(s.actors[b], d);
        assert HoldsFence(s2.actors[b], d);
      }
    }
  }

  lemma {:induction false} StepKeepsLatches(s: System, a: nat, call: Call)
    requires LatchInv(s) && a < |s.actors|
    ensures LatchInv(SystemStep(s, a, call))
  {
    hide SystemInv, LatchesHeld, TelemetryExclusive, SystemStep;
    StepKeepsSystem(s, a, call);
    TelemetryKept(s, a, call);
    HoldersKept(s, a, call);
  }

  lemma {:induction false} RunKeepsLatches(s: System, schedule: seq<Move>, i: nat)
    requires LatchInv(s) && Schedulable(s, schedule) && i <= |schedule|
    ensures LatchInv(Run(s, schedule)[i])
  {
    hide LatchInv, SystemStep;
    if i > 0 {
      RunKeepsLatches(s, schedule, i - 1);
      StepKeepsLatches(Run(s, schedule)[i - 1], schedule[i - 1].actor, schedule[i - 1].call);
    }
  }
}
