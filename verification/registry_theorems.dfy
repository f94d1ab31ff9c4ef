// What the registry guarantees over every run: validation linearizes, closing is final, and which
// steps may replace a LOST fence.
module RegistryTheorems {
  import opened RegistryProtocol
  import opened RegistryInvariants
  import opened RegistrySafety

  lemma {:induction false} RunKeepsInvariant(s: System, schedule: seq<Move>, i: nat)
    requires SystemInv(s) && Schedulable(s, schedule) && i <= |schedule|
    ensures SystemInv(Run(s, schedule)[i]) && Run(s, schedule)[i].now == s.now + i
    ensures |Run(s, schedule)[i].devices| == |s.devices| && Run(s, schedule)[i].viewId == s.viewId
  {
    hide SystemInv, ActorStep;
    var run := Run(s, schedule);
    if i > 0 {
      RunKeepsInvariant(s, schedule, i - 1);
      StepKeepsSystem(run[i - 1], schedule[i - 1].actor, schedule[i - 1].call);
    }
  }

  lemma {:induction false} RunAppend(s: System, schedule: seq<Move>, more: Move)
    requires Schedulable(s, schedule) && more.actor < |s.actors|
    ensures Schedulable(s, schedule + [more])
    ensures Run(s, schedule + [more])
         == Run(s, schedule) + [SystemStep(Run(s, schedule)[|schedule|], more.actor, more.call)]
    decreases |schedule|
  {
    hide SystemStep;
    var whole := schedule + [more];
    if schedule == [] {
      assert whole == [more] && whole[1..] == [];
    } else {
      var next := SystemStep(s, schedule[0].actor, schedule[0].call);
      assert whole[0] == schedule[0] && whole[1..] == schedule[1..] + [more];
      assert Run(s, schedule)[1] == next && Run(s, schedule) == [s] + Run(next, schedule[1..]);
      RunAppend(next, schedule[1..], more);
      assert Run(s, whole) == [s] + Run(next, whole[1..]);
    }
  }

  // ---- Where a reader's records come from ----

  /** The call of actor `a` was issued at time `start`. */
  ghost predicate Began(run: seq<System>, schedule: seq<Move>, i: nat, a: nat, h: Handle, start: nat)
    requires i < |run| == |schedule| + 1
  {
    && start < i && schedule[start] == Move(a, Validate(h)) && a < |run[start].actors| && run[start].actors[a] == Idle
    && h.viewId == run[0].viewId
  }

  /** After the call was issued the device was found under the handle's identity and, later, with its generation. */
  ghost predicate Matched(run: seq<System>, i: nat, d: nat, h: Handle, start: nat)
    requires i < |run|
  {
    exists m, n :: start < m < n < i && At(run[m].devices, d).identity == h.identity
      && At(run[n].devices, d).committed == h.generation
  }

  ghost predicate Found(run: seq<System>, i: nat, d: nat, h: Handle, start: nat)
    requires i < |run|
  {
    exists m :: start < m < i && At(run[m].devices, d).identity == h.identity
  }

  /** The reader's instant is the state of the mapping at that time, after its device was matched. */
  ghost predicate Recorded(run: seq<System>, i: nat, r: Reader)
    requires i < |run|
  {
    && r.at.time < i && run[r.at.time].g == r.at.globals && At(run[r.at.time].devices, r.d) == r.at.device
    && Matched(run, r.at.time, r.d, r.handle, r.start)
  }

  ghost predicate Traced(run: seq<System>, schedule: seq<Move>, i: nat, a: nat, pc: Pc)
    requires i < |run| == |schedule| + 1
  {
    match pc
    case Finding(h, start, _) => Began(run, schedule, i, a, h, start)
    case Matching(h, start, d) => Began(run, schedule, i, a, h, start) && Found(run, i, d, h, start)
    case Reading(r, rp) =>
      && Began(run, schedule, i, a, r.handle, r.start) && Matched(run, i, r.d, r.handle, r.start)
      && (JudgingPoint(rp) ==> Recorded(run, i, r))
    case Validated(r) =>
      Began(run, schedule, i, a, r.handle, r.start) && Recorded(run, i, r)
    case _ => true
  }

  predicate ValidationPc(pc: Pc) { pc.Finding? || pc.Matching? || pc.Reading? || pc.Validated? }

  lemma {:induction false} ReaderStepTraces(g: Globals, dev: Device, now: nat, r: Reader, rp: ReaderPoint)
    ensures
      var pc := ReaderStep(g, dev, now, r, rp);
      && (pc.Reading? || pc.Validated? ==> pc.r.handle == r.handle && pc.r.start == r.start && pc.r.d == r.d)
      && (pc.Reading? && JudgingPoint(pc.rp) ==>
            if rp.RDevice? then pc.r.at == Instant(now, g, dev) else JudgingPoint(rp) && pc.r.at == r.at)
      && (pc.Validated? ==> JudgingPoint(rp) && pc.r.at == r.at)
      && !pc.Finding? && !pc.Matching?
  {
  }

  lemma {:induction false} OthersNeverValidate(viewId: nat, g: Globals, dev: Device, count: nat, now: nat, pc: Pc,
                                               call: Call)
    requires !ValidationPc(pc) && !pc.Idle?
    ensures !ValidationPc(ActorStep(viewId, g, dev, count, now, pc, call).pc)
  {
  }

  lemma {:induction false} TraceStep(run: seq<System>, schedule: seq<Move>, i: nat, a: nat)
    requires i + 1 < |run| == |schedule| + 1 && run[i].now == i && run[i].viewId == run[0].viewId
    requires a < |run[i].actors| && schedule[i].actor < |run[i].actors|
    requires run[i + 1] == SystemStep(run[i], schedule[i].actor, schedule[i].call)
    requires Traced(run, schedule, i, a, run[i].actors[a])
    ensures Traced(run, schedule, i + 1, a, run[i + 1].actors[a])
  {
    hide ReaderStep, MarkStep, ClaimStep, WriterStep, IdentityStep, CloseStep;
    var s, pc := run[i], run[i].actors[a];
    var dev := At(s.devices, Target(pc));
    if pc.Reading? {
      ReaderStepTraces(s.g, dev, i, pc.r, pc.rp);
    } else if pc.Finding? && schedule[i].actor == a {
      assert dev.identity == pc.h.identity ==> Found(run, i + 1, pc.i, pc.h, pc.start);
    } else if pc.Matching? && schedule[i].actor == a {
      var m :| pc.start < m < i && At(run[m].devices, pc.i).identity == pc.h.identity;
      assert At(run[m].devices, pc.i).identity == pc.h.identity && At(run[i].devices, pc.i) == dev;
    } else if !ValidationPc(pc) && !pc.Idle? {
      OthersNeverValidate(s.viewId, s.g, dev, |s.devices|, i, pc, schedule[i].call);
    }
  }

  lemma {:induction false} RunTraced(s: System, schedule: seq<Move>, i: nat, a: nat)
    requires InitialSystem(s) && Schedulable(s, schedule) && i <= |schedule| && a < |s.actors|
    ensures Traced(Run(s, schedule), schedule, i, a, Run(s, schedule)[i].actors[a])
  {
    hide SystemInv, SystemStep, Traced;
    var run := Run(s, schedule);
    InitialSystemInv(s);
    RunKeepsInvariant(s, schedule, i);
    if i == 0 {
      assert Traced(run, schedule, 0, a, Idle) by { IdleTraced(run, schedule, 0, a); }
    } else {
      RunTraced(s, schedule, i - 1, a);
      RunKeepsInvariant(s, schedule, i - 1);
      TraceStep(run, schedule, i - 1, a);
    }
  }

  lemma {:induction false} IdleTraced(run: seq<System>, schedule: seq<Move>, i: nat, a: nat)
    requires i < |run| == |schedule| + 1
    ensures Traced(run, schedule, i, a, Idle)
  {
  }

  // ---- Fences are never torn ----

  /** The call asked for exactly this fence payload on device d. */
  predicate Asks(call: Call, d: nat, fence: seq<nat>) {
    match call
    case PublishFence(e, _, intended) => e == d && fence == intended
    case PublishIdentity(x) => x.d == d && fence == x.intended
    case MarkLost(e, sequence, epoch) =>
      e == d && |fence| == FENCE_WORDS && fence[1..] == [sequence, epoch, 0, 0, LOST]
    case _ => false
  }

  /** Some call among the first i asked for this payload. */
  ghost predicate Asked(schedule: seq<Move>, i: nat, d: nat, fence: seq<nat>) {
    exists j :: 0 <= j < i && j < |schedule| && Asks(schedule[j].call, d, fence)
  }

  /** The payload an actor carries. */
  ghost predicate Carries(schedule: seq<Move>, i: nat, pc: Pc) {
    match pc
    case Claiming(d, _, intended) => Asked(schedule, i, d, intended)
    case Marking(d, sequence, epoch, _) => forall id: nat :: Asked(schedule, i, d, [id, sequence, epoch, 0, 0, LOST])
    case Writing(w, _) => Asked(schedule, i, w.d, w.intended)
    case Replacing(x, _) => Asked(schedule, i, x.d, x.intended)
    case _ => true
  }

  /** The actor is between its first fence store and the release of the latch. */
  predicate Storing(pc: Pc) {
    || (pc.Writing? && (pc.wp.WField? || pc.wp.WRelease?))
    || (pc.Replacing? && Committing(pc.ip) && !pc.ip.IControlRelease? && !pc.ip.IReopen?)
  }

  ghost predicate BeingStored(s: System, d: nat) {
    exists a :: 0 <= a < |s.actors| && Target(s.actors[a]) == d && Storing(s.actors[a])
  }

  ghost predicate Whole(first: System, schedule: seq<Move>, i: nat, d: nat, fence: seq<nat>) {
    fence == At(first.devices, d).fence || Asked(schedule, i, d, fence)
  }

  lemma {:induction false} AskedLater(schedule: seq<Move>, i: nat, j: nat, d: nat, fence: seq<nat>)
    requires i <= j && Asked(schedule, i, d, fence)
    ensures Asked(schedule, j, d, fence)
  {
  }

  lemma {:induction false} AskedNow(schedule: seq<Move>, i: nat, d: nat, fence: seq<nat>)
    requires i < |schedule| && Asks(schedule[i].call, d, fence)
    ensures Asked(schedule, i + 1, d, fence)
  {
  }

  lemma {:induction false} CarriesLater(schedule: seq<Move>, i: nat, pc: Pc)
    requires Carries(schedule, i, pc)
    ensures Carries(schedule, i + 1, pc)
  {
    match pc
    case Claiming(d, _, intended) => AskedLater(schedule, i, i + 1, d, intended);
    case Marking(d, sequence, epoch, _) =>
      forall id: nat { AskedLater(schedule, i, i + 1, d, [id, sequence, epoch, 0, 0, LOST]); }
    case Writing(w, _) => AskedLater(schedule, i, i + 1, w.d, w.intended);
    case Replacing(x, _) => AskedLater(schedule, i, i + 1, x.d, x.intended);
    case _ =>
  }

  lemma {:induction false} BeginCarries(viewId: nat, count: nat, now: nat, schedule: seq<Move>, i: nat)
    requires i < |schedule|
    ensures Carries(schedule, i + 1, Begin(viewId, count, now, schedule[i].call))
  {
    match schedule[i].call
    case PublishFence(d, _, intended) => AskedNow(schedule, i, d, intended);
    case MarkLost(d, sequence, epoch) =>
      forall id: nat ensures Asked(schedule, i + 1, d, [id, sequence, epoch, 0, 0, LOST]) {
        AskedNow(schedule, i, d, [id, sequence, epoch, 0, 0, LOST]);
      }
    case PublishIdentity(x) => AskedNow(schedule, i, x.d, x.intended);
    case _ =>
  }

  lemma {:induction false} StepCarries(viewId: nat, g: Globals, dev: Device, count: nat, now: nat, pc: Pc,
                                       schedule: seq<Move>, i: nat)
    requires i < |schedule| && Carries(schedule, i, pc)
    ensures Carries(schedule, i + 1, ActorStep(viewId, g, dev, count, now, pc, schedule[i].call).pc)
  {
    hide Asked;
    CarriesLater(schedule, i, pc);
    BeginCarries(viewId, count, now, schedule, i);
  }

  lemma {:induction false} RunCarries(s: System, schedule: seq<Move>, i: nat, a: nat)
    requires InitialSystem(s) && Schedulable(s, schedule) && i <= |schedule| && a < |s.actors|
    ensures Carries(schedule, i, Run(s, schedule)[i].actors[a])
  {
    hide ActorStep, Asked;
    if i > 0 {
      RunCarries(s, schedule, i - 1, a);
      var before := Run(s, schedule)[i - 1];
      var pc := before.actors[a];
      if schedule[i - 1].actor == a {
        StepCarries(before.viewId, before.g, At(before.devices, Target(pc)), |before.devices|, before.now, pc, schedule,
                    i - 1);
      } else {
        CarriesLater(schedule, i - 1, pc);
      }
    }
  }

  /** The payload a storing actor is writing. */
  function Payload(pc: Pc): seq<nat> {
    if pc.Writing? then pc.w.intended else if pc.Replacing? then pc.x.intended else []
  }

  /** Only a storing actor changes a fence, and it leaves its whole payload behind. */
  lemma {:induction false} StoreStep(viewId: nat, g: Globals, dev: Device, count: nat, now: nat, pc: Pc, call: Call)
    requires DeviceInv(dev) && Local(g, dev, now, pc)
    ensures
      var e := ActorStep(viewId, g, dev, count, now, pc, call);
      && (!Storing(pc) ==> e.dev.fence == dev.fence)
      && (Storing(pc) && !Storing(e.pc) ==> e.dev.fence == Payload(pc))
      && (Storing(e.pc) ==> Target(e.pc) == Target(pc))
  {
    match pc
    case Writing(w, wp) => WriterStores(dev, w, wp);
    case Replacing(x, ip) => IdentityStores(g, dev, x, ip);
    case _ =>
    hide WriterStep, IdentityStep, WriterInv, IdentityInv, ReaderInv;
  }

  lemma {:induction false} WriterStores(dev: Device, w: Writer, wp: WriterPoint)
    requires DeviceInv(dev) && WriterInv(dev, w, wp)
    ensures
      var (dev2, pc2) := WriterStep(dev, w, wp);
      && (!Storing(Writing(w, wp)) ==> dev2.fence == dev.fence)
      && (Storing(Writing(w, wp)) && !Storing(pc2) ==> dev2.fence == w.intended)
      && (Storing(pc2) ==> Target(pc2) == w.d)
  {
  }

  lemma {:induction false} IdentityStores(g: Globals, dev: Device, x: Identity, ip: IdentityPoint)
    requires DeviceInv(dev) && IdentityInv(g, dev, x, ip)
    ensures
      var e := IdentityStep(g, dev, x, ip);
      && (!Storing(Replacing(x, ip)) ==> e.dev.fence == dev.fence)
      && (Storing(Replacing(x, ip)) && !Storing(e.pc) ==> e.dev.fence == x.intended)
      && (Storing(e.pc) ==> Target(e.pc) == x.d)
  {
  }

  /**
   * In every reachable state, a fence nobody is storing is word for word the initial fence of that
   * device or a payload some earlier call asked for.
   */
  lemma {:induction false} FencesNeverTorn(s: System, schedule: seq<Move>, i: nat, d: nat)
    requires InitialSystem(s) && Schedulable(s, schedule) && i <= |schedule|
    requires !BeingStored(Run(s, schedule)[i], d)
    ensures Whole(s, schedule, i, d, At(Run(s, schedule)[i].devices, d).fence)
  {
    hide ActorStep, Asked, SystemInv, Local, DeviceInv, Storing, Target, Carries;
    if i > 0 {
      var before, move := Run(s, schedule)[i - 1], schedule[i - 1];
      var pc := before.actors[move.actor];
      var dev := At(before.devices, Target(pc));
      InitialSystemInv(s);
      RunKeepsInvariant(s, schedule, i - 1);
      MoverKnows(before, move.actor);
      StoreStep(before.viewId, before.g, dev, |before.devices|, before.now, pc, move.call);
      ActorStepPlaced(before.viewId, before.g, dev, |before.devices|, before.now, pc, move.call);
      assert Run(s, schedule)[i].actors[move.actor]
          == ActorStep(before.viewId, before.g, dev, |before.devices|, before.now, pc, move.call).pc;
      if Storing(pc) && Target(pc) == d {
        StoredPayload(s, schedule, i, d);
      } else {
        forall a | 0 <= a < |before.actors| && Target(before.actors[a]) == d ensures !Storing(before.actors[a]) {
          if a != move.actor { assert Run(s, schedule)[i].actors[a] == before.actors[a]; }
        }
        FencesNeverTorn(s, schedule, i - 1, d);
        if Asked(schedule, i - 1, d, At(before.devices, d).fence) {
          AskedLater(schedule, i - 1, i, d, At(before.devices, d).fence);
        }
      }
    }
  }

  lemma {:induction false} MoverKnows(s: System, a: nat)
    requires SystemInv(s) && a < |s.actors|
    ensures DeviceInv(At(s.devices, Target(s.actors[a]))) && Placed(s.actors[a], |s.devices|)
    ensures Local(s.g, At(s.devices, Target(s.actors[a])), s.now, s.actors[a])
  {
    assert ActorInv(s, a);
    NoDeviceInv();
  }

  /** A storing actor on device d that has just finished left a payload that was asked for. */
  lemma {:induction false} StoredPayload(s: System, schedule: seq<Move>, i: nat, d: nat)
    requires InitialSystem(s) && Schedulable(s, schedule) && 0 < i <= |schedule|
    requires
      var pc := Run(s, schedule)[i - 1].actors[schedule[i - 1].actor];
      Storing(pc) && Target(pc) == d && !Storing(Run(s, schedule)[i].actors[schedule[i - 1].actor])
    ensures Asked(schedule, i, d, At(Run(s, schedule)[i].devices, d).fence)
  {
    hide ActorStep, Asked, SystemInv, Local, DeviceInv;
    var before, move := Run(s, schedule)[i - 1], schedule[i - 1];
    var pc := before.actors[move.actor];
    var dev := At(before.devices, Target(pc));
    InitialSystemInv(s);
    RunKeepsInvariant(s, schedule, i - 1);
    MoverKnows(before, move.actor);
    StoreStep(before.viewId, before.g, dev, |before.devices|, before.now, pc, move.call);
    RunCarries(s, schedule, i - 1, move.actor);
    AskedLater(schedule, i - 1, i, d, Payload(pc));
  }

  // ---- Validation linearizes at its first device load ----

  /** Some actor may be writing the fence of device d. */
  predicate FenceHeld(s: System, d: nat) {
    exists a :: 0 <= a < |s.actors| && Target(s.actors[a]) == d && RightsOf(s.actors[a]).latch
  }

  lemma {:induction false} OpenDeviceUnheld(s: System, d: nat)
    requires SystemInv(s) && At(s.devices, d).word.state.Open?
    ensures !FenceHeld(s, d)
  {
    forall a | 0 <= a < |s.actors| && Target(s.actors[a]) == d ensures !RightsOf(s.actors[a]).latch {
      assert ActorInv(s, a);
    }
  }

  /**
   * A validation that succeeds was for a handle of this view, and found its device under the handle's identity and
   * then with the handle's generation.  At one instant after that and before its return the view and the gate were
   * open, the device was open, nobody was writing its fence, and the fence it returns was that device's fence:
   * ONLINE, for the handle's identity record, and one whole payload.
   */
  lemma {:induction false} ValidationLinearizes(s: System, schedule: seq<Move>, i: nat, a: nat, r: Reader)
    requires InitialSystem(s) && Schedulable(s, schedule) && i <= |schedule| && a < |s.actors|
    requires Run(s, schedule)[i].actors[a] == Validated(r)
    ensures
      var run := Run(s, schedule);
      && r.start <= r.at.time < i && r.handle.viewId == s.viewId
      && Matched(run, r.at.time, r.d, r.handle, r.start)
      && schedule[r.start] == Move(a, Validate(r.handle)) && run[r.start].actors[a] == Idle
      && Linearized(run[r.at.time], r.d, r.handle, r.fence)
      && Whole(s, schedule, r.at.time, r.d, r.fence)
  {
    hide SystemInv, SystemStep, ActorStep;
    InitialSystemInv(s);
    RunKeepsInvariant(s, schedule, i);
    RunTraced(s, schedule, i, a);
    RunKeepsInvariant(s, schedule, r.at.time);
    ValidatedKnows(Run(s, schedule)[i], a, r);
    OpenDeviceUnheld(Run(s, schedule)[r.at.time], r.d);
    UnheldNotStored(Run(s, schedule)[r.at.time], r.d);
    FencesNeverTorn(s, schedule, r.at.time, r.d);
  }

  lemma {:induction false} UnheldNotStored(s: System, d: nat)
    requires !FenceHeld(s, d)
    ensures !BeingStored(s, d)
  {
  }

  ghost predicate Linearized(s: System, d: nat, h: Handle, fence: seq<nat>) {
    var dev := At(s.devices, d);
    && s.g.view.state.ViewOpen? && s.g.gate == GATE_OPEN && s.g.terminal == 0
    && dev.word.state.Open? && dev.fence == fence && !FenceHeld(s, d)
    && |fence| == FENCE_WORDS && fence[STATE] == ONLINE && fence[IDENTITY] == dev.identity == h.identity
  }

  lemma {:induction false} ValidatedKnows(s: System, a: nat, r: Reader)
    requires SystemInv(s) && a < |s.actors| && s.actors[a] == Validated(r)
    ensures r.start <= r.at.time < s.now && ValidatedAt(r)
  {
    assert ActorInv(s, a);
  }

  // ---- Closing is final ----

  lemma {:induction false} StepKeepsClosed(s: System, a: nat, call: Call, d: nat)
    requires SystemInv(s) && a < |s.actors|
    ensures At(s.devices, d).word.state.Closed? ==> At(SystemStep(s, a, call).devices, d).word.state.Closed?
    ensures !s.g.view.state.ViewOpen? ==> !SystemStep(s, a, call).g.view.state.ViewOpen?
  {
    hide Local, ActorStep, RightsOf, Placed, PairInv, DeviceInv;
    assert ActorInv(s, a);
    NoDeviceInv();
    ActorStepKeeps(s.viewId, s.g, At(s.devices, Target(s.actors[a])), |s.devices|, s.now, s.actors[a], call);
  }

  /** The device is closed or the view is no longer open. */
  predicate Shut(s: System, d: nat) {
    At(s.devices, d).word.state.Closed? || !s.g.view.state.ViewOpen?
  }

  lemma {:induction false} ShutIsFinal(s: System, schedule: seq<Move>, i: nat, j: nat, d: nat)
    requires SystemInv(s) && Schedulable(s, schedule) && i <= j <= |schedule| && Shut(Run(s, schedule)[i], d)
    ensures Shut(Run(s, schedule)[j], d)
    decreases j - i
  {
    hide SystemInv, SystemStep;
    if i < j {
      ShutIsFinal(s, schedule, i, j - 1, d);
      RunKeepsInvariant(s, schedule, j - 1);
      StepKeepsClosed(Run(s, schedule)[j - 1], schedule[j - 1].actor, schedule[j - 1].call, d);
    }
  }

  /** No validation invoked once the device is closed, or the view is, ever succeeds. */
  lemma {:induction false} NoValidationAfterClose(s: System, schedule: seq<Move>, closed: nat, i: nat, a: nat,
                                                  r: Reader)
    requires InitialSystem(s) && Schedulable(s, schedule) && closed <= r.start && i <= |schedule| && a < |s.actors|
    requires Run(s, schedule)[i].actors[a] == Validated(r)
    requires closed <= |schedule|
    ensures !Shut(Run(s, schedule)[closed], r.d)
  {
    hide SystemInv, SystemStep, ActorStep;
    ValidationLinearizes(s, schedule, i, a, r);
    InitialSystemInv(s);
    if Shut(Run(s, schedule)[closed], r.d) {
      ShutIsFinal(s, schedule, closed, r.at.time, r.d);
      assert false;
    }
  }

  // ---- A LOST fence ----

  predicate Lost(dev: Device) { |dev.fence| == FENCE_WORDS && dev.fence[STATE] == LOST }

  /** The identity publisher's store of the fence state word. */
  predicate Resurrects(pc: Pc, d: nat) {
    pc.Replacing? && pc.x.d == d && pc.ip == IWriteFence(STATE)
  }

  lemma {:induction false} LostStep(viewId: nat, g: Globals, dev: Device, count: nat, now: nat, pc: Pc, call: Call)
    requires DeviceInv(dev) && Local(g, dev, now, pc) && Lost(dev)
    ensures
      var e := ActorStep(viewId, g, dev, count, now, pc, call);
      && (!Lost(e.dev) <==> Resurrects(pc, Target(pc)))
      && (e.dev.fence != dev.fence ==> pc.Replacing? || (pc.Writing? && pc.w.kind.Losing?))
  {
    StoreStep(viewId, g, dev, count, now, pc, call);
  }

  /** Exactly one kind of step takes a fence out of LOST, and no publish_fence touches a LOST fence. */
  lemma {:induction false} LostLeavesOnlyByIdentity(s: System, a: nat, call: Call, d: nat)
    requires SystemInv(s) && a < |s.actors| && d < |s.devices| && Lost(s.devices[d])
    ensures
      var s2 := SystemStep(s, a, call);
      && s.devices[d].word.state.Closed?
      && (!Lost(s2.devices[d]) <==> Resurrects(s.actors[a], d))
      && (s2.devices[d].fence != s.devices[d].fence ==>
            s.actors[a].Replacing? || (s.actors[a].Writing? && s.actors[a].w.kind.Losing?))
  {
    hide ActorStep, Local;
    var pc := s.actors[a];
    MoverKnows(s, a);
    assert DeviceInv(s.devices[d]);
    if Target(pc) == d {
      LostStep(s.viewId, s.g, s.devices[d], |s.devices|, s.now, pc, call);
    }
  }
}
