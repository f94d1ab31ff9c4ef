// Safety of every interleaving of the registry step machine.
module RegistrySafety {
  import opened RegistryProtocol
  import opened RegistryInvariants

  // ---- One step of one actor ----

  lemma {:induction false} IdentityStepKeeps(g: Globals, dev: Device, now: nat, x: Identity, ip: IdentityPoint)
    requires DeviceInv(dev) && IdentityInv(g, dev, x, ip)
    ensures Keeps(g, dev, now, IdentityRights(x, ip), IdentityStep(g, dev, x, ip))
  {
    hide IdentityCheck, IdentityClaim, IdentityTake, IdentityUndo, IdentityWrite, Local, Moves, DeviceInv, IdentityInv;
    if Checking(ip) {
      IdentityCheckKeeps(g, dev, now, x, ip);
    } else if Committing(ip) {
      IdentityWriteKnows(g, dev, now, x, ip); IdentityWriteMoves(g, dev, x, ip);
    } else if Undoing(ip) {
      IdentityUndoKnows(g, dev, now, x, ip); IdentityUndoMoves(g, dev, x, ip);
    } else if Claims(ip) {
      IdentityClaimKnows(g, dev, now, x, ip); IdentityClaimMoves(g, dev, x, ip);
    } else {
      IdentityTakeKnows(g, dev, now, x, ip); IdentityTakeMoves(g, dev, x, ip);
    }
  }

  lemma {:induction false} ActorStepKeeps(viewId: nat, g: Globals, dev: Device, count: nat, now: nat, pc: Pc,
                                          call: Call)
    requires DeviceInv(dev) && Local(g, dev, now, pc)
    ensures Keeps(g, dev, now, RightsOf(pc), ActorStep(viewId, g, dev, count, now, pc, call))
  {
    match pc
    case Reading(r, rp) => ReaderStepKeeps(g, dev, now, r, rp);
    case Marking(d, sequence, epoch, mp) => MarkStepKeeps(g, dev, now, d, sequence, epoch, mp);
    case Writing(w, wp) => WriterStepKeeps(g, dev, now, w, wp);
    case Replacing(x, ip) => IdentityStepKeeps(g, dev, now, x, ip);
    case Closing(cp) => CloseStepKeeps(g, dev, count, now, cp);
    case _ =>
  }

  /** The actor has no right over a device and no knowledge of one. */
  predicate Unanchored(pc: Pc) {
    || pc.Idle? || pc.Returned? || pc.Finding? || pc.Claiming? || (pc.Marking? && pc.mp.MLoad?)
    || (pc.Replacing? && pc.ip.IView?) || (pc.Closing? && !pc.cp.CGate? && !pc.cp.CTerminal? && !pc.cp.CControlRelease?)
  }

  lemma {:induction false} ActorStepRelocates(viewId: nat, g: Globals, dev: Device, count: nat, now: nat, pc: Pc,
                                              call: Call)
    ensures
      var e := ActorStep(viewId, g, dev, count, now, pc, call);
      Target(e.pc) != Target(pc) ==> Unanchored(e.pc)
  {
  }

  lemma {:induction false} UnanchoredAnywhere(g: Globals, dev: Device, now: nat, pc: Pc, other: Device)
    requires Unanchored(pc) && Local(g, dev, now, pc)
    ensures Local(g, other, now, pc) && RightsOf(pc) == NO_RIGHTS
  {
  }

  /** Actors that write a device address an existing one. */
  predicate Placed(pc: Pc, count: nat) {
    pc.Claiming? || pc.Marking? || pc.Writing? || pc.Replacing? || (pc.Closing? && pc.cp.CDeviceClose?) ==>
        Target(pc) < count
  }

  lemma {:induction false} ActorStepPlaced(viewId: nat, g: Globals, dev: Device, count: nat, now: nat, pc: Pc,
                                           call: Call)
    requires Placed(pc, count)
    ensures
      var e := ActorStep(viewId, g, dev, count, now, pc, call);
      Placed(e.pc, count) && (Target(pc) >= count ==> e.dev == dev)
  {
  }

  // ---- Two actors on one device ----

  ghost predicate Compatible(dev: Device, a: Pc, b: Pc) {
    Excludes(dev, RightsOf(a), RightsOf(b)) && SeesRestorable(dev, a, RightsOf(b))
        && SeesRestorable(dev, b, RightsOf(a))
  }

  lemma {:induction false} ReaderStepSees(g: Globals, dev: Device, now: nat, r: Reader, rp: ReaderPoint, b: Rights)
    requires DeviceInv(dev) && ReaderInv(g, dev, now, r, rp)
    requires SeesRestorable(dev, Reading(r, rp), b) && (b.owns ==> b.owned.state.Updating?) && (b.restores ==> b.owns)
    ensures SeesRestorable(dev, ReaderStep(g, dev, now, r, rp), b)
  {
  }

  lemma {:induction false} RightsKnown(g: Globals, dev: Device, now: nat, pc: Pc)
    requires Local(g, dev, now, pc)
    ensures RightsOf(pc).owns ==> RightsOf(pc).owned.state.Updating?
    ensures RightsOf(pc).restores ==> RightsOf(pc).owns
  {
  }

  lemma {:induction false} ActorStepSees(viewId: nat, g: Globals, dev: Device, count: nat, now: nat, a: Pc, call: Call,
                                         b: Pc)
    requires DeviceInv(dev) && Local(g, dev, now, a) && Local(g, dev, now, b) && SeesRestorable(dev, a, RightsOf(b))
    ensures
      var e := ActorStep(viewId, g, dev, count, now, a, call);
      SeesRestorable(e.dev, e.pc, RightsOf(b))
  {
    RightsKnown(g, dev, now, b);
    if a.Reading? { ReaderStepSees(g, dev, now, a.r, a.rp, RightsOf(b)); }
  }

  lemma {:induction false} PairKept(viewId: nat, g: Globals, dev: Device, count: nat, now: nat, a: Pc, call: Call,
                                    b: Pc)
    requires DeviceInv(dev) && Local(g, dev, now, a) && Local(g, dev, now, b) && Compatible(dev, a, b)
    ensures
      var e := ActorStep(viewId, g, dev, count, now, a, call);
      Local(e.g, e.dev, now + 1, b) && Compatible(e.dev, e.pc, b)
  {
    hide Local, Moves, SeesRestorable, Excludes, DeviceInv, ActorStep, RightsOf;
    var e := ActorStep(viewId, g, dev, count, now, a, call);
    ActorStepKeeps(viewId, g, dev, count, now, a, call);
    ActorStepSees(viewId, g, dev, count, now, a, call, b);
    ExclusionKept(g, dev, RightsOf(a), e.g, e.dev, RightsOf(e.pc), now, b);
    if b.Reading? {
      ReaderUndisturbed(g, dev, RightsOf(a), e.g, e.dev, RightsOf(e.pc), now, b);
    } else {
      OtherUndisturbed(g, dev, RightsOf(a), e.g, e.dev, RightsOf(e.pc), now, b);
      NonReaderSees(e.dev, b, RightsOf(e.pc));
    }
  }

  lemma {:induction false} NonReaderSees(dev: Device, pc: Pc, r: Rights)
    requires !pc.Reading?
    ensures SeesRestorable(dev, pc, r)
  {
  }

  // ---- Two actors on different devices share only the view and control words ----

  function ControlOnly(r: Rights): Rights { NO_RIGHTS.(control := r.control) }

  lemma {:induction false} FarKept(viewId: nat, g: Globals, dev: Device, count: nat, now: nat, a: Pc, call: Call,
                                   far: Device, b: Pc)
    requires DeviceInv(dev) && Local(g, dev, now, a) && DeviceInv(far) && Local(g, far, now, b)
    requires !(RightsOf(a).control && RightsOf(b).control)
    ensures
      var e := ActorStep(viewId, g, dev, count, now, a, call);
      Local(e.g, far, now + 1, b) && !(RightsOf(e.pc).control && RightsOf(b).control)
  {
    hide Local, DeviceInv, ActorStep, RightsOf;
    var e := ActorStep(viewId, g, dev, count, now, a, call);
    ActorStepKeeps(viewId, g, dev, count, now, a, call);
    var r, r2 := ControlOnly(RightsOf(a)), ControlOnly(RightsOf(e.pc));
    assert Moves(g, far, r, e.g, far, r2);
    hide Moves;
    assert Excludes(far, r, RightsOf(b));
    ExclusionKept(g, far, r, e.g, far, r2, now, b);
    if b.Reading? {
      ReaderUndisturbed(g, far, r, e.g, far, r2, now, b);
    } else {
      OtherUndisturbed(g, far, r, e.g, far, r2, now, b);
    }
  }

  // ---- The whole system ----

  ghost predicate SystemInv(s: System) {
    && (forall d :: 0 <= d < |s.devices| ==> DeviceInv(s.devices[d]))
    && (forall a :: 0 <= a < |s.actors| ==> ActorInv(s, a))
    && (forall a, b :: 0 <= a < |s.actors| && 0 <= b < |s.actors| && a != b ==> PairInv(s, a, b))
  }

  ghost predicate ActorInv(s: System, a: nat)
    requires a < |s.actors|
  {
    Placed(s.actors[a], |s.devices|) && Local(s.g, At(s.devices, Target(s.actors[a])), s.now, s.actors[a])
  }

  ghost predicate PairInv(s: System, a: nat, b: nat)
    requires a < |s.actors| && b < |s.actors|
  {
    && !(RightsOf(s.actors[a]).control && RightsOf(s.actors[b]).control)
    && (Target(s.actors[a]) == Target(s.actors[b]) ==>
          Compatible(At(s.devices, Target(s.actors[a])), s.actors[a], s.actors[b]))
  }

  lemma {:induction false} InitialSystemInv(s: System)
    requires InitialSystem(s)
    ensures SystemInv(s)
  {
  }

  /** The actor that moves. */
  lemma {:induction false} MoverKept(s: System, a: nat, call: Call)
    requires SystemInv(s) && a < |s.actors|
    ensures
      var s2 := SystemStep(s, a, call);
      && ActorInv(s2, a) && (forall d :: 0 <= d < |s2.devices| ==> DeviceInv(s2.devices[d]))
  {
    hide Local, DeviceInv, ActorStep, RightsOf, Moves, Placed, Target, PairInv, Unanchored;
    var pc, d := s.actors[a], Target(s.actors[a]);
    var dev := At(s.devices, d);
    assert ActorInv(s, a);
    NoDeviceInv();
    var e := ActorStep(s.viewId, s.g, dev, |s.devices|, s.now, pc, call);
    ActorStepKeeps(s.viewId, s.g, dev, |s.devices|, s.now, pc, call);
    ActorStepPlaced(s.viewId, s.g, dev, |s.devices|, s.now, pc, call);
    ActorStepRelocates(s.viewId, s.g, dev, |s.devices|, s.now, pc, call);
    var s2 := SystemStep(s, a, call);
    if Target(e.pc) != d {
      UnanchoredAnywhere(e.g, e.dev, s.now + 1, e.pc, At(s2.devices, Target(e.pc)));
    }
  }

  lemma {:induction false} NoDeviceInv()
    ensures DeviceInv(NO_DEVICE)
  {
  }

  /** Every other actor. */
  lemma {:induction false} BystanderKept(s: System, a: nat, call: Call, b: nat)
    requires SystemInv(s) && a < |s.actors| && b < |s.actors| && a != b
    ensures
      var s2 := SystemStep(s, a, call);
      ActorInv(s2, b) && PairInv(s2, a, b)
  {
    hide Local, DeviceInv, ActorStep, RightsOf, Moves, Placed, Target, Unanchored, Excludes, SeesRestorable;
    var pc, d := s.actors[a], Target(s.actors[a]);
    var dev, far := At(s.devices, d), At(s.devices, Target(s.actors[b]));
    assert ActorInv(s, a) && ActorInv(s, b) && PairInv(s, a, b);
    NoDeviceInv();
    var s2 := SystemStep(s, a, call);
    var e := ActorStep(s.viewId, s.g, dev, |s.devices|, s.now, pc, call);
    ActorStepPlaced(s.viewId, s.g, dev, |s.devices|, s.now, pc, call);
    ActorStepRelocates(s.viewId, s.g, dev, |s.devices|, s.now, pc, call);
    ActorStepKeeps(s.viewId, s.g, dev, |s.devices|, s.now, pc, call);
    FarKept(s.viewId, s.g, dev, |s.devices|, s.now, pc, call, far, s.actors[b]);
    if d == Target(s.actors[b]) {
      PairKept(s.viewId, s.g, dev, |s.devices|, s.now, pc, call, s.actors[b]);
    }
    if Target(e.pc) != d {
      UnanchoredAnywhere(e.g, e.dev, s.now + 1, e.pc, far);
      UnanchoredCompatible(At(s2.devices, Target(e.pc)), e.pc, s.actors[b]);
    }
  }

  lemma {:induction false} UnanchoredCompatible(dev: Device, a: Pc, b: Pc)
    requires Unanchored(a) && RightsOf(a) == NO_RIGHTS
    ensures Compatible(dev, a, b)
  {
  }

  lemma {:induction false} PairSymmetric(s: System, a: nat, b: nat)
    requires a < |s.actors| && b < |s.actors| && PairInv(s, a, b)
    ensures PairInv(s, b, a)
  {
  }

  /** Two actors that both watch a third one move. */
  lemma {:induction false} WatcherSees(g: Globals, dev: Device, a: Rights, g2: Globals, dev2: Device, a2: Rights, b: Pc,
                                       c: Rights)
    requires Moves(g, dev, a, g2, dev2, a2) && Excludes(dev, a, c) && SeesRestorable(dev, b, c)
    requires c.restores ==> c.owns && Owned(dev, c.owned)
    ensures SeesRestorable(dev2, b, c)
  {
  }

  lemma {:induction false} WatchersCompatible(g: Globals, dev: Device, a: Rights, g2: Globals, dev2: Device, a2: Rights,
                                              now: nat, b: Pc, c: Pc)
    requires Moves(g, dev, a, g2, dev2, a2) && Local(g, dev, now, b) && Local(g, dev, now, c)
    requires Excludes(dev, a, RightsOf(b)) && Excludes(dev, a, RightsOf(c)) && Compatible(dev, b, c)
    ensures Compatible(dev2, b, c)
  {
    hide Local, RightsOf, SeesRestorable, PayloadMoves, WordMoves, ControlMoves;
    RestorerKnows(g, dev, now, b);
    RestorerKnows(g, dev, now, c);
    WatcherSees(g, dev, a, g2, dev2, a2, b, RightsOf(c));
    WatcherSees(g, dev, a, g2, dev2, a2, c, RightsOf(b));
  }

  lemma {:induction false} RestorerKnows(g: Globals, dev: Device, now: nat, pc: Pc)
    requires Local(g, dev, now, pc)
    ensures RightsOf(pc).restores ==> RightsOf(pc).owns && Owned(dev, RightsOf(pc).owned)
  {
  }

  lemma {:induction false} WatchersKept(s: System, a: nat, call: Call, b: nat, c: nat)
    requires SystemInv(s) && a < |s.actors| && b < |s.actors| && c < |s.actors| && a != b && b != c && a != c
    ensures PairInv(SystemStep(s, a, call), b, c)
  {
    hide Local, DeviceInv, ActorStep, RightsOf, Moves, Placed, Target, Excludes, SeesRestorable;
    var pc, d := s.actors[a], Target(s.actors[a]);
    var dev := At(s.devices, d);
    assert ActorInv(s, a) && ActorInv(s, b) && ActorInv(s, c) && PairInv(s, a, b) && PairInv(s, a, c)
        && PairInv(s, b, c);
    NoDeviceInv();
    var e := ActorStep(s.viewId, s.g, dev, |s.devices|, s.now, pc, call);
    ActorStepPlaced(s.viewId, s.g, dev, |s.devices|, s.now, pc, call);
    ActorStepKeeps(s.viewId, s.g, dev, |s.devices|, s.now, pc, call);
    if Target(s.actors[b]) == d && Target(s.actors[c]) == d {
      WatchersCompatible(s.g, dev, RightsOf(pc), e.g, e.dev, RightsOf(e.pc), s.now, s.actors[b], s.actors[c]);
    }
  }

  lemma {:induction false} StepKeepsSystem(s: System, a: nat, call: Call)
    requires SystemInv(s) && a < |s.actors|
    ensures SystemInv(SystemStep(s, a, call))
  {
    hide ActorInv, PairInv, DeviceInv, ActorStep;
    var s2 := SystemStep(s, a, call);
    MoverKept(s, a, call);
    forall b | 0 <= b < |s2.actors| && b != a ensures ActorInv(s2, b) && PairInv(s2, a, b) && PairInv(s2, b, a) {
      BystanderKept(s, a, call, b);
      PairSymmetric(s2, a, b);
    }
    forall b, c | 0 <= b < |s2.actors| && 0 <= c < |s2.actors| && b != c && b != a && c != a ensures PairInv(s2, b, c) {
      WatchersKept(s, a, call, b, c);
    }
  }
}
