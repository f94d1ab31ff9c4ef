// Who maps what: over every run a mapping of the payload or of the queue goes back to a file that asked for
// the right to it, was answered, and has not given it up.
module CdevRights {
  import opened CdevState

  /** The driver after the first n sections. */
  function After(d: Driver, steps: seq<Step>, n: nat): Driver
    requires n <= |steps|
  {
    Run(d, steps[..n])
  }

  lemma {:induction false} RunAppends(d: Driver, steps: seq<Step>, step: Step)
    ensures
      var e := Run(d, steps);
      Run(d, steps + [step]) == if Enabled(e, step) then Apply(e, step) else e
    decreases |steps|
  {
    hide Apply, Enabled;
    if steps != [] {
      RunAppends(if Enabled(d, steps[0]) then Apply(d, steps[0]) else d, steps[1..], step);
      assert (steps + [step])[1..] == steps[1..] + [step];
    }
  }

  lemma {:induction false} AfterNext(d: Driver, steps: seq<Step>, n: nat)
    requires n < |steps|
    ensures
      var e := After(d, steps, n);
      After(d, steps, n + 1) == if Enabled(e, steps[n]) then Apply(e, steps[n]) else e
  {
    hide Apply, Enabled;
    assert steps[..n + 1] == steps[..n] + [steps[n]];
    RunAppends(d, steps[..n], steps[n]);
  }

  // ---- Rights and where they come from ----

  datatype Right = Creator | Leaseholder | Owner

  predicate Holds(d: Driver, right: Right, f: nat) {
    match right
    case Creator => d.queue.owner == Some(f)
    case Leaseholder => d.queue.lease == Some(f)
    case Owner => d.payload.owner == Some(f)
  }

  /** The file asks for the right. */
  predicate AsksFor(step: Step, right: Right, f: nat) {
    match right
    case Creator => step.CreateQueue? && step.f == f
    case Leaseholder => step.Lease? && step.f == f
    case Owner => step == Allocate(f)
  }

  /** The file's answer could not be delivered, or the file is closed, or the module is unloaded. */
  predicate GivesUp(step: Step, right: Right, f: nat) {
    || step == Release(f) || step == Exit
    || match right
       case Creator => step == CreateReturns(f, false)
       case Leaseholder => step == LeaseReturns(f, false)
       case Owner => step == AllocateReturns(false)
  }

  /** Whoever has the right afterwards had it or asks for it, and only giving it up takes it away. */
  predicate Moves(d: Driver, e: Driver, step: Step, right: Right, f: nat) {
    && (Holds(e, right, f) ==> Holds(d, right, f) || AsksFor(step, right, f))
    && (Holds(d, right, f) && !Holds(e, right, f) ==> GivesUp(step, right, f))
  }

  /** The right comes and goes only with what its file asks for. */
  lemma {:induction false} RightsMove(d: Driver, step: Step, right: Right, f: nat)
    requires Inv(d) && Enabled(d, step)
    ensures Moves(d, Apply(d, step), step, right, f)
  {
    hide Inv, CreateStep, CreateReturnStep, LeaseStep, LeaseReturnStep, AllocateStep, AllocateReturnStep, ReleaseStep,
        ExitStep, MapQueueStep, MapPayloadStep, Moves;
    match step
    case CreateQueue(g, events) => CreateMoves(d, g, events, right, f);
    case CreateReturns(g, copied) => ReturnMoves(d, g, copied, right, f);
    case Lease(g, events) => LeaseMoves(d, g, events, right, f);
    case LeaseReturns(g, copied) => ReturnMoves(d, g, copied, right, f);
    case Allocate(g) => AllocateMoves(d, g, right, f);
    case AllocateReturns(copied) => AllocateReturnMoves(d, copied, right, f);
    case MapQueue(g, remapped) => MapMoves(d, g, remapped, right, f);
    case MapPayload(g, remapped) => MapMoves(d, g, remapped, right, f);
    case Release(g) => ReleaseMoves(d, g, right, f);
    case Exit => ExitMoves(d, right, f);
    case _ => OtherMoves(d, step, right, f);
  }

  lemma {:induction false} OtherMoves(d: Driver, step: Step, right: Right, f: nat)
    requires Enabled(d, step)
    requires step.Open? || step.Negotiate? || step.WaitBegins? || step.WaitEnds? || step.QueueVmaOpens?
        || step.QueueVmaCloses? || step.PayloadVmaOpens? || step.PayloadVmaCloses? || step.Poll?
    ensures Moves(d, Apply(d, step), step, right, f)
  {
    hide GivesUp, AsksFor;
  }

  lemma {:induction false} ReleaseMoves(d: Driver, f: nat, right: Right, g: nat)
    requires Inv(d) && f in d.files && !Busy(d, f)
    ensures Moves(d, ReleaseStep(d, f), Release(f), right, g)
  {
    hide Inv, PayloadOffline;
    ReleaseKeepsOthers(d, f);
  }

  /** Whatever somebody else holds is held still. */
  lemma {:induction false} ReleaseKeepsOthers(d: Driver, f: nat)
    requires f in d.files
    ensures
      var e := ReleaseStep(d, f);
      && (e.queue.owner == d.queue.owner || (d.queue.owner == Some(f) && e.queue.owner == None))
      && (e.queue.lease == d.queue.lease || (d.queue.lease == Some(f) && e.queue.lease == None))
      && (e.payload.owner == d.payload.owner || (d.payload.owner == Some(f) && e.payload.owner == None))
  {
    hide UncreateQueue, UnleaseQueue, DisownPayload;
    var q1 := if d.files[f].created then UncreateQueue(d.queue, f) else d.queue;
    UndoneRights(d.queue, f);
    UndoneRights(q1, f);
    DisownedRights(d.payload);
  }

  lemma {:induction false} UndoneRights(q: Queue, f: nat)
    ensures
      var created, leased := UncreateQueue(q, f), UnleaseQueue(q, f);
      && created.lease == q.lease && created.owner == (if q.owner == Some(f) then None else q.owner)
      && leased.owner == q.owner && leased.lease == if q.lease == Some(f) then None else q.lease
  {
  }

  lemma {:induction false} DisownedRights(p: Payload)
    ensures DisownPayload(p).owner == None && DisownPayload(p).vmas == p.vmas
  {
  }

  lemma {:induction false} AllocateReturnMoves(d: Driver, copied: bool, right: Right, g: nat)
    requires d.allocating.Some?
    ensures Moves(d, AllocateReturnStep(d, copied), AllocateReturns(copied), right, g)
  {
  }

  lemma {:induction false} AllocateMoves(d: Driver, f: nat, right: Right, g: nat)
    requires Inv(d) && f in d.files
    ensures Moves(d, AllocateStep(d, f), Allocate(f), right, g)
  {
    UnmappedHasNoOwner(d);
    hide Inv;
  }

  lemma {:induction false} CreateMoves(d: Driver, f: nat, events: bool, right: Right, g: nat)
    requires f in d.files
    ensures Moves(d, CreateStep(d, f, events), CreateQueue(f, events), right, g)
  {
  }

  lemma {:induction false} LeaseMoves(d: Driver, f: nat, events: bool, right: Right, g: nat)
    requires f in d.files
    ensures Moves(d, LeaseStep(d, f, events), Lease(f, events), right, g)
  {
  }

  lemma {:induction false} ReturnMoves(d: Driver, f: nat, copied: bool, right: Right, g: nat)
    ensures Moves(d, CreateReturnStep(d, f, copied), CreateReturns(f, copied), right, g)
    ensures Moves(d, LeaseReturnStep(d, f, copied), LeaseReturns(f, copied), right, g)
  {
  }

  lemma {:induction false} MapMoves(d: Driver, f: nat, remapped: bool, right: Right, g: nat)
    requires f in d.files
    ensures Moves(d, MapQueueStep(d, f, remapped), MapQueue(f, remapped), right, g)
    ensures Moves(d, MapPayloadStep(d, f, remapped), MapPayload(f, remapped), right, g)
  {
  }

  lemma {:induction false} ExitMoves(d: Driver, right: Right, g: nat)
    requires Inv(d) && Enabled(d, Exit)
    ensures Moves(d, ExitStep(d), Exit, right, g)
  {
    hide Inv, PutQueue, PutPayload;
    ExitEndsAll(d);
  }

  lemma {:induction false} ExitEndsAll(d: Driver)
    ensures
      var e := ExitStep(d);
      e.queue.owner == None && e.queue.lease == None && e.payload.owner == None
  {
  }

  lemma {:induction false} UnmappedHasNoOwner(d: Driver)
    requires Inv(d)
    ensures !d.payload.mapped ==> d.payload.owner == None
  {
    hide QueueInv, CreatorInv, LeaseInv, OwnerInv;
  }

  /** At time i the file asked, it had the right from then on, and it has not given it up since. */
  ghost predicate Since(d: Driver, steps: seq<Step>, n: nat, right: Right, f: nat, i: nat)
    requires n <= |steps|
  {
    && i < n && AsksFor(steps[i], right, f) && Enabled(After(d, steps, i), steps[i])
    && (forall j :: i < j <= n ==> Holds(After(d, steps, j), right, f))
  }

  /** Every right held in a reachable state was asked for and has been held without interruption since. */
  lemma {:induction false} RightsHaveOrigin(d: Driver, steps: seq<Step>, n: nat, right: Right, f: nat) returns (i: nat)
    requires Initial(d) && n <= |steps| && Holds(After(d, steps, n), right, f)
    ensures Since(d, steps, n, right, f, i)
    decreases n
  {
    hide Apply, Enabled, Inv, AsksFor, GivesUp;
    if n == 0 { assert false; }
    var e := After(d, steps, n - 1);
    AfterNext(d, steps, n - 1);
    InitialInv(d);
    RunKeeps(d, steps[..n - 1]);
    if Holds(e, right, f) {
      i := RightsHaveOrigin(d, steps, n - 1, right, f);
    } else {
      RightsMove(e, steps[n - 1], right, f);
      i := n - 1;
    }
  }

  // ---- Mappings ----

  /** A section adds a mapping of the payload exactly when a file with the right maps it, or a mapping is copied. */
  lemma {:induction false} PayloadMapped(d: Driver, step: Step)
    requires Inv(d) && Enabled(d, step)
    ensures Apply(d, step).payload.vmas > d.payload.vmas <==>
      || step.PayloadVmaOpens?
      || (&& step.MapPayload? && step.remapped && d.payload.online
          && (Holds(d, Owner, step.f)
              || (d.payload.owner.Some? && d.files[step.f].control && Holds(d, Leaseholder, step.f))))
  {
    hide Inv, CreateStep, CreateReturnStep, LeaseStep, LeaseReturnStep, AllocateStep, AllocateReturnStep, ReleaseStep,
        ExitStep, MapQueueStep, MapPayloadStep;
    UnmappedIsEmpty(d);
    match step
    case CreateQueue(f, events) => QueueStepsOnly(d, f, events, false);
    case CreateReturns(f, copied) => QueueReturnsOnly(d, f, copied);
    case Lease(f, events) => QueueStepsOnly(d, f, events, false);
    case LeaseReturns(f, copied) => QueueReturnsOnly(d, f, copied);
    case MapQueue(f, remapped) => QueueStepsOnly(d, f, false, remapped);
    case Allocate(f) => AllocateUnmapped(d, f);
    case AllocateReturns(copied) => DropsNoMapping(d, copied);
    case MapPayload(f, remapped) => PayloadMapsIff(d, f, remapped);
    case Release(f) => ReleaseMapsNothing(d, f);
    case Exit => ReleaseMapsNothing(d, 0);
    case _ =>
  }

  lemma {:induction false} QueueStepsOnly(d: Driver, f: nat, events: bool, remapped: bool)
    requires f in d.files
    ensures CreateStep(d, f, events).payload == LeaseStep(d, f, events).payload == d.payload
    ensures MapQueueStep(d, f, remapped).payload == d.payload
  {
  }

  lemma {:induction false} QueueReturnsOnly(d: Driver, f: nat, copied: bool)
    ensures CreateReturnStep(d, f, copied).payload == LeaseReturnStep(d, f, copied).payload == d.payload
  {
  }

  lemma {:induction false} AllocateUnmapped(d: Driver, f: nat)
    requires f in d.files
    ensures AllocateStep(d, f).payload.vmas == 0 || AllocateStep(d, f) == d
  {
  }

  lemma {:induction false} DropsNoMapping(d: Driver, copied: bool)
    requires d.allocating.Some?
    ensures AllocateReturnStep(d, copied).payload.vmas == d.payload.vmas
  {
    hide DisownPayload;
    DisownedRights(d.payload);
  }

  lemma {:induction false} ReleaseMapsNothing(d: Driver, f: nat)
    ensures f in d.files ==> ReleaseStep(d, f).payload.vmas == d.payload.vmas
    ensures ExitStep(d).payload.vmas == d.payload.vmas
  {
    hide PutQueue, QueueOffline, UncreateQueue, UnleaseQueue;
  }

  lemma {:induction false} PayloadMapsIff(d: Driver, f: nat, remapped: bool)
    requires Inv(d) && f in d.files
    ensures MapPayloadStep(d, f, remapped).payload.vmas > d.payload.vmas <==>
      && remapped && d.payload.online
      && (Holds(d, Owner, f) || (d.payload.owner.Some? && d.files[f].control && Holds(d, Leaseholder, f)))
  {
    UnmappedIsEmpty(d);
    hide QueueInv, PayloadInv, CreatorInv, OwnerInv;
  }

  lemma {:induction false} UnmappedIsEmpty(d: Driver)
    requires Inv(d)
    ensures !d.payload.mapped ==> d.payload.vmas == 0
    ensures d.payload.owner.Some? ==> d.payload.mapped
    ensures d.queue.owner.Some? || d.queue.lease.Some? ==> d.queue.mapped
  {
    hide CreatorInv, LeaseInv, OwnerInv;
  }

  lemma {:induction false} QueueMapped(d: Driver, step: Step)
    requires Inv(d) && Enabled(d, step)
    ensures Apply(d, step).queue.vmas > d.queue.vmas <==>
      || step.QueueVmaOpens?
      || (step.MapQueue? && step.remapped && d.queue.online
          && (Holds(d, Creator, step.f) || Holds(d, Leaseholder, step.f)))
  {
    hide PayloadInv, OwnerInv;
    UnmappedIsEmpty(d);
  }

  /** A section adds a wait exactly when the creator of the queue begins one. */
  lemma {:induction false} WaitCounted(d: Driver, step: Step)
    requires Inv(d) && Enabled(d, step)
    ensures Apply(d, step).waits > d.waits <==> step.WaitBegins? && Holds(d, Creator, step.f)
  {
    hide PayloadInv, LeaseInv, OwnerInv;
    UnmappedIsEmpty(d);
  }

  /**
   * Over every run: a call of mmap that adds a mapping of the payload is made by the file that allocated it, or
   * by a control file that took the lease, and neither has given that up since.
   */
  lemma {:induction false} MappersAsked(d: Driver, steps: seq<Step>, n: nat) returns (right: Right, i: nat)
    requires Initial(d) && n < |steps| && Enabled(After(d, steps, n), steps[n]) && steps[n].MapPayload?
    requires After(d, steps, n + 1).payload.vmas > After(d, steps, n).payload.vmas
    ensures Since(d, steps, n, right, steps[n].f, i)
    ensures right.Owner? || (right.Leaseholder? && After(d, steps, n).files[steps[n].f].control)
  {
    hide Apply, Inv, Since;
    var e := After(d, steps, n);
    AfterNext(d, steps, n);
    InitialInv(d);
    RunKeeps(d, steps[..n]);
    PayloadMapped(e, steps[n]);
    right := if Holds(e, Owner, steps[n].f) then Owner else Leaseholder;
    i := RightsHaveOrigin(d, steps, n, right, steps[n].f);
  }

  /** The same for the queue: by the file that created it, or by the one that took the lease. */
  lemma {:induction false} QueueMappersAsked(d: Driver, steps: seq<Step>, n: nat) returns (right: Right, i: nat)
    requires Initial(d) && n < |steps| && Enabled(After(d, steps, n), steps[n]) && steps[n].MapQueue?
    requires After(d, steps, n + 1).queue.vmas > After(d, steps, n).queue.vmas
    ensures Since(d, steps, n, right, steps[n].f, i) && !right.Owner?
  {
    hide Apply, Inv, Since;
    var e := After(d, steps, n);
    AfterNext(d, steps, n);
    InitialInv(d);
    RunKeeps(d, steps[..n]);
    QueueMapped(e, steps[n]);
    right := if Holds(e, Creator, steps[n].f) then Creator else Leaseholder;
    i := RightsHaveOrigin(d, steps, n, right, steps[n].f);
  }
}
