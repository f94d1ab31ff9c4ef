// What publish_fence, mark_device_lost and publish_device_identity come to when their actor runs alone: the exact
// answer and the exact device, for every argument and every state of the mapping.
module RegistryWriters {
  import opened RegistryProtocol
  import opened RegistryInvariants
  import opened RegistrySafety
  import opened RegistryTheorems
  import opened RegistryAlone

  // ---- Steps of one actor that works on one device ----

  function Act(s: System, now: nat, e: Effect): Effect {
    ActorStep(s.viewId, e.g, e.dev, |s.devices|, now, e.pc, Stay)
  }

  /** From `e` at time `now` the actor, working on device d only, comes to `end` at time `later`. */
  predicate Works(s: System, d: nat, now: nat, e: Effect, later: nat, end: Effect)
    decreases later - now
  {
    if now >= later then now == later && e == end
    else Target(e.pc) == d && !e.pc.Idle? && Works(s, d, now + 1, Act(s, now, e), later, end)
  }

  lemma {:induction false} WorksStep(s: System, d: nat, now: nat, e: Effect)
    requires Target(e.pc) == d && !e.pc.Idle?
    ensures Works(s, d, now, e, now + 1, Act(s, now, e))
  {
    hide Act;
    assert Works(s, d, now + 1, Act(s, now, e), now + 1, Act(s, now, e));
  }

  lemma {:induction false} WorksOn(s: System, d: nat, now: nat, e: Effect, middle: nat, through: Effect, later: nat,
                                   end: Effect)
    requires Works(s, d, now, e, middle, through) && Works(s, d, middle, through, later, end)
    ensures Works(s, d, now, e, later, end) && now <= middle <= later
    decreases middle - now
  {
    hide Act;
    WorksForward(s, d, middle, through, later, end);
    if now < middle { WorksOn(s, d, now + 1, Act(s, now, e), middle, through, later, end); }
  }

  lemma {:induction false} WorksForward(s: System, d: nat, now: nat, e: Effect, later: nat, end: Effect)
    requires Works(s, d, now, e, later, end)
    ensures now <= later
  {
  }

  lemma {:induction false} WorksNothing(s: System, d: nat, now: nat, e: Effect)
    ensures Works(s, d, now, e, now, e)
  {
  }

  /** The system with the actor's work in it. */
  function Worked(s: System, a: nat, d: nat, n: nat, e: Effect): System
    requires a < |s.actors|
  {
    s.(now := s.now + n, g := e.g, devices := Write(s.devices, d, e.dev), actors := s.actors[a := e.pc])
  }

  lemma {:induction false} WorkedStep(s: System, a: nat, d: nat, n: nat, e: Effect, call: Call)
    requires a < |s.actors| && d < |s.devices| && Target(e.pc) == d
    ensures SystemStep(Worked(s, a, d, n, e), a, call)
         == Worked(s, a, d, n + 1, ActorStep(s.viewId, e.g, e.dev, |s.devices|, s.now + n, e.pc, call))
  {
    hide ActorStep;
    var next := ActorStep(s.viewId, e.g, e.dev, |s.devices|, s.now + n, e.pc, call);
    assert s.devices[d := e.dev][d := next.dev] == s.devices[d := next.dev];
    assert s.actors[a := e.pc][a := next.pc] == s.actors[a := next.pc];
  }

  /** Where the actor's own steps take the system. */
  function Onward(s: System, a: nat, n: nat): System
    requires a < |s.actors|
    decreases n
  {
    if n == 0 then s else Onward(SystemStep(s, a, Stay), a, n - 1)
  }

  lemma {:induction false} WorksInSystem(s: System, a: nat, d: nat, n: nat, e: Effect, later: nat, end: Effect)
    requires a < |s.actors| && d < |s.devices| && Works(s, d, s.now + n, e, later, end)
    ensures
      s.now + n <= later
      && Onward(Worked(s, a, d, n, e), a, later - s.now - n) == Worked(s, a, d, later - s.now, end)
    decreases later - s.now - n
  {
    hide ActorStep, SystemStep, Worked;
    WorksForward(s, d, s.now + n, e, later, end);
    if s.now + n < later {
      var next := Act(s, s.now + n, e);
      WorkedStep(s, a, d, n, e, Stay);
      WorksInSystem(s, a, d, n + 1, next, later, end);
      WorkedSize(s, a, d, n, e);
      WorkedSize(s, a, d, n + 1, next);
      assert Onward(Worked(s, a, d, n, e), a, later - s.now - n)
          == Onward(Worked(s, a, d, n + 1, next), a, later - s.now - n - 1);
    }
  }

  lemma {:induction false} WorkedSize(s: System, a: nat, d: nat, n: nat, e: Effect)
    requires a < |s.actors|
    ensures |Worked(s, a, d, n, e).actors| == |s.actors|
  {
  }

  // ---- The fence write ----

  /** All six words are stored. */
  lemma {:induction false} FieldsStored(s: System, now: nat, e: Effect, w: Writer, latch: nat, k: nat)
    requires |e.dev.fence| == FENCE_WORDS == |w.intended| && k < FENCE_WORDS && e.pc == Writing(w, WField(latch, k))
    requires Prefix(e.dev.fence, w.intended, k)
    ensures Works(s, w.d, now, e, now + FENCE_WORDS - k,
                  e.(dev := e.dev.(fence := w.intended), pc := Writing(w, WRelease(latch))))
    decreases FENCE_WORDS - k
  {
    var next := Act(s, now, e);
    WorksStep(s, w.d, now, e);
    var end := e.(dev := e.dev.(fence := w.intended), pc := Writing(w, WRelease(latch)));
    if k + 1 < FENCE_WORDS {
      FieldsStored(s, now + 1, next, w, latch, k + 1);
      assert next.(dev := next.dev.(fence := w.intended), pc := Writing(w, WRelease(latch))) == end;
      WorksOn(s, w.d, now, e, now + 1, next, now + FENCE_WORDS - k, end);
    } else {
      assert next.dev.fence == w.intended;
    }
  }

  /** A write that finds an even latch, its identity and its admission word stores its payload. */
  lemma {:induction false} WriteStores(s: System, now: nat, e: Effect, w: Writer)
    requires |e.dev.fence| == FENCE_WORDS == |w.intended| && e.pc == Writing(w, WLatch)
    requires w.intended[IDENTITY] == e.dev.identity && w.intended[SEQUENCE] != 0
    requires !Odd(e.dev.latch) && !Spent(e.dev.latch) && e.dev.word == w.expected
    ensures Works(s, w.d, now, e, now + 11,
                  e.(dev := e.dev.(fence := w.intended, latch := e.dev.latch + 2),
                     pc := if w.kind.Publishing? then Writing(w, WReopen) else Returned(Success)))
  {
    var even := e.dev.latch;
    var e1 := e.(pc := Writing(w, WIdentity(even)));
    var e2 := e.(pc := Writing(w, WWord(even)));
    var e3 := e.(pc := Writing(w, WTake(even)));
    var e4 := e.(dev := e.dev.(latch := even + 1), pc := Writing(w, WField(even, 0)));
    var e5 := e4.(dev := e4.dev.(fence := w.intended), pc := Writing(w, WRelease(even)));
    var e6 := e.(dev := e.dev.(fence := w.intended, latch := even + 2),
                 pc := if w.kind.Publishing? then Writing(w, WReopen) else Returned(Success));
    WorksStep(s, w.d, now, e);
    WorksStep(s, w.d, now + 1, e1);
    WorksStep(s, w.d, now + 2, e2);
    WorksStep(s, w.d, now + 3, e3);
    FieldsStored(s, now + 4, e4, w, even, 0);
    WorksStep(s, w.d, now + 10, e5);
    assert Act(s, now, e) == e1 && Act(s, now + 1, e1) == e2 && Act(s, now + 2, e2) == e3 && Act(s, now + 3, e3) == e4;
    assert Act(s, now + 10, e5) == e6;
    hide Works, Act;
    WorksOn(s, w.d, now, e, now + 1, e1, now + 2, e2);
    WorksOn(s, w.d, now, e, now + 2, e2, now + 3, e3);
    WorksOn(s, w.d, now, e, now + 3, e3, now + 4, e4);
    WorksOn(s, w.d, now, e, now + 4, e4, now + 10, e5);
    WorksOn(s, w.d, now, e, now + 10, e5, now + 11, e6);
  }

  /** Why a write would fail at once. */
  function Trouble(dev: Device, w: Writer): Status {
    if |w.intended| != FENCE_WORDS || w.intended[IDENTITY] != dev.identity || w.intended[SEQUENCE] == 0
    then InvalidArgument
    else if Odd(dev.latch) then Retry else if Spent(dev.latch) then Overflow else Success
  }

  lemma {:induction false} WriteFails(s: System, now: nat, e: Effect, w: Writer)
    requires e.pc == Writing(w, WLatch) && Trouble(e.dev, w) != Success
    ensures Works(s, w.d, now, e, now + 2, e.(pc := WriteFailed(w, Trouble(e.dev, w))))
  {
    var e1 := e.(pc := Writing(w, WIdentity(e.dev.latch)));
    var e2 := e.(pc := WriteFailed(w, Trouble(e.dev, w)));
    WorksStep(s, w.d, now, e);
    WorksStep(s, w.d, now + 1, e1);
    assert Act(s, now, e) == e1 && Act(s, now + 1, e1) == e2;
    hide Works, Act;
    WorksOn(s, w.d, now, e, now + 1, e1, now + 2, e2);
  }

  // ---- publish_fence ----

  /** The device and the answer of publish_fence run alone. */
  function FencePublished(dev: Device, generation: nat, intended: seq<nat>): (Device, Status)
    requires |intended| == FENCE_WORDS
  {
    if dev.word != Word(generation, Open, 0) then (dev, if dev.word.state.Closed? then DeviceLost else Retry)
    else if intended[IDENTITY] != dev.identity || intended[SEQUENCE] == 0 then
      (dev.(word := Word(generation + 1, Closed, 0)), InvalidArgument)
    else if dev.latch % 2 == 1 then (dev.(word := Word(generation + 1, Closed, 0)), Retry)
    else if dev.latch > U64_MAX - 2 then (dev.(word := Word(generation + 1, Closed, 0)), Overflow)
    else (dev.(word := Word(generation + 1, Open, 0), latch := dev.latch + 2, fence := intended), Success)
  }

  lemma {:induction false} FenceWorks(s: System, now: nat, e: Effect, d: nat, generation: nat, intended: seq<nat>)
    returns (later: nat)
    requires |e.dev.fence| == FENCE_WORDS == |intended| && e.pc == Claiming(d, generation, intended)
    ensures
      var (dev, status) := FencePublished(e.dev, generation, intended);
      Works(s, d, now, e, later, Effect(e.g, dev, Returned(status)))
  {
    WorksStep(s, d, now, e);
    var e1 := Act(s, now, e);
    later := now + 1;
    if e.dev.word == Word(generation, Open, 0) {
      var w := e1.pc.w;
      if Trouble(e1.dev, w) != Success {
        WriteFails(s, now + 1, e1, w);
        var e2 := e1.(pc := WriteFailed(w, Trouble(e1.dev, w)));
        WorksStep(s, d, now + 3, e2);
        var e3 := Act(s, now + 3, e2);
        hide Works, Act;
        WorksOn(s, d, now, e, now + 1, e1, now + 3, e2);
        WorksOn(s, d, now, e, now + 3, e2, now + 4, e3);
        later := now + 4;
      } else {
        WriteStores(s, now + 1, e1, w);
        var e2 := e1.(dev := e1.dev.(fence := w.intended, latch := e1.dev.latch + 2), pc := Writing(w, WReopen));
        WorksStep(s, d, now + 12, e2);
        var e3 := Act(s, now + 12, e2);
        hide Works, Act;
        WorksOn(s, d, now, e, now + 1, e1, now + 12, e2);
        WorksOn(s, d, now, e, now + 12, e2, now + 13, e3);
        later := now + 13;
      }
    }
  }

  // ---- mark_device_lost ----

  function ClosedWord(word: Word): Word {
    if word.state.Closed? then word
    else Word(if word.generation >= GENERATION_MAX_NORMAL then GENERATION_TERMINAL else word.generation + 1, Closed, 0)
  }

  /** The device and the answer of mark_device_lost run alone: closed in any case, LOST unless the latch is not free. */
  function MarkedLost(dev: Device, sequence: nat, epoch: nat): (Device, Status) {
    var closed := dev.(word := ClosedWord(dev.word));
    if dev.latch % 2 == 1 then (closed, Retry)
    else if dev.latch > U64_MAX - 2 then (closed, Overflow)
    else (closed.(latch := dev.latch + 2, fence := [dev.identity, sequence, epoch, 0, 0, LOST]), Success)
  }

  /** An odd fence latch is tried 4096 times. */
  lemma {:induction false} LossRetries(s: System, now: nat, e: Effect, w: Writer) returns (later: nat)
    requires e.pc == Writing(w, WLatch) && w.kind.Losing? && w.kind.attempt < LOST_ATTEMPTS
    requires Trouble(e.dev, w) == Retry
    ensures Works(s, w.d, now, e, later, e.(pc := Returned(Retry)))
    decreases LOST_ATTEMPTS - w.kind.attempt
  {
    WriteFails(s, now, e, w);
    later := now + 2;
    if w.kind.attempt + 1 < LOST_ATTEMPTS {
      var again := w.(kind := Losing(w.kind.attempt + 1));
      var next := e.(pc := Writing(again, WLatch));
      later := LossRetries(s, now + 2, next, again);
      WorksOn(s, w.d, now, e, now + 2, next, later, e.(pc := Returned(Retry)));
    }
  }

  lemma {:induction false} LossWorks(s: System, now: nat, e: Effect, d: nat, sequence: nat, epoch: nat)
    returns (later: nat)
    requires |e.dev.fence| == FENCE_WORDS && sequence != 0 && e.pc == Marking(d, sequence, epoch, MLoad)
    ensures
      var (dev, status) := MarkedLost(e.dev, sequence, epoch);
      Works(s, d, now, e, later, Effect(e.g, dev, Returned(status)))
  {
    var closed := ClosedWord(e.dev.word);
    var e1 := e.(pc := Marking(d, sequence, epoch, MClose(e.dev.word)));
    var e2 := e.(dev := e.dev.(word := closed), pc := Marking(d, sequence, epoch, MIdentity(closed)));
    var w := Writer(d, closed, [e.dev.identity, sequence, epoch, 0, 0, LOST], Losing(0));
    var e3 := e2.(pc := Writing(w, WLatch));
    WorksStep(s, d, now, e);
    WorksStep(s, d, now + 1, e1);
    WorksStep(s, d, now + 2, e2);
    assert Act(s, now, e) == e1 && Act(s, now + 1, e1) == e2 && Act(s, now + 2, e2) == e3;
    var (dev, status) := MarkedLost(e.dev, sequence, epoch);
    var end := Effect(e.g, dev, Returned(status));
    later := LossWrites(s, now + 3, e3, w);
    hide Works, Act;
    WorksOn(s, d, now, e, now + 1, e1, now + 2, e2);
    WorksOn(s, d, now, e, now + 2, e2, now + 3, e3);
    WorksOn(s, d, now, e, now + 3, e3, later, end);
  }

  lemma {:induction false} LossWrites(s: System, now: nat, e: Effect, w: Writer) returns (later: nat)
    requires |e.dev.fence| == FENCE_WORDS == |w.intended| && e.pc == Writing(w, WLatch) && w.kind == Losing(0)
    requires w.intended[IDENTITY] == e.dev.identity && w.intended[SEQUENCE] != 0 && e.dev.word == w.expected
    ensures Works(s, w.d, now, e, later,
                  if Odd(e.dev.latch) then e.(pc := Returned(Retry))
                  else if Spent(e.dev.latch) then e.(pc := Returned(Overflow))
                  else e.(dev := e.dev.(fence := w.intended, latch := e.dev.latch + 2), pc := Returned(Success)))
  {
    if Odd(e.dev.latch) {
      later := LossRetries(s, now, e, w);
    } else if Spent(e.dev.latch) {
      WriteFails(s, now, e, w);
      later := now + 2;
    } else {
      WriteStores(s, now, e, w);
      later := now + 11;
    }
  }

  // ---- publish_device_identity ----

  /** What the checks before the claim come to. */
  function IdentityChecked(g: Globals, dev: Device, x: Identity): Status
    requires |dev.fence| == FENCE_WORDS == |x.intended|
  {
    if !g.view.state.ViewOpen? then InvalidArgument
    else if dev.identity != x.expectedId || dev.committed != x.expectedGeneration then StaleHandle
    else if dev.latch % 2 == 1 then Retry
    else if x.intended[SEQUENCE] <= dev.fence[SEQUENCE] then StaleHandle
    else if dev.word.state.Updating? then Retry
    else if dev.word.state.Closed? then DeviceLost
    else if dev.word.generation == 0 || dev.word.generation >= GENERATION_MAX_NORMAL then Exhausted
    else Success
  }

  /** What taking the three latches comes to. */
  function LatchesTaken(g: Globals, dev: Device): Status {
    if Odd(g.controlLatch) || Spent(g.controlLatch) then Retry
    else if Spent(dev.latch) then Overflow
    else if Odd(dev.latch) then Retry
    else if Spent(g.telemetryLatch) then Overflow
    else if Odd(g.telemetryLatch) then Retry
    else Success
  }

  /**
   * The view's words, the device and the answer of publish_device_identity run alone.  Latches that were taken are
   * two higher afterwards, and a device that is not given the new identity has its admission word back.
   */
  function IdentityPublished(g: Globals, dev: Device, x: Identity): Effect
    requires |dev.fence| == FENCE_WORDS == |x.intended|
  {
    var checked, taken := IdentityChecked(g, dev, x), LatchesTaken(g, dev);
    var control, fence := g.(controlLatch := g.controlLatch + 2), dev.(latch := dev.latch + 2);
    if checked != Success then Effect(g, dev, Returned(checked))
    else if taken == Success then
      Effect(control.(telemetryLatch := g.telemetryLatch + 2),
             Device(x.nextId, x.nextGeneration, Word(dev.word.generation + 1, Open, 0), dev.latch + 2, x.intended),
             Returned(Success))
    else if Odd(g.controlLatch) || Spent(g.controlLatch) then Effect(g, dev, Returned(taken))
    else if Odd(dev.latch) || Spent(dev.latch) then Effect(control, dev, Returned(taken))
    else Effect(control, fence, Returned(taken))
  }

  lemma {:induction false} IdentityFenceGivenUp(s: System, now: nat, e: Effect, x: Identity, inner: nat)
    requires e.pc == Replacing(x, IFenceFirst(inner)) && Odd(e.dev.latch) && inner <= SNAPSHOT_ATTEMPTS
    ensures Works(s, x.d, now, e, now + SNAPSHOT_ATTEMPTS - inner + 1, e.(pc := Returned(Retry)))
    decreases SNAPSHOT_ATTEMPTS - inner
  {
    WorksStep(s, x.d, now, e);
    if inner < SNAPSHOT_ATTEMPTS {
      var next := e.(pc := Replacing(x, IFenceFirst(inner + 1)));
      IdentityFenceGivenUp(s, now + 1, next, x, inner + 1);
      WorksOn(s, x.d, now, e, now + 1, next, now + SNAPSHOT_ATTEMPTS - inner + 1, e.(pc := Returned(Retry)));
    }
  }

  /** The sequence of the fence, read under an even latch, and the admission word. */
  lemma {:induction false} SequenceChecked(s: System, now: nat, e: Effect, x: Identity) returns (later: nat)
    requires |e.dev.fence| == FENCE_WORDS == |x.intended| && e.pc == Replacing(x, IFenceFirst(0)) && !Odd(e.dev.latch)
    requires e.g.view.state.ViewOpen? && e.dev.identity == x.expectedId && e.dev.committed == x.expectedGeneration
    ensures
      var checked := IdentityChecked(e.g, e.dev, x);
      Works(s, x.d, now, e, later,
            e.(pc := if checked == Success then Replacing(x.(open := e.dev.word), IClaim) else Returned(checked)))
  {
    var e1 := e.(pc := Replacing(x, IFenceSequence(0, e.dev.latch)));
    var e2 := e.(pc := Replacing(x, IFenceSecond(0, e.dev.latch, e.dev.fence[SEQUENCE])));
    WorksStep(s, x.d, now, e);
    WorksStep(s, x.d, now + 1, e1);
    WorksStep(s, x.d, now + 2, e2);
    var e3 := Act(s, now + 2, e2);
    assert Act(s, now, e) == e1 && Act(s, now + 1, e1) == e2;
    later := now + 3;
    if x.intended[SEQUENCE] > e.dev.fence[SEQUENCE] {
      WorksStep(s, x.d, now + 3, e3);
      var e4 := Act(s, now + 3, e3);
      WorksOn(s, x.d, now + 2, e2, now + 3, e3, now + 4, e4);
      e3, later := e4, now + 4;
    }
    hide Works, Act;
    WorksOn(s, x.d, now, e, now + 1, e1, now + 2, e2);
    WorksOn(s, x.d, now, e, now + 2, e2, later, e3);
  }

  lemma {:induction false} IdentityChecks(s: System, now: nat, e: Effect, x: Identity) returns (later: nat)
    requires |e.dev.fence| == FENCE_WORDS == |x.intended| && e.pc == Replacing(x, IView)
    ensures
      var checked := IdentityChecked(e.g, e.dev, x);
      Works(s, x.d, now, e, later,
            e.(pc := if checked == Success then Replacing(x.(open := e.dev.word), IClaim) else Returned(checked)))
  {
    WorksStep(s, x.d, now, e);
    later := now + 1;
    if e.g.view.state.ViewOpen? {
      var e1 := e.(pc := Replacing(x, IIdentity));
      WorksStep(s, x.d, now + 1, e1);
      var e2 := Act(s, now + 1, e1);
      WorksOn(s, x.d, now, e, now + 1, e1, now + 2, e2);
      later := now + 2;
      if e.dev.identity == x.expectedId {
        WorksStep(s, x.d, now + 2, e2);
        var e3 := Act(s, now + 2, e2);
        hide Act;
        WorksOn(s, x.d, now, e, now + 2, e2, now + 3, e3);
        later := now + 3;
        if e.dev.committed == x.expectedGeneration {
          var end := e.(pc := Returned(Retry));
          if Odd(e.dev.latch) {
            IdentityFenceGivenUp(s, now + 3, e3, x, 0);
            later := now + 8;
          } else {
            later := SequenceChecked(s, now + 3, e3, x);
            var checked := IdentityChecked(e.g, e.dev, x);
            end := e.(pc := if checked == Success then Replacing(x.(open := e.dev.word), IClaim)
                            else Returned(checked));
          }
          hide Works;
          WorksOn(s, x.d, now, e, now + 3, e3, later, end);
        }
      }
    }
  }

  /** The claimed device with the latches as they are. */
  function Updating(dev: Device, x: Identity): Device {
    dev.(word := Word(dev.word.generation + 1, Admission.Updating,
                      UpdateTag(if |x.intended| > SEQUENCE then x.intended[SEQUENCE] else 0)))
  }

  /** Giving the control latch and the word back. */
  lemma {:induction false} ControlUndone(s: System, now: nat, e: Effect, x: Identity, status: Status)
    requires e.pc == Replacing(x, IUndoControl(status)) && e.dev.word == x.updating
    ensures Works(s, x.d, now, e, now + 2,
                  Effect(e.g.(controlLatch := x.control + 2), e.dev.(word := x.open), Returned(status)))
  {
    var e1 := e.(g := e.g.(controlLatch := x.control + 2), pc := Replacing(x, IRestore(status)));
    WorksStep(s, x.d, now, e);
    WorksStep(s, x.d, now + 1, e1);
    var e2 := Act(s, now + 1, e1);
    assert Act(s, now, e) == e1;
    hide Works, Act;
    WorksOn(s, x.d, now, e, now + 1, e1, now + 2, e2);
  }

  lemma {:induction false} FenceUndone(s: System, now: nat, e: Effect, x: Identity, status: Status)
    requires e.pc == Replacing(x, IUndoFence(status)) && e.dev.word == x.updating
    ensures Works(s, x.d, now, e, now + 3,
                  Effect(e.g.(controlLatch := x.control + 2), e.dev.(word := x.open, latch := x.latch + 2),
                         Returned(status)))
  {
    var e1 := e.(dev := e.dev.(latch := x.latch + 2), pc := Replacing(x, IUndoControl(status)));
    var end := Effect(e.g.(controlLatch := x.control + 2), e.dev.(word := x.open, latch := x.latch + 2),
                      Returned(status));
    WorksStep(s, x.d, now, e);
    assert Act(s, now, e) == e1;
    hide Act;
    ControlUndone(s, now + 1, e1, x, status);
    WorksOn(s, x.d, now, e, now + 1, e1, now + 3, end);
  }

  /** The device is claimed and all latches are held. */
  function Holding(g: Globals, dev: Device, x: Identity): Effect {
    var held := x.(open := dev.word, updating := Updating(dev, x).word, control := g.controlLatch, latch := dev.latch,
                   telemetry := g.telemetryLatch);
    Effect(g.(controlLatch := g.controlLatch + 1, telemetryLatch := g.telemetryLatch + 1),
           Updating(dev, x).(latch := dev.latch + 1), Replacing(held, IWriteIdentity))
  }

  function Taken(g: Globals, dev: Device, x: Identity): Effect {
    var taken := LatchesTaken(g, dev);
    var control, fence := g.(controlLatch := g.controlLatch + 2), dev.(latch := dev.latch + 2);
    if taken == Success then Holding(g, dev, x)
    else if Odd(g.controlLatch) || Spent(g.controlLatch) then Effect(g, dev, Returned(taken))
    else if Odd(dev.latch) || Spent(dev.latch) then Effect(control, dev, Returned(taken))
    else Effect(control, fence, Returned(taken))
  }

  lemma {:induction false} TelemetryTaken(s: System, now: nat, e: Effect, x: Identity) returns (later: nat)
    requires e.pc == Replacing(x, ITelemetryLoad) && e.dev.word == x.updating
    ensures
      Works(s, x.d, now, e, later,
            if Odd(e.g.telemetryLatch) || Spent(e.g.telemetryLatch) then
              Effect(e.g.(controlLatch := x.control + 2), e.dev.(word := x.open, latch := x.latch + 2),
                     Returned(if Spent(e.g.telemetryLatch) then Overflow else Retry))
            else
              e.(g := e.g.(telemetryLatch := e.g.telemetryLatch + 1),
                 pc := Replacing(x.(telemetry := e.g.telemetryLatch), IWriteIdentity)))
  {
    WorksStep(s, x.d, now, e);
    var e1 := Act(s, now, e);
    if Odd(e.g.telemetryLatch) || Spent(e.g.telemetryLatch) {
      var status := if Spent(e.g.telemetryLatch) then Overflow else Retry;
      FenceUndone(s, now + 1, e1, x, status);
      later := now + 4;
      WorksOn(s, x.d, now, e, now + 1, e1, later,
              Effect(e.g.(controlLatch := x.control + 2), e.dev.(word := x.open, latch := x.latch + 2),
                     Returned(status)));
    } else {
      WorksStep(s, x.d, now + 1, e1);
      later := now + 2;
      WorksOn(s, x.d, now, e, now + 1, e1, later, Act(s, now + 1, e1));
    }
  }

  lemma {:induction false} FenceTaken(s: System, now: nat, e: Effect, x: Identity) returns (later: nat)
    requires e.pc == Replacing(x, IFenceLoad) && e.dev.word == x.updating
    ensures
      var undone := e.g.(controlLatch := x.control + 2);
      Works(s, x.d, now, e, later,
            if Odd(e.dev.latch) || Spent(e.dev.latch) then
              Effect(undone, e.dev.(word := x.open), Returned(if Spent(e.dev.latch) then Overflow else Retry))
            else if Odd(e.g.telemetryLatch) || Spent(e.g.telemetryLatch) then
              Effect(undone, e.dev.(word := x.open, latch := e.dev.latch + 2),
                     Returned(if Spent(e.g.telemetryLatch) then Overflow else Retry))
            else
              Effect(e.g.(telemetryLatch := e.g.telemetryLatch + 1), e.dev.(latch := e.dev.latch + 1),
                     Replacing(x.(latch := e.dev.latch, telemetry := e.g.telemetryLatch), IWriteIdentity)))
  {
    WorksStep(s, x.d, now, e);
    var e1 := Act(s, now, e);
    if Odd(e.dev.latch) || Spent(e.dev.latch) {
      var status := if Spent(e.dev.latch) then Overflow else Retry;
      ControlUndone(s, now + 1, e1, x, status);
      later := now + 3;
      WorksOn(s, x.d, now, e, now + 1, e1, later,
              Effect(e.g.(controlLatch := x.control + 2), e.dev.(word := x.open), Returned(status)));
    } else {
      var x2 := x.(latch := e.dev.latch);
      var e2 := e.(dev := e.dev.(latch := e.dev.latch + 1), pc := Replacing(x2, ITelemetryLoad));
      WorksStep(s, x.d, now + 1, e1);
      assert Act(s, now + 1, e1) == e2;
      hide Act;
      WorksOn(s, x.d, now, e, now + 1, e1, now + 2, e2);
      later := TelemetryTaken(s, now + 2, e2, x2);
      hide Works;
      var end :=
        if Odd(e.g.telemetryLatch) || Spent(e.g.telemetryLatch) then
          Effect(e.g.(controlLatch := x.control + 2), e.dev.(word := x.open, latch := e.dev.latch + 2),
                 Returned(if Spent(e.g.telemetryLatch) then Overflow else Retry))
        else
          Effect(e.g.(telemetryLatch := e.g.telemetryLatch + 1), e.dev.(latch := e.dev.latch + 1),
                 Replacing(x.(latch := e.dev.latch, telemetry := e.g.telemetryLatch), IWriteIdentity));
      WorksOn(s, x.d, now, e, now + 2, e2, later, end);
    }
  }

  lemma {:induction false} ControlTaken(s: System, now: nat, e: Effect, x: Identity)
    requires e.pc == Replacing(x, IClaim) && e.dev.word == x.open
    ensures
      var claimed := Updating(e.dev, x);
      Works(s, x.d, now, e, now + 3,
            if Odd(e.g.controlLatch) || Spent(e.g.controlLatch) then e.(pc := Returned(Retry))
            else
              Effect(e.g.(controlLatch := e.g.controlLatch + 1), claimed,
                     Replacing(x.(updating := claimed.word, control := e.g.controlLatch), IFenceLoad)))
  {
    hide Works, Act;
    var claimed := Updating(e.dev, x);
    var x1 := x.(updating := claimed.word);
    var e1 := e.(dev := claimed, pc := Replacing(x1, IControlLoad));
    IdentityActs(s, now, e, x, IClaim);
    IdentityActs(s, now + 1, e1, x1, IControlLoad);
    var e2 := Act(s, now + 1, e1);
    IdentityActs(s, now + 2, e2, e2.pc.x, e2.pc.ip);
    var e3 := Act(s, now + 2, e2);
    WorksOn(s, x.d, now, e, now + 1, e1, now + 2, e2);
    WorksOn(s, x.d, now, e, now + 2, e2, now + 3, e3);
  }

  lemma {:induction false} LatchesWork(s: System, now: nat, e: Effect, x: Identity) returns (later: nat)
    requires e.pc == Replacing(x, IClaim) && e.dev.word == x.open
    ensures Works(s, x.d, now, e, later, Taken(e.g, e.dev, x))
  {
    hide Works;
    ControlTaken(s, now, e, x);
    later := now + 3;
    if !Odd(e.g.controlLatch) && !Spent(e.g.controlLatch) {
      var x3 := x.(updating := Updating(e.dev, x).word, control := e.g.controlLatch);
      var e3 := Effect(e.g.(controlLatch := e.g.controlLatch + 1), Updating(e.dev, x), Replacing(x3, IFenceLoad));
      later := FenceTaken(s, now + 3, e3, x3);
      TakenEnds(e.g, e.dev, x);
      WorksOn(s, x.d, now, e, now + 3, e3, later, Taken(e.g, e.dev, x));
    }
  }

  /** What taking comes to, once the control latch is held. */
  lemma {:induction false} TakenEnds(g: Globals, dev: Device, x: Identity)
    requires !Odd(g.controlLatch) && !Spent(g.controlLatch) && dev.word == x.open
    ensures
      var held := g.(controlLatch := g.controlLatch + 1);
      var undone := held.(controlLatch := g.controlLatch + 2);
      var claimed := Updating(dev, x);
      var x3 := x.(updating := claimed.word, control := g.controlLatch);
      Taken(g, dev, x)
      == if Odd(dev.latch) || Spent(dev.latch) then
           Effect(undone, claimed.(word := x.open), Returned(if Spent(dev.latch) then Overflow else Retry))
         else if Odd(g.telemetryLatch) || Spent(g.telemetryLatch) then
           Effect(undone, claimed.(word := x.open, latch := dev.latch + 2),
                  Returned(if Spent(g.telemetryLatch) then Overflow else Retry))
         else
           Effect(held.(telemetryLatch := g.telemetryLatch + 1), claimed.(latch := dev.latch + 1),
                  Replacing(x3.(latch := dev.latch, telemetry := g.telemetryLatch), IWriteIdentity))
  {
    assert x.(open := dev.word) == x;
  }

  lemma {:induction false} NewFenceStored(s: System, now: nat, e: Effect, x: Identity, k: nat)
    requires |e.dev.fence| == FENCE_WORDS == |x.intended| && k < FENCE_WORDS && e.pc == Replacing(x, IWriteFence(k))
    requires Prefix(e.dev.fence, x.intended, k)
    ensures Works(s, x.d, now, e, now + FENCE_WORDS - k,
                  e.(dev := e.dev.(fence := x.intended), pc := Replacing(x, ITelemetryRelease)))
    decreases FENCE_WORDS - k
  {
    var next := Act(s, now, e);
    WorksStep(s, x.d, now, e);
    var end := e.(dev := e.dev.(fence := x.intended), pc := Replacing(x, ITelemetryRelease));
    if k + 1 < FENCE_WORDS {
      NewFenceStored(s, now + 1, next, x, k + 1);
      assert next.(dev := next.dev.(fence := x.intended), pc := Replacing(x, ITelemetryRelease)) == end;
      WorksOn(s, x.d, now, e, now + 1, next, now + FENCE_WORDS - k, end);
    } else {
      assert next.dev.fence == x.intended;
    }
  }

  lemma {:induction false} IdentityActs(s: System, now: nat, e: Effect, x: Identity, ip: IdentityPoint)
    requires e.pc == Replacing(x, ip)
    ensures Act(s, now, e) == IdentityStep(e.g, e.dev, x, ip) && Works(s, x.d, now, e, now + 1, Act(s, now, e))
  {
    hide IdentityStep;
    WorksStep(s, x.d, now, e);
  }

  lemma {:induction false} Releases(s: System, now: nat, e: Effect, x: Identity)
    requires e.pc == Replacing(x, ITelemetryRelease)
    ensures Works(s, x.d, now, e, now + 2,
                  Effect(e.g.(telemetryLatch := x.telemetry + 2), e.dev.(latch := x.latch + 2),
                         Replacing(x, IControlRelease)))
  {
    hide Works, Act, IdentityCheck, IdentityClaim, IdentityTake, IdentityUndo;
    var e1 := e.(g := e.g.(telemetryLatch := x.telemetry + 2), pc := Replacing(x, IFenceRelease));
    IdentityActs(s, now, e, x, ITelemetryRelease);
    IdentityActs(s, now + 1, e1, x, IFenceRelease);
    WorksOn(s, x.d, now, e, now + 1, e1, now + 2, Act(s, now + 1, e1));
  }

  /** Releasing the three latches and reopening. */
  lemma {:induction false} Reopens(s: System, now: nat, e: Effect, x: Identity)
    requires e.pc == Replacing(x, ITelemetryRelease) && e.dev.word == x.updating
    ensures Works(s, x.d, now, e, now + 4,
                  Effect(e.g.(telemetryLatch := x.telemetry + 2, controlLatch := x.control + 2),
                         e.dev.(latch := x.latch + 2, word := Word(x.updating.generation, Open, 0)), Returned(Success)))
  {
    hide Works, Act, IdentityCheck, IdentityClaim, IdentityTake, IdentityUndo;
    var e2 := Effect(e.g.(telemetryLatch := x.telemetry + 2), e.dev.(latch := x.latch + 2),
                     Replacing(x, IControlRelease));
    var e3 := e2.(g := e2.g.(controlLatch := x.control + 2), pc := Replacing(x, IReopen));
    Releases(s, now, e, x);
    IdentityActs(s, now + 2, e2, x, IControlRelease);
    IdentityActs(s, now + 3, e3, x, IReopen);
    WorksOn(s, x.d, now, e, now + 2, e2, now + 3, e3);
    WorksOn(s, x.d, now, e, now + 3, e3, now + 4, Act(s, now + 3, e3));
  }

  /** With all latches held the new identity goes in. */
  lemma {:induction false} IdentityStored(s: System, now: nat, e: Effect, x: Identity)
    requires |e.dev.fence| == FENCE_WORDS == |x.intended| && e.pc == Replacing(x, IWriteIdentity)
    requires e.dev.word == x.updating
    ensures Works(s, x.d, now, e, now + 12,
                  Effect(e.g.(telemetryLatch := x.telemetry + 2, controlLatch := x.control + 2),
                         Device(x.nextId, x.nextGeneration, Word(x.updating.generation, Open, 0), x.latch + 2,
                                x.intended), Returned(Success)))
  {
    var e1 := e.(dev := e.dev.(identity := x.nextId), pc := Replacing(x, IWriteGeneration));
    var e2 := e1.(dev := e1.dev.(committed := x.nextGeneration), pc := Replacing(x, IWriteFence(0)));
    var e3 := e2.(dev := e2.dev.(fence := x.intended), pc := Replacing(x, ITelemetryRelease));
    var end := Effect(e.g.(telemetryLatch := x.telemetry + 2, controlLatch := x.control + 2),
                      Device(x.nextId, x.nextGeneration, Word(x.updating.generation, Open, 0), x.latch + 2, x.intended),
                      Returned(Success));
    hide Works, Act, IdentityCheck, IdentityClaim, IdentityTake, IdentityUndo;
    IdentityActs(s, now, e, x, IWriteIdentity);
    IdentityActs(s, now + 1, e1, x, IWriteGeneration);
    NewFenceStored(s, now + 2, e2, x, 0);
    Reopens(s, now + 8, e3, x);
    WorksOn(s, x.d, now, e, now + 1, e1, now + 2, e2);
    WorksOn(s, x.d, now, e, now + 2, e2, now + 8, e3);
    WorksOn(s, x.d, now, e, now + 8, e3, now + 12, end);
  }

  lemma {:induction false} IdentityWorks(s: System, now: nat, e: Effect, x: Identity) returns (later: nat)
    requires |e.dev.fence| == FENCE_WORDS == |x.intended| && e.pc == Replacing(x, IView)
    ensures Works(s, x.d, now, e, later, IdentityPublished(e.g, e.dev, x))
  {
    hide Works, IdentityChecked;
    later := IdentityChecks(s, now, e, x);
    if IdentityChecked(e.g, e.dev, x) == Success {
      var x1 := x.(open := e.dev.word);
      var e1 := e.(pc := Replacing(x1, IClaim));
      var taken := LatchesWork(s, later, e1, x1);
      var e2 := Taken(e.g, e.dev, x1);
      WorksOn(s, x.d, now, e, later, e1, taken, e2);
      later := taken;
      if LatchesTaken(e.g, e.dev) == Success {
        IdentityStored(s, later, e2, e2.pc.x);
        WorksOn(s, x.d, now, e, later, e2, later + 12, IdentityPublished(e.g, e.dev, x));
        later := later + 12;
      }
    }
  }

  // ---- The calls ----

  /** Actor a calls and then runs alone for n steps. */
  function CallAlone(s: System, a: nat, call: Call, n: nat): System
    requires a < |s.actors|
  {
    Onward(SystemStep(s, a, call), a, n)
  }

  lemma {:induction false} IdleStarts(s: System, a: nat, d: nat, call: Call)
    requires a < |s.actors| && d < |s.devices| && s.actors[a] == Idle
    ensures SystemStep(s, a, call)
         == Worked(s, a, d, 1, Effect(s.g, s.devices[d], Begin(s.viewId, |s.devices|, s.now, call)))
  {
    assert s.devices[d := s.devices[d]] == s.devices;
    if |s.devices| > 0 { assert s.devices[0 := s.devices[0]] == s.devices; }
  }

  /** Whatever is begun and worked off is the outcome of the call. */
  lemma {:induction false} CallWorks(s: System, a: nat, d: nat, call: Call, later: nat, end: Effect)
    requires a < |s.actors| && d < |s.devices| && s.actors[a] == Idle
    requires Works(s, d, s.now + 1, Effect(s.g, s.devices[d], Begin(s.viewId, |s.devices|, s.now, call)), later, end)
    ensures later > s.now && CallAlone(s, a, call, later - s.now - 1) == Worked(s, a, d, later - s.now, end)
  {
    hide Works, Worked, Begin, SystemStep;
    IdleStarts(s, a, d, call);
    WorksInSystem(s, a, d, 1, Effect(s.g, s.devices[d], Begin(s.viewId, |s.devices|, s.now, call)), later, end);
  }

  // ---- These are runs ----

  lemma {:induction false} OnwardAdds(s: System, a: nat, m: nat, n: nat)
    requires a < |s.actors|
    ensures |Onward(s, a, m).actors| == |s.actors|
    ensures Onward(s, a, m + n) == Onward(Onward(s, a, m), a, n)
    decreases m
  {
    hide ActorStep;
    if m > 0 { OnwardAdds(SystemStep(s, a, Stay), a, m - 1, n); }
  }

  lemma {:induction false} AloneIsRun(s: System, a: nat, call: Call, n: nat)
    requires a < |s.actors|
    ensures Schedulable(s, Solo(a, call, n)) && |Solo(a, call, n)| == n + 1
    ensures Run(s, Solo(a, call, n))[n + 1] == CallAlone(s, a, call, n)
    decreases n
  {
    hide SystemStep, Run;
    if n == 0 {
      assert Solo(a, call, 0) == [Move(a, call)];
      OneStep(s, Move(a, call));
    } else {
      AloneIsRun(s, a, call, n - 1);
      RunAppend(s, Solo(a, call, n - 1), Move(a, Stay));
      StepKeepsActors(s, a, call);
      OnwardAdds(SystemStep(s, a, call), a, n - 1, 1);
      var r := Onward(SystemStep(s, a, call), a, n - 1);
      StepKeepsActors(r, a, Stay);
      assert Onward(r, a, 1) == Onward(SystemStep(r, a, Stay), a, 0);
    }
  }

  lemma {:induction false} StepKeepsActors(s: System, a: nat, call: Call)
    requires a < |s.actors|
    ensures |SystemStep(s, a, call).actors| == |s.actors|
  {
  }

  // ---- The outcomes ----

  /** publish_fence run alone, in every state in which fences have their six words. */
  lemma {:induction false} FencePublishesAlone(s: System, a: nat, d: nat, generation: nat, intended: seq<nat>)
    returns (n: nat)
    requires SystemInv(s) && a < |s.actors| && s.actors[a] == Idle && d < |s.devices|
    ensures
      var call := PublishFence(d, generation, intended);
      if |intended| == FENCE_WORDS && intended[STATE] == ONLINE && 0 < generation < GENERATION_MAX_NORMAL then
        var (dev, status) := FencePublished(s.devices[d], generation, intended);
        CallAlone(s, a, call, n) == Worked(s, a, d, n + 1, Effect(s.g, dev, Returned(status)))
      else CallAlone(s, a, call, n) == Worked(s, a, d, n + 1, Effect(s.g, s.devices[d], Returned(InvalidArgument)))
  {
    hide ActorInv, PairInv, Works, CallAlone, Worked, FencePublished;
    assert DeviceInv(s.devices[d]);
    var call := PublishFence(d, generation, intended);
    var e := Effect(s.g, s.devices[d], Begin(s.viewId, |s.devices|, s.now, call));
    if |intended| == FENCE_WORDS && intended[STATE] == ONLINE && 0 < generation < GENERATION_MAX_NORMAL {
      var later := FenceWorks(s, s.now + 1, e, d, generation, intended);
      var (dev, status) := FencePublished(s.devices[d], generation, intended);
      CallWorks(s, a, d, call, later, Effect(s.g, dev, Returned(status)));
      n := later - s.now - 1;
    } else {
      WorksNothing(s, d, s.now + 1, e);
      CallWorks(s, a, d, call, s.now + 1, e);
      n := 0;
    }
  }

  /** mark_device_lost run alone. */
  lemma {:induction false} LossMarksAlone(s: System, a: nat, d: nat, sequence: nat, epoch: nat) returns (n: nat)
    requires SystemInv(s) && a < |s.actors| && s.actors[a] == Idle && d < |s.devices|
    ensures
      var call := MarkLost(d, sequence, epoch);
      if sequence > 0 then
        var (dev, status) := MarkedLost(s.devices[d], sequence, epoch);
        CallAlone(s, a, call, n) == Worked(s, a, d, n + 1, Effect(s.g, dev, Returned(status)))
      else CallAlone(s, a, call, n) == Worked(s, a, d, n + 1, Effect(s.g, s.devices[d], Returned(InvalidArgument)))
  {
    hide ActorInv, PairInv, Works, CallAlone, Worked, MarkedLost;
    assert DeviceInv(s.devices[d]);
    var call := MarkLost(d, sequence, epoch);
    var e := Effect(s.g, s.devices[d], Begin(s.viewId, |s.devices|, s.now, call));
    if sequence > 0 {
      var later := LossWorks(s, s.now + 1, e, d, sequence, epoch);
      var (dev, status) := MarkedLost(s.devices[d], sequence, epoch);
      CallWorks(s, a, d, call, later, Effect(s.g, dev, Returned(status)));
      n := later - s.now - 1;
    } else {
      WorksNothing(s, d, s.now + 1, e);
      CallWorks(s, a, d, call, s.now + 1, e);
      n := 0;
    }
  }

  /** Arguments publish_device_identity accepts. */
  predicate GoodIdentity(x: Identity) {
    && x.expectedId > 0 && x.expectedGeneration > 0 && x.nextId > x.expectedId
    && x.nextGeneration > x.expectedGeneration && |x.intended| == FENCE_WORDS && x.intended[IDENTITY] == x.nextId
    && x.intended[SEQUENCE] > 0 && x.intended[STATE] == ONLINE
  }

  /** publish_device_identity run alone. */
  lemma {:induction false} IdentityPublishesAlone(s: System, a: nat, x: Identity) returns (n: nat)
    requires SystemInv(s) && a < |s.actors| && s.actors[a] == Idle && x.d < |s.devices|
    ensures
      CallAlone(s, a, PublishIdentity(x), n)
      == Worked(s, a, x.d, n + 1,
                if GoodIdentity(x) then
                  assert DeviceInv(s.devices[x.d]); IdentityPublished(s.g, s.devices[x.d], x)
                else Effect(s.g, s.devices[x.d], Returned(InvalidArgument)))
  {
    hide ActorInv, PairInv, Works, CallAlone, Worked, IdentityPublished;
    assert DeviceInv(s.devices[x.d]);
    var e := Effect(s.g, s.devices[x.d], Begin(s.viewId, |s.devices|, s.now, PublishIdentity(x)));
    if GoodIdentity(x) {
      var later := IdentityWorks(s, s.now + 1, e, x);
      CallWorks(s, a, x.d, PublishIdentity(x), later, IdentityPublished(s.g, s.devices[x.d], x));
      n := later - s.now - 1;
    } else {
      WorksNothing(s, x.d, s.now + 1, e);
      CallWorks(s, a, x.d, PublishIdentity(x), s.now + 1, e);
      n := 0;
    }
  }
}
