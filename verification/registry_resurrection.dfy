// A run in which an identity publisher that claimed the device before it was closed stores an ONLINE
// fence over a committed LOST one: publish_device_identity does not look at the admission word again
// after it has taken its latches.
module RegistryResurrection {
  import opened RegistryProtocol
  import opened RegistryInvariants
  import opened RegistryTheorems

  /** Actor `a` takes n steps. */
  function Steps(s: System, a: nat, n: nat): System
    requires a < |s.actors|
    decreases n
  {
    if n == 0 then s else Steps(SystemStep(s, a, Stay), a, n - 1)
  }

  lemma {:induction false} RunSteps(s: System, schedule: seq<Move>, i: nat, a: nat, n: nat)
    requires Schedulable(s, schedule) && a < |s.actors| && i + n <= |schedule|
    requires forall j :: i <= j < i + n ==> schedule[j] == Move(a, Stay)
    ensures Run(s, schedule)[i + n] == Steps(Run(s, schedule)[i], a, n)
    decreases n
  {
    hide SystemStep;
    if n > 0 { RunSteps(s, schedule, i + 1, a, n - 1); }
  }

  /** A fence write undisturbed from field k to its end. */
  lemma {:induction false} WriterAlone(s: System, a: nat, w: Writer, latch: nat, k: nat)
    requires a < |s.actors| && s.actors[a] == Writing(w, WField(latch, k)) && w.d < |s.devices| && k < FENCE_WORDS
    requires |w.intended| == FENCE_WORDS && |s.devices[w.d].fence| == FENCE_WORDS
        && Prefix(s.devices[w.d].fence, w.intended, k)
    ensures
      Steps(s, a, FENCE_WORDS - k)
      == s.(now := s.now + FENCE_WORDS - k, devices := s.devices[w.d := s.devices[w.d].(fence := w.intended)],
            actors := s.actors[a := Writing(w, WRelease(latch))])
    decreases FENCE_WORDS - k
  {
    var s2 := SystemStep(s, a, Stay);
    if k + 1 < FENCE_WORDS {
      WriterAlone(s2, a, w, latch, k + 1);
    } else {
      assert Steps(s, a, 1) == s2;
      assert s2.devices[w.d].fence == w.intended;
    }
  }

  /** The fence stores of an identity publisher, undisturbed. */
  lemma {:induction false} PublisherAlone(s: System, a: nat, x: Identity, k: nat)
    requires a < |s.actors| && s.actors[a] == Replacing(x, IWriteFence(k)) && x.d < |s.devices| && k < FENCE_WORDS
    requires |x.intended| == FENCE_WORDS && |s.devices[x.d].fence| == FENCE_WORDS
        && Prefix(s.devices[x.d].fence, x.intended, k)
    ensures
      Steps(s, a, FENCE_WORDS - k)
      == s.(now := s.now + FENCE_WORDS - k, devices := s.devices[x.d := s.devices[x.d].(fence := x.intended)],
            actors := s.actors[a := Replacing(x, ITelemetryRelease)])
    decreases FENCE_WORDS - k
  {
    var s2 := SystemStep(s, a, Stay);
    if k + 1 < FENCE_WORDS {
      PublisherAlone(s2, a, x, k + 1);
    } else {
      assert Steps(s, a, 1) == s2;
      assert s2.devices[x.d].fence == x.intended;
    }
  }

  const PAYLOAD := [6, 2, 1, 0, 0, 1]
  const OLD_FENCE := [5, 1, 1, 0, 0, 1]
  const LOST_FENCE := [5, 3, 1, 0, 0, 2]

  function Publisher(open: Word, updating: Word, control: nat, latch: nat, ip: IdentityPoint): Pc {
    Replacing(Identity(0, 5, 1, 6, 2, PAYLOAD, open, updating, control, latch, 0), ip)
  }

  function Snapshot(now: nat, control: nat, telemetry: nat, dev: Device, first: Pc, second: Pc): System {
    System(7, now, Globals(ViewWord(1, ViewOpen), control, 1, 0, telemetry), [dev], [first, second])
  }

  const CLAIMED := Word(2, Updating, 2)
  const CLOSED := Word(3, Closed, 0)
  const WAITING := Publisher(Word(1, Open, 0), CLAIMED, 0, 0, IControlLoad)
  const LOSER := Writer(0, CLOSED, LOST_FENCE, Losing(0))

  const START := Snapshot(0, 0, 0, Device(5, 1, Word(1, Open, 0), 0, OLD_FENCE), Idle, Idle)

  const CALL := Identity(0, 5, 1, 6, 2, PAYLOAD, NO_WORD, NO_WORD, 0, 0, 0)

  const SCHEDULE := [Move(0, PublishIdentity(CALL))] + seq(8, _ => Move(0, Stay))
    + [Move(1, MarkLost(0, 3, 1))] + seq(14, _ => Move(1, Stay)) + seq(14, _ => Move(0, Stay))

  /** The publisher checks and claims the device. */
  lemma {:induction false} PublisherClaims()
    ensures
      Steps(Snapshot(1, 0, 0, Device(5, 1, Word(1, Open, 0), 0, OLD_FENCE), Publisher(NO_WORD, NO_WORD, 0, 0, IView),
                     Idle), 0, 8)
      == Snapshot(9, 0, 0, Device(5, 1, CLAIMED, 0, OLD_FENCE), WAITING, Idle)
  {
  }

  /** The device is marked lost: its word closes and the writer takes the fence latch. */
  lemma {:induction false} LoserCloses()
    ensures
      Steps(Snapshot(10, 0, 0, Device(5, 1, CLAIMED, 0, OLD_FENCE), WAITING, Marking(0, 3, 1, MLoad)), 1, 7)
      == Snapshot(17, 0, 0, Device(5, 1, CLOSED, 1, OLD_FENCE), WAITING, Writing(LOSER, WField(0, 0)))
  {
  }

  /** The publisher takes its latches on the closed device. */
  lemma {:induction false} PublisherLatches()
    ensures
      Steps(Snapshot(24, 0, 0, Device(5, 1, CLOSED, 2, LOST_FENCE), WAITING, Returned(Success)), 0, 4)
      == Snapshot(28, 1, 0, Device(5, 1, CLOSED, 3, LOST_FENCE),
                  Publisher(Word(1, Open, 0), CLAIMED, 0, 2, ITelemetryLoad), Returned(Success))
  {
  }

  /** The publisher replaces the identity. */
  lemma {:induction false} PublisherReplaces()
    ensures
      Steps(Snapshot(28, 1, 0, Device(5, 1, CLOSED, 3, LOST_FENCE),
                     Publisher(Word(1, Open, 0), CLAIMED, 0, 2, ITelemetryLoad), Returned(Success)), 0, 4)
      == Snapshot(32, 1, 1, Device(6, 2, CLOSED, 3, LOST_FENCE),
                  Publisher(Word(1, Open, 0), CLAIMED, 0, 2, IWriteFence(0)), Returned(Success))
  {
  }

  lemma {:induction false} Scheduled()
    ensures Schedulable(START, SCHEDULE) && |SCHEDULE| == 38
  {
  }

  lemma {:induction false} AfterClaim()
    requires Schedulable(START, SCHEDULE)
    ensures Run(START, SCHEDULE)[9] == Snapshot(9, 0, 0, Device(5, 1, CLAIMED, 0, OLD_FENCE), WAITING, Idle)
  {
    var run := Run(START, SCHEDULE);
    assert run[1]
        == Snapshot(1, 0, 0, Device(5, 1, Word(1, Open, 0), 0, OLD_FENCE), Publisher(NO_WORD, NO_WORD, 0, 0, IView),
                    Idle);
    hide SystemStep, Steps, Run;
    RunSteps(START, SCHEDULE, 1, 0, 8);
    PublisherClaims();
  }

  lemma {:induction false} AfterLoss()
    requires Schedulable(START, SCHEDULE)
    ensures Run(START, SCHEDULE)[24]
        == Snapshot(24, 0, 0, Device(5, 1, CLOSED, 2, LOST_FENCE), WAITING, Returned(Success))
  {
    hide Steps, Run;
    var run := Run(START, SCHEDULE);
    AfterClaim();
    assert run[10] == Snapshot(10, 0, 0, Device(5, 1, CLAIMED, 0, OLD_FENCE), WAITING, Marking(0, 3, 1, MLoad));
    RunSteps(START, SCHEDULE, 10, 1, 7);
    LoserCloses();
    RunSteps(START, SCHEDULE, 17, 1, 6);
    WriterAlone(run[17], 1, LOSER, 0, 0);
    assert run[24] == SystemStep(run[23], 1, Stay);
  }

  /** A committed LOST fence is followed by an ONLINE one; the device stays closed. */
  lemma {:induction false} LostCanBeResurrected()
    ensures InitialSystem(START) && Schedulable(START, SCHEDULE)
    ensures
      var run := Run(START, SCHEDULE);
      && |run| == 39 && |run[24].devices| == 1 && Lost(run[24].devices[0]) && !BeingStored(run[24], 0)
      && |run[38].devices| == 1 && run[38].devices[0].fence == PAYLOAD && run[38].devices[0].word.state.Closed?
  {
    hide Steps, Run, SystemStep;
    Scheduled();
    var run := Run(START, SCHEDULE);
    AfterLoss();
    RunSteps(START, SCHEDULE, 24, 0, 4);
    PublisherLatches();
    RunSteps(START, SCHEDULE, 28, 0, 4);
    PublisherReplaces();
    RunSteps(START, SCHEDULE, 32, 0, 6);
    PublisherAlone(run[32], 0, run[32].actors[0].x, 0);
  }
}
