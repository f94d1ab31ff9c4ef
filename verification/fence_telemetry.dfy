// The fence/telemetry race model (tools/check-lifecycle-model.py) for all bounds and runs of any length.
module FenceTelemetry {

  datatype Lifecycle = Online | Lost
  datatype Phase = Idle | Captured | BankRead | Done
  datatype Verdict = NoVerdict | SaysOnline | SaysLost | SaysRetry

  datatype Limits = Limits(fenceTerminal: int, telemetryTerminal: int, maxRetries: int)

  datatype Fence = Fence(sequence: int, latch: int, writing: bool)
  datatype Telemetry = Telemetry(latch: int, sequence: int, bank: int, observed: int, generation: int, online: bool)
  datatype Writer = Writer(active: bool, fence: int, generation: int, staged: bool)
  datatype Reader = Reader(phase: Phase, fence: int, generation: int, latch: int, observed: int,
                           observedGeneration: int,
                           verdict: Verdict, retries: int)

  datatype Snapshot = Snapshot(lifecycle: Lifecycle, generation: int, epoch: int, fence: Fence, telemetry: Telemetry,
                               writer: Writer, reader: Reader)

  datatype Event =
    | BeginLoss | CommitLoss | AbortLoss | BeginTelemetry | StageTelemetry | CommitTelemetry
    | BeginRead | ReadBank | FinishRead | ResetReader

  const NO_WRITER := Writer(false, 0, 0, false)
  const NO_READER := Reader(Idle, 0, 0, 0, 0, 0, NoVerdict, 0)

  predicate Odd(latch: int) { latch % 2 == 1 }

  /** The snapshot before any event: nobody writes and nobody reads. */
  predicate Initial(s: Snapshot) {
    !s.fence.writing && s.writer == NO_WRITER && s.reader == NO_READER
  }

  function ClearedReader(r: Reader): Reader { NO_READER.(retries := r.retries) }

  /** One failed attempt; the last one allowed ends the read. */
  function Retried(m: Limits, r: Reader): Reader {
    var retries := r.retries + 1;
    var failed := r.(verdict := SaysRetry, retries := retries, latch := 0);
    if retries >= m.maxRetries then failed.(phase := Done) else failed.(phase := Idle, fence := 0, generation := 0)
  }

  /** Exclusive or with one. */
  function Flipped(bank: int): int { if bank % 2 == 0 then bank + 1 else bank - 1 }

  predicate Fresh(s: Snapshot) {
    s.lifecycle.Online? && !s.fence.writing && !Odd(s.fence.latch) && s.writer.fence == s.fence.sequence
    && s.writer.generation == s.generation
  }

  function ApplyWriter(m: Limits, s: Snapshot, event: Event): Snapshot {
    match event
    case BeginLoss =>
      if !s.lifecycle.Online? || s.fence.writing || Odd(s.fence.latch) then s
      else s.(fence := s.fence.(latch := s.fence.latch + 1, writing := true))
    case CommitLoss =>
      if !s.fence.writing || !Odd(s.fence.latch) || s.fence.sequence + 1 >= m.fenceTerminal then s
      else
        s.(lifecycle := Lost, fence := Fence(s.fence.sequence + 1, s.fence.latch + 1, false),
           telemetry := s.telemetry.(online := false),
           reader := if s.reader.phase.Done? && s.reader.verdict.SaysOnline? then ClearedReader(s.reader) else s.reader)
    case AbortLoss =>
      if !s.fence.writing || !Odd(s.fence.latch) then s
      else s.(fence := s.fence.(latch := s.fence.latch + 1, writing := false))
    case BeginTelemetry =>
      if !s.lifecycle.Online? || s.fence.writing || s.writer.active || Odd(s.fence.latch)
          || Odd(s.telemetry.latch) then s
      else
        s.(telemetry := s.telemetry.(latch := s.telemetry.latch + 1),
           writer := Writer(true, s.fence.sequence, s.generation, false))
    case StageTelemetry =>
      if !s.writer.active || s.writer.staged then s else s.(writer := s.writer.(staged := true))
    case CommitTelemetry =>
      if !s.writer.active || !s.writer.staged then s
      else if Fresh(s) then
        if s.telemetry.sequence + 1 >= m.telemetryTerminal then s
        else
          s.(writer := NO_WRITER,
             telemetry := Telemetry(s.telemetry.latch + 1, s.telemetry.sequence + 1, Flipped(s.telemetry.bank),
                                    s.writer.fence, s.writer.generation, true))
      else
        s.(writer := NO_WRITER,
           telemetry := s.telemetry.(latch := s.telemetry.latch + 1, online := !s.lifecycle.Lost?
               && s.telemetry.online))
    case _ => s
  }

  function ApplyReader(m: Limits, s: Snapshot, event: Event): Reader {
    var r := s.reader;
    match event
    case BeginRead =>
      if !r.phase.Idle? then r
      else if s.lifecycle.Lost? then r.(phase := Done, verdict := SaysLost)
      else if s.fence.writing || Odd(s.fence.latch) then r
      else Reader(Captured, s.fence.sequence, s.generation, 0, 0, 0, NoVerdict, r.retries)
    case ReadBank =>
      if !r.phase.Captured? then r
      else if Odd(s.telemetry.latch) then Retried(m, r).(latch := r.latch)
      else r.(phase := BankRead, latch := s.telemetry.latch, observed := s.telemetry.observed,
              observedGeneration := s.telemetry.generation)
    case FinishRead =>
      if !r.phase.BankRead? then r
      else if s.telemetry.latch != r.latch || Odd(s.telemetry.latch) then Retried(m, r)
      else if s.lifecycle.Lost? then r.(phase := Done, verdict := SaysLost, latch := 0)
      else if !s.telemetry.online || r.fence != s.fence.sequence || r.generation != s.generation
              || r.observedGeneration != s.generation || r.observed < s.fence.sequence then Retried(m, r)
      else r.(phase := Done, verdict := SaysOnline, latch := 0)
    case ResetReader =>
      if !r.phase.Done? || !r.verdict.SaysRetry? || r.retries >= m.maxRetries then r else ClearedReader(r)
    case _ => r
  }

  predicate Reads(event: Event) { event.BeginRead? || event.ReadBank? || event.FinishRead? || event.ResetReader? }

  function Apply(m: Limits, s: Snapshot, event: Event): Snapshot {
    if Reads(event) then s.(reader := ApplyReader(m, s, event)) else ApplyWriter(m, s, event)
  }

  function Run(m: Limits, s: Snapshot, events: seq<Event>): Snapshot
    decreases |events|
  {
    if events == [] then s else Run(m, Apply(m, s, events[0]), events[1..])
  }

  // ---- The model's own assertion ----

  ghost predicate PublicationAssertion(m: Limits, s: Snapshot) {
    && s.generation > 0 && s.epoch > 0 && 0 < s.fence.sequence < m.fenceTerminal
    && s.telemetry.sequence < m.telemetryTerminal && s.fence.latch > 0 && s.telemetry.latch > 0
    && (Odd(s.fence.latch) <==> s.fence.writing) && (Odd(s.telemetry.latch) <==> s.writer.active)
    && (s.telemetry.bank == 0 || s.telemetry.bank == 1)
    && s.telemetry.observed <= s.fence.sequence && s.telemetry.generation == s.generation
    && (if s.telemetry.online then s.lifecycle.Online?
          && s.telemetry.observed == s.fence.sequence else s.lifecycle.Lost?)
    && (if s.writer.active then s.writer.fence > 0 && s.writer.generation > 0 else s.writer == NO_WRITER)
  }

  ghost predicate ReaderAssertion(m: Limits, s: Snapshot) {
    var r := s.reader;
    && 0 <= r.retries <= m.maxRetries
    && (r.phase.Captured? ==> r.fence > 0 && r.generation == s.generation)
    && (r.phase.BankRead? ==> r.latch > 0 && !Odd(r.latch))
    && (r.phase.Done? ==>
          && !r.verdict.NoVerdict? && (r.verdict.SaysLost? ==> s.lifecycle.Lost?)
          && (r.verdict.SaysOnline? ==>
                && s.lifecycle.Online? && s.telemetry.online && r.fence == s.fence.sequence
                    && r.generation == s.generation
                && r.observedGeneration == s.generation && r.observed >= s.fence.sequence))
  }

  ghost predicate Assertion(m: Limits, s: Snapshot) { PublicationAssertion(m, s) && ReaderAssertion(m, s) }

  /** The assertion made inductive: a read that has not given up still has an attempt left, or cannot need one. */
  ghost predicate Inv(m: Limits, s: Snapshot) {
    && Assertion(m, s)
    && (|| (s.lifecycle.Lost? && (s.reader.phase.Idle? || s.reader.phase.Done?))
        || (s.reader.phase.Done? && s.reader.verdict.SaysRetry?)
        || s.reader.retries < m.maxRetries)
  }

  lemma {:induction false} WriterKeeps(m: Limits, s: Snapshot, event: Event)
    requires Inv(m, s) && !Reads(event)
    ensures Inv(m, Apply(m, s, event))
  {
  }

  lemma {:induction false} ReaderKeeps(m: Limits, s: Snapshot, event: Event)
    requires Inv(m, s) && Reads(event)
    ensures Inv(m, Apply(m, s, event))
  {
  }

  lemma {:induction false} RunKeeps(m: Limits, s: Snapshot, events: seq<Event>)
    requires Inv(m, s)
    ensures Inv(m, Run(m, s, events))
    decreases |events|
  {
    hide Inv, Apply;
    if events != [] {
      if Reads(events[0]) { ReaderKeeps(m, s, events[0]); } else { WriterKeeps(m, s, events[0]); }
      RunKeeps(m, Apply(m, s, events[0]), events[1..]);
    }
  }

  /** Every snapshot of every run passes the assertion. */
  ghost predicate AlwaysPasses(m: Limits, s: Snapshot) {
    forall events: seq<Event> :: Assertion(m, Run(m, s, events))
  }

  /**
   * Exactly when a read is allowed at least one attempt, or the device starts lost, every snapshot of
   * every run passes the assertion.
   */
  lemma {:induction false} AssertionAlways(m: Limits, s: Snapshot)
    requires Initial(s) && Assertion(m, s)
    ensures AlwaysPasses(m, s) <==> m.maxRetries >= 1 || s.lifecycle.Lost?
  {
    if m.maxRetries >= 1 || s.lifecycle.Lost? {
      forall events ensures Assertion(m, Run(m, s, events)) { RunKeeps(m, s, events); }
    } else {
      NoAttemptsOverruns(m, s);
    }
  }

  /** What the loader demands of a bounds file before it explores the race. */
  predicate Accepted(m: Limits, s: Snapshot) {
    && Initial(s) && s.lifecycle.Online? && s.telemetry.online
    && m.fenceTerminal > 0 && m.telemetryTerminal > 0 && m.maxRetries > 0
    && s.fence.sequence < m.fenceTerminal && s.telemetry.sequence < m.telemetryTerminal
    && s.fence.latch > 0 && !Odd(s.fence.latch) && s.telemetry.latch > 0 && !Odd(s.telemetry.latch)
    && (s.telemetry.bank == 0 || s.telemetry.bank == 1)
    && s.telemetry.observed == s.fence.sequence && s.telemetry.generation == s.generation
  }

  /** For every bounds file the loader accepts, runs of any length pass exactly when its identity is positive. */
  lemma {:induction false} AcceptedBoundsPass(m: Limits, s: Snapshot)
    requires Accepted(m, s)
    ensures AlwaysPasses(m, s) <==> s.generation > 0 && s.epoch > 0 && s.fence.sequence > 0
  {
    if s.generation > 0 && s.epoch > 0 && s.fence.sequence > 0 {
      assert Assertion(m, s);
      AssertionAlways(m, s);
    }
    if AlwaysPasses(m, s) { StartPasses(m, s); }
  }

  lemma {:induction false} StartPasses(m: Limits, s: Snapshot)
    requires AlwaysPasses(m, s)
    ensures Assertion(m, s)
  {
    assert Run(m, s, []) == s;
  }

  /** With no attempt allowed, a reader that meets a telemetry writer overruns the bound. */
  lemma {:induction false} NoAttemptsOverruns(m: Limits, s: Snapshot)
    requires Initial(s) && Assertion(m, s) && m.maxRetries == 0 && s.lifecycle.Online?
    ensures !Assertion(m, Run(m, s, [BeginRead, BeginTelemetry, ReadBank]))
  {
    var s1 := Apply(m, s, BeginRead);
    var s2 := Apply(m, s1, BeginTelemetry);
    var s3 := Apply(m, s2, ReadBank);
    assert s3.reader.retries == 1;
    RunThree(m, s, BeginRead, BeginTelemetry, ReadBank);
  }

  lemma {:induction false} RunThree(m: Limits, s: Snapshot, a: Event, b: Event, c: Event)
    ensures Run(m, s, [a, b, c]) == Apply(m, Apply(m, Apply(m, s, a), b), c)
  {
    hide Apply;
    var s1 := Apply(m, s, a);
    assert [a, b, c][1..] == [b, c] && [b, c][1..] == [c] && [c][1..] == [];
    assert Run(m, s, [a, b, c]) == Run(m, s1, [b, c]);
    assert Run(m, s1, [b, c]) == Run(m, Apply(m, s1, b), [c]);
  }

  /** Loss is final: no later event, stale telemetry included, makes the device or its telemetry online again. */
  lemma {:induction false} LossIsFinal(m: Limits, s: Snapshot, events: seq<Event>)
    requires Inv(m, s) && s.lifecycle.Lost?
    ensures
      var after := Run(m, s, events);
      && after.lifecycle.Lost? && !after.telemetry.online
      && !(after.reader.phase.Done? && after.reader.verdict.SaysOnline?)
    decreases |events|
  {
    if events != [] {
      RunKeeps(m, s, [events[0]]);
      assert Run(m, s, [events[0]]) == Apply(m, s, events[0]);
      hide Inv;
      LossIsFinal(m, Apply(m, s, events[0]), events[1..]);
    }
  }
}
