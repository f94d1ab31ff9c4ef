// What read_telemetry and the stores of publish_telemetry come to when their actor runs alone, and that the one
// returns what the other stored.
module RegistrySampling {
  import opened RegistryProtocol
  import opened RegistryInvariants
  import opened RegistrySafety
  import opened RegistryTheorems
  import opened RegistryAlone
  import opened RegistryTelemetry
  import opened RegistryRows

  // ---- A validation that a telemetry read waits for ----

  predicate Ended(pc: Pc) { pc.Returned? || pc.Validated? }

  /** After its end a call is idle, and stays idle. */
  lemma {:induction false} IdleStays(s: System, now: nat, n: nat)
    ensures Steps(s, now, Idle, n) == Idle
    decreases n
  {
    if n > 0 { IdleStays(s, now + 1, n - 1); }
  }

  lemma {:induction false} EndsOnce(s: System, now: nat, pc: Pc, n: nat)
    requires n > 0 && Ended(Steps(s, now, pc, n))
    ensures !Ended(pc) && !pc.Idle?
  {
    if Ended(pc) {
      IdleStays(s, now + 1, n - 1);
    } else if pc.Idle? {
      IdleStays(s, now, n);
    }
  }

  /** Nobody else moves: the next move of actor a, whatever its sampler does. */
  const AHEAD := FullMove(0, Stay, None, None)

  function Advance(f: Full, a: nat, n: nat): (r: Full)
    requires ValidFull(f) && a < |f.samplers|
    ensures ValidFull(r) && |r.samplers| == |f.samplers|
    decreases n
  {
    if n == 0 then f else Advance(FullStep(f, AHEAD.(actor := a)), a, n - 1)
  }

  lemma {:induction false} AdvanceAdds(f: Full, a: nat, m: nat, n: nat)
    requires ValidFull(f) && a < |f.samplers|
    ensures Advance(f, a, m + n) == Advance(Advance(f, a, m), a, n)
    decreases m
  {
    hide FullStep;
    if m > 0 { AdvanceAdds(FullStep(f, AHEAD.(actor := a)), a, m - 1, n); }
  }

  /** The state in which only actor a and its sampler have moved. */
  function Now(f: Full, a: nat, n: nat, pc: Pc, sampler: Sampler): (r: Full)
    requires ValidFull(f) && a < |f.samplers|
    ensures ValidFull(r) && |r.samplers| == |f.samplers|
  {
    f.(s := Put(f.s, a, pc, n), samplers := f.samplers[a := sampler])
  }

  lemma {:induction false} WaitStep(f: Full, a: nat, n: nat, pc: Pc, sampler: Sampler)
    requires ValidFull(f) && a < |f.samplers| && Waits(sampler) && ReadOnly(pc)
    ensures
      var next := ActorStep(f.s.viewId, f.s.g, At(f.s.devices, Target(pc)), |f.s.devices|, f.s.now + n, pc,
                            Validate(HandleOf(sampler))).pc;
      && ReadOnly(next)
      && FullStep(Now(f, a, n, pc, sampler), AHEAD.(actor := a))
         == Now(f, a, n + 1, next, AfterValidation(sampler, pc, f.s.now + n))
  {
    hide ActorStep, SystemStep, AfterValidation;
    var h := HandleOf(sampler);
    var now := Now(f, a, n, pc, sampler);
    ReaderStays(f.s, f.s.now + n, pc, Validate(h));
    PutStep(f.s, a, pc, n, Validate(h));
    var m := AHEAD.(actor := a);
    assert now.s.actors[a] == pc && now.samplers[a] == sampler && RegistryMove(now, m) == Some(Move(a, Validate(h)));
    var after := AfterValidation(sampler, pc, f.s.now + n);
    assert now.samplers[a := after] == f.samplers[a := after];
    assert f.scribes[a := f.scribes[a]] == f.scribes;
  }

  lemma {:induction false} SameStep(s: System, now: nat, pc: Pc, h: Handle)
    requires !pc.Idle?
    ensures ActorStep(s.viewId, s.g, At(s.devices, Target(pc)), |s.devices|, now, pc, Validate(h)).pc
         == Next(s, now, pc)
  {
  }

  /** The validation runs to its end, and the sampler hears of it. */
  lemma {:induction false} WaitRuns(f: Full, a: nat, n: nat, pc: Pc, sampler: Sampler, m: nat)
    requires ValidFull(f) && a < |f.samplers| && Waits(sampler) && ReadOnly(pc)
    requires Ended(Steps(f.s, f.s.now + n, pc, m))
    ensures
      var end := Steps(f.s, f.s.now + n, pc, m);
      Advance(Now(f, a, n, pc, sampler), a, m + 1)
      == Now(f, a, n + m + 1, Idle, AfterValidation(sampler, end, f.s.now + n + m))
    decreases m
  {
    hide FullStep, ActorStep, Now, ReadOnly;
    var now := Now(f, a, n, pc, sampler);
    WaitStep(f, a, n, pc, sampler);
    if m == 0 {
      EndedIdles(f.s, f.s.now + n, pc, HandleOf(sampler));
      assert Advance(now, a, 1) == Advance(FullStep(now, AHEAD.(actor := a)), a, 0);
    } else {
      EndsOnce(f.s, f.s.now + n, pc, m);
      SameStep(f.s, f.s.now + n, pc, HandleOf(sampler));
      StillWaits(sampler, pc, f.s.now + n);
      WaitRuns(f, a, n + 1, Next(f.s, f.s.now + n, pc), sampler, m - 1);
    }
  }

  lemma {:induction false} EndedIdles(s: System, now: nat, pc: Pc, h: Handle)
    requires Ended(pc)
    ensures ActorStep(s.viewId, s.g, At(s.devices, Target(pc)), |s.devices|, now, pc, Validate(h)).pc == Idle
  {
  }

  lemma {:induction false} StillWaits(sampler: Sampler, pc: Pc, now: nat)
    requires Waits(sampler) && !Ended(pc)
    ensures AfterValidation(sampler, pc, now) == sampler
  {
  }

  /** A waiting sampler whose actor is idle: the validation is begun, run and heard of. */
  lemma {:induction false} WaitEnds(f: Full, a: nat, n: nat, sampler: Sampler) returns (m: nat, end: Pc)
    requires ValidFull(f) && a < |f.samplers| && Waits(sampler)
    requires forall d :: 0 <= d < |f.s.devices| ==> |f.s.devices[d].fence| == FENCE_WORDS
    ensures Advance(Now(f, a, n, Idle, sampler), a, m + 2)
         == Now(f, a, n + m + 2, Idle, AfterValidation(sampler, end, f.s.now + n + m + 1))
    ensures Ended(end) && (end.Validated? <==> Acceptable(f.s, HandleOf(sampler)))
    ensures end.Validated? ==>
      && end.r.handle == HandleOf(sampler) && end.r.d < |f.s.devices|
      && FirstWith(f.s.devices, end.r.handle.identity, end.r.d)
      && Serves(f.s.devices[end.r.d], end.r.handle) && end.r.fence == f.s.devices[end.r.d].fence
  {
    hide FullStep, ActorStep, Now, AfterValidation, Steps, Acceptable, Serves, Put;
    var h := HandleOf(sampler);
    var later := f.s.(now := f.s.now + n);
    m, end := CallEnds(later, h);
    SameMapping(f.s, later, h);
    var first := Begin(f.s.viewId, |f.s.devices|, later.now, Validate(h));
    StepsSame(f.s, later, later.now + 1, first, m);
    WaitStep(f, a, n, Idle, sampler);
    BeginStep(f.s, later.now, h);
    IdleWaits(sampler, later.now);
    WaitRuns(f, a, n + 1, first, sampler, m);
    assert Advance(Now(f, a, n, Idle, sampler), a, m + 2) == Advance(Now(f, a, n + 1, first, sampler), a, m + 1);
  }

  lemma {:induction false} IdleWaits(sampler: Sampler, now: nat)
    requires Waits(sampler)
    ensures AfterValidation(sampler, Idle, now) == sampler
  {
  }

  lemma {:induction false} BeginStep(s: System, now: nat, h: Handle)
    ensures ActorStep(s.viewId, s.g, At(s.devices, 0), |s.devices|, now, Idle, Validate(h)).pc
         == Begin(s.viewId, |s.devices|, now, Validate(h))
    ensures ReadOnly(Begin(s.viewId, |s.devices|, now, Validate(h)))
  {
  }

  lemma {:induction false} SameMapping(s: System, later: System, h: Handle)
    requires later == s.(now := later.now)
    ensures Acceptable(later, h) <==> Acceptable(s, h)
  {
  }

  lemma {:induction false} StepsSame(s: System, later: System, now: nat, pc: Pc, n: nat)
    requires later == s.(now := later.now)
    ensures Steps(later, now, pc, n) == Steps(s, now, pc, n)
    decreases n
  {
    hide ActorStep;
    if n > 0 { StepsSame(s, later, now + 1, Next(s, now, pc), n - 1); }
  }

  // ---- The copy between the two validations ----

  lemma {:induction false} SampleMove(f: Full, a: nat, n: nat, k: Sample, sp: SamplePoint)
    requires ValidFull(f) && a < |f.samplers|
    ensures Advance(Now(f, a, n, Idle, Sampling(k, sp)), a, 1)
         == Now(f, a, n, Idle, SampleStep(Put(f.s, a, Idle, n), f.rows, k, sp))
  {
    hide SampleStep;
    var now := Now(f, a, n, Idle, Sampling(k, sp));
    var next := SampleStep(now.s, f.rows, k, sp);
    assert now.samplers[a := next] == f.samplers[a := next];
    assert FullStep(now, AHEAD.(actor := a)) == Now(f, a, n, Idle, next);
    assert Advance(now, a, 1) == Advance(FullStep(now, AHEAD.(actor := a)), a, 0);
  }

  /** Two stretches of a read, one after the other. */
  lemma {:induction false} SampleOn(f: Full, a: nat, n: nat, x: Sampler, i: nat, y: Sampler, j: nat, z: Sampler)
    requires ValidFull(f) && a < |f.samplers|
    requires Advance(Now(f, a, n, Idle, x), a, i) == Now(f, a, n, Idle, y)
    requires Advance(Now(f, a, n, Idle, y), a, j) == Now(f, a, n, Idle, z)
    ensures Advance(Now(f, a, n, Idle, x), a, i + j) == Now(f, a, n, Idle, z)
  {
    hide Now, Advance;
    AdvanceAdds(Now(f, a, n, Idle, x), a, i, j);
  }

  /** The device is looked up again, and found where it is. */
  lemma {:induction false} FindsDevice(f: Full, a: nat, n: nat, k: Sample, i: nat, d: nat)
    requires ValidFull(f) && a < |f.samplers| && i <= d < |f.s.devices| && FirstWith(f.s.devices, k.handle.identity, d)
    ensures Advance(Now(f, a, n, Idle, Sampling(k, SFind(i))), a, d - i + 1)
         == Now(f, a, n, Idle, Sampling(k.(d := d), SLatch))
    decreases d - i
  {
    SampleMove(f, a, n, k, SFind(i));
    if i < d {
      FindsDevice(f, a, n, k, i + 1, d);
      SampleOn(f, a, n, Sampling(k, SFind(i)), 1, Sampling(k, SFind(i + 1)), d - i, Sampling(k.(d := d), SLatch));
    }
  }

  /** An odd telemetry latch is tried four times. */
  lemma {:induction false} TelemetryGivenUp(f: Full, a: nat, n: nat, k: Sample)
    requires ValidFull(f) && a < |f.samplers| && Odd(f.s.g.telemetryLatch) && k.attempt < SNAPSHOT_ATTEMPTS
    ensures Advance(Now(f, a, n, Idle, Sampling(k, SLatch)), a, SNAPSHOT_ATTEMPTS - k.attempt)
         == Now(f, a, n, Idle, Failed)
    decreases SNAPSHOT_ATTEMPTS - k.attempt
  {
    SampleMove(f, a, n, k, SLatch);
    if k.attempt + 1 < SNAPSHOT_ATTEMPTS {
      var again := k.(attempt := k.attempt + 1);
      TelemetryGivenUp(f, a, n, again);
      SampleOn(f, a, n, Sampling(k, SLatch), 1, Sampling(again, SLatch), SNAPSHOT_ATTEMPTS - k.attempt - 1, Failed);
    }
  }

  function RowIn(rows: Rows, bank: nat, d: nat, n: nat): seq<nat> {
    seq(n, i => if i >= 0 then RowWord(rows, bank, d, i) else 0)
  }

  /** The nine words are copied. */
  lemma {:induction false} RowCopied(f: Full, a: nat, n: nat, k: Sample)
    requires ValidFull(f) && a < |f.samplers| && |k.row| < ROW_WORDS && k.row == RowIn(f.rows, k.bank, k.d, |k.row|)
    ensures Advance(Now(f, a, n, Idle, Sampling(k, SWord)), a, ROW_WORDS - |k.row|)
         == Now(f, a, n, Idle, Sampling(k.(row := RowIn(f.rows, k.bank, k.d, ROW_WORDS)), SSecond))
    decreases ROW_WORDS - |k.row|
  {
    var more := k.(row := k.row + [RowWord(f.rows, k.bank, k.d, |k.row|)]);
    assert more.row == RowIn(f.rows, k.bank, k.d, |k.row| + 1);
    SampleMove(f, a, n, k, SWord);
    if |k.row| + 1 < ROW_WORDS {
      RowCopied(f, a, n, more);
      SampleOn(f, a, n, Sampling(k, SWord), 1, Sampling(more, SWord), ROW_WORDS - |k.row| - 1,
               Sampling(k.(row := RowIn(f.rows, k.bank, k.d, ROW_WORDS)), SSecond));
    }
  }

  /** The row passes the checks that follow its copy. */
  predicate RowServes(rows: Rows, d: nat, identity: nat, sequence: nat) {
    && rows.ready && rows.bank <= 1 && d < rows.count
    && RowWord(rows, rows.bank, d, ROW_IDENTITY) == identity && RowWord(rows, rows.bank, d, ROW_SEQUENCE) >= sequence
  }

  /** What was copied under an even latch. */
  function Copy(f: Full, n: nat, k: Sample): Sample {
    k.(latch := f.s.g.telemetryLatch, at := f.rows, atTime := f.s.now + n, snapshot := f.rows.snapshot,
       ready := f.rows.ready, bank := f.rows.bank, row := RowIn(f.rows, f.rows.bank, k.d, ROW_WORDS))
  }

  lemma {:induction false} CopyBegins(f: Full, a: nat, n: nat, k: Sample)
    requires ValidFull(f) && a < |f.samplers| && !Odd(f.s.g.telemetryLatch)
    ensures Advance(Now(f, a, n, Idle, Sampling(k, SLatch)), a, 4)
         == Now(f, a, n, Idle,
                if f.rows.ready && f.rows.bank <= 1 && k.d < f.rows.count then
                  Sampling(Copy(f, n, k).(row := []), SWord)
                else Failed)
  {
    var k1 := k.(latch := f.s.g.telemetryLatch, row := [], at := f.rows, atTime := f.s.now + n);
    var k2 := k1.(snapshot := f.rows.snapshot);
    var k3 := k2.(ready := f.rows.ready, bank := f.rows.bank);
    SampleMove(f, a, n, k, SLatch);
    SampleMove(f, a, n, k1, SSnapshot);
    SampleMove(f, a, n, k2, SState);
    SampleMove(f, a, n, k3, SCount);
    var end := SampleStep(Put(f.s, a, Idle, n), f.rows, k3, SCount);
    assert k3 == Copy(f, n, k).(row := []);
    hide SampleStep, Now, Advance;
    SampleOn(f, a, n, Sampling(k, SLatch), 1, Sampling(k1, SSnapshot), 1, Sampling(k2, SState));
    SampleOn(f, a, n, Sampling(k, SLatch), 2, Sampling(k2, SState), 1, Sampling(k3, SCount));
    SampleOn(f, a, n, Sampling(k, SLatch), 3, Sampling(k3, SCount), 1, end);
  }

  lemma {:induction false} UnservedRow(rows: Rows, d: nat, identity: nat, sequence: nat)
    requires !rows.ready || rows.bank > 1 || d >= rows.count
    ensures !RowServes(rows, d, identity, sequence)
  {
  }

  /** The row is copied and checked. */
  lemma {:induction false} RowChecked(f: Full, a: nat, n: nat, k: Sample)
    requires ValidFull(f) && a < |f.samplers| && |k.before.fence| == FENCE_WORDS
    requires !Odd(f.s.g.telemetryLatch) && f.rows.ready && f.rows.bank <= 1 && k.d < f.rows.count
    ensures
      var good := RowServes(f.rows, k.d, k.handle.identity, k.before.fence[SEQUENCE]);
      Advance(Now(f, a, n, Idle, Sampling(Copy(f, n, k).(row := []), SWord)), a, ROW_WORDS + 1)
      == Now(f, a, n, Idle, if good then Confirming(Copy(f, n, k)) else Failed)
  {
    hide Now, Advance;
    var k1, k2 := Copy(f, n, k).(row := []), Copy(f, n, k);
    assert k1.row == RowIn(f.rows, k1.bank, k1.d, 0);
    RowCopied(f, a, n, k1);
    SampleMove(f, a, n, k2, SSecond);
    SampleOn(f, a, n, Sampling(k1, SWord), ROW_WORDS, Sampling(k2, SSecond), 1,
             SampleStep(Put(f.s, a, Idle, n), f.rows, k2, SSecond));
  }

  lemma {:induction false} CopyEnds(f: Full, a: nat, n: nat, k: Sample) returns (m: nat)
    requires ValidFull(f) && a < |f.samplers| && k.attempt < SNAPSHOT_ATTEMPTS && |k.before.fence| == FENCE_WORDS
    ensures
      var good := !Odd(f.s.g.telemetryLatch) && RowServes(f.rows, k.d, k.handle.identity, k.before.fence[SEQUENCE]);
      Advance(Now(f, a, n, Idle, Sampling(k, SLatch)), a, m)
      == Now(f, a, n, Idle, if good then Confirming(Copy(f, n, k)) else Failed)
  {
    hide Now, Advance, Copy, RowServes;
    if !f.rows.ready || f.rows.bank > 1 || k.d >= f.rows.count {
      UnservedRow(f.rows, k.d, k.handle.identity, k.before.fence[SEQUENCE]);
    }
    if Odd(f.s.g.telemetryLatch) {
      TelemetryGivenUp(f, a, n, k);
      m := SNAPSHOT_ATTEMPTS - k.attempt;
    } else {
      CopyBegins(f, a, n, k);
      m := 4;
      if f.rows.ready && f.rows.bank <= 1 && k.d < f.rows.count {
        var good := RowServes(f.rows, k.d, k.handle.identity, k.before.fence[SEQUENCE]);
        RowChecked(f, a, n, k);
        SampleOn(f, a, n, Sampling(k, SLatch), 4, Sampling(Copy(f, n, k).(row := []), SWord), ROW_WORDS + 1,
                 if good then Confirming(Copy(f, n, k)) else Failed);
        m := 5 + ROW_WORDS;
      }
    }
  }

  // ---- The whole read ----

  /** Whether a read of h succeeds when nothing else happens. */
  ghost predicate Readable(f: Full, h: Handle) {
    && Acceptable(f.s, h) && f.s.g.telemetryLatch % 2 == 0
    && exists d: nat ::
         && FirstWith(f.s.devices, h.identity, d) && d < |f.s.devices| && |f.s.devices[d].fence| == FENCE_WORDS
         && RowServes(f.rows, d, h.identity, f.s.devices[d].fence[SEQUENCE])
  }

  /** The read has returned the active bank's row of the device, as it stands. */
  ghost predicate ReadRow(f: Full, h: Handle, k: Sample) {
    && k.handle == h && FirstWith(f.s.devices, h.identity, k.d) && k.d < |f.s.devices|
    && k.row == RowIn(f.rows, f.rows.bank, k.d, ROW_WORDS) && k.snapshot == f.rows.snapshot
  }

  lemma {:induction false} ReadStarts(f: Full, a: nat, h: Handle)
    requires ValidFull(f) && a < |f.samplers| && f.s.actors[a] == Idle
    requires !f.samplers[a].Sampling? && !Waits(f.samplers[a])
    ensures FullStep(f, FullMove(a, Stay, Some(h), None)) == Now(f, a, 0, Idle, Opening(h, f.s.now))
  {
    assert f.s.actors[a := Idle] == f.s.actors;
  }

  /** A call of read_telemetry by actor a, which then runs alone for n moves. */
  function ReadAlone(f: Full, a: nat, h: Handle, n: nat): Full
    requires ValidFull(f) && a < |f.samplers|
  {
    Advance(FullStep(f, FullMove(a, Stay, Some(h), None)), a, n)
  }

  /** After the first validation. */
  lemma {:induction false} FirstHalf(f: Full, a: nat, h: Handle)
    returns (m: nat, n: nat, k: Sample, ok: bool)
    requires ValidFull(f) && a < |f.samplers|
    requires forall d :: 0 <= d < |f.s.devices| ==> |f.s.devices[d].fence| == FENCE_WORDS
    ensures Advance(Now(f, a, 0, Idle, Opening(h, f.s.now)), a, m)
         == Now(f, a, n, Idle, if ok then Sampling(k, SFind(0)) else Failed)
    ensures ok <==> Acceptable(f.s, h)
    ensures ok ==>
      && k.handle == h && k.attempt == 0 && k.before.d < |f.s.devices|
      && k.before.fence == f.s.devices[k.before.d].fence && FirstWith(f.s.devices, h.identity, k.before.d)
      && Serves(f.s.devices[k.before.d], h)
  {
    hide Now, Advance, Acceptable, Serves;
    var steps, end := WaitEnds(f, a, 0, Opening(h, f.s.now));
    m, n, ok := steps + 2, steps + 2, end.Validated?;
    k := if ok then NewSample(h, f.s.now, end.r, f.s.now + steps + 1)
         else Sample(h, 0, NO_READER, 0, 0, 0, 0, 0, false, 0, [], f.rows, 0, NO_READER, 0);
  }

  const NO_READER := Reader(Handle(0, 0, 0), 0, 0, 0, NO_VIEW, 0, 0, 0, NO_WORD, 0, [], NO_INSTANT)

  /** The second validation finds the same fence. */
  lemma {:induction false} SecondHalf(f: Full, a: nat, n: nat, k: Sample) returns (m: nat, later: nat, last: Sample)
    requires ValidFull(f) && a < |f.samplers| && Acceptable(f.s, k.handle) && k.before.d < |f.s.devices|
    requires forall d :: 0 <= d < |f.s.devices| ==> |f.s.devices[d].fence| == FENCE_WORDS
    requires k.before.fence == f.s.devices[k.before.d].fence && FirstWith(f.s.devices, k.handle.identity, k.before.d)
    ensures Advance(Now(f, a, n, Idle, Confirming(k)), a, m) == Now(f, a, later, Idle, Sampled(last))
    ensures last == k.(after := last.after, done := last.done)
  {
    hide Now, Advance;
    var steps, end := WaitEnds(f, a, n, Confirming(k));
    FirstIsOne(f.s.devices, k.handle.identity, end.r.d, k.before.d);
    m, later, last := steps + 2, n + steps + 2, k.(after := end.r, done := f.s.now + n + steps + 1);
  }

  /**
   * From every reachable state, a telemetry read run alone succeeds if and only if a validation of its handle does,
   * the telemetry latch is even, a bank is ready, and the device's row in it is for the handle's identity and no
   * older than the fence; and then it returns that row word for word.
   */
  lemma {:induction false} ReadsIff(f: Full, a: nat, h: Handle) returns (n: nat, end: Sampler)
    requires ValidFull(f) && SystemInv(f.s) && a < |f.samplers| && f.s.actors[a] == Idle
    requires !f.samplers[a].Sampling? && !Waits(f.samplers[a])
    ensures ReadAlone(f, a, h, n).samplers[a] == end && ReadAlone(f, a, h, n).rows == f.rows
    ensures end.Sampled? || end.Failed?
    ensures end.Sampled? <==> Readable(f, h)
    ensures end.Sampled? ==> ReadRow(f, h, end.k)
  {
    hide Advance, Now, Acceptable, Serves, RowServes, Copy, ActorInv, PairInv;
    forall d | 0 <= d < |f.s.devices| ensures |f.s.devices[d].fence| == FENCE_WORDS {
      assert DeviceInv(f.s.devices[d]);
    }
    ReadStarts(f, a, h);
    var start := Now(f, a, 0, Idle, Opening(h, f.s.now));
    var m, now, k, ok := FirstHalf(f, a, h);
    n, end := m, Failed;
    NowShows(f, a, now, end);
    if ok {
      var d := k.before.d;
      FindsDevice(f, a, now, k, 0, d);
      AdvanceAdds(start, a, m, d + 1);
      var k1 := k.(d := d);
      var m2 := CopyEnds(f, a, now, k1);
      AdvanceAdds(start, a, m + (d + 1), m2);
      n := m + (d + 1) + m2;
      forall e: nat | FirstWith(f.s.devices, h.identity, e) ensures e == d {
        FirstIsOne(f.s.devices, h.identity, d, e);
      }
      if !Odd(f.s.g.telemetryLatch) && RowServes(f.rows, d, h.identity, k.before.fence[SEQUENCE]) {
        CopyKeeps(f, now, k1);
        var m3, later, last := SecondHalf(f, a, now, Copy(f, now, k1));
        AdvanceAdds(start, a, n, m3);
        n, end := n + m3, Sampled(last);
        NowShows(f, a, later, end);
      }
    }
  }

  lemma {:induction false} NowShows(f: Full, a: nat, n: nat, sampler: Sampler)
    requires ValidFull(f) && a < |f.samplers|
    ensures Now(f, a, n, Idle, sampler).samplers[a] == sampler && Now(f, a, n, Idle, sampler).rows == f.rows
  {
  }

  lemma {:induction false} CopyKeeps(f: Full, n: nat, k: Sample)
    ensures
      var c := Copy(f, n, k);
      && c.handle == k.handle && c.d == k.d && c.before == k.before
      && c.row == RowIn(f.rows, f.rows.bank, k.d, ROW_WORDS) && c.snapshot == f.rows.snapshot
  {
  }

  // ---- The stores of a publication ----

  /** The rows once a payload has been published: in the bank that was not active, which now is. */
  function PublishedRows(rows: Rows, payload: seq<seq<nat>>): Rows
    requires Shaped(rows)
  {
    var bank := 1 - rows.bank;
    Rows(rows.snapshot + 1, true, bank, rows.count, rows.banks[bank := payload])
  }

  /** The stores of publish_telemetry, n of them. */
  function StoreAlone(rows: Rows, scribe: Scribe, payload: seq<seq<nat>>, n: nat): (Rows, Scribe)
    decreases n
  {
    if n == 0 then (rows, scribe)
    else
      var (rows2, scribe2) := PublishStore(rows, scribe, payload);
      StoreAlone(rows2, scribe2, payload, n - 1)
  }

  /** The payload is stored from word n of row d on. */
  lemma {:induction false} FillEnds(rows: Rows, p: seq<seq<nat>>, bank: nat, d: nat, n: nat) returns (m: nat)
    requires Shaped(rows) && PayloadOk(p, rows.count) && bank < 2 && d < rows.count && n < ROW_WORDS
    requires FilledTo(rows.banks[bank], p, d, n)
    ensures StoreAlone(rows, Filling(p, bank, d, n), p, m) == (rows.(banks := rows.banks[bank := p]), Filled(p, bank))
    decreases rows.count - d, ROW_WORDS - n
  {
    var (rows2, next) := PublishStore(rows, Filling(p, bank, d, n), p);
    var before, row := rows.banks[bank], rows.banks[bank][d];
    var after := rows2.banks[bank];
    assert after == before[d := row[n := p[d][n]]];
    assert after[..d] == p[..d];
    assert after[d][..n + 1] == p[d][..n] + [p[d][n]];
    assert p[d][..n + 1] == p[d][..n] + [p[d][n]];
    assert rows2.banks[bank := p] == rows.banks[bank := p];
    assert Shaped(rows2);
    if n + 1 < ROW_WORDS {
      m := FillEnds(rows2, p, bank, d, n + 1);
      m := m + 1;
    } else {
      assert after[d] == p[d] by { assert after[d] == after[d][..n + 1] && p[d] == p[d][..n + 1]; }
      assert after[..d + 1] == p[..d + 1];
      if d + 1 < rows.count {
        assert after[d + 1][..0] == p[d + 1][..0];
        m := FillEnds(rows2, p, bank, d + 1, 0);
        m := m + 1;
      } else {
        assert after == p;
        assert rows2.banks == rows.banks[bank := p];
        m := 1;
        assert StoreAlone(rows2, next, p, 0) == (rows2, next);
      }
    }
  }

  lemma {:induction false} StoreAdds(rows: Rows, scribe: Scribe, payload: seq<seq<nat>>, m: nat, n: nat)
    ensures
      var (rows2, scribe2) := StoreAlone(rows, scribe, payload, m);
      StoreAlone(rows, scribe, payload, m + n) == StoreAlone(rows2, scribe2, payload, n)
    decreases m
  {
    hide PublishStore;
    if m > 0 {
      var (rows2, scribe2) := PublishStore(rows, scribe, payload);
      StoreAdds(rows2, scribe2, payload, m - 1, n);
    }
  }

  /** A publisher that holds the latch and stores to the end leaves exactly its payload in the active bank. */
  lemma {:induction false} PublicationStores(rows: Rows, p: seq<seq<nat>>) returns (n: nat)
    requires Shaped(rows)
    ensures StoreAlone(rows, Resting, p, n)
         == (if PayloadOk(p, rows.count) then PublishedRows(rows, p) else rows, Finished)
  {
    if !PayloadOk(p, rows.count) {
      n := 1;
      assert StoreAlone(rows, Finished, p, 0) == (rows, Finished);
    } else {
      var bank := 1 - rows.bank;
      var filled := rows.(banks := rows.banks[bank := p]);
      var m := 0;
      if p != [] {
        assert rows.banks[bank][..0] == p[..0] && rows.banks[bank][0][..0] == p[0][..0];
        m := FillEnds(rows, p, bank, 0, 0);
      } else {
        assert rows.banks[bank] == p;
        assert rows.banks[bank := p] == rows.banks;
      }
      LastStores(filled, p, bank);
      var start := if p == [] then Filled(p, bank) else Filling(p, bank, 0, 0);
      assert PublishStore(rows, Resting, p) == (rows, start);
      hide PublishStore;
      StoreAdds(rows, start, p, m, 2);
      n := m + 3;
      assert StoreAlone(rows, Resting, p, n) == StoreAlone(rows, start, p, m + 2);
    }
  }

  lemma {:induction false} LastStores(rows: Rows, p: seq<seq<nat>>, bank: nat)
    ensures StoreAlone(rows, Filled(p, bank), p, 2)
         == (rows.(snapshot := rows.snapshot + 1, bank := bank, ready := true), Finished)
  {
    var counted := rows.(snapshot := rows.snapshot + 1);
    var ready := counted.(bank := bank, ready := true);
    assert StoreAlone(counted, Counted(p, bank), p, 1) == StoreAlone(ready, Finished, p, 0);
  }

  /** These stores are the moves of the actor. */
  lemma {:induction false} StoresAreMoves(f: Full, a: nat, p: seq<seq<nat>>)
    requires ValidFull(f) && a < |f.samplers| && Publishes(f.s.actors[a])
    ensures
      var r := FullStep(f, FullMove(a, Stay, None, Some(p)));
      && (r.rows, r.scribes[a]) == PublishStore(f.rows, f.scribes[a], p) && r.s == f.s
  {
    hide PublishStore;
  }

  /** What was published is what a read finds: the row of the payload, word for word. */
  lemma {:induction false} PublishedIsRead(rows: Rows, p: seq<seq<nat>>, d: nat)
    requires Shaped(rows) && PayloadOk(p, rows.count) && d < rows.count
    ensures
      var r := PublishedRows(rows, p);
      && Shaped(r) && RowIn(r, r.bank, d, ROW_WORDS) == p[d] && r.snapshot == rows.snapshot + 1
      && forall identity: nat, sequence: nat ::
           RowServes(r, d, identity, sequence) <==> p[d][ROW_IDENTITY] == identity && p[d][ROW_SEQUENCE] >= sequence
  {
  }

  // ---- The stores of an identity publication ----

  function NameAlone(rows: Rows, scribe: Scribe, x: Identity, n: nat): (Rows, Scribe)
    decreases n
  {
    if n == 0 then (rows, scribe)
    else
      var (rows2, scribe2) := NameStore(rows, scribe, x);
      NameAlone(rows2, scribe2, x, n - 1)
  }

  /** The row of device d under another identity and sequence, in one bank. */
  function Renamed(bank: seq<seq<nat>>, d: nat, identity: nat, sequence: nat): seq<seq<nat>>
    requires d < |bank| && |bank[d]| == ROW_WORDS
  {
    var row: seq<nat> := bank[d][ROW_IDENTITY := identity];
    bank[d := row[ROW_SEQUENCE := sequence]]
  }

  /** Two stores rename the row in one bank and touch nothing else. */
  lemma {:induction false} BankRenamed(rows: Rows, x: Identity, scribe: Scribe, bank: nat)
    requires Shaped(rows) && x.d < rows.count && |x.intended| == FENCE_WORDS && bank < 2
    requires if bank == 0 then scribe == Resting else scribe == Naming(2)
    ensures NameAlone(rows, scribe, x, 2)
         == (rows.(banks := rows.banks[bank := Renamed(rows.banks[bank], x.d, x.nextId, x.intended[SEQUENCE])]),
             if bank == 0 then Naming(2) else Finished)
  {
    var (rows1, scribe1) := NameStore(rows, scribe, x);
    var (rows2, scribe2) := NameStore(rows1, scribe1, x);
    assert NameAlone(rows1, scribe1, x, 1) == NameAlone(rows2, scribe2, x, 0);
    var row := rows.banks[bank][x.d];
    assert rows1.banks[bank] == rows.banks[bank][x.d := row[ROW_IDENTITY := x.nextId]];
    assert rows2.banks[bank] == Renamed(rows.banks[bank], x.d, x.nextId, x.intended[SEQUENCE]);
    assert rows2.banks == rows.banks[bank := rows2.banks[bank]];
  }

  /** An identity publisher's four stores rename its device's row in both banks, and touch nothing else. */
  lemma {:induction false} IdentityRenames(rows: Rows, x: Identity)
    requires Shaped(rows) && x.d < rows.count && |x.intended| == FENCE_WORDS
    ensures
      var q := x.intended[SEQUENCE];
      NameAlone(rows, Resting, x, 4)
      == (rows.(banks := [Renamed(rows.banks[0], x.d, x.nextId, q), Renamed(rows.banks[1], x.d, x.nextId, q)]),
          Finished)
  {
    hide NameStore;
    BankRenamed(rows, x, Resting, 0);
    var first := NameAlone(rows, Resting, x, 2).0;
    NameAdds(rows, Resting, x, 2, 2);
    assert Shaped(first);
    BankRenamed(first, x, Naming(2), 1);
    var q := x.intended[SEQUENCE];
    var one, two := Renamed(rows.banks[0], x.d, x.nextId, q), Renamed(rows.banks[1], x.d, x.nextId, q);
    assert first.banks[1] == rows.banks[1];
    assert first.banks[1 := two] == [one, two];
  }

  lemma {:induction false} NameAdds(rows: Rows, scribe: Scribe, x: Identity, m: nat, n: nat)
    ensures
      var (rows2, scribe2) := NameAlone(rows, scribe, x, m);
      NameAlone(rows, scribe, x, m + n) == NameAlone(rows2, scribe2, x, n)
    decreases m
  {
    hide NameStore;
    if m > 0 {
      var (rows2, scribe2) := NameStore(rows, scribe, x);
      NameAdds(rows2, scribe2, x, m - 1, n);
    }
  }

  lemma {:induction false} NamesAreMoves(f: Full, a: nat)
    requires ValidFull(f) && a < |f.samplers| && Names(f.s.actors[a]) && !f.scribes[a].Finished?
    ensures
      var r := FullStep(f, AHEAD.(actor := a));
      (r.rows, r.scribes[a]) == NameStore(f.rows, f.scribes[a], f.s.actors[a].x) && r.s == f.s
  {
    hide NameStore;
  }
}
