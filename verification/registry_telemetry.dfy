// read_telemetry on top of the registry step machine (runtime/core/src/runtime.cpp).
//
// A sampler is the thread of one registry actor: it has that actor validate the device, copies the row of
// the active bank under the telemetry latch, and has the actor validate once more.  A scribe is what an
// actor that holds the telemetry latch still has to store: publish_telemetry fills the inactive bank and
// makes it the active one, publish_device_identity renames the device's row in both banks.
module RegistryTelemetry {
  import opened RegistryProtocol
  import opened RegistryInvariants
  import opened RegistrySafety
  import opened RegistryTheorems
  import opened RegistryLatches

  const ROW_WORDS := 9
  const ROW_IDENTITY := 0
  const ROW_SEQUENCE := 1

  /** Snapshot sequence, active bank with its state, row count, and the words of both banks. */
  datatype Rows = Rows(snapshot: nat, ready: bool, bank: nat, count: nat, banks: seq<seq<seq<nat>>>)

  function RowWord(rows: Rows, bank: nat, d: nat, n: nat): nat {
    if bank < |rows.banks| && d < |rows.banks[bank]| && n < |rows.banks[bank][d]| then rows.banks[bank][d][n] else 0
  }

  /** One telemetry read; `seen`, `at` and `done` record when and what, and no step reads them. */
  datatype Sample = Sample(handle: Handle, start: nat, before: Reader, seen: nat, d: nat, attempt: nat, latch: nat,
                           snapshot: nat,
                           ready: bool, bank: nat, row: seq<nat>, at: Rows, atTime: nat, after: Reader, done: nat)

  datatype SamplePoint = SFind(i: nat) | SLatch | SSnapshot | SState | SCount | SWord | SSecond

  datatype Sampler =
    | NotSampling
    | Opening(handle: Handle, start: nat)
    | Sampling(k: Sample, sp: SamplePoint)
    | Confirming(k: Sample)
    | Sampled(k: Sample)
    | Failed

  /** The next telemetry store of an actor. */
  datatype Scribe =
    | Resting
    | Filling(payload: seq<seq<nat>>, bank: nat, d: nat, n: nat)
    | Filled(payload: seq<seq<nat>>, bank: nat)
    | Counted(payload: seq<seq<nat>>, bank: nat)
    | Naming(k: nat)
    | Finished

  /** The identity and lifecycle sequence an identity publication puts into the rows of its device. */
  datatype Name = Name(d: nat, identity: nat, sequence: nat)

  /** `payloads` and `names` record what was published so far; no step reads them. */
  datatype Full = Full(s: System, rows: Rows, samplers: seq<Sampler>, scribes: seq<Scribe>,
                       payloads: seq<seq<seq<nat>>>,
                       names: seq<Name>)

  datatype Option<T> = None | Some(value: T)

  /**
   * Who moves, what it calls if idle, what telemetry read it starts, or that it makes its next telemetry
   * store; a publication that has not stored anything yet starts with the rows given here.
   */
  datatype FullMove = FullMove(actor: nat, call: Call, sample: Option<Handle>, store: Option<seq<seq<nat>>>)

  function StoreWord(rows: Rows, bank: nat, d: nat, n: nat, value: nat): Rows {
    if bank < |rows.banks| && d < |rows.banks[bank]| && n < |rows.banks[bank][d]|
    then rows.(banks := rows.banks[bank := rows.banks[bank][d := rows.banks[bank][d][n := value]]])
    else rows
  }

  predicate PayloadOk(payload: seq<seq<nat>>, count: nat) {
    |payload| == count && forall d :: 0 <= d < count ==> |payload[d]| == ROW_WORDS
  }

  function NextFill(payload: seq<seq<nat>>, bank: nat, d: nat, n: nat): Scribe {
    if n + 1 < ROW_WORDS then Filling(payload, bank, d, n + 1)
    else if d + 1 < |payload| then Filling(payload, bank, d + 1, 0)
    else Filled(payload, bank)
  }

  /** One store of publish_telemetry. */
  function PublishStore(rows: Rows, scribe: Scribe, payload: seq<seq<nat>>): (Rows, Scribe) {
    match scribe
    case Resting =>
      if !PayloadOk(payload, rows.count) then (rows, Finished)
      else
        var bank := if rows.bank == 0 then 1 else 0;
        (rows, if payload == [] then Filled(payload, bank) else Filling(payload, bank, 0, 0))
    case Filling(p, bank, d, n) =>
      (if d < |p| && n < |p[d]| then StoreWord(rows, bank, d, n, p[d][n]) else rows, NextFill(p, bank, d, n))
    case Filled(p, bank) => (rows.(snapshot := rows.snapshot + 1), Counted(p, bank))
    case Counted(p, bank) => (rows.(bank := bank, ready := true), Finished)
    case _ => (rows, Finished)
  }

  function NameOf(x: Identity): Name {
    Name(x.d, x.nextId, if |x.intended| > SEQUENCE then x.intended[SEQUENCE] else 0)
  }

  /** One of the four stores of publish_device_identity. */
  function NameStore(rows: Rows, scribe: Scribe, x: Identity): (Rows, Scribe) {
    var k := if scribe.Naming? then scribe.k else 0;
    var value := if k % 2 == 0 then NameOf(x).identity else NameOf(x).sequence;
    (StoreWord(rows, k / 2, x.d, k % 2, value), if k < 3 then Naming(k + 1) else Finished)
  }

  predicate Publishes(pc: Pc) { pc.Closing? && pc.cp.TRelease? }

  predicate Names(pc: Pc) { pc.Replacing? && pc.ip.ITelemetryRelease? }

  /** The move makes a telemetry store; an identity publisher must make its stores before it goes on. */
  predicate Stores(f: Full, m: FullMove)
    requires ValidFull(f) && m.actor < |f.samplers|
  {
    var pc := f.s.actors[m.actor];
    (Publishes(pc) && m.store.Some?) || (Names(pc) && !f.scribes[m.actor].Finished?)
  }

  function AfterStore(f: Full, m: FullMove): Full
    requires ValidFull(f) && m.actor < |f.samplers| && Stores(f, m)
  {
    var a, pc, scribe := m.actor, f.s.actors[m.actor], f.scribes[m.actor];
    if Publishes(pc) then
      var (rows, next) := PublishStore(f.rows, scribe, m.store.value);
      f.(rows := rows, scribes := f.scribes[a := next],
         payloads := if scribe.Resting? && !next.Finished? then f.payloads + [m.store.value] else f.payloads)
    else
      var (rows, next) := NameStore(f.rows, scribe, pc.x);
      f.(rows := rows, scribes := f.scribes[a := next], names := f.names + [NameOf(pc.x)])
  }

  function NextSample(k: Sample): Sampler {
    if k.attempt + 1 < SNAPSHOT_ATTEMPTS then Sampling(k.(attempt := k.attempt + 1), SLatch) else Failed
  }

  /** One load of a telemetry read between its two validations. */
  function SampleStep(s: System, rows: Rows, k: Sample, sp: SamplePoint): Sampler {
    match sp
    case SFind(i) =>
      if i >= |s.devices| then Sampling(k.(d := |s.devices|), SLatch)
      else if s.devices[i].identity == k.handle.identity then Sampling(k.(d := i), SLatch)
      else Sampling(k, SFind(i + 1))
    case SLatch =>
      if Odd(s.g.telemetryLatch) then NextSample(k)
      else Sampling(k.(latch := s.g.telemetryLatch, row := [], at := rows, atTime := s.now), SSnapshot)
    case SSnapshot => Sampling(k.(snapshot := rows.snapshot), SState)
    case SState => Sampling(k.(ready := rows.ready, bank := rows.bank), SCount)
    case SCount => if !k.ready || k.bank > 1 || k.d >= rows.count then Failed else Sampling(k, SWord)
    case SWord =>
      var more := k.(row := k.row + [RowWord(rows, k.bank, k.d, |k.row|)]);
      Sampling(more, if |more.row| < ROW_WORDS then SWord else SSecond)
    case SSecond =>
      if s.g.telemetryLatch != k.latch then NextSample(k)
      else if |k.row| != ROW_WORDS || k.row[ROW_IDENTITY] != k.handle.identity
              || |k.before.fence| <= SEQUENCE || k.row[ROW_SEQUENCE] < k.before.fence[SEQUENCE]
      then Failed
      else Confirming(k)
  }

  function NewSample(h: Handle, start: nat, r: Reader, seen: nat): Sample {
    Sample(h, start, r, seen, 0, 0, 0, 0, false, 0, [], Rows(0, false, 0, 0, []), 0, r, 0)
  }

  /** What a sampler does when its actor's validation has returned. */
  function AfterValidation(sampler: Sampler, pc: Pc, now: nat): Sampler {
    match sampler
    case Opening(h, start) =>
      if pc.Validated? then Sampling(NewSample(h, start, pc.r, now), SFind(0)) else if pc.Returned? then Failed
          else sampler
    case Confirming(k) =>
      if pc.Validated? then
        if |pc.r.fence| > SEQUENCE && |k.before.fence| > SEQUENCE && pc.r.fence[SEQUENCE] == k.before.fence[SEQUENCE]
        then Sampled(k.(after := pc.r, done := now)) else NextSample(k)
      else if pc.Returned? then Failed else sampler
    case _ => sampler
  }

  predicate Waits(sampler: Sampler) { sampler.Opening? || sampler.Confirming? }

  function HandleOf(sampler: Sampler): Handle
    requires Waits(sampler)
  {
    if sampler.Opening? then sampler.handle else sampler.k.handle
  }

  /** Since when the sampler waits. */
  function WaitStart(sampler: Sampler): nat
    requires Waits(sampler)
  {
    if sampler.Opening? then sampler.start else sampler.k.atTime
  }

  predicate ValidFull(f: Full) { |f.samplers| == |f.scribes| == |f.s.actors| }

  /** The registry step a move makes, if it makes one. */
  function RegistryMove(f: Full, m: FullMove): Option<Move>
    requires ValidFull(f) && m.actor < |f.samplers|
  {
    var sampler := f.samplers[m.actor];
    if m.store.Some? || Stores(f, m) || sampler.Sampling? then None
    else if Waits(sampler) then Some(Move(m.actor, Validate(HandleOf(sampler))))
    else if m.sample.Some? && f.s.actors[m.actor].Idle? then None
    else Some(Move(m.actor, m.call))
  }

  function FullStep(f: Full, m: FullMove): (f2: Full)
    requires ValidFull(f) && m.actor < |f.samplers|
    ensures ValidFull(f2) && |f2.samplers| == |f.samplers|
  {
    var a, sampler, pc := m.actor, f.samplers[m.actor], f.s.actors[m.actor];
    var move := RegistryMove(f, m);
    if move.Some? then
      f.(s := SystemStep(f.s, a, move.value.call), samplers := f.samplers[a := AfterValidation(sampler, pc, f.s.now)],
         scribes := f.scribes[a := if Publishes(pc) || Names(pc) then Resting else f.scribes[a]])
    else if Stores(f, m) then AfterStore(f, m)
    else if m.store.Some? then f
    else if sampler.Sampling? then f.(samplers := f.samplers[a := SampleStep(f.s, f.rows, sampler.k, sampler.sp)])
    else f.(samplers := f.samplers[a := Opening(if m.sample.Some? then m.sample.value else Handle(0, 0, 0), f.s.now)])
  }

  // ---- What a sampler knows ----

  /** The actor is idle, or runs or has finished the validation its sampler waits for. */
  ghost predicate OwnCall(pc: Pc, h: Handle, start: nat) {
    match pc
    case Idle => true
    case Returned(_) => true
    case Finding(handle, began, _) => handle == h && start <= began
    case Matching(handle, began, _) => handle == h && start <= began
    case Reading(r, _) => r.handle == h && start <= r.start
    case Validated(r) => r.handle == h && start <= r.start
    case _ => false
  }

  /** The first validation succeeded, for this handle, within this read. */
  ghost predicate Opened(k: Sample, now: nat) {
    k.start <= k.before.start <= k.before.at.time < k.seen <= now && k.before.handle == k.handle
  }

  predicate RowOf(rows: Rows, bank: nat, d: nat, row: seq<nat>) {
    forall n :: 0 <= n < |row| ==> row[n] == RowWord(rows, bank, d, n)
  }

  predicate AfterLatch(sp: SamplePoint) { !sp.SFind? && !sp.SLatch? }

  /** While the latch has not moved, what was copied is what the words were at one instant. */
  ghost predicate Copying(k: Sample, sp: SamplePoint, latch: nat, rows: Rows, now: nat) {
    AfterLatch(sp) ==>
      && !Odd(k.latch) && k.latch <= latch && k.seen <= k.atTime <= now
      && (sp.SWord? ==> |k.row| < ROW_WORDS) && (sp.SSecond? ==> |k.row| == ROW_WORDS)
      && (if sp.SWord? || sp.SSecond? then k.ready else k.row == [])
      && (latch == k.latch ==>
            && rows == k.at && RowOf(k.at, k.bank, k.d, k.row)
            && (!sp.SSnapshot? ==> k.snapshot == k.at.snapshot)
            && (!sp.SSnapshot? && !sp.SState? ==> k.ready == k.at.ready && k.bank == k.at.bank)
            && (sp.SWord? || sp.SSecond? ==> k.d < k.at.count))
  }

  /** The copy is the whole row of the active bank at the recorded instant, for the handle's identity. */
  ghost predicate Copied(k: Sample) {
    && k.seen <= k.atTime
    && |k.row| == ROW_WORDS && RowOf(k.at, k.at.bank, k.d, k.row) && k.at.ready && k.d < k.at.count
        && k.snapshot == k.at.snapshot
    && k.row[ROW_IDENTITY] == k.handle.identity
    && |k.before.fence| > SEQUENCE && k.before.fence[SEQUENCE] <= k.row[ROW_SEQUENCE]
  }

  ghost predicate SamplerInv(sampler: Sampler, pc: Pc, latch: nat, rows: Rows, now: nat) {
    match sampler
    case Opening(h, start) => start <= now && OwnCall(pc, h, start)
    case Sampling(k, sp) => pc.Idle? && Opened(k, now) && Copying(k, sp, latch, rows, now)
    case Confirming(k) => Opened(k, now) && Copied(k) && k.atTime <= now && OwnCall(pc, k.handle, k.atTime)
    case Sampled(k) =>
      && Opened(k, now) && Copied(k) && k.after.handle == k.handle
      && k.atTime <= k.after.start <= k.after.at.time < k.done <= now
      && |k.after.fence| > SEQUENCE && k.after.fence[SEQUENCE] == k.before.fence[SEQUENCE]
    case _ => true
  }

  ghost predicate FullInv(f: Full) {
    && ValidFull(f) && LatchInv(f.s)
    && forall a :: 0 <= a < |f.samplers| ==>
         SamplerInv(f.samplers[a], f.s.actors[a], f.s.g.telemetryLatch, f.rows, f.s.now)
  }

  /** Loads keep what the sampler knows. */
  lemma {:induction false} SampleStepKeeps(s: System, rows: Rows, k: Sample, sp: SamplePoint)
    requires SamplerInv(Sampling(k, sp), Idle, s.g.telemetryLatch, rows, s.now)
    ensures SamplerInv(SampleStep(s, rows, k, sp), Idle, s.g.telemetryLatch, rows, s.now)
  {
  }

  /** Another actor's step keeps it. */
  lemma {:induction false} SamplerUndisturbed(sampler: Sampler, pc: Pc, latch: nat, latch2: nat, rows: Rows, now: nat)
    requires SamplerInv(sampler, pc, latch, rows, now) && latch <= latch2
    ensures SamplerInv(sampler, pc, latch2, rows, now + 1)
  {
  }

  /** Stores under an odd latch keep it. */
  lemma {:induction false} StoreUndisturbed(sampler: Sampler, pc: Pc, latch: nat, rows: Rows, rows2: Rows, now: nat)
    requires SamplerInv(sampler, pc, latch, rows, now) && Odd(latch)
    ensures SamplerInv(sampler, pc, latch, rows2, now)
  {
  }

  /** A validation keeps its handle and its start. */
  lemma {:induction false} OwnCallStep(viewId: nat, g: Globals, dev: Device, count: nat, now: nat, pc: Pc, h: Handle,
                                       start: nat)
    requires OwnCall(pc, h, start) && start <= now
    ensures OwnCall(ActorStep(viewId, g, dev, count, now, pc, Validate(h)).pc, h, start)
  {
  }

  /** The step of the actor a sampler waits for. */
  lemma {:induction false} WaitingStep(sampler: Sampler, s: System, a: nat, rows: Rows, latch2: nat, pc2: Pc)
    requires a < |s.actors| && Waits(sampler) && SamplerInv(sampler, s.actors[a], s.g.telemetryLatch, rows, s.now)
    requires s.actors[a].Validated? ==> s.actors[a].r.at.time < s.now && s.actors[a].r.start <= s.actors[a].r.at.time
    requires s.actors[a].Validated? || s.actors[a].Returned? ==> pc2 == Idle
    requires OwnCall(pc2, HandleOf(sampler), WaitStart(sampler))
    ensures SamplerInv(AfterValidation(sampler, s.actors[a], s.now), pc2, latch2, rows, s.now + 1)
  {
  }

  // ---- Every step of every interleaving ----

  lemma {:induction false} StoreKeeps(f: Full, m: FullMove)
    requires FullInv(f) && m.actor < |f.samplers| && Stores(f, m)
    ensures FullInv(AfterStore(f, m))
  {
    hide SamplerInv, SystemInv, LatchesHeld, PublishStore, NameStore;
    var f2 := AfterStore(f, m);
    assert TelemetryInv(f.s.g.telemetryLatch, f.s.actors[m.actor]);
    forall a | 0 <= a < |f.samplers|
      ensures SamplerInv(f2.samplers[a], f2.s.actors[a], f2.s.g.telemetryLatch, f2.rows, f2.s.now)
    {
      StoreUndisturbed(f.samplers[a], f.s.actors[a], f.s.g.telemetryLatch, f.rows, f2.rows, f.s.now);
    }
  }

  lemma {:induction false} RegistryStepKeeps(f: Full, m: FullMove)
    requires FullInv(f) && m.actor < |f.samplers| && RegistryMove(f, m).Some?
    ensures FullInv(FullStep(f, m))
  {
    hide SamplerInv, LatchInv, ActorStep, Target, AfterValidation;
    var a, call := m.actor, RegistryMove(f, m).value.call;
    var s2 := SystemStep(f.s, a, call);
    StepKeepsLatches(f.s, a, call);
    MoverLatches(f.s, a, call);
    assert f.s.g.telemetryLatch <= s2.g.telemetryLatch;
    MoverSampler(f, m);
    forall b | 0 <= b < |f.samplers| && b != a
      ensures SamplerInv(f.samplers[b], s2.actors[b], s2.g.telemetryLatch, f.rows, s2.now)
    {
      SamplerUndisturbed(f.samplers[b], f.s.actors[b], f.s.g.telemetryLatch, s2.g.telemetryLatch, f.rows, f.s.now);
    }
  }

  lemma {:induction false} MoverSampler(f: Full, m: FullMove)
    requires FullInv(f) && m.actor < |f.samplers| && RegistryMove(f, m).Some?
    ensures
      var f2 := FullStep(f, m);
      SamplerInv(f2.samplers[m.actor], f2.s.actors[m.actor], f2.s.g.telemetryLatch, f.rows, f.s.now + 1)
  {
    hide LatchInv, ActorStep, LatchMoves, Copying, Copied, Opened;
    var a, sampler, pc := m.actor, f.samplers[m.actor], f.s.actors[m.actor];
    var s2 := SystemStep(f.s, a, RegistryMove(f, m).value.call);
    assert SamplerInv(sampler, pc, f.s.g.telemetryLatch, f.rows, f.s.now);
    if Waits(sampler) {
      var h := HandleOf(sampler);
      OwnCallStep(f.s.viewId, f.s.g, At(f.s.devices, Target(pc)), |f.s.devices|, f.s.now, pc, h, WaitStart(sampler));
      if pc.Validated? {
        LatchedSystem(f.s);
        ValidatedKnows(f.s, a, pc.r);
      }
      if pc.Validated? || pc.Returned? { ReturnsIdle(f.s, a, Validate(h)); }
      WaitingStep(sampler, f.s, a, f.rows, s2.g.telemetryLatch, s2.actors[a]);
    } else if sampler.Sampled? {
      LaterOpened(sampler.k, f.s.now);
    }
  }

  lemma {:induction false} LaterOpened(k: Sample, now: nat)
    requires Opened(k, now)
    ensures Opened(k, now + 1)
  {
  }

  lemma {:induction false} LatchedSystem(s: System)
    requires LatchInv(s)
    ensures SystemInv(s)
  {
  }

  lemma {:induction false} ReturnsIdle(s: System, a: nat, call: Call)
    requires a < |s.actors| && (s.actors[a].Validated? || s.actors[a].Returned?)
    ensures SystemStep(s, a, call).actors[a] == Idle
  {
  }

  lemma {:induction false} StepKeepsFull(f: Full, m: FullMove)
    requires FullInv(f) && m.actor < |f.samplers|
    ensures FullInv(FullStep(f, m))
  {
    hide SamplerInv, LatchInv, SampleStep, SystemStep, AfterValidation, AfterStore;
    var a := m.actor;
    var sampler, pc := f.samplers[a], f.s.actors[a];
    assert SamplerInv(sampler, pc, f.s.g.telemetryLatch, f.rows, f.s.now);
    if RegistryMove(f, m).Some? {
      RegistryStepKeeps(f, m);
    } else if Stores(f, m) {
      StoreKeeps(f, m);
    } else if m.store.Some? {
    } else if sampler.Sampling? {
      SamplingIdle(sampler, pc, f.s.g.telemetryLatch, f.rows, f.s.now);
      SampleStepKeeps(f.s, f.rows, sampler.k, sampler.sp);
    } else {
      OpeningKnows(FullStep(f, m).samplers[a], pc, f.s.g.telemetryLatch, f.rows, f.s.now);
    }
  }

  lemma {:induction false} SamplingIdle(sampler: Sampler, pc: Pc, latch: nat, rows: Rows, now: nat)
    requires sampler.Sampling? && SamplerInv(sampler, pc, latch, rows, now)
    ensures pc == Idle
  {
  }

  lemma {:induction false} OpeningKnows(sampler: Sampler, pc: Pc, latch: nat, rows: Rows, now: nat)
    requires sampler.Opening? && sampler.start == now && pc.Idle?
    ensures SamplerInv(sampler, pc, latch, rows, now)
  {
  }

  // ---- Whole runs ----

  predicate FullSchedulable(f: Full, moves: seq<FullMove>) {
    ValidFull(f) && forall i :: 0 <= i < |moves| ==> moves[i].actor < |f.samplers|
  }

  function FullAfter(f: Full, moves: seq<FullMove>): (r: Full)
    requires FullSchedulable(f, moves)
    ensures ValidFull(r) && |r.samplers| == |f.samplers|
    decreases |moves|
  {
    if moves == [] then f else FullStep(FullAfter(f, moves[..|moves| - 1]), moves[|moves| - 1])
  }

  /** The registry's own schedule within a run. */
  function Projected(f: Full, moves: seq<FullMove>): seq<Move>
    requires FullSchedulable(f, moves)
    decreases |moves|
  {
    if moves == [] then []
    else
      var n := |moves| - 1;
      var move := RegistryMove(FullAfter(f, moves[..n]), moves[n]);
      Projected(f, moves[..n]) + if move.Some? then [move.value] else []
  }

  /** The registry half of a run is a run of the registry. */
  lemma {:induction false} ProjectedRun(f: Full, moves: seq<FullMove>)
    requires FullSchedulable(f, moves)
    ensures Schedulable(f.s, Projected(f, moves))
    ensures Run(f.s, Projected(f, moves))[|Projected(f, moves)|] == FullAfter(f, moves).s
    decreases |moves|
  {
    hide SystemStep, Run, SampleStep, AfterValidation, HoldsTelemetry;
    if moves != [] {
      var n := |moves| - 1;
      ProjectedRun(f, moves[..n]);
      var move := RegistryMove(FullAfter(f, moves[..n]), moves[n]);
      if move.Some? {
        RunAppend(f.s, Projected(f, moves[..n]), move.value);
      } else {
        assert Projected(f, moves) == Projected(f, moves[..n]);
      }
    } else {
      RunStarts(f.s);
    }
  }

  lemma {:induction false} RunStarts(s: System)
    ensures Run(s, []) == [s]
  {
  }

  predicate InitialFull(f: Full) {
    InitialSystem(f.s) && ValidFull(f) && forall a :: 0 <= a < |f.samplers| ==> f.samplers[a].NotSampling?
  }

  lemma {:induction false} RunKeepsFull(f: Full, moves: seq<FullMove>)
    requires InitialFull(f) && FullSchedulable(f, moves)
    ensures FullInv(FullAfter(f, moves))
    decreases |moves|
  {
    if moves == [] {
      InitialLatches(f.s);
    } else {
      RunKeepsFull(f, moves[..|moves| - 1]);
      hide FullInv, FullStep;
      StepKeepsFull(FullAfter(f, moves[..|moves| - 1]), moves[|moves| - 1]);
    }
  }

  /** The validations a sampler remembers are states of the registry's run. */
  ghost predicate Remembered(run: seq<System>, a: nat, sampler: Sampler) {
    match sampler
    case Sampling(k, _) => Happened(run, a, k.seen, k.before)
    case Confirming(k) => Happened(run, a, k.seen, k.before)
    case Sampled(k) => Happened(run, a, k.seen, k.before) && Happened(run, a, k.done, k.after)
    case _ => true
  }

  ghost predicate Happened(run: seq<System>, a: nat, time: nat, r: Reader) {
    time < |run| && a < |run[time].actors| && run[time].actors[a] == Validated(r)
  }

  lemma {:induction false} LongerRun(run: seq<System>, longer: seq<System>, a: nat, sampler: Sampler)
    requires Remembered(run, a, sampler) && run <= longer
    ensures Remembered(longer, a, sampler)
  {
  }

  lemma {:induction false} SampleStepRemembers(s: System, rows: Rows, k: Sample, sp: SamplePoint, run: seq<System>,
                                               a: nat)
    requires Remembered(run, a, Sampling(k, sp))
    ensures Remembered(run, a, SampleStep(s, rows, k, sp))
  {
  }

  lemma {:induction false} ValidationRemembers(sampler: Sampler, run: seq<System>, a: nat, s: System)
    requires Remembered(run, a, sampler) && a < |s.actors| && s.now < |run| && run[s.now] == s
    ensures Remembered(run, a, AfterValidation(sampler, s.actors[a], s.now))
  {
  }

  lemma {:induction false} StepRemembers(f: Full, m: FullMove, run: seq<System>, longer: seq<System>, a: nat)
    requires ValidFull(f) && m.actor < |f.samplers| && a < |f.samplers|
    requires run <= longer && f.s.now < |run| && run[f.s.now] == f.s && Remembered(run, a, f.samplers[a])
    ensures Remembered(longer, a, FullStep(f, m).samplers[a])
  {
    hide Remembered, SampleStep, AfterValidation, SystemStep, HoldsTelemetry;
    LongerRun(run, longer, a, f.samplers[a]);
    if m.actor == a {
      ValidationRemembers(f.samplers[a], longer, a, f.s);
      if f.samplers[a].Sampling? {
        SampleStepRemembers(f.s, f.rows, f.samplers[a].k, f.samplers[a].sp, longer, a);
      }
      OpeningRemembers(longer, a, FullStep(f, m).samplers[a]);
    }
  }

  lemma {:induction false} OpeningRemembers(run: seq<System>, a: nat, sampler: Sampler)
    ensures sampler.Opening? || sampler.NotSampling? ==> Remembered(run, a, sampler)
  {
  }

  lemma {:induction false} RunRemembers(f: Full, moves: seq<FullMove>, a: nat)
    requires InitialFull(f) && FullSchedulable(f, moves) && a < |f.samplers|
    ensures Schedulable(f.s, Projected(f, moves))
    ensures Remembered(Run(f.s, Projected(f, moves)), a, FullAfter(f, moves).samplers[a])
    decreases |moves|
  {
    hide Remembered, FullStep, SystemStep, InitialSystem, SystemInv;
    ProjectedRun(f, moves);
    if moves == [] {
      OpeningRemembers(Run(f.s, []), a, f.samplers[a]);
    } else {
      var n := |moves| - 1;
      var before := FullAfter(f, moves[..n]);
      var run := Run(f.s, Projected(f, moves[..n]));
      RunRemembers(f, moves[..n], a);
      ProjectedRun(f, moves[..n]);
      InitialClock(f.s);
      InitialSystemInv(f.s);
      RunKeepsInvariant(f.s, Projected(f, moves[..n]), |Projected(f, moves[..n])|);
      var move := RegistryMove(before, moves[n]);
      if move.Some? {
        RunAppend(f.s, Projected(f, moves[..n]), move.value);
      } else {
        assert Projected(f, moves) == Projected(f, moves[..n]);
      }
      StepRemembers(before, moves[n], run, Run(f.s, Projected(f, moves)), a);
    }
  }

  lemma {:induction false} InitialClock(s: System)
    requires InitialSystem(s)
    ensures s.now == 0
  {
  }

  // ---- The instant of the copy ----

  /** The telemetry words and their latch were, in this state, what the read recorded. */
  predicate InstantOf(f: Full, k: Sample) {
    f.rows == k.at && f.s.now == k.atTime && f.s.g.telemetryLatch == k.latch && !Odd(k.latch)
  }

  predicate HasInstant(sampler: Sampler) {
    (sampler.Sampling? && AfterLatch(sampler.sp)) || sampler.Confirming? || sampler.Sampled?
  }

  ghost predicate InstantIn(f: Full, moves: seq<FullMove>, k: Sample)
    requires FullSchedulable(f, moves)
  {
    exists j :: 0 <= j <= |moves| && InstantOf(FullAfter(f, moves[..j]), k)
  }

  predicate SameInstant(k: Sample, k2: Sample) { k2.at == k.at && k2.atTime == k.atTime && k2.latch == k.latch }

  /** A step takes a new instant, which is now, or keeps the one it has. */
  lemma {:induction false} InstantStep(f: Full, m: FullMove, a: nat)
    requires ValidFull(f) && m.actor < |f.samplers| && a < |f.samplers|
    ensures
      var after := FullStep(f, m).samplers[a];
      HasInstant(after) ==>
          InstantOf(f, after.k) || (HasInstant(f.samplers[a]) && SameInstant(f.samplers[a].k, after.k))
  {
    hide SystemStep;
  }

  lemma {:induction false} LaterInstant(f: Full, moves: seq<FullMove>, k: Sample, k2: Sample)
    requires moves != [] && FullSchedulable(f, moves) && InstantIn(f, moves[..|moves| - 1], k) && SameInstant(k, k2)
    ensures InstantIn(f, moves, k2)
  {
    hide FullAfter;
    var n := |moves| - 1;
    var j :| 0 <= j <= n && InstantOf(FullAfter(f, moves[..n][..j]), k);
    assert moves[..n][..j] == moves[..j];
    assert InstantOf(FullAfter(f, moves[..j]), k2);
  }

  lemma {:induction false} RunHasInstant(f: Full, moves: seq<FullMove>, a: nat)
    requires InitialFull(f) && FullSchedulable(f, moves) && a < |f.samplers|
    ensures var sampler := FullAfter(f, moves).samplers[a]; HasInstant(sampler) ==> InstantIn(f, moves, sampler.k)
    decreases |moves|
  {
    hide FullStep, InstantOf, SameInstant, InitialSystem;
    if moves != [] {
      var n := |moves| - 1;
      var before, sampler := FullAfter(f, moves[..n]), FullAfter(f, moves).samplers[a];
      RunHasInstant(f, moves[..n], a);
      InstantStep(before, moves[n], a);
      if HasInstant(sampler) && !InstantOf(before, sampler.k) {
        LaterInstant(f, moves, before.samplers[a].k, sampler.k);
      }
    }
  }

  /** Nobody is storing telemetry at the instant of a copy. */
  lemma {:induction false} InstantUndisturbed(f: Full, k: Sample)
    requires FullInv(f) && InstantOf(f, k)
    ensures forall b :: 0 <= b < |f.s.actors| ==> !HoldsTelemetry(f.s.actors[b])
  {
    hide SystemInv, LatchesHeld, SamplerInv, HoldsTelemetry;
    forall b | 0 <= b < |f.s.actors| ensures !HoldsTelemetry(f.s.actors[b]) {
      assert TelemetryInv(f.s.g.telemetryLatch, f.s.actors[b]);
    }
  }

  lemma {:induction false} CopyInstant(f: Full, moves: seq<FullMove>, a: nat, k: Sample) returns (j: nat)
    requires InitialFull(f) && FullSchedulable(f, moves) && a < |f.samplers|
        && FullAfter(f, moves).samplers[a] == Sampled(k)
    ensures j <= |moves| && FullAfter(f, moves[..j]).rows == k.at && FullAfter(f, moves[..j]).s.now == k.atTime
    ensures forall b :: 0 <= b < |f.s.actors| ==> !HoldsTelemetry(FullAfter(f, moves[..j]).s.actors[b])
  {
    hide FullAfter, FullInv, InitialSystem, HoldsTelemetry;
    RunHasInstant(f, moves, a);
    j :| 0 <= j <= |moves| && InstantOf(FullAfter(f, moves[..j]), k);
    RunKeepsFull(f, moves[..j]);
    InstantUndisturbed(FullAfter(f, moves[..j]), k);
  }

  /** Invocation, first validation, copy, second validation, in this order. */
  predicate InOrder(k: Sample) {
    k.start <= k.before.start <= k.before.at.time < k.seen <= k.atTime <= k.after.start <= k.after.at.time < k.done
  }

  lemma {:induction false} SampledKnows(f: Full, a: nat, k: Sample)
    requires FullInv(f) && a < |f.samplers| && f.samplers[a] == Sampled(k)
    ensures InOrder(k) && Copied(k) && k.before.handle == k.after.handle == k.handle
    ensures |k.after.fence| > SEQUENCE && k.after.fence[SEQUENCE] == k.before.fence[SEQUENCE]
  {
    hide LatchInv;
    assert SamplerInv(f.samplers[a], f.s.actors[a], f.s.g.telemetryLatch, f.rows, f.s.now);
  }

  /**
   * A telemetry read that succeeds lies between two successful validations of its handle, invoked within
   * it, whose fences carry the same lifecycle sequence.  Between them is the instant of its copy: the row
   * returned is the whole row of the bank active at that instant, for the handle's identity and for no
   * older lifecycle sequence than the fence's.  `CopyInstant` gives the state of the run at that instant.
   */
  lemma {:induction false} TelemetryReadLinearizes(f: Full, moves: seq<FullMove>, a: nat, k: Sample)
    requires InitialFull(f) && FullSchedulable(f, moves) && a < |f.samplers|
        && FullAfter(f, moves).samplers[a] == Sampled(k)
    ensures Schedulable(f.s, Projected(f, moves)) && InOrder(k) && k.done <= |Projected(f, moves)|
    ensures Copied(k) && |k.after.fence| > SEQUENCE && k.after.fence[SEQUENCE] == k.before.fence[SEQUENCE]
    ensures
      var run := Run(f.s, Projected(f, moves));
      && run[k.seen].actors[a] == Validated(k.before) && run[k.done].actors[a] == Validated(k.after)
      && Linearized(run[k.before.at.time], k.before.d, k.handle, k.before.fence)
      && Linearized(run[k.after.at.time], k.after.d, k.handle, k.after.fence)
  {
    hide FullStep, SystemStep, InitialSystem, Copied, Linearized, FullInv, FullAfter, Projected, Whole;
    ProjectedRun(f, moves);
    RunKeepsFull(f, moves);
    SampledKnows(FullAfter(f, moves), a, k);
    RunRemembers(f, moves, a);
    ValidationLinearizes(f.s, Projected(f, moves), k.seen, a, k.before);
    ValidationLinearizes(f.s, Projected(f, moves), k.done, a, k.after);
  }

  /** No telemetry read invoked once the device it finds is closed, or the view is, ever succeeds. */
  lemma {:induction false} NoTelemetryAfterClose(f: Full, moves: seq<FullMove>, a: nat, k: Sample, closed: nat)
    requires InitialFull(f) && FullSchedulable(f, moves) && a < |f.samplers|
        && FullAfter(f, moves).samplers[a] == Sampled(k)
    requires closed <= k.start
    ensures Schedulable(f.s, Projected(f, moves)) && closed <= |Projected(f, moves)|
    ensures !Shut(Run(f.s, Projected(f, moves))[closed], k.before.d)
  {
    hide FullStep, SystemStep, InitialSystem, Copied, Linearized, Shut, FullAfter, Projected, FullInv;
    TelemetryReadLinearizes(f, moves, a, k);
    NoValidationAfterClose(f.s, Projected(f, moves), closed, k.seen, a, k.before);
  }
}
