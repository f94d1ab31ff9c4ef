// Step machine of the shared registry view (runtime/core/src/runtime.cpp, mapping without the
// recovery extension, no injected faults).
//
// One step is one atomic access to the mapping: a load, a store or a compare-exchange.  Memory is
// sequentially consistent.  Any number of actors interleave, each running one of the operations
// validate_device, publish_fence, mark_device_lost, publish_device_identity, close, or the
// telemetry publisher reduced to its latch.
module RegistryProtocol {

  datatype Admission = Open | Updating | Closed
  /** A device admission word; the packed form loses nothing because generations stay below 2^24. */
  datatype Word = Word(generation: nat, state: Admission, tag: nat)
  datatype ViewAdmission = ViewOpen | ViewClosing | ViewTerminal | ViewQuarantined
  datatype ViewWord = ViewWord(generation: nat, state: ViewAdmission)

  /** Words shared by all devices of a view. */
  datatype Globals = Globals(view: ViewWord, controlLatch: nat, gate: nat, terminal: nat, telemetryLatch: nat)
  /** Identity record, admission word, fence latch and the six fence words of one device. */
  datatype Device = Device(identity: nat, committed: nat, word: Word, latch: nat, fence: seq<nat>)

  const FENCE_WORDS := 6
  const IDENTITY := 0
  const SEQUENCE := 1
  const STATE := 5
  const ONLINE := 1
  const LOST := 2
  const GATE_OPEN := 1
  const GATE_TERMINAL := 3
  const GENERATION_MAX_NORMAL := 0x00fffffe
  const GENERATION_TERMINAL := 0x00ffffff
  const VIEW_GENERATION_TERMINAL := 0x00ff_ffff_ffff_ffff
  const SNAPSHOT_ATTEMPTS := 4
  const LOST_ATTEMPTS := 4096
  const U32 := 0x1_0000_0000
  const U64_MAX := 0xffff_ffff_ffff_ffff

  datatype Status = Success | InvalidArgument | StaleHandle | TerminalView | DeviceLost | Retry | Overflow | Exhausted

  datatype Handle = Handle(viewId: nat, identity: nat, generation: nat)

  /** What the mapping held when a reader loaded its first device word; auxiliary, never read by a step. */
  datatype Instant = Instant(time: nat, globals: Globals, device: Device)

  datatype Reader = Reader(handle: Handle, d: nat, start: nat, attempt: nat, viewBefore: ViewWord, control: nat,
                           gate: nat, terminal: nat, before: Word, fenceLatch: nat, fence: seq<nat>, at: Instant)

  datatype WriterKind = Publishing | Losing(attempt: nat)
  /** A fence write: `expected` is the admission word it must still find. */
  datatype Writer = Writer(d: nat, expected: Word, intended: seq<nat>, kind: WriterKind)

  datatype Identity = Identity(d: nat, expectedId: nat, expectedGeneration: nat, nextId: nat, nextGeneration: nat,
                               intended: seq<nat>, open: Word, updating: Word, control: nat, latch: nat, telemetry: nat)

  /** Program points of validate_device after the device has been found. */
  datatype ReaderPoint =
    | RView
    | RControlFirst(inner: nat)
    | RControlGate(inner: nat)
    | RControlTerminal(inner: nat)
    | RControlSecond(inner: nat)
    | RDevice
    | RFenceFirst(inner: nat)
    | RFenceField(inner: nat)
    | RFenceSecond(inner: nat)
    | RViewAfter
    | RControlAfter(same: bool)
    | RDeviceAfter(same: bool)

  /** Program points of mark_device_lost before its fence write. */
  datatype MarkPoint = MLoad | MClose(current: Word) | MIdentity(closed: Word)

  /** Program points of a fence write and, for publish_fence, of reopening or closing after it. */
  datatype WriterPoint =
    | WLatch
    | WIdentity(latch: nat)
    | WWord(latch: nat)
    | WTake(latch: nat)
    | WField(latch: nat, k: nat)
    | WRelease(latch: nat)
    | WReopen
    | WClose(status: Status)

  /** Program points of publish_device_identity. */
  datatype IdentityPoint =
    | IView
    | IIdentity
    | IGeneration
    | IFenceFirst(inner: nat)
    | IFenceSequence(inner: nat, first: nat)
    | IFenceSecond(inner: nat, first: nat, sequence: nat)
    | IWord
    | IClaim
    | IControlLoad
    | IControlTake
    | IFenceLoad
    | IFenceTake
    | ITelemetryLoad
    | ITelemetryTake
    | IWriteIdentity
    | IWriteGeneration
    | IWriteFence(k: nat)
    | ITelemetryRelease
    | IFenceRelease
    | IControlRelease
    | IReopen
    | IUndoFence(status: Status)
    | IUndoControl(status: Status)
    | IRestore(status: Status)

  /** Program points of close and of the telemetry publisher's latch. */
  datatype CloserPoint =
    | CLoad
    | CClose(view: ViewWord)
    | CDeviceLoad(i: nat)
    | CDeviceClose(i: nat, current: Word)
    | CControlLoad
    | CControlTake(even: nat)
    | CGate(even: nat)
    | CTerminal(even: nat)
    | CControlRelease(even: nat)
    | CFinish
    | CQuarantine
    | TLoad
    | TTake(even: nat)
    | TRelease(even: nat)

  datatype Pc =
    | Idle
    | Returned(status: Status)
    | Finding(h: Handle, start: nat, i: nat)
    | Matching(h: Handle, start: nat, i: nat)
    | Reading(r: Reader, rp: ReaderPoint)
    | Validated(r: Reader)
    | Claiming(d: nat, generation: nat, intended: seq<nat>)
    | Marking(d: nat, sequence: nat, epoch: nat, mp: MarkPoint)
    | Writing(w: Writer, wp: WriterPoint)
    | Replacing(x: Identity, ip: IdentityPoint)
    | Closing(cp: CloserPoint)

  /** A call an idle actor may start. */
  datatype Call =
    | Stay
    | Validate(h: Handle)
    | PublishFence(d: nat, generation: nat, intended: seq<nat>)
    | MarkLost(d: nat, sequence: nat, epoch: nat)
    | PublishIdentity(x: Identity)
    | Close
    | PublishTelemetry

  /** Result of one step on the globals and on the one device the step may touch. */
  datatype Effect = Effect(g: Globals, dev: Device, pc: Pc)

  predicate Odd(latch: nat) { latch % 2 == 1 }

  predicate Spent(latch: nat) { latch > U64_MAX - 2 }

  function UpdateTag(sequence: nat): nat {
    if sequence % U32 == 0 then 1 else sequence % U32
  }

  const NO_WORD := Word(0, Closed, 0)
  const NO_VIEW := ViewWord(0, ViewClosing)
  const NO_DEVICE := Device(0, 0, NO_WORD, 0, [0, 0, 0, 0, 0, 0])
  const NO_INSTANT := Instant(0, Globals(NO_VIEW, 0, 0, 0, 0), NO_DEVICE)

  /** Argument checks done before any shared access. */
  function Begin(viewId: nat, count: nat, now: nat, call: Call): Pc {
    match call
    case Stay => Idle
    case Validate(h) => if h.viewId != viewId then Returned(StaleHandle) else Finding(h, now, 0)
    case PublishFence(d, generation, intended) =>
      if d >= count || |intended| != FENCE_WORDS || intended[STATE] != ONLINE
         || generation == 0 || generation >= GENERATION_MAX_NORMAL
      then Returned(InvalidArgument) else Claiming(d, generation, intended)
    case MarkLost(d, sequence, epoch) =>
      if d >= count || sequence == 0 then Returned(InvalidArgument) else Marking(d, sequence, epoch, MLoad)
    case PublishIdentity(x) =>
      if x.d >= count || x.expectedId == 0 || x.expectedGeneration == 0 || x.nextId <= x.expectedId
         || x.nextGeneration <= x.expectedGeneration || |x.intended| != FENCE_WORDS
         || x.intended[IDENTITY] != x.nextId || x.intended[SEQUENCE] == 0 || x.intended[STATE] != ONLINE
      then Returned(InvalidArgument) else Replacing(x, IView)
    case Close => Closing(CLoad)
    case PublishTelemetry => Closing(TLoad)
  }

  /** Next pass of the outer validation loop. */
  function NextAttempt(r: Reader): Pc {
    if r.attempt + 1 < SNAPSHOT_ATTEMPTS then Reading(r.(attempt := r.attempt + 1), RView) else Returned(Retry)
  }

  /** A reader changes nothing: its step is the next program counter. */
  function ReaderStep(g: Globals, dev: Device, now: nat, r: Reader, rp: ReaderPoint): Pc {
    match rp
    case RView =>
      if g.view.state != ViewOpen then Returned(TerminalView) else Reading(r.(viewBefore := g.view), RControlFirst(0))
    case RControlFirst(inner) =>
      if inner >= SNAPSHOT_ATTEMPTS then NextAttempt(r)
      else if Odd(g.controlLatch) then Reading(r, RControlFirst(inner + 1))
      else Reading(r.(control := g.controlLatch), RControlGate(inner))
    case RControlGate(inner) => Reading(r.(gate := g.gate), RControlTerminal(inner))
    case RControlTerminal(inner) => Reading(r.(terminal := g.terminal), RControlSecond(inner))
    case RControlSecond(inner) =>
      if g.controlLatch != r.control then Reading(r, RControlFirst(inner + 1))
      else if r.gate != GATE_OPEN || r.terminal != 0 then Returned(TerminalView)
      else Reading(r, RDevice)
    case RDevice =>
      if dev.word.state.Updating? then NextAttempt(r)
      else if dev.word.state.Closed? then Returned(DeviceLost)
      else Reading(r.(before := dev.word, at := Instant(now, g, dev)), RFenceFirst(0))
    case RFenceFirst(inner) =>
      if inner >= SNAPSHOT_ATTEMPTS then NextAttempt(r)
      else if Odd(dev.latch) then Reading(r, RFenceFirst(inner + 1))
      else Reading(r.(fenceLatch := dev.latch, fence := []), RFenceField(inner))
    case RFenceField(inner) =>
      if |r.fence| < |dev.fence| then
        var more := r.(fence := r.fence + [dev.fence[|r.fence|]]);
        Reading(more, if |more.fence| < FENCE_WORDS then RFenceField(inner) else RFenceSecond(inner))
      else Reading(r, RFenceSecond(inner))
    case RFenceSecond(inner) =>
      if dev.latch != r.fenceLatch || |r.fence| != FENCE_WORDS then Reading(r, RFenceFirst(inner + 1))
      else if r.fence[IDENTITY] != r.handle.identity then Returned(StaleHandle)
      else if r.fence[STATE] != ONLINE then Returned(DeviceLost)
      else Reading(r, RViewAfter)
    case RViewAfter => Reading(r, RControlAfter(g.view == r.viewBefore))
    case RControlAfter(same) => Reading(r, RDeviceAfter(same && g.controlLatch == r.control))
    case RDeviceAfter(same) => if same && dev.word == r.before then Validated(r) else NextAttempt(r)
  }

  function MarkStep(dev: Device, d: nat, sequence: nat, epoch: nat, mp: MarkPoint): (Device, Pc) {
    match mp
    case MLoad => (dev, Marking(d, sequence, epoch, MClose(dev.word)))
    case MClose(current) =>
      if current.state.Closed? then (dev, Marking(d, sequence, epoch, MIdentity(current)))
      else
        var closed := Word(if current.generation >= GENERATION_MAX_NORMAL then GENERATION_TERMINAL
                           else current.generation + 1, Closed, 0);
        if dev.word == current then (dev.(word := closed), Marking(d, sequence, epoch, MIdentity(closed)))
        else (dev, Marking(d, sequence, epoch, MClose(dev.word)))
    case MIdentity(closed) =>
      (dev, Writing(Writer(d, closed, [dev.identity, sequence, epoch, 0, 0, LOST], Losing(0)), WLatch))
  }

  function ClaimStep(dev: Device, d: nat, generation: nat, intended: seq<nat>): (Device, Pc) {
    var updating := Word(generation + 1, Updating, UpdateTag(if |intended| > SEQUENCE then intended[SEQUENCE] else 0));
    if dev.word == Word(generation, Open, 0)
    then (dev.(word := updating), Writing(Writer(d, updating, intended, Publishing), WLatch))
    else (dev, Returned(if dev.word.state.Closed? then DeviceLost else Retry))
  }

  function Reopened(word: Word): Word { Word(word.generation, Open, 0) }

  /** Where a writer goes when its fence write fails with a status. */
  function WriteFailed(w: Writer, status: Status): Pc {
    match w.kind
    case Publishing => Writing(w, WClose(status))
    case Losing(attempt) =>
      if status.Retry? && attempt + 1 < LOST_ATTEMPTS then Writing(w.(kind := Losing(attempt + 1)), WLatch)
      else Returned(status)
  }

  function WriterStep(dev: Device, w: Writer, wp: WriterPoint): (Device, Pc) {
    match wp
    case WLatch => (dev, Writing(w, WIdentity(dev.latch)))
    case WIdentity(latch) =>
      (dev, if |w.intended| != FENCE_WORDS || w.intended[IDENTITY] != dev.identity || w.intended[SEQUENCE] == 0
            then WriteFailed(w, InvalidArgument)
            else if Odd(latch) then WriteFailed(w, Retry)
            else if Spent(latch) then WriteFailed(w, Overflow)
            else Writing(w, WWord(latch)))
    case WWord(latch) => (dev, if dev.word != w.expected then WriteFailed(w, DeviceLost) else Writing(w, WTake(latch)))
    case WTake(latch) =>
      if dev.latch == latch then (dev.(latch := latch + 1), Writing(w, WField(latch, 0)))
          else (dev, WriteFailed(w, Retry))
    case WField(latch, k) =>
      if k < |dev.fence| && k < |w.intended| then
        (dev.(fence := dev.fence[k := w.intended[k]]),
         Writing(w, if k + 1 < FENCE_WORDS then WField(latch, k + 1) else WRelease(latch)))
      else (dev, Writing(w, WRelease(latch)))
    case WRelease(latch) =>
      (dev.(latch := latch + 2), if w.kind.Publishing? then Writing(w, WReopen) else Returned(Success))
    case WReopen =>
      if dev.word == w.expected then (dev.(word := Reopened(w.expected)), Returned(Success))
          else (dev, Returned(DeviceLost))
    case WClose(status) =>
      (if dev.word == w.expected then dev.(word := Word(w.expected.generation, Closed, 0)) else dev, Returned(status))
  }

  /** The checks publish_device_identity makes before it claims the device; they change nothing. */
  function IdentityCheck(g: Globals, dev: Device, x: Identity, ip: IdentityPoint): Pc {
    match ip
    case IView => if g.view.state != ViewOpen then Returned(InvalidArgument) else Replacing(x, IIdentity)
    case IIdentity => if dev.identity != x.expectedId then Returned(StaleHandle) else Replacing(x, IGeneration)
    case IGeneration => if dev.committed != x.expectedGeneration then Returned(StaleHandle)
        else Replacing(x, IFenceFirst(0))
    case IFenceFirst(inner) =>
      if inner >= SNAPSHOT_ATTEMPTS then Returned(Retry)
      else if Odd(dev.latch) then Replacing(x, IFenceFirst(inner + 1))
          else Replacing(x, IFenceSequence(inner, dev.latch))
    case IFenceSequence(inner, first) =>
      Replacing(x, IFenceSecond(inner, first, if |dev.fence| > SEQUENCE then dev.fence[SEQUENCE] else 0))
    case IFenceSecond(inner, first, sequence) =>
      if dev.latch != first then Replacing(x, IFenceFirst(inner + 1))
      else if |x.intended| <= SEQUENCE || x.intended[SEQUENCE] <= sequence then Returned(StaleHandle)
      else Replacing(x, IWord)
    case IWord =>
      if dev.word.state.Updating? then Returned(Retry)
      else if dev.word.state.Closed? then Returned(DeviceLost)
      else if dev.word.generation == 0 || dev.word.generation >= GENERATION_MAX_NORMAL then Returned(Exhausted)
      else Replacing(x.(open := dev.word), IClaim)
    case _ => Idle
  }

  predicate Checking(ip: IdentityPoint) {
    ip.IView? || ip.IIdentity? || ip.IGeneration? || ip.IFenceFirst? || ip.IFenceSequence? || ip.IFenceSecond?
        || ip.IWord?
  }

  /** Claiming the device and taking the control latch. */
  function IdentityClaim(g: Globals, dev: Device, x: Identity, ip: IdentityPoint): Effect {
    match ip
    case IClaim =>
      var updating := Word(x.open.generation + 1, Updating,
                           UpdateTag(if |x.intended| > SEQUENCE then x.intended[SEQUENCE] else 0));
      if dev.word == x.open then Effect(g, dev.(word := updating), Replacing(x.(updating := updating), IControlLoad))
      else Effect(g, dev, Returned(if dev.word.state.Closed? then DeviceLost else Retry))
    case IControlLoad =>
      Effect(g, dev, if Odd(g.controlLatch) || Spent(g.controlLatch) then Replacing(x, IRestore(Retry))
                     else Replacing(x.(control := g.controlLatch), IControlTake))
    case IControlTake =>
      if g.controlLatch == x.control then Effect(g.(controlLatch := x.control + 1), dev, Replacing(x, IFenceLoad))
      else Effect(g, dev, Replacing(x, IRestore(Retry)))
    case _ => Effect(g, dev, Idle)
  }

  predicate Claims(ip: IdentityPoint) { ip.IClaim? || ip.IControlLoad? || ip.IControlTake? }

  /** Taking the fence and telemetry latches. */
  function IdentityTake(g: Globals, dev: Device, x: Identity, ip: IdentityPoint): Effect {
    match ip
    case IFenceLoad =>
      Effect(g, dev, if Odd(dev.latch) || Spent(dev.latch)
                     then Replacing(x, IUndoControl(if Spent(dev.latch) then Overflow else Retry))
                     else Replacing(x.(latch := dev.latch), IFenceTake))
    case IFenceTake =>
      if dev.latch == x.latch then Effect(g, dev.(latch := x.latch + 1), Replacing(x, ITelemetryLoad))
      else Effect(g, dev, Replacing(x, IUndoControl(Retry)))
    case ITelemetryLoad =>
      Effect(g, dev, if Odd(g.telemetryLatch) || Spent(g.telemetryLatch)
                     then Replacing(x, IUndoFence(if Spent(g.telemetryLatch) then Overflow else Retry))
                     else Replacing(x.(telemetry := g.telemetryLatch), ITelemetryTake))
    case ITelemetryTake =>
      if g.telemetryLatch == x.telemetry then
        Effect(g.(telemetryLatch := x.telemetry + 1), dev, Replacing(x, IWriteIdentity))
      else Effect(g, dev, Replacing(x, IUndoFence(Retry)))
    case _ => Effect(g, dev, Idle)
  }

  /** Releasing what was taken and restoring the admission word. */
  function IdentityUndo(g: Globals, dev: Device, x: Identity, ip: IdentityPoint): Effect {
    match ip
    case IUndoFence(status) => Effect(g, dev.(latch := x.latch + 2), Replacing(x, IUndoControl(status)))
    case IUndoControl(status) => Effect(g.(controlLatch := x.control + 2), dev, Replacing(x, IRestore(status)))
    case IRestore(status) =>
      if dev.word == x.updating then Effect(g, dev.(word := x.open), Returned(status))
      else Effect(g, dev, Returned(if status.Overflow? then Overflow else DeviceLost))
    case _ => Effect(g, dev, Idle)
  }

  /** Writing the new identity, releasing the latches and reopening the device. */
  function IdentityWrite(g: Globals, dev: Device, x: Identity, ip: IdentityPoint): Effect {
    match ip
    case IWriteIdentity => Effect(g, dev.(identity := x.nextId), Replacing(x, IWriteGeneration))
    case IWriteGeneration => Effect(g, dev.(committed := x.nextGeneration), Replacing(x, IWriteFence(0)))
    case IWriteFence(k) =>
      if k < |dev.fence| && k < |x.intended| then
        Effect(g, dev.(fence := dev.fence[k := x.intended[k]]),
               Replacing(x, if k + 1 < FENCE_WORDS then IWriteFence(k + 1) else ITelemetryRelease))
      else Effect(g, dev, Replacing(x, ITelemetryRelease))
    case ITelemetryRelease => Effect(g.(telemetryLatch := x.telemetry + 2), dev, Replacing(x, IFenceRelease))
    case IFenceRelease => Effect(g, dev.(latch := x.latch + 2), Replacing(x, IControlRelease))
    case IControlRelease => Effect(g.(controlLatch := x.control + 2), dev, Replacing(x, IReopen))
    case IReopen =>
      if dev.word == x.updating then Effect(g, dev.(word := Reopened(x.updating)), Returned(Success))
      else Effect(g, dev, Returned(DeviceLost))
    case _ => Effect(g, dev, Idle)
  }

  predicate Undoing(ip: IdentityPoint) { ip.IUndoFence? || ip.IUndoControl? || ip.IRestore? }

  predicate Takes(ip: IdentityPoint) { ip.IFenceLoad? || ip.IFenceTake? || ip.ITelemetryLoad? || ip.ITelemetryTake? }

  predicate Committing(ip: IdentityPoint) {
    ip.IWriteIdentity? || ip.IWriteGeneration? || ip.IWriteFence? || ip.ITelemetryRelease? || ip.IFenceRelease?
    || ip.IControlRelease? || ip.IReopen?
  }

  function IdentityStep(g: Globals, dev: Device, x: Identity, ip: IdentityPoint): Effect {
    if Checking(ip) then Effect(g, dev, IdentityCheck(g, dev, x, ip))
    else if Committing(ip) then IdentityWrite(g, dev, x, ip)
    else if Undoing(ip) then IdentityUndo(g, dev, x, ip)
    else if Claims(ip) then IdentityClaim(g, dev, x, ip)
    else IdentityTake(g, dev, x, ip)
  }

  const CLOSED_FOREVER := Word(GENERATION_TERMINAL, Closed, 0)

  function CloseStep(g: Globals, dev: Device, count: nat, cp: CloserPoint): Effect {
    match cp
    case CLoad => Effect(g, dev, Closing(CClose(g.view)))
    case CClose(view) =>
      if view.state.ViewTerminal? || view.state.ViewQuarantined? then Effect(g, dev, Returned(Success))
      else if g.view == view then
        Effect(g.(view := ViewWord(VIEW_GENERATION_TERMINAL, ViewClosing)), dev, Closing(CDeviceLoad(0)))
      else Effect(g, dev, Closing(CClose(g.view)))
    case CDeviceLoad(i) =>
      Effect(g, dev, if i >= count then Closing(CControlLoad) else Closing(CDeviceClose(i, dev.word)))
    case CDeviceClose(i, current) =>
      if current.state.Closed?
          && current.generation == GENERATION_TERMINAL then Effect(g, dev, Closing(CDeviceLoad(i + 1)))
      else if dev.word == current then Effect(g, dev.(word := CLOSED_FOREVER), Closing(CDeviceLoad(i + 1)))
      else Effect(g, dev, Closing(CDeviceClose(i, dev.word)))
    case CControlLoad =>
      Effect(g, dev, if Odd(g.controlLatch) || Spent(g.controlLatch) then Closing(CQuarantine)
                     else Closing(CControlTake(g.controlLatch)))
    case CControlTake(even) =>
      if g.controlLatch == even then Effect(g.(controlLatch := even + 1), dev, Closing(CGate(even)))
      else Effect(g, dev, Closing(CQuarantine))
    case CGate(even) => Effect(g.(gate := GATE_TERMINAL), dev, Closing(CTerminal(even)))
    case CTerminal(even) => Effect(g.(terminal := 1), dev, Closing(CControlRelease(even)))
    case CControlRelease(even) => Effect(g.(controlLatch := even + 2), dev, Closing(CFinish))
    case CFinish => Effect(g.(view := ViewWord(VIEW_GENERATION_TERMINAL, ViewTerminal)), dev, Returned(Success))
    case CQuarantine => Effect(g.(view := ViewWord(VIEW_GENERATION_TERMINAL, ViewQuarantined)), dev, Returned(Retry))
    case TLoad =>
      Effect(g, dev, if Odd(g.telemetryLatch) || Spent(g.telemetryLatch) then Returned(Retry)
                     else Closing(TTake(g.telemetryLatch)))
    case TTake(even) =>
      if g.telemetryLatch == even then Effect(g.(telemetryLatch := even + 1), dev, Closing(TRelease(even)))
      else Effect(g, dev, Returned(Retry))
    case TRelease(even) => Effect(g.(telemetryLatch := even + 2), dev, Returned(Success))
  }

  /** One step of an actor; `dev` is the device the step may touch.  An actor that has returned goes
      idle and may call again. */
  function ActorStep(viewId: nat, g: Globals, dev: Device, count: nat, now: nat, pc: Pc, call: Call): Effect {
    match pc
    case Idle => Effect(g, dev, Begin(viewId, count, now, call))
    case Returned(_) => Effect(g, dev, Idle)
    case Validated(_) => Effect(g, dev, Idle)
    case Finding(h, start, i) =>
      Effect(g, dev, if i >= count then Returned(StaleHandle)
                     else if dev.identity == h.identity then Matching(h, start, i) else Finding(h, start, i + 1))
    case Matching(h, start, i) =>
      Effect(g, dev, if dev.committed != h.generation then Returned(StaleHandle)
                     else Reading(Reader(h, i, start, 0, NO_VIEW, 0, 0, 0, NO_WORD, 0, [], NO_INSTANT), RView))
    case Reading(r, rp) => Effect(g, dev, ReaderStep(g, dev, now, r, rp))
    case Claiming(d, generation, intended) => var (dev2, pc2) := ClaimStep(dev, d, generation, intended); Effect(g,
        dev2, pc2)
    case Marking(d, sequence, epoch, mp) => var (dev2, pc2) := MarkStep(dev, d, sequence, epoch, mp); Effect(g, dev2,
                                                                                                             pc2)
    case Writing(w, wp) => var (dev2, pc2) := WriterStep(dev, w, wp); Effect(g, dev2, pc2)
    case Replacing(x, ip) => IdentityStep(g, dev, x, ip)
    case Closing(cp) => CloseStep(g, dev, count, cp)
  }

  /** The device a step of this actor may touch. */
  function Target(pc: Pc): nat {
    match pc
    case Finding(_, _, i) => i
    case Matching(_, _, i) => i
    case Reading(r, _) => r.d
    case Validated(r) => r.d
    case Claiming(d, _, _) => d
    case Marking(d, _, _, _) => d
    case Writing(w, _) => w.d
    case Replacing(x, _) => x.d
    case Closing(CDeviceLoad(i)) => i
    case Closing(CDeviceClose(i, _)) => i
    case _ => 0
  }

  /** The whole system: shared words and one program counter per actor. */
  datatype System = System(viewId: nat, now: nat, g: Globals, devices: seq<Device>, actors: seq<Pc>)

  function At(devices: seq<Device>, d: nat): Device {
    if d < |devices| then devices[d] else NO_DEVICE
  }

  function Write(devices: seq<Device>, d: nat, dev: Device): seq<Device> {
    if d < |devices| then devices[d := dev] else devices
  }

  /** Actor `a` takes one step. */
  function SystemStep(s: System, a: nat, call: Call): System
    requires a < |s.actors|
  {
    var d := Target(s.actors[a]);
    var e := ActorStep(s.viewId, s.g, At(s.devices, d), |s.devices|, s.now, s.actors[a], call);
    System(s.viewId, s.now + 1, e.g, Write(s.devices, d, e.dev), s.actors[a := e.pc])
  }

  /** Freshly initialised mapping, all actors idle. */
  predicate InitialSystem(s: System) {
    && s.now == 0
    && s.g.view.state == ViewOpen && s.g.controlLatch == 0 && s.g.gate == GATE_OPEN && s.g.terminal == 0
    && s.g.telemetryLatch == 0
    && (forall a :: 0 <= a < |s.actors| ==> s.actors[a] == Idle)
    && (forall d :: 0 <= d < |s.devices| ==>
          && s.devices[d].word == Word(1, Open, 0) && s.devices[d].latch == 0
          && |s.devices[d].fence| == FENCE_WORDS && s.devices[d].fence[STATE] == ONLINE
          && s.devices[d].fence[IDENTITY] == s.devices[d].identity)
  }

  /** A schedule: which actor moves, and what it calls if idle. */
  datatype Move = Move(actor: nat, call: Call)

  predicate Schedulable(s: System, schedule: seq<Move>) {
    forall i :: 0 <= i < |schedule| ==> schedule[i].actor < |s.actors|
  }

  function Run(s: System, schedule: seq<Move>): (run: seq<System>)
    requires Schedulable(s, schedule)
    ensures |run| == |schedule| + 1 && run[0] == s
    ensures forall i :: 0 <= i < |run| ==> |run[i].actors| == |s.actors|
    ensures forall i :: 0 <= i < |schedule| ==> run[i + 1] == SystemStep(run[i], schedule[i].actor, schedule[i].call)
    decreases |schedule|
  {
    if schedule == [] then [s]
    else
      var next := SystemStep(s, schedule[0].actor, schedule[0].call);
      var tail := Run(next, schedule[1..]);
      assert forall i :: 0 < i < |schedule| ==> schedule[i] == schedule[1..][i - 1];
      [s] + tail
  }
}
