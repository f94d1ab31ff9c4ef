// What every actor of the registry step machine knows at each of its program points, and what two
// actors exclude (an assertion network in the rely/guarantee style).
module RegistryInvariants {
  import opened RegistryProtocol

  // ---- Rights ----

  /** What an actor may do to the shared words: `owned` is the Updating word it installed, `open` the
      word it may still restore, and the flags say which latches it holds. */
  datatype Rights = Rights(owns: bool, owned: Word, restores: bool, open: Word, latch: bool, control: bool)

  const NO_RIGHTS := Rights(false, NO_WORD, false, NO_WORD, false, false)

  function IdentityRights(x: Identity, ip: IdentityPoint): Rights {
    var taken := Rights(true, x.updating, true, x.open, false, false);
    match ip
    case IControlLoad => taken
    case IControlTake => taken
    case IRestore(_) => taken
    case IFenceLoad => taken.(control := true)
    case IFenceTake => taken.(control := true)
    case IUndoControl(_) => taken.(control := true)
    case ITelemetryLoad => taken.(control := true, latch := true)
    case ITelemetryTake => taken.(control := true, latch := true)
    case IUndoFence(_) => taken.(control := true, latch := true)
    case IControlRelease => taken.(restores := false, control := true)
    case IReopen => taken.(restores := false)
    case _ => if Committing(ip) then taken.(restores := false, control := true, latch := true) else NO_RIGHTS
  }

  function RightsOf(pc: Pc): Rights {
    match pc
    case Writing(w, wp) => NO_RIGHTS.(owns := w.kind.Publishing?, owned := w.expected, latch := wp.WField?
        || wp.WRelease?)
    case Replacing(x, ip) => IdentityRights(x, ip)
    case Closing(cp) => NO_RIGHTS.(control := cp.CGate? || cp.CTerminal? || cp.CControlRelease?)
    case _ => NO_RIGHTS
  }

  // ---- Knowledge at each program point ----

  ghost predicate NotLost(dev: Device) {
    |dev.fence| == FENCE_WORDS && dev.fence[STATE] != LOST
  }

  ghost predicate Agrees(dev: Device) {
    |dev.fence| == FENCE_WORDS && dev.fence[IDENTITY] == dev.identity
  }

  ghost predicate DeviceInv(dev: Device) {
    && |dev.fence| == FENCE_WORDS
    && (dev.word.state.Open? ==> dev.word.tag == 0 && Agrees(dev))
    && (!dev.word.state.Closed? ==> NotLost(dev))
  }

  ghost predicate Owned(dev: Device, w: Word) {
    w.state.Updating? && (dev.word == w || dev.word.state.Closed?)
  }

  ghost predicate Held(latch: nat, even: nat) {
    latch == even + 1 && !Odd(even)
  }

  ghost predicate Prefix(a: seq<nat>, b: seq<nat>, k: nat) {
    k <= |a| && k <= |b| && forall j :: 0 <= j < k ==> a[j] == b[j]
  }

  ghost predicate MarkInv(dev: Device, mp: MarkPoint) {
    match mp
    case MLoad => true
    case MClose(current) => current.state.Closed? ==> dev.word.state.Closed?
    case MIdentity(closed) => closed.state.Closed? && dev.word.state.Closed?
  }

  ghost predicate WriterHas(dev: Device, w: Writer) {
    && |w.intended| == FENCE_WORDS
    && if w.kind.Publishing? then w.intended[STATE] == ONLINE && Owned(dev, w.expected)
       else w.intended[STATE] == LOST && w.expected.state.Closed? && dev.word.state.Closed?
  }

  ghost predicate SameIdentity(dev: Device, w: Writer) {
    |w.intended| == FENCE_WORDS && (dev.word.state.Closed? || w.intended[IDENTITY] == dev.identity)
  }

  ghost predicate WriterInv(dev: Device, w: Writer, wp: WriterPoint) {
    && WriterHas(dev, w)
    && match wp
       case WLatch => true
       case WIdentity(latch) => latch <= dev.latch
       case WWord(latch) => SameIdentity(dev, w) && latch <= dev.latch && !Odd(latch)
       case WTake(latch) =>
         SameIdentity(dev, w) && latch <= dev.latch && !Odd(latch)
             && (w.kind.Publishing? && dev.latch == latch ==> NotLost(dev))
       case WField(latch, k) =>
         && SameIdentity(dev, w) && Held(dev.latch, latch) && k < FENCE_WORDS && Prefix(dev.fence, w.intended, k)
         && (w.kind.Publishing? ==> NotLost(dev))
       case WRelease(latch) => SameIdentity(dev, w) && Held(dev.latch, latch) && dev.fence == w.intended
       case WReopen => w.kind.Publishing? && SameIdentity(dev, w) && (dev.word.state.Closed? || dev.fence == w.intended)
       case WClose(_) => w.kind.Publishing?
  }

  ghost predicate IdentityHas(x: Identity) {
    |x.intended| == FENCE_WORDS && x.intended[IDENTITY] == x.nextId && x.intended[STATE] == ONLINE
  }

  ghost predicate Claimed(dev: Device, x: Identity) {
    && x.open.state.Open? && x.open.tag == 0 && x.updating.generation == x.open.generation + 1
    && Owned(dev, x.updating)
  }

  ghost predicate Committed(dev: Device, x: Identity) {
    dev.identity == x.nextId && dev.fence == x.intended
  }

  ghost predicate IdentityInv(g: Globals, dev: Device, x: Identity, ip: IdentityPoint) {
    var r := IdentityRights(x, ip);
    && IdentityHas(x)
    && (r.owns ==> Claimed(dev, x))
    && (r.control ==> Held(g.controlLatch, x.control))
    && (r.latch ==> Held(dev.latch, x.latch))
    && (r.restores ==> dev.word.state.Closed? || Agrees(dev))
    && (ip.IClaim? ==> x.open.state.Open? && x.open.tag == 0)
    && (ip.IControlTake? ==> !Odd(x.control) && x.control <= g.controlLatch)
    && (ip.IFenceTake? ==> !Odd(x.latch) && x.latch <= dev.latch)
    && (ip.IWriteGeneration? || ip.IWriteFence? ==> dev.identity == x.nextId)
    && (ip.IWriteFence? ==> ip.k < FENCE_WORDS && Prefix(dev.fence, x.intended, ip.k))
    && (ip.ITelemetryRelease? || ip.IFenceRelease? ==> Committed(dev, x))
    && (ip.IControlRelease? || ip.IReopen? ==> dev.word.state.Closed? || Committed(dev, x))
  }

  /** The reader's first view load was open, and the view is still that word if it is open at all. */
  ghost predicate ViewSeen(g: Globals, r: Reader) {
    r.viewBefore.state.ViewOpen? && (g.view.state.ViewOpen? ==> g.view == r.viewBefore)
  }

  ghost predicate LatchSeen(g: Globals, r: Reader) {
    !Odd(r.control) && r.control <= g.controlLatch
  }

  /** The control words were open and still are unless the control latch has moved. */
  ghost predicate ControlSeen(g: Globals, r: Reader) {
    && LatchSeen(g, r) && r.gate == GATE_OPEN && r.terminal == 0
    && (g.controlLatch == r.control ==> g.gate == r.gate && g.terminal == r.terminal)
  }

  ghost predicate Unchanged(dev: Device, r: Reader) {
    dev.fence == r.at.device.fence && dev.identity == r.at.device.identity
  }

  /** What the first device load tells about the view and control words at that moment. */
  ghost predicate GlobalsJudged(g: Globals, r: Reader) {
    && ViewSeen(g, r) && ControlSeen(g, r)
    && (g.view.state.ViewOpen? ==> r.at.globals.view == g.view)
    && r.control <= r.at.globals.controlLatch <= g.controlLatch
    && (g.controlLatch == r.control ==> r.at.globals.gate == g.gate && r.at.globals.terminal == g.terminal)
  }

  /** What it tells about the device; `seen` once a stable fence has been read. */
  ghost predicate DeviceJudged(dev: Device, r: Reader, seen: bool) {
    && r.before.state.Open? && r.before.tag == 0 && r.at.device.word == r.before && DeviceInv(r.at.device)
    && (dev.word.state.Closed? || dev.word.generation > r.before.generation || dev.word == r.before)
    && (dev.word == r.before ==> Good(dev, r, seen))
  }

  /** The device still shows what the reader saw at its first load. */
  ghost predicate Good(dev: Device, r: Reader, seen: bool) {
    Unchanged(dev, r) && (seen ==> r.fence == r.at.device.fence)
  }

  ghost predicate FenceChecked(r: Reader) {
    |r.fence| == FENCE_WORDS && r.fence[IDENTITY] == r.handle.identity && r.fence[STATE] == ONLINE
  }

  /** A fence copy in progress. */
  ghost predicate Partial(dev: Device, r: Reader) {
    && !Odd(r.fenceLatch) && r.fenceLatch <= dev.latch
    && (dev.latch == r.fenceLatch ==> Prefix(r.fence, dev.fence, |r.fence|))
  }

  /** What a successful validation guarantees about the moment of its first device load. */
  ghost predicate ValidatedAt(r: Reader) {
    && r.at.globals.view.state.ViewOpen? && ControlAt(r)
    && r.at.device.word.state.Open?
    && r.fence == r.at.device.fence && FenceChecked(r) && r.at.device.identity == r.handle.identity
  }

  ghost predicate ControlAt(r: Reader) {
    r.at.globals.gate == GATE_OPEN && r.at.globals.terminal == 0
  }

  predicate JudgingPoint(rp: ReaderPoint) {
    rp.RFenceFirst? || rp.RFenceField? || rp.RFenceSecond? || SeenPoint(rp)
  }

  predicate SeenPoint(rp: ReaderPoint) {
    rp.RViewAfter? || rp.RControlAfter? || rp.RDeviceAfter?
  }

  ghost predicate ReaderGlobals(g: Globals, r: Reader, rp: ReaderPoint) {
    match rp
    case RView => true
    case RControlFirst(_) => ViewSeen(g, r)
    case RControlGate(_) => ViewSeen(g, r) && LatchSeen(g, r)
    case RControlTerminal(_) => ViewSeen(g, r) && LatchSeen(g, r) && (g.controlLatch == r.control ==> g.gate == r.gate)
    case RControlSecond(_) =>
      && ViewSeen(g, r) && LatchSeen(g, r)
      && (g.controlLatch == r.control ==> g.gate == r.gate && g.terminal == r.terminal)
    case RDevice => ViewSeen(g, r) && ControlSeen(g, r)
    case RControlAfter(same) => GlobalsJudged(g, r) && (same ==> r.at.globals.view.state.ViewOpen?)
    case RDeviceAfter(same) => GlobalsJudged(g, r) && (same ==> r.at.globals.view.state.ViewOpen? && ControlAt(r))
    case _ => GlobalsJudged(g, r)
  }

  ghost predicate ReaderDevice(dev: Device, r: Reader, rp: ReaderPoint) {
    JudgingPoint(rp) ==>
      && DeviceJudged(dev, r, SeenPoint(rp))
      && (rp.RFenceField? || rp.RFenceSecond? ==> Partial(dev, r))
      && (rp.RFenceField? ==> |r.fence| < FENCE_WORDS)
      && (SeenPoint(rp) ==> FenceChecked(r))
  }

  ghost predicate ReaderInv(g: Globals, dev: Device, now: nat, r: Reader, rp: ReaderPoint) {
    r.start <= now && (JudgingPoint(rp) ==> r.start <= r.at.time < now) && ReaderGlobals(g, r, rp)
        && ReaderDevice(dev, r, rp)
  }

  ghost predicate CloserInv(g: Globals, cp: CloserPoint) {
    match cp
    case CDeviceLoad(_) => !g.view.state.ViewOpen?
    case CDeviceClose(_, _) => !g.view.state.ViewOpen?
    case CControlLoad => !g.view.state.ViewOpen?
    case CControlTake(even) => !g.view.state.ViewOpen? && !Odd(even)
    case CGate(even) => !g.view.state.ViewOpen? && Held(g.controlLatch, even)
    case CTerminal(even) => !g.view.state.ViewOpen? && Held(g.controlLatch, even)
    case CControlRelease(even) => !g.view.state.ViewOpen? && Held(g.controlLatch, even)
    case CFinish => !g.view.state.ViewOpen?
    case CQuarantine => !g.view.state.ViewOpen?
    case _ => true
  }

  ghost predicate Local(g: Globals, dev: Device, now: nat, pc: Pc) {
    match pc
    case Finding(_, start, _) => start <= now
    case Matching(_, start, _) => start <= now
    case Reading(r, rp) => ReaderInv(g, dev, now, r, rp)
    case Validated(r) => r.start <= r.at.time < now && ValidatedAt(r)
    case Claiming(_, _, intended) => |intended| == FENCE_WORDS && intended[STATE] == ONLINE
    case Marking(_, _, _, mp) => MarkInv(dev, mp)
    case Writing(w, wp) => WriterInv(dev, w, wp)
    case Replacing(x, ip) => IdentityInv(g, dev, x, ip)
    case Closing(cp) => CloserInv(g, cp)
    case _ => true
  }

  // ---- What one step may change ----

  ghost predicate SamePayload(dev: Device, dev2: Device) {
    dev2.fence == dev.fence && dev2.identity == dev.identity
  }

  ghost predicate ControlMoves(g: Globals, r: Rights, g2: Globals, r2: Rights) {
    && (g2.view == g.view || !g2.view.state.ViewOpen?)
    && if g2.controlLatch == g.controlLatch
       then r2.control == r.control && (r.control || (g2.gate == g.gate && g2.terminal == g.terminal))
       else && g2.controlLatch == g.controlLatch + 1 && g2.gate == g.gate && g2.terminal == g.terminal
            && r2.control == !r.control && (r2.control ==> !Odd(g.controlLatch))
  }

  ghost predicate PayloadMoves(dev: Device, r: Rights, dev2: Device, r2: Rights) {
    && (if dev2.latch == dev.latch then r2.latch == r.latch && (r.latch || SamePayload(dev, dev2))
        else && dev2.latch == dev.latch + 1 && SamePayload(dev, dev2)
             && r2.latch == !r.latch && (r2.latch ==> !Odd(dev.latch)))
    && (SamePayload(dev, dev2) || dev.word.state.Closed? || (r.owns && !r.restores && dev.word == r.owned))
  }

  ghost predicate WordMoves(dev: Device, r: Rights, dev2: Device, r2: Rights) {
    || (dev2.word == dev.word && (r2.owns ==> r.owns && r2.owned == r.owned)
        && (r2.restores ==> r.restores && r2.open == r.open))
    || (dev2.word.state.Closed? && !r2.owns && !r2.restores)
    || (!r.owns && r2.owns && dev.word.state.Open? && dev2.word == r2.owned && r2.owned.state.Updating?
        && r2.owned.generation == dev.word.generation + 1 && (r2.restores ==> r2.open == dev.word))
    || (r.owns && !r2.owns && !r2.restores && dev.word == r.owned && dev2.word == Reopened(r.owned))
    || (r.owns && r.restores && !r2.owns && !r2.restores && dev.word == r.owned && dev2.word == r.open)
  }

  /** One step from rights `r` to rights `r2`. */
  ghost predicate Moves(g: Globals, dev: Device, r: Rights, g2: Globals, dev2: Device, r2: Rights) {
    && ControlMoves(g, r, g2, r2) && PayloadMoves(dev, r, dev2, r2) && WordMoves(dev, r, dev2, r2)
    && (dev.word.state.Closed? ==> dev2.word.state.Closed?)
    && (r.control ==> Odd(g.controlLatch)) && (r.latch ==> Odd(dev.latch)) && (r.owns ==> Owned(dev, r.owned))
    && (r2.restores ==> r2.owns)
    && (r.restores ==> r.owns && r.open.state.Open? && r.open.tag == 0 && r.owned.generation == r.open.generation + 1)
  }

  // ---- Every step keeps the device, its own knowledge, and moves only within its rights ----

  ghost predicate Keeps(g: Globals, dev: Device, now: nat, r: Rights, e: Effect) {
    DeviceInv(e.dev) && Local(e.g, e.dev, now + 1, e.pc) && Moves(g, dev, r, e.g, e.dev, RightsOf(e.pc))
  }

  lemma {:induction false} ReaderLooks(g: Globals, dev: Device, now: nat, r: Reader, rp: ReaderPoint)
    requires DeviceInv(dev) && ReaderInv(g, dev, now, r, rp) && !JudgingPoint(rp)
    ensures Local(g, dev, now + 1, ReaderStep(g, dev, now, r, rp))
  {
  }

  lemma {:induction false} ReaderJudges(g: Globals, dev: Device, now: nat, r: Reader, rp: ReaderPoint)
    requires DeviceInv(dev) && ReaderInv(g, dev, now, r, rp) && JudgingPoint(rp)
    ensures Local(g, dev, now + 1, ReaderStep(g, dev, now, r, rp))
  {
  }

  lemma {:induction false} ReaderStepKeeps(g: Globals, dev: Device, now: nat, r: Reader, rp: ReaderPoint)
    requires DeviceInv(dev) && ReaderInv(g, dev, now, r, rp)
    ensures Local(g, dev, now + 1, ReaderStep(g, dev, now, r, rp))
    ensures RightsOf(ReaderStep(g, dev, now, r, rp)) == NO_RIGHTS
  {
    hide ReaderInv, Local, DeviceInv, JudgingPoint;
    if JudgingPoint(rp) { ReaderJudges(g, dev, now, r, rp); } else { ReaderLooks(g, dev, now, r, rp); }
  }

  lemma {:induction false} MarkStepKeeps(g: Globals, dev: Device, now: nat, d: nat, sequence: nat, epoch: nat,
                                         mp: MarkPoint)
    requires DeviceInv(dev) && MarkInv(dev, mp)
    ensures
      var (dev2, pc2) := MarkStep(dev, d, sequence, epoch, mp);
      Keeps(g, dev, now, NO_RIGHTS, Effect(g, dev2, pc2))
  {
  }

  lemma {:induction false} WriterStepKeeps(g: Globals, dev: Device, now: nat, w: Writer, wp: WriterPoint)
    requires DeviceInv(dev) && WriterInv(dev, w, wp)
    ensures
      var (dev2, pc2) := WriterStep(dev, w, wp);
      Keeps(g, dev, now, RightsOf(Writing(w, wp)), Effect(g, dev2, pc2))
  {
  }

  lemma {:induction false} IdentityCheckKeeps(g: Globals, dev: Device, now: nat, x: Identity, ip: IdentityPoint)
    requires DeviceInv(dev) && IdentityInv(g, dev, x, ip) && Checking(ip)
    ensures Keeps(g, dev, now, NO_RIGHTS, Effect(g, dev, IdentityCheck(g, dev, x, ip)))
  {
  }

  lemma {:induction false} IdentityClaimKnows(g: Globals, dev: Device, now: nat, x: Identity, ip: IdentityPoint)
    requires DeviceInv(dev) && IdentityInv(g, dev, x, ip) && Claims(ip)
    ensures
      var e := IdentityClaim(g, dev, x, ip);
      DeviceInv(e.dev) && Local(e.g, e.dev, now + 1, e.pc)
  {
  }

  lemma {:induction false} IdentityClaimMoves(g: Globals, dev: Device, x: Identity, ip: IdentityPoint)
    requires DeviceInv(dev) && IdentityInv(g, dev, x, ip) && Claims(ip)
    ensures
      var e := IdentityClaim(g, dev, x, ip);
      Moves(g, dev, IdentityRights(x, ip), e.g, e.dev, RightsOf(e.pc))
  {
  }

  lemma {:induction false} IdentityTakeKnows(g: Globals, dev: Device, now: nat, x: Identity, ip: IdentityPoint)
    requires DeviceInv(dev) && IdentityInv(g, dev, x, ip) && Takes(ip)
    ensures
      var e := IdentityTake(g, dev, x, ip);
      DeviceInv(e.dev) && Local(e.g, e.dev, now + 1, e.pc)
  {
  }

  lemma {:induction false} IdentityTakesFence(g: Globals, dev: Device, x: Identity, ip: IdentityPoint)
    requires DeviceInv(dev) && IdentityInv(g, dev, x, ip) && (ip.IFenceLoad? || ip.IFenceTake?)
    ensures
      var e := IdentityTake(g, dev, x, ip);
      Moves(g, dev, IdentityRights(x, ip), e.g, e.dev, RightsOf(e.pc))
  {
  }

  lemma {:induction false} IdentityTakesTelemetry(g: Globals, dev: Device, x: Identity, ip: IdentityPoint)
    requires DeviceInv(dev) && IdentityInv(g, dev, x, ip) && (ip.ITelemetryLoad? || ip.ITelemetryTake?)
    ensures
      var e := IdentityTake(g, dev, x, ip);
      Moves(g, dev, IdentityRights(x, ip), e.g, e.dev, RightsOf(e.pc))
  {
  }

  lemma {:induction false} IdentityTakeMoves(g: Globals, dev: Device, x: Identity, ip: IdentityPoint)
    requires DeviceInv(dev) && IdentityInv(g, dev, x, ip) && Takes(ip)
    ensures
      var e := IdentityTake(g, dev, x, ip);
      Moves(g, dev, IdentityRights(x, ip), e.g, e.dev, RightsOf(e.pc))
  {
    hide IdentityInv, DeviceInv, Moves, IdentityTake;
    if ip.IFenceLoad? || ip.IFenceTake? { IdentityTakesFence(g, dev, x, ip); } else {
      IdentityTakesTelemetry(g, dev, x, ip);
    }
  }

  lemma {:induction false} IdentityUndoKnows(g: Globals, dev: Device, now: nat, x: Identity, ip: IdentityPoint)
    requires DeviceInv(dev) && IdentityInv(g, dev, x, ip) && Undoing(ip)
    ensures
      var e := IdentityUndo(g, dev, x, ip);
      DeviceInv(e.dev) && Local(e.g, e.dev, now + 1, e.pc)
  {
  }

  lemma {:induction false} IdentityUndoMoves(g: Globals, dev: Device, x: Identity, ip: IdentityPoint)
    requires DeviceInv(dev) && IdentityInv(g, dev, x, ip) && Undoing(ip)
    ensures
      var e := IdentityUndo(g, dev, x, ip);
      Moves(g, dev, IdentityRights(x, ip), e.g, e.dev, RightsOf(e.pc))
  {
  }

  lemma {:induction false} IdentityWriteKnows(g: Globals, dev: Device, now: nat, x: Identity, ip: IdentityPoint)
    requires DeviceInv(dev) && IdentityInv(g, dev, x, ip) && Committing(ip)
    ensures
      var e := IdentityWrite(g, dev, x, ip);
      DeviceInv(e.dev) && Local(e.g, e.dev, now + 1, e.pc)
  {
  }

  lemma {:induction false} IdentityWriteMoves(g: Globals, dev: Device, x: Identity, ip: IdentityPoint)
    requires DeviceInv(dev) && IdentityInv(g, dev, x, ip) && Committing(ip)
    ensures
      var e := IdentityWrite(g, dev, x, ip);
      Moves(g, dev, IdentityRights(x, ip), e.g, e.dev, RightsOf(e.pc))
  {
  }

  lemma {:induction false} CloseStepKeeps(g: Globals, dev: Device, count: nat, now: nat, cp: CloserPoint)
    requires DeviceInv(dev) && CloserInv(g, cp)
    ensures Keeps(g, dev, now, RightsOf(Closing(cp)), CloseStep(g, dev, count, cp))
  {
  }

  // ---- Two actors ----

  /** A reader whose word a publisher may still restore keeps a true picture of the device. */
  ghost predicate SeesRestorable(dev: Device, pc: Pc, r: Rights) {
    pc.Reading? && JudgingPoint(pc.rp) && r.restores && r.open == pc.r.before && dev.word == r.owned
    ==> Good(dev, pc.r, SeenPoint(pc.rp))
  }

  ghost predicate Excludes(dev: Device, a: Rights, b: Rights) {
    !(a.control && b.control) && !(a.latch && b.latch) && (a.owns && b.owns ==> dev.word.state.Closed?)
  }

  lemma {:induction false} ExclusionKept(g: Globals, dev: Device, a: Rights, g2: Globals, dev2: Device, a2: Rights,
                                         now: nat, pc: Pc)
    requires Moves(g, dev, a, g2, dev2, a2) && Local(g, dev, now, pc) && Excludes(dev, a, RightsOf(pc))
    ensures Excludes(dev2, a2, RightsOf(pc))
  {
  }

  lemma {:induction false} ReaderUndisturbed(g: Globals, dev: Device, a: Rights, g2: Globals, dev2: Device, a2: Rights,
                                             now: nat, pc: Pc)
    requires Moves(g, dev, a, g2, dev2, a2) && pc.Reading? && Local(g, dev, now, pc)
    requires SeesRestorable(dev, pc, a)
    ensures Local(g2, dev2, now + 1, pc) && SeesRestorable(dev2, pc, a2)
  {
  }

  lemma {:induction false} OtherUndisturbed(g: Globals, dev: Device, a: Rights, g2: Globals, dev2: Device, a2: Rights,
                                            now: nat, pc: Pc)
    requires Moves(g, dev, a, g2, dev2, a2) && !pc.Reading? && Local(g, dev, now, pc) && Excludes(dev, a, RightsOf(pc))
    requires DeviceInv(dev) && DeviceInv(dev2)
    ensures Local(g2, dev2, now + 1, pc)
  {
  }
}
