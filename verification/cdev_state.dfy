// Reference counting of the cdev queue and payload (linux-kernel-drivers/core/metaflux_core_main.c).
//
// One step is one critical section of the driver's mutex.  An ioctl whose last copy to user space may
// fail is two or three steps; the files in the middle of one are in `creating`, `leasing` or
// `allocating`.  The kernel does not release a file during its own ioctl, keeps a file open while it
// is mapped, and unloads the module only when no file is open.
module CdevState {

  datatype Option<T> = None | Some(value: T)

  /** Counts are integers, so that a put too many would show as a negative one. */
  datatype Queue = Queue(refs: int, mapped: bool, online: bool, root: bool, owner: Option<nat>, lease: Option<nat>,
                         events: Option<nat>, vmas: nat)
  datatype Payload = Payload(refs: int, mapped: bool, online: bool, root: bool, ownerRef: bool, owner: Option<nat>,
                             vmas: nat)
  datatype File = File(control: bool, negotiated: bool, created: bool, leased: bool, hasMemory: bool)

  datatype Driver = Driver(queue: Queue, payload: Payload, files: map<nat, File>, waits: nat, creating: set<nat>,
                           leasing: set<nat>, allocating: Option<nat>)

  /** After module initialisation. */
  predicate Initial(d: Driver) {
    d == Driver(Queue(1, true, true, true, None, None, None, 0), Payload(0, false, false, false, false, None, 0), map[],
                0, {}, {}, None)
  }

  // ---- kref_get and kref_put ----

  function GetQueue(q: Queue): Queue { q.(refs := q.refs + 1) }

  /** The last put frees the mapping. */
  function PutQueue(q: Queue): Queue { if q.refs == 1 then q.(refs := 0, mapped := false) else q.(refs := q.refs - 1) }

  function GetPayload(p: Payload): Payload { p.(refs := p.refs + 1) }

  function PutPayload(p: Payload): Payload {
    if p.refs == 1 then p.(refs := 0, mapped := false) else p.(refs := p.refs - 1)
  }

  function PayloadOffline(p: Payload): Payload {
    if !p.online then p
    else
      var q := p.(online := false);
      if q.root then PutPayload(q.(root := false)) else q
  }

  function QueueOffline(q: Queue): Queue {
    if !q.online then q
    else
      var r := q.(online := false);
      if r.root then PutQueue(r.(root := false)) else r
  }

  /** Give up the payload's owner, its root reference and its owner reference. */
  function DisownPayload(p: Payload): Payload {
    var q := PayloadOffline(p.(owner := None));
    if q.ownerRef then PutPayload(q.(ownerRef := false)) else q
  }

  function WithFile(d: Driver, f: nat, file: File): Driver { d.(files := d.files[f := file]) }

  // ---- Critical sections ----

  datatype Step =
    | Open(f: nat, control: bool)
    | Negotiate(f: nat)
    | CreateQueue(f: nat, events: bool)
    | CreateReturns(f: nat, copied: bool)
    | Lease(f: nat, events: bool)
    | LeaseReturns(f: nat, copied: bool)
    | WaitBegins(f: nat)
    | WaitEnds
    | Allocate(f: nat)
    | AllocateReturns(copied: bool)
    | MapQueue(f: nat, remapped: bool)
    | MapPayload(f: nat, remapped: bool)
    | QueueVmaOpens
    | QueueVmaCloses
    | PayloadVmaOpens
    | PayloadVmaCloses
    | Poll(f: nat)
    | Release(f: nat)
    | Exit

  predicate Busy(d: Driver, f: nat) { f in d.creating || f in d.leasing || d.allocating == Some(f) }

  /** What the kernel guarantees about when a section runs. */
  predicate Enabled(d: Driver, step: Step) {
    match step
    case Open(f, _) => f !in d.files
    case Negotiate(f) => f in d.files
    case CreateQueue(f, _) => f in d.files
    case CreateReturns(f, _) => f in d.creating
    case Lease(f, _) => f in d.files
    case LeaseReturns(f, _) => f in d.leasing
    case WaitBegins(f) => f in d.files
    case WaitEnds => d.waits > 0
    case Allocate(f) => f in d.files
    case AllocateReturns(_) => d.allocating.Some?
    case MapQueue(f, _) => f in d.files
    case MapPayload(f, _) => f in d.files
    case QueueVmaOpens => d.queue.vmas > 0
    case QueueVmaCloses => d.queue.vmas > 0
    case PayloadVmaOpens => d.payload.vmas > 0
    case PayloadVmaCloses => d.payload.vmas > 0
    case Poll(f) => f in d.files
    case Release(f) => f in d.files && !Busy(d, f)
    case Exit => d.files == map[] && d.queue.vmas == 0 && d.payload.vmas == 0
  }

  predicate TakenByOther(holder: Option<nat>, f: nat) { holder.Some? && holder.value != f }

  function CreateStep(d: Driver, f: nat, events: bool): Driver
    requires f in d.files
  {
    var file, q := d.files[f], d.queue;
    if !file.negotiated || file.created || !q.online || TakenByOther(q.owner, f) || q.events.Some? then d
    else
      WithFile(d.(queue := GetQueue(q.(owner := Some(f), events := if events then Some(f) else q.events)),
                  creating := d.creating + {f}),
               f, file.(created := true))
  }

  function CreateReturnStep(d: Driver, f: nat, copied: bool): Driver {
    var done := d.(creating := d.creating - {f});
    if copied || f !in d.files then done
    else
      var q := d.queue.(owner := if d.queue.owner == Some(f) then None else d.queue.owner,
                        events := if d.queue.events == Some(f) then None else d.queue.events);
      WithFile(done.(queue := PutQueue(q)), f, d.files[f].(created := false))
  }

  predicate MayLease(d: Driver, f: nat)
    requires f in d.files
  {
    && d.files[f].control && !d.files[f].leased && d.queue.online
    && !TakenByOther(d.queue.lease, f) && !TakenByOther(d.queue.events, f)
  }

  function LeaseStep(d: Driver, f: nat, events: bool): Driver
    requires f in d.files
  {
    var file, q := d.files[f], d.queue;
    if !MayLease(d, f) then d
    else
      WithFile(d.(queue := GetQueue(q.(lease := Some(f), events := if events then Some(f) else q.events)),
                  leasing := d.leasing + {f}),
               f, file.(leased := true))
  }

  function LeaseReturnStep(d: Driver, f: nat, copied: bool): Driver {
    var done := d.(leasing := d.leasing - {f});
    if copied || f !in d.files then done
    else
      var q := d.queue.(lease := if d.queue.lease == Some(f) then None else d.queue.lease,
                        events := if d.queue.events == Some(f) then None else d.queue.events);
      WithFile(done.(queue := PutQueue(q)), f, d.files[f].(leased := false))
  }

  /** kref_init, a root, an owner and an operation reference. */
  function AllocateStep(d: Driver, f: nat): Driver
    requires f in d.files
  {
    var file := d.files[f];
    if file.control || !file.negotiated || !d.queue.online || d.payload.online || d.payload.mapped then d
    else
      WithFile(d.(payload := Payload(3, true, true, true, true, Some(f), 0), allocating := Some(f)), f,
               file.(hasMemory := true))
  }

  function AllocateReturnStep(d: Driver, copied: bool): Driver
    requires d.allocating.Some?
  {
    var f := d.allocating.value;
    if copied || f !in d.files || d.payload.owner != Some(f) then
      d.(payload := PutPayload(d.payload), allocating := None)
    else
      WithFile(d.(payload := PutPayload(DisownPayload(d.payload)), allocating := None), f,
               d.files[f].(hasMemory := false))
  }

  function MapQueueStep(d: Driver, f: nat, remapped: bool): Driver
    requires f in d.files
  {
    var file, q := d.files[f], d.queue;
    if (!file.created && !file.leased) || !q.online || !q.mapped then d
    else if remapped then d.(queue := GetQueue(q.(vmas := q.vmas + 1)))
    else d.(queue := PutQueue(GetQueue(q)))
  }

  function MapPayloadStep(d: Driver, f: nat, remapped: bool): Driver
    requires f in d.files
  {
    var file, p := d.files[f], d.payload;
    if !p.online || !p.mapped || p.owner.None? || (p.owner != Some(f) && !(file.control && file.leased)) then d
    else if remapped then d.(payload := GetPayload(p.(vmas := p.vmas + 1)))
    else d.(payload := PutPayload(GetPayload(p)))
  }

  function UncreateQueue(q: Queue, f: nat): Queue {
    PutQueue(q.(owner := if q.owner == Some(f) then None else q.owner))
  }

  function UnleaseQueue(q: Queue, f: nat): Queue { PutQueue(q.(lease := if q.lease == Some(f) then None else q.lease)) }

  function ReleaseStep(d: Driver, f: nat): Driver
    requires f in d.files
  {
    var q1 := if d.files[f].created then UncreateQueue(d.queue, f) else d.queue;
    var q2 := if d.files[f].leased then UnleaseQueue(q1, f) else q1;
    var q3 := if q2.events == Some(f) then q2.(events := None) else q2;
    d.(queue := q3, payload := if d.payload.owner == Some(f) then DisownPayload(d.payload) else d.payload,
       files := d.files - {f})
  }

  function ExitStep(d: Driver): Driver {
    var q0 := QueueOffline(d.queue);
    var q1 := if q0.owner.Some? then PutQueue(q0.(owner := None)) else q0;
    var q2 := if q1.lease.Some? then PutQueue(q1.(lease := None)) else q1;
    var p := PayloadOffline(d.payload);
    d.(queue := q2.(events := None),
       payload := if p.owner.None? then p
                  else if p.ownerRef then PutPayload(p.(owner := None, ownerRef := false)) else p.(owner := None))
  }

  function Apply(d: Driver, step: Step): Driver
    requires Enabled(d, step)
  {
    match step
    case Open(f, control) => WithFile(d, f, File(control, false, false, false, false))
    case Negotiate(f) => if d.queue.online then WithFile(d, f, d.files[f].(negotiated := true)) else d
    case CreateQueue(f, events) => CreateStep(d, f, events)
    case CreateReturns(f, copied) => CreateReturnStep(d, f, copied)
    case Lease(f, events) => LeaseStep(d, f, events)
    case LeaseReturns(f, copied) => LeaseReturnStep(d, f, copied)
    case WaitBegins(f) =>
      if !d.files[f].created || !d.queue.mapped then d else d.(queue := GetQueue(d.queue), waits := d.waits + 1)
    case WaitEnds => d.(queue := PutQueue(d.queue), waits := d.waits - 1)
    case Allocate(f) => AllocateStep(d, f)
    case AllocateReturns(copied) => AllocateReturnStep(d, copied)
    case MapQueue(f, remapped) => MapQueueStep(d, f, remapped)
    case MapPayload(f, remapped) => MapPayloadStep(d, f, remapped)
    case QueueVmaOpens => d.(queue := GetQueue(d.queue.(vmas := d.queue.vmas + 1)))
    case QueueVmaCloses => d.(queue := PutQueue(d.queue.(vmas := d.queue.vmas - 1)))
    case PayloadVmaOpens => d.(payload := GetPayload(d.payload.(vmas := d.payload.vmas + 1)))
    case PayloadVmaCloses => d.(payload := PutPayload(d.payload.(vmas := d.payload.vmas - 1)))
    case Poll(f) =>
      if d.files[f].control || !d.files[f].created || !d.queue.online || !d.queue.mapped then d
      else d.(queue := PutQueue(GetQueue(d.queue)))
    case Release(f) => ReleaseStep(d, f)
    case Exit => ExitStep(d)
  }

  // ---- What every reachable state satisfies ----

  function Bit(b: bool): nat { if b then 1 else 0 }

  /** Root, creator, lease, mappings and waits in flight. */
  function QueueHolders(q: Queue, waits: nat): nat {
    Bit(q.root) + Bit(q.owner.Some?) + Bit(q.lease.Some?) + q.vmas + waits
  }

  /** Root, owner, mappings and the allocation in flight. */
  function PayloadHolders(p: Payload, allocating: bool): nat {
    Bit(p.root) + Bit(p.ownerRef) + p.vmas + Bit(allocating)
  }

  /** The count is the number of holders, and the mapping lives exactly while there is one. */
  ghost predicate QueueInv(q: Queue, waits: nat) {
    q.refs == QueueHolders(q, waits) && (q.mapped <==> QueueHolders(q, waits) > 0) && (q.online <==> q.root)
  }

  ghost predicate PayloadInv(p: Payload, allocating: bool) {
    && p.refs == PayloadHolders(p, allocating) && (p.mapped <==> PayloadHolders(p, allocating) > 0)
    && (p.online <==> p.root) && (p.ownerRef <==> p.owner.Some?) && (p.root ==> p.ownerRef)
  }

  /** The holder of a right is the one file whose flag says so. */
  ghost predicate CreatorInv(files: map<nat, File>, owner: Option<nat>, creating: set<nat>) {
    && (forall f :: f in files ==> (files[f].created <==> owner == Some(f))) && (owner.Some? ==> owner.value in files)
    && (forall f :: f in creating ==> f in files && files[f].created)
  }

  ghost predicate LeaseInv(files: map<nat, File>, lease: Option<nat>, leasing: set<nat>) {
    && (forall f :: f in files ==> (files[f].leased <==> lease == Some(f))) && (lease.Some? ==> lease.value in files)
    && (forall f :: f in leasing ==> f in files && files[f].leased)
  }

  ghost predicate OwnerInv(files: map<nat, File>, owner: Option<nat>, allocating: Option<nat>) {
    && (forall f :: f in files ==> (files[f].hasMemory <==> owner == Some(f)))
    && (owner.Some? ==> owner.value in files) && (allocating.Some? ==> owner == allocating)
  }

  ghost predicate Inv(d: Driver) {
    && QueueInv(d.queue, d.waits) && PayloadInv(d.payload, d.allocating.Some?)
    && CreatorInv(d.files, d.queue.owner, d.creating) && LeaseInv(d.files, d.queue.lease, d.leasing)
    && OwnerInv(d.files, d.payload.owner, d.allocating)
  }

  lemma {:induction false} CreateKeeps(d: Driver, f: nat, events: bool)
    requires Inv(d) && f in d.files
    ensures Inv(CreateStep(d, f, events))
  {
    hide PayloadInv;
  }

  lemma {:induction false} CreateReturnKeeps(d: Driver, f: nat, copied: bool)
    requires Inv(d) && f in d.creating
    ensures Inv(CreateReturnStep(d, f, copied))
  {
    hide PayloadInv;
  }

  lemma {:induction false} LeaseKeeps(d: Driver, f: nat, events: bool)
    requires Inv(d) && f in d.files
    ensures Inv(LeaseStep(d, f, events))
  {
    hide PayloadInv;
  }

  lemma {:induction false} LeaseReturnKeeps(d: Driver, f: nat, copied: bool)
    requires Inv(d) && f in d.leasing
    ensures Inv(LeaseReturnStep(d, f, copied))
  {
    hide PayloadInv;
  }

  lemma {:induction false} AllocateKeeps(d: Driver, f: nat)
    requires Inv(d) && f in d.files
    ensures Inv(AllocateStep(d, f))
  {
    hide QueueInv;
  }

  lemma {:induction false} AllocateReturnKeeps(d: Driver, copied: bool)
    requires Inv(d) && d.allocating.Some?
    ensures Inv(AllocateReturnStep(d, copied))
  {
    hide QueueInv;
  }

  /** One holder fewer, one put. */
  lemma {:induction false} PutQueueSettles(q: Queue, waits: nat)
    requires q.refs == QueueHolders(q, waits) + 1 && q.mapped && (q.online <==> q.root)
    ensures QueueInv(PutQueue(q), waits)
  {
    hide QueueHolders;
    assert QueueHolders(PutQueue(q), waits) == QueueHolders(q, waits) by { SameHolders(q, waits); }
  }

  lemma {:induction false} SameHolders(q: Queue, waits: nat)
    ensures QueueHolders(PutQueue(q), waits) == QueueHolders(q, waits)
  {
  }

  lemma {:induction false} UncreateSettles(q: Queue, waits: nat, f: nat)
    requires QueueInv(q, waits) && q.owner == Some(f)
    ensures QueueInv(UncreateQueue(q, f), waits) && UncreateQueue(q, f).owner == None
    ensures UncreateQueue(q, f).lease == q.lease
  {
    PutQueueSettles(q.(owner := None), waits);
  }

  lemma {:induction false} UnleaseSettles(q: Queue, waits: nat, f: nat)
    requires QueueInv(q, waits) && q.lease == Some(f)
    ensures QueueInv(UnleaseQueue(q, f), waits) && UnleaseQueue(q, f).lease == None
    ensures UnleaseQueue(q, f).owner == q.owner
  {
    PutQueueSettles(q.(lease := None), waits);
  }

  lemma {:induction false} EventsAside(q: Queue, waits: nat, events: Option<nat>)
    requires QueueInv(q, waits)
    ensures QueueInv(q.(events := events), waits)
  {
  }

  lemma {:induction false} DisownSettles(p: Payload, allocating: bool)
    requires PayloadInv(p, allocating) && p.owner.Some?
    ensures PayloadInv(DisownPayload(p), allocating) && DisownPayload(p).owner == None
  {
  }

  lemma {:induction false} ReleaseKeeps(d: Driver, f: nat)
    requires Inv(d) && f in d.files && !Busy(d, f)
    ensures Inv(ReleaseStep(d, f))
  {
    hide QueueInv, PayloadInv, UncreateQueue, UnleaseQueue, DisownPayload;
    var q1 := if d.files[f].created then UncreateQueue(d.queue, f) else d.queue;
    var q2 := if d.files[f].leased then UnleaseQueue(q1, f) else q1;
    if d.files[f].created { UncreateSettles(d.queue, d.waits, f); }
    if d.files[f].leased { UnleaseSettles(q1, d.waits, f); }
    EventsAside(q2, d.waits, None);
    if d.payload.owner == Some(f) { DisownSettles(d.payload, d.allocating.Some?); }
  }

  lemma {:induction false} OfflineSettles(q: Queue, waits: nat)
    requires QueueInv(q, waits)
    ensures QueueInv(QueueOffline(q), waits) && QueueOffline(q).owner == q.owner && QueueOffline(q).lease == q.lease
  {
    if q.root { PutQueueSettles(q.(root := false, online := false), waits); }
  }

  lemma {:induction false} UnownedIsOffline(p: Payload, allocating: bool)
    requires PayloadInv(p, allocating) && p.owner == None
    ensures PayloadOffline(p) == p
  {
  }

  /** Unloading: no file is open, so only the root references are left to drop. */
  lemma {:induction false} ExitKeeps(d: Driver)
    requires Inv(d) && Enabled(d, Exit)
    ensures Inv(ExitStep(d))
  {
    hide QueueInv, PayloadInv, QueueOffline, PayloadOffline;
    assert d.queue.owner == None && d.queue.lease == None && d.payload.owner == None;
    OfflineSettles(d.queue, d.waits);
    EventsAside(QueueOffline(d.queue), d.waits, None);
    UnownedIsOffline(d.payload, d.allocating.Some?);
  }

  lemma {:induction false} QueueCountsKept(d: Driver, step: Step)
    requires Inv(d) && Enabled(d, step)
    requires step.WaitBegins? || step.WaitEnds? || step.MapQueue? || step.Poll? || step.QueueVmaOpens?
        || step.QueueVmaCloses?
    ensures Inv(Apply(d, step))
  {
    hide CreatorInv, LeaseInv, OwnerInv, PayloadInv;
    if step.WaitEnds? { PutQueueSettles(d.queue, d.waits - 1); }
    if step.QueueVmaCloses? { PutQueueSettles(d.queue.(vmas := d.queue.vmas - 1), d.waits); }
  }

  lemma {:induction false} PayloadCountsKept(d: Driver, step: Step)
    requires Inv(d) && Enabled(d, step)
    requires step.PayloadVmaOpens? || step.PayloadVmaCloses? || step.MapPayload?
    ensures Inv(Apply(d, step))
  {
    hide CreatorInv, LeaseInv, OwnerInv, QueueInv;
  }

  lemma {:induction false} FileKept(d: Driver, step: Step)
    requires Inv(d) && Enabled(d, step) && (step.Open? || step.Negotiate?)
    ensures Inv(Apply(d, step))
  {
    hide QueueInv, PayloadInv;
  }

  lemma {:induction false} StepKeeps(d: Driver, step: Step)
    requires Inv(d) && Enabled(d, step)
    ensures Inv(Apply(d, step))
  {
    match step
    case CreateQueue(f, events) => CreateKeeps(d, f, events);
    case CreateReturns(f, copied) => CreateReturnKeeps(d, f, copied);
    case Lease(f, events) => LeaseKeeps(d, f, events);
    case LeaseReturns(f, copied) => LeaseReturnKeeps(d, f, copied);
    case Allocate(f) => AllocateKeeps(d, f);
    case AllocateReturns(copied) => AllocateReturnKeeps(d, copied);
    case Release(f) => ReleaseKeeps(d, f);
    case Exit => ExitKeeps(d);
    case Open(_, _) => FileKept(d, step);
    case Negotiate(_) => FileKept(d, step);
    case WaitBegins(_) => QueueCountsKept(d, step);
    case WaitEnds => QueueCountsKept(d, step);
    case MapQueue(_, _) => QueueCountsKept(d, step);
    case Poll(_) => QueueCountsKept(d, step);
    case QueueVmaOpens => QueueCountsKept(d, step);
    case QueueVmaCloses => QueueCountsKept(d, step);
    case _ => PayloadCountsKept(d, step);
    hide Inv, CreateStep, CreateReturnStep, LeaseStep, LeaseReturnStep, AllocateStep, AllocateReturnStep, ReleaseStep,
        ExitStep;
  }

  // ---- What a section undoes ----

  /** A creation whose result could not be delivered leaves no trace. */
  lemma {:induction false} CreateUndone(d: Driver, f: nat, events: bool)
    requires Inv(d) && f in d.files && CreateStep(d, f, events) != d
    ensures CreateReturnStep(CreateStep(d, f, events), f, false) == d
  {
    hide PayloadInv;
    assert d.files[f := d.files[f].(created := true)][f := d.files[f]] == d.files;
    assert d.creating + {f} - {f} == d.creating;
  }

  lemma {:induction false} LeaseChanges(d: Driver, f: nat, events: bool)
    requires f in d.files
    ensures MayLease(d, f) <==> LeaseStep(d, f, events) != d
  {
  }

  /**
   * A lease whose result could not be delivered leaves no trace, unless its file owned the event descriptors
   * before.
   */
  lemma {:induction false} LeaseUndoneIff(d: Driver, f: nat, events: bool)
    requires Inv(d) && f in d.files && LeaseStep(d, f, events) != d
    ensures
      var undone := LeaseReturnStep(LeaseStep(d, f, events), f, false);
      && (undone == d <==> d.queue.events != Some(f))
      && (d.queue.events == Some(f) ==> undone == d.(queue := d.queue.(events := None)))
  {
    hide PayloadInv;
    assert d.files[f := d.files[f].(leased := true)][f := d.files[f]] == d.files;
    assert d.leasing + {f} - {f} == d.leasing;
  }

  const START := Driver(Queue(1, true, true, true, None, None, None, 0), UNHELD, map[], 0, {}, {}, None)
  const CREATOR := File(true, true, true, false, false)
  const CREATED := START.(queue := Queue(2, true, true, true, Some(0), None, Some(0), 0), files := map[0 := CREATOR])

  /** A control file creates the queue with event descriptors. */
  lemma {:induction false} CreatorOwnsEvents()
    ensures Initial(START)
        && Run(START, [Open(0, true), Negotiate(0), CreateQueue(0, true), CreateReturns(0, true)]) == CREATED
  {
    var present := WithFile(START, 0, File(true, false, false, false, false));
    var negotiated := WithFile(present, 0, File(true, true, false, false, false));
    var creating := CREATED.(creating := {0});
    assert negotiated.files[0 := CREATOR] == map[0 := CREATOR] && {0} - {0} == {};
    assert Apply(negotiated, CreateQueue(0, true)) == creating && Apply(creating, CreateReturns(0, true)) == CREATED;
    var rest := [Negotiate(0), CreateQueue(0, true), CreateReturns(0, true)];
    assert [Open(0, true)] + rest == [Open(0, true), Negotiate(0), CreateQueue(0, true), CreateReturns(0, true)];
    hide Apply;
    assert Run(START, [Open(0, true)] + rest) == Run(present, rest);
    assert rest[1..] == [CreateQueue(0, true), CreateReturns(0, true)] && rest[1..][1..] == [CreateReturns(0, true)];
  }

  /**
   * It happens: when that file then takes the lease and the result cannot be delivered, its event descriptors
   * are gone.
   */
  lemma {:induction false} FailedLeaseDropsEvents()
    ensures
      var undone := LeaseReturnStep(LeaseStep(CREATED, 0, false), 0, false);
      CREATED.queue.events == Some(0) && LeaseStep(CREATED, 0, false) != CREATED && undone.queue.events == None
  {
  }

  /** An allocation whose result could not be delivered leaves no trace. */
  lemma {:induction false} AllocateUndone(d: Driver, f: nat)
    requires Inv(d) && f in d.files && AllocateStep(d, f) != d
    ensures AllocateReturnStep(AllocateStep(d, f), false) == d
  {
    hide QueueInv, PayloadInv, DisownPayload;
    assert d.files[f := d.files[f].(hasMemory := true)][f := d.files[f]] == d.files;
    UnmappedIsUnheld(d.payload, d.allocating.Some?);
    AllocationUnwinds(f);
  }

  const UNHELD := Payload(0, false, false, false, false, None, 0)

  lemma {:induction false} UnmappedIsUnheld(p: Payload, allocating: bool)
    requires PayloadInv(p, allocating) && !p.mapped
    ensures p == UNHELD && !allocating
  {
  }

  lemma {:induction false} AllocationUnwinds(f: nat)
    ensures PutPayload(DisownPayload(Payload(3, true, true, true, true, Some(f), 0))) == UNHELD
  {
  }

  /** An allocation finds nobody holding the payload. */
  lemma {:induction false} AllocatesUnheld(d: Driver, f: nat)
    requires Inv(d) && f in d.files && AllocateStep(d, f) != d
    ensures d.payload == UNHELD && d.allocating == None
  {
    hide QueueInv, PayloadInv, CreatorInv, LeaseInv, OwnerInv;
    UnmappedIsUnheld(d.payload, d.allocating.Some?);
  }

  /** After unloading nothing is held but by waits in flight, and what is not held is freed. */
  lemma {:induction false} UnloadFreesAll(d: Driver)
    requires Inv(d) && Enabled(d, Exit)
    ensures
      var e := ExitStep(d);
      && e.queue.refs == d.waits && (e.queue.mapped <==> d.waits > 0)
      && e.payload.refs == 0 && !e.payload.mapped
  {
    hide QueueInv, PayloadInv, QueueOffline, PayloadOffline;
    assert d.queue.owner == None && d.queue.lease == None && d.payload.owner == None && d.allocating == None;
    UnownedIsOffline(d.payload, false);
    UnownedIsUnheld(d.payload);
    OfflineFreesQueue(d.queue, d.waits);
  }

  lemma {:induction false} UnownedIsUnheld(p: Payload)
    requires PayloadInv(p, false) && p.owner == None && p.vmas == 0
    ensures p.refs == 0 && !p.mapped
  {
  }

  lemma {:induction false} OfflineFreesQueue(q: Queue, waits: nat)
    requires QueueInv(q, waits) && q.owner == None && q.lease == None && q.vmas == 0
    ensures QueueOffline(q).refs == waits && (QueueOffline(q).mapped <==> waits > 0)
    ensures QueueOffline(q).owner == None && QueueOffline(q).lease == None
  {
  }

  /** A released file holds nothing. */
  lemma {:induction false} ReleaseForgets(d: Driver, f: nat)
    requires Inv(d) && f in d.files && !Busy(d, f)
    ensures
      var e := ReleaseStep(d, f);
      && e.files == d.files - {f} && e.queue.owner != Some(f) && e.queue.lease != Some(f) && e.queue.events != Some(f)
      && e.payload.owner != Some(f)
  {
  }

  // ---- Runs ----

  /** The driver after a run; sections that cannot run are skipped. */
  function Run(d: Driver, steps: seq<Step>): Driver
    decreases |steps|
  {
    if steps == [] then d else Run(if Enabled(d, steps[0]) then Apply(d, steps[0]) else d, steps[1..])
  }

  lemma {:induction false} RunKeeps(d: Driver, steps: seq<Step>)
    requires Inv(d)
    ensures Inv(Run(d, steps))
    decreases |steps|
  {
    hide Inv, Apply, Enabled;
    if steps != [] {
      if Enabled(d, steps[0]) { StepKeeps(d, steps[0]); }
      RunKeeps(if Enabled(d, steps[0]) then Apply(d, steps[0]) else d, steps[1..]);
    }
  }

  lemma {:induction false} InitialCounts(d: Driver)
    requires Initial(d)
    ensures QueueInv(d.queue, d.waits) && PayloadInv(d.payload, d.allocating.Some?)
  {
  }

  lemma {:induction false} InitialInv(d: Driver)
    requires Initial(d)
    ensures Inv(d)
  {
    hide Initial, QueueInv, PayloadInv, CreatorInv, LeaseInv, OwnerInv;
    InitialCounts(d);
    InitialCreator(d);
    InitialLease(d);
  }

  lemma {:induction false} InitialCreator(d: Driver)
    requires Initial(d)
    ensures CreatorInv(d.files, d.queue.owner, d.creating) && OwnerInv(d.files, d.payload.owner, d.allocating)
  {
  }

  lemma {:induction false} InitialLease(d: Driver)
    requires Initial(d)
    ensures LeaseInv(d.files, d.queue.lease, d.leasing)
  {
  }

  lemma {:induction false} InvCounts(d: Driver)
    requires Inv(d)
    ensures d.queue.refs == QueueHolders(d.queue, d.waits) && (d.queue.mapped <==> d.queue.refs > 0)
    ensures d.payload.refs == PayloadHolders(d.payload, d.allocating.Some?)
        && (d.payload.mapped <==> d.payload.refs > 0)
  {
    hide CreatorInv, LeaseInv, OwnerInv, QueueHolders, PayloadHolders;
  }

  lemma {:induction false} InvUnique(d: Driver)
    requires Inv(d)
    ensures forall f, g :: f in d.files && g in d.files && d.files[f].created && d.files[g].created ==> f == g
    ensures forall f, g :: f in d.files && g in d.files && d.files[f].leased && d.files[g].leased ==> f == g
  {
    hide QueueInv, PayloadInv, OwnerInv;
  }

  /**
   * In every reachable state both counts equal the number of holders, a mapping exists exactly while a
   * holder does, and the creator and the lease holder are unique.
   */
  lemma {:induction false} CountsAreHolders(d: Driver, steps: seq<Step>)
    requires Initial(d)
    ensures
      var e := Run(d, steps);
      && e.queue.refs == QueueHolders(e.queue, e.waits) && (e.queue.mapped <==> e.queue.refs > 0)
      && e.payload.refs == PayloadHolders(e.payload, e.allocating.Some?) && (e.payload.mapped <==> e.payload.refs > 0)
      && (forall f, g :: f in e.files && g in e.files && e.files[f].created && e.files[g].created ==> f == g)
      && (forall f, g :: f in e.files && g in e.files && e.files[f].leased && e.files[g].leased ==> f == g)
  {
    hide *;
    InitialInv(d);
    RunKeeps(d, steps);
    InvCounts(Run(d, steps));
    InvUnique(Run(d, steps));
  }

  /** The payload count is set afresh only when nobody holds the payload. */
  lemma {:induction false} FreshCountOnlyWhenUnheld(d: Driver, steps: seq<Step>, f: nat)
    requires Initial(d) && f in Run(d, steps).files
    ensures
      var e := Run(d, steps);
      AllocateStep(e, f) != e ==> PayloadHolders(e.payload, e.allocating.Some?) == 0 && e.payload.refs == 0
  {
    hide Run, Inv, Initial, PayloadHolders;
    InitialInv(d);
    RunKeeps(d, steps);
    InvCounts(Run(d, steps));
  }
}
