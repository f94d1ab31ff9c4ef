// The recovery model seen through the answers its callers got: which calls succeeded for which tag, in what
// order, and what that says about the records; and that the calls do succeed.
module RecoveryStages {
  import opened RecoveryState
  import opened RecoveryInvariants
  import opened RecoveryRuns

  // ---- Successful calls ----

  datatype Stage =
    | LeaseClaim | LeaseMaterialize | CommitBegin | CommitFinish | TargetWrite | LeasePublish | LeaseRelease
    | UpdateClaim | UpdateMaterialize | LinkBegin | LinkComplete | FencePublish | DeviceReopen
    | RangeClaim | RangePrepare | RangeOpen
    | PublicationClaim | PublicationPrepare | PublicationLink | PublicationActivate | PayloadApply | PublicationMark
    | PublicationAbort | PublicationFinish

  /** A call of this stage for this tag returned true. */
  datatype Mark = Mark(stage: Stage, tag: nat)

  function When(ok: bool, stage: Stage, tag: nat): set<Mark> { if ok then {Mark(stage, tag)} else {} }

  function LeaseMarks(s: State, op: Op): set<Mark> {
    match op
    case OpClaimLease(t, l) => When(ClaimLease(s, t, l).ok, LeaseClaim, l)
    case OpMaterializeLease(t, l) => When(MaterializeLease(s, t, l).ok, LeaseMaterialize, l)
    case OpReserveLease(t, l) =>
      When(ClaimLease(s, t, l).ok, LeaseClaim, l) + When(ReserveLease(s, t, l).ok, LeaseMaterialize, l)
    case OpBeginTokenCommit(a) => When(BeginTokenCommit(s, a).ok, CommitBegin, a.leaseTag)
    case OpBeginLeaseCommit(t) => When(BeginLeaseCommit(s, t).ok, CommitBegin, t)
    case OpFinishLeaseCommit(t) => When(FinishLeaseCommit(s, t).ok, CommitFinish, t)
    case OpWriteLeaseTarget(t) => When(WriteLeaseTarget(s, t).ok, TargetWrite, t)
    case OpPublishLease(t) => When(PublishLease(s, t).ok, LeasePublish, t)
    case OpReleaseLease(t) => When(ReleaseLease(s, t).ok, LeaseRelease, t)
    case _ => {}
  }

  function UpdateMarks(s: State, op: Op): set<Mark> {
    match op
    case OpClaimDeviceUpdate(t) => When(ClaimDeviceUpdate(s, t).ok, UpdateClaim, t)
    case OpMaterializeDeviceUpdate(t) => When(MaterializeDeviceUpdate(s, t).ok, UpdateMaterialize, t)
    case OpPrepareDeviceUpdate(t) =>
      When(ClaimDeviceUpdate(s, t).ok, UpdateClaim, t) + When(PrepareDeviceUpdate(s, t).ok, UpdateMaterialize, t)
    case OpBeginDeviceUpdateLink(t) => When(BeginDeviceUpdateLink(s, t).ok, LinkBegin, t)
    case OpCompleteDeviceUpdateLink(t) => When(CompleteDeviceUpdateLink(s, t).ok, LinkComplete, t)
    case OpLinkDeviceUpdate(t) =>
      When(BeginDeviceUpdateLink(s, t).ok, LinkBegin, t) + When(LinkDeviceUpdate(s, t).ok, LinkComplete, t)
    case OpPublishDeviceUpdate(t) => When(PublishDeviceUpdate(s, t).ok, FencePublish, t)
    case OpReopenDeviceUpdate(t) => When(ReopenDeviceUpdate(s, t).ok, DeviceReopen, t)
    case _ => {}
  }

  function RangeMarks(s: State, op: Op): set<Mark> {
    match op
    case OpClaimRange(t, n) => When(ClaimRange(s, t, n).ok, RangeClaim, t)
    case OpPrepareRange(t) => When(PrepareRange(s, t).ok, RangePrepare, t)
    case OpOpenRange(t) => When(OpenRange(s, t).ok, RangeOpen, t)
    case OpReserveRange(t, n) =>
      var claimed := ClaimRange(s, t, n);
      When(claimed.ok, RangeClaim, t) + When(claimed.ok && PrepareRange(claimed.state, t).ok, RangePrepare, t)
      + When(ReserveRange(s, t, n).ok, RangeOpen, t)
    case _ => {}
  }

  function PublicationMarks(s: State, op: Op): set<Mark> {
    match op
    case OpClaimPublication(k, t, c) => When(ClaimPublication(s, k, t, c).ok, PublicationClaim, t)
    case OpClaimCurrentPublication(t, c) => When(ClaimCurrentPublication(s, t, c).ok, PublicationClaim, t)
    case OpPreparePublication(t) => When(PreparePublication(s, t).ok, PublicationPrepare, t)
    case OpLinkPublication(t) => When(LinkPublication(s, t).ok, PublicationLink, t)
    case OpActivatePublication(t) => When(ActivatePublication(s, t).ok, PublicationActivate, t)
    case OpApplyPublication(t) => When(ApplyPublication(s, t).ok, PayloadApply, t)
    case OpMarkPublication(t) => When(MarkPublication(s, t).ok, PublicationMark, t)
    case OpAbortPublication(t) => When(AbortPublication(s, t).ok, PublicationAbort, t)
    case OpFinishPublication(t) => When(FinishPublication(s, t).ok, PublicationFinish, t)
    case _ => {}
  }

  function Marks(s: State, op: Op): set<Mark> {
    LeaseMarks(s, op) + UpdateMarks(s, op) + RangeMarks(s, op) + PublicationMarks(s, op)
  }

  /** The stage calls that have succeeded among the first n calls of a run. */
  function Done(s: State, ops: seq<Op>, n: nat): set<Mark>
    requires n <= |ops|
  {
    if n == 0 then {} else Done(s, ops, n - 1) + Marks(Run(s, ops)[n - 1], ops[n - 1])
  }

  // ---- What the records say about them ----

  /** A stage succeeds only after one of these has, for the same tag. */
  function Prior(stage: Stage): set<Stage> {
    match stage
    case LeaseMaterialize => {LeaseClaim}
    case CommitBegin => {LeaseMaterialize}
    case CommitFinish => {CommitBegin}
    case TargetWrite => {CommitFinish}
    case LeasePublish => {CommitFinish}
    case LeaseRelease => {LeasePublish}
    case UpdateMaterialize => {UpdateClaim}
    case LinkBegin => {UpdateMaterialize}
    case LinkComplete => {LinkBegin}
    case FencePublish => {LinkComplete}
    case DeviceReopen => {FencePublish}
    case RangePrepare => {RangeClaim}
    case RangeOpen => {RangePrepare}
    case PublicationPrepare => {PublicationClaim}
    case PublicationLink => {PublicationPrepare}
    case PublicationActivate => {PublicationLink}
    case PayloadApply => {PublicationActivate}
    case PublicationMark => {PayloadApply}
    case PublicationAbort => {PublicationClaim}
    case PublicationFinish => {PublicationMark, PublicationAbort}
    case _ => {}
  }

  ghost predicate InOrder(done: set<Mark>) {
    forall m :: m in done && Prior(m.stage) != {} ==> exists p :: p in Prior(m.stage) && Mark(p, m.tag) in done
  }

  predicate Wrote(done: set<Mark>, tag: nat) { Mark(TargetWrite, tag) in done || Mark(LeasePublish, tag) in done }

  ghost predicate LeaseHistory(lease: LeaseRecord, done: set<Mark>) {
    var t := lease.tag;
    && (forall m :: m in done && (m.stage.TargetWrite? || m.stage.LeasePublish?) ==> m.tag <= t)
    && (lease.state.LInitializing? ==> Mark(LeaseClaim, t) in done && !lease.targetWritten)
    && (lease.state.LReserved? ==> Mark(LeaseMaterialize, t) in done && !lease.targetWritten)
    && (lease.state.LCommitting? ==> Mark(CommitBegin, t) in done && !lease.targetWritten)
    && (lease.state.LCommitted? ==> Mark(CommitFinish, t) in done)
    && (lease.state.LPublished? ==> Mark(LeasePublish, t) in done)
    && (lease.state.LReleased? ==> Wrote(done, t))
    && (!lease.state.LQuarantined? ==> (lease.targetWritten <==> Wrote(done, t)))
    && (lease.state.LFree? || lease.state.LTombstoned? || lease.state.LRevoked? ==> !Wrote(done, t))
  }

  ghost predicate UpdateHistory(update: UpdateRecord, done: set<Mark>) {
    var t := update.tag;
    && (update.state.UInitializing? ==> Mark(UpdateClaim, t) in done)
    && (update.state.UPrepared? ==> Mark(UpdateMaterialize, t) in done)
    && (update.state.ULinking? ==> Mark(LinkBegin, t) in done)
    && (update.state.UActive? ==> Mark(LinkComplete, t) in done)
    && (update.state.UFencePublished? ==> Mark(FencePublish, t) in done)
    && (update.state.UReopened? ==> Mark(DeviceReopen, t) in done)
  }

  ghost predicate RangeHistory(range: RangeRecord, done: set<Mark>) {
    && (range.state.RInitializing? ==> Mark(RangeClaim, range.tag) in done)
    && (range.state.RPrepared? ==> Mark(RangePrepare, range.tag) in done)
    && (range.state.ROpen? || range.state.RRetired? ==> Mark(RangeOpen, range.tag) in done)
  }

  ghost predicate PublicationHistory(publication: PublishRecord, done: set<Mark>) {
    var t := publication.tag;
    && (publication.state.PInitializing? || publication.state.PPrepared? || publication.state.PLinking? ==>
          !publication.payloadApplied)
    && (publication.state.PInitializing? ==> Mark(PublicationClaim, t) in done)
    && (publication.state.PPrepared? ==> Mark(PublicationPrepare, t) in done && Mark(PublicationClaim, t) in done)
    && (publication.state.PLinking? ==> Mark(PublicationLink, t) in done)
    && (publication.state.PActive? ==> Mark(PublicationActivate, t) in done)
    && (publication.state.PActive? && publication.payloadApplied ==> Mark(PayloadApply, t) in done)
    && (publication.state.PPublished? ==> Mark(PublicationMark, t) in done)
    && (publication.state.PAborted? ==> Mark(PublicationAbort, t) in done)
  }

  ghost predicate History(s: State, done: set<Mark>) {
    && InOrder(done) && LeaseHistory(s.lease, done) && UpdateHistory(s.update, done)
    && RangeHistory(s.range, done) && RangeHistory(s.following, done) && PublicationHistory(s.publication, done)
  }

  // ---- Every call keeps it ----

  lemma {:induction false} OrderExtends(done: set<Mark>, ok: bool, stage: Stage, tag: nat, prior: Stage)
    requires InOrder(done)
    requires ok && Prior(stage) != {} ==> prior in Prior(stage) && Mark(prior, tag) in done
    ensures InOrder(done + When(ok, stage, tag))
  {
    var all := done + When(ok, stage, tag);
    forall m | m in all && Prior(m.stage) != {} ensures exists p :: p in Prior(m.stage) && Mark(p, m.tag) in all {
      if m in done {
        var p :| p in Prior(m.stage) && Mark(p, m.tag) in done;
        assert Mark(p, m.tag) in all;
      } else {
        assert Mark(prior, m.tag) in all;
      }
    }
  }

  /** A call that does one stage and then the next. */
  lemma {:induction false} OrderExtendsTwice(done: set<Mark>, one: bool, two: bool, first: Stage, second: Stage,
                                             tag: nat, prior: Stage)
    requires InOrder(done) && (two ==> one) && Prior(second) == {first}
    requires one && Prior(first) != {} ==> prior in Prior(first) && Mark(prior, tag) in done
    ensures InOrder(done + (When(one, first, tag) + When(two, second, tag)))
  {
    hide InOrder;
    OrderExtends(done, one, first, tag, prior);
    OrderExtends(done + When(one, first, tag), two, second, tag, first);
    assert done + (When(one, first, tag) + When(two, second, tag))
        == done + When(one, first, tag) + When(two, second, tag);
  }

  lemma {:induction false} LeaseMarksInOrder(s: State, op: Op, done: set<Mark>)
    requires LeaseHistory(s.lease, done) && InOrder(done)
    ensures InOrder(done + LeaseMarks(s, op))
  {
    hide InOrder, Prior;
    LeasePriors();
    match op
    case OpClaimLease(t, l) => OrderExtends(done, ClaimLease(s, t, l).ok, LeaseClaim, l, LeaseClaim);
    case OpMaterializeLease(t, l) =>
      OrderExtends(done, MaterializeLease(s, t, l).ok, LeaseMaterialize, l, LeaseClaim);
    case OpReserveLease(t, l) =>
      OrderExtendsTwice(done, ClaimLease(s, t, l).ok, ReserveLease(s, t, l).ok, LeaseClaim, LeaseMaterialize, l,
                        LeaseClaim);
    case _ => CommitMarksInOrder(s, op, done);
  }

  lemma {:induction false} CommitMarksInOrder(s: State, op: Op, done: set<Mark>)
    requires LeaseHistory(s.lease, done) && InOrder(done)
    requires !op.OpClaimLease? && !op.OpMaterializeLease? && !op.OpReserveLease?
    ensures InOrder(done + LeaseMarks(s, op))
  {
    hide InOrder, Prior;
    LeasePriors();
    if op.OpBeginTokenCommit? {
      OrderExtends(done, BeginTokenCommit(s, op.admission).ok, CommitBegin, op.admission.leaseTag, LeaseMaterialize);
    } else if op.OpBeginLeaseCommit? {
      OrderExtends(done, BeginLeaseCommit(s, op.tag).ok, CommitBegin, op.tag, LeaseMaterialize);
    } else if op.OpFinishLeaseCommit? {
      OrderExtends(done, FinishLeaseCommit(s, op.tag).ok, CommitFinish, op.tag, CommitBegin);
    } else if op.OpWriteLeaseTarget? {
      OrderExtends(done, WriteLeaseTarget(s, op.tag).ok, TargetWrite, op.tag, CommitFinish);
    } else if op.OpPublishLease? {
      OrderExtends(done, PublishLease(s, op.tag).ok, LeasePublish, op.tag, CommitFinish);
    } else if op.OpReleaseLease? {
      OrderExtends(done, ReleaseLease(s, op.tag).ok, LeaseRelease, op.tag, LeasePublish);
    } else {
      assert done + LeaseMarks(s, op) == done;
    }
  }

  lemma {:induction false} LeasePriors()
    ensures Prior(LeaseClaim) == {} && Prior(LeaseMaterialize) == {LeaseClaim}
        && Prior(CommitBegin) == {LeaseMaterialize} && Prior(CommitFinish) == {CommitBegin}
        && Prior(TargetWrite) == {CommitFinish} && Prior(LeasePublish) == {CommitFinish}
        && Prior(LeaseRelease) == {LeasePublish}
  {
  }

  /** The lease as a call leaves it. */
  lemma {:induction false} ClaimHistory(s: State, op: Op, done: set<Mark>)
    requires op.OpEnterAttempt? || op.OpClaimLease? || op.OpMaterializeLease? || op.OpReserveLease?
    requires LeaseHistory(s.lease, done)
    ensures LeaseHistory(ApplyLeaseOp(s, op).state.lease, done + LeaseMarks(s, op))
  {
  }

  lemma {:induction false} CommitHistory(s: State, op: Op, done: set<Mark>)
    requires op.OpBeginTokenCommit? || op.OpBeginLeaseCommit? || op.OpFinishLeaseCommit? || op.OpWriteLeaseTarget?
        || op.OpPublishLease? || op.OpReleaseLease?
    requires LeaseHistory(s.lease, done)
    ensures LeaseHistory(ApplyLeaseOp(s, op).state.lease, done + LeaseMarks(s, op))
  {
  }

  lemma {:induction false} EndHistory(s: State, op: Op, done: set<Mark>)
    requires op.OpRecoverDeadLease? || op.OpExpireLiveLease? || op.OpReclaimLease?
    requires LeaseHistory(s.lease, done)
    ensures LeaseHistory(ApplyLeaseOp(s, op).state.lease, done)
  {
  }

  lemma {:induction false} LeaseOpHistory(s: State, op: Op, done: set<Mark>)
    requires LeaseOp(op) && LeaseHistory(s.lease, done)
    ensures LeaseHistory(ApplyLeaseOp(s, op).state.lease, done + LeaseMarks(s, op))
  {
    hide LeaseHistory, ApplyLeaseOp;
    if op.OpEnterAttempt? || op.OpClaimLease? || op.OpMaterializeLease? || op.OpReserveLease? {
      ClaimHistory(s, op, done);
    } else if op.OpRecoverDeadLease? || op.OpExpireLiveLease? || op.OpReclaimLease? {
      assert done + LeaseMarks(s, op) == done;
      EndHistory(s, op, done);
    } else {
      CommitHistory(s, op, done);
    }
  }

  // ---- Calls that leave a record alone, settle it or quarantine it ----

  lemma {:induction false} SettlingHistory(s: State, done: set<Mark>)
    requires LeaseHistory(s.lease, done)
    ensures LeaseHistory(SettleLeaseForClose(s).lease, done) && LeaseHistory(Quarantine(s).lease, done)
  {
  }

  lemma {:induction false} UpdateOpLease(s: State, op: Op, done: set<Mark>)
    requires UpdateOp(op) && LeaseHistory(s.lease, done)
    ensures LeaseHistory(ApplyUpdateOp(s, op).state.lease, done)
  {
    hide LeaseHistory, ApplyUpdateOp, Quarantine, SettleLeaseForClose;
    SettlingHistory(s, done);
    LeaseAfterUpdateOp(s, op);
  }

  /** The lease is as it was, settled, or quarantined. */
  ghost predicate Put(s: State, lease: LeaseRecord) {
    lease == s.lease || lease == SettleLeaseForClose(s).lease || lease == Quarantine(s).lease
  }

  lemma {:induction false} LeaseAfterClose(s: State)
    ensures Put(s, CloseView(s).lease) && Put(s, CloseDevice(s).lease)
  {
  }

  lemma {:induction false} LeaseAfterRecovery(s: State, tag: nat)
    ensures Put(s, RecoverDeadDeviceUpdate(s, tag).state.lease)
  {
    var dead := s.(update := s.update.(owner := Dead));
    assert InstallLink(dead, tag).lease == SettleLeaseForClose(s).lease;
    hide InstallLink, SettleLeaseForClose, Quarantine;
  }

  lemma {:induction false} LeaseAfterUpdateOp(s: State, op: Op)
    requires UpdateOp(op)
    ensures Put(s, ApplyUpdateOp(s, op).state.lease)
  {
    match op
    case OpCloseView => LeaseAfterClose(s);
    case OpCloseDevice => LeaseAfterClose(s);
    case OpRecoverDeadDeviceUpdate(t) => LeaseAfterRecovery(s, t);
    case _ => LeaseAfterUpdateStep(s, op);
    hide *;
  }

  lemma {:induction false} LeaseAfterUpdateStep(s: State, op: Op)
    requires UpdateOp(op) && !op.OpCloseView? && !op.OpCloseDevice? && !op.OpRecoverDeadDeviceUpdate?
    ensures Put(s, ApplyUpdateOp(s, op).state.lease)
  {
  }

  /**
   * A publication call leaves lease, update and following range alone, or the view is quarantined; it may retire an
   * open head or quarantine it.
   */
  ghost predicate Apart(s: State, r: State) {
    && (|| (r.lease == s.lease && r.update == s.update && r.following == s.following)
        || (&& r.lease == Quarantine(s).lease && r.update == Quarantine(s).update
            && r.following == Quarantine(s).following))
    && r.range.tag == s.range.tag
    && (|| r.range.state == s.range.state || r.range.state.RQuarantined?
        || (s.range.state.ROpen? && r.range.state.RRetired?))
  }

  lemma {:induction false} PublishedApart(s: State, tag: nat)
    ensures Apart(s, RecoverPublished(s, tag).state)
  {
  }

  lemma {:induction false} AppliedApart(s: State, tag: nat)
    ensures Apart(s, RecoverApplied(s, tag).state)
  {
    hide RecoverPublished;
    PublishedApart(s, tag);
    PublishedApart(MarkPublication(s, tag).state, tag);
  }

  lemma {:induction false} ActiveApart(s: State, tag: nat)
    ensures Apart(s, RecoverActive(s, tag).state)
  {
    hide RecoverApplied;
    AppliedApart(s, tag);
    AppliedApart(ApplyPublication(s, tag).state, tag);
  }

  /** Only the publication differs. */
  predicate Beside(s: State, t: State) { t == s.(publication := t.publication) }

  lemma {:induction false} BesideApart(s: State, t: State, r: State)
    requires Beside(s, t) && Apart(t, r)
    ensures Apart(s, r)
  {
  }

  lemma {:induction false} FinishApart(s: State, tag: nat)
    ensures Apart(s, FinishPublication(s, tag).state) && Apart(s, QuarantinePublication(s).state)
    ensures Beside(s, ActivatePublication(s, tag).state)
  {
  }

  lemma {:induction false} RecoveryApart(s: State, tag: nat)
    ensures Apart(s, RecoverDeadPublication(s, tag).state)
  {
    var dead := s.(publication := s.publication.(owner := Dead));
    var aborted := dead.(publication := dead.publication.(state := PAborted));
    var active := ActivatePublication(dead, tag).state;
    assert Apart(s, s);
    hide RecoverActive, FinishPublication, QuarantinePublication, ActivatePublication, Apart;
    FinishApart(dead, tag);
    FinishApart(aborted, tag);
    ActiveApart(dead, tag);
    ActiveApart(active, tag);
    forall r | Apart(dead, r) ensures Apart(s, r) { BesideApart(s, dead, r); }
    forall r | Apart(aborted, r) ensures Apart(s, r) { BesideApart(s, aborted, r); }
    forall r | Apart(active, r) ensures Apart(s, r) { BesideApart(s, active, r); }
  }

  lemma {:induction false} PublicationOpApart(s: State, op: Op)
    requires !LeaseOp(op) && !UpdateOp(op) && !RangeOp(op)
    ensures Apart(s, ApplyPublicationOp(s, op).state)
  {
    hide RecoverDeadPublication;
    if op.OpRecoverDeadPublication? { RecoveryApart(s, op.tag); }
  }

  lemma {:induction false} QuarantinedHistory(s: State, done: set<Mark>)
    requires UpdateHistory(s.update, done) && RangeHistory(s.range, done) && RangeHistory(s.following, done)
        && PublicationHistory(s.publication, done)
    ensures
      var q := Quarantine(s);
      && UpdateHistory(q.update, done) && RangeHistory(q.range, done) && RangeHistory(q.following, done)
      && PublicationHistory(q.publication, done)
  {
  }

  /** More calls take nothing back, but a lease may only hear of its own target. */
  lemma {:induction false} HistoryGrows(s: State, done: set<Mark>, more: set<Mark>)
    ensures UpdateHistory(s.update, done) ==> UpdateHistory(s.update, done + more)
    ensures RangeHistory(s.range, done) ==> RangeHistory(s.range, done + more)
    ensures RangeHistory(s.following, done) ==> RangeHistory(s.following, done + more)
    ensures PublicationHistory(s.publication, done) ==> PublicationHistory(s.publication, done + more)
    ensures LeaseHistory(s.lease, done) && (forall m :: m in more ==> !m.stage.TargetWrite? && !m.stage.LeasePublish?)
        ==> LeaseHistory(s.lease, done + more)
  {
  }

  // ---- Device updates ----

  lemma {:induction false} UpdateMarksInOrder(s: State, op: Op, done: set<Mark>)
    requires UpdateHistory(s.update, done) && InOrder(done)
    ensures InOrder(done + UpdateMarks(s, op))
  {
    hide InOrder, InstallLink, Prior;
    UpdatePriors();
    match op
    case OpClaimDeviceUpdate(t) => OrderExtends(done, ClaimDeviceUpdate(s, t).ok, UpdateClaim, t, UpdateClaim);
    case OpMaterializeDeviceUpdate(t) =>
      OrderExtends(done, MaterializeDeviceUpdate(s, t).ok, UpdateMaterialize, t, UpdateClaim);
    case OpPrepareDeviceUpdate(t) =>
      OrderExtendsTwice(done, ClaimDeviceUpdate(s, t).ok, PrepareDeviceUpdate(s, t).ok, UpdateClaim, UpdateMaterialize,
                        t, UpdateClaim);
    case OpBeginDeviceUpdateLink(t) =>
      OrderExtends(done, BeginDeviceUpdateLink(s, t).ok, LinkBegin, t, UpdateMaterialize);
    case OpCompleteDeviceUpdateLink(t) =>
      OrderExtends(done, CompleteDeviceUpdateLink(s, t).ok, LinkComplete, t, LinkBegin);
    case OpLinkDeviceUpdate(t) =>
      OrderExtendsTwice(done, BeginDeviceUpdateLink(s, t).ok, LinkDeviceUpdate(s, t).ok, LinkBegin, LinkComplete, t,
                        UpdateMaterialize);
    case OpPublishDeviceUpdate(t) => OrderExtends(done, PublishDeviceUpdate(s, t).ok, FencePublish, t, LinkComplete);
    case OpReopenDeviceUpdate(t) => OrderExtends(done, ReopenDeviceUpdate(s, t).ok, DeviceReopen, t, FencePublish);
    case _ => assert done + UpdateMarks(s, op) == done;
  }

  lemma {:induction false} UpdatePriors()
    ensures Prior(UpdateClaim) == {} && Prior(UpdateMaterialize) == {UpdateClaim}
        && Prior(LinkBegin) == {UpdateMaterialize} && Prior(LinkComplete) == {LinkBegin}
        && Prior(FencePublish) == {LinkComplete} && Prior(DeviceReopen) == {FencePublish}
  {
  }

  /** The update is over, or as it was but for its owner. */
  predicate Over(before: UpdateRecord, after: UpdateRecord) {
    after.state.UTerminal? || (after.tag == before.tag && after.state == before.state)
  }

  lemma {:induction false} FencedOver(s: State, tag: nat)
    ensures Over(s.update, RecoverFenced(s, tag).state.update)
    ensures s.update.state.UFencePublished? ==> RecoverFenced(s, tag).state.update.state.UTerminal?
  {
  }

  lemma {:induction false} LinkedOver(s: State, tag: nat)
    ensures Over(s.update, RecoverLinked(s, tag).state.update)
    ensures s.update.state.UActive? ==> RecoverLinked(s, tag).state.update.state.UTerminal?
  {
    hide RecoverFenced;
    FencedOver(s, tag);
    FencedOver(PublishDeviceUpdate(s, tag).state, tag);
  }

  /** Recovery ends an update, or leaves it alone. */
  lemma {:induction false} RecoveredOver(s: State, tag: nat)
    ensures Over(s.update, RecoverDeadDeviceUpdate(s, tag).state.update)
  {
    hide RecoverLinked, SettleLeaseForClose;
    var dead := s.(update := s.update.(owner := Dead));
    LinkedOver(dead, tag);
    LinkedOver(InstallLink(dead, tag), tag);
    LinkActivates(dead, tag);
  }

  lemma {:induction false} LinkActivates(s: State, tag: nat)
    ensures InstallLink(s, tag).update == s.update.(state := UActive)
  {
  }

  lemma {:induction false} UpdateClaimHistory(s: State, op: Op, done: set<Mark>)
    requires op.OpClaimDeviceUpdate? || op.OpMaterializeDeviceUpdate? || op.OpPrepareDeviceUpdate?
    requires UpdateHistory(s.update, done)
    ensures UpdateHistory(ApplyUpdateOp(s, op).state.update, done + UpdateMarks(s, op))
  {
  }

  lemma {:induction false} UpdateLinkHistory(s: State, op: Op, done: set<Mark>)
    requires op.OpBeginDeviceUpdateLink? || op.OpCompleteDeviceUpdateLink? || op.OpLinkDeviceUpdate?
    requires UpdateHistory(s.update, done)
    ensures UpdateHistory(ApplyUpdateOp(s, op).state.update, done + UpdateMarks(s, op))
  {
    hide InstallLink;
    LinkActivates(s, op.tag);
    LinkActivates(BeginDeviceUpdateLink(s, op.tag).state, op.tag);
  }

  lemma {:induction false} UpdatePublishHistory(s: State, op: Op, done: set<Mark>)
    requires op.OpPublishDeviceUpdate? || op.OpReopenDeviceUpdate? || op.OpFinishDeviceUpdate?
        || op.OpExpireLiveDeviceUpdate?
    requires UpdateHistory(s.update, done)
    ensures UpdateHistory(ApplyUpdateOp(s, op).state.update, done + UpdateMarks(s, op))
  {
  }

  lemma {:induction false} UpdateEndHistory(s: State, op: Op, done: set<Mark>)
    requires op.OpCloseView? || op.OpCloseDevice? || op.OpRecoverDeadDeviceUpdate?
    requires UpdateHistory(s.update, done)
    ensures UpdateHistory(ApplyUpdateOp(s, op).state.update, done)
  {
    hide RecoverDeadDeviceUpdate, CloseView, CloseDevice;
    ClosedUpdate(s);
    if op.OpRecoverDeadDeviceUpdate? { RecoveredOver(s, op.tag); }
  }

  lemma {:induction false} UpdateOpHistory(s: State, op: Op, done: set<Mark>)
    requires UpdateOp(op) && UpdateHistory(s.update, done)
    ensures UpdateHistory(ApplyUpdateOp(s, op).state.update, done + UpdateMarks(s, op))
  {
    hide UpdateHistory, ApplyUpdateOp;
    if op.OpCloseView? || op.OpCloseDevice? || op.OpRecoverDeadDeviceUpdate? {
      assert done + UpdateMarks(s, op) == done;
      UpdateEndHistory(s, op, done);
    } else if op.OpClaimDeviceUpdate? || op.OpMaterializeDeviceUpdate? || op.OpPrepareDeviceUpdate? {
      UpdateClaimHistory(s, op, done);
    } else if op.OpBeginDeviceUpdateLink? || op.OpCompleteDeviceUpdateLink? || op.OpLinkDeviceUpdate? {
      UpdateLinkHistory(s, op, done);
    } else {
      UpdatePublishHistory(s, op, done);
    }
  }

  /** Closing leaves an update alone or ends it. */
  lemma {:induction false} ClosedUpdate(s: State)
    ensures
      var view, device := CloseView(s).update, CloseDevice(s).update;
      && (view == s.update || view.state.UClosed? || view.state.UQuarantined?)
      && (device == s.update || device.state.UClosed?)
  {
  }

  // ---- Ranges ----

  lemma {:induction false} RangeMarksInOrder(s: State, op: Op, done: set<Mark>)
    requires RangeHistory(s.range, done) && RangeHistory(s.following, done) && InOrder(done)
    ensures InOrder(done + RangeMarks(s, op))
  {
    hide InOrder;
    match op
    case OpClaimRange(t, n) => OrderExtends(done, ClaimRange(s, t, n).ok, RangeClaim, t, RangeClaim);
    case OpPrepareRange(t) => OrderExtends(done, PrepareRange(s, t).ok, RangePrepare, t, RangeClaim);
    case OpOpenRange(t) => OrderExtends(done, OpenRange(s, t).ok, RangeOpen, t, RangePrepare);
    case OpReserveRange(t, n) => ReservedInOrder(s, t, n, done);
    case _ => assert done + RangeMarks(s, op) == done;
  }

  lemma {:induction false} ReservedInOrder(s: State, tag: nat, length: nat, done: set<Mark>)
    requires InOrder(done)
    ensures InOrder(done + RangeMarks(s, OpReserveRange(tag, length)))
  {
    hide InOrder, ClaimRange, PrepareRange, OpenRange;
    var claimed := ClaimRange(s, tag, length);
    var prepared := claimed.ok && PrepareRange(claimed.state, tag).ok;
    var both := When(claimed.ok, RangeClaim, tag) + When(prepared, RangePrepare, tag);
    OrderExtendsTwice(done, claimed.ok, prepared, RangeClaim, RangePrepare, tag, RangeClaim);
    OrderExtends(done + both, ReserveRange(s, tag, length).ok, RangeOpen, tag, RangePrepare);
    assert done + both + When(ReserveRange(s, tag, length).ok, RangeOpen, tag)
        == done + RangeMarks(s, OpReserveRange(tag, length));
  }

  lemma {:induction false} RangeClaimHistory(s: State, tag: nat, length: nat, done: set<Mark>)
    requires RangeHistory(s.range, done) && RangeHistory(s.following, done)
    ensures
      var r, all := ClaimRange(s, tag, length), done + When(ClaimRange(s, tag, length).ok, RangeClaim, tag);
      RangeHistory(r.state.range, all) && RangeHistory(r.state.following, all)
  {
  }

  lemma {:induction false} RangeStepHistory(s: State, op: Op, done: set<Mark>)
    requires op.OpClaimRange? || op.OpPrepareRange? || op.OpOpenRange? || op.OpAdvanceRangeHead?
    requires RangeHistory(s.range, done) && RangeHistory(s.following, done)
    ensures
      var r, all := ApplyRangeOp(s, op).state, done + RangeMarks(s, op);
      RangeHistory(r.range, all) && RangeHistory(r.following, all)
  {
    hide ClaimRange;
    if op.OpClaimRange? { RangeClaimHistory(s, op.tag, op.length, done); }
  }

  lemma {:induction false} RangeOpHistory(s: State, op: Op, done: set<Mark>)
    requires RangeOp(op) && RangeHistory(s.range, done) && RangeHistory(s.following, done)
    ensures
      var r, all := ApplyRangeOp(s, op).state, done + RangeMarks(s, op);
      RangeHistory(r.range, all) && RangeHistory(r.following, all)
  {
    hide RangeHistory, ClaimRange, PrepareRange, OpenRange, AdvanceRangeHead;
    if op.OpReserveRange? {
      var all := done + RangeMarks(s, op);
      var claim, prepare, open := OpClaimRange(op.tag, op.length), OpPrepareRange(op.tag), OpOpenRange(op.tag);
      RangeStepHistory(s, claim, done);
      var s1 := ClaimRange(s, op.tag, op.length);
      if s1.ok {
        RangeStepHistory(s1.state, prepare, done + RangeMarks(s, claim));
        var s2 := PrepareRange(s1.state, op.tag);
        if s2.ok {
          RangeStepHistory(s2.state, open, done + RangeMarks(s, claim) + RangeMarks(s1.state, prepare));
          assert done + RangeMarks(s, claim) + RangeMarks(s1.state, prepare) + RangeMarks(s2.state, open) == all;
        } else {
          assert done + RangeMarks(s, claim) + RangeMarks(s1.state, prepare) == all;
        }
      } else {
        assert done + RangeMarks(s, claim) == all;
      }
    } else {
      RangeStepHistory(s, op, done);
    }
  }

  // ---- Publications ----

  lemma {:induction false} PublicationPriors()
    ensures Prior(PublicationClaim) == {} && Prior(PublicationPrepare) == {PublicationClaim}
        && Prior(PublicationLink) == {PublicationPrepare} && Prior(PublicationActivate) == {PublicationLink}
        && Prior(PayloadApply) == {PublicationActivate} && Prior(PublicationMark) == {PayloadApply}
        && Prior(PublicationAbort) == {PublicationClaim}
        && Prior(PublicationFinish) == {PublicationMark, PublicationAbort}
  {
  }

  lemma {:induction false} PublicationMarksInOrder(s: State, op: Op, done: set<Mark>)
    requires PublicationHistory(s.publication, done) && InOrder(done)
    ensures InOrder(done + PublicationMarks(s, op))
  {
    hide InOrder, Prior, RangeTokenValid, NextTag;
    PublicationPriors();
    match op
    case OpClaimPublication(k, t, c) =>
      OrderExtends(done, ClaimPublication(s, k, t, c).ok, PublicationClaim, t, PublicationClaim);
    case OpClaimCurrentPublication(t, c) =>
      OrderExtends(done, ClaimCurrentPublication(s, t, c).ok, PublicationClaim, t, PublicationClaim);
    case OpPreparePublication(t) =>
      OrderExtends(done, PreparePublication(s, t).ok, PublicationPrepare, t, PublicationClaim);
    case OpLinkPublication(t) => OrderExtends(done, LinkPublication(s, t).ok, PublicationLink, t, PublicationPrepare);
    case OpActivatePublication(t) =>
      OrderExtends(done, ActivatePublication(s, t).ok, PublicationActivate, t, PublicationLink);
    case OpApplyPublication(t) =>
      OrderExtends(done, ApplyPublication(s, t).ok, PayloadApply, t, PublicationActivate);
    case OpMarkPublication(t) => OrderExtends(done, MarkPublication(s, t).ok, PublicationMark, t, PayloadApply);
    case OpAbortPublication(t) => OrderExtends(done, AbortPublication(s, t).ok, PublicationAbort, t, PublicationClaim);
    case OpFinishPublication(t) =>
      OrderExtends(done, FinishPublication(s, t).ok, PublicationFinish, t,
                   if s.publication.state.PAborted? then PublicationAbort else PublicationMark);
    case _ => assert done + PublicationMarks(s, op) == done;
  }

  /** Claiming and preparing a publication, or giving it up. */
  lemma {:induction false} PublicationClaimHistory(s: State, op: Op, done: set<Mark>)
    requires op.OpClaimPublication? || op.OpClaimCurrentPublication? || op.OpPreparePublication?
        || op.OpAbortPublication? || op.OpReclaimPublication?
    requires PublicationHistory(s.publication, done)
    ensures PublicationHistory(ApplyPublicationOp(s, op).state.publication, done + PublicationMarks(s, op))
  {
    hide RangeTokenValid, NextTag, AddsBelow;
  }

  lemma {:induction false} PublicationStepHistory(s: State, op: Op, done: set<Mark>)
    requires op.OpLinkPublication? || op.OpActivatePublication? || op.OpApplyPublication? || op.OpMarkPublication?
        || op.OpFinishPublication? || op.OpExpireLivePublication?
    requires PublicationHistory(s.publication, done)
    ensures PublicationHistory(ApplyPublicationOp(s, op).state.publication, done + PublicationMarks(s, op))
  {
    hide PublicationRangeMatches, AddsBelow;
  }

  /** Recovery ends a publication, or finds it given up already. */
  lemma {:induction false} RecoveredPublicationHistory(s: State, tag: nat, initial: nat, done: set<Mark>)
    requires Inv(s, initial) && PublicationHistory(s.publication, done)
    ensures PublicationHistory(RecoverDeadPublication(s, tag).state.publication, done)
  {
    if s.publication.tag == tag {
      PublicationRecoverySettles(s, tag, initial);
      if s.publication.state.PInitializing? || s.publication.state.PPrepared? {
        UnlinkedEnds(s, tag, initial);
      } else if LinkedPublication(s.publication.state) {
        LinkedRecoveryStops(s, tag, initial);
      }
    }
    hide RecoverDeadPublication, Inv;
  }

  lemma {:induction false} UnlinkedEnds(s: State, tag: nat, initial: nat)
    requires Inv(s, initial) && s.publication.tag == tag
    requires s.publication.state.PInitializing? || s.publication.state.PPrepared?
    ensures RecoverDeadPublication(s, tag).state.publication.state.PTerminal?
  {
    hide ControlInv, LeaseInv, UpdateInv;
  }

  lemma {:induction false} PublicationOpHistory(s: State, op: Op, initial: nat, done: set<Mark>)
    requires !LeaseOp(op) && !UpdateOp(op) && !RangeOp(op) && Inv(s, initial)
    requires PublicationHistory(s.publication, done)
    ensures PublicationHistory(ApplyPublicationOp(s, op).state.publication, done + PublicationMarks(s, op))
  {
    hide Inv, PublicationHistory, ApplyPublicationOp;
    if op.OpRecoverDeadPublication? {
      RecoveredPublicationHistory(s, op.tag, initial, done);
      assert done + PublicationMarks(s, op) == done;
      RecoveryIsOp(s, op.tag);
    } else if op.OpClaimPublication? || op.OpClaimCurrentPublication? || op.OpPreparePublication?
        || op.OpAbortPublication? || op.OpReclaimPublication? {
      PublicationClaimHistory(s, op, done);
    } else {
      PublicationStepHistory(s, op, done);
    }
  }

  lemma {:induction false} RecoveryIsOp(s: State, tag: nat)
    ensures ApplyPublicationOp(s, OpRecoverDeadPublication(tag)) == RecoverDeadPublication(s, tag)
  {
  }

  // ---- Runs ----

  lemma {:induction false} ApartHistory(s: State, r: State, done: set<Mark>)
    requires Apart(s, r) && LeaseHistory(s.lease, done) && UpdateHistory(s.update, done)
    requires RangeHistory(s.range, done) && RangeHistory(s.following, done)
    ensures LeaseHistory(r.lease, done) && UpdateHistory(r.update, done)
    ensures RangeHistory(r.range, done) && RangeHistory(r.following, done)
  {
    hide LeaseHistory, SettleLeaseForClose;
    SettlingHistory(s, done);
  }

  /** Whether a call of one kind touches the records of the others. */
  lemma {:induction false} LeaseOpAside(s: State, op: Op)
    requires LeaseOp(op)
    ensures
      var r, q := ApplyLeaseOp(s, op).state, Quarantine(s);
      || (r.update == s.update && r.range == s.range && r.following == s.following && r.publication == s.publication)
      || (r.update == q.update && r.range == q.range && r.following == q.following && r.publication == q.publication)
  {
  }

  /** Ranges and publication are as they were. */
  predicate NumbersApart(s: State, r: State) {
    r.range == s.range && r.following == s.following && r.publication == s.publication
  }

  lemma {:induction false} CloseAside(s: State)
    ensures NumbersApart(s, CloseView(s)) || NumbersApart(Quarantine(s), CloseView(s))
    ensures NumbersApart(s, CloseDevice(s))
  {
  }

  lemma {:induction false} UpdateStepAside(s: State, op: Op)
    requires UpdateOp(op) && !op.OpCloseView? && !op.OpCloseDevice? && !op.OpRecoverDeadDeviceUpdate?
        && !op.OpExpireLiveDeviceUpdate?
    ensures NumbersApart(s, ApplyUpdateOp(s, op).state)
  {
  }

  lemma {:induction false} UpdateExpiryAside(s: State, tag: nat)
    ensures
      var r := ExpireLiveDeviceUpdate(s, tag).state;
      NumbersApart(s, r) || NumbersApart(Quarantine(s), r)
  {
  }

  lemma {:induction false} UpdateOpAside(s: State, op: Op)
    requires UpdateOp(op)
    ensures
      var r := ApplyUpdateOp(s, op).state;
      NumbersApart(s, r) || NumbersApart(Quarantine(s), r)
  {
    hide Quarantine, CloseView, CloseDevice, ExpireLiveDeviceUpdate, RecoverDeadDeviceUpdate, NumbersApart;
    match op
    case OpCloseView => CloseAside(s);
    case OpCloseDevice => CloseAside(s);
    case OpExpireLiveDeviceUpdate(t) => UpdateExpiryAside(s, t);
    case OpRecoverDeadDeviceUpdate(t) => UpdateRecoveryAside(s, t);
    case _ => UpdateStepAside(s, op);
  }

  lemma {:induction false} FencedAside(s: State, tag: nat)
    ensures NumbersApart(s, RecoverFenced(s, tag).state)
  {
  }

  lemma {:induction false} LinkedAside(s: State, tag: nat)
    ensures NumbersApart(s, RecoverLinked(s, tag).state)
  {
    hide RecoverFenced;
    FencedAside(s, tag);
    FencedAside(PublishDeviceUpdate(s, tag).state, tag);
  }

  lemma {:induction false} UpdateRecoveryAside(s: State, tag: nat)
    ensures NumbersApart(s, RecoverDeadDeviceUpdate(s, tag).state)
  {
    hide RecoverLinked, InstallLink;
    var dead := s.(update := s.update.(owner := Dead));
    LinkedAside(dead, tag);
    LinkedAside(InstallLink(dead, tag), tag);
    LinkAside(dead, tag);
  }

  lemma {:induction false} LinkAside(s: State, tag: nat)
    ensures NumbersApart(s, InstallLink(s, tag))
  {
  }

  lemma {:induction false} NoOtherMarks(s: State, op: Op)
    ensures LeaseOp(op) ==> Marks(s, op) == LeaseMarks(s, op)
    ensures UpdateOp(op) ==> Marks(s, op) == UpdateMarks(s, op)
    ensures RangeOp(op) ==> Marks(s, op) == RangeMarks(s, op)
    ensures !LeaseOp(op) && !UpdateOp(op) && !RangeOp(op) ==> Marks(s, op) == PublicationMarks(s, op)
    ensures !LeaseOp(op) ==> forall m :: m in Marks(s, op) ==> !m.stage.TargetWrite? && !m.stage.LeasePublish?
  {
    hide ClaimLease, MaterializeLease, ReserveLease, BeginTokenCommit, BeginLeaseCommit, FinishLeaseCommit,
        WriteLeaseTarget, PublishLease, ReleaseLease, ClaimDeviceUpdate, MaterializeDeviceUpdate, PrepareDeviceUpdate,
        BeginDeviceUpdateLink, CompleteDeviceUpdateLink, LinkDeviceUpdate, PublishDeviceUpdate, ReopenDeviceUpdate,
        ClaimRange, PrepareRange, OpenRange, ReserveRange, ClaimPublication, ClaimCurrentPublication,
        PreparePublication, LinkPublication, ActivatePublication, ApplyPublication, MarkPublication, AbortPublication,
        FinishPublication;
  }

  lemma {:induction false} StepHistory(s: State, op: Op, initial: nat, done: set<Mark>)
    requires Inv(s, initial) && History(s, done)
    ensures History(Apply(s, op).state, done + Marks(s, op))
  {
    hide Inv, InOrder, LeaseHistory, UpdateHistory, RangeHistory, PublicationHistory, Marks, LeaseMarks, UpdateMarks,
        RangeMarks, PublicationMarks, ApplyLeaseOp, ApplyUpdateOp, ApplyRangeOp, ApplyPublicationOp, Quarantine;
    var r := Apply(s, op).state;
    NoOtherMarks(s, op);
    QuarantinedHistory(s, done);
    HistoryGrows(r, done, Marks(s, op));
    if LeaseOp(op) {
      LeaseMarksInOrder(s, op, done);
      LeaseOpHistory(s, op, done);
      LeaseOpAside(s, op);
    } else if UpdateOp(op) {
      UpdateMarksInOrder(s, op, done);
      UpdateOpHistory(s, op, done);
      UpdateOpLease(s, op, done);
      UpdateOpAside(s, op);
    } else if RangeOp(op) {
      RangeMarksInOrder(s, op, done);
      RangeOpHistory(s, op, done);
      RangeOpAside(s, op);
    } else {
      PublicationMarksInOrder(s, op, done);
      PublicationOpHistory(s, op, initial, done);
      PublicationOpApart(s, op);
      ApartHistory(s, r, done);
    }
  }

  lemma {:induction false} RangeStepAside(s: State, tag: nat, length: nat)
    ensures RangesOnly(s, ClaimRange(s, tag, length).state) && RangesOnly(s, PrepareRange(s, tag).state)
    ensures RangesOnly(s, OpenRange(s, tag).state) && RangesOnly(s, AdvanceRangeHead(s).state)
  {
  }

  predicate RangesOnly(s: State, r: State) {
    r.lease == s.lease && r.update == s.update && r.publication == s.publication
  }

  lemma {:induction false} RangeOpAside(s: State, op: Op)
    requires RangeOp(op)
    ensures RangesOnly(s, ApplyRangeOp(s, op).state)
  {
    hide ClaimRange, PrepareRange, OpenRange, AdvanceRangeHead;
    if op.OpReserveRange? {
      RangeStepAside(s, op.tag, op.length);
      var s1 := ClaimRange(s, op.tag, op.length).state;
      RangeStepAside(s1, op.tag, op.length);
      RangeStepAside(PrepareRange(s1, op.tag).state, op.tag, op.length);
    } else if op.OpAdvanceRangeHead? {
      RangeStepAside(s, 0, 0);
    } else {
      RangeStepAside(s, op.tag, if op.OpClaimRange? then op.length else 0);
    }
  }

  lemma {:induction false} RunHistory(s: State, ops: seq<Op>, initial: nat, n: nat)
    requires Inv(s, initial) && History(s, {}) && n <= |ops|
    ensures History(Run(s, ops)[n], Done(s, ops, n))
    decreases n
  {
    hide Inv, History, Apply, Marks;
    if n > 0 {
      RunHistory(s, ops, initial, n - 1);
      RunInv(s, ops, initial, n - 1);
      StepHistory(Run(s, ops)[n - 1], ops[n - 1], initial, Done(s, ops, n - 1));
    }
  }

  lemma {:induction false} FreshHistory(limits: Limits, highWater: nat, generation: nat, epoch: nat, viewId: ViewId)
    ensures History(Initial(limits, highWater, generation, epoch, viewId), {})
  {
  }

  /**
   * In every run the stage calls of a lease, an update, a range or a publication succeed in their order: whoever
   * got through one has got through the one before it, for the same tag.
   */
  lemma {:induction false} StagesInOrder(limits: Limits, highWater: nat, generation: nat, epoch: nat, viewId: ViewId,
                                         ops: seq<Op>, n: nat)
    requires ValidConfiguration(limits, highWater, generation, epoch, viewId) && n <= |ops|
    ensures InOrder(Done(Initial(limits, highWater, generation, epoch, viewId), ops, n))
  {
    hide Inv, InOrder, Apply, Marks;
    InitialInv(limits, highWater, generation, epoch, viewId);
    FreshHistory(limits, highWater, generation, epoch, viewId);
    RunHistory(Initial(limits, highWater, generation, epoch, viewId), ops, highWater, n);
  }

  /** A call of write_lease_target or publish_lease for this tag succeeded among the first n calls. */
  ghost predicate TargetWritten(s: State, ops: seq<Op>, n: nat, tag: nat)
    requires n <= |ops|
  {
    exists i :: 0 <= i < n && (ops[i] == OpWriteLeaseTarget(tag) || ops[i] == OpPublishLease(tag))
      && Apply(Run(s, ops)[i], ops[i]).ok
  }

  lemma {:induction false} WroteMeansWritten(s: State, ops: seq<Op>, n: nat, tag: nat)
    requires n <= |ops|
    ensures Wrote(Done(s, ops, n), tag) <==> TargetWritten(s, ops, n, tag)
    decreases n
  {
    if n > 0 {
      WroteMeansWritten(s, ops, n - 1, tag);
      WriteMarks(Run(s, ops)[n - 1], ops[n - 1], tag);
      hide Apply, Marks;
      assert TargetWritten(s, ops, n, tag) <==>
        TargetWritten(s, ops, n - 1, tag)
        || ((ops[n - 1] == OpWriteLeaseTarget(tag) || ops[n - 1] == OpPublishLease(tag))
            && Apply(Run(s, ops)[n - 1], ops[n - 1]).ok);
    }
  }

  lemma {:induction false} WriteMarks(s: State, op: Op, tag: nat)
    ensures Wrote(Marks(s, op), tag) <==>
      (op == OpWriteLeaseTarget(tag) || op == OpPublishLease(tag)) && Apply(s, op).ok
  {
    NoOtherMarks(s, op);
    hide Marks, UpdateMarks, RangeMarks, PublicationMarks;
  }

  /**
   * In every state of every run: a lease is Released only if a write or publication for its tag succeeded, and
   * Tombstoned or Revoked only if none did; and a call other than release_lease that ends a Committed or Published
   * lease without quarantining it ends it Released if one did and Tombstoned otherwise.
   */
  lemma {:induction false} SettledByWrites(limits: Limits, highWater: nat, generation: nat, epoch: nat, viewId: ViewId,
                                           ops: seq<Op>, n: nat)
    requires ValidConfiguration(limits, highWater, generation, epoch, viewId) && n <= |ops|
    ensures
      var s := Initial(limits, highWater, generation, epoch, viewId);
      var lease := Run(s, ops)[n].lease;
      && (lease.state.LReleased? ==> TargetWritten(s, ops, n, lease.tag))
      && (lease.state.LTombstoned? || lease.state.LRevoked? ==> !TargetWritten(s, ops, n, lease.tag))
    ensures
      var s := Initial(limits, highWater, generation, epoch, viewId);
      n < |ops| && (Run(s, ops)[n].lease.state.LCommitted? || Run(s, ops)[n].lease.state.LPublished?) ==>
        var before, after := Run(s, ops)[n].lease, Run(s, ops)[n + 1].lease;
        && after.tag == before.tag
        && (!LiveLease(after.state) && !after.state.LQuarantined? && ops[n] != OpReleaseLease(before.tag) ==>
              after.state == if TargetWritten(s, ops, n, before.tag) then LReleased else LTombstoned)
  {
    hide Inv, InOrder, Apply, Marks, UpdateHistory, RangeHistory, PublicationHistory, Done;
    var s := Initial(limits, highWater, generation, epoch, viewId);
    InitialInv(limits, highWater, generation, epoch, viewId);
    FreshHistory(limits, highWater, generation, epoch, viewId);
    RunHistory(s, ops, highWater, n);
    WroteMeansWritten(s, ops, n, Run(s, ops)[n].lease.tag);
    var state := Run(s, ops)[n].lease.state;
    if n < |ops| && (state.LCommitted? || state.LPublished?) { CommittedEnds(Run(s, ops)[n], ops[n], Done(s, ops, n)); }
  }

  /** How a Committed or Published lease ends, if it ends. */
  ghost predicate Ends(s: State, after: LeaseRecord, op: Op, done: set<Mark>) {
    && after.tag == s.lease.tag
    && (!LiveLease(after.state) && !after.state.LQuarantined? && op != OpReleaseLease(s.lease.tag) ==>
          after.state == if Wrote(done, s.lease.tag) then LReleased else LTombstoned)
  }

  lemma {:induction false} LeaseOpEnds(s: State, op: Op, done: set<Mark>)
    requires LeaseHistory(s.lease, done) && (s.lease.state.LCommitted? || s.lease.state.LPublished?) && LeaseOp(op)
    ensures Ends(s, ApplyLeaseOp(s, op).state.lease, op, done)
  {
  }

  lemma {:induction false} PutEnds(s: State, after: LeaseRecord, op: Op, done: set<Mark>)
    requires LeaseHistory(s.lease, done) && (s.lease.state.LCommitted? || s.lease.state.LPublished?) && Put(s, after)
    ensures Ends(s, after, op, done)
  {
  }

  lemma {:induction false} CommittedEnds(s: State, op: Op, done: set<Mark>)
    requires LeaseHistory(s.lease, done) && (s.lease.state.LCommitted? || s.lease.state.LPublished?)
    ensures Ends(s, Apply(s, op).state.lease, op, done)
  {
    hide ApplyLeaseOp, ApplyUpdateOp, ApplyRangeOp, ApplyPublicationOp, Quarantine, SettleLeaseForClose, LeaseHistory,
        Ends;
    if LeaseOp(op) {
      LeaseOpEnds(s, op, done);
    } else {
      if UpdateOp(op) {
        LeaseAfterUpdateOp(s, op);
      } else if RangeOp(op) {
        RangeOpAside(s, op);
      } else {
        PublicationOpApart(s, op);
      }
      PutEnds(s, Apply(s, op).state.lease, op, done);
    }
  }
}
