// Value model of the recovery state machine (runtime/core/src/recovery_model.cpp).
//
// `State` holds the fields of the source's `Model`; every public operation of `Model` is a
// function from a state to an `Outcome` (new state and returned flag).  `RecoveryModel.Model`
// is the mutable object; its methods are proved equal to these functions.
module RecoveryState {

  datatype ViewState = ViewOpen | ViewClosing | ViewTerminal | ViewQuarantined
  datatype DeviceState = DeviceOpen | DeviceUpdating | DeviceClosed
  datatype Owner = Live | Dead
  datatype AttemptState = AIdle | AEntering | AClaiming | AInitializing | AReady | AExited
  datatype LeaseState = LFree | LInitializing | LReserved | LCommitting | LCommitted | LPublished
                      | LReleased | LRevoked | LTombstoned | LQuarantined
  datatype UpdateState = UFree | UInitializing | UPrepared | ULinking | UActive | UFencePublished
                       | UReopened | UAborted | UClosed | UTerminal | UQuarantined
  datatype PublishState = PFree | PInitializing | PPrepared | PLinking | PActive | PPublished
                        | PAborted | PTerminal | PQuarantined
  datatype RangeState = RFree | RInitializing | RPrepared | ROpen | RRetired | RTerminal | RQuarantined

  const U32 := 0x1_0000_0000
  const U64 := 0x1_0000_0000_0000_0000
  type u32 = n: nat | n < U32
  type u64 = n: nat | n < U64

  /** Terminal values in the source's widths; the invariant keeps every counter below its terminal. */
  datatype Limits = Limits(sequenceTerminal: u64, generationTerminal: u32, tagTerminal: u32, epochTerminal: u64)
  datatype ViewId = ViewId(daemonIncarnation: nat, viewSerial: nat)
  datatype ReadSnapshot = ReadSnapshot(viewId: ViewId, viewGeneration: nat, deviceGeneration: nat, epoch: nat)
  datatype AdmissionToken = AdmissionToken(viewId: ViewId, viewGeneration: nat, deviceGeneration: nat,
                                           attemptTag: nat, leaseTag: nat)
  datatype AttemptRecord = AttemptRecord(tag: nat, state: AttemptState, owner: Owner, viewGeneration: nat,
                                         deviceGeneration: nat, targetLeaseTag: nat)
  datatype LeaseRecord = LeaseRecord(tag: nat, state: LeaseState, owner: Owner, viewGeneration: nat,
                                     deviceGeneration: nat, targetWritten: bool, publicationMarker: bool)
  datatype UpdateRecord = UpdateRecord(tag: nat, state: UpdateState, owner: Owner, oldGeneration: nat,
                                       newGeneration: nat, oldEpoch: nat, newEpoch: nat, fencePublished: bool)
  datatype RangeRecord = RangeRecord(tag: nat, state: RangeState, begin: nat, end: nat, tokenGeneration: nat,
                                     unusedBegin: nat, unusedEnd: nat)
  datatype RangeToken = RangeToken(viewId: ViewId, viewGeneration: nat, tokenGeneration: nat, rangeTag: nat,
                                   rangeBegin: nat, rangeEnd: nat)
  datatype PublishRecord = PublishRecord(tag: nat, state: PublishState, owner: Owner, rangeTag: nat,
                                         tokenGeneration: nat, rangeBegin: nat, rangeEnd: nat,
                                         targetSequence: nat, payloadApplied: bool, requiresCompensation: bool)

  datatype Option<+T> = None | Some(value: T)

  const NO_ATTEMPT := AttemptRecord(0, AIdle, Live, 0, 0, 0)
  const NO_UPDATE := UpdateRecord(0, UFree, Live, 0, 0, 0, 0, false)
  const NO_RANGE := RangeRecord(0, RFree, 0, 0, 0, 0, 0)

  /** A value-initialised lease record carrying only a tag. */
  function FreeLease(tag: nat): LeaseRecord { LeaseRecord(tag, LFree, Live, 0, 0, false, false) }

  /** A value-initialised publication record carrying only a tag. */
  function FreePublication(tag: nat): PublishRecord {
    PublishRecord(tag, PFree, Live, 0, 0, 0, 0, 0, false, false)
  }

  /** Capacity of the archive of retired ranges. */
  const RETIRED_CAPACITY := 2

  datatype State = State(
    limits: Limits, valid: bool, viewId: ViewId,
    viewState: ViewState, deviceState: DeviceState,
    viewGeneration: nat, deviceGeneration: nat, rangeTokenGeneration: nat, rangeTagHighWater: nat,
    deviceUpdateTag: nat, epoch: nat, allocationHighWater: nat, publicationCursor: nat,
    intermediateVisible: bool, committedAdmissions: nat, compensationCount: nat,
    attempt: AttemptRecord, lease: LeaseRecord, update: UpdateRecord,
    range: RangeRecord, following: RangeRecord, retired: seq<RangeRecord>,
    publication: PublishRecord)

  datatype Outcome = Outcome(state: State, ok: bool)

  predicate ValidConfiguration(limits: Limits, highWater: nat, generation: nat, epoch: nat, viewId: ViewId) {
    && limits.sequenceTerminal >= 3 && limits.generationTerminal >= 3
    && limits.tagTerminal >= 3 && limits.epochTerminal >= 3
    && highWater < limits.sequenceTerminal
    && 0 < generation < limits.generationTerminal
    && 0 < epoch < limits.epochTerminal
    && viewId.daemonIncarnation != 0 && viewId.viewSerial != 0
  }

  function Initial(limits: Limits, highWater: nat, generation: nat, epoch: nat, viewId: ViewId): State {
    var valid := ValidConfiguration(limits, highWater, generation, epoch, viewId);
    State(limits, valid, viewId,
          if valid then ViewOpen else ViewQuarantined, if valid then DeviceOpen else DeviceClosed,
          generation, generation, generation, 0, 0, epoch, highWater, highWater, false, 0, 0,
          NO_ATTEMPT, FreeLease(0), NO_UPDATE, NO_RANGE, NO_RANGE, [], FreePublication(0))
  }

  // ---- Shared guards ----

  predicate AddsBelow(current: nat, increment: nat, terminal: nat) {
    current < terminal && increment < terminal - current
  }

  predicate NextTag(s: State, current: nat, proposed: nat) {
    0 < proposed < s.limits.tagTerminal && proposed == current + 1
  }

  predicate ControlsMatch(s: State, viewGeneration: nat, deviceGeneration: nat) {
    && s.valid && s.viewState == ViewOpen && s.deviceState == DeviceOpen
    && s.viewGeneration == viewGeneration && s.deviceGeneration == deviceGeneration
  }

  predicate LiveLease(state: LeaseState) {
    state.LInitializing? || state.LReserved? || state.LCommitting? || state.LCommitted? || state.LPublished?
  }

  // ---- Attempts and leases ----

  function EnterAttempt(s: State, tag: nat): Outcome {
    if !s.valid || s.viewState != ViewOpen || s.deviceState != DeviceOpen
       || (s.attempt.state != AIdle && s.attempt.state != AExited) || !NextTag(s, s.attempt.tag, tag)
    then Outcome(s, false)
    else Outcome(s.(attempt := AttemptRecord(tag, AEntering, Live, s.viewGeneration, s.deviceGeneration, 0)), true)
  }

  function ClaimLease(s: State, attemptTag: nat, leaseTag: nat): Outcome {
    if s.attempt.tag != attemptTag || s.attempt.state != AEntering || s.lease.state != LFree
       || !NextTag(s, s.lease.tag, leaseTag)
       || !ControlsMatch(s, s.attempt.viewGeneration, s.attempt.deviceGeneration)
    then Outcome(s, false)
    else Outcome(s.(attempt := s.attempt.(state := AInitializing, targetLeaseTag := leaseTag),
                    lease := LeaseRecord(leaseTag, LInitializing, Live, s.attempt.viewGeneration,
                                         s.attempt.deviceGeneration, false, false)), true)
  }

  function MaterializeLease(s: State, attemptTag: nat, leaseTag: nat): Outcome {
    if s.attempt.tag != attemptTag || s.attempt.state != AInitializing || s.attempt.targetLeaseTag != leaseTag
       || s.lease.tag != leaseTag || s.lease.state != LInitializing
       || !ControlsMatch(s, s.lease.viewGeneration, s.lease.deviceGeneration)
    then Outcome(s, false)
    else Outcome(s.(lease := s.lease.(state := LReserved), attempt := s.attempt.(state := AReady)), true)
  }

  function ReserveLease(s: State, attemptTag: nat, leaseTag: nat): Outcome {
    var claimed := ClaimLease(s, attemptTag, leaseTag);
    if claimed.ok then MaterializeLease(claimed.state, attemptTag, leaseTag) else claimed
  }

  function CurrentAdmissionToken(s: State): Option<AdmissionToken> {
    if s.attempt.state != AReady || s.lease.state != LReserved || s.attempt.targetLeaseTag != s.lease.tag
    then None
    else Some(AdmissionToken(s.viewId, s.lease.viewGeneration, s.lease.deviceGeneration,
                             s.attempt.tag, s.lease.tag))
  }

  predicate AdmissionTokenMatches(s: State, token: AdmissionToken) {
    && token.viewId == s.viewId && token.attemptTag == s.attempt.tag && token.leaseTag == s.lease.tag
    && s.attempt.targetLeaseTag == s.lease.tag
    && s.attempt.state == AReady && s.lease.state == LReserved
    && ControlsMatch(s, token.viewGeneration, token.deviceGeneration)
    && token.viewGeneration == s.attempt.viewGeneration && token.deviceGeneration == s.attempt.deviceGeneration
    && token.viewGeneration == s.lease.viewGeneration && token.deviceGeneration == s.lease.deviceGeneration
  }

  function BeginLeaseCommit(s: State, leaseTag: nat): Outcome {
    if s.lease.tag != leaseTag || s.lease.state != LReserved || s.attempt.state != AReady
       || !ControlsMatch(s, s.lease.viewGeneration, s.lease.deviceGeneration)
    then Outcome(s, false)
    else Outcome(s.(lease := s.lease.(state := LCommitting)), true)
  }

  function BeginTokenCommit(s: State, token: AdmissionToken): Outcome {
    if AdmissionTokenMatches(s, token) then BeginLeaseCommit(s, token.leaseTag) else Outcome(s, false)
  }

  function FinishLeaseCommit(s: State, leaseTag: nat): Outcome {
    if s.lease.tag != leaseTag || s.lease.state != LCommitting then Outcome(s, false)
    else Outcome(s.(lease := s.lease.(state := LCommitted),
                    committedAdmissions := (s.committedAdmissions + 1) % U32), true)
  }

  function WriteLeaseTarget(s: State, leaseTag: nat): Outcome {
    if s.lease.tag != leaseTag || s.lease.state != LCommitted then Outcome(s, false)
    else Outcome(s.(lease := s.lease.(targetWritten := true)), true)
  }

  function PublishLease(s: State, leaseTag: nat): Outcome {
    if s.lease.tag != leaseTag || s.lease.state != LCommitted then Outcome(s, false)
    else Outcome(s.(lease := s.lease.(targetWritten := true, publicationMarker := true, state := LPublished)), true)
  }

  function ReleaseLease(s: State, leaseTag: nat): Outcome {
    if s.lease.tag != leaseTag || s.lease.state != LPublished then Outcome(s, false)
    else
      var attempt := if s.attempt.targetLeaseTag == leaseTag then s.attempt.(state := AExited) else s.attempt;
      Outcome(s.(lease := s.lease.(state := LReleased), attempt := attempt), true)
  }

  /** A committed lease settles by whether its target write landed. */
  function SettleCommitted(lease: LeaseRecord): LeaseRecord {
    if lease.targetWritten then lease.(publicationMarker := true, state := LReleased)
    else lease.(state := LTombstoned)
  }

  function RecoverDeadLease(s: State, leaseTag: nat): Outcome {
    if s.lease.tag != leaseTag then Outcome(s, false)
    else
      var dead := s.lease.(owner := Dead);
      match s.lease.state
      case LFree | LQuarantined => Outcome(s.(lease := dead), false)
      case _ =>
        var settled :=
          match s.lease.state
          case LInitializing | LReserved | LCommitting => dead.(state := LTombstoned)
          case LCommitted => SettleCommitted(dead)
          case LPublished => dead.(state := LReleased)
          case _ => dead;
        var attempt := if s.attempt.targetLeaseTag == leaseTag
                       then s.attempt.(owner := Dead, state := AExited) else s.attempt;
        Outcome(s.(lease := settled, attempt := attempt), true)
  }

  function ExpireLiveLease(s: State, leaseTag: nat): Outcome {
    if s.lease.tag != leaseTag || s.lease.owner != Live || !LiveLease(s.lease.state) then Outcome(s, false)
    else Outcome(Quarantine(s.(lease := s.lease.(state := LQuarantined))), true)
  }

  function ReclaimLease(s: State, newTag: nat): Outcome {
    if (s.lease.state != LReleased && s.lease.state != LRevoked && s.lease.state != LTombstoned)
       || !NextTag(s, s.lease.tag, newTag) || s.attempt.state != AExited
    then Outcome(s, false)
    else Outcome(s.(lease := FreeLease(newTag)), true)
  }

  function ExitAttempt(attempt: AttemptRecord): AttemptRecord {
    if attempt.state != AIdle && attempt.state != AExited then attempt.(state := AExited) else attempt
  }

  function SettleLeaseForClose(s: State): State {
    var lease :=
      match s.lease.state
      case LInitializing | LCommitting => s.lease.(state := LTombstoned)
      case LReserved => s.lease.(state := LRevoked)
      case LCommitted => SettleCommitted(s.lease)
      case LPublished => s.lease.(state := LReleased)
      case _ => s.lease;
    s.(lease := lease, attempt := ExitAttempt(s.attempt))
  }

  // ---- Closing and quarantine ----

  function CloseView(s: State): State {
    if !s.valid || s.viewState == ViewTerminal || s.viewState == ViewQuarantined then s
    else if s.publication.state != PFree && s.publication.state != PTerminal then Quarantine(s)
    else
      var closing := s.(viewState := ViewClosing, viewGeneration := s.limits.generationTerminal);
      SettleLeaseForClose(CloseDevice(closing)).(viewState := ViewTerminal)
  }

  function CloseDevice(s: State): State {
    if !s.valid || (s.deviceState == DeviceClosed && s.deviceGeneration == s.limits.generationTerminal) then s
    else
      var update :=
        match s.update.state
        case UInitializing | UPrepared | ULinking | UActive | UFencePublished | UReopened =>
          s.update.(state := UClosed)
        case _ => s.update;
      SettleLeaseForClose(s.(deviceState := DeviceClosed, deviceGeneration := s.limits.generationTerminal,
                             deviceUpdateTag := 0, update := update))
  }

  function QuarantineRange(range: RangeRecord): RangeRecord {
    if range.state.RInitializing? || range.state.RPrepared? || range.state.ROpen?
    then range.(state := RQuarantined) else range
  }

  function Quarantine(s: State): State {
    s.(viewState := ViewQuarantined, viewGeneration := s.limits.generationTerminal,
       deviceState := DeviceClosed, deviceGeneration := s.limits.generationTerminal, deviceUpdateTag := 0,
       lease := if LiveLease(s.lease.state) then s.lease.(state := LQuarantined) else s.lease,
       update := if s.update.state.UFree? || s.update.state.UTerminal? || s.update.state.UClosed?
                    || s.update.state.UAborted?
                 then s.update else s.update.(state := UQuarantined),
       publication := if s.publication.state.PFree? || s.publication.state.PTerminal? || s.publication.state.PAborted?
                      then s.publication else s.publication.(state := PQuarantined),
       range := QuarantineRange(s.range), following := QuarantineRange(s.following),
       attempt := ExitAttempt(s.attempt))
  }

  // ---- Device updates ----

  function ClaimDeviceUpdate(s: State, tag: nat): Outcome {
    if !s.valid || s.viewState != ViewOpen || s.deviceState != DeviceOpen
       || (s.update.state != UFree && s.update.state != UTerminal) || !NextTag(s, s.update.tag, tag)
       || !AddsBelow(s.deviceGeneration, 1, s.limits.generationTerminal)
       || s.deviceGeneration + 1 >= U32
       || !AddsBelow(s.epoch, 1, s.limits.epochTerminal)
    then Outcome(s, false)
    else Outcome(s.(update := UpdateRecord(tag, UInitializing, Live, s.deviceGeneration, s.deviceGeneration + 1,
                                           s.epoch, s.epoch + 1, false)), true)
  }

  function MaterializeDeviceUpdate(s: State, tag: nat): Outcome {
    if s.update.tag != tag || s.update.state != UInitializing then Outcome(s, false)
    else Outcome(s.(update := s.update.(state := UPrepared)), true)
  }

  function PrepareDeviceUpdate(s: State, tag: nat): Outcome {
    var claimed := ClaimDeviceUpdate(s, tag);
    if claimed.ok then MaterializeDeviceUpdate(claimed.state, tag) else claimed
  }

  function BeginDeviceUpdateLink(s: State, tag: nat): Outcome {
    if s.update.tag != tag || s.update.state != UPrepared then Outcome(s, false)
    else Outcome(s.(update := s.update.(state := ULinking)), true)
  }

  predicate LinkStillCurrent(s: State) {
    && s.viewState == ViewOpen && s.deviceState == DeviceOpen
    && s.deviceGeneration == s.update.oldGeneration && s.epoch == s.update.oldEpoch
  }

  function InstallLink(s: State, tag: nat): State {
    var linked := SettleLeaseForClose(
      s.(deviceState := DeviceUpdating, deviceGeneration := s.update.newGeneration,
         epoch := s.update.newEpoch, deviceUpdateTag := tag));
    linked.(update := linked.update.(state := UActive))
  }

  function CompleteDeviceUpdateLink(s: State, tag: nat): Outcome {
    if s.update.tag != tag || s.update.state != ULinking then Outcome(s, false)
    else if !LinkStillCurrent(s) then Outcome(s.(update := s.update.(state := UClosed)), false)
    else Outcome(InstallLink(s, tag), true)
  }

  function LinkDeviceUpdate(s: State, tag: nat): Outcome {
    var begun := BeginDeviceUpdateLink(s, tag);
    if begun.ok then CompleteDeviceUpdateLink(begun.state, tag) else begun
  }

  predicate UpdateTupleMatches(s: State, tag: nat) {
    && s.deviceState == DeviceUpdating && s.deviceGeneration == s.update.newGeneration
    && s.deviceUpdateTag == tag && s.update.tag == tag
  }

  function PublishDeviceUpdate(s: State, tag: nat): Outcome {
    if s.update.tag != tag || s.update.state != UActive || !UpdateTupleMatches(s, tag) then Outcome(s, false)
    else Outcome(s.(update := s.update.(fencePublished := true, state := UFencePublished)), true)
  }

  function ReopenDeviceUpdate(s: State, tag: nat): Outcome {
    if s.update.tag != tag || s.update.state != UFencePublished || !s.update.fencePublished
       || !UpdateTupleMatches(s, tag)
    then Outcome(s, false)
    else Outcome(s.(deviceState := DeviceOpen, deviceUpdateTag := 0,
                    update := s.update.(state := UReopened)), true)
  }

  function FinishDeviceUpdate(s: State, tag: nat): Outcome {
    if s.update.tag != tag
       || (s.update.state != UReopened && s.update.state != UAborted && s.update.state != UClosed)
    then Outcome(s, false)
    else Outcome(s.(update := s.update.(state := UTerminal)), true)
  }

  function RecoverDeadDeviceUpdate(s: State, tag: nat): Outcome {
    if s.update.tag != tag then Outcome(s, false)
    else
      var dead := s.(update := s.update.(owner := Dead));
      if dead.update.state.UInitializing? || dead.update.state.UPrepared?
      then RecoverSettled(dead.(update := dead.update.(state := UAborted)))
      else if !dead.update.state.ULinking? then RecoverLinked(dead, tag)
      else if LinkStillCurrent(dead) then RecoverLinked(InstallLink(dead, tag), tag)
      else RecoverSettled(dead.(update := dead.update.(state := UClosed)))
  }

  function RecoverLinked(s: State, tag: nat): Outcome {
    if s.update.state != UActive then RecoverFenced(s, tag)
    else
      var published := PublishDeviceUpdate(s, tag);
      if published.ok then RecoverFenced(published.state, tag)
      else RecoverSettled(s.(update := s.update.(state := UClosed)))
  }

  function RecoverFenced(s: State, tag: nat): Outcome {
    if s.update.state != UFencePublished then RecoverSettled(s)
    else
      var reopened := ReopenDeviceUpdate(s, tag);
      if reopened.ok then RecoverSettled(reopened.state)
      else RecoverSettled(s.(update := s.update.(state := UClosed)))
  }

  function RecoverSettled(s: State): Outcome {
    if s.update.state.UReopened? || s.update.state.UAborted? || s.update.state.UClosed?
    then Outcome(s.(update := s.update.(state := UTerminal)), true)
    else Outcome(s, s.update.state.UTerminal?)
  }

  function ExpireLiveDeviceUpdate(s: State, tag: nat): Outcome {
    if s.update.tag != tag || s.update.owner != Live || s.update.state.UFree? || s.update.state.UAborted?
       || s.update.state.UClosed? || s.update.state.UTerminal? || s.update.state.UQuarantined?
    then Outcome(s, false)
    else Outcome(Quarantine(s.(update := s.update.(state := UQuarantined))), true)
  }

  // ---- Lifecycle sequence ranges ----

  function ClaimRange(s: State, tag: nat, length: nat): Outcome {
    if !s.valid || length == 0 || s.viewState != ViewOpen || !NextTag(s, s.rangeTagHighWater, tag)
       || !AddsBelow(s.allocationHighWater, length, s.limits.sequenceTerminal)
       || !AddsBelow(s.rangeTokenGeneration, 1, s.limits.generationTerminal)
       || s.rangeTokenGeneration + 1 >= U32
    then Outcome(s, false)
    else
      var claimed := RangeRecord(tag, RInitializing, s.allocationHighWater + 1, s.allocationHighWater + length,
                                 s.rangeTokenGeneration + 1, 0, 0);
      if s.range.state.RFree? then Outcome(s.(rangeTagHighWater := tag, range := claimed), true)
      else if (s.range.state.RRetired? || s.range.state.RTerminal?) && s.following.state.RFree? then
        if s.range.state.RRetired? && |s.retired| >= RETIRED_CAPACITY then Outcome(s, false)
        else
          var archive := if s.range.state.RRetired? then s.retired + [s.range] else s.retired;
          Outcome(s.(rangeTagHighWater := tag, retired := archive, range := claimed), true)
      else if s.range.state.ROpen? && s.following.state.RFree? then
        Outcome(s.(rangeTagHighWater := tag, following := claimed), true)
      else Outcome(s, false)
  }

  datatype Slot = NoSlot | HeadSlot | FollowingSlot

  /** The slot holding an unopened range with this tag, head first. */
  function InitializingSlot(s: State, tag: nat): Slot {
    if s.range.tag == tag && (s.range.state.RInitializing? || s.range.state.RPrepared?) then HeadSlot
    else if s.following.tag == tag && (s.following.state.RInitializing? || s.following.state.RPrepared?)
    then FollowingSlot
    else NoSlot
  }

  function PrepareRange(s: State, tag: nat): Outcome {
    match InitializingSlot(s, tag)
    case HeadSlot =>
      if s.range.state != RInitializing then Outcome(s, false)
      else Outcome(s.(range := s.range.(state := RPrepared)), true)
    case FollowingSlot =>
      if s.following.state != RInitializing then Outcome(s, false)
      else Outcome(s.(following := s.following.(state := RPrepared)), true)
    case NoSlot => Outcome(s, false)
  }

  predicate MayOpen(s: State, candidate: RangeRecord) {
    && candidate.state == RPrepared && candidate.begin != 0
    && candidate.begin - 1 == s.allocationHighWater
    && candidate.end < s.limits.sequenceTerminal
    && AddsBelow(s.rangeTokenGeneration, 1, s.limits.generationTerminal)
    && candidate.tokenGeneration == s.rangeTokenGeneration + 1
  }

  function OpenRange(s: State, tag: nat): Outcome {
    match InitializingSlot(s, tag)
    case HeadSlot =>
      if !MayOpen(s, s.range) then Outcome(s, false)
      else Outcome(s.(allocationHighWater := s.range.end, rangeTokenGeneration := s.range.tokenGeneration,
                      range := s.range.(state := ROpen)), true)
    case FollowingSlot =>
      if !MayOpen(s, s.following) || s.range.state != ROpen then Outcome(s, false)
      else Outcome(s.(allocationHighWater := s.following.end,
                      rangeTokenGeneration := s.following.tokenGeneration,
                      following := s.following.(state := ROpen)), true)
    case NoSlot => Outcome(s, false)
  }

  function ReserveRange(s: State, tag: nat, length: nat): Outcome {
    var claimed := ClaimRange(s, tag, length);
    if !claimed.ok then claimed
    else
      var prepared := PrepareRange(claimed.state, tag);
      if !prepared.ok then prepared else OpenRange(prepared.state, tag)
  }

  function TokenOf(s: State, range: RangeRecord): RangeToken {
    RangeToken(s.viewId, s.viewGeneration, range.tokenGeneration, range.tag, range.begin, range.end)
  }

  function CurrentRangeToken(s: State): Option<RangeToken> {
    if s.range.state != ROpen then None else Some(TokenOf(s, s.range))
  }

  predicate RangeRecordMatches(s: State, range: RangeRecord, token: RangeToken) {
    token == TokenOf(s, range)
  }

  predicate RangeTokenValid(s: State, token: RangeToken) {
    && s.valid && s.viewState == ViewOpen && token.viewGeneration == s.viewGeneration
    && ((s.range.state == ROpen && RangeRecordMatches(s, s.range, token))
        || (s.following.state == ROpen && RangeRecordMatches(s, s.following, token)))
  }

  function AdvanceRangeHead(s: State): Outcome {
    if s.range.state != RRetired || s.following.state != ROpen
       || (s.publication.state != PFree && s.publication.state != PTerminal)
       || |s.retired| >= RETIRED_CAPACITY
    then Outcome(s, false)
    else Outcome(s.(retired := s.retired + [s.range], range := s.following, following := NO_RANGE), true)
  }

  // ---- Publications ----

  function Max(a: nat, b: nat): nat { if a < b then b else a }

  /** The sequence number the next publication out of the head range takes. */
  function NextSequence(s: State): nat { Max(s.range.begin, s.publicationCursor + 1) }

  function ClaimPublication(s: State, token: RangeToken, tag: nat, requiresCompensation: bool): Outcome {
    if !RangeTokenValid(s, token) || !RangeRecordMatches(s, s.range, token)
       || (s.publication.state != PFree && s.publication.state != PTerminal)
       || !NextTag(s, s.publication.tag, tag)
       || !AddsBelow(s.publicationCursor, 1, s.limits.sequenceTerminal)
       || NextSequence(s) > s.range.end
    then Outcome(s, false)
    else Outcome(s.(publication := PublishRecord(tag, PInitializing, Live, token.rangeTag, token.tokenGeneration,
                                                 token.rangeBegin, token.rangeEnd, NextSequence(s), false,
                                                 requiresCompensation)), true)
  }

  function ClaimCurrentPublication(s: State, tag: nat, requiresCompensation: bool): Outcome {
    var token := CurrentRangeToken(s);
    if token.Some? then ClaimPublication(s, token.value, tag, requiresCompensation) else Outcome(s, false)
  }

  predicate RangeMatches(publication: PublishRecord, range: RangeRecord) {
    && range.state == ROpen && publication.rangeTag == range.tag
    && publication.tokenGeneration == range.tokenGeneration
    && publication.rangeBegin == range.begin && publication.rangeEnd == range.end
  }

  predicate PublicationRangeMatches(s: State) { RangeMatches(s.publication, s.range) }

  function PreparePublication(s: State, tag: nat): Outcome {
    if s.publication.tag != tag || s.publication.state != PInitializing then Outcome(s, false)
    else Outcome(s.(publication := s.publication.(state := PPrepared)), true)
  }

  function LinkPublication(s: State, tag: nat): Outcome {
    if s.publication.tag != tag || s.publication.state != PPrepared then Outcome(s, false)
    else Outcome(s.(publication := s.publication.(state := PLinking)), true)
  }

  function ActivatePublication(s: State, tag: nat): Outcome {
    if s.publication.tag != tag || s.publication.state != PLinking || s.viewState != ViewOpen
       || !PublicationRangeMatches(s)
    then Outcome(s, false)
    else Outcome(s.(publication := s.publication.(state := PActive)), true)
  }

  function ApplyPublication(s: State, tag: nat): Outcome {
    if s.publication.tag != tag || s.publication.state != PActive || s.publication.payloadApplied
       || s.viewState != ViewOpen || !PublicationRangeMatches(s)
       || !AddsBelow(s.publicationCursor, 1, s.limits.sequenceTerminal)
       || s.publication.targetSequence != NextSequence(s)
    then Outcome(s, false)
    else Outcome(s.(publicationCursor := s.publication.targetSequence,
                    publication := s.publication.(payloadApplied := true),
                    intermediateVisible := s.publication.requiresCompensation), true)
  }

  function MarkPublication(s: State, tag: nat): Outcome {
    if s.publication.tag != tag || s.publication.state != PActive || !s.publication.payloadApplied
       || s.viewState != ViewOpen || !PublicationRangeMatches(s)
       || s.publicationCursor != s.publication.targetSequence
    then Outcome(s, false)
    else Outcome(s.(publication := s.publication.(state := PPublished)), true)
  }

  /** A range retired with its unpublished tail recorded. */
  function RetireAt(range: RangeRecord, cursor: nat): RangeRecord {
    if cursor < range.begin then
      range.(unusedBegin := range.begin, unusedEnd := range.end, state := RRetired)
    else if cursor < range.end then
      range.(unusedBegin := cursor + 1, unusedEnd := range.end, state := RRetired)
    else range.(unusedBegin := 0, unusedEnd := 0, state := RRetired)
  }

  function FinishPublication(s: State, tag: nat): Outcome {
    if s.publication.tag != tag
       || !(s.publication.state.PAborted? || (s.publication.state.PPublished? && !s.intermediateVisible))
       || !PublicationRangeMatches(s)
    then Outcome(s, false)
    else Outcome(s.(range := RetireAt(s.range, s.publicationCursor), publication := s.publication.(state := PTerminal)),
                 true)
  }

  function AbortPublication(s: State, tag: nat): Outcome {
    if s.publication.tag != tag || (s.publication.state != PInitializing && s.publication.state != PPrepared)
    then Outcome(s, false)
    else Outcome(s.(publication := s.publication.(state := PAborted)), true)
  }

  /** Private in the source: only recovery of a dead publisher reaches it. */
  function Compensate(s: State): Outcome {
    if !s.intermediateVisible || s.viewState != ViewOpen || !PublicationRangeMatches(s)
       || !AddsBelow(s.publicationCursor, 1, s.limits.sequenceTerminal)
       || s.publicationCursor + 1 > s.range.end
    then Outcome(s, false)
    else Outcome(s.(publicationCursor := s.publicationCursor + 1, intermediateVisible := false,
                    compensationCount := (s.compensationCount + 1) % U32), true)
  }

  function QuarantinePublication(s: State): Outcome {
    var q := Quarantine(s);
    Outcome(q.(publication := q.publication.(state := PQuarantined)), false)
  }

  function RecoverDeadPublication(s: State, tag: nat): Outcome {
    if s.publication.tag != tag then Outcome(s, false)
    else
      var dead := s.(publication := s.publication.(owner := Dead));
      if dead.publication.state.PInitializing? || dead.publication.state.PPrepared? then
        FinishPublication(dead.(publication := dead.publication.(state := PAborted)), tag)
      else if dead.publication.state.PAborted? then FinishPublication(dead, tag)
      else if dead.publication.state.PLinking? then
        var activated := ActivatePublication(dead, tag);
        if activated.ok then RecoverActive(activated.state, tag) else QuarantinePublication(dead)
      else RecoverActive(dead, tag)
  }

  function RecoverActive(s: State, tag: nat): Outcome {
    if s.publication.state.PActive? && !s.publication.payloadApplied then
      var applied := ApplyPublication(s, tag);
      if applied.ok then RecoverApplied(applied.state, tag) else QuarantinePublication(s)
    else RecoverApplied(s, tag)
  }

  function RecoverApplied(s: State, tag: nat): Outcome {
    if s.publication.state.PActive? then
      var marked := MarkPublication(s, tag);
      if marked.ok then RecoverPublished(marked.state, tag) else QuarantinePublication(s)
    else RecoverPublished(s, tag)
  }

  function RecoverPublished(s: State, tag: nat): Outcome {
    if s.publication.state.PPublished? && s.intermediateVisible then
      var compensated := Compensate(s);
      if compensated.ok then FinishPublication(compensated.state, tag) else QuarantinePublication(s)
    else if s.publication.state.PPublished? then FinishPublication(s, tag)
    else Outcome(s, s.publication.state.PTerminal?)
  }

  function ExpireLivePublication(s: State, tag: nat): Outcome {
    if s.publication.tag != tag || s.publication.owner != Live || s.publication.state.PFree?
       || s.publication.state.PAborted? || s.publication.state.PTerminal? || s.publication.state.PQuarantined?
    then Outcome(s, false)
    else Outcome(Quarantine(s.(publication := s.publication.(state := PQuarantined),
                               range := s.range.(state := RQuarantined))), true)
  }

  function ReclaimPublication(s: State, newTag: nat): Outcome {
    if s.publication.state != PTerminal || s.range.state != RRetired || !NextTag(s, s.publication.tag, newTag)
    then Outcome(s, false)
    else Outcome(s.(publication := FreePublication(newTag)), true)
  }

  // ---- Readers ----

  function BeginRead(s: State): Option<ReadSnapshot> {
    if !ControlsMatch(s, s.viewGeneration, s.deviceGeneration) then None
    else Some(ReadSnapshot(s.viewId, s.viewGeneration, s.deviceGeneration, s.epoch))
  }

  predicate FinishRead(s: State, snapshot: ReadSnapshot) {
    && snapshot.viewId == s.viewId && snapshot.epoch == s.epoch
    && ControlsMatch(s, snapshot.viewGeneration, snapshot.deviceGeneration)
  }

  // ---- Runs ----

  /** One call of a public mutating operation. */
  datatype Op =
    | OpEnterAttempt(tag: nat)
    | OpClaimLease(tag: nat, leaseTag: nat)
    | OpMaterializeLease(tag: nat, leaseTag: nat)
    | OpReserveLease(tag: nat, leaseTag: nat)
    | OpBeginTokenCommit(admission: AdmissionToken)
    | OpBeginLeaseCommit(tag: nat)
    | OpFinishLeaseCommit(tag: nat)
    | OpWriteLeaseTarget(tag: nat)
    | OpPublishLease(tag: nat)
    | OpReleaseLease(tag: nat)
    | OpRecoverDeadLease(tag: nat)
    | OpExpireLiveLease(tag: nat)
    | OpReclaimLease(tag: nat)
    | OpCloseView
    | OpCloseDevice
    | OpClaimDeviceUpdate(tag: nat)
    | OpMaterializeDeviceUpdate(tag: nat)
    | OpPrepareDeviceUpdate(tag: nat)
    | OpBeginDeviceUpdateLink(tag: nat)
    | OpCompleteDeviceUpdateLink(tag: nat)
    | OpLinkDeviceUpdate(tag: nat)
    | OpPublishDeviceUpdate(tag: nat)
    | OpReopenDeviceUpdate(tag: nat)
    | OpFinishDeviceUpdate(tag: nat)
    | OpRecoverDeadDeviceUpdate(tag: nat)
    | OpExpireLiveDeviceUpdate(tag: nat)
    | OpClaimRange(tag: nat, length: nat)
    | OpPrepareRange(tag: nat)
    | OpOpenRange(tag: nat)
    | OpReserveRange(tag: nat, length: nat)
    | OpAdvanceRangeHead
    | OpClaimPublication(token: RangeToken, tag: nat, requiresCompensation: bool)
    | OpClaimCurrentPublication(tag: nat, requiresCompensation: bool)
    | OpPreparePublication(tag: nat)
    | OpLinkPublication(tag: nat)
    | OpActivatePublication(tag: nat)
    | OpApplyPublication(tag: nat)
    | OpMarkPublication(tag: nat)
    | OpFinishPublication(tag: nat)
    | OpAbortPublication(tag: nat)
    | OpRecoverDeadPublication(tag: nat)
    | OpExpireLivePublication(tag: nat)
    | OpReclaimPublication(tag: nat)

  predicate LeaseOp(op: Op) {
    op.OpEnterAttempt? || op.OpClaimLease? || op.OpMaterializeLease? || op.OpReserveLease? || op.OpBeginTokenCommit?
    || op.OpBeginLeaseCommit? || op.OpFinishLeaseCommit? || op.OpWriteLeaseTarget? || op.OpPublishLease?
    || op.OpReleaseLease? || op.OpRecoverDeadLease? || op.OpExpireLiveLease? || op.OpReclaimLease?
  }

  predicate UpdateOp(op: Op) {
    op.OpCloseView? || op.OpCloseDevice? || op.OpClaimDeviceUpdate? || op.OpMaterializeDeviceUpdate?
    || op.OpPrepareDeviceUpdate? || op.OpBeginDeviceUpdateLink? || op.OpCompleteDeviceUpdateLink?
    || op.OpLinkDeviceUpdate? || op.OpPublishDeviceUpdate? || op.OpReopenDeviceUpdate? || op.OpFinishDeviceUpdate?
    || op.OpRecoverDeadDeviceUpdate? || op.OpExpireLiveDeviceUpdate?
  }

  predicate RangeOp(op: Op) {
    op.OpClaimRange? || op.OpPrepareRange? || op.OpOpenRange? || op.OpReserveRange? || op.OpAdvanceRangeHead?
  }

  function ApplyLeaseOp(s: State, op: Op): Outcome
    requires LeaseOp(op)
  {
    match op
    case OpEnterAttempt(t) => EnterAttempt(s, t)
    case OpClaimLease(t, l) => ClaimLease(s, t, l)
    case OpMaterializeLease(t, l) => MaterializeLease(s, t, l)
    case OpReserveLease(t, l) => ReserveLease(s, t, l)
    case OpBeginTokenCommit(a) => BeginTokenCommit(s, a)
    case OpBeginLeaseCommit(t) => BeginLeaseCommit(s, t)
    case OpFinishLeaseCommit(t) => FinishLeaseCommit(s, t)
    case OpWriteLeaseTarget(t) => WriteLeaseTarget(s, t)
    case OpPublishLease(t) => PublishLease(s, t)
    case OpReleaseLease(t) => ReleaseLease(s, t)
    case OpRecoverDeadLease(t) => RecoverDeadLease(s, t)
    case OpExpireLiveLease(t) => ExpireLiveLease(s, t)
    case OpReclaimLease(t) => ReclaimLease(s, t)
  }

  function ApplyUpdateOp(s: State, op: Op): Outcome
    requires UpdateOp(op)
  {
    match op
    case OpCloseView => Outcome(CloseView(s), true)
    case OpCloseDevice => Outcome(CloseDevice(s), true)
    case OpClaimDeviceUpdate(t) => ClaimDeviceUpdate(s, t)
    case OpMaterializeDeviceUpdate(t) => MaterializeDeviceUpdate(s, t)
    case OpPrepareDeviceUpdate(t) => PrepareDeviceUpdate(s, t)
    case OpBeginDeviceUpdateLink(t) => BeginDeviceUpdateLink(s, t)
    case OpCompleteDeviceUpdateLink(t) => CompleteDeviceUpdateLink(s, t)
    case OpLinkDeviceUpdate(t) => LinkDeviceUpdate(s, t)
    case OpPublishDeviceUpdate(t) => PublishDeviceUpdate(s, t)
    case OpReopenDeviceUpdate(t) => ReopenDeviceUpdate(s, t)
    case OpFinishDeviceUpdate(t) => FinishDeviceUpdate(s, t)
    case OpRecoverDeadDeviceUpdate(t) => RecoverDeadDeviceUpdate(s, t)
    case OpExpireLiveDeviceUpdate(t) => ExpireLiveDeviceUpdate(s, t)
  }

  function ApplyRangeOp(s: State, op: Op): Outcome
    requires RangeOp(op)
  {
    match op
    case OpClaimRange(t, n) => ClaimRange(s, t, n)
    case OpPrepareRange(t) => PrepareRange(s, t)
    case OpOpenRange(t) => OpenRange(s, t)
    case OpReserveRange(t, n) => ReserveRange(s, t, n)
    case OpAdvanceRangeHead => AdvanceRangeHead(s)
  }

  function ApplyPublicationOp(s: State, op: Op): Outcome
    requires !LeaseOp(op) && !UpdateOp(op) && !RangeOp(op)
  {
    match op
    case OpClaimPublication(k, t, c) => ClaimPublication(s, k, t, c)
    case OpClaimCurrentPublication(t, c) => ClaimCurrentPublication(s, t, c)
    case OpPreparePublication(t) => PreparePublication(s, t)
    case OpLinkPublication(t) => LinkPublication(s, t)
    case OpActivatePublication(t) => ActivatePublication(s, t)
    case OpApplyPublication(t) => ApplyPublication(s, t)
    case OpMarkPublication(t) => MarkPublication(s, t)
    case OpFinishPublication(t) => FinishPublication(s, t)
    case OpAbortPublication(t) => AbortPublication(s, t)
    case OpRecoverDeadPublication(t) => RecoverDeadPublication(s, t)
    case OpExpireLivePublication(t) => ExpireLivePublication(s, t)
    case OpReclaimPublication(t) => ReclaimPublication(s, t)
  }

  function Apply(s: State, op: Op): Outcome {
    if LeaseOp(op) then ApplyLeaseOp(s, op)
    else if UpdateOp(op) then ApplyUpdateOp(s, op)
    else if RangeOp(op) then ApplyRangeOp(s, op)
    else ApplyPublicationOp(s, op)
  }

  /** The states of a run: `Run(s, ops)[i]` is the state before the i-th call, the last one the final state. */
  function Run(s: State, ops: seq<Op>): (run: seq<State>)
    ensures |run| == |ops| + 1 && run[0] == s
    ensures forall i :: 0 <= i < |ops| ==> run[i + 1] == Apply(run[i], ops[i]).state
    decreases |ops|
  {
    if ops == [] then [s]
    else
      var tail := Run(Apply(s, ops[0]).state, ops[1..]);
      assert forall i :: 0 < i < |ops| ==> ops[i] == ops[1..][i - 1];
      [s] + tail
  }

  // ---- The source's own consistency check ----

  predicate ValidRange(limits: Limits, range: RangeRecord) {
    if range.state.RFree? then range.begin == 0 && range.end == 0
    else
      && 0 < range.begin <= range.end < limits.sequenceTerminal
      && 0 < range.tokenGeneration < limits.generationTerminal
      && ((range.unusedBegin == 0 && range.unusedEnd == 0)
          || (range.state.RRetired? && range.begin <= range.unusedBegin <= range.end
              && range.unusedEnd == range.end))
  }

  predicate LivePublication(state: PublishState) {
    state.PInitializing? || state.PPrepared? || state.PLinking? || state.PActive? || state.PPublished?
  }

  predicate InvariantsHold(s: State) {
    && s.valid && s.allocationHighWater < s.limits.sequenceTerminal
    && s.publicationCursor <= s.allocationHighWater
    && 0 < s.viewGeneration <= s.limits.generationTerminal
    && 0 < s.deviceGeneration <= s.limits.generationTerminal
    && 0 < s.rangeTokenGeneration < s.limits.generationTerminal
    && 0 < s.epoch < s.limits.epochTerminal
    && s.attempt.tag < s.limits.tagTerminal && s.lease.tag < s.limits.tagTerminal
    && s.update.tag < s.limits.tagTerminal && s.rangeTagHighWater < s.limits.tagTerminal
    && s.range.tag < s.limits.tagTerminal && s.following.tag < s.limits.tagTerminal
    && s.publication.tag < s.limits.tagTerminal && |s.retired| <= RETIRED_CAPACITY
    && (s.viewState.ViewTerminal? || s.viewState.ViewQuarantined? ==>
          s.deviceState.DeviceClosed? && s.deviceGeneration == s.limits.generationTerminal
          && !LiveLease(s.lease.state))
    && (s.deviceState.DeviceUpdating? ==>
          s.deviceUpdateTag != 0 && s.update.tag == s.deviceUpdateTag
          && (s.update.state.UActive? || s.update.state.UFencePublished?))
    && (s.update.state.UActive? || s.update.state.UFencePublished? ==>
          s.update.newGeneration == s.deviceGeneration && s.update.newEpoch == s.epoch)
    && (s.intermediateVisible ==>
          s.publication.payloadApplied
          && (s.publication.state.PActive? || s.publication.state.PPublished? || s.publication.state.PQuarantined?)
          && (s.viewState.ViewOpen? || s.viewState.ViewQuarantined?))
    && ValidRange(s.limits, s.range) && ValidRange(s.limits, s.following)
    && (!s.following.state.RFree? ==>
          (s.range.state.ROpen? || s.range.state.RRetired? || s.range.state.RQuarantined?)
          && s.range.end + 1 == s.following.begin)
    && (forall i :: 0 <= i < |s.retired| ==> s.retired[i].state.RRetired? && ValidRange(s.limits, s.retired[i]))
    && (LivePublication(s.publication.state) ==> PublicationRangeMatches(s))
  }
}
