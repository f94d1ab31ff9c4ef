// An inductive strengthening of `InvariantsHold`, and its preservation by every operation.
module RecoveryInvariants {
  import opened RecoveryState

  /** View and device words: closing is one-way, and a closed view has a closed device. */
  ghost predicate ControlInv(limits: Limits, view: ViewState, device: DeviceState, viewGeneration: nat,
                             deviceGeneration: nat, epoch: nat)
  {
    && !view.ViewClosing?
    && 0 < deviceGeneration <= limits.generationTerminal
    && 0 < viewGeneration <= limits.generationTerminal
    && (view.ViewOpen? <==> viewGeneration < limits.generationTerminal)
    && (device.DeviceClosed? <==> deviceGeneration == limits.generationTerminal)
    && (!view.ViewOpen? ==> device.DeviceClosed?)
    && 0 < epoch < limits.epochTerminal
  }

  ghost predicate ActiveAttempt(state: AttemptState) {
    state.AEntering? || state.AInitializing? || state.AReady?
  }

  /** Attempt and lease move together, under the generations they captured, and only while the device is open. */
  ghost predicate LeaseInv(limits: Limits, device: DeviceState, viewGeneration: nat, deviceGeneration: nat,
                           attempt: AttemptRecord, lease: LeaseRecord, committed: nat)
  {
    && attempt.tag < limits.tagTerminal && lease.tag < limits.tagTerminal
    && !attempt.state.AClaiming?
    && (!device.DeviceOpen? ==> !LiveLease(lease.state) && !ActiveAttempt(attempt.state))
    && (attempt.state.AInitializing? <==> lease.state.LInitializing?)
    && (attempt.state.AReady? <==> LiveLease(lease.state) && !lease.state.LInitializing?)
    && (ActiveAttempt(attempt.state) ==>
          attempt.viewGeneration == viewGeneration && attempt.deviceGeneration == deviceGeneration)
    && (attempt.state.AEntering? ==> attempt.targetLeaseTag == 0)
    && (LiveLease(lease.state) ==>
          lease.owner == Live && attempt.targetLeaseTag == lease.tag
          && lease.viewGeneration == viewGeneration && lease.deviceGeneration == deviceGeneration)
    && (!lease.state.LFree? ==> 0 < lease.tag)
    && (lease.state.LPublished? || lease.state.LReleased? ==> lease.targetWritten && lease.publicationMarker)
    && (lease.targetWritten ==>
          lease.state.LCommitted? || lease.state.LPublished? || lease.state.LReleased? || lease.state.LQuarantined?)
    && committed <= lease.tag
    && (lease.state.LInitializing? || lease.state.LReserved? || lease.state.LCommitting? ==> committed < lease.tag)
  }

  ghost predicate PendingUpdate(state: UpdateState) {
    state.UInitializing? || state.UPrepared? || state.ULinking?
  }

  /** The device word is Updating exactly while one linked update owns it. */
  ghost predicate UpdateInv(limits: Limits, device: DeviceState, deviceGeneration: nat, epoch: nat, updateTag: nat,
                            update: UpdateRecord)
  {
    && update.tag < limits.tagTerminal
    && (device.DeviceUpdating? <==> update.state.UActive? || update.state.UFencePublished?)
    && (if device.DeviceUpdating?
        then updateTag == update.tag && update.newGeneration == deviceGeneration && update.newEpoch == epoch
        else updateTag == 0)
    && (update.state.UFencePublished? ==> update.fencePublished)
    && (!update.state.UFree? ==> 0 < update.tag)
    && (PendingUpdate(update.state) ==>
          && device.DeviceOpen?
          && deviceGeneration == update.oldGeneration && epoch == update.oldEpoch
          && update.newGeneration == update.oldGeneration + 1 < limits.generationTerminal
          && update.newEpoch == update.oldEpoch + 1 < limits.epochTerminal)
  }

  /** A range has been opened exactly when its numbers are below the allocation high water. */
  ghost predicate Opened(highWater: nat, range: RangeRecord) {
    !range.state.RFree? && range.end <= highWater
  }

  /** Shape of one range slot. */
  ghost predicate SlotInv(limits: Limits, token: nat, tagHighWater: nat, highWater: nat, range: RangeRecord) {
    && ValidRange(limits, range) && !range.state.RTerminal?
    && range.tag <= tagHighWater
    && (range.state.ROpen? || range.state.RRetired? ==> Opened(highWater, range))
    && (range.state.RInitializing? || range.state.RPrepared? ==> !Opened(highWater, range))
    && (!range.state.RFree? ==> 0 < range.tag)
    && (!range.state.RFree? && !Opened(highWater, range) ==>
          range.begin == highWater + 1 && range.tokenGeneration == token + 1)
    && (Opened(highWater, range) ==> range.tokenGeneration <= token)
  }

  /** The last number before the head range. */
  function ArchiveEnd(retired: seq<RangeRecord>, initial: nat): nat {
    if |retired| == 0 then initial else retired[|retired| - 1].end
  }

  /** Archived ranges are retired and follow each other from the initial high water. */
  ghost predicate ArchiveInv(limits: Limits, retired: seq<RangeRecord>, initial: nat) {
    && |retired| <= RETIRED_CAPACITY
    && (forall i :: 0 <= i < |retired| ==>
          && retired[i].state.RRetired? && ValidRange(limits, retired[i])
          && retired[i].begin == ArchiveEnd(retired[..i], initial) + 1)
  }

  ghost predicate RangeInv(limits: Limits, token: nat, tagHighWater: nat, highWater: nat, head: RangeRecord,
                           following: RangeRecord, retired: seq<RangeRecord>, initial: nat)
  {
    && tagHighWater < limits.tagTerminal && initial <= highWater < limits.sequenceTerminal
    && 0 < token < limits.generationTerminal
    && SlotInv(limits, token, tagHighWater, highWater, head)
    && SlotInv(limits, token, tagHighWater, highWater, following)
    && ArchiveInv(limits, retired, initial)
    && (!head.state.RFree? ==> head.begin == ArchiveEnd(retired, initial) + 1)
    && (!following.state.RFree? ==>
          && following.begin == head.end + 1 && head.tag < following.tag && Opened(highWater, head)
          && !following.state.RRetired?)
    && highWater == (if Opened(highWater, following) then following.end
                     else if Opened(highWater, head) then head.end
                     else ArchiveEnd(retired, initial))
  }

  /** The cursor only moves inside the open head range, on behalf of the one live publication. */
  ghost predicate PublicationInv(limits: Limits, view: ViewState, highWater: nat, head: RangeRecord, cursor: nat,
                                 visible: bool, compensations: nat, publication: PublishRecord, initial: nat)
  {
    && publication.tag < limits.tagTerminal
    && initial <= cursor <= highWater
    && (!head.state.RFree? ==> cursor <= head.end && (Opened(highWater, head) || cursor < head.begin))
    && (LivePublication(publication.state) ==>
          && RangeMatches(publication, head) && view.ViewOpen?
          && compensations < publication.tag
          && if publication.payloadApplied
             then cursor == publication.targetSequence >= head.begin
                  && (publication.state.PActive? || publication.state.PPublished?)
                  && visible == publication.requiresCompensation
             else publication.targetSequence == Max(head.begin, cursor + 1) <= head.end
                  && !publication.state.PPublished?)
    && (publication.state.PAborted? ==> RangeMatches(publication, head) || view.ViewQuarantined?)
    && (publication.state.PQuarantined? ==> view.ViewQuarantined?)
    && (visible ==>
          publication.payloadApplied
          && (publication.state.PActive? || publication.state.PPublished? || publication.state.PQuarantined?))
    && compensations <= publication.tag
  }

  ghost predicate Inv(s: State, initial: nat) {
    && s.valid
    && ControlInv(s.limits, s.viewState, s.deviceState, s.viewGeneration, s.deviceGeneration, s.epoch)
    && LeaseInv(s.limits, s.deviceState, s.viewGeneration, s.deviceGeneration, s.attempt, s.lease,
                s.committedAdmissions)
    && UpdateInv(s.limits, s.deviceState, s.deviceGeneration, s.epoch, s.deviceUpdateTag, s.update)
    && RangeInv(s.limits, s.rangeTokenGeneration, s.rangeTagHighWater, s.allocationHighWater, s.range, s.following,
                s.retired, initial)
    && PublicationInv(s.limits, s.viewState, s.allocationHighWater, s.range, s.publicationCursor,
                      s.intermediateVisible, s.compensationCount, s.publication, initial)
  }

  lemma {:induction false} InitialInv(limits: Limits, highWater: nat, generation: nat, epoch: nat, viewId: ViewId)
    requires ValidConfiguration(limits, highWater, generation, epoch, viewId)
    ensures Inv(Initial(limits, highWater, generation, epoch, viewId), highWater)
  {
  }

  lemma {:induction false} InvImpliesInvariantsHold(s: State, initial: nat)
    requires Inv(s, initial)
    ensures InvariantsHold(s)
  {
  }

  lemma {:induction false} QuarantineRanges(limits: Limits, token: nat, tags: nat, highWater: nat, head: RangeRecord,
                                            following: RangeRecord,
    retired: seq<RangeRecord>, initial: nat)
    requires RangeInv(limits, token, tags, highWater, head, following, retired, initial)
    ensures RangeInv(limits, token, tags, highWater, QuarantineRange(head), QuarantineRange(following), retired,
                     initial)
  {
  }

  lemma {:induction false} PrepareSlot(limits: Limits, token: nat, tags: nat, highWater: nat, head: RangeRecord,
                                       following: RangeRecord,
    retired: seq<RangeRecord>, initial: nat)
    requires RangeInv(limits, token, tags, highWater, head, following, retired, initial)
    ensures head.state.RInitializing? ==>
      RangeInv(limits, token, tags, highWater, head.(state := RPrepared), following, retired, initial)
    ensures following.state.RInitializing? ==>
      RangeInv(limits, token, tags, highWater, head, following.(state := RPrepared), retired, initial)
  {
  }

  lemma {:induction false} OpenSlot(limits: Limits, token: nat, tags: nat, highWater: nat, head: RangeRecord,
                                    following: RangeRecord,
    retired: seq<RangeRecord>, initial: nat)
    requires RangeInv(limits, token, tags, highWater, head, following, retired, initial)
    ensures head.state.RPrepared? ==>
      RangeInv(limits, head.tokenGeneration, tags, head.end, head.(state := ROpen), following, retired, initial)
    ensures following.state.RPrepared? ==>
      RangeInv(limits, following.tokenGeneration, tags, following.end, head, following.(state := ROpen), retired,
               initial)
  {
  }

  lemma {:induction false} ClaimSlot(limits: Limits, token: nat, tags: nat, highWater: nat, head: RangeRecord,
                                     following: RangeRecord,
    retired: seq<RangeRecord>, initial: nat, tag: nat, length: nat)
    requires RangeInv(limits, token, tags, highWater, head, following, retired, initial)
    requires length > 0 && tag == tags + 1 < limits.tagTerminal && token + 1 < limits.generationTerminal
    requires highWater + length < limits.sequenceTerminal
    ensures
      var claimed := RangeRecord(tag, RInitializing, highWater + 1, highWater + length, token + 1, 0, 0);
      && (head.state.RFree? ==> RangeInv(limits, token, tag, highWater, claimed, following, retired, initial))
      && (head.state.RRetired? && following.state.RFree? && |retired| < RETIRED_CAPACITY ==>
            RangeInv(limits, token, tag, highWater, claimed, following, retired + [head], initial))
      && (head.state.ROpen? && following.state.RFree? ==>
            RangeInv(limits, token, tag, highWater, head, claimed, retired, initial))
  {
    if head.state.RRetired? {
      ArchiveHead(limits, retired, head, initial);
    }
  }

  lemma {:induction false} RetireSlot(limits: Limits, token: nat, tags: nat, highWater: nat, head: RangeRecord,
                                      following: RangeRecord,
    retired: seq<RangeRecord>, initial: nat, cursor: nat)
    requires RangeInv(limits, token, tags, highWater, head, following, retired, initial) && head.state.ROpen?
    ensures RangeInv(limits, token, tags, highWater, RetireAt(head, cursor), following, retired, initial)
  {
  }

  lemma {:induction false} ArchiveHead(limits: Limits, retired: seq<RangeRecord>, head: RangeRecord, initial: nat)
    requires ArchiveInv(limits, retired, initial) && head.state.RRetired? && ValidRange(limits, head)
    requires head.begin == ArchiveEnd(retired, initial) + 1
    ensures |retired| < RETIRED_CAPACITY ==> ArchiveInv(limits, retired + [head], initial)
    ensures ArchiveEnd(retired + [head], initial) == head.end
  {
    var archive := retired + [head];
    assert archive[..|retired|] == retired;
    assert forall i :: 0 <= i < |retired| ==> archive[..i] == retired[..i];
  }

  lemma {:induction false} QuarantineInv(s: State, initial: nat)
    requires Inv(s, initial)
    ensures Inv(Quarantine(s), initial)
  {
    QuarantineRanges(s.limits, s.rangeTokenGeneration, s.rangeTagHighWater, s.allocationHighWater, s.range, s.following,
                     s.retired, initial);
  }

  lemma {:induction false} EnterAttemptInv(s: State, tag: nat, initial: nat)
    requires Inv(s, initial)
    ensures Inv(EnterAttempt(s, tag).state, initial)
  {
  }

  lemma {:induction false} ClaimLeaseInv(s: State, attemptTag: nat, leaseTag: nat, initial: nat)
    requires Inv(s, initial)
    ensures Inv(ClaimLease(s, attemptTag, leaseTag).state, initial)
  {
  }

  lemma {:induction false} MaterializeLeaseInv(s: State, attemptTag: nat, leaseTag: nat, initial: nat)
    requires Inv(s, initial)
    ensures Inv(MaterializeLease(s, attemptTag, leaseTag).state, initial)
  {
  }

  lemma {:induction false} BeginLeaseCommitInv(s: State, tag: nat, initial: nat)
    requires Inv(s, initial)
    ensures Inv(BeginLeaseCommit(s, tag).state, initial)
  {
  }

  lemma {:induction false} FinishLeaseCommitInv(s: State, tag: nat, initial: nat)
    requires Inv(s, initial)
    ensures Inv(FinishLeaseCommit(s, tag).state, initial)
  {
  }

  lemma {:induction false} WriteLeaseTargetInv(s: State, tag: nat, initial: nat)
    requires Inv(s, initial)
    ensures Inv(WriteLeaseTarget(s, tag).state, initial)
  {
  }

  lemma {:induction false} PublishLeaseInv(s: State, tag: nat, initial: nat)
    requires Inv(s, initial)
    ensures Inv(PublishLease(s, tag).state, initial)
  {
  }

  lemma {:induction false} ReleaseLeaseInv(s: State, tag: nat, initial: nat)
    requires Inv(s, initial)
    ensures Inv(ReleaseLease(s, tag).state, initial)
  {
  }

  lemma {:induction false} RecoverDeadLeaseInv(s: State, tag: nat, initial: nat)
    requires Inv(s, initial)
    ensures Inv(RecoverDeadLease(s, tag).state, initial)
  {
  }

  lemma {:induction false} ExpireLiveLeaseInv(s: State, tag: nat, initial: nat)
    requires Inv(s, initial)
    ensures Inv(ExpireLiveLease(s, tag).state, initial)
  {
    if ExpireLiveLease(s, tag).ok {
      assert ExpireLiveLease(s, tag).state == Quarantine(s);
      QuarantineInv(s, initial);
    }
  }

  lemma {:induction false} ReclaimLeaseInv(s: State, tag: nat, initial: nat)
    requires Inv(s, initial)
    ensures Inv(ReclaimLease(s, tag).state, initial)
  {
  }

  lemma {:induction false} ClaimDeviceUpdateInv(s: State, tag: nat, initial: nat)
    requires Inv(s, initial)
    ensures Inv(ClaimDeviceUpdate(s, tag).state, initial)
  {
  }

  lemma {:induction false} MaterializeDeviceUpdateInv(s: State, tag: nat, initial: nat)
    requires Inv(s, initial)
    ensures Inv(MaterializeDeviceUpdate(s, tag).state, initial)
  {
  }

  lemma {:induction false} BeginDeviceUpdateLinkInv(s: State, tag: nat, initial: nat)
    requires Inv(s, initial)
    ensures Inv(BeginDeviceUpdateLink(s, tag).state, initial)
  {
  }

  lemma {:induction false} CompleteDeviceUpdateLinkInv(s: State, tag: nat, initial: nat)
    requires Inv(s, initial)
    ensures Inv(CompleteDeviceUpdateLink(s, tag).state, initial)
  {
  }

  lemma {:induction false} PublishDeviceUpdateInv(s: State, tag: nat, initial: nat)
    requires Inv(s, initial)
    ensures Inv(PublishDeviceUpdate(s, tag).state, initial)
  {
  }

  lemma {:induction false} ReopenDeviceUpdateInv(s: State, tag: nat, initial: nat)
    requires Inv(s, initial)
    ensures Inv(ReopenDeviceUpdate(s, tag).state, initial)
  {
  }

  lemma {:induction false} FinishDeviceUpdateInv(s: State, tag: nat, initial: nat)
    requires Inv(s, initial)
    ensures Inv(FinishDeviceUpdate(s, tag).state, initial)
  {
  }

  lemma {:induction false} ExpireLiveDeviceUpdateInv(s: State, tag: nat, initial: nat)
    requires Inv(s, initial)
    ensures Inv(ExpireLiveDeviceUpdate(s, tag).state, initial)
  {
    if ExpireLiveDeviceUpdate(s, tag).ok {
      assert ExpireLiveDeviceUpdate(s, tag).state == Quarantine(s);
      QuarantineInv(s, initial);
    }
  }

  lemma {:induction false} ClaimRangeInv(s: State, tag: nat, length: nat, initial: nat)
    requires Inv(s, initial)
    ensures Inv(ClaimRange(s, tag, length).state, initial)
  {
    if ClaimRange(s, tag, length).ok {
      ClaimSlot(s.limits, s.rangeTokenGeneration, s.rangeTagHighWater, s.allocationHighWater, s.range, s.following,
                s.retired, initial, tag, length);
    }
  }

  lemma {:induction false} PrepareRangeInv(s: State, tag: nat, initial: nat)
    requires Inv(s, initial)
    ensures Inv(PrepareRange(s, tag).state, initial)
  {
    PrepareSlot(s.limits, s.rangeTokenGeneration, s.rangeTagHighWater, s.allocationHighWater, s.range, s.following,
                s.retired, initial);
  }

  lemma {:induction false} OpenRangeInv(s: State, tag: nat, initial: nat)
    requires Inv(s, initial)
    ensures Inv(OpenRange(s, tag).state, initial)
  {
    if OpenRange(s, tag).ok {
      OpenSlot(s.limits, s.rangeTokenGeneration, s.rangeTagHighWater, s.allocationHighWater, s.range, s.following,
               s.retired, initial);
    }
  }

  lemma {:induction false} AdvanceRangeHeadInv(s: State, initial: nat)
    requires Inv(s, initial)
    ensures Inv(AdvanceRangeHead(s).state, initial)
  {
  }

  lemma {:induction false} ClaimPublicationInv(s: State, token: RangeToken, tag: nat, compensate: bool, initial: nat)
    requires Inv(s, initial)
    ensures Inv(ClaimPublication(s, token, tag, compensate).state, initial)
  {
  }

  lemma {:induction false} PreparePublicationInv(s: State, tag: nat, initial: nat)
    requires Inv(s, initial)
    ensures Inv(PreparePublication(s, tag).state, initial)
  {
  }

  lemma {:induction false} LinkPublicationInv(s: State, tag: nat, initial: nat)
    requires Inv(s, initial)
    ensures Inv(LinkPublication(s, tag).state, initial)
  {
  }

  lemma {:induction false} ActivatePublicationInv(s: State, tag: nat, initial: nat)
    requires Inv(s, initial)
    ensures Inv(ActivatePublication(s, tag).state, initial)
  {
  }

  lemma {:induction false} ApplyPublicationInv(s: State, tag: nat, initial: nat)
    requires Inv(s, initial)
    ensures Inv(ApplyPublication(s, tag).state, initial)
  {
  }

  lemma {:induction false} MarkPublicationInv(s: State, tag: nat, initial: nat)
    requires Inv(s, initial)
    ensures Inv(MarkPublication(s, tag).state, initial)
  {
  }

  lemma {:induction false} FinishPublicationInv(s: State, tag: nat, initial: nat)
    requires Inv(s, initial)
    ensures Inv(FinishPublication(s, tag).state, initial)
  {
    if FinishPublication(s, tag).ok {
      RetireSlot(s.limits, s.rangeTokenGeneration, s.rangeTagHighWater, s.allocationHighWater, s.range, s.following,
                 s.retired, initial, s.publicationCursor);
    }
  }

  lemma {:induction false} AbortPublicationInv(s: State, tag: nat, initial: nat)
    requires Inv(s, initial)
    ensures Inv(AbortPublication(s, tag).state, initial)
  {
  }

  lemma {:induction false} ExpireLivePublicationInv(s: State, tag: nat, initial: nat)
    requires Inv(s, initial)
    ensures Inv(ExpireLivePublication(s, tag).state, initial)
  {
    if ExpireLivePublication(s, tag).ok {
      assert ExpireLivePublication(s, tag).state == Quarantine(s);
      QuarantineInv(s, initial);
    }
  }

  lemma {:induction false} ReclaimPublicationInv(s: State, tag: nat, initial: nat)
    requires Inv(s, initial)
    ensures Inv(ReclaimPublication(s, tag).state, initial)
  {
  }

  lemma {:induction false} CloseDeviceInv(s: State, initial: nat)
    requires Inv(s, initial)
    ensures Inv(CloseDevice(s), initial)
  {
  }

  lemma {:induction false} CloseViewUnfolds(s: State)
    requires s.valid && s.viewState.ViewOpen? && (s.publication.state.PFree? || s.publication.state.PTerminal?)
    requires s.deviceState.DeviceClosed? ==>
      !LiveLease(s.lease.state) && (s.attempt.state.AIdle? || s.attempt.state.AExited?)
    ensures CloseView(s) == CloseDevice(s).(viewState := ViewTerminal, viewGeneration := s.limits.generationTerminal)
  {
    var closing := s.(viewState := ViewClosing, viewGeneration := s.limits.generationTerminal);
    assert SettleLeaseForClose(CloseDevice(closing)) == CloseDevice(closing);
  }

  lemma {:induction false} TerminalViewInv(s: State, initial: nat)
    requires Inv(s, initial) && s.deviceState.DeviceClosed?
    requires s.publication.state.PFree? || s.publication.state.PTerminal?
    ensures Inv(s.(viewState := ViewTerminal, viewGeneration := s.limits.generationTerminal), initial)
  {
  }

  lemma {:induction false} CloseViewInv(s: State, initial: nat)
    requires Inv(s, initial)
    ensures Inv(CloseView(s), initial)
  {
    if s.viewState.ViewOpen? {
      if s.publication.state.PFree? || s.publication.state.PTerminal? {
        CloseViewUnfolds(s);
        CloseDeviceInv(s, initial);
        TerminalViewInv(CloseDevice(s), initial);
      } else {
        QuarantineInv(s, initial);
      }
    }
  }

  // ---- Recovery of a dead owner is the owner's remaining calls ----

  /** The calls an update owner still has to make; a call that has already happened is refused. */
  function LiveUpdatePath(s: State, tag: nat): State {
    var linked := CompleteDeviceUpdateLink(s, tag).state;
    var published := PublishDeviceUpdate(linked, tag).state;
    var reopened := ReopenDeviceUpdate(published, tag).state;
    FinishDeviceUpdate(reopened, tag).state
  }

  /** The public calls a publication owner still has to make. */
  function LivePublicationPath(s: State, tag: nat): Outcome {
    FinishPublication(MarkedPublication(s, tag), tag)
  }

  /** What recovery makes of a linked publication: it alone may compensate before finishing. */
  function RecoveredPublication(s: State, tag: nat): State {
    FinishPublication(Compensate(MarkedPublication(s, tag)).state, tag).state
  }

  function MarkedPublication(s: State, tag: nat): State {
    var activated := ActivatePublication(s, tag).state;
    var applied := ApplyPublication(activated, tag).state;
    MarkPublication(applied, tag).state
  }

  function WithDeadUpdateOwner(s: State): State { s.(update := s.update.(owner := Dead)) }

  function WithDeadPublisher(s: State): State { s.(publication := s.publication.(owner := Dead)) }

  ghost predicate LinkedUpdate(state: UpdateState) {
    state.ULinking? || state.UActive? || state.UFencePublished? || state.UReopened? || state.UClosed?
        || state.UTerminal?
  }

  ghost predicate LinkedPublication(state: PublishState) {
    state.PLinking? || state.PActive? || state.PPublished?
  }

  lemma {:induction false} UpdateCrashEquivalence(s: State, tag: nat, initial: nat)
    requires Inv(s, initial) && s.update.tag == tag && LinkedUpdate(s.update.state)
    ensures RecoverDeadDeviceUpdate(s, tag) == Outcome(WithDeadUpdateOwner(LiveUpdatePath(s, tag)), true)
  {
    LinkingCrash(s, tag);
    CompleteDeviceUpdateLinkInv(s, tag, initial);
    LinkedCrash(CompleteDeviceUpdateLink(s, tag).state, tag);
  }

  lemma {:induction false} LinkingCrash(s: State, tag: nat)
    requires UpdateInv(s.limits, s.deviceState, s.deviceGeneration, s.epoch, s.deviceUpdateTag, s.update)
    requires s.viewState.ViewOpen? || s.deviceState.DeviceClosed?
    requires s.update.tag == tag && LinkedUpdate(s.update.state)
    ensures
      var linked := CompleteDeviceUpdateLink(s, tag).state;
      && RecoverDeadDeviceUpdate(s, tag) == RecoverLinked(WithDeadUpdateOwner(linked), tag)
      && linked.update.tag == tag && LinkedUpdate(linked.update.state) && !linked.update.state.ULinking?
  {
    var dead := WithDeadUpdateOwner(s);
    if s.update.state.ULinking? {
      assert InstallLink(dead, tag) == WithDeadUpdateOwner(InstallLink(s, tag));
    }
  }

  lemma {:induction false} LinkedCrash(s: State, tag: nat)
    requires UpdateInv(s.limits, s.deviceState, s.deviceGeneration, s.epoch, s.deviceUpdateTag, s.update)
    requires s.update.tag == tag && LinkedUpdate(s.update.state) && !s.update.state.ULinking?
    ensures RecoverLinked(WithDeadUpdateOwner(s), tag) == Outcome(
              WithDeadUpdateOwner(FinishDeviceUpdate(
                ReopenDeviceUpdate(PublishDeviceUpdate(s, tag).state, tag).state, tag).state), true)
  {
    var published := PublishDeviceUpdate(s, tag).state;
    assert RecoverLinked(WithDeadUpdateOwner(s), tag) == RecoverFenced(WithDeadUpdateOwner(published), tag);
    FencedCrash(published, tag);
  }

  lemma {:induction false} FencedCrash(s: State, tag: nat)
    requires UpdateInv(s.limits, s.deviceState, s.deviceGeneration, s.epoch, s.deviceUpdateTag, s.update)
    requires s.update.tag == tag && LinkedUpdate(s.update.state)
    requires !s.update.state.ULinking? && !s.update.state.UActive?
    ensures RecoverFenced(WithDeadUpdateOwner(s), tag) == Outcome(
              WithDeadUpdateOwner(FinishDeviceUpdate(ReopenDeviceUpdate(s, tag).state, tag).state), true)
  {
  }

  lemma {:induction false} UpdateCrashBeforeLink(s: State, tag: nat, initial: nat)
    requires Inv(s, initial) && s.update.tag == tag
    requires s.update.state.UInitializing? || s.update.state.UPrepared? || s.update.state.UAborted?
    ensures RecoverDeadDeviceUpdate(s, tag) == Outcome(s.(update := s.update.(owner := Dead, state := UTerminal)), true)
  {
  }

  /** The compensation, if one is owed, still fits the range the publication drew from. */
  predicate CompensationFits(s: State) {
    s.publication.requiresCompensation ==> s.publication.targetSequence < s.range.end
  }

  lemma {:induction false} LinkedRecoveryOutcome(s: State, tag: nat, initial: nat)
    requires Inv(s, initial) && s.publication.tag == tag && LinkedPublication(s.publication.state)
    ensures RecoverDeadPublication(s, tag) ==
      if CompensationFits(s) then Outcome(WithDeadPublisher(RecoveredPublication(s, tag)), true)
      else Outcome(WithDeadPublisher(Quarantine(MarkedPublication(s, tag))), false)
  {
    var activated := ActivatePublication(s, tag).state;
    assert ActivatePublication(WithDeadPublisher(s), tag).state == WithDeadPublisher(activated);
    assert RecoverDeadPublication(s, tag) == RecoverActive(WithDeadPublisher(activated), tag);
    ActiveCrash(activated, tag, initial);
  }

  lemma {:induction false} ActiveCrash(s: State, tag: nat, initial: nat)
    requires s.range.end <= s.allocationHighWater && s.range.end < s.limits.sequenceTerminal
    requires PublicationInv(s.limits, s.viewState, s.allocationHighWater, s.range, s.publicationCursor,
                            s.intermediateVisible, s.compensationCount, s.publication, initial)
    requires s.publication.tag == tag && (s.publication.state.PActive? || s.publication.state.PPublished?)
    ensures
      var marked := MarkPublication(ApplyPublication(s, tag).state, tag).state;
      RecoverActive(WithDeadPublisher(s), tag) ==
      if CompensationFits(s)
          then Outcome(WithDeadPublisher(FinishPublication(Compensate(marked).state, tag).state), true)
      else Outcome(WithDeadPublisher(Quarantine(marked)), false)
  {
    var applied := ApplyPublication(s, tag).state;
    assert ApplyPublication(WithDeadPublisher(s), tag).state == WithDeadPublisher(applied);
    assert RecoverActive(WithDeadPublisher(s), tag) == RecoverApplied(WithDeadPublisher(applied), tag);
    AppliedCrash(applied, tag, initial);
  }

  lemma {:induction false} AppliedCrash(s: State, tag: nat, initial: nat)
    requires s.range.end < s.limits.sequenceTerminal
    requires PublicationInv(s.limits, s.viewState, s.allocationHighWater, s.range, s.publicationCursor,
                            s.intermediateVisible, s.compensationCount, s.publication, initial)
    requires s.publication.tag == tag && (s.publication.state.PActive? || s.publication.state.PPublished?)
    requires s.publication.payloadApplied
    ensures
      var marked := MarkPublication(s, tag).state;
      RecoverApplied(WithDeadPublisher(s), tag) ==
      if CompensationFits(s)
          then Outcome(WithDeadPublisher(FinishPublication(Compensate(marked).state, tag).state), true)
      else Outcome(WithDeadPublisher(Quarantine(marked)), false)
  {
    var marked := MarkPublication(s, tag).state;
    assert MarkPublication(WithDeadPublisher(s), tag).state == WithDeadPublisher(marked);
    assert RecoverApplied(WithDeadPublisher(s), tag) == RecoverPublished(WithDeadPublisher(marked), tag);
    PublishedCrash(marked, tag, initial);
  }

  lemma {:induction false} PublishedCrash(s: State, tag: nat, initial: nat)
    requires s.range.end < s.limits.sequenceTerminal
    requires PublicationInv(s.limits, s.viewState, s.allocationHighWater, s.range, s.publicationCursor,
                            s.intermediateVisible, s.compensationCount, s.publication, initial)
    requires s.publication.tag == tag && s.publication.state.PPublished?
    ensures RecoverPublished(WithDeadPublisher(s), tag) ==
      if CompensationFits(s) then Outcome(WithDeadPublisher(FinishPublication(Compensate(s).state, tag).state), true)
      else Outcome(WithDeadPublisher(Quarantine(s)), false)
  {
  }

  /** The owner's own calls finish a publication exactly when it was claimed without compensation. */
  lemma {:induction false} OwnerFinishesIffNothingOwed(s: State, tag: nat, initial: nat)
    requires Inv(s, initial) && s.publication.tag == tag && LinkedPublication(s.publication.state)
    ensures LivePublicationPath(s, tag).ok <==> !s.publication.requiresCompensation
    ensures LivePublicationPath(s, tag).state.publication.state.PTerminal? <==> !s.publication.requiresCompensation
  {
    hide PublicationInv;
    MarkedFacts(s, tag, initial);
  }

  /** What an owner has reached when all but its last call are made. */
  lemma {:induction false} MarkedFacts(s: State, tag: nat, initial: nat)
    requires Inv(s, initial) && s.publication.tag == tag && LinkedPublication(s.publication.state)
    ensures
      && MarkedPublication(s, tag)
         == s.(publication := s.publication.(state := PPublished, payloadApplied := true),
               publicationCursor := s.publication.targetSequence,
                   intermediateVisible := s.publication.requiresCompensation)
      && RangeMatches(s.publication, s.range) && s.viewState.ViewOpen?
  {
    var activated := ActivatePublication(s, tag).state;
    assert activated == s.(publication := activated.publication);
    AppliedFacts(activated, tag, initial);
  }

  lemma {:induction false} AppliedFacts(s: State, tag: nat, initial: nat)
    requires s.range.end < s.limits.sequenceTerminal && s.range.end <= s.allocationHighWater
    requires PublicationInv(s.limits, s.viewState, s.allocationHighWater, s.range, s.publicationCursor,
                            s.intermediateVisible, s.compensationCount, s.publication, initial)
    requires s.publication.tag == tag && (s.publication.state.PActive? || s.publication.state.PPublished?)
    ensures
      MarkPublication(ApplyPublication(s, tag).state, tag).state
      == s.(publication := s.publication.(state := PPublished, payloadApplied := true),
            publicationCursor := s.publication.targetSequence,
                intermediateVisible := s.publication.requiresCompensation)
    ensures RangeMatches(s.publication, s.range) && s.viewState.ViewOpen?
  {
  }

  /** A publication that owes a compensation stays where its owner left it: none of the owner's calls moves it. */
  lemma {:induction false} OwedPublicationWaits(s: State, tag: nat, initial: nat)
    requires Inv(s, initial) && s.publication.tag == tag && LinkedPublication(s.publication.state)
    requires s.publication.requiresCompensation
    ensures
      var marked := MarkedPublication(s, tag);
      && PreparePublication(marked, tag) == LinkPublication(marked, tag) == ActivatePublication(marked, tag)
         == ApplyPublication(marked, tag) == MarkPublication(marked, tag) == FinishPublication(marked, tag)
         == AbortPublication(marked, tag) == Outcome(marked, false)
  {
    hide PublicationInv, MarkedPublication;
    MarkedFacts(s, tag, initial);
  }

  /** Recovery of a publication that owes nothing is what its owner would still have done. */
  lemma {:induction false} PublicationCrashEquivalence(s: State, tag: nat, initial: nat)
    requires Inv(s, initial) && s.publication.tag == tag && LinkedPublication(s.publication.state)
    requires !s.publication.requiresCompensation
    ensures RecoverDeadPublication(s, tag) == Outcome(WithDeadPublisher(LivePublicationPath(s, tag).state), true)
  {
    hide Inv, RecoverDeadPublication, MarkedPublication, FinishPublication, WithDeadPublisher;
    LinkedRecoveryOutcome(s, tag, initial);
    MarkedFacts(s, tag, initial);
  }

  /**
   * Recovery of a publication that owes a compensation publishes one number more than its owner could,
   * the next one, and retires the range behind it; when the owner took the last number of the range
   * the view is quarantined instead.
   */
  lemma {:induction false} CompensatingRecovery(s: State, tag: nat, initial: nat)
    requires Inv(s, initial) && s.publication.tag == tag && LinkedPublication(s.publication.state)
    requires s.publication.requiresCompensation
    ensures
      var marked := WithDeadPublisher(MarkedPublication(s, tag));
      var next := s.publication.targetSequence + 1;
      RecoverDeadPublication(s, tag) ==
      if s.publication.targetSequence < s.range.end
      then Outcome(marked.(publicationCursor := next, intermediateVisible := false,
                           compensationCount := s.compensationCount + 1, range := RetireAt(s.range, next),
                           publication := marked.publication.(state := PTerminal)), true)
      else Outcome(Quarantine(marked), false)
  {
    hide Inv, RecoverDeadPublication, MarkedPublication;
    LinkedRecoveryOutcome(s, tag, initial);
    MarkedFacts(s, tag, initial);
    CompensationsBounded(s, initial);
  }

  lemma {:induction false} CompensationsBounded(s: State, initial: nat)
    requires Inv(s, initial)
    ensures s.compensationCount + 1 <= s.limits.tagTerminal && s.range.end < s.limits.sequenceTerminal
  {
  }

  lemma {:induction false} PublicationCrashBeforeLink(s: State, tag: nat, initial: nat)
    requires Inv(s, initial) && s.publication.tag == tag
    requires s.publication.state.PInitializing? || s.publication.state.PPrepared?
    ensures RecoverDeadPublication(s, tag) ==
      Outcome(s.(range := RetireAt(s.range, s.publicationCursor),
                 publication := s.publication.(owner := Dead, state := PTerminal)), true)
  {
  }

  /** Where recovery of an update can stop. */
  ghost predicate UpdateSettled(r: Outcome, tag: nat) {
    && r.state.update.tag == tag && r.state.update.owner == Dead && r.ok == r.state.update.state.UTerminal?
    && (r.state.update.state.UTerminal? || r.state.update.state.UFree? || r.state.update.state.UQuarantined?)
  }

  lemma {:induction false} FencedRecoverySettles(s: State, tag: nat)
    requires s.update.tag == tag && s.update.owner == Dead
    requires !PendingUpdate(s.update.state) && !s.update.state.UActive?
    ensures UpdateSettled(RecoverFenced(s, tag), tag)
  {
  }

  lemma {:induction false} LinkedRecoverySettles(s: State, tag: nat)
    requires s.update.tag == tag && s.update.owner == Dead && !PendingUpdate(s.update.state)
    ensures UpdateSettled(RecoverLinked(s, tag), tag)
  {
    if s.update.state.UActive? {
      if PublishDeviceUpdate(s, tag).ok {
        FencedRecoverySettles(PublishDeviceUpdate(s, tag).state, tag);
      }
    } else {
      FencedRecoverySettles(s, tag);
    }
  }

  lemma {:induction false} UpdateRecoverySettles(s: State, tag: nat)
    requires s.update.tag == tag
    ensures UpdateSettled(RecoverDeadDeviceUpdate(s, tag), tag)
  {
    hide RecoverLinked;
    var dead := s.(update := s.update.(owner := Dead));
    if !PendingUpdate(s.update.state) {
      LinkedRecoverySettles(dead, tag);
    } else if s.update.state.ULinking? && LinkStillCurrent(dead) {
      LinkedRecoverySettles(InstallLink(dead, tag), tag);
    }
  }

  lemma {:induction false} UpdateRecoveryIdempotent(s: State, tag: nat)
    ensures RecoverDeadDeviceUpdate(RecoverDeadDeviceUpdate(s, tag).state, tag) == RecoverDeadDeviceUpdate(s, tag)
  {
    if s.update.tag == tag {
      UpdateRecoverySettles(s, tag);
      UpdateRecoveryFixed(RecoverDeadDeviceUpdate(s, tag).state, tag);
    }
  }

  lemma {:induction false} UpdateRecoveryFixed(s: State, tag: nat)
    requires s.update.tag == tag && s.update.owner == Dead
    requires s.update.state.UTerminal? || s.update.state.UFree? || s.update.state.UQuarantined?
    ensures RecoverDeadDeviceUpdate(s, tag) == Outcome(s, s.update.state.UTerminal?)
  {
    assert s.(update := s.update.(owner := Dead)) == s;
  }

  /** Where recovery of a publication can stop. */
  ghost predicate PublicationSettled(s: State, tag: nat, ok: bool) {
    && s.publication.tag == tag && s.publication.owner == Dead && ok == s.publication.state.PTerminal?
    && (s.publication.state.PTerminal? || s.publication.state.PFree? || s.publication.state.PQuarantined?
        || (s.publication.state.PAborted? && !PublicationRangeMatches(s)))
  }

  /** A publication that reached linking is finished by its remaining calls unless a compensation does not fit. */
  lemma {:induction false} RecoveredIsTerminal(s: State, tag: nat, initial: nat)
    requires Inv(s, initial) && s.publication.tag == tag && LinkedPublication(s.publication.state)
    requires CompensationFits(s)
    ensures RecoveredPublication(s, tag).publication.state.PTerminal?
    ensures RecoveredPublication(s, tag).publication.tag == tag
  {
    hide MarkedPublication, ControlInv, LeaseInv, UpdateInv;
    MarkedFacts(s, tag, initial);
  }

  lemma {:induction false} PublicationRecoverySettles(s: State, tag: nat, initial: nat)
    requires Inv(s, initial) && s.publication.tag == tag
    ensures PublicationSettled(RecoverDeadPublication(s, tag).state, tag, RecoverDeadPublication(s, tag).ok)
  {
    if LinkedPublication(s.publication.state) {
      LinkedRecoveryStops(s, tag, initial);
    }
  }

  lemma {:induction false} LinkedRecoveryStops(s: State, tag: nat, initial: nat)
    requires Inv(s, initial) && s.publication.tag == tag && LinkedPublication(s.publication.state)
    ensures PublicationSettled(RecoverDeadPublication(s, tag).state, tag, RecoverDeadPublication(s, tag).ok)
  {
    hide Inv, MarkedPublication, RecoveredPublication, RecoverDeadPublication;
    LinkedRecoveryOutcome(s, tag, initial);
    MarkedIsPublished(s, tag, initial);
    if CompensationFits(s) {
      RecoveredIsTerminal(s, tag, initial);
    }
  }

  lemma {:induction false} PublicationRecoveryFixed(s: State, tag: nat, ok: bool)
    requires PublicationSettled(s, tag, ok)
    ensures RecoverDeadPublication(s, tag) == Outcome(s, ok)
  {
    assert s.(publication := s.publication.(owner := Dead)) == s;
  }

  lemma {:induction false} PublicationRecoveryIdempotent(s: State, tag: nat, initial: nat)
    requires Inv(s, initial)
    ensures RecoverDeadPublication(RecoverDeadPublication(s, tag).state, tag) == RecoverDeadPublication(s, tag)
  {
    hide Inv, PublicationSettled;
    if s.publication.tag == tag {
      PublicationRecoverySettles(s, tag, initial);
      PublicationRecoveryFixed(RecoverDeadPublication(s, tag).state, tag, RecoverDeadPublication(s, tag).ok);
    }
  }

  lemma {:induction false} LeaseRecoveryIdempotent(s: State, tag: nat)
    ensures RecoverDeadLease(RecoverDeadLease(s, tag).state, tag) == RecoverDeadLease(s, tag)
  {
  }

  lemma {:induction false} DeadOwnerInv(s: State, initial: nat)
    requires Inv(s, initial)
    ensures Inv(WithDeadUpdateOwner(s), initial) && Inv(WithDeadPublisher(s), initial)
  {
  }

  lemma {:induction false} LiveUpdatePathInv(s: State, tag: nat, initial: nat)
    requires Inv(s, initial)
    ensures Inv(LiveUpdatePath(s, tag), initial)
  {
    hide Inv, CompleteDeviceUpdateLink, PublishDeviceUpdate, ReopenDeviceUpdate, FinishDeviceUpdate;
    var linked := CompleteDeviceUpdateLink(s, tag).state;
    CompleteDeviceUpdateLinkInv(s, tag, initial);
    PublishDeviceUpdateInv(linked, tag, initial);
    var published := PublishDeviceUpdate(linked, tag).state;
    ReopenDeviceUpdateInv(published, tag, initial);
    FinishDeviceUpdateInv(ReopenDeviceUpdate(published, tag).state, tag, initial);
  }

  lemma {:induction false} UnlinkedRecoveryInv(s: State, tag: nat, initial: nat)
    requires Inv(s, initial) && s.update.tag == tag && !LinkedUpdate(s.update.state)
    ensures Inv(RecoverDeadDeviceUpdate(s, tag).state, initial)
  {
    if s.update.state.UFree? || s.update.state.UQuarantined? {
      DeadOwnerInv(s, initial);
    } else {
      UpdateCrashBeforeLink(s, tag, initial);
    }
  }

  lemma {:induction false} RecoverDeadDeviceUpdateInv(s: State, tag: nat, initial: nat)
    requires Inv(s, initial)
    ensures Inv(RecoverDeadDeviceUpdate(s, tag).state, initial)
  {
    hide Inv, LiveUpdatePath, LinkedUpdate;
    if s.update.tag == tag {
      if LinkedUpdate(s.update.state) {
        UpdateCrashEquivalence(s, tag, initial);
        LiveUpdatePathInv(s, tag, initial);
        DeadOwnerInv(LiveUpdatePath(s, tag), initial);
      } else {
        UnlinkedRecoveryInv(s, tag, initial);
      }
    }
  }

  lemma {:induction false} CompensateInv(s: State, initial: nat)
    requires Inv(s, initial) && s.publication.state.PPublished?
    ensures Inv(FinishPublication(Compensate(s).state, s.publication.tag).state, initial)
  {
    if Compensate(s).ok {
      RetireSlot(s.limits, s.rangeTokenGeneration, s.rangeTagHighWater, s.allocationHighWater, s.range, s.following,
                 s.retired, initial, s.publicationCursor + 1);
    } else {
      FinishPublicationInv(s, s.publication.tag, initial);
    }
  }

  lemma {:induction false} MarkedPublicationInv(s: State, tag: nat, initial: nat)
    requires Inv(s, initial)
    ensures Inv(MarkedPublication(s, tag), initial)
  {
    hide Inv, ActivatePublication, ApplyPublication, MarkPublication;
    ActivatePublicationInv(s, tag, initial);
    var activated := ActivatePublication(s, tag).state;
    ApplyPublicationInv(activated, tag, initial);
    MarkPublicationInv(ApplyPublication(activated, tag).state, tag, initial);
  }

  lemma {:induction false} MarkedIsPublished(s: State, tag: nat, initial: nat)
    requires Inv(s, initial) && s.publication.tag == tag && LinkedPublication(s.publication.state)
    ensures MarkedPublication(s, tag).publication.state.PPublished? && MarkedPublication(s, tag).publication.tag == tag
  {
  }

  lemma {:induction false} AbortedRecoveryInv(s: State, tag: nat, initial: nat)
    requires Inv(s, initial) && s.publication.tag == tag && !LivePublication(s.publication.state)
    ensures Inv(RecoverDeadPublication(s, tag).state, initial)
  {
    FinishPublicationInv(s, tag, initial);
    DeadOwnerInv(FinishPublication(s, tag).state, initial);
    assert RecoverDeadPublication(s, tag).state == WithDeadPublisher(FinishPublication(s, tag).state) by {
      hide Inv;
    }
  }

  lemma {:induction false} UnlinkedPublicationRecoveryInv(s: State, tag: nat, initial: nat)
    requires Inv(s, initial) && s.publication.tag == tag && !LinkedPublication(s.publication.state)
    ensures Inv(RecoverDeadPublication(s, tag).state, initial)
  {
    hide Inv, FinishPublication;
    if s.publication.state.PInitializing? || s.publication.state.PPrepared? {
      AbortPublicationInv(s, tag, initial);
      AbortedRecoveryInv(AbortPublication(s, tag).state, tag, initial);
    } else {
      AbortedRecoveryInv(s, tag, initial);
    }
  }

  lemma {:induction false} RecoverDeadPublicationInv(s: State, tag: nat, initial: nat)
    requires Inv(s, initial)
    ensures Inv(RecoverDeadPublication(s, tag).state, initial)
  {
    hide Inv, LinkedPublication, MarkedPublication, Quarantine, FinishPublication, Compensate, WithDeadPublisher;
    if s.publication.tag == tag {
      if LinkedPublication(s.publication.state) {
        var marked := MarkedPublication(s, tag);
        LinkedRecoveryOutcome(s, tag, initial);
        MarkedPublicationInv(s, tag, initial);
        MarkedIsPublished(s, tag, initial);
        CompensateInv(marked, initial);
        DeadOwnerInv(RecoveredPublication(s, tag), initial);
        QuarantineInv(marked, initial);
        DeadOwnerInv(Quarantine(marked), initial);
      } else {
        UnlinkedPublicationRecoveryInv(s, tag, initial);
      }
    }
  }

  /** The calls up to the start of a commit. */
  lemma {:induction false} AdmissionOpInv(s: State, op: Op, initial: nat)
    requires Inv(s, initial)
    requires op.OpEnterAttempt? || op.OpClaimLease? || op.OpMaterializeLease? || op.OpReserveLease?
        || op.OpBeginTokenCommit? || op.OpBeginLeaseCommit?
    ensures Inv(ApplyLeaseOp(s, op).state, initial)
  {
    hide Inv, EnterAttempt, ClaimLease, MaterializeLease, BeginLeaseCommit, AdmissionTokenMatches;
    match op
    case OpEnterAttempt(t) => EnterAttemptInv(s, t, initial);
    case OpClaimLease(t, l) => ClaimLeaseInv(s, t, l, initial);
    case OpMaterializeLease(t, l) => MaterializeLeaseInv(s, t, l, initial);
    case OpReserveLease(t, l) =>
      ClaimLeaseInv(s, t, l, initial);
      MaterializeLeaseInv(ClaimLease(s, t, l).state, t, l, initial);
    case OpBeginTokenCommit(a) => BeginLeaseCommitInv(s, a.leaseTag, initial);
    case OpBeginLeaseCommit(t) => BeginLeaseCommitInv(s, t, initial);
  }

  lemma {:induction false} LeaseOpInv(s: State, op: Op, initial: nat)
    requires Inv(s, initial) && LeaseOp(op)
    ensures Inv(ApplyLeaseOp(s, op).state, initial)
  {
    hide Inv, EnterAttempt, ClaimLease, MaterializeLease, ReserveLease, BeginLeaseCommit, BeginTokenCommit,
        FinishLeaseCommit, WriteLeaseTarget, PublishLease, ReleaseLease, RecoverDeadLease, ExpireLiveLease,
        ReclaimLease;
    if op.OpEnterAttempt? || op.OpClaimLease? || op.OpMaterializeLease? || op.OpReserveLease?
        || op.OpBeginTokenCommit? || op.OpBeginLeaseCommit? {
      AdmissionOpInv(s, op, initial);
      return;
    }
    match op
    case OpFinishLeaseCommit(t) => FinishLeaseCommitInv(s, t, initial);
    case OpWriteLeaseTarget(t) => WriteLeaseTargetInv(s, t, initial);
    case OpPublishLease(t) => PublishLeaseInv(s, t, initial);
    case OpReleaseLease(t) => ReleaseLeaseInv(s, t, initial);
    case OpRecoverDeadLease(t) => RecoverDeadLeaseInv(s, t, initial);
    case OpExpireLiveLease(t) => ExpireLiveLeaseInv(s, t, initial);
    case OpReclaimLease(t) => ReclaimLeaseInv(s, t, initial);
  }

  lemma {:induction false} UpdateOpInv(s: State, op: Op, initial: nat)
    requires Inv(s, initial) && UpdateOp(op)
    ensures Inv(ApplyUpdateOp(s, op).state, initial)
  {
    hide Inv, CloseView, CloseDevice, ClaimDeviceUpdate, MaterializeDeviceUpdate, BeginDeviceUpdateLink,
      CompleteDeviceUpdateLink, PublishDeviceUpdate, ReopenDeviceUpdate, FinishDeviceUpdate, RecoverDeadDeviceUpdate,
      ExpireLiveDeviceUpdate;
    match op
    case OpCloseView => CloseViewInv(s, initial);
    case OpCloseDevice => CloseDeviceInv(s, initial);
    case OpClaimDeviceUpdate(t) => ClaimDeviceUpdateInv(s, t, initial);
    case OpMaterializeDeviceUpdate(t) => MaterializeDeviceUpdateInv(s, t, initial);
    case OpPrepareDeviceUpdate(t) =>
      ClaimDeviceUpdateInv(s, t, initial);
      MaterializeDeviceUpdateInv(ClaimDeviceUpdate(s, t).state, t, initial);
    case OpBeginDeviceUpdateLink(t) => BeginDeviceUpdateLinkInv(s, t, initial);
    case OpCompleteDeviceUpdateLink(t) => CompleteDeviceUpdateLinkInv(s, t, initial);
    case OpLinkDeviceUpdate(t) =>
      BeginDeviceUpdateLinkInv(s, t, initial);
      CompleteDeviceUpdateLinkInv(BeginDeviceUpdateLink(s, t).state, t, initial);
    case OpPublishDeviceUpdate(t) => PublishDeviceUpdateInv(s, t, initial);
    case OpReopenDeviceUpdate(t) => ReopenDeviceUpdateInv(s, t, initial);
    case OpFinishDeviceUpdate(t) => FinishDeviceUpdateInv(s, t, initial);
    case OpRecoverDeadDeviceUpdate(t) => RecoverDeadDeviceUpdateInv(s, t, initial);
    case OpExpireLiveDeviceUpdate(t) => ExpireLiveDeviceUpdateInv(s, t, initial);
  }

  lemma {:induction false} RangeOpInv(s: State, op: Op, initial: nat)
    requires Inv(s, initial) && RangeOp(op)
    ensures Inv(ApplyRangeOp(s, op).state, initial)
  {
    hide Inv, ClaimRange, PrepareRange, OpenRange, AdvanceRangeHead;
    match op
    case OpClaimRange(t, n) => ClaimRangeInv(s, t, n, initial);
    case OpPrepareRange(t) => PrepareRangeInv(s, t, initial);
    case OpOpenRange(t) => OpenRangeInv(s, t, initial);
    case OpReserveRange(t, n) =>
      var claimed := ClaimRange(s, t, n).state;
      ClaimRangeInv(s, t, n, initial);
      PrepareRangeInv(claimed, t, initial);
      OpenRangeInv(PrepareRange(claimed, t).state, t, initial);
    case OpAdvanceRangeHead => AdvanceRangeHeadInv(s, initial);
  }

  lemma {:induction false} PublicationOpInv(s: State, op: Op, initial: nat)
    requires Inv(s, initial) && !LeaseOp(op) && !UpdateOp(op) && !RangeOp(op)
    ensures Inv(ApplyPublicationOp(s, op).state, initial)
  {
    hide Inv, ClaimPublication, PreparePublication, LinkPublication, ActivatePublication, ApplyPublication,
      MarkPublication, FinishPublication, AbortPublication, RecoverDeadPublication, ExpireLivePublication,
      ReclaimPublication;
    match op
    case OpClaimPublication(k, t, c) => ClaimPublicationInv(s, k, t, c, initial);
    case OpClaimCurrentPublication(t, c) => ClaimPublicationInv(s, TokenOf(s, s.range), t, c, initial);
    case OpPreparePublication(t) => PreparePublicationInv(s, t, initial);
    case OpLinkPublication(t) => LinkPublicationInv(s, t, initial);
    case OpActivatePublication(t) => ActivatePublicationInv(s, t, initial);
    case OpApplyPublication(t) => ApplyPublicationInv(s, t, initial);
    case OpMarkPublication(t) => MarkPublicationInv(s, t, initial);
    case OpFinishPublication(t) => FinishPublicationInv(s, t, initial);
    case OpAbortPublication(t) => AbortPublicationInv(s, t, initial);
    case OpRecoverDeadPublication(t) => RecoverDeadPublicationInv(s, t, initial);
    case OpExpireLivePublication(t) => ExpireLivePublicationInv(s, t, initial);
    case OpReclaimPublication(t) => ReclaimPublicationInv(s, t, initial);
  }

  lemma {:induction false} ApplyInv(s: State, op: Op, initial: nat)
    requires Inv(s, initial)
    ensures Inv(Apply(s, op).state, initial)
  {
    hide Inv, ApplyLeaseOp, ApplyUpdateOp, ApplyRangeOp, ApplyPublicationOp;
    if LeaseOp(op) {
      LeaseOpInv(s, op, initial);
    } else if UpdateOp(op) {
      UpdateOpInv(s, op, initial);
    } else if RangeOp(op) {
      RangeOpInv(s, op, initial);
    } else {
      PublicationOpInv(s, op, initial);
    }
  }

  lemma {:induction false} RunInv(s: State, ops: seq<Op>, initial: nat, i: nat)
    requires Inv(s, initial) && i <= |ops|
    ensures Inv(Run(s, ops)[i], initial)
  {
    hide Inv, Apply;
    if i > 0 {
      RunInv(s, ops, initial, i - 1);
      ApplyInv(Run(s, ops)[i - 1], ops[i - 1], initial);
    }
  }

  /** Every state of every run from a valid configuration passes the source's own consistency check. */
  lemma {:induction false} InvariantsHoldAlways(limits: Limits, highWater: nat, generation: nat, epoch: nat,
                                                viewId: ViewId, ops: seq<Op>)
    requires ValidConfiguration(limits, highWater, generation, epoch, viewId)
    ensures forall i :: 0 <= i <= |ops| ==>
      InvariantsHold(Run(Initial(limits, highWater, generation, epoch, viewId), ops)[i])
  {
    var s := Initial(limits, highWater, generation, epoch, viewId);
    InitialInv(limits, highWater, generation, epoch, viewId);
    forall i | 0 <= i <= |ops| ensures InvariantsHold(Run(s, ops)[i]) {
      RunInv(s, ops, highWater, i);
      InvImpliesInvariantsHold(Run(s, ops)[i], highWater);
    }
  }
}
