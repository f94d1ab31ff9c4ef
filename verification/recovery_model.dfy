// The mutable recovery model: the source's `Model` object, field for field, updated in place.
//
// Each public method keeps `Valid()`: the strengthened invariant together with the exact log of the
// numbers published so far.  It also computes the corresponding step function of RecoveryState, to
// which the results about whole runs apply, and states what the call means to its caller.
module RecoveryModel {
  import opened RecoveryState
  import Step = RecoveryState
  import opened RecoveryInvariants
  import opened RecoveryRuns
  import opened RecoveryAdmission
  import opened RecoveryCalls

  /** The admission words of the view and the device. */
  datatype ControlWords = ControlWords(viewState: ViewState, deviceState: DeviceState, viewGeneration: nat,
                                       deviceGeneration: nat, deviceUpdateTag: nat, epoch: nat)

  class Model {
    const limits: Limits
    const viewId: ViewId
    const valid: bool
    var words: ControlWords
    var rangeTokenGeneration: nat
    var rangeTagHighWater: nat
    var allocationHighWater: nat
    var publicationCursor: nat
    var intermediateVisible: bool
    var committedAdmissions: nat
    var compensationCount: nat
    var attempt: AttemptRecord
    var lease: LeaseRecord
    var update: UpdateRecord
    var range: RangeRecord
    var following: RangeRecord
    var retired: seq<RangeRecord>
    var publication: PublishRecord
    ghost const initial: nat
    /** The numbers published so far, in order. */
    ghost var log: seq<nat>

    function Value(): State
      reads this
    {
      State(limits, valid, viewId, words.viewState, words.deviceState, words.viewGeneration, words.deviceGeneration,
            rangeTokenGeneration, rangeTagHighWater, words.deviceUpdateTag, words.epoch, allocationHighWater,
                publicationCursor, intermediateVisible,
            committedAdmissions, compensationCount, attempt, lease, update, range, following, retired, publication)
    }

    /** A validly configured model satisfies the invariant, and its log is exact. */
    ghost predicate Valid()
      reads this
    {
      valid ==> HistoryInv(Value(), log, initial)
    }

    /**
     * A call that returned `ok` keeps a valid model valid, never brings back an earlier admission, and
     * means to its caller what `Meaning` says of the operation.
     */
    twostate predicate Kept(op: Op, ok: bool)
      reads this
    {
      old(Valid()) ==>
        Valid() && (valid ==>
            Advances(old(Value()), Value()) && Meaning(old(Value()), op, Outcome(Value(), ok), old(log)))
    }

    /** What the invariant will be after a call. */
    lemma {:induction false} Foresee(op: Op)
      ensures
        Valid() && valid ==>
          var r := Apply(Value(), op).state;
          && Meaning(Value(), op, Apply(Value(), op), log)
          && HistoryInv(r, log + PublishedBy(Value(), r), initial) && Advances(Value(), r)
          && (Silent(op) ==> HistoryInv(r, log, initial))
    {
      hide Apply, Advances, Meaning;
      if Valid() && valid {
        CallMeans(Value(), op, log, initial);
        StepLog(Value(), op, log, initial);
        StepAdvances(Value(), op, initial);
        if Silent(op) {
          SilentPublishesNothing(Value(), op, initial);
          assert log + [] == log;
        }
      }
    }

    constructor (limits: Limits, initialHighWater: nat, initialGeneration: nat, initialEpoch: nat, viewId: ViewId)
      ensures Value() == Initial(limits, initialHighWater, initialGeneration, initialEpoch, viewId)
      ensures Valid() && log == [] && initial == initialHighWater
      ensures valid <==> ValidConfiguration(limits, initialHighWater, initialGeneration, initialEpoch, viewId)
    {
      this.limits, this.viewId := limits, viewId;
      var ok := ValidConfiguration(limits, initialHighWater, initialGeneration, initialEpoch, viewId);
      valid := ok;
      words := ControlWords(if ok then ViewOpen else ViewQuarantined, if ok then DeviceOpen else DeviceClosed,
                            initialGeneration, initialGeneration, 0, initialEpoch);
      rangeTokenGeneration := initialGeneration;
      allocationHighWater, publicationCursor := initialHighWater, initialHighWater;
      rangeTagHighWater, committedAdmissions, compensationCount := 0, 0, 0;
      intermediateVisible := false;
      attempt, lease, update := NO_ATTEMPT, FreeLease(0), NO_UPDATE;
      range, following, retired, publication := NO_RANGE, NO_RANGE, [], FreePublication(0);
      initial, log := initialHighWater, [];
      new;
      if ok {
        InitialInv(limits, initialHighWater, initialGeneration, initialEpoch, viewId);
      }
    }

    // ---- Attempts and leases ----

    method EnterAttempt(tag: nat) returns (ok: bool)
      modifies this`attempt
      ensures Kept(OpEnterAttempt(tag), ok)
      ensures Outcome(Value(), ok) == Step.EnterAttempt(old(Value()), tag)
    {
      hide HistoryInv, Advances, Meaning, PublishedBy;
      Foresee(OpEnterAttempt(tag));
      if !valid || words.viewState != ViewOpen || words.deviceState != DeviceOpen
         || (attempt.state != AIdle && attempt.state != AExited) || !NextTag(Value(), attempt.tag, tag)
      {
        return false;
      }
      attempt := AttemptRecord(tag, AEntering, Live, words.viewGeneration, words.deviceGeneration, 0);
      return true;
    }

    method ClaimLease(attemptTag: nat, leaseTag: nat) returns (ok: bool)
      modifies this`attempt, this`lease
      ensures Kept(OpClaimLease(attemptTag, leaseTag), ok)
      ensures Outcome(Value(), ok) == Step.ClaimLease(old(Value()), attemptTag, leaseTag)
    {
      hide HistoryInv, Advances, Meaning, PublishedBy;
      Foresee(OpClaimLease(attemptTag, leaseTag));
      if attempt.tag != attemptTag || attempt.state != AEntering || lease.state != LFree
         || !NextTag(Value(), lease.tag, leaseTag)
         || !ControlsMatch(Value(), attempt.viewGeneration, attempt.deviceGeneration)
      {
        return false;
      }
      attempt := attempt.(state := AClaiming, targetLeaseTag := leaseTag);
      lease := LeaseRecord(leaseTag, LInitializing, Live, attempt.viewGeneration, attempt.deviceGeneration, false,
                           false);
      attempt := attempt.(state := AInitializing);
      return true;
    }

    method MaterializeLease(attemptTag: nat, leaseTag: nat) returns (ok: bool)
      modifies this`attempt, this`lease
      ensures Kept(OpMaterializeLease(attemptTag, leaseTag), ok)
      ensures Outcome(Value(), ok) == Step.MaterializeLease(old(Value()), attemptTag, leaseTag)
    {
      hide HistoryInv, Advances, Meaning, PublishedBy;
      Foresee(OpMaterializeLease(attemptTag, leaseTag));
      if attempt.tag != attemptTag || attempt.state != AInitializing || attempt.targetLeaseTag != leaseTag
         || lease.tag != leaseTag || lease.state != LInitializing
         || !ControlsMatch(Value(), lease.viewGeneration, lease.deviceGeneration)
      {
        return false;
      }
      lease := lease.(state := LReserved);
      attempt := attempt.(state := AReady);
      return true;
    }

    method ReserveLease(attemptTag: nat, leaseTag: nat) returns (ok: bool)
      modifies this`attempt, this`lease
      ensures Kept(OpReserveLease(attemptTag, leaseTag), ok)
      ensures Outcome(Value(), ok) == Step.ReserveLease(old(Value()), attemptTag, leaseTag)
    {
      hide HistoryInv, Advances, Meaning, PublishedBy;
      Foresee(OpReserveLease(attemptTag, leaseTag));
      ok := ClaimLease(attemptTag, leaseTag);
      if ok {
        ok := MaterializeLease(attemptTag, leaseTag);
      }
    }

    method BeginLeaseCommit(leaseTag: nat) returns (ok: bool)
      modifies this`lease
      ensures Kept(OpBeginLeaseCommit(leaseTag), ok)
      ensures Outcome(Value(), ok) == Step.BeginLeaseCommit(old(Value()), leaseTag)
    {
      hide HistoryInv, Advances, Meaning, PublishedBy;
      Foresee(OpBeginLeaseCommit(leaseTag));
      if lease.tag != leaseTag || lease.state != LReserved || attempt.state != AReady
         || !ControlsMatch(Value(), lease.viewGeneration, lease.deviceGeneration)
      {
        return false;
      }
      lease := lease.(state := LCommitting);
      return true;
    }

    method BeginTokenCommit(token: AdmissionToken) returns (ok: bool)
      modifies this`lease
      ensures Kept(OpBeginTokenCommit(token), ok)
      ensures Outcome(Value(), ok) == Step.BeginTokenCommit(old(Value()), token)
    {
      hide HistoryInv, Advances, Meaning, PublishedBy;
      Foresee(OpBeginTokenCommit(token));
      ok := AdmissionTokenMatches(Value(), token);
      if ok {
        ok := BeginLeaseCommit(token.leaseTag);
      }
    }

    method FinishLeaseCommit(leaseTag: nat) returns (ok: bool)
      modifies this`lease, this`committedAdmissions
      ensures Kept(OpFinishLeaseCommit(leaseTag), ok)
      ensures Outcome(Value(), ok) == Step.FinishLeaseCommit(old(Value()), leaseTag)
    {
      hide HistoryInv, Advances, Meaning, PublishedBy;
      Foresee(OpFinishLeaseCommit(leaseTag));
      if lease.tag != leaseTag || lease.state != LCommitting {
        return false;
      }
      lease := lease.(state := LCommitted);
      committedAdmissions := (committedAdmissions + 1) % U32;
      return true;
    }

    method WriteLeaseTarget(leaseTag: nat) returns (ok: bool)
      modifies this`lease
      ensures Kept(OpWriteLeaseTarget(leaseTag), ok)
      ensures Outcome(Value(), ok) == Step.WriteLeaseTarget(old(Value()), leaseTag)
    {
      hide HistoryInv, Advances, Meaning, PublishedBy;
      Foresee(OpWriteLeaseTarget(leaseTag));
      if lease.tag != leaseTag || lease.state != LCommitted {
        return false;
      }
      lease := lease.(targetWritten := true);
      return true;
    }

    method PublishLease(leaseTag: nat) returns (ok: bool)
      modifies this`lease
      ensures Kept(OpPublishLease(leaseTag), ok)
      ensures Outcome(Value(), ok) == Step.PublishLease(old(Value()), leaseTag)
    {
      hide HistoryInv, Advances, Meaning, PublishedBy;
      Foresee(OpPublishLease(leaseTag));
      if lease.tag != leaseTag || lease.state != LCommitted {
        return false;
      }
      lease := lease.(targetWritten := true);
      lease := lease.(publicationMarker := true);
      lease := lease.(state := LPublished);
      return true;
    }

    method ReleaseLease(leaseTag: nat) returns (ok: bool)
      modifies this`attempt, this`lease
      ensures Kept(OpReleaseLease(leaseTag), ok)
      ensures Outcome(Value(), ok) == Step.ReleaseLease(old(Value()), leaseTag)
    {
      hide HistoryInv, Advances, Meaning, PublishedBy;
      Foresee(OpReleaseLease(leaseTag));
      if lease.tag != leaseTag || lease.state != LPublished {
        return false;
      }
      lease := lease.(state := LReleased);
      if attempt.targetLeaseTag == leaseTag {
        attempt := attempt.(state := AExited);
      }
      return true;
    }

    method RecoverDeadLease(leaseTag: nat) returns (ok: bool)
      modifies this`attempt, this`lease
      ensures Kept(OpRecoverDeadLease(leaseTag), ok)
      ensures Outcome(Value(), ok) == Step.RecoverDeadLease(old(Value()), leaseTag)
    {
      hide HistoryInv, Advances, Meaning, PublishedBy, Step.RecoverDeadLease;
      Foresee(OpRecoverDeadLease(leaseTag));
      ok := SettleDeadLease(leaseTag);
    }

    /** The stores of recover_dead_lease. */
    method SettleDeadLease(leaseTag: nat) returns (ok: bool)
      modifies this`attempt, this`lease
      ensures Outcome(Value(), ok) == Step.RecoverDeadLease(old(Value()), leaseTag)
    {
      if lease.tag != leaseTag {
        return false;
      }
      lease := lease.(owner := Dead);
      match lease.state {
        case LInitializing | LReserved | LCommitting =>
          lease := lease.(state := LTombstoned);
        case LCommitted =>
          if lease.targetWritten {
            lease := lease.(publicationMarker := true, state := LReleased);
          } else {
            lease := lease.(state := LTombstoned);
          }
        case LPublished =>
          lease := lease.(state := LReleased);
        case LReleased | LRevoked | LTombstoned =>
        case LFree | LQuarantined =>
          return false;
      }
      if attempt.targetLeaseTag == leaseTag {
        attempt := attempt.(owner := Dead, state := AExited);
      }
      return true;
    }

    method ExpireLiveLease(leaseTag: nat) returns (ok: bool)
      modifies this`words, this`attempt, this`lease, this`update, this`range, this`following, this`publication
      ensures Kept(OpExpireLiveLease(leaseTag), ok)
      ensures Outcome(Value(), ok) == Step.ExpireLiveLease(old(Value()), leaseTag)
    {
      hide HistoryInv, Advances, Meaning, PublishedBy;
      Foresee(OpExpireLiveLease(leaseTag));
      if lease.tag != leaseTag || lease.owner != Live || !LiveLease(lease.state) {
        return false;
      }
      lease := lease.(state := LQuarantined);
      Quarantine();
      return true;
    }

    method ReclaimLease(newTag: nat) returns (ok: bool)
      modifies this`lease
      ensures Kept(OpReclaimLease(newTag), ok)
      ensures Outcome(Value(), ok) == Step.ReclaimLease(old(Value()), newTag)
    {
      hide HistoryInv, Advances, Meaning, PublishedBy;
      Foresee(OpReclaimLease(newTag));
      if lease.state != LReleased && lease.state != LRevoked && lease.state != LTombstoned {
        return false;
      }
      if !NextTag(Value(), lease.tag, newTag) || attempt.state != AExited {
        return false;
      }
      lease := FreeLease(newTag);
      return true;
    }

    method SettleLeaseForClose()
      modifies this`attempt, this`lease
      ensures Value() == Step.SettleLeaseForClose(old(Value()))
    {
      match lease.state {
        case LInitializing | LCommitting =>
          lease := lease.(state := LTombstoned);
        case LReserved =>
          lease := lease.(state := LRevoked);
        case LCommitted =>
          if lease.targetWritten {
            lease := lease.(publicationMarker := true, state := LReleased);
          } else {
            lease := lease.(state := LTombstoned);
          }
        case LPublished =>
          lease := lease.(state := LReleased);
        case LFree | LReleased | LRevoked | LTombstoned | LQuarantined =>
      }
      if attempt.state != AIdle && attempt.state != AExited {
        attempt := attempt.(state := AExited);
      }
    }

    // ---- Closing and quarantine ----

    method CloseView()
      modifies this`words, this`attempt, this`lease, this`update, this`range, this`following, this`publication
      ensures Kept(OpCloseView, true)
      ensures Value() == Step.CloseView(old(Value()))
    {
      hide HistoryInv, Advances, Meaning, PublishedBy, Step.CloseView;
      Foresee(OpCloseView);
      ShutView();
    }

    /** The stores of close_view. */
    method ShutView()
      modifies this`words, this`attempt, this`lease, this`update, this`range, this`following, this`publication
      ensures Value() == Step.CloseView(old(Value()))
    {
      if !valid || words.viewState == ViewTerminal || words.viewState == ViewQuarantined {
        return;
      }
      if publication.state != PFree && publication.state != PTerminal {
        Quarantine();
        return;
      }
      words := words.(viewState := ViewClosing, viewGeneration := limits.generationTerminal);
      ShutDevice();
      SettleLeaseForClose();
      words := words.(viewState := ViewTerminal);
    }

    method CloseDevice()
      modifies this`words, this`attempt, this`lease, this`update
      ensures Kept(OpCloseDevice, true)
      ensures Value() == Step.CloseDevice(old(Value()))
    {
      hide HistoryInv, Advances, Meaning, PublishedBy, Step.CloseDevice;
      Foresee(OpCloseDevice);
      ShutDevice();
    }

    /** The stores of close_device. */
    method ShutDevice()
      modifies this`words, this`attempt, this`lease, this`update
      ensures Value() == Step.CloseDevice(old(Value()))
    {
      if !valid || (words.deviceState == DeviceClosed && words.deviceGeneration == limits.generationTerminal) {
        return;
      }
      words := words.(deviceState := DeviceClosed, deviceGeneration := limits.generationTerminal, deviceUpdateTag := 0);
      match update.state {
        case UInitializing | UPrepared | ULinking | UActive | UFencePublished | UReopened =>
          update := update.(state := UClosed);
        case UFree | UAborted | UClosed | UTerminal | UQuarantined =>
      }
      SettleLeaseForClose();
    }

    method Quarantine()
      modifies this`words, this`attempt, this`lease, this`update, this`range, this`following, this`publication
      ensures Value() == Step.Quarantine(old(Value()))
    {
      words := ControlWords(ViewQuarantined, DeviceClosed, limits.generationTerminal, limits.generationTerminal, 0,
                            words.epoch);
      QuarantineOwners();
      QuarantineRanges();
    }

    /** Quarantine of the lease, update, publication and attempt records. */
    method QuarantineOwners()
      modifies this`lease, this`update, this`publication, this`attempt
      ensures
        var q := Step.Quarantine(old(Value()));
        lease == q.lease && update == q.update && publication == q.publication && attempt == q.attempt
    {
      if LiveLease(lease.state) {
        lease := lease.(state := LQuarantined);
      }
      if update.state != UFree && update.state != UTerminal && update.state != UClosed && update.state != UAborted {
        update := update.(state := UQuarantined);
      }
      if publication.state != PFree && publication.state != PTerminal && publication.state != PAborted {
        publication := publication.(state := PQuarantined);
      }
      if attempt.state != AIdle && attempt.state != AExited {
        attempt := attempt.(state := AExited);
      }
    }

    /** Quarantine of the two range slots. */
    method QuarantineRanges()
      modifies this`range, this`following
      ensures range == QuarantineRange(old(range)) && following == QuarantineRange(old(following))
    {
      if range.state == RInitializing || range.state == RPrepared || range.state == ROpen {
        range := range.(state := RQuarantined);
      }
      if following.state == RInitializing || following.state == RPrepared || following.state == ROpen {
        following := following.(state := RQuarantined);
      }
    }

    // ---- Device updates ----

    method ClaimDeviceUpdate(tag: nat) returns (ok: bool)
      modifies this`update
      ensures Kept(OpClaimDeviceUpdate(tag), ok)
      ensures Outcome(Value(), ok) == Step.ClaimDeviceUpdate(old(Value()), tag)
    {
      hide HistoryInv, Advances, Meaning, PublishedBy;
      Foresee(OpClaimDeviceUpdate(tag));
      if !valid || words.viewState != ViewOpen || words.deviceState != DeviceOpen
         || (update.state != UFree && update.state != UTerminal) || !NextTag(Value(), update.tag, tag)
         || !AddsBelow(words.deviceGeneration, 1, limits.generationTerminal) || words.deviceGeneration + 1 >= U32
         || !AddsBelow(words.epoch, 1, limits.epochTerminal)
      {
        return false;
      }
      update := UpdateRecord(tag, UInitializing, Live, words.deviceGeneration, words.deviceGeneration + 1, words.epoch,
                             words.epoch + 1, false);
      return true;
    }

    method MaterializeDeviceUpdate(tag: nat) returns (ok: bool)
      modifies this`update
      ensures Kept(OpMaterializeDeviceUpdate(tag), ok)
      ensures Outcome(Value(), ok) == Step.MaterializeDeviceUpdate(old(Value()), tag)
    {
      hide HistoryInv, Advances, Meaning, PublishedBy;
      Foresee(OpMaterializeDeviceUpdate(tag));
      if update.tag != tag || update.state != UInitializing {
        return false;
      }
      update := update.(state := UPrepared);
      return true;
    }

    method PrepareDeviceUpdate(tag: nat) returns (ok: bool)
      modifies this`update
      ensures Kept(OpPrepareDeviceUpdate(tag), ok)
      ensures Outcome(Value(), ok) == Step.PrepareDeviceUpdate(old(Value()), tag)
    {
      hide HistoryInv, Advances, Meaning, PublishedBy;
      Foresee(OpPrepareDeviceUpdate(tag));
      ok := ClaimDeviceUpdate(tag);
      if ok {
        ok := MaterializeDeviceUpdate(tag);
      }
    }

    method BeginDeviceUpdateLink(tag: nat) returns (ok: bool)
      modifies this`update
      ensures Kept(OpBeginDeviceUpdateLink(tag), ok)
      ensures Outcome(Value(), ok) == Step.BeginDeviceUpdateLink(old(Value()), tag)
    {
      hide HistoryInv, Advances, Meaning, PublishedBy;
      Foresee(OpBeginDeviceUpdateLink(tag));
      if update.tag != tag || update.state != UPrepared {
        return false;
      }
      update := update.(state := ULinking);
      return true;
    }

    method CompleteDeviceUpdateLink(tag: nat) returns (ok: bool)
      modifies this`words, this`attempt, this`lease, this`update
      ensures Kept(OpCompleteDeviceUpdateLink(tag), ok)
      ensures Outcome(Value(), ok) == Step.CompleteDeviceUpdateLink(old(Value()), tag)
    {
      hide HistoryInv, Advances, Meaning, PublishedBy;
      Foresee(OpCompleteDeviceUpdateLink(tag));
      if update.tag != tag || update.state != ULinking {
        return false;
      }
      if words.viewState != ViewOpen || words.deviceState != DeviceOpen
          || words.deviceGeneration != update.oldGeneration
         || words.epoch != update.oldEpoch
      {
        update := update.(state := UClosed);
        return false;
      }
      InstallLink(tag);
      return true;
    }

    /** The linking block shared by the live path and by recovery. */
    method InstallLink(tag: nat)
      modifies this`words, this`attempt, this`lease, this`update
      ensures Value() == Step.InstallLink(old(Value()), tag)
    {
      words := words.(deviceState := DeviceUpdating, deviceGeneration := update.newGeneration, epoch := update.newEpoch,
                      deviceUpdateTag := tag);
      SettleLeaseForClose();
      update := update.(state := UActive);
    }

    method LinkDeviceUpdate(tag: nat) returns (ok: bool)
      modifies this`words, this`attempt, this`lease, this`update
      ensures Kept(OpLinkDeviceUpdate(tag), ok)
      ensures Outcome(Value(), ok) == Step.LinkDeviceUpdate(old(Value()), tag)
    {
      hide HistoryInv, Advances, Meaning, PublishedBy;
      Foresee(OpLinkDeviceUpdate(tag));
      ok := BeginDeviceUpdateLink(tag);
      if ok {
        ok := CompleteDeviceUpdateLink(tag);
      }
    }

    method PublishDeviceUpdate(tag: nat) returns (ok: bool)
      modifies this`update
      ensures Kept(OpPublishDeviceUpdate(tag), ok)
      ensures Outcome(Value(), ok) == Step.PublishDeviceUpdate(old(Value()), tag)
    {
      hide HistoryInv, Advances, Meaning, PublishedBy;
      Foresee(OpPublishDeviceUpdate(tag));
      if update.tag != tag || update.state != UActive || !UpdateTupleMatches(Value(), tag) {
        return false;
      }
      update := update.(fencePublished := true);
      update := update.(state := UFencePublished);
      return true;
    }

    method ReopenDeviceUpdate(tag: nat) returns (ok: bool)
      modifies this`words, this`update
      ensures Kept(OpReopenDeviceUpdate(tag), ok)
      ensures Outcome(Value(), ok) == Step.ReopenDeviceUpdate(old(Value()), tag)
    {
      hide HistoryInv, Advances, Meaning, PublishedBy;
      Foresee(OpReopenDeviceUpdate(tag));
      if update.tag != tag || update.state != UFencePublished || !update.fencePublished
         || !UpdateTupleMatches(Value(), tag)
      {
        return false;
      }
      words := words.(deviceState := DeviceOpen, deviceUpdateTag := 0);
      update := update.(state := UReopened);
      return true;
    }

    method FinishDeviceUpdate(tag: nat) returns (ok: bool)
      modifies this`update
      ensures Kept(OpFinishDeviceUpdate(tag), ok)
      ensures Outcome(Value(), ok) == Step.FinishDeviceUpdate(old(Value()), tag)
    {
      hide HistoryInv, Advances, Meaning, PublishedBy;
      Foresee(OpFinishDeviceUpdate(tag));
      if update.tag != tag || (update.state != UReopened && update.state != UAborted && update.state != UClosed) {
        return false;
      }
      update := update.(state := UTerminal);
      return true;
    }

    method RecoverDeadDeviceUpdate(tag: nat) returns (ok: bool)
      modifies this`words, this`attempt, this`lease, this`update
      ensures Kept(OpRecoverDeadDeviceUpdate(tag), ok)
      ensures Outcome(Value(), ok) == Step.RecoverDeadDeviceUpdate(old(Value()), tag)
    {
      hide HistoryInv, Advances, Meaning, PublishedBy, Step.RecoverDeadDeviceUpdate;
      Foresee(OpRecoverDeadDeviceUpdate(tag));
      ok := SettleDeadUpdate(tag);
    }

    /** The stores of recover_dead_device_update. */
    method SettleDeadUpdate(tag: nat) returns (ok: bool)
      modifies this`words, this`attempt, this`lease, this`update
      ensures Outcome(Value(), ok) == Step.RecoverDeadDeviceUpdate(old(Value()), tag)
    {
      if update.tag != tag {
        return false;
      }
      update := update.(owner := Dead);
      if update.state == UInitializing || update.state == UPrepared {
        update := update.(state := UAborted);
      } else if update.state == ULinking {
        if words.viewState == ViewOpen && words.deviceState == DeviceOpen
            && words.deviceGeneration == update.oldGeneration
           && words.epoch == update.oldEpoch
        {
          InstallLink(tag);
        } else {
          update := update.(state := UClosed);
        }
      }
      ok := RecoverLinked(tag);
    }

    /** The part of recovery after linking: republish the fence, reopen, settle. */
    method RecoverLinked(tag: nat) returns (ok: bool)
      modifies this`words, this`update
      ensures Outcome(Value(), ok) == Step.RecoverLinked(old(Value()), tag)
    {
      hide Kept;
      if update.state == UActive {
        var published := PublishDeviceUpdate(tag);
        if !published {
          update := update.(state := UClosed);
        }
      }
      if update.state == UFencePublished {
        var reopened := ReopenDeviceUpdate(tag);
        if !reopened {
          update := update.(state := UClosed);
        }
      }
      if update.state == UReopened || update.state == UAborted || update.state == UClosed {
        update := update.(state := UTerminal);
      }
      return update.state == UTerminal;
    }

    method ExpireLiveDeviceUpdate(tag: nat) returns (ok: bool)
      modifies this`words, this`attempt, this`lease, this`update, this`range, this`following, this`publication
      ensures Kept(OpExpireLiveDeviceUpdate(tag), ok)
      ensures Outcome(Value(), ok) == Step.ExpireLiveDeviceUpdate(old(Value()), tag)
    {
      hide HistoryInv, Advances, Meaning, PublishedBy;
      Foresee(OpExpireLiveDeviceUpdate(tag));
      if update.tag != tag || update.owner != Live || update.state == UFree || update.state == UAborted
         || update.state == UClosed || update.state == UTerminal || update.state == UQuarantined
      {
        return false;
      }
      update := update.(state := UQuarantined);
      Quarantine();
      return true;
    }

    // ---- Ranges ----

    method ArchiveRetiredRange() returns (ok: bool)
      modifies this`retired
      ensures ok == (range.state.RRetired? && |old(retired)| < RETIRED_CAPACITY)
      ensures Value() == if ok then old(Value()).(retired := old(retired) + [range]) else old(Value())
    {
      if range.state != RRetired || |retired| >= RETIRED_CAPACITY {
        return false;
      }
      retired := retired + [range];
      return true;
    }

    method ClaimRange(tag: nat, length: nat) returns (ok: bool)
      modifies this`rangeTagHighWater, this`range, this`following, this`retired
      ensures Kept(OpClaimRange(tag, length), ok)
      ensures Outcome(Value(), ok) == Step.ClaimRange(old(Value()), tag, length)
    {
      hide HistoryInv, Advances, Meaning, PublishedBy, Step.ClaimRange;
      Foresee(OpClaimRange(tag, length));
      ok := TakeSlot(tag, length);
    }

    /** The stores of claim_range. */
    method TakeSlot(tag: nat, length: nat) returns (ok: bool)
      modifies this`rangeTagHighWater, this`range, this`following, this`retired
      ensures Outcome(Value(), ok) == Step.ClaimRange(old(Value()), tag, length)
    {
      if !valid || length == 0 || words.viewState != ViewOpen || !NextTag(Value(), rangeTagHighWater, tag)
         || !AddsBelow(allocationHighWater, length, limits.sequenceTerminal)
         || !AddsBelow(rangeTokenGeneration, 1, limits.generationTerminal) || rangeTokenGeneration + 1 >= U32
      {
        return false;
      }
      var target := allocationHighWater + length;
      var head := true;
      if range.state == RFree {
      } else if (range.state == RRetired || range.state == RTerminal) && following.state == RFree {
        if range.state == RRetired {
          var archived := ArchiveRetiredRange();
          if !archived {
            return false;
          }
        }
        range := NO_RANGE;
      } else if range.state == ROpen && following.state == RFree {
        head := false;
      } else {
        return false;
      }
      rangeTagHighWater := tag;
      var claimed := RangeRecord(tag, RInitializing, allocationHighWater + 1, target, rangeTokenGeneration + 1, 0, 0);
      if head {
        range := claimed;
      } else {
        following := claimed;
      }
      return true;
    }

    method PrepareRange(tag: nat) returns (ok: bool)
      modifies this`range, this`following
      ensures Kept(OpPrepareRange(tag), ok)
      ensures Outcome(Value(), ok) == Step.PrepareRange(old(Value()), tag)
    {
      hide HistoryInv, Advances, Meaning, PublishedBy;
      Foresee(OpPrepareRange(tag));
      match InitializingSlot(Value(), tag) {
        case HeadSlot =>
          if range.state != RInitializing { return false; }
          range := range.(state := RPrepared);
        case FollowingSlot =>
          if following.state != RInitializing { return false; }
          following := following.(state := RPrepared);
        case NoSlot =>
          return false;
      }
      return true;
    }

    method OpenRange(tag: nat) returns (ok: bool)
      modifies this`allocationHighWater, this`rangeTokenGeneration, this`range, this`following
      ensures Kept(OpOpenRange(tag), ok)
      ensures Outcome(Value(), ok) == Step.OpenRange(old(Value()), tag)
    {
      hide HistoryInv, Advances, Meaning, PublishedBy;
      Foresee(OpOpenRange(tag));
      match InitializingSlot(Value(), tag) {
        case HeadSlot =>
          if !MayOpen(Value(), range) { return false; }
          allocationHighWater := range.end;
          rangeTokenGeneration := range.tokenGeneration;
          range := range.(state := ROpen);
        case FollowingSlot =>
          if !MayOpen(Value(), following) || range.state != ROpen { return false; }
          allocationHighWater := following.end;
          rangeTokenGeneration := following.tokenGeneration;
          following := following.(state := ROpen);
        case NoSlot =>
          return false;
      }
      return true;
    }

    method ReserveRange(tag: nat, length: nat) returns (ok: bool)
      modifies this`allocationHighWater, this`rangeTokenGeneration, this`rangeTagHighWater, this`range,
               this`following, this`retired
      ensures Kept(OpReserveRange(tag, length), ok)
      ensures Outcome(Value(), ok) == Step.ReserveRange(old(Value()), tag, length)
    {
      hide HistoryInv, Advances, Meaning, PublishedBy, Step.ReserveRange;
      Foresee(OpReserveRange(tag, length));
      ok := TakeRange(tag, length);
    }

    /** The stores of reserve_range. */
    method TakeRange(tag: nat, length: nat) returns (ok: bool)
      modifies this`allocationHighWater, this`rangeTokenGeneration, this`rangeTagHighWater, this`range,
               this`following, this`retired
      ensures Outcome(Value(), ok) == Step.ReserveRange(old(Value()), tag, length)
    {
      hide Kept;
      ok := ClaimRange(tag, length);
      if ok {
        ok := PrepareRange(tag);
      }
      if ok {
        ok := OpenRange(tag);
      }
    }

    method AdvanceRangeHead() returns (ok: bool)
      modifies this`range, this`following, this`retired
      ensures Kept(OpAdvanceRangeHead, ok)
      ensures Outcome(Value(), ok) == Step.AdvanceRangeHead(old(Value()))
    {
      hide HistoryInv, Advances, Meaning, PublishedBy, Step.AdvanceRangeHead;
      Foresee(OpAdvanceRangeHead);
      ok := MoveHead();
    }

    /** The stores of advance_range_head. */
    method MoveHead() returns (ok: bool)
      modifies this`range, this`following, this`retired
      ensures Outcome(Value(), ok) == Step.AdvanceRangeHead(old(Value()))
    {
      if range.state != RRetired || following.state != ROpen
         || (publication.state != PFree && publication.state != PTerminal)
      {
        return false;
      }
      var archived := ArchiveRetiredRange();
      if !archived {
        return false;
      }
      range := following;
      following := NO_RANGE;
      return true;
    }

    // ---- Publications ----

    method ClaimPublication(token: RangeToken, tag: nat, requiresCompensation: bool) returns (ok: bool)
      modifies this`publication
      ensures Kept(OpClaimPublication(token, tag, requiresCompensation), ok)
      ensures Outcome(Value(), ok) == Step.ClaimPublication(old(Value()), token, tag, requiresCompensation)
    {
      hide HistoryInv, Advances, Meaning, PublishedBy;
      Foresee(OpClaimPublication(token, tag, requiresCompensation));
      if !RangeTokenValid(Value(), token) || !RangeRecordMatches(Value(), range, token)
         || (publication.state != PFree && publication.state != PTerminal)
         || !NextTag(Value(), publication.tag, tag)
         || !AddsBelow(publicationCursor, 1, limits.sequenceTerminal)
      {
        return false;
      }
      var target := Max(range.begin, publicationCursor + 1);
      if target > range.end {
        return false;
      }
      publication := PublishRecord(tag, PInitializing, Live, token.rangeTag, token.tokenGeneration, token.rangeBegin,
                                   token.rangeEnd, target, false, requiresCompensation);
      return true;
    }

    method ClaimCurrentPublication(tag: nat, requiresCompensation: bool) returns (ok: bool)
      modifies this`publication
      ensures Kept(OpClaimCurrentPublication(tag, requiresCompensation), ok)
      ensures Outcome(Value(), ok) == Step.ClaimCurrentPublication(old(Value()), tag, requiresCompensation)
    {
      hide HistoryInv, Advances, Meaning, PublishedBy;
      Foresee(OpClaimCurrentPublication(tag, requiresCompensation));
      var token := CurrentRangeToken(Value());
      if token.None? {
        return false;
      }
      ok := ClaimPublication(token.value, tag, requiresCompensation);
    }

    method PreparePublication(tag: nat) returns (ok: bool)
      modifies this`publication
      ensures Kept(OpPreparePublication(tag), ok)
      ensures Outcome(Value(), ok) == Step.PreparePublication(old(Value()), tag)
    {
      hide HistoryInv, Advances, Meaning, PublishedBy;
      Foresee(OpPreparePublication(tag));
      if publication.tag != tag || publication.state != PInitializing {
        return false;
      }
      publication := publication.(state := PPrepared);
      return true;
    }

    method LinkPublication(tag: nat) returns (ok: bool)
      modifies this`publication
      ensures Kept(OpLinkPublication(tag), ok)
      ensures Outcome(Value(), ok) == Step.LinkPublication(old(Value()), tag)
    {
      hide HistoryInv, Advances, Meaning, PublishedBy;
      Foresee(OpLinkPublication(tag));
      if publication.tag != tag || publication.state != PPrepared {
        return false;
      }
      publication := publication.(state := PLinking);
      return true;
    }

    method ActivatePublication(tag: nat) returns (ok: bool)
      modifies this`publication
      ensures Kept(OpActivatePublication(tag), ok)
      ensures Outcome(Value(), ok) == Step.ActivatePublication(old(Value()), tag)
    {
      hide HistoryInv, Advances, Meaning, PublishedBy;
      Foresee(OpActivatePublication(tag));
      if publication.tag != tag || publication.state != PLinking || words.viewState != ViewOpen
         || !RangeMatches(publication, range)
      {
        return false;
      }
      publication := publication.(state := PActive);
      return true;
    }

    method ApplyPublication(tag: nat) returns (ok: bool)
      modifies this`publicationCursor, this`publication, this`intermediateVisible, this`log
      ensures Kept(OpApplyPublication(tag), ok)
      ensures Outcome(Value(), ok) == Step.ApplyPublication(old(Value()), tag)
      ensures log == old(log) + PublishedBy(old(Value()), Value())
    {
      hide HistoryInv, Advances, Meaning, PublishedBy, Step.ApplyPublication;
      Foresee(OpApplyPublication(tag));
      ghost var taken := PublishedBy(Value(), Step.ApplyPublication(Value(), tag).state);
      ok := ApplyPayload(tag);
      log := log + taken;
    }

    /** The stores of apply_publication, which recovery makes too. */
    method ApplyPayload(tag: nat) returns (ok: bool)
      modifies this`publicationCursor, this`publication, this`intermediateVisible
      ensures Outcome(Value(), ok) == Step.ApplyPublication(old(Value()), tag)
    {
      if publication.tag != tag || publication.state != PActive || publication.payloadApplied
          || words.viewState != ViewOpen
         || !RangeMatches(publication, range) || !AddsBelow(publicationCursor, 1, limits.sequenceTerminal)
         || publication.targetSequence != Max(range.begin, publicationCursor + 1)
      {
        return false;
      }
      publicationCursor := publication.targetSequence;
      publication := publication.(payloadApplied := true);
      intermediateVisible := publication.requiresCompensation;
      return true;
    }

    method MarkPublication(tag: nat) returns (ok: bool)
      modifies this`publication
      ensures Kept(OpMarkPublication(tag), ok)
      ensures Outcome(Value(), ok) == Step.MarkPublication(old(Value()), tag)
    {
      hide HistoryInv, Advances, Meaning, PublishedBy;
      Foresee(OpMarkPublication(tag));
      if publication.tag != tag || publication.state != PActive || !publication.payloadApplied
          || words.viewState != ViewOpen
         || !RangeMatches(publication, range) || publicationCursor != publication.targetSequence
      {
        return false;
      }
      publication := publication.(state := PPublished);
      return true;
    }

    method RetireRange() returns (ok: bool)
      modifies this`range
      ensures ok == RangeMatches(old(publication), old(range))
      ensures Value() == if ok then old(Value()).(range := RetireAt(old(range), publicationCursor)) else old(Value())
    {
      if !RangeMatches(publication, range) {
        return false;
      }
      if publicationCursor < range.begin {
        range := range.(unusedBegin := range.begin);
        range := range.(unusedEnd := range.end);
      } else if publicationCursor < range.end {
        range := range.(unusedBegin := publicationCursor + 1);
        range := range.(unusedEnd := range.end);
      } else {
        range := range.(unusedBegin := 0);
        range := range.(unusedEnd := 0);
      }
      range := range.(state := RRetired);
      return true;
    }

    method FinishPublication(tag: nat) returns (ok: bool)
      modifies this`range, this`publication
      ensures Kept(OpFinishPublication(tag), ok)
      ensures Outcome(Value(), ok) == Step.FinishPublication(old(Value()), tag)
    {
      hide HistoryInv, Advances, Meaning, PublishedBy;
      Foresee(OpFinishPublication(tag));
      if publication.tag != tag {
        return false;
      }
      if publication.state == PAborted {
        var settled := RetireRange();
        if !settled {
          return false;
        }
        publication := publication.(state := PTerminal);
        return true;
      }
      if publication.state != PPublished || intermediateVisible {
        return false;
      }
      var retiredNow := RetireRange();
      if !retiredNow {
        return false;
      }
      publication := publication.(state := PTerminal);
      return true;
    }

    method AbortPublication(tag: nat) returns (ok: bool)
      modifies this`publication
      ensures Kept(OpAbortPublication(tag), ok)
      ensures Outcome(Value(), ok) == Step.AbortPublication(old(Value()), tag)
    {
      hide HistoryInv, Advances, Meaning, PublishedBy;
      Foresee(OpAbortPublication(tag));
      if publication.tag != tag || (publication.state != PInitializing && publication.state != PPrepared) {
        return false;
      }
      publication := publication.(state := PAborted);
      return true;
    }

    method Compensate() returns (ok: bool)
      modifies this`publicationCursor, this`intermediateVisible, this`compensationCount
      ensures Outcome(Value(), ok) == Step.Compensate(old(Value()))
    {
      if !intermediateVisible || words.viewState != ViewOpen || !RangeMatches(publication, range)
         || !AddsBelow(publicationCursor, 1, limits.sequenceTerminal) || publicationCursor + 1 > range.end
      {
        return false;
      }
      publicationCursor := publicationCursor + 1;
      intermediateVisible := false;
      compensationCount := (compensationCount + 1) % U32;
      return true;
    }

    method QuarantinePublication()
      modifies this`words, this`attempt, this`lease, this`update, this`range, this`following, this`publication
      ensures Value() == Step.QuarantinePublication(old(Value())).state
    {
      Quarantine();
      publication := publication.(state := PQuarantined);
    }

    method RecoverDeadPublication(tag: nat) returns (ok: bool)
      modifies this`words, this`attempt, this`lease, this`update, this`range, this`following, this`publication,
               this`publicationCursor, this`intermediateVisible, this`compensationCount, this`log
      ensures Kept(OpRecoverDeadPublication(tag), ok)
      ensures Outcome(Value(), ok) == Step.RecoverDeadPublication(old(Value()), tag)
      ensures log == old(log) + PublishedBy(old(Value()), Value())
    {
      hide HistoryInv, Advances, Meaning, PublishedBy, Step.RecoverDeadPublication;
      Foresee(OpRecoverDeadPublication(tag));
      ghost var taken := PublishedBy(Value(), Step.RecoverDeadPublication(Value(), tag).state);
      ok := SettleDeadPublication(tag);
      log := log + taken;
    }

    /** The stores of recover_dead_publication. */
    method SettleDeadPublication(tag: nat) returns (ok: bool)
      modifies this`words, this`attempt, this`lease, this`update, this`range, this`following, this`publication,
               this`publicationCursor, this`intermediateVisible, this`compensationCount
      ensures Outcome(Value(), ok) == Step.RecoverDeadPublication(old(Value()), tag)
    {
      hide Kept;
      if publication.tag != tag {
        return false;
      }
      publication := publication.(owner := Dead);
      if publication.state == PInitializing || publication.state == PPrepared {
        publication := publication.(state := PAborted);
      }
      if publication.state == PAborted {
        ok := FinishPublication(tag);
        return;
      }
      if publication.state == PLinking {
        var activated := ActivatePublication(tag);
        if !activated {
          QuarantinePublication();
          return false;
        }
      }
      ok := RecoverActive(tag);
    }

    /** The part of recovery after activation. */
    method RecoverActive(tag: nat) returns (ok: bool)
      modifies this`words, this`attempt, this`lease, this`update, this`range, this`following, this`publication,
               this`publicationCursor, this`intermediateVisible, this`compensationCount
      ensures Outcome(Value(), ok) == Step.RecoverActive(old(Value()), tag)
    {
      hide Kept;
      if publication.state == PActive && !publication.payloadApplied {
        var applied := ApplyPayload(tag);
        if !applied {
          QuarantinePublication();
          return false;
        }
      }
      if publication.state == PActive {
        var marked := MarkPublication(tag);
        if !marked {
          QuarantinePublication();
          return false;
        }
      }
      ok := RecoverPublished(tag);
    }

    /** The part of recovery after marking. */
    method RecoverPublished(tag: nat) returns (ok: bool)
      modifies this`words, this`attempt, this`lease, this`update, this`range, this`following, this`publication,
               this`publicationCursor, this`intermediateVisible, this`compensationCount
      ensures Outcome(Value(), ok) == Step.RecoverPublished(old(Value()), tag)
    {
      hide Kept;
      if publication.state == PPublished && intermediateVisible {
        var compensated := Compensate();
        if !compensated {
          QuarantinePublication();
          return false;
        }
      }
      if publication.state == PPublished {
        ok := FinishPublication(tag);
        return;
      }
      return publication.state == PTerminal;
    }

    method ExpireLivePublication(tag: nat) returns (ok: bool)
      modifies this`words, this`attempt, this`lease, this`update, this`range, this`following, this`publication
      ensures Kept(OpExpireLivePublication(tag), ok)
      ensures Outcome(Value(), ok) == Step.ExpireLivePublication(old(Value()), tag)
    {
      hide HistoryInv, Advances, Meaning, PublishedBy, Step.ExpireLivePublication;
      Foresee(OpExpireLivePublication(tag));
      ok := QuarantinePublisher(tag);
    }

    /** The stores of expire_live_publication. */
    method QuarantinePublisher(tag: nat) returns (ok: bool)
      modifies this`words, this`attempt, this`lease, this`update, this`range, this`following, this`publication
      ensures Outcome(Value(), ok) == Step.ExpireLivePublication(old(Value()), tag)
    {
      if publication.tag != tag || publication.owner != Live || publication.state == PFree
         || publication.state == PAborted || publication.state == PTerminal || publication.state == PQuarantined
      {
        return false;
      }
      publication := publication.(state := PQuarantined);
      range := range.(state := RQuarantined);
      Quarantine();
      return true;
    }

    method ReclaimPublication(newTag: nat) returns (ok: bool)
      modifies this`publication
      ensures Kept(OpReclaimPublication(newTag), ok)
      ensures Outcome(Value(), ok) == Step.ReclaimPublication(old(Value()), newTag)
    {
      hide HistoryInv, Advances, Meaning, PublishedBy;
      Foresee(OpReclaimPublication(newTag));
      if publication.state != PTerminal || range.state != RRetired || !NextTag(Value(), publication.tag, newTag) {
        return false;
      }
      publication := FreePublication(newTag);
      return true;
    }
  }
}
