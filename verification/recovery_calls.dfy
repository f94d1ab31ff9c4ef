// What single calls of the recovery model mean to their callers, on every state a run can reach.
module RecoveryCalls {
  import opened RecoveryState
  import opened RecoveryInvariants
  import opened RecoveryRuns

  // ---- Admission ----

  /** Nothing is admitted: no read finishes and no token commits, whatever its values. */
  ghost predicate Shut(s: State) {
    && (forall snapshot :: !FinishRead(s, snapshot)) && BeginRead(s).None?
    && (forall token :: !AdmissionTokenMatches(s, token)) && CurrentAdmissionToken(s).None?
    && !LiveLease(s.lease.state)
  }

  /** A reserved lease can be committed with the token it hands out. */
  lemma {:induction false} ReservedTokenCommits(s: State, attemptTag: nat, leaseTag: nat, initial: nat)
    requires Inv(s, initial) && ReserveLease(s, attemptTag, leaseTag).ok
    ensures
      var r := ReserveLease(s, attemptTag, leaseTag).state;
      var token := CurrentAdmissionToken(r);
      && token.Some? && token.value.leaseTag == leaseTag && token.value.attemptTag == attemptTag
      && BeginTokenCommit(r, token.value).ok
  {
  }

  /** Only the current token commits. */
  lemma {:induction false} TokenCommitsIffCurrent(s: State, token: AdmissionToken, initial: nat)
    requires Inv(s, initial)
    ensures BeginTokenCommit(s, token).ok <==> CurrentAdmissionToken(s) == Some(token)
  {
    hide UpdateInv, RangeInv, PublicationInv;
  }

  /** The commit counter counts: it does not wrap around. */
  lemma {:induction false} CommitCounts(s: State, leaseTag: nat, initial: nat)
    requires Inv(s, initial) && FinishLeaseCommit(s, leaseTag).ok
    ensures FinishLeaseCommit(s, leaseTag).state.committedAdmissions == s.committedAdmissions + 1
  {
    hide UpdateInv, RangeInv, PublicationInv;
  }

  /** Recovery of a live lease keeps it exactly when its target write had landed. */
  lemma {:induction false} RecoveredLeaseOutcome(s: State, leaseTag: nat, initial: nat)
    requires Inv(s, initial) && s.lease.tag == leaseTag && LiveLease(s.lease.state)
    ensures
      var r := RecoverDeadLease(s, leaseTag);
      && r.ok && r.state.attempt.state.AExited?
      && (r.state.lease.state.LReleased? <==> s.lease.targetWritten)
      && (r.state.lease.state.LTombstoned? <==> !s.lease.targetWritten)
  {
    hide UpdateInv, RangeInv, PublicationInv;
  }

  lemma {:induction false} ClosedIsShut(s: State, initial: nat)
    requires Inv(s, initial) && !s.deviceState.DeviceOpen?
    ensures Shut(s)
  {
    hide UpdateInv, RangeInv, PublicationInv;
  }

  lemma {:induction false} CloseShuts(s: State, initial: nat)
    requires Inv(s, initial)
    ensures Shut(CloseView(s)) && Shut(CloseDevice(s))
    ensures CloseView(s).viewState.ViewTerminal? || CloseView(s).viewState.ViewQuarantined?
  {
    CloseViewInv(s, initial);
    CloseDeviceInv(s, initial);
    assert CloseView(s).deviceState.DeviceClosed? && CloseDevice(s).deviceState.DeviceClosed?;
    ClosedIsShut(CloseView(s), initial);
    ClosedIsShut(CloseDevice(s), initial);
  }

  /** Expiry of a live owner quarantines the view and ends every admission. */
  lemma {:induction false} ExpiryShuts(s: State, op: Op, initial: nat)
    requires Inv(s, initial) && (op.OpExpireLiveLease? || op.OpExpireLiveDeviceUpdate? || op.OpExpireLivePublication?)
    requires Apply(s, op).ok
    ensures Shut(Apply(s, op).state) && Apply(s, op).state.viewState.ViewQuarantined?
  {
    hide Inv, Shut;
    ApplyInv(s, op, initial);
    ClosedIsShut(Apply(s, op).state, initial);
  }

  /** Linking an update takes the next generation and epoch and ends every admission made before. */
  lemma {:induction false} LinkShuts(s: State, tag: nat, initial: nat)
    requires Inv(s, initial) && LinkDeviceUpdate(s, tag).ok
    ensures
      var r := LinkDeviceUpdate(s, tag).state;
      r.deviceGeneration == s.deviceGeneration + 1 && r.epoch == s.epoch + 1 && Shut(r)
  {
    var begun := BeginDeviceUpdateLink(s, tag).state;
    BeginDeviceUpdateLinkInv(s, tag, initial);
    CompleteDeviceUpdateLinkInv(begun, tag, initial);
    ClosedIsShut(LinkDeviceUpdate(s, tag).state, initial);
  }

  /** Reopening admits readers of the new generation and epoch. */
  lemma {:induction false} ReopenAdmits(s: State, tag: nat, initial: nat)
    requires Inv(s, initial) && ReopenDeviceUpdate(s, tag).ok && s.viewState.ViewOpen?
    ensures
      BeginRead(ReopenDeviceUpdate(s, tag).state)
      == Some(ReadSnapshot(s.viewId, s.viewGeneration, s.update.newGeneration, s.update.newEpoch))
  {
    hide LeaseInv, RangeInv, PublicationInv;
  }

  // ---- Ranges ----

  /** A reservation appends the next numbers to what has been allocated. */
  lemma {:induction false} ReservationAllocates(s: State, tag: nat, length: nat, initial: nat)
    requires Inv(s, initial) && ReserveRange(s, tag, length).ok
    ensures
      var r := ReserveRange(s, tag, length).state;
      && r.allocationHighWater == s.allocationHighWater + length
      && OpenedRanges(r)
          == OpenedRanges(s) + [RangeRecord(tag, ROpen, s.allocationHighWater + 1, s.allocationHighWater + length,
                                                           s.rangeTokenGeneration + 1, 0, 0)]
  {
    hide Inv, OpenedRanges, PrepareRange, OpenRange;
    var claimed := ClaimRange(s, tag, length).state;
    ClaimIsNext(s, tag, length, initial);
    OpeningAllocates(claimed, tag);
  }

  /** A fresh claim sits behind everything opened so far. */
  lemma {:induction false} ClaimIsNext(s: State, tag: nat, length: nat, initial: nat)
    requires Inv(s, initial) && ClaimRange(s, tag, length).ok
    ensures
      var r := ClaimRange(s, tag, length).state;
      var slot := RangeRecord(tag, RInitializing, s.allocationHighWater + 1, s.allocationHighWater + length,
                              s.rangeTokenGeneration + 1, 0, 0);
      && 0 < length && OpenedRanges(r) == OpenedRanges(s)
      && r.allocationHighWater == s.allocationHighWater
      && ((r.range == slot && r.following.state.RFree?)
            || (r.following == slot && r.range.tag != tag && r.range.end <= r.allocationHighWater))
  {
    hide ControlInv, LeaseInv, UpdateInv, PublicationInv;
  }

  lemma {:induction false} OpeningAllocates(s: State, tag: nat)
    requires PrepareRange(s, tag).ok && OpenRange(PrepareRange(s, tag).state, tag).ok
    requires
      || (s.range.tag == tag && s.range.end > s.allocationHighWater && s.following.state.RFree?)
      || (s.following.tag == tag && s.following.end > s.allocationHighWater >= s.range.end && s.range.tag != tag)
    ensures
      var slot := if s.range.tag == tag then s.range else s.following;
      var r := OpenRange(PrepareRange(s, tag).state, tag).state;
      r.allocationHighWater == slot.end && OpenedRanges(r) == OpenedRanges(s) + [slot.(state := ROpen)]
  {
  }

  /** Moving the head on forgets no range. */
  lemma {:induction false} AdvanceKeepsRanges(s: State, initial: nat)
    requires Inv(s, initial) && AdvanceRangeHead(s).ok
    ensures OpenedRanges(AdvanceRangeHead(s).state) == OpenedRanges(s)
  {
    hide ControlInv, LeaseInv, UpdateInv, PublicationInv;
  }

  // ---- Publications ----

  /** A claim targets the first number of the head range that nobody has published. */
  lemma {:induction false} ClaimTakesNext(s: State, token: RangeToken, tag: nat, compensate: bool, log: seq<nat>,
                                          initial: nat)
    requires HistoryInv(s, log, initial) && ClaimPublication(s, token, tag, compensate).ok
    ensures
      var target := ClaimPublication(s, token, tag, compensate).state.publication.targetSequence;
      && s.range.begin <= target <= s.range.end && target !in log
      && forall n :: s.range.begin <= n < target ==> n in log
  {
    hide ControlInv, LeaseInv, UpdateInv;
    var target := ClaimPublication(s, token, tag, compensate).state.publication.targetSequence;
    forall n | s.range.begin <= n < target ensures n in log {
      assert n <= s.publicationCursor;
    }
  }

  /** Finishing records as unused exactly the numbers of the range that were never published. */
  lemma {:induction false} FinishRecordsUnused(s: State, tag: nat, log: seq<nat>, initial: nat)
    requires HistoryInv(s, log, initial) && FinishPublication(s, tag).ok
    ensures
      var r := FinishPublication(s, tag).state;
      r.range.state.RRetired? && SuffixExact(log, r.range)
  {
    hide Inv, LogInv;
    FinishKeepsLog(s, tag, log, initial);
    assert PublishedBy(s, FinishPublication(s, tag).state) == [] && log + [] == log;
    RetiredSuffix(FinishPublication(s, tag).state, log, initial);
  }

  lemma {:induction false} RetiredSuffix(s: State, log: seq<nat>, initial: nat)
    requires LogInv(log, s.publicationCursor, s.range, s.retired, initial) && s.range.state.RRetired?
    ensures SuffixExact(log, s.range)
  {
  }

  // ---- All calls ----

  /** The lease has a token, for this lease, that commits. */
  predicate TokenCommits(s: State, leaseTag: nat) {
    var token := CurrentAdmissionToken(s);
    token.Some? && token.value.leaseTag == leaseTag && BeginTokenCommit(s, token.value).ok
  }

  /** The number is the first of the head range that is not in the log. */
  ghost predicate NextUnpublished(range: RangeRecord, log: seq<nat>, target: nat) {
    range.begin <= target <= range.end && target !in log && forall n :: range.begin <= n < target ==> n in log
  }

  /** One range more, from the old high water to the new one. */
  predicate Allocated(s: State, r: State, tag: nat, length: nat) {
    && r.allocationHighWater == s.allocationHighWater + length
    && OpenedRanges(r) == OpenedRanges(s) + [RangeRecord(tag, ROpen, s.allocationHighWater + 1, r.allocationHighWater,
                                                         s.rangeTokenGeneration + 1, 0, 0)]
  }

  /** Should its owner die now, recovery will release the lease and not tombstone it. */
  predicate OutlivesOwner(s: State, leaseTag: nat) {
    RecoverDeadLease(s, leaseTag).ok && RecoverDeadLease(s, leaseTag).state.lease.state.LReleased?
  }

  /** What a call made in state s, with the numbers of `log` published before, means to its caller. */
  ghost predicate Meaning(s: State, op: Op, r: Outcome, log: seq<nat>) {
    match op
    case OpReserveLease(_, l) => r.ok ==> TokenCommits(r.state, l)
    case OpBeginTokenCommit(token) => r.ok <==> CurrentAdmissionToken(s) == Some(token)
    case OpFinishLeaseCommit(_) => r.ok ==> r.state.committedAdmissions == s.committedAdmissions + 1
    case OpWriteLeaseTarget(l) => r.ok ==> OutlivesOwner(r.state, l)
    case OpPublishLease(l) => r.ok ==> OutlivesOwner(r.state, l)
    case OpRecoverDeadLease(l) =>
      s.lease.tag == l && LiveLease(s.lease.state) ==>
        && r.ok && r.state.attempt.state.AExited?
        && r.state.lease.state == if s.lease.targetWritten then LReleased else LTombstoned
    case OpExpireLiveLease(_) => r.ok ==> r.state.viewState.ViewQuarantined? && Shut(r.state)
    case OpExpireLiveDeviceUpdate(_) => r.ok ==> r.state.viewState.ViewQuarantined? && Shut(r.state)
    case OpExpireLivePublication(_) => r.ok ==> r.state.viewState.ViewQuarantined? && Shut(r.state)
    case OpCloseView => Shut(r.state) && (r.state.viewState.ViewTerminal? || r.state.viewState.ViewQuarantined?)
    case OpCloseDevice => Shut(r.state)
    case OpLinkDeviceUpdate(_) =>
      r.ok ==> Shut(r.state) && r.state.deviceGeneration == s.deviceGeneration + 1 && r.state.epoch == s.epoch + 1
    case OpReopenDeviceUpdate(_) =>
      r.ok && s.viewState.ViewOpen? ==>
        BeginRead(r.state) == Some(ReadSnapshot(s.viewId, s.viewGeneration, s.update.newGeneration, s.update.newEpoch))
    case OpRecoverDeadDeviceUpdate(t) =>
      s.update.tag == t && LinkedUpdate(s.update.state) ==>
          r == Outcome(WithDeadUpdateOwner(LiveUpdatePath(s, t)), true)
    case OpReserveRange(t, length) => r.ok ==> Allocated(s, r.state, t, length)
    case OpAdvanceRangeHead => r.ok ==> OpenedRanges(r.state) == OpenedRanges(s)
    case OpClaimPublication(_, _, _) => r.ok ==> NextUnpublished(s.range, log, r.state.publication.targetSequence)
    case OpClaimCurrentPublication(_, _) => r.ok ==> NextUnpublished(s.range, log, r.state.publication.targetSequence)
    case OpApplyPublication(_) => r.ok ==> PublishedBy(s, r.state) == [s.publication.targetSequence]
    case OpFinishPublication(_) => r.ok ==> r.state.range.state.RRetired? && SuffixExact(log, r.state.range)
    case OpRecoverDeadPublication(t) =>
      s.publication.tag == t && LinkedPublication(s.publication.state) ==>
        if s.publication.requiresCompensation
        then r.ok <==> s.publication.targetSequence < s.range.end
        else r == Outcome(WithDeadPublisher(LivePublicationPath(s, t).state), true)
    case _ => true
  }

  /** Operations about which `Meaning` says nothing beyond the step itself. */
  predicate Plain(op: Op) {
    op.OpEnterAttempt? || op.OpClaimLease? || op.OpMaterializeLease? || op.OpBeginLeaseCommit? || op.OpReleaseLease?
    || op.OpReclaimLease? || op.OpClaimDeviceUpdate? || op.OpMaterializeDeviceUpdate? || op.OpPrepareDeviceUpdate?
    || op.OpBeginDeviceUpdateLink? || op.OpCompleteDeviceUpdateLink? || op.OpPublishDeviceUpdate?
    || op.OpFinishDeviceUpdate?
  }

  lemma {:induction false} PlainMeans(s: State, op: Op, r: Outcome, log: seq<nat>)
    requires Plain(op)
    ensures Meaning(s, op, r, log)
  {
  }

  lemma {:induction false} TokenCallMeans(s: State, op: Op, log: seq<nat>, initial: nat)
    requires Inv(s, initial) && (op.OpReserveLease? || op.OpBeginTokenCommit?)
    ensures Meaning(s, op, Apply(s, op), log)
  {
    hide Inv, Shut, TokenCommits, CurrentAdmissionToken, ReserveLease, BeginTokenCommit;
    if op.OpBeginTokenCommit? {
      TokenCommitsIffCurrent(s, op.admission, initial);
    } else if ReserveLease(s, op.tag, op.leaseTag).ok {
      ReserveMeans(s, op.tag, op.leaseTag, initial);
    }
  }

  /** A lease whose target is written or published outlives its owner. */
  lemma {:induction false} WriteMeans(s: State, leaseTag: nat)
    ensures WriteLeaseTarget(s, leaseTag).ok ==> OutlivesOwner(WriteLeaseTarget(s, leaseTag).state, leaseTag)
    ensures PublishLease(s, leaseTag).ok ==> OutlivesOwner(PublishLease(s, leaseTag).state, leaseTag)
  {
  }

  lemma {:induction false} WriteCallMeans(s: State, op: Op, log: seq<nat>)
    requires op.OpWriteLeaseTarget? || op.OpPublishLease?
    ensures Meaning(s, op, Apply(s, op), log)
  {
    hide OutlivesOwner, WriteLeaseTarget, PublishLease;
    WriteMeans(s, op.tag);
  }

  lemma {:induction false} SettlingCallMeans(s: State, op: Op, log: seq<nat>, initial: nat)
    requires Inv(s, initial) && (op.OpFinishLeaseCommit? || op.OpRecoverDeadLease? || op.OpExpireLiveLease?)
    ensures Meaning(s, op, Apply(s, op), log)
  {
    hide Inv, Shut, FinishLeaseCommit, RecoverDeadLease, ExpireLiveLease;
    if op.OpFinishLeaseCommit? {
      if FinishLeaseCommit(s, op.tag).ok { CommitCounts(s, op.tag, initial); }
    } else if op.OpRecoverDeadLease? {
      if s.lease.tag == op.tag && LiveLease(s.lease.state) { RecoveredLeaseOutcome(s, op.tag, initial); }
    } else if Apply(s, op).ok {
      ExpiryShuts(s, op, initial);
    }
  }

  lemma {:induction false} LeaseCallMeans(s: State, op: Op, log: seq<nat>, initial: nat)
    requires Inv(s, initial) && LeaseOp(op)
    ensures Meaning(s, op, Apply(s, op), log)
  {
    hide Inv, Meaning, Apply;
    if Plain(op) {
      PlainMeans(s, op, Apply(s, op), log);
    } else if op.OpReserveLease? || op.OpBeginTokenCommit? {
      TokenCallMeans(s, op, log, initial);
    } else if op.OpWriteLeaseTarget? || op.OpPublishLease? {
      WriteCallMeans(s, op, log);
    } else {
      SettlingCallMeans(s, op, log, initial);
    }
  }

  lemma {:induction false} ReserveMeans(s: State, attemptTag: nat, leaseTag: nat, initial: nat)
    requires Inv(s, initial) && ReserveLease(s, attemptTag, leaseTag).ok
    ensures TokenCommits(ReserveLease(s, attemptTag, leaseTag).state, leaseTag)
  {
    hide Inv, ReserveLease, BeginTokenCommit;
    ReservedTokenCommits(s, attemptTag, leaseTag, initial);
  }

  lemma {:induction false} ClosingCallMeans(s: State, op: Op, log: seq<nat>, initial: nat)
    requires Inv(s, initial) && (op.OpCloseView? || op.OpCloseDevice? || op.OpExpireLiveDeviceUpdate?)
    ensures Meaning(s, op, Apply(s, op), log)
  {
    hide Inv, Shut, CloseView, CloseDevice, ExpireLiveDeviceUpdate;
    CloseShuts(s, initial);
    if op.OpExpireLiveDeviceUpdate? && Apply(s, op).ok { ExpiryShuts(s, op, initial); }
  }

  lemma {:induction false} LinkedCallMeans(s: State, op: Op, log: seq<nat>, initial: nat)
    requires Inv(s, initial) && (op.OpLinkDeviceUpdate? || op.OpReopenDeviceUpdate? || op.OpRecoverDeadDeviceUpdate?)
    ensures Meaning(s, op, Apply(s, op), log)
  {
    hide Inv, Shut, LinkDeviceUpdate, ReopenDeviceUpdate, RecoverDeadDeviceUpdate, LiveUpdatePath, BeginRead;
    if op.OpLinkDeviceUpdate? {
      if LinkDeviceUpdate(s, op.tag).ok { LinkShuts(s, op.tag, initial); }
    } else if op.OpReopenDeviceUpdate? {
      if s.viewState.ViewOpen? && ReopenDeviceUpdate(s, op.tag).ok { ReopenAdmits(s, op.tag, initial); }
    } else if s.update.tag == op.tag && LinkedUpdate(s.update.state) {
      UpdateCrashEquivalence(s, op.tag, initial);
    }
  }

  lemma {:induction false} UpdateCallMeans(s: State, op: Op, log: seq<nat>, initial: nat)
    requires Inv(s, initial) && UpdateOp(op)
    ensures Meaning(s, op, Apply(s, op), log)
  {
    hide Inv, Meaning, Apply;
    if Plain(op) {
      PlainMeans(s, op, Apply(s, op), log);
    } else if op.OpCloseView? || op.OpCloseDevice? || op.OpExpireLiveDeviceUpdate? {
      ClosingCallMeans(s, op, log, initial);
    } else {
      LinkedCallMeans(s, op, log, initial);
    }
  }

  lemma {:induction false} PublicationCallMeans(s: State, op: Op, log: seq<nat>, initial: nat)
    requires HistoryInv(s, log, initial) && !LeaseOp(op) && !UpdateOp(op)
    ensures Meaning(s, op, Apply(s, op), log)
  {
    hide HistoryInv, Inv, Shut, ReserveRange, AdvanceRangeHead, OpenedRanges, ClaimPublication, ApplyPublication,
        FinishPublication,
      RecoverDeadPublication, ExpireLivePublication, MarkedPublication, SuffixExact;
    HistoryIsInv(s, log, initial);
    match op
    case OpReserveRange(t, n) => if ReserveRange(s, t, n).ok { ReservationAllocates(s, t, n, initial); }
    case OpAdvanceRangeHead => if AdvanceRangeHead(s).ok { AdvanceKeepsRanges(s, initial); }
    case OpClaimPublication(k, t, c) => if ClaimPublication(s, k, t, c).ok { ClaimTakesNext(s, k, t, c, log, initial); }
    case OpClaimCurrentPublication(t, c) =>
      var token := CurrentRangeToken(s);
      if token.Some? && ClaimPublication(s, token.value, t, c).ok {
        ClaimTakesNext(s, token.value, t, c, log, initial);
      }
    case OpApplyPublication(t) => if ApplyPublication(s, t).ok { ApplyPublishesTarget(s, t); }
    case OpFinishPublication(t) => if FinishPublication(s, t).ok { FinishRecordsUnused(s, t, log, initial); }
    case OpRecoverDeadPublication(t) =>
      if s.publication.tag == t && LinkedPublication(s.publication.state) {
        if s.publication.requiresCompensation {
          CompensatingRecovery(s, t, initial);
        } else {
          PublicationCrashEquivalence(s, t, initial);
        }
      }
    case OpExpireLivePublication(t) => if Apply(s, op).ok { ExpiryShuts(s, op, initial); }
    case _ =>
  }

  lemma {:induction false} HistoryIsInv(s: State, log: seq<nat>, initial: nat)
    requires HistoryInv(s, log, initial)
    ensures Inv(s, initial)
  {
  }

  lemma {:induction false} ApplyPublishesTarget(s: State, tag: nat)
    requires ApplyPublication(s, tag).ok
    ensures PublishedBy(s, ApplyPublication(s, tag).state) == [s.publication.targetSequence]
  {
  }

  /** Every call, on every reachable state, means what `Meaning` says. */
  lemma {:induction false} CallMeans(s: State, op: Op, log: seq<nat>, initial: nat)
    requires HistoryInv(s, log, initial)
    ensures Meaning(s, op, Apply(s, op), log)
  {
    hide Inv, Apply, Meaning;
    HistoryIsInv(s, log, initial);
    if LeaseOp(op) {
      LeaseCallMeans(s, op, log, initial);
    } else if UpdateOp(op) {
      UpdateCallMeans(s, op, log, initial);
    } else {
      PublicationCallMeans(s, op, log, initial);
    }
  }
}
