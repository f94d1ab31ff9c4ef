// No step brings back an earlier admission: reads, admission tokens and lease commits over whole runs.
module RecoveryAdmission {
  import opened RecoveryState
  import opened RecoveryInvariants

  /** The words a reader or an admitter compares. */
  datatype Controls = Controls(view: ViewState, viewGeneration: nat, device: DeviceState, deviceGeneration: nat,
                               epoch: nat)

  function ControlsOf(s: State): Controls {
    Controls(s.viewState, s.viewGeneration, s.deviceState, s.deviceGeneration, s.epoch)
  }

  /** How far a lease has come; every terminal outcome has the last rank. */
  function LeaseRank(state: LeaseState): nat {
    match state
    case LFree => 0
    case LInitializing => 1
    case LReserved => 2
    case LCommitting => 3
    case LCommitted => 4
    case LPublished => 5
    case _ => 6
  }

  predicate LeaseBefore(a: LeaseRecord, b: LeaseRecord) {
    a.tag < b.tag || (a.tag == b.tag && LeaseRank(a.state) <= LeaseRank(b.state))
  }

  /** What one step can do to the compared words, the lease and the commit counter. */
  ghost predicate Advances(s: State, r: State) {
    && r.viewId == s.viewId
    && s.epoch <= r.epoch
    && (s.deviceState.DeviceClosed? ==> r.deviceState.DeviceClosed?)
    && (s.deviceState.DeviceOpen? && r.epoch == s.epoch ==>
          r.deviceState.DeviceClosed? || ControlsOf(r) == ControlsOf(s))
    && (r.epoch != s.epoch ==> !LiveLease(r.lease.state))
    && LeaseBefore(s.lease, r.lease)
    && (s.lease.state.LReserved? && r.lease.tag == s.lease.tag && r.lease.state.LReserved? ==>
          r.lease == s.lease && r.attempt == s.attempt)
    && (r.committedAdmissions == s.committedAdmissions
        || (r.committedAdmissions == s.committedAdmissions + 1 && r.lease.tag == s.lease.tag
            && s.lease.state.LCommitting? && r.lease.state.LCommitted?))
  }

  /** The operations that bring a lease up to its commit. */
  predicate Admitting(op: Op) {
    op.OpEnterAttempt? || op.OpClaimLease? || op.OpMaterializeLease? || op.OpReserveLease? || op.OpBeginTokenCommit?
    || op.OpBeginLeaseCommit?
  }

  lemma {:induction false} AdmittingAdvances(s: State, op: Op, initial: nat)
    requires Inv(s, initial) && LeaseOp(op) && Admitting(op)
    ensures Advances(s, ApplyLeaseOp(s, op).state)
  {
    hide UpdateInv, RangeInv, PublicationInv;
  }

  lemma {:induction false} SettlingAdvances(s: State, op: Op, initial: nat)
    requires Inv(s, initial) && LeaseOp(op) && !Admitting(op)
    ensures Advances(s, ApplyLeaseOp(s, op).state)
  {
    hide UpdateInv, RangeInv, PublicationInv;
  }

  lemma {:induction false} LeaseOpAdvances(s: State, op: Op, initial: nat)
    requires Inv(s, initial) && LeaseOp(op)
    ensures Advances(s, ApplyLeaseOp(s, op).state)
  {
    hide Inv, Advances, ApplyLeaseOp;
    if Admitting(op) { AdmittingAdvances(s, op, initial); } else { SettlingAdvances(s, op, initial); }
  }

  ghost predicate Untouched(s: State, r: State) {
    && r.viewId == s.viewId && ControlsOf(r) == ControlsOf(s)
    && r.lease == s.lease && r.attempt == s.attempt && r.committedAdmissions == s.committedAdmissions
  }

  lemma {:induction false} QuarantineAdvances(s: State)
    ensures Advances(s, Quarantine(s))
  {
  }

  lemma {:induction false} CloseDeviceAdvances(s: State)
    ensures Advances(s, CloseDevice(s))
  {
  }

  lemma {:induction false} CloseViewAdvances(s: State, initial: nat)
    requires Inv(s, initial)
    ensures Advances(s, CloseView(s))
  {
    if s.viewState.ViewOpen? {
      hide Quarantine, CloseDevice;
      if s.publication.state.PFree? || s.publication.state.PTerminal? {
        CloseViewUnfolds(s);
        CloseDeviceAdvances(s);
        CloseDeviceCloses(s);
      } else {
        QuarantineAdvances(s);
      }
    }
  }

  lemma {:induction false} CloseDeviceCloses(s: State)
    requires s.valid
    ensures CloseDevice(s).deviceState.DeviceClosed? && CloseDevice(s).epoch == s.epoch
  {
  }

  lemma {:induction false} LinkAdvances(s: State, tag: nat, initial: nat)
    requires Inv(s, initial)
    ensures Advances(s, CompleteDeviceUpdateLink(s, tag).state)
  {
  }

  /** Past linking, recovery touches the device word only to reopen it. */
  ghost predicate OnlyReopens(s: State, r: State) {
    && r.viewId == s.viewId && r.viewState == s.viewState && r.viewGeneration == s.viewGeneration
    && r.deviceGeneration == s.deviceGeneration && r.epoch == s.epoch
    && r.lease == s.lease && r.attempt == s.attempt && r.committedAdmissions == s.committedAdmissions
    && (r.deviceState == s.deviceState || (s.deviceState.DeviceUpdating? && r.deviceState.DeviceOpen?))
  }

  lemma {:induction false} RecoverFencedReopens(s: State, tag: nat)
    ensures OnlyReopens(s, RecoverFenced(s, tag).state)
  {
  }

  lemma {:induction false} RecoverLinkedReopens(s: State, tag: nat)
    ensures OnlyReopens(s, RecoverLinked(s, tag).state)
  {
    hide RecoverFenced;
    RecoverFencedReopens(s, tag);
    RecoverFencedReopens(PublishDeviceUpdate(s, tag).state, tag);
  }

  lemma {:induction false} RecoverUpdateAdvances(s: State, tag: nat, initial: nat)
    requires Inv(s, initial)
    ensures Advances(s, RecoverDeadDeviceUpdate(s, tag).state)
  {
    if s.update.tag == tag {
      if LinkedUpdate(s.update.state) {
        hide RecoverLinked, RecoverDeadDeviceUpdate, CompleteDeviceUpdateLink;
        var linked := CompleteDeviceUpdateLink(s, tag).state;
        LinkingCrash(s, tag);
        LinkAdvances(s, tag, initial);
        LinkRaisesEpoch(s, tag, initial);
        RecoverLinkedReopens(WithDeadUpdateOwner(linked), tag);
      } else {
        RecoverUnlinkedUntouched(s, tag);
      }
    }
  }

  lemma {:induction false} LinkRaisesEpoch(s: State, tag: nat, initial: nat)
    requires Inv(s, initial) && s.update.tag == tag && LinkedUpdate(s.update.state)
    ensures
      var linked := CompleteDeviceUpdateLink(s, tag).state;
      if s.update.state.ULinking? then linked.epoch == s.epoch + 1 else linked == s
  {
  }

  lemma {:induction false} RecoverUnlinkedUntouched(s: State, tag: nat)
    requires s.update.tag == tag && !LinkedUpdate(s.update.state)
    ensures Untouched(s, RecoverDeadDeviceUpdate(s, tag).state)
  {
  }

  lemma {:induction false} UpdateOpAdvances(s: State, op: Op, initial: nat)
    requires Inv(s, initial) && UpdateOp(op)
    ensures Advances(s, ApplyUpdateOp(s, op).state)
  {
    hide Inv, CloseView, CloseDevice, Quarantine, CompleteDeviceUpdateLink, RecoverDeadDeviceUpdate;
    if op.OpRecoverDeadDeviceUpdate? {
      RecoverUpdateAdvances(s, op.tag, initial);
    } else if op.OpCloseView? {
      CloseViewAdvances(s, initial);
    } else if op.OpCloseDevice? {
      CloseDeviceAdvances(s);
    } else if op.OpExpireLiveDeviceUpdate? {
      QuarantineAdvances(s.(update := s.update.(state := UQuarantined)));
    } else if op.OpLinkDeviceUpdate? {
      BeginDeviceUpdateLinkInv(s, op.tag, initial);
      LinkAdvances(BeginDeviceUpdateLink(s, op.tag).state, op.tag, initial);
    } else if op.OpCompleteDeviceUpdateLink? {
      LinkAdvances(s, op.tag, initial);
    }
  }

  lemma {:induction false} RangeStepUntouched(s: State, tag: nat, length: nat)
    ensures Untouched(s, ClaimRange(s, tag, length).state)
    ensures Untouched(s, PrepareRange(s, tag).state) && Untouched(s, OpenRange(s, tag).state)
  {
  }

  lemma {:induction false} RangeOpUntouched(s: State, op: Op)
    requires RangeOp(op)
    ensures Untouched(s, ApplyRangeOp(s, op).state)
  {
    hide ClaimRange, PrepareRange, OpenRange;
    if !op.OpAdvanceRangeHead? {
      var length := if op.OpClaimRange? || op.OpReserveRange? then op.length else 0;
      var claimed := ClaimRange(s, op.tag, length).state;
      RangeStepUntouched(s, op.tag, length);
      RangeStepUntouched(claimed, op.tag, length);
      RangeStepUntouched(PrepareRange(claimed, op.tag).state, op.tag, length);
    }
  }

  lemma {:induction false} PublicationOpUntouched(s: State, op: Op)
    requires !LeaseOp(op) && !UpdateOp(op) && !RangeOp(op)
    requires !op.OpRecoverDeadPublication? && !op.OpExpireLivePublication?
    ensures Untouched(s, ApplyPublicationOp(s, op).state)
  {
  }

  lemma {:induction false} MarkedUntouched(s: State, tag: nat)
    ensures Untouched(s, MarkedPublication(s, tag))
  {
  }

  lemma {:induction false} FinishedUntouched(s: State, tag: nat)
    ensures Untouched(s, FinishPublication(s, tag).state)
    ensures Untouched(s, FinishPublication(Compensate(s).state, tag).state)
  {
  }

  lemma {:induction false} RecoverPublicationAdvances(s: State, tag: nat, initial: nat)
    requires Inv(s, initial)
    ensures Advances(s, RecoverDeadPublication(s, tag).state)
  {
    if s.publication.tag == tag {
      if LinkedPublication(s.publication.state) {
        hide Inv, MarkedPublication, FinishPublication, Compensate, Quarantine, RecoverDeadPublication;
        var marked := MarkedPublication(s, tag);
        LinkedRecoveryOutcome(s, tag, initial);
        MarkedUntouched(s, tag);
        FinishedUntouched(marked, tag);
        QuarantineAdvances(marked);
      } else {
        RecoverUnlinkedPublicationUntouched(s, tag);
      }
    }
  }

  lemma {:induction false} RecoverUnlinkedPublicationUntouched(s: State, tag: nat)
    requires s.publication.tag == tag && !LinkedPublication(s.publication.state)
    ensures Untouched(s, RecoverDeadPublication(s, tag).state)
  {
  }

  lemma {:induction false} StepAdvances(s: State, op: Op, initial: nat)
    requires Inv(s, initial)
    ensures Advances(s, Apply(s, op).state)
  {
    hide Inv, ApplyLeaseOp, ApplyUpdateOp, ApplyRangeOp, RecoverDeadPublication, Quarantine;
    if LeaseOp(op) {
      LeaseOpAdvances(s, op, initial);
    } else if UpdateOp(op) {
      UpdateOpAdvances(s, op, initial);
    } else if RangeOp(op) {
      RangeOpUntouched(s, op);
    } else if op.OpRecoverDeadPublication? {
      RecoverPublicationAdvances(s, op.tag, initial);
    } else if op.OpExpireLivePublication? {
      QuarantineAdvances(s.(publication := s.publication.(state := PQuarantined),
                            range := s.range.(state := RQuarantined)));
    } else {
      PublicationOpUntouched(s, op);
    }
  }

  /** Order of the compared words and of the lease across any stretch of a run. */
  ghost predicate Later(s: State, r: State) {
    && r.viewId == s.viewId && s.epoch <= r.epoch
    && (s.deviceState.DeviceClosed? ==> r.deviceState.DeviceClosed?)
    && LeaseBefore(s.lease, r.lease)
  }

  lemma {:induction false} RunAdvances(s: State, ops: seq<Op>, initial: nat, i: nat, j: nat)
    requires Inv(s, initial) && i <= j <= |ops|
    ensures Later(Run(s, ops)[i], Run(s, ops)[j])
    decreases j
  {
    hide Inv, Apply;
    if i < j {
      RunAdvances(s, ops, initial, i, j - 1);
      RunInv(s, ops, initial, j - 1);
      StepAdvances(Run(s, ops)[j - 1], ops[j - 1], initial);
    }
  }

  /** If the words compare equal and open at both ends of a stretch, they were equal throughout it. */
  lemma {:induction false} OpenControlsStable(s: State, ops: seq<Op>, initial: nat, i: nat, k: nat, j: nat)
    requires Inv(s, initial) && i <= k <= j <= |ops|
    requires Run(s, ops)[i].deviceState.DeviceOpen? && ControlsOf(Run(s, ops)[j]) == ControlsOf(Run(s, ops)[i])
    ensures ControlsOf(Run(s, ops)[k]) == ControlsOf(Run(s, ops)[i])
    decreases k
  {
    hide Inv, Apply;
    if i < k {
      OpenControlsStable(s, ops, initial, i, k - 1, j);
      RunInv(s, ops, initial, k - 1);
      StepAdvances(Run(s, ops)[k - 1], ops[k - 1], initial);
      RunAdvances(s, ops, initial, i, k);
      RunAdvances(s, ops, initial, k, j);
    }
  }

  /** A read succeeds exactly when no link, close or quarantine happened since it began. */
  lemma {:induction false} ReadSeesNoChange(s: State, ops: seq<Op>, initial: nat, i: nat, j: nat)
    requires Inv(s, initial) && i <= j <= |ops| && BeginRead(Run(s, ops)[i]).Some?
    ensures FinishRead(Run(s, ops)[j], BeginRead(Run(s, ops)[i]).value) <==>
      forall k :: i <= k <= j ==> ControlsOf(Run(s, ops)[k]) == ControlsOf(Run(s, ops)[i])
  {
    hide Inv, Apply;
    var run := Run(s, ops);
    RunAdvances(s, ops, initial, i, j);
    RunInvValid(s, ops, initial, j);
    if FinishRead(run[j], BeginRead(run[i]).value) {
      forall k | i <= k <= j ensures ControlsOf(run[k]) == ControlsOf(run[i]) {
        OpenControlsStable(s, ops, initial, i, k, j);
      }
    } else {
      assert ControlsOf(run[j]) != ControlsOf(run[i]);
    }
  }

  lemma {:induction false} RunInvValid(s: State, ops: seq<Op>, initial: nat, i: nat)
    requires Inv(s, initial) && i <= |ops|
    ensures Run(s, ops)[i].valid
  {
    hide Apply;
    RunInv(s, ops, initial, i);
  }

  lemma {:induction false} ReservedLeaseStable(s: State, ops: seq<Op>, initial: nat, i: nat, k: nat, j: nat)
    requires Inv(s, initial) && i <= k <= j <= |ops|
    requires Run(s, ops)[i].lease.state.LReserved? && Run(s, ops)[j].lease.state.LReserved?
    requires Run(s, ops)[i].lease.tag == Run(s, ops)[j].lease.tag
    ensures Run(s, ops)[k].lease == Run(s, ops)[i].lease && Run(s, ops)[k].attempt == Run(s, ops)[i].attempt
    decreases k
  {
    hide Inv, Apply;
    if i < k {
      ReservedLeaseStable(s, ops, initial, i, k - 1, j);
      RunInv(s, ops, initial, k - 1);
      StepAdvances(Run(s, ops)[k - 1], ops[k - 1], initial);
      RunAdvances(s, ops, initial, i, k);
      RunAdvances(s, ops, initial, k, j);
    }
  }

  /** An admission token is accepted only if nothing touched its controls, its lease or its attempt since issue. */
  lemma {:induction false} TokenSeesNoChange(s: State, ops: seq<Op>, initial: nat, i: nat, j: nat)
    requires Inv(s, initial) && i <= j <= |ops| && CurrentAdmissionToken(Run(s, ops)[i]).Some?
    ensures AdmissionTokenMatches(Run(s, ops)[j], CurrentAdmissionToken(Run(s, ops)[i]).value) <==>
      forall k :: i <= k <= j ==>
        && ControlsOf(Run(s, ops)[k]) == ControlsOf(Run(s, ops)[i])
        && Run(s, ops)[k].lease == Run(s, ops)[i].lease && Run(s, ops)[k].attempt == Run(s, ops)[i].attempt
  {
    var run := Run(s, ops);
    var token := CurrentAdmissionToken(run[i]).value;
    TokenIsCurrent(s, ops, initial, i);
    hide Inv, Apply;
    RunAdvances(s, ops, initial, i, j);
    if AdmissionTokenMatches(run[j], token) {
      forall k | i <= k <= j
        ensures ControlsOf(run[k]) == ControlsOf(run[i]) && run[k].lease == run[i].lease
            && run[k].attempt == run[i].attempt
      {
        ReservedLeaseStable(s, ops, initial, i, k, j);
        ReservedLeaseStable(s, ops, initial, i, j, j);
        TokenStable(s, ops, initial, i, k, j);
      }
    } else {
      assert ControlsOf(run[j]) != ControlsOf(run[i]) || run[j].lease != run[i].lease
          || run[j].attempt != run[i].attempt by {
        RunInvValid(s, ops, initial, j);
      }
    }
  }

  lemma {:induction false} TokenIsCurrent(s: State, ops: seq<Op>, initial: nat, i: nat)
    requires Inv(s, initial) && i <= |ops| && CurrentAdmissionToken(Run(s, ops)[i]).Some?
    ensures AdmissionTokenMatches(Run(s, ops)[i], CurrentAdmissionToken(Run(s, ops)[i]).value)
  {
    hide Apply;
    RunInv(s, ops, initial, i);
  }

  /** A reserved lease that never moved keeps its device open under the same words. */
  lemma {:induction false} TokenStable(s: State, ops: seq<Op>, initial: nat, i: nat, k: nat, j: nat)
    requires Inv(s, initial) && i <= k <= j <= |ops|
    requires CurrentAdmissionToken(Run(s, ops)[i]).Some?
    requires AdmissionTokenMatches(Run(s, ops)[j], CurrentAdmissionToken(Run(s, ops)[i]).value)
    ensures ControlsOf(Run(s, ops)[k]) == ControlsOf(Run(s, ops)[i])
  {
    hide Apply;
    RunInv(s, ops, initial, i);
    RunInv(s, ops, initial, j);
    TokenEpoch(s, ops, initial, i, j, j);
    ReservedLeaseStable(s, ops, initial, i, j, j);
    OpenControlsStable(s, ops, initial, i, k, j);
  }

  /** A live lease is settled by every link, so its survival pins the epoch. */
  lemma {:induction false} TokenEpoch(s: State, ops: seq<Op>, initial: nat, i: nat, k: nat, j: nat)
    requires Inv(s, initial) && i <= k <= j <= |ops|
    requires Run(s, ops)[i].lease.state.LReserved? && Run(s, ops)[j].lease.state.LReserved?
    requires Run(s, ops)[i].lease.tag == Run(s, ops)[j].lease.tag
    ensures Run(s, ops)[k].epoch == Run(s, ops)[i].epoch
    decreases k
  {
    hide Inv, Apply;
    if i < k {
      TokenEpoch(s, ops, initial, i, k - 1, j);
      RunInv(s, ops, initial, k - 1);
      StepAdvances(Run(s, ops)[k - 1], ops[k - 1], initial);
      ReservedLeaseStable(s, ops, initial, i, k, j);
    }
  }

  /** Two different commits of a run belong to leases with increasing tags. */
  lemma {:induction false} LeaseTagCommitsOnce(s: State, ops: seq<Op>, initial: nat, i: nat, j: nat)
    requires Inv(s, initial) && i < j < |ops|
    requires Run(s, ops)[i + 1].committedAdmissions != Run(s, ops)[i].committedAdmissions
    requires Run(s, ops)[j + 1].committedAdmissions != Run(s, ops)[j].committedAdmissions
    ensures Run(s, ops)[i].lease.tag < Run(s, ops)[j].lease.tag
  {
    hide Inv, Apply;
    RunInv(s, ops, initial, i);
    RunInv(s, ops, initial, j);
    StepAdvances(Run(s, ops)[i], ops[i], initial);
    StepAdvances(Run(s, ops)[j], ops[j], initial);
    RunAdvances(s, ops, initial, i + 1, j);
  }

  /** Commit count and target writes agree with lease outcomes in every state of every run. */
  lemma {:induction false} LeaseOutcomes(s: State, ops: seq<Op>, initial: nat, i: nat)
    requires Inv(s, initial) && i <= |ops|
    ensures
      var r := Run(s, ops)[i];
      && r.committedAdmissions <= r.lease.tag < r.limits.tagTerminal
      && (r.lease.state.LReleased? ==> r.lease.targetWritten)
      && (r.lease.state.LRevoked? || r.lease.state.LTombstoned? ==> !r.lease.targetWritten)
  {
    hide Apply;
    RunInv(s, ops, initial, i);
  }
}
