// Progress of the recovery model: exactly when allocation and publication have ended for good.
module RecoveryProgress {
  import opened RecoveryState
  import opened RecoveryInvariants
  import opened RecoveryRuns
  import opened RecoveryCalls

  // ---- When it has ended ----

  /** Claimed, but not open yet. */
  predicate Pending(range: RangeRecord) { range.state.RInitializing? || range.state.RPrepared? }

  /** A claimed range that can be opened: a following range only opens behind an open head. */
  predicate Openable(s: State) { Pending(s.range) || (Pending(s.following) && s.range.state.ROpen?) }

  predicate ArchiveFull(s: State) { |s.retired| >= RETIRED_CAPACITY }

  /** The publication under way has taken its number and is not settled. */
  predicate Taken(p: PublishRecord) { (p.state.PActive? || p.state.PPublished?) && p.payloadApplied }

  /** The head can only be given up, and nothing can take its place. */
  predicate HeadSpent(s: State) {
    || (s.publication.state.PAborted? && ArchiveFull(s))
    || (Taken(s.publication)
          && if s.publication.requiresCompensation then s.publicationCursor == s.range.end else ArchiveFull(s))
  }

  /**
   * Nothing will be allocated or published any more.  With an open view that is: the head is retired, and
   * the archive has no room for it or the range behind it was claimed but not opened; or head and
   * following range are open and the publication under way can only spend the head.
   */
  predicate Ended(s: State) {
    if !s.viewState.ViewOpen? then !Openable(s)
    else
      || (s.range.state.RRetired? && (ArchiveFull(s) || (!s.following.state.RFree? && !s.following.state.ROpen?)))
      || (s.range.state.ROpen? && s.following.state.ROpen? && HeadSpent(s))
  }

  predicate SameNumbers(s: State, r: State) {
    r.allocationHighWater == s.allocationHighWater && r.publicationCursor == s.publicationCursor
  }

  // ---- It stays ended ----

  /** Everything allocation and publication depend on is as it was, or has been quarantined or closed. */
  ghost predicate Aside(s: State, r: State) {
    && SameNumbers(s, r) && r.retired == s.retired
    && ((r.range == s.range && r.following == s.following && r.publication == s.publication
         && (r.viewState == s.viewState
               || (!r.viewState.ViewOpen? && (s.publication.state.PFree? || s.publication.state.PTerminal?))))
        || (!r.viewState.ViewOpen? && r.range == QuarantineRange(s.range)
              && r.following == QuarantineRange(s.following)))
  }

  lemma {:induction false} AsideKeepsEnded(s: State, r: State)
    requires Ended(s) && Aside(s, r)
    ensures Ended(r)
  {
  }

  lemma {:induction false} LeaseOpAside(s: State, op: Op)
    requires LeaseOp(op)
    ensures Aside(s, ApplyLeaseOp(s, op).state)
  {
  }

  lemma {:induction false} FencedAside(s: State, tag: nat)
    ensures Aside(s, RecoverFenced(s, tag).state)
  {
  }

  lemma {:induction false} LinkedAside(s: State, tag: nat)
    ensures Aside(s, RecoverLinked(s, tag).state)
  {
    hide RecoverFenced;
    FencedAside(s, tag);
    FencedAside(PublishDeviceUpdate(s, tag).state, tag);
  }

  lemma {:induction false} RecoveryAside(s: State, tag: nat)
    ensures Aside(s, RecoverDeadDeviceUpdate(s, tag).state)
  {
    hide RecoverLinked;
    var dead := s.(update := s.update.(owner := Dead));
    LinkedAside(dead, tag);
    LinkedAside(InstallLink(dead, tag), tag);
  }

  lemma {:induction false} ClosingAside(s: State, initial: nat)
    requires Inv(s, initial)
    ensures Aside(s, CloseView(s)) && Aside(s, CloseDevice(s))
  {
    hide LeaseInv, UpdateInv, RangeInv, PublicationInv;
  }

  lemma {:induction false} LinkingAside(s: State, tag: nat)
    ensures Aside(s, BeginDeviceUpdateLink(s, tag).state)
    ensures Aside(s, CompleteDeviceUpdateLink(s, tag).state) && Aside(s, LinkDeviceUpdate(s, tag).state)
  {
  }

  lemma {:induction false} ExpiryAside(s: State, tag: nat)
    ensures Aside(s, ExpireLiveDeviceUpdate(s, tag).state)
  {
  }

  lemma {:induction false} PlainUpdateAside(s: State, op: Op)
    requires UpdateOp(op) && Plain(op) && !op.OpBeginDeviceUpdateLink? && !op.OpCompleteDeviceUpdateLink?
    ensures Aside(s, ApplyUpdateOp(s, op).state)
  {
  }

  lemma {:induction false} ReopenAside(s: State, tag: nat)
    ensures Aside(s, ReopenDeviceUpdate(s, tag).state)
  {
  }

  lemma {:induction false} UpdateOpAside(s: State, op: Op, initial: nat)
    requires Inv(s, initial) && UpdateOp(op)
    ensures Aside(s, ApplyUpdateOp(s, op).state)
  {
    hide Inv, Aside, RecoverDeadDeviceUpdate, CloseView, CloseDevice, BeginDeviceUpdateLink, CompleteDeviceUpdateLink,
      LinkDeviceUpdate, ExpireLiveDeviceUpdate, ReopenDeviceUpdate;
    match op
    case OpCloseView => ClosingAside(s, initial);
    case OpCloseDevice => ClosingAside(s, initial);
    case OpRecoverDeadDeviceUpdate(t) => RecoveryAside(s, t);
    case OpExpireLiveDeviceUpdate(t) => ExpiryAside(s, t);
    case OpReopenDeviceUpdate(t) => ReopenAside(s, t);
    case OpBeginDeviceUpdateLink(t) => LinkingAside(s, t);
    case OpCompleteDeviceUpdateLink(t) => LinkingAside(s, t);
    case OpLinkDeviceUpdate(t) => LinkingAside(s, t);
    case _ => PlainUpdateAside(s, op);
  }

  lemma {:induction false} RangeOpEnded(s: State, op: Op, initial: nat)
    requires Inv(s, initial) && Ended(s) && RangeOp(op)
    ensures var r := ApplyRangeOp(s, op).state; Ended(r) && SameNumbers(s, r)
  {
    hide ControlInv, LeaseInv, UpdateInv;
  }

  lemma {:induction false} PublicationOpEnded(s: State, op: Op, initial: nat)
    requires Inv(s, initial) && Ended(s) && !LeaseOp(op) && !UpdateOp(op) && !RangeOp(op)
        && !op.OpRecoverDeadPublication?
    ensures var r := ApplyPublicationOp(s, op).state; Ended(r) && SameNumbers(s, r)
  {
    hide ControlInv, LeaseInv, UpdateInv;
  }

  lemma {:induction false} LinkedRecoveryEnded(s: State, tag: nat, initial: nat)
    requires Inv(s, initial) && Ended(s) && s.publication.tag == tag && LinkedPublication(s.publication.state)
    ensures var r := RecoverDeadPublication(s, tag).state; Ended(r) && SameNumbers(s, r)
  {
    hide ControlInv, LeaseInv, UpdateInv, RangeInv, RecoverDeadPublication, MarkedPublication;
    MarkedFacts(s, tag, initial);
    if s.publication.requiresCompensation {
      CompensatingRecovery(s, tag, initial);
    } else {
      PublicationCrashEquivalence(s, tag, initial);
    }
  }

  lemma {:induction false} RecoveryEnded(s: State, tag: nat, initial: nat)
    requires Inv(s, initial) && Ended(s) && !(s.publication.tag == tag && LinkedPublication(s.publication.state))
    ensures var r := RecoverDeadPublication(s, tag).state; Ended(r) && SameNumbers(s, r)
  {
    hide ControlInv, LeaseInv, UpdateInv;
  }

  lemma {:induction false} EndedStep(s: State, op: Op, initial: nat)
    requires Inv(s, initial) && Ended(s)
    ensures var r := Apply(s, op).state; Ended(r) && SameNumbers(s, r)
  {
    hide Inv, Ended, ApplyLeaseOp, ApplyUpdateOp, ApplyRangeOp, RecoverDeadPublication, LinkedPublication;
    if LeaseOp(op) {
      LeaseOpAside(s, op);
      AsideKeepsEnded(s, ApplyLeaseOp(s, op).state);
    } else if UpdateOp(op) {
      UpdateOpAside(s, op, initial);
      AsideKeepsEnded(s, ApplyUpdateOp(s, op).state);
    } else if RangeOp(op) {
      RangeOpEnded(s, op, initial);
    } else if !op.OpRecoverDeadPublication? {
      PublicationOpEnded(s, op, initial);
    } else if s.publication.tag == op.tag && LinkedPublication(s.publication.state) {
      LinkedRecoveryEnded(s, op.tag, initial);
    } else {
      RecoveryEnded(s, op.tag, initial);
    }
  }

  /** Once ended, no call of any run allocates or publishes another number. */
  lemma {:induction false} EndedForever(s: State, ops: seq<Op>, initial: nat, i: nat, j: nat)
    requires Inv(s, initial) && i <= j <= |ops| && Ended(Run(s, ops)[i])
    ensures Ended(Run(s, ops)[j]) && SameNumbers(Run(s, ops)[i], Run(s, ops)[j])
    decreases j
  {
    hide Inv, Apply, Ended;
    if i < j {
      EndedForever(s, ops, initial, i, j - 1);
      RunInv(s, ops, initial, j - 1);
      EndedStep(Run(s, ops)[j - 1], ops[j - 1], initial);
    }
  }

  // ---- What every open view keeps ----

  /** Under an open view no range is quarantined, and an open head without a publication has numbers left. */
  predicate Healthy(s: State) {
    s.viewState.ViewOpen? ==>
      && !s.range.state.RQuarantined? && !s.following.state.RQuarantined?
      && (s.range.state.ROpen? && (s.publication.state.PFree? || s.publication.state.PTerminal?) ==>
            s.publicationCursor < s.range.end)
  }

  lemma {:induction false} AsideKeepsHealthy(s: State, r: State)
    requires Healthy(s) && Aside(s, r)
    ensures Healthy(r)
  {
  }

  lemma {:induction false} RangeStepHealthy(s: State, op: Op, initial: nat)
    requires Inv(s, initial) && Healthy(s) && RangeOp(op) && !op.OpReserveRange?
    ensures Healthy(ApplyRangeOp(s, op).state)
  {
    hide ControlInv, LeaseInv, UpdateInv;
  }

  lemma {:induction false} RangeOpHealthy(s: State, op: Op, initial: nat)
    requires Inv(s, initial) && Healthy(s) && RangeOp(op)
    ensures Healthy(ApplyRangeOp(s, op).state)
  {
    hide Inv, Healthy, ClaimRange, PrepareRange, OpenRange, AdvanceRangeHead;
    if op.OpReserveRange? {
      RangeStepHealthy(s, OpClaimRange(op.tag, op.length), initial);
      ApplyInv(s, OpClaimRange(op.tag, op.length), initial);
      var s1 := ClaimRange(s, op.tag, op.length).state;
      RangeStepHealthy(s1, OpPrepareRange(op.tag), initial);
      ApplyInv(s1, OpPrepareRange(op.tag), initial);
      RangeStepHealthy(PrepareRange(s1, op.tag).state, OpOpenRange(op.tag), initial);
    } else {
      RangeStepHealthy(s, op, initial);
    }
  }

  lemma {:induction false} PublicationOpHealthy(s: State, op: Op, initial: nat)
    requires Inv(s, initial) && Healthy(s) && !LeaseOp(op) && !UpdateOp(op) && !RangeOp(op)
        && !op.OpRecoverDeadPublication?
    ensures Healthy(ApplyPublicationOp(s, op).state)
  {
    hide ControlInv, LeaseInv, UpdateInv;
  }

  lemma {:induction false} RecoveryHealthy(s: State, tag: nat, initial: nat)
    requires Inv(s, initial) && Healthy(s)
    ensures Healthy(RecoverDeadPublication(s, tag).state)
  {
    if s.publication.tag == tag && LinkedPublication(s.publication.state) {
      LinkedRecoveryHealthy(s, tag, initial);
    } else {
      UnlinkedRecoveryHealthy(s, tag, initial);
    }
    hide Inv, RecoverDeadPublication, Healthy, LinkedPublication;
  }

  lemma {:induction false} LinkedRecoveryHealthy(s: State, tag: nat, initial: nat)
    requires Inv(s, initial) && Healthy(s) && s.publication.tag == tag && LinkedPublication(s.publication.state)
    ensures Healthy(RecoverDeadPublication(s, tag).state)
  {
    hide ControlInv, LeaseInv, UpdateInv, RangeInv, RecoverDeadPublication, MarkedPublication;
    MarkedFacts(s, tag, initial);
    if s.publication.requiresCompensation {
      CompensatingRecovery(s, tag, initial);
    } else {
      PublicationCrashEquivalence(s, tag, initial);
    }
  }

  lemma {:induction false} UnlinkedRecoveryHealthy(s: State, tag: nat, initial: nat)
    requires Inv(s, initial) && Healthy(s) && !(s.publication.tag == tag && LinkedPublication(s.publication.state))
    ensures Healthy(RecoverDeadPublication(s, tag).state)
  {
    hide ControlInv, LeaseInv, UpdateInv;
  }

  lemma {:induction false} HealthyStep(s: State, op: Op, initial: nat)
    requires Inv(s, initial) && Healthy(s)
    ensures Healthy(Apply(s, op).state)
  {
    hide Inv, Healthy, ApplyLeaseOp, ApplyUpdateOp, ApplyRangeOp, RecoverDeadPublication;
    if LeaseOp(op) {
      LeaseOpAside(s, op);
      AsideKeepsHealthy(s, ApplyLeaseOp(s, op).state);
    } else if UpdateOp(op) {
      UpdateOpAside(s, op, initial);
      AsideKeepsHealthy(s, ApplyUpdateOp(s, op).state);
    } else if RangeOp(op) {
      RangeOpHealthy(s, op, initial);
    } else if op.OpRecoverDeadPublication? {
      RecoveryHealthy(s, op.tag, initial);
    } else {
      PublicationOpHealthy(s, op, initial);
    }
  }

  lemma {:induction false} RunHealthy(s: State, ops: seq<Op>, initial: nat, i: nat)
    requires Inv(s, initial) && Healthy(s) && i <= |ops|
    ensures Healthy(Run(s, ops)[i])
    decreases i
  {
    hide Inv, Apply, Healthy;
    if i > 0 {
      RunHealthy(s, ops, initial, i - 1);
      RunInv(s, ops, initial, i - 1);
      HealthyStep(Run(s, ops)[i - 1], ops[i - 1], initial);
    }
  }

  // ---- Reaching a state ----

  function Final(s: State, ops: seq<Op>): State { Run(s, ops)[|ops|] }

  ghost predicate Reaches(s: State, r: State) { exists ops :: Final(s, ops) == r }

  lemma {:induction false} ReachesItself(s: State)
    ensures Reaches(s, s)
  {
    assert Final(s, []) == s;
  }

  lemma {:induction false} FinalMore(s: State, ops: seq<Op>, op: Op)
    ensures Final(s, ops + [op]) == Apply(Final(s, ops), op).state
  {
    hide Apply;
    var all := ops + [op];
    RunPrefix(s, all, |ops|);
    assert all[..|ops|] == ops;
  }

  lemma {:induction false} ReachesMore(s: State, r: State, op: Op)
    requires Reaches(s, r)
    ensures Reaches(s, Apply(r, op).state)
  {
    hide Apply, Final;
    var ops :| Final(s, ops) == r;
    FinalMore(s, ops, op);
  }

  lemma {:induction false} ReachedKeeps(s: State, r: State, initial: nat)
    requires Inv(s, initial) && Healthy(s) && Reaches(s, r)
    ensures Inv(r, initial) && Healthy(r)
  {
    hide Inv, Apply, Healthy;
    var ops :| Final(s, ops) == r;
    RunInv(s, ops, initial, |ops|);
    RunHealthy(s, ops, initial, |ops|);
  }

  ghost predicate NeverAgain(s: State) { forall r :: Reaches(s, r) ==> SameNumbers(s, r) }

  // ---- Until it has ended, it goes on ----

  /** Tags, generations and numbers for one more range and one more publication. */
  predicate Room(s: State) {
    && s.rangeTagHighWater + 1 < s.limits.tagTerminal && s.allocationHighWater + 1 < s.limits.sequenceTerminal
    && s.rangeTokenGeneration + 1 < s.limits.generationTerminal && s.publication.tag + 1 < s.limits.tagTerminal
  }

  /** A range claimed behind the head can be opened exactly while the head is open. */
  lemma {:induction false} FollowingOpensIffHeadOpen(s: State, initial: nat)
    requires Inv(s, initial) && Pending(s.following)
    ensures
      var tag := s.following.tag;
      var done := OpenRange(PrepareRange(s, tag).state, tag);
      && (done.ok <==> s.range.state.ROpen?)
      && (done.ok ==> done.state.allocationHighWater == s.following.end > s.allocationHighWater)
  {
    hide ControlInv, LeaseInv, UpdateInv, PublicationInv;
  }

  lemma {:induction false} HeadOpens(s: State, initial: nat)
    requires Inv(s, initial) && Pending(s.range)
    ensures
      var tag := s.range.tag;
      var done := OpenRange(PrepareRange(s, tag).state, tag);
      done.ok && done.state.allocationHighWater == s.range.end > s.allocationHighWater
  {
    hide ControlInv, LeaseInv, UpdateInv, PublicationInv;
  }

  lemma {:induction false} OpenableProgresses(s: State, initial: nat) returns (r: State)
    requires Inv(s, initial) && Openable(s)
    ensures Reaches(s, r) && !SameNumbers(s, r)
  {
    hide Inv, PrepareRange, OpenRange, Reaches;
    var tag := if Pending(s.range) then s.range.tag else s.following.tag;
    if Pending(s.range) { HeadOpens(s, initial); } else { FollowingOpensIffHeadOpen(s, initial); }
    ReachesItself(s);
    ReachesMore(s, s, OpPrepareRange(tag));
    ReachesMore(s, PrepareRange(s, tag).state, OpOpenRange(tag));
    r := OpenRange(PrepareRange(s, tag).state, tag).state;
  }

  /** There is a slot for another range. */
  predicate SlotFree(s: State) {
    || s.range.state.RFree?
    || (s.following.state.RFree? && (s.range.state.ROpen? || (s.range.state.RRetired? && !ArchiveFull(s))))
  }

  lemma {:induction false} ReservationSucceeds(s: State, initial: nat)
    requires Inv(s, initial) && s.viewState.ViewOpen? && Room(s) && SlotFree(s)
    ensures ReserveRange(s, s.rangeTagHighWater + 1, 1).ok
  {
    hide Inv, ClaimRange, PrepareRange, OpenRange, SlotFree, ClaimStands;
    SlotClaimed(s, initial);
    StandingOpens(ClaimRange(s, s.rangeTagHighWater + 1, 1).state, s.rangeTagHighWater + 1);
  }

  /** The next range of one number is claimed as the head, or behind an open one. */
  predicate ClaimStands(s: State, tag: nat) {
    var range := if s.range.tag == tag then s.range else s.following;
    && range.tag == tag && range.state.RInitializing? && (s.range.tag == tag || s.range.state.ROpen?)
    && range.begin == range.end == s.allocationHighWater + 1 < s.limits.sequenceTerminal
    && range.tokenGeneration == s.rangeTokenGeneration + 1 < s.limits.generationTerminal
  }

  lemma {:induction false} SlotClaimed(s: State, initial: nat)
    requires Inv(s, initial) && s.viewState.ViewOpen? && Room(s) && SlotFree(s)
    ensures
      var r := ClaimRange(s, s.rangeTagHighWater + 1, 1);
      r.ok && ClaimStands(r.state, s.rangeTagHighWater + 1)
  {
    hide LeaseInv, UpdateInv, PublicationInv;
  }

  lemma {:induction false} StandingOpens(s: State, tag: nat)
    requires ClaimStands(s, tag)
    ensures PrepareRange(s, tag).ok && OpenRange(PrepareRange(s, tag).state, tag).ok
  {
  }

  lemma {:induction false} SlotProgresses(s: State, t: State, initial: nat) returns (r: State)
    requires Inv(t, initial) && t.viewState.ViewOpen? && Room(t) && SlotFree(t) && Reaches(s, t) && SameNumbers(s, t)
    ensures Reaches(s, r) && !SameNumbers(s, r)
  {
    hide Inv, ReserveRange, Reaches, SlotFree;
    var tag := t.rangeTagHighWater + 1;
    ReservationSucceeds(t, initial);
    ReservationAllocates(t, tag, 1, initial);
    ReachesMore(s, t, OpReserveRange(tag, 1));
    r := ReserveRange(t, tag, 1).state;
  }

  lemma {:induction false} HeadMovesOn(s: State, initial: nat)
    requires Inv(s, initial) && s.viewState.ViewOpen? && s.range.state.RRetired? && s.following.state.ROpen?
        && !ArchiveFull(s)
    ensures
      var r := AdvanceRangeHead(s).state;
      SlotFree(r) && SameNumbers(s, r) && r.viewState.ViewOpen? && (Room(s) ==> Room(r))
  {
    hide ControlInv, LeaseInv, UpdateInv;
  }

  /** A retired head that can be archived makes way. */
  lemma {:induction false} RetiredProgresses(s: State, t: State, initial: nat) returns (r: State)
    requires Inv(s, initial) && Healthy(s) && Reaches(s, t) && SameNumbers(s, t) && t.viewState.ViewOpen? && Room(t)
    requires t.range.state.RRetired? && !ArchiveFull(t) && (t.following.state.RFree? || t.following.state.ROpen?)
    ensures Reaches(s, r) && !SameNumbers(s, r)
  {
    hide Inv, Healthy, Reaches, AdvanceRangeHead, Room;
    ReachedKeeps(s, t, initial);
    if t.following.state.RFree? {
      r := SlotProgresses(s, t, initial);
    } else {
      HeadMovesOn(t, initial);
      ReachesMore(s, t, OpAdvanceRangeHead);
      ReachedKeeps(s, AdvanceRangeHead(t).state, initial);
      r := SlotProgresses(s, AdvanceRangeHead(t).state, initial);
    }
  }

  /** A linked publication takes its number. */
  lemma {:induction false} LinkedProgresses(s: State, t: State, tag: nat, initial: nat) returns (r: State)
    requires Inv(t, initial) && Reaches(s, t) && SameNumbers(s, t)
    requires t.publication.tag == tag && LinkedPublication(t.publication.state) && !t.publication.payloadApplied
    ensures Reaches(s, r) && !SameNumbers(s, r)
  {
    hide Inv, Reaches, MarkedPublication;
    TargetIsAhead(t, initial);
    MarkedFacts(t, tag, initial);
    MarkedReached(s, t, tag);
    r := MarkedPublication(t, tag);
  }

  lemma {:induction false} MarkedReached(s: State, t: State, tag: nat)
    requires Reaches(s, t)
    ensures Reaches(s, MarkedPublication(t, tag))
  {
    hide Reaches, ActivatePublication, ApplyPublication, MarkPublication;
    var activated := ActivatePublication(t, tag).state;
    var applied := ApplyPublication(activated, tag).state;
    ReachesMore(s, t, OpActivatePublication(tag));
    ReachesMore(s, activated, OpApplyPublication(tag));
    ReachesMore(s, applied, OpMarkPublication(tag));
  }

  lemma {:induction false} TargetIsAhead(s: State, initial: nat)
    requires Inv(s, initial) && LivePublication(s.publication.state) && !s.publication.payloadApplied
    ensures s.publicationCursor < s.publication.targetSequence
  {
  }

  lemma {:induction false} PreparedProgresses(s: State, t: State, initial: nat) returns (r: State)
    requires Inv(t, initial) && Reaches(s, t) && SameNumbers(s, t) && t.publication.state.PPrepared?
    ensures Reaches(s, r) && !SameNumbers(s, r)
  {
    var tag := t.publication.tag;
    LinkPublicationInv(t, tag, initial);
    NothingAppliedYet(t, initial);
    hide Inv, Reaches;
    ReachesMore(s, t, OpLinkPublication(tag));
    r := LinkedProgresses(s, LinkPublication(t, tag).state, tag, initial);
  }

  lemma {:induction false} NothingAppliedYet(s: State, initial: nat)
    requires Inv(s, initial)
        && (s.publication.state.PInitializing? || s.publication.state.PPrepared? || s.publication.state.PLinking?)
    ensures !s.publication.payloadApplied
  {
  }

  lemma {:induction false} InitializingProgresses(s: State, t: State, initial: nat) returns (r: State)
    requires Inv(t, initial) && Reaches(s, t) && SameNumbers(s, t) && t.publication.state.PInitializing?
    ensures Reaches(s, r) && !SameNumbers(s, r)
  {
    var tag := t.publication.tag;
    PreparePublicationInv(t, tag, initial);
    hide Inv, Reaches;
    ReachesMore(s, t, OpPreparePublication(tag));
    r := PreparedProgresses(s, PreparePublication(t, tag).state, initial);
  }

  /** An open head with numbers left and no publication accepts a claim. */
  lemma {:induction false} ClaimSucceeds(s: State, compensate: bool, initial: nat)
    requires Inv(s, initial) && Healthy(s) && s.viewState.ViewOpen? && s.range.state.ROpen?
    requires (s.publication.state.PFree? || s.publication.state.PTerminal?)
        && s.publication.tag + 1 < s.limits.tagTerminal
    ensures
      var r := ClaimCurrentPublication(s, s.publication.tag + 1, compensate);
      r.ok && SameNumbers(s, r.state) && r.state.publication.state.PInitializing?
      && r.state == s.(publication := r.state.publication) && r.state.publication.requiresCompensation == compensate
  {
    hide LeaseInv, UpdateInv;
  }

  lemma {:induction false} IdleProgresses(s: State, initial: nat) returns (r: State)
    requires Inv(s, initial) && Healthy(s) && s.viewState.ViewOpen? && s.range.state.ROpen? && Room(s)
    requires s.publication.state.PFree? || s.publication.state.PTerminal?
    ensures Reaches(s, r) && !SameNumbers(s, r)
  {
    hide Inv, Reaches, ClaimCurrentPublication, Healthy;
    var tag := s.publication.tag + 1;
    ClaimSucceeds(s, false, initial);
    ReachesItself(s);
    ReachesMore(s, s, OpClaimCurrentPublication(tag, false));
    ReachedKeeps(s, ClaimCurrentPublication(s, tag, false).state, initial);
    r := InitializingProgresses(s, ClaimCurrentPublication(s, tag, false).state, initial);
  }

  /** What becomes of a publication that has its number: one more number, or a retired head. */
  lemma {:induction false} TakenProgresses(s: State, initial: nat) returns (r: State)
    requires Inv(s, initial) && Healthy(s) && s.viewState.ViewOpen? && s.range.state.ROpen? && s.following.state.ROpen?
        && Room(s)
    requires Taken(s.publication) && !HeadSpent(s)
    ensures Reaches(s, r) && !SameNumbers(s, r)
  {
    hide Reaches, RecoverDeadPublication, MarkedPublication, ControlInv, LeaseInv, UpdateInv, RangeInv, Healthy;
    var tag := s.publication.tag;
    var settled := RecoverDeadPublication(s, tag).state;
    ReachesItself(s);
    ReachesMore(s, s, OpRecoverDeadPublication(tag));
    MarkedFacts(s, tag, initial);
    if s.publication.requiresCompensation {
      CompensatingRecovery(s, tag, initial);
      r := settled;
    } else {
      PublicationCrashEquivalence(s, tag, initial);
      assert settled.range.state.RRetired? && SameNumbers(s, settled);
      hide Inv;
      r := RetiredProgresses(s, settled, initial);
    }
  }

  lemma {:induction false} AbortedProgresses(s: State, initial: nat) returns (r: State)
    requires Inv(s, initial) && Healthy(s) && s.viewState.ViewOpen? && s.following.state.ROpen? && Room(s)
    requires s.publication.state.PAborted? && !ArchiveFull(s)
    ensures Reaches(s, r) && !SameNumbers(s, r)
  {
    hide Reaches, ControlInv, LeaseInv, UpdateInv, RangeInv, Healthy;
    var tag := s.publication.tag;
    ReachesItself(s);
    ReachesMore(s, s, OpFinishPublication(tag));
    assert FinishPublication(s, tag).ok;
    hide Inv;
    r := RetiredProgresses(s, FinishPublication(s, tag).state, initial);
  }

  /** An open head with an open range behind it goes on unless it is spent. */
  lemma {:induction false} OpenHeadProgresses(s: State, initial: nat) returns (r: State)
    requires Inv(s, initial) && Healthy(s) && s.viewState.ViewOpen? && s.range.state.ROpen? && s.following.state.ROpen?
        && Room(s)
    requires !HeadSpent(s)
    ensures Reaches(s, r) && !SameNumbers(s, r)
  {
    QuarantinedWithView(s, initial);
    PublishedIsApplied(s, initial);
    hide Inv, Healthy, Reaches;
    ReachesItself(s);
    match s.publication.state
    case PFree => r := IdleProgresses(s, initial);
    case PTerminal => r := IdleProgresses(s, initial);
    case PInitializing => r := InitializingProgresses(s, s, initial);
    case PPrepared => r := PreparedProgresses(s, s, initial);
    case PLinking =>
      NothingAppliedYet(s, initial);
      r := LinkedProgresses(s, s, s.publication.tag, initial);
    case PAborted => r := AbortedProgresses(s, initial);
    case _ =>
      if Taken(s.publication) {
        r := TakenProgresses(s, initial);
      } else {
        r := LinkedProgresses(s, s, s.publication.tag, initial);
      }
  }

  lemma {:induction false} QuarantinedWithView(s: State, initial: nat)
    requires Inv(s, initial) && s.viewState.ViewOpen?
    ensures !s.publication.state.PQuarantined?
  {
  }

  lemma {:induction false} PublishedIsApplied(s: State, initial: nat)
    requires Inv(s, initial)
    ensures s.publication.state.PPublished? ==> s.publication.payloadApplied
  {
  }

  lemma {:induction false} NotEndedProgresses(s: State, initial: nat) returns (r: State)
    requires Inv(s, initial) && Healthy(s) && !Ended(s) && (s.viewState.ViewOpen? ==> Room(s))
    ensures Reaches(s, r) && !SameNumbers(s, r)
  {
    hide Reaches, Room, HeadSpent;
    ReachesItself(s);
    if Openable(s) {
      r := OpenableProgresses(s, initial);
    } else if SlotFree(s) {
      r := SlotProgresses(s, s, initial);
    } else if s.range.state.RRetired? {
      r := RetiredProgresses(s, s, initial);
    } else {
      OnlyOpenHeadLeft(s, initial);
      r := OpenHeadProgresses(s, initial);
    }
  }

  lemma {:induction false} OnlyOpenHeadLeft(s: State, initial: nat)
    requires Inv(s, initial) && Healthy(s) && s.viewState.ViewOpen? && !Openable(s) && !SlotFree(s)
        && !s.range.state.RRetired?
    ensures s.range.state.ROpen? && s.following.state.ROpen?
  {
    hide ControlInv, LeaseInv, UpdateInv, PublicationInv;
  }

  /**
   * In every reachable state: if allocation and publication have ended, no sequence of public calls
   * allocates or publishes another number; and while tags, generations and numbers are left, this
   * happens only then.
   */
  lemma {:induction false} NeverAgainIffEnded(limits: Limits, highWater: nat, generation: nat, epoch: nat,
                                              viewId: ViewId, ops: seq<Op>)
    requires ValidConfiguration(limits, highWater, generation, epoch, viewId)
    ensures
      var s := Final(Initial(limits, highWater, generation, epoch, viewId), ops);
      && (Ended(s) ==> NeverAgain(s))
      && ((s.viewState.ViewOpen? ==> Room(s)) ==> (NeverAgain(s) <==> Ended(s)))
  {
    hide Inv, Ended, Healthy, Apply, Reaches, SameNumbers;
    var start := Initial(limits, highWater, generation, epoch, viewId);
    InitialInv(limits, highWater, generation, epoch, viewId);
    InitialHealthy(limits, highWater, generation, epoch, viewId);
    RunInv(start, ops, highWater, |ops|);
    RunHealthy(start, ops, highWater, |ops|);
    var s := Final(start, ops);
    if Ended(s) {
      forall r | Reaches(s, r) ensures SameNumbers(s, r) { EndedReaches(s, r, highWater); }
    } else if s.viewState.ViewOpen? ==> Room(s) {
      var r := NotEndedProgresses(s, highWater);
      assert Reaches(s, r) && !SameNumbers(s, r);
    }
  }

  lemma {:induction false} InitialHealthy(limits: Limits, highWater: nat, generation: nat, epoch: nat, viewId: ViewId)
    ensures Healthy(Initial(limits, highWater, generation, epoch, viewId))
  {
  }

  lemma {:induction false} EndedReaches(s: State, r: State, initial: nat)
    requires Inv(s, initial) && Ended(s) && Reaches(s, r)
    ensures SameNumbers(s, r)
  {
    hide Inv, Ended, Apply, SameNumbers;
    var ops :| Final(s, ops) == r;
    EndedForever(s, ops, initial, 0, |ops|);
  }

  // ---- How it comes to that ----

  /** Tags, generations and numbers for n more ranges and publications. */
  predicate Plenty(s: State, n: nat) {
    && s.rangeTagHighWater + n < s.limits.tagTerminal && s.allocationHighWater + n < s.limits.sequenceTerminal
    && s.rangeTokenGeneration + n < s.limits.generationTerminal && s.publication.tag + n < s.limits.tagTerminal
  }

  predicate Idle(s: State) { s.viewState.ViewOpen? && (s.publication.state.PFree? || s.publication.state.PTerminal?) }

  lemma {:induction false} HeadClaimed(s: State, initial: nat)
    requires Inv(s, initial) && Idle(s) && Plenty(s, 1) && s.following.state.RFree?
    requires s.range.state.RFree? || (s.range.state.RRetired? && !ArchiveFull(s))
    ensures
      var tag := s.rangeTagHighWater + 1;
      ClaimRange(s, tag, 1)
      == Outcome(s.(rangeTagHighWater := tag,
                    retired := if s.range.state.RRetired? then s.retired + [s.range] else s.retired,
                    range := RangeRecord(tag, RInitializing, s.allocationHighWater + 1, s.allocationHighWater + 1,
                                         s.rangeTokenGeneration + 1, 0, 0)), true)
  {
    hide LeaseInv, UpdateInv, RangeInv, PublicationInv;
  }

  lemma {:induction false} ClaimedHeadOpens(s: State, tag: nat)
    requires s.range.tag == tag && s.range.state.RInitializing? && s.range.begin == s.allocationHighWater + 1
    requires s.range.end < s.limits.sequenceTerminal
        && s.range.tokenGeneration == s.rangeTokenGeneration + 1 < s.limits.generationTerminal
    ensures
      OpenRange(PrepareRange(s, tag).state, tag).state
      == s.(allocationHighWater := s.range.end, rangeTokenGeneration := s.range.tokenGeneration,
            range := s.range.(state := ROpen))
    ensures PrepareRange(s, tag).ok
  {
  }

  /** A range of one number is claimed and opened as the new head. */
  lemma {:induction false} HeadReserved(s: State, n: nat, initial: nat)
    requires Inv(s, initial) && Idle(s) && Plenty(s, n + 1) && s.following.state.RFree?
    requires s.range.state.RFree? || (s.range.state.RRetired? && !ArchiveFull(s))
    ensures
      var r := ReserveRange(s, s.rangeTagHighWater + 1, 1).state;
      && r.range.state.ROpen? && r.range.begin == r.range.end && r.following == s.following
      && r.retired == (if s.range.state.RRetired? then s.retired + [s.range] else s.retired)
      && r.publication == s.publication && r.limits == s.limits && Idle(r) && Plenty(r, n)
  {
    hide Inv, ClaimRange, PrepareRange, OpenRange;
    HeadClaimed(s, initial);
    ClaimedHeadOpens(ClaimRange(s, s.rangeTagHighWater + 1, 1).state, s.rangeTagHighWater + 1);
  }

  /** A second range is claimed behind an open head. */
  lemma {:induction false} BehindClaimed(s: State, n: nat, initial: nat)
    requires Inv(s, initial) && Idle(s) && Plenty(s, n + 1) && s.range.state.ROpen? && s.following.state.RFree?
    ensures
      var r := ClaimRange(s, s.rangeTagHighWater + 1, 1).state;
      r.following.state.RInitializing?
          && r == s.(following := r.following, rangeTagHighWater := s.rangeTagHighWater + 1)
  {
    hide LeaseInv, UpdateInv, RangeInv, PublicationInv;
  }

  lemma {:induction false} BehindReserved(s: State, n: nat, initial: nat)
    requires Inv(s, initial) && Idle(s) && Plenty(s, n + 1) && s.range.state.ROpen? && s.following.state.RFree?
    ensures
      var r := ReserveRange(s, s.rangeTagHighWater + 1, 1).state;
      && r.following.state.ROpen? && r.range == s.range && r.retired == s.retired && r.publication == s.publication
      && r.publicationCursor == s.publicationCursor && Idle(r) && Plenty(r, n)
  {
    hide ControlInv, LeaseInv, UpdateInv, PublicationInv;
  }

  /** Claiming, aborting and finishing a publication retires the head. */
  lemma {:induction false} HeadRetired(s: State, t: State, initial: nat) returns (r: State)
    requires Inv(s, initial) && Healthy(s) && Reaches(s, t) && Idle(t) && t.range.state.ROpen?
    requires t.publication.tag + 1 < t.limits.tagTerminal
    ensures Reaches(s, r) && Idle(r) && r.range.state.RRetired?
        && r == t.(range := r.range, publication := r.publication)
    ensures r.publication.tag == t.publication.tag + 1
  {
    hide Inv, Healthy, Reaches, ClaimCurrentPublication;
    ReachedKeeps(s, t, initial);
    var tag := t.publication.tag + 1;
    ClaimSucceeds(t, false, initial);
    var claimed := ClaimCurrentPublication(t, tag, false).state;
    ReachesMore(s, t, OpClaimCurrentPublication(tag, false));
    ReachedKeeps(s, claimed, initial);
    ClaimMatches(claimed, initial);
    ReachesMore(s, claimed, OpAbortPublication(claimed.publication.tag));
    var aborted := AbortPublication(claimed, claimed.publication.tag).state;
    ReachesMore(s, aborted, OpFinishPublication(claimed.publication.tag));
    r := FinishPublication(aborted, claimed.publication.tag).state;
    ClaimedTag(t, tag);
  }

  lemma {:induction false} ClaimMatches(s: State, initial: nat)
    requires Inv(s, initial) && s.publication.state.PInitializing?
    ensures RangeMatches(s.publication, s.range)
  {
  }

  lemma {:induction false} ClaimedTag(s: State, tag: nat)
    requires ClaimCurrentPublication(s, tag, false).ok
    ensures ClaimCurrentPublication(s, tag, false).state.publication.tag == tag
  {
  }

  /** Nothing allocated yet, and enough for a few ranges. */
  predicate Starts(s: State) {
    s.valid && Idle(s) && s.range.state.RFree? && s.following.state.RFree? && s.retired == [] && Plenty(s, 4)
  }

  lemma {:induction false} FreshStarts(limits: Limits, highWater: nat, generation: nat, epoch: nat, viewId: ViewId)
    requires ValidConfiguration(limits, highWater, generation, epoch, viewId) && 4 < limits.tagTerminal
    requires highWater + 4 < limits.sequenceTerminal && generation + 4 < limits.generationTerminal
    ensures
      var s := Initial(limits, highWater, generation, epoch, viewId);
      Inv(s, highWater) && Healthy(s) && Starts(s)
  {
    InitialInv(limits, highWater, generation, epoch, viewId);
  }

  /** First way: the head retires while the range behind it is claimed but not open. */
  lemma {:induction false} StrandingHappens(s: State, initial: nat) returns (r: State)
    requires Inv(s, initial) && Healthy(s) && Starts(s)
    ensures Reaches(s, r) && r.viewState.ViewOpen? && Room(r) && r.range.state.RRetired? && r.retired == []
    ensures r.following.state.RInitializing? && Ended(r)
  {
    hide Inv, Healthy, Reaches, ReserveRange, ClaimRange;
    ReachesItself(s);
    var headed := ReserveRange(s, s.rangeTagHighWater + 1, 1).state;
    HeadReserved(s, 3, initial);
    ReachesMore(s, s, OpReserveRange(s.rangeTagHighWater + 1, 1));
    ReachedKeeps(s, headed, initial);
    BehindClaimed(headed, 2, initial);
    ReachesMore(s, headed, OpClaimRange(headed.rangeTagHighWater + 1, 1));
    r := HeadRetired(s, ClaimRange(headed, headed.rangeTagHighWater + 1, 1).state, initial);
  }

  /** One range after the other: reserve, publish nothing, retire. */
  lemma {:induction false} Cycle(s: State, t: State, n: nat, initial: nat) returns (r: State)
    requires Inv(s, initial) && Healthy(s) && Reaches(s, t) && Idle(t) && Plenty(t, n + 1) && t.following.state.RFree?
    requires t.range.state.RFree? || (t.range.state.RRetired? && !ArchiveFull(t))
    ensures Reaches(s, r) && Idle(r) && Plenty(r, n) && r.following.state.RFree? && r.range.state.RRetired?
    ensures |r.retired| == |t.retired| + if t.range.state.RRetired? then 1 else 0
  {
    hide Inv, Healthy, Reaches, ReserveRange;
    ReachedKeeps(s, t, initial);
    var reserved := ReserveRange(t, t.rangeTagHighWater + 1, 1).state;
    HeadReserved(t, n, initial);
    ReachesMore(s, t, OpReserveRange(t.rangeTagHighWater + 1, 1));
    r := HeadRetired(s, reserved, initial);
  }

  /** Second way: the archive is full when the head retires. */
  lemma {:induction false} ArchiveFills(s: State, initial: nat) returns (r: State)
    requires Inv(s, initial) && Healthy(s) && Starts(s)
    ensures Reaches(s, r) && r.viewState.ViewOpen? && Room(r) && r.range.state.RRetired? && r.following.state.RFree?
    ensures ArchiveFull(r) && Ended(r)
  {
    hide Inv, Healthy, Reaches;
    ReachesItself(s);
    var first := Cycle(s, s, 3, initial);
    var second := Cycle(s, first, 2, initial);
    r := Cycle(s, second, 1, initial);
  }

  /** Third way: a publication that owes a compensation takes the last number of the head. */
  lemma {:induction false} OwedAtTheEnd(s: State, initial: nat) returns (r: State)
    requires Inv(s, initial) && Healthy(s) && Starts(s)
    ensures Reaches(s, r) && r.viewState.ViewOpen? && r.range.state.ROpen? && r.following.state.ROpen?
        && r.retired == []
    ensures r.publication.state.PPublished? && r.publication.requiresCompensation && Ended(r)
  {
    hide Inv, Healthy, Reaches, ReserveRange;
    ReachesItself(s);
    var headed := ReserveRange(s, s.rangeTagHighWater + 1, 1).state;
    HeadReserved(s, 3, initial);
    ReachesMore(s, s, OpReserveRange(s.rangeTagHighWater + 1, 1));
    ReachedKeeps(s, headed, initial);
    var both := ReserveRange(headed, headed.rangeTagHighWater + 1, 1).state;
    BehindReserved(headed, 2, initial);
    ReachesMore(s, headed, OpReserveRange(headed.rangeTagHighWater + 1, 1));
    r := OwedPublicationReached(s, both, initial);
  }

  /**
   * From every idle state with an open head a publication that owes a compensation is reached, and its owner
   * cannot finish it.
   */
  lemma {:induction false} OwedPublicationReached(s: State, t: State, initial: nat) returns (r: State)
    requires Inv(s, initial) && Healthy(s) && Reaches(s, t) && Idle(t) && Plenty(t, 1) && t.range.state.ROpen?
    ensures Reaches(s, r) && r.publication.state.PPublished? && r.publication.requiresCompensation
        && r.publication.payloadApplied
    ensures r == t.(publication := r.publication, publicationCursor := r.publicationCursor, intermediateVisible := true)
    ensures t.range.begin <= r.publicationCursor <= t.range.end
    ensures FinishPublication(r, r.publication.tag) == Outcome(r, false)
  {
    hide Inv, Healthy, Reaches, ClaimCurrentPublication, MarkedPublication;
    ReachedKeeps(s, t, initial);
    ClaimSucceeds(t, true, initial);
    var tag := t.publication.tag + 1;
    var claimed := ClaimCurrentPublication(t, tag, true).state;
    ReachesMore(s, t, OpClaimCurrentPublication(tag, true));
    var linked := LinkedAfterClaim(s, claimed, initial);
    r := MarkedPublication(linked, linked.publication.tag);
    ReachedKeeps(s, linked, initial);
    MarkedReached(s, linked, linked.publication.tag);
    MarkedFacts(linked, linked.publication.tag, initial);
    TargetInRange(linked, initial);
  }

  lemma {:induction false} LinkedAfterClaim(s: State, t: State, initial: nat) returns (r: State)
    requires Inv(s, initial) && Healthy(s) && Reaches(s, t) && t.publication.state.PInitializing?
    ensures Reaches(s, r) && r == t.(publication := t.publication.(state := PLinking))
  {
    hide Inv, Healthy, Reaches;
    var tag := t.publication.tag;
    ReachesMore(s, t, OpPreparePublication(tag));
    var prepared := PreparePublication(t, tag).state;
    ReachesMore(s, prepared, OpLinkPublication(tag));
    r := LinkPublication(prepared, tag).state;
  }

  lemma {:induction false} TargetInRange(s: State, initial: nat)
    requires Inv(s, initial) && s.publication.state.PLinking?
    ensures s.range.begin <= s.publication.targetSequence <= s.range.end
  {
  }
}
