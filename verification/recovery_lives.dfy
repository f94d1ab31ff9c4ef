// The calls of the recovery model succeed: from every open and idle state with numbers left, leases, device updates
// and publications live out their lives, call by call, and whoever is under way can be expired.
module RecoveryLives {
  import opened RecoveryState
  import opened RecoveryInvariants

  /** The call succeeds and leaves this state. */
  predicate Succeeds(s: State, op: Op, r: State) { Apply(s, op) == Outcome(r, true) }

  // ---- Leases ----

  /** The view and the device are open and nobody is being admitted. */
  predicate LeaseIdle(s: State) {
    && s.valid && s.viewState.ViewOpen? && s.deviceState.DeviceOpen?
    && (s.attempt.state.AIdle? || s.attempt.state.AExited?) && s.lease.state.LFree?
  }

  function Entered(s: State): State {
    s.(attempt := AttemptRecord(s.attempt.tag + 1, AEntering, Live, s.viewGeneration, s.deviceGeneration, 0))
  }

  /** The lease of the next tag in the given state, and the attempt that holds it. */
  function Holding(s: State, state: LeaseState, written: bool): State {
    var a, l := s.attempt.tag + 1, s.lease.tag + 1;
    s.(attempt := AttemptRecord(a, AReady, Live, s.viewGeneration, s.deviceGeneration, l),
       lease := LeaseRecord(l, state, Live, s.viewGeneration, s.deviceGeneration, written, state.LPublished?),
       committedAdmissions := s.committedAdmissions + if state.LCommitted? || state.LPublished? then 1 else 0)
  }

  function TokenFor(s: State): AdmissionToken {
    AdmissionToken(s.viewId, s.viewGeneration, s.deviceGeneration, s.attempt.tag + 1, s.lease.tag + 1)
  }

  /** Entering and reserving succeed, and the token handed out is for the new tags and the current generations. */
  lemma {:induction false} AdmissionSucceeds(s: State, initial: nat)
    requires Inv(s, initial) && LeaseIdle(s)
    requires s.attempt.tag + 1 < s.limits.tagTerminal && s.lease.tag + 1 < s.limits.tagTerminal
    ensures Succeeds(s, OpEnterAttempt(s.attempt.tag + 1), Entered(s))
    ensures Succeeds(Entered(s), OpReserveLease(s.attempt.tag + 1, s.lease.tag + 1), Holding(s, LReserved, false))
    ensures CurrentAdmissionToken(Holding(s, LReserved, false)) == Some(TokenFor(s))
  {
    hide UpdateInv, RangeInv, PublicationInv;
  }

  lemma {:induction false} CommitSucceeds(s: State, initial: nat)
    requires Inv(s, initial) && LeaseIdle(s)
    ensures Succeeds(Holding(s, LReserved, false), OpBeginTokenCommit(TokenFor(s)), Holding(s, LCommitting, false))
    ensures Succeeds(Holding(s, LReserved, false), OpBeginLeaseCommit(s.lease.tag + 1), Holding(s, LCommitting, false))
    ensures Succeeds(Holding(s, LCommitting, false), OpFinishLeaseCommit(s.lease.tag + 1),
                     Holding(s, LCommitted, false))
  {
    hide UpdateInv, RangeInv, PublicationInv;
  }

  lemma {:induction false} WriteSucceeds(s: State)
    ensures Succeeds(Holding(s, LCommitted, false), OpWriteLeaseTarget(s.lease.tag + 1), Holding(s, LCommitted, true))
    ensures forall written :: Succeeds(Holding(s, LCommitted, written), OpPublishLease(s.lease.tag + 1),
                                       Holding(s, LPublished, true))
  {
  }

  /** Released and reclaimed: idle again, with one more commit counted and nothing else changed. */
  function Reclaimed(s: State): State {
    Holding(s, LPublished, true).(lease := FreeLease(s.lease.tag + 2),
                                  attempt := Holding(s, LPublished, true).attempt.(state := AExited))
  }

  lemma {:induction false} ReleaseSucceeds(s: State) returns (released: State)
    requires LeaseIdle(s) && s.lease.tag + 2 < s.limits.tagTerminal
    ensures Succeeds(Holding(s, LPublished, true), OpReleaseLease(s.lease.tag + 1), released)
    ensures released.lease.state.LReleased? && Succeeds(released, OpReclaimLease(s.lease.tag + 2), Reclaimed(s))
    ensures LeaseIdle(Reclaimed(s))
  {
    released := ReleaseLease(Holding(s, LPublished, true), s.lease.tag + 1).state;
  }

  /** When the owner dies, recovery tombstones the lease before its target is written and releases it after. */
  lemma {:induction false} RecoverySucceeds(s: State, state: LeaseState, written: bool)
    requires state.LReserved? || state.LCommitting? || state.LCommitted? || state.LPublished?
    requires written ==> state.LCommitted? || state.LPublished?
    ensures
      var r := Apply(Holding(s, state, written), OpRecoverDeadLease(s.lease.tag + 1));
      && r.ok && r.state.attempt.state.AExited?
      && r.state.lease.state == if written || state.LPublished? then LReleased else LTombstoned
  {
  }

  /** The calls of one lease, from entering to reclaiming. */
  function LeaseCalls(s: State): seq<Op> {
    var a, l := s.attempt.tag + 1, s.lease.tag + 1;
    [OpEnterAttempt(a), OpReserveLease(a, l), OpBeginTokenCommit(TokenFor(s)), OpFinishLeaseCommit(l),
     OpWriteLeaseTarget(l), OpPublishLease(l), OpReleaseLease(l), OpReclaimLease(l + 1)]
  }

  /** Every call of the run succeeds. */
  ghost predicate AllSucceed(s: State, ops: seq<Op>) {
    forall i :: 0 <= i < |ops| ==> Apply(Run(s, ops)[i], ops[i]).ok
  }

  lemma {:induction false} Follows(s: State, ops: seq<Op>, r: State)
    requires ops != [] && Succeeds(s, ops[0], r) && AllSucceed(r, ops[1..])
    ensures AllSucceed(s, ops) && Run(s, ops)[|ops|] == Run(r, ops[1..])[|ops| - 1]
  {
    hide Apply;
    forall i | 0 <= i < |ops| ensures Apply(Run(s, ops)[i], ops[i]).ok {
      if i > 0 { assert Run(s, ops)[i] == Run(r, ops[1..])[i - 1] && ops[i] == ops[1..][i - 1]; }
    }
  }

  lemma {:induction false} NoneFollows(s: State)
    ensures AllSucceed(s, []) && Run(s, [])[0] == s
  {
  }

  /**
   * From every open and idle state with tags left a lease lives: it is admitted, committed, written, published,
   * released and reclaimed, each call succeeds, and the state is idle again with one more commit counted.
   */
  lemma {:induction false} LeaseLives(s: State, initial: nat)
    requires Inv(s, initial) && LeaseIdle(s)
    requires s.attempt.tag + 1 < s.limits.tagTerminal && s.lease.tag + 2 < s.limits.tagTerminal
    ensures AllSucceed(s, LeaseCalls(s)) && Run(s, LeaseCalls(s))[8] == Reclaimed(s) && LeaseIdle(Reclaimed(s))
  {
    hide Inv, Apply, LeaseIdle, Holding, Reclaimed, Entered, TokenFor, AllSucceed;
    var ops := LeaseCalls(s);
    AdmissionSucceeds(s, initial);
    CommitSucceeds(s, initial);
    WriteSucceeds(s);
    var released := ReleaseSucceeds(s);
    NoneFollows(Reclaimed(s));
    assert ops[7..][1..] == [];
    Follows(released, ops[7..], Reclaimed(s));
    Follows(Holding(s, LPublished, true), ops[6..], released);
    Follows(Holding(s, LCommitted, true), ops[5..], Holding(s, LPublished, true));
    Follows(Holding(s, LCommitted, false), ops[4..], Holding(s, LCommitted, true));
    Follows(Holding(s, LCommitting, false), ops[3..], Holding(s, LCommitted, false));
    Follows(Holding(s, LReserved, false), ops[2..], Holding(s, LCommitting, false));
    Follows(Entered(s), ops[1..], Holding(s, LReserved, false));
    Follows(s, ops, Entered(s));
  }

  /** The calls of a lease whose owner dies after its commit, before or after the write, and is recovered. */
  function DeadCalls(s: State, written: bool): seq<Op> {
    var a, l := s.attempt.tag + 1, s.lease.tag + 1;
    [OpEnterAttempt(a), OpReserveLease(a, l), OpBeginTokenCommit(TokenFor(s)), OpFinishLeaseCommit(l)]
    + (if written then [OpWriteLeaseTarget(l)] else []) + [OpRecoverDeadLease(l)]
  }

  /** Every call succeeds, and the write decides whether the lease ends Released or Tombstoned. */
  lemma {:induction false} DeadLeaseEnds(s: State, written: bool, initial: nat)
    requires Inv(s, initial) && LeaseIdle(s)
    requires s.attempt.tag + 1 < s.limits.tagTerminal && s.lease.tag + 1 < s.limits.tagTerminal
    ensures
      var ops := DeadCalls(s, written);
      AllSucceed(s, ops) && Run(s, ops)[|ops|].lease.state == if written then LReleased else LTombstoned
  {
    hide Inv, Apply, LeaseIdle, Holding, Entered, TokenFor, AllSucceed;
    var ops := DeadCalls(s, written);
    var n := |ops|;
    AdmissionSucceeds(s, initial);
    CommitSucceeds(s, initial);
    WriteSucceeds(s);
    RecoverySucceeds(s, LCommitted, written);
    var ended := Apply(Holding(s, LCommitted, written), ops[n - 1]).state;
    NoneFollows(ended);
    assert ops[n - 1..][1..] == [];
    Follows(Holding(s, LCommitted, written), ops[n - 1..], ended);
    if written { Follows(Holding(s, LCommitted, false), ops[4..], Holding(s, LCommitted, true)); }
    Follows(Holding(s, LCommitting, false), ops[3..], Holding(s, LCommitted, false));
    Follows(Holding(s, LReserved, false), ops[2..], Holding(s, LCommitting, false));
    Follows(Entered(s), ops[1..], Holding(s, LReserved, false));
    Follows(s, ops, Entered(s));
  }

  // ---- Device updates ----

  predicate UpdateIdle(s: State) {
    && s.valid && s.viewState.ViewOpen? && s.deviceState.DeviceOpen?
    && (s.update.state.UFree? || s.update.state.UTerminal?)
  }

  /** The update of the next tag, before it is linked. */
  function Prepared(s: State): State {
    s.(update := UpdateRecord(s.update.tag + 1, UPrepared, Live, s.deviceGeneration, s.deviceGeneration + 1, s.epoch,
                              s.epoch + 1, false))
  }

  /** The device with the update linked: next generation and epoch, admissions settled. */
  function Linked(s: State, state: UpdateState): State {
    var settled := SettleLeaseForClose(s);
    s.(lease := settled.lease, attempt := settled.attempt, deviceGeneration := s.deviceGeneration + 1,
       epoch := s.epoch + 1,
       deviceState := if state.UActive? || state.UFencePublished? then DeviceUpdating else DeviceOpen,
       deviceUpdateTag := if state.UActive? || state.UFencePublished? then s.update.tag + 1 else 0,
       update := UpdateRecord(s.update.tag + 1, state, Live, s.deviceGeneration, s.deviceGeneration + 1, s.epoch,
                              s.epoch + 1, !state.UActive?))
  }

  lemma {:induction false} PrepareSucceeds(s: State, initial: nat)
    requires Inv(s, initial) && UpdateIdle(s) && s.update.tag + 1 < s.limits.tagTerminal
    requires s.deviceGeneration + 1 < s.limits.generationTerminal && s.epoch + 1 < s.limits.epochTerminal
    ensures Succeeds(s, OpPrepareDeviceUpdate(s.update.tag + 1), Prepared(s))
  {
    hide LeaseInv, RangeInv, PublicationInv;
  }

  lemma {:induction false} LinkSucceeds(s: State)
    requires UpdateIdle(s)
    ensures Succeeds(Prepared(s), OpLinkDeviceUpdate(s.update.tag + 1), Linked(s, UActive))
  {
  }

  lemma {:induction false} ReopenSucceeds(s: State)
    ensures Succeeds(Linked(s, UActive), OpPublishDeviceUpdate(s.update.tag + 1), Linked(s, UFencePublished))
    ensures Succeeds(Linked(s, UFencePublished), OpReopenDeviceUpdate(s.update.tag + 1), Linked(s, UReopened))
    ensures Succeeds(Linked(s, UReopened), OpFinishDeviceUpdate(s.update.tag + 1), Linked(s, UTerminal))
  {
    hide SettleLeaseForClose;
  }

  function UpdateCalls(s: State): seq<Op> {
    var t := s.update.tag + 1;
    [OpPrepareDeviceUpdate(t), OpLinkDeviceUpdate(t), OpPublishDeviceUpdate(t), OpReopenDeviceUpdate(t),
     OpFinishDeviceUpdate(t)]
  }

  /**
   * From every open state without an update under way, with a tag, a generation and an epoch left, an update goes
   * through: each call succeeds, and the device is open again with the next generation and epoch.
   */
  lemma {:induction false} UpdateLives(s: State, initial: nat)
    requires Inv(s, initial) && UpdateIdle(s) && s.update.tag + 1 < s.limits.tagTerminal
    requires s.deviceGeneration + 1 < s.limits.generationTerminal && s.epoch + 1 < s.limits.epochTerminal
    ensures AllSucceed(s, UpdateCalls(s)) && UpdateIdle(Run(s, UpdateCalls(s))[5])
    ensures
      var r := Run(s, UpdateCalls(s))[5];
      r.deviceGeneration == s.deviceGeneration + 1 && r.epoch == s.epoch + 1
  {
    hide Inv, Apply, AllSucceed, Prepared, SettleLeaseForClose;
    var ops := UpdateCalls(s);
    PrepareSucceeds(s, initial);
    LinkSucceeds(s);
    ReopenSucceeds(s);
    NoneFollows(Linked(s, UTerminal));
    assert ops[4..][1..] == [];
    Follows(Linked(s, UReopened), ops[4..], Linked(s, UTerminal));
    Follows(Linked(s, UFencePublished), ops[3..], Linked(s, UReopened));
    Follows(Linked(s, UActive), ops[2..], Linked(s, UFencePublished));
    Follows(Prepared(s), ops[1..], Linked(s, UActive));
    Follows(s, ops, Prepared(s));
  }

  /** A fresh model is idle. */
  lemma {:induction false} FreshIsIdle(limits: Limits, highWater: nat, generation: nat, epoch: nat, viewId: ViewId)
    requires ValidConfiguration(limits, highWater, generation, epoch, viewId)
    ensures
      var s := Initial(limits, highWater, generation, epoch, viewId);
      Inv(s, highWater) && LeaseIdle(s) && UpdateIdle(s)
  {
    InitialInv(limits, highWater, generation, epoch, viewId);
  }

  // ---- Ranges and publications ----

  /** The view is open, nothing is being published, and a range can be claimed as the new head. */
  predicate RangeIdle(s: State) {
    && s.valid && s.viewState.ViewOpen? && (s.publication.state.PFree? || s.publication.state.PTerminal?)
    && s.following.state.RFree? && (s.range.state.RFree? || (s.range.state.RRetired? && |s.retired| < RETIRED_CAPACITY))
  }

  /** A tag, a token generation and `length` numbers are left, and a publication tag. */
  predicate RangeRoom(s: State, length: nat) {
    && s.rangeTagHighWater + 1 < s.limits.tagTerminal && s.allocationHighWater + length < s.limits.sequenceTerminal
    && s.rangeTokenGeneration + 1 < s.limits.generationTerminal && s.publication.tag + 1 < s.limits.tagTerminal
  }

  /** The next numbers as the open head; a head that was retired goes to the archive. */
  function HeadOpened(s: State, length: nat): State {
    s.(rangeTagHighWater := s.rangeTagHighWater + 1, allocationHighWater := s.allocationHighWater + length,
       rangeTokenGeneration := s.rangeTokenGeneration + 1,
       retired := if s.range.state.RRetired? then s.retired + [s.range] else s.retired,
       range := RangeRecord(s.rangeTagHighWater + 1, ROpen, s.allocationHighWater + 1, s.allocationHighWater + length,
                            s.rangeTokenGeneration + 1, 0, 0))
  }

  function HeadClaimed(s: State, length: nat): State {
    HeadOpened(s, length).(allocationHighWater := s.allocationHighWater, rangeTokenGeneration := s.rangeTokenGeneration,
                           range := HeadOpened(s, length).range.(state := RInitializing))
  }

  lemma {:induction false} RangeClaimSucceeds(s: State, length: nat, initial: nat)
    requires Inv(s, initial) && RangeIdle(s) && length > 0 && RangeRoom(s, length)
    ensures ClaimRange(s, s.rangeTagHighWater + 1, length) == Outcome(HeadClaimed(s, length), true)
  {
    hide LeaseInv, UpdateInv, PublicationInv, RangeInv;
  }

  lemma {:induction false} RangeOpenSucceeds(s: State, length: nat, initial: nat)
    requires Inv(s, initial) && length > 0 && RangeRoom(s, length)
    ensures
      var t, prepared := s.rangeTagHighWater + 1, PrepareRange(HeadClaimed(s, length), s.rangeTagHighWater + 1);
      prepared.ok && OpenRange(prepared.state, t) == Outcome(HeadOpened(s, length), true)
  {
    hide ControlInv, LeaseInv, UpdateInv, PublicationInv, RangeInv;
  }

  lemma {:induction false} ReserveSucceeds(s: State, length: nat, initial: nat)
    requires Inv(s, initial) && RangeIdle(s) && length > 0 && RangeRoom(s, length)
    ensures Succeeds(s, OpReserveRange(s.rangeTagHighWater + 1, length), HeadOpened(s, length))
  {
    hide Inv, ClaimRange, PrepareRange, OpenRange, HeadOpened, HeadClaimed;
    RangeClaimSucceeds(s, length, initial);
    RangeOpenSucceeds(s, length, initial);
  }

  /** The publication of the first number of the new head. */
  function Publishing(s: State, length: nat, state: PublishState, applied: bool): State {
    var r := HeadOpened(s, length);
    r.(publicationCursor := if applied then s.allocationHighWater + 1 else s.publicationCursor,
       publication := PublishRecord(s.publication.tag + 1, state, Live, r.range.tag, r.range.tokenGeneration,
                                    r.range.begin, r.range.end, r.range.begin, applied, false))
  }

  /** A finished publication: its number is out, and the rest of its range is recorded as unused. */
  function PublicationFinished(s: State, length: nat): State {
    var r := Publishing(s, length, PTerminal, true);
    r.(range := r.range.(state := RRetired, unusedBegin := if length > 1 then r.range.begin + 1 else 0,
                         unusedEnd := if length > 1 then r.range.end else 0))
  }

  lemma {:induction false} ClaimSucceeds(s: State, length: nat, initial: nat)
    requires Inv(s, initial) && RangeIdle(s) && length > 0 && RangeRoom(s, length)
    ensures Succeeds(HeadOpened(s, length), OpClaimCurrentPublication(s.publication.tag + 1, false),
                     Publishing(s, length, PInitializing, false))
    ensures s.publicationCursor <= s.allocationHighWater && !s.intermediateVisible
  {
    hide LeaseInv, UpdateInv;
  }

  lemma {:induction false} PublishingSucceeds(s: State, length: nat)
    requires s.viewState.ViewOpen? && length > 0 && s.allocationHighWater + length < s.limits.sequenceTerminal
    requires s.publicationCursor <= s.allocationHighWater && !s.intermediateVisible
    ensures
      var t := s.publication.tag + 1;
      && Succeeds(Publishing(s, length, PInitializing, false), OpPreparePublication(t),
                  Publishing(s, length, PPrepared, false))
      && Succeeds(Publishing(s, length, PPrepared, false), OpLinkPublication(t), Publishing(s, length, PLinking, false))
      && Succeeds(Publishing(s, length, PLinking, false), OpActivatePublication(t),
                  Publishing(s, length, PActive, false))
  {
  }

  lemma {:induction false} ApplyingSucceeds(s: State, length: nat)
    requires s.viewState.ViewOpen? && length > 0 && s.allocationHighWater + length < s.limits.sequenceTerminal
    requires s.publicationCursor <= s.allocationHighWater && !s.intermediateVisible
    ensures
      var t := s.publication.tag + 1;
      && Succeeds(Publishing(s, length, PActive, false), OpApplyPublication(t), Publishing(s, length, PActive, true))
      && Succeeds(Publishing(s, length, PActive, true), OpMarkPublication(t), Publishing(s, length, PPublished, true))
  {
  }

  lemma {:induction false} FinishSucceeds(s: State, length: nat)
    requires length > 0 && !s.intermediateVisible
    ensures Succeeds(Publishing(s, length, PPublished, true), OpFinishPublication(s.publication.tag + 1),
                     PublicationFinished(s, length))
  {
  }

  function PublicationCalls(s: State, length: nat): seq<Op> {
    var t := s.publication.tag + 1;
    [OpReserveRange(s.rangeTagHighWater + 1, length), OpClaimCurrentPublication(t, false), OpPreparePublication(t),
     OpLinkPublication(t), OpActivatePublication(t), OpApplyPublication(t), OpMarkPublication(t),
     OpFinishPublication(t)]
  }

  /**
   * From every open and idle state with room, a range of any length is reserved and its first number published: each
   * call succeeds, the cursor is that number, and the rest of the range is recorded as unused.
   */
  lemma {:induction false} PublicationLives(s: State, length: nat, initial: nat)
    requires Inv(s, initial) && RangeIdle(s) && length > 0 && RangeRoom(s, length)
    ensures AllSucceed(s, PublicationCalls(s, length))
    ensures Run(s, PublicationCalls(s, length))[8] == PublicationFinished(s, length)
  {
    hide Inv, Apply, AllSucceed, Publishing, HeadOpened, PublicationFinished;
    var ops := PublicationCalls(s, length);
    ReserveSucceeds(s, length, initial);
    ClaimSucceeds(s, length, initial);
    PublishingSucceeds(s, length);
    ApplyingSucceeds(s, length);
    FinishSucceeds(s, length);
    NoneFollows(PublicationFinished(s, length));
    assert ops[7..][1..] == [];
    Follows(Publishing(s, length, PPublished, true), ops[7..], PublicationFinished(s, length));
    Follows(Publishing(s, length, PActive, true), ops[6..], Publishing(s, length, PPublished, true));
    Follows(Publishing(s, length, PActive, false), ops[5..], Publishing(s, length, PActive, true));
    Follows(Publishing(s, length, PLinking, false), ops[4..], Publishing(s, length, PActive, false));
    Follows(Publishing(s, length, PPrepared, false), ops[3..], Publishing(s, length, PLinking, false));
    Follows(Publishing(s, length, PInitializing, false), ops[2..], Publishing(s, length, PPrepared, false));
    Follows(HeadOpened(s, length), ops[1..], Publishing(s, length, PInitializing, false));
    Follows(s, ops, HeadOpened(s, length));
  }

  /** Given up before it is linked, a publication takes no number and its whole range is recorded as unused. */
  lemma {:induction false} AbortSucceeds(s: State, length: nat, state: PublishState)
    requires s.viewState.ViewOpen? && length > 0 && s.publicationCursor <= s.allocationHighWater
    requires state.PInitializing? || state.PPrepared?
    ensures
      var t := s.publication.tag + 1;
      var r := Publishing(s, length, PTerminal, false);
      && Succeeds(Publishing(s, length, state, false), OpAbortPublication(t), Publishing(s, length, PAborted, false))
      && Succeeds(Publishing(s, length, PAborted, false), OpFinishPublication(t),
                  r.(range := r.range.(state := RRetired, unusedBegin := r.range.begin, unusedEnd := r.range.end)))
  {
  }

  /** Once its range is retired, a publication's record is reclaimed under the next tag. */
  lemma {:induction false} ReclaimSucceeds(s: State, length: nat)
    requires s.publication.tag + 2 < s.limits.tagTerminal
    ensures Succeeds(PublicationFinished(s, length), OpReclaimPublication(s.publication.tag + 2),
                     PublicationFinished(s, length).(publication := FreePublication(s.publication.tag + 2)))
  {
  }

  // ---- Expiry ----

  /** An update that has been claimed and has not ended. */
  predicate UpdateUnderWay(state: UpdateState) {
    state.UInitializing? || state.UPrepared? || state.ULinking? || state.UActive? || state.UFencePublished?
    || state.UReopened?
  }

  /** A live owner under way can be expired, and nobody else; a refused expiry changes nothing. */
  lemma {:induction false} ExpiryIff(s: State, tag: nat)
    ensures ExpireLiveLease(s, tag).ok <==> s.lease.tag == tag && s.lease.owner.Live? && LiveLease(s.lease.state)
    ensures ExpireLiveDeviceUpdate(s, tag).ok <==>
      s.update.tag == tag && s.update.owner.Live? && UpdateUnderWay(s.update.state)
    ensures ExpireLivePublication(s, tag).ok <==>
      s.publication.tag == tag && s.publication.owner.Live? && LivePublication(s.publication.state)
    ensures !ExpireLiveLease(s, tag).ok ==> ExpireLiveLease(s, tag).state == s
    ensures !ExpireLiveDeviceUpdate(s, tag).ok ==> ExpireLiveDeviceUpdate(s, tag).state == s
    ensures !ExpireLivePublication(s, tag).ok ==> ExpireLivePublication(s, tag).state == s
  {
  }
}
