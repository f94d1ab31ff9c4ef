// Properties of whole runs of the recovery machine: allocation tiling, the publication log
// and what each number of an opened range became.
module RecoveryRuns {
  import opened RecoveryState
  import opened RecoveryInvariants

  // ---- Tiling ----

  function IfOpened(highWater: nat, range: RangeRecord): seq<RangeRecord> {
    if !range.state.RFree? && range.end <= highWater then [range] else []
  }

  /** Every range opened so far, in allocation order. */
  function OpenedRanges(s: State): seq<RangeRecord> {
    s.retired + IfOpened(s.allocationHighWater, s.range) + IfOpened(s.allocationHighWater, s.following)
  }

  /** The ranges cover (low, high] without gap or overlap. */
  predicate Tile(ranges: seq<RangeRecord>, low: nat, high: nat) {
    if ranges == [] then low == high
    else ranges[0].begin == low + 1 && ranges[0].begin <= ranges[0].end && Tile(ranges[1..], ranges[0].end, high)
  }

  lemma {:induction false} TileAppend(ranges: seq<RangeRecord>, last: RangeRecord, low: nat, middle: nat)
    requires Tile(ranges, low, middle) && last.begin == middle + 1 && last.begin <= last.end
    ensures Tile(ranges + [last], low, last.end)
  {
    if ranges == [] {
      assert ([] + [last])[1..] == [];
    } else {
      TileAppend(ranges[1..], last, ranges[0].end, middle);
      assert (ranges + [last])[1..] == ranges[1..] + [last];
    }
  }

  lemma {:induction false} ArchiveTiles(limits: Limits, retired: seq<RangeRecord>, initial: nat, n: nat)
    requires ArchiveInv(limits, retired, initial) && n <= |retired|
    ensures Tile(retired[..n], initial, ArchiveEnd(retired[..n], initial))
  {
    if n > 0 {
      ArchiveTiles(limits, retired, initial, n - 1);
      TileAppend(retired[..n - 1], retired[n - 1], initial, ArchiveEnd(retired[..n - 1], initial));
      assert retired[..n] == retired[..n - 1] + [retired[n - 1]];
    }
  }

  /** The opened ranges tile (initial high water, allocation high water]. */
  lemma {:induction false} OpenedRangesTile(s: State, initial: nat)
    requires Inv(s, initial)
    ensures Tile(OpenedRanges(s), initial, s.allocationHighWater)
  {
    var archive := s.retired;
    ArchiveTiles(s.limits, archive, initial, |archive|);
    assert archive[..|archive|] == archive;
    if Opened(s.allocationHighWater, s.range) {
      TileAppend(archive, s.range, initial, ArchiveEnd(archive, initial));
      if Opened(s.allocationHighWater, s.following) {
        TileAppend(archive + [s.range], s.following, initial, s.range.end);
      } else {
        assert OpenedRanges(s) == archive + [s.range];
      }
    } else {
      assert OpenedRanges(s) == archive;
    }
  }

  /** In a tiling, every number in (low, high] lies in exactly one range. */
  lemma {:induction false} TileCovers(ranges: seq<RangeRecord>, low: nat, high: nat, n: nat) returns (k: nat)
    requires Tile(ranges, low, high) && low < n <= high
    ensures k < |ranges| && ranges[k].begin <= n <= ranges[k].end
    ensures forall j :: 0 <= j < |ranges| && ranges[j].begin <= n <= ranges[j].end ==> j == k
  {
    if n <= ranges[0].end {
      k := 0;
      TileBounds(ranges[1..], ranges[0].end, high);
      assert forall j :: 0 < j < |ranges| ==> ranges[j] == ranges[1..][j - 1];
    } else {
      var m := TileCovers(ranges[1..], ranges[0].end, high, n);
      k := m + 1;
      assert forall j :: 0 < j < |ranges| ==> ranges[j] == ranges[1..][j - 1];
    }
  }

  lemma {:induction false} TileBounds(ranges: seq<RangeRecord>, low: nat, high: nat)
    requires Tile(ranges, low, high)
    ensures low <= high && forall j :: 0 <= j < |ranges| ==> low < ranges[j].begin <= ranges[j].end <= high
  {
    if ranges != [] {
      TileBounds(ranges[1..], ranges[0].end, high);
      assert forall j :: 0 < j < |ranges| ==> ranges[j] == ranges[1..][j - 1];
    }
  }

  // ---- The publication log ----

  /** Numbers a step publishes: the target when a payload is applied, the cursor when a compensation runs. */
  function PublishedBy(s: State, r: State): seq<nat> {
    (if !s.publication.payloadApplied && r.publication.payloadApplied then [s.publication.targetSequence] else [])
    + (if r.compensationCount != s.compensationCount then [r.publicationCursor] else [])
  }

  /** All numbers published by a run, in order. */
  function PublicationLog(s: State, ops: seq<Op>): seq<nat>
    decreases |ops|
  {
    if ops == [] then []
    else
      var n := |ops| - 1;
      var before := Run(s, ops)[n];
      PublicationLog(s, ops[..n]) + PublishedBy(before, Apply(before, ops[n]).state)
  }

  predicate Increasing(log: seq<nat>) {
    forall i, j :: 0 <= i < j < |log| ==> log[i] < log[j]
  }

  predicate Unused(range: RangeRecord, n: nat) {
    range.unusedBegin != 0 && range.unusedBegin <= n <= range.unusedEnd
  }

  /** The recorded tail of a retired range is exactly what the log never took from it. */
  ghost predicate SuffixExact(log: seq<nat>, range: RangeRecord) {
    forall n :: range.begin <= n <= range.end ==> (n in log <==> !Unused(range, n))
  }

  ghost predicate LogInv(log: seq<nat>, cursor: nat, head: RangeRecord, retired: seq<RangeRecord>, initial: nat) {
    && Increasing(log)
    && (forall i :: 0 <= i < |log| ==> initial < log[i] <= cursor)
    && (if log == [] then cursor == initial else log[|log| - 1] == cursor)
    && (forall i :: 0 <= i < |retired| ==> SuffixExact(log, retired[i]))
    && (if head.state.RRetired? then SuffixExact(log, head)
        else forall n :: head.begin <= n <= head.end && !head.state.RFree? ==> (n in log <==> n <= cursor))
  }

  ghost predicate HistoryInv(s: State, log: seq<nat>, initial: nat) {
    Inv(s, initial) && LogInv(log, s.publicationCursor, s.range, s.retired, initial)
  }

  /** A step that moves neither the cursor nor the set of retired ranges. */
  ghost predicate Quiet(s: State, r: State) {
    && r.publicationCursor == s.publicationCursor && r.compensationCount == s.compensationCount
    && (r.publication.payloadApplied ==> s.publication.payloadApplied)
    && r.retired == s.retired
    && (r.range == s.range
        || (!s.range.state.RFree? && !s.range.state.RRetired? && !r.range.state.RRetired? && !r.range.state.RFree?
            && r.range.begin == s.range.begin && r.range.end == s.range.end))
  }

  lemma {:induction false} QuietStep(s: State, r: State, log: seq<nat>, initial: nat)
    requires LogInv(log, s.publicationCursor, s.range, s.retired, initial) && Quiet(s, r)
    ensures PublishedBy(s, r) == []
    ensures LogInv(log, r.publicationCursor, r.range, r.retired, initial)
  {
  }

  lemma {:induction false} LeaseOpQuiet(s: State, op: Op)
    requires LeaseOp(op)
    ensures Quiet(s, ApplyLeaseOp(s, op).state)
  {
  }

  lemma {:induction false} ClosingQuiet(s: State)
    ensures Quiet(s, CloseView(s)) && Quiet(s, CloseDevice(s))
  {
  }

  lemma {:induction false} RecoverFencedQuiet(s: State, tag: nat)
    ensures Quiet(s, RecoverFenced(s, tag).state)
  {
  }

  lemma {:induction false} RecoverLinkedQuiet(s: State, tag: nat)
    ensures Quiet(s, RecoverLinked(s, tag).state)
  {
    hide RecoverFenced;
    RecoverFencedQuiet(s, tag);
    RecoverFencedQuiet(PublishDeviceUpdate(s, tag).state, tag);
  }

  lemma {:induction false} RecoverUpdateQuiet(s: State, tag: nat)
    ensures Quiet(s, RecoverDeadDeviceUpdate(s, tag).state)
  {
    hide RecoverLinked;
    var dead := s.(update := s.update.(owner := Dead));
    RecoverLinkedQuiet(dead, tag);
    RecoverLinkedQuiet(InstallLink(dead, tag), tag);
  }

  lemma {:induction false} LinkQuiet(s: State, tag: nat)
    ensures Quiet(s, BeginDeviceUpdateLink(s, tag).state)
    ensures Quiet(s, CompleteDeviceUpdateLink(s, tag).state) && Quiet(s, LinkDeviceUpdate(s, tag).state)
  {
  }

  lemma {:induction false} UpdateOpQuiet(s: State, op: Op)
    requires UpdateOp(op)
    ensures Quiet(s, ApplyUpdateOp(s, op).state)
  {
    hide CloseView, CloseDevice, Quarantine, RecoverDeadDeviceUpdate, BeginDeviceUpdateLink, CompleteDeviceUpdateLink,
      LinkDeviceUpdate;
    if op.OpRecoverDeadDeviceUpdate? {
      RecoverUpdateQuiet(s, op.tag);
    } else if op.OpBeginDeviceUpdateLink? || op.OpCompleteDeviceUpdateLink? || op.OpLinkDeviceUpdate? {
      LinkQuiet(s, op.tag);
    } else if op.OpCloseView? || op.OpCloseDevice? {
      ClosingQuiet(s);
    } else if op.OpExpireLiveDeviceUpdate? {
      QuarantineQuiet(s.(update := s.update.(state := UQuarantined)));
    }
  }

  lemma {:induction false} RangeSlotQuiet(s: State, tag: nat)
    ensures Quiet(s, PrepareRange(s, tag).state) && Quiet(s, OpenRange(s, tag).state)
  {
  }

  predicate MovesLog(op: Op) {
    op.OpApplyPublication? || op.OpFinishPublication? || op.OpRecoverDeadPublication?
  }

  lemma {:induction false} PublicationOpQuiet(s: State, op: Op, initial: nat)
    requires Inv(s, initial)
    requires !LeaseOp(op) && !UpdateOp(op) && !RangeOp(op) && !MovesLog(op)
    ensures Quiet(s, ApplyPublicationOp(s, op).state)
  {
  }

  /** Taking the next number of an open head range extends the log by it. */
  lemma {:induction false} ExtendLog(log: seq<nat>, cursor: nat, head: RangeRecord, retired: seq<RangeRecord>,
                                     initial: nat, n: nat)
    requires LogInv(log, cursor, head, retired, initial)
    requires !head.state.RFree? && !head.state.RRetired? && initial < head.begin
    requires n == Max(head.begin, cursor + 1) <= head.end
    requires forall i :: 0 <= i < |retired| ==> retired[i].end < head.begin
    ensures LogInv(log + [n], n, head, retired, initial)
  {
    var longer := log + [n];
    assert forall i :: 0 <= i < |longer| - 1 ==> longer[i] == log[i];
    assert forall m :: m in longer <==> m in log || m == n;
  }

  lemma {:induction false} RetireLog(log: seq<nat>, cursor: nat, head: RangeRecord, retired: seq<RangeRecord>,
                                     initial: nat)
    requires LogInv(log, cursor, head, retired, initial) && head.state.ROpen? && 0 < head.begin <= head.end
    ensures LogInv(log, cursor, RetireAt(head, cursor), retired, initial)
  {
  }

  lemma {:induction false} ArchiveBelowHead(s: State, initial: nat)
    requires Inv(s, initial) && !s.range.state.RFree?
    ensures initial < s.range.begin
    ensures forall i :: 0 <= i < |s.retired| ==> s.retired[i].end < s.range.begin
  {
  }

  lemma {:induction false} ApplyExtendsLog(s: State, tag: nat, log: seq<nat>, initial: nat)
    requires HistoryInv(s, log, initial)
    ensures
      var r := ApplyPublication(s, tag).state;
      LogInv(log + PublishedBy(s, r), r.publicationCursor, r.range, r.retired, initial)
  {
    hide LogInv;
    if ApplyPublication(s, tag).ok {
      ArchiveBelowHead(s, initial);
      ExtendLog(log, s.publicationCursor, s.range, s.retired, initial, s.publication.targetSequence);
      assert PublishedBy(s, ApplyPublication(s, tag).state) == [s.publication.targetSequence];
    } else {
      assert PublishedBy(s, s) == [] && log + [] == log;
    }
  }

  lemma {:induction false} FinishKeepsLog(s: State, tag: nat, log: seq<nat>, initial: nat)
    requires HistoryInv(s, log, initial)
    ensures
      var r := FinishPublication(s, tag).state;
      LogInv(log + PublishedBy(s, r), r.publicationCursor, r.range, r.retired, initial)
  {
    assert log + [] == log;
    if FinishPublication(s, tag).ok {
      RetireLog(log, s.publicationCursor, s.range, s.retired, initial);
    }
  }

  /** A range beyond everything published takes the head's place; a retired head joins the archive. */
  lemma {:induction false} NewHeadKeepsLog(log: seq<nat>, cursor: nat, head: RangeRecord, retired: seq<RangeRecord>,
                                           initial: nat,
                          next: RangeRecord, archive: seq<RangeRecord>)
    requires LogInv(log, cursor, head, retired, initial)
    requires !next.state.RRetired? && !next.state.RFree? && next.begin > cursor
    requires archive == retired || (archive == retired + [head] && head.state.RRetired?)
    ensures LogInv(log, cursor, next, archive, initial)
  {
  }

  lemma {:induction false} HeadChangeKeepsLog(s: State, op: Op, log: seq<nat>, initial: nat)
    requires HistoryInv(s, log, initial) && (op.OpClaimRange? || op.OpAdvanceRangeHead?)
    ensures
      var r := ApplyRangeOp(s, op).state;
      LogInv(log + PublishedBy(s, r), r.publicationCursor, r.range, r.retired, initial)
  {
    hide LogInv;
    var r := ApplyRangeOp(s, op).state;
    assert PublishedBy(s, r) == [] && log + [] == log;
    if r.range != s.range || r.retired != s.retired {
      NewHeadKeepsLog(log, s.publicationCursor, s.range, s.retired, initial, r.range, r.retired);
    }
  }

  /** Marking, activating and naming a dead owner publish nothing themselves. */
  lemma {:induction false} StageQuiet(s: State, tag: nat)
    ensures Quiet(s, ActivatePublication(s, tag).state) && Quiet(s, MarkPublication(s, tag).state)
    ensures Quiet(s, WithDeadPublisher(s)) && Quiet(WithDeadPublisher(s), s)
    ensures ActivatePublication(s, tag).state.publication.payloadApplied == s.publication.payloadApplied
    ensures ActivatePublication(s, tag).state.publication.targetSequence == s.publication.targetSequence
    ensures MarkPublication(s, tag).state.publication.payloadApplied == s.publication.payloadApplied
  {
  }

  lemma {:induction false} RecoverLinkedLog(s: State, tag: nat, log: seq<nat>, initial: nat)
    requires HistoryInv(s, log, initial)
    ensures
      var marked := MarkedPublication(s, tag);
      && LogInv(log + PublishedBy(s, marked), marked.publicationCursor, marked.range, marked.retired, initial)
      && marked.compensationCount == s.compensationCount
  {
    hide Inv, LogInv, ActivatePublication, MarkPublication;
    var activated := ActivatePublication(s, tag).state;
    var applied := ApplyPublication(activated, tag).state;
    ActivatePublicationInv(s, tag, initial);
    StageQuiet(s, tag);
    QuietStep(s, activated, log, initial);
    ApplyExtendsLog(activated, tag, log, initial);
    StageQuiet(applied, tag);
    QuietStep(applied, MarkPublication(applied, tag).state, log + PublishedBy(activated, applied), initial);
    assert PublishedBy(s, MarkPublication(applied, tag).state) == PublishedBy(activated, applied);
  }

  lemma {:induction false} CompensationExtendsLog(s: State, tag: nat, log: seq<nat>, initial: nat)
    requires HistoryInv(s, log, initial) && s.publication.tag == tag && s.publication.state.PPublished?
    requires CompensationFits(s)
    ensures
      var r := FinishPublication(Compensate(s).state, tag).state;
      && LogInv(log + PublishedBy(s, r), r.publicationCursor, r.range, r.retired, initial)
      && r.publication.payloadApplied
  {
    hide LogInv;
    if s.intermediateVisible {
      var n := s.publicationCursor + 1;
      ArchiveBelowHead(s, initial);
      ExtendLog(log, s.publicationCursor, s.range, s.retired, initial, n);
      RetireLog(log + [n], n, s.range, s.retired, initial);
      var r := FinishPublication(Compensate(s).state, tag).state;
      assert r.compensationCount == s.compensationCount + 1 && r.publicationCursor == n;
      assert PublishedBy(s, r) == [n];
    } else {
      FinishKeepsLog(s, tag, log, initial);
    }
  }

  lemma {:induction false} QuarantineQuiet(s: State)
    ensures Quiet(s, Quarantine(s))
    ensures Quarantine(s).publication.payloadApplied == s.publication.payloadApplied
  {
  }

  lemma {:induction false} RecoverLivePublicationLog(s: State, tag: nat, log: seq<nat>, initial: nat)
    requires HistoryInv(s, log, initial) && s.publication.tag == tag && LinkedPublication(s.publication.state)
    ensures
      var r := RecoverDeadPublication(s, tag).state;
      LogInv(log + PublishedBy(s, r), r.publicationCursor, r.range, r.retired, initial)
  {
    hide Inv, LogInv, MarkedPublication, Quarantine, Compensate, FinishPublication, RecoverDeadPublication, Quiet;
    var marked := MarkedPublication(s, tag);
    var log1 := log + PublishedBy(s, marked);
    LinkedRecoveryOutcome(s, tag, initial);
    RecoverLinkedLog(s, tag, log, initial);
    MarkedPublicationInv(s, tag, initial);
    MarkedIsPublished(s, tag, initial);
    MarkedFacts(s, tag, initial);
    if CompensationFits(s) {
      CompensationExtendsLog(marked, tag, log1, initial);
      var r := FinishPublication(Compensate(marked).state, tag).state;
      assert PublishedBy(s, r) == PublishedBy(s, marked) + PublishedBy(marked, r);
      assert log + PublishedBy(s, r) == log1 + PublishedBy(marked, r);
    } else {
      QuarantineQuiet(marked);
      QuietStep(marked, Quarantine(marked), log1, initial);
      assert PublishedBy(s, Quarantine(marked)) == PublishedBy(s, marked);
    }
  }

  lemma {:induction false} RecoverPublicationLog(s: State, tag: nat, log: seq<nat>, initial: nat)
    requires HistoryInv(s, log, initial)
    ensures
      var r := RecoverDeadPublication(s, tag).state;
      LogInv(log + PublishedBy(s, r), r.publicationCursor, r.range, r.retired, initial)
  {
    if s.publication.tag != tag {
      QuietStep(s, s, log, initial);
      assert log + [] == log;
    } else if LinkedPublication(s.publication.state) {
      RecoverLivePublicationLog(s, tag, log, initial);
    } else {
      UnlinkedRecoveryLog(s, tag, log, initial);
    }
  }

  lemma {:induction false} UnlinkedRecoveryLog(s: State, tag: nat, log: seq<nat>, initial: nat)
    requires HistoryInv(s, log, initial) && s.publication.tag == tag && !LinkedPublication(s.publication.state)
    ensures
      var r := RecoverDeadPublication(s, tag).state;
      LogInv(log + PublishedBy(s, r), r.publicationCursor, r.range, r.retired, initial)
  {
    hide LogInv, Inv;
    var aborted := AbortPublication(s, tag).state;
    AbortPublicationInv(s, tag, initial);
    FinishKeepsLog(aborted, tag, log, initial);
    var f := FinishPublication(aborted, tag).state;
    var r := RecoverDeadPublication(s, tag).state;
    assert r.publicationCursor == f.publicationCursor && r.range == f.range && r.retired == f.retired;
    assert PublishedBy(s, r) == PublishedBy(aborted, f) == [];
  }

  lemma {:induction false} RangeOpLog(s: State, op: Op, log: seq<nat>, initial: nat)
    requires HistoryInv(s, log, initial) && RangeOp(op)
    ensures
      var r := ApplyRangeOp(s, op).state;
      LogInv(log + PublishedBy(s, r), r.publicationCursor, r.range, r.retired, initial)
  {
    hide LogInv, Inv, Quiet;
    match op
    case OpClaimRange(t, n) => HeadChangeKeepsLog(s, op, log, initial);
    case OpAdvanceRangeHead => HeadChangeKeepsLog(s, op, log, initial);
    case OpPrepareRange(t) =>
      RangeSlotQuiet(s, t);
      QuietStep(s, PrepareRange(s, t).state, log, initial);
      assert log + [] == log;
    case OpOpenRange(t) =>
      RangeSlotQuiet(s, t);
      QuietStep(s, OpenRange(s, t).state, log, initial);
      assert log + [] == log;
    case OpReserveRange(t, n) => ReserveRangeLog(s, t, n, log, initial);
  }

  lemma {:induction false} ReserveRangeLog(s: State, tag: nat, length: nat, log: seq<nat>, initial: nat)
    requires HistoryInv(s, log, initial)
    ensures
      var r := ReserveRange(s, tag, length).state;
      LogInv(log + PublishedBy(s, r), r.publicationCursor, r.range, r.retired, initial)
  {
    hide LogInv, Inv, Quiet, PrepareRange, OpenRange;
    var claimed := ClaimRange(s, tag, length).state;
    var prepared := PrepareRange(claimed, tag).state;
    assert ClaimRange(s, tag, length) == ApplyRangeOp(s, OpClaimRange(tag, length));
    HeadChangeKeepsLog(s, OpClaimRange(tag, length), log, initial);
    assert PublishedBy(s, claimed) == [] && log + [] == log;
    RangeSlotQuiet(claimed, tag);
    QuietStep(claimed, prepared, log, initial);
    RangeSlotQuiet(prepared, tag);
    QuietStep(prepared, OpenRange(prepared, tag).state, log, initial);
    SlotKeepsPublication(claimed, tag);
    SlotKeepsPublication(prepared, tag);
  }

  lemma {:induction false} SlotKeepsPublication(s: State, tag: nat)
    ensures PrepareRange(s, tag).state.publication == s.publication
        && OpenRange(s, tag).state.publication == s.publication
    ensures PrepareRange(s, tag).state.compensationCount == OpenRange(s, tag).state.compensationCount
        == s.compensationCount
  {
  }

  lemma {:induction false} PublicationOpLog(s: State, op: Op, log: seq<nat>, initial: nat)
    requires HistoryInv(s, log, initial) && !LeaseOp(op) && !UpdateOp(op) && !RangeOp(op)
    ensures
      var r := ApplyPublicationOp(s, op).state;
      LogInv(log + PublishedBy(s, r), r.publicationCursor, r.range, r.retired, initial)
  {
    hide LogInv, Inv, Quiet, ApplyPublication, FinishPublication, RecoverDeadPublication;
    if op.OpApplyPublication? {
      ApplyExtendsLog(s, op.tag, log, initial);
    } else if op.OpFinishPublication? {
      FinishKeepsLog(s, op.tag, log, initial);
    } else if op.OpRecoverDeadPublication? {
      RecoverPublicationLog(s, op.tag, log, initial);
    } else {
      PublicationOpQuiet(s, op, initial);
      QuietStep(s, ApplyPublicationOp(s, op).state, log, initial);
      assert log + [] == log;
    }
  }

  lemma {:induction false} StepLog(s: State, op: Op, log: seq<nat>, initial: nat)
    requires HistoryInv(s, log, initial)
    ensures
      var r := Apply(s, op).state;
      HistoryInv(r, log + PublishedBy(s, r), initial)
  {
    hide LogInv, Inv, Quiet, ApplyLeaseOp, ApplyUpdateOp, ApplyRangeOp, ApplyPublicationOp;
    var r := Apply(s, op).state;
    ApplyInv(s, op, initial);
    if RangeOp(op) {
      RangeOpLog(s, op, log, initial);
    } else if LeaseOp(op) || UpdateOp(op) {
      if LeaseOp(op) {
        LeaseOpQuiet(s, op);
      } else {
        UpdateOpQuiet(s, op);
      }
      QuietStep(s, r, log, initial);
      assert log + [] == log;
    } else {
      PublicationOpLog(s, op, log, initial);
    }
  }

  /** Every operation but applying and recovering a publication publishes nothing. */
  predicate Silent(op: Op) { !op.OpApplyPublication? && !op.OpRecoverDeadPublication? }

  lemma {:induction false} RangeOpPublishesNothing(s: State, op: Op)
    requires RangeOp(op)
    ensures PublishedBy(s, ApplyRangeOp(s, op).state) == []
  {
    hide PrepareRange, OpenRange;
    if op.OpPrepareRange? || op.OpOpenRange? {
      SlotKeepsPublication(s, op.tag);
    } else if op.OpReserveRange? {
      var claimed := ClaimRange(s, op.tag, op.length).state;
      SlotKeepsPublication(claimed, op.tag);
      SlotKeepsPublication(PrepareRange(claimed, op.tag).state, op.tag);
    }
  }

  lemma {:induction false} SilentPublishesNothing(s: State, op: Op, initial: nat)
    requires Inv(s, initial) && Silent(op)
    ensures PublishedBy(s, Apply(s, op).state) == []
  {
    hide Inv, ApplyLeaseOp, ApplyUpdateOp, ApplyRangeOp, ApplyPublicationOp;
    if LeaseOp(op) {
      LeaseOpQuiet(s, op);
    } else if UpdateOp(op) {
      UpdateOpQuiet(s, op);
    } else if RangeOp(op) {
      RangeOpPublishesNothing(s, op);
    } else {
      PublicationOpSilent(s, op);
    }
  }

  lemma {:induction false} PublicationOpSilent(s: State, op: Op)
    requires Silent(op) && !LeaseOp(op) && !UpdateOp(op) && !RangeOp(op)
    ensures PublishedBy(s, ApplyPublicationOp(s, op).state) == []
  {
  }

  lemma {:induction false} RunLog(s: State, ops: seq<Op>, initial: nat)
    requires HistoryInv(s, [], initial)
    ensures HistoryInv(Run(s, ops)[|ops|], PublicationLog(s, ops), initial)
    decreases |ops|
  {
    hide LogInv, Inv, Apply;
    if ops != [] {
      var n := |ops| - 1;
      RunLog(s, ops[..n], initial);
      RunPrefix(s, ops, n);
      StepLog(Run(s, ops)[n], ops[n], PublicationLog(s, ops[..n]), initial);
    }
  }

  lemma {:induction false} RunPrefix(s: State, ops: seq<Op>, n: nat)
    requires n <= |ops|
    ensures Run(s, ops[..n])[n] == Run(s, ops)[n]
    decreases n
  {
    hide Apply;
    if n > 0 {
      var m := n - 1;
      RunPrefix(s, ops, m);
      RunPrefix(s, ops[..n], m);
      assert ops[..n][..m] == ops[..m];
    }
  }

  /** What the publication log of a run is, stated on the final state. */
  ghost predicate PublicationExact(s: State, log: seq<nat>, initial: nat) {
    && Tile(OpenedRanges(s), initial, s.allocationHighWater)
    && Increasing(log)
    && (forall n :: n in log ==> initial < n <= s.publicationCursor <= s.allocationHighWater)
    && (forall i :: 0 <= i < |s.retired| ==> SuffixExact(log, s.retired[i]))
    && (s.range.state.RRetired? ==> SuffixExact(log, s.range))
  }

  /** No number is handed out twice, none published twice, and retired tails are exactly the unpublished numbers. */
  lemma {:induction false} PublicationExactAlways(limits: Limits, highWater: nat, generation: nat, epoch: nat,
                                                  viewId: ViewId, ops: seq<Op>)
    requires ValidConfiguration(limits, highWater, generation, epoch, viewId)
    ensures
      var s := Initial(limits, highWater, generation, epoch, viewId);
      PublicationExact(Run(s, ops)[|ops|], PublicationLog(s, ops), highWater)
  {
    hide Apply;
    var s := Initial(limits, highWater, generation, epoch, viewId);
    InitialInv(limits, highWater, generation, epoch, viewId);
    RunLog(s, ops, highWater);
    var r := Run(s, ops)[|ops|];
    OpenedRangesTile(r, highWater);
  }

  /** Every allocated number belongs to one opened range; in a retired one it was published or is recorded unused. */
  lemma {:induction false} NumberFate(s: State, log: seq<nat>, initial: nat, n: nat) returns (k: nat)
    requires HistoryInv(s, log, initial) && initial < n <= s.allocationHighWater
    ensures k < |OpenedRanges(s)| && OpenedRanges(s)[k].begin <= n <= OpenedRanges(s)[k].end
    ensures forall j :: 0 <= j < |OpenedRanges(s)| && OpenedRanges(s)[j].begin <= n <= OpenedRanges(s)[j].end ==> j == k
    ensures OpenedRanges(s)[k].state.RRetired? ==> (n in log <==> !Unused(OpenedRanges(s)[k], n))
  {
    OpenedRangesTile(s, initial);
    k := TileCovers(OpenedRanges(s), initial, s.allocationHighWater, n);
  }
}
