// The staged protocol over any mirrors, callback answers and clock: what each mirror sees, who is
// aborted, and when a commit counts.
module LifecycleStages {
  import opened LifecycleCore

  // ---- One stage ----

  /** The callbacks of one stage to the mirrors below n. */
  function Round(job: Job, stage: Stage, n: nat): seq<Event>
    requires n <= |job.mirrors|
  {
    Calls(job, stage, _ => true, n)
  }

  /** The mirrors below n that have this callback. */
  function Having(job: Job, stage: Stage, n: nat): set<nat>
    requires n <= |job.mirrors|
  {
    set i | 0 <= i < n && stage in job.mirrors[i].calls
  }

  lemma {:induction false} RoundStep(job: Job, stage: Stage, n: nat)
    requires n < |job.mirrors|
    ensures Round(job, stage, n + 1)
         == Round(job, stage, n) + if stage in job.mirrors[n].calls then [EventOf(job, n, stage)] else []
    ensures Having(job, stage, n + 1) == Having(job, stage, n) + if stage in job.mirrors[n].calls then {n} else {}
  {
  }

  /** What one stage did, stopping before mirror n. */
  ghost predicate StageDid(job: Job, env: Env, stage: Stage, p: Progress, q: Progress, ok: bool, n: nat) {
    && n <= |job.mirrors| && (ok ==> n == |job.mirrors|)
    && q.log == p.log + Round(job, stage, n)
    && q.touched == p.touched + Having(job, stage, n)
    && q.committed == p.committed + (if stage.Commit? then Agreed(job, env, stage, n) else {})
    && (ok ==> Agreed(job, env, stage, n) == Having(job, stage, n) && q.timedOut == p.timedOut)
    && (!ok && !q.timedOut ==> n > 0 && stage in job.mirrors[n - 1].calls && !env.answers(n - 1, stage))
  }

  /** The mirrors below n whose callback said yes. */
  function Agreed(job: Job, env: Env, stage: Stage, n: nat): set<nat>
    requires n <= |job.mirrors|
  {
    set i | 0 <= i < n && stage in job.mirrors[i].calls && env.answers(i, stage)
  }

  lemma {:induction false} AgreedStep(job: Job, env: Env, stage: Stage, n: nat)
    requires n < |job.mirrors|
    ensures Agreed(job, env, stage, n + 1)
         == Agreed(job, env, stage, n) + if stage in job.mirrors[n].calls && env.answers(n, stage) then {n} else {}
  {
  }

  lemma {:induction false} InvokeDid(job: Job, env: Env, stage: Stage, p0: Progress, p: Progress,
                                     i: nat) returns (n: nat)
    requires i <= |job.mirrors| && SoFar(job, env, stage, p0, p, i)
    ensures var (q, ok) := InvokeFrom(job, env, stage, p, i); StageDid(job, env, stage, p0, q, ok, n)
    decreases |job.mirrors| - i
  {
    hide Round, Having, Agreed;
    if i == |job.mirrors| || Expired(job, env, p) {
      n := i;
    } else {
      RoundStep(job, stage, i);
      AgreedStep(job, env, stage, i);
      var q := Ticked(job, p);
      if stage !in job.mirrors[i].calls {
        assert p.log + [] == p.log;
        n := InvokeDid(job, env, stage, p0, q, i + 1);
      } else {
        var r := q.(touched := q.touched + {i}, log := q.log + [EventOf(job, i, stage)]);
        if !env.answers(i, stage) {
          n := i + 1;
        } else {
          n := InvokeDid(job, env, stage, p0, if stage.Commit? then r.(committed := r.committed + {i}) else r, i + 1);
        }
      }
    }
  }

  /** The stage has gone through the first i mirrors, all of which agreed. */
  ghost predicate SoFar(job: Job, env: Env, stage: Stage, p0: Progress, p: Progress, i: nat) {
    && i <= |job.mirrors|
    && p.log == p0.log + Round(job, stage, i) && p.touched == p0.touched + Having(job, stage, i)
    && p.committed == p0.committed + (if stage.Commit? then Agreed(job, env, stage, i) else {})
    && Agreed(job, env, stage, i) == Having(job, stage, i) && p.timedOut == p0.timedOut
  }

  // ---- All four stages ----

  /** How far each stage got; a stage that got anywhere follows a stage that went through. */
  datatype Extent = Extent(prepared: nat, quiesced: nat, drained: nat, committed: nat)

  ghost predicate Reaches(job: Job, x: Extent) {
    var all := |job.mirrors|;
    && x.prepared <= all && x.quiesced <= all && x.drained <= all && x.committed <= all
    && (x.quiesced > 0 ==> x.prepared == all) && (x.drained > 0 ==> x.quiesced == all && x.prepared == all)
    && (x.committed > 0 ==> x.drained == all && x.quiesced == all && x.prepared == all)
  }

  function Rounds(job: Job, x: Extent): seq<Event>
    requires x.prepared <= |job.mirrors| && x.quiesced <= |job.mirrors| && x.drained <= |job.mirrors|
        && x.committed <= |job.mirrors|
  {
    Round(job, Prepare, x.prepared) + Round(job, Quiesce, x.quiesced) + Round(job, Drain, x.drained) + Round(job,
        Commit, x.committed)
  }

  ghost predicate ForwardDid(job: Job, env: Env, p: Progress, ending: Ending, x: Extent) {
    && Reaches(job, x) && p.log == Rounds(job, x)
    && p.touched == Having(job, Prepare, x.prepared) + Having(job, Quiesce, x.quiesced)
                    + Having(job, Drain, x.drained) + Having(job, Commit, x.committed)
    && p.committed == Agreed(job, env, Commit, x.committed)
    && (ending.Completed? ==>
          && x == Extent(|job.mirrors|, |job.mirrors|, |job.mirrors|, |job.mirrors|)
          && Agreed(job, env, Commit, |job.mirrors|) == Having(job, Commit, |job.mirrors|))
    && (ending.Stopped? ==> p.committed == {})
    && (ending.Torn? ==> p.committed != {} && (p.timedOut || RefusedCommit(job, env, x.committed)))
  }

  /** The last commit callback made was refused. */
  ghost predicate RefusedCommit(job: Job, env: Env, n: nat) {
    0 < n <= |job.mirrors| && Commit in job.mirrors[n - 1].calls && !env.answers(n - 1, Commit)
  }

  lemma {:induction false} FirstSoFar(job: Job, env: Env, stage: Stage, p: Progress)
    ensures SoFar(job, env, stage, p, p, 0)
  {
    assert Agreed(job, env, stage, 0) == {};
    assert Having(job, stage, 0) == {};
  }

  lemma {:induction false} EmptyRounds(job: Job)
    ensures forall stage :: Round(job, stage, 0) == [] && Having(job, stage, 0) == {}
    ensures forall env, stage :: Agreed(job, env, stage, 0) == {}
  {
  }

  lemma {:induction false} ForwardDoes(job: Job, env: Env, p: Progress) returns (x: Extent)
    requires p.log == [] && p.touched == {} && p.committed == {} && !p.timedOut
    ensures var (q, ending) := Forward(job, env, p); ForwardDid(job, env, q, ending, x)
  {
    hide InvokeFrom, Round, Having, Agreed;
    EmptyRounds(job);
    x := Extent(0, 0, 0, 0);
    var (p1, ok1) := InvokeFrom(job, env, Prepare, p, 0);
    FirstSoFar(job, env, Prepare, p);
    var n1 := InvokeDid(job, env, Prepare, p, p, 0);
    x := x.(prepared := n1);
    if ok1 {
      var (p2, ok2) := InvokeFrom(job, env, Quiesce, p1, 0);
      FirstSoFar(job, env, Quiesce, p1);
      var n2 := InvokeDid(job, env, Quiesce, p1, p1, 0);
      x := x.(quiesced := n2);
      if ok2 {
        var (p3, ok3) := InvokeFrom(job, env, Drain, p2, 0);
        FirstSoFar(job, env, Drain, p2);
        var n3 := InvokeDid(job, env, Drain, p2, p2, 0);
        x := x.(drained := n3);
        if ok3 {
          FirstSoFar(job, env, Commit, p3);
          var n4 := InvokeDid(job, env, Commit, p3, p3, 0);
          x := x.(committed := n4);
        }
      }
    }
  }

  // ---- What one mirror sees ----

  /** The stages mirror m was called for, in order. */
  function Seen(log: seq<Event>, m: nat): seq<Stage> {
    if log == [] then []
    else
      var last := log[|log| - 1];
      Seen(log[..|log| - 1], m) + if last.mirror == m then [last.stage] else []
  }

  lemma {:induction false} SeenConcat(a: seq<Event>, b: seq<Event>, m: nat)
    ensures Seen(a + b, m) == Seen(a, m) + Seen(b, m)
    decreases |b|
  {
    if b == [] {
      assert a + b == a;
    } else {
      var front := b[..|b| - 1];
      assert (a + b)[..|a + b| - 1] == a + front;
      SeenConcat(a, front, m);
    }
  }

  lemma {:induction false} SeenOne(e: Event, m: nat)
    ensures Seen([e], m) == if e.mirror == m then [e.stage] else []
  {
    assert [e][..0] == [];
  }

  lemma {:induction false} SeenCalls(job: Job, stage: Stage, chosen: nat -> bool, n: nat, m: nat)
    requires n <= |job.mirrors|
    ensures Seen(Calls(job, stage, chosen, n), m)
         == if m < n && chosen(m) && stage in job.mirrors[m].calls then [stage] else []
  {
    hide Seen, Announced;
    if n == 0 {
      assert Seen([], m) == [] by { SeenNothing(m); }
    } else {
      SeenCalls(job, stage, chosen, n - 1, m);
      var front, e := Calls(job, stage, chosen, n - 1), EventOf(job, n - 1, stage);
      if chosen(n - 1) && stage in job.mirrors[n - 1].calls {
        SeenConcat(front, [e], m);
        SeenOne(e, m);
      } else {
        assert front + [] == front;
      }
    }
  }

  lemma {:induction false} SeenNothing(m: nat)
    ensures Seen([], m) == []
  {
  }

  function Maybe(mirror: Mirror, stage: Stage): seq<Stage> { if stage in mirror.calls then [stage] else [] }

  /** The forward stages a mirror has callbacks for, in protocol order. */
  function Protocol(mirror: Mirror): seq<Stage> {
    Maybe(mirror, Prepare) + Maybe(mirror, Quiesce) + Maybe(mirror, Drain) + Maybe(mirror, Commit)
  }

  lemma {:induction false} SeenRounds(job: Job, x: Extent, m: nat)
    requires Reaches(job, x) && m < |job.mirrors|
    ensures Seen(Rounds(job, x), m)
         == (if m < x.prepared then Maybe(job.mirrors[m], Prepare) else [])
            + (if m < x.quiesced then Maybe(job.mirrors[m], Quiesce) else [])
            + (if m < x.drained then Maybe(job.mirrors[m], Drain) else [])
            + (if m < x.committed then Maybe(job.mirrors[m], Commit) else [])
  {
    var r1, r2, r3, r4 :=
      Round(job, Prepare, x.prepared), Round(job, Quiesce, x.quiesced), Round(job, Drain, x.drained),
          Round(job, Commit, x.committed);
    SeenConcat(r1 + r2 + r3, r4, m);
    SeenConcat(r1 + r2, r3, m);
    SeenConcat(r1, r2, m);
    SeenCalls(job, Prepare, _ => true, x.prepared, m);
    SeenCalls(job, Quiesce, _ => true, x.quiesced, m);
    SeenCalls(job, Drain, _ => true, x.drained, m);
    SeenCalls(job, Commit, _ => true, x.committed, m);
  }

  /** Every mirror sees a prefix of prepare, quiesce, drain, commit, whoever refuses and whenever time runs out. */
  lemma {:induction false} MirrorSeesPrefix(job: Job, env: Env, p: Progress, m: nat)
    requires p.log == [] && p.touched == {} && p.committed == {} && !p.timedOut && m < |job.mirrors|
    ensures
      var (q, ending) := Forward(job, env, p);
      var seen := Seen(q.log, m);
      && seen <= Protocol(job.mirrors[m])
      && (m in q.touched <==> seen != [])
      && (m in q.committed <==> Commit in seen && env.answers(m, Commit))
      && (ending.Completed? ==> seen == Protocol(job.mirrors[m]))
  {
    hide Forward, Round, Rounds;
    var x := ForwardDoes(job, env, p);
    SeenRounds(job, x, m);
  }

  /** Abort reaches exactly the mirrors that were called, did not commit and have an abort callback, once each. */
  lemma {:induction false} AbortReachesTouched(job: Job, env: Env, p: Progress, m: nat)
    requires p.log == [] && p.touched == {} && p.committed == {} && !p.timedOut && m < |job.mirrors|
    ensures
      var (q, _) := Forward(job, env, p);
      var seen := Seen(q.log, m);
      Seen(Aborted(job, q).log, m)
      == seen + if seen != [] && !(Commit in seen && env.answers(m, Commit)) then Maybe(job.mirrors[m], Abort) else []
  {
    hide Forward, Protocol;
    var (q, _) := Forward(job, env, p);
    MirrorSeesPrefix(job, env, p, m);
    var chosen := i => i in q.touched && i !in q.committed;
    SeenConcat(q.log, Calls(job, Abort, chosen, |job.mirrors|), m);
    SeenCalls(job, Abort, chosen, |job.mirrors|, m);
  }

  /** A loss announcement reaches every mirror that listens for it, after everything else. */
  lemma {:induction false} LossReachesAll(job: Job, p: Progress, m: nat)
    requires m < |job.mirrors|
    ensures Seen(LostPublished(job, p).log, m) == Seen(p.log, m) + Maybe(job.mirrors[m], PublishLost)
  {
    SeenConcat(p.log, Calls(job, PublishLost, _ => true, |job.mirrors|), m);
    SeenCalls(job, PublishLost, _ => true, |job.mirrors|, m);
  }

  // ---- When the stages go through ----

  predicate AllAgree(job: Job, env: Env, stage: Stage, i: nat) {
    forall j :: i <= j < |job.mirrors| && stage in job.mirrors[j].calls ==> env.answers(j, stage)
  }

  /** Clock reads from number `first` on, one for each of n mirrors, come before the deadline. */
  predicate InTime(job: Job, env: Env, first: nat, n: nat) {
    job.timed ==> forall k :: first <= k < first + n ==> env.clock(k) < job.deadline
  }

  function TicksAfter(job: Job, first: nat, n: nat): nat { if job.timed then first + n else first }

  /** A stage goes through exactly when every callback it makes agrees and no clock read reaches the deadline. */
  lemma {:induction false} StageCompletesIff(job: Job, env: Env, stage: Stage, p: Progress, i: nat)
    requires i <= |job.mirrors| && !p.timedOut
    ensures
      var (q, ok) := InvokeFrom(job, env, stage, p, i);
      && (ok <==> AllAgree(job, env, stage, i) && InTime(job, env, p.ticks, |job.mirrors| - i))
      && (ok ==> q.ticks == TicksAfter(job, p.ticks, |job.mirrors| - i) && !q.timedOut)
      && (!ok ==>
            if q.timedOut then q.ticks > p.ticks && job.timed && env.clock(q.ticks - 1) >= job.deadline
            else exists j :: i <= j < |job.mirrors| && stage in job.mirrors[j].calls && !env.answers(j, stage))
    decreases |job.mirrors| - i
  {
    if i < |job.mirrors| && !Expired(job, env, p) {
      var q := Ticked(job, p);
      if stage !in job.mirrors[i].calls {
        StageCompletesIff(job, env, stage, q, i + 1);
      } else if env.answers(i, stage) {
        var r := q.(touched := q.touched + {i}, log := q.log + [EventOf(job, i, stage)]);
        StageCompletesIff(job, env, stage, if stage.Commit? then r.(committed := r.committed + {i}) else r, i + 1);
      }
    }
  }

  /**
   * All four stages go through exactly when every prepare, quiesce, drain and commit callback agrees and each of the
   * four clock reads per mirror comes before the deadline; otherwise either a read did reach it, or some callback
   * refused.
   */
  lemma {:induction false} CompletesIff(job: Job, env: Env, p: Progress)
    requires !p.timedOut
    ensures
      var (q, ending) := Forward(job, env, p);
      && (ending.Completed? <==>
            && AllAgree(job, env, Prepare, 0) && AllAgree(job, env, Quiesce, 0) && AllAgree(job, env, Drain, 0)
            && AllAgree(job, env, Commit, 0) && InTime(job, env, p.ticks, 4 * |job.mirrors|))
      && (q.timedOut ==>
            !ending.Completed? && job.timed && exists k :: p.ticks <= k < q.ticks && env.clock(k) >= job.deadline)
      && (!ending.Completed? && !q.timedOut ==>
            exists j, stage :: 0 <= j < |job.mirrors| && stage in job.mirrors[j].calls && !env.answers(j, stage))
  {
    hide InvokeFrom, AllAgree, InTime;
    var n := |job.mirrors|;
    InTimeSplits(job, env, p.ticks, n);
    StageCompletesIff(job, env, Prepare, p, 0);
    var (p1, ok1) := InvokeFrom(job, env, Prepare, p, 0);
    if ok1 {
      StageCompletesIff(job, env, Quiesce, p1, 0);
      var (p2, ok2) := InvokeFrom(job, env, Quiesce, p1, 0);
      if ok2 {
        StageCompletesIff(job, env, Drain, p2, 0);
        var (p3, ok3) := InvokeFrom(job, env, Drain, p2, 0);
        if ok3 { StageCompletesIff(job, env, Commit, p3, 0); }
      }
    }
  }

  lemma {:induction false} InTimeSplits(job: Job, env: Env, first: nat, n: nat)
    ensures
      var t := TicksAfter(job, first, n);
      var u := TicksAfter(job, t, n);
      InTime(job, env, first, 4 * n) <==>
        && InTime(job, env, first, n) && InTime(job, env, t, n) && InTime(job, env, u, n)
        && InTime(job, env, TicksAfter(job, u, n), n)
  {
  }

  function StageRank(stage: Stage): nat {
    match stage case Prepare => 0 case Quiesce => 1 case Drain => 2 case Commit => 3 case _ => 4
  }

  /** How far a device has come on its way down and up again. */
  function Way(state: State): nat {
    match state
    case Present => 0 case Quiescing => 1 case Draining => 2 case Resetting => 3 case _ => 4
  }

  /**
   * What is announced follows the stages: each stage of an operation announces a state further on its way, but for a
   * removal's commit, which announces Absent again; only a commit announces Online, and nothing on the way Lost.
   */
  lemma {:induction false} AnnouncesProgress(operation: Operation, target: State, one: Stage, other: Stage)
    requires operation.Add? || operation.Reset? || operation.Recover? || operation.Remove?
    requires StageRank(one) < StageRank(other) <= 3
    ensures
      var first, second := Announced(operation, target, one), Announced(operation, target, other);
      && (Way(first) < Way(second) || (operation.Remove? && one == Drain && first == second == Absent))
      && first != Online && first != Lost && second != Lost
      && (other == Commit ==> second == if operation.Remove? then Absent else Online)
  {
  }
}
