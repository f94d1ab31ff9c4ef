// The mutable lifecycle coordinator: the loops and in-place updates of runtime/core/src/lifecycle.cpp,
// each proved against the functions of LifecycleCore.
module LifecycleCoordinator {
  import opened LifecycleCore
  import A = LifecycleAdmission
  import R = LifecycleRuns

  /** One stage over the mirrors. */
  method Invoke(job: Job, env: Env, stage: Stage, p: Progress) returns (q: Progress, ok: bool)
    ensures (q, ok) == InvokeFrom(job, env, stage, p, 0)
  {
    q, ok := p, true;
    for i := 0 to |job.mirrors|
      invariant ok && InvokeFrom(job, env, stage, q, i) == InvokeFrom(job, env, stage, p, 0)
    {
      if job.timed {
        var now := env.clock(q.ticks);
        q := q.(ticks := q.ticks + 1);
        if now >= job.deadline {
          q := q.(timedOut := true);
          return q, false;
        }
      }
      if stage in job.mirrors[i].calls {
        q := q.(touched := q.touched + {i}, log := q.log + [EventOf(job, i, stage)]);
        if !env.answers(i, stage) { return q, false; }
        if stage == Commit { q := q.(committed := q.committed + {i}); }
      }
    }
  }

  method AbortTouched(job: Job, p: Progress) returns (q: Progress)
    ensures q == Aborted(job, p)
  {
    q := p;
    ghost var chosen := i => i in p.touched && i !in p.committed;
    assert p.log + [] == p.log;
    for i := 0 to |job.mirrors|
      invariant q == p.(log := p.log + Calls(job, Abort, chosen, i))
    {
      if i in q.touched && i !in q.committed && Abort in job.mirrors[i].calls {
        q := q.(log := q.log + [EventOf(job, i, Abort)]);
      }
    }
  }

  method AnnounceLoss(job: Job, p: Progress) returns (q: Progress)
    ensures q == LostPublished(job, p)
  {
    q := p;
    assert p.log + [] == p.log;
    for i := 0 to |job.mirrors|
      invariant q == p.(log := p.log + Calls(job, PublishLost, _ => true, i))
    {
      if PublishLost in job.mirrors[i].calls {
        q := q.(log := q.log + [EventOf(job, i, PublishLost)]);
      }
    }
  }

  /** The four stages in order, stopping at the first that fails. */
  method RunStages(job: Job, env: Env, p: Progress) returns (q: Progress, ending: Ending)
    ensures (q, ending) == Forward(job, env, p)
  {
    hide InvokeFrom;
    var ok: bool;
    q, ok := Invoke(job, env, Prepare, p);
    if ok { q, ok := Invoke(job, env, Quiesce, q); } else { return q, Stopped; }
    if ok { q, ok := Invoke(job, env, Drain, q); } else { return q, Stopped; }
    if ok { q, ok := Invoke(job, env, Commit, q); } else { return q, Stopped; }
    ending := if ok then Completed else EndingOf(q);
  }

  class Coordinator {
    const config: Config
    const valid: bool
    var state: State
    var identity: nat
    var generation: nat
    var epoch: nat
    var identityHigh: nat
    var generationHigh: nat
    var tombstones: seq<Tombstone>
    var records: seq<Record>
    var mirrors: seq<Mirror>
    /** Callbacks made so far, standing for the mirrors' own state. */
    var delivered: seq<Event>

    function Value(): Core
      reads this
    {
      Core(state, identity, generation, epoch, identityHigh, generationHigh, tombstones, records)
    }

    /** A validly configured coordinator satisfies the authority's invariant. */
    ghost predicate Valid()
      reads this
    {
      valid ==> R.CoreInv(config, Value())
    }

    constructor (c: Config)
      ensures config == c && Value() == InitialCore(c) && mirrors == [] && delivered == []
      ensures (valid <==> ValidConfig(c)) && Valid()
    {
      config := c;
      state, identity, generation, epoch := c.state, c.identity, c.generation, c.epoch;
      identityHigh, generationHigh := c.identity, c.generation;
      tombstones, records, mirrors, delivered := [], [], [], [];
      valid := ValidConfig(c);
      new;
      if valid { R.InitialCoreInv(c); }
    }

    predicate KindTaken(kind: Kind)
      reads this
    {
      exists i :: 0 <= i < |mirrors| && mirrors[i].kind == kind
    }

    method RegisterMirror(mirror: Mirror) returns (ok: bool)
      modifies this`mirrors
      ensures ok <==>
        valid && |old(mirrors)| < MAX_MIRRORS && !mirror.kind.UnknownMirror? && mirror.name != ""
        && !old(KindTaken(mirror.kind))
      ensures mirrors == old(mirrors) + if ok then [mirror] else []
    {
      if !valid || |mirrors| >= MAX_MIRRORS || mirror.kind == UnknownMirror || mirror.name == "" { return false; }
      for i := 0 to |mirrors|
        invariant forall j :: 0 <= j < i ==> mirrors[j].kind != mirror.kind
      {
        if mirrors[i].kind == mirror.kind { return false; }
      }
      mirrors := mirrors + [mirror];
      ok := true;
    }

    method FindRequest(id: nat) returns (k: nat)
      ensures k == FindFrom(records, id, 0)
    {
      k := 0;
      while k < |records| && records[k].request.id != id
        invariant k <= |records| && FindFrom(records, id, k) == FindFrom(records, id, 0)
      {
        k := k + 1;
      }
    }

    method ReserveCandidate() returns (ok: bool, candidate: Candidate)
      modifies this`generationHigh, this`identityHigh
      ensures ok <==> old(CanReserve(config, Value()))
      ensures Value() == if ok then Reserved(old(Value())) else old(Value())
      ensures candidate == if ok then NextCandidate(old(Value())) else NO_CANDIDATE
      ensures old(Valid()) ==> Valid()
      ensures old(Valid()) && valid && ok ==>
        && Resolve(old(Value()), candidate.generation) == IsUnknown && candidate.generation < config.generationTerminal
        && candidate.identity < config.identityTerminal
    {
      if generationHigh + 1 >= config.generationTerminal || identityHigh + 1 >= config.identityTerminal {
        return false, NO_CANDIDATE;
      }
      generationHigh, identityHigh := generationHigh + 1, identityHigh + 1;
      return true, Candidate(generationHigh, identityHigh);
    }

    /** A full table drops the tombstone; callers check for room first. */
    method AppendTombstone(next: nat)
      modifies this`tombstones
      ensures tombstones == old(tombstones) + if |old(tombstones)| < TOMBSTONE_CAPACITY
          then [Tombstone(generation, identity, next)] else []
    {
      if |tombstones| >= TOMBSTONE_CAPACITY { return; }
      tombstones := tombstones + [Tombstone(generation, identity, next)];
    }

    /** Retire the live generation and install another, or none. */
    method RetireAndInstall(candidate: Candidate, next: State)
      requires |tombstones| < TOMBSTONE_CAPACITY
      modifies this`state, this`identity, this`generation, this`epoch, this`tombstones
      ensures Value() == Installed(Retired(old(Value())), candidate, next)
    {
      AppendTombstone(epoch + 1);
      epoch, generation, identity, state := epoch + 1, candidate.generation, candidate.identity, next;
    }

    method ApplyAdd(r: Request, env: Env) returns (result: Result, candidate: Candidate)
      modifies this`state, this`identity, this`generation, this`identityHigh, this`generationHigh, this`delivered
      ensures
        var reply := LifecycleCore.ApplyAdd(config, old(Value()), mirrors, r, env);
        Value() == reply.core && result == reply.result && candidate == reply.candidate
            && delivered == old(delivered) + reply.log
    {
      hide Forward, Aborted, LostPublished;
      assert delivered + [] == delivered;
      candidate := NO_CANDIDATE;
      if state != Absent || generation != 0 || identity != 0 { return Invalid, candidate; }
      var reserved: bool;
      reserved, candidate := ReserveCandidate();
      if !reserved { return ResourceExhausted, candidate; }
      var job := JobOf(config, mirrors, r, Online);
      var p, ending := RunStages(job, env, Begun(config, r));
      if ending == Completed {
        generation, identity, state := candidate.generation, candidate.identity, Online;
        result := Accepted;
      } else {
        result := Refusal(p);
        p := AbortTouched(job, p);
        if ending == Torn {
          generation, identity, state := candidate.generation, candidate.identity, Lost;
          p := AnnounceLoss(job, p);
        }
      }
      delivered := delivered + p.log;
    }

    method ApplyRemove(r: Request, env: Env) returns (result: Result)
      modifies this`state, this`identity, this`generation, this`epoch, this`tombstones, this`delivered
      ensures
        var reply := LifecycleCore.ApplyRemove(config, old(Value()), mirrors, r, env);
        Value() == reply.core && result == reply.result && reply.candidate == NO_CANDIDATE
            && delivered == old(delivered) + reply.log
    {
      hide Forward, Aborted, LostPublished, Retired, Installed;
      assert delivered + [] == delivered;
      if (state != Online && state != Lost) || generation == 0 || |tombstones| >= TOMBSTONE_CAPACITY {
        return if state == Lost then DeviceLost else Invalid;
      }
      if epoch + 1 >= config.epochTerminal { return ResourceExhausted; }
      var job := JobOf(config, mirrors, r, Absent);
      var p, ending := RunStages(job, env, Begun(config, r));
      if ending == Completed {
        result := Accepted;
      } else {
        result := Refusal(p);
        p := AbortTouched(job, p);
        p := AnnounceLoss(job, p);
      }
      RetireAndInstall(NO_CANDIDATE, Absent);
      delivered := delivered + p.log;
    }

    method ApplyResetOrRecover(r: Request, env: Env) returns (result: Result, candidate: Candidate)
      modifies this`state, this`identity, this`generation, this`epoch, this`tombstones, this`identityHigh,
          this`generationHigh,
               this`delivered
      ensures
        var reply := ApplyReplace(config, old(Value()), mirrors, r, env);
        Value() == reply.core && result == reply.result && candidate == reply.candidate
            && delivered == old(delivered) + reply.log
    {
      hide Forward, Aborted, LostPublished, Retired, Installed;
      assert delivered + [] == delivered;
      candidate := NO_CANDIDATE;
      var allowed := if r.operation == Recover then state == Lost else state == Online;
      if !allowed || generation == 0 || |tombstones| >= TOMBSTONE_CAPACITY {
        return if state == Lost then DeviceLost else Invalid, candidate;
      }
      if epoch + 1 >= config.epochTerminal { return ResourceExhausted, candidate; }
      var reserved: bool;
      reserved, candidate := ReserveCandidate();
      if !reserved { return ResourceExhausted, candidate; }
      var job := JobOf(config, mirrors, r, Online);
      var p, ending := RunStages(job, env, Begun(config, r));
      if ending == Completed {
        RetireAndInstall(candidate, Online);
        result := Accepted;
      } else {
        result := Refusal(p);
        p := AbortTouched(job, p);
        if ending == Torn {
          RetireAndInstall(candidate, Lost);
          p := AnnounceLoss(job, p);
        }
      }
      delivered := delivered + p.log;
    }

    method ApplyTransportLoss(r: Request) returns (result: Result)
      modifies this`state, this`delivered
      ensures
        var reply := LifecycleCore.ApplyTransportLoss(config, old(Value()), mirrors, r);
        Value() == reply.core && result == reply.result && reply.candidate == NO_CANDIDATE
            && delivered == old(delivered) + reply.log
    {
      assert delivered + [] == delivered;
      if state == Absent || generation == 0 { return Invalid; }
      if state == Lost { return DeviceLost; }
      state := Lost;
      var p := AnnounceLoss(JobOf(config, mirrors, r, Lost), FRESH);
      delivered := delivered + p.log;
      result := Accepted;
    }

    /** One request from admission to its record. */
    method Apply(r: Request, env: Env) returns (result: Result, candidate: Candidate)
      modifies this`state, this`identity, this`generation, this`epoch, this`tombstones, this`identityHigh,
          this`generationHigh,
               this`records, this`delivered
      ensures
        if valid then
          var reply := LifecycleCore.Apply(config, old(Value()), mirrors, r, env);
          Value() == reply.core && result == reply.result && candidate == reply.candidate
              && delivered == old(delivered) + reply.log
        else result == Invalid && candidate == NO_CANDIDATE && Value() == old(Value()) && delivered == old(delivered)
      ensures old(Valid()) ==> Valid()
      ensures old(Valid()) && valid ==>
        && (records != old(records) <==> A.Admissible(config, old(Value()), r, env))
        && (Value() != old(Value()) || delivered != old(delivered) ==> A.Admissible(config, old(Value()), r, env))
        && (result == Stale <==>
              && A.Unheard(old(Value()), r) && |old(records)| < REQUEST_CAPACITY && !A.Late(config, r, env, 0)
              && !A.Expects(config, old(Value()), r))
    {
      hide LifecycleCore.ApplyAdd, LifecycleCore.ApplyRemove, ApplyReplace, LifecycleCore.ApplyTransportLoss, R.CoreInv;
      if Valid() && valid {
        R.ApplyKeepsInv(config, Value(), mirrors, r, env);
        A.AnswerIsExact(config, Value(), mirrors, r, env);
      }
      assert delivered + [] == delivered;
      candidate := NO_CANDIDATE;
      if !valid { return Invalid, candidate; }
      var k := FindRequest(r.id);
      if k < |records| {
        if records[k].request != r { return Conflict, candidate; }
        return Duplicate, records[k].candidate;
      }
      if |records| >= REQUEST_CAPACITY { return ResourceExhausted, candidate; }
      if !OnTime(config, r, env) { return Timeout, candidate; }
      if !ValidRequest(config, Value(), r, env) {
        return if r.incarnation != config.incarnation || !MatchesCore(Value(), r) then Stale else Invalid, candidate;
      }
      if r.operation == Add {
        result, candidate := ApplyAdd(r, env);
      } else if r.operation == Remove {
        result := ApplyRemove(r, env);
      } else if r.operation == TransportLoss {
        result := ApplyTransportLoss(r);
      } else {
        result, candidate := ApplyResetOrRecover(r, env);
      }
      records := records + [Record(r, result, candidate)];
    }

    method ResolveGeneration(g: nat) returns (answer: Resolution)
      ensures answer == Resolve(Value(), g)
    {
      if g == 0 { return IsAbsent; }
      if g == generation { return if state == Online then IsOnline else IsLost; }
      for i := 0 to |tombstones|
        invariant forall j :: 0 <= j < i ==> tombstones[j].generation != g
      {
        if tombstones[i].generation == g { return IsLost; }
      }
      answer := IsUnknown;
    }
  }
}
