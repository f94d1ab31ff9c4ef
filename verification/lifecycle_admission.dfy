// Which requests the lifecycle coordinator executes and how it answers the others, in the fields of the
// request, the authority and the configuration; and what a resolution says about the run so far.
module LifecycleAdmission {
  import opened LifecycleCore
  import opened LifecycleStages
  import opened LifecycleRuns

  // ---- One call ----

  ghost predicate Unheard(core: Core, r: Request) {
    forall k :: 0 <= k < |core.records| ==> core.records[k].request.id != r.id
  }

  /** Clock read number n comes at or after the deadline. */
  predicate Late(c: Config, r: Request, env: Env, n: nat) {
    r.deadline > 0 && c.hasClock && env.clock(n) >= r.deadline
  }

  /** The request expects exactly the authority there is. */
  predicate Expects(c: Config, core: Core, r: Request) {
    r.incarnation == c.incarnation && r.epoch == core.epoch && r.identity == core.identity
    && r.generation == core.generation
  }

  predicate WellFormed(c: Config, r: Request) {
    r.id > 0 && r.device == c.device && r.source != UnknownSource && r.operation != UnknownOperation
  }

  /** The request has not been heard, there is room for its record, it is in time, expected and well formed. */
  ghost predicate Admissible(c: Config, core: Core, r: Request, env: Env) {
    && Unheard(core, r) && |core.records| < REQUEST_CAPACITY && !Late(c, r, env, 0) && Expects(c, core, r)
    && WellFormed(c, r) && !Late(c, r, env, 1)
  }

  lemma {:induction false} AdmissibleExecutes(c: Config, core: Core, r: Request, env: Env)
    ensures Admissible(c, core, r, env) <==> Executes(c, core, r, env)
  {
  }

  /**
   * A call has an effect, on the authority, its records or a mirror, only if the request is admissible, and it is
   * recorded exactly then.  Every other call is answered by the first thing that is wrong with it.
   */
  lemma {:induction false} AnswerIsExact(c: Config, core: Core, mirrors: seq<Mirror>, r: Request, env: Env)
    requires CoreInv(c, core)
    ensures
      var reply := Apply(c, core, mirrors, r, env);
      && (reply.core.records != core.records <==> Admissible(c, core, r, env))
      && (reply.core != core || reply.log != [] ==> Admissible(c, core, r, env))
      && (Admissible(c, core, r, env) ==>
            reply.core.records == core.records + [Record(r, reply.result, reply.candidate)])
    ensures
      var reply := Apply(c, core, mirrors, r, env);
      && (reply.result == Conflict <==>
            exists k :: 0 <= k < |core.records| && core.records[k].request.id == r.id && core.records[k].request != r)
      && (reply.result == Duplicate <==> exists k :: 0 <= k < |core.records| && core.records[k].request == r)
      && (forall k :: 0 <= k < |core.records| && core.records[k].request == r ==>
            reply.candidate == core.records[k].candidate)
      && (reply.result == Stale <==>
            Unheard(core, r) && |core.records| < REQUEST_CAPACITY && !Late(c, r, env, 0) && !Expects(c, core, r))
    ensures
      var result := Apply(c, core, mirrors, r, env).result;
      Unheard(core, r) && !Admissible(c, core, r, env) ==>
        && (result == ResourceExhausted <==> |core.records| == REQUEST_CAPACITY)
        && (result == Timeout <==> |core.records| < REQUEST_CAPACITY && Late(c, r, env, 0))
        && (result == Invalid <==>
              |core.records| < REQUEST_CAPACITY && !Late(c, r, env, 0) && Expects(c, core, r))
  {
    hide Execute, TombstonesInv, Admissible;
    AdmissibleExecutes(c, core, r, env);
    ApplyCases(c, core, mirrors, r, env);
    if Executes(c, core, r, env) {
      ExecutedResult(c, core, mirrors, r, env);
      ExecuteKeepsRecords(c, core, mirrors, r, env);
    }
    HeardAnswer(c, core, mirrors, r, env);
    if Unheard(core, r) && !Executes(c, core, r, env) { UnheardAnswer(c, core, mirrors, r, env); }
    hide Apply, Executes;
  }

  lemma {:induction false} ExecutedResult(c: Config, core: Core, mirrors: seq<Mirror>, r: Request, env: Env)
    ensures
      var result := Execute(c, core, mirrors, r, env).result;
      result != Conflict && result != Duplicate && result != Stale
  {
    hide Forward, Aborted, LostPublished;
  }

  lemma {:induction false} ExecuteKeepsRecords(c: Config, core: Core, mirrors: seq<Mirror>, r: Request, env: Env)
    ensures Execute(c, core, mirrors, r, env).core.records == core.records
  {
    hide Forward, Aborted, LostPublished;
  }

  lemma {:induction false} HeardAnswer(c: Config, core: Core, mirrors: seq<Mirror>, r: Request, env: Env)
    requires RecordsInv(core.records)
    ensures
      var reply := Apply(c, core, mirrors, r, env);
      forall k :: 0 <= k < |core.records| && core.records[k].request.id == r.id ==>
        if core.records[k].request == r then reply.result == Duplicate && reply.candidate == core.records[k].candidate
        else reply.result == Conflict
  {
    hide Execute;
  }

  lemma {:induction false} UnheardAnswer(c: Config, core: Core, mirrors: seq<Mirror>, r: Request, env: Env)
    requires Unheard(core, r) && !Executes(c, core, r, env) && |core.records| <= REQUEST_CAPACITY
    ensures Apply(c, core, mirrors, r, env).result
         == if |core.records| == REQUEST_CAPACITY then ResourceExhausted
            else if Late(c, r, env, 0) then Timeout
            else if Expects(c, core, r) then Invalid else Stale
  {
    hide Execute;
  }

  // ---- One executed operation ----

  /** An executed operation that has no effect says why. */
  lemma {:induction false} RefusalReasons(c: Config, core: Core, mirrors: seq<Mirror>, r: Request, env: Env)
    requires CoreInv(c, core) && !r.operation.UnknownOperation? && RefusedAtOnce(c, core, r)
    ensures
      var tombs := |core.tombstones| < TOMBSTONE_CAPACITY;
      Execute(c, core, mirrors, r, env).result == match r.operation
        case Add => if core.state != Absent then Invalid else ResourceExhausted
        case Remove =>
          if (core.state == Online || core.state == Lost) && tombs then ResourceExhausted
          else if core.state == Lost then DeviceLost else Invalid
        case TransportLoss => if core.state == Lost then DeviceLost else Invalid
        case Reset =>
          if core.state == Online && tombs then ResourceExhausted
          else if core.state == Lost then DeviceLost else Invalid
        case _ => if core.state != Lost then Invalid else if tombs then ResourceExhausted else DeviceLost
  {
    hide Forward, Aborted, LostPublished, TombstonesInv, RecordsInv;
  }

  /** An operation is refused at once exactly when the live state does not admit it or a capacity is used up. */
  lemma {:induction false} RefusedAtOnceIff(c: Config, core: Core, mirrors: seq<Mirror>, r: Request, env: Env)
    requires CoreInv(c, core) && !r.operation.UnknownOperation?
    ensures
      var result := Execute(c, core, mirrors, r, env).result;
      var candidates := core.generationHigh + 1 < c.generationTerminal && core.identityHigh + 1 < c.identityTerminal;
      var room := core.epoch + 1 < c.epochTerminal && |core.tombstones| < TOMBSTONE_CAPACITY;
      var admitted := match r.operation
        case Add => core.state == Absent && candidates
        case Remove => (core.state == Online || core.state == Lost) && room
        case TransportLoss => core.state != Absent && core.state != Lost
        case Reset => core.state == Online && room && candidates
        case _ => core.state == Lost && room && candidates;
      result == Accepted || result == Timeout || result == CallbackRejected <==> admitted
  {
    hide Forward, Aborted, LostPublished, TombstonesInv, RecordsInv;
  }

  lemma {:induction false} CallsAnnounce(job: Job, stage: Stage, chosen: nat -> bool, n: nat, e: Event)
    requires n <= |job.mirrors| && e in Calls(job, stage, chosen, n)
    ensures e == EventOf(job, e.mirror, stage)
  {
    hide Announced;
    if n > 0 && e in Calls(job, stage, chosen, n - 1) { CallsAnnounce(job, stage, chosen, n - 1, e); }
  }

  lemma {:induction false} RoundsAnnounce(job: Job, x: Extent, e: Event)
    requires Reaches(job, x) && e in Rounds(job, x)
    ensures e == EventOf(job, e.mirror, e.stage)
  {
    hide Announced, Calls;
    if e in Round(job, Prepare, x.prepared) { CallsAnnounce(job, Prepare, _ => true, x.prepared, e); }
    if e in Round(job, Quiesce, x.quiesced) { CallsAnnounce(job, Quiesce, _ => true, x.quiesced, e); }
    if e in Round(job, Drain, x.drained) { CallsAnnounce(job, Drain, _ => true, x.drained, e); }
    if e in Round(job, Commit, x.committed) { CallsAnnounce(job, Commit, _ => true, x.committed, e); }
  }

  /** The state a commit callback announces is the one the authority has when the operation is accepted. */
  lemma {:induction false} CommitAnnouncesOutcome(c: Config, core: Core, mirrors: seq<Mirror>, r: Request, env: Env,
                                                  e: Event)
    requires CoreInv(c, core) && Admissible(c, core, r, env)
    requires
      var reply := Apply(c, core, mirrors, r, env);
      e in reply.log && e.stage == Commit && reply.result == Accepted
    ensures e.announced == Apply(c, core, mirrors, r, env).core.state
  {
    hide Forward, Admissible, Apply, Execute, TombstonesInv, RecordsInv, Rounds, Calls;
    AdmissibleExecutes(c, core, r, env);
    ApplyCases(c, core, mirrors, r, env);
    AllOrLost(c, core, mirrors, r, env);
    var job := JobOf(c, mirrors, r, TargetOf(r.operation));
    if r.operation.TransportLoss? {
      CallsAnnounce(job, PublishLost, _ => true, |mirrors|, e);
    } else {
      var x := ForwardDoes(job, env, Begun(c, r));
      RoundsAnnounce(job, x, e);
    }
  }

  // ---- Resolutions over runs ----

  /** The generation was the live one at some time up to j. */
  ghost predicate WasLive(run: seq<Core>, j: nat, g: nat)
    requires j < |run|
  {
    exists i :: 0 <= i <= j && run[i].generation == g
  }

  predicate Entombed(core: Core, g: nat) {
    exists k :: 0 <= k < |core.tombstones| && core.tombstones[k].generation == g
  }

  /** A change buries the live generation exactly when it replaces it, and buries nothing else. */
  lemma {:induction false} ChangeBuries(c: Config, core: Core, change: Change, g: nat)
    requires CoreInv(c, core) && Admits(c, core, change) && g > 0
    ensures
      var after := Changed(core, change);
      Entombed(after, g) <==> Entombed(core, g) || (core.generation == g && after.generation != g)
  {
    hide RecordsInv;
    var after := Changed(core, change);
    if change.Retire? || change.Replace? {
      var n := |core.tombstones|;
      assert after.tombstones[n].generation == core.generation;
      assert forall k :: 0 <= k < n ==> after.tombstones[k] == core.tombstones[k];
    }
  }

  lemma {:induction false} TombstonesAreHistory(c: Config, calls: seq<Call>, j: nat, g: nat)
    requires ValidConfig(c) && j <= |calls| && g > 0
    ensures
      var run := Run(c, InitialCore(c), calls);
      Entombed(run[j], g) <==> WasLive(run, j, g) && run[j].generation != g
    decreases j
  {
    hide Apply, ChangeBy, Changed, CoreInv, Admits;
    if j > 0 {
      var run := Run(c, InitialCore(c), calls);
      var core, call := run[j - 1], calls[j - 1];
      TombstonesAreHistory(c, calls, j - 1, g);
      RunKeepsInv(c, calls, j - 1);
      RunKeepsInv(c, calls, j);
      RunNext(c, InitialCore(c), calls, j - 1);
      var change := ChangeBy(c, core, call.mirrors, call.request, call.env);
      ApplyIsChange(c, core, call.mirrors, call.request, call.env);
      ChangeBuries(c, core, change, g);
      assert run[j].(records := core.records) == Changed(core, change);
      LiveIsNotEntombed(c, run[j], g);
      assert WasLive(run, j, g) <==> WasLive(run, j - 1, g) || run[j].generation == g;
    }
  }

  lemma {:induction false} LiveIsNotEntombed(c: Config, core: Core, g: nat)
    requires CoreInv(c, core) && g > 0
    ensures Entombed(core, g) ==> core.generation != g
  {
    hide RecordsInv;
  }

  /**
   * Over every run a generation resolves to Online exactly while it is the live one and online, to DeviceLost
   * exactly when it was live at some time and is not online now, and to Unknown exactly when it never was live.
   */
  lemma {:induction false} ResolutionIsHistory(c: Config, calls: seq<Call>, j: nat, g: nat)
    requires ValidConfig(c) && j <= |calls|
    ensures
      var run := Run(c, InitialCore(c), calls);
      var now := g > 0 && run[j].generation == g && run[j].state == Online;
      && (Resolve(run[j], g) == IsAbsent <==> g == 0)
      && (Resolve(run[j], g) == IsOnline <==> now)
      && (Resolve(run[j], g) == IsLost <==> g > 0 && WasLive(run, j, g) && !now)
      && (Resolve(run[j], g) == IsUnknown <==> g > 0 && !WasLive(run, j, g))
  {
    hide Run, Apply;
    if g > 0 { TombstonesAreHistory(c, calls, j, g); }
  }

  /** Once a generation has been retired, no request that names it has any effect, in any continuation of the run. */
  lemma {:induction false} RetiredNeverExecutes(c: Config, calls: seq<Call>, i: nat, j: nat)
    requires ValidConfig(c) && i <= j < |calls|
    requires
      var run := Run(c, InitialCore(c), calls);
      var g := calls[j].request.generation;
      g > 0 && WasLive(run, i, g) && run[i].generation != g
    ensures
      var run := Run(c, InitialCore(c), calls);
      Answer(c, run[j], calls[j]).core == run[j] && Answer(c, run[j], calls[j]).log == []
  {
    hide Apply, CoreInv, Resolve;
    var run := Run(c, InitialCore(c), calls);
    var g := calls[j].request.generation;
    StaysRetired(c, calls, i, j, g);
    RunKeepsInv(c, calls, j);
    AnswerIsExact(c, run[j], calls[j].mirrors, calls[j].request, calls[j].env);
  }

  /** A retired generation is never installed again. */
  lemma {:induction false} StaysRetired(c: Config, calls: seq<Call>, i: nat, j: nat, g: nat)
    requires ValidConfig(c) && i <= j <= |calls| && g > 0
    requires
      var run := Run(c, InitialCore(c), calls);
      WasLive(run, i, g) && run[i].generation != g
    ensures Run(c, InitialCore(c), calls)[j].generation != g
    decreases j - i
  {
    hide Apply, ChangeBy, Changed, CoreInv, Admits;
    var run := Run(c, InitialCore(c), calls);
    if i < j {
      StaysRetired(c, calls, i, j - 1, g);
      assert WasLive(run, j - 1, g);
      TombstonesAreHistory(c, calls, j - 1, g);
      RunKeepsInv(c, calls, j - 1);
      RunKeepsInv(c, calls, j);
      RunNext(c, InitialCore(c), calls, j - 1);
      var core, call := run[j - 1], calls[j - 1];
      ApplyIsChange(c, core, call.mirrors, call.request, call.env);
      var change := ChangeBy(c, core, call.mirrors, call.request, call.env);
      ChangeBuries(c, core, change, g);
      assert run[j].(records := core.records) == Changed(core, change);
      LiveIsNotEntombed(c, run[j], g);
    }
  }
}
