// A block of threads running one Kernel IR kernel, and what acceptance by the verifier guarantees about it.
//
// Threads interleave in any order.  A computed value is arbitrary within its kind (`bits` comes with
// the schedule), a branch follows the value of its predicate register, and a barrier lets the block go
// on when every thread of the block waits.
module KernelSemantics {
  import opened KernelIr

  datatype Value = Value(kind: Kind, bits: nat)

  datatype Status = Running | Waiting | Halted

  /** `steps` counts executed operations, `passed` lists the barriers left behind. */
  datatype Thread = Thread(pc: nat, status: Status, registers: map<nat, Value>, steps: nat, passed: seq<nat>)

  const START := Thread(0, Running, map[], 0, [])

  datatype Block = Block(threads: seq<Thread>)

  /** The branch condition; a register without a value reads as false. */
  predicate Taken(op: Operation, t: Thread) {
    (op.inputs.first in t.registers && t.registers[op.inputs.first].bits != 0) != op.flag
  }

  /** One operation of one running thread. */
  function Execute(k: Kernel, t: Thread, bits: nat): Thread
    requires t.pc < |k.operations|
  {
    var op := k.operations[t.pc];
    var contract := ContractOf(op.opcode);
    match op.opcode
    case Return => t.(status := Halted, steps := t.steps + 1)
    case BarrierSync => t.(status := Waiting, steps := t.steps + 1)
    case BranchIf => t.(pc := if Taken(op, t) then op.attribute else t.pc + 1, steps := t.steps + 1)
    case _ =>
      var after := if contract.hasResult then t.registers[op.result := Value(contract.result, bits)] else t.registers;
      t.(pc := t.pc + 1, registers := after, steps := t.steps + 1)
  }

  function Released(t: Thread): Thread { t.(pc := t.pc + 1, status := Running, passed := t.passed + [t.pc]) }

  datatype Move = Step(thread: nat, bits: nat) | Release

  predicate AllWait(b: Block) { forall i :: 0 <= i < |b.threads| ==> b.threads[i].status.Waiting? }

  predicate Enabled(k: Kernel, b: Block, move: Move) {
    match move
    case Step(i, _) => i < |b.threads| && b.threads[i].status.Running? && b.threads[i].pc < |k.operations|
    case Release => |b.threads| > 0 && AllWait(b)
  }

  function Apply(k: Kernel, b: Block, move: Move): (r: Block)
    requires Enabled(k, b, move)
    ensures |r.threads| == |b.threads|
  {
    match move
    case Step(i, bits) => Block(b.threads[i := Execute(k, b.threads[i], bits)])
    case Release => Block(seq(|b.threads|, i requires 0 <= i < |b.threads| => Released(b.threads[i])))
  }

  function Initial(threads: nat): Block { Block(seq(threads, _ => START)) }

  /** The block reached by a schedule; moves that are not enabled are skipped. */
  function Run(k: Kernel, b: Block, schedule: seq<Move>): (r: Block)
    ensures |r.threads| == |b.threads|
    decreases |schedule|
  {
    if schedule == [] then b
    else Run(k, if Enabled(k, b, schedule[0]) then Apply(k, b, schedule[0]) else b, schedule[1..])
  }

  // ---- What every thread satisfies ----

  /** The barriers among the first n operations. */
  function Barriers(k: Kernel, n: nat): seq<nat>
    requires n <= |k.operations|
  {
    if n == 0 then []
    else Barriers(k, n - 1) + if k.operations[n - 1].opcode.BarrierSync? then [n - 1] else []
  }

  /** Values sit in registers of their own kind. */
  ghost predicate Typed(k: Kernel, t: Thread) {
    forall r :: r in t.registers ==> r < |k.registers| && t.registers[r].kind == k.registers[r].kind
  }

  /** The thread has executed exactly the operations before its pc, or has branched to the final return. */
  ghost predicate ThreadInv(k: Kernel, t: Thread) {
    && t.pc < |k.operations| && Typed(k, t)
    && t.steps <= t.pc + (if t.status.Running? then 0 else 1)
    && (t.status.Halted? ==> t.pc == |k.operations| - 1)
    && (t.status.Waiting? ==> k.operations[t.pc].opcode.BarrierSync?)
    && (t.passed == Barriers(k, t.pc))
    && (|| (forall r :: r in t.registers <==> DefinedBefore(k, t.pc, r))
        || t.pc == |k.operations| - 1)
  }

  lemma {:induction false} NoBarriers(k: Kernel, n: nat)
    requires n <= |k.operations| && !HasOpcode(k, BarrierSync)
    ensures Barriers(k, n) == []
  {
    if n > 0 { NoBarriers(k, n - 1); }
  }

  lemma {:induction false} OperationAt(k: Kernel, i: nat)
    requires WellFormed(k) && i < |k.operations|
    ensures OperationOk(k, i)
    ensures k.operations[i].opcode.Return? <==> i == |k.operations| - 1
    ensures k.operations[i].opcode.BranchIf? ==>
      !HasOpcode(k, BarrierSync) && k.operations[i].attribute == |k.operations| - 1
  {
    hide ResultOk, InputsOk, GuardOk;
    assert OperationOk(k, i);
    if k.operations[i].opcode.BranchIf? {
      assert HasOpcode(k, BranchIf);
      assert OperationOk(k, k.operations[i].attribute);
    }
  }

  lemma {:induction false} WriteKeepsTyped(k: Kernel, t: Thread, bits: nat)
    requires WellFormed(k) && ThreadInv(k, t) && ContractOf(k.operations[t.pc].opcode).hasResult
    ensures
      var op := k.operations[t.pc];
      Typed(k, t.(registers := t.registers[op.result := Value(ContractOf(op.opcode).result, bits)]))
  {
    OperationAt(k, t.pc);
    assert ResultOk(k, t.pc);
  }

  lemma {:induction false} DefinedNext(k: Kernel, n: nat, r: nat)
    requires n < |k.operations|
    ensures DefinedBefore(k, n + 1, r) <==> DefinedBefore(k, n, r) || Defines(k, n, r)
  {
    if DefinedBefore(k, n, r) {
      var j :| 0 <= j < n && Defines(k, j, r);
      assert 0 <= j < n + 1;
    } else if Defines(k, n, r) {
      assert 0 <= n < n + 1;
    }
  }

  /** Return, barriers and branches define nothing; return and barriers read nothing. */
  lemma {:induction false} ControlContracts()
    ensures ContractOf(Return) == ContractOf(BarrierSync) == Contract(false, U32, [])
    ensures !ContractOf(BranchIf).hasResult && |ContractOf(BranchIf).inputs| == 1
  {
  }

  lemma {:induction false} ExecuteKeeps(k: Kernel, t: Thread, bits: nat)
    requires WellFormed(k) && ThreadInv(k, t) && t.status.Running?
    ensures ThreadInv(k, Execute(k, t, bits)) && Execute(k, t, bits).passed == t.passed
  {
    hide WellFormed, OperationOk, DefinedBefore, ContractOf;
    ControlContracts();
    OperationAt(k, t.pc);
    var op, after := k.operations[t.pc], Execute(k, t, bits);
    if op.opcode.BranchIf? {
      NoBarriers(k, t.pc);
      NoBarriers(k, after.pc);
    }
    if ContractOf(op.opcode).hasResult { WriteKeepsTyped(k, t, bits); }
    forall r: nat ensures t.pc + 1 <= |k.operations| ==>
        (DefinedBefore(k, t.pc + 1, r) <==> DefinedBefore(k, t.pc, r) || Defines(k, t.pc, r)) {
      DefinedNext(k, t.pc, r);
    }
  }

  lemma {:induction false} ReleaseKeeps(k: Kernel, t: Thread)
    requires WellFormed(k) && ThreadInv(k, t) && t.status.Waiting?
    ensures ThreadInv(k, Released(t))
  {
    hide WellFormed, OperationOk, DefinedBefore, ContractOf;
    ControlContracts();
    OperationAt(k, t.pc);
    forall r: nat ensures DefinedBefore(k, t.pc + 1, r) <==> DefinedBefore(k, t.pc, r) { DefinedNext(k, t.pc, r); }
  }

  // ---- What every reachable block satisfies ----

  ghost predicate BlockInv(k: Kernel, b: Block) {
    && (forall i :: 0 <= i < |b.threads| ==> ThreadInv(k, b.threads[i]))
    && (forall i, j :: 0 <= i < |b.threads| && 0 <= j < |b.threads| ==> |b.threads[i].passed| == |b.threads[j].passed|)
  }

  lemma {:induction false} ApplyKeeps(k: Kernel, b: Block, move: Move)
    requires WellFormed(k) && BlockInv(k, b) && Enabled(k, b, move)
    ensures BlockInv(k, Apply(k, b, move))
  {
    hide WellFormed, ThreadInv, Execute;
    match move
    case Step(i, bits) => ExecuteKeeps(k, b.threads[i], bits);
    case Release =>
      forall i | 0 <= i < |b.threads| ensures ThreadInv(k, Released(b.threads[i])) { ReleaseKeeps(k, b.threads[i]); }
  }

  lemma {:induction false} RunKeeps(k: Kernel, b: Block, schedule: seq<Move>)
    requires WellFormed(k) && BlockInv(k, b)
    ensures BlockInv(k, Run(k, b, schedule))
    decreases |schedule|
  {
    hide WellFormed, BlockInv;
    if schedule != [] {
      var next := if Enabled(k, b, schedule[0]) then Apply(k, b, schedule[0]) else b;
      if Enabled(k, b, schedule[0]) { ApplyKeeps(k, b, schedule[0]); }
      RunKeeps(k, next, schedule[1..]);
    }
  }

  lemma {:induction false} InitialInv(k: Kernel, threads: nat)
    requires WellFormed(k)
    ensures BlockInv(k, Initial(threads))
  {
  }

  // ---- Soundness ----

  /** A register read finds a value of the contracted kind, or is the operation's own result. */
  ghost predicate SafeRead(k: Kernel, t: Thread, r: nat, kind: Kind)
    requires t.pc < |k.operations|
  {
    || Defines(k, t.pc, r)
    || (r in t.registers && t.registers[r].kind == kind)
  }

  /** The next operation reads only values of its contract and assigns a register that has no value yet. */
  ghost predicate SafeNext(k: Kernel, t: Thread) {
    t.pc < |k.operations|
    && var op := k.operations[t.pc];
       var contract := ContractOf(op.opcode);
       && op.inputCount == |contract.inputs|
       && (forall n :: 0 <= n < |contract.inputs| ==> SafeRead(k, t, Input(op, n), contract.inputs[n]))
       && (op.guard != NO_VALUE ==> SafeRead(k, t, op.guard, Predicate))
       && (contract.hasResult ==>
             op.result !in t.registers && op.result < |k.registers| && k.registers[op.result].kind == contract.result)
  }

  lemma {:induction false} ReadIsSafe(k: Kernel, t: Thread, r: nat, kind: Kind)
    requires ThreadInv(k, t) && t.pc < |k.operations| - 1 && ReadOk(k, t.pc, r, kind)
    ensures SafeRead(k, t, r, kind)
  {
    DefinedNext(k, t.pc, r);
  }

  lemma {:induction false} ThreadIsSafe(k: Kernel, t: Thread)
    requires WellFormed(k) && ThreadInv(k, t) && t.status.Running?
    ensures SafeNext(k, t)
  {
    hide WellFormed, ReadOk, SafeRead, ThreadInv, ContractOf;
    assert t.pc < |k.operations| by { ThreadAt(k, t); }
    OperationAt(k, t.pc);
    ControlContracts();
    var op := k.operations[t.pc];
    var contract := ContractOf(op.opcode);
    if t.pc < |k.operations| - 1 {
      assert InputsOk(k, t.pc) && GuardOk(k, t.pc) && ResultOk(k, t.pc);
      forall n | 0 <= n < |contract.inputs| ensures SafeRead(k, t, Input(op, n), contract.inputs[n]) {
        ReadIsSafe(k, t, Input(op, n), contract.inputs[n]);
      }
      if op.guard != NO_VALUE { ReadIsSafe(k, t, op.guard, Predicate); }
      UnassignedResult(k, t);
    }
  }

  lemma {:induction false} ThreadAt(k: Kernel, t: Thread)
    requires ThreadInv(k, t)
    ensures t.pc < |k.operations|
  {
  }

  lemma {:induction false} UnassignedResult(k: Kernel, t: Thread)
    requires ThreadInv(k, t) && t.pc < |k.operations| - 1 && ResultOk(k, t.pc)
    ensures ContractOf(k.operations[t.pc].opcode).hasResult ==> k.operations[t.pc].result !in t.registers
  {
  }

  lemma {:induction false} BarriersGrow(k: Kernel, m: nat, n: nat)
    requires m <= n <= |k.operations|
    ensures Barriers(k, m) <= Barriers(k, n)
    decreases n - m
  {
    if m < n { BarriersGrow(k, m, n - 1); }
  }

  lemma {:induction false} BarriersStrict(k: Kernel, i: nat, j: nat)
    requires i < j <= |k.operations| && k.operations[i].opcode.BarrierSync?
    ensures |Barriers(k, i)| < |Barriers(k, j)|
  {
    BarriersGrow(k, i + 1, j);
  }

  /** As many barriers behind and a barrier ahead: the same barrier. */
  lemma {:induction false} BarrierIsUnique(k: Kernel, i: nat, j: nat)
    requires i < |k.operations| && j < |k.operations| && |Barriers(k, i)| == |Barriers(k, j)|
    requires k.operations[i].opcode.BarrierSync?
    ensures j <= i
    ensures k.operations[j].opcode.BarrierSync? ==> i == j
  {
    if i < j {
      BarriersStrict(k, i, j);
    } else if j < i && k.operations[j].opcode.BarrierSync? {
      BarriersStrict(k, j, i);
    }
  }

  /**
   * Every block of threads running a kernel the verifier accepts, under every schedule and for all
   * computed values: each thread executes at most as many operations as the kernel has, reads only
   * assigned registers of the contracted kind (its own result apart), assigns each register at most
   * once, and all threads have gone through the same barriers.
   */
  lemma {:induction false} AcceptedKernelIsSafe(k: Kernel, threads: nat, schedule: seq<Move>)
    requires WellFormed(k)
    ensures
      var b := Run(k, Initial(threads), schedule);
      && (forall i :: 0 <= i < threads ==> b.threads[i].steps <= |k.operations|)
      && (forall i :: 0 <= i < threads && b.threads[i].status.Running? ==> SafeNext(k, b.threads[i]))
      && (forall i, j :: 0 <= i < threads && 0 <= j < threads ==> b.threads[i].passed == b.threads[j].passed)
  {
    hide WellFormed, SafeNext, Run, Barriers;
    InitialInv(k, threads);
    RunKeeps(k, Initial(threads), schedule);
    var b := Run(k, Initial(threads), schedule);
    forall i | 0 <= i < threads && b.threads[i].status.Running? ensures SafeNext(k, b.threads[i]) {
      ThreadIsSafe(k, b.threads[i]);
    }
    forall i, j | 0 <= i < threads && 0 <= j < threads ensures b.threads[i].passed == b.threads[j].passed {
      SameBarriers(k, b.threads[i], b.threads[j]);
    }
  }

  lemma {:induction false} SameBarriers(k: Kernel, t: Thread, u: Thread)
    requires ThreadInv(k, t) && ThreadInv(k, u) && |t.passed| == |u.passed|
    ensures t.passed == u.passed
  {
    if t.pc <= u.pc { BarriersGrow(k, t.pc, u.pc); } else { BarriersGrow(k, u.pc, t.pc); }
  }

  /** A barrier never diverges: threads that wait, wait at the same barrier, and none has halted. */
  lemma {:induction false} BarriersConverge(k: Kernel, threads: nat, schedule: seq<Move>, i: nat, j: nat)
    requires WellFormed(k) && i < threads && j < threads
    requires Run(k, Initial(threads), schedule).threads[i].status.Waiting?
    ensures
      var t, u := Run(k, Initial(threads), schedule).threads[i], Run(k, Initial(threads), schedule).threads[j];
      !u.status.Halted? && u.pc <= t.pc && (u.status.Waiting? ==> u.pc == t.pc)
  {
    hide Run, Barriers;
    InitialInv(k, threads);
    RunKeeps(k, Initial(threads), schedule);
    var t, u := Run(k, Initial(threads), schedule).threads[i], Run(k, Initial(threads), schedule).threads[j];
    assert ThreadInv(k, t) && ThreadInv(k, u);
    BarrierIsUnique(k, t.pc, u.pc);
    OperationAt(k, t.pc);
  }

  /** No deadlock: while some thread has not halted, some move is enabled. */
  lemma {:induction false} BlockProgresses(k: Kernel, threads: nat, schedule: seq<Move>)
    requires WellFormed(k)
    ensures
      var b := Run(k, Initial(threads), schedule);
      (forall i :: 0 <= i < |b.threads| ==> b.threads[i].status.Halted?) || exists move :: Enabled(k, b, move)
  {
    hide Run, WellFormed;
    InitialInv(k, threads);
    RunKeeps(k, Initial(threads), schedule);
    var b := Run(k, Initial(threads), schedule);
    if i :| 0 <= i < threads && b.threads[i].status.Running? {
      assert ThreadInv(k, b.threads[i]);
      assert Enabled(k, b, Step(i, 0));
    } else if i :| 0 <= i < threads && b.threads[i].status.Waiting? {
      forall j | 0 <= j < threads ensures b.threads[j].status.Waiting? { BarriersConverge(k, threads, schedule, i, j); }
      assert Enabled(k, b, Release);
    }
  }

  // ---- Every thread halts ----

  /** How many moves of the schedule were enabled. */
  function Moves(k: Kernel, b: Block, schedule: seq<Move>): nat
    decreases |schedule|
  {
    if schedule == [] then 0
    else if Enabled(k, b, schedule[0]) then 1 + Moves(k, Apply(k, b, schedule[0]), schedule[1..])
    else Moves(k, b, schedule[1..])
  }

  function TotalSteps(threads: seq<Thread>): nat {
    if threads == [] then 0 else TotalSteps(threads[..|threads| - 1]) + threads[|threads| - 1].steps
  }

  /** Operations executed and barriers opened so far. */
  function Work(b: Block): nat { TotalSteps(b.threads) + if b.threads == [] then 0 else |b.threads[0].passed| }

  lemma {:induction false} StepAdds(threads: seq<Thread>, i: nat, t: Thread)
    requires i < |threads| && t.steps == threads[i].steps + 1
    ensures TotalSteps(threads[i := t]) == TotalSteps(threads) + 1
    decreases |threads|
  {
    var n := |threads| - 1;
    if i < n {
      assert threads[i := t][..n] == threads[..n][i := t];
      StepAdds(threads[..n], i, t);
    } else {
      assert threads[i := t][..n] == threads[..n];
    }
  }

  lemma {:induction false} SameSteps(a: seq<Thread>, b: seq<Thread>)
    requires |a| == |b| && forall i :: 0 <= i < |a| ==> a[i].steps == b[i].steps
    ensures TotalSteps(a) == TotalSteps(b)
    decreases |a|
  {
    if a != [] { SameSteps(a[..|a| - 1], b[..|b| - 1]); }
  }

  lemma {:induction false} StepsBounded(threads: seq<Thread>, bound: nat)
    requires forall i :: 0 <= i < |threads| ==> threads[i].steps <= bound
    ensures TotalSteps(threads) <= |threads| * bound
    decreases |threads|
  {
    if threads != [] {
      var n := |threads| - 1;
      StepsBounded(threads[..n], bound);
      assert |threads| * bound == n * bound + bound;
    }
  }

  /** Every enabled move does one unit of work. */
  lemma {:induction false} MoveWorks(k: Kernel, b: Block, move: Move)
    requires Enabled(k, b, move)
    ensures Work(Apply(k, b, move)) == Work(b) + 1
  {
    match move
    case Step(i, bits) =>
      var t := Execute(k, b.threads[i], bits);
      assert t.steps == b.threads[i].steps + 1 && t.passed == b.threads[i].passed;
      StepAdds(b.threads, i, t);
    case Release => SameSteps(Apply(k, b, move).threads, b.threads);
  }

  lemma {:induction false} MovesAreWork(k: Kernel, b: Block, schedule: seq<Move>)
    ensures Work(Run(k, b, schedule)) == Work(b) + Moves(k, b, schedule)
    decreases |schedule|
  {
    hide Apply, Enabled, Work;
    if schedule != [] {
      if Enabled(k, b, schedule[0]) { MoveWorks(k, b, schedule[0]); }
      MovesAreWork(k, if Enabled(k, b, schedule[0]) then Apply(k, b, schedule[0]) else b, schedule[1..]);
    }
  }

  lemma {:induction false} BarriersFew(k: Kernel, n: nat)
    requires n <= |k.operations|
    ensures |Barriers(k, n)| <= n
  {
    if n > 0 { BarriersFew(k, n - 1); }
  }

  function WorkBound(k: Kernel, threads: nat): nat { threads * |k.operations| + |k.operations| }

  lemma {:induction false} WorkBounded(k: Kernel, b: Block)
    requires BlockInv(k, b)
    ensures Work(b) <= WorkBound(k, |b.threads|)
  {
    hide Barriers;
    forall i | 0 <= i < |b.threads| ensures b.threads[i].steps <= |k.operations| { assert ThreadInv(k, b.threads[i]); }
    StepsBounded(b.threads, |k.operations|);
    if b.threads != [] { BarriersFew(k, b.threads[0].pc); }
  }

  lemma {:induction false} NoWorkYet(threads: nat)
    ensures Work(Initial(threads)) == 0
  {
    var b := Initial(threads);
    StepsBounded(b.threads, 0);
  }

  /**
   * No schedule makes more than a bounded number of moves, and one that leaves nothing to do has halted every
   * thread.
   */
  lemma {:induction false} EveryThreadHalts(k: Kernel, threads: nat, schedule: seq<Move>)
    requires WellFormed(k)
    ensures Moves(k, Initial(threads), schedule) <= WorkBound(k, threads)
    ensures
      var b := Run(k, Initial(threads), schedule);
      (forall move :: !Enabled(k, b, move)) ==> forall i :: 0 <= i < threads ==> b.threads[i].status.Halted?
  {
    hide Run, WellFormed, Work, WorkBound, Enabled, BlockInv;
    InitialInv(k, threads);
    RunKeeps(k, Initial(threads), schedule);
    MovesAreWork(k, Initial(threads), schedule);
    NoWorkYet(threads);
    WorkBounded(k, Run(k, Initial(threads), schedule));
    BlockProgresses(k, threads, schedule);
  }

  lemma {:induction false} RunMore(k: Kernel, b: Block, schedule: seq<Move>, move: Move)
    ensures
      var r := Run(k, b, schedule);
      Run(k, b, schedule + [move]) == if Enabled(k, r, move) then Apply(k, r, move) else r
    decreases |schedule|
  {
    hide Apply, Enabled;
    var whole := schedule + [move];
    if schedule == [] {
      assert whole == [move] && whole[1..] == [];
    } else {
      assert whole[0] == schedule[0] && whole[1..] == schedule[1..] + [move];
      RunMore(k, if Enabled(k, b, schedule[0]) then Apply(k, b, schedule[0]) else b, schedule[1..], move);
    }
  }

  /** Every schedule can be continued until every thread has halted. */
  lemma {:induction false} HaltsInTheEnd(k: Kernel, threads: nat, schedule: seq<Move>) returns (longer: seq<Move>)
    requires WellFormed(k)
    ensures schedule <= longer
    ensures forall i :: 0 <= i < threads ==> Run(k, Initial(threads), longer).threads[i].status.Halted?
    decreases WorkBound(k, threads) - Work(Run(k, Initial(threads), schedule))
  {
    hide Run, WellFormed, Work, WorkBound, Enabled, BlockInv, Apply;
    InitialInv(k, threads);
    RunKeeps(k, Initial(threads), schedule);
    BlockProgresses(k, threads, schedule);
    var b := Run(k, Initial(threads), schedule);
    longer := schedule;
    if !(forall i :: 0 <= i < threads ==> b.threads[i].status.Halted?) {
      var move :| Enabled(k, b, move);
      MoveWorks(k, b, move);
      RunMore(k, Initial(threads), schedule, move);
      RunKeeps(k, Initial(threads), schedule + [move]);
      WorkBounded(k, Run(k, Initial(threads), schedule + [move]));
      longer := HaltsInTheEnd(k, threads, schedule + [move]);
    }
  }

  // ---- The exception is real ----

  /** Operation i reads the register it defines. */
  predicate ReadsItself(k: Kernel, i: nat)
    requires i < |k.operations|
  {
    var op := k.operations[i];
    var contract := ContractOf(op.opcode);
    contract.hasResult && exists n :: 0 <= n < |contract.inputs| && Input(op, n) == op.result
  }

  /** Every input of the thread's next operation holds a value. */
  predicate InputsAssigned(k: Kernel, t: Thread)
    requires t.pc < |k.operations|
  {
    var op := k.operations[t.pc];
    forall n :: 0 <= n < |ContractOf(op.opcode).inputs| ==> Input(op, n) in t.registers
  }

  /** An input holds a value exactly when it is not the operation's own result, and then one of the contracted kind. */
  lemma {:induction false} InputAssigned(k: Kernel, t: Thread, n: nat)
    requires SafeNext(k, t) && n < |ContractOf(k.operations[t.pc].opcode).inputs|
    ensures
      var op := k.operations[t.pc];
      && (Input(op, n) in t.registers <==> !Defines(k, t.pc, Input(op, n)))
      && (Input(op, n) in t.registers ==> t.registers[Input(op, n)].kind == ContractOf(op.opcode).inputs[n])
  {
    hide ContractOf;
    assert SafeRead(k, t, Input(k.operations[t.pc], n), ContractOf(k.operations[t.pc].opcode).inputs[n]);
  }

  /**
   * In every reachable state of every block, the next operation of a running thread finds all its
   * inputs assigned if and only if it does not read its own result; assigned inputs are of the
   * contracted kind, and a guard is always assigned.
   */
  lemma {:induction false} AssignedUnlessSelfRead(k: Kernel, threads: nat, schedule: seq<Move>, i: nat)
    requires WellFormed(k) && i < threads && Run(k, Initial(threads), schedule).threads[i].status.Running?
    ensures
      var t := Run(k, Initial(threads), schedule).threads[i];
      && t.pc < |k.operations|
      && var op := k.operations[t.pc];
         && (InputsAssigned(k, t) <==> !ReadsItself(k, t.pc))
         && (forall n :: 0 <= n < |ContractOf(op.opcode).inputs| && Input(op, n) in t.registers ==>
               t.registers[Input(op, n)].kind == ContractOf(op.opcode).inputs[n])
         && (op.guard != NO_VALUE ==> op.guard in t.registers && t.registers[op.guard].kind == Predicate)
  {
    hide Run, WellFormed, ContractOf, SafeNext;
    AcceptedKernelIsSafe(k, threads, schedule);
    var t := Run(k, Initial(threads), schedule).threads[i];
    assert SafeNext(k, t);
    NextInRange(k, t);
    var inputs := ContractOf(k.operations[t.pc].opcode).inputs;
    forall n | 0 <= n < |inputs|
      ensures Input(k.operations[t.pc], n) in t.registers <==> !Defines(k, t.pc, Input(k.operations[t.pc], n))
      ensures Input(k.operations[t.pc], n) in t.registers ==>
        t.registers[Input(k.operations[t.pc], n)].kind == inputs[n]
    {
      InputAssigned(k, t, n);
    }
    if k.operations[t.pc].guard != NO_VALUE { GuardAssigned(k, t); }
  }

  lemma {:induction false} NextInRange(k: Kernel, t: Thread)
    requires SafeNext(k, t)
    ensures t.pc < |k.operations|
  {
  }

  /** Only stores are guarded, and a store defines nothing. */
  lemma {:induction false} GuardAssigned(k: Kernel, t: Thread)
    requires WellFormed(k) && SafeNext(k, t) && k.operations[t.pc].guard != NO_VALUE
    ensures var guard := k.operations[t.pc].guard; guard in t.registers && t.registers[guard].kind == Predicate
  {
    OperationAt(k, t.pc);
    assert GuardOk(k, t.pc);
  }

  /** A kernel without such an operation reads assigned registers only, whatever the schedule. */
  lemma {:induction false} NoSelfReadMeansAssigned(k: Kernel, threads: nat, schedule: seq<Move>, i: nat)
    requires WellFormed(k) && i < threads && Run(k, Initial(threads), schedule).threads[i].status.Running?
    requires forall j :: 0 <= j < |k.operations| ==> !ReadsItself(k, j)
    ensures var t := Run(k, Initial(threads), schedule).threads[i]; t.pc < |k.operations| && InputsAssigned(k, t)
  {
    hide Run, WellFormed, InputsAssigned, ReadsItself;
    AssignedUnlessSelfRead(k, threads, schedule, i);
  }

  const SELF_READ :=
    Kernel(SCHEMA_VERSION, 9, 0, "k", [], [], [Register(U32, KERNEL_LOCATION)],
           [Operation(AbsS32, 0, Inputs(0, NO_VALUE, NO_VALUE), 1, 0, false, NO_VALUE, false, KERNEL_LOCATION),
            Operation(Return, NO_VALUE, Inputs(NO_VALUE, NO_VALUE, NO_VALUE), 0, 0, false, NO_VALUE, false,
                      KERNEL_LOCATION)])

  lemma {:induction false} SelfReadHeader()
    ensures HeaderOk(SELF_READ)
  {
    assert SharedWords([]) == 0;
  }

  lemma {:induction false} SelfReadOperation()
    ensures OperationOk(SELF_READ, 0)
  {
    assert ContractOf(AbsS32) == Contract(true, U32, [U32]);
    assert Defines(SELF_READ, 0, 0);
  }

  lemma {:induction false} SelfReadReturn()
    ensures OperationOk(SELF_READ, 1)
  {
    assert ContractOf(Return) == Contract(false, U32, []);
  }

  /** The verifier accepts a kernel whose first operation reads its own, still unassigned, result. */
  lemma {:induction false} SelfReadIsAccepted()
    ensures WellFormed(SELF_READ) && ReadsItself(SELF_READ, 0)
    ensures Initial(1).threads[0].pc == 0 && 0 !in Initial(1).threads[0].registers
  {
    hide HeaderOk, OperationOk, ContractOf;
    SelfReadHeader();
    SelfReadOperation();
    SelfReadReturn();
    assert ReadsItself(SELF_READ, 0) by { SelfReadsItself(); }
  }

  lemma {:induction false} SelfReadsItself()
    ensures ReadsItself(SELF_READ, 0)
  {
    assert ContractOf(AbsS32) == Contract(true, U32, [U32]);
    assert Input(SELF_READ.operations[0], 0) == 0;
  }
}
