// Kernel IR and its verifier (compiler/core/src/kernel_ir.cpp).
module KernelIr {

  const SCHEMA_VERSION := 2
  const NO_VALUE := 0xffff_ffff
  const MAX_PARAMETERS := 64
  const MAX_SHARED_ALLOCATIONS := 64
  const MAX_SHARED_WORDS := 49152 / 4
  const MAX_REGISTERS := 4096
  const MAX_OPERATIONS := 65536
  const LAST_SPECIAL_REGISTER := 7

  type Word = x: nat | x < 0x1_0000_0000

  datatype Location = Location(line: Word, column: Word)
  datatype ParameterKind = BufferU32 | ScalarU32 | ScalarF32 | InvalidParameter
  datatype Kind = Predicate | U32 | U64 | F32 | GlobalAddress | SharedAddress | InvalidKind

  datatype Opcode =
    | LoadParameterAddress | LoadParameterU32 | LoadParameterF32 | LoadSharedAddress | MoveSpecialU32 | MoveImmediateU32
    | AbsS32 | AbsF32 | SqrtRnF32 | AddU32 | SubU32 | MultiplyLoU32 | MadLoU32 | MultiplyWideU32 | MultiplyHiU32
    | AddGlobalAddress | AddSharedAddress | AddRnF32 | SubRnF32 | DivRnF32 | MultiplyRnF32 | MadRnF32 | FmaRnF32
    | ConvertRnF32U32 | ConvertRziU32F32 | SetPredicateGeU32 | SetPredicateEqU32 | SetPredicateLtF32 | SetPredicateGtS32
    | SelectU32 | SelectF32 | BranchIf | LoadGlobalU32 | StoreGlobalU32 | LoadGlobalF32 | StoreGlobalF32 | StoreGlobalU8
    | StoreGlobalU64 | LoadSharedU32 | StoreSharedU32 | BarrierSync | Return | ConvertRnF32S32 | ExpF32 | InvalidOpcode

  datatype Parameter = Parameter(kind: ParameterKind, location: Location)
  datatype Register = Register(kind: Kind, location: Location)
  datatype Shared = Shared(words: Word, location: Location)

  /** `inputs` has three slots; the first `inputCount` are used. */
  datatype Operation = Operation(opcode: Opcode, result: Word, inputs: Inputs, inputCount: Word, attribute: Word,
                                 flag: bool,
                                 guard: Word, negated: bool, location: Location)
  datatype Inputs = Inputs(first: Word, second: Word, third: Word)

  datatype Kernel = Kernel(schema: Word, major: Word, minor: Word, name: string, parameters: seq<Parameter>,
                           shared: seq<Shared>, registers: seq<Register>, operations: seq<Operation>)

  datatype Contract = Contract(hasResult: bool, result: Kind, inputs: seq<Kind>)

  function ContractOf(opcode: Opcode): (c: Contract)
    ensures |c.inputs| <= 3
  {
    match opcode
    case LoadParameterAddress => Contract(true, GlobalAddress, [])
    case LoadParameterU32 => Contract(true, U32, [])
    case LoadParameterF32 => Contract(true, F32, [])
    case LoadSharedAddress => Contract(true, SharedAddress, [])
    case MoveSpecialU32 => Contract(true, U32, [])
    case MoveImmediateU32 => Contract(true, U32, [])
    case AbsS32 => Contract(true, U32, [U32])
    case AbsF32 => Contract(true, F32, [F32])
    case SqrtRnF32 => Contract(true, F32, [F32])
    case AddU32 => Contract(true, U32, [U32, U32])
    case SubU32 => Contract(true, U32, [U32, U32])
    case MultiplyLoU32 => Contract(true, U32, [U32, U32])
    case MultiplyHiU32 => Contract(true, U32, [U32, U32])
    case MadLoU32 => Contract(true, U32, [U32, U32, U32])
    case MultiplyWideU32 => Contract(true, U64, [U32])
    case AddGlobalAddress => Contract(true, GlobalAddress, [GlobalAddress, U64])
    case AddSharedAddress => Contract(true, SharedAddress, [SharedAddress, U32])
    case AddRnF32 => Contract(true, F32, [F32, F32])
    case SubRnF32 => Contract(true, F32, [F32, F32])
    case DivRnF32 => Contract(true, F32, [F32, F32])
    case MultiplyRnF32 => Contract(true, F32, [F32, F32])
    case MadRnF32 => Contract(true, F32, [F32, F32, F32])
    case FmaRnF32 => Contract(true, F32, [F32, F32, F32])
    case ConvertRnF32U32 => Contract(true, F32, [U32])
    case ConvertRnF32S32 => Contract(true, F32, [U32])
    case ExpF32 => Contract(true, F32, [F32])
    case ConvertRziU32F32 => Contract(true, U32, [F32])
    case SetPredicateGeU32 => Contract(true, Predicate, [U32, U32])
    case SetPredicateEqU32 => Contract(true, Predicate, [U32, U32])
    case SetPredicateLtF32 => Contract(true, Predicate, [F32, F32])
    case SetPredicateGtS32 => Contract(true, Predicate, [U32, U32])
    case SelectU32 => Contract(true, U32, [U32, U32, Predicate])
    case SelectF32 => Contract(true, F32, [F32, F32, Predicate])
    case BranchIf => Contract(false, U32, [Predicate])
    case LoadGlobalU32 => Contract(true, U32, [GlobalAddress])
    case StoreGlobalU32 => Contract(false, U32, [GlobalAddress, U32])
    case LoadGlobalF32 => Contract(true, F32, [GlobalAddress])
    case StoreGlobalF32 => Contract(false, U32, [GlobalAddress, F32])
    case StoreGlobalU8 => Contract(false, U32, [GlobalAddress, U32])
    case StoreGlobalU64 => Contract(false, U32, [GlobalAddress, U64])
    case LoadSharedU32 => Contract(true, U32, [SharedAddress])
    case StoreSharedU32 => Contract(false, U32, [SharedAddress, U32])
    case BarrierSync => Contract(false, U32, [])
    case Return => Contract(false, U32, [])
    case InvalidOpcode => Contract(false, U32, [])
  }

  function Input(op: Operation, i: nat): Word
    requires i < 3
  {
    if i == 0 then op.inputs.first else if i == 1 then op.inputs.second else op.inputs.third
  }

  predicate MayBePredicated(opcode: Opcode) {
    opcode.StoreGlobalU32? || opcode.StoreGlobalU64? || opcode.StoreSharedU32?
  }

  predicate NameHead(c: char) { 'a' <= c <= 'z' || 'A' <= c <= 'Z' || c == '_' || c == '$' }

  predicate NameTail(c: char) { NameHead(c) || '0' <= c <= '9' }

  predicate ValidName(name: string) {
    name != "" && NameHead(name[0]) && forall i :: 1 <= i < |name| ==> NameTail(name[i])
  }

  // ---- What a well-formed kernel is ----

  function SharedWords(shared: seq<Shared>): nat {
    if shared == [] then 0 else SharedWords(shared[..|shared| - 1]) + shared[|shared| - 1].words
  }

  /** Operation j defines register r. */
  predicate Defines(k: Kernel, j: nat, r: nat)
    requires j < |k.operations|
  {
    ContractOf(k.operations[j].opcode).hasResult && k.operations[j].result == r
  }

  /** Some operation before n defines register r. */
  predicate DefinedBefore(k: Kernel, n: nat, r: nat)
    requires n <= |k.operations|
  {
    exists j :: 0 <= j < n && Defines(k, j, r)
  }

  predicate HasOpcode(k: Kernel, opcode: Opcode) {
    exists j :: 0 <= j < |k.operations| && k.operations[j].opcode == opcode
  }

  predicate HeaderOk(k: Kernel) {
    && k.schema == SCHEMA_VERSION && k.major == 9 && k.minor == 0 && ValidName(k.name)
    && |k.parameters| <= MAX_PARAMETERS && |k.shared| <= MAX_SHARED_ALLOCATIONS
    && (forall i :: 0 <= i < |k.shared| ==> k.shared[i].words > 0) && SharedWords(k.shared) <= MAX_SHARED_WORDS
    && |k.registers| <= MAX_REGISTERS && 0 < |k.operations| <= MAX_OPERATIONS
    && (forall i :: 0 <= i < |k.parameters| ==> !k.parameters[i].kind.InvalidParameter?)
    && (forall i :: 0 <= i < |k.registers| ==> !k.registers[i].kind.InvalidKind?)
    && !(HasOpcode(k, BarrierSync) && HasOpcode(k, BranchIf))
  }

  predicate ResultOk(k: Kernel, i: nat)
    requires i < |k.operations|
  {
    var op := k.operations[i];
    var contract := ContractOf(op.opcode);
    if contract.hasResult then
      op.result < |k.registers| && k.registers[op.result].kind == contract.result && !DefinedBefore(k, i, op.result)
    else op.result == NO_VALUE
  }

  /** A register read by operation i: right kind, and defined by an operation up to and including i itself. */
  predicate ReadOk(k: Kernel, i: nat, r: nat, kind: Kind)
    requires i < |k.operations|
  {
    r < |k.registers| && k.registers[r].kind == kind && DefinedBefore(k, i + 1, r)
  }

  predicate InputsOk(k: Kernel, i: nat)
    requires i < |k.operations|
  {
    var op := k.operations[i];
    var contract := ContractOf(op.opcode);
    op.inputCount == |contract.inputs| && forall n :: 0 <= n < |contract.inputs| ==>
        ReadOk(k, i, Input(op, n), contract.inputs[n])
  }

  predicate GuardOk(k: Kernel, i: nat)
    requires i < |k.operations|
  {
    var op := k.operations[i];
    if op.guard == NO_VALUE then !op.negated else MayBePredicated(op.opcode) && ReadOk(k, i, op.guard, Predicate)
  }

  predicate ParameterIs(k: Kernel, index: nat, kind: ParameterKind) {
    index < |k.parameters| && k.parameters[index].kind == kind
  }

  predicate AttributeOk(k: Kernel, i: nat)
    requires i < |k.operations|
  {
    var op := k.operations[i];
    && (match op.opcode
        case LoadParameterAddress => ParameterIs(k, op.attribute, BufferU32)
        case LoadParameterU32 => ParameterIs(k, op.attribute, ScalarU32)
        case LoadParameterF32 => ParameterIs(k, op.attribute, ScalarF32)
        case LoadSharedAddress => op.attribute < |k.shared|
        case MoveSpecialU32 => op.attribute <= LAST_SPECIAL_REGISTER
        case BranchIf => i < op.attribute < |k.operations| && k.operations[op.attribute].opcode.Return?
        case BarrierSync => op.attribute == 0
        case Return => i + 1 == |k.operations|
        case _ => true)
    && (op.flag ==> op.opcode.BranchIf?)
  }

  predicate OperationOk(k: Kernel, i: nat)
    requires i < |k.operations|
  {
    !k.operations[i].opcode.InvalidOpcode? && ResultOk(k, i) && InputsOk(k, i) && GuardOk(k, i) && AttributeOk(k, i)
  }

  predicate WellFormed(k: Kernel) {
    && HeaderOk(k) && |k.operations| > 0 && (forall i :: 0 <= i < |k.operations| ==> OperationOk(k, i))
    && k.operations[|k.operations| - 1].opcode.Return?
  }

  // ---- The verifier: one forward scan with a table of defined registers ----

  datatype Code =
    | SchemaMismatch | InvalidKernel | InvalidParameterUse | InvalidRegister | InvalidOperation | OperandCount
    | IndexOutOfRange | TypeMismatch | UseBeforeDefinition | DuplicateDefinition | InvalidControlFlow | MissingReturn

  datatype Diagnostic = Diagnostic(code: Code, location: Location)

  const KERNEL_LOCATION := Location(1, 1)

  method CheckHeader(k: Kernel) returns (diagnostics: seq<Diagnostic>)
    ensures diagnostics == [] <==> HeaderOk(k)
  {
    diagnostics := [];
    if k.schema != SCHEMA_VERSION { diagnostics := diagnostics + [Diagnostic(SchemaMismatch, KERNEL_LOCATION)]; }
    if k.major != 9 || k.minor != 0 { diagnostics := diagnostics + [Diagnostic(InvalidKernel, KERNEL_LOCATION)]; }
    if !ValidName(k.name) { diagnostics := diagnostics + [Diagnostic(InvalidKernel, KERNEL_LOCATION)]; }
    if |k.parameters| > MAX_PARAMETERS {
      diagnostics := diagnostics + [Diagnostic(InvalidParameterUse, KERNEL_LOCATION)];
    }
    if |k.shared| > MAX_SHARED_ALLOCATIONS {
      diagnostics := diagnostics + [Diagnostic(InvalidKernel, KERNEL_LOCATION)];
    }
    diagnostics := CheckShared(k, diagnostics);
    if |k.registers| > MAX_REGISTERS { diagnostics := diagnostics + [Diagnostic(InvalidRegister, KERNEL_LOCATION)]; }
    if |k.operations| == 0 || |k.operations| > MAX_OPERATIONS {
      diagnostics := diagnostics + [Diagnostic(InvalidOperation, KERNEL_LOCATION)];
    }
    diagnostics := CheckKinds(k, diagnostics);
    if HasOpcode(k, BarrierSync) && HasOpcode(k, BranchIf) {
      diagnostics := diagnostics + [Diagnostic(InvalidControlFlow, KERNEL_LOCATION)];
    }
  }

  method CheckShared(k: Kernel, before: seq<Diagnostic>) returns (diagnostics: seq<Diagnostic>)
    ensures diagnostics == [] <==>
              before == [] && (forall i :: 0 <= i < |k.shared| ==> k.shared[i].words > 0)
                  && SharedWords(k.shared) <= MAX_SHARED_WORDS
  {
    diagnostics := before;
    var words := 0;
    for i := 0 to |k.shared|
      invariant words == SharedWords(k.shared[..i])
      invariant diagnostics == [] <==>
                  before == [] && (forall j :: 0 <= j < i ==> k.shared[j].words > 0)
                      && SharedWords(k.shared[..i]) <= MAX_SHARED_WORDS
    {
      assert k.shared[..i + 1][..i] == k.shared[..i];
      words := words + k.shared[i].words;
      if k.shared[i].words == 0 || words > MAX_SHARED_WORDS {
        diagnostics := diagnostics + [Diagnostic(InvalidKernel, k.shared[i].location)];
      }
    }
    assert k.shared[..|k.shared|] == k.shared;
  }

  method CheckKinds(k: Kernel, before: seq<Diagnostic>) returns (diagnostics: seq<Diagnostic>)
    ensures diagnostics == [] <==>
              && before == [] && (forall i :: 0 <= i < |k.parameters| ==> !k.parameters[i].kind.InvalidParameter?)
              && (forall i :: 0 <= i < |k.registers| ==> !k.registers[i].kind.InvalidKind?)
  {
    diagnostics := before;
    for i := 0 to |k.parameters|
      invariant diagnostics == [] <==> before == [] && forall j :: 0 <= j < i ==>
        !k.parameters[j].kind.InvalidParameter?
    {
      if k.parameters[i].kind == InvalidParameter {
        diagnostics := diagnostics + [Diagnostic(InvalidParameterUse, k.parameters[i].location)];
      }
    }
    ghost var middle := diagnostics;
    for i := 0 to |k.registers|
      invariant diagnostics == [] <==> middle == [] && forall j :: 0 <= j < i ==> !k.registers[j].kind.InvalidKind?
    {
      if k.registers[i].kind == InvalidKind {
        diagnostics := diagnostics + [Diagnostic(InvalidRegister, k.registers[i].location)];
      }
    }
  }

  /** `defined` marks exactly the registers defined before operation n. */
  ghost predicate Table(k: Kernel, defined: seq<bool>, n: nat)
    requires n <= |k.operations|
  {
    |defined| == |k.registers| && forall r :: 0 <= r < |defined| ==> (defined[r] <==> DefinedBefore(k, n, r))
  }

  lemma {:induction false} TableStep(k: Kernel, defined: seq<bool>, n: nat)
    requires n < |k.operations| && Table(k, defined, n)
    ensures
      var op := k.operations[n];
      Table(k, if ContractOf(op.opcode).hasResult
          && op.result < |defined| then defined[op.result := true] else defined, n + 1)
  {
    var op := k.operations[n];
    var after := if ContractOf(op.opcode).hasResult
        && op.result < |defined| then defined[op.result := true] else defined;
    forall r | 0 <= r < |defined| ensures after[r] <==> DefinedBefore(k, n + 1, r) {
      if defined[r] {
        var j :| 0 <= j < n && Defines(k, j, r);
        assert 0 <= j < n + 1;
      } else if after[r] {
        assert Defines(k, n, r);
      }
    }
  }

  /** The result of operation i: the table is updated before the inputs are looked at. */
  method CheckResult(k: Kernel, i: nat, before: seq<bool>) returns (defined: seq<bool>, codes: seq<Code>)
    requires i < |k.operations| && Table(k, before, i)
    ensures Table(k, defined, i + 1) && (codes == [] <==> ResultOk(k, i))
  {
    TableStep(k, before, i);
    var op := k.operations[i];
    var contract := ContractOf(op.opcode);
    codes, defined := [], before;
    if contract.hasResult {
      if op.result >= |k.registers| {
        codes := codes + [IndexOutOfRange];
      } else {
        if k.registers[op.result].kind != contract.result { codes := codes + [TypeMismatch]; }
        if defined[op.result] {
          codes := codes + [DuplicateDefinition];
          assert defined[op.result := true] == defined;
        } else {
          defined := defined[op.result := true];
        }
      }
    } else if op.result != NO_VALUE {
      codes := codes + [InvalidOperation];
    }
  }

  method CheckInputs(k: Kernel, i: nat, defined: seq<bool>) returns (codes: seq<Code>)
    requires i < |k.operations| && Table(k, defined, i + 1)
    ensures k.operations[i].inputCount == |ContractOf(k.operations[i].opcode).inputs| ==>
      (codes == [] <==> InputsOk(k, i))
  {
    var op := k.operations[i];
    var contract := ContractOf(op.opcode);
    codes := [];
    var checked := if op.inputCount < 3 then op.inputCount else 3;
    for n := 0 to checked
      invariant op.inputCount == |contract.inputs| ==>
                  (codes == [] <==> forall m :: 0 <= m < n ==> ReadOk(k, i, Input(op, m), contract.inputs[m]))
    {
      var r := Input(op, n);
      if r >= |k.registers| {
        codes := codes + [IndexOutOfRange];
      } else {
        if n < |contract.inputs| && k.registers[r].kind != contract.inputs[n] { codes := codes + [TypeMismatch]; }
        if !defined[r] { codes := codes + [UseBeforeDefinition]; }
      }
    }
  }

  method CheckGuard(k: Kernel, i: nat, defined: seq<bool>) returns (codes: seq<Code>)
    requires i < |k.operations| && Table(k, defined, i + 1)
    ensures codes == [] <==> GuardOk(k, i)
  {
    var op := k.operations[i];
    codes := [];
    if op.guard != NO_VALUE {
      if !MayBePredicated(op.opcode) {
        codes := codes + [InvalidOperation];
      } else if op.guard >= |k.registers| {
        codes := codes + [IndexOutOfRange];
      } else {
        if k.registers[op.guard].kind != Predicate { codes := codes + [TypeMismatch]; }
        if !defined[op.guard] { codes := codes + [UseBeforeDefinition]; }
      }
    } else if op.negated {
      codes := codes + [InvalidOperation];
    }
  }

  method CheckAttribute(k: Kernel, i: nat) returns (codes: seq<Code>)
    requires i < |k.operations|
    ensures codes == [] <==> AttributeOk(k, i)
  {
    var op := k.operations[i];
    codes := [];
    match op.opcode {
      case LoadParameterAddress => if !ParameterIs(k, op.attribute, BufferU32) { codes := [InvalidParameterUse]; }
      case LoadParameterU32 => if !ParameterIs(k, op.attribute, ScalarU32) { codes := [InvalidParameterUse]; }
      case LoadParameterF32 => if !ParameterIs(k, op.attribute, ScalarF32) { codes := [InvalidParameterUse]; }
      case LoadSharedAddress => if op.attribute >= |k.shared| { codes := [IndexOutOfRange]; }
      case MoveSpecialU32 => if op.attribute > LAST_SPECIAL_REGISTER { codes := [InvalidOperation]; }
      case BranchIf =>
        if op.attribute <= i || op.attribute >= |k.operations| || k.operations[op.attribute].opcode != Return {
          codes := [InvalidControlFlow];
        }
      case BarrierSync => if op.attribute != 0 { codes := [InvalidOperation]; }
      case Return => if i + 1 != |k.operations| { codes := [InvalidControlFlow]; }
      case _ =>
    }
    if op.opcode != BranchIf && op.flag { codes := codes + [InvalidOperation]; }
  }

  method CheckOperation(k: Kernel, i: nat, before: seq<bool>) returns (defined: seq<bool>, codes: seq<Code>)
    requires i < |k.operations| && Table(k, before, i)
    ensures Table(k, defined, i + 1) && (codes == [] <==> OperationOk(k, i))
  {
    hide Table, ResultOk, GuardOk, AttributeOk, ReadOk;
    var op := k.operations[i];
    codes := [];
    if op.opcode == InvalidOpcode { codes := codes + [InvalidOperation]; }
    if op.inputCount != |ContractOf(op.opcode).inputs| || op.inputCount > 3 { codes := codes + [OperandCount]; }
    var more: seq<Code>;
    defined, more := CheckResult(k, i, before);
    codes := codes + more;
    more := CheckInputs(k, i, defined);
    codes := codes + more;
    more := CheckGuard(k, i, defined);
    codes := codes + more;
    more := CheckAttribute(k, i);
    codes := codes + more;
  }

  function Located(codes: seq<Code>, location: Location): (d: seq<Diagnostic>)
    ensures |d| == |codes|
  {
    seq(|codes|, i requires 0 <= i < |codes| => Diagnostic(codes[i], location))
  }

  /** The verifier accepts exactly the well-formed kernels. */
  method VerifyKernel(k: Kernel) returns (diagnostics: seq<Diagnostic>)
    ensures diagnostics == [] <==> WellFormed(k)
  {
    hide HeaderOk, OperationOk;
    diagnostics := CheckHeader(k);
    var defined := seq(|k.registers|, _ => false);
    for i := 0 to |k.operations|
      invariant Table(k, defined, i)
      invariant diagnostics == [] <==> HeaderOk(k) && forall j :: 0 <= j < i ==> OperationOk(k, j)
    {
      var codes: seq<Code>;
      defined, codes := CheckOperation(k, i, defined);
      diagnostics := diagnostics + Located(codes, k.operations[i].location);
    }
    if |k.operations| == 0 || k.operations[|k.operations| - 1].opcode != Return {
      diagnostics := diagnostics + [Diagnostic(MissingReturn, KERNEL_LOCATION)];
    }
    HeaderHasOperations(k);
  }

  lemma {:induction false} HeaderHasOperations(k: Kernel)
    ensures HeaderOk(k) ==> |k.operations| > 0
  {
  }
}
