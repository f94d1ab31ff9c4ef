// The names of the canonical text form, each of them one word and no two alike.
module KernelNames {
  import opened KernelIr

  function OpcodeName(opcode: Opcode): string {
    match opcode
    case LoadParameterAddress => "load_parameter_address"
    case LoadParameterU32 => "load_parameter_u32"
    case LoadParameterF32 => "load_parameter_f32"
    case LoadSharedAddress => "load_shared_address"
    case MoveSpecialU32 => "move_special_u32"
    case MoveImmediateU32 => "move_immediate_u32"
    case AbsS32 => "abs_s32"
    case AbsF32 => "abs_f32"
    case SqrtRnF32 => "sqrt_rn_f32"
    case AddU32 => "add_u32"
    case SubU32 => "sub_u32"
    case MultiplyLoU32 => "multiply_lo_u32"
    case MultiplyHiU32 => "multiply_hi_u32"
    case MadLoU32 => "mad_lo_u32"
    case MultiplyWideU32 => "multiply_wide_u32"
    case AddGlobalAddress => "add_global_address"
    case AddSharedAddress => "add_shared_address"
    case AddRnF32 => "add_rn_f32"
    case SubRnF32 => "sub_rn_f32"
    case DivRnF32 => "div_rn_f32"
    case MultiplyRnF32 => "multiply_rn_f32"
    case MadRnF32 => "mad_rn_f32"
    case FmaRnF32 => "fma_rn_f32"
    case ConvertRnF32U32 => "convert_rn_f32_u32"
    case ConvertRnF32S32 => "convert_rn_f32_s32"
    case ExpF32 => "exp_f32"
    case ConvertRziU32F32 => "convert_rzi_u32_f32"
    case SetPredicateGeU32 => "set_predicate_ge_u32"
    case SetPredicateEqU32 => "set_predicate_eq_u32"
    case SetPredicateLtF32 => "set_predicate_lt_f32"
    case SetPredicateGtS32 => "set_predicate_gt_s32"
    case SelectU32 => "select_u32"
    case SelectF32 => "select_f32"
    case BranchIf => "branch_if"
    case LoadGlobalU32 => "load_global_u32"
    case StoreGlobalU32 => "store_global_u32"
    case LoadGlobalF32 => "load_global_f32"
    case StoreGlobalF32 => "store_global_f32"
    case StoreGlobalU8 => "store_global_u8"
    case StoreGlobalU64 => "store_global_u64"
    case LoadSharedU32 => "load_shared_u32"
    case StoreSharedU32 => "store_shared_u32"
    case BarrierSync => "barrier_sync"
    case Return => "return"
    case InvalidOpcode => "invalid"
  }

  function ParameterKindName(kind: ParameterKind): string {
    match kind
    case BufferU32 => "buffer_u32"
    case ScalarU32 => "scalar_u32"
    case ScalarF32 => "scalar_f32"
    case InvalidParameter => "invalid"
  }

  function KindName(kind: Kind): string {
    match kind
    case Predicate => "predicate"
    case U32 => "u32"
    case U64 => "u64"
    case F32 => "f32"
    case GlobalAddress => "global_address"
    case SharedAddress => "shared_address"
    case InvalidKind => "invalid"
  }

  /** Length and five characters: enough to tell the opcode names apart. */
  datatype Mark = Mark(length: nat, c0: char, c4: char, c6: char, c3: char, c2: char)

  const NO_MARK := Mark(0, ' ', ' ', ' ', ' ', ' ')

  function MarkOf(s: string): Mark {
    if |s| < 6 then NO_MARK else Mark(|s|, s[0], s[4], s[|s| - 6], s[|s| - 3], s[|s| - 2])
  }

  function OpcodeMark(opcode: Opcode): Mark {
    match opcode
    case LoadParameterAddress => Mark(22, 'l', '_', 'd', 'e', 's')
    case LoadParameterU32 => Mark(18, 'l', '_', 'e', 'u', '3')
    case LoadParameterF32 => Mark(18, 'l', '_', 'e', 'f', '3')
    case LoadSharedAddress => Mark(19, 'l', '_', 'd', 'e', 's')
    case MoveSpecialU32 => Mark(16, 'm', '_', 'a', 'u', '3')
    case MoveImmediateU32 => Mark(18, 'm', '_', 't', 'u', '3')
    case AbsS32 => Mark(7, 'a', 's', 'b', 's', '3')
    case AbsF32 => Mark(7, 'a', 'f', 'b', 'f', '3')
    case SqrtRnF32 => Mark(11, 's', '_', 'r', 'f', '3')
    case AddU32 => Mark(7, 'a', 'u', 'd', 'u', '3')
    case SubU32 => Mark(7, 's', 'u', 'u', 'u', '3')
    case MultiplyLoU32 => Mark(15, 'm', 'i', 'l', 'u', '3')
    case MultiplyHiU32 => Mark(15, 'm', 'i', 'h', 'u', '3')
    case MadLoU32 => Mark(10, 'm', 'l', 'l', 'u', '3')
    case MultiplyWideU32 => Mark(17, 'm', 'i', 'd', 'u', '3')
    case AddGlobalAddress => Mark(18, 'a', 'g', 'd', 'e', 's')
    case AddSharedAddress => Mark(18, 'a', 's', 'd', 'e', 's')
    case AddRnF32 => Mark(10, 'a', 'r', 'r', 'f', '3')
    case SubRnF32 => Mark(10, 's', 'r', 'r', 'f', '3')
    case DivRnF32 => Mark(10, 'd', 'r', 'r', 'f', '3')
    case MultiplyRnF32 => Mark(15, 'm', 'i', 'r', 'f', '3')
    case MadRnF32 => Mark(10, 'm', 'r', 'r', 'f', '3')
    case FmaRnF32 => Mark(10, 'f', 'r', 'r', 'f', '3')
    case ConvertRnF32U32 => Mark(18, 'c', 'e', '3', 'u', '3')
    case ConvertRnF32S32 => Mark(18, 'c', 'e', '3', 's', '3')
    case ExpF32 => Mark(7, 'e', 'f', 'x', 'f', '3')
    case ConvertRziU32F32 => Mark(19, 'c', 'e', '3', 'f', '3')
    case SetPredicateGeU32 => Mark(20, 's', 'p', 'g', 'u', '3')
    case SetPredicateEqU32 => Mark(20, 's', 'p', 'e', 'u', '3')
    case SetPredicateLtF32 => Mark(20, 's', 'p', 'l', 'f', '3')
    case SetPredicateGtS32 => Mark(20, 's', 'p', 'g', 's', '3')
    case SelectU32 => Mark(10, 's', 'c', 'c', 'u', '3')
    case SelectF32 => Mark(10, 's', 'c', 'c', 'f', '3')
    case BranchIf => Mark(9, 'b', 'c', 'n', '_', 'i')
    case LoadGlobalU32 => Mark(15, 'l', '_', 'a', 'u', '3')
    case StoreGlobalU32 => Mark(16, 's', 'e', 'a', 'u', '3')
    case LoadGlobalF32 => Mark(15, 'l', '_', 'a', 'f', '3')
    case StoreGlobalF32 => Mark(16, 's', 'e', 'a', 'f', '3')
    case StoreGlobalU8 => Mark(15, 's', 'e', 'b', '_', 'u')
    case StoreGlobalU64 => Mark(16, 's', 'e', 'a', 'u', '6')
    case LoadSharedU32 => Mark(15, 'l', '_', 'e', 'u', '3')
    case StoreSharedU32 => Mark(16, 's', 'e', 'e', 'u', '3')
    case BarrierSync => Mark(12, 'b', 'i', 'r', 'y', 'n')
    case Return => Mark(6, 'r', 'r', 'r', 'u', 'r')
    case InvalidOpcode => NO_MARK
  }

  lemma {:induction false} FirstMarks()
    ensures MarkOf("load_parameter_address") == Mark(22, 'l', '_', 'd', 'e', 's')
    ensures MarkOf("load_parameter_u32") == Mark(18, 'l', '_', 'e', 'u', '3')
    ensures MarkOf("load_parameter_f32") == Mark(18, 'l', '_', 'e', 'f', '3')
    ensures MarkOf("load_shared_address") == Mark(19, 'l', '_', 'd', 'e', 's')
    ensures MarkOf("move_special_u32") == Mark(16, 'm', '_', 'a', 'u', '3')
    ensures MarkOf("move_immediate_u32") == Mark(18, 'm', '_', 't', 'u', '3')
    ensures MarkOf("abs_s32") == Mark(7, 'a', 's', 'b', 's', '3')
    ensures MarkOf("abs_f32") == Mark(7, 'a', 'f', 'b', 'f', '3')
    ensures MarkOf("sqrt_rn_f32") == Mark(11, 's', '_', 'r', 'f', '3')
    ensures MarkOf("add_u32") == Mark(7, 'a', 'u', 'd', 'u', '3')
    ensures MarkOf("sub_u32") == Mark(7, 's', 'u', 'u', 'u', '3')
  {
  }

  lemma {:induction false} SecondMarks()
    ensures MarkOf("multiply_lo_u32") == Mark(15, 'm', 'i', 'l', 'u', '3')
    ensures MarkOf("multiply_hi_u32") == Mark(15, 'm', 'i', 'h', 'u', '3')
    ensures MarkOf("mad_lo_u32") == Mark(10, 'm', 'l', 'l', 'u', '3')
    ensures MarkOf("multiply_wide_u32") == Mark(17, 'm', 'i', 'd', 'u', '3')
    ensures MarkOf("add_global_address") == Mark(18, 'a', 'g', 'd', 'e', 's')
    ensures MarkOf("add_shared_address") == Mark(18, 'a', 's', 'd', 'e', 's')
    ensures MarkOf("add_rn_f32") == Mark(10, 'a', 'r', 'r', 'f', '3')
    ensures MarkOf("sub_rn_f32") == Mark(10, 's', 'r', 'r', 'f', '3')
    ensures MarkOf("div_rn_f32") == Mark(10, 'd', 'r', 'r', 'f', '3')
    ensures MarkOf("multiply_rn_f32") == Mark(15, 'm', 'i', 'r', 'f', '3')
    ensures MarkOf("mad_rn_f32") == Mark(10, 'm', 'r', 'r', 'f', '3')
  {
  }

  lemma {:induction false} ThirdMarks()
    ensures MarkOf("fma_rn_f32") == Mark(10, 'f', 'r', 'r', 'f', '3')
    ensures MarkOf("convert_rn_f32_u32") == Mark(18, 'c', 'e', '3', 'u', '3')
    ensures MarkOf("convert_rn_f32_s32") == Mark(18, 'c', 'e', '3', 's', '3')
    ensures MarkOf("exp_f32") == Mark(7, 'e', 'f', 'x', 'f', '3')
    ensures MarkOf("convert_rzi_u32_f32") == Mark(19, 'c', 'e', '3', 'f', '3')
    ensures MarkOf("set_predicate_ge_u32") == Mark(20, 's', 'p', 'g', 'u', '3')
    ensures MarkOf("set_predicate_eq_u32") == Mark(20, 's', 'p', 'e', 'u', '3')
    ensures MarkOf("set_predicate_lt_f32") == Mark(20, 's', 'p', 'l', 'f', '3')
    ensures MarkOf("set_predicate_gt_s32") == Mark(20, 's', 'p', 'g', 's', '3')
    ensures MarkOf("select_u32") == Mark(10, 's', 'c', 'c', 'u', '3')
    ensures MarkOf("select_f32") == Mark(10, 's', 'c', 'c', 'f', '3')
  {
  }

  lemma {:induction false} FourthMarks()
    ensures MarkOf("branch_if") == Mark(9, 'b', 'c', 'n', '_', 'i')
    ensures MarkOf("load_global_u32") == Mark(15, 'l', '_', 'a', 'u', '3')
    ensures MarkOf("store_global_u32") == Mark(16, 's', 'e', 'a', 'u', '3')
    ensures MarkOf("load_global_f32") == Mark(15, 'l', '_', 'a', 'f', '3')
    ensures MarkOf("store_global_f32") == Mark(16, 's', 'e', 'a', 'f', '3')
    ensures MarkOf("store_global_u8") == Mark(15, 's', 'e', 'b', '_', 'u')
    ensures MarkOf("store_global_u64") == Mark(16, 's', 'e', 'a', 'u', '6')
    ensures MarkOf("load_shared_u32") == Mark(15, 'l', '_', 'e', 'u', '3')
    ensures MarkOf("store_shared_u32") == Mark(16, 's', 'e', 'e', 'u', '3')
    ensures MarkOf("barrier_sync") == Mark(12, 'b', 'i', 'r', 'y', 'n')
    ensures MarkOf("return") == Mark(6, 'r', 'r', 'r', 'u', 'r')
  {
  }

  lemma {:induction false} MarkOfName(opcode: Opcode)
    requires !opcode.InvalidOpcode?
    ensures MarkOf(OpcodeName(opcode)) == OpcodeMark(opcode)
  {
    hide MarkOf;
    FirstMarks();
    SecondMarks();
    ThirdMarks();
    FourthMarks();
  }

  /** The opcode a mark belongs to. */
  function OpcodeAt(m: Mark): Opcode {
    match m.length
    case 6 => Return
    case 7 =>
      if m.c4 == 's' then AbsS32
      else if m.c4 == 'f' then (if m.c0 == 'a' then AbsF32 else ExpF32) else (if m.c0 == 'a' then AddU32 else SubU32)
    case 9 => BranchIf
    case 10 =>
      if m.c0 == 'm' then (if m.c4 == 'l' then MadLoU32 else MadRnF32) else if m.c0 == 'a' then AddRnF32
      else if m.c0 == 's' then (if m.c4 == 'r' then SubRnF32 else (if m.c3 == 'u' then SelectU32 else SelectF32))
      else if m.c0 == 'd' then DivRnF32 else FmaRnF32
    case 11 => SqrtRnF32
    case 12 => BarrierSync
    case 15 =>
      if m.c6 == 'l' then MultiplyLoU32 else if m.c6 == 'h' then MultiplyHiU32 else if m.c6 == 'r' then MultiplyRnF32
      else if m.c6 == 'a' then (if m.c3 == 'u' then LoadGlobalU32 else LoadGlobalF32)
      else if m.c6 == 'b' then StoreGlobalU8 else LoadSharedU32
    case 16 =>
      if m.c0 == 'm' then MoveSpecialU32
        else (if m.c6 == 'a' then (if m.c3 == 'u' then (if m.c2 == '3' then StoreGlobalU32 else StoreGlobalU64)
        else StoreGlobalF32) else StoreSharedU32)
    case 17 => MultiplyWideU32
    case 18 =>
      if m.c0 == 'l' then (if m.c3 == 'u' then LoadParameterU32 else LoadParameterF32)
      else if m.c0 == 'm' then MoveImmediateU32
      else if m.c0 == 'a' then (if m.c4 == 'g' then AddGlobalAddress else AddSharedAddress)
        else (if m.c3 == 'u' then ConvertRnF32U32 else ConvertRnF32S32)
    case 19 => if m.c0 == 'l' then LoadSharedAddress else ConvertRziU32F32
    case 20 =>
      if m.c6 == 'g' then (if m.c3 == 'u' then SetPredicateGeU32 else SetPredicateGtS32)
      else if m.c6 == 'e' then SetPredicateEqU32 else SetPredicateLtF32
    case 22 => LoadParameterAddress
    case _ => InvalidOpcode
  }

  lemma {:induction false} ShortMarkFinds(opcode: Opcode)
    requires OpcodeMark(opcode).length <= 15
    ensures OpcodeAt(OpcodeMark(opcode)) == opcode
  {
  }

  lemma {:induction false} LongMarkFinds(opcode: Opcode)
    requires OpcodeMark(opcode).length > 15
    ensures OpcodeAt(OpcodeMark(opcode)) == opcode
  {
  }

  lemma {:induction false} MarkFindsOpcode(opcode: Opcode)
    ensures OpcodeAt(OpcodeMark(opcode)) == opcode
  {
    hide OpcodeMark, OpcodeAt;
    if OpcodeMark(opcode).length <= 15 { ShortMarkFinds(opcode); } else { LongMarkFinds(opcode); }
  }

  lemma {:induction false} OpcodeNamesDiffer(a: Opcode, b: Opcode)
    requires !a.InvalidOpcode? && !b.InvalidOpcode? && OpcodeName(a) == OpcodeName(b)
    ensures a == b
  {
    hide OpcodeName, OpcodeMark, OpcodeAt;
    MarkOfName(a);
    MarkOfName(b);
    MarkFindsOpcode(a);
    MarkFindsOpcode(b);
  }

  lemma {:induction false} KindNamesDiffer(a: Kind, b: Kind)
    requires !a.InvalidKind? && !b.InvalidKind? && KindName(a) == KindName(b)
    ensures a == b
  {
    assert KindName(a)[0] == KindName(b)[0] && KindName(a)[1] == KindName(b)[1];
  }

  lemma {:induction false} ParameterNamesDiffer(a: ParameterKind, b: ParameterKind)
    requires !a.InvalidParameter? && !b.InvalidParameter? && ParameterKindName(a) == ParameterKindName(b)
    ensures a == b
  {
    assert ParameterKindName(a)[0] == ParameterKindName(b)[0] && ParameterKindName(a)[7] == ParameterKindName(b)[7];
  }
}
