// The canonical text of a kernel and what it identifies (compiler/core/src/kernel_ir.cpp).
module KernelText {
  import opened KernelIr
  import opened KernelNames
  import opened TextEncoding

  // ---- The lines of the text ----

  function OptionWord(value: Word): string { if value == NO_VALUE then "-" else Decimal(value) }

  function FlagWord(flag: bool): string { if flag then "1" else "0" }

  function InputWords(op: Operation, n: nat): seq<string>
    requires n <= 3
  {
    if n == 0 then [] else InputWords(op, n - 1) + [Decimal(Input(op, n - 1))]
  }

  function OperationWords(op: Operation): seq<string>
    requires op.inputCount <= 3
  {
    ["OP", OpcodeName(op.opcode), OptionWord(op.result), Decimal(op.inputCount)] + InputWords(op, op.inputCount)
    + [Decimal(op.attribute), FlagWord(op.flag), OptionWord(op.guard), FlagWord(op.negated)]
  }

  function ParameterLines(k: Kernel): seq<seq<string>> {
    seq(|k.parameters|, i requires 0 <= i < |k.parameters| => ["PARAMETER", ParameterKindName(k.parameters[i].kind)])
  }

  function SharedLines(k: Kernel): seq<seq<string>> {
    seq(|k.shared|, i requires 0 <= i < |k.shared| => ["SHARED_U32", Decimal(k.shared[i].words)])
  }

  function RegisterLines(k: Kernel): seq<seq<string>> {
    seq(|k.registers|, i requires 0 <= i < |k.registers| => ["REGISTER", KindName(k.registers[i].kind)])
  }

  predicate FewInputs(k: Kernel) { forall i :: 0 <= i < |k.operations| ==> k.operations[i].inputCount <= 3 }

  function OperationLines(k: Kernel): seq<seq<string>>
    requires FewInputs(k)
  {
    seq(|k.operations|, i requires 0 <= i < |k.operations| => OperationWords(k.operations[i]))
  }

  function HeadLines(k: Kernel): seq<seq<string>> {
    [["MFKIR", Decimal(SCHEMA_VERSION)], ["PTX", Decimal(k.major), Decimal(k.minor)], ["KERNEL", k.name]]
  }

  /** A counted section and what follows it. */
  function Section(title: string, body: seq<seq<string>>, rest: seq<seq<string>>): seq<seq<string>> {
    [[title, Decimal(|body|)]] + body + rest
  }

  function RegisterSection(k: Kernel): seq<seq<string>>
    requires FewInputs(k)
  {
    Section("REGISTERS", RegisterLines(k), Section("OPERATIONS", OperationLines(k), [["END"]]))
  }

  function Lines(k: Kernel): seq<seq<string>>
    requires FewInputs(k)
  {
    HeadLines(k)
    + Section("PARAMETERS", ParameterLines(k), Section("SHARED_ALLOCATIONS", SharedLines(k), RegisterSection(k)))
  }

  function Canonical(k: Kernel): string
    requires FewInputs(k)
  {
    Text(Lines(k))
  }

  // ---- What the text identifies ----

  /** Same operation up to its location and its unused input slots. */
  predicate SameOperation(a: Operation, b: Operation) {
    && a.opcode == b.opcode && a.result == b.result && a.inputCount == b.inputCount
    && (forall n :: 0 <= n < 3 && n < a.inputCount ==> Input(a, n) == Input(b, n))
    && a.attribute == b.attribute && a.flag == b.flag && a.guard == b.guard && a.negated == b.negated
  }

  predicate SameKernel(a: Kernel, b: Kernel) {
    && a.major == b.major && a.minor == b.minor && a.name == b.name
    && |a.parameters| == |b.parameters| && |a.shared| == |b.shared| && |a.registers| == |b.registers|
    && |a.operations| == |b.operations|
    && (forall i :: 0 <= i < |a.parameters| ==> a.parameters[i].kind == b.parameters[i].kind)
    && (forall i :: 0 <= i < |a.shared| ==> a.shared[i].words == b.shared[i].words)
    && (forall i :: 0 <= i < |a.registers| ==> a.registers[i].kind == b.registers[i].kind)
    && (forall i :: 0 <= i < |a.operations| ==> SameOperation(a.operations[i], b.operations[i]))
  }

  lemma {:induction false} WellFormedInputs(k: Kernel)
    requires WellFormed(k)
    ensures FewInputs(k)
  {
    forall i | 0 <= i < |k.operations| ensures k.operations[i].inputCount <= 3 { assert OperationOk(k, i); }
  }

  // ---- Every line is made of words ----

  lemma {:induction false} DecimalIsWord(n: nat)
    ensures IsWord(Decimal(n)) && Decimal(n) != "-"
  {
  }

  lemma {:induction false} InputWordsAreWords(op: Operation, n: nat)
    requires n <= 3
    ensures |InputWords(op, n)| == n && forall i :: 0 <= i < n ==> IsWord(InputWords(op, n)[i])
    ensures forall i :: 0 <= i < n ==> InputWords(op, n)[i] == Decimal(Input(op, i))
  {
    if n > 0 {
      InputWordsAreWords(op, n - 1);
      DecimalIsWord(Input(op, n - 1));
    }
  }

  lemma {:induction false} LoadNamesAreWords()
    ensures IsWord("load_parameter_address") && IsWord("load_parameter_u32") && IsWord("load_parameter_f32")
        && IsWord("load_shared_address")
    ensures IsWord("move_special_u32") && IsWord("move_immediate_u32") && IsWord("abs_s32") && IsWord("abs_f32")
    ensures IsWord("sqrt_rn_f32") && IsWord("add_u32") && IsWord("sub_u32") && IsWord("multiply_lo_u32")
    ensures IsWord("multiply_hi_u32") && IsWord("mad_lo_u32") && IsWord("multiply_wide_u32")
  {
  }

  lemma {:induction false} FloatNamesAreWords()
    ensures IsWord("add_global_address") && IsWord("add_shared_address") && IsWord("add_rn_f32") && IsWord("sub_rn_f32")
    ensures IsWord("div_rn_f32") && IsWord("multiply_rn_f32") && IsWord("mad_rn_f32") && IsWord("fma_rn_f32")
    ensures IsWord("convert_rn_f32_u32") && IsWord("convert_rn_f32_s32") && IsWord("exp_f32")
        && IsWord("convert_rzi_u32_f32")
    ensures IsWord("set_predicate_ge_u32") && IsWord("set_predicate_eq_u32") && IsWord("set_predicate_lt_f32")
  {
  }

  lemma {:induction false} MemoryNamesAreWords()
    ensures IsWord("set_predicate_gt_s32") && IsWord("select_u32") && IsWord("select_f32") && IsWord("branch_if")
    ensures IsWord("load_global_u32") && IsWord("store_global_u32") && IsWord("load_global_f32")
        && IsWord("store_global_f32")
    ensures IsWord("store_global_u8") && IsWord("store_global_u64") && IsWord("load_shared_u32")
        && IsWord("store_shared_u32")
    ensures IsWord("barrier_sync") && IsWord("return") && IsWord("invalid")
  {
  }

  lemma {:induction false} OpcodeNameIsWord(opcode: Opcode)
    ensures IsWord(OpcodeName(opcode))
  {
    hide IsWord;
    LoadNamesAreWords();
    FloatNamesAreWords();
    MemoryNamesAreWords();
  }

  lemma {:induction false} OperationWordsAreWords(op: Operation)
    requires op.inputCount <= 3
    ensures Words(OperationWords(op))
  {
    hide OpcodeName, IsWord, Decimal;
    assert IsWord("OP") && IsWord("-") && IsWord("0") && IsWord("1") by { ShortWords(); }
    OpcodeNameIsWord(op.opcode);
    InputWordsAreWords(op, op.inputCount);
    DecimalIsWord(op.result);
    DecimalIsWord(op.inputCount);
    DecimalIsWord(op.attribute);
    DecimalIsWord(op.guard);
  }

  lemma {:induction false} ShortWords()
    ensures IsWord("OP") && IsWord("-") && IsWord("0") && IsWord("1") && IsWord("END") && IsWord("MFKIR")
        && IsWord("PTX")
    ensures IsWord("KERNEL") && IsWord("PARAMETERS") && IsWord("PARAMETER") && IsWord("SHARED_ALLOCATIONS")
    ensures IsWord("SHARED_U32") && IsWord("REGISTERS") && IsWord("REGISTER") && IsWord("OPERATIONS")
  {
  }

  lemma {:induction false} KindNamesAreWords(p: ParameterKind, v: Kind)
    ensures IsWord(ParameterKindName(p)) && IsWord(KindName(v))
  {
  }

  lemma {:induction false} NameIsWord(name: string)
    requires ValidName(name)
    ensures IsWord(name)
  {
    assert forall i :: 0 <= i < |name| ==> NameTail(name[i]);
  }

  ghost predicate AllWords(lines: seq<seq<string>>) { forall i :: 0 <= i < |lines| ==> Words(lines[i]) }

  lemma {:induction false} SectionIsWords(title: string, body: seq<seq<string>>, rest: seq<seq<string>>)
    requires IsWord(title) && AllWords(body) && AllWords(rest)
    ensures AllWords(Section(title, body, rest))
  {
    DecimalIsWord(|body|);
  }

  lemma {:induction false} LinesAreWords(k: Kernel)
    requires FewInputs(k) && ValidName(k.name)
    ensures AllWords(Lines(k))
  {
    hide IsWord, OperationWords, KindName, ParameterKindName, ValidName, Decimal, Section;
    ShortWords();
    NameIsWord(k.name);
    forall n: nat ensures IsWord(Decimal(n)) { DecimalIsWord(n); }
    forall i | 0 <= i < |k.operations| ensures Words(OperationLines(k)[i]) { OperationWordsAreWords(k.operations[i]); }
    forall i | 0 <= i < |k.parameters| ensures Words(ParameterLines(k)[i]) {
      KindNamesAreWords(k.parameters[i].kind, U32);
    }
    forall i | 0 <= i < |k.registers| ensures Words(RegisterLines(k)[i]) {
      KindNamesAreWords(BufferU32, k.registers[i].kind);
    }
    SectionIsWords("OPERATIONS", OperationLines(k), [["END"]]);
    SectionIsWords("REGISTERS", RegisterLines(k), Section("OPERATIONS", OperationLines(k), [["END"]]));
    SectionIsWords("SHARED_ALLOCATIONS", SharedLines(k), RegisterSection(k));
    SectionIsWords("PARAMETERS", ParameterLines(k), Section("SHARED_ALLOCATIONS", SharedLines(k), RegisterSection(k)));
  }

  // ---- The text determines the kernel, and the other way round ----

  lemma {:induction false} OptionInjective(a: Word, b: Word)
    requires OptionWord(a) == OptionWord(b)
    ensures a == b
  {
    DecimalIsWord(a);
    DecimalIsWord(b);
    if a != NO_VALUE && b != NO_VALUE { DecimalInjective(a, b); }
  }

  lemma {:induction false} OperationInjective(a: Operation, b: Operation)
    requires a.inputCount <= 3 && b.inputCount <= 3 && !a.opcode.InvalidOpcode? && !b.opcode.InvalidOpcode?
    requires OperationWords(a) == OperationWords(b)
    ensures SameOperation(a, b)
  {
    hide OpcodeName, Decimal, OptionWord, InputWords;
    var x, y := OperationWords(a), OperationWords(b);
    assert x[1] == y[1] && x[2] == y[2] && x[3] == y[3];
    OpcodeNamesDiffer(a.opcode, b.opcode);
    OptionInjective(a.result, b.result);
    DecimalInjective(a.inputCount, b.inputCount);
    InputWordsAreWords(a, a.inputCount);
    InputWordsAreWords(b, b.inputCount);
    var n := a.inputCount;
    forall i | 0 <= i < n ensures Input(a, i) == Input(b, i) {
      assert x[4 + i] == InputWords(a, n)[i] && y[4 + i] == InputWords(b, n)[i];
      DecimalInjective(Input(a, i), Input(b, i));
    }
    assert x[4 + n] == y[4 + n] && x[5 + n] == y[5 + n] && x[6 + n] == y[6 + n] && x[7 + n] == y[7 + n];
    DecimalInjective(a.attribute, b.attribute);
    OptionInjective(a.guard, b.guard);
  }

  lemma {:induction false} SectionIsFirst(title: string, a: seq<seq<string>>, restA: seq<seq<string>>,
                                          b: seq<seq<string>>, restB: seq<seq<string>>)
    requires Section(title, a, restA) == Section(title, b, restB)
    ensures a == b && restA == restB
  {
    var x, y := Section(title, a, restA), Section(title, b, restB);
    assert x[0] == [title, Decimal(|a|)] && y[0] == [title, Decimal(|b|)];
    assert x[0][1] == y[0][1];
    DecimalInjective(|a|, |b|);
    assert a == x[1..1 + |a|] && b == y[1..1 + |a|];
    assert restA == x[1 + |a|..] && restB == y[1 + |a|..];
  }

  lemma {:induction false} LinesSplit(a: Kernel, b: Kernel)
    requires FewInputs(a) && FewInputs(b) && Lines(a) == Lines(b)
    ensures HeadLines(a) == HeadLines(b) && ParameterLines(a) == ParameterLines(b) && SharedLines(a) == SharedLines(b)
    ensures RegisterLines(a) == RegisterLines(b) && OperationLines(a) == OperationLines(b)
  {
    hide Section, ParameterLines, SharedLines, RegisterLines, OperationLines, Decimal;
    var x := Section("PARAMETERS", ParameterLines(a),
                     Section("SHARED_ALLOCATIONS", SharedLines(a), RegisterSection(a)));
    var y := Section("PARAMETERS", ParameterLines(b),
                     Section("SHARED_ALLOCATIONS", SharedLines(b), RegisterSection(b)));
    assert HeadLines(a) == Lines(a)[..3] && HeadLines(b) == Lines(b)[..3];
    assert x == Lines(a)[3..] && y == Lines(b)[3..];
    SectionIsFirst("PARAMETERS", ParameterLines(a), Section("SHARED_ALLOCATIONS", SharedLines(a), RegisterSection(a)),
                   ParameterLines(b), Section("SHARED_ALLOCATIONS", SharedLines(b), RegisterSection(b)));
    SectionIsFirst("SHARED_ALLOCATIONS", SharedLines(a), RegisterSection(a), SharedLines(b), RegisterSection(b));
    SectionIsFirst("REGISTERS", RegisterLines(a), Section("OPERATIONS", OperationLines(a), [["END"]]),
                   RegisterLines(b), Section("OPERATIONS", OperationLines(b), [["END"]]));
    SectionIsFirst("OPERATIONS", OperationLines(a), [["END"]], OperationLines(b), [["END"]]);
  }

  lemma {:induction false} HeadInjective(a: Kernel, b: Kernel)
    requires HeadLines(a) == HeadLines(b)
    ensures a.major == b.major && a.minor == b.minor && a.name == b.name
  {
    hide Decimal;
    var x, y := HeadLines(a), HeadLines(b);
    assert x[1][1] == y[1][1] && x[1][2] == y[1][2] && x[2][1] == y[2][1];
    DecimalInjective(a.major, b.major);
    DecimalInjective(a.minor, b.minor);
  }

  lemma {:induction false} TablesInjective(a: Kernel, b: Kernel)
    requires HeaderOk(a) && HeaderOk(b)
    requires ParameterLines(a) == ParameterLines(b) && SharedLines(a) == SharedLines(b)
        && RegisterLines(a) == RegisterLines(b)
    ensures |a.parameters| == |b.parameters| && |a.shared| == |b.shared| && |a.registers| == |b.registers|
    ensures forall i :: 0 <= i < |a.parameters| ==> a.parameters[i].kind == b.parameters[i].kind
    ensures forall i :: 0 <= i < |a.shared| ==> a.shared[i].words == b.shared[i].words
    ensures forall i :: 0 <= i < |a.registers| ==> a.registers[i].kind == b.registers[i].kind
  {
    hide Decimal, KindName, ParameterKindName;
    assert |ParameterLines(a)| == |ParameterLines(b)| && |SharedLines(a)| == |SharedLines(b)|
        && |RegisterLines(a)| == |RegisterLines(b)|;
    forall i | 0 <= i < |a.parameters| ensures a.parameters[i].kind == b.parameters[i].kind {
      assert ParameterLines(a)[i][1] == ParameterLines(b)[i][1];
      ParameterNamesDiffer(a.parameters[i].kind, b.parameters[i].kind);
    }
    forall i | 0 <= i < |a.shared| ensures a.shared[i].words == b.shared[i].words {
      assert SharedLines(a)[i][1] == SharedLines(b)[i][1];
      DecimalInjective(a.shared[i].words, b.shared[i].words);
    }
    forall i | 0 <= i < |a.registers| ensures a.registers[i].kind == b.registers[i].kind {
      assert RegisterLines(a)[i][1] == RegisterLines(b)[i][1];
      KindNamesDiffer(a.registers[i].kind, b.registers[i].kind);
    }
  }

  lemma {:induction false} OperationsInjective(a: Kernel, b: Kernel)
    requires WellFormed(a) && WellFormed(b) && FewInputs(a) && FewInputs(b) && OperationLines(a) == OperationLines(b)
    ensures |a.operations| == |b.operations|
    ensures forall i :: 0 <= i < |a.operations| ==> SameOperation(a.operations[i], b.operations[i])
  {
    hide OperationWords;
    assert |OperationLines(a)| == |OperationLines(b)|;
    forall i | 0 <= i < |a.operations| ensures SameOperation(a.operations[i], b.operations[i]) {
      assert OperationOk(a, i) && OperationOk(b, i);
      assert OperationLines(a)[i] == OperationLines(b)[i];
      OperationInjective(a.operations[i], b.operations[i]);
    }
  }

  lemma {:induction false} InputWordsAgree(a: Operation, b: Operation, n: nat)
    requires n <= 3 && forall i :: 0 <= i < n ==> Input(a, i) == Input(b, i)
    ensures InputWords(a, n) == InputWords(b, n)
  {
    if n > 0 { InputWordsAgree(a, b, n - 1); }
  }

  lemma {:induction false} SameKernelSameLines(a: Kernel, b: Kernel)
    requires FewInputs(a) && FewInputs(b) && SameKernel(a, b)
    ensures Lines(a) == Lines(b)
  {
    hide Decimal, KindName, ParameterKindName, OpcodeName, Section;
    forall i | 0 <= i < |a.operations| ensures OperationWords(a.operations[i]) == OperationWords(b.operations[i]) {
      InputWordsAgree(a.operations[i], b.operations[i], a.operations[i].inputCount);
    }
    assert OperationLines(a) == OperationLines(b);
    assert RegisterLines(a) == RegisterLines(b) && SharedLines(a) == SharedLines(b)
        && ParameterLines(a) == ParameterLines(b);
  }

  /**
   * Two verified kernels have the same canonical text exactly when they agree on everything but
   * source locations and unused input slots.
   */
  lemma {:induction false} CanonicalIdentity(a: Kernel, b: Kernel)
    requires WellFormed(a) && WellFormed(b)
    ensures FewInputs(a) && FewInputs(b) && (Canonical(a) == Canonical(b) <==> SameKernel(a, b))
  {
    WellFormedInputs(a);
    WellFormedInputs(b);
    hide Lines, Text, OperationOk, ParameterLines, SharedLines, RegisterLines, OperationLines, HeadLines, SameOperation;
    if SameKernel(a, b) {
      SameKernelSameLines(a, b);
    }
    if Canonical(a) == Canonical(b) {
      LinesAreWords(a);
      LinesAreWords(b);
      TextInjective(Lines(a), Lines(b));
      LinesSplit(a, b);
      HeadInjective(a, b);
      TablesInjective(a, b);
      OperationsInjective(a, b);
    }
  }

  // ---- Writing the text ----

  /** Each word after a blank. */
  function Spaced(ws: seq<string>): string {
    if ws == [] then "" else Spaced(ws[..|ws| - 1]) + " " + ws[|ws| - 1]
  }

  lemma {:induction false} SpacedConcat(a: seq<string>, b: seq<string>)
    ensures Spaced(a + b) == Spaced(a) + Spaced(b)
    decreases |b|
  {
    if b == [] {
      assert a + b == a;
    } else {
      SpacedConcat(a, b[..|b| - 1]);
      assert (a + b)[..|a + b| - 1] == a + b[..|b| - 1];
    }
  }

  lemma {:induction false} LineIsSpaced(ws: seq<string>)
    requires ws != []
    ensures Line(ws) == ws[0] + Spaced(ws[1..]) + "\n"
    decreases |ws|
  {
    if |ws| == 1 {
      assert Spaced(ws[1..]) == "";
    } else {
      LineIsSpaced(ws[1..]);
      var rest := ws[2..];
      assert ws[1..] == [ws[1]] + rest && ws[1..][1..] == rest;
      SpacedConcat([ws[1]], rest);
      assert Spaced([ws[1]]) == Spaced([]) + " " + ws[1];
    }
  }

  lemma {:induction false} TextConcat(a: seq<seq<string>>, b: seq<seq<string>>)
    ensures Text(a + b) == Text(a) + Text(b)
    decreases |a|
  {
    if a == [] {
      assert a + b == b;
    } else {
      assert (a + b)[1..] == a[1..] + b;
      TextConcat(a[1..], b);
    }
  }

  lemma {:induction false} TextLine(a: seq<seq<string>>, ws: seq<string>)
    ensures Text(a + [ws]) == Text(a) + Line(ws)
  {
    TextConcat(a, [ws]);
    assert Text([ws]) == Line(ws) + Text([]);
  }

  lemma {:induction false} SpacedAppend(ws: seq<string>, w: string)
    ensures Spaced(ws + [w]) == Spaced(ws) + (" " + w)
  {
    assert (ws + [w])[..|ws|] == ws;
  }

  method WriteInputs(op: Operation) returns (line: string)
    requires op.inputCount <= 3
    ensures line == Spaced(InputWords(op, op.inputCount))
  {
    hide Decimal;
    line := "";
    for i := 0 to op.inputCount
      invariant line == Spaced(InputWords(op, i))
    {
      line := line + (" " + Decimal(Input(op, i)));
      SpacedAppend(InputWords(op, i), Decimal(Input(op, i)));
    }
  }

  method WriteOperation(op: Operation) returns (line: string)
    requires op.inputCount <= 3
    ensures line == Line(OperationWords(op))
  {
    hide OpcodeName, Decimal, Spaced, Line, OperationWords, InputWords, OptionWord, FlagWord;
    var front := " " + OpcodeName(op.opcode) + " " + OptionWord(op.result) + " " + Decimal(op.inputCount);
    var middle := WriteInputs(op);
    var back := " " + Decimal(op.attribute) + " " + FlagWord(op.flag)
      + " " + OptionWord(op.guard) + " " + FlagWord(op.negated);
    line := "OP" + (front + middle + back) + "\n";
    OperationLine(op);
  }

  lemma {:induction false} OperationLine(op: Operation)
    requires op.inputCount <= 3
    ensures Line(OperationWords(op))
         == "OP"
            + ((" " + OpcodeName(op.opcode) + " " + OptionWord(op.result) + " " + Decimal(op.inputCount))
               + Spaced(InputWords(op, op.inputCount))
               + (" " + Decimal(op.attribute) + " " + FlagWord(op.flag)
                  + " " + OptionWord(op.guard) + " " + FlagWord(op.negated)))
            + "\n"
  {
    hide OpcodeName, Decimal, Spaced, Line, InputWords, OptionWord, FlagWord;
    var front := [OpcodeName(op.opcode), OptionWord(op.result), Decimal(op.inputCount)];
    var middle := InputWords(op, op.inputCount);
    var back := [Decimal(op.attribute), FlagWord(op.flag), OptionWord(op.guard), FlagWord(op.negated)];
    LineIsSpaced(OperationWords(op));
    assert OperationWords(op)[0] == "OP" && OperationWords(op)[1..] == front + middle + back;
    SpacedConcat(front + middle, back);
    SpacedConcat(front, middle);
    SpacedThree(front[0], front[1], front[2]);
    SpacedFour(back[0], back[1], back[2], back[3]);
  }

  lemma {:induction false} SpacedThree(a: string, b: string, c: string)
    ensures Spaced([a, b, c]) == " " + a + " " + b + " " + c
  {
    assert [a, b, c] == [a] + [b] + [c];
    SpacedConcat([a] + [b], [c]);
    SpacedConcat([a], [b]);
    assert Spaced([a]) == " " + a && Spaced([b]) == " " + b && Spaced([c]) == " " + c;
  }

  lemma {:induction false} SpacedFour(a: string, b: string, c: string, d: string)
    ensures Spaced([a, b, c, d]) == " " + a + " " + b + " " + c + " " + d
  {
    assert [a, b, c, d] == [a, b, c] + [d];
    SpacedConcat([a, b, c], [d]);
    SpacedThree(a, b, c);
    assert Spaced([d]) == " " + d;
  }

  method WriteLines(before: string, lines: seq<seq<string>>) returns (text: string)
    ensures text == before + Text(lines)
  {
    text := before;
    assert lines[..0] == [];
    for i := 0 to |lines|
      invariant text == before + Text(lines[..i])
    {
      text := text + Line(lines[i]);
      assert lines[..i + 1] == lines[..i] + [lines[i]];
      TextLine(lines[..i], lines[i]);
    }
    assert lines[..|lines|] == lines;
  }

  method WriteOperations(k: Kernel, before: string) returns (text: string)
    requires FewInputs(k)
    ensures text == before + Text(OperationLines(k))
  {
    hide OperationWords, Line;
    text := before;
    ghost var lines := OperationLines(k);
    assert lines[..0] == [];
    for i := 0 to |k.operations|
      invariant text == before + Text(lines[..i])
    {
      var line := WriteOperation(k.operations[i]);
      text := text + line;
      assert lines[..i + 1] == lines[..i] + [lines[i]];
      TextLine(lines[..i], lines[i]);
    }
    assert lines[..|lines|] == lines;
  }

  lemma {:induction false} TextSection(title: string, body: seq<seq<string>>, rest: seq<seq<string>>)
    ensures Text(Section(title, body, rest)) == Line([title, Decimal(|body|)]) + Text(body) + Text(rest)
  {
    TextConcat([[title, Decimal(|body|)]] + body, rest);
    TextConcat([[title, Decimal(|body|)]], body);
    TextLine([], [title, Decimal(|body|)]);
    assert [] + [[title, Decimal(|body|)]] == [[title, Decimal(|body|)]];
  }

  /** The canonical text of a verified kernel, or the verifier's diagnostics. */
  method SerializeKernel(k: Kernel) returns (text: string, diagnostics: seq<Diagnostic>)
    ensures diagnostics == [] <==> WellFormed(k)
    ensures diagnostics != [] ==> text == ""
    ensures diagnostics == [] ==> FewInputs(k) && text == Canonical(k)
  {
    text := "";
    diagnostics := VerifyKernel(k);
    if diagnostics != [] { return; }
    WellFormedInputs(k);
    hide WellFormed, Text, Line, Section, ParameterLines, SharedLines, RegisterLines, OperationLines;
    text := WriteLines(text, HeadLines(k));
    text := text + Line(["PARAMETERS", Decimal(|k.parameters|)]);
    text := WriteLines(text, ParameterLines(k));
    text := text + Line(["SHARED_ALLOCATIONS", Decimal(|k.shared|)]);
    text := WriteLines(text, SharedLines(k));
    text := text + Line(["REGISTERS", Decimal(|k.registers|)]);
    text := WriteLines(text, RegisterLines(k));
    text := text + Line(["OPERATIONS", Decimal(|k.operations|)]);
    text := WriteOperations(k, text);
    text := WriteLines(text, [["END"]]);
    CanonicalText(k);
  }

  lemma {:induction false} CanonicalText(k: Kernel)
    requires FewInputs(k)
    ensures Canonical(k)
         == "" + Text(HeadLines(k)) + Line(["PARAMETERS", Decimal(|k.parameters|)]) + Text(ParameterLines(k))
            + Line(["SHARED_ALLOCATIONS", Decimal(|k.shared|)]) + Text(SharedLines(k))
            + Line(["REGISTERS", Decimal(|k.registers|)]) + Text(RegisterLines(k))
            + Line(["OPERATIONS", Decimal(|k.operations|)]) + Text(OperationLines(k)) + Text([["END"]])
  {
    hide Line, Text, Section, Decimal, OperationWords, HeadLines;
    var shared := Section("SHARED_ALLOCATIONS", SharedLines(k), RegisterSection(k));
    TextConcat(HeadLines(k), Section("PARAMETERS", ParameterLines(k), shared));
    TextSection("PARAMETERS", ParameterLines(k), shared);
    TextSection("SHARED_ALLOCATIONS", SharedLines(k), RegisterSection(k));
    TextSection("REGISTERS", RegisterLines(k), Section("OPERATIONS", OperationLines(k), [["END"]]));
    TextSection("OPERATIONS", OperationLines(k), [["END"]]);
  }
}
