/// The single-file assembler's driver (`_main` in asm.cpp): the same two
/// passes as the class-based assembler, written with a local label map, a
/// definition-order list and an argument vector, and encoding through
/// `compileLine`. Each step is proved to compute what the `TwoPass`
/// specification says for the `SingleFile` dialect.
module AsmMain {
  import opened Common
  import opened Numerals
  import opened Tokens
  import opened Encoder
  import opened AsmEncoder
  import opened Symbols
  import opened TwoPass
  import opened TwoPassAssembler

  /// Entering a new label extends pass 1's definitions, the map and the
  /// definition order by that label.
  lemma DefineStep(lines: seq<Line>, i: nat, entries: seq<(string, nat)>, name: string, pc: nat)
    requires i < |lines| && IsLabelLine(lines[i]) && Pass1(SingleFile, lines[..i]) == Ok(entries)
    requires name == LabelName(SingleFile, lines[i][0].lexeme) && name !in Names(entries) && pc == PcAfter(lines[..i])
    ensures Pass1(SingleFile, lines[..i + 1]) == Ok(entries + [(name, pc)])
    ensures TableOf(entries + [(name, pc)]) == TableOf(entries)[name := pc]
    ensures Names(entries + [(name, pc)]) == Names(entries) + [name]
    ensures PcAfter(lines[..i + 1]) == pc
  {
    Pass1Step(SingleFile, lines, i);
    NamesSnoc(entries, (name, pc));
    assert (entries + [(name, pc)])[..|entries|] == entries;
  }

  /// A label already in the map is the error of the whole pass.
  lemma DuplicateStep(lines: seq<Line>, i: nat, entries: seq<(string, nat)>, name: string)
    requires i < |lines| && IsLabelLine(lines[i]) && Pass1(SingleFile, lines[..i]) == Ok(entries)
    requires name == LabelName(SingleFile, lines[i][0].lexeme) && name in Names(entries)
    ensures Pass1(SingleFile, lines) == Err(DuplicateLabel(name))
  {
    Pass1Step(SingleFile, lines, i);
    Pass1Sticky(SingleFile, lines, i + 1);
  }

  /// Pass 1: enters every label into the map at the address counted so
  /// far and appends its name to the definition order; a label defined
  /// twice is an error.
  method BuildSymbols(lines: seq<Line>) returns (r: Result<()>, table: map<string, nat>, order: seq<string>)
    ensures var spec := Pass1(SingleFile, lines);
      (r.Ok? <==> spec.Ok?) &&
      (r.Err? ==> r.error == spec.error) &&
      (r.Ok? ==> table == TableOf(spec.value) && order == Names(spec.value))
  {
    table := map[];
    order := [];
    ghost var entries: seq<(string, nat)> := [];
    var pc: nat := 0;
    for i := 0 to |lines|
      invariant pc == PcAfter(lines[..i])
      invariant Pass1(SingleFile, lines[..i]) == Ok(entries)
      invariant table == TableOf(entries) && order == Names(entries)
    {
      var line := lines[i];
      if |line| == 1 && line[0].kind == LABEL {
        var name := line[0].lexeme;
        if |name| > 0 {
          name := name[..|name| - 1];
        }
        TableOfKeys(entries, name);
        if name in table {
          DuplicateStep(lines, i, entries, name);
          r := Err(DuplicateLabel(name));
          return;
        }
        DefineStep(lines, i, entries, name, pc);
        table := table[name := pc];
        order := order + [name];
        entries := entries + [(name, pc)];
      } else {
        Pass1Step(SingleFile, lines, i);
        if |line| >= 1 && line[0].kind == DOTID && line[0].lexeme == ".8byte" {
          pc := pc + 8;
        } else {
          pc := pc + 4;
        }
      }
    }
    assert lines[..|lines|] == lines;
    r := Ok(());
  }

  /// Reads one token against one pattern letter: the operand value, if
  /// the letter collects one. This is the source's `switch`, statement by
  /// statement; `TwoPass.Operand` is its specification and states which
  /// token classes each letter accepts.
  method ReadOperand(p: char, t: Token, pc: nat, table: map<string, nat>) returns (r: Result<Option<int>>)
    ensures var spec := Operand(SingleFile, p, t, pc, table);
      (r.Ok? <==> spec.Ok?) &&
      (r.Err? ==> r.error == spec.error) &&
      (r.Ok? ==> spec.value == if r.value.Some? then [r.value.value] else [])
  {
    match p {
      case 'r' =>
        if t.kind == REG || (t.kind == ID && t.lexeme == "sp") {
          var reg := ReadReg(t.lexeme);
          if reg.Err? {
            return Err(reg.error);
          }
          return Ok(Some(reg.value));
        }
        return Err(SyntaxError("register or sp"));
      case 'z' =>
        if t.kind != REG && t.kind != ZREG {
          return Err(SyntaxError("register or xzr"));
        }
        var reg := ReadReg(t.lexeme);
        if reg.Err? {
          return Err(reg.error);
        }
        return Ok(Some(reg.value));
      case 'c' =>
        if t.kind != COMMA {
          return Err(SyntaxError(","));
        }
      case 'l' =>
        if t.kind != LBRACK {
          return Err(SyntaxError("["));
        }
      case 't' =>
        if t.kind != RBRACK {
          return Err(SyntaxError("]"));
        }
      case 'i' =>
        if t.kind == INT || t.kind == HEXINT {
          var imm := AsmReadImm(t.lexeme);
          if imm.Err? {
            return Err(imm.error);
          }
          return Ok(Some(imm.value));
        }
        return Err(SyntaxError("immediate"));
      case 'j' =>
        if t.kind == INT || t.kind == HEXINT {
          var imm := AsmReadImm(t.lexeme);
          if imm.Err? {
            return Err(imm.error);
          }
          return Ok(Some(imm.value));
        } else if t.kind == ID {
          if t.lexeme !in table {
            return Err(UndefinedLabel(t.lexeme));
          }
          return Ok(Some(WrapInt32(table[t.lexeme] - pc)));
        }
        return Err(SyntaxError("immediate or label"));
      case _ =>
    }
    r := Ok(None);
  }

  /// Matches the tokens of `line` from `ti0` on against `pattern`,
  /// storing each operand value into the argument vector from `ai0` on;
  /// tokens left over are an error.
  method MatchOperands(pattern: string, line: Line, ti0: nat, pc: nat, table: map<string, nat>, args0: seq<int>, ai0: nat)
    returns (r: Result<()>, args: seq<int>)
    requires ti0 <= |line| && ai0 + ArgCount(pattern) <= 3 && |args0| == 3
    requires Holds(args0, args0[..ai0], [])
    ensures var spec := Operands(SingleFile, pattern, line, ti0, pc, table);
      (r.Ok? <==> spec.Ok?) &&
      (r.Err? ==> r.error == spec.error) &&
      (r.Ok? ==> Holds(args, args0[..ai0], spec.value))
  {
    ghost var spec := Operands(SingleFile, pattern, line, ti0, pc, table);
    ghost var kept := args0[..ai0];
    ghost var vals: seq<int> := [];
    args := args0;
    var argIdx := ai0;
    var tokenIdx := ti0;
    assert pattern[0..] == pattern;
    PrependNothing(spec);
    for k := 0 to |pattern|
      invariant tokenIdx == ti0 + k <= |line|
      invariant argIdx == ai0 + |vals| && argIdx + ArgCount(pattern[k..]) <= 3
      invariant Holds(args, kept, vals)
      invariant spec == Prepend(vals, Operands(SingleFile, pattern[k..], line, tokenIdx, pc, table))
    {
      OperandsStep(SingleFile, pattern, k, line, tokenIdx, pc, table);
      if tokenIdx >= |line| {
        r := Err(TooFewOperands);
        return;
      }
      MatchAdvance(SingleFile, spec, vals, pattern, k, line, tokenIdx, pc, table);
      var value := ReadOperand(pattern[k], line[tokenIdx], pc, table);
      if value.Err? {
        r := Err(value.error);
        return;
      }
      ghost var step := Operand(SingleFile, pattern[k], line[tokenIdx], pc, table).value;
      tokenIdx := tokenIdx + 1;
      if value.value.Some? {
        HoldsStore(args, kept, vals, value.value.value);
        args := args[argIdx := value.value.value];
        argIdx := argIdx + 1;
      } else {
        assert step == [];
      }
      vals := vals + step;
    }
    assert pattern[|pattern|..] == [];
    if tokenIdx < |line| {
      r := Err(ExtraTokens);
      return;
    }
    r := Ok(());
  }

  /// Encodes one instruction line at address `pc` through `compileLine`.
  method EncodeLine(line: Line, pc: nat, table: map<string, nat>) returns (r: Result<nat>)
    requires line != []
    ensures r == InstructionWord(SingleFile, line, pc, table)
  {
    if line[0].kind != ID {
      return Err(SyntaxError("instruction"));
    }
    var instr := line[0].lexeme;
    if instr !in Patterns {
      return Err(UnknownMnemonic(instr));
    }
    PatternArity(instr);
    var pattern := Patterns[instr];
    var args := [0, 0, 0];
    var argIdx := 0;
    var tokenIdx := 1;
    if instr == "b" && |line| > 1 && line[1].kind == DOTID {
      if line[1].lexeme !in CondCodes {
        return Err(UnknownCondition(line[1].lexeme));
      }
      args := args[argIdx := CondCodes[line[1].lexeme]];
      argIdx := argIdx + 1;
      instr := "b.cond";
      tokenIdx := 2;
    }
    var matched;
    matched, args := MatchOperands(pattern, line, tokenIdx, pc, table, args, argIdx);
    if matched.Err? {
      return Err(matched.error);
    }
    assert ParseInstruction(SingleFile, line, pc, table) == Ok(Instr(instr, args[0], args[1], args[2]));
    CompileLineAgrees(instr, args[0], args[1], args[2]);
    var word := CompileLine(instr, args[0], args[1], args[2]);
    if word.None? {
      return Err(CompileFailed);
    }
    r := Ok(word.value);
  }

  /// The bytes one line emits at address `pc`, and how many there are.
  method EmitLine(line: Line, pc: nat, table: map<string, nat>) returns (r: Result<nat>, bytes: seq<Byte>)
    ensures var spec := LineBytes(SingleFile, line, pc, table);
      (r.Ok? <==> spec.Ok?) &&
      (r.Err? ==> r.error == spec.error) &&
      (r.Ok? ==> bytes == spec.value && r.value == |bytes|)
  {
    bytes := [];
    if line == [] || (|line| == 1 && line[0].kind == LABEL) {
      return Ok(0), bytes;
    }
    if line[0].kind == DOTID && line[0].lexeme == ".8byte" {
      if |line| < 2 {
        return Err(MissingOperand), bytes;
      }
      var value: nat;
      if line[1].kind == ID {
        if line[1].lexeme !in table {
          return Err(UndefinedLabel(line[1].lexeme)), bytes;
        }
        value := table[line[1].lexeme];
      } else {
        var number := Stoull(line[1].lexeme);
        if number.Err? {
          return Err(number.error), bytes;
        }
        value := number.value;
      }
      bytes := Emit64Le(value);
      return Ok(8), bytes;
    }
    var word := EncodeLine(line, pc, table);
    if word.Err? {
      return Err(word.error), bytes;
    }
    bytes := Le32(word.value);
    r := Ok(4);
  }

  /// Pass 2: emits every line at its address, stopping at the first line
  /// that fails.
  method EmitCode(lines: seq<Line>, table: map<string, nat>) returns (r: Result<()>, out: seq<Byte>)
    ensures out == Pass2Written(SingleFile, lines, table)
    ensures r.Ok? <==> Pass2(SingleFile, lines, table).Ok?
    ensures r.Err? ==> r.error == Pass2(SingleFile, lines, table).error
  {
    out := [];
    var pc: nat := 0;
    for i := 0 to |lines|
      invariant Pass2(SingleFile, lines[..i], table).Ok?
      invariant pc == Pass2(SingleFile, lines[..i], table).value.pc
      invariant out == Pass2(SingleFile, lines[..i], table).value.bytes
    {
      Pass2Step(SingleFile, lines, table, i);
      var emitted, bytes := EmitLine(lines[i], pc, table);
      if emitted.Err? {
        Pass2FailsAt(SingleFile, lines, table, i);
        r := Err(emitted.error);
        return;
      }
      out := out + bytes;
      pc := pc + emitted.value;
    }
    assert lines[..|lines|] == lines;
    Pass2WrittenOk(SingleFile, lines, table);
    r := Ok(());
  }

  /// The label listing: every name in definition order with its address.
  method ListSymbols(order: seq<string>, table: map<string, nat>, ghost entries: seq<(string, nat)>)
    returns (listing: seq<(string, nat)>)
    requires order == Names(entries) && NoDuplicates(order) && table == TableOf(entries)
    ensures listing == entries
  {
    listing := [];
    for i := 0 to |order|
      invariant listing == entries[..i]
    {
      TableOfAt(entries, i);
      listing := listing + [(order[i], table[order[i]])];
      assert entries[..i + 1] == entries[..i] + [entries[i]];
    }
    assert entries[..|order|] == entries;
  }

  /// `_main` on a token stream: groups the lines, runs both passes and
  /// lists the labels. A failure stops it, leaving the bytes written so far.
  method AsmMain(tokens: seq<Token>) returns (r: Result<()>, out: seq<Byte>, listing: seq<(string, nat)>)
    ensures var spec := Assemble(SingleFile, tokens);
      (r.Ok? <==> spec.Ok?) &&
      (r.Err? ==> r.error == spec.error) &&
      (r.Ok? ==> out == spec.value.bytes && listing == spec.value.symbols)
    ensures out == AssemblyOutput(SingleFile, tokens)
  {
    out := [];
    listing := [];
    var lines := Assembler.GroupLines(tokens);
    var first, table, order := BuildSymbols(lines);
    if first.Err? {
      r := first;
      return;
    }
    var second;
    second, out := EmitCode(lines, table);
    if second.Err? {
      r := second;
      return;
    }
    Pass2WrittenOk(SingleFile, lines, table);
    listing := ListSymbols(order, table, Pass1(SingleFile, lines).value);
    r := Ok(());
  }
}
