/// The class-based two-pass assembler (assembler.h): its passes update a
/// symbol table, an address counter and an argument buffer step by step,
/// and each is proved to compute what the `TwoPass` specification says for
/// the `Modular` dialect.
module TwoPassAssembler {
  import opened Common
  import opened Numerals
  import opened Tokens
  import opened Encoder
  import opened Symbols
  import opened TwoPass

  /// A lookup in a valid symbol table reads the table's map.
  lemma LookupIsTable(st: SymbolTable, name: string)
    requires st.Valid()
    ensures st.Lookup(name) == if name in st.table then Ok(st.table[name]) else Err(UndefinedLabel(name))
  {
    TableOfKeys(st.entries, name);
    if name in st.table {
      var k :| 0 <= k < |st.entries| && st.entries[k] == (name, st.Lookup(name).value);
      TableOfAt(st.entries, k);
    }
  }

  /// Operand values collected so far, put in front of those still to come.
  function Prepend(xs: seq<int>, r: Result<seq<int>>): Result<seq<int>> {
    if r.Ok? then Ok(xs + r.value) else r
  }

  lemma PrependTwice(xs: seq<int>, ys: seq<int>, r: Result<seq<int>>)
    ensures Prepend(xs, Prepend(ys, r)) == Prepend(xs + ys, r)
  {
    if r.Ok? {
      assert xs + (ys + r.value) == (xs + ys) + r.value;
    }
  }

  /// Matching from pattern letter `k` on: the letter's operand, then the
  /// rest of the pattern.
  lemma OperandsStep(d: Dialect, pattern: string, k: nat, line: Line, ti: nat, pc: nat, table: map<string, nat>)
    requires k < |pattern| && ti <= |line|
    ensures ti == |line| ==> Operands(d, pattern[k..], line, ti, pc, table) == Err(TooFewOperands)
    ensures ArgCount(pattern[k..]) == (if pattern[k] in "rzij" then 1 else 0) + ArgCount(pattern[k + 1..])
    ensures ti < |line| ==> (Operands(d, pattern[k..], line, ti, pc, table) ==
      match Operand(d, pattern[k], line[ti], pc, table)
      case Err(e) => Err(e)
      case Ok(a) => Prepend(a, Operands(d, pattern[k + 1..], line, ti + 1, pc, table)))
  {
    assert pattern[k..][0] == pattern[k] && pattern[k..][1..] == pattern[k + 1..];
  }

  lemma AppendAssociates(a: seq<Byte>, b: seq<Byte>, c: seq<Byte>)
    ensures (a + b) + c == a + (b + c)
  {
  }

  /// One more pattern letter matched: its error is the whole match's
  /// error, or its value joins those collected.
  lemma MatchAdvance(d: Dialect, spec: Result<seq<int>>, collected: seq<int>, pattern: string, k: nat, line: Line, ti: nat, pc: nat, table: map<string, nat>)
    requires k < |pattern| && ti < |line|
    requires spec == Prepend(collected, Operands(d, pattern[k..], line, ti, pc, table))
    ensures var step := Operand(d, pattern[k], line[ti], pc, table);
      (step.Err? ==> spec == Err(step.error)) &&
      (step.Ok? ==> spec == Prepend(collected + step.value, Operands(d, pattern[k + 1..], line, ti + 1, pc, table)))
  {
    OperandsStep(d, pattern, k, line, ti, pc, table);
    var step := Operand(d, pattern[k], line[ti], pc, table);
    if step.Ok? {
      PrependTwice(collected, step.value, Operands(d, pattern[k + 1..], line, ti + 1, pc, table));
    }
  }

  /// The argument buffer holds `kept`, then the collected `vals`, then
  /// zeros.
  predicate Holds(args: seq<int>, kept: seq<int>, vals: seq<int>) {
    |args| == 3 && |kept| + |vals| <= 3 &&
    forall j :: 0 <= j < 3 ==> args[j] == if j < |kept| then kept[j] else Arg(vals, j - |kept|)
  }

  lemma HoldsStore(args: seq<int>, kept: seq<int>, vals: seq<int>, v: int)
    requires Holds(args, kept, vals) && |kept| + |vals| < 3
    ensures Holds(args[|kept| + |vals| := v], kept, vals + [v])
  {
  }

  lemma PrependNothing(r: Result<seq<int>>)
    ensures Prepend([], r) == r
  {
    if r.Ok? {
      assert [] + r.value == r.value;
    }
  }

  class Assembler {
    var symbols: SymbolTable
    /// The bytes written to standard output.
    var output: seq<Byte>
    /// The label listing written to standard error, one name and address
    /// per line.
    var listing: seq<(string, nat)>

    ghost predicate Valid()
      reads this, symbols
    {
      symbols.Valid()
    }

    constructor()
      ensures Valid() && fresh(symbols) && symbols.entries == []
      ensures output == [] && listing == []
    {
      symbols := new SymbolTable();
      output := [];
      listing := [];
    }

    /// Splits the token stream into lines at NEWLINE tokens, skipping empty
    /// lines.
    static method GroupLines(tokens: seq<Token>) returns (lines: seq<Line>)
      ensures lines == TwoPass.GroupLines(tokens)
    {
      lines := [];
      var cur: Line := [];
      for i := 0 to |tokens|
        invariant (cur, lines) == GroupState(tokens[..i])
      {
        assert tokens[..i + 1][..i] == tokens[..i];
        var t := tokens[i];
        if t.kind == NEWLINE {
          if cur != [] {
            lines := lines + [cur];
            cur := [];
          }
        } else {
          cur := cur + [t];
        }
      }
      assert tokens[..|tokens|] == tokens;
      if cur != [] {
        lines := lines + [cur];
      }
    }

    /// Defines the label a LABEL token names, its trailing ':' dropped.
    method DefineLabel(lexeme: string, pc: nat) returns (r: Result<()>)
      requires Valid()
      modifies symbols
      ensures Valid()
      ensures var name := LabelName(Modular, lexeme);
        (r.Ok? <==> name !in Names(old(symbols.entries))) &&
        (r.Ok? ==> symbols.entries == old(symbols.entries) + [(name, pc)]) &&
        (r.Err? ==> r == Err(DuplicateLabel(name)))
    {
      var name := lexeme;
      if |name| > 0 && name[|name| - 1] == ':' {
        name := name[..|name| - 1];
      }
      r := symbols.Define(name, pc);
    }

    /// Pass 1: defines every label at the address counted so far.
    method Pass1(lines: seq<Line>) returns (r: Result<()>)
      requires Valid() && symbols.entries == []
      modifies symbols
      ensures Valid()
      ensures r.Ok? <==> TwoPass.Pass1(Modular, lines).Ok?
      ensures r.Ok? ==> symbols.entries == LabelDefs(Modular, lines)
      ensures r.Err? ==> r.error == TwoPass.Pass1(Modular, lines).error
    {
      var pc: nat := 0;
      for i := 0 to |lines|
        invariant Valid()
        invariant pc == PcAfter(lines[..i])
        invariant TwoPass.Pass1(Modular, lines[..i]) == Ok(symbols.entries)
      {
        var line := lines[i];
        Pass1Step(Modular, lines, i);
        if |line| == 1 && line[0].kind == LABEL {
          var defined := DefineLabel(line[0].lexeme, pc);
          if defined.Err? {
            Pass1Sticky(Modular, lines, i + 1);
            return defined;
          }
        } else if |line| >= 1 && line[0].kind == DOTID && line[0].lexeme == ".8byte" {
          pc := pc + 8;
        } else {
          pc := pc + 4;
        }
      }
      assert lines[..|lines|] == lines;
      r := Ok(());
    }

    /// Reads one token against one pattern letter: the operand value, if
    /// the letter collects one. This is the source's `switch`, statement by
    /// statement; `TwoPass.Operand` is its specification and states which
    /// token classes each letter accepts.
    method ReadOperand(p: char, t: Token, pc: nat) returns (r: Result<Option<int>>)
      requires Valid()
      ensures var spec := Operand(Modular, p, t, pc, symbols.table);
        (r.Ok? <==> spec.Ok?) &&
        (r.Err? ==> r.error == spec.error) &&
        (r.Ok? ==> spec.value == if r.value.Some? then [r.value.value] else [])
    {
      match p {
        case 'r' =>
          if t.kind == REG || (t.kind == ID && t.lexeme == "sp") {
            var reg := ReadReg(t.lexeme);
            if reg.Err? {
              return Err(reg.error);
            }
            return Ok(Some(reg.value));
          }
          return Err(SyntaxError("register or sp"));
        case 'z' =>
          if t.kind != REG && t.kind != ZREG {
            return Err(SyntaxError("register or xzr"));
          }
          var reg := ReadReg(t.lexeme);
          if reg.Err? {
            return Err(reg.error);
          }
          return Ok(Some(reg.value));
        case 'c' =>
          if t.kind != COMMA {
            return Err(SyntaxError(","));
          }
        case 'l' =>
          if t.kind != LBRACK {
            return Err(SyntaxError("["));
          }
        case 't' =>
          if t.kind != RBRACK {
            return Err(SyntaxError("]"));
          }
        case 'i' =>
          if t.kind == INT || t.kind == HEXINT {
            var imm := ReadImm(t.lexeme);
            if imm.Err? {
              return Err(imm.error);
            }
            return Ok(Some(imm.value));
          }
          return Err(SyntaxError("immediate"));
        case 'j' =>
          if t.kind == INT || t.kind == HEXINT {
            var imm := ReadImm(t.lexeme);
            if imm.Err? {
              return Err(imm.error);
            }
            return Ok(Some(imm.value));
          } else if t.kind == ID {
            LookupIsTable(symbols, t.lexeme);
            var address := symbols.Lookup(t.lexeme);
            if address.Err? {
              return Err(address.error);
            }
            return Ok(Some(WrapInt32(address.value - pc)));
          }
          return Err(SyntaxError("immediate or label"));
        case _ =>
      }
      r := Ok(None);
    }

    /// Matches the tokens of `line` from `ti0` on against `pattern`,
    /// storing each operand value into `args` from `ai0` on; tokens left
    /// over are an error.
    method MatchOperands(pattern: string, line: Line, ti0: nat, pc: nat, args: array<int>, ai0: nat) returns (r: Result<()>)
      requires Valid() && args.Length == 3
      requires ti0 <= |line| && ai0 + ArgCount(pattern) <= 3
      requires Holds(args[..], args[..ai0], [])
      modifies args
      ensures var spec := Operands(Modular, pattern, line, ti0, pc, symbols.table);
        (r.Ok? <==> spec.Ok?) &&
        (r.Err? ==> r.error == spec.error) &&
        (r.Ok? ==> Holds(args[..], old(args[..ai0]), spec.value))
    {
      ghost var table := symbols.table;
      ghost var spec := Operands(Modular, pattern, line, ti0, pc, table);
      ghost var kept := args[..ai0];
      ghost var vals: seq<int> := [];
      var ai := ai0;
      var ti := ti0;
      assert pattern[0..] == pattern;
      PrependNothing(spec);
      for k := 0 to |pattern|
        invariant ti == ti0 + k <= |line|
        invariant ai == ai0 + |vals| && ai + ArgCount(pattern[k..]) <= 3
        invariant Holds(args[..], kept, vals)
        invariant spec == Prepend(vals, Operands(Modular, pattern[k..], line, ti, pc, table))
      {
        OperandsStep(Modular, pattern, k, line, ti, pc, table);
        if ti >= |line| {
          return Err(TooFewOperands);
        }
        MatchAdvance(Modular, spec, vals, pattern, k, line, ti, pc, table);
        var value := ReadOperand(pattern[k], line[ti], pc);
        if value.Err? {
          return Err(value.error);
        }
        ghost var step := Operand(Modular, pattern[k], line[ti], pc, table).value;
        ti := ti + 1;
        if value.value.Some? {
          HoldsStore(args[..], kept, vals, value.value.value);
          args[ai] := value.value.value;
          ai := ai + 1;
        } else {
          assert step == [];
        }
        vals := vals + step;
      }
      assert pattern[|pattern|..] == [];
      if ti < |line| {
        return Err(ExtraTokens);
      }
      r := Ok(());
    }

    /// Encodes one instruction line at address `pc`.
    method EncodeLine(line: Line, pc: nat) returns (r: Result<nat>)
      requires Valid() && line != []
      ensures r == InstructionWord(Modular, line, pc, symbols.table)
    {
      if line[0].kind != ID {
        return Err(SyntaxError("instruction"));
      }
      var instr := line[0].lexeme;
      if instr !in Patterns {
        return Err(UnknownMnemonic(instr));
      }
      PatternArity(instr);
      PatternArity("b");
      var pattern := Patterns[instr];
      var args := new int[3](_ => 0);
      var ai := 0;
      var ti := 1;
      if instr == "b" && |line| > 1 && line[1].kind == DOTID {
        if line[1].lexeme !in CondCodes {
          return Err(UnknownCondition(line[1].lexeme));
        }
        args[ai] := CondCodes[line[1].lexeme];
        ai := ai + 1;
        instr := "b.cond";
        pattern := Patterns["b"];
        ti := 2;
      }
      var matched := MatchOperands(pattern, line, ti, pc, args, ai);
      if matched.Err? {
        return Err(matched.error);
      }
      assert ParseInstruction(Modular, line, pc, symbols.table) == Ok(Instr(instr, args[0], args[1], args[2]));
      r := Encode(instr, args[0], args[1], args[2]);
    }

    /// The value of a `.8byte` line: a label's address, or a numeral.
    method DataWord(line: Line) returns (r: Result<nat>)
      requires Valid() && IsDataLine(line)
      ensures r == DataValue(line, symbols.table)
    {
      if |line| < 2 {
        return Err(MissingOperand);
      }
      if line[1].kind == ID {
        LookupIsTable(symbols, line[1].lexeme);
        r := symbols.Lookup(line[1].lexeme);
      } else {
        r := Stoull(line[1].lexeme);
      }
    }

    /// Emits one line at address `pc`: a `.8byte` line's eight bytes or
    /// an instruction's four; label lines emit nothing. The result is the
    /// number of bytes emitted.
    method EmitLine(line: Line, pc: nat) returns (r: Result<nat>)
      requires Valid()
      modifies this
      ensures Valid() && symbols == old(symbols) && listing == old(listing)
      ensures var spec := LineBytes(Modular, line, pc, symbols.table);
        (r.Ok? <==> spec.Ok?) &&
        (r.Err? ==> r.error == spec.error && output == old(output)) &&
        (r.Ok? ==> output == old(output) + spec.value && r.value == |spec.value|)
    {
      if line == [] || (|line| == 1 && line[0].kind == LABEL) {
        return Ok(0);
      }
      if line[0].kind == DOTID && line[0].lexeme == ".8byte" {
        var value := DataWord(line);
        if value.Err? {
          return Err(value.error);
        }
        var bytes := Emit64Le(value.value);
        output := output + bytes;
        return Ok(8);
      }
      r := EmitInstruction(line, pc);
    }

    /// Emits the four bytes of an instruction line.
    method EmitInstruction(line: Line, pc: nat) returns (r: Result<nat>)
      requires Valid() && line != [] && !IsLabelLine(line) && !IsDataLine(line)
      modifies this
      ensures Valid() && symbols == old(symbols) && listing == old(listing)
      ensures var spec := LineBytes(Modular, line, pc, symbols.table);
        (r.Ok? <==> spec.Ok?) &&
        (r.Err? ==> r.error == spec.error && output == old(output)) &&
        (r.Ok? ==> output == old(output) + spec.value && r.value == |spec.value|)
    {
      var word := EncodeLine(line, pc);
      if word.Err? {
        return Err(word.error);
      }
      output := output + Le32(word.value);
      r := Ok(4);
    }

    /// Pass 2: emits every line at its address, stopping at the first line
    /// that fails.
    method Pass2(lines: seq<Line>) returns (r: Result<()>)
      requires Valid()
      modifies this
      ensures Valid() && symbols == old(symbols) && listing == old(listing)
      ensures output == old(output) + Pass2Written(Modular, lines, symbols.table)
      ensures r.Ok? <==> TwoPass.Pass2(Modular, lines, symbols.table).Ok?
      ensures r.Err? ==> r.error == TwoPass.Pass2(Modular, lines, symbols.table).error
    {
      ghost var table := symbols.table;
      var pc: nat := 0;
      for i := 0 to |lines|
        invariant symbols == old(symbols) && listing == old(listing) && Valid()
        invariant TwoPass.Pass2(Modular, lines[..i], table).Ok?
        invariant pc == TwoPass.Pass2(Modular, lines[..i], table).value.pc
        invariant output == old(output) + TwoPass.Pass2(Modular, lines[..i], table).value.bytes
      {
        Pass2Step(Modular, lines, table, i);
        ghost var before := output;
        ghost var done := TwoPass.Pass2(Modular, lines[..i], table).value.bytes;
        var emitted := EmitLine(lines[i], pc);
        if emitted.Err? {
          Pass2FailsAt(Modular, lines, table, i);
          return Err(emitted.error);
        }
        ghost var step := LineBytes(Modular, lines[i], pc, table).value;
        AppendAssociates(old(output), done, step);
        pc := pc + emitted.value;
      }
      assert lines[..|lines|] == lines;
      Pass2WrittenOk(Modular, lines, table);
      r := Ok(());
    }

    /// Lists every label and its address, in definition order.
    method DumpSymbols()
      requires Valid()
      modifies this
      ensures Valid() && symbols == old(symbols) && output == old(output)
      ensures listing == old(listing) + symbols.entries
    {
      var names := symbols.Order();
      for i := 0 to |names|
        invariant symbols == old(symbols) && output == old(output) && Valid()
        invariant listing == old(listing) + symbols.entries[..i]
      {
        var name := names[i];
        LookupIsTable(symbols, name);
        TableOfAt(symbols.entries, i);
        var address := symbols.Lookup(name);
        listing := listing + [(name, address.value)];
        assert symbols.entries[..i + 1] == symbols.entries[..i] + [symbols.entries[i]];
      }
      assert symbols.entries[..|names|] == symbols.entries;
    }

    /// Assembles a token stream: pass 1, pass 2, then the label listing.
    /// A failure stops the assembly, leaving the bytes written so far.
    method Assemble(tokens: seq<Token>) returns (r: Result<()>)
      requires Valid() && symbols.entries == []
      modifies this, symbols
      ensures Valid()
      ensures var spec := TwoPass.Assemble(Modular, tokens);
        (r.Ok? <==> spec.Ok?) &&
        (r.Err? ==> r.error == spec.error) &&
        (r.Ok? ==> output == old(output) + spec.value.bytes && listing == old(listing) + spec.value.symbols)
      ensures output == old(output) + AssemblyOutput(Modular, tokens)
    {
      var lines := GroupLines(tokens);
      var first := Pass1(lines);
      if first.Err? {
        return first;
      }
      var second := Pass2(lines);
      if second.Err? {
        return second;
      }
      Pass2WrittenOk(Modular, lines, symbols.table);
      DumpSymbols();
      r := Ok(());
    }
  }
}
