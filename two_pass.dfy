/// The two-pass assembly of a token stream, as a specification shared by the
/// class-based assembler (assembler.h) and the single-file one (asm.cpp):
/// grouping tokens into lines, pass 1 assigning each label the address of
/// the next instruction, pass 2 encoding every line at its address.
///
/// The two variants differ in three places, chosen by `Dialect`: how a
/// label token becomes a name, how an immediate is read, and which encoder
/// builds the word.
module TwoPass {
  import opened Common
  import opened Numerals
  import opened Tokens
  import opened Encoder
  import opened AsmEncoder
  import opened Symbols

  datatype Dialect = Modular | SingleFile

  type Line = seq<Token>

  // ---- grouping tokens into lines ----

  /// The lines completed so far and the line being built, after `tokens`.
  function GroupState(tokens: seq<Token>): (Line, seq<Line>) {
    if tokens == [] then ([], [])
    else
      var (cur, lines) := GroupState(tokens[..|tokens| - 1]);
      var t := tokens[|tokens| - 1];
      if t.kind == NEWLINE then
        if cur == [] then (cur, lines) else ([], lines + [cur])
      else (cur + [t], lines)
  }

  /// Splits the token stream at NEWLINE tokens, dropping empty lines.
  function GroupLines(tokens: seq<Token>): seq<Line> {
    var (cur, lines) := GroupState(tokens);
    if cur == [] then lines else lines + [cur]
  }

  function Flatten(lines: seq<Line>): seq<Token> {
    if lines == [] then [] else Flatten(lines[..|lines| - 1]) + lines[|lines| - 1]
  }

  function WithoutNewlines(tokens: seq<Token>): seq<Token> {
    if tokens == [] then []
    else
      var t := tokens[|tokens| - 1];
      WithoutNewlines(tokens[..|tokens| - 1]) + if t.kind == NEWLINE then [] else [t]
  }

  predicate IsLine(line: Line) {
    line != [] && forall k :: 0 <= k < |line| ==> line[k].kind != NEWLINE
  }

  lemma FlattenSnoc(lines: seq<Line>, line: Line)
    ensures Flatten(lines + [line]) == Flatten(lines) + line
  {
    assert (lines + [line])[..|lines|] == lines;
  }

  lemma {:induction false} GroupStateShape(tokens: seq<Token>)
    ensures var (cur, lines) := GroupState(tokens);
      (forall k :: 0 <= k < |cur| ==> cur[k].kind != NEWLINE) &&
      (forall i :: 0 <= i < |lines| ==> IsLine(lines[i])) &&
      Flatten(lines) + cur == WithoutNewlines(tokens)
  {
    if tokens != [] {
      var prefix := tokens[..|tokens| - 1];
      GroupStateShape(prefix);
      var (cur, lines) := GroupState(prefix);
      FlattenSnoc(lines, cur);
    }
  }

  /// Every line is non-empty and free of NEWLINE tokens, and the lines
  /// together hold exactly the stream's other tokens, in order.
  lemma GroupLinesShape(tokens: seq<Token>)
    ensures forall i :: 0 <= i < |GroupLines(tokens)| ==> IsLine(GroupLines(tokens)[i])
    ensures Flatten(GroupLines(tokens)) == WithoutNewlines(tokens)
  {
    GroupStateShape(tokens);
    var (cur, lines) := GroupState(tokens);
    FlattenSnoc(lines, cur);
  }

  // ---- pass 1: label addresses ----

  /// A line holding a single label definition.
  predicate IsLabelLine(line: Line) {
    |line| == 1 && line[0].kind == LABEL
  }

  /// A `.8byte` data line.
  predicate IsDataLine(line: Line) {
    |line| >= 1 && line[0].kind == DOTID && line[0].lexeme == ".8byte"
  }

  /// Bytes a line occupies in the output, as pass 1 counts them.
  function Advance(line: Line): nat {
    if IsLabelLine(line) then 0 else if IsDataLine(line) then 8 else 4
  }

  /// The address after `lines`, as pass 1 counts it.
  function PcAfter(lines: seq<Line>): nat {
    if lines == [] then 0 else PcAfter(lines[..|lines| - 1]) + Advance(lines[|lines| - 1])
  }

  /// Addresses add up over concatenated stretches of lines.
  lemma {:induction false} PcAfterAppend(a: seq<Line>, b: seq<Line>)
    ensures PcAfter(a + b) == PcAfter(a) + PcAfter(b)
  {
    if b == [] {
      assert a + b == a;
    } else {
      var b' := b[..|b| - 1];
      PcAfterAppend(a, b');
      assert (a + b)[..|a + b| - 1] == a + b';
      assert (a + b)[|a + b| - 1] == b[|b| - 1];
    }
  }

  /// The name a label token defines: the class-based assembler drops a
  /// trailing ':' if there is one, the single-file one drops the last
  /// character whatever it is.
  function LabelName(d: Dialect, lexeme: string): string {
    if lexeme == [] then lexeme
    else if d == Modular && lexeme[|lexeme| - 1] != ':' then lexeme
    else lexeme[..|lexeme| - 1]
  }

  /// Every label definition in `lines` with the address pass 1 gives it.
  function LabelDefs(d: Dialect, lines: seq<Line>): seq<(string, nat)> {
    if lines == [] then []
    else
      var prefix := lines[..|lines| - 1];
      var line := lines[|lines| - 1];
      LabelDefs(d, prefix) + if IsLabelLine(line) then [(LabelName(d, line[0].lexeme), PcAfter(prefix))] else []
  }

  lemma NamesSnoc(entries: seq<(string, nat)>, e: (string, nat))
    ensures Names(entries + [e]) == Names(entries) + [e.0]
    ensures NoDuplicates(Names(entries + [e])) <==> NoDuplicates(Names(entries)) && e.0 !in Names(entries)
  {
    assert (entries + [e])[..|entries|] == entries;
    var n := Names(entries + [e]);
    if NoDuplicates(Names(entries)) && e.0 !in Names(entries) {
      forall i, j | 0 <= i < j < |n|
        ensures n[i] != n[j]
      {
        if j == |entries| {
          assert n[i] == Names(entries)[i];
        }
      }
    }
  }

  /// Pass 1: defines every label at the current address; a label defined
  /// twice is an error.
  function Pass1(d: Dialect, lines: seq<Line>): (r: Result<seq<(string, nat)>>)
    ensures r.Ok? <==> NoDuplicates(Names(LabelDefs(d, lines)))
    ensures r.Ok? ==> r.value == LabelDefs(d, lines)
    ensures r.Err? ==> r.error.DuplicateLabel?
  {
    if lines == [] then Ok([])
    else
      var prefix := lines[..|lines| - 1];
      var line := lines[|lines| - 1];
      var name := if IsLabelLine(line) then LabelName(d, line[0].lexeme) else "";
      NamesSnoc(LabelDefs(d, prefix), (name, PcAfter(prefix)));
      assert !IsLabelLine(line) ==> LabelDefs(d, lines) == LabelDefs(d, prefix);
      var entries :- Pass1(d, prefix);
      if IsLabelLine(line) then
        if name in Names(entries) then Err(DuplicateLabel(name))
        else Ok(entries + [(name, PcAfter(prefix))])
      else Ok(entries)
  }

  // ---- pass 2: encoding ----

  /// The operands each mnemonic takes, one letter per token: r a register
  /// or sp, z a register or xzr, i an immediate, j an immediate or a label,
  /// c a comma, l '[' and t ']'.
  const Patterns: map<string, string> := map[
    "add" := "rcrcz", "sub" := "rcrcz", "mul" := "rcrcz", "smulh" := "rcrcz",
    "umulh" := "rcrcz", "sdiv" := "rcrcz", "udiv" := "rcrcz", "cmp" := "rcz",
    "br" := "r", "blr" := "r", "ldur" := "rclrcit", "stur" := "rclrcit",
    "ldr" := "rcj", "b" := "j"]

  /// The condition suffixes of b.cond and their A64 condition codes.
  const CondCodes: map<string, int> := map[
    ".eq" := 0, ".ne" := 1, ".hs" := 2, ".lo" := 3, ".hi" := 8,
    ".ls" := 9, ".ge" := 10, ".lt" := 11, ".gt" := 12, ".le" := 13]

  /// How many operand values a pattern collects.
  function ArgCount(pattern: string): nat {
    if pattern == [] then 0
    else (if pattern[0] in "rzij" then 1 else 0) + ArgCount(pattern[1..])
  }

  /// Every mnemonic with a pattern is one the encoder knows, and so is
  /// b.cond.
  lemma PatternsKnown()
    ensures forall m :: m in Patterns ==> m in Mnemonics
    ensures "b.cond" in Mnemonics
  {
    forall m | m in Patterns
      ensures m in Mnemonics
    {
      assert m in {"add", "sub", "mul", "smulh", "umulh", "sdiv", "udiv", "cmp",
                   "br", "blr", "ldur", "stur", "ldr", "b"};
    }
  }

  /// The operand counts of the short patterns.
  lemma ShortPatternCounts()
    ensures ArgCount("j") == 1 && ArgCount("r") == 1
    ensures ArgCount("rcj") == 2 && ArgCount("rcz") == 2
  {
    assert ArgCount("cj") == 1;
    assert ArgCount("cz") == 1;
  }

  /// The operand counts of the register-register and memory patterns.
  lemma LongPatternCounts()
    ensures ArgCount("rcrcz") == 3 && ArgCount("rclrcit") == 3
  {
    assert ArgCount("crcz") == 2 by {
      assert ArgCount("rcz") == 2 by {
        ShortPatternCounts();
      }
    }
    assert ArgCount("rcit") == 2 by {
      assert ArgCount("it") == 1 && ArgCount("cit") == 1;
    }
    assert ArgCount("clrcit") == 2 by {
      assert ArgCount("lrcit") == 2;
    }
  }

  /// The pattern of each mnemonic, by group.
  lemma PatternOf(m: string)
    requires m in Patterns
    ensures Patterns[m] ==
      if m == "cmp" then "rcz" else if m == "ldr" then "rcj"
      else if m == "br" || m == "blr" then "r" else if m == "b" then "j"
      else if m == "ldur" || m == "stur" then "rclrcit" else "rcrcz"
  {
    if m !in {"cmp", "ldr", "br", "blr", "b", "ldur", "stur"} {
      assert m in {"add", "sub", "mul", "smulh", "umulh", "sdiv", "udiv"};
    }
  }

  /// Each pattern collects exactly the operands its encoder uses: three
  /// for the register-register and memory forms, two for cmp and ldr, one
  /// for br, blr and b.
  lemma PatternArity(m: string)
    requires m in Patterns
    ensures ArgCount(Patterns[m]) == if m in {"cmp", "ldr"} then 2 else if m in {"br", "blr", "b"} then 1 else 3
  {
    ShortPatternCounts();
    LongPatternCounts();
    PatternOf(m);
  }

  function ReadImmIn(d: Dialect, s: string): (r: Result<int>)
    ensures r.Ok? ==> IntMin <= r.value <= IntMax
  {
    if d == Modular then ReadImm(s) else AsmReadImm(s)
  }

  /// The word for an instruction: the header encoder, or `compileLine`
  /// whose only failure is a false result.
  function EncodeIn(d: Dialect, m: string, a: int, b: int, c: int): (r: Result<nat>)
    ensures r.Ok? ==> r.value < WordLimit
    ensures r.Ok? ==> Encode(m, a, b, c) == r
    ensures r.Ok? <==> Encode(m, a, b, c).Ok?
    ensures d == SingleFile && r.Err? ==> r == Err(CompileFailed)
  {
    if d == Modular then Encode(m, a, b, c)
    else
      CompileLineAgrees(m, a, b, c);
      match CompileLine(m, a, b, c)
      case Some(w) => Ok(w)
      case None => Err(CompileFailed)
  }

  /// Matches one token against one pattern letter; yields the operand
  /// value, if the letter collects one.
  /// 'r' takes a REG or the ID "sp" (never xzr), 'z' a REG or ZREG, 'c',
  /// 'l' and 't' the punctuation, 'i' a numeral, and 'j' a numeral or a
  /// label, which must be defined and becomes its distance from `pc`.
  function Operand(d: Dialect, p: char, t: Token, pc: nat, symbols: map<string, nat>): (r: Result<seq<int>>)
    ensures r.Ok? ==> |r.value| == if p in "rzij" then 1 else 0
    ensures p == 'r' ==>
      (r.Ok? <==> (t.kind == REG || (t.kind == ID && t.lexeme == "sp")) && ReadReg(t.lexeme).Ok?) &&
      (r.Ok? ==> r.value == [ReadReg(t.lexeme).value])
    ensures p == 'z' ==>
      (r.Ok? <==> (t.kind == REG || t.kind == ZREG) && ReadReg(t.lexeme).Ok?) &&
      (r.Ok? ==> r.value == [ReadReg(t.lexeme).value])
    ensures p == 'c' ==> (r.Ok? <==> t.kind == COMMA)
    ensures p == 'l' ==> (r.Ok? <==> t.kind == LBRACK)
    ensures p == 't' ==> (r.Ok? <==> t.kind == RBRACK)
    ensures (p == 'i' || p == 'j') && (t.kind == INT || t.kind == HEXINT) ==>
      (r.Ok? <==> ReadImmIn(d, t.lexeme).Ok?) && (r.Ok? ==> r.value == [ReadImmIn(d, t.lexeme).value])
    ensures p == 'i' && r.Ok? ==> t.kind == INT || t.kind == HEXINT
    ensures p == 'j' && r.Ok? ==> t.kind == INT || t.kind == HEXINT || t.kind == ID
    ensures p == 'j' && t.kind == ID && t.lexeme !in symbols ==> r == Err(UndefinedLabel(t.lexeme))
    ensures p == 'j' && t.kind == ID && t.lexeme in symbols ==> r == Ok([WrapInt32(symbols[t.lexeme] - pc)])
  {
    match p
    case 'r' =>
      if t.kind == REG || (t.kind == ID && t.lexeme == "sp") then
        var v :- ReadReg(t.lexeme);
        Ok([v])
      else Err(SyntaxError("register or sp"))
    case 'z' =>
      if t.kind != REG && t.kind != ZREG then Err(SyntaxError("register or xzr"))
      else
        var v :- ReadReg(t.lexeme);
        Ok([v])
    case 'c' => if t.kind != COMMA then Err(SyntaxError(",")) else Ok([])
    case 'l' => if t.kind != LBRACK then Err(SyntaxError("[")) else Ok([])
    case 't' => if t.kind != RBRACK then Err(SyntaxError("]")) else Ok([])
    case 'i' =>
      if t.kind == INT || t.kind == HEXINT then
        var v :- ReadImmIn(d, t.lexeme);
        Ok([v])
      else Err(SyntaxError("immediate"))
    case 'j' =>
      if t.kind == INT || t.kind == HEXINT then
        var v :- ReadImmIn(d, t.lexeme);
        Ok([v])
      else if t.kind == ID then
        if t.lexeme in symbols then Ok([WrapInt32(symbols[t.lexeme] - pc)])
        else Err(UndefinedLabel(t.lexeme))
      else Err(SyntaxError("immediate or label"))
    case _ => Ok([])
  }

  /// Matches the tokens of `line` from index `ti` on against `pattern`,
  /// collecting operand values; a line shorter or longer than the pattern
  /// is an error.
  function Operands(d: Dialect, pattern: string, line: Line, ti: nat, pc: nat, symbols: map<string, nat>): (r: Result<seq<int>>)
    requires ti <= |line|
    ensures r.Ok? ==> |line| == ti + |pattern| && |r.value| == ArgCount(pattern)
    decreases |pattern|
  {
    if pattern == [] then
      if ti < |line| then Err(ExtraTokens) else Ok([])
    else if ti >= |line| then Err(TooFewOperands)
    else
      var a :- Operand(d, pattern[0], line[ti], pc, symbols);
      var rest :- Operands(d, pattern[1..], line, ti + 1, pc, symbols);
      Ok(a + rest)
  }

  /// The `k`-th collected operand, or 0 where none was collected.
  function Arg(args: seq<int>, k: nat): int {
    if k < |args| then args[k] else 0
  }

  /// "b" followed by a condition suffix: a b.cond line.
  predicate IsBCondLine(line: Line) {
    |line| > 1 && line[0] == Token(ID, "b") && line[1].kind == DOTID
  }

  /// Reads an instruction line at address `pc` into its mnemonic and the
  /// operand values its pattern collects. "b" followed by a condition
  /// suffix is b.cond, its condition code the first operand.
  function ParseInstruction(d: Dialect, line: Line, pc: nat, symbols: map<string, nat>): (r: Result<Instr>)
    requires line != []
    ensures r.Ok? ==> r.value.mnemonic in Mnemonics
    ensures line[0].kind != ID ==> r == Err(SyntaxError("instruction"))
    ensures line[0].kind == ID && line[0].lexeme !in Patterns ==> r == Err(UnknownMnemonic(line[0].lexeme))
    ensures IsBCondLine(line) && line[1].lexeme !in CondCodes ==> r == Err(UnknownCondition(line[1].lexeme))
    ensures r.Ok? && IsBCondLine(line) ==>
      r.value.mnemonic == "b.cond" && r.value.a == CondCodes[line[1].lexeme] && r.value.c == 0 &&
      Operands(d, Patterns["b"], line, 2, pc, symbols).Ok? &&
      r.value.b == Arg(Operands(d, Patterns["b"], line, 2, pc, symbols).value, 0)
    ensures r.Ok? && !IsBCondLine(line) ==>
      line[0].lexeme in Patterns && Operands(d, Patterns[line[0].lexeme], line, 1, pc, symbols).Ok? &&
      var args := Operands(d, Patterns[line[0].lexeme], line, 1, pc, symbols).value;
      r.value == Instr(line[0].lexeme, Arg(args, 0), Arg(args, 1), Arg(args, 2))
  {
    PatternsKnown();
    if line[0].kind != ID then Err(SyntaxError("instruction"))
    else if line[0].lexeme !in Patterns then Err(UnknownMnemonic(line[0].lexeme))
    else if IsBCondLine(line) then
      if line[1].lexeme !in CondCodes then Err(UnknownCondition(line[1].lexeme))
      else
        match Operands(d, Patterns["b"], line, 2, pc, symbols)
        case Err(e) => Err(e)
        case Ok(args) => Ok(Instr("b.cond", CondCodes[line[1].lexeme], Arg(args, 0), 0))
    else
      var instr := line[0].lexeme;
      match Operands(d, Patterns[instr], line, 1, pc, symbols)
      case Err(e) => Err(e)
      case Ok(args) => Ok(Instr(instr, Arg(args, 0), Arg(args, 1), Arg(args, 2)))
  }

  /// The word for an instruction line.
  function InstructionWord(d: Dialect, line: Line, pc: nat, symbols: map<string, nat>): (r: Result<nat>)
    requires line != []
    ensures r.Ok? ==> r.value < WordLimit
  {
    var i :- ParseInstruction(d, line, pc, symbols);
    EncodeIn(d, i.mnemonic, i.a, i.b, i.c)
  }

  /// The value of a `.8byte` line: a label's address, or a numeral.
  function DataValue(line: Line, symbols: map<string, nat>): (r: Result<nat>)
    requires IsDataLine(line)
    ensures r.Ok? ==> |line| >= 2
    ensures r.Ok? && line[1].kind == ID ==> line[1].lexeme in symbols && r.value == symbols[line[1].lexeme]
    ensures r.Ok? && line[1].kind != ID ==> r == Stoull(line[1].lexeme)
  {
    if |line| < 2 then Err(MissingOperand)
    else if line[1].kind == ID then
      if line[1].lexeme in symbols then Ok(symbols[line[1].lexeme])
      else Err(UndefinedLabel(line[1].lexeme))
    else Stoull(line[1].lexeme)
  }

  /// The output of pass 2 so far and its address counter.
  datatype Emitted = Emitted(bytes: seq<Byte>, pc: nat)

  predicate NoEmptyLine(lines: seq<Line>) {
    forall i :: 0 <= i < |lines| ==> lines[i] != []
  }

  /// The bytes one line emits at address `pc`: nothing for a label line,
  /// eight for a `.8byte` line and four for an instruction.
  function LineBytes(d: Dialect, line: Line, pc: nat, symbols: map<string, nat>): (r: Result<seq<Byte>>)
    ensures r.Ok? ==> |r.value| == if line == [] then 0 else Advance(line)
  {
    if line == [] || IsLabelLine(line) then Ok([])
    else if IsDataLine(line) then
      var v :- DataValue(line, symbols);
      Ok(Le(v, 8))
    else
      var w :- InstructionWord(d, line, pc, symbols);
      Ok(Le32(w))
  }

  /// Pass 2: every line emits its bytes at the address counted so far.
  /// The counter always equals the number of bytes emitted and, empty
  /// lines aside, the address pass 1 computes.
  function Pass2(d: Dialect, lines: seq<Line>, symbols: map<string, nat>): (r: Result<Emitted>)
    ensures r.Ok? ==> r.value.pc == |r.value.bytes|
    ensures r.Ok? && NoEmptyLine(lines) ==> r.value.pc == PcAfter(lines)
  {
    if lines == [] then Ok(Emitted([], 0))
    else
      var prefix := lines[..|lines| - 1];
      assert NoEmptyLine(lines) ==> NoEmptyLine(prefix);
      var prev :- Pass2(d, prefix, symbols);
      match LineBytes(d, lines[|lines| - 1], prev.pc, symbols)
      case Err(e) => Err(e)
      case Ok(bytes) => Ok(Emitted(prev.bytes + bytes, prev.pc + |bytes|))
  }

  /// The bytes pass 2 writes before it stops: all of them when it
  /// succeeds, those of the lines before the failing one otherwise.
  function Pass2Written(d: Dialect, lines: seq<Line>, symbols: map<string, nat>): seq<Byte> {
    if lines == [] then []
    else
      var prefix := lines[..|lines| - 1];
      match Pass2(d, prefix, symbols)
      case Err(_) => Pass2Written(d, prefix, symbols)
      case Ok(before) =>
        match Pass2(d, lines, symbols)
        case Ok(after) => after.bytes
        case Err(_) => before.bytes
  }

  /// Pass 1 and its address counter after one more line.
  lemma Pass1Step(d: Dialect, lines: seq<Line>, i: nat)
    requires i < |lines|
    ensures PcAfter(lines[..i + 1]) == PcAfter(lines[..i]) + Advance(lines[i])
    ensures Pass1(d, lines[..i + 1]) ==
      match Pass1(d, lines[..i])
      case Err(e) => Err(e)
      case Ok(entries) =>
        if !IsLabelLine(lines[i]) then Ok(entries)
        else
          var name := LabelName(d, lines[i][0].lexeme);
          if name in Names(entries) then Err(DuplicateLabel(name))
          else Ok(entries + [(name, PcAfter(lines[..i]))])
  {
    assert lines[..i + 1][..i] == lines[..i];
    assert lines[..i + 1][i] == lines[i];
  }

  /// Pass 2 after one more line.
  lemma Pass2Step(d: Dialect, lines: seq<Line>, symbols: map<string, nat>, i: nat)
    requires i < |lines|
    ensures Pass2(d, lines[..i], symbols).Err? ==> Pass2(d, lines[..i + 1], symbols) == Pass2(d, lines[..i], symbols)
    ensures Pass2(d, lines[..i], symbols).Ok? ==>
      var before := Pass2(d, lines[..i], symbols).value;
      var step := LineBytes(d, lines[i], before.pc, symbols);
      (step.Err? ==> Pass2(d, lines[..i + 1], symbols) == Err(step.error)) &&
      (step.Ok? ==> Pass2(d, lines[..i + 1], symbols) == Ok(Emitted(before.bytes + step.value, before.pc + |step.value|)))
  {
    assert lines[..i + 1][..i] == lines[..i];
    assert lines[..i + 1][i] == lines[i];
  }

  /// Pass 1 stops at the first duplicate label: a failure on a prefix is
  /// the failure of the whole.
  lemma {:induction false} Pass1Sticky(d: Dialect, lines: seq<Line>, i: nat)
    requires i <= |lines| && Pass1(d, lines[..i]).Err?
    ensures Pass1(d, lines) == Pass1(d, lines[..i])
    decreases |lines|
  {
    if i == |lines| {
      assert lines[..i] == lines;
    } else {
      var prefix := lines[..|lines| - 1];
      assert prefix[..i] == lines[..i];
      Pass1Sticky(d, prefix, i);
    }
  }

  /// Pass 2 stops at the first failing line: that line's error is the
  /// error of the whole pass, and what was written is the output of the
  /// lines before it.
  lemma {:induction false} Pass2FailsAt(d: Dialect, lines: seq<Line>, symbols: map<string, nat>, i: nat)
    requires i < |lines| && Pass2(d, lines[..i], symbols).Ok? && Pass2(d, lines[..i + 1], symbols).Err?
    ensures Pass2(d, lines, symbols) == Pass2(d, lines[..i + 1], symbols)
    ensures Pass2Written(d, lines, symbols) == Pass2(d, lines[..i], symbols).value.bytes
    decreases |lines|
  {
    var prefix := lines[..|lines| - 1];
    if i + 1 == |lines| {
      assert lines[..i + 1] == lines;
      assert lines[..i] == prefix;
    } else {
      assert prefix[..i] == lines[..i] && prefix[..i + 1] == lines[..i + 1];
      Pass2FailsAt(d, prefix, symbols, i);
    }
  }

  /// When pass 2 succeeds it writes exactly its output.
  lemma Pass2WrittenOk(d: Dialect, lines: seq<Line>, symbols: map<string, nat>)
    requires Pass2(d, lines, symbols).Ok?
    ensures Pass2Written(d, lines, symbols) == Pass2(d, lines, symbols).value.bytes
  {
    if lines != [] {
      assert Pass2(d, lines[..|lines| - 1], symbols).Ok?;
    }
  }

  /// The whole assembly: the emitted bytes and the labels with their
  /// addresses, in definition order.
  datatype Assembled = Assembled(bytes: seq<Byte>, symbols: seq<(string, nat)>)

  function Assemble(d: Dialect, tokens: seq<Token>): Result<Assembled> {
    var lines := GroupLines(tokens);
    var entries :- Pass1(d, lines);
    var out :- Pass2(d, lines, TableOf(entries));
    Ok(Assembled(out.bytes, entries))
  }

  /// The bytes an assembly writes to its output, a failing one included.
  function AssemblyOutput(d: Dialect, tokens: seq<Token>): seq<Byte> {
    var lines := GroupLines(tokens);
    match Pass1(d, lines)
    case Err(_) => []
    case Ok(entries) => Pass2Written(d, lines, TableOf(entries))
  }

  // ---- properties of the two passes ----

  /// Pass 2 stops at the first error: when it succeeds on all lines it
  /// succeeds on every prefix, and the prefix's output starts the whole
  /// output.
  lemma {:induction false} Pass2Prefix(d: Dialect, lines: seq<Line>, symbols: map<string, nat>, i: nat)
    requires i <= |lines| && Pass2(d, lines, symbols).Ok?
    ensures Pass2(d, lines[..i], symbols).Ok?
    ensures Pass2(d, lines[..i], symbols).value.bytes <= Pass2(d, lines, symbols).value.bytes
    decreases |lines|
  {
    if i == |lines| {
      assert lines[..i] == lines;
    } else {
      var prefix := lines[..|lines| - 1];
      Pass2Prefix(d, prefix, symbols, i);
      assert prefix[..i] == lines[..i];
    }
  }

  /// A label line defines its name at the address of the lines before it.
  lemma {:induction false} LabelDefsAt(d: Dialect, lines: seq<Line>, i: nat)
    requires i < |lines| && IsLabelLine(lines[i])
    ensures (LabelName(d, lines[i][0].lexeme), PcAfter(lines[..i])) in LabelDefs(d, lines)
    decreases |lines|
  {
    var prefix := lines[..|lines| - 1];
    if i < |lines| - 1 {
      LabelDefsAt(d, prefix, i);
      assert prefix[..i] == lines[..i];
    } else {
      assert lines[..i] == prefix;
    }
  }

  /// Every definition comes from a label line, at the address of the lines
  /// before it.
  lemma {:induction false} LabelDefsFrom(d: Dialect, lines: seq<Line>, k: nat)
    requires k < |LabelDefs(d, lines)|
    ensures exists i :: (0 <= i < |lines| && IsLabelLine(lines[i]) &&
                         LabelDefs(d, lines)[k] == (LabelName(d, lines[i][0].lexeme), PcAfter(lines[..i])))
    decreases |lines|
  {
    var prefix := lines[..|lines| - 1];
    if k < |LabelDefs(d, prefix)| {
      LabelDefsFrom(d, prefix, k);
      var i :| 0 <= i < |prefix| && IsLabelLine(prefix[i]) &&
        LabelDefs(d, prefix)[k] == (LabelName(d, prefix[i][0].lexeme), PcAfter(prefix[..i]));
      assert prefix[..i] == lines[..i];
      assert lines[i] == prefix[i];
    } else {
      var i := |lines| - 1;
      assert lines[..i] == prefix;
      assert IsLabelLine(lines[i]);
    }
  }

  /// The address pass 1 gives a label is the number of bytes pass 2 emits
  /// before the label's line, so it addresses the code that follows it.
  lemma LabelAddressIsOffset(d: Dialect, lines: seq<Line>, symbols: map<string, nat>, i: nat)
    requires NoEmptyLine(lines) && i < |lines| && IsLabelLine(lines[i])
    requires Pass2(d, lines, symbols).Ok?
    ensures Pass2(d, lines[..i], symbols).Ok?
    ensures var before := Pass2(d, lines[..i], symbols).value.bytes;
      before <= Pass2(d, lines, symbols).value.bytes &&
      (LabelName(d, lines[i][0].lexeme), |before|) in LabelDefs(d, lines)
  {
    Pass2Prefix(d, lines, symbols, i);
    LabelDefsAt(d, lines, i);
    assert NoEmptyLine(lines[..i]);
  }

  /// A label operand is its address relative to the instruction's own,
  /// whenever that difference fits in 32 bits.
  lemma LabelOperand(d: Dialect, t: Token, pc: nat, symbols: map<string, nat>)
    requires t.kind == ID && t.lexeme in symbols
    requires IntMin <= symbols[t.lexeme] - pc <= IntMax
    ensures Operand(d, 'j', t, pc, symbols) == Ok([symbols[t.lexeme] - pc])
  {
    WrapInt32Fits(symbols[t.lexeme] - pc);
  }

  /// The zero register is no 'r' operand and the stack pointer no 'z'
  /// operand, although both read as register 31.
  lemma RegisterClasses(d: Dialect, pc: nat, symbols: map<string, nat>)
    ensures ReadReg("xzr") == Ok(31) && ReadReg("sp") == Ok(31)
    ensures Operand(d, 'r', Token(ZREG, "xzr"), pc, symbols).Err?
    ensures Operand(d, 'z', Token(ID, "sp"), pc, symbols).Err?
    ensures Operand(d, 'r', Token(ID, "sp"), pc, symbols) == Ok([31])
    ensures Operand(d, 'z', Token(ZREG, "xzr"), pc, symbols) == Ok([31])
  {
  }

  /// `b.<cond> label` reads to b.cond with the condition's code and the
  /// label's distance from the instruction.
  lemma BCondLineParses(d: Dialect, suffix: string, target: string, pc: nat, symbols: map<string, nat>)
    requires suffix in CondCodes && target in symbols
    requires IntMin <= symbols[target] - pc <= IntMax
    ensures ParseInstruction(d, [Token(ID, "b"), Token(DOTID, suffix), Token(ID, target)], pc, symbols)
            == Ok(Instr("b.cond", CondCodes[suffix], symbols[target] - pc, 0))
  {
    var line := [Token(ID, "b"), Token(DOTID, suffix), Token(ID, target)];
    PatternOf("b");
    LabelOperand(d, line[2], pc, symbols);
    var none: seq<int> := [];
    assert Operands(d, "", line, 3, pc, symbols) == Ok(none);
    assert "j"[0] == 'j' && "j"[1..] == "";
    OperandsCons(d, "j", line, 2, pc, symbols, [symbols[target] - pc], none);
    assert [symbols[target] - pc] + none == [symbols[target] - pc];
  }

  /// Every instruction word disassembles to the instruction read from its
  /// line, the operands its mnemonic does not use shown as 0.
  lemma InstructionWordDecodes(d: Dialect, line: Line, pc: nat, symbols: map<string, nat>)
    requires line != [] && InstructionWord(d, line, pc, symbols).Ok?
    ensures ParseInstruction(d, line, pc, symbols).Ok?
    ensures var i := ParseInstruction(d, line, pc, symbols).value;
      Decode(InstructionWord(d, line, pc, symbols).value) == Some(Canonical(i.mnemonic, i.a, i.b, i.c))
  {
    var i := ParseInstruction(d, line, pc, symbols).value;
    EncodeDecode(i.mnemonic, i.a, i.b, i.c);
  }

  // ---- the two assemblers agree ----

  /// The line `m xd, xn, xm` of a three-register mnemonic.
  function RrrLine(m: string, rd: nat, rn: nat, rm: nat): Line
    requires rd <= 30 && rn <= 30 && rm <= 30
  {
    [Token(ID, m), Token(REG, RegName(rd)), Token(COMMA, ","), Token(REG, RegName(rn)),
     Token(COMMA, ","), Token(REG, RegName(rm))]
  }

  /// The first pattern letter matched, then the rest of the pattern.
  lemma OperandsCons(d: Dialect, pattern: string, line: Line, ti: nat, pc: nat, symbols: map<string, nat>, a: seq<int>, rest: seq<int>)
    requires pattern != [] && ti < |line|
    requires Operand(d, pattern[0], line[ti], pc, symbols) == Ok(a)
    requires Operands(d, pattern[1..], line, ti + 1, pc, symbols) == Ok(rest)
    ensures Operands(d, pattern, line, ti, pc, symbols) == Ok(a + rest)
  {
  }

  /// A register token written by `RegName` is read back as its number.
  lemma OperandRegName(d: Dialect, p: char, n: nat, pc: nat, symbols: map<string, nat>)
    requires p == 'r' || p == 'z'
    requires n <= 30
    ensures Operand(d, p, Token(REG, RegName(n)), pc, symbols) == Ok([n])
  {
    ReadRegName(n);
  }

  /// A final register matched by 'z'.
  lemma LastRegister(d: Dialect, line: Line, ti: nat, n: nat, pc: nat, symbols: map<string, nat>)
    requires ti + 1 == |line| && n <= 30 && line[ti] == Token(REG, RegName(n))
    ensures Operands(d, "z", line, ti, pc, symbols) == Ok([n])
  {
    var none: seq<int> := [];
    assert Operands(d, "", line, ti + 1, pc, symbols) == Ok(none);
    OperandRegName(d, 'z', n, pc, symbols);
    assert "z"[0] == 'z' && "z"[1..] == "";
    OperandsCons(d, "z", line, ti, pc, symbols, [n], none);
    assert [n] + none == [n];
  }

  /// A comma, then the rest of the pattern.
  lemma CommaThen(d: Dialect, pattern: string, line: Line, ti: nat, pc: nat, symbols: map<string, nat>, rest: seq<int>)
    requires ti < |line| && line[ti].kind == COMMA
    requires Operands(d, pattern, line, ti + 1, pc, symbols) == Ok(rest)
    ensures Operands(d, ['c'] + pattern, line, ti, pc, symbols) == Ok(rest)
  {
    var none: seq<int> := [];
    assert (['c'] + pattern)[0] == 'c' && (['c'] + pattern)[1..] == pattern;
    OperandsCons(d, ['c'] + pattern, line, ti, pc, symbols, none, rest);
    assert none + rest == rest;
  }

  /// A register matched by 'r', then the rest of the pattern.
  lemma RegisterThen(d: Dialect, pattern: string, line: Line, ti: nat, n: nat, pc: nat, symbols: map<string, nat>, rest: seq<int>)
    requires ti < |line| && n <= 30 && line[ti] == Token(REG, RegName(n))
    requires Operands(d, pattern, line, ti + 1, pc, symbols) == Ok(rest)
    ensures Operands(d, ['r'] + pattern, line, ti, pc, symbols) == Ok([n] + rest)
  {
    OperandRegName(d, 'r', n, pc, symbols);
    assert (['r'] + pattern)[0] == 'r' && (['r'] + pattern)[1..] == pattern;
    OperandsCons(d, ['r'] + pattern, line, ti, pc, symbols, [n], rest);
  }

  /// "rcz" collects the numbers of a line's last two registers.
  lemma RrrTail(d: Dialect, line: Line, rn: nat, rm: nat, pc: nat, symbols: map<string, nat>)
    requires |line| == 6 && rn <= 30 && rm <= 30
    requires line[3] == Token(REG, RegName(rn)) && line[4].kind == COMMA && line[5] == Token(REG, RegName(rm))
    ensures Operands(d, "rcz", line, 3, pc, symbols) == Ok([rn, rm])
  {
    LastRegister(d, line, 5, rm, pc, symbols);
    CommaThen(d, "z", line, 4, pc, symbols, [rm]);
    assert ['c'] + "z" == "cz";
    RegisterThen(d, "cz", line, 3, rn, pc, symbols, [rm]);
    assert ['r'] + "cz" == "rcz" && [rn] + [rm] == [rn, rm];
  }

  /// "rcrcz" collects the numbers of a line's three registers.
  lemma RrrOperands(d: Dialect, line: Line, rd: nat, rn: nat, rm: nat, pc: nat, symbols: map<string, nat>)
    requires |line| == 6 && rd <= 30 && rn <= 30 && rm <= 30
    requires line[1] == Token(REG, RegName(rd)) && line[3] == Token(REG, RegName(rn)) && line[5] == Token(REG, RegName(rm))
    requires line[2].kind == COMMA && line[4].kind == COMMA
    ensures Operands(d, "rcrcz", line, 1, pc, symbols) == Ok([rd, rn, rm])
  {
    RrrTail(d, line, rn, rm, pc, symbols);
    CommaThen(d, "rcz", line, 2, pc, symbols, [rn, rm]);
    assert ['c'] + "rcz" == "crcz";
    RegisterThen(d, "crcz", line, 1, rd, pc, symbols, [rn, rm]);
    assert ['r'] + "crcz" == "rcrcz" && [rd] + [rn, rm] == [rd, rn, rm];
  }

  /// The pattern "rcrcz" collects the three register numbers.
  lemma RrrLineOperands(d: Dialect, m: string, rd: nat, rn: nat, rm: nat, pc: nat, symbols: map<string, nat>)
    requires rd <= 30 && rn <= 30 && rm <= 30
    ensures Operands(d, "rcrcz", RrrLine(m, rd, rn, rm), 1, pc, symbols) == Ok([rd, rn, rm])
  {
    RrrOperands(d, RrrLine(m, rd, rn, rm), rd, rn, rm, pc, symbols);
  }

  /// Pass 2 reads such a line back to its three registers, at any address
  /// and with any symbols.
  lemma RrrLineParses(d: Dialect, m: string, rd: nat, rn: nat, rm: nat, pc: nat, symbols: map<string, nat>)
    requires m in {"add", "sub", "mul", "smulh", "umulh", "sdiv", "udiv"}
    requires rd <= 30 && rn <= 30 && rm <= 30
    ensures ParseInstruction(d, RrrLine(m, rd, rn, rm), pc, symbols) == Ok(Instr(m, rd, rn, rm))
  {
    RrrLineOperands(d, m, rd, rn, rm, pc, symbols);
    PatternOf(m);
  }

  /// ... and encodes them.
  lemma RrrLineWord(d: Dialect, m: string, rd: nat, rn: nat, rm: nat, pc: nat, symbols: map<string, nat>)
    requires m in {"add", "sub", "mul", "smulh", "umulh", "sdiv", "udiv"}
    requires rd <= 30 && rn <= 30 && rm <= 30
    ensures InstructionWord(d, RrrLine(m, rd, rn, rm), pc, symbols) == Encode(m, rd, rn, rm)
  {
    RrrLineParses(d, m, rd, rn, rm, pc, symbols);
  }

  /// A token both assemblers read alike: a label ending in ':', and a
  /// numeral that is neither a bare "0x" nor written with "0X".
  predicate Portable(t: Token) {
    (t.kind == LABEL ==> |t.lexeme| > 0 && t.lexeme[|t.lexeme| - 1] == ':') &&
    (t.kind == INT || t.kind == HEXINT ==> ReadersAgree(t.lexeme))
  }

  predicate AllPortable(lines: seq<Line>) {
    forall i, k :: 0 <= i < |lines| && 0 <= k < |lines[i]| ==> Portable(lines[i][k])
  }

  lemma OperandDialects(p: char, t: Token, pc: nat, symbols: map<string, nat>)
    requires Portable(t)
    ensures Operand(Modular, p, t, pc, symbols) == Operand(SingleFile, p, t, pc, symbols)
  {
    if t.kind == INT || t.kind == HEXINT {
      AsmReadImmAgrees(t.lexeme);
    }
  }

  lemma {:induction false} OperandsDialects(pattern: string, line: Line, ti: nat, pc: nat, symbols: map<string, nat>)
    requires ti <= |line| && forall k :: 0 <= k < |line| ==> Portable(line[k])
    ensures Operands(Modular, pattern, line, ti, pc, symbols) == Operands(SingleFile, pattern, line, ti, pc, symbols)
    decreases |pattern|
  {
    if pattern != [] && ti < |line| {
      OperandDialects(pattern[0], line[ti], pc, symbols);
      OperandsDialects(pattern[1..], line, ti + 1, pc, symbols);
    }
  }

  lemma InstructionDialects(line: Line, pc: nat, symbols: map<string, nat>)
    requires line != [] && forall k :: 0 <= k < |line| ==> Portable(line[k])
    ensures InstructionWord(Modular, line, pc, symbols).Ok? <==> InstructionWord(SingleFile, line, pc, symbols).Ok?
    ensures InstructionWord(Modular, line, pc, symbols).Ok? ==>
      InstructionWord(Modular, line, pc, symbols) == InstructionWord(SingleFile, line, pc, symbols)
  {
    if |line| > 1 {
      OperandsDialects(Patterns["b"], line, 2, pc, symbols);
    }
    if line[0].lexeme in Patterns {
      OperandsDialects(Patterns[line[0].lexeme], line, 1, pc, symbols);
    }
    assert ParseInstruction(Modular, line, pc, symbols) == ParseInstruction(SingleFile, line, pc, symbols);
  }

  lemma {:induction false} Pass2Dialects(lines: seq<Line>, symbols: map<string, nat>)
    requires AllPortable(lines)
    ensures Pass2(Modular, lines, symbols).Ok? <==> Pass2(SingleFile, lines, symbols).Ok?
    ensures Pass2(Modular, lines, symbols).Ok? ==> Pass2(Modular, lines, symbols) == Pass2(SingleFile, lines, symbols)
  {
    if lines != [] {
      var prefix := lines[..|lines| - 1];
      var line := lines[|lines| - 1];
      assert AllPortable(prefix) by {
        forall i, k | 0 <= i < |prefix| && 0 <= k < |prefix[i]|
          ensures Portable(prefix[i][k])
        {
          assert prefix[i] == lines[i];
        }
      }
      Pass2Dialects(prefix, symbols);
      var prev := Pass2(Modular, prefix, symbols);
      if prev.Ok? && line != [] && !IsLabelLine(line) && !IsDataLine(line) {
        assert forall k :: 0 <= k < |line| ==> Portable(line[k]) by {
          forall k | 0 <= k < |line|
            ensures Portable(line[k])
          {
            assert line[k] == lines[|lines| - 1][k];
          }
        }
        InstructionDialects(line, prev.value.pc, symbols);
      }
    }
  }

  lemma {:induction false} LabelDefsDialects(lines: seq<Line>)
    requires AllPortable(lines)
    ensures LabelDefs(Modular, lines) == LabelDefs(SingleFile, lines)
  {
    if lines != [] {
      var prefix := lines[..|lines| - 1];
      assert AllPortable(prefix) by {
        forall i, k | 0 <= i < |prefix| && 0 <= k < |prefix[i]|
          ensures Portable(prefix[i][k])
        {
          assert prefix[i] == lines[i];
        }
      }
      LabelDefsDialects(prefix);
      var line := lines[|lines| - 1];
      if IsLabelLine(line) {
        assert Portable(lines[|lines| - 1][0]);
      }
    }
  }

  lemma {:induction false} GroupStatePortable(tokens: seq<Token>)
    requires forall k :: 0 <= k < |tokens| ==> Portable(tokens[k])
    ensures AllPortable(GroupState(tokens).1)
    ensures forall k :: 0 <= k < |GroupState(tokens).0| ==> Portable(GroupState(tokens).0[k])
  {
    if tokens != [] {
      var prefix := tokens[..|tokens| - 1];
      assert forall k :: 0 <= k < |prefix| ==> Portable(prefix[k]) by {
        forall k | 0 <= k < |prefix|
          ensures Portable(prefix[k])
        {
          assert prefix[k] == tokens[k];
        }
      }
      GroupStatePortable(prefix);
      assert Portable(tokens[|tokens| - 1]);
    }
  }

  /// On a token stream whose labels end in ':' and whose numerals both
  /// readers accept alike, the class-based and the single-file assembler
  /// succeed on the same programs and produce the same bytes and symbols.
  lemma DialectsAgree(tokens: seq<Token>)
    requires forall k :: 0 <= k < |tokens| ==> Portable(tokens[k])
    ensures Assemble(Modular, tokens).Ok? <==> Assemble(SingleFile, tokens).Ok?
    ensures Assemble(Modular, tokens).Ok? ==> Assemble(Modular, tokens) == Assemble(SingleFile, tokens)
  {
    GroupStatePortable(tokens);
    var lines := GroupLines(tokens);
    assert AllPortable(lines);
    LabelDefsDialects(lines);
    var entries := LabelDefs(Modular, lines);
    Pass2Dialects(lines, TableOf(entries));
  }
}
