/// Instruction selection (ir_codegen.h `IRCodeGen`): lowers IR statements to
/// the token stream the assembler reads, one line per emitted instruction.
/// Beside the lowering, this module gives the emitted arithmetic lines a
/// meaning (a register-file interpreter) and the `cmp`/`b.cond` pair its
/// condition-flag semantics, so that the lowering can be checked against the
/// meaning of the IR.
module IRCodeGen {
  import opened Common
  import opened Text
  import opened Tokens
  import opened IR
  import Lexer
  import TwoPass
  import Encoder

  const Comma: Token := Token(COMMA, ",")
  const Newline: Token := Token(NEWLINE, "")

  /// The result of pushing `ts` after `out`, or the error that stopped it.
  function Pushed(out: seq<Token>, ts: Result<seq<Token>>): Result<seq<Token>> {
    if ts.Ok? then Ok(out + ts.value) else Err(ts.error)
  }

  // ---- operand tokens ----

  /// `regToken`: "xzr" is ZREG, "sp" an ID, 'x' followed by a digit a REG;
  /// anything else is refused.
  function RegToken(s: string): (r: Result<Token>)
    ensures r.Ok? <==> IsReg(s)
    ensures r.Err? ==> r.error == NotARegister(s)
    ensures r.Ok? ==> r.value.lexeme == s && r.value.kind in {REG, ZREG, ID}
    ensures r.Ok? ==> (r.value.kind == ZREG <==> s == "xzr") && (r.value.kind == ID <==> s == "sp")
  {
    if s == "xzr" then Ok(Token(ZREG, s))
    else if s == "sp" then Ok(Token(ID, s))
    else if |s| >= 2 && s[0] == 'x' && IsDigit(s[1]) then Ok(Token(REG, s))
    else Err(NotARegister(s))
  }

  /// A register token is the one the raw-assembly lexer gives the same text.
  lemma RegTokenAsLexed(s: string)
    requires IsReg(s) && s[|s| - 1] != ':'
    ensures RegToken(s) == Ok(Lexer.Classify(s))
  {
    assert !IsInteger(s) by {
      assert !IsDigit(s[0]);
    }
  }

  /// The token `immOrLabel` makes of a nonempty operand: hexadecimal,
  /// decimal, or a label reference.
  function OperandToken(s: string): Token {
    Token(if HasHexPrefix(s) then HEXINT else if IsInteger(s) then INT else ID, s)
  }

  function OperandOf(s: string): Result<Token> {
    if s == [] then Err(EmptyOperand) else Ok(OperandToken(s))
  }

  /// `immOrLabel`, with its digit scan.
  method ImmOrLabel(s: string) returns (r: Result<Token>)
    ensures r == OperandOf(s)
  {
    if s == [] {
      return Err(EmptyOperand);
    }
    if s[0] == '0' && |s| > 2 && (s[1] == 'x' || s[1] == 'X') {
      return Ok(Token(HEXINT, s));
    }
    var isInt := true;
    var st := if s[0] == '-' || s[0] == '+' then 1 else 0;
    if st >= |s| {
      isInt := false;
    } else {
      var i := st;
      while i < |s|
        invariant st <= i <= |s|
        invariant forall k :: st <= k < i ==> IsDigit(s[k])
      {
        if !IsDigit(s[i]) {
          isInt := false;
          break;
        }
        i := i + 1;
      }
    }
    if isInt {
      return Ok(Token(INT, s));
    }
    return Ok(Token(ID, s));
  }

  /// An operand that is no register name gets the token the raw-assembly
  /// lexer gives the same text.
  lemma OperandTokenAsLexed(s: string)
    requires s != [] && s[|s| - 1] != ':' && s[0] != '.'
    requires s != "xzr" && !(|s| >= 2 && s[0] == 'x' && IsDigit(s[1]))
    ensures OperandToken(s) == Lexer.Classify(s)
  {
  }

  // ---- comparisons ----

  const Comparisons: set<string> := {"==", "!=", "<", "<=", ">", ">="}

  /// `condSuffix`: the b.cond suffix for a comparison operator.
  function CondSuffix(cond: string): (r: Result<string>)
    ensures r.Ok? <==> cond in Comparisons
    ensures r.Err? ==> r.error == UnknownCondition(cond)
    ensures r.Ok? ==> r.value in Lexer.CondSuffixes && r.value in TwoPass.CondCodes
  {
    if cond == "==" then Ok(".eq")
    else if cond == "!=" then Ok(".ne")
    else if cond == "<" then Ok(".lt")
    else if cond == "<=" then Ok(".le")
    else if cond == ">" then Ok(".gt")
    else if cond == ">=" then Ok(".ge")
    else Err(UnknownCondition(cond))
  }

  /// The comparison the pseudocode means, on signed values.
  function Compare(cond: string, a: int, b: int): bool
    requires cond in Comparisons
  {
    if cond == "==" then a == b
    else if cond == "!=" then a != b
    else if cond == "<" then a < b
    else if cond == "<=" then a <= b
    else if cond == ">" then a > b
    else a >= b
  }

  const Two63: int := 0x8000_0000_0000_0000
  const Two64: int := 0x1_0000_0000_0000_0000

  predicate IsInt64(x: int) {
    -Two63 <= x < Two63
  }

  /// The NZCV condition flags.
  datatype Flags = Flags(n: bool, z: bool, c: bool, v: bool)

  /// Flags after `cmp a, b` (a 64-bit subtraction whose result is dropped)
  /// on registers holding the signed values `a` and `b`.
  function CmpFlags(a: int, b: int): Flags {
    var diff := (a - b) % Two64;
    Flags(diff >= Two63, diff == 0, a % Two64 >= b % Two64, !IsInt64(a - b))
  }

  /// `ConditionHolds` of the Arm architecture's shared pseudocode: bits 3-1
  /// pick the test, bit 0 inverts it (except for the "always" code 15).
  function ConditionHolds(cond: int, f: Flags): bool
    requires 0 <= cond < 16
  {
    var k := cond / 2;
    var result :=
      if k == 0 then f.z
      else if k == 1 then f.c
      else if k == 2 then f.n
      else if k == 3 then f.v
      else if k == 4 then f.c && !f.z
      else if k == 5 then f.n == f.v
      else if k == 6 then f.n == f.v && !f.z
      else true;
    if cond % 2 == 1 && cond != 15 then !result else result
  }

  /// For 64-bit operands, Z is equality and "N differs from V" is signed less-than.
  lemma FlagsOfDifference(a: int, b: int)
    requires IsInt64(a) && IsInt64(b)
    ensures CmpFlags(a, b).z <==> a == b
    ensures CmpFlags(a, b).n != CmpFlags(a, b).v <==> a < b
  {
    var d := a - b;
    if d >= 0 {
      Encoder.ModUnique(d, Two64, 0, d);
    } else {
      Encoder.ModUnique(d, Two64, -1, d + Two64);
    }
  }

  /// The branch `cmp src1, src2` then `b<suffix>` takes is exactly the
  /// comparison the pseudocode wrote, for all 64-bit register values.
  lemma CondSuffixMeaning(cond: string, a: int, b: int)
    requires cond in Comparisons && IsInt64(a) && IsInt64(b)
    ensures ConditionHolds(TwoPass.CondCodes[CondSuffix(cond).value], CmpFlags(a, b)) == Compare(cond, a, b)
  {
    FlagsOfDifference(a, b);
  }

  // ---- lowering ----

  /// The six tokens `emit3Reg` pushes: mnemonic, register, comma, register,
  /// comma, register.
  function ThreeReg(instr: string, a: string, b: string, c: string): (r: Result<seq<Token>>)
    ensures r.Ok? <==> IsReg(a) && IsReg(b) && IsReg(c)
    ensures r.Ok? ==> |r.value| == 6 && r.value[0] == Token(ID, instr) && r.value[2] == Comma && r.value[4] == Comma
    ensures r.Ok? ==> r.value[1].lexeme == a && r.value[3].lexeme == b && r.value[5].lexeme == c
  {
    var ta :- RegToken(a);
    var tb :- RegToken(b);
    var tc :- RegToken(c);
    Ok([Token(ID, instr), ta, Comma, tb, Comma, tc])
  }

  /// `emit3Reg`.
  method Emit3Reg(instr: string, a: string, b: string, c: string, out0: seq<Token>) returns (r: Result<seq<Token>>)
    ensures r == Pushed(out0, ThreeReg(instr, a, b, c))
  {
    var out := out0 + [Token(ID, instr)];
    var ta :- RegToken(a);
    out := out + [ta, Comma];
    var tb :- RegToken(b);
    out := out + [tb, Comma];
    var tc :- RegToken(c);
    out := out + [tc];
    assert out == out0 + [Token(ID, instr), ta, Comma, tb, Comma, tc];
    return Ok(out);
  }

  /// The remainder sequence of ir_codegen.h as written: `sdiv d, a, b`,
  /// `mul d, d, b`, `sub d, a, d`, with `d` as the temporary.
  function ModTokens(d: string, a: string, b: string): Result<seq<Token>> {
    var div :- ThreeReg("sdiv", d, a, b);
    var mul :- ThreeReg("mul", d, d, b);
    var sub :- ThreeReg("sub", d, a, d);
    Ok(div + [Newline] + mul + [Newline] + sub)
  }

  /// The tokens `lowerOne` pushes for one statement.
  function InstTokens(inst: IRInstruction): Result<seq<Token>> {
    match inst.op
    case LABEL => Ok([Token(TokenType.LABEL, inst.dst + ":")])
    case ADD => ThreeReg("add", inst.dst, inst.src1, inst.src2)
    case SUB => ThreeReg("sub", inst.dst, inst.src1, inst.src2)
    case MUL => ThreeReg("mul", inst.dst, inst.src1, inst.src2)
    case DIV => ThreeReg("sdiv", inst.dst, inst.src1, inst.src2)
    case MOD => ModTokens(inst.dst, inst.src1, inst.src2)
    case MOV => ThreeReg("add", inst.dst, inst.src1, "xzr")
    case LOAD =>
      var rt :- RegToken(inst.dst);
      var rn :- RegToken(inst.src1);
      Ok([Token(ID, "ldur"), rt, Comma, Token(LBRACK, "["), rn, Comma, Token(INT, inst.imm), Token(RBRACK, "]")])
    case STORE =>
      var rt :- RegToken(inst.src1);
      var rn :- RegToken(inst.dst);
      Ok([Token(ID, "stur"), rt, Comma, Token(LBRACK, "["), rn, Comma, Token(INT, inst.imm), Token(RBRACK, "]")])
    case CMP_BRANCH =>
      var rn :- RegToken(inst.src1);
      var rm :- RegToken(inst.src2);
      var suffix :- CondSuffix(inst.cond);
      var target :- OperandOf(inst.target);
      Ok([Token(ID, "cmp"), rn, Comma, rm, Newline, Token(ID, "b"), Token(DOTID, suffix), target])
    case BRANCH =>
      var target :- OperandOf(inst.target);
      Ok([Token(ID, "b"), target])
    case CALL =>
      var rn :- RegToken(inst.src1);
      Ok([Token(ID, "blr"), rn])
    case RET => Ok([Token(ID, "br"), Token(REG, "x30")])
    case DATA8 =>
      var v :- OperandOf(inst.imm);
      Ok([Token(DOTID, ".8byte"), v])
  }

  /// `lowerOne`: pushes the statement's tokens.
  method LowerOne(inst: IRInstruction, out0: seq<Token>) returns (r: Result<seq<Token>>)
    ensures r == Pushed(out0, InstTokens(inst))
  {
    var out := out0;
    match inst.op {
      case LABEL =>
        out := out + [Token(TokenType.LABEL, inst.dst + ":")];
      case ADD =>
        out :- Emit3Reg("add", inst.dst, inst.src1, inst.src2, out);
      case SUB =>
        out :- Emit3Reg("sub", inst.dst, inst.src1, inst.src2, out);
      case MUL =>
        out :- Emit3Reg("mul", inst.dst, inst.src1, inst.src2, out);
      case DIV =>
        out :- Emit3Reg("sdiv", inst.dst, inst.src1, inst.src2, out);
      case MOD =>
        out :- Emit3Reg("sdiv", inst.dst, inst.src1, inst.src2, out);
        out := out + [Newline];
        // The registers are the ones just accepted, so these cannot fail.
        var mul := Emit3Reg("mul", inst.dst, inst.dst, inst.src2, out);
        out := mul.value + [Newline];
        var sub := Emit3Reg("sub", inst.dst, inst.src1, inst.dst, out);
        out := sub.value;
        assert out == out0 + (ThreeReg("sdiv", inst.dst, inst.src1, inst.src2).value + [Newline] +
          ThreeReg("mul", inst.dst, inst.dst, inst.src2).value + [Newline] +
          ThreeReg("sub", inst.dst, inst.src1, inst.dst).value);
      case MOV =>
        out :- Emit3Reg("add", inst.dst, inst.src1, "xzr", out);
      case LOAD =>
        var rt :- RegToken(inst.dst);
        var rn :- RegToken(inst.src1);
        out := out + [Token(ID, "ldur"), rt, Comma, Token(LBRACK, "["), rn, Comma, Token(INT, inst.imm), Token(RBRACK, "]")];
      case STORE =>
        var rt :- RegToken(inst.src1);
        var rn :- RegToken(inst.dst);
        out := out + [Token(ID, "stur"), rt, Comma, Token(LBRACK, "["), rn, Comma, Token(INT, inst.imm), Token(RBRACK, "]")];
      case CMP_BRANCH =>
        var rn :- RegToken(inst.src1);
        var rm :- RegToken(inst.src2);
        out := out + [Token(ID, "cmp"), rn, Comma, rm, Newline, Token(ID, "b")];
        var suffix :- CondSuffix(inst.cond);
        out := out + [Token(DOTID, suffix)];
        var target :- ImmOrLabel(inst.target);
        out := out + [target];
        assert out == out0 + [Token(ID, "cmp"), rn, Comma, rm, Newline, Token(ID, "b"), Token(DOTID, suffix), target];
      case BRANCH =>
        var target :- ImmOrLabel(inst.target);
        out := out + [Token(ID, "b"), target];
      case CALL =>
        var rn :- RegToken(inst.src1);
        out := out + [Token(ID, "blr"), rn];
      case RET =>
        out := out + [Token(ID, "br"), Token(REG, "x30")];
      case DATA8 =>
        var v :- ImmOrLabel(inst.imm);
        out := out + [Token(DOTID, ".8byte"), v];
    }
    return Ok(out);
  }

  /// Every statement's tokens followed by a NEWLINE; the first statement
  /// that cannot be lowered aborts the whole lowering.
  function LowerText(ir: seq<IRInstruction>): Result<seq<Token>> {
    if ir == [] then Ok([])
    else
      var before :- LowerText(ir[..|ir| - 1]);
      var ts :- InstTokens(ir[|ir| - 1]);
      Ok(before + ts + [Newline])
  }

  /// `lower`.
  method Lower(ir: seq<IRInstruction>) returns (r: Result<seq<Token>>)
    ensures r == LowerText(ir)
  {
    var tokens := [];
    for k := 0 to |ir|
      invariant LowerText(ir[..k]) == Ok(tokens)
    {
      assert ir[..k + 1][..k] == ir[..k];
      var next := LowerOne(ir[k], tokens);
      if next.Err? {
        LowerSticky(ir, k + 1);
        return Err(next.error);
      }
      tokens := next.value + [Newline];
    }
    assert ir[..|ir|] == ir;
    return Ok(tokens);
  }

  /// Once a prefix fails to lower, the whole program fails the same way.
  lemma {:induction false} LowerSticky(ir: seq<IRInstruction>, i: nat)
    requires i <= |ir| && LowerText(ir[..i]).Err?
    ensures LowerText(ir) == LowerText(ir[..i])
    decreases |ir| - i
  {
    if i < |ir| {
      assert ir[..i + 1][..i] == ir[..i];
      LowerSticky(ir, i + 1);
    } else {
      assert ir[..i] == ir;
    }
  }

  // ---- line structure ----

  /// Lines a statement adds beyond its own: two for MOD, one for CMP_BRANCH.
  function ExtraLines(op: Op): nat {
    if op == MOD then 2 else if op == CMP_BRANCH then 1 else 0
  }

  function ExtraLinesOf(ir: seq<IRInstruction>): nat {
    if ir == [] then 0 else ExtraLinesOf(ir[..|ir| - 1]) + ExtraLines(ir[|ir| - 1].op)
  }

  lemma ThreeRegNewlines(instr: string, a: string, b: string, c: string)
    requires ThreeReg(instr, a, b, c).Ok?
    ensures Lexer.Newlines(ThreeReg(instr, a, b, c).value) == 0
  {
    var ts := ThreeReg(instr, a, b, c).value;
    Lexer.NewlinesNone(ts);
  }

  /// A stream of lines without NEWLINEs joined by NEWLINEs.
  lemma NewlinesJoin(a: seq<Token>, b: seq<Token>)
    requires Lexer.Newlines(a) == 0
    ensures Lexer.Newlines(a + [Newline] + b) == 1 + Lexer.Newlines(b)
  {
    Lexer.NewlinesAppend(a, [Newline]);
    Lexer.NewlinesAppend(a + [Newline], b);
  }

  lemma ModNewlines(d: string, a: string, b: string)
    requires ModTokens(d, a, b).Ok?
    ensures Lexer.Newlines(ModTokens(d, a, b).value) == 2
  {
    var div, mul, sub := ThreeReg("sdiv", d, a, b).value, ThreeReg("mul", d, d, b).value, ThreeReg("sub", d, a, d).value;
    ThreeRegNewlines("sdiv", d, a, b);
    ThreeRegNewlines("mul", d, d, b);
    ThreeRegNewlines("sub", d, a, d);
    NewlinesJoin(mul, sub);
    NewlinesJoin(div, mul + [Newline] + sub);
    assert div + [Newline] + (mul + [Newline] + sub) == div + [Newline] + mul + [Newline] + sub;
  }

  lemma CmpBranchNewlines(inst: IRInstruction)
    requires inst.op == CMP_BRANCH && InstTokens(inst).Ok?
    ensures Lexer.Newlines(InstTokens(inst).value) == 1
  {
    var ts := InstTokens(inst).value;
    var head := ts[..4];
    var tail := ts[5..];
    assert ts == head + [Newline] + tail;
    Lexer.NewlinesNone(head);
    Lexer.NewlinesNone(tail);
    NewlinesJoin(head, tail);
  }

  /// The NEWLINEs inside one statement's tokens: two for MOD, one for
  /// CMP_BRANCH, none otherwise.
  lemma InstNewlines(inst: IRInstruction)
    requires InstTokens(inst).Ok?
    ensures Lexer.Newlines(InstTokens(inst).value) == ExtraLines(inst.op)
  {
    if inst.op == MOD {
      ModNewlines(inst.dst, inst.src1, inst.src2);
    } else if inst.op == CMP_BRANCH {
      CmpBranchNewlines(inst);
    } else {
      Lexer.NewlinesNone(InstTokens(inst).value);
    }
  }

  /// `lower` ends every statement with one NEWLINE, so the stream has one
  /// line per statement plus the inner lines of MOD and CMP_BRANCH.
  lemma {:induction false} LowerNewlines(ir: seq<IRInstruction>)
    requires LowerText(ir).Ok?
    ensures Lexer.Newlines(LowerText(ir).value) == |ir| + ExtraLinesOf(ir)
    decreases |ir|
  {
    if ir != [] {
      var prefix := ir[..|ir| - 1];
      var before := LowerText(prefix).value;
      var ts := InstTokens(ir[|ir| - 1]).value;
      LowerNewlines(prefix);
      InstNewlines(ir[|ir| - 1]);
      Lexer.NewlinesAppend(before, ts);
      Lexer.NewlinesAppend(before + ts, [Newline]);
    }
  }

  /// Lowering succeeds exactly when every statement can be lowered.
  lemma {:induction false} LowerSucceeds(ir: seq<IRInstruction>)
    ensures LowerText(ir).Ok? <==> forall k :: 0 <= k < |ir| ==> InstTokens(ir[k]).Ok?
    decreases |ir|
  {
    if ir != [] {
      var prefix := ir[..|ir| - 1];
      var last := InstTokens(ir[|ir| - 1]);
      assert LowerText(ir).Ok? <==> LowerText(prefix).Ok? && last.Ok?;
      LowerSucceeds(prefix);
      assert forall k :: 0 <= k < |prefix| ==> prefix[k] == ir[k];
    }
  }

  // ---- meaning of the arithmetic lines ----

  /// Register contents by name; a register never written holds 0.
  type Regs = map<string, int>

  /// Reading a register; "xzr" always reads as zero.
  function Read(regs: Regs, r: string): int {
    if r == "xzr" || r !in regs then 0 else regs[r]
  }

  /// Writing a register; writes to "xzr" are discarded.
  function Write(regs: Regs, r: string, v: int): Regs {
    if r == "xzr" then regs else regs[r := v]
  }

  function Abs(x: int): nat {
    if x < 0 then -x else x
  }

  /// Division truncating toward zero, as C's `/` and the A64 SDIV
  /// instruction compute it; SDIV gives 0 for a zero divisor.
  function Quot(a: int, b: int): int {
    if b == 0 then 0
    else
      var q := Abs(a) / Abs(b);
      if (a < 0) == (b < 0) then q else -q
  }

  /// C's `%`: the magnitude is |a| mod |b| and the sign is the dividend's.
  function Rem(a: int, b: int): int
    requires b != 0
  {
    if a >= 0 then Abs(a) % Abs(b) else -(Abs(a) % Abs(b))
  }

  /// Subtracting the truncated quotient times the divisor leaves C's remainder.
  lemma QuotRem(a: int, b: int)
    requires b != 0
    ensures a - Quot(a, b) * b == Rem(a, b)
  {
    var q := Abs(a) / Abs(b);
    var m := Abs(a) % Abs(b);
    assert Abs(a) == q * Abs(b) + m;
    if b < 0 {
      assert q * b == -(q * Abs(b));
    } else {
      assert q * b == q * Abs(b);
    }
  }

  const ArithMnemonics: set<string> := {"add", "sub", "mul", "sdiv"}

  function Apply(m: string, x: int, y: int): int {
    if m == "add" then x + y
    else if m == "sub" then x - y
    else if m == "mul" then x * y
    else Quot(x, y)
  }

  /// Runs a token stream of three-register arithmetic lines; None when a
  /// line is not one.
  function Run(ts: seq<Token>, regs: Regs): Option<Regs>
    decreases |ts|
  {
    if ts == [] then Some(regs)
    else if ts[0].kind == NEWLINE then Run(ts[1..], regs)
    else if |ts| >= 6 && ts[0].kind == ID && ts[0].lexeme in ArithMnemonics && ts[2].kind == COMMA && ts[4].kind == COMMA then
      Run(ts[6..], Write(regs, ts[1].lexeme, Apply(ts[0].lexeme, Read(regs, ts[3].lexeme), Read(regs, ts[5].lexeme))))
    else None
  }

  /// Running one stream after another.
  lemma {:induction false} RunAppend(a: seq<Token>, b: seq<Token>, regs: Regs)
    requires Run(a, regs).Some?
    ensures Run(a + b, regs) == Run(b, Run(a, regs).value)
    decreases |a|
  {
    if a == [] {
      assert a + b == b;
    } else if a[0].kind == NEWLINE {
      assert (a + b)[1..] == a[1..] + b;
      RunAppend(a[1..], b, regs);
    } else {
      assert (a + b)[..6] == a[..6];
      assert (a + b)[6..] == a[6..] + b;
      var next := Write(regs, a[1].lexeme, Apply(a[0].lexeme, Read(regs, a[3].lexeme), Read(regs, a[5].lexeme)));
      RunAppend(a[6..], b, next);
    }
  }

  /// Statements with a register-only meaning.
  predicate Straight(inst: IRInstruction) {
    IsArithmetic(inst.op) || inst.op == MOV
  }

  /// The destination of a MOD is neither of its sources: the remainder
  /// sequence uses the destination as its temporary.
  predicate Unaliased(inst: IRInstruction) {
    inst.op == MOD ==> inst.dst != inst.src1 && inst.dst != inst.src2
  }

  /// The statement's meaning is defined: no division by zero.
  predicate Defined(inst: IRInstruction, regs: Regs) {
    (inst.op == DIV || inst.op == MOD) ==> Read(regs, inst.src2) != 0
  }

  /// What the IR statement means: `dst = src1 op src2` with C's operators,
  /// or `dst = src1` for MOV.
  function Eval(inst: IRInstruction, regs: Regs): Regs
    requires Straight(inst) && Defined(inst, regs)
  {
    var x := Read(regs, inst.src1);
    var y := Read(regs, inst.src2);
    var v :=
      match inst.op
      case ADD => x + y
      case SUB => x - y
      case MUL => x * y
      case DIV => Quot(x, y)
      case MOD => Rem(x, y)
      case MOV => x;
    Write(regs, inst.dst, v)
  }

  lemma RunThreeReg(instr: string, a: string, b: string, c: string, regs: Regs)
    requires instr in ArithMnemonics && ThreeReg(instr, a, b, c).Ok?
    ensures Run(ThreeReg(instr, a, b, c).value, regs) == Some(Step(regs, instr, a, b, c))
  {
    var ts := ThreeReg(instr, a, b, c).value;
    assert ts[6..] == [];
  }

  lemma RunNewline(ts: seq<Token>, regs: Regs)
    requires Run(ts, regs).Some?
    ensures Run(ts + [Newline], regs) == Run(ts, regs)
  {
    RunAppend(ts, [Newline], regs);
    assert [Newline][1..] == [];
  }

  /// Running three lines separated by line breaks runs them in turn.
  lemma RunThreeLines(t1: seq<Token>, t2: seq<Token>, t3: seq<Token>, regs: Regs)
    requires Run(t1, regs).Some? && Run(t2, Run(t1, regs).value).Some?
    ensures Run(t1 + [Newline] + t2 + [Newline] + t3, regs) == Run(t3, Run(t2, Run(t1, regs).value).value)
  {
    RunNewline(t1, regs);
    RunAppend(t1 + [Newline], t2, regs);
    RunNewline(t1 + [Newline] + t2, regs);
    RunAppend(t1 + [Newline] + t2 + [Newline], t3, regs);
  }

  /// The register file after one three-register line `m d, a, b`.
  function Step(regs: Regs, m: string, d: string, a: string, b: string): Regs {
    Write(regs, d, Apply(m, Read(regs, a), Read(regs, b)))
  }

  /// The register algebra behind the remainder sequence: with `d` distinct
  /// from both sources, the three steps leave `d` holding C's remainder.
  lemma ModSteps(d: string, a: string, b: string, regs: Regs)
    requires d != a && d != b && Read(regs, b) != 0
    ensures Step(Step(Step(regs, "sdiv", d, a, b), "mul", d, d, b), "sub", d, a, d)
            == Write(regs, d, Rem(Read(regs, a), Read(regs, b)))
  {
    var x, y := Read(regs, a), Read(regs, b);
    var r1 := Step(regs, "sdiv", d, a, b);
    var r2 := Step(r1, "mul", d, d, b);
    assert Read(r1, b) == y;
    assert Read(r2, a) == x;
    QuotRem(x, y);
    if d != "xzr" {
      assert Read(r2, d) == Quot(x, y) * y;
    } else {
      assert r2 == regs;
    }
  }

  /// Lowered MOD computes C's remainder when the destination is distinct
  /// from both sources.
  lemma RunMod(d: string, a: string, b: string, regs: Regs)
    requires d != a && d != b && ModTokens(d, a, b).Ok? && Read(regs, b) != 0
    ensures Run(ModTokens(d, a, b).value, regs) == Some(Write(regs, d, Rem(Read(regs, a), Read(regs, b))))
  {
    assert ModTokens(d, a, b).value
      == ThreeReg("sdiv", d, a, b).value + [Newline] + ThreeReg("mul", d, d, b).value + [Newline] + ThreeReg("sub", d, a, d).value;
    RunThreeSteps("sdiv", d, a, b, "mul", d, d, b, "sub", d, a, d, regs);
    ModSteps(d, a, b, regs);
  }

  /// Lowering preserves the meaning of every register-only statement: the
  /// emitted lines leave the registers as the statement says.
  lemma LoweringMeaning(inst: IRInstruction, regs: Regs)
    requires Straight(inst) && Unaliased(inst) && Defined(inst, regs) && InstTokens(inst).Ok?
    ensures Run(InstTokens(inst).value, regs) == Some(Eval(inst, regs))
  {
    var d, a, b := inst.dst, inst.src1, inst.src2;
    match inst.op {
      case ADD => RunThreeReg("add", d, a, b, regs);
      case SUB => RunThreeReg("sub", d, a, b, regs);
      case MUL => RunThreeReg("mul", d, a, b, regs);
      case DIV => RunThreeReg("sdiv", d, a, b, regs);
      case MOD => RunMod(d, a, b, regs);
      case MOV => RunThreeReg("add", d, a, "xzr", regs);
    }
  }

  /// Running a register-only program statement by statement; None once a
  /// division by zero makes a statement's meaning undefined.
  function EvalProgram(ir: seq<IRInstruction>, regs: Regs): Option<Regs>
    requires forall k :: 0 <= k < |ir| ==> Straight(ir[k])
  {
    if ir == [] then Some(regs)
    else
      var last := ir[|ir| - 1];
      match EvalProgram(ir[..|ir| - 1], regs)
      case None => None
      case Some(r) => if Defined(last, r) then Some(Eval(last, r)) else None
  }

  /// Running a stream extended by one more line.
  lemma RunSnocLine(before: seq<Token>, ts: seq<Token>, regs: Regs)
    requires Run(before, regs).Some? && Run(ts, Run(before, regs).value).Some?
    ensures Run(before + ts + [Newline], regs) == Run(ts, Run(before, regs).value)
  {
    RunNewline(ts, Run(before, regs).value);
    RunAppend(before, ts + [Newline], regs);
    assert before + ts + [Newline] == before + (ts + [Newline]);
  }

  /// The whole lowered program computes what the IR program means.
  lemma {:induction false} LowerProgramMeaning(ir: seq<IRInstruction>, regs: Regs)
    requires forall k :: 0 <= k < |ir| ==> Straight(ir[k]) && Unaliased(ir[k])
    requires LowerText(ir).Ok? && EvalProgram(ir, regs).Some?
    ensures Run(LowerText(ir).value, regs) == EvalProgram(ir, regs)
    decreases |ir|
  {
    if ir != [] {
      var prefix, last := ir[..|ir| - 1], ir[|ir| - 1];
      assert forall k :: 0 <= k < |prefix| ==> prefix[k] == ir[k];
      LowerProgramMeaning(prefix, regs);
      var before := LowerText(prefix).value;
      var ts := InstTokens(last).value;
      assert LowerText(ir).value == before + ts + [Newline];
      var r := EvalProgram(prefix, regs).value;
      LoweringMeaning(last, r);
      RunSnocLine(before, ts, regs);
    }
  }

  /// The remainder sequence as written goes wrong when the destination is
  /// also the dividend: `x1 = x1 % x2` with x1 = 7, x2 = 3 leaves x1 = 0,
  /// where C's remainder is 1.
  lemma ModAsWrittenAliased()
    ensures ModTokens("x1", "x1", "x2").Ok?
    ensures Run(ModTokens("x1", "x1", "x2").value, map["x1" := 7, "x2" := 3]) == Some(map["x1" := 0, "x2" := 3])
    ensures Rem(7, 3) == 1
  {
    var regs := map["x1" := 7, "x2" := 3];
    assert ThreeReg("sdiv", "x1", "x1", "x2").Ok? && ThreeReg("mul", "x1", "x1", "x2").Ok? && ThreeReg("sub", "x1", "x1", "x1").Ok?;
    RunModAliasedDividend("x1", "x2", regs);
    assert Write(regs, "x1", 0) == map["x1" := 0, "x2" := 3];
  }

  /// Three three-register arithmetic lines separated by line breaks run
  /// as the three steps in turn.
  lemma RunThreeSteps(m1: string, d1: string, a1: string, b1: string,
                      m2: string, d2: string, a2: string, b2: string,
                      m3: string, d3: string, a3: string, b3: string, regs: Regs)
    requires m1 in ArithMnemonics && m2 in ArithMnemonics && m3 in ArithMnemonics
    requires ThreeReg(m1, d1, a1, b1).Ok? && ThreeReg(m2, d2, a2, b2).Ok? && ThreeReg(m3, d3, a3, b3).Ok?
    ensures var r1 := Step(regs, m1, d1, a1, b1); var r2 := Step(r1, m2, d2, a2, b2);
      Run(ThreeReg(m1, d1, a1, b1).value + [Newline] + ThreeReg(m2, d2, a2, b2).value + [Newline] + ThreeReg(m3, d3, a3, b3).value, regs)
      == Some(Step(r2, m3, d3, a3, b3))
  {
    var r1 := Step(regs, m1, d1, a1, b1);
    var r2 := Step(r1, m2, d2, a2, b2);
    RunThreeReg(m1, d1, a1, b1, regs);
    RunThreeReg(m2, d2, a2, b2, r1);
    RunThreeReg(m3, d3, a3, b3, r2);
    RunThreeLines(ThreeReg(m1, d1, a1, b1).value, ThreeReg(m2, d2, a2, b2).value, ThreeReg(m3, d3, a3, b3).value, regs);
  }

  /// As written, a MOD whose destination is its dividend always leaves 0:
  /// the last line subtracts the destination from itself.
  lemma RunModAliasedDividend(d: string, b: string, regs: Regs)
    requires d != b && d != "xzr" && ModTokens(d, d, b).Ok? && Read(regs, b) != 0
    ensures Run(ModTokens(d, d, b).value, regs) == Some(Write(regs, d, 0))
  {
    assert ModTokens(d, d, b).value
      == ThreeReg("sdiv", d, d, b).value + [Newline] + ThreeReg("mul", d, d, b).value + [Newline] + ThreeReg("sub", d, d, d).value;
    RunThreeSteps("sdiv", d, d, b, "mul", d, d, b, "sub", d, d, d, regs);
    var r2 := Step(Step(regs, "sdiv", d, d, b), "mul", d, d, b);
    assert Read(r2, d) - Read(r2, d) == 0;
    assert Step(r2, "sub", d, d, d) == regs[d := 0];
  }

  /// The remainder sequence with the product kept in a scratch register `t`
  /// that is neither source, so the destination may be a source.
  function ModTokensVia(d: string, a: string, b: string, t: string): Result<seq<Token>> {
    var div :- ThreeReg("sdiv", t, a, b);
    var mul :- ThreeReg("mul", t, t, b);
    var sub :- ThreeReg("sub", d, a, t);
    Ok(div + [Newline] + mul + [Newline] + sub)
  }

  /// The scratch-register sequence leaves C's remainder in the destination
  /// whatever the destination is, changing only it and the scratch register.
  lemma RunModVia(d: string, a: string, b: string, t: string, regs: Regs)
    requires t != a && t != b && t != "xzr" && ModTokensVia(d, a, b, t).Ok? && Read(regs, b) != 0
    ensures var x, y := Read(regs, a), Read(regs, b);
      Run(ModTokensVia(d, a, b, t).value, regs) == Some(Write(regs[t := Quot(x, y) * y], d, Rem(x, y)))
  {
    var x, y := Read(regs, a), Read(regs, b);
    RunThreeSteps("sdiv", t, a, b, "mul", t, t, b, "sub", d, a, t, regs);
    var r1 := Step(regs, "sdiv", t, a, b);
    assert r1 == regs[t := Quot(x, y)];
    var r2 := Step(r1, "mul", t, t, b);
    assert r2 == regs[t := Quot(x, y) * y];
    QuotRem(x, y);
  }
}
