/// The pseudocode compile path: lines are parsed to IR (highlevel.h) and the
/// IR is lowered to the token stream the two-pass assembler reads
/// (ir_codegen.h).
module Compiler {
  import opened Common
  import opened Tokens
  import opened IR
  import HighLevel
  import IRCodeGen
  import Lexer
  import TwoPass
  import Text
  import Encoder

  /// `lower(parse(lines))`: the first failing stage decides the error.
  function CompileText(lines: seq<string>): Result<seq<Token>> {
    var ir :- HighLevel.ParseText(lines);
    IRCodeGen.LowerText(ir)
  }

  method Compile(lines: seq<string>) returns (r: Result<seq<Token>>)
    ensures r == CompileText(lines)
  {
    var ir := HighLevel.Parse(lines);
    if ir.Err? {
      return Err(ir.error);
    }
    r := IRCodeGen.Lower(ir.value);
  }

  /// Each kept source line becomes one assembly line, and MOD and
  /// CMP_BRANCH statements add their inner lines.
  lemma CompileLines(lines: seq<string>)
    requires CompileText(lines).Ok?
    ensures HighLevel.ParseText(lines).Ok?
    ensures Lexer.Newlines(CompileText(lines).value)
            == HighLevel.CountKept(lines) + IRCodeGen.ExtraLinesOf(HighLevel.ParseText(lines).value)
  {
    var ir := HighLevel.ParseText(lines).value;
    HighLevel.ParseShape(lines);
    IRCodeGen.LowerNewlines(ir);
  }

  /// A printed register-only program compiles to assembly that leaves the
  /// registers as the program says, whenever it lowers, its divisions are
  /// defined and no MOD writes one of its own sources.
  lemma CompileMeaning(ir: seq<IRInstruction>, regs: IRCodeGen.Regs)
    requires forall k :: 0 <= k < |ir| ==> HighLevel.Printable(ir[k]) && IRCodeGen.Straight(ir[k]) && IRCodeGen.Unaliased(ir[k])
    requires IRCodeGen.LowerText(ir).Ok? && IRCodeGen.EvalProgram(ir, regs).Some?
    ensures CompileText(HighLevel.ProgramLines(ir)).Ok?
    ensures IRCodeGen.Run(CompileText(HighLevel.ProgramLines(ir)).value, regs) == IRCodeGen.EvalProgram(ir, regs)
  {
    HighLevel.ProgramRoundTrip(ir);
    IRCodeGen.LowerProgramMeaning(ir, regs);
  }

  /// The tokens of the assembly line `add x0, x1, x2`.
  function AddLineTokens(): seq<Token> {
    AddLine() + [Token(NEWLINE, "")]
  }

  /// The statement `x0 = x1 + x2`.
  function AddStatement(): IRInstruction {
    IRInstruction(ADD, "x0", "x1", "x2", "", "", "")
  }

  /// The pseudocode line of the example.
  function AddText(): string {
    "x0 = x1 + x2"
  }

  /// The addition prints as "x0 = x1 + x2".
  lemma AddStatementText()
    ensures HighLevel.Unparse(AddStatement()) == AddText()
  {
    assert Text.Join(["x2"]) == "x2";
    assert Text.Join(["+", "x2"]) == "+ x2" by { assert ["+", "x2"][1..] == ["x2"]; }
    assert Text.Join(["x1", "+", "x2"]) == "x1 + x2" by { assert ["x1", "+", "x2"][1..] == ["+", "x2"]; }
    assert Text.Join(["=", "x1", "+", "x2"]) == "= x1 + x2" by { assert ["=", "x1", "+", "x2"][1..] == ["x1", "+", "x2"]; }
    assert ["x0", "=", "x1", "+", "x2"][1..] == ["=", "x1", "+", "x2"];
  }

  /// "x0 = x1 + x2" parses to the addition.
  lemma AddLineParses()
    ensures HighLevel.ParseText([AddText()]) == Ok([AddStatement()])
  {
    var i := AddStatement();
    HighLevel.ProgramRoundTrip([i]);
    AddStatementText();
    assert [i][..0] == [];
    assert HighLevel.ProgramLines([i]) == [AddText()];
  }

  /// The addition lowers to the single line `add x0, x1, x2`.
  lemma AddLineLowers()
    ensures IRCodeGen.LowerText([AddStatement()]) == Ok(AddLineTokens())
  {
    var i := AddStatement();
    assert IRCodeGen.RegToken("x0") == Ok(Token(REG, "x0"));
    assert IRCodeGen.RegToken("x1") == Ok(Token(REG, "x1"));
    assert IRCodeGen.RegToken("x2") == Ok(Token(REG, "x2"));
    var ts := AddLine();
    AddRegisterNames();
    assert IRCodeGen.ThreeReg("add", "x0", "x1", "x2") == Ok(ts);
    assert IRCodeGen.InstTokens(i) == Ok(ts);
    assert AddLineTokens() == [] + ts + [IRCodeGen.Newline];
    assert [i][..0] == [];
  }

  /// "x0 = x1 + x2" compiles to the single line `add x0, x1, x2`.
  lemma AddLineCompiles()
    ensures CompileText([AddText()]) == Ok(AddLineTokens())
  {
    AddLineParses();
    AddLineLowers();
  }

  /// The register names of the example.
  lemma AddRegisterNames()
    ensures Encoder.RegName(0) == "x0" && Encoder.RegName(1) == "x1" && Encoder.RegName(2) == "x2"
  {
  }

  /// The line `add x0, x1, x2` without its NEWLINE.
  function AddLine(): TwoPass.Line {
    AddRegisterNames();
    TwoPass.RrrLine("add", 0, 1, 2)
  }

  /// The line's instruction word at address 0.
  lemma AddLineWord()
    ensures TwoPass.InstructionWord(TwoPass.Modular, AddLine(), 0, map[]) == Ok(0x8B22_6020)
  {
    TwoPass.RrrLineWord(TwoPass.Modular, "add", 0, 1, 2, 0, map[]);
    Encoder.AddFixture();
  }

  /// The bytes of the word, least significant first.
  lemma AddWordBytes()
    ensures Encoder.Le32(0x8B22_6020) == [0x20, 0x60, 0x22, 0x8B]
  {
    var bs: seq<Byte> := [0x20, 0x60, 0x22, 0x8B];
    assert Encoder.FromLe(bs) == 0x8B22_6020 by {
      assert bs[1..][1..][1..][1..] == [];
    }
    Encoder.LeFromLe(bs);
  }

  /// Pass 2 writes the word's four bytes for the line.
  lemma AddLineBytes()
    ensures TwoPass.LineBytes(TwoPass.Modular, AddLine(), 0, map[]) == Ok([0x20, 0x60, 0x22, 0x8B])
  {
    var line := AddLine();
    assert !TwoPass.IsLabelLine(line) && !TwoPass.IsDataLine(line);
    AddLineWord();
    AddWordBytes();
  }

  /// That line assembles to the word 0x8B226020, least significant byte
  /// first, and defines no label.
  lemma AddLineAssembles()
    ensures TwoPass.Assemble(TwoPass.Modular, AddLineTokens()) == Ok(TwoPass.Assembled([0x20, 0x60, 0x22, 0x8B], []))
  {
    var line := AddLine();
    var bytes: seq<Byte> := [0x20, 0x60, 0x22, 0x8B];
    assert AddLineTokens() == line + [Token(NEWLINE, "")];
    Lexer.GroupStateNoNewline([], line);
    assert [] + line == line;
    assert TwoPass.GroupLines(AddLineTokens()) == [line];
    assert [line][..0] == [];
    assert !TwoPass.IsLabelLine(line);
    assert TwoPass.Pass1(TwoPass.Modular, [line]) == Ok([]);
    AddLineBytes();
    assert TwoPass.Pass2(TwoPass.Modular, [line], map[]) == Ok(TwoPass.Emitted([] + bytes, 4));
    assert [] + bytes == bytes;
  }
}
