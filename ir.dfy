/// The target-independent intermediate representation produced by the
/// pseudocode front end and consumed by instruction selection (ir.h), and its
/// human-readable dump.
module IR {
  import opened Common

  /// The fourteen IR operations.
  datatype Op =
    | ADD | SUB | MUL | DIV | MOD | MOV | LOAD | STORE
    | CMP_BRANCH | BRANCH | CALL | RET | LABEL | DATA8

  /// One IR statement; `target` is the C++ `label` field. Unused fields hold
  /// the empty string, as the C++ aggregate initialisers leave them. `dst` is
  /// the base register of a STORE and `src1` the stored value; `imm` is the
  /// LOAD/STORE offset or the DATA8 value.
  datatype IRInstruction = IRInstruction(
    op: Op, dst: string, src1: string, src2: string,
    target: string, cond: string, imm: string)

  /// Reads an operation name back; the inverse of `OpName`.
  function OpNamed(s: string): Option<Op> {
    if s == "ADD" then Some(ADD)
    else if s == "SUB" then Some(SUB)
    else if s == "MUL" then Some(MUL)
    else if s == "DIV" then Some(DIV)
    else if s == "MOD" then Some(MOD)
    else if s == "MOV" then Some(MOV)
    else if s == "LOAD" then Some(LOAD)
    else if s == "STORE" then Some(STORE)
    else if s == "CMP_BRANCH" then Some(CMP_BRANCH)
    else if s == "BRANCH" then Some(BRANCH)
    else if s == "CALL" then Some(CALL)
    else if s == "RET" then Some(RET)
    else if s == "LABEL" then Some(LABEL)
    else if s == "DATA8" then Some(DATA8)
    else None
  }

  /// `irOpToString`: every operation has its own name, and none is the
  /// fallback "???".
  function OpName(op: Op): (s: string)
    ensures OpNamed(s) == Some(op)
    ensures s != "???"
  {
    match op
    case ADD => "ADD"
    case SUB => "SUB"
    case MUL => "MUL"
    case DIV => "DIV"
    case MOD => "MOD"
    case MOV => "MOV"
    case LOAD => "LOAD"
    case STORE => "STORE"
    case CMP_BRANCH => "CMP_BRANCH"
    case BRANCH => "BRANCH"
    case CALL => "CALL"
    case RET => "RET"
    case LABEL => "LABEL"
    case DATA8 => "DATA8"
  }

  /// Distinct operations print differently.
  lemma OpNamesDistinct(a: Op, b: Op)
    requires a != b
    ensures OpName(a) != OpName(b)
  {
    var na, nb := OpName(a), OpName(b);
    assert OpNamed(na) != OpNamed(nb);
  }

  predicate IsArithmetic(op: Op) {
    op == ADD || op == SUB || op == MUL || op == DIV || op == MOD
  }

  /// The text `dumpIR` writes for one statement, without its terminating newline.
  function LineText(i: IRInstruction): string {
    match i.op
    case LABEL => i.dst + ":"
    case ADD | SUB | MUL | DIV | MOD =>
      "  " + OpName(i.op) + " " + i.dst + ", " + i.src1 + ", " + i.src2
    case MOV => "  MOV " + i.dst + ", " + i.src1
    case LOAD => "  LOAD " + i.dst + ", [" + i.src1 + " + " + i.imm + "]"
    case STORE => "  STORE [" + i.dst + " + " + i.imm + "], " + i.src1
    case CMP_BRANCH => "  CMP_BRANCH " + i.src1 + " " + i.cond + " " + i.src2 + ", " + i.target
    case BRANCH => "  BRANCH " + i.target
    case CALL => "  CALL " + i.src1
    case RET => "  RET"
    case DATA8 => "  DATA8 " + i.imm
  }

  /// No field of the statement contains a line break.
  predicate SingleLineFields(i: IRInstruction) {
    '\n' !in i.dst && '\n' !in i.src1 && '\n' !in i.src2 &&
    '\n' !in i.target && '\n' !in i.cond && '\n' !in i.imm
  }

  /// A statement whose fields have no line break renders on one line.
  lemma LineTextSingle(i: IRInstruction)
    requires SingleLineFields(i)
    ensures '\n' !in LineText(i)
  {
    assert '\n' !in OpName(i.op);
  }

  /// The whole dump: each statement's text followed by a newline, in order.
  function DumpText(ir: seq<IRInstruction>): string {
    if ir == [] then "" else LineText(ir[0]) + "\n" + DumpText(ir[1..])
  }

  lemma {:induction false} DumpTextSnoc(ir: seq<IRInstruction>, i: IRInstruction)
    ensures DumpText(ir + [i]) == DumpText(ir) + LineText(i) + "\n"
    decreases |ir|
  {
    if ir == [] {
      assert [i][1..] == [];
    } else {
      assert (ir + [i])[1..] == ir[1..] + [i];
      DumpTextSnoc(ir[1..], i);
    }
  }

  /// `dumpIR`: writes the statements one after another.
  method DumpIR(ir: seq<IRInstruction>) returns (out: string)
    ensures out == DumpText(ir)
  {
    out := "";
    for k := 0 to |ir|
      invariant out == DumpText(ir[..k])
    {
      DumpTextSnoc(ir[..k], ir[k]);
      assert ir[..k + 1] == ir[..k] + [ir[k]];
      out := out + LineText(ir[k]) + "\n";
    }
    assert ir[..|ir|] == ir;
  }

  /// Length of the text before the first line break (or all of it).
  function LineLength(s: string): (n: nat)
    ensures n <= |s|
    ensures '\n' !in s[..n]
    ensures n < |s| ==> s[n] == '\n'
  {
    if s == [] || s[0] == '\n' then 0
    else
      var n := 1 + LineLength(s[1..]);
      assert s[..n] == [s[0]] + s[1..][..n - 1];
      n
  }

  /// The lines of a text: the pieces between line breaks; a final piece
  /// without a break counts as a line.
  function LinesOf(s: string): seq<string>
    decreases |s|
  {
    if s == [] then []
    else
      var n := LineLength(s);
      if n == |s| then [s] else [s[..n]] + LinesOf(s[n + 1..])
  }

  lemma {:induction false} LineLengthOfLine(a: string, b: string)
    requires '\n' !in a
    ensures LineLength(a + "\n" + b) == |a|
    decreases |a|
  {
    if a != [] {
      assert (a + "\n" + b)[1..] == a[1..] + "\n" + b;
      LineLengthOfLine(a[1..], b);
    }
  }

  /// The statements' texts, in order.
  function LineTexts(ir: seq<IRInstruction>): (r: seq<string>)
    ensures |r| == |ir|
    ensures forall k :: 0 <= k < |ir| ==> r[k] == LineText(ir[k])
  {
    if ir == [] then [] else [LineText(ir[0])] + LineTexts(ir[1..])
  }

  /// Reading the lines back from the dump gives one line per statement, in
  /// input order, each the statement's own text.
  lemma {:induction false} DumpLines(ir: seq<IRInstruction>)
    requires forall k :: 0 <= k < |ir| ==> SingleLineFields(ir[k])
    ensures LinesOf(DumpText(ir)) == LineTexts(ir)
    decreases |ir|
  {
    if ir != [] {
      var a := LineText(ir[0]);
      var rest := DumpText(ir[1..]);
      LineTextSingle(ir[0]);
      LineLengthOfLine(a, rest);
      var s := a + "\n" + rest;
      assert s[..|a|] == a;
      assert s[|a| + 1..] == rest;
      DumpLines(ir[1..]);
    }
  }
}
