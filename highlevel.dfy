/// The pseudocode front end (highlevel.h `HighLevelParser`): one statement
/// per line, each turned into at most one IR statement, or an error.
module HighLevel {
  import opened Common
  import opened Text
  import opened IR

  // ---- strip ----

  /// Number of leading whitespace characters.
  function Leading(s: string): (n: nat)
    ensures n <= |s|
    ensures forall i :: 0 <= i < n ==> IsSpace(s[i])
    ensures n < |s| ==> !IsSpace(s[n])
  {
    if s == [] || !IsSpace(s[0]) then 0 else 1 + Leading(s[1..])
  }

  /// Length of `s` without its trailing whitespace.
  function UntilTrailing(s: string): (n: nat)
    ensures n <= |s|
    ensures forall i :: n <= i < |s| ==> IsSpace(s[i])
    ensures n > 0 ==> !IsSpace(s[n - 1])
  {
    if s == [] || !IsSpace(s[|s| - 1]) then |s| else UntilTrailing(s[..|s| - 1])
  }

  /// `s` without its leading and trailing whitespace: what is removed is
  /// whitespace, and what is kept neither starts nor ends with any.
  function Trim(s: string): (r: string)
    ensures Leading(s) + |r| <= |s| && r == s[Leading(s)..Leading(s) + |r|]
    ensures forall i :: Leading(s) + |r| <= i < |s| ==> IsSpace(s[i])
    ensures r == [] || (!IsSpace(r[0]) && !IsSpace(r[|r| - 1]))
  {
    var t := s[Leading(s)..];
    t[..UntilTrailing(t)]
  }

  /// `strip`: advances `a` over leading and retreats `b` over trailing
  /// whitespace.
  method Strip(s: string) returns (r: string)
    ensures r == Trim(s)
  {
    var a, b := 0, |s|;
    while a < b && IsSpace(s[a])
      invariant 0 <= a <= b == |s|
      invariant forall i :: 0 <= i < a ==> IsSpace(s[i])
    {
      a := a + 1;
    }
    assert a == Leading(s);
    while b > a && IsSpace(s[b - 1])
      invariant a <= b <= |s|
      invariant forall i :: b <= i < |s| ==> IsSpace(s[i])
    {
      b := b - 1;
    }
    var t := s[a..];
    assert b - a == UntilTrailing(t);
    r := s[a..b];
  }

  /// Stripping twice strips nothing more.
  lemma TrimIdempotent(s: string)
    ensures Trim(Trim(s)) == Trim(s)
  {
    var r := Trim(s);
    assert Leading(r) == 0;
    assert UntilTrailing(r) == |r|;
    assert r[0..][..|r|] == r;
  }

  /// Leading whitespace does not change the words.
  lemma {:induction false} SplitAfterBlank(blank: string, s: string)
    requires forall i :: 0 <= i < |blank| ==> IsSpace(blank[i])
    ensures Split(blank + s) == Split(s)
    decreases |blank|
  {
    if blank == [] {
      assert blank + s == s;
    } else {
      assert (blank + s)[1..] == blank[1..] + s;
      SplitAfterBlank(blank[1..], s);
    }
  }

  /// Trailing whitespace does not change the words.
  lemma {:induction false} SplitBeforeBlank(s: string, blank: string)
    requires forall i :: 0 <= i < |blank| ==> IsSpace(blank[i])
    ensures Split(s + blank) == Split(s)
    decreases |s|
  {
    if s == [] {
      assert s + blank == blank;
      SplitBlank(blank);
    } else if IsSpace(s[0]) {
      assert (s + blank)[1..] == s[1..] + blank;
      SplitBeforeBlank(s[1..], blank);
    } else {
      var n := WordLength(s);
      WordLengthAppend(s, blank);
      assert (s + blank)[..n] == s[..n];
      assert (s + blank)[n..] == s[n..] + blank;
      SplitBeforeBlank(s[n..], blank);
    }
  }

  /// Stripping a line keeps exactly its words.
  lemma SplitTrim(s: string)
    ensures Split(Trim(s)) == Split(s)
  {
    var a, r := Leading(s), Trim(s);
    var head, tail := s[..a], s[a + |r|..];
    assert forall i :: 0 <= i < |head| ==> IsSpace(head[i]);
    assert forall i :: 0 <= i < |tail| ==> IsSpace(tail[i]) by {
      forall i | 0 <= i < |tail|
        ensures IsSpace(tail[i])
      {
        assert tail[i] == s[a + |r| + i];
      }
    }
    assert s == head + (r + tail);
    SplitAfterBlank(head, r + tail);
    SplitBeforeBlank(r, tail);
  }

  // ---- statements ----

  /// The position of the first `w` in `words`, or |words| when there is none.
  function IndexOf(words: seq<string>, w: string): (k: nat)
    ensures k <= |words|
    ensures k < |words| ==> words[k] == w
    ensures forall j :: 0 <= j < k ==> words[j] != w
  {
    if words == [] || words[0] == w then 0 else 1 + IndexOf(words[1..], w)
  }

  /// The five arithmetic operators of an assignment.
  function OperatorOp(s: string): Option<Op> {
    if s == "+" then Some(ADD)
    else if s == "-" then Some(SUB)
    else if s == "*" then Some(MUL)
    else if s == "/" then Some(DIV)
    else if s == "%" then Some(MOD)
    else None
  }

  /// The operator symbol of an arithmetic operation; read back by `OperatorOp`.
  function OperatorSymbol(op: Op): (s: string)
    requires IsArithmetic(op)
    ensures OperatorOp(s) == Some(op)
  {
    match op
    case ADD => "+"
    case SUB => "-"
    case MUL => "*"
    case DIV => "/"
    case MOD => "%"
  }

  /// The operators are exactly the symbols of the arithmetic operations.
  lemma OperatorOpArithmetic(s: string)
    ensures OperatorOp(s).Some? <==> s in {"+", "-", "*", "/", "%"}
    ensures OperatorOp(s).Some? ==> IsArithmetic(OperatorOp(s).value) && OperatorSymbol(OperatorOp(s).value) == s
  {
  }

  /// A memory operand: base register text and offset text.
  datatype Address = Address(base: string, offset: string)

  /// The parenthesised address of a load or store: one '(' at the front
  /// and one ')' at the back are dropped, and what is left must be `b` or
  /// `b + k`; a bare `b` has offset "0".
  function ParenAddress(text: string, bad: Error): Result<Address> {
    var t := if text != [] && text[0] == '(' then text[1..] else text;
    var u := if t != [] && t[|t| - 1] == ')' then t[..|t| - 1] else t;
    var parts := Split(u);
    if |parts| == 1 then Ok(Address(parts[0], "0"))
    else if |parts| == 3 && parts[1] == "+" then Ok(Address(parts[0], parts[2]))
    else Err(bad)
  }

  /// The load `dest = *...`; `rhs` are the words after "=", the first
  /// starting with '*'. Only when the text after the '*' is empty or starts
  /// with '(' are the following words part of the address; otherwise that
  /// text is the base, with offset "0", and the rest of the line is ignored.
  function LoadStatement(dest: string, rhs: seq<string>): Result<IRInstruction>
    requires |rhs| > 0 && |rhs[0]| > 0
  {
    var first := rhs[0][1..];
    var a :-
      if first == [] || first[0] == '(' then ParenAddress(Join([first] + rhs[1..]), SyntaxError("load"))
      else Ok(Address(first, "0"));
    Ok(IRInstruction(LOAD, dest, a.base, "", "", "", a.offset))
  }

  /// The store `*... = value`: the words before "=" joined by spaces,
  /// without the leading '*', are the address; the word after "=" is the value.
  function StoreStatement(words: seq<string>, eq: nat): Result<IRInstruction>
    requires 0 < eq < |words| && forall k :: 0 <= k < |words| ==> IsWord(words[k])
  {
    if eq + 1 >= |words| then Err(MissingOperand)
    else
      JoinEnds(words[..eq]);
      var lhs := Join(words[..eq])[1..];
      var a :-
        if lhs == [] || lhs[0] == '(' then ParenAddress(lhs, SyntaxError("store"))
        else Ok(Address(lhs, "0"));
      Ok(IRInstruction(STORE, a.base, words[eq + 1], "", "", "", a.offset))
  }

  function Lift(r: Result<IRInstruction>): Result<Option<IRInstruction>> {
    if r.Ok? then Ok(Some(r.value)) else Err(r.error)
  }

  /// The statement a line's words denote: nothing for no words, otherwise
  /// one IR statement or the error that rejects the line.
  function StatementOf(words: seq<string>): (r: Result<Option<IRInstruction>>)
    requires forall k :: 0 <= k < |words| ==> IsWord(words[k])
    ensures (r.Ok? && r.value.None?) <==> words == []
  {
    if words == [] then Ok(None)
    else if words[0] == "label" then
      if |words| < 2 then Err(MissingOperand) else Ok(Some(IRInstruction(LABEL, words[1], "", "", "", "", "")))
    else if words[0] == "goto" then
      if |words| < 2 then Err(MissingOperand) else Ok(Some(IRInstruction(BRANCH, "", "", "", words[1], "", "")))
    else if words[0] == "call" then
      if |words| < 2 then Err(MissingOperand) else Ok(Some(IRInstruction(CALL, "", words[1], "", "", "", "")))
    else if words[0] == "ret" then
      Ok(Some(IRInstruction(RET, "", "", "", "", "", "")))
    else if words[0] == ".8byte" then
      if |words| < 2 then Err(MissingOperand) else Ok(Some(IRInstruction(DATA8, "", "", "", "", "", words[1])))
    else if words[0] == "if" then
      if |words| < 6 || words[4] != "goto" then Err(SyntaxError("if"))
      else Ok(Some(IRInstruction(CMP_BRANCH, "", words[1], words[3], words[5], words[2], "")))
    else
      var eq := IndexOf(words, "=");
      assert IsWord(words[0]);
      if eq == |words| then Err(SyntaxError("statement"))
      else if words[0][0] == '*' then Lift(StoreStatement(words, eq))
      else if eq != 1 then Err(SyntaxError("register ="))
      else
        var dest, rhs := words[0], words[2..];
        assert rhs != [] ==> IsWord(rhs[0]);
        if rhs != [] && rhs[0][0] == '*' then Lift(LoadStatement(dest, rhs))
        else if |rhs| == 3 && IsReg(rhs[0]) && IsReg(rhs[2]) then
          match OperatorOp(rhs[1])
          case None => Err(UnknownOperator(rhs[1]))
          case Some(op) => Ok(Some(IRInstruction(op, dest, rhs[0], rhs[2], "", "", "")))
        else if |rhs| == 1 && IsReg(rhs[0]) then
          Ok(Some(IRInstruction(MOV, dest, rhs[0], "", "", "", "")))
        else Err(SyntaxError("assignment"))
  }

  /// What `parseLine` makes of a line.
  function LineStatement(line: string): Result<Option<IRInstruction>> {
    SplitYieldsWords(line);
    StatementOf(Split(line))
  }

  /// `ir` with the statement pushed, or the error.
  function Appended(ir: seq<IRInstruction>, s: Result<Option<IRInstruction>>): Result<seq<IRInstruction>> {
    if s.Err? then Err(s.error)
    else if s.value.None? then Ok(ir)
    else Ok(ir + [s.value.value])
  }

  /// `parseLoad`, with its loop rebuilding the operand text.
  method ParseLoad(dest: string, rhs: seq<string>, ir0: seq<IRInstruction>) returns (r: Result<seq<IRInstruction>>)
    requires |rhs| > 0 && |rhs[0]| > 0
    ensures r == Appended(ir0, Lift(LoadStatement(dest, rhs)))
  {
    var first := rhs[0][1..];
    var base, offset := "", "0";
    if first == [] || first[0] == '(' {
      var combined := first;
      for i := 1 to |rhs|
        invariant combined == Join([first] + rhs[1..i])
      {
        JoinSnoc([first] + rhs[1..i], rhs[i]);
        assert [first] + rhs[1..i + 1] == [first] + rhs[1..i] + [rhs[i]];
        combined := combined + " " + rhs[i];
      }
      assert rhs[1..|rhs|] == rhs[1..];
      var a := ParenAddress(combined, SyntaxError("load"));
      if a.Err? {
        return Err(a.error);
      }
      base, offset := a.value.base, a.value.offset;
    } else {
      base := first;
    }
    return Ok(ir0 + [IRInstruction(LOAD, dest, base, "", "", "", offset)]);
  }

  /// `parseStore`, with its loop joining the words before "=".
  method ParseStore(words: seq<string>, eq: nat, ir0: seq<IRInstruction>) returns (r: Result<seq<IRInstruction>>)
    requires 0 < eq < |words| && forall k :: 0 <= k < |words| ==> IsWord(words[k])
    ensures r == Appended(ir0, Lift(StoreStatement(words, eq)))
  {
    var lhs := words[0];
    assert words[..1] == [words[0]];
    for i := 1 to eq
      invariant lhs == Join(words[..i])
    {
      JoinSnoc(words[..i], words[i]);
      assert words[..i + 1] == words[..i] + [words[i]];
      lhs := lhs + " " + words[i];
    }
    if eq + 1 >= |words| {
      return Err(MissingOperand);
    }
    var value := words[eq + 1];
    JoinEnds(words[..eq]);
    lhs := lhs[1..];
    var base, offset := "", "0";
    if lhs == [] || lhs[0] == '(' {
      var a := ParenAddress(lhs, SyntaxError("store"));
      if a.Err? {
        return Err(a.error);
      }
      base, offset := a.value.base, a.value.offset;
    } else {
      base := lhs;
    }
    return Ok(ir0 + [IRInstruction(STORE, base, value, "", "", "", offset)]);
  }

  /// `parseLine`: pushes the statement the line denotes, if any.
  method ParseLine(line: string, ir0: seq<IRInstruction>) returns (r: Result<seq<IRInstruction>>)
    ensures r == Appended(ir0, LineStatement(line))
  {
    var words := Split(line);
    SplitYieldsWords(line);
    if |words| == 0 {
      return Ok(ir0);
    }
    if words[0] == "label" {
      if |words| < 2 {
        return Err(MissingOperand);
      }
      return Ok(ir0 + [IRInstruction(LABEL, words[1], "", "", "", "", "")]);
    }
    if words[0] == "goto" {
      if |words| < 2 {
        return Err(MissingOperand);
      }
      return Ok(ir0 + [IRInstruction(BRANCH, "", "", "", words[1], "", "")]);
    }
    if words[0] == "call" {
      if |words| < 2 {
        return Err(MissingOperand);
      }
      return Ok(ir0 + [IRInstruction(CALL, "", words[1], "", "", "", "")]);
    }
    if words[0] == "ret" {
      return Ok(ir0 + [IRInstruction(RET, "", "", "", "", "", "")]);
    }
    if words[0] == ".8byte" {
      if |words| < 2 {
        return Err(MissingOperand);
      }
      return Ok(ir0 + [IRInstruction(DATA8, "", "", "", "", "", words[1])]);
    }
    if words[0] == "if" {
      if |words| < 6 || words[4] != "goto" {
        return Err(SyntaxError("if"));
      }
      return Ok(ir0 + [IRInstruction(CMP_BRANCH, "", words[1], words[3], words[5], words[2], "")]);
    }
    var eq := IndexOf(words, "=");
    if eq == |words| {
      return Err(SyntaxError("statement"));
    }
    assert IsWord(words[0]);
    if words[0][0] == '*' {
      r := ParseStore(words, eq, ir0);
      return;
    }
    if eq != 1 {
      return Err(SyntaxError("register ="));
    }
    var dest, rhs := words[0], words[2..];
    if |rhs| > 0 {
      assert IsWord(rhs[0]);
    }
    if |rhs| > 0 && rhs[0][0] == '*' {
      r := ParseLoad(dest, rhs, ir0);
      return;
    }
    if |rhs| == 3 && IsReg(rhs[0]) && IsReg(rhs[2]) {
      var op := OperatorOp(rhs[1]);
      if op.None? {
        return Err(UnknownOperator(rhs[1]));
      }
      return Ok(ir0 + [IRInstruction(op.value, dest, rhs[0], rhs[2], "", "", "")]);
    }
    if |rhs| == 1 && IsReg(rhs[0]) {
      return Ok(ir0 + [IRInstruction(MOV, dest, rhs[0], "", "", "", "")]);
    }
    return Err(SyntaxError("assignment"));
  }

  // ---- whole programs ----

  /// A line that, once stripped, is neither empty nor a '#' comment.
  predicate Kept(line: string) {
    var t := Trim(line);
    t != [] && t[0] != '#'
  }

  /// The IR of a program: the statements of its kept lines, in order; the
  /// first line that is rejected aborts the parse.
  function ParseText(lines: seq<string>): Result<seq<IRInstruction>> {
    if lines == [] then Ok([])
    else
      var before :- ParseText(lines[..|lines| - 1]);
      var last := lines[|lines| - 1];
      if Kept(last) then Appended(before, LineStatement(Trim(last))) else Ok(before)
  }

  /// `parse`, over the lines of the input.
  method Parse(lines: seq<string>) returns (r: Result<seq<IRInstruction>>)
    ensures r == ParseText(lines)
  {
    var ir := [];
    for k := 0 to |lines|
      invariant ParseText(lines[..k]) == Ok(ir)
    {
      assert lines[..k + 1][..k] == lines[..k];
      var line := Strip(lines[k]);
      if line == [] || line[0] == '#' {
        continue;
      }
      var next := ParseLine(line, ir);
      if next.Err? {
        ParseSticky(lines, k + 1);
        return next;
      }
      ir := next.value;
    }
    assert lines[..|lines|] == lines;
    return Ok(ir);
  }

  /// Once a prefix is rejected, the whole program is rejected the same way.
  lemma {:induction false} ParseSticky(lines: seq<string>, i: nat)
    requires i <= |lines| && ParseText(lines[..i]).Err?
    ensures ParseText(lines) == ParseText(lines[..i])
    decreases |lines| - i
  {
    if i < |lines| {
      assert lines[..i + 1][..i] == lines[..i];
      ParseSticky(lines, i + 1);
    } else {
      assert lines[..i] == lines;
    }
  }

  /// The number of kept lines.
  function CountKept(lines: seq<string>): nat {
    if lines == [] then 0
    else CountKept(lines[..|lines| - 1]) + (if Kept(lines[|lines| - 1]) then 1 else 0)
  }

  /// A kept line always denotes a statement, or is rejected.
  lemma KeptLineStatement(line: string)
    requires Kept(line) && LineStatement(Trim(line)).Ok?
    ensures LineStatement(Trim(line)).value.Some?
  {
    var t := Trim(line);
    SplitYieldsWords(t);
    assert Split(t) != [];
  }

  /// The parse of a program extended by one line.
  lemma ParseSnoc(lines: seq<string>, line: string)
    ensures ParseText(lines + [line]) ==
      if ParseText(lines).Err? then ParseText(lines)
      else if Kept(line) then Appended(ParseText(lines).value, LineStatement(Trim(line)))
      else ParseText(lines)
  {
    assert (lines + [line])[..|lines|] == lines;
  }

  /// Whether the kept lines of `lines` are all accepted.
  predicate AllAccepted(lines: seq<string>) {
    forall k :: 0 <= k < |lines| && Kept(lines[k]) ==> LineStatement(Trim(lines[k])).Ok?
  }

  lemma AllAcceptedSnoc(lines: seq<string>, line: string)
    ensures AllAccepted(lines + [line]) <==> AllAccepted(lines) && (Kept(line) ==> LineStatement(Trim(line)).Ok?)
  {
    var all := lines + [line];
    assert forall k :: 0 <= k < |lines| ==> all[k] == lines[k];
    assert all[|lines|] == line;
  }

  /// Parsing succeeds exactly when every kept line is accepted, and then
  /// gives one statement per kept line; blank and comment lines give none.
  lemma {:induction false} ParseShape(lines: seq<string>)
    ensures ParseText(lines).Ok? <==> AllAccepted(lines)
    ensures ParseText(lines).Ok? ==> |ParseText(lines).value| == CountKept(lines)
    decreases |lines|
  {
    if lines != [] {
      var prefix, last := lines[..|lines| - 1], lines[|lines| - 1];
      assert lines == prefix + [last];
      ParseShape(prefix);
      ParseSnoc(prefix, last);
      AllAcceptedSnoc(prefix, last);
      if Kept(last) && LineStatement(Trim(last)).Ok? {
        KeptLineStatement(last);
      }
    }
  }

  // ---- printing statements back as pseudocode ----

  /// A register operand that is also a single word.
  predicate RegWord(s: string) {
    IsReg(s) && IsWord(s)
  }

  /// Statements the pseudocode syntax writes: operands are single words,
  /// destinations and arithmetic operands are registers, and the fields the
  /// statement does not use are empty.
  predicate Printable(i: IRInstruction) {
    match i.op
    case LABEL => IsWord(i.dst) && i.src1 == "" && i.src2 == "" && i.target == "" && i.cond == "" && i.imm == ""
    case BRANCH => IsWord(i.target) && i.dst == "" && i.src1 == "" && i.src2 == "" && i.cond == "" && i.imm == ""
    case CALL => IsWord(i.src1) && i.dst == "" && i.src2 == "" && i.target == "" && i.cond == "" && i.imm == ""
    case RET => i.dst == "" && i.src1 == "" && i.src2 == "" && i.target == "" && i.cond == "" && i.imm == ""
    case DATA8 => IsWord(i.imm) && i.dst == "" && i.src1 == "" && i.src2 == "" && i.target == "" && i.cond == ""
    case CMP_BRANCH =>
      IsWord(i.src1) && IsWord(i.cond) && IsWord(i.src2) && IsWord(i.target) && i.dst == "" && i.imm == ""
    case ADD | SUB | MUL | DIV | MOD =>
      RegWord(i.dst) && RegWord(i.src1) && RegWord(i.src2) && i.target == "" && i.cond == "" && i.imm == ""
    case MOV => RegWord(i.dst) && RegWord(i.src1) && i.src2 == "" && i.target == "" && i.cond == "" && i.imm == ""
    case LOAD => RegWord(i.dst) && IsWord(i.src1) && IsWord(i.imm) && i.src2 == "" && i.target == "" && i.cond == ""
    case STORE => IsWord(i.dst) && IsWord(i.src1) && IsWord(i.imm) && i.src2 == "" && i.target == "" && i.cond == ""
  }

  /// The words of the pseudocode line for a statement.
  function UnparseWords(i: IRInstruction): seq<string> {
    match i.op
    case LABEL => ["label", i.dst]
    case BRANCH => ["goto", i.target]
    case CALL => ["call", i.src1]
    case RET => ["ret"]
    case DATA8 => [".8byte", i.imm]
    case CMP_BRANCH => ["if", i.src1, i.cond, i.src2, "goto", i.target]
    case ADD | SUB | MUL | DIV | MOD => [i.dst, "=", i.src1, OperatorSymbol(i.op), i.src2]
    case MOV => [i.dst, "=", i.src1]
    case LOAD => [i.dst, "=", "*(" + i.src1, "+", i.imm + ")"]
    case STORE => ["*(" + i.dst, "+", i.imm + ")", "=", i.src1]
  }

  /// The pseudocode line for a statement.
  function Unparse(i: IRInstruction): string {
    Join(UnparseWords(i))
  }

  lemma JoinThree(a: string, b: string, c: string)
    ensures Join([a, b, c]) == a + " " + b + " " + c
  {
    assert [a, b, c][1..] == [b, c];
    assert [b, c][1..] == [c];
    assert Join([c]) == c;
    assert Join([b, c]) == b + " " + c;
  }

  /// A parenthesised `b + k` address reads back as base `b`, offset `k`.
  lemma ParenRoundTrip(b: string, k: string, bad: Error)
    requires IsWord(b) && IsWord(k)
    ensures ParenAddress("(" + b + " + " + k + ")", bad) == Ok(Address(b, k))
  {
    var text := "(" + b + " + " + k + ")";
    var u := b + " + " + k;
    var t := text[1..];
    assert text[0] == '(';
    assert t == u + ")";
    assert t[|t| - 1] == ')' && t[..|t| - 1] == u;
    JoinThree(b, "+", k);
    assert Join([b, "+", k]) == u;
    SplitJoin([b, "+", k]);
  }

  /// Every printed word is a word.
  lemma UnparseWordsAreWords(i: IRInstruction)
    requires Printable(i)
    ensures forall k :: 0 <= k < |UnparseWords(i)| ==> IsWord(UnparseWords(i)[k])
  {
    if i.op == LOAD {
      assert IsWord("*(" + i.src1) by {
        assert forall j :: 2 <= j < |"*(" + i.src1| ==> ("*(" + i.src1)[j] == i.src1[j - 2];
      }
      assert IsWord(i.imm + ")") by {
        assert forall j :: 0 <= j < |i.imm| ==> (i.imm + ")")[j] == i.imm[j];
      }
    } else if i.op == STORE {
      assert IsWord("*(" + i.dst) by {
        assert forall j :: 2 <= j < |"*(" + i.dst| ==> ("*(" + i.dst)[j] == i.dst[j - 2];
      }
      assert IsWord(i.imm + ")") by {
        assert forall j :: 0 <= j < |i.imm| ==> (i.imm + ")")[j] == i.imm[j];
      }
    }
  }

  /// The words of a printed load denote the load.
  lemma LoadRoundTrip(i: IRInstruction)
    requires i.op == LOAD && Printable(i)
    ensures StatementOf(UnparseWords(i)) == Ok(Some(i))
  {
    UnparseWordsAreWords(i);
    var words := UnparseWords(i);
    assert IndexOf(words, "=") == 1;
    var rhs := words[2..];
    assert rhs == ["*(" + i.src1, "+", i.imm + ")"];
    var first := rhs[0][1..];
    assert first == "(" + i.src1;
    assert [first] + rhs[1..] == [first, "+", i.imm + ")"];
    JoinThree(first, "+", i.imm + ")");
    assert Join([first] + rhs[1..]) == "(" + i.src1 + " + " + i.imm + ")";
    ParenRoundTrip(i.src1, i.imm, SyntaxError("load"));
  }

  /// The words of a printed store denote the store.
  lemma StoreRoundTrip(i: IRInstruction)
    requires i.op == STORE && Printable(i)
    ensures StatementOf(UnparseWords(i)) == Ok(Some(i))
  {
    UnparseWordsAreWords(i);
    var words := UnparseWords(i);
    assert IndexOf(words, "=") == 3 by {
      assert |words[0]| > 1 && |words[2]| > 1;
      assert words[0] != "=" && words[1] != "=" && words[2] != "=" && words[3] == "=";
    }
    assert words[..3] == ["*(" + i.dst, "+", i.imm + ")"];
    JoinThree("*(" + i.dst, "+", i.imm + ")");
    assert Join(words[..3])[1..] == "(" + i.dst + " + " + i.imm + ")";
    ParenRoundTrip(i.dst, i.imm, SyntaxError("store"));
  }

  /// A register name is none of the statement keywords.
  lemma RegNotKeyword(s: string)
    requires RegWord(s)
    ensures s !in {"label", "goto", "call", "ret", ".8byte", "if", "="} && s[0] != '*' && s[0] != '#'
  {
  }

  /// The words of a printed assignment denote it.
  lemma AssignRoundTrip(i: IRInstruction)
    requires (IsArithmetic(i.op) || i.op == MOV) && Printable(i)
    ensures StatementOf(UnparseWords(i)) == Ok(Some(i))
  {
    UnparseWordsAreWords(i);
    var words := UnparseWords(i);
    RegNotKeyword(i.dst);
    RegNotKeyword(i.src1);
    assert IndexOf(words, "=") == 1;
  }

  /// The words of a printed keyword statement denote it.
  lemma KeywordRoundTrip(i: IRInstruction)
    requires i.op in {LABEL, BRANCH, CALL, RET, DATA8, CMP_BRANCH} && Printable(i)
    ensures StatementOf(UnparseWords(i)) == Ok(Some(i))
  {
    UnparseWordsAreWords(i);
  }

  /// Parsing a printed statement gives the statement back.
  lemma LineRoundTrip(i: IRInstruction)
    requires Printable(i)
    ensures LineStatement(Unparse(i)) == Ok(Some(i))
  {
    UnparseWordsAreWords(i);
    SplitJoin(UnparseWords(i));
    if i.op == LOAD {
      LoadRoundTrip(i);
    } else if i.op == STORE {
      StoreRoundTrip(i);
    } else if IsArithmetic(i.op) || i.op == MOV {
      AssignRoundTrip(i);
    } else {
      KeywordRoundTrip(i);
    }
  }

  /// A printed statement is a kept line that stripping leaves unchanged.
  lemma UnparseKept(i: IRInstruction)
    requires Printable(i)
    ensures Trim(Unparse(i)) == Unparse(i) && Kept(Unparse(i))
  {
    var words := UnparseWords(i);
    UnparseWordsAreWords(i);
    JoinEnds(words);
    var x := Unparse(i);
    assert x[0] == words[0][0];
    assert Leading(x) == 0;
    assert UntilTrailing(x) == |x|;
    assert x[0..][..|x|] == x;
    if IsArithmetic(i.op) || i.op == MOV || i.op == LOAD {
      RegNotKeyword(i.dst);
    }
  }

  /// The program text that prints each statement on a line of its own.
  function ProgramLines(ir: seq<IRInstruction>): (lines: seq<string>)
    ensures |lines| == |ir|
  {
    if ir == [] then [] else ProgramLines(ir[..|ir| - 1]) + [Unparse(ir[|ir| - 1])]
  }

  /// Parsing a printed program gives the program back.
  lemma {:induction false} ProgramRoundTrip(ir: seq<IRInstruction>)
    requires forall k :: 0 <= k < |ir| ==> Printable(ir[k])
    ensures ParseText(ProgramLines(ir)) == Ok(ir)
    decreases |ir|
  {
    if ir != [] {
      var prefix, last := ir[..|ir| - 1], ir[|ir| - 1];
      assert ProgramLines(ir) == ProgramLines(prefix) + [Unparse(last)];
      ProgramRoundTrip(prefix);
      UnparseKept(last);
      LineRoundTrip(last);
      ParseSnoc(ProgramLines(prefix), Unparse(last));
      assert prefix + [last] == ir;
    }
  }

  // ---- examples ----

  lemma SplitThree(a: string, b: string, c: string)
    requires IsWord(a) && IsWord(b) && IsWord(c)
    ensures Split(a + " " + b + " " + c) == [a, b, c]
  {
    JoinThree(a, b, c);
    SplitJoin([a, b, c]);
  }

  /// The line of three words `a b c` denotes what those words denote.
  lemma ThreeWordLine(a: string, b: string, c: string)
    requires IsWord(a) && IsWord(b) && IsWord(c)
    ensures LineStatement(a + " " + b + " " + c) == StatementOf([a, b, c])
  {
    SplitThree(a, b, c);
  }

  lemma ConstantAssignmentWords()
    ensures StatementOf(["x0", "=", "5"]) == Err(SyntaxError("assignment"))
  {
    assert IndexOf(["x0", "=", "5"], "=") == 1;
    assert !IsReg("5");
  }

  /// "x0 = 5": a constant is not a register, so the assignment is rejected.
  lemma ConstantAssignmentRejected()
    ensures LineStatement("x0 = 5") == Err(SyntaxError("assignment"))
  {
    assert "x0 = 5" == "x0" + " " + "=" + " " + "5";
    ThreeWordLine("x0", "=", "5");
    ConstantAssignmentWords();
  }

  lemma LoadWithoutOffsetWords()
    ensures StatementOf(["x1", "=", "*x2"]) == Ok(Some(IRInstruction(LOAD, "x1", "x2", "", "", "", "0")))
  {
    var words := ["x1", "=", "*x2"];
    assert IndexOf(words, "=") == 1;
    assert words[2..] == ["*x2"];
    assert "*x2"[1..] == "x2";
  }

  /// "x1 = *x2": a load without a parenthesised address has offset "0".
  lemma LoadWithoutOffset()
    ensures LineStatement("x1 = *x2") == Ok(Some(IRInstruction(LOAD, "x1", "x2", "", "", "", "0")))
  {
    assert "x1 = *x2" == "x1" + " " + "=" + " " + "*x2";
    ThreeWordLine("x1", "=", "*x2");
    LoadWithoutOffsetWords();
  }

  /// "*x1 =": a store without a value is rejected.
  lemma StoreWithoutValue()
    ensures LineStatement("*x1 =") == Err(MissingOperand)
  {
    assert Join(["*x1", "="]) == "*x1 =" by {
      assert ["*x1", "="][1..] == ["="];
    }
    SplitJoin(["*x1", "="]);
  }
}
