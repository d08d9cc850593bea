/// The single-file assembler's instruction encoder and immediate reader
/// (asm.cpp), and how they compare with the header encoder.
module AsmEncoder {
  import opened Common
  import opened Numerals
  import opened Encoder

  /// Reads an immediate: hexadecimal only after a lower-case "0x" prefix
  /// (with no length check), decimal otherwise.
  function AsmReadImm(s: string): (r: Result<int>)
    ensures r.Ok? ==> IntMin <= r.value <= IntMax
  {
    if |s| >= 2 && s[0] == '0' && s[1] == 'x' then Stoi(s[2..], 16) else Stoi(s, 10)
  }

  /// The numerals on which the two immediate readers can differ: a bare
  /// "0x", and anything with an upper-case "0X" prefix.
  predicate ReadersAgree(s: string) {
    s != "0x" && !(|s| > 2 && s[0] == '0' && s[1] == 'X')
  }

  lemma AsmReadImmAgrees(s: string)
    requires ReadersAgree(s)
    ensures AsmReadImm(s) == ReadImm(s)
  {
  }

  lemma ZeroNumeral()
    ensures Stoi("0", 10) == Ok(0)
  {
    StoiDecimal(0);
    assert Decimal(0) == "0";
  }

  /// An upper-case hexadecimal numeral, which the lexer classifies as
  /// HEXINT, is read as 0 here: decimal parsing stops at the 'X'. The header
  /// reader gives its value.
  lemma AsmReadImmUpperHex(n: nat)
    requires n <= IntMax
    ensures AsmReadImm("0X" + Hex(n)) == Ok(0)
    ensures ReadImm("0X" + Hex(n)) == Ok(n)
  {
    var s := "0X" + Hex(n);
    var rest := "X" + Hex(n);
    assert s == "0" + rest;
    assert !IsDigitIn(rest[0], 10);
    StoiIgnoresSuffix("0", rest);
    ZeroNumeral();
    assert AsmReadImm(s) == Stoi(s, 10);
    ReadImmHex(n);
  }

  /// A bare "0x" is an error here, but 0 for the header reader (its decimal
  /// parse stops at the 'x').
  lemma AsmReadImmBareHex()
    ensures AsmReadImm("0x").Err?
    ensures ReadImm("0x") == Ok(0)
  {
    assert "0x"[2..] == [];
    assert "0x" == "0" + "x";
    StoiIgnoresSuffix("0", "x");
    ZeroNumeral();
  }

  /// The three-register data-processing words of `compileLine`.
  function RrrWord(base: nat, one: int, two: int, three: int): Option<nat> {
    if !ValidRegister(one) || !ValidRegister(two) || !ValidRegister(three) then None
    else Some(base + one + two * 32 + three * 0x1_0000)
  }

  function MemWord(base: nat, one: int, two: int, three: int): Option<nat> {
    if !ValidRegister(one) || !ValidRegister(two) || !ValidSignedImm(three, 9) then None
    else Some(base + one + two * 32 + three % 0x200 * 0x1000)
  }

  /// Builds the machine word of one instruction, or None when the mnemonic
  /// is unknown or an operand is invalid.
  function CompileLine(instruction: string, one: int, two: int, three: int): (r: Option<nat>)
    ensures instruction !in Mnemonics ==> r == None
  {
    if instruction == "add" then RrrWord(0x8B20_6000, one, two, three)
    else if instruction == "sub" then RrrWord(0xCB20_6000, one, two, three)
    else if instruction == "mul" then RrrWord(0x9B00_7C00, one, two, three)
    else if instruction == "smulh" then RrrWord(0x9B40_7C00, one, two, three)
    else if instruction == "umulh" then RrrWord(0x9BC0_7C00, one, two, three)
    else if instruction == "sdiv" then RrrWord(0x9AC0_0C00, one, two, three)
    else if instruction == "udiv" then RrrWord(0x9AC0_0800, one, two, three)
    else if instruction == "cmp" then
      if !ValidRegister(one) || !ValidRegister(two) then None
      else Some(0xEB20_601F + one * 32 + two * 0x1_0000)
    else if instruction == "br" then
      if !ValidRegister(one) then None else Some(0xD61F_0000 + one * 32)
    else if instruction == "blr" then
      if !ValidRegister(one) then None else Some(0xD63F_0000 + one * 32)
    else if instruction == "ldur" then MemWord(0xF840_0000, one, two, three)
    else if instruction == "stur" then MemWord(0xF800_0000, one, two, three)
    else if instruction == "ldr" then
      if two % 4 != 0 then None
      else if !ValidRegister(one) || !ValidSignedImm(two / 4, 19) then None
      else Some(0x5800_0000 + one + two / 4 % 0x8_0000 * 32)
    else if instruction == "b" then
      if one % 4 != 0 then None
      else if !ValidSignedImm(one / 4, 26) then None
      else Some(0x1400_0000 + one / 4 % 0x400_0000)
    else if instruction == "b.cond" then
      if two % 4 != 0 then None
      else if !ValidSignedImm(two / 4, 19) then None
      else if one < 0 || one > 13 then None
      else Some(0x5400_0000 + two / 4 % 0x8_0000 * 32 + one % 32)
    else None
  }

  /// What the header encoder gives, with its error reduced to failure.
  function EncodeOption(m: string, a: int, b: int, c: int): Option<nat> {
    var r := Encode(m, a, b, c);
    if r.Ok? then Some(r.value) else None
  }

  lemma CompileLineAgreesRrr(m: string, a: int, b: int, c: int)
    requires m in {"add", "sub", "mul", "smulh", "umulh", "sdiv", "udiv"}
    ensures CompileLine(m, a, b, c) == EncodeOption(m, a, b, c)
  {
  }

  lemma CompileLineAgreesMem(m: string, a: int, b: int, c: int)
    requires m in {"ldur", "stur"}
    ensures CompileLine(m, a, b, c) == EncodeOption(m, a, b, c)
  {
  }

  lemma CompileLineAgreesOther(m: string, a: int, b: int, c: int)
    requires m !in {"add", "sub", "mul", "smulh", "umulh", "sdiv", "udiv", "ldur", "stur"}
    ensures CompileLine(m, a, b, c) == EncodeOption(m, a, b, c)
  {
  }

  /// Both encoders accept exactly the same instructions and produce the
  /// same word for each.
  lemma CompileLineAgrees(m: string, a: int, b: int, c: int)
    ensures CompileLine(m, a, b, c) == EncodeOption(m, a, b, c)
  {
    if m in {"add", "sub", "mul", "smulh", "umulh", "sdiv", "udiv"} {
      CompileLineAgreesRrr(m, a, b, c);
    } else if m in {"ldur", "stur"} {
      CompileLineAgreesMem(m, a, b, c);
    } else {
      CompileLineAgreesOther(m, a, b, c);
    }
  }
}
