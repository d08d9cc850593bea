/// Validation and encoding of single A64 instructions into 32-bit words, the
/// operand readers the assembler uses, and little-endian byte emission
/// (encoder.h).
///
/// A machine word is a `nat` below 2^32. Every encoder ORs fields into bit
/// positions the opcode constant leaves clear, so `|` is written as `+`;
/// the field extractors below (`Rd`, `Rn`, ...) read those positions back.
module Encoder {
  import opened Common
  import opened Text
  import opened Numerals

  const WordLimit: nat := 0x1_0000_0000

  function Pow2(n: nat): (p: nat)
    ensures p >= 1
  {
    if n == 0 then 1 else 2 * Pow2(n - 1)
  }

  // ---- bit fields of an instruction word ----

  /// Bits 0-4: destination / transfer register, or the condition of b.cond.
  function Rd(w: nat): nat { w % 32 }
  /// Bits 5-9: first source / base register.
  function Rn(w: nat): nat { w / 32 % 32 }
  /// Bits 16-20: second source register.
  function Rm(w: nat): nat { w / 0x1_0000 % 32 }
  /// Bits 12-20: the 9-bit unscaled offset of ldur/stur.
  function Imm9(w: nat): nat { w / 0x1000 % 0x200 }
  /// Bits 5-23: the 19-bit word offset of ldr and b.cond.
  function Imm19(w: nat): nat { w / 32 % 0x8_0000 }
  /// Bits 0-25: the 26-bit word offset of b.
  function Imm26(w: nat): nat { w % 0x400_0000 }
  /// Bits 26-31: the major opcode, distinct for every instruction class.
  function Op6(w: nat): nat { w / 0x400_0000 }

  // ---- validation ----

  predicate ValidRegister(r: int) {
    0 <= r <= 31
  }

  /// Whether `v` fits a two's-complement field of `bits` bits.
  predicate ValidSignedImm(v: int, bits: nat)
    requires 1 <= bits <= 31
  {
    -(Pow2(bits - 1) as int) <= v <= Pow2(bits - 1) - 1
  }

  /// Reads a `bits`-wide two's-complement field back as a signed value.
  function SignExtend(u: nat, bits: nat): (v: int)
    requires 1 <= bits <= 31 && u < Pow2(bits)
    ensures ValidSignedImm(v, bits)
  {
    if u < Pow2(bits - 1) then u else u - Pow2(bits)
  }

  lemma ModUnique(x: int, p: nat, q: int, r: int)
    requires p > 0 && x == p * q + r && 0 <= r < p
    ensures x % p == r
  {
    var k := x / p - q;
    assert p * k == r - x % p;
  }

  /// Truncating a sign-extended field gives the field back.
  lemma SignExtendTruncated(u: nat, bits: nat)
    requires 1 <= bits <= 31 && u < Pow2(bits)
    ensures SignExtend(u, bits) % Pow2(bits) == u
  {
    var p := Pow2(bits);
    if u < Pow2(bits - 1) {
      ModUnique(u, p, 0, u);
    } else {
      ModUnique(u - p, p, -1, u);
    }
  }

  /// A value fits a signed field exactly when truncating it to the field and
  /// sign-extending gives it back: the masking in the encoders loses nothing.
  lemma SignExtendTruncate(v: int, bits: nat)
    requires 1 <= bits <= 31
    ensures ValidSignedImm(v, bits) <==> SignExtend(v % Pow2(bits), bits) == v
  {
    var h := Pow2(bits - 1);
    var p := Pow2(bits);
    assert p == 2 * h;
    if ValidSignedImm(v, bits) {
      if v < 0 {
        ModUnique(v, p, -1, v + p);
      } else {
        ModUnique(v, p, 0, v);
      }
    }
  }

  lemma Pow2Widths()
    ensures Pow2(8) == 0x100 && Pow2(9) == 0x200
    ensures Pow2(18) == 0x4_0000 && Pow2(19) == 0x8_0000
    ensures Pow2(25) == 0x200_0000 && Pow2(26) == 0x400_0000
  {
    assert Pow2(8) == 0x100;
    assert Pow2(18) == 0x4_0000;
    assert Pow2(25) == 0x200_0000;
  }

  // ---- encoders, one per instruction shape ----

  function RequireReg(r: int): (res: Result<()>)
    ensures res.Ok? <==> ValidRegister(r)
    ensures res.Err? ==> res.error == InvalidRegister
  {
    if ValidRegister(r) then Ok(()) else Err(InvalidRegister)
  }

  /// Opcode constants of the three-register instructions.
  const RrrBases: set<nat> :=
    {0x8B20_6000, 0xCB20_6000, 0x9B00_7C00, 0x9B40_7C00, 0x9BC0_7C00, 0x9AC0_0C00, 0x9AC0_0800}

  lemma DivMod(x: int, k: nat, q: int, r: int)
    requires k > 0 && x == q * k + r && 0 <= r < k
    ensures x / k == q && x % k == r
  {
    var d := x / k - q;
    assert k * d == r - x % k;
  }

  /// Where the fields of a three-register word land, for an opcode with
  /// bits 21-31 `hi` and bits 10-15 `mid`.
  lemma RrrLayout(hi: nat, mid: nat, rd: nat, rn: nat, rm: nat)
    requires mid < 0x40 && rd < 32 && rn < 32 && rm < 32
    ensures var w := hi * 0x20_0000 + mid * 0x400 + rd + rn * 32 + rm * 0x1_0000;
      Rd(w) == rd && Rn(w) == rn && Rm(w) == rm &&
      w / 0x400 % 0x40 == mid && w / 0x20_0000 == hi && Op6(w) == hi / 32
  {
    var w := hi * 0x20_0000 + mid * 0x400 + rd + rn * 32 + rm * 0x1_0000;
    DivMod(w, 32, hi * 0x1_0000 + rm * 0x800 + mid * 0x20 + rn, rd);
    DivMod(w / 32, 32, hi * 0x800 + rm * 0x40 + mid, rn);
    DivMod(w, 0x400, hi * 0x800 + rm * 0x40 + mid, rn * 32 + rd);
    DivMod(w / 0x400, 0x40, hi * 0x20 + rm, mid);
    DivMod(w, 0x1_0000, hi * 0x20 + rm, mid * 0x400 + rn * 32 + rd);
    DivMod(w / 0x1_0000, 32, hi, rm);
    DivMod(w, 0x20_0000, hi, rm * 0x1_0000 + mid * 0x400 + rn * 32 + rd);
    DivMod(w, 0x400_0000, hi / 32, hi % 32 * 0x20_0000 + rm * 0x1_0000 + mid * 0x400 + rn * 32 + rd);
  }

  /// Where the fields of a load/store word land, for an opcode with bits
  /// 21-31 `hi` (bits 10-11 clear).
  lemma MemLayout(hi: nat, rt: nat, rn: nat, imm9: nat)
    requires rt < 32 && rn < 32 && imm9 < 0x200
    ensures var w := hi * 0x20_0000 + rt + rn * 32 + imm9 * 0x1000;
      Rd(w) == rt && Rn(w) == rn && Imm9(w) == imm9 && Op6(w) == hi / 32
  {
    var w := hi * 0x20_0000 + rt + rn * 32 + imm9 * 0x1000;
    DivMod(w, 32, hi * 0x1_0000 + imm9 * 0x80 + rn, rt);
    DivMod(w / 32, 32, hi * 0x800 + imm9 * 4, rn);
    DivMod(w, 0x1000, hi * 0x200 + imm9, rn * 32 + rt);
    DivMod(w / 0x1000, 0x200, hi, imm9);
    DivMod(w, 0x400_0000, hi / 32, hi % 32 * 0x20_0000 + imm9 * 0x1000 + rn * 32 + rt);
  }

  /// Where the register of a br/blr word lands, for an opcode with bits
  /// 10-31 `hi` (bits 0-9 clear).
  lemma BranchRegLayout(hi: nat, rn: nat)
    requires rn < 32
    ensures var w := hi * 0x400 + rn * 32;
      Rd(w) == 0 && Rn(w) == rn && Op6(w) == hi / 0x1_0000
  {
    var w := hi * 0x400 + rn * 32;
    DivMod(w, 32, hi * 32 + rn, 0);
    DivMod(w / 32, 32, hi, rn);
    DivMod(w, 0x400_0000, hi / 0x1_0000, hi % 0x1_0000 * 0x400 + rn * 32);
  }

  /// Three-register data processing: rd in bits 0-4, rn in 5-9, rm in 16-20,
  /// the opcode bits of `base` everywhere else.
  function EncodeRrr(base: nat, rd: int, rn: int, rm: int): (r: Result<nat>)
    requires base in RrrBases
    ensures r.Ok? <==> ValidRegister(rd) && ValidRegister(rn) && ValidRegister(rm)
    ensures r.Err? ==> r.error == InvalidRegister
    ensures r.Ok? ==> r.value < WordLimit && Rd(r.value) == rd && Rn(r.value) == rn && Rm(r.value) == rm
    ensures r.Ok? ==> Op6(r.value) == Op6(base) && r.value / 0x400 % 0x40 == base / 0x400 % 0x40
  {
    var _ :- RequireReg(rd);
    var _ :- RequireReg(rn);
    var _ :- RequireReg(rm);
    var hi, mid := base / 0x20_0000, base / 0x400 % 0x40;
    assert base == hi * 0x20_0000 + mid * 0x400;
    RrrLayout(hi, mid, rd, rn, rm);
    Ok(base + rd + rn * 32 + rm * 0x1_0000)
  }

  /// cmp is subs with xzr as destination: rd is fixed at 31.
  function EncodeCmp(rn: int, rm: int): (r: Result<nat>)
    ensures r.Ok? <==> ValidRegister(rn) && ValidRegister(rm)
    ensures r.Err? ==> r.error == InvalidRegister
    ensures r.Ok? ==> r.value < WordLimit && Rd(r.value) == 31 && Rn(r.value) == rn && Rm(r.value) == rm
    ensures r.Ok? ==> Op6(r.value) == 0x3A
  {
    var _ :- RequireReg(rn);
    var _ :- RequireReg(rm);
    Ok(0xEB20_601F + rn * 32 + rm * 0x1_0000)
  }

  /// br / blr: the target register in bits 5-9.
  function EncodeBranchReg(base: nat, rn: int): (r: Result<nat>)
    requires base in {0xD61F_0000, 0xD63F_0000}
    ensures r.Ok? <==> ValidRegister(rn)
    ensures r.Err? ==> r.error == InvalidRegister
    ensures r.Ok? ==> r.value < WordLimit && Rd(r.value) == 0 && Rn(r.value) == rn && Op6(r.value) == 0x35
  {
    var _ :- RequireReg(rn);
    assert base == base / 0x400 * 0x400;
    BranchRegLayout(base / 0x400, rn);
    Ok(base + rn * 32)
  }

  /// ldur / stur: transfer register, base register, 9-bit signed byte offset.
  function EncodeMem(base: nat, rt: int, rn: int, imm: int): (r: Result<nat>)
    requires base in {0xF840_0000, 0xF800_0000}
    ensures r.Ok? <==> ValidRegister(rt) && ValidRegister(rn) && ValidSignedImm(imm, 9)
    ensures r.Err? && ValidRegister(rt) && ValidRegister(rn) ==> r.error == ImmediateOutOfRange
    ensures r.Err? && !(ValidRegister(rt) && ValidRegister(rn)) ==> r.error == InvalidRegister
    ensures r.Ok? ==> r.value < WordLimit && Rd(r.value) == rt && Rn(r.value) == rn && Op6(r.value) == 0x3E
    ensures r.Ok? ==> Imm9(r.value) == imm % 0x200 && SignExtend(Imm9(r.value), 9) == imm
  {
    var _ :- RequireReg(rt);
    var _ :- RequireReg(rn);
    if !ValidSignedImm(imm, 9) then Err(ImmediateOutOfRange)
    else
      var imm9 := imm % 0x200;
      assert base == base / 0x20_0000 * 0x20_0000;
      MemLayout(base / 0x20_0000, rt, rn, imm9);
      Pow2Widths();
      SignExtendTruncate(imm, 9);
      Ok(base + rt + rn * 32 + imm9 * 0x1000)
  }

  /// ldr (literal): a byte offset that must be a multiple of 4, stored as a
  /// 19-bit signed word count. Alignment is checked before the register.
  function EncodeLdr(rd: int, offset: int): (r: Result<nat>)
    ensures r.Ok? <==> offset % 4 == 0 && ValidRegister(rd) && ValidSignedImm(offset / 4, 19)
    ensures offset % 4 != 0 ==> r == Err(MisalignedOffset)
    ensures offset % 4 == 0 && !ValidRegister(rd) ==> r == Err(InvalidRegister)
    ensures r.Ok? ==> r.value < WordLimit && Rd(r.value) == rd && Op6(r.value) == 0x16
    ensures r.Ok? ==> Imm19(r.value) == offset / 4 % 0x8_0000 && Pow2(19) == 0x8_0000 && 4 * SignExtend(Imm19(r.value), 19) == offset
  {
    if offset % 4 != 0 then Err(MisalignedOffset)
    else
      var _ :- RequireReg(rd);
      if !ValidSignedImm(offset / 4, 19) then Err(ImmediateOutOfRange)
      else
        var imm19 := offset / 4 % 0x8_0000;
        Pow2Widths();
        SignExtendTruncate(offset / 4, 19);
        Ok(0x5800_0000 + rd + imm19 * 32)
  }

  /// b: a byte offset that must be a multiple of 4, stored as a 26-bit
  /// signed word count.
  function EncodeBranch(offset: int): (r: Result<nat>)
    ensures r.Ok? <==> offset % 4 == 0 && ValidSignedImm(offset / 4, 26)
    ensures offset % 4 != 0 ==> r == Err(MisalignedOffset)
    ensures offset % 4 == 0 && r.Err? ==> r.error == ImmediateOutOfRange
    ensures r.Ok? ==> r.value < WordLimit && Op6(r.value) == 5
    ensures r.Ok? ==> Imm26(r.value) == offset / 4 % 0x400_0000 && Pow2(26) == 0x400_0000 && 4 * SignExtend(Imm26(r.value), 26) == offset
  {
    if offset % 4 != 0 then Err(MisalignedOffset)
    else if !ValidSignedImm(offset / 4, 26) then Err(ImmediateOutOfRange)
    else
      Pow2Widths();
      BranchWord(offset);
      Ok(0x1400_0000 + offset / 4 % 0x400_0000)
  }

  /// The fields of the b word for an aligned, in-range offset.
  lemma BranchWord(offset: int)
    requires offset % 4 == 0 && ValidSignedImm(offset / 4, 26)
    ensures var w := 0x1400_0000 + offset / 4 % 0x400_0000;
      w < WordLimit && Op6(w) == 5 && Imm26(w) == offset / 4 % 0x400_0000 &&
      Pow2(26) == 0x400_0000 && 4 * SignExtend(Imm26(w), 26) == offset
  {
    var imm26 := offset / 4 % 0x400_0000;
    Pow2Widths();
    SignExtendTruncate(offset / 4, 26);
    assert Imm26(0x1400_0000 + imm26) == imm26;
  }

  /// b.cond: condition code in bits 0-4, 19-bit signed word offset in bits
  /// 5-23. Alignment, then range, then the condition are checked.
  function EncodeBCond(cond: int, offset: int): (r: Result<nat>)
    ensures r.Ok? <==> offset % 4 == 0 && ValidSignedImm(offset / 4, 19) && 0 <= cond <= 13
    ensures offset % 4 != 0 ==> r == Err(MisalignedOffset)
    ensures offset % 4 == 0 && !ValidSignedImm(offset / 4, 19) ==> r == Err(ImmediateOutOfRange)
    ensures r.Ok? ==> r.value < WordLimit && Rd(r.value) == cond && Op6(r.value) == 0x15
    ensures r.Ok? ==> Imm19(r.value) == offset / 4 % 0x8_0000 && Pow2(19) == 0x8_0000 && 4 * SignExtend(Imm19(r.value), 19) == offset
  {
    if offset % 4 != 0 then Err(MisalignedOffset)
    else if !ValidSignedImm(offset / 4, 19) then Err(ImmediateOutOfRange)
    else if cond < 0 || cond > 13 then Err(InvalidConditionCode)
    else
      Pow2Widths();
      BCondWord(cond, offset);
      Ok(0x5400_0000 + offset / 4 % 0x8_0000 * 32 + cond % 32)
  }

  /// The fields of the b.cond word for an aligned, in-range offset and a
  /// valid condition.
  lemma BCondWord(cond: int, offset: int)
    requires offset % 4 == 0 && ValidSignedImm(offset / 4, 19) && 0 <= cond <= 13
    ensures var w := 0x5400_0000 + offset / 4 % 0x8_0000 * 32 + cond % 32;
      w < WordLimit && Rd(w) == cond && Op6(w) == 0x15 && Imm19(w) == offset / 4 % 0x8_0000 &&
      Pow2(19) == 0x8_0000 && 4 * SignExtend(Imm19(w), 19) == offset
  {
    var imm19 := offset / 4 % 0x8_0000;
    Pow2Widths();
    SignExtendTruncate(offset / 4, 19);
    var w := 0x5400_0000 + imm19 * 32 + cond;
    ModUnique(w, 32, 0x2A0_0000 + imm19, cond);
    assert w / 32 == 0x2A0_0000 + imm19;
  }

  /// The fifteen mnemonics the encoder knows, in its order of tests.
  const Mnemonics: seq<string> :=
    ["add", "sub", "mul", "smulh", "umulh", "sdiv", "udiv", "cmp", "br", "blr",
     "ldur", "stur", "ldr", "b", "b.cond"]

  /// Encodes one instruction given its mnemonic and up to three integer
  /// operands (registers, immediates or byte offsets, by mnemonic).
  function Encode(instr: string, a: int, b: int, c: int): (r: Result<nat>)
    ensures r.Ok? ==> r.value < WordLimit
    ensures instr !in Mnemonics <==> r == Err(UnknownMnemonic(instr))
  {
    if instr == "add" then EncodeRrr(0x8B20_6000, a, b, c)
    else if instr == "sub" then EncodeRrr(0xCB20_6000, a, b, c)
    else if instr == "mul" then EncodeRrr(0x9B00_7C00, a, b, c)
    else if instr == "smulh" then EncodeRrr(0x9B40_7C00, a, b, c)
    else if instr == "umulh" then EncodeRrr(0x9BC0_7C00, a, b, c)
    else if instr == "sdiv" then EncodeRrr(0x9AC0_0C00, a, b, c)
    else if instr == "udiv" then EncodeRrr(0x9AC0_0800, a, b, c)
    else if instr == "cmp" then EncodeCmp(a, b)
    else if instr == "br" then EncodeBranchReg(0xD61F_0000, a)
    else if instr == "blr" then EncodeBranchReg(0xD63F_0000, a)
    else if instr == "ldur" then EncodeMem(0xF840_0000, a, b, c)
    else if instr == "stur" then EncodeMem(0xF800_0000, a, b, c)
    else if instr == "ldr" then EncodeLdr(a, b)
    else if instr == "b" then EncodeBranch(a)
    else if instr == "b.cond" then EncodeBCond(a, b)
    else Err(UnknownMnemonic(instr))
  }

  // ---- the decoder: the encoder's inverse ----

  datatype Instr = Instr(mnemonic: string, a: int, b: int, c: int)

  /// The operands a mnemonic actually encodes; the others are ignored and
  /// shown as 0.
  function Canonical(m: string, a: int, b: int, c: int): Instr {
    if m in {"cmp", "ldr", "b.cond"} then Instr(m, a, b, 0)
    else if m in {"br", "blr", "b"} then Instr(m, a, 0, 0)
    else Instr(m, a, b, c)
  }

  /// Disassembles a word: the major opcode picks the instruction class,
  /// each field is read from its bit position, and the word is accepted only
  /// when its remaining bits are exactly that instruction's opcode bits.
  function Decode(w: nat): (r: Option<Instr>)
    ensures r.Some? ==> r.value.mnemonic in Mnemonics
  {
    if w >= WordLimit then None
    else
      var op := Op6(w);
      if op in {0x22, 0x32, 0x26} then DecodeRrr(w)
      else if op == 0x3A then DecodeCmp(w)
      else if op == 0x35 then DecodeBranchReg(w)
      else if op == 0x3E then DecodeMem(w)
      else if op == 0x16 then DecodeLdr(w)
      else if op == 5 then DecodeBranch(w)
      else if op == 0x15 then DecodeBCond(w)
      else None
  }

  function DecodeRrr(w: nat): Option<Instr> {
    var rd, rn, rm := Rd(w), Rn(w), Rm(w);
    var fields := rd + rn * 32 + rm * 0x1_0000;
    if w == 0x8B20_6000 + fields then Some(Instr("add", rd, rn, rm))
    else if w == 0xCB20_6000 + fields then Some(Instr("sub", rd, rn, rm))
    else if w == 0x9B00_7C00 + fields then Some(Instr("mul", rd, rn, rm))
    else if w == 0x9B40_7C00 + fields then Some(Instr("smulh", rd, rn, rm))
    else if w == 0x9BC0_7C00 + fields then Some(Instr("umulh", rd, rn, rm))
    else if w == 0x9AC0_0C00 + fields then Some(Instr("sdiv", rd, rn, rm))
    else if w == 0x9AC0_0800 + fields then Some(Instr("udiv", rd, rn, rm))
    else None
  }

  function DecodeCmp(w: nat): Option<Instr> {
    if w == 0xEB20_601F + Rn(w) * 32 + Rm(w) * 0x1_0000 then Some(Instr("cmp", Rn(w), Rm(w), 0))
    else None
  }

  function DecodeBranchReg(w: nat): Option<Instr> {
    if w == 0xD61F_0000 + Rn(w) * 32 then Some(Instr("br", Rn(w), 0, 0))
    else if w == 0xD63F_0000 + Rn(w) * 32 then Some(Instr("blr", Rn(w), 0, 0))
    else None
  }

  function DecodeMem(w: nat): Option<Instr> {
    Pow2Widths();
    var fields := Rd(w) + Rn(w) * 32 + Imm9(w) * 0x1000;
    if w == 0xF840_0000 + fields then Some(Instr("ldur", Rd(w), Rn(w), SignExtend(Imm9(w), 9)))
    else if w == 0xF800_0000 + fields then Some(Instr("stur", Rd(w), Rn(w), SignExtend(Imm9(w), 9)))
    else None
  }

  function DecodeLdr(w: nat): Option<Instr> {
    Pow2Widths();
    if w == 0x5800_0000 + Rd(w) + Imm19(w) * 32 then Some(Instr("ldr", Rd(w), 4 * SignExtend(Imm19(w), 19), 0))
    else None
  }

  function DecodeBranch(w: nat): Option<Instr> {
    Pow2Widths();
    if w == 0x1400_0000 + Imm26(w) then Some(Instr("b", 4 * SignExtend(Imm26(w), 26), 0, 0))
    else None
  }

  function DecodeBCond(w: nat): Option<Instr> {
    Pow2Widths();
    if Rd(w) <= 13 && w == 0x5400_0000 + Imm19(w) * 32 + Rd(w) then
      Some(Instr("b.cond", Rd(w), 4 * SignExtend(Imm19(w), 19), 0))
    else None
  }

  lemma EncodeDecodeRrr(m: string, a: int, b: int, c: int)
    requires m in {"add", "sub", "mul", "smulh", "umulh", "sdiv", "udiv"} && Encode(m, a, b, c).Ok?
    ensures Decode(Encode(m, a, b, c).value) == Some(Canonical(m, a, b, c))
  {
  }

  lemma EncodeDecodeBranchReg(m: string, a: int, b: int, c: int)
    requires m in {"br", "blr"} && Encode(m, a, b, c).Ok?
    ensures Decode(Encode(m, a, b, c).value) == Some(Canonical(m, a, b, c))
  {
  }

  lemma EncodeDecodeMem(m: string, a: int, b: int, c: int)
    requires m in {"ldur", "stur"} && Encode(m, a, b, c).Ok?
    ensures Decode(Encode(m, a, b, c).value) == Some(Canonical(m, a, b, c))
  {
  }

  lemma EncodeDecodeOffset(m: string, a: int, b: int, c: int)
    requires m in {"cmp", "ldr", "b", "b.cond"} && Encode(m, a, b, c).Ok?
    ensures Decode(Encode(m, a, b, c).value) == Some(Canonical(m, a, b, c))
  {
  }

  /// `add x0, x1, x2`: the opcode constant with rn = 1 in bits 5-9 and
  /// rm = 2 in bits 16-20.
  lemma AddFixture()
    ensures Encode("add", 0, 1, 2) == Ok(0x8B22_6020)
    ensures Decode(0x8B22_6020) == Some(Instr("add", 0, 1, 2))
  {
    EncodeDecode("add", 0, 1, 2);
  }

  /// Every word the encoder produces disassembles to the instruction it
  /// came from, with the operands the mnemonic does not use shown as 0.
  lemma EncodeDecode(m: string, a: int, b: int, c: int)
    requires Encode(m, a, b, c).Ok?
    ensures Decode(Encode(m, a, b, c).value) == Some(Canonical(m, a, b, c))
  {
    if m in {"add", "sub", "mul", "smulh", "umulh", "sdiv", "udiv"} {
      EncodeDecodeRrr(m, a, b, c);
    } else if m in {"br", "blr"} {
      EncodeDecodeBranchReg(m, a, b, c);
    } else if m in {"ldur", "stur"} {
      EncodeDecodeMem(m, a, b, c);
    } else {
      EncodeDecodeOffset(m, a, b, c);
    }
  }

  /// Re-encoding what `dec` read from `w` gives `w` back.
  predicate Reencodes(dec: Option<Instr>, w: nat) {
    dec.Some? ==> Encode(dec.value.mnemonic, dec.value.a, dec.value.b, dec.value.c) == Ok(w)
  }

  lemma RrrReencodes(base: nat, w: nat)
    requires base in RrrBases && w == base + Rd(w) + Rn(w) * 32 + Rm(w) * 0x1_0000
    ensures EncodeRrr(base, Rd(w), Rn(w), Rm(w)) == Ok(w)
  {
  }

  lemma DecodeEncodeRrr(w: nat)
    ensures Reencodes(DecodeRrr(w), w)
  {
    var fields := Rd(w) + Rn(w) * 32 + Rm(w) * 0x1_0000;
    if w == 0x8B20_6000 + fields {
      RrrReencodes(0x8B20_6000, w);
    } else if w == 0xCB20_6000 + fields {
      RrrReencodes(0xCB20_6000, w);
    } else if w == 0x9B00_7C00 + fields {
      RrrReencodes(0x9B00_7C00, w);
    } else if w == 0x9B40_7C00 + fields {
      RrrReencodes(0x9B40_7C00, w);
    } else if w == 0x9BC0_7C00 + fields {
      RrrReencodes(0x9BC0_7C00, w);
    } else if w == 0x9AC0_0C00 + fields {
      RrrReencodes(0x9AC0_0C00, w);
    } else if w == 0x9AC0_0800 + fields {
      RrrReencodes(0x9AC0_0800, w);
    }
  }

  lemma DecodeEncodeRegisters(w: nat)
    ensures Reencodes(DecodeCmp(w), w) && Reencodes(DecodeBranchReg(w), w)
  {
  }

  lemma DecodeEncodeMem(w: nat)
    ensures Reencodes(DecodeMem(w), w)
  {
    Pow2Widths();
    SignExtendTruncated(Imm9(w), 9);
  }

  lemma DecodeEncodeLdr(w: nat)
    ensures Reencodes(DecodeLdr(w), w) && Reencodes(DecodeBCond(w), w)
  {
    Pow2Widths();
    SignExtendTruncated(Imm19(w), 19);
    var offset := 4 * SignExtend(Imm19(w), 19);
    DivMod(offset, 4, SignExtend(Imm19(w), 19), 0);
  }

  lemma DecodeEncodeBranch(w: nat)
    ensures Reencodes(DecodeBranch(w), w)
  {
    Pow2Widths();
    SignExtendTruncated(Imm26(w), 26);
    var offset := 4 * SignExtend(Imm26(w), 26);
    DivMod(offset, 4, SignExtend(Imm26(w), 26), 0);
  }

  /// Every word the decoder accepts is re-encoded to the same word: the
  /// decoder reads nothing the encoder cannot write.
  lemma DecodeEncode(w: nat)
    requires Decode(w).Some?
    ensures var i := Decode(w).value; Encode(i.mnemonic, i.a, i.b, i.c) == Ok(w)
  {
    DecodeEncodeRrr(w);
    DecodeEncodeRegisters(w);
    DecodeEncodeMem(w);
    DecodeEncodeLdr(w);
    DecodeEncodeBranch(w);
  }

  // ---- operand readers ----

  /// Reads an immediate: hexadecimal after a "0x" or "0X" prefix with at
  /// least one more character, decimal (optionally signed) otherwise.
  function ReadImm(s: string): (r: Result<int>)
    ensures r.Ok? ==> IntMin <= r.value <= IntMax
  {
    if |s| > 2 && s[0] == '0' && (s[1] == 'x' || s[1] == 'X') then Stoi(s[2..], 16)
    else Stoi(s, 10)
  }

  /// Decimal numerals read back as their value.
  lemma ReadImmDecimal(n: nat)
    ensures n <= IntMax ==> ReadImm(Decimal(n)) == Ok(n)
    ensures n <= -IntMin ==> ReadImm("-" + Decimal(n)) == Ok(-(n as int))
  {
    StoiDecimal(n);
    if Decimal(n)[0] == '0' {
      assert Decimal(n) == Decimal(0) == "0";
    }
  }

  /// Hexadecimal numerals with either prefix read back as their value.
  lemma ReadImmHex(n: nat)
    requires n <= IntMax
    ensures ReadImm("0x" + Hex(n)) == Ok(n) && ReadImm("0X" + Hex(n)) == Ok(n)
  {
    StoiHex(n);
    assert ("0x" + Hex(n))[2..] == Hex(n);
    assert ("0X" + Hex(n))[2..] == Hex(n);
  }

  /// Reads a register name: "xzr" and "sp" are register 31, otherwise an
  /// 'x' followed by a number from 0 to 30.
  function ReadReg(s: string): (r: Result<nat>)
    ensures r.Ok? ==> r.value <= 31
    ensures (r.Ok? && r.value == 31) <==> (s == "xzr" || s == "sp")
  {
    if s == "xzr" || s == "sp" then Ok(31)
    else if |s| == 0 || s[0] != 'x' then Err(InvalidRegister)
    else
      var v :- Stoi(s[1..], 10);
      if v < 0 || v > 30 then Err(InvalidRegister) else Ok(v)
  }

  /// The canonical name of a register number.
  function RegName(r: nat): string
    requires r <= 31
  {
    if r == 31 then "xzr" else "x" + Decimal(r)
  }

  /// Every register number is read back from its name.
  lemma ReadRegName(r: nat)
    requires r <= 31
    ensures ReadReg(RegName(r)) == Ok(r)
  {
    if r < 31 {
      var s := "x" + Decimal(r);
      assert s[1..] == Decimal(r);
      assert s != "xzr" by {
        assert Decimal(r)[0] != 'z';
      }
      StoiDecimal(r);
    }
  }

  // ---- little-endian byte output ----

  function Pow256(n: nat): (p: nat)
    ensures p >= 1
  {
    if n == 0 then 1 else 256 * Pow256(n - 1)
  }

  /// The `n` low-order bytes of `w`, least significant first.
  function Le(w: nat, n: nat): (bs: seq<Byte>)
    ensures |bs| == n
  {
    if n == 0 then [] else [w % 256] + Le(w / 256, n - 1)
  }

  /// The number whose little-endian bytes are `bs`.
  function FromLe(bs: seq<Byte>): nat {
    if bs == [] then 0 else bs[0] + 256 * FromLe(bs[1..])
  }

  lemma MulDistributes(a: nat, b: nat, q: int, r: int)
    ensures a * (b * q + r) == (a * b) * q + a * r
  {
    assert a * (b * q) == (a * b) * q;
  }

  lemma MulAddBound(a: nat, b: nat, r1: int, r2: int)
    requires 0 <= r1 < a && 0 <= r2 < b
    ensures 0 <= a * r2 + r1 < a * b
  {
    assert a * (b - 1 - r2) >= 0;
    assert a * (b - 1) - a * r2 == a * (b - 1 - r2);
  }

  lemma DivModNested(x: nat, a: nat, b: nat)
    requires a > 0 && b > 0
    ensures x / a / b == x / (a * b)
    ensures x % (a * b) == x % a + a * (x / a % b)
  {
    var q1, r1 := x / a, x % a;
    var q2, r2 := q1 / b, q1 % b;
    MulDistributes(a, b, q2, r2);
    MulAddBound(a, b, r1, r2);
    DivMod(x, a * b, q2, a * r2 + r1);
  }

  /// Reading `n` little-endian bytes back gives `w` modulo 256^n.
  lemma {:induction false} FromLeLe(w: nat, n: nat)
    ensures FromLe(Le(w, n)) == w % Pow256(n)
  {
    if n == 0 {
      DivMod(w, 1, w, 0);
    } else {
      var bs := Le(w, n);
      assert bs[1..] == Le(w / 256, n - 1);
      FromLeLe(w / 256, n - 1);
      DivModNested(w, 256, Pow256(n - 1));
    }
  }

  /// Any byte string is the little-endian form of its value.
  lemma {:induction false} LeFromLe(bs: seq<Byte>)
    ensures Le(FromLe(bs), |bs|) == bs
  {
    if bs != [] {
      var rest := FromLe(bs[1..]);
      DivMod(FromLe(bs), 256, rest, bs[0]);
      LeFromLe(bs[1..]);
    }
  }

  /// Byte `i` is `w` shifted right by 8*i bits, masked to 8 bits.
  lemma {:induction false} LeSnoc(w: nat, i: nat)
    ensures Le(w, i + 1) == Le(w, i) + [w / Pow256(i) % 256]
  {
    if i > 0 {
      LeSnoc(w / 256, i - 1);
      DivModNested(w, 256, Pow256(i - 1));
    }
  }

  lemma ModOfSmaller(w: nat, p: nat)
    requires w < p
    ensures w % p == w
  {
    DivMod(w, p, 0, w);
  }

  /// The four bytes of an instruction word, least significant first.
  function Le32(w: nat): (bs: seq<Byte>)
    requires w < WordLimit
    ensures |bs| == 4 && FromLe(bs) == w
  {
    LeSnoc(w, 0);
    LeSnoc(w, 1);
    LeSnoc(w, 2);
    LeSnoc(w, 3);
    FromLeLe(w, 4);
    ModOfSmaller(w, Pow256(4));
    assert Pow256(2) == 0x1_0000 && Pow256(3) == 0x100_0000;
    assert Le(w, 4) == [w % 256, w / 0x100 % 256, w / 0x1_0000 % 256, w / 0x100_0000 % 256];
    [w % 256, w / 0x100 % 256, w / 0x1_0000 % 256, w / 0x100_0000 % 256]
  }

  /// The eight bytes of a 64-bit data word, least significant first; only
  /// the low 64 bits of `w` are written, as for a uint64.
  method Emit64Le(w: nat) returns (out: seq<Byte>)
    ensures out == Le(w, 8)
    ensures FromLe(out) == w % ULongLimit
  {
    out := [];
    for i := 0 to 8
      invariant out == Le(w, i)
    {
      LeSnoc(w, i);
      out := out + [w / Pow256(i) % 256];
    }
    FromLeLe(w, 8);
    assert Pow256(8) == ULongLimit;
  }
}
