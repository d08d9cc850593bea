# assembler-plus in Dafny

This project models the assembly pipeline of assembler-plus, an assembler for
fourteen A64 (ARM64) instructions: ADD, SUB, MUL, SMULH, UMULH, SDIV, UDIV,
CMP, BR, BLR, LDUR, STUR, LDR (literal), B and B.cond. It accepts three kinds
of input:

- raw assembly text, which the raw-assembly lexer turns into tokens;
- the pre-tokenized "TYPE lexeme" format;
- a pseudocode language. Its parser produces an intermediate representation
  (IR), and instruction selection lowers that IR to tokens.

The tokens go to a two-pass assembler. Pass 1 gives every label the address
of the code that follows it. Pass 2 matches each line against its mnemonic's
operand pattern and resolves label references to pc-relative byte offsets.
It then encodes the line into a 32-bit word and emits it least significant
byte first.

The repository has two assemblers. Both are modelled:

- the class-based one (`encoder.h`, `symbol_table.h`, `assembler.h`);
- the original single-file one (`asm.cpp`).

One specification of the passes, module `TwoPass`, serves both. A `Dialect`
parameter selects the three places where they differ:

- how a label token becomes a name;
- how an immediate is read;
- which encoder builds the word.

Each imperative assembler is proved to compute that specification.
`TwoPass.DialectsAgree` shows that the two agree on every token stream whose
labels end in ':' and whose numerals both readers read alike.

| file | module | models |
|---|---|---|
| common.dfy | Common | error kinds and the `Result` type that replace the C++ exceptions |
| text.dfy | Text | whitespace/digit tests, `split` (word extraction), `isInteger`, `isReg` |
| numerals.dfy | Numerals | `std::stoi` (bases 10 and 16) and `std::stoull(…, 0)`, decimal/hex rendering, 32-bit wrap-around |
| tokens.dfy | Tokens | token.h: token types, type names, the `<<`/`>>` text format |
| encoder.dfy | Encoder | encoder.h: every encoder, a disassembler proved to be its inverse, `readImm`, `readReg`, little-endian bytes |
| asm_encoder.dfy | AsmEncoder | asm.cpp: `compileLine` and `readImm`, compared with the header versions |
| symbols.dfy | Symbols | symbol_table.h: class `SymbolTable` |
| two_pass.dfy | TwoPass | the specification of grouping, pass 1 and pass 2, for both assemblers |
| assembler.dfy | TwoPassAssembler | assembler.h: class `Assembler`, proved against `TwoPass` |
| asm_main.dfy | AsmMain | asm.cpp `_main`: the single-file passes, proved against `TwoPass` |
| lexer.dfy | Lexer | lexer.h `RawAsmLexer` |
| ir.dfy | IR | ir.h: the IR datatype, `irOpToString`, `dumpIR` |
| ir_codegen.dfy | IRCodeGen | ir_codegen.h: lowering, plus a register-file meaning for the emitted arithmetic and flag semantics for `cmp`/`b.cond` |
| highlevel.dfy | HighLevel | highlevel.h `HighLevelParser`, with a printer proved to be its right inverse |
| compiler.dfy | Compiler | `lower(parse(lines))` and an end-to-end example |

Machine words are naturals below 2^32. Every encoder ORs fields into bit
positions its opcode constant leaves clear, so the model writes `|` as `+`.
Field extractors read the positions back. C++ exceptions become `Err` values
of an `Error` datatype, one constructor per kind of failure. Output streams
become byte sequences, or fields that methods append to. The label dump on
standard error becomes a list of (name, address) pairs.

Some behaviour of the code is easy to misread; the model keeps it as written:

- encoder.h's ADD constant and shifts give `0x8B226020` for `add x0, x1, x2`
  (`Encoder.AddFixture`, `Compiler.AddLineAssembles`).
- `encodeLdr`, `encodeBranch` and `encodeBCond` reject an offset that is not a
  multiple of 4 before any other check: `ldr`'s register, the range, and
  `b.cond`'s condition code (`Encoder.EncodeLdr`, `Encoder.EncodeBranch`,
  `Encoder.EncodeBCond`).
- `.8byte` literals go through `std::stoull(…, 0)`, which also reads a
  leading `0` as octal and wraps a negative literal modulo 2^64
  (`Numerals.Stoull`, `Numerals.StoullNegative`).
- `stripComment` cuts at the first `;` whenever there is one, even when a `//`
  comes earlier (`Lexer.SemicolonTakesPrecedence`).

## Model

| member | source | states |
|---|---|---|
| Tokens.StringToTokenType | token.h:29-36 | yields NONE exactly for strings that are not one of the eleven type names; any other result prints back as the same string |
| Tokens.TokenTypeToString | token.h:38-47 | fails exactly on NONE; every other type prints as one of the eleven names |
| Tokens.TypeNameRoundTrip | token.h:29-47 | parsing a printed type name gives the type back, for every type except NONE |
| Tokens.TypeNamesDistinct | token.h:40-43 | distinct types print as distinct names |
| Tokens.WriteToken | token.h:51-54 | writing fails exactly for a NONE token (no name to print) |
| Tokens.ReadToken | token.h:56-62 | a read consumes no more words than there are |
| Tokens.TypeNameIsWord | token.h:40-43 | every type name is one whitespace-free word |
| Tokens.WrittenWords | token.h:51-54 | a written token splits into its type name, then its lexeme unless it is a NEWLINE |
| Tokens.ReadWriteRoundTrip | token.h:56-62 | reading back a written token gives the token, consuming one word for a NEWLINE (empty lexeme) and two otherwise, whatever follows |
| Symbols.Names | symbol_table.h:31 | the definition order lists the name of every entry, position by position |
| Symbols.TableOfKeys | symbol_table.h:13-18 | a name is in the map exactly when it was defined |
| Symbols.TableOfAt | symbol_table.h:13-18 | without duplicates, the map sends each defined name to the address it was defined with |
| Symbols.SymbolTable.constructor | symbol_table.h:35-36 | a new table is empty and satisfies the invariant |
| Symbols.SymbolTable.Define | symbol_table.h:13-18 | a fresh name is appended with its address and looks up to it; a name already present is `DuplicateLabel` and leaves the table unchanged; the invariant (order = names, no duplicates, map = entries) is kept |
| Symbols.SymbolTable.Lookup | symbol_table.h:21-26 | succeeds exactly for defined names, with an address the name was defined at; otherwise `UndefinedLabel` |
| Symbols.SymbolTable.Contains | symbol_table.h:28 | holds exactly when lookup succeeds |
| Symbols.SymbolTable.Order | symbol_table.h:31 | the defined names in definition order, with no duplicates |
| Encoder.SignExtend | encoder.h:37-41 | reading a field back always gives a value in the signed range of its width |
| Encoder.SignExtendTruncated | encoder.h:98 | truncating a sign-extended field gives the field back |
| Encoder.SignExtendTruncate | encoder.h:37-41 | a value fits a signed field of `bits` bits exactly when masking it to the field and sign-extending gives it back (both directions) |
| Encoder.RrrLayout | encoder.h:79-82 | registers ORed into bits 0-4, 5-9 and 16-20 of a three-register opcode read back from those fields, and leave the opcode bits intact |
| Encoder.MemLayout | encoder.h:94-100 | the register and 9-bit offset fields of a load/store word read back from their bit positions |
| Encoder.BranchRegLayout | encoder.h:89-92 | the register of a br/blr word reads back from bits 5-9, with bits 0-4 zero |
| Encoder.RequireReg | encoder.h:74-77 | succeeds exactly for registers 0-31; otherwise `InvalidRegister` |
| Encoder.EncodeRrr | encoder.h:79-82 | succeeds exactly when all three registers are in 0-31; rd, rn, rm land in bits 0-4, 5-9, 16-20 and the opcode bits are the base's |
| Encoder.EncodeCmp | encoder.h:84-87 | succeeds exactly for two valid registers; rd is 31, rn and rm in bits 5-9 and 16-20 |
| Encoder.EncodeBranchReg | encoder.h:89-92 | succeeds exactly for a valid register, placed in bits 5-9 |
| Encoder.EncodeMem | encoder.h:94-100 | succeeds exactly for valid registers and an offset in [-256, 255]; register errors come first; bits 12-20 hold the offset mod 512 and sign-extend back to it |
| Encoder.EncodeLdr | encoder.h:102-110 | a misaligned offset is `MisalignedOffset` before any register check; success exactly for aligned, valid register, offset/4 in 19 bits; bits 5-23 hold (offset/4) mod 2^19 and 4 * sign-extension gives the offset |
| Encoder.EncodeBranch | encoder.h:112-119 | misaligned first, then range; success exactly for offset/4 in [-2^25, 2^25-1]; bits 0-25 hold (offset/4) mod 2^26 and decode back to the offset |
| Encoder.BranchWord | encoder.h:117-118 | the b word is 0x14000000 plus the 26-bit field |
| Encoder.EncodeBCond | encoder.h:121-130 | alignment, then range, then condition 0-13; success exactly when all hold; cond in bits 0-4 and (offset/4) mod 2^19 in bits 5-23 |
| Encoder.BCondWord | encoder.h:128-129 | the b.cond word is 0x54000000 plus the 19-bit field at bit 5 plus the condition |
| Encoder.Encode | encoder.h:12-31 | every result fits 32 bits; the error is `UnknownMnemonic` exactly for mnemonics outside the fifteen |
| Encoder.Decode | encoder.h:12-31 | the disassembler only ever names one of the fifteen mnemonics |
| Encoder.EncodeDecodeRrr | encoder.h:14-20 | every three-register word disassembles to its instruction |
| Encoder.EncodeDecodeBranchReg | encoder.h:22-23 | every br/blr word disassembles to its instruction |
| Encoder.EncodeDecodeMem | encoder.h:24-25 | every ldur/stur word disassembles to its instruction, with the signed offset recovered |
| Encoder.EncodeDecodeOffset | encoder.h:21-28 | every cmp, ldr, b and b.cond word disassembles to its instruction |
| Encoder.EncodeDecode | encoder.h:12-31 | every encoded word disassembles to the instruction it came from (operands the mnemonic ignores shown as 0): distinct instructions give distinct words |
| Encoder.RrrReencodes | encoder.h:79-82 | a word made of a three-register base and fields re-encodes from those fields |
| Encoder.DecodeEncodeRrr | encoder.h:79-82 | whatever the three-register decoder accepts re-encodes to the same word |
| Encoder.DecodeEncodeRegisters | encoder.h:84-92 | whatever the cmp and br/blr decoders accept re-encodes to the same word |
| Encoder.DecodeEncodeMem | encoder.h:94-100 | whatever the ldur/stur decoder accepts re-encodes to the same word |
| Encoder.DecodeEncodeLdr | encoder.h:102-130 | whatever the ldr and b.cond decoders accept re-encodes to the same word |
| Encoder.DecodeEncodeBranch | encoder.h:112-119 | whatever the b decoder accepts re-encodes to the same word |
| Encoder.DecodeEncode | encoder.h:12-31 | every word the disassembler accepts is produced by the encoder from the instruction it reads: the encoder reaches exactly those words |
| Encoder.AddFixture | encoder.h:14 | `add x0, x1, x2` encodes to 0x8B226020 and that word disassembles back to it |
| Encoder.ReadImm | encoder.h:43-47 | every value read fits a 32-bit int |
| Encoder.ReadImmDecimal | encoder.h:46 | decimal numerals with either sign read back as their value |
| Encoder.ReadImmHex | encoder.h:44-45 | hexadecimal numerals after "0x" or "0X" read back as their value |
| Encoder.ReadReg | encoder.h:49-57 | results are 0-31, and 31 exactly for "xzr" and "sp" |
| Encoder.ReadRegName | encoder.h:49-57 | every register name "x0"…"x30", "xzr" reads back as its number |
| Encoder.Le | encoder.h:61-71 | n bytes are produced |
| Encoder.FromLeLe | encoder.h:68-71 | reading n little-endian bytes back gives the word modulo 256^n |
| Encoder.LeFromLe | encoder.h:61-71 | every byte string is the little-endian form of its value |
| Encoder.LeSnoc | encoder.h:70 | byte i is the word shifted right by 8i bits, masked to 8 bits |
| Encoder.Le32 | encoder.h:61-66 | four bytes that reassemble to the word |
| Encoder.Emit64Le | encoder.h:68-71 | the loop writes the eight little-endian bytes, which reassemble to the word modulo 2^64 |
| Numerals.DigitRun | encoder.h:45 | the longest prefix of digits of the base, as `stoi` consumes it |
| Numerals.DigitRunAll | encoder.h:53 | on a string made only of digits, `stoi` consumes all of it |
| Numerals.Stoi | encoder.h:53 | a result fits `int` and comes from at least one digit |
| Numerals.Stoull | assembler.h:100 | a result fits `unsigned long long` |
| Numerals.Decimal | encoder.h:53 | decimal rendering: nonempty, digits only, no leading zero except for 0 |
| Numerals.Hex | encoder.h:45 | hexadecimal rendering: nonempty, hex digits only |
| Numerals.DecimalValue | encoder.h:53 | the value of a decimal rendering is the number |
| Numerals.HexValue | encoder.h:45 | the value of a hexadecimal rendering is the number |
| Numerals.StoiDecimal | encoder.h:46 | `stoi` reads back a decimal rendering with either sign, within `int` range |
| Numerals.StoiHex | encoder.h:45 | `stoi(…, 16)` reads back a hexadecimal rendering |
| Numerals.StoiIgnoresSuffix | encoder.h:53 | `stoi` ignores whatever follows the digit run ("5abc" reads as 5) |
| Numerals.StoiInteger | lexer.h:119-125 | on a token the lexer classifies as INT, `stoi` reads every digit |
| Numerals.StoullDecimal | assembler.h:100 | `stoull` reads back every 64-bit decimal value |
| Numerals.StoullNegative | assembler.h:100 | a negative `.8byte` literal wraps around modulo 2^64 |
| Numerals.WrapInt32 | assembler.h:168-170 | the 64-bit label offset cast to `int` keeps its value modulo 2^32 and lands in `int` range |
| Numerals.WrapInt32Fits | assembler.h:168-170 | offsets that fit are unchanged by the cast |
| Text.WordLength | highlevel.h:57-63 | the word at the front ends at the first whitespace |
| Text.SplitYieldsWords | highlevel.h:57-63 | every word `split` extracts is nonempty and whitespace-free |
| Text.SplitBlank | highlevel.h:57-63 | a blank string has no words |
| Text.SplitWord | highlevel.h:57-63 | a single word splits into itself |
| Text.SplitSpaceJoin | highlevel.h:57-63 | splitting distributes over a separating space |
| Text.JoinSnoc | highlevel.h:206-209 | joining one more word adds a space and the word |
| Text.JoinEnds | highlevel.h:181-184 | a join of words starts with the first word and ends in a non-space |
| Text.SplitJoin | highlevel.h:181-186 | splitting the words rebuilt by `parseLoad`/`parseStore` gives them back |
| AsmEncoder.AsmReadImm | asm.cpp:112-119 | every value read fits a 32-bit int |
| AsmEncoder.AsmReadImmAgrees | asm.cpp:112-119 | the two immediate readers agree on every numeral except a bare "0x" and "0X…" |
| AsmEncoder.AsmReadImmUpperHex | asm.cpp:114 | "0X" + hex reads as 0 here (decimal parse stops at 'X') but as its value in encoder.h |
| AsmEncoder.AsmReadImmBareHex | asm.cpp:114-116 | a bare "0x" fails here but reads as 0 in encoder.h |
| AsmEncoder.CompileLine | asm.cpp:147-313 | an unknown instruction fails |
| AsmEncoder.CompileLineAgreesRrr | asm.cpp:153-215 | for the three-register mnemonics `compileLine` gives exactly the header encoder's word or failure |
| AsmEncoder.CompileLineAgreesMem | asm.cpp:238-259 | same for ldur/stur |
| AsmEncoder.CompileLineAgreesOther | asm.cpp:216-311 | same for cmp, br, blr, ldr, b, b.cond and unknown mnemonics |
| AsmEncoder.CompileLineAgrees | asm.cpp:147-313 | both encoders accept exactly the same instructions and produce the same word |
| TwoPass.GroupLinesShape | assembler.h:54-66 | no line is empty or holds a NEWLINE, and the lines concatenated are the input without its NEWLINEs |
| TwoPass.GroupStateShape | assembler.h:56-64 | during grouping the pending line holds no NEWLINE, every finished line is nonempty, and finished plus pending lines are the input so far without its NEWLINEs |
| TwoPass.PcAfterAppend | assembler.h:69-82 | addresses add up over consecutive stretches of lines |
| TwoPass.Pass1 | assembler.h:69-82 | succeeds exactly when no label is defined twice, then giving every label line's name at the address counted before it; otherwise `DuplicateLabel` |
| TwoPass.Pass1Step | assembler.h:71-81 | one more line: a label line defines its name at the current pc and does not advance it, `.8byte` advances 8, anything else 4 |
| TwoPass.Pass1Sticky | symbol_table.h:14-15 | a duplicate found in a prefix is the failure of the whole pass |
| TwoPass.PatternsKnown | assembler.h:31-42 | every mnemonic with a pattern, and b.cond, is one the encoder knows |
| TwoPass.ShortPatternCounts | assembler.h:36-39 | the operand counts of the one- and two-operand patterns |
| TwoPass.LongPatternCounts | assembler.h:32-38 | the operand counts of the three-operand patterns |
| TwoPass.PatternOf | assembler.h:31-42 | the pattern string of every mnemonic |
| TwoPass.PatternArity | assembler.h:31-42 | each pattern collects exactly the operands its encoder uses |
| TwoPass.ReadImmIn | encoder.h:43-47 | both dialects' immediates fit a 32-bit int |
| TwoPass.EncodeIn | asm.cpp:526-530 | both dialects succeed exactly when `Encode` does, with its word; the single-file failure is `CompileFailed` |
| TwoPass.Operand | assembler.h:139-172 | 'r' accepts exactly a REG or the ID "sp" (so `xzr` is rejected) and 'z' exactly a REG or ZREG, both yielding the register number; 'c', 'l', 't' accept exactly a comma, '[' and ']' and yield nothing; 'i' accepts only INT/HEXINT and yields `readImm`; 'j' also accepts an ID, which fails with UndefinedLabel when the label is not defined and otherwise yields its address minus pc, wrapped to 32 bits |
| TwoPass.Operands | assembler.h:135-177 | a match consumes exactly the rest of the line and collects one value per value letter |
| TwoPass.ParseInstruction | assembler.h:106-174 | a line not led by an ID is a syntax error and an unknown mnemonic is UnknownMnemonic; `b` followed by a DOTID becomes `b.cond` with the suffix's condition code as first argument and the 'j' operand after it, and an unknown suffix is UnknownCondition; any other line reads its mnemonic's pattern from token 1 into the instruction's arguments |
| TwoPass.InstructionWord | assembler.h:179 | instruction words fit 32 bits |
| TwoPass.DataValue | assembler.h:93-101 | a `.8byte` value is the label's address for an ID operand, otherwise `stoull` of the lexeme |
| TwoPass.LineBytes | assembler.h:88-182 | a line emits as many bytes as pass 1 advances for it |
| TwoPass.Pass2 | assembler.h:85-183 | the pc always equals the number of bytes emitted and, when no line is empty, the address pass 1 reaches after the last line |
| TwoPass.Pass2Step | assembler.h:86-182 | pass 2 after one more line: an earlier failure persists, otherwise the line's bytes are appended at the current pc |
| TwoPass.Pass2FailsAt | assembler.h:85-183 | the first failing line's error is the error of the pass, and the output is that of the lines before it |
| TwoPass.Pass2WrittenOk | assembler.h:85-183 | on success the written bytes are the pass's output |
| TwoPass.Pass2Prefix | assembler.h:85-183 | success on all lines means success on every prefix, whose output begins the whole output |
| TwoPass.LabelDefsAt | assembler.h:71-76 | every label line defines its name at the address of the lines before it |
| TwoPass.LabelDefsFrom | assembler.h:71-76 | every definition comes from a label line at the address of the lines before it |
| TwoPass.LabelAddressIsOffset | assembler.h:69-183 | a label's pass-1 address is exactly the number of bytes pass 2 emits before its line: both passes advance pc alike |
| TwoPass.LabelOperand | assembler.h:164-171 | a label operand is the label's address minus the referencing instruction's own pc |
| TwoPass.RegisterClasses | assembler.h:140-149 | `xzr` and `sp` both name register 31, yet 'r' rejects `xzr` and accepts `sp`, while 'z' accepts `xzr` and rejects `sp` |
| TwoPass.BCondLineParses | assembler.h:121-174 | `b.<cond> target` with a known suffix and a defined label reads to `b.cond` with the condition code and the label's address minus pc |
| TwoPass.InstructionWordDecodes | assembler.h:179-180 | every emitted word disassembles to the instruction read from its line |
| TwoPass.OperandsCons | assembler.h:135-138 | the first pattern letter's operand is followed by the rest's |
| TwoPass.OperandRegName | assembler.h:140-148 | 'r' and 'z' read a register token back to its number |
| TwoPass.LastRegister | assembler.h:145-149 | a final 'z' reads the last register |
| TwoPass.CommaThen | assembler.h:150-152 | 'c' consumes a comma and collects nothing |
| TwoPass.RegisterThen | assembler.h:140-144 | 'r' collects the register and goes on |
| TwoPass.RrrTail | assembler.h:135-174 | "rcz" reads a line's last two registers |
| TwoPass.RrrOperands | assembler.h:135-177 | "rcrcz" reads a six-token line's three registers |
| TwoPass.RrrLineOperands | assembler.h:135-177 | the pattern of a three-register line collects its register numbers |
| TwoPass.RrrLineParses | assembler.h:106-181 | pass 2 reads `m xd, xn, xm` to the instruction with those registers, at any address and with any symbols |
| TwoPass.RrrLineWord | assembler.h:106-181 | and encodes it with `Encode` |
| TwoPass.OperandDialects | asm.cpp:480-519 | on a portable token both dialects match a pattern letter alike |
| TwoPass.OperandsDialects | asm.cpp:474-523 | on a portable line both dialects match a pattern alike |
| TwoPass.InstructionDialects | asm.cpp:456-531 | both dialects encode a portable line alike, succeeding together |
| TwoPass.Pass2Dialects | asm.cpp:430-535 | both dialects' pass 2 succeed together and agree on portable lines |
| TwoPass.LabelDefsDialects | asm.cpp:388-402 | both dialects define the same labels when every label ends in ':' |
| TwoPass.GroupStatePortable | asm.cpp:366-381 | grouping keeps tokens portable |
| TwoPass.DialectsAgree | asm.cpp:366-539 | on portable input the single-file and class-based assemblers succeed together and produce the same bytes and symbols |
| TwoPassAssembler.LookupIsTable | symbol_table.h:21-26 | a lookup reads the table's map |
| TwoPassAssembler.OperandsStep | assembler.h:135-174 | one more pattern letter: too few tokens is an error, otherwise that letter's operand then the rest |
| TwoPassAssembler.MatchAdvance | assembler.h:135-174 | one more letter matched: its error is the whole match's or its value joins those collected |
| TwoPassAssembler.HoldsStore | assembler.h:117-174 | storing at `args[ai++]` appends to the collected values |
| TwoPassAssembler.Assembler.constructor | assembler.h:26 | a new assembler has an empty symbol table, no output and no listing |
| TwoPassAssembler.Assembler.GroupLines | assembler.h:54-66 | the loop with its `cur` buffer computes `TwoPass.GroupLines` |
| TwoPassAssembler.Assembler.DefineLabel | assembler.h:71-76 | defines the label name with its trailing ':' dropped at pc, or fails with `DuplicateLabel` |
| TwoPassAssembler.Assembler.Pass1 | assembler.h:69-82 | succeeds exactly when `TwoPass.Pass1` does, leaving the table holding its definitions, otherwise with its error |
| TwoPassAssembler.Assembler.ReadOperand | assembler.h:139-172 | the `switch` over one pattern letter, proved equal to `TwoPass.Operand` on the symbol table's map: 'r' takes a REG or "sp" but not `xzr`, 'z' a REG or ZREG, 'i' a numeral, 'j' a numeral or a defined label as its address minus pc (UndefinedLabel otherwise), and punctuation letters only their token |
| TwoPassAssembler.Assembler.MatchOperands | assembler.h:135-177 | the loop over the `args` array computes `TwoPass.Operands`, leaving the values in `args` from `ai` on |
| TwoPassAssembler.Assembler.EncodeLine | assembler.h:106-180 | computes `TwoPass.InstructionWord` |
| TwoPassAssembler.Assembler.DataWord | assembler.h:93-101 | computes `TwoPass.DataValue` |
| TwoPassAssembler.Assembler.EmitLine | assembler.h:88-182 | appends `TwoPass.LineBytes` to the output, or fails with its error writing nothing |
| TwoPassAssembler.Assembler.EmitInstruction | assembler.h:106-182 | for an instruction line, appends the word's four little-endian bytes, which are `TwoPass.LineBytes`, or fails with its error writing nothing |
| TwoPassAssembler.Assembler.Pass2 | assembler.h:85-183 | writes the bytes of the lines before the first failure, and fails exactly when `TwoPass.Pass2` does, with its error |
| TwoPassAssembler.Assembler.DumpSymbols | assembler.h:185-188 | appends every label with its address in definition order |
| TwoPassAssembler.Assembler.Assemble | assembler.h:18-23 | succeeds exactly when `TwoPass.Assemble` does, writing its bytes and symbol listing; on failure its error, with the bytes written so far |
| AsmMain.DefineStep | asm.cpp:389-396 | entering a new label extends the definitions, the map and the order by it, without advancing pc |
| AsmMain.DuplicateStep | asm.cpp:393 | a label already in the map is the error of the whole pass |
| AsmMain.BuildSymbols | asm.cpp:383-402 | the pass-1 loop computes `TwoPass.Pass1` for the single-file dialect: map and order are its definitions |
| AsmMain.ReadOperand | asm.cpp:479-520 | asm.cpp's `switch` over one pattern letter, proved equal to `TwoPass.Operand` in the single-file dialect: 'r' takes a REG or "sp" but not `xzr`, 'z' a REG or ZREG, 'i' a numeral, 'j' a numeral or a defined label as its address minus pc (UndefinedLabel otherwise), and punctuation letters only their token |
| AsmMain.MatchOperands | asm.cpp:474-523 | the loop over the argument vector computes `TwoPass.Operands` |
| AsmMain.EncodeLine | asm.cpp:456-530 | computes `TwoPass.InstructionWord` through `compileLine` |
| AsmMain.EmitLine | asm.cpp:433-534 | computes `TwoPass.LineBytes` |
| AsmMain.EmitCode | asm.cpp:430-535 | writes the bytes of the lines before the first failure and fails exactly when `TwoPass.Pass2` does |
| AsmMain.ListSymbols | asm.cpp:537-539 | lists every label with its address in definition order |
| AsmMain.AsmMain | asm.cpp:366-541 | succeeds exactly when `TwoPass.Assemble` does, with its bytes and symbols; its output is `AssemblyOutput` either way |
| Lexer.FindChar | lexer.h:64 | the index of the first occurrence, or none |
| Lexer.FindSlashes | lexer.h:65 | the index of the first "//", or none |
| Lexer.StripComment | lexer.h:62-67 | the result is a prefix cut at the first ';' when there is one, otherwise at the first "//" |
| Lexer.SemicolonTakesPrecedence | lexer.h:64-65 | a "//" before a ';' does not start a comment |
| Lexer.CondSuffixesAreCondCodes | lexer.h:75-77 | the lexer splits off exactly the ten suffixes the assembler's condition table knows |
| Lexer.Classify | lexer.h:90-117 | keeps the word and gives each class exactly its words, in the source's order: NONE the empty word, LABEL a trailing ':', then DOTID a leading '.', HEXINT a "0x"/"0X" prefix with more after it, INT an integer, ZREG "xzr", REG 'x' and a digit, and ID everything else; never NEWLINE |
| Lexer.WordTokens | lexer.h:71-88 | at most two line tokens whose lexemes spell the word |
| Lexer.WordRun | lexer.h:53-56 | the word ends at the first whitespace or punctuation |
| Lexer.ScanPunctuation | lexer.h:48-50 | ',', '[' and ']' are one token each |
| Lexer.ScanWord | lexer.h:52-58 | a word contributes its tokens, then scanning resumes after it |
| Lexer.BranchWord | lexer.h:78-84 | the word "b.eq" splits into ID "b" and DOTID ".eq" |
| Lexer.WordEnd | lexer.h:53-56 | the inner loop stops at the end of the word |
| Lexer.TokenizeLine | lexer.h:42-60 | the loop appends the scan of the comment-free line |
| Lexer.ScanTokens | lexer.h:42-60 | no scanned token is NONE or NEWLINE or has an empty lexeme |
| Lexer.ScanKeepsText | lexer.h:42-60 | the lexemes spell out the line's non-blank characters in order: whitespace is the only thing dropped |
| Lexer.ScanBranch | lexer.h:78-84 | "b.eq done" scans to ID "b", DOTID ".eq", ID "done" |
| Lexer.Lex | lexer.h:31-39 | the loop computes the tokens of every line, each followed by a NEWLINE |
| Lexer.LexNewlines | lexer.h:34-37 | exactly one NEWLINE per input line |
| Lexer.LexGroupState | lexer.h:31-39 | grouping the lexer's output leaves nothing pending and yields the lexed lines |
| Lexer.LexGroups | lexer.h:31-39 | the assembler's grouping recovers the lexer's nonempty lines exactly |
| IR.OpName | ir.h:37-55 | every operation has a name that reads back to it and is never "???" |
| IR.OpNamesDistinct | ir.h:37-55 | distinct operations have distinct names |
| IR.LineTextSingle | ir.h:58-98 | a statement without line breaks in its fields renders on one line |
| IR.DumpIR | ir.h:58-98 | the loop writes every statement's text and a newline, in order |
| IR.LineLength | ir.h:58-98 | the length up to the first line break |
| IR.LineTexts | ir.h:58-98 | one text per statement, in order |
| IR.DumpLines | ir.h:58-98 | reading the lines of the dump back gives exactly one line per statement, in order, each its own text |
| IRCodeGen.RegToken | ir_codegen.h:28-34 | succeeds exactly for register names; ZREG exactly for "xzr", ID exactly for "sp", REG otherwise; the lexeme is kept |
| IRCodeGen.RegTokenAsLexed | ir_codegen.h:28-34 | the register token is the one the raw lexer gives the same text |
| IRCodeGen.ImmOrLabel | ir_codegen.h:36-48 | the digit-scan loop computes `OperandOf`: empty fails, then HEXINT, INT, ID |
| IRCodeGen.OperandTokenAsLexed | ir_codegen.h:36-48 | the operand token is the one the raw lexer gives the same text |
| IRCodeGen.CondSuffix | ir_codegen.h:51-61 | succeeds exactly for the six comparison operators, with a suffix the lexer splits off and the assembler knows |
| IRCodeGen.FlagsOfDifference | ir_codegen.h:139-150 | after `cmp a, b` on 64-bit values Z means a = b and N ≠ V means a < b |
| IRCodeGen.CondSuffixMeaning | ir_codegen.h:139-150 | the branch `cmp` + `b<suffix>` takes is exactly the comparison the pseudocode wrote, for all 64-bit values |
| IRCodeGen.ThreeReg | ir_codegen.h:63-72 | succeeds exactly for three register names: six tokens, ID, reg, COMMA, reg, COMMA, reg, with the given texts |
| IRCodeGen.Emit3Reg | ir_codegen.h:63-72 | pushes exactly those six tokens |
| IRCodeGen.LowerOne | ir_codegen.h:76-172 | pushes the tokens of the statement's case, or fails with its error; MOD always pushes `sdiv`/`mul`/`sub` with the destination as temporary, as the source does |
| IRCodeGen.Lower | ir_codegen.h:16-23 | the loop computes every statement's tokens followed by a NEWLINE |
| IRCodeGen.LowerSticky | ir_codegen.h:16-23 | the first statement that fails aborts the whole lowering |
| IRCodeGen.InstNewlines | ir_codegen.h:98-150 | a statement's tokens hold two NEWLINEs for MOD, one for CMP_BRANCH, none otherwise |
| IRCodeGen.LowerNewlines | ir_codegen.h:16-23 | the lowered stream has one line per statement plus the inner lines of MOD and CMP_BRANCH |
| IRCodeGen.LowerSucceeds | ir_codegen.h:16-23 | lowering succeeds exactly when every statement can be lowered |
| IRCodeGen.QuotRem | ir_codegen.h:98-108 | subtracting the truncated quotient times the divisor leaves C's remainder |
| IRCodeGen.RunAppend | ir_codegen.h:16-23 | running one emitted stream after another |
| IRCodeGen.ModSteps | ir_codegen.h:98-108 | with the destination distinct from both sources, the three steps leave it holding C's remainder |
| IRCodeGen.RunMod | ir_codegen.h:98-108 | lowered MOD computes C's remainder when the destination is not a source |
| IRCodeGen.LoweringMeaning | ir_codegen.h:76-113 | every lowered arithmetic/MOV statement leaves the registers as the statement says, provided a MOD does not write one of its sources |
| IRCodeGen.LowerProgramMeaning | ir_codegen.h:16-23 | the whole lowered register-only program computes what the IR program means, provided no MOD writes one of its sources |
| IRCodeGen.ModAsWrittenAliased | ir_codegen.h:98-108 | as written, `x1 = x1 % x2` with x1 = 7, x2 = 3 leaves x1 = 0, not 1 |
| IRCodeGen.RunModAliasedDividend | ir_codegen.h:98-108 | as written, a MOD whose destination is its dividend leaves 0 in the destination for every nonzero divisor |
| IRCodeGen.RunModVia | ir_codegen.h:98-108 | the remainder sequence with the product in a scratch register distinct from both sources leaves C's remainder in the destination, whether or not the destination is a source, and changes only it and the scratch register |
| HighLevel.Leading | highlevel.h:52 | the count of leading whitespace |
| HighLevel.UntilTrailing | highlevel.h:53 | the length without trailing whitespace |
| HighLevel.Trim | highlevel.h:50-55 | only leading and trailing whitespace is removed; the result starts and ends with a non-space |
| HighLevel.Strip | highlevel.h:50-55 | the two index loops compute `Trim` |
| HighLevel.TrimIdempotent | highlevel.h:50-55 | stripping twice strips nothing more |
| HighLevel.SplitTrim | highlevel.h:41-44 | stripping a line keeps exactly its words |
| HighLevel.IndexOf | highlevel.h:127-130 | the first position of "=", or the end |
| HighLevel.OperatorSymbol | highlevel.h:153-157 | each arithmetic operation's symbol reads back to it |
| HighLevel.OperatorOpArithmetic | highlevel.h:153-158 | exactly + - * / % are operators, each giving an arithmetic operation |
| HighLevel.StatementOf | highlevel.h:80-170 | no statement exactly for a line without words |
| HighLevel.ParseLoad | highlevel.h:174-199 | the loop rebuilding the operand computes `LoadStatement` |
| HighLevel.ParseStore | highlevel.h:203-228 | the loop joining the words before "=" computes `StoreStatement` |
| HighLevel.ParseLine | highlevel.h:80-170 | pushes the statement the line denotes, or fails |
| HighLevel.Parse | highlevel.h:38-47 | the loop computes `ParseText` over the lines |
| HighLevel.ParseSticky | highlevel.h:38-47 | a rejected line aborts the whole parse |
| HighLevel.KeptLineStatement | highlevel.h:43-44 | a kept line always denotes a statement or is rejected |
| HighLevel.ParseShape | highlevel.h:38-47 | parsing succeeds exactly when every kept line is accepted, and then gives one statement per kept line; blank and '#' lines give none |
| HighLevel.ParenRoundTrip | highlevel.h:180-190 | "(b + k)" reads as base b, offset k |
| HighLevel.UnparseWordsAreWords | highlevel.h:57-63 | every printed word is a word |
| HighLevel.LoadRoundTrip | highlevel.h:144-148 | the words of a printed load denote the load |
| HighLevel.StoreRoundTrip | highlevel.h:132-136 | the words of a printed store denote the store |
| HighLevel.RegNotKeyword | highlevel.h:73-76 | a register name is no statement keyword |
| HighLevel.AssignRoundTrip | highlevel.h:150-167 | the words of a printed assignment or move denote it |
| HighLevel.KeywordRoundTrip | highlevel.h:84-124 | the words of a printed label, goto, call, ret, .8byte or if statement denote it |
| HighLevel.LineRoundTrip | highlevel.h:80-170 | parsing a printed statement gives it back |
| HighLevel.UnparseKept | highlevel.h:41-44 | a printed statement is a kept line that stripping leaves unchanged |
| HighLevel.ProgramLines | highlevel.h:38-47 | one line per statement |
| HighLevel.ProgramRoundTrip | highlevel.h:38-47 | parsing a printed program gives the program back |
| HighLevel.ConstantAssignmentRejected | highlevel.h:163-169 | "x0 = 5" is rejected |
| HighLevel.LoadWithoutOffset | highlevel.h:194-196 | "x1 = *x2" is a load with offset "0" |
| HighLevel.StoreWithoutValue | highlevel.h:210-211 | "*x1 =" is rejected as a store without value |
| Compiler.Compile | main.cpp:56 | computes `lower(parse(lines))`, the first failing stage deciding the error |
| Compiler.CompileLines | ir_codegen.h:16-23 | the compiled stream has one line per kept source line plus the inner lines of MOD and CMP_BRANCH |
| Compiler.CompileMeaning | ir_codegen.h:76-113 | a printed register-only program compiles to assembly that computes what the program means, provided no MOD writes one of its sources |
| Compiler.AddStatementText | highlevel.h:18 | the addition prints as "x0 = x1 + x2" |
| Compiler.AddLineParses | highlevel.h:150-160 | "x0 = x1 + x2" parses to ADD x0, x1, x2 |
| Compiler.AddLineLowers | ir_codegen.h:81-83 | the addition lowers to `add x0, x1, x2` and a NEWLINE |
| Compiler.AddLineCompiles | ir_codegen.h:16-23 | "x0 = x1 + x2" compiles to that line |
| Compiler.AddLineWord | encoder.h:79-82 | that line's word at address 0 is 0x8B226020 |
| Compiler.AddWordBytes | encoder.h:61-66 | its bytes are 20 60 22 8B |
| Compiler.AddLineBytes | assembler.h:179-181 | pass 2 emits those four bytes for the line |
| Compiler.AddLineAssembles | assembler.h:18-23 | the line assembles to 20 60 22 8B and defines no label |

## Left out

- `TokenizedLexer::lex` and the stream mechanics of `operator>>` (EOF and fail
  handling) are not modelled. `Tokens.ReadToken` reads from a list of words.
- The `std::getline` loops of `RawAsmLexer::lex` and `HighLevelParser::parse`
  work on a sequence of lines, not on a stream.
- main.cpp is CLI plumbing and is not modelled, apart from the composition
  `lower(parse(…))` in `Compiler`. main.cpp:56 assigns the parser's IR vector
  to a token vector without calling `IRCodeGen::lower`. The model composes the
  evidently intended `lower(parse(…))` instead of that type mismatch.
- asm.cpp:332-364 and asm.cpp:544-552 (usage, file selection, the token read
  loop, try/catch) are I/O and are not modelled.
- `std::cout.put` and `std::cerr` writes become byte sequences and
  (name, address) lists. Exception messages become `Error` kinds.
- Numerals.Stoi: leading whitespace, which `std::stoi` skips, is not modelled.
  Lexer tokens never contain any.
- Numerals.Stoi: the optional "0x" that `std::stoi(…, 16)` itself accepts
  after the prefix `readImm` removed ("0x0x1F") is not modelled.
- TwoPass.Pass1: the pc is an unbounded natural. The source's `uint64_t`
  wrap-around would need more than 2^62 lines.
- TwoPass.Operand: the `int64_t` cast of a label address above 2^63 is not
  modelled. The difference is computed exactly and then wrapped to 32 bits.
- TwoPass.LabelName: `pop_back` on an empty label lexeme is undefined
  behaviour in asm.cpp:391. The lexer never produces an empty label, and the
  model keeps the empty name.
- HighLevel.LoadStatement: for `*(` addresses, `front()`/`back()` on an empty
  operand string (highlevel.h:183-184, 217-218) is undefined behaviour. The
  model strips nothing there, and the empty address is then rejected.
- TwoPassAssembler.Assembler.Assemble requires a fresh symbol table, as after
  its constructor. A second `assemble` on the same object would meet the
  first run's labels as duplicates. That reuse is not modelled.
- TwoPassAssembler.Assembler.Pass1: after a duplicate label the contract does
  not describe the partially filled table, because the run aborts.
- The IR interpreter in `IRCodeGen` gives registers unbounded integers. It
  does not model 64-bit wrap-around of ADD, SUB and MUL. `FlagsOfDifference`
  and `CondSuffixMeaning` do take 64-bit operands.
- The interpreter reads `sp` like any other register name.
- IRCodeGen.LoweringMeaning: holds only for MOD statements whose destination
  is not a source. The lowering emits the source's sequence for every MOD, and
  for the aliased case the sequence computes something else (see Findings and
  `IRCodeGen.RunModAliasedDividend`).
- LOAD, STORE, CALL, RET, branches and labels get no execution meaning.
  Their lowering is modelled token by token.
- highlevel.h `isInteger` (highlevel.h:65-71) is never called by the parser.
  It coincides with `Text.IsInteger`, which the lexer uses.
- asm.cpp's line grouping (asm.cpp:366-381) is the same loop as
  `groupLines`. `AsmMain.AsmMain` calls `TwoPassAssembler.Assembler.GroupLines`.

## Findings

| source | as written | input that shows it | evidently intended | confidence | as-written member | corrected member |
|---|---|---|---|---|---|---|
| ir_codegen.h:98-108 | MOD lowers to `sdiv d, a, b` / `mul d, d, b` / `sub d, a, d`, using the destination as the temporary | `x1 = x1 % x2` with x1 = 7, x2 = 3: sdiv leaves 2, mul 6, and `sub x1, x1, x1` gives 0 | x1 = 7 % 3 = 1 | not executed | IRCodeGen.RunModAliasedDividend | IRCodeGen.RunModVia |
| asm.cpp:112-119 | `readImm` treats only a lower-case "0x" as hexadecimal, though the lexer also classifies "0X…" as HEXINT | `ldur x0, [x1, 0X10]`: "0X10" reads as 0 | 16, as encoder.h:44 reads it | not executed | AsmEncoder.AsmReadImmUpperHex | Encoder.ReadImmHex |

For the first finding, the lowering (`IRCodeGen.InstTokens`,
`IRCodeGen.LowerOne`) keeps the source's sequence for every MOD, and
`IRCodeGen.ModAsWrittenAliased` is a concrete instance of the general
as-written lemma. The meaning lemmas (`IRCodeGen.RunMod`,
`IRCodeGen.LoweringMeaning`) hold for every MOD that does not write a source.
`IRCodeGen.ModTokensVia` is the corrected sequence: it keeps the product in a
scratch register, and `IRCodeGen.RunModVia` proves it right for any
destination. For the second finding, the class-based assembler and the pseudocode
path use `Encoder.ReadImm`, which reads both prefixes.
