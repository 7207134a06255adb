# SCAsm in Dafny

A model of SCAsm, an assembler, disassembler and emulator for the 16-bit
"SimpleComputer" teaching CPU. The model has these parts.

- **The emulator** (`Emulator.js`): `u16` and `endianSwap`. The
  `SimpleComputer` class: its constructor, `reset`, `_setFlags` and
  `executeCycle`. The disassembler `scdisasm`, which runs the machine with
  branching switched off and prints one line per instruction.
- **The assembler** (`scasm.js`): `schemaEqual`, `generateInstr` and the
  `sldi` macro expander. Pass 0 rewrites the directives `%SLDI r,n`,
  `%ISTK`, `%CALL r` and `%RET` into macro blocks.
- **Pass 1** assigns addresses to labels. It splices every `%PLDI` for an
  `sldi` of the current address into the line array while it walks it.
- **The symbolic `%SLDI r,.label` rewrite** happens between the passes.
- **Pass 2** classifies operands, checks schemas, encodes words and keeps
  the line-to-address mapping. The final `pop` of the mapping is modelled
  too.

The two halves are connected: assembled hex loads back into the emulator
word for word. It also disassembles to one line per instruction.

Files and modules:

| file | module | what |
|---|---|---|
| `common.dfy` | `Common` | `Option`, `Result`, decimal text, lower-casing, `padEnd` |
| `isa.dfy` | `Isa` | `u16`, `endianSwap`, field layout, `generateInstr`, branch offset, opcode table |
| `hex.dfy` | `Hex` | `hex4b`, the hex-word loader, comment-line stripping |
| `machine.dfy` | `Machine` | one step as a function, and the `SimpleComputer` class whose methods follow it |
| `machine_props.dfy` | `MachineProps` | store/load, `xor` self-clear, branch steps |
| `disasm.dfy` | `Disassembler` | `scdisasm` as a loop over the class |
| `asm_syntax.dfy` | `AsmSyntax` | source lines, operand classification, `schemaEqual`, per-mnemonic encoding |
| `encode_props.dfy` | `EncodeProps` | schema table, branch range, label operands |
| `macros.dfy` | `Macros` | `sldi`, pass 0 |
| `sldi_proof.dfy` | `SldiProof` | an `sldi` expansion, assembled and run, loads its number |
| `assembler.dfy` | `Assembler` | pass 1, `%SLDI` resolution, pass 2, `scasm` |
| `assembler_props.dfy` | `AssemblerProps` | counters, mapping, label addresses, end-to-end, `%PLDI`, symbolic `%SLDI` |
| `codec_props.dfy` | `CodecProps` | the encoder against the emulator's decoder and `_args`, per mnemonic |
| `macro_props.dfy` | `MacroProps` | the `%ISTK`, `%CALL` and `%RET` blocks, assembled and run |

Imperative parts are methods proved against pure specification functions:

- the pass-1 loop with its in-place splice (`Assembler.Pass1`
  against `Pass1From`);
- the pass-2 `forEach` (`Assembler.Pass2` against `Pass2Run`);
- `sldi` (`Macros.Sldi` against `SldiLines`);
- the `SimpleComputer` methods (against `Machine.StepSpec`);
- `scdisasm` (`Disassembler.Disassemble` against `Disasm`).

Behaviour the source has, modelled as written:

- **First error wins.** `reject` does not stop the scan, but only the first
  settlement of the promise is observed. The `brz` range error is a
  `throw`, which ends the scan.
- **The invalid-label check (`scasm.js:89`) never fires.** The label
  `replace` returns its input when the pattern does not match, and the
  input is never empty. A label token without the `.name:` form is entered
  under its whole text. So pass 1's only error is a duplicate symbol.
- **`%SLDI r,.label` takes one address in pass 1**, but its expansion can
  take several, which shifts the labels after it
  (`AssemblerProps.SymbolicSldiMiscount`).
- **`%SLDI r,.name` with an undefined name expands to `sldi(NaN)`.**
  `parseInt(undefined)` is `NaN`, whose bits are all 0, so no group is
  emitted and only the closing `shl` is left: the line doubles the register
  instead of loading it (`AssemblerProps.SymbolicSldiUndefined`).
- **Data memory never falls back to 65536 zeros.** `new Uint16Array(dtMem)`
  is an object, so `||` never takes its right side. With no buffer
  (`null`, as the disassembler passes) the data memory is empty.
- **A word with a nonzero unused field does not survive disassembly and
  reassembly.** The disassembler does not print that field, so it comes
  back as 0 (`CodecProps.NonzeroUnusedFieldIsLost`).
- **A label named `__proto__` is never entered.** The symbol table is a
  plain object, and `symboltable["__proto__"] = caddr` reaches the
  inherited `__proto__` setter, which ignores a number. So a second
  `.__proto__:` is no duplicate, the operand `.__proto__` is an undefined
  symbol, and `%SLDI r,.__proto__` is `sldi(NaN)`
  (`AssemblerProps.ProtoNeverEntered`, `AssemblerProps.ProtoLabelTwice`).
- **`schemaEqual` also accepts a kind list whose first mismatch is a
  rejected operand.** `find` returns that `undefined` element, which is
  falsy. This only happens after a `reject` has settled the promise, so
  `AsmSyntax.SchemaEqual` over `Kind` lists is exact wherever its result
  is observable.
- **A `%RET` after a `%CALL` whose push fell past the end of data memory
  returns to address 0**, which `_br` treats as no jump
  (`MacroProps.CallThenReturn`).
- **`%PLDI` loads its own address.** That is the address of the first
  instruction of `sldi r6` itself, not the address after the `%CALL`
  (`AssemblerProps.PldiLoadsOwnAddress`).
- **An unknown mnemonic emits no word**, but it still takes an address and
  a mapping entry.
- **`adi r,.label` puts the label's address in the `aa` field.**
  **`ldi r,.label` keeps the address modulo 8.**
- **`brn` has no range check.** It keeps the offset modulo 64.
- **A branch or jump to address 0 never branches.** `_br` is falsy. A
  taken branch to its own address halts.

## Model

| member | source | states |
|---|---|---|
| Isa.U16 | src/components/Emulator.js:7 | the result is a 16-bit word congruent to the input modulo 65536, and equal to it when the input is already a word |
| Isa.EndianSwap | src/components/Emulator.js:8 | the result is a word whose low byte is the input's high byte and whose high byte is the input's low byte |
| Isa.EndianSwapInvolution | src/components/Emulator.js:8 | swapping the bytes twice gives back any 16-bit word |
| Isa.Decode | src/components/Emulator.js:67-71 | the op, da, aa and ba fields are in range (7, 3, 3 and 3 bits) and recompose the instruction word |
| Isa.Encode | src/components/scasm.js:7 | `generateInstr` gives a word that decodes to the opcode modulo 128 and each operand modulo 8 |
| Isa.DecodePacked | src/components/scasm.js:7 | fields in range packed into a word decode back to themselves |
| Isa.BranchOffset | src/components/Emulator.js:72-74 | the signed offset is in -32..31 and congruent modulo 64 to the six bits `da:ba` |
| Isa.BranchOffsetRoundTrip | src/components/scasm.js:224-226 | an offset in -32..31, split into `da` and `ba` as `brz` does, decodes back to itself |
| Isa.OpcodeOf | src/components/Emulator.js:77-198 | a recognised numeric opcode is the code of the instruction found |
| Isa.OpcodeTableConsistent | src/components/Emulator.js:77-198 | every instruction's code is recognised as that instruction |
| Isa.ParseMnemonic | src/components/scasm.js:149 | a recognised mnemonic equals the lower-cased token |
| Isa.MnemonicParses | src/components/scasm.js:149-239 | every instruction's mnemonic is recognised as that instruction |
| Isa.NameLowered | src/components/Emulator.js:231 | the emulator's upper-case name, lower-cased as the disassembler prints it, is the assembler's mnemonic |
| Common.ToLower | src/components/scasm.js:149 | same length; each ASCII letter is lower-cased and every other character is kept |
| Common.PadEnd | src/components/Emulator.js:231 | `padEnd`: the text is kept in front and spaces fill up to the width |
| Common.Decimal | src/components/Emulator.js:176 | a minus sign leads exactly when the number is negative; the rest is decimal digits that read back as the number's absolute value, with no leading `0` unless the number is 0 |
| Hex.Hex4 | src/components/scasm.js:6 | `hex4b` of a word gives four upper-case hex digits |
| Hex.Hex4RoundTrip | src/components/Emulator.js:35 | parsing `hex4b` of a word gives the word back |
| Hex.ParseProgram | src/components/Emulator.js:30 | the loader's words are 16-bit, and there are at most a quarter as many as characters |
| Hex.HexText | src/components/scasm.js:152 | the hex text has four upper-case hex digits per word |
| Hex.HexTextAppend | src/components/scasm.js:152 | appending a word's `hex4b` extends the hex text by that word |
| Hex.ParseHexText | src/components/Emulator.js:30-36 | the loader reads back exactly the words of a text written with `hex4b` |
| Hex.LineLength | src/components/Emulator.js:224 | the length of the first line as the `m` flag sees it: no line terminator (`\n`, `\r`, U+2028, U+2029) before it, and a terminator at it unless the text ends |
| Hex.StripCommentLines | src/components/Emulator.js:224 | removing `//` lines never lengthens the text |
| Hex.StripLine | src/components/Emulator.js:224 | a line starting with `//` is emptied, every other line is kept, and its terminator stays |
| Hex.ParseProgramSplit | src/components/Emulator.js:30 | the loader's words of two texts joined at a non-hex character are the words of the first, then those of the second |
| Hex.LineWords | src/components/Emulator.js:224-225 | after stripping, a `//` line contributes no loader words and any other line contributes its own words, in order |
| Machine.BitAnd | src/components/Emulator.js:111 | a word whose bit i is set exactly when bit i of both operands is, for each of the 16 bits |
| Machine.BitOr | src/components/Emulator.js:117 | a word whose bit i is set exactly when bit i of either operand is, for each of the 16 bits |
| Machine.BitXor | src/components/Emulator.js:123 | a word whose bit i is set exactly when bit i of exactly one operand is, for each of the 16 bits |
| Machine.BitwiseBit | src/components/Emulator.js:111-123 | each of the low bits of the bit-by-bit operation is the operation on the operands' bits at that position |
| Machine.BitsDetermine | src/components/Emulator.js:111-123 | two words with the same 16 bits are equal, so the contracts of `BitAnd`, `BitOr` and `BitXor` fix their results |
| Machine.LoadRaw | src/components/Emulator.js:165 | a read past the end of data memory gives 0; a read of a memory of words gives a word |
| Machine.StoreRaw | src/components/Emulator.js:171 | the length is kept; the addressed entry becomes the value and no other entry changes; a write past the end changes nothing |
| Machine.RawStoreThenLoad | src/components/Emulator.js:165-171 | a read after a write gives the written value at that address inside the memory, and the old contents everywhere else |
| Machine.Operands | src/components/Emulator.js:80-192 | `_args` has one text for `jmp`, three for `add`, `sub`, `and`, `or`, `xor` and `adi`, two for the rest; each text is nonempty and the first names a register |
| Machine.Execute | src/components/Emulator.js:76-198 | each opcode's effect: only `r[da]` is written, and only by writing instructions; V and C are cleared; N and Z are set from the result where the source does so; `st` writes the byte-swapped register at `r[aa]` and nothing else; a branch target exists exactly for a branch whose condition holds |
| Machine.RegisterResult | src/components/Emulator.js:78-166 | the value written to `r[da]` is a 16-bit word |
| Machine.ProgramImage | src/components/Emulator.js:19-36 | program memory holds 65536 words: the loaded words from address 0, then zeros |
| Machine.Resolve | src/components/Emulator.js:201-207 | halts exactly on a taken branch to its own nonzero address (a target of 0 counts as no branch); otherwise goes to the target, or to pc+1 |
| Machine.StepSpec | src/components/Emulator.js:64-208 | stops at the end of the program; an unknown opcode faults and changes nothing; a halt keeps pc; with branching off, every known instruction steps to pc+1 |
| Machine.SimpleComputer.constructor | src/components/Emulator.js:18-37 | registers, pc and flags are cleared; program memory is the loaded image; the program length is the number of hex words; data memory is the given buffer |
| Machine.SimpleComputer.LoadImage | src/components/Emulator.js:30-36 | a fresh 65536-word memory holding each hex word at its offset and 0 everywhere else, the program image |
| Machine.SimpleComputer.Reset | src/components/Emulator.js:39-55 | registers, pc, decoded fields and flags are zero, with a fresh register array |
| Machine.SimpleComputer.SetFlags | src/components/Emulator.js:57-62 | the flags become the four given values |
| Machine.SimpleComputer.Step | src/components/Emulator.js:64-208 | the new machine state and status are those of `StepSpec` on the old state; the fetched word and fields are recorded; the disassembly text is set |
| Machine.SimpleComputer.Cycle | src/components/Emulator.js:67-207 | one cycle within the program follows `StepSpec` |
| Machine.SimpleComputer.Dispatch | src/components/Emulator.js:76-207 | executing a known opcode and resolving the branch follows `Execute` then `Resolve` |
| Machine.SimpleComputer.Fetch | src/components/Emulator.js:67-71 | `ir` is the word at pc modulo 65536, and the fields are its decoding; the machine state is unchanged |
| Machine.SimpleComputer.Record | src/components/Emulator.js:79-192 | `_instr` and `_args` name the instruction and its operands; the machine state is unchanged |
| Machine.SimpleComputer.FollowBranch | src/components/Emulator.js:201-207 | the pc update and status are `Resolve`'s |
| Machine.SimpleComputer.RegisterValue | src/components/Emulator.js:78-166 | the computed value is `RegisterResult` on the current state |
| Machine.SimpleComputer.ExecuteInstruction | src/components/Emulator.js:76-198 | the new registers, flags and data memory, and the branch target, are `Execute`'s |
| Machine.SimpleComputer.ExecuteRegister | src/components/Emulator.js:78-166 | a register-writing instruction changes the state as `Execute` does |
| Machine.SimpleComputer.ExecuteStore | src/components/Emulator.js:168-173 | `st` changes the state as `Execute` does |
| Machine.SimpleComputer.ExecuteBranch | src/components/Emulator.js:174-194 | `brz`, `brn` and `jmp` produce `Execute`'s branch target and clear the flags |
| MachineProps.StoreThenLoad | src/components/Emulator.js:162-173 | `st` then `ld` at the same address gives back the stored register (the two byte swaps cancel); `st` writes no register |
| MachineProps.XorSelfClears | src/components/Emulator.js:120-125 | `xor r,a,a` writes 0 and sets only Z |
| MachineProps.BranchTarget | src/components/Emulator.js:174-194 | the address a taken branch goes to is a 16-bit word |
| MachineProps.BranchStep | src/components/Emulator.js:174-207 | a branch step keeps registers and memory and clears the flags. It halts exactly when taken to its own address, and otherwise goes to the target if taken, or to pc+1 |
| MachineProps.JumpToZeroFallsThrough | src/components/Emulator.js:190-207 | `jmp` through a register holding 0 steps to pc+1 |
| Disassembler.LineText | src/components/Emulator.js:230 | the line is the lower-cased instruction name padded with spaces to four characters, one space, the comma-joined operands and a line break |
| Disassembler.Disasm | src/components/Emulator.js:223-233 | a failure names an unknown opcode; a listing starts with the two header comment lines |
| Disassembler.Listing | src/components/Emulator.js:226-231 | a listing of n instructions has n lines of one line each; a failed one names an unknown opcode |
| Disassembler.LineTextOneLine | src/components/Emulator.js:231 | each printed instruction is one line ending in a line break |
| Disassembler.LoadedWords | src/components/Emulator.js:224-225 | the disassembler loads 16-bit words |
| Disassembler.Disassemble | src/components/Emulator.js:223-233 | the `while (cont)` loop over the `SimpleComputer` produces `Disasm` of the hex text |
| Disassembler.PrintStep | src/components/Emulator.js:228-231 | one cycle either appends the next instruction's line, stops at the end with the text unchanged, or reports the unknown opcode |
| Disassembler.ListingFault | src/components/Emulator.js:195-197 | an unknown opcode before the end makes the whole disassembly fail with that opcode |
| Disassembler.ListingOkIff | src/components/Emulator.js:226-231 | the listing succeeds exactly when every instruction up to the end has a known opcode |
| Disassembler.DisasmOneLinePerWord | src/components/Emulator.js:223-233 | disassembly succeeds exactly when every loaded word has a known opcode, and then has two header lines plus one line per word |
| AsmSyntax.Classify | src/components/scasm.js:133-147 | operand kinds in the source's order: register `r0`..`r7`, defined symbol (with its address), undefined symbol (rejected), immediate 0..7, other number, unknown (rejected); both directions for a register, for a defined symbol and for rejection |
| AsmSyntax.ClassifyAll | src/components/scasm.js:130-147 | every operand classified in order; an error is the error of the first operand that fails, all operands before it classifying |
| AsmSyntax.SchemaEqual | src/components/scasm.js:1-4 | true exactly when the two kind lists are equal |
| AsmSyntax.Six | src/components/scasm.js:224 | the six-bit offset field is in 0..63 and congruent to the offset modulo 64 |
| AsmSyntax.EncodeInstr | src/components/scasm.js:149-239 | an encoded word carries the mnemonic's opcode; the only errors are invalid operands or, for `brz`, a branch too far |
| EncodeProps.InvalidArgsIff | src/components/scasm.js:149-239 | operands are rejected exactly when their kinds are none of the mnemonic's schemas; any other error is a `brz` out of range |
| EncodeProps.BranchFields | src/components/scasm.js:224-234 | a branch word holds the tested register in `aa` and the offset modulo 64 in `da:ba`, exactly the offset when in range |
| EncodeProps.BrzToLabel | src/components/scasm.js:218-227 | `brz r,.label` encodes iff the label is within -32..31 of the instruction, else fails with the distance; taken, it lands on the label modulo 65536 |
| EncodeProps.BrzImmediate | src/components/scasm.js:218-227 | `brz r,n` encodes iff n is in -32..31, with offset n, else fails with n |
| EncodeProps.BrnAnyOffset | src/components/scasm.js:228-235 | `brn` always encodes, keeping the offset modulo 64 (exactly when in range) |
| EncodeProps.LdiLabel | src/components/scasm.js:198-203 | `ldi r,.label` encodes the address modulo 8 in `ba` |
| EncodeProps.AdiLabel | src/components/scasm.js:204-209 | `adi r,.label` encodes the address modulo 8 in `aa`, where a register number belongs, and 0 in `ba` |
| Macros.Groups | src/components/scasm.js:21-22 | five three-bit groups, each below 8 |
| Macros.PowGroups | src/components/scasm.js:21-22 | group j is the three bits at offset 13-3j |
| Macros.DropZeros | src/components/scasm.js:23-24 | the kept groups start with a nonzero group |
| Macros.DropZerosSnoc | src/components/scasm.js:21-26 | pushing a group keeps it unless nothing nonzero came before and it is zero |
| Macros.CollectGroups | src/components/scasm.js:19-26 | the loop collects the groups from the first nonzero one on |
| Macros.EmitGroups | src/components/scasm.js:30-39 | the `forEach` emits each group's `ldi`/`adi` and `shl`s after the block header |
| Macros.Sldi | src/components/scasm.js:9-46 | the lines of `sldi(n, r)` in every case: 0, 0xFFFF, 1..7 and the general one |
| Macros.GroupsLines | src/components/scasm.js:30-39 | the group lines are all instructions |
| Macros.SldiLines | src/components/scasm.js:9-46 | `sldi` gives a macro block: at least three lines, the opening marker first, the closing marker last, and only instructions between them |
| Macros.ExpandAll | src/components/scasm.js:57-64 | pass 0 never shortens the source, and a source with no directive comes out line for line as it went in |
| Macros.Expand | src/components/scasm.js:61-64 | an ordinary line stays as it is; every directive becomes a macro block opened and closed by its markers |
| SldiProof.AsmSldi | src/components/scasm.js:9-46 | the `sldi` lines assemble without error into the expected words |
| SldiProof.SldiLoads | src/components/scasm.js:9-46 | assembled and run, `sldi(n, r)` leaves `r` holding n modulo 65536 and changes no other register and no data word (n below 65536, or its low 16 bits at least 2) |
| SldiProof.SldiDoublesRegister | src/components/scasm.js:9-46 | for a number of 65536 or more whose low 16 bits are 0 or 1, the expansion doubles the register (and adds one for an odd number) instead of loading it |
| Assembler.LabelKey | src/components/scasm.js:88 | the key is the name inside `.name:`, or the whole token when it does not have that form; never empty for a nonempty token |
| Assembler.LabelKeyOfDefinition | src/components/scasm.js:88 | a `.name:` label is entered under `name` |
| Assembler.Pass1From | src/components/scasm.js:71-94 | pass 1's only error is a duplicate symbol |
| Assembler.Enter | src/components/scasm.js:91 | `symboltable[key] = caddr` on a plain object: the key `__proto__` leaves the table as it was, any other key is entered with the address |
| Assembler.SpliceLine | src/components/scasm.js:77-86 | splicing `sldi(caddr, r6)` over a `%PLDI` leaves the lines before it unchanged and continues pass 1 on the spliced lines with the line count set back |
| Assembler.PassLine | src/components/scasm.js:87-93 | a label enters the current address, an instruction advances address and line count, a comment line advances nothing |
| Assembler.Pass1 | src/components/scasm.js:68-94 | the loop with its in-place splice computes `Pass1From` |
| Assembler.Pass1Labels | src/components/scasm.js:87-92 | every label's key other than `__proto__` maps to the number of addressed lines in front of it; the table only grows and never gains `__proto__`; no `%PLDI` is left |
| Assembler.Pass1OkIff | src/components/scasm.js:89-91 | pass 1 succeeds exactly when no label key repeats, counting the keys already entered; a repeated `__proto__` is no repeat |
| Assembler.FreshFromIff | src/components/scasm.js:89-91 | checking the labels one at a time, as pass 1 meets them, is the same as requiring every key new and all keys distinct |
| Assembler.ResolveLine | src/components/scasm.js:96-97 | any line but `%SLDI r,.name` stays as it is; that line becomes a macro block with only instructions between its markers |
| Assembler.ResolveSldi | src/components/scasm.js:96-97 | after pass 1, no `%PLDI` or symbolic `%SLDI` line is left; the stream never gets shorter, and without a symbolic `%SLDI` it is unchanged |
| Assembler.EncodeLine | src/components/scasm.js:129-240 | one instruction line's classification and encoding |
| Assembler.Pass2Line | src/components/scasm.js:109-241 | only an instruction line can fail; the line count moves outside a macro block; an instruction takes one address and one mapping entry holding its line and adds at most one word; any other line adds no address, entry or word |
| Assembler.Pass2Run | src/components/scasm.js:106-243 | the address counter grows by at most one per line; words and mapping only grow, the mapping by one entry per address and the words by at most one per address |
| Assembler.Pass2Step | src/components/scasm.js:109-241 | one line of the scan leaves the counters, depth, words and mapping that `Pass2Line` gives, or raises its rejection |
| Assembler.Pass2 | src/components/scasm.js:106-243 | the `forEach` over the lines computes `Pass2Run`, ending at the first error |
| Assembler.Pass2Words | src/components/scasm.js:149-241 | every word pass 2 emits is a 16-bit word with a known opcode |
| Assembler.DropLast | src/components/scasm.js:245 | the mapping loses its last entry and keeps the rest |
| Assembler.Assemble | src/components/scasm.js:48-268 | the hex of a successful assembly is upper-case hex digits, four per word |
| Assembler.Scasm | src/components/scasm.js:48-268 | the whole assembler computes `Assemble` |
| AssemblerProps.Pass2Counts | src/components/scasm.js:127-241 | each instruction line advances the address counter and the mapping by one; each known mnemonic adds one word; earlier words and mapping entries are kept; the line count never goes back |
| AssemblerProps.Pass2MappingSorted | src/components/scasm.js:109-127 | the mapping never decreases and never passes the current line |
| AssemblerProps.InsideBlock | src/components/scasm.js:110-121 | inside a macro block the line count stays put and every instruction maps to the same line |
| AssemblerProps.MacroBlockMapping | src/components/scasm.js:110-127 | every instruction of a macro block maps to the line of its opening marker |
| AssemblerProps.ResolveCount | src/components/scasm.js:91-97 | after the rewrite, the instructions number the addresses pass 1 counted plus what each symbolic `%SLDI` adds |
| AssemblerProps.LabelAddress | src/components/scasm.js:87-97 | a label's table entry (any key but `__proto__`), plus what the symbolic `%SLDI` lines before it add, is the number of instructions in front of it in the stream pass 2 encodes |
| AssemblerProps.LabelAddressExact | src/components/scasm.js:87-97 | with no symbolic `%SLDI` before a label, its entry is exactly the address pass 2 gives the instruction after it |
| AssemblerProps.SymbolicSldiMiscount | src/components/scasm.js:92-97 | `%SLDI r1,.x` with `x` at 8 takes two addresses where pass 1 counted one |
| AssemblerProps.SldiNaN | src/components/scasm.js:9-46 | `sldi(NaN)` is the macro block around a single `shl`, which assembles to that one word |
| AssemblerProps.SymbolicSldiUndefined | src/components/scasm.js:96-97 | `%SLDI r,.name` with `name` undefined becomes that block; assembled and run, it doubles the register modulo 65536 and changes no other register and no data word |
| AssemblerProps.ProtoNeverEntered | src/components/scasm.js:89-97 | after pass 1 the table holds no `__proto__`, so the operand `.__proto__` is rejected as an undefined symbol and `%SLDI r,.__proto__` becomes `sldi(NaN)` |
| AssemblerProps.ProtoLabelTwice | src/components/scasm.js:89-91 | two `.__proto__:` labels pass pass 1 and leave the table empty |
| AssemblerProps.SymbolicSldiDefined | src/components/scasm.js:96-97 | `%SLDI r,.name` with `name` defined loads the name's address modulo 65536 into the register and changes no other register and no data word (for the addresses `SldiProof.SldiLoads` covers) |
| AssemblerProps.Pass2RunAppend | src/components/scasm.js:109-243 | pass 2 over two stretches is pass 2 over the first, then over the second from where it stopped |
| AssemblerProps.Pass2InstrAddress | src/components/scasm.js:106-241 | the instruction at index j is encoded with the address counter at the number of instructions in front of it |
| AssemblerProps.UpperHexHasNoComment | src/components/Emulator.js:224 | a text of hex digits passes comment stripping unchanged |
| AssemblerProps.AssembledProgram | src/components/scasm.js:149-245 | the assembled hex has one word per known instruction; the loader reads it back exactly; it disassembles with two header lines plus one per word; the mapping has one entry per instruction but the last |
| AssemblerProps.PldiSplice | src/components/scasm.js:77-86 | a `%PLDI` at address c comes out of pass 1 as the lines of `sldi r6, c` |
| AssemblerProps.PldiLoadsOwnAddress | src/components/scasm.js:63-84 | the `%PLDI` of a `%CALL` at address c loads c, the address of its own expansion, into `r6` (modulo 65536) and changes no other register |
| CodecProps.EncodeThenPrint | src/components/scasm.js:149-239 | for every mnemonic, operands that fit its schema (registers, immediates 0..7, a branch offset in -32..31) encode without error, and the emulator's `_args` for the word are those operands' texts in order: each operand lands in the field the emulator reads it from |
| CodecProps.PrintedTexts | src/components/Emulator.js:80-192 | `_args` are the texts of the operands the disassembler prints: `r` and the field for a register, the decimal number otherwise |
| CodecProps.ClassifyRereads | src/components/scasm.js:130-147 | printed operands are classified back into themselves, whatever the symbol table holds |
| CodecProps.EncodeDecoded | src/components/scasm.js:7 | packing the fields of a decoded word gives the word back |
| CodecProps.Reprint | src/components/scasm.js:149-239 | for every opcode, the printed operands of fields whose unused fields are zero encode back to those fields |
| CodecProps.PrintThenEncode | src/components/Emulator.js:77-198 | a word with a known opcode and zero unused fields, printed by the disassembler and read back by pass 2, classifies into the printed operands and encodes to the same word |
| CodecProps.ListingLineReassembles | src/components/scasm.js:129-241 | the disassembled instruction of such a word, with its mnemonic lower-cased, appends that same word in pass 2 |
| CodecProps.NonzeroUnusedFieldIsLost | src/components/Emulator.js:78-83 | `0x0001` is printed as `mova r0,r0`, which assembles to `0x0000` |
| MacroProps.BlockParts | src/components/scasm.js:62-64 | the `%ISTK` block is `xor r7,r7,r7`; the `%CALL r` block is `%PLDI`, `inc r7,r7`, `st r7,r6`, `jmp r`; the `%RET` block is `ld r6,r7`, `dec r7,r7`, `jmp r6` |
| MacroProps.IstkClearsStack | src/components/scasm.js:62 | `%ISTK`, assembled and run, leaves `r7` at 0 and every other register, `pc` and data memory as they were |
| MacroProps.JumpTarget | src/components/Emulator.js:190-194 | `jmp r` assembles to one word that changes no register or data word and whose target is the value of `r` |
| MacroProps.CallPushes | src/components/scasm.js:63 | `inc r7,r7` then `st r7,r6` raise `r7` by one modulo 65536 and store `r6`, byte-swapped, at the new `r7` (nothing when that is past the end of data memory); no other register changes |
| MacroProps.RetPops | src/components/scasm.js:64 | `ld r6,r7` then `dec r7,r7` load `r6` with the word at `r7` swapped back (0 past the end of data memory) and lower `r7` by one modulo 65536; no other register and no data word changes |
| MacroProps.CallState | src/components/scasm.js:63 | after a `%CALL` at address c, before its `jmp`: `r6` holds c modulo 65536, `r7` is one higher, the data word at the new `r7` holds c byte-swapped, and `r0`..`r5` are unchanged |
| MacroProps.ReturnState | src/components/scasm.js:64 | after a `%RET`, before its `jmp r6`: `r6` holds the swapped-back word at `r7` and `r7` is one lower; data memory is unchanged |
| MacroProps.CallThenReturn | src/components/scasm.js:63-64 | a `%RET` reached with `r7` and its stack word as the `%CALL` left them restores `r7` to its value before the call and loads `r6` with the `%CALL`'s address, or with 0 when the push fell past the end of data memory |

## Left out

- The React component, the Monaco language definition, file reading, the
  pretty-printer `generatePrettyAsmhex`, `generateRawASM` and all
  `console.log` output. They are I/O and user interface.
- `iasmsrc`, the "intermediate assembly" text built at `scasm.js:99-102`
  and `scasm.js:252-260`. It is display-only and is not part of the
  assembled program.
- Text handling before the passes:
  - `\r` removal;
  - rewriting `0b`/`0o`/`0x` literals to decimal;
  - the regular expressions that recognise directives and labels;
  - splitting on blanks and commas;
  - `parseInt` of operand text.

  The model starts from tokenised lines (`AsmSyntax.Line`, with each
  operand's text and its parsed value, `None` for `NaN`) and from
  recognised directives (`Macros.Directive`).
- Error message text. Errors are values of `AsmSyntax.AsmError`, carrying
  the line number and the operand or mnemonic the message names.
- `process.exit(1)` on an unknown opcode. It is modelled as a `Fault`
  status, and as an `Err` carrying the opcode in the disassembler.
- The `brn` undefined-symbol `throw` at `scasm.js:230`. It is reached
  only after classification has already rejected the operand:
  `schemaEqual`'s `find` returns the rejected `undefined` kind, which is
  falsy, so the `['reg','addr']` schema matches. The `throw` never settles
  the promise and only ends the scan.
- Assembler.Scasm: the promise is modelled by its first settlement. The scan goes on
  after a `reject`, but nothing it does afterwards is observable.
- Machine.SimpleComputer: the data memory is the typed array the source
  builds from the buffer it is given, passed in as an array; with no buffer
  that array is empty. `noBranching` is a plain flag.
- SldiProof.Run: it applies each assembled word's effect on registers,
  flags and data memory, and ignores the program counter, so it says what
  an expansion computes rather than how the machine steps through it.
- SldiProof.SldiLoads: excludes numbers of 65536 and above whose low
  sixteen bits are 0 or 1. For those, `sldi` doubles the register instead
  (`SldiProof.SldiDoublesRegister`).
- Machine.RegisterResult: its contract states only that the value is a
  16-bit word. Each opcode's value is given by the body, and
  `Machine.Execute` ties it to the register written.
- MachineProps.BranchTarget: its contract states only that the target is
  a 16-bit word. `MachineProps.BranchStep` states where a branch goes.
- Hex.StripCommentLines: its contract bounds only the length.
  `Hex.StripLine` and `Hex.LineWords` state what it does line by line, and
  `AssemblerProps.UpperHexHasNoComment` what it does to assembled hex.
- Disassembler.LoadedWords: its contract states only that the words are
  16-bit. `Disassembler.DisasmOneLinePerWord` and
  `AssemblerProps.AssembledProgram` state what is loaded.
- CodecProps: the round trip is per instruction. It starts from the
  tokens of one line, so the splitting of listing text into lines and
  operands is not modelled (see the text handling above).
- AsmSyntax.EncodeInstr: its contract states the opcode and the error
  cases only. Which field each operand lands in is stated by
  `CodecProps.EncodeThenPrint` and `CodecProps.Reprint`.
