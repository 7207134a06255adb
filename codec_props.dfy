/** The assembler's encoder against the emulator's decoder. For every
    mnemonic, the word pass 2 encodes from register and number operands is
    printed back by `executeCycle`'s `_args` as those operands, in order; and
    every word whose unused fields are zero, printed by the disassembler and
    read back by pass 2, encodes to the same word again. */
module CodecProps {
  import opened Common
  import opened Isa
  import opened AsmSyntax
  import opened EncodeProps
  import Machine
  import Assembler

  /** How the disassembler writes an operand: `r<N>` for a register, the
      decimal number otherwise. */
  function Render(a: Operand): string
  {
    if a.kind == Reg then "r" + Decimal(a.value) else Decimal(a.value)
  }

  function Texts(ops: seq<Operand>): (ts: seq<string>)
    ensures |ts| == |ops| && forall i :: 0 <= i < |ops| ==> ts[i] == Render(ops[i])
  {
    seq(|ops|, i requires 0 <= i < |ops| => Render(ops[i]))
  }

  /** The token pass 2 reads for a printed operand: its text, and the number
      `parseInt` reads from it once the `r` is removed (the digits of
      `Decimal` read back as the number). */
  function Reread(a: Operand): Token
  {
    Token(Render(a), Some(a.value))
  }

  function Rereads(ops: seq<Operand>): (ts: seq<Token>)
    ensures |ts| == |ops| && forall i :: 0 <= i < |ops| ==> ts[i] == Reread(ops[i])
  {
    seq(|ops|, i requires 0 <= i < |ops| => Reread(ops[i]))
  }

  /** An operand as classification makes it from a register name or a
      number: a register or a small immediate in 0..7, or another number. */
  predicate Numeric(a: Operand)
  {
    match a.kind
    case Reg => 0 <= a.value < 8
    case Imm => 0 <= a.value < 8
    case Off => !(0 <= a.value < 8)
    case Addr => false
  }

  /** Operands that fit their instruction: one of the mnemonic's schemas
      without a label, and a branch offset in -32..31. */
  predicate Fits(o: Opcode, ops: seq<Operand>)
  {
    && Kinds(ops) in Schemas(o)
    && (forall i :: 0 <= i < |ops| ==> Numeric(ops[i]))
    && ((o == BRZ || o == BRN) ==> -32 <= Value(ops, 1) < 32)
  }

  predicate IsReg(a: Operand) { a.kind == Reg && 0 <= a.value < 8 }

  /** `mova`, `inc`, `dec`, `not` and `ld`: `da`, then `aa`. */
  lemma {:induction false} PrintDestSourceA(o: Opcode, a: Operand, b: Operand, caddr: int, line: int)
    requires o in {MOVA, INC, DEC, NOT, LD} && IsReg(a) && IsReg(b)
    ensures EncodeInstr(o, [a, b], caddr, line) == Ok(Encode(Code(o), a.value, b.value, 0))
    ensures Machine.Operands(o, Decode(Encode(Code(o), a.value, b.value, 0))) == [Render(a), Render(b)]
  {
    assert SchemaEqual(Kinds([a, b]), [Reg, Reg]);
    assert Decode(Encode(Code(o), a.value, b.value, 0)) == Fields(Code(o), a.value, b.value, 0);
  }

  /** `movb`, `shr` and `shl`: `da`, then `ba`. */
  lemma {:induction false} PrintDestSourceB(o: Opcode, a: Operand, b: Operand, caddr: int, line: int)
    requires o in {MOVB, SHR, SHL} && IsReg(a) && IsReg(b)
    ensures EncodeInstr(o, [a, b], caddr, line) == Ok(Encode(Code(o), a.value, 0, b.value))
    ensures Machine.Operands(o, Decode(Encode(Code(o), a.value, 0, b.value))) == [Render(a), Render(b)]
  {
    assert SchemaEqual(Kinds([a, b]), [Reg, Reg]);
    assert Decode(Encode(Code(o), a.value, 0, b.value)) == Fields(Code(o), a.value, 0, b.value);
  }

  /** `st`: the address register in `aa`, the stored one in `ba`. */
  lemma {:induction false} PrintStore(a: Operand, b: Operand, caddr: int, line: int)
    requires IsReg(a) && IsReg(b)
    ensures EncodeInstr(ST, [a, b], caddr, line) == Ok(Encode(Code(ST), 0, a.value, b.value))
    ensures Machine.Operands(ST, Decode(Encode(Code(ST), 0, a.value, b.value))) == [Render(a), Render(b)]
  {
    assert SchemaEqual(Kinds([a, b]), [Reg, Reg]);
    assert Decode(Encode(Code(ST), 0, a.value, b.value)) == Fields(Code(ST), 0, a.value, b.value);
  }

  /** `add`, `sub`, `and`, `or` and `xor`: `da`, `aa`, `ba`. */
  lemma {:induction false} PrintThreeRegs(o: Opcode, a: Operand, b: Operand, c: Operand, caddr: int, line: int)
    requires o in {ADD, SUB, AND, OR, XOR} && IsReg(a) && IsReg(b) && IsReg(c)
    ensures EncodeInstr(o, [a, b, c], caddr, line) == Ok(Encode(Code(o), a.value, b.value, c.value))
    ensures Machine.Operands(o, Decode(Encode(Code(o), a.value, b.value, c.value))) == [Render(a), Render(b), Render(c)]
  {
    assert SchemaEqual(Kinds([a, b, c]), [Reg, Reg, Reg]);
    assert Decode(Encode(Code(o), a.value, b.value, c.value)) == Fields(Code(o), a.value, b.value, c.value);
  }

  /** `ldi`: the register in `da`, the immediate in `ba`. */
  lemma {:induction false} PrintLdi(a: Operand, b: Operand, caddr: int, line: int)
    requires IsReg(a) && b.kind == Imm && 0 <= b.value < 8
    ensures EncodeInstr(LDI, [a, b], caddr, line) == Ok(Encode(Code(LDI), a.value, 0, b.value))
    ensures Machine.Operands(LDI, Decode(Encode(Code(LDI), a.value, 0, b.value))) == [Render(a), Render(b)]
  {
    assert SchemaEqual(Kinds([a, b]), [Reg, Imm]);
    assert Decode(Encode(Code(LDI), a.value, 0, b.value)) == Fields(Code(LDI), a.value, 0, b.value);
  }

  /** `adi`: `da`, `aa`, and the immediate in `ba`. */
  lemma {:induction false} PrintAdi(a: Operand, b: Operand, c: Operand, caddr: int, line: int)
    requires IsReg(a) && IsReg(b) && c.kind == Imm && 0 <= c.value < 8
    ensures EncodeInstr(ADI, [a, b, c], caddr, line) == Ok(Encode(Code(ADI), a.value, b.value, c.value))
    ensures Machine.Operands(ADI, Decode(Encode(Code(ADI), a.value, b.value, c.value))) == [Render(a), Render(b), Render(c)]
  {
    assert SchemaEqual(Kinds([a, b, c]), [Reg, Reg, Imm]);
    assert Decode(Encode(Code(ADI), a.value, b.value, c.value)) == Fields(Code(ADI), a.value, b.value, c.value);
  }

  /** `brz` and `brn`: the tested register in `aa`, the offset over `da:ba`. */
  lemma {:induction false} PrintBranch(o: Opcode, a: Operand, b: Operand, caddr: int, line: int)
    requires (o == BRZ || o == BRN) && IsReg(a) && (b.kind == Imm || b.kind == Off) && -32 <= b.value < 32
    ensures EncodeInstr(o, [a, b], caddr, line) == Ok(Encode(Code(o), Six(b.value) / 8, a.value, Six(b.value) % 8))
    ensures Machine.Operands(o, Decode(Encode(Code(o), Six(b.value) / 8, a.value, Six(b.value) % 8))) == [Render(a), Render(b)]
  {
    assert Kinds([a, b]) == [Reg, b.kind];
    BranchFields(o, b.value, a.value);
  }

  /** `jmp`: the register in `aa`. */
  lemma {:induction false} PrintJump(a: Operand, caddr: int, line: int)
    requires IsReg(a)
    ensures EncodeInstr(JMP, [a], caddr, line) == Ok(Encode(Code(JMP), 0, a.value, 0))
    ensures Machine.Operands(JMP, Decode(Encode(Code(JMP), 0, a.value, 0))) == [Render(a)]
  {
    assert SchemaEqual(Kinds([a]), [Reg]);
    assert Decode(Encode(Code(JMP), 0, a.value, 0)) == Fields(Code(JMP), 0, a.value, 0);
  }

  lemma {:induction false} TwoOperands(ops: seq<Operand>, x: Kind, y: Kind)
    requires Kinds(ops) == [x, y]
    ensures ops == [ops[0], ops[1]] && ops[0].kind == x && ops[1].kind == y
    ensures Texts(ops) == [Render(ops[0]), Render(ops[1])]
  {
    assert |ops| == 2;
    assert Kinds(ops)[0] == x && Kinds(ops)[1] == y;
  }

  lemma {:induction false} ThreeOperands(ops: seq<Operand>, x: Kind, y: Kind, z: Kind)
    requires Kinds(ops) == [x, y, z]
    ensures ops == [ops[0], ops[1], ops[2]] && ops[0].kind == x && ops[1].kind == y && ops[2].kind == z
    ensures Texts(ops) == [Render(ops[0]), Render(ops[1]), Render(ops[2])]
  {
    assert |ops| == 3;
    assert Kinds(ops)[0] == x && Kinds(ops)[1] == y && Kinds(ops)[2] == z;
  }

  /** `EncodeThenPrint` for the opcodes whose operands are all registers. */
  lemma {:induction false} EncodeThenPrintRegs(o: Opcode, ops: seq<Operand>, caddr: int, line: int)
    requires Fits(o, ops) && o in {MOVA, INC, DEC, NOT, LD, MOVB, SHR, SHL, ST, ADD, SUB, AND, OR, XOR}
    ensures EncodeInstr(o, ops, caddr, line).Ok?
    ensures Machine.Operands(o, Decode(EncodeInstr(o, ops, caddr, line).value)) == Texts(ops)
  {
    match o
    case MOVA | INC | DEC | NOT | LD =>
      TwoOperands(ops, Reg, Reg);
      PrintDestSourceA(o, ops[0], ops[1], caddr, line);
    case MOVB | SHR | SHL =>
      TwoOperands(ops, Reg, Reg);
      PrintDestSourceB(o, ops[0], ops[1], caddr, line);
    case ST =>
      TwoOperands(ops, Reg, Reg);
      PrintStore(ops[0], ops[1], caddr, line);
    case ADD | SUB | AND | OR | XOR =>
      ThreeOperands(ops, Reg, Reg, Reg);
      PrintThreeRegs(o, ops[0], ops[1], ops[2], caddr, line);
  }

  /** `EncodeThenPrint` for the opcodes that take a number. */
  lemma {:induction false} EncodeThenPrintNumbers(o: Opcode, ops: seq<Operand>, caddr: int, line: int)
    requires Fits(o, ops) && o in {LDI, ADI, BRZ, BRN, JMP}
    ensures EncodeInstr(o, ops, caddr, line).Ok?
    ensures Machine.Operands(o, Decode(EncodeInstr(o, ops, caddr, line).value)) == Texts(ops)
  {
    var ks := Kinds(ops);
    match o
    case LDI =>
      assert ks == [Reg, Imm];
      TwoOperands(ops, Reg, Imm);
      PrintLdi(ops[0], ops[1], caddr, line);
    case ADI =>
      assert ks == [Reg, Reg, Imm];
      ThreeOperands(ops, Reg, Reg, Imm);
      PrintAdi(ops[0], ops[1], ops[2], caddr, line);
    case BRZ | BRN =>
      assert ks == [Reg, Imm] || ks == [Reg, Off];
      TwoOperands(ops, Reg, ks[1]);
      PrintBranch(o, ops[0], ops[1], caddr, line);
    case JMP =>
      assert ks == [Reg];
      assert ops == [ops[0]] && Texts(ops) == [Render(ops[0])];
      PrintJump(ops[0], caddr, line);
  }

  /** Encoding an instruction and decoding its word gives back the operand
      texts it was written with, in order: each operand lands in the field
      the emulator reads it from. */
  lemma {:induction false} EncodeThenPrint(o: Opcode, ops: seq<Operand>, caddr: int, line: int)
    requires Fits(o, ops)
    ensures EncodeInstr(o, ops, caddr, line).Ok?
    ensures Machine.Operands(o, Decode(EncodeInstr(o, ops, caddr, line).value)) == Texts(ops)
  {
    if o in {LDI, ADI, BRZ, BRN, JMP} {
      EncodeThenPrintNumbers(o, ops, caddr, line);
    } else {
      EncodeThenPrintRegs(o, ops, caddr, line);
    }
  }

  /** The fields an instruction does not use hold 0, as the assembler
      always leaves them. */
  predicate UnusedZero(o: Opcode, f: Fields)
  {
    match o
    case MOVA | INC | DEC | NOT | LD => f.ba == 0
    case MOVB | SHR | SHL | LDI => f.aa == 0
    case ST => f.da == 0
    case JMP => f.da == 0 && f.ba == 0
    case _ => true
  }

  /** The operands the disassembler prints for a decoded word, as the
      operands pass 2 classifies them into. */
  function Printed(o: Opcode, f: Fields): (ops: seq<Operand>)
    requires ValidFields(f)
    ensures forall i :: 0 <= i < |ops| ==> Numeric(ops[i])
  {
    var rd, ra, rb := Operand(Reg, f.da), Operand(Reg, f.aa), Operand(Reg, f.ba);
    match o
    case MOVA | INC | DEC | NOT | LD => [rd, ra]
    case ADD | SUB | AND | OR | XOR => [rd, ra, rb]
    case MOVB | SHR | SHL => [rd, rb]
    case LDI => [rd, Operand(Imm, f.ba)]
    case ADI => [rd, ra, Operand(Imm, f.ba)]
    case ST => [ra, rb]
    case BRZ | BRN =>
      var off := BranchOffset(f.da, f.ba);
      [ra, Operand(if 0 <= off < 8 then Imm else Off, off)]
    case JMP => [ra]
  }

  /** Each printed operand is classified back into itself, whatever the
      symbol table holds. */
  lemma {:induction false} ClassifyRereads(ops: seq<Operand>, syms: map<string, nat>, line: int)
    requires forall i :: 0 <= i < |ops| ==> Numeric(ops[i])
    ensures ClassifyAll(Rereads(ops), syms, line) == Ok(ops)
    decreases |ops|
  {
    if ops != [] {
      var a := ops[0];
      var t := Render(a);
      if a.kind == Reg {
        assert t[0] == 'r';
      } else {
        assert t[0] == '-' || IsDigit(t[0]);
      }
      assert Classify(Reread(a), syms, line) == Ok(a);
      assert Rereads(ops)[1..] == Rereads(ops[1..]);
      ClassifyRereads(ops[1..], syms, line);
      assert ops == [a] + ops[1..];
    }
  }

  /** Packing the fields of a decoded word gives the word back. */
  lemma {:induction false} EncodeDecoded(w: int)
    requires IsWord(w)
    ensures var f := Decode(w); Encode(f.op, f.da, f.aa, f.ba) == w
  {
    var f := Decode(w);
    assert f.op % 128 == f.op && f.da % 8 == f.da && f.aa % 8 == f.aa && f.ba % 8 == f.ba;
  }

  /** The disassembler's operand texts are those of the operands `Printed`
      gives. */
  lemma {:induction false} PrintedTexts(o: Opcode, f: Fields)
    requires ValidFields(f)
    ensures Texts(Printed(o, f)) == Machine.Operands(o, f)
  {
    var rd, ra, rb := Operand(Reg, f.da), Operand(Reg, f.aa), Operand(Reg, f.ba);
    var ops := Printed(o, f);
    match o
    case MOVA | INC | DEC | NOT | LD =>
      assert Texts(ops) == [Render(rd), Render(ra)];
    case ADD | SUB | AND | OR | XOR =>
      assert Texts(ops) == [Render(rd), Render(ra), Render(rb)];
    case MOVB | SHR | SHL =>
      assert Texts(ops) == [Render(rd), Render(rb)];
    case LDI =>
      assert Texts(ops) == [Render(rd), Render(Operand(Imm, f.ba))];
    case ADI =>
      assert Texts(ops) == [Render(rd), Render(ra), Render(Operand(Imm, f.ba))];
    case ST =>
      assert Texts(ops) == [Render(ra), Render(rb)];
    case BRZ | BRN =>
      assert Texts(ops) == [Render(ra), Render(ops[1])];
    case JMP =>
      assert Texts(ops) == [Render(ra)];
  }

  /** `PrintThenEncode` on fields, one group of opcodes at a time: the
      printed operands encode back to the fields. */
  lemma {:induction false} ReprintDestSourceA(o: Opcode, f: Fields, caddr: int, line: int)
    requires ValidFields(f) && f.op == Code(o) && o in {MOVA, INC, DEC, NOT, LD} && f.ba == 0
    ensures EncodeInstr(o, Printed(o, f), caddr, line) == Ok(Encode(f.op, f.da, f.aa, f.ba))
  {
    var rd, ra := Operand(Reg, f.da), Operand(Reg, f.aa);
    assert Printed(o, f) == [rd, ra];
    PrintDestSourceA(o, rd, ra, caddr, line);
  }

  lemma {:induction false} ReprintDestSourceB(o: Opcode, f: Fields, caddr: int, line: int)
    requires ValidFields(f) && f.op == Code(o) && o in {MOVB, SHR, SHL} && f.aa == 0
    ensures EncodeInstr(o, Printed(o, f), caddr, line) == Ok(Encode(f.op, f.da, f.aa, f.ba))
  {
    var rd, rb := Operand(Reg, f.da), Operand(Reg, f.ba);
    assert Printed(o, f) == [rd, rb];
    PrintDestSourceB(o, rd, rb, caddr, line);
  }

  lemma {:induction false} ReprintStore(f: Fields, caddr: int, line: int)
    requires ValidFields(f) && f.op == Code(ST) && f.da == 0
    ensures EncodeInstr(ST, Printed(ST, f), caddr, line) == Ok(Encode(f.op, f.da, f.aa, f.ba))
  {
    var ra, rb := Operand(Reg, f.aa), Operand(Reg, f.ba);
    assert Printed(ST, f) == [ra, rb];
    PrintStore(ra, rb, caddr, line);
  }

  lemma {:induction false} ReprintThreeRegs(o: Opcode, f: Fields, caddr: int, line: int)
    requires ValidFields(f) && f.op == Code(o) && o in {ADD, SUB, AND, OR, XOR}
    ensures EncodeInstr(o, Printed(o, f), caddr, line) == Ok(Encode(f.op, f.da, f.aa, f.ba))
  {
    var rd, ra, rb := Operand(Reg, f.da), Operand(Reg, f.aa), Operand(Reg, f.ba);
    assert Printed(o, f) == [rd, ra, rb];
    PrintThreeRegs(o, rd, ra, rb, caddr, line);
  }

  lemma {:induction false} ReprintLdi(f: Fields, caddr: int, line: int)
    requires ValidFields(f) && f.op == Code(LDI) && f.aa == 0
    ensures EncodeInstr(LDI, Printed(LDI, f), caddr, line) == Ok(Encode(f.op, f.da, f.aa, f.ba))
  {
    var rd, n := Operand(Reg, f.da), Operand(Imm, f.ba);
    assert Printed(LDI, f) == [rd, n];
    PrintLdi(rd, n, caddr, line);
  }

  lemma {:induction false} ReprintAdi(f: Fields, caddr: int, line: int)
    requires ValidFields(f) && f.op == Code(ADI)
    ensures EncodeInstr(ADI, Printed(ADI, f), caddr, line) == Ok(Encode(f.op, f.da, f.aa, f.ba))
  {
    var rd, ra, n := Operand(Reg, f.da), Operand(Reg, f.aa), Operand(Imm, f.ba);
    assert Printed(ADI, f) == [rd, ra, n];
    PrintAdi(rd, ra, n, caddr, line);
  }

  /** The six offset bits of a decoded branch are its `da:ba` fields. */
  lemma {:induction false} SixOfBranchOffset(da: int, ba: int)
    requires 0 <= da < 8 && 0 <= ba < 8
    ensures Six(BranchOffset(da, ba)) / 8 == da && Six(BranchOffset(da, ba)) % 8 == ba
  {
    var off := BranchOffset(da, ba);
    if da * 8 + ba >= 32 {
      assert off % 64 == da * 8 + ba;
    } else {
      assert off % 64 == da * 8 + ba;
    }
  }

  lemma {:induction false} ReprintBranch(o: Opcode, f: Fields, caddr: int, line: int)
    requires ValidFields(f) && f.op == Code(o) && (o == BRZ || o == BRN)
    ensures EncodeInstr(o, Printed(o, f), caddr, line) == Ok(Encode(f.op, f.da, f.aa, f.ba))
  {
    var off := BranchOffset(f.da, f.ba);
    var ra, n := Operand(Reg, f.aa), Operand(if 0 <= off < 8 then Imm else Off, off);
    assert Printed(o, f) == [ra, n];
    SixOfBranchOffset(f.da, f.ba);
    PrintBranch(o, ra, n, caddr, line);
  }

  lemma {:induction false} ReprintJump(f: Fields, caddr: int, line: int)
    requires ValidFields(f) && f.op == Code(JMP) && f.da == 0 && f.ba == 0
    ensures EncodeInstr(JMP, Printed(JMP, f), caddr, line) == Ok(Encode(f.op, f.da, f.aa, f.ba))
  {
    var ra := Operand(Reg, f.aa);
    assert Printed(JMP, f) == [ra];
    PrintJump(ra, caddr, line);
  }

  /** The printed operands of every opcode encode back to the fields they
      were printed from. */
  lemma {:induction false} Reprint(o: Opcode, f: Fields, caddr: int, line: int)
    requires ValidFields(f) && f.op == Code(o) && UnusedZero(o, f)
    ensures EncodeInstr(o, Printed(o, f), caddr, line) == Ok(Encode(f.op, f.da, f.aa, f.ba))
  {
    match o
    case MOVA | INC | DEC | NOT | LD => ReprintDestSourceA(o, f, caddr, line);
    case MOVB | SHR | SHL => ReprintDestSourceB(o, f, caddr, line);
    case ST => ReprintStore(f, caddr, line);
    case ADD | SUB | AND | OR | XOR => ReprintThreeRegs(o, f, caddr, line);
    case LDI => ReprintLdi(f, caddr, line);
    case ADI => ReprintAdi(f, caddr, line);
    case BRZ | BRN => ReprintBranch(o, f, caddr, line);
    case JMP => ReprintJump(f, caddr, line);
  }

  /** The round trip: a word whose unused fields are zero, printed
      by the disassembler and read back by pass 2, classifies into the
      printed operands and encodes to the same word. */
  lemma {:induction false} PrintThenEncode(w: int, caddr: int, line: int, syms: map<string, nat>)
    requires IsWord(w) && OpcodeOf(Decode(w).op).Some?
    requires UnusedZero(OpcodeOf(Decode(w).op).value, Decode(w))
    ensures var o := OpcodeOf(Decode(w).op).value;
      var ops := Printed(o, Decode(w));
      && Texts(ops) == Machine.Operands(o, Decode(w))
      && ClassifyAll(Rereads(ops), syms, line) == Ok(ops)
      && EncodeInstr(o, ops, caddr, line) == Ok(w)
  {
    var f := Decode(w);
    var o := OpcodeOf(f.op).value;
    ClassifyRereads(Printed(o, f), syms, line);
    PrintedTexts(o, f);
    Reprint(o, f, caddr, line);
    EncodeDecoded(w);
  }

  /** The same at the level of a source line: the disassembled instruction,
      with its mnemonic lower-cased as the disassembler prints it, adds the
      same word to the hex text in pass 2. */
  lemma {:induction false} ListingLineReassembles(w: int, words: seq<int>, caddr: nat, line: nat, syms: map<string, nat>)
    requires IsWord(w) && OpcodeOf(Decode(w).op).Some?
    requires UnusedZero(OpcodeOf(Decode(w).op).value, Decode(w))
    ensures var o := OpcodeOf(Decode(w).op).value;
      Assembler.InstrWords(words, ToLower(Name(o)), Rereads(Printed(o, Decode(w))), syms, caddr, line) == Ok(words + [w])
  {
    var o := OpcodeOf(Decode(w).op).value;
    PrintThenEncode(w, caddr, line, syms);
    NameLowered(o);
    MnemonicParses(o);
  }

  /** A word with a nonzero unused field does not survive the round trip:
      `0x0001` is printed as `mova r0,r0` and assembles to `0x0000`. */
  lemma NonzeroUnusedFieldIsLost()
    ensures Decode(0x0001) == Fields(0, 0, 0, 1)
    ensures Printed(MOVA, Decode(0x0001)) == [Operand(Reg, 0), Operand(Reg, 0)]
    ensures EncodeInstr(MOVA, Printed(MOVA, Decode(0x0001)), 0, 0) == Ok(0x0000)
  {
    assert Kinds([Operand(Reg, 0), Operand(Reg, 0)]) == [Reg, Reg];
  }
}
