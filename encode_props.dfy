/** What the per-mnemonic encoding of pass 2 guarantees: which operand
    schemas each mnemonic accepts, how a branch offset is computed and
    range-checked, and where a label operand of `ldi` and `adi` lands. */
module EncodeProps {
  import opened Common
  import opened Isa
  import opened AsmSyntax

  /** The operand schemas each mnemonic accepts, as a table. */
  function Schemas(o: Opcode): set<seq<Kind>>
  {
    match o
    case MOVA | INC | DEC | NOT | LD | MOVB | SHR | SHL | ST => {[Reg, Reg]}
    case ADD | SUB | AND | OR | XOR => {[Reg, Reg, Reg]}
    case LDI => {[Reg, Addr], [Reg, Imm]}
    case ADI => {[Reg, Addr], [Reg, Reg, Imm]}
    case BRZ | BRN => {[Reg, Addr], [Reg, Imm], [Reg, Off]}
    case JMP => {[Reg]}
  }

  /** An instruction is rejected for its operands exactly when their kinds
      are none of its mnemonic's schemas; any other rejection is a `brz`
      out of range. */
  lemma InvalidArgsIff(o: Opcode, ops: seq<Operand>, caddr: int, line: int)
    ensures EncodeInstr(o, ops, caddr, line) == Err(InvalidArgs(line, Mnemonic(o))) <==> Kinds(ops) !in Schemas(o)
    ensures EncodeInstr(o, ops, caddr, line).Err? && Kinds(ops) in Schemas(o) ==> o == BRZ && EncodeInstr(o, ops, caddr, line).error.BranchTooFar?
  {
  }

  /** A branch word's fields: the tested register in `aa` and the six-bit
      offset split over `da` and `ba`. */
  predicate BranchWord(w: int, o: Opcode, reg: int, off: int)
  {
    && IsWord(w)
    && Decode(w).op == Code(o)
    && Decode(w).aa == reg
    && (BranchOffset(Decode(w).da, Decode(w).ba) - off) % 64 == 0
  }

  /** The word of `brz`/`brn` holds the offset modulo 64, and exactly the
      offset when it is in range. */
  lemma {:induction false} BranchFields(o: Opcode, off: int, reg: int)
    requires o == BRZ || o == BRN
    requires 0 <= reg < 8
    ensures BranchWord(Encode(Code(o), Six(off) / 8, reg, Six(off) % 8), o, reg, off)
    ensures -32 <= off < 32 ==> BranchOffset(Decode(Encode(Code(o), Six(off) / 8, reg, Six(off) % 8)).da,
                                             Decode(Encode(Code(o), Six(off) / 8, reg, Six(off) % 8)).ba) == off
  {
    var six := Six(off);
    var f := Decode(Encode(Code(o), six / 8, reg, six % 8));
    assert f.da == six / 8 && f.ba == six % 8 && f.aa == reg;
    assert (f.da * 8 + f.ba) == six;
    if -32 <= off < 32 {
      BranchOffsetRoundTrip(off);
    }
  }

  /** `brz r,.label` at address `caddr` encodes when the label is less than
      32 words away in either direction and is otherwise rejected with the
      distance; the branch it encodes, taken, lands on the label. */
  lemma {:induction false} BrzToLabel(reg: int, addr: nat, caddr: nat, line: int)
    requires 0 <= reg < 8
    ensures var r := EncodeInstr(BRZ, [Operand(Reg, reg), Operand(Addr, addr)], caddr, line);
      && (r.Ok? <==> -32 <= addr - caddr < 32)
      && (r.Err? ==> r.error == BranchTooFar(line, addr - caddr))
      && (r.Ok? ==> BranchWord(r.value, BRZ, reg, addr - caddr)
                    && U16(caddr + BranchOffset(Decode(r.value).da, Decode(r.value).ba)) == U16(addr))
  {
    var ops := [Operand(Reg, reg), Operand(Addr, addr)];
    assert Kinds(ops) == [Reg, Addr];
    BranchFields(BRZ, addr - caddr, reg);
  }

  /** `brz r,n` with a number encodes when `n` is in -32..31, the branch
      offset then being `n`, and is otherwise rejected with `n`. */
  lemma {:induction false} BrzImmediate(reg: int, k: Kind, n: int, caddr: int, line: int)
    requires 0 <= reg < 8 && (k == Imm || k == Off)
    ensures var r := EncodeInstr(BRZ, [Operand(Reg, reg), Operand(k, n)], caddr, line);
      && (r.Ok? <==> -32 <= n < 32)
      && (r.Err? ==> r.error == BranchTooFar(line, n))
      && (r.Ok? ==> BranchWord(r.value, BRZ, reg, n) && BranchOffset(Decode(r.value).da, Decode(r.value).ba) == n)
  {
    var ops := [Operand(Reg, reg), Operand(k, n)];
    assert Kinds(ops) == [Reg, k];
    BranchFields(BRZ, n, reg);
  }

  /** `brn` has no range check: any offset, to a label or given as a number,
      encodes, and the word keeps only the offset modulo 64. */
  lemma {:induction false} BrnAnyOffset(reg: int, k: Kind, v: int, caddr: int, line: int)
    requires 0 <= reg < 8 && (k == Addr || k == Imm || k == Off)
    ensures var r := EncodeInstr(BRN, [Operand(Reg, reg), Operand(k, v)], caddr, line);
      var off := if k == Addr then v - caddr else v;
      && r.Ok?
      && BranchWord(r.value, BRN, reg, off)
      && (-32 <= off < 32 ==> BranchOffset(Decode(r.value).da, Decode(r.value).ba) == off)
  {
    var ops := [Operand(Reg, reg), Operand(k, v)];
    assert Kinds(ops) == [Reg, k];
    var off := if k == Addr then v - caddr else v;
    BranchFields(BRN, off, reg);
    assert EncodeInstr(BRN, ops, caddr, line) == Ok(Encode(Code(BRN), Six(off) / 8, reg, Six(off) % 8));
  }

  /** `ldi r,.label` encodes the label's address in the three-bit `ba`
      field: the register is loaded with the address modulo 8. */
  lemma {:induction false} LdiLabel(reg: int, addr: nat, caddr: int, line: int)
    requires 0 <= reg < 8
    ensures var r := EncodeInstr(LDI, [Operand(Reg, reg), Operand(Addr, addr)], caddr, line);
      && r.Ok?
      && Decode(r.value) == Fields(Code(LDI), reg, 0, addr % 8)
  {
    var ops := [Operand(Reg, reg), Operand(Addr, addr)];
    assert Kinds(ops) == [Reg, Addr];
  }

  /** `adi r,.label` puts the label's address in the `aa` field, where a
      register number belongs, and 0 in `ba`: the instruction copies the
      register numbered by the address modulo 8. */
  lemma {:induction false} AdiLabel(reg: int, addr: nat, caddr: int, line: int)
    requires 0 <= reg < 8
    ensures var r := EncodeInstr(ADI, [Operand(Reg, reg), Operand(Addr, addr)], caddr, line);
      && r.Ok?
      && Decode(r.value) == Fields(Code(ADI), reg, addr % 8, 0)
  {
    var ops := [Operand(Reg, reg), Operand(Addr, addr)];
    assert Kinds(ops) == [Reg, Addr];
  }
}
