/** The instruction-set codec shared by the emulator and the assembler:
    16-bit truncation, the byte swap applied to data memory, the packing of an
    instruction word into op/da/aa/ba, the 6-bit branch offset and the opcode table. */
module Isa {
  import opened Common

  const WordSize: int := 0x1_0000

  predicate IsWord(n: int) { 0 <= n < WordSize }

  /** `u16`: keep the low 16 bits (JavaScript's `&` works on two's complement,
      which for a power-of-two mask is Euclidean remainder). */
  function U16(n: int): (r: int)
    ensures IsWord(r)
    ensures (n - r) % WordSize == 0
    ensures IsWord(n) ==> r == n
  {
    n % WordSize
  }

  /** `endianSwap`: exchange the two bytes of the low 16 bits. */
  function EndianSwap(n: int): (r: int)
    ensures IsWord(r)
    ensures r % 256 == (n / 256) % 256 && r / 256 == n % 256
  {
    (n % 256) * 256 + (n / 256) % 256
  }

  lemma {:induction false} EndianSwapInvolution(x: int)
    requires IsWord(x)
    ensures EndianSwap(EndianSwap(x)) == x
  {
    var y := EndianSwap(x);
    assert y % 256 == x / 256 && y / 256 == x % 256;
    assert EndianSwap(y) == (x / 256) * 256 + x % 256;
  }

  /** The four fields of an instruction word. */
  datatype Fields = Fields(op: int, da: int, aa: int, ba: int)

  predicate ValidFields(f: Fields)
  {
    0 <= f.op < 128 && 0 <= f.da < 8 && 0 <= f.aa < 8 && 0 <= f.ba < 8
  }

  /** The field extraction `executeCycle` performs on the instruction register. */
  function Decode(ir: int): (f: Fields)
    requires IsWord(ir)
    ensures ValidFields(f)
    ensures f.op * 512 + f.da * 64 + f.aa * 8 + f.ba == ir
  {
    DecodeRecompose(ir);
    Fields(ir / 512, (ir / 64) % 8, (ir / 8) % 8, ir % 8)
  }

  lemma {:induction false} DecodeRecompose(ir: int)
    requires IsWord(ir)
    ensures 0 <= ir / 512 < 128
    ensures (ir / 512) * 512 + ((ir / 64) % 8) * 64 + ((ir / 8) % 8) * 8 + ir % 8 == ir
  {
    var a := ir / 8;
    var b := a / 8;
    var c := b / 8;
    assert ir == a * 8 + ir % 8;
    assert a == b * 8 + a % 8;
    assert b == c * 8 + b % 8;
    assert b == ir / 64;
    assert c == ir / 512;
  }

  /** `generateInstr`: mask each field to its width and pack it into its bit positions. */
  function Encode(op: int, da: int, aa: int, ba: int): (w: int)
    ensures IsWord(w)
    ensures Decode(w) == Fields(op % 128, da % 8, aa % 8, ba % 8)
    ensures 0 <= op < 128 ==> Decode(w).op == op
  {
    var w := (op % 128) * 512 + (da % 8) * 64 + (aa % 8) * 8 + ba % 8;
    DecodePacked(op % 128, da % 8, aa % 8, ba % 8);
    w
  }

  lemma {:induction false} DecodePacked(op: int, da: int, aa: int, ba: int)
    requires ValidFields(Fields(op, da, aa, ba))
    ensures IsWord(op * 512 + da * 64 + aa * 8 + ba)
    ensures Decode(op * 512 + da * 64 + aa * 8 + ba) == Fields(op, da, aa, ba)
  {
    var w := op * 512 + da * 64 + aa * 8 + ba;
    var low := da * 64 + aa * 8 + ba;
    assert 0 <= low < 512;
    assert w / 512 == op;
    assert w / 64 == op * 8 + da;
    assert (w / 64) % 8 == da;
    assert w / 8 == op * 64 + da * 8 + aa;
    assert (w / 8) % 8 == aa;
    assert w % 8 == ba;
  }

  /** The branch offset `(da << 3) | ba`, sign-extended from bit 5. */
  function BranchOffset(da: int, ba: int): (off: int)
    requires 0 <= da < 8 && 0 <= ba < 8
    ensures -32 <= off < 32
    ensures (off - (da * 8 + ba)) % 64 == 0
  {
    var addr := da * 8 + ba;
    if addr >= 32 then addr - 64 else addr
  }

  /** An offset in -32..31 stored as `da = (off & 0x3F) >> 3`, `ba = off & 7` decodes back to itself. */
  lemma {:induction false} BranchOffsetRoundTrip(off: int)
    requires -32 <= off < 32
    ensures BranchOffset((off % 64) / 8, (off % 64) % 8) == off
  {
    var six := off % 64;
    assert (six / 8) * 8 + six % 8 == six;
    if off < 0 {
      assert six == off + 64;
    } else {
      assert six == off;
    }
  }

  /** The nineteen opcodes the emulator implements. */
  datatype Opcode =
    | MOVA | INC | ADD | SUB | DEC | AND | OR | XOR | NOT | MOVB
    | SHR | SHL | LDI | ADI | LD | ST | BRZ | BRN | JMP

  /** The numeric opcode of each instruction (the `case` labels of `executeCycle`
      and the first argument of `generateInstr` in the assembler). */
  function Code(o: Opcode): (c: int)
    ensures 0 <= c < 128
  {
    match o
    case MOVA => 0x00
    case INC => 0x01
    case ADD => 0x02
    case SUB => 0x05
    case DEC => 0x06
    case AND => 0x08
    case OR => 0x09
    case XOR => 0x0A
    case NOT => 0x0B
    case MOVB => 0x0C
    case SHR => 0x0D
    case SHL => 0x0E
    case LDI => 0x4C
    case ADI => 0x42
    case LD => 0x10
    case ST => 0x20
    case BRZ => 0x60
    case BRN => 0x61
    case JMP => 0x70
  }

  /** The `switch (this.op)` dispatch: which opcode a numeric value selects, if any. */
  function OpcodeOf(op: int): (o: Option<Opcode>)
    ensures o.Some? ==> Code(o.value) == op
  {
    match op
    case 0x00 => Some(MOVA)
    case 0x01 => Some(INC)
    case 0x02 => Some(ADD)
    case 0x05 => Some(SUB)
    case 0x06 => Some(DEC)
    case 0x08 => Some(AND)
    case 0x09 => Some(OR)
    case 0x0A => Some(XOR)
    case 0x0B => Some(NOT)
    case 0x0C => Some(MOVB)
    case 0x0D => Some(SHR)
    case 0x0E => Some(SHL)
    case 0x4C => Some(LDI)
    case 0x42 => Some(ADI)
    case 0x10 => Some(LD)
    case 0x20 => Some(ST)
    case 0x60 => Some(BRZ)
    case 0x61 => Some(BRN)
    case 0x70 => Some(JMP)
    case _ => None
  }

  /** The emulator's dispatch and the assembler's opcode numbers agree: every
      opcode the assembler can emit is dispatched back to the same instruction. */
  lemma {:induction false} OpcodeTableConsistent(o: Opcode)
    ensures OpcodeOf(Code(o)) == Some(o)
  {
    match o
    case MOVA =>
    case INC =>
    case ADD =>
    case SUB =>
    case DEC =>
    case AND =>
    case OR =>
    case XOR =>
    case NOT =>
    case MOVB =>
    case SHR =>
    case SHL =>
    case LDI =>
    case ADI =>
    case LD =>
    case ST =>
    case BRZ =>
    case BRN =>
    case JMP =>
  }

  /** The upper-case mnemonic `executeCycle` records in `_instr`. */
  function Name(o: Opcode): string
  {
    match o
    case MOVA => "MOVA"
    case INC => "INC"
    case ADD => "ADD"
    case SUB => "SUB"
    case DEC => "DEC"
    case AND => "AND"
    case OR => "OR"
    case XOR => "XOR"
    case NOT => "NOT"
    case MOVB => "MOVB"
    case SHR => "SHR"
    case SHL => "SHL"
    case LDI => "LDI"
    case ADI => "ADI"
    case LD => "LD"
    case ST => "ST"
    case BRZ => "BRZ"
    case BRN => "BRN"
    case JMP => "JMP"
  }

  /** The lower-case mnemonic the assembler accepts and the disassembler prints. */
  function Mnemonic(o: Opcode): string
  {
    match o
    case MOVA => "mova"
    case INC => "inc"
    case ADD => "add"
    case SUB => "sub"
    case DEC => "dec"
    case AND => "and"
    case OR => "or"
    case XOR => "xor"
    case NOT => "not"
    case MOVB => "movb"
    case SHR => "shr"
    case SHL => "shl"
    case LDI => "ldi"
    case ADI => "adi"
    case LD => "ld"
    case ST => "st"
    case BRZ => "brz"
    case BRN => "brn"
    case JMP => "jmp"
  }

  /** The disassembler's `instr.toLowerCase()` of the emulator's `_instr` is the assembler's mnemonic. */
  lemma {:induction false} NameLowered(o: Opcode)
    ensures ToLower(Name(o)) == Mnemonic(o)
  {
    var n, m := Name(o), Mnemonic(o);
    assert |n| == |m|;
    forall i | 0 <= i < |n|
      ensures LowerChar(n[i]) == m[i]
    {
      match o
      case MOVA =>
      case INC =>
      case ADD =>
      case SUB =>
      case DEC =>
      case AND =>
      case OR =>
      case XOR =>
      case NOT =>
      case MOVB =>
      case SHR =>
      case SHL =>
      case LDI =>
      case ADI =>
      case LD =>
      case ST =>
      case BRZ =>
      case BRN =>
      case JMP =>
    }
  }

  /** The assembler's `switch (op.toLowerCase())`: which instruction a mnemonic names. */
  function ParseMnemonic(mnemonic: string): (o: Option<Opcode>)
    ensures o.Some? ==> Mnemonic(o.value) == ToLower(mnemonic)
  {
    match ToLower(mnemonic)
    case "mova" => Some(MOVA)
    case "inc" => Some(INC)
    case "add" => Some(ADD)
    case "sub" => Some(SUB)
    case "dec" => Some(DEC)
    case "and" => Some(AND)
    case "or" => Some(OR)
    case "xor" => Some(XOR)
    case "not" => Some(NOT)
    case "movb" => Some(MOVB)
    case "shr" => Some(SHR)
    case "shl" => Some(SHL)
    case "ldi" => Some(LDI)
    case "adi" => Some(ADI)
    case "ld" => Some(LD)
    case "st" => Some(ST)
    case "brz" => Some(BRZ)
    case "brn" => Some(BRN)
    case "jmp" => Some(JMP)
    case _ => None
  }

  /** Every mnemonic is recognised as the instruction it names. */
  lemma {:induction false} MnemonicParses(o: Opcode)
    ensures ParseMnemonic(Mnemonic(o)) == Some(o)
  {
    var m := Mnemonic(o);
    forall i | 0 <= i < |m|
      ensures LowerChar(m[i]) == m[i]
    {
      match o
      case MOVA =>
      case INC =>
      case ADD =>
      case SUB =>
      case DEC =>
      case AND =>
      case OR =>
      case XOR =>
      case NOT =>
      case MOVB =>
      case SHR =>
      case SHL =>
      case LDI =>
      case ADI =>
      case LD =>
      case ST =>
      case BRZ =>
      case BRN =>
      case JMP =>
    }
    assert ToLower(m) == m;
  }
}
