/** The interpreter: the state of the SimpleComputer register machine, the effect
    of each of its nineteen instructions, one fetch-decode-execute-branch step as a
    function of the state, and the `SimpleComputer` class whose methods update
    that state in place. */
module Machine {
  import opened Common
  import opened Isa
  import opened Hex

  /** Overflow, carry, negative and zero. */
  datatype Flags = Flags(v: bool, c: bool, n: bool, z: bool)

  const Cleared: Flags := Flags(false, false, false, false)

  /** Registers, program counter, flags and data memory (each data word holds the
      byte-swapped value, so that the bytes of the host's little-endian buffer read
      big-endian). The data memory may be shorter than 65536 words: the disassembler
      runs the machine over an empty one. */
  datatype MachineState = MachineState(r: seq<int>, pc: nat, flags: Flags, dt: seq<int>)

  predicate ValidState(s: MachineState)
  {
    |s.r| == 8 &&
    (forall i :: 0 <= i < 8 ==> IsWord(s.r[i])) &&
    (forall i :: 0 <= i < |s.dt| ==> IsWord(s.dt[i]))
  }

  /** The state an instruction leaves and, for a branch or jump whose condition
      holds, the target it computed (the source's `_br`). */
  datatype Effect = Effect(s: MachineState, target: Option<int>)

  /** What `executeCycle` returns: `true`, `false`, or the bad-opcode halt. */
  datatype Status = Continue | Halt | Fault(opcode: int)

  datatype StepResult = StepResult(status: Status, s: MachineState)

  datatype BitOp = AndOp | OrOp | XorOp

  function Pow2(n: nat): (p: nat)
    ensures p >= 1
  {
    if n == 0 then 1 else 2 * Pow2(n - 1)
  }

  /** One bit of `&`, `|` or `^`. */
  function Combine(op: BitOp, x: bool, y: bool): bool
  {
    match op
    case AndOp => x && y
    case OrOp => x || y
    case XorOp => x != y
  }

  /** Bit `i` of a natural, counting from the least significant. */
  predicate BitOf(x: nat, i: nat)
  {
    if i == 0 then x % 2 == 1 else BitOf(x / 2, i - 1)
  }

  /** JavaScript's `&`, `|` and `^` on the low `width` bits of two naturals, bit by bit. */
  function Bitwise(op: BitOp, a: nat, b: nat, width: nat): (r: nat)
    ensures r < Pow2(width)
  {
    if width == 0 then 0
    else 2 * Bitwise(op, a / 2, b / 2, width - 1) + (if Combine(op, a % 2 == 1, b % 2 == 1) then 1 else 0)
  }

  /** Each of the low `width` bits of the result is the operation on the
      operands' bits at that position. */
  lemma {:induction false} BitwiseBit(op: BitOp, a: nat, b: nat, width: nat, i: nat)
    requires i < width
    ensures BitOf(Bitwise(op, a, b, width), i) == Combine(op, BitOf(a, i), BitOf(b, i))
    decreases i
  {
    var r := Bitwise(op, a, b, width);
    var rest := Bitwise(op, a / 2, b / 2, width - 1);
    assert r / 2 == rest && r % 2 == (if Combine(op, a % 2 == 1, b % 2 == 1) then 1 else 0);
    if i > 0 {
      BitwiseBit(op, a / 2, b / 2, width - 1, i - 1);
    }
  }

  lemma {:induction false} BitwiseBits(op: BitOp, a: nat, b: nat, width: nat)
    ensures forall i :: 0 <= i < width ==> BitOf(Bitwise(op, a, b, width), i) == Combine(op, BitOf(a, i), BitOf(b, i))
  {
    forall i | 0 <= i < width
      ensures BitOf(Bitwise(op, a, b, width), i) == Combine(op, BitOf(a, i), BitOf(b, i))
    {
      BitwiseBit(op, a, b, width, i);
    }
  }

  /** Below `Pow2(width)` a natural is determined by its low `width` bits,
      so the bit-by-bit contracts of `BitAnd`, `BitOr` and `BitXor` fix their
      results. */
  lemma {:induction false} BitsDetermine(x: nat, y: nat, width: nat)
    requires x < Pow2(width) && y < Pow2(width)
    requires forall i :: 0 <= i < width ==> BitOf(x, i) == BitOf(y, i)
    ensures x == y
    decreases width
  {
    if width > 0 {
      forall i | 0 <= i < width - 1
        ensures BitOf(x / 2, i) == BitOf(y / 2, i)
      {
        assert BitOf(x, i + 1) == BitOf(y, i + 1);
      }
      BitsDetermine(x / 2, y / 2, width - 1);
      assert BitOf(x, 0) == BitOf(y, 0);
    }
  }

  lemma {:induction false} XorSelf(a: nat, width: nat)
    ensures Bitwise(XorOp, a, a, width) == 0
  {
    if width > 0 {
      XorSelf(a / 2, width - 1);
    }
  }

  lemma Pow2Of16()
    ensures Pow2(16) == WordSize
  {
    assert Pow2(1) == 2;
    assert Pow2(2) == 4;
    assert Pow2(3) == 8;
    assert Pow2(4) == 16;
    assert Pow2(5) == 32;
    assert Pow2(6) == 64;
    assert Pow2(7) == 128;
    assert Pow2(8) == 256;
    assert Pow2(9) == 512;
    assert Pow2(10) == 1024;
    assert Pow2(11) == 2048;
    assert Pow2(12) == 4096;
    assert Pow2(13) == 8192;
    assert Pow2(14) == 16384;
    assert Pow2(15) == 32768;
  }

  function BitAnd(a: int, b: int): (r: int)
    requires IsWord(a) && IsWord(b)
    ensures IsWord(r)
    ensures forall i :: 0 <= i < 16 ==> BitOf(r, i) == (BitOf(a, i) && BitOf(b, i))
  {
    Pow2Of16();
    BitwiseBits(AndOp, a, b, 16);
    Bitwise(AndOp, a, b, 16)
  }

  function BitOr(a: int, b: int): (r: int)
    requires IsWord(a) && IsWord(b)
    ensures IsWord(r)
    ensures forall i :: 0 <= i < 16 ==> BitOf(r, i) == (BitOf(a, i) || BitOf(b, i))
  {
    Pow2Of16();
    BitwiseBits(OrOp, a, b, 16);
    Bitwise(OrOp, a, b, 16)
  }

  function BitXor(a: int, b: int): (r: int)
    requires IsWord(a) && IsWord(b)
    ensures IsWord(r)
    ensures forall i :: 0 <= i < 16 ==> BitOf(r, i) == (BitOf(a, i) != BitOf(b, i))
  {
    Pow2Of16();
    BitwiseBits(XorOp, a, b, 16);
    Bitwise(XorOp, a, b, 16)
  }

  /** A typed-array read: an index past the end reads `undefined`, which `u16` turns into 0. */
  function LoadRaw(dt: seq<int>, addr: int): (v: int)
    ensures (forall i :: 0 <= i < |dt| ==> IsWord(dt[i])) ==> IsWord(v)
    ensures !(0 <= addr < |dt|) ==> v == 0
  {
    if 0 <= addr < |dt| then dt[addr] else 0
  }

  /** A typed-array write: an index past the end is ignored. */
  function StoreRaw(dt: seq<int>, addr: int, v: int): (out: seq<int>)
    ensures |out| == |dt|
    ensures forall i :: 0 <= i < |dt| && i != addr ==> out[i] == dt[i]
    ensures 0 <= addr < |dt| ==> out[addr] == v
  {
    if 0 <= addr < |dt| then dt[addr := v] else dt
  }

  /** A read after a write gives the written value at an address inside the
      array, and what was there before everywhere else. */
  lemma {:induction false} RawStoreThenLoad(dt: seq<int>, a: int, v: int, b: int)
    ensures LoadRaw(StoreRaw(dt, a, v), b) == if a == b && 0 <= a < |dt| then v else LoadRaw(dt, b)
  {
  }

  /** Bit 15 of a word. */
  predicate Negative(v: int) { v >= 0x8000 }

  /** The instructions that set N and Z from the value written to `r[da]`. */
  predicate SetsSignAndZero(o: Opcode)
  {
    o in {MOVA, INC, ADD, SUB, DEC, AND, OR, XOR, NOT, MOVB, ADI}
  }

  /** The instructions that write `r[da]`. */
  predicate WritesRegister(o: Opcode)
  {
    !(o in {ST, BRZ, BRN, JMP})
  }

  predicate IsBranch(o: Opcode)
  {
    o in {BRZ, BRN, JMP}
  }

  /** The value an instruction writes to `r[da]` (meaningful when `WritesRegister(o)`). */
  function RegisterResult(o: Opcode, f: Fields, s: MachineState): (v: int)
    requires ValidState(s) && ValidFields(f)
    ensures IsWord(v)
  {
    var a := s.r[f.aa];
    var b := s.r[f.ba];
    match o
    case MOVA => U16(a)
    case INC => U16(a + 1)
    case ADD => U16(a + b)
    case SUB => U16(a - b)
    case DEC => U16(a - 1)
    case AND => BitAnd(a, b)
    case OR => BitOr(a, b)
    case XOR => BitXor(a, b)
    case NOT => U16(-a - 1)
    case MOVB => U16(b)
    case SHR => U16(b / 2)
    case SHL => U16(b * 2)
    case LDI => f.ba % 8
    case ADI => U16(a + f.ba % 8)
    case LD => EndianSwap(U16(LoadRaw(s.dt, a)))
    case _ => 0
  }

  /** The condition under which a branch or jump computes a target. */
  predicate BranchCondition(o: Opcode, a: int)
  {
    (o == BRZ && a == 0) || (o == BRN && Negative(a)) || o == JMP
  }

  /** The effect of one decoded instruction on registers, flags and data memory. */
  function Execute(o: Opcode, f: Fields, s: MachineState): (e: Effect)
    requires ValidState(s) && ValidFields(f)
    ensures ValidState(e.s) && e.s.pc == s.pc && |e.s.dt| == |s.dt|
    ensures !e.s.flags.v && !e.s.flags.c
    ensures forall i :: 0 <= i < 8 && (i != f.da || !WritesRegister(o)) ==> e.s.r[i] == s.r[i]
    ensures WritesRegister(o) ==> e.s.r[f.da] == RegisterResult(o, f, s)
    ensures SetsSignAndZero(o) ==> e.s.flags == Flags(false, false, Negative(e.s.r[f.da]), e.s.r[f.da] == 0)
    ensures !SetsSignAndZero(o) ==> e.s.flags == Cleared
    ensures forall i :: 0 <= i < |s.dt| && (i != s.r[f.aa] || o != ST) ==> e.s.dt[i] == s.dt[i]
    ensures o == ST && s.r[f.aa] < |s.dt| ==> e.s.dt[s.r[f.aa]] == EndianSwap(s.r[f.ba])
    ensures e.target.Some? <==> IsBranch(o) && BranchCondition(o, s.r[f.aa])
    ensures e.target.Some? ==> IsWord(e.target.value)
  {
    var a := s.r[f.aa];
    if WritesRegister(o) then
      var v := RegisterResult(o, f, s);
      var flags := if SetsSignAndZero(o) then Flags(false, false, Negative(v), v == 0) else Cleared;
      Effect(s.(r := s.r[f.da := v], flags := flags), None)
    else if o == ST then
      Effect(s.(dt := StoreRaw(s.dt, a, EndianSwap(U16(s.r[f.ba]))), flags := Cleared), None)
    else
      var target :=
        if !BranchCondition(o, a) then None
        else if o == JMP then Some(a)
        else Some(U16(s.pc + BranchOffset(f.da, f.ba)));
      Effect(s.(flags := Cleared), target)
  }

  predicate ValidProgram(pg: seq<int>)
  {
    |pg| == WordSize && forall i :: 0 <= i < WordSize ==> IsWord(pg[i])
  }

  /** The 65536-word program memory after loading `words`: a typed-array write
      past the end is ignored. */
  function ProgramImage(words: seq<int>): (pg: seq<int>)
    requires forall i :: 0 <= i < |words| ==> IsWord(words[i])
    ensures ValidProgram(pg)
    ensures forall i :: 0 <= i < |words| && i < WordSize ==> pg[i] == words[i]
    ensures forall i :: |words| <= i < WordSize ==> pg[i] == 0
  {
    seq(WordSize, i requires 0 <= i < WordSize => if i < |words| then words[i] else 0)
  }

  /** The end of `executeCycle`: follow `_br` unless it is falsy or branching is
      off, and stop on a branch to the instruction itself. */
  function Resolve(e: Effect, pc: nat, noBranching: bool): (res: StepResult)
    requires e.target.Some? ==> IsWord(e.target.value)
    ensures res.s == e.s.(pc := res.s.pc) && !res.status.Fault?
    ensures res.status == Halt <==> e.target.Some? && e.target.value == pc && pc != 0 && !noBranching
    ensures res.status == Halt ==> res.s == e.s
    ensures res.status == Continue ==>
              res.s.pc == (if e.target.Some? && e.target.value != 0 && !noBranching then e.target.value else pc + 1)
  {
    // `_br` is `false` or the target, and a target of 0 is just as falsy
    var br := if e.target.Some? then e.target.value else 0;
    if br != 0 && br == pc && !noBranching then StepResult(Halt, e.s)
    else if br != 0 && !noBranching then StepResult(Continue, e.s.(pc := br))
    else StepResult(Continue, e.s.(pc := pc + 1))
  }

  /** `executeCycle` as a function of the state before it. */
  function StepSpec(s: MachineState, pg: seq<int>, pgLength: nat, noBranching: bool): (res: StepResult)
    requires ValidState(s) && ValidProgram(pg)
    ensures ValidState(res.s)
    ensures s.pc >= pgLength ==> res == StepResult(Halt, s)
    ensures res.status.Fault? ==> res.s == s && OpcodeOf(res.status.opcode).None?
    ensures res.status == Halt ==> res.s.pc == s.pc
    ensures noBranching && !res.status.Fault? && s.pc < pgLength ==>
              res.status == Continue && res.s.pc == s.pc + 1
  {
    if s.pc >= pgLength then StepResult(Halt, s)
    else
      var f := Decode(pg[s.pc % WordSize]);
      match OpcodeOf(f.op)
      case None => StepResult(Fault(f.op), s)
      case Some(o) =>
        Resolve(Execute(o, f, s), s.pc, noBranching)
  }

  /** The operand texts `executeCycle` records in `_args`. */
  function Operands(o: Opcode, f: Fields): (ts: seq<string>)
    requires ValidFields(f)
    ensures |ts| == (if o == JMP then 1 else if o in {ADD, SUB, AND, OR, XOR, ADI} then 3 else 2)
    ensures forall k :: 0 <= k < |ts| ==> |ts[k]| >= 1
    ensures ts[0][0] == 'r'
  {
    var rd := "r" + Decimal(f.da);
    var ra := "r" + Decimal(f.aa);
    var rb := "r" + Decimal(f.ba);
    match o
    case MOVA | INC | DEC | NOT | LD => [rd, ra]
    case ADD | SUB | AND | OR | XOR => [rd, ra, rb]
    case MOVB | SHR | SHL => [rd, rb]
    case LDI => [rd, Decimal(f.ba)]
    case ADI => [rd, ra, Decimal(f.ba)]
    case ST => [ra, rb]
    case BRZ | BRN => [ra, Decimal(BranchOffset(f.da, f.ba))]
    case JMP => [ra]
  }

  class SimpleComputer {
    var pgMem: array<int>
    var pgLength: nat
    var dtMem: array<int>
    var noBranching: bool
    var r: array<int>
    var pc: nat
    var flags: Flags
    var ir: int
    var op: int
    var da: int
    var aa: int
    var ba: int
    var instr: string
    var args: seq<string>

    ghost predicate Valid()
      reads this, r, pgMem, dtMem
    {
      r.Length == 8 && pgMem.Length == WordSize &&
      r != pgMem && r != dtMem && pgMem != dtMem &&
      (forall i :: 0 <= i < 8 ==> IsWord(r[i])) &&
      (forall i :: 0 <= i < WordSize ==> IsWord(pgMem[i])) &&
      (forall i :: 0 <= i < dtMem.Length ==> IsWord(dtMem[i]))
    }

    /** The registers, program counter, flags and data memory as a value. */
    ghost function State(): (s: MachineState)
      reads this, r, dtMem
    {
      MachineState(r[..], pc, flags, dtMem[..])
    }

    /** Load the program words found in `bin`; `data` becomes the data memory
        itself (shared with the caller, as the source shares its buffer). */
    constructor (bin: string, data: array<int>, noBranching: bool)
      requires forall i :: 0 <= i < data.Length ==> IsWord(data[i])
      ensures Valid() && fresh(r) && fresh(pgMem)
      ensures dtMem == data && this.noBranching == noBranching
      ensures pgLength == |ParseProgram(bin)|
      ensures pgMem[..] == ProgramImage(ParseProgram(bin))
      ensures r[..] == seq(8, _ => 0) && pc == 0 && flags == Cleared
      ensures ir == 0 && op == 0 && da == 0 && aa == 0 && ba == 0
      ensures instr == "" && args == []
    {
      var words := ParseProgram(bin);
      var mem := LoadImage(words);
      pgMem := mem;
      dtMem := data;
      r := new int[8](_ => 0);
      pgLength := |words|;
      flags := Cleared;
      instr := "";
      args := [];
      this.noBranching := noBranching;
      new;
      Reset();
    }

    /** The loop of the constructor that copies the words into a fresh
        65536-word memory; a word past the end is dropped. */
    static method LoadImage(words: seq<int>) returns (mem: array<int>)
      requires forall i :: 0 <= i < |words| ==> IsWord(words[i])
      ensures fresh(mem) && mem[..] == ProgramImage(words)
    {
      mem := new int[WordSize](_ => 0);
      var k := 0;
      while k < |words|
        invariant 0 <= k <= |words|
        invariant mem.Length == WordSize
        invariant forall i :: 0 <= i < WordSize ==> mem[i] == if i < k && i < |words| then words[i] else 0
      {
        if k < WordSize {
          mem[k] := words[k];
        }
        k := k + 1;
      }
      assert mem[..] == ProgramImage(words);
    }

    /** Zero the registers, program counter, decoded fields and flags; the
        program, its length and the data memory stay. */
    method Reset()
      requires Valid()
      modifies this`r, this`pc, this`ir, this`op, this`da, this`aa, this`ba, this`flags
      ensures Valid() && fresh(r)
      ensures r[..] == seq(8, _ => 0) && pc == 0 && flags == Cleared
      ensures ir == 0 && op == 0 && da == 0 && aa == 0 && ba == 0
    {
      r := new int[8](_ => 0);
      pc := 0;
      ir := 0;
      op := 0;
      da := 0;
      aa := 0;
      ba := 0;
      flags := Cleared;
    }

    /** `_setFlags`. */
    method SetFlags(v: bool, c: bool, n: bool, z: bool)
      requires Valid()
      modifies this`flags
      ensures Valid() && flags == Flags(v, c, n, z)
    {
      flags := Flags(v, c, n, z);
    }

    /** `executeCycle`: one fetch-decode-execute-branch step. */
    method Step() returns (status: Status)
      requires Valid()
      modifies this`ir, this`op, this`da, this`aa, this`ba, this`instr, this`args
      modifies this`pc, this`flags, r, dtMem
      ensures Valid()
      ensures StepResult(status, State()) == StepSpec(old(State()), pgMem[..], pgLength, noBranching)
      ensures old(pc) >= pgLength ==> ir == old(ir) && op == old(op) && instr == old(instr) && args == old(args)
      ensures old(pc) >= pgLength ==> da == old(da) && aa == old(aa) && ba == old(ba)
      ensures old(pc) < pgLength ==> ir == pgMem[old(pc) % WordSize] && Decode(ir) == Fields(op, da, aa, ba)
      ensures old(pc) < pgLength ==> Described(old(instr), old(args))
    {
      if pc >= pgLength {
        return Halt;
      }
      status := Cycle();
    }

    /** `_instr` and `_args` after a step from a program counter inside the
        program: they describe the decoded instruction when its opcode is known
        and keep their earlier values otherwise. */
    ghost predicate Described(instr0: string, args0: seq<string>)
      reads this
    {
      0 <= da < 8 && 0 <= aa < 8 && 0 <= ba < 8 &&
      match OpcodeOf(op)
      case Some(o) => instr == Name(o) && args == Operands(o, Fields(op, da, aa, ba))
      case None => instr == instr0 && args == args0
    }

    /** The part of `executeCycle` after the bounds check on `pc`. */
    method Cycle() returns (status: Status)
      requires Valid() && pc < pgLength
      modifies this`ir, this`op, this`da, this`aa, this`ba, this`instr, this`args
      modifies this`pc, this`flags, r, dtMem
      ensures Valid()
      ensures StepResult(status, State()) == StepSpec(old(State()), pgMem[..], pgLength, noBranching)
      ensures ir == pgMem[old(pc) % WordSize] && Decode(ir) == Fields(op, da, aa, ba)
      ensures Described(old(instr), old(args))
    {
      ghost var s0 := State();
      var f := Fetch();
      assert f == Decode(pgMem[..][s0.pc % WordSize]);
      var dispatch := OpcodeOf(op);
      if dispatch.None? {
        return Fault(op);
      }
      status := Dispatch(dispatch.value, f);
    }

    /** Execute a decoded instruction whose opcode is known, record its
        description and follow its branch. */
    method Dispatch(o: Opcode, f: Fields) returns (status: Status)
      requires Valid() && ValidFields(f) && f == Fields(op, da, aa, ba)
      modifies this`instr, this`args, this`pc, this`flags, r, dtMem
      ensures Valid()
      ensures StepResult(status, State()) == Resolve(Execute(o, f, old(State())), old(pc), noBranching)
      ensures instr == Name(o) && args == Operands(o, f)
    {
      ghost var s0 := State();
      Record(o, f);
      var br := ExecuteInstruction(o);
      ghost var e := Execute(o, f, s0);
      assert e.s == State() && e.target == br;
      assert Effect(MachineState(r[..], pc, flags, dtMem[..]), br) == e;
      status := FollowBranch(br);
    }

    /** Load the instruction register from `pgMem[pc]` and split it into its fields. */
    method Fetch() returns (f: Fields)
      requires Valid()
      modifies this`ir, this`op, this`da, this`aa, this`ba
      ensures Valid() && State() == old(State())
      ensures ir == pgMem[pc % WordSize] && f == Decode(ir) && f == Fields(op, da, aa, ba)
    {
      ir := pgMem[pc % WordSize];
      op := ir / 512;
      da := (ir / 64) % 8;
      aa := (ir / 8) % 8;
      ba := ir % 8;
      f := Fields(op, da, aa, ba);
    }

    /** Record the mnemonic and operand texts of the instruction being executed. */
    method Record(o: Opcode, f: Fields)
      requires Valid() && ValidFields(f)
      modifies this`instr, this`args
      ensures Valid() && State() == old(State())
      ensures instr == Name(o) && args == Operands(o, f)
    {
      instr := Name(o);
      args := Operands(o, f);
    }

    /** The branch at the end of `executeCycle`, given `_br`. */
    method FollowBranch(br: Option<int>) returns (status: Status)
      requires Valid() && (br.Some? ==> IsWord(br.value))
      modifies this`pc
      ensures Valid()
      ensures StepResult(status, MachineState(r[..], pc, flags, dtMem[..]))
           == Resolve(Effect(MachineState(r[..], old(pc), flags, dtMem[..]), br), old(pc), noBranching)
    {
      var target := if br.Some? then br.value else 0;
      if target != 0 && target == pc && !noBranching {
        return Halt;
      }
      if target != 0 && !noBranching {
        pc := target;
      } else {
        pc := pc + 1;
      }
      return Continue;
    }

    /** The value the `switch (this.op)` of `executeCycle` computes for `r[da]`. */
    method RegisterValue(o: Opcode) returns (v: int)
      requires Valid() && ValidFields(Fields(op, da, aa, ba)) && WritesRegister(o)
      ensures v == RegisterResult(o, Fields(op, da, aa, ba), State())
    {
      var a := r[aa];
      var b := r[ba];
      match o {
        case MOVA => v := U16(a);
        case INC => v := U16(a + 1);
        case ADD => v := U16(a + b);
        case SUB => v := U16(a - b);
        case DEC => v := U16(a - 1);
        case AND => v := BitAnd(a, b);
        case OR => v := BitOr(a, b);
        case XOR => v := BitXor(a, b);
        case NOT => v := U16(-a - 1);
        case MOVB => v := U16(b);
        case SHR => v := U16(b / 2);
        case SHL => v := U16(b * 2);
        case LDI => v := ba % 8;
        case ADI => v := U16(a + ba % 8);
        case LD =>
          var raw := if a < dtMem.Length then dtMem[a] else 0;
          v := EndianSwap(U16(raw));
      }
    }

    /** The `switch (this.op)` of `executeCycle` for an opcode it knows: write
        `r[da]` or the data memory, set the flags and compute `_br`. */
    method ExecuteInstruction(o: Opcode) returns (br: Option<int>)
      requires Valid() && ValidFields(Fields(op, da, aa, ba))
      modifies r, dtMem, this`flags
      ensures Valid()
      ensures Effect(State(), br) == Execute(o, Fields(op, da, aa, ba), old(State()))
    {
      if WritesRegister(o) {
        ExecuteRegister(o);
        br := None;
      } else if o == ST {
        ExecuteStore();
        br := None;
      } else {
        br := ExecuteBranch(o);
      }
    }

    /** An instruction that writes `r[da]` and sets the flags from it. */
    method ExecuteRegister(o: Opcode)
      requires Valid() && ValidFields(Fields(op, da, aa, ba)) && WritesRegister(o)
      modifies r, this`flags
      ensures Valid()
      ensures Effect(State(), None) == Execute(o, Fields(op, da, aa, ba), old(State()))
    {
      var v := RegisterValue(o);
      r[da] := v;
      if SetsSignAndZero(o) {
        SetFlags(false, false, Negative(v), v == 0);
      } else {
        SetFlags(false, false, false, false);
      }
    }

    /** `ST`: store the byte-swapped `r[ba]` at address `r[aa]` (ignored past the end). */
    method ExecuteStore()
      requires Valid() && ValidFields(Fields(op, da, aa, ba))
      modifies dtMem, this`flags
      ensures Valid()
      ensures Effect(State(), None) == Execute(ST, Fields(op, da, aa, ba), old(State()))
    {
      var a := r[aa];
      if a < dtMem.Length {
        dtMem[a] := EndianSwap(U16(r[ba]));
      }
      SetFlags(false, false, false, false);
    }

    /** `BRZ`, `BRN` and `JMP`: compute `_br` when the condition on `r[aa]` holds. */
    method ExecuteBranch(o: Opcode) returns (br: Option<int>)
      requires Valid() && ValidFields(Fields(op, da, aa, ba)) && IsBranch(o)
      modifies this`flags
      ensures Valid()
      ensures Effect(State(), br) == Execute(o, Fields(op, da, aa, ba), old(State()))
    {
      var a := r[aa];
      if !BranchCondition(o, a) {
        br := None;
      } else if o == JMP {
        br := Some(a);
      } else {
        br := Some(U16(pc + BranchOffset(da, ba)));
      }
      SetFlags(false, false, false, false);
    }
  }
}
