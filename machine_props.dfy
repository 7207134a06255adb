/** Properties of the interpreter that relate several instructions or the
    branch logic at the end of a step. */
module MachineProps {
  import opened Common
  import opened Isa
  import opened Machine

  /** `ST` writes the byte-swapped register and `LD` swaps it back: a load
      through any register holding the same in-range address returns the
      value that was stored. */
  lemma {:induction false} StoreThenLoad(s: MachineState, st: Fields, ld: Fields)
    requires ValidState(s) && ValidFields(st) && ValidFields(ld)
    requires s.r[st.aa] < |s.dt| && s.r[ld.aa] == s.r[st.aa]
    ensures Execute(LD, ld, Execute(ST, st, s).s).s.r[ld.da] == s.r[st.ba]
    ensures Execute(ST, st, s).s.r == s.r
  {
    var s1 := Execute(ST, st, s).s;
    var addr := s.r[st.aa];
    assert s1.r[ld.aa] == addr;
    assert s1.dt[addr] == EndianSwap(s.r[st.ba]);
    EndianSwapInvolution(s.r[st.ba]);
    assert RegisterResult(LD, ld, s1) == EndianSwap(U16(EndianSwap(s.r[st.ba])));
  }

  /** `XOR r,r,r` clears `r` whatever it held and sets Z. */
  lemma {:induction false} XorSelfClears(s: MachineState, f: Fields)
    requires ValidState(s) && ValidFields(f) && f.aa == f.ba
    ensures Execute(XOR, f, s).s.r[f.da] == 0
    ensures Execute(XOR, f, s).s.flags == Flags(false, false, false, true)
  {
    Pow2Of16();
    XorSelf(s.r[f.aa], 16);
  }

  /** The target a branch or jump computes when its condition holds: `r[aa]`
      for `JMP`, `pc` plus the signed offset modulo 65536 for `BRZ` and `BRN`. */
  function BranchTarget(o: Opcode, f: Fields, s: MachineState): (t: int)
    requires ValidState(s) && ValidFields(f)
    ensures IsWord(t)
  {
    if o == JMP then s.r[f.aa] else U16(s.pc + BranchOffset(f.da, f.ba))
  }

  /** One step over a branch instruction: registers and data memory stay, the
      flags are cleared; the step halts exactly when the branch is taken to a
      nonzero target equal to `pc` with branching on; otherwise `pc` moves to a
      nonzero taken target, or to the next word. */
  lemma {:induction false} BranchStep(s: MachineState, pg: seq<int>, pgLength: nat, noBranching: bool)
    requires ValidState(s) && ValidProgram(pg) && s.pc < pgLength
    requires OpcodeOf(Decode(pg[s.pc % WordSize]).op).Some?
    requires IsBranch(OpcodeOf(Decode(pg[s.pc % WordSize]).op).value)
    ensures
      var f := Decode(pg[s.pc % WordSize]);
      var o := OpcodeOf(f.op).value;
      var res := StepSpec(s, pg, pgLength, noBranching);
      var taken := BranchCondition(o, s.r[f.aa]) && BranchTarget(o, f, s) != 0 && !noBranching;
      && res.s.r == s.r && res.s.dt == s.dt && res.s.flags == Cleared
      && (res.status == Halt <==> taken && BranchTarget(o, f, s) == s.pc)
      && (res.status == Continue <==> !(taken && BranchTarget(o, f, s) == s.pc))
      && (res.status == Continue ==> res.s.pc == if taken then BranchTarget(o, f, s) else s.pc + 1)
  {
    var f := Decode(pg[s.pc % WordSize]);
    var o := OpcodeOf(f.op).value;
    var e := Execute(o, f, s);
    assert !WritesRegister(o) && o != ST && !SetsSignAndZero(o);
    assert e.s.r == s.r;
    assert e.s.dt == s.dt;
    assert e.target.Some? ==> e.target.value == BranchTarget(o, f, s);
  }

  /** The `_br` quirk: a jump through a register holding 0 is treated as not
      taken, and execution falls through to the next word. */
  lemma {:induction false} JumpToZeroFallsThrough(s: MachineState, pg: seq<int>, pgLength: nat)
    requires ValidState(s) && ValidProgram(pg) && s.pc < pgLength
    requires OpcodeOf(Decode(pg[s.pc % WordSize]).op) == Some(JMP)
    requires s.r[Decode(pg[s.pc % WordSize]).aa] == 0
    ensures StepSpec(s, pg, pgLength, false) == StepResult(Continue, s.(pc := s.pc + 1, flags := Cleared))
  {
    var f := Decode(pg[s.pc % WordSize]);
    var e := Execute(JMP, f, s);
    assert e.s == s.(flags := Cleared);
  }
}
