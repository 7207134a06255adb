/** What the `%ISTK`, `%CALL` and `%RET` blocks do once assembled and run:
    `%ISTK` clears the stack pointer `r7`; `%CALL r<reg>` loads its own
    address into `r6` (the `%PLDI` part, see `AssemblerProps`), bumps `r7`,
    stores `r6` byte-swapped at the new `r7` and jumps to `r<reg>`; `%RET`
    loads `r6` back from the word at `r7`, drops `r7` and jumps to `r6`. */
module MacroProps {
  import opened Common
  import opened Isa
  import opened Machine
  import opened AsmSyntax
  import opened Macros
  import opened SldiProof

  /** The pushing part of `%CALL`: `inc r7,r7` and `st r7,r6`. */
  function PushLines(): seq<Line> { [Inc(7), St(7, 6)] }

  /** The popping part of `%RET`: `ld r6,r7` and `dec r7,r7`. */
  function PopLines(): seq<Line> { [Ld(6, 7), Dec(7)] }

  function StWord(a: nat, b: nat): int { Encode(Code(ST), 0, a, b) }
  function LdWord(d: nat, a: nat): int { Encode(Code(LD), d, a, 0) }
  function DecWord(r: nat): int { Encode(Code(DEC), r, r, 0) }
  function JmpWord(r: nat): int { Encode(Code(JMP), 0, r, 0) }

  /** The blocks, split into the parts the lemmas below run. */
  lemma {:induction false} BlockParts(reg: nat)
    ensures Expand(Istk) == [Note(Open)] + [Xor(7)] + [Note(Close)]
    ensures Expand(Call(reg)) == [Note(Open), Pldi] + PushLines() + [Jmp(reg), Note(Close)]
    ensures Expand(Ret) == [Note(Open)] + PopLines() + [Jmp(6), Note(Close)]
  {
  }

  /** One word of a known instruction runs as `Execute`. */
  lemma {:induction false} RunOne(o: Opcode, f: Fields, s: MachineState)
    requires ValidState(s) && ValidFields(f) && f.op == Code(o)
    ensures RunWords([Encode(Code(o), f.da, f.aa, f.ba)], s) == Some(Execute(o, f, s).s)
  {
    var w := Encode(Code(o), f.da, f.aa, f.ba);
    assert Decode(w) == f;
    OpcodeTableConsistent(o);
    assert [w][1..] == [];
  }

  lemma {:induction false} AsmSt(a: nat, b: nat)
    requires a < 8 && b < 8
    ensures AsmLines([St(a, b)]) == Some([StWord(a, b)])
  {
    RegTokenIsReg(a);
    RegTokenIsReg(b);
    ClassifyTwo(RegToken(a), RegToken(b), Operand(Reg, a), Operand(Reg, b));
    MnemonicParses(ST);
    AsmWord(St(a, b), ST, [Operand(Reg, a), Operand(Reg, b)], StWord(a, b));
  }

  lemma {:induction false} AsmLd(d: nat, a: nat)
    requires d < 8 && a < 8
    ensures AsmLines([Ld(d, a)]) == Some([LdWord(d, a)])
  {
    RegTokenIsReg(d);
    RegTokenIsReg(a);
    ClassifyTwo(RegToken(d), RegToken(a), Operand(Reg, d), Operand(Reg, a));
    MnemonicParses(LD);
    AsmWord(Ld(d, a), LD, [Operand(Reg, d), Operand(Reg, a)], LdWord(d, a));
  }

  lemma {:induction false} AsmJmp(r: nat)
    requires r < 8
    ensures AsmLines([Jmp(r)]) == Some([JmpWord(r)])
  {
    RegTokenIsReg(r);
    var none: map<string, nat> := map[];
    assert [RegToken(r)][1..] == [];
    assert ClassifyAll([], none, 0) == Ok([]);
    assert ClassifyAll([RegToken(r)], none, 0) == Ok([Operand(Reg, r)] + []);
    assert [Operand(Reg, r)] + [] == [Operand(Reg, r)];
    MnemonicParses(JMP);
    AsmWord(Jmp(r), JMP, [Operand(Reg, r)], JmpWord(r));
  }

  /** `%ISTK` assembles to one `xor r7,r7,r7`, which leaves `r7` at 0 and
      every other register, `pc` and data memory as they were. */
  lemma {:induction false} IstkClearsStack(s: MachineState)
    requires ValidState(s)
    ensures Run(Expand(Istk), s).Some?
    ensures Loaded(s, Run(Expand(Istk), s).value, 7, 0)
  {
    BlockParts(0);
    AsmXor(7);
    AsmBlock([Xor(7)]);
    RunXor(7, s);
  }

  /** `jmp r<r>` changes no register, `pc` or data word, and its target is
      the value of `r<r>` (which `Machine.Resolve` then follows, a target of
      0 counting as none). */
  lemma {:induction false} JumpTarget(r: nat, s: MachineState)
    requires r < 8 && ValidState(s)
    ensures AsmLines([Jmp(r)]) == Some([JmpWord(r)])
    ensures OpcodeOf(Decode(JmpWord(r)).op) == Some(JMP)
    ensures RunWords([JmpWord(r)], s).Some?
    ensures var t := RunWords([JmpWord(r)], s).value; t.r == s.r && t.pc == s.pc && t.dt == s.dt
    ensures Execute(JMP, Decode(JmpWord(r)), s).target == Some(s.r[r])
  {
    AsmJmp(r);
    StepJmp(r, s);
  }

  lemma {:induction false} StepJmp(r: nat, s: MachineState)
    requires r < 8 && ValidState(s)
    ensures OpcodeOf(Decode(JmpWord(r)).op) == Some(JMP)
    ensures RunWords([JmpWord(r)], s).Some?
    ensures var t := RunWords([JmpWord(r)], s).value; t.r == s.r && t.pc == s.pc && t.dt == s.dt
    ensures Execute(JMP, Decode(JmpWord(r)), s).target == Some(s.r[r])
  {
    var f := Fields(Code(JMP), 0, r, 0);
    RunOne(JMP, f, s);
    OpcodeTableConsistent(JMP);
    assert Execute(JMP, f, s) == Effect(s.(flags := Cleared), Some(s.r[r]));
  }

  /** `st r7,r6` on its own. */
  lemma {:induction false} StepSt(s: MachineState)
    requires ValidState(s)
    ensures RunWords([StWord(7, 6)], s).Some?
    ensures var t := RunWords([StWord(7, 6)], s).value;
      t.r == s.r && t.pc == s.pc && t.dt == StoreRaw(s.dt, s.r[7], EndianSwap(s.r[6]))
  {
    var f := Fields(Code(ST), 0, 7, 6);
    RunOne(ST, f, s);
    var t := Execute(ST, f, s).s;
    assert t == s.(dt := StoreRaw(s.dt, s.r[7], EndianSwap(U16(s.r[6]))), flags := Cleared);
  }

  /** `ld r6,r7` on its own. */
  lemma {:induction false} StepLd(s: MachineState)
    requires ValidState(s)
    ensures RunWords([LdWord(6, 7)], s).Some?
    ensures var t := RunWords([LdWord(6, 7)], s).value;
      t.r == s.r[6 := EndianSwap(LoadRaw(s.dt, s.r[7]))] && t.pc == s.pc && t.dt == s.dt
  {
    var f := Fields(Code(LD), 6, 7, 0);
    RunOne(LD, f, s);
    assert RegisterResult(LD, f, s) == EndianSwap(LoadRaw(s.dt, s.r[7]));
    var t := Execute(LD, f, s).s;
    assert t.r == s.r[6 := RegisterResult(LD, f, s)];
  }

  /** `dec r7,r7` on its own. */
  lemma {:induction false} StepDec(s: MachineState)
    requires ValidState(s)
    ensures RunWords([DecWord(7)], s).Some?
    ensures var t := RunWords([DecWord(7)], s).value;
      t.r == s.r[7 := U16(s.r[7] - 1)] && t.pc == s.pc && t.dt == s.dt
  {
    var f := Fields(Code(DEC), 7, 7, 0);
    RunOne(DEC, f, s);
    assert RegisterResult(DEC, f, s) == U16(s.r[7] - 1);
    var t := Execute(DEC, f, s).s;
    assert t.r == s.r[7 := RegisterResult(DEC, f, s)];
  }

  lemma {:induction false} AsmPush()
    ensures AsmLines(PushLines()) == Some([IncWord(7), StWord(7, 6)])
  {
    AsmInc(7);
    AsmSt(7, 6);
    AsmJoin([Inc(7)], [St(7, 6)], [IncWord(7)], [StWord(7, 6)]);
    assert [Inc(7)] + [St(7, 6)] == PushLines();
    assert [IncWord(7)] + [StWord(7, 6)] == [IncWord(7), StWord(7, 6)];
  }

  lemma {:induction false} AsmPop()
    ensures AsmLines(PopLines()) == Some([LdWord(6, 7), DecWord(7)])
  {
    AsmLd(6, 7);
    AsmTwoRegs(Dec(7), DEC, 7, DecWord(7));
    AsmJoin([Ld(6, 7)], [Dec(7)], [LdWord(6, 7)], [DecWord(7)]);
    assert [Ld(6, 7)] + [Dec(7)] == PopLines();
    assert [LdWord(6, 7)] + [DecWord(7)] == [LdWord(6, 7), DecWord(7)];
  }

  /** `inc r7,r7` then `st r7,r6`: `r7` goes up by one (modulo 65536), the
      data word it then points at holds `r6` byte-swapped (a store past the
      end of data memory is lost), and nothing else changes. */
  lemma {:induction false} CallPushes(s: MachineState)
    requires ValidState(s)
    ensures Run(PushLines(), s).Some?
    ensures var t := Run(PushLines(), s).value;
      && t.r == s.r[7 := U16(s.r[7] + 1)]
      && t.pc == s.pc
      && t.dt == StoreRaw(s.dt, U16(s.r[7] + 1), EndianSwap(s.r[6]))
  {
    var ws := [IncWord(7), StWord(7, 6)];
    AsmPush();
    assert Run(PushLines(), s) == RunWords(ws, s);
    PushWords(s);
  }

  lemma {:induction false} PushWords(s: MachineState)
    requires ValidState(s)
    ensures RunWords([IncWord(7), StWord(7, 6)], s).Some?
    ensures var t := RunWords([IncWord(7), StWord(7, 6)], s).value;
      && t.r == s.r[7 := U16(s.r[7] + 1)]
      && t.pc == s.pc
      && t.dt == StoreRaw(s.dt, U16(s.r[7] + 1), EndianSwap(s.r[6]))
  {
    RunInc(7, s);
    var m := RunWords([IncWord(7)], s).value;
    assert m.r == s.r[7 := U16(s.r[7] + 1)];
    StepSt(m);
    var t := RunWords([StWord(7, 6)], m).value;
    RunWordsAppend([IncWord(7)], [StWord(7, 6)], s);
    assert [IncWord(7)] + [StWord(7, 6)] == [IncWord(7), StWord(7, 6)];
    assert RunWords([IncWord(7), StWord(7, 6)], s) == Some(t);
  }

  /** `ld r6,r7` then `dec r7,r7`: `r6` takes the word at `r7` byte-swapped
      back (0 past the end of data memory), `r7` goes down by one (modulo
      65536), and no other register, `pc` or data word changes. */
  lemma {:induction false} RetPops(s: MachineState)
    requires ValidState(s)
    ensures Run(PopLines(), s).Some?
    ensures var t := Run(PopLines(), s).value;
      && t.r == s.r[6 := EndianSwap(LoadRaw(s.dt, s.r[7]))][7 := U16(s.r[7] - 1)]
      && t.pc == s.pc && t.dt == s.dt
  {
    var ws := [LdWord(6, 7), DecWord(7)];
    AsmPop();
    assert Run(PopLines(), s) == RunWords(ws, s);
    PopWords(s);
  }

  lemma {:induction false} PopWords(s: MachineState)
    requires ValidState(s)
    ensures RunWords([LdWord(6, 7), DecWord(7)], s).Some?
    ensures var t := RunWords([LdWord(6, 7), DecWord(7)], s).value;
      && t.r == s.r[6 := EndianSwap(LoadRaw(s.dt, s.r[7]))][7 := U16(s.r[7] - 1)]
      && t.pc == s.pc && t.dt == s.dt
  {
    StepLd(s);
    var m := RunWords([LdWord(6, 7)], s).value;
    StepDec(m);
    var t := RunWords([DecWord(7)], m).value;
    RunWordsAppend([LdWord(6, 7)], [DecWord(7)], s);
    assert [LdWord(6, 7)] + [DecWord(7)] == [LdWord(6, 7), DecWord(7)];
    assert RunWords([LdWord(6, 7), DecWord(7)], s) == Some(t);
    assert t.r == m.r[7 := U16(m.r[7] - 1)] && m.r[7] == s.r[7];
  }

  // ----- a call and its return -----

  /** The state a `%CALL` at address `c` leaves before its `jmp`: `r6` holds
      the address `%PLDI` loaded, `r7` has gone up by one and the data word
      it points at holds that address byte-swapped (unless it lies past the
      end of data memory); no other register and no other data word
      changes. The addresses excluded are those `sldi` cannot load. */
  function CallState(c: nat, s: MachineState): (t: MachineState)
    requires ValidState(s) && (c < WordSize || c % WordSize >= 2)
    ensures ValidState(t) && t.pc == s.pc
    ensures t.r[6] == c % WordSize && t.r[7] == U16(s.r[7] + 1)
    ensures forall i :: 0 <= i < 6 ==> t.r[i] == s.r[i]
    ensures t.dt == StoreRaw(s.dt, U16(s.r[7] + 1), EndianSwap(c % WordSize))
  {
    PushState(PldiState(c, s))
  }

  /** The state `%CALL`'s `%PLDI` at address `c` leaves. */
  function PldiState(c: nat, s: MachineState): (m: MachineState)
    requires ValidState(s) && (c < WordSize || c % WordSize >= 2)
    ensures ValidState(m) && Loaded(s, m, 6, c % WordSize)
  {
    SldiLoads(c, 6, s);
    Run(SldiLines(Num(c), 6), s).value
  }

  /** The state `inc r7,r7` and `st r7,r6` leave. */
  function PushState(m: MachineState): (t: MachineState)
    requires ValidState(m)
    ensures ValidState(t) && t.pc == m.pc
    ensures t.r == m.r[7 := U16(m.r[7] + 1)]
    ensures t.dt == StoreRaw(m.dt, U16(m.r[7] + 1), EndianSwap(m.r[6]))
  {
    CallPushes(m);
    Run(PushLines(), m).value
  }

  /** Up one and down one on a 16-bit register gives the register back. */
  lemma {:induction false} IncThenDec(x: int)
    requires IsWord(x)
    ensures U16(U16(x + 1) - 1) == x
  {
    if x == 0xFFFF {
      assert U16(x + 1) == 0;
    }
  }

  /** The state `%RET` leaves before its `jmp r6`. */
  function ReturnState(u: MachineState): (w: MachineState)
    requires ValidState(u)
    ensures ValidState(w) && w.pc == u.pc && w.dt == u.dt
    ensures w.r == u.r[6 := EndianSwap(LoadRaw(u.dt, u.r[7]))][7 := U16(u.r[7] - 1)]
  {
    RetPops(u);
    Run(PopLines(), u).value
  }

  /** A `%CALL` at address `c` whose subroutine leaves `r7` and the word it
      points at as the call left them: the `%RET` puts `r7` back where it was
      before the call and loads `r6` with the `%PLDI` address, the return
      target; when the push fell past the end of data memory, `r6` is 0. */
  lemma {:induction false} CallThenReturn(c: nat, s: MachineState, u: MachineState)
    requires ValidState(s) && ValidState(u) && (c < WordSize || c % WordSize >= 2)
    requires u.r[7] == CallState(c, s).r[7]
    requires LoadRaw(u.dt, u.r[7]) == LoadRaw(CallState(c, s).dt, u.r[7])
    ensures ReturnState(u).r[7] == s.r[7]
    ensures ReturnState(u).r[6] == if U16(s.r[7] + 1) < |s.dt| then c % WordSize else 0
  {
    var t := CallState(c, s);
    var w := ReturnState(u);
    var v := c % WordSize;
    ReturnValues(v, s.r[7], s.dt, t.dt, u.r[7], LoadRaw(u.dt, u.r[7]), w.r[6], w.r[7]);
  }

  /** The arithmetic of `CallThenReturn`: `r7` up and down again, and the
      swapped value `v` stored and swapped back. */
  lemma {:induction false} ReturnValues(v: int, sp: int, dt: seq<int>, pushed: seq<int>, sp2: int, word: int, r6: int, r7: int)
    requires IsWord(v) && IsWord(sp) && sp2 == U16(sp + 1) && pushed == StoreRaw(dt, sp2, EndianSwap(v))
    requires word == LoadRaw(pushed, sp2) && r6 == EndianSwap(word) && r7 == U16(sp2 - 1)
    ensures r7 == sp && r6 == if sp2 < |dt| then v else 0
  {
    RawStoreThenLoad(dt, sp2, EndianSwap(v), sp2);
    EndianSwapInvolution(v);
    IncThenDec(sp);
    if sp2 >= |dt| {
      assert EndianSwap(0) == 0;
    }
  }
}
