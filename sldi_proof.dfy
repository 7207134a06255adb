/** What an `sldi` expansion does once assembled and run: the lines are encoded
    as pass 2 encodes them and each word's effect is applied in order. For
    every number below 65536, and for every larger one except those whose low
    sixteen bits are 0 or 1, the target register ends up holding the number
    modulo 65536, and no other register and no data word changes. */
module SldiProof {
  import opened Common
  import opened Isa
  import opened Machine
  import opened AsmSyntax
  import opened Macros

  /** The words of one line as pass 2 assembles it with no symbols defined:
      none for a comment line, one for an instruction, `None` for a line that
      does not assemble. */
  function AsmLine(l: Line): Option<seq<int>>
  {
    match l
    case Blank => Some([])
    case Note(_) => Some([])
    case Instr(m, toks) => AsmInstr(ClassifyAll(toks, map[], 0), ParseMnemonic(m))
    case _ => None
  }

  function AsmInstr(ops: Result<seq<Operand>, AsmError>, o: Option<Opcode>): Option<seq<int>>
  {
    if ops.Err? || o.None? then None
    else
      match EncodeInstr(o.value, ops.value, 0, 0)
      case Err(_) => None
      case Ok(w) => Some([w])
  }

  /** The words of the lines in order; a line that does not assemble spoils all. */
  function AsmLines(lines: seq<Line>): Option<seq<int>>
    decreases |lines|
  {
    if lines == [] then Some([]) else Glue(AsmLine(lines[0]), AsmLines(lines[1..]))
  }

  /** Two pieces of words one after the other, when both assemble. */
  function Glue(w: Option<seq<int>>, ws: Option<seq<int>>): Option<seq<int>>
  {
    if w.Some? && ws.Some? then Some(w.value + ws.value) else None
  }

  /** The words executed one after another, each by its effect on registers,
      flags and data memory; a word that names no instruction stops the run. */
  function RunWords(ws: seq<int>, s: MachineState): (res: Option<MachineState>)
    requires ValidState(s)
    ensures res.Some? ==> ValidState(res.value)
    decreases |ws|
  {
    if ws == [] then Some(s)
    else if !IsWord(ws[0]) then None
    else
      match OpcodeOf(Decode(ws[0]).op)
      case None => None
      case Some(o) => RunWords(ws[1..], Execute(o, Decode(ws[0]), s).s)
  }

  /** The lines assembled and their words run. */
  function Run(lines: seq<Line>, s: MachineState): (res: Option<MachineState>)
    requires ValidState(s)
    ensures res.Some? ==> ValidState(res.value)
  {
    match AsmLines(lines)
    case None => None
    case Some(ws) => RunWords(ws, s)
  }

  lemma {:induction false} AsmAppend(a: seq<Line>, b: seq<Line>)
    requires AsmLines(a).Some? && AsmLines(b).Some?
    ensures AsmLines(a + b) == Some(AsmLines(a).value + AsmLines(b).value)
    decreases |a|
  {
    if a == [] {
      assert a + b == b;
      assert [] + AsmLines(b).value == AsmLines(b).value;
    } else {
      AsmAppend(a[1..], b);
      AsmCons(a, b, AsmLine(a[0]).value, AsmLines(a[1..]).value, AsmLines(b).value);
    }
  }

  /** One step of `AsmAppend`: the first line of `a` put in front. */
  lemma {:induction false} AsmCons(a: seq<Line>, b: seq<Line>, w: seq<int>, x: seq<int>, y: seq<int>)
    requires a != [] && AsmLine(a[0]) == Some(w) && AsmLines(a[1..]) == Some(x)
    requires AsmLines(a[1..] + b) == Some(x + y)
    ensures AsmLines(a + b) == Some((w + x) + y)
  {
    assert (a + b)[0] == a[0] && (a + b)[1..] == a[1..] + b;
    assert w + (x + y) == (w + x) + y;
  }

  lemma {:induction false} RunWordsAppend(x: seq<int>, y: seq<int>, s: MachineState)
    requires ValidState(s) && RunWords(x, s).Some?
    ensures RunWords(x + y, s) == RunWords(y, RunWords(x, s).value)
    decreases |x|
  {
    if x == [] {
      assert x + y == y;
    } else {
      assert (x + y)[0] == x[0];
      assert (x + y)[1..] == x[1..] + y;
      RunWordsAppend(x[1..], y, Execute(OpcodeOf(Decode(x[0]).op).value, Decode(x[0]), s).s);
    }
  }

  /** Register `reg` holds `v`; every other register, `pc` and data memory are as in `s`. */
  predicate Loaded(s: MachineState, t: MachineState, reg: nat, v: int)
    requires reg < 8 && |s.r| == 8
  {
    |t.r| == 8 && t.r[reg] == v && (forall i :: 0 <= i < 8 && i != reg ==> t.r[i] == s.r[i])
    && t.pc == s.pc && t.dt == s.dt
  }

  lemma {:induction false} LoadedTrans(s: MachineState, t: MachineState, u: MachineState, reg: nat, v: int, w: int)
    requires reg < 8 && |s.r| == 8 && |t.r| == 8
    requires Loaded(s, t, reg, v) && Loaded(t, u, reg, w)
    ensures Loaded(s, u, reg, w)
  {
  }

  // The words of the instructions `sldi` emits.

  function XorWord(r: nat): int { Encode(Code(XOR), r, r, r) }
  function NotWord(r: nat): int { Encode(Code(NOT), r, r, 0) }
  function LdiWord(r: nat, t: nat): int { Encode(Code(LDI), r, 0, t) }
  function AdiWord(r: nat, t: nat): int { Encode(Code(ADI), r, r, t) }
  function ShlWord(r: nat): int { Encode(Code(SHL), r, 0, r) }
  function IncWord(r: nat): int { Encode(Code(INC), r, r, 0) }

  function HeadWords(ts: seq<nat>, i: nat, r: nat): seq<int>
    requires i < |ts|
  {
    if ts[i] > 0 || i == 0 then [if i == 0 then LdiWord(r, ts[i]) else AdiWord(r, ts[i])] else []
  }

  function TailWords(ts: seq<nat>, i: nat, r: nat): seq<int>
    requires i < |ts|
  {
    if i < |ts| - 1 then [ShlWord(r), ShlWord(r), ShlWord(r)] else []
  }

  function GroupsWords(ts: seq<nat>, j: nat, r: nat): seq<int>
    requires j <= |ts|
  {
    if j == 0 then [] else GroupsWords(ts, j - 1, r) + (HeadWords(ts, j - 1, r) + TailWords(ts, j - 1, r))
  }

  /** The words of `sldi(n, r)`, as the macro block assembles. */
  function SldiWords(n: Num, r: nat): seq<int>
  {
    if n == Num(0) then [XorWord(r)]
    else if n == Num(0xFFFF) then [XorWord(r), NotWord(r)]
    else if n.Num? && n.n <= 7 then [LdiWord(r, n.n)]
    else
      var ts := Windows(Bits(n));
      GroupsWords(ts, |ts|, r) + FinishWords(Bits(n), r)
  }

  function FinishWords(k: nat, r: nat): seq<int>
  {
    [ShlWord(r)] + (if k % 2 == 1 then [IncWord(r)] else [])
  }

  // Assembly of the lines `sldi` emits.

  lemma RegTokenIsReg(r: nat)
    requires r < 8
    ensures Classify(RegToken(r), map[], 0) == Ok(Operand(Reg, r))
  {
  }

  lemma NumTokenIsImm(t: nat)
    requires t < 8
    ensures Classify(NumToken(t), map[], 0) == Ok(Operand(Imm, t))
  {
    var d := Decimal(t);
    assert IsDigit(d[0]);
  }

  lemma {:induction false} ClassifyTwo(a: Token, b: Token, x: Operand, y: Operand)
    requires Classify(a, map[], 0) == Ok(x) && Classify(b, map[], 0) == Ok(y)
    ensures ClassifyAll([a, b], map[], 0) == Ok([x, y])
  {
    var none: map<string, nat> := map[];
    assert [a, b][1..] == [b];
    assert [b][1..] == [];
    assert ClassifyAll([], none, 0) == Ok([]);
    assert [y] + [] == [y];
    assert ClassifyAll([b], none, 0) == Ok([y]);
    assert [x] + [y] == [x, y];
  }

  lemma {:induction false} ClassifyThree(a: Token, b: Token, c: Token, x: Operand, y: Operand, z: Operand)
    requires Classify(a, map[], 0) == Ok(x) && Classify(b, map[], 0) == Ok(y) && Classify(c, map[], 0) == Ok(z)
    ensures ClassifyAll([a, b, c], map[], 0) == Ok([x, y, z])
  {
    assert [a, b, c][1..] == [b, c];
    ClassifyTwo(b, c, y, z);
    assert [x] + [y, z] == [x, y, z];
  }

  /** An instruction line whose operands classify and whose mnemonic is
      recognised assembles to the one word `EncodeInstr` gives. */
  lemma {:induction false} AsmWord(l: Line, o: Opcode, ops: seq<Operand>, w: int)
    requires l.Instr? && ClassifyAll(l.operands, map[], 0) == Ok(ops) && ParseMnemonic(l.mnemonic) == Some(o)
    requires EncodeInstr(o, ops, 0, 0) == Ok(w)
    ensures AsmLines([l]) == Some([w])
  {
    assert [l][1..] == [];
    assert AsmLine(l) == Some([w]);
    assert [w] + [] == [w];
  }

  lemma {:induction false} AsmTwoRegs(l: Line, o: Opcode, r: nat, w: int)
    requires r < 8 && l == Instr(Mnemonic(o), [RegToken(r), RegToken(r)])
    requires EncodeInstr(o, [Operand(Reg, r), Operand(Reg, r)], 0, 0) == Ok(w)
    ensures AsmLines([l]) == Some([w])
  {
    RegTokenIsReg(r);
    ClassifyTwo(RegToken(r), RegToken(r), Operand(Reg, r), Operand(Reg, r));
    MnemonicParses(o);
    AsmWord(l, o, [Operand(Reg, r), Operand(Reg, r)], w);
  }

  lemma {:induction false} AsmShl(r: nat)
    requires r < 8
    ensures AsmLines([Shl(r)]) == Some([ShlWord(r)])
  {
    AsmTwoRegs(Shl(r), SHL, r, ShlWord(r));
  }

  lemma {:induction false} AsmInc(r: nat)
    requires r < 8
    ensures AsmLines([Inc(r)]) == Some([IncWord(r)])
  {
    AsmTwoRegs(Inc(r), INC, r, IncWord(r));
  }

  lemma {:induction false} AsmNot(r: nat)
    requires r < 8
    ensures AsmLines([Not(r)]) == Some([NotWord(r)])
  {
    AsmTwoRegs(Not(r), NOT, r, NotWord(r));
  }

  lemma {:induction false} AsmXor(r: nat)
    requires r < 8
    ensures AsmLines([Xor(r)]) == Some([XorWord(r)])
  {
    RegTokenIsReg(r);
    ClassifyThree(RegToken(r), RegToken(r), RegToken(r), Operand(Reg, r), Operand(Reg, r), Operand(Reg, r));
    MnemonicParses(XOR);
    AsmWord(Xor(r), XOR, [Operand(Reg, r), Operand(Reg, r), Operand(Reg, r)], XorWord(r));
  }

  lemma {:induction false} AsmLdi(r: nat, t: nat)
    requires r < 8 && t < 8
    ensures AsmLines([Ldi(r, t)]) == Some([LdiWord(r, t)])
  {
    RegTokenIsReg(r);
    NumTokenIsImm(t);
    ClassifyTwo(RegToken(r), NumToken(t), Operand(Reg, r), Operand(Imm, t));
    MnemonicParses(LDI);
    AsmWord(Ldi(r, t), LDI, [Operand(Reg, r), Operand(Imm, t)], LdiWord(r, t));
  }

  lemma {:induction false} AsmAdi(r: nat, t: nat)
    requires r < 8 && t < 8
    ensures AsmLines([Adi(r, t)]) == Some([AdiWord(r, t)])
  {
    RegTokenIsReg(r);
    NumTokenIsImm(t);
    ClassifyThree(RegToken(r), RegToken(r), NumToken(t), Operand(Reg, r), Operand(Reg, r), Operand(Imm, t));
    MnemonicParses(ADI);
    AsmWord(Adi(r, t), ADI, [Operand(Reg, r), Operand(Reg, r), Operand(Imm, t)], AdiWord(r, t));
  }

  lemma {:induction false} AsmNote(m: Marker)
    ensures AsmLines([Note(m)]) == Some([])
  {
    var e: seq<int> := [];
    assert [Note(m)][1..] == [];
    assert AsmLines([]) == Some(e);
    assert e + e == e;
  }

  lemma {:induction false} AsmGroupHead(ts: seq<nat>, i: nat, r: nat)
    requires i < |ts| && r < 8 && ts[i] < 8
    ensures AsmLines(GroupHead(ts, i, r)) == Some(HeadWords(ts, i, r))
  {
    if i == 0 {
      assert GroupHead(ts, i, r) == [Ldi(r, ts[i])];
      AsmLdi(r, ts[i]);
    } else if ts[i] > 0 {
      assert GroupHead(ts, i, r) == [Adi(r, ts[i])];
      AsmAdi(r, ts[i]);
    } else {
      assert GroupHead(ts, i, r) == [];
    }
  }

  lemma {:induction false} AsmShl3(r: nat)
    requires r < 8
    ensures AsmLines([Shl(r), Shl(r), Shl(r)]) == Some([ShlWord(r), ShlWord(r), ShlWord(r)])
  {
    AsmShl(r);
    AsmAppend([Shl(r)], [Shl(r)]);
    assert [Shl(r)] + [Shl(r)] == [Shl(r), Shl(r)];
    assert [ShlWord(r)] + [ShlWord(r)] == [ShlWord(r), ShlWord(r)];
    AsmAppend([Shl(r), Shl(r)], [Shl(r)]);
    assert [Shl(r), Shl(r)] + [Shl(r)] == [Shl(r), Shl(r), Shl(r)];
    assert [ShlWord(r), ShlWord(r)] + [ShlWord(r)] == [ShlWord(r), ShlWord(r), ShlWord(r)];
  }

  lemma {:induction false} AsmGroup(ts: seq<nat>, i: nat, r: nat)
    requires i < |ts| && r < 8 && ts[i] < 8
    ensures AsmLines(GroupLines(ts, i, r)) == Some(HeadWords(ts, i, r) + TailWords(ts, i, r))
  {
    AsmGroupHead(ts, i, r);
    if i < |ts| - 1 {
      AsmShl3(r);
    } else {
      assert AsmLines(GroupTail(ts, i, r)) == Some([]);
    }
    AsmAppend(GroupHead(ts, i, r), GroupTail(ts, i, r));
  }

  lemma {:induction false} AsmGroups(ts: seq<nat>, j: nat, r: nat)
    requires j <= |ts| && r < 8 && forall i :: 0 <= i < |ts| ==> ts[i] < 8
    ensures AsmLines(GroupsLines(ts, j, r)) == Some(GroupsWords(ts, j, r))
  {
    if j == 0 {
      assert GroupsLines(ts, j, r) == [];
    } else {
      AsmGroups(ts, j - 1, r);
      AsmGroupsStep(ts, j, r);
    }
  }

  lemma {:induction false} AsmGroupsStep(ts: seq<nat>, j: nat, r: nat)
    requires 0 < j <= |ts| && r < 8 && ts[j - 1] < 8
    requires AsmLines(GroupsLines(ts, j - 1, r)) == Some(GroupsWords(ts, j - 1, r))
    ensures AsmLines(GroupsLines(ts, j, r)) == Some(GroupsWords(ts, j, r))
  {
    var a, b := GroupsLines(ts, j - 1, r), GroupLines(ts, j - 1, r);
    var x, y := GroupsWords(ts, j - 1, r), HeadWords(ts, j - 1, r) + TailWords(ts, j - 1, r);
    AsmGroup(ts, j - 1, r);
    AsmJoin(a, b, x, y);
    assert GroupsLines(ts, j, r) == a + b && GroupsWords(ts, j, r) == x + y;
  }

  /** `AsmAppend` for two pieces whose words are known. */
  lemma {:induction false} AsmJoin(a: seq<Line>, b: seq<Line>, x: seq<int>, y: seq<int>)
    requires AsmLines(a) == Some(x) && AsmLines(b) == Some(y)
    ensures AsmLines(a + b) == Some(x + y)
  {
    AsmAppend(a, b);
  }

  /** A macro block assembles to the words of its body. */
  lemma {:induction false} AsmBlock(body: seq<Line>)
    requires AsmLines(body).Some?
    ensures AsmLines([Note(Open)] + body + [Note(Close)]) == AsmLines(body)
  {
    var ws := AsmLines(body).value;
    AsmNote(Open);
    AsmNote(Close);
    AsmAppend([Note(Open)], body);
    assert [] + ws == ws;
    AsmAppend([Note(Open)] + body, [Note(Close)]);
    assert ws + [] == ws;
  }

  /** The lines of `sldi(n, r)` assemble to `SldiWords(n, r)`. */
  lemma {:induction false} AsmSldi(n: Num, r: nat)
    requires r < 8
    ensures AsmLines(SldiLines(n, r)) == Some(SldiWords(n, r))
  {
    if n == Num(0) {
      assert SldiLines(n, r) == [Note(Open)] + [Xor(r)] + [Note(Close)];
      assert SldiWords(n, r) == [XorWord(r)];
      AsmXor(r);
      AsmBlock([Xor(r)]);
    } else if n == Num(0xFFFF) {
      assert SldiLines(n, r) == [Note(Open)] + [Xor(r), Not(r)] + [Note(Close)];
      assert SldiWords(n, r) == [XorWord(r), NotWord(r)];
      AsmAllOnes(r);
      AsmBlock([Xor(r), Not(r)]);
    } else if n.Num? && n.n <= 7 {
      assert SldiLines(n, r) == [Note(Open)] + [Ldi(r, n.n)] + [Note(Close)];
      assert SldiWords(n, r) == [LdiWord(r, n.n)];
      AsmLdi(r, n.n);
      AsmBlock([Ldi(r, n.n)]);
    } else {
      AsmSldiGeneral(Bits(n), r);
    }
  }

  lemma {:induction false} AsmAllOnes(r: nat)
    requires r < 8
    ensures AsmLines([Xor(r), Not(r)]) == Some([XorWord(r), NotWord(r)])
  {
    AsmXor(r);
    AsmNot(r);
    AsmAppend([Xor(r)], [Not(r)]);
    assert [Xor(r)] + [Not(r)] == [Xor(r), Not(r)];
    assert [XorWord(r)] + [NotWord(r)] == [XorWord(r), NotWord(r)];
  }

  lemma {:induction false} AsmFinish(k: nat, r: nat)
    requires r < 8
    ensures AsmLines(FinishLines(k, r)) == Some(FinishWords(k, r))
  {
    AsmShl(r);
    if k % 2 == 1 {
      AsmInc(r);
      AsmAppend([Shl(r)], [Inc(r)]);
    } else {
      var e: seq<Line> := [];
      assert AsmLines(e) == Some([]);
      AsmAppend([Shl(r)], e);
      assert [ShlWord(r)] + [] == [ShlWord(r)];
    }
  }

  /** The general expansion of `k`: its groups, the final `shl` and the `inc`
      of an odd number, in a macro block. */
  lemma {:induction false} AsmSldiGeneral(k: nat, r: nat)
    requires r < 8
    ensures var ts := Windows(k);
      AsmLines([Note(Open)] + GroupsLines(ts, |ts|, r) + FinishLines(k, r) + [Note(Close)])
        == Some(GroupsWords(ts, |ts|, r) + FinishWords(k, r))
  {
    var ts := Windows(k);
    var g := GroupsLines(ts, |ts|, r);
    var f := FinishLines(k, r);
    WindowsValue(k);
    AsmGroups(ts, |ts|, r);
    AsmFinish(k, r);
    AsmAppend(g, f);
    AsmBlock(g + f);
    assert [Note(Open)] + g + f == [Note(Open)] + (g + f);
  }

  // Execution of the words.

  lemma {:induction false} ExecuteWrites(o: Opcode, f: Fields, s: MachineState)
    requires ValidState(s) && WritesRegister(o) && ValidFields(f)
    ensures Loaded(s, Execute(o, f, s).s, f.da, RegisterResult(o, f, s))
  {
  }

  /** The word of a register-writing instruction writes `RegisterResult` to
      its `da` register and changes no other register and no data word. */
  lemma {:induction false} StepWrites(o: Opcode, f: Fields, s: MachineState)
    requires ValidState(s) && WritesRegister(o) && ValidFields(f) && f.op == Code(o)
    ensures RunWords([Encode(Code(o), f.da, f.aa, f.ba)], s).Some?
    ensures Loaded(s, RunWords([Encode(Code(o), f.da, f.aa, f.ba)], s).value, f.da, RegisterResult(o, f, s))
  {
    var w := Encode(Code(o), f.da, f.aa, f.ba);
    assert Decode(w) == f;
    OpcodeTableConsistent(o);
    assert [w][1..] == [];
    assert RunWords([w], s) == Some(Execute(o, f, s).s);
    ExecuteWrites(o, f, s);
  }

  lemma {:induction false} RunShl(r: nat, s: MachineState)
    requires r < 8 && ValidState(s)
    ensures RunWords([ShlWord(r)], s).Some? && Loaded(s, RunWords([ShlWord(r)], s).value, r, U16(s.r[r] * 2))
  {
    StepWrites(SHL, Fields(Code(SHL), r, 0, r), s);
  }

  lemma {:induction false} RunInc(r: nat, s: MachineState)
    requires r < 8 && ValidState(s)
    ensures RunWords([IncWord(r)], s).Some? && Loaded(s, RunWords([IncWord(r)], s).value, r, U16(s.r[r] + 1))
  {
    StepWrites(INC, Fields(Code(INC), r, r, 0), s);
  }

  lemma {:induction false} RunNot(r: nat, s: MachineState)
    requires r < 8 && ValidState(s)
    ensures RunWords([NotWord(r)], s).Some? && Loaded(s, RunWords([NotWord(r)], s).value, r, 0xFFFF - s.r[r])
  {
    Complement(s.r[r]);
    StepWrites(NOT, Fields(Code(NOT), r, r, 0), s);
  }

  /** `not` on a 16-bit value: `u16(~a)` is `0xFFFF - a`. */
  lemma {:induction false} Complement(a: int)
    requires IsWord(a)
    ensures U16(-a - 1) == 0xFFFF - a
  {
    DivUnique(-a - 1, WordSize, -1, 0xFFFF - a);
  }

  lemma {:induction false} RunXor(r: nat, s: MachineState)
    requires r < 8 && ValidState(s)
    ensures RunWords([XorWord(r)], s).Some? && Loaded(s, RunWords([XorWord(r)], s).value, r, 0)
  {
    var f := Fields(Code(XOR), r, r, r);
    XorSelf(s.r[r], 16);
    assert BitXor(s.r[r], s.r[r]) == 0;
    assert RegisterResult(XOR, f, s) == 0;
    StepWrites(XOR, f, s);
  }

  lemma {:induction false} RunLdi(r: nat, t: nat, s: MachineState)
    requires r < 8 && t < 8 && ValidState(s)
    ensures RunWords([LdiWord(r, t)], s).Some? && Loaded(s, RunWords([LdiWord(r, t)], s).value, r, t)
  {
    var f := Fields(Code(LDI), r, 0, t);
    assert RegisterResult(LDI, f, s) == t;
    StepWrites(LDI, f, s);
  }

  lemma {:induction false} RunAdi(r: nat, t: nat, s: MachineState)
    requires r < 8 && t < 8 && ValidState(s)
    ensures RunWords([AdiWord(r, t)], s).Some? && Loaded(s, RunWords([AdiWord(r, t)], s).value, r, U16(s.r[r] + t))
  {
    var f := Fields(Code(ADI), r, r, t);
    assert RegisterResult(ADI, f, s) == U16(s.r[r] + t);
    StepWrites(ADI, f, s);
  }

  /** Runs compose: two runs that each leave a value in `r` make one. */
  lemma {:induction false} Compose(x: seq<int>, y: seq<int>, s: MachineState, r: nat, v: int, w: int)
    requires ValidState(s) && r < 8
    requires RunWords(x, s).Some? && Loaded(s, RunWords(x, s).value, r, v)
    requires RunWords(y, RunWords(x, s).value).Some?
    requires Loaded(RunWords(x, s).value, RunWords(y, RunWords(x, s).value).value, r, w)
    ensures RunWords(x + y, s).Some? && Loaded(s, RunWords(x + y, s).value, r, w)
  {
    RunWordsAppend(x, y, s);
    LoadedTrans(s, RunWords(x, s).value, RunWords(y, RunWords(x, s).value).value, r, v, w);
  }

  /** Three `shl r,r` multiply a register holding `v` by 8 when `8 * v` fits in a word. */
  lemma {:induction false} RunShl3(r: nat, s: MachineState)
    requires r < 8 && ValidState(s) && s.r[r] * 8 < WordSize
    ensures RunWords([ShlWord(r), ShlWord(r), ShlWord(r)], s).Some?
    ensures Loaded(s, RunWords([ShlWord(r), ShlWord(r), ShlWord(r)], s).value, r, s.r[r] * 8)
  {
    var v := s.r[r];
    var w := ShlWord(r);
    assert U16(v * 2) == v * 2 && U16(v * 2 * 2) == v * 4 && U16(v * 4 * 2) == v * 8;
    RunShl(r, s);
    var t1 := RunWords([w], s).value;
    RunShl(r, t1);
    var t2 := RunWords([w], t1).value;
    RunShl(r, t2);
    var t3 := RunWords([w], t2).value;
    RunWordsAppend([w], [w], s);
    assert [w] + [w] == [w, w];
    RunWordsAppend([w, w], [w], s);
    assert [w, w] + [w] == [w, w, w];
    LoadedTrans(s, t1, t2, r, v * 2, v * 4);
    LoadedTrans(s, t2, t3, r, v * 4, v * 8);
  }

  /** The number the first `j` groups spell in base 8. */
  function Horner(ts: seq<nat>, j: nat): nat
    requires j <= |ts|
  {
    if j == 0 then 0 else Horner(ts, j - 1) * 8 + ts[j - 1]
  }

  lemma {:induction false} HornerBelowTotal(ts: seq<nat>, j: nat)
    requires j <= |ts|
    ensures Horner(ts, j) <= Horner(ts, |ts|)
    decreases |ts| - j
  {
    if j < |ts| {
      HornerBelowTotal(ts, j + 1);
    }
  }

  /** The register value after group `i`: the first `i + 1` groups in base 8,
      shifted by three more bits unless group `i` is the last. */
  function AfterGroup(ts: seq<nat>, i: nat): nat
    requires i < |ts|
  {
    Horner(ts, i + 1) * (if i + 1 < |ts| then 8 else 1)
  }

  predicate SmallGroups(ts: seq<nat>)
  {
    (forall i :: 0 <= i < |ts| ==> ts[i] < 8) && Horner(ts, |ts|) < 0x8000
  }

  /** The `ldi` or `adi` of a group takes the register from the value after
      the previous group (any value before the first) to the first `i + 1`
      groups in base 8. */
  lemma {:induction false} RunGroupHead(ts: seq<nat>, i: nat, r: nat, s: MachineState)
    requires i < |ts| && r < 8 && ValidState(s) && SmallGroups(ts)
    requires i > 0 ==> s.r[r] == AfterGroup(ts, i - 1)
    ensures RunWords(HeadWords(ts, i, r), s).Some?
    ensures Loaded(s, RunWords(HeadWords(ts, i, r), s).value, r, Horner(ts, i + 1))
  {
    HornerBelowTotal(ts, i + 1);
    var h := Horner(ts, i + 1);
    if i == 0 {
      assert HeadWords(ts, i, r) == [LdiWord(r, ts[0])];
      assert h == ts[0];
      RunLdi(r, ts[0], s);
    } else if ts[i] > 0 {
      assert HeadWords(ts, i, r) == [AdiWord(r, ts[i])];
      assert s.r[r] + ts[i] == h < WordSize;
      RunAdi(r, ts[i], s);
      assert U16(s.r[r] + ts[i]) == h;
    } else {
      assert HeadWords(ts, i, r) == [];
      assert s.r == s.r[r := h];
    }
  }

  /** The words of one group take the register from the value after the
      previous group to the value after this one. */
  lemma {:induction false} RunGroup(ts: seq<nat>, i: nat, r: nat, s: MachineState)
    requires i < |ts| && r < 8 && ValidState(s) && SmallGroups(ts)
    requires i > 0 ==> s.r[r] == AfterGroup(ts, i - 1)
    ensures RunWords(HeadWords(ts, i, r) + TailWords(ts, i, r), s).Some?
    ensures Loaded(s, RunWords(HeadWords(ts, i, r) + TailWords(ts, i, r), s).value, r, AfterGroup(ts, i))
  {
    var h := Horner(ts, i + 1);
    var p, q := HeadWords(ts, i, r), TailWords(ts, i, r);
    RunGroupHead(ts, i, r, s);
    var t := RunWords(p, s).value;
    RunWordsAppend(p, q, s);
    if i < |ts| - 1 {
      HornerBelowTotal(ts, i + 2);
      assert h * 8 <= Horner(ts, i + 2);
      RunShl3(r, t);
      LoadedTrans(s, t, RunWords(q, t).value, r, h, h * 8);
    } else {
      assert RunWords(q, t) == Some(t);
    }
  }

  /** The words of the first `j` groups leave the value after group `j - 1`. */
  lemma {:induction false} RunGroups(ts: seq<nat>, j: nat, r: nat, s: MachineState)
    requires 1 <= j <= |ts| && r < 8 && ValidState(s) && SmallGroups(ts)
    ensures RunWords(GroupsWords(ts, j, r), s).Some?
    ensures Loaded(s, RunWords(GroupsWords(ts, j, r), s).value, r, AfterGroup(ts, j - 1))
  {
    var a := GroupsWords(ts, j - 1, r);
    var g := HeadWords(ts, j - 1, r) + TailWords(ts, j - 1, r);
    if j == 1 {
      assert GroupsWords(ts, 1, r) == g;
      RunGroup(ts, 0, r, s);
    } else {
      RunGroups(ts, j - 1, r, s);
      var t := RunWords(a, s).value;
      RunGroup(ts, j - 1, r, t);
      Compose(a, g, s, r, AfterGroup(ts, j - 2), AfterGroup(ts, j - 1));
    }
  }

  lemma {:induction false} DivUnique(a: int, d: int, q: int, m: int)
    requires d > 0 && a == d * q + m && 0 <= m < d
    ensures a / d == q && a % d == m
  {
    var q' := a / d;
    assert a == d * q' + a % d;
    if q' > q {
      assert d * q' == d * q + d * (q' - q);
      MulAtLeast(d, q' - q);
      assert false;
    } else if q' < q {
      assert d * q == d * q' + d * (q - q');
      MulAtLeast(d, q - q');
      assert false;
    }
  }

  lemma MulAtLeast(d: int, e: int)
    requires d > 0 && e >= 1
    ensures d * e >= d
  {
    assert d * e == d + d * (e - 1);
  }

  lemma {:induction false} DivDiv(a: nat, b: nat, c: nat)
    requires b > 0 && c > 0
    ensures a / (b * c) == (a / b) / c
  {
    var q, r1 := a / b, a % b;
    var q2, r2 := q / c, q % c;
    var bc := b * c;
    assert a == b * q + r1;
    assert q == c * q2 + r2;
    assert b * q == bc * q2 + b * r2 by {
      assert b * (c * q2 + r2) == b * (c * q2) + b * r2;
      assert b * (c * q2) == (b * c) * q2;
    }
    assert b * r2 + b <= bc by {
      MulMonotone(b, r2 + 1, c);
      assert b * (r2 + 1) == b * r2 + b;
    }
    DivUnique(a, bc, q2, b * r2 + r1);
  }

  lemma MulMonotone(b: nat, x: nat, y: nat)
    requires x <= y
    ensures b * x <= b * y
  {
    assert b * y == b * x + b * (y - x);
  }

  /** Joining a base-8 digit below the remainder of a number: `((q / 8) % n) * 8 + q % 8 == q % (8 n)`. */
  lemma {:induction false} JoinDigit(q: nat, n: nat)
    requires n > 0
    ensures ((q / 8) % n) * 8 + q % 8 == q % (8 * n)
  {
    var hi := q / 8;
    assert q == 8 * hi + q % 8;
    assert hi == n * (hi / n) + hi % n;
    assert q == (8 * n) * (hi / n) + ((hi % n) * 8 + q % 8);
    DivUnique(q, 8 * n, hi / n, (hi % n) * 8 + q % 8);
  }

  /** The groups of `k` are the base-8 digits of `k / 2`. */
  lemma {:induction false} GroupsOfHalf(k: nat)
    ensures var m := k / 2;
      Groups(k) == [(m / 4096) % 8, (m / 512) % 8, (m / 64) % 8, (m / 8) % 8, m % 8]
  {
    DivDiv(k, 2, 4096);
    DivDiv(k, 2, 512);
    DivDiv(k, 2, 64);
    DivDiv(k, 2, 8);
  }

  /** Five base-8 digits of `m`, most significant first, spell `m % 0x8000`. */
  lemma {:induction false} DigitsValue(m: nat)
    ensures var g := [(m / 4096) % 8, (m / 512) % 8, (m / 64) % 8, (m / 8) % 8, m % 8];
      Horner(g, 5) == m % 0x8000
  {
    var g := [(m / 4096) % 8, (m / 512) % 8, (m / 64) % 8, (m / 8) % 8, m % 8];
    DivDiv(m, 512, 8);
    DivDiv(m, 64, 8);
    DivDiv(m, 8, 8);
    assert Horner(g, 1) == ((m / 512) / 8) % 8;
    JoinDigit(m / 512, 8);
    assert Horner(g, 2) == (m / 512) % 64;
    JoinDigit(m / 64, 64);
    assert Horner(g, 3) == (m / 64) % 512;
    JoinDigit(m / 8, 512);
    assert Horner(g, 4) == (m / 8) % 4096;
    JoinDigit(m, 4096);
  }

  /** The five groups spell bits 1 to 15 of `k` in base 8. */
  lemma {:induction false} GroupsValue(k: nat)
    ensures Horner(Groups(k), 5) == (k / 2) % 0x8000
  {
    GroupsOfHalf(k);
    DigitsValue(k / 2);
  }

  /** Leading zero groups add nothing to the value. */
  lemma {:induction false} HornerZeroFront(xs: seq<nat>, j: nat)
    requires j <= |xs|
    ensures Horner([0] + xs, j + 1) == Horner(xs, j)
  {
    if j > 0 {
      HornerZeroFront(xs, j - 1);
      assert ([0] + xs)[j] == xs[j - 1];
    }
  }

  lemma {:induction false} HornerDropZeros(ts: seq<nat>)
    ensures Horner(DropZeros(ts), |DropZeros(ts)|) == Horner(ts, |ts|)
    ensures forall i :: 0 <= i < |DropZeros(ts)| ==> DropZeros(ts)[i] in ts
  {
    if ts != [] && ts[0] == 0 {
      var xs := ts[1..];
      HornerDropZeros(xs);
      assert ts == [0] + xs;
      HornerZeroFront(xs, |xs|);
      forall i | 0 <= i < |DropZeros(ts)|
        ensures DropZeros(ts)[i] in ts
      {
        assert DropZeros(ts)[i] in xs;
      }
    }
  }

  /** The groups `sldi` loads spell bits 1 to 15 of `k`, each below 8. */
  lemma {:induction false} WindowsValue(k: nat)
    ensures SmallGroups(Windows(k))
    ensures Horner(Windows(k), |Windows(k)|) == (k / 2) % 0x8000
  {
    GroupsValue(k);
    HornerDropZeros(Groups(k));
    assert Groups(k)[..5] == Groups(k);
    forall i | 0 <= i < |Windows(k)|
      ensures Windows(k)[i] < 8
    {
      assert Windows(k)[i] in Groups(k);
    }
  }

  lemma {:induction false} HalfMod(k: nat)
    ensures (k / 2) % 0x8000 == (k % 0x10000) / 2
    ensures k % 2 == (k % 0x10000) % 2
  {
    var a, b := k / 0x10000, k % 0x10000;
    assert k == 2 * (0x8000 * a + b / 2) + b % 2;
    DivUnique(k, 2, 0x8000 * a + b / 2, b % 2);
    DivUnique(k / 2, 0x8000, a, b / 2);
  }

  /** The tail of the general expansion for an even number: one `shl` after
      the groups have left `v` in the register. */
  lemma {:induction false} RunDouble(r: nat, s: MachineState)
    requires r < 8 && ValidState(s) && 2 * s.r[r] < WordSize
    ensures RunWords([ShlWord(r)], s).Some? && Loaded(s, RunWords([ShlWord(r)], s).value, r, 2 * s.r[r])
  {
    assert U16(s.r[r] * 2) == 2 * s.r[r];
    RunShl(r, s);
  }

  /** For an odd number, `shl` and then `inc`. */
  lemma {:induction false} RunDoubleInc(r: nat, s: MachineState)
    requires r < 8 && ValidState(s) && 2 * s.r[r] < WordSize
    ensures RunWords([ShlWord(r), IncWord(r)], s).Some?
    ensures Loaded(s, RunWords([ShlWord(r), IncWord(r)], s).value, r, 2 * s.r[r] + 1)
  {
    var v := s.r[r];
    assert 2 * v + 1 < WordSize;
    RunDouble(r, s);
    var t := RunWords([ShlWord(r)], s).value;
    RunIncrement(r, t, 2 * v);
    Compose([ShlWord(r)], [IncWord(r)], s, r, 2 * v, 2 * v + 1);
    assert [ShlWord(r)] + [IncWord(r)] == [ShlWord(r), IncWord(r)];
  }

  lemma {:induction false} RunIncrement(r: nat, t: MachineState, v: int)
    requires r < 8 && ValidState(t) && t.r[r] == v && 0 <= v && v + 1 < WordSize
    ensures RunWords([IncWord(r)], t).Some? && Loaded(t, RunWords([IncWord(r)], t).value, r, v + 1)
  {
    assert U16(v + 1) == v + 1;
    RunInc(r, t);
  }

  /** The words of `sldi(n, r)` load `n` modulo 65536 into `r`, for every `n`
      below 65536 and every larger `n` whose low sixteen bits are at least 2. */
  lemma {:induction false} SldiWordsLoad(n: nat, r: nat, s: MachineState)
    requires r < 8 && ValidState(s)
    requires n < WordSize || n % WordSize >= 2
    ensures RunWords(SldiWords(Num(n), r), s).Some?
    ensures Loaded(s, RunWords(SldiWords(Num(n), r), s).value, r, n % WordSize)
  {
    if n == 0 {
      assert n % WordSize == 0;
      assert SldiWords(Num(n), r) == [XorWord(r)];
      RunXor(r, s);
    } else if n == 0xFFFF {
      assert n % WordSize == 0xFFFF;
      assert SldiWords(Num(n), r) == [XorWord(r), NotWord(r)];
      RunAllOnes(r, s);
    } else if n <= 7 {
      assert n % WordSize == n;
      assert SldiWords(Num(n), r) == [LdiWord(r, n)];
      RunLdi(r, n, s);
    } else {
      SldiGeneralLoad(n, r, s);
    }
  }

  /** `xor r,r,r` then `not r,r` leave 0xFFFF in the register. */
  lemma {:induction false} RunAllOnes(r: nat, s: MachineState)
    requires r < 8 && ValidState(s)
    ensures RunWords([XorWord(r), NotWord(r)], s).Some?
    ensures Loaded(s, RunWords([XorWord(r), NotWord(r)], s).value, r, 0xFFFF)
  {
    RunXor(r, s);
    var t := RunWords([XorWord(r)], s).value;
    assert t.r[r] == 0;
    RunNot(r, t);
    Compose([XorWord(r)], [NotWord(r)], s, r, 0, 0xFFFF);
    assert [XorWord(r)] + [NotWord(r)] == [XorWord(r), NotWord(r)];
  }

  lemma {:induction false} SldiGeneralLoad(n: nat, r: nat, s: MachineState)
    requires r < 8 && ValidState(s) && 8 <= n && n != 0xFFFF
    requires n < WordSize || n % WordSize >= 2
    ensures RunWords(SldiWords(Num(n), r), s).Some?
    ensures Loaded(s, RunWords(SldiWords(Num(n), r), s).value, r, n % WordSize)
  {
    var ts := Windows(n);
    var v := (n / 2) % 0x8000;
    WindowsValue(n);
    HalfMod(n);
    assert v >= 1;
    assert |ts| >= 1;
    var g := GroupsWords(ts, |ts|, r);
    var fin := FinishWords(n, r);
    assert SldiWords(Num(n), r) == g + fin;
    RunGroups(ts, |ts|, r, s);
    var t := RunWords(g, s).value;
    assert t.r[r] == v;
    if n % 2 == 1 {
      assert fin == [ShlWord(r), IncWord(r)];
      RunDoubleInc(r, t);
    } else {
      assert fin == [ShlWord(r)];
      RunDouble(r, t);
    }
    Compose(g, fin, s, r, v, n % WordSize);
  }

  /** For 65536 and 65537, which the five-digit `%SLDI` form accepts, every
      group is zero: the words are a lone `shl` (and `inc`), which double the
      register instead of loading it. */
  lemma {:induction false} SldiWordsDouble(n: nat, r: nat, s: MachineState)
    requires r < 8 && ValidState(s)
    requires n >= WordSize && n % WordSize < 2
    ensures RunWords(SldiWords(Num(n), r), s).Some?
    ensures Loaded(s, RunWords(SldiWords(Num(n), r), s).value, r, U16(s.r[r] * 2) + n % 2)
  {
    var ts := Windows(n);
    WindowsValue(n);
    HalfMod(n);
    if ts != [] {
      HornerBelowTotal(ts, 1);
      assert false;
    }
    assert GroupsWords(ts, |ts|, r) == [];
    if n % 2 == 1 {
      assert SldiWords(Num(n), r) == [ShlWord(r), IncWord(r)];
      RunShlInc(r, s);
    } else {
      assert SldiWords(Num(n), r) == [ShlWord(r)];
      RunShl(r, s);
    }
  }

  /** `shl` then `inc` on any register value: the doubled value, wrapped, plus one. */
  lemma {:induction false} RunShlInc(r: nat, s: MachineState)
    requires r < 8 && ValidState(s)
    ensures RunWords([ShlWord(r), IncWord(r)], s).Some?
    ensures Loaded(s, RunWords([ShlWord(r), IncWord(r)], s).value, r, U16(s.r[r] * 2) + 1)
  {
    var d := U16(s.r[r] * 2);
    DoubleEven(s.r[r]);
    RunShl(r, s);
    var t := RunWords([ShlWord(r)], s).value;
    RunIncrement(r, t, d);
    Compose([ShlWord(r)], [IncWord(r)], s, r, d, d + 1);
    assert [ShlWord(r)] + [IncWord(r)] == [ShlWord(r), IncWord(r)];
  }

  /** A 16-bit value doubled and wrapped is even, so one more still fits. */
  lemma {:induction false} DoubleEven(v: int)
    requires IsWord(v)
    ensures U16(v * 2) % 2 == 0 && U16(v * 2) + 1 < WordSize
  {
    if v < 0x8000 {
      assert U16(v * 2) == v * 2;
    } else {
      DivUnique(v * 2, WordSize, 1, v * 2 - WordSize);
    }
  }

  /** `sldi(n, r)` assembled and run loads `n` modulo 65536 into `r` and
      changes no other register and no data word, for every `n` below 65536
      and every larger `n` whose low sixteen bits are at least 2. */
  lemma {:induction false} SldiLoads(n: nat, r: nat, s: MachineState)
    requires r < 8 && ValidState(s)
    requires n < WordSize || n % WordSize >= 2
    ensures Run(SldiLines(Num(n), r), s).Some?
    ensures Loaded(s, Run(SldiLines(Num(n), r), s).value, r, n % WordSize)
  {
    AsmSldi(Num(n), r);
    SldiWordsLoad(n, r, s);
  }

  /** `sldi(65536, r)` and `sldi(65537, r)` assembled and run double the
      register (and add one for 65537) instead of loading it. */
  lemma {:induction false} SldiDoublesRegister(n: nat, r: nat, s: MachineState)
    requires r < 8 && ValidState(s)
    requires n >= WordSize && n % WordSize < 2
    ensures Run(SldiLines(Num(n), r), s).Some?
    ensures Loaded(s, Run(SldiLines(Num(n), r), s).value, r, U16(s.r[r] * 2) + n % 2)
  {
    AsmSldi(Num(n), r);
    SldiWordsDouble(n, r, s);
  }
}
