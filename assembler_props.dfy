/** What pass 2 and the whole assembler guarantee: the address counter, the
    words and the line mapping grow by one per instruction, the mapping is
    nondecreasing and gives every instruction of a macro block the line of
    the block, a label's table entry is the address pass 2 gives the
    instruction after it (up to the symbolic `%SLDI` lines in front of it),
    and the hex text loads and disassembles back to the words encoded. */
module AssemblerProps {
  import opened Common
  import opened Isa
  import opened Hex
  import opened AsmSyntax
  import opened Macros
  import opened Machine
  import opened Disassembler
  import opened Assembler
  import SldiProof

  // ----- counting -----

  /** The number of instruction lines. */
  function InstrCount(lines: seq<Line>): nat
  {
    if lines == [] then 0 else (if lines[0].Instr? then 1 else 0) + InstrCount(lines[1..])
  }

  /** The number of instruction lines whose mnemonic the `switch` knows. */
  function KnownCount(lines: seq<Line>): nat
  {
    if lines == [] then 0
    else (if lines[0].Instr? && ParseMnemonic(lines[0].mnemonic).Some? then 1 else 0) + KnownCount(lines[1..])
  }

  /** A known mnemonic appends exactly one word, an unknown one none. */
  lemma {:induction false} InstrWordsGrow(words: seq<int>, m: string, toks: seq<Token>, syms: map<string, nat>, caddr: nat, line: nat)
    requires InstrWords(words, m, toks, syms, caddr, line).Ok?
    ensures |InstrWords(words, m, toks, syms, caddr, line).value| == |words| + (if ParseMnemonic(m).Some? then 1 else 0)
    ensures InstrWords(words, m, toks, syms, caddr, line).value[..|words|] == words
  {
    var ops := ClassifyAll(toks, syms, line).value;
    var r := Emit(words, m, ops, caddr, line);
    assert InstrWords(words, m, toks, syms, caddr, line) == r;
    if ParseMnemonic(m).Some? {
      var w := EncodeInstr(ParseMnemonic(m).value, ops, caddr, line).value;
      assert r.value == words + [w];
    }
  }

  /** One line of pass 2: an instruction takes one address and one mapping
      entry and, with a known mnemonic, one word; the line count never goes
      back; only marker lines move the depth. */
  lemma {:induction false} Pass2LineShape(st: Pass2State, l: Line, syms: map<string, nat>)
    requires !l.Pldi? && !l.SldiSym?
    requires Pass2Line(st, l, syms).Ok?
    ensures var next := Pass2Line(st, l, syms).value;
      && next.caddr == st.caddr + (if l.Instr? then 1 else 0)
      && |next.mapping| == |st.mapping| + (if l.Instr? then 1 else 0)
      && next.mapping[..|st.mapping|] == st.mapping
      && (l.Instr? ==> next.mapping[|st.mapping|] == next.lineidx)
      && |next.words| == |st.words| + (if l.Instr? && ParseMnemonic(l.mnemonic).Some? then 1 else 0)
      && next.words[..|st.words|] == st.words
      && next.lineidx == (if st.depth == 0 then st.lineidx + 1 else st.lineidx)
      && next.depth == (if l.Note? then Depth(st.depth, l.marker) else st.depth)
  {
    var idx := if st.depth == 0 then st.lineidx + 1 else st.lineidx;
    if l.Instr? {
      var w := InstrWords(st.words, l.mnemonic, l.operands, syms, st.caddr, idx);
      assert Pass2Line(st, l, syms) == Ok(Pass2State(st.caddr + 1, idx, st.depth, w.value, st.mapping + [idx]));
      InstrWordsGrow(st.words, l.mnemonic, l.operands, syms, st.caddr, idx);
      assert (st.mapping + [idx])[..|st.mapping|] == st.mapping;
    } else if l.Note? {
      assert Pass2Line(st, l, syms) == Ok(st.(lineidx := idx, depth := Depth(st.depth, l.marker)));
    } else {
      assert Pass2Line(st, l, syms) == Ok(st.(lineidx := idx));
    }
  }

  lemma {:induction false} PrefixTrans<T>(a: seq<T>, b: seq<T>, c: seq<T>)
    requires |a| <= |b| <= |c| && b[..|a|] == a && c[..|b|] == b
    ensures c[..|a|] == a
  {
    assert c[..|a|] == c[..|b|][..|a|];
  }

  /** Over a run of lines, pass 2 takes one address and one mapping entry
      per instruction line and one word per known mnemonic, and only
      appends to the words and the mapping. */
  lemma {:induction false} Pass2Counts(st: Pass2State, lines: seq<Line>, syms: map<string, nat>)
    requires Resolved(lines) && Pass2Run(st, lines, syms).Ok?
    ensures var out := Pass2Run(st, lines, syms).value;
      && out.caddr == st.caddr + InstrCount(lines)
      && |out.mapping| == |st.mapping| + InstrCount(lines)
      && out.mapping[..|st.mapping|] == st.mapping
      && |out.words| == |st.words| + KnownCount(lines)
      && out.words[..|st.words|] == st.words
      && out.lineidx >= st.lineidx
    decreases |lines|
  {
    if lines != [] {
      var next := Pass2Line(st, lines[0], syms).value;
      Pass2LineShape(st, lines[0], syms);
      Pass2Counts(next, lines[1..], syms);
      var out := Pass2Run(st, lines, syms).value;
      PrefixTrans(st.mapping, next.mapping, out.mapping);
      PrefixTrans(st.words, next.words, out.words);
    }
  }

  /** `m` never decreases and no entry is above `bound`. */
  predicate SortedBelow(m: seq<nat>, bound: nat)
  {
    && (forall j, k :: 0 <= j < k < |m| ==> m[j] <= m[k])
    && (forall k :: 0 <= k < |m| ==> m[k] <= bound)
  }

  /** The line mapping is nondecreasing: each entry is the current line
      count, which never goes back. */
  lemma {:induction false} Pass2MappingSorted(st: Pass2State, lines: seq<Line>, syms: map<string, nat>)
    requires Resolved(lines) && Pass2Run(st, lines, syms).Ok?
    requires SortedBelow(st.mapping, st.lineidx)
    ensures SortedBelow(Pass2Run(st, lines, syms).value.mapping, Pass2Run(st, lines, syms).value.lineidx)
    decreases |lines|
  {
    if lines != [] {
      var next := Pass2Line(st, lines[0], syms).value;
      Pass2LineShape(st, lines[0], syms);
      if lines[0].Instr? {
        assert next.mapping == st.mapping + [next.lineidx];
      } else {
        assert next.mapping == st.mapping;
      }
      Pass2MappingSorted(next, lines[1..], syms);
    }
  }

  // ----- macro blocks -----

  function Delta(l: Line): int
  {
    if l == Note(Open) then 1 else if l == Note(Close) then -1 else 0
  }

  /** The markers opened minus the markers closed. */
  function Balance(lines: seq<Line>): int
  {
    if lines == [] then 0 else Delta(lines[0]) + Balance(lines[1..])
  }

  /** Lines read while the depth stays above zero leave the line count
      alone, so every instruction among them is mapped to the same line. */
  lemma {:induction false} InsideBlock(st: Pass2State, lines: seq<Line>, syms: map<string, nat>)
    requires Resolved(lines) && Pass2Run(st, lines, syms).Ok?
    requires forall k :: 0 <= k < |lines| ==> st.depth + Balance(lines[..k]) > 0
    ensures Pass2Run(st, lines, syms).value.lineidx == st.lineidx
    ensures forall k :: |st.mapping| <= k < |Pass2Run(st, lines, syms).value.mapping| ==>
              Pass2Run(st, lines, syms).value.mapping[k] == st.lineidx
    decreases |lines|
  {
    if lines != [] {
      var l := lines[0];
      var next := Pass2Line(st, l, syms).value;
      assert lines[..0] == [];
      Pass2LineShape(st, l, syms);
      assert next.depth == st.depth + Delta(l);
      forall k | 0 <= k < |lines[1..]|
        ensures next.depth + Balance(lines[1..][..k]) > 0
      {
        assert lines[..k + 1][0] == l && lines[..k + 1][1..] == lines[1..][..k];
      }
      InsideBlock(next, lines[1..], syms);
      Pass2Counts(next, lines[1..], syms);
      var out := Pass2Run(st, lines, syms).value;
      assert out == Pass2Run(next, lines[1..], syms).value;
      forall k | |st.mapping| <= k < |out.mapping|
        ensures out.mapping[k] == st.lineidx
      {
        if k < |next.mapping| {
          assert out.mapping[k] == out.mapping[..|next.mapping|][k];
        }
      }
    }
  }

  /** A macro block opened at depth zero: every instruction in it, however
      deeply nested, is mapped to the line of the opening marker, and the
      line count is one past where it was. */
  lemma {:induction false} MacroBlockMapping(st: Pass2State, lines: seq<Line>, syms: map<string, nat>)
    requires Resolved(lines) && Pass2Run(st, lines, syms).Ok?
    requires st.depth == 0 && lines != [] && lines[0] == Note(Open)
    requires forall k :: 1 <= k < |lines| ==> Balance(lines[..k]) > 0
    ensures Pass2Run(st, lines, syms).value.lineidx == st.lineidx + 1
    ensures forall k :: |st.mapping| <= k < |Pass2Run(st, lines, syms).value.mapping| ==>
              Pass2Run(st, lines, syms).value.mapping[k] == st.lineidx + 1
  {
    var next := Pass2Line(st, lines[0], syms).value;
    assert next == st.(lineidx := st.lineidx + 1, depth := 1);
    forall k | 0 <= k < |lines[1..]|
      ensures next.depth + Balance(lines[1..][..k]) > 0
    {
      assert lines[..k + 1][0] == lines[0] && lines[..k + 1][1..] == lines[1..][..k];
    }
    InsideBlock(next, lines[1..], syms);
  }

  // ----- label addresses after the symbolic `%SLDI` rewrite -----

  lemma {:induction false} InstrCountAppend(a: seq<Line>, b: seq<Line>)
    ensures InstrCount(a + b) == InstrCount(a) + InstrCount(b)
  {
    if a == [] {
      assert a + b == b;
    } else {
      assert (a + b)[1..] == a[1..] + b;
      InstrCountAppend(a[1..], b);
    }
  }

  lemma {:induction false} ResolveAppend(a: seq<Line>, b: seq<Line>, syms: map<string, nat>)
    ensures ResolveSldi(a + b, syms) == ResolveSldi(a, syms) + ResolveSldi(b, syms)
  {
    if a == [] {
      assert a + b == b;
    } else {
      assert (a + b)[0] == a[0] && (a + b)[1..] == a[1..] + b;
      ResolveAppend(a[1..], b, syms);
    }
  }

  /** The addresses a symbolic `%SLDI` line takes beyond the one pass 1
      counted for it, summed over `lines`. */
  function Extra(lines: seq<Line>, syms: map<string, nat>): int
  {
    if lines == [] then 0
    else (if lines[0].SldiSym? then InstrCount(ResolveLine(lines[0], syms)) - 1 else 0) + Extra(lines[1..], syms)
  }

  /** After the rewrite, the instructions of a stretch of lines are the
      addresses pass 1 counted for it plus what its symbolic `%SLDI` lines
      add. */
  lemma {:induction false} ResolveCount(lines: seq<Line>, syms: map<string, nat>)
    ensures InstrCount(ResolveSldi(lines, syms)) == Addresses(lines) + Extra(lines, syms)
  {
    if lines != [] {
      var head := ResolveLine(lines[0], syms);
      InstrCountAppend(head, ResolveSldi(lines[1..], syms));
      ResolveCount(lines[1..], syms);
      if !lines[0].SldiSym? {
        assert head == [lines[0]];
        assert InstrCount(head) == (if lines[0].Instr? then 1 else 0) by {
          assert head[1..] == [];
        }
      }
    }
  }

  /** The line at `k` of pass 1's output lands at index `j` of the
      rewritten stream, and `j` is the number of rewritten lines in front. */
  lemma {:induction false} ResolvedPosition(lines: seq<Line>, k: nat, syms: map<string, nat>)
    requires k < |lines| && !lines[k].SldiSym?
    ensures |ResolveSldi(lines[..k], syms)| < |ResolveSldi(lines, syms)|
    ensures ResolveSldi(lines, syms)[|ResolveSldi(lines[..k], syms)|] == lines[k]
    ensures ResolveSldi(lines, syms)[..|ResolveSldi(lines[..k], syms)|] == ResolveSldi(lines[..k], syms)
  {
    assert lines == lines[..k] + lines[k..];
    ResolveAppend(lines[..k], lines[k..], syms);
    var tail := lines[k..];
    assert tail[0] == lines[k];
    assert ResolveSldi(tail, syms) == [lines[k]] + ResolveSldi(tail[1..], syms);
  }

  /** A label's table entry, against the address pass 2 gives the
      instruction after it (the number of instructions in front of the label
      in the rewritten stream): the two differ by what the symbolic `%SLDI`
      lines in front of the label add. */
  lemma {:induction false} LabelAddress(out: Pass1Out, k: nat)
    requires LabelsAt(out.lines, out.syms, 0)
    requires k < |out.lines| && out.lines[k].Label?
    ensures var rs := ResolveSldi(out.lines, out.syms);
      var j := |ResolveSldi(out.lines[..k], out.syms)|;
      && j < |rs| && rs[j] == out.lines[k]
      && (LabelKey(out.lines[k].token) != ProtoKey ==>
            InstrCount(rs[..j]) == out.syms[LabelKey(out.lines[k].token)] + Extra(out.lines[..k], out.syms))
  {
    ResolvedPosition(out.lines, k, out.syms);
    ResolveCount(out.lines[..k], out.syms);
  }

  lemma {:induction false} NoSldiSymExtra(lines: seq<Line>, syms: map<string, nat>)
    requires forall i :: 0 <= i < |lines| ==> !lines[i].SldiSym?
    ensures Extra(lines, syms) == 0
  {
    if lines != [] {
      NoSldiSymExtra(lines[1..], syms);
    }
  }

  /** With no symbolic `%SLDI` in front of it, a label's table entry is
      exactly the address of the instruction after it. */
  lemma {:induction false} LabelAddressExact(out: Pass1Out, k: nat)
    requires LabelsAt(out.lines, out.syms, 0)
    requires k < |out.lines| && out.lines[k].Label?
    requires forall i :: 0 <= i < k ==> !out.lines[i].SldiSym?
    ensures var rs := ResolveSldi(out.lines, out.syms);
      var j := |ResolveSldi(out.lines[..k], out.syms)|;
      && j < |rs| && rs[j] == out.lines[k]
      && (LabelKey(out.lines[k].token) != ProtoKey ==> InstrCount(rs[..j]) == out.syms[LabelKey(out.lines[k].token)])
  {
    LabelAddress(out, k);
    NoSldiSymExtra(out.lines[..k], out.syms);
  }

  /** `sldi r1, 8` expands to `ldi r1,4` and one closing `shl r1,r1`. */
  lemma SldiEight()
    ensures SldiLines(Num(8), 1) == [Note(Open), Ldi(1, 4), Shl(1), Note(Close)]
  {
    var g := Groups(8);
    assert g == [0, 0, 0, 0, 4];
    assert g[1..] == [0, 0, 0, 4] && g[1..][1..] == [0, 0, 4];
    assert g[1..][1..][1..] == [0, 4] && g[1..][1..][1..][1..] == [4];
    assert Windows(8) == [4];
    assert GroupsLines([4], 1, 1) == [Ldi(1, 4)] by {
      assert GroupLines([4], 0, 1) == [Ldi(1, 4)];
    }
  }

  /** The source counts a symbolic `%SLDI` as one address, but a label worth
      8 expands to `ldi r1,4` and `shl r1,r1`: every label behind that line
      is entered one address short. */
  lemma {:induction false} SymbolicSldiMiscount()
    ensures Extra([SldiSym(1, "x")], map["x" := 8]) == 1
  {
    var lines := [Note(Open), Ldi(1, 4), Shl(1), Note(Close)];
    SldiEight();
    assert ResolveLine(SldiSym(1, "x"), map["x" := 8]) == lines;
    assert InstrCount(lines) == 2 by {
      assert lines[1..] == [Ldi(1, 4), Shl(1), Note(Close)];
      assert lines[1..][1..] == [Shl(1), Note(Close)];
      assert lines[1..][1..][1..] == [Note(Close)];
      assert lines[1..][1..][1..][1..] == [];
    }
    assert [SldiSym(1, "x")][1..] == [];
  }

  /** `sldi(NaN)` has no groups: its lines are the block around one `shl`,
      and they assemble to that one word. */
  lemma {:induction false} SldiNaN(reg: nat)
    ensures SldiLines(NaN, reg) == [Note(Open), Shl(reg), Note(Close)]
    ensures SldiProof.SldiWords(NaN, reg) == [SldiProof.ShlWord(reg)]
  {
    assert Windows(0) == [] by {
      var g := Groups(0);
      assert g == [0, 0, 0, 0, 0];
      assert g[1..] == [0, 0, 0, 0] && g[1..][1..] == [0, 0, 0];
      assert g[1..][1..][1..] == [0, 0] && g[1..][1..][1..][1..] == [0];
      assert g[1..][1..][1..][1..][1..] == [];
    }
    assert SldiLines(NaN, reg) == [Note(Open)] + [] + [Shl(reg)] + [Note(Close)];
  }

  /** `%SLDI r<reg>,.<name>` with `name` not in the table expands to
      `sldi(NaN)`: no group is emitted and only the closing `shl` remains,
      so the line doubles the register instead of loading an address. */
  lemma {:induction false} SymbolicSldiUndefined(reg: nat, name: string, syms: map<string, nat>, s: MachineState)
    requires reg < 8 && ValidState(s) && name !in syms
    ensures ResolveLine(SldiSym(reg, name), syms) == [Note(Open), Shl(reg), Note(Close)]
    ensures SldiProof.Run(ResolveLine(SldiSym(reg, name), syms), s).Some?
    ensures SldiProof.Loaded(s, SldiProof.Run(ResolveLine(SldiSym(reg, name), syms), s).value, reg, U16(s.r[reg] * 2))
  {
    SldiNaN(reg);
    SldiProof.AsmSldi(NaN, reg);
    SldiProof.RunShl(reg, s);
  }

  /** `%SLDI r<reg>,.<name>` with `name` in the table loads the register with
      the name's address modulo 65536 and changes nothing else (for the
      addresses `sldi` handles; see `SldiProof.SldiLoads`). */
  lemma {:induction false} SymbolicSldiDefined(reg: nat, name: string, syms: map<string, nat>, s: MachineState)
    requires reg < 8 && ValidState(s) && name in syms
    requires syms[name] < WordSize || syms[name] % WordSize >= 2
    ensures ResolveLine(SldiSym(reg, name), syms) == SldiLines(Num(syms[name]), reg)
    ensures SldiProof.Run(ResolveLine(SldiSym(reg, name), syms), s).Some?
    ensures SldiProof.Loaded(s, SldiProof.Run(ResolveLine(SldiSym(reg, name), syms), s).value, reg, syms[name] % WordSize)
  {
    SldiProof.SldiLoads(syms[name], reg, s);
  }

  /** A `.__proto__:` label never enters the plain-object table: pass 1 from
      an empty table never holds the key, so a second `.__proto__:` is no
      duplicate, the operand `.__proto__` is an undefined symbol and
      `%SLDI r<reg>,.__proto__` is `sldi(NaN)`. */
  lemma {:induction false} ProtoNeverEntered(src: seq<Line>, tok: Token, reg: nat, line: int)
    requires Pass1From(src, 0, 0, map[]).Ok? && tok.text == "." + ProtoKey
    ensures var syms := Pass1From(src, 0, 0, map[]).value.syms;
      && ProtoKey !in syms
      && Classify(tok, syms, line) == Err(UndefinedSymbol(line, tok.text))
      && ResolveLine(SldiSym(reg, ProtoKey), syms) == SldiLines(NaN, reg)
  {
    Pass1Labels(src, 0, 0, map[]);
    assert tok.text[1..] == ProtoKey;
  }

  /** Two `.__proto__:` definitions pass pass 1 and enter nothing. */
  lemma {:induction false} ProtoLabelTwice(c: nat, li: int)
    ensures var lines := [Label(".__proto__:"), Label(".__proto__:")];
      Pass1From(lines, c, li, map[]) == Ok(Pass1Out(lines, map[]))
  {
    var t := ".__proto__:";
    assert t == "." + ProtoKey + ":";
    assert IsIdent(ProtoKey) by {
      assert forall i :: 1 <= i < |ProtoKey| ==> IsIdentChar(ProtoKey[i]);
    }
    LabelKeyOfDefinition(ProtoKey);
    assert LabelKey(t) == ProtoKey;
    var lines := [Label(t), Label(t)];
    assert lines[1..] == [Label(t)] && lines[1..][1..] == [] && lines[0] == Label(t);
    assert Enter(map[], ProtoKey, c) == map[];
    assert Pass1From([], c, li + 2, map[]) == Ok(Pass1Out([], map[]));
    assert Pass1From([Label(t)], c, li + 1, map[]) == Ok(Pass1Out([Label(t)] + [], map[]));
    assert [Label(t)] + [] == [Label(t)];
    assert Pass1From(lines, c, li, map[]) == Ok(Pass1Out([Label(t)] + [Label(t)], map[]));
    assert [Label(t)] + [Label(t)] == lines;
  }

  // ----- pass 2 addresses -----

  lemma {:induction false} Pass2RunAppend(st: Pass2State, a: seq<Line>, b: seq<Line>, syms: map<string, nat>)
    requires Resolved(a) && Resolved(b) && Resolved(a + b)
    ensures Pass2Run(st, a + b, syms) ==
              (match Pass2Run(st, a, syms) case Ok(mid) => Pass2Run(mid, b, syms) case Err(e) => Err(e))
    decreases |a|
  {
    if a == [] {
      assert a + b == b;
    } else {
      assert (a + b)[0] == a[0] && (a + b)[1..] == a[1..] + b;
      match Pass2Line(st, a[0], syms)
      case Err(_) =>
      case Ok(next) => Pass2RunAppend(next, a[1..], b, syms);
    }
  }

  /** Pass 2 encodes the instruction at index `j` of the stream with the
      address counter at the number of instructions in front of it. */
  lemma {:induction false} Pass2InstrAddress(lines: seq<Line>, j: nat, syms: map<string, nat>)
    requires Resolved(lines) && Pass2Run(Pass2Init, lines, syms).Ok? && j < |lines|
    ensures Resolved(lines[..j]) && Pass2Run(Pass2Init, lines[..j], syms).Ok?
    ensures Pass2Run(Pass2Init, lines[..j], syms).value.caddr == InstrCount(lines[..j])
  {
    assert lines == lines[..j] + lines[j..];
    Pass2RunAppend(Pass2Init, lines[..j], lines[j..], syms);
    Pass2Counts(Pass2Init, lines[..j], syms);
  }

  // ----- the whole assembler -----

  lemma {:induction false} UpperHexHasNoComment(s: string)
    requires forall i :: 0 <= i < |s| ==> IsUpperHexChar(s[i])
    ensures StripCommentLines(s) == s
  {
    var k := LineLength(s);
    if k < |s| {
      assert false;
    }
    assert s[..k] == s;
  }

  lemma {:induction false} KnownWordsAllKnown(ws: seq<int>)
    requires KnownWords(ws)
    ensures AllKnown(ProgramImage(ws), |ws|)
  {
    var pg := ProgramImage(ws);
    forall i | 0 <= i < |ws|
      ensures OpcodeOf(Decode(pg[i % WordSize]).op).Some?
    {
      assert i % WordSize <= i;
      assert pg[i % WordSize] == ws[i % WordSize];
    }
  }

  /** The hex text `scasm` resolves with holds one word per instruction with
      a known mnemonic, the emulator's loader reads those words back, and
      the disassembler lists them all, one line each; the mapping has one
      entry per instruction but the last. */
  lemma {:induction false} AssembledProgram(src: seq<Directive>)
    requires Assemble(src).Ok?
    ensures var a := Assemble(src).value;
      var p1 := Pass1From(ExpandAll(src), 0, 0, map[]).value;
      var rs := ResolveSldi(p1.lines, p1.syms);
      && |LoadedWords(a.hex)| == KnownCount(rs)
      && HexText(LoadedWords(a.hex)) == a.hex
      && Disasm(a.hex).Ok?
      && Newlines(Disasm(a.hex).value) == 2 + KnownCount(rs)
      && |a.mapping| == (if InstrCount(rs) == 0 then 0 else InstrCount(rs) - 1)
  {
    var p1 := Pass1From(ExpandAll(src), 0, 0, map[]).value;
    Pass1Labels(ExpandAll(src), 0, 0, map[]);
    var rs := ResolveSldi(p1.lines, p1.syms);
    var st := Pass2Run(Pass2Init, rs, p1.syms).value;
    Pass2Words(Pass2Init, rs, p1.syms);
    Pass2Counts(Pass2Init, rs, p1.syms);
    var a := Assemble(src).value;
    assert a.hex == HexText(st.words);
    UpperHexHasNoComment(a.hex);
    ParseHexText(st.words);
    assert LoadedWords(a.hex) == st.words;
    KnownWordsAllKnown(st.words);
    DisasmOneLinePerWord(a.hex);
  }

  // ----- `%PLDI` -----

  /** Lines pass 1 neither counts as labels nor expands come out of it
      unchanged and in front. */
  lemma {:induction false} Pass1Prefix(a: seq<Line>, rest: seq<Line>, c: nat, li: int, syms: map<string, nat>)
    requires forall i :: 0 <= i < |a| ==> Emitted(a[i])
    requires Pass1From(a + rest, c, li, syms).Ok?
    ensures var out := Pass1From(a + rest, c, li, syms).value;
      |a| <= |out.lines| && out.lines[..|a|] == a
  {
    if a != [] {
      assert (a + rest)[0] == a[0] && (a + rest)[1..] == a[1..] + rest;
      var c2 := if a[0].Instr? then c + 1 else c;
      var li2 := if a[0].Instr? then li + 1 else li;
      Pass1Prefix(a[1..], rest, c2, li2, syms);
    }
  }

  /** A `%PLDI` met with the address counter at `c` comes out of pass 1 as
      the lines of `sldi r6, c`, with the line count going back by as many
      lines. */
  lemma {:induction false} PldiSplice(rest: seq<Line>, c: nat, li: int, syms: map<string, nat>)
    requires Pass1From([Pldi] + rest, c, li, syms).Ok?
    ensures var e := SldiLines(Num(c), 6);
      var out := Pass1From([Pldi] + rest, c, li, syms).value;
      && Pass1From(e + rest, c, li - |e|, syms) == Pass1From([Pldi] + rest, c, li, syms)
      && |e| <= |out.lines| && out.lines[..|e|] == e
  {
    var e := SldiLines(Num(c), 6);
    assert ([Pldi] + rest)[0] == Pldi && ([Pldi] + rest)[1..] == rest;
    assert Pass1From(e + rest, c, li - |e|, syms) == Pass1From([Pldi] + rest, c, li, syms);
    SldiEmitted(Num(c), 6);
    Pass1Prefix(e, rest, c, li - |e|, syms);
  }

  /** The value a `%PLDI` at address `c` loads is `c` (taken to sixteen
      bits), the address of the first instruction of its own expansion, not
      of the code after it: running the expansion leaves `r6` holding that
      value and every other register as it was. Addresses of 65536 and
      above whose low sixteen bits are 0 or 1 are excluded, as for `sldi`. */
  lemma {:induction false} PldiLoadsOwnAddress(rest: seq<Line>, c: nat, li: int, syms: map<string, nat>, s: MachineState)
    requires Pass1From([Pldi] + rest, c, li, syms).Ok?
    requires (c < WordSize || c % WordSize >= 2) && ValidState(s)
    ensures var out := Pass1From([Pldi] + rest, c, li, syms).value;
      |SldiLines(Num(c), 6)| <= |out.lines| && out.lines[..|SldiLines(Num(c), 6)|] == SldiLines(Num(c), 6)
    ensures SldiProof.Run(SldiLines(Num(c), 6), s).Some?
    ensures SldiProof.Loaded(s, SldiProof.Run(SldiLines(Num(c), 6), s).value, 6, c % WordSize)
  {
    PldiSplice(rest, c, li, syms);
    SldiProof.SldiLoads(c, 6, s);
  }
}
