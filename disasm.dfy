/** `scdisasm`: run the machine with branching off over a hex listing and
    write one lower-case mnemonic line per executed word. */
module Disassembler {
  import opened Common
  import opened Isa
  import opened Hex
  import opened Machine

  const Banner: string := "// Disassembled with SCDisasm"
  const Link: string := "// github.com/nununoisy/scasm"
  /** The two comment lines every listing starts with. */
  const Header: string := Banner + "\n" + Link + "\n"

  predicate NoNewline(s: string)
  {
    forall i :: 0 <= i < |s| ==> s[i] != '\n'
  }

  /** The line printed after a step: `_instr` padded to four characters and
      lower-cased, a space, the comma-joined `_args` and a line break. */
  function LineText(instr: string, args: seq<string>): (line: string)
    ensures |line| == |PadEnd(instr, 4)| + |Join(args, ",")| + 2 && line[|line| - 1] == '\n'
    ensures line[..|instr|] == ToLower(instr)
    ensures forall i :: |instr| <= i <= |PadEnd(instr, 4)| ==> line[i] == ' '
    ensures line[|PadEnd(instr, 4)| + 1..|line| - 1] == Join(args, ",")
  {
    ToLower(PadEnd(instr, 4)) + " " + Join(args, ",") + "\n"
  }

  /** The text of the listing lines, one after another. */
  function Concat(lines: seq<string>): string
  {
    if lines == [] then "" else Concat(lines[..|lines| - 1]) + lines[|lines| - 1]
  }

  /** Whether every word at addresses `0..n-1` of the program memory has an
      opcode the machine knows. */
  predicate AllKnown(pg: seq<int>, n: nat)
    requires ValidProgram(pg)
  {
    forall i :: 0 <= i < n ==> OpcodeOf(Decode(pg[i % WordSize]).op).Some?
  }

  /** The listing lines for addresses `0..n-1`, or the first unknown opcode
      (where the source ends the process). */
  function Listing(pg: seq<int>, n: nat): (res: Result<seq<string>, int>)
    requires ValidProgram(pg)
    ensures res.Ok? ==> |res.value| == n
    ensures res.Ok? ==> forall i :: 0 <= i < n ==> OneLine(res.value[i])
    ensures res.Err? ==> OpcodeOf(res.error).None?
  {
    if n == 0 then Ok([])
    else
      match Listing(pg, n - 1)
      case Err(op) => Err(op)
      case Ok(init) =>
        var f := Decode(pg[(n - 1) % WordSize]);
        match OpcodeOf(f.op)
        case None => Err(f.op)
        case Some(o) =>
          LineTextOneLine(o, f);
          Ok(init + [LineText(Name(o), Operands(o, f))])
  }

  /** A line of text ending in its only line break. */
  predicate OneLine(s: string)
  {
    |s| >= 1 && s[|s| - 1] == '\n' && NoNewline(s[..|s| - 1])
  }

  lemma {:induction false} DigitsNoNewline(s: string)
    requires forall i :: 0 <= i < |s| ==> IsDigit(s[i])
    ensures NoNewline(s)
  {
  }

  lemma {:induction false} JoinNoNewline(parts: seq<string>, sep: string)
    requires NoNewline(sep) && forall i :: 0 <= i < |parts| ==> NoNewline(parts[i])
    ensures NoNewline(Join(parts, sep))
  {
    if |parts| > 1 {
      JoinNoNewline(parts[..|parts| - 1], sep);
    }
  }

  lemma {:induction false} OperandsNoNewline(o: Opcode, f: Fields)
    requires ValidFields(f)
    ensures forall i :: 0 <= i < |Operands(o, f)| ==> NoNewline(Operands(o, f)[i])
  {
    DigitsNoNewline(NatDigits(f.da));
    DigitsNoNewline(NatDigits(f.aa));
    DigitsNoNewline(NatDigits(f.ba));
    var off := BranchOffset(f.da, f.ba);
    DigitsNoNewline(NatDigits(if off < 0 then -off else off));
  }

  lemma {:induction false} LineTextOneLine(o: Opcode, f: Fields)
    requires ValidFields(f)
    ensures OneLine(LineText(Name(o), Operands(o, f)))
  {
    OperandsNoNewline(o, f);
    JoinNoNewline(Operands(o, f), ",");
    var name := PadEnd(Name(o), 4);
    NameNoNewline(o);
    assert NoNewline(name);
    var text := LineText(Name(o), Operands(o, f));
    assert text[..|text| - 1] == ToLower(name) + " " + Join(Operands(o, f), ",");
  }

  lemma {:induction false} NameNoNewline(o: Opcode)
    ensures NoNewline(Name(o))
  {
    match o
    case MOVA =>
    case INC =>
    case ADD =>
    case SUB =>
    case DEC =>
    case AND =>
    case OR =>
    case XOR =>
    case NOT =>
    case MOVB =>
    case SHR =>
    case SHL =>
    case LDI =>
    case ADI =>
    case LD =>
    case ST =>
    case BRZ =>
    case BRN =>
    case JMP =>
  }

  /** The program words the disassembler loads: comment lines removed, then
      every run of four hex digits. */
  function LoadedWords(hex: string): (ws: seq<int>)
    ensures forall i :: 0 <= i < |ws| ==> IsWord(ws[i])
  {
    ParseProgram(StripCommentLines(hex))
  }

  /** What `scdisasm` returns for a hex listing, or the unknown opcode at which
      it stops the process. */
  function Disasm(hex: string): (r: Result<string, int>)
    ensures r.Err? ==> OpcodeOf(r.error).None?
    ensures r.Ok? ==> |r.value| >= |Header| && r.value[..|Header|] == Header
  {
    var ws := LoadedWords(hex);
    var lines :- Listing(ProgramImage(ws), |ws|);
    Ok(Header + Concat(lines))
  }

  /** `scdisasm`: a fresh machine over the comment-free text, no data memory and
      branching off, stepped until it reports the end of the program. */
  method Disassemble(hex: string) returns (res: Result<string, int>)
    ensures res == Disasm(hex)
  {
    var text := StripCommentLines(hex);
    var data := new int[0];
    var sc := new SimpleComputer(text, data, true);
    ghost var ws := ParseProgram(text);
    ghost var pg := ProgramImage(ws);
    var result := Header;
    ghost var lines: seq<string> := [];
    var cont := true;
    while cont
      invariant sc.Valid() && sc.noBranching && sc.dtMem == data && fresh(sc.r) && fresh(sc.pgMem)
      invariant sc.pgMem[..] == pg && sc.pgLength == |ws| && sc.pc <= |ws|
      invariant Listing(pg, sc.pc) == Ok(lines) && result == Header + Concat(lines)
      invariant !cont ==> sc.pc == |ws|
      decreases |ws| - sc.pc, cont
    {
      var status;
      status, result, lines := PrintStep(sc, pg, lines, result);
      match status {
        case Fault(op) =>
          return Err(op);
        case Halt =>
          cont := false;
        case Continue =>
      }
    }
    res := Ok(result);
  }

  /** One turn of the `scdisasm` loop: step the machine and, when it continues,
      append the line describing the instruction it executed. */
  method PrintStep(sc: SimpleComputer, ghost pg: seq<int>, ghost lines: seq<string>, result: string)
    returns (status: Status, result': string, ghost lines': seq<string>)
    requires sc.Valid() && sc.noBranching && sc.pgMem[..] == pg && sc.pc <= sc.pgLength
    requires Listing(pg, sc.pc) == Ok(lines) && result == Header + Concat(lines)
    modifies sc`ir, sc`op, sc`da, sc`aa, sc`ba, sc`instr, sc`args, sc`pc, sc`flags, sc.r, sc.dtMem
    ensures sc.Valid() && sc.pc <= sc.pgLength && sc.pgMem[..] == pg
    ensures sc.r == old(sc.r) && sc.pgMem == old(sc.pgMem) && sc.dtMem == old(sc.dtMem)
    ensures status.Fault? ==> Listing(pg, sc.pgLength) == Err(status.opcode)
    ensures status == Halt ==> sc.pc == old(sc.pc) == sc.pgLength && result' == result && lines' == lines
    ensures status == Continue ==> sc.pc == old(sc.pc) + 1
    ensures status == Continue ==> Listing(pg, sc.pc) == Ok(lines') && result' == Header + Concat(lines')
  {
    var pc0 := sc.pc;
    ghost var s0 := sc.State();
    status := sc.Step();
    ghost var res := StepSpec(s0, pg, sc.pgLength, true);
    assert res.status == status && res.s.pc == sc.pc;
    result', lines' := result, lines;
    match status {
      case Fault(op) =>
        ListingFault(pg, pc0, sc.pgLength, lines, op);
      case Halt =>
        assert pc0 >= sc.pgLength;
      case Continue =>
        var line := LineText(sc.instr, sc.args);
        ListingNext(pg, pc0, lines, sc.op, sc.da, sc.aa, sc.ba, sc.instr, sc.args);
        TextNext(result, lines, line);
        result' := result + line;
        lines' := lines + [line];
    }
  }

  /** A step over a known opcode adds the line describing it. */
  lemma {:induction false} ListingNext(pg: seq<int>, k: nat, lines: seq<string>, op: int, da: int, aa: int, ba: int,
                                       instr: string, args: seq<string>)
    requires ValidProgram(pg) && Listing(pg, k) == Ok(lines)
    requires Decode(pg[k % WordSize]) == Fields(op, da, aa, ba) && OpcodeOf(op).Some?
    requires instr == Name(OpcodeOf(op).value) && args == Operands(OpcodeOf(op).value, Fields(op, da, aa, ba))
    ensures Listing(pg, k + 1) == Ok(lines + [LineText(instr, args)])
  {
  }

  lemma {:induction false} TextNext(result: string, lines: seq<string>, line: string)
    requires result == Header + Concat(lines)
    ensures result + line == Header + Concat(lines + [line])
  {
    ConcatAppend(lines, line);
    AppendAssoc(Header, Concat(lines), line);
  }

  /** A step that meets an unknown opcode at address `k` fails the whole listing. */
  lemma {:induction false} ListingFault(pg: seq<int>, k: nat, n: nat, lines: seq<string>, op: int)
    requires ValidProgram(pg) && k < n && Listing(pg, k) == Ok(lines)
    requires Decode(pg[k % WordSize]).op == op && OpcodeOf(op).None?
    ensures Listing(pg, n) == Err(op)
  {
    assert Listing(pg, k + 1) == Err(op);
    ListingErrStays(pg, k + 1, n);
  }

  lemma {:induction false} ConcatAppend(lines: seq<string>, line: string)
    ensures Concat(lines + [line]) == Concat(lines) + line
  {
    assert (lines + [line])[..|lines|] == lines;
  }

  /** Once an address has an unknown opcode, the whole listing fails with it. */
  lemma {:induction false} ListingErrStays(pg: seq<int>, k: nat, n: nat)
    requires ValidProgram(pg) && k <= n && Listing(pg, k).Err?
    ensures Listing(pg, n) == Listing(pg, k)
    decreases n - k
  {
    if k < n {
      ListingErrStays(pg, k, n - 1);
      assert Listing(pg, n - 1).Err?;
    }
  }

  /** Counting line breaks. */
  function Newlines(s: string): (k: nat)
    ensures k <= |s|
  {
    if s == [] then 0 else Newlines(s[..|s| - 1]) + (if s[|s| - 1] == '\n' then 1 else 0)
  }

  lemma {:induction false} NewlinesAppend(a: string, b: string)
    ensures Newlines(a + b) == Newlines(a) + Newlines(b)
    decreases |b|
  {
    if b != [] {
      assert (a + b)[..|a + b| - 1] == a + b[..|b| - 1];
      NewlinesAppend(a, b[..|b| - 1]);
    } else {
      assert a + b == a;
    }
  }

  lemma {:induction false} NoNewlineCount(s: string)
    requires NoNewline(s)
    ensures Newlines(s) == 0
  {
    if s != [] {
      NoNewlineCount(s[..|s| - 1]);
    }
  }

  lemma {:induction false} ConcatNewlines(lines: seq<string>)
    requires forall i :: 0 <= i < |lines| ==> OneLine(lines[i])
    ensures Newlines(Concat(lines)) == |lines|
  {
    if lines != [] {
      var last := lines[|lines| - 1];
      ConcatNewlines(lines[..|lines| - 1]);
      NewlinesAppend(Concat(lines[..|lines| - 1]), last);
      NoNewlineCount(last[..|last| - 1]);
      assert last == last[..|last| - 1] + [last[|last| - 1]];
      NewlinesAppend(last[..|last| - 1], [last[|last| - 1]]);
    }
  }

  /** The listing succeeds exactly when every address below `n` holds a known opcode. */
  lemma {:induction false} ListingOkIff(pg: seq<int>, n: nat)
    requires ValidProgram(pg)
    ensures Listing(pg, n).Ok? <==> AllKnown(pg, n)
  {
    if n > 0 {
      ListingOkIff(pg, n - 1);
      var last := OpcodeOf(Decode(pg[(n - 1) % WordSize]).op).Some?;
      assert AllKnown(pg, n) <==> AllKnown(pg, n - 1) && last;
    }
  }

  /** The header holds two line breaks and each listing line one more. */
  lemma {:induction false} ListingNewlines(lines: seq<string>)
    requires forall i :: 0 <= i < |lines| ==> OneLine(lines[i])
    ensures Newlines(Header + Concat(lines)) == 2 + |lines|
  {
    ConcatNewlines(lines);
    NewlinesAppend(Header, Concat(lines));
    HeaderNewlines();
  }

  lemma {:induction false} HeaderNewlines()
    ensures Newlines(Header) == 2
  {
    NoNewlineCount(Banner);
    NoNewlineCount(Link);
    NewlinesAppend(Banner, "\n");
    NewlinesAppend(Banner + "\n", Link);
    NewlinesAppend(Banner + "\n" + Link, "\n");
  }

  /** The disassembler succeeds exactly when every loaded word has a known
      opcode, and then prints the two header lines and exactly one line per word. */
  lemma {:induction false} DisasmOneLinePerWord(hex: string)
    ensures Disasm(hex).Ok? <==> AllKnown(ProgramImage(LoadedWords(hex)), |LoadedWords(hex)|)
    ensures Disasm(hex).Ok? ==> Newlines(Disasm(hex).value) == 2 + |LoadedWords(hex)|
  {
    var ws := LoadedWords(hex);
    var pg := ProgramImage(ws);
    ListingOkIff(pg, |ws|);
    var l := Listing(pg, |ws|);
    if l.Ok? {
      ListingNewlines(l.value);
    }
  }
}
