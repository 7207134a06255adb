/** `scasm`, the two-pass assembler, over the source after pass 0: pass 1
    assigns addresses to labels and splices the `%PLDI` placeholder, the
    symbolic `%SLDI` lines are then expanded with the finished symbol table,
    and pass 2 classifies operands, encodes each instruction and records the
    source line of each one. */
module Assembler {
  import opened Common
  import opened Isa
  import opened Hex
  import opened AsmSyntax
  import opened Macros

  // ----- label names -----

  predicate IsIdentStart(c: char) { 'A' <= c <= 'Z' || 'a' <= c <= 'z' || c == '_' }

  predicate IsIdentChar(c: char) { IsIdentStart(c) || '0' <= c <= '9' }

  /** `[A-Za-z_][A-Za-z0-9_]*`. */
  predicate IsIdent(s: string)
  {
    |s| > 0 && IsIdentStart(s[0]) && forall i :: 1 <= i < |s| ==> IsIdentChar(s[i])
  }

  /** The symbol-table key of a label token: the name of `.name:`, and the
      token itself when it does not have that form (the `replace` leaves it
      unchanged, so the key is never empty and the invalid-label rejection
      cannot happen). */
  function LabelKey(tok: string): (key: string)
    ensures key == tok || (tok == "." + key + ":" && IsIdent(key))
    ensures tok != "" ==> key != ""
  {
    if |tok| >= 3 && tok[0] == '.' && tok[|tok| - 1] == ':' && IsIdent(tok[1..|tok| - 1]) then
      assert tok == "." + tok[1..|tok| - 1] + ":";
      tok[1..|tok| - 1]
    else tok
  }

  /** A label written `.name:` is entered under `name`. */
  lemma {:induction false} LabelKeyOfDefinition(name: string)
    requires IsIdent(name)
    ensures LabelKey("." + name + ":") == name
  {
    var tok := "." + name + ":";
    assert tok[1..|tok| - 1] == name;
  }

  /** The one key a plain JavaScript object never holds as an own entry:
      `table["__proto__"] = n` reaches the inherited prototype setter, which
      ignores a number, so the key stays out of `Object.keys(table)`. */
  const ProtoKey: string := "__proto__"

  /** `symboltable[key] = c` on the plain-object table. */
  function Enter(syms: map<string, nat>, key: string, c: nat): (t: map<string, nat>)
    ensures key != ProtoKey ==> t == syms[key := c]
    ensures key == ProtoKey ==> t == syms
    ensures t.Keys == EnteredKeys(syms.Keys, key)
  {
    if key == ProtoKey then syms else syms[key := c]
  }

  /** The keys after a label with key `key` is entered. */
  function EnteredKeys(used: set<string>, key: string): set<string>
  {
    if key == ProtoKey then used else used + {key}
  }

  // ----- pass 1 -----

  /** The lines `sldi` emits: instructions and marker lines only. */
  predicate Emitted(l: Line) { l.Instr? || l.Note? }

  lemma {:induction false} GroupsEmitted(ts: seq<nat>, j: nat, r: nat)
    requires j <= |ts|
    ensures forall i :: 0 <= i < |GroupsLines(ts, j, r)| ==> Emitted(GroupsLines(ts, j, r)[i])
  {
    if j > 0 {
      GroupsEmitted(ts, j - 1, r);
    }
  }

  lemma {:induction false} SldiEmitted(n: Num, r: nat)
    ensures forall i :: 0 <= i < |SldiLines(n, r)| ==> Emitted(SldiLines(n, r)[i])
  {
    var ts := Windows(Bits(n));
    GroupsEmitted(ts, |ts|, r);
  }

  function PldiCount(lines: seq<Line>): nat
  {
    if lines == [] then 0 else (if lines[0].Pldi? then 1 else 0) + PldiCount(lines[1..])
  }

  lemma {:induction false} PldiCountAppend(a: seq<Line>, b: seq<Line>)
    ensures PldiCount(a + b) == PldiCount(a) + PldiCount(b)
  {
    if a == [] {
      assert a + b == b;
    } else {
      assert (a + b)[1..] == a[1..] + b;
      PldiCountAppend(a[1..], b);
    }
  }

  lemma {:induction false} EmittedNoPldi(a: seq<Line>)
    requires forall i :: 0 <= i < |a| ==> Emitted(a[i])
    ensures PldiCount(a) == 0
  {
    if a != [] {
      EmittedNoPldi(a[1..]);
    }
  }

  /** The `%PLDI` expansion holds no `%PLDI`, so the splice terminates. */
  lemma {:induction false} SplicePldiCount(caddr: nat, rest: seq<Line>)
    ensures PldiCount(SldiLines(Num(caddr), 6) + rest) == PldiCount(rest)
  {
    SldiEmitted(Num(caddr), 6);
    EmittedNoPldi(SldiLines(Num(caddr), 6));
    PldiCountAppend(SldiLines(Num(caddr), 6), rest);
  }

  /** The line stream after pass 1 and the symbol table it built. */
  datatype Pass1Out = Pass1Out(lines: seq<Line>, syms: map<string, nat>)

  /** Lines already passed, in front of what the rest of pass 1 produces. */
  function Prepend(done: seq<Line>, r: Result<Pass1Out, AsmError>): Result<Pass1Out, AsmError>
  {
    match r
    case Ok(out) => Ok(Pass1Out(done + out.lines, out.syms))
    case Err(e) => Err(e)
  }

  /** Pass 1 from the current address `caddr` and line count `lineidx`: a
      `%PLDI` is replaced by `sldi(caddr, 'r6')` (the counter then goes back by
      the number of spliced lines, and the splice is scanned next); a label
      enters the current address under its key, a second definition of a key
      is rejected with the count of lines so far plus one (`__proto__`
      never enters, see `Enter`); blank and comment
      lines count nothing; any other line takes one address. */
  function Pass1From(lines: seq<Line>, caddr: nat, lineidx: int, syms: map<string, nat>): (r: Result<Pass1Out, AsmError>)
    ensures r.Err? ==> r.error.DuplicateSymbol?
    decreases PldiCount(lines), |lines|
  {
    if lines == [] then Ok(Pass1Out([], syms))
    else
      var l, rest := lines[0], lines[1..];
      match l
      case Pldi =>
        var pcli := SldiLines(Num(caddr), 6);
        SplicePldiCount(caddr, rest);
        Pass1From(pcli + rest, caddr, lineidx - |pcli|, syms)
      case Label(tok) =>
        var key := LabelKey(tok);
        if key in syms then Err(DuplicateSymbol(lineidx + 1, key))
        else Prepend([l], Pass1From(rest, caddr, lineidx + 1, Enter(syms, key, caddr)))
      case Blank => Prepend([l], Pass1From(rest, caddr, lineidx, syms))
      case Note(_) => Prepend([l], Pass1From(rest, caddr, lineidx, syms))
      case SldiSym(_, _) => Prepend([l], Pass1From(rest, caddr + 1, lineidx + 1, syms))
      case Instr(_, _) => Prepend([l], Pass1From(rest, caddr + 1, lineidx + 1, syms))
  }

  lemma {:induction false} PrependEmpty(r: Result<Pass1Out, AsmError>)
    ensures Prepend([], r) == r
  {
    if r.Ok? {
      assert [] + r.value.lines == r.value.lines;
    }
  }

  /** One line other than `%PLDI` moves from the rest of the scan to the
      lines passed, with the counters and table pass 1 has after it. */
  lemma {:induction false} PassLine(lines: seq<Line>, i: nat, c: nat, li: int, syms: map<string, nat>,
                                    c2: nat, li2: int, syms2: map<string, nat>)
    requires i < |lines| && !lines[i].Pldi?
    requires lines[i].Label? ==> LabelKey(lines[i].token) !in syms && syms2 == Enter(syms, LabelKey(lines[i].token), c) && c2 == c && li2 == li + 1
    requires lines[i].Blank? || lines[i].Note? ==> c2 == c && li2 == li && syms2 == syms
    requires lines[i].Instr? || lines[i].SldiSym? ==> c2 == c + 1 && li2 == li + 1 && syms2 == syms
    ensures Prepend(lines[..i], Pass1From(lines[i..], c, li, syms)) == Prepend(lines[..i + 1], Pass1From(lines[i + 1..], c2, li2, syms2))
  {
    var r := Pass1From(lines[i + 1..], c2, li2, syms2);
    assert lines[i..][0] == lines[i] && lines[i..][1..] == lines[i + 1..];
    assert Pass1From(lines[i..], c, li, syms) == Prepend([lines[i]], r);
    assert lines[..i + 1] == lines[..i] + [lines[i]];
    if r.Ok? {
      assert lines[..i] + ([lines[i]] + r.value.lines) == lines[..i + 1] + r.value.lines;
    }
  }

  /** The `%PLDI` at `i` replaced by its expansion, which is scanned next. */
  lemma {:induction false} SpliceLine(lines: seq<Line>, i: nat, c: nat, li: int, syms: map<string, nat>)
    requires i < |lines| && lines[i].Pldi?
    ensures var spliced := lines[..i] + SldiLines(Num(c), 6) + lines[i + 1..];
      && spliced[..i] == lines[..i]
      && Pass1From(lines[i..], c, li, syms) == Pass1From(spliced[i..], c, li - |SldiLines(Num(c), 6)|, syms)
      && PldiCount(spliced[i..]) < PldiCount(lines[i..])
  {
    var pcli := SldiLines(Num(c), 6);
    var rest := lines[i + 1..];
    var spliced := lines[..i] + pcli + rest;
    assert lines[i..] == [Pldi] + rest;
    assert ([Pldi] + rest)[0] == Pldi && ([Pldi] + rest)[1..] == rest;
    assert spliced[..i] == lines[..i];
    assert spliced[i..] == pcli + rest;
    SplicePldiCount(c, rest);
  }

  /** Pass 1 as the source runs it: a scan over `lines` that splices the
      `%PLDI` expansion into `lines` in place and rescans from the splice; a
      rejection is remembered and the scan goes on. */
  method Pass1(src: seq<Line>) returns (r: Result<Pass1Out, AsmError>)
    ensures r == Pass1From(src, 0, 0, map[])
  {
    var lines := src;
    var i := 0;
    var caddr: nat := 0;
    var lineidx: int := 0;
    var syms: map<string, nat> := map[];
    var err: Option<AsmError> := None;
    PrependEmpty(Pass1From(src, 0, 0, map[]));
    assert lines[..0] == [] && lines[0..] == src;
    while i < |lines|
      invariant 0 <= i <= |lines|
      invariant err.None? ==> Pass1From(src, 0, 0, map[]) == Prepend(lines[..i], Pass1From(lines[i..], caddr, lineidx, syms))
      invariant err.Some? ==> Pass1From(src, 0, 0, map[]) == Err(err.value)
      decreases PldiCount(lines[i..]), |lines| - i
    {
      var line := lines[i];
      match line
      case Pldi =>
        SpliceLine(lines, i, caddr, lineidx, syms);
        var pcli := Sldi(Num(caddr), 6);
        lines := lines[..i] + pcli + lines[i + 1..];
        lineidx := lineidx - |pcli|;
      case Label(tok) =>
        var key := LabelKey(tok);
        if key in syms {
          if err.None? {
            assert lines[i..][0] == line;
            err := Some(DuplicateSymbol(lineidx + 1, key));
          }
        } else {
          PassLine(lines, i, caddr, lineidx, syms, caddr, lineidx + 1, Enter(syms, key, caddr));
        }
        syms := Enter(syms, key, caddr);
        lineidx := lineidx + 1;
        i := i + 1;
      case Blank =>
        PassLine(lines, i, caddr, lineidx, syms, caddr, lineidx, syms);
        i := i + 1;
      case Note(_) =>
        PassLine(lines, i, caddr, lineidx, syms, caddr, lineidx, syms);
        i := i + 1;
      case SldiSym(_, _) =>
        PassLine(lines, i, caddr, lineidx, syms, caddr + 1, lineidx + 1, syms);
        caddr := caddr + 1;
        lineidx := lineidx + 1;
        i := i + 1;
      case Instr(_, _) =>
        PassLine(lines, i, caddr, lineidx, syms, caddr + 1, lineidx + 1, syms);
        caddr := caddr + 1;
        lineidx := lineidx + 1;
        i := i + 1;
    }
    if err.Some? {
      return Err(err.value);
    }
    assert lines[..i] + [] == lines;
    return Ok(Pass1Out(lines, syms));
  }

  // ----- what pass 1 computes -----

  /** Whether pass 1 gives the line an address. */
  predicate TakesAddress(l: Line) { l.Instr? || l.SldiSym? }

  /** The number of lines pass 1 gives an address to. */
  function Addresses(lines: seq<Line>): nat
  {
    if lines == [] then 0 else (if TakesAddress(lines[0]) then 1 else 0) + Addresses(lines[1..])
  }

  /** Every label of `lines` other than `__proto__` is in `syms` with the
      address `c` plus the number of address-taking lines in front of it. */
  predicate LabelsAt(lines: seq<Line>, syms: map<string, nat>, c: nat)
  {
    forall k :: 0 <= k < |lines| && lines[k].Label? && LabelKey(lines[k].token) != ProtoKey ==>
      LabelKey(lines[k].token) in syms && syms[LabelKey(lines[k].token)] == c + Addresses(lines[..k])
  }

  /** `big` keeps every entry of `small`. */
  predicate Extends(big: map<string, nat>, small: map<string, nat>)
  {
    forall key :: key in small ==> key in big && big[key] == small[key]
  }

  lemma {:induction false} LabelsCons(l: Line, xs: seq<Line>, syms: map<string, nat>, c: nat, c2: nat)
    requires LabelsAt(xs, syms, c2)
    requires c2 == c + (if TakesAddress(l) then 1 else 0)
    requires l.Label? && LabelKey(l.token) != ProtoKey ==> LabelKey(l.token) in syms && syms[LabelKey(l.token)] == c
    ensures LabelsAt([l] + xs, syms, c)
  {
    var ys := [l] + xs;
    forall k | 0 <= k < |ys| && ys[k].Label? && LabelKey(ys[k].token) != ProtoKey
      ensures LabelKey(ys[k].token) in syms && syms[LabelKey(ys[k].token)] == c + Addresses(ys[..k])
    {
      if k == 0 {
        assert ys[..k] == [];
      } else {
        assert ys[k] == xs[k - 1];
        assert ys[..k] == [l] + xs[..k - 1];
        assert ([l] + xs[..k - 1])[1..] == xs[..k - 1];
      }
    }
  }

  lemma {:induction false} PldiCountCons(l: Line, xs: seq<Line>)
    ensures PldiCount([l] + xs) == (if l.Pldi? then 1 else 0) + PldiCount(xs)
  {
    assert ([l] + xs)[1..] == xs;
  }

  /** Pass 1 enters every label at the address of the instruction that
      follows it, counting each spliced `%PLDI` line once and each `%SLDI`
      line with a label operand as one address, keeps the entries it was
      given, and leaves no `%PLDI` behind. */
  lemma {:induction false} Pass1Labels(lines: seq<Line>, c: nat, li: int, syms: map<string, nat>)
    requires Pass1From(lines, c, li, syms).Ok?
    ensures LabelsAt(Pass1From(lines, c, li, syms).value.lines, Pass1From(lines, c, li, syms).value.syms, c)
    ensures Extends(Pass1From(lines, c, li, syms).value.syms, syms)
    ensures ProtoKey !in syms ==> ProtoKey !in Pass1From(lines, c, li, syms).value.syms
    ensures PldiCount(Pass1From(lines, c, li, syms).value.lines) == 0
    decreases PldiCount(lines), |lines|
  {
    if lines == [] {
      assert Pass1From(lines, c, li, syms).value.lines == [];
    } else {
      var l, rest := lines[0], lines[1..];
      match l
      case Pldi =>
        var pcli := SldiLines(Num(c), 6);
        SplicePldiCount(c, rest);
        Pass1Labels(pcli + rest, c, li - |pcli|, syms);
      case Label(tok) =>
        var key := LabelKey(tok);
        var out := Pass1From(rest, c, li + 1, Enter(syms, key, c)).value;
        Pass1Labels(rest, c, li + 1, Enter(syms, key, c));
        LabelsCons(l, out.lines, out.syms, c, c);
        PldiCountCons(l, out.lines);
      case Blank =>
        var out := Pass1From(rest, c, li, syms).value;
        Pass1Labels(rest, c, li, syms);
        LabelsCons(l, out.lines, out.syms, c, c);
        PldiCountCons(l, out.lines);
      case Note(_) =>
        var out := Pass1From(rest, c, li, syms).value;
        Pass1Labels(rest, c, li, syms);
        LabelsCons(l, out.lines, out.syms, c, c);
        PldiCountCons(l, out.lines);
      case SldiSym(_, _) =>
        var out := Pass1From(rest, c + 1, li + 1, syms).value;
        Pass1Labels(rest, c + 1, li + 1, syms);
        LabelsCons(l, out.lines, out.syms, c, c + 1);
        PldiCountCons(l, out.lines);
      case Instr(_, _) =>
        var out := Pass1From(rest, c + 1, li + 1, syms).value;
        Pass1Labels(rest, c + 1, li + 1, syms);
        LabelsCons(l, out.lines, out.syms, c, c + 1);
        PldiCountCons(l, out.lines);
    }
  }

  /** No label of `lines` has a key in `used` and no two labels of `lines`
      share a key other than `__proto__`, which is never entered. */
  predicate FreshLabels(lines: seq<Line>, used: set<string>)
  {
    && (forall k :: 0 <= k < |lines| && lines[k].Label? ==> LabelKey(lines[k].token) !in used)
    && (forall j, k :: 0 <= j < k < |lines| && lines[j].Label? && lines[k].Label? ==>
          LabelKey(lines[j].token) != LabelKey(lines[k].token) || LabelKey(lines[j].token) == ProtoKey)
  }

  /** The same condition checked label by label from the front, as pass 1
      meets the labels. */
  predicate FreshFrom(lines: seq<Line>, used: set<string>)
    decreases |lines|
  {
    if lines == [] then true
    else if lines[0].Label? then
      LabelKey(lines[0].token) !in used && FreshFrom(lines[1..], EnteredKeys(used, LabelKey(lines[0].token)))
    else FreshFrom(lines[1..], used)
  }

  lemma {:induction false} FreshNoLabelFront(a: seq<Line>, b: seq<Line>, used: set<string>)
    requires forall i :: 0 <= i < |a| ==> !a[i].Label?
    ensures FreshLabels(a + b, used) <==> FreshLabels(b, used)
  {
    var ab := a + b;
    assert forall k :: 0 <= k < |b| ==> ab[|a| + k] == b[k];
    if FreshLabels(b, used) {
      forall j, k | 0 <= j < k < |ab| && ab[j].Label? && ab[k].Label?
        ensures LabelKey(ab[j].token) != LabelKey(ab[k].token) || LabelKey(ab[j].token) == ProtoKey
      {
        assert ab[j] == b[j - |a|] && ab[k] == b[k - |a|];
      }
      forall k | 0 <= k < |ab| && ab[k].Label?
        ensures LabelKey(ab[k].token) !in used
      {
        assert ab[k] == b[k - |a|];
      }
    }
    if FreshLabels(ab, used) {
      forall j, k | 0 <= j < k < |b| && b[j].Label? && b[k].Label?
        ensures LabelKey(b[j].token) != LabelKey(b[k].token) || LabelKey(b[j].token) == ProtoKey
      {
        assert ab[|a| + j] == b[j] && ab[|a| + k] == b[k];
      }
      forall k | 0 <= k < |b| && b[k].Label?
        ensures LabelKey(b[k].token) !in used
      {
        assert ab[|a| + k] == b[k];
      }
    }
  }

  lemma {:induction false} FreshLabelCons(lines: seq<Line>, used: set<string>)
    requires lines != [] && lines[0].Label?
    ensures FreshLabels(lines, used) <==>
              LabelKey(lines[0].token) !in used && FreshLabels(lines[1..], EnteredKeys(used, LabelKey(lines[0].token)))
  {
    var key := LabelKey(lines[0].token);
    var rest := lines[1..];
    var u2 := EnteredKeys(used, key);
    assert forall k :: 0 <= k < |rest| ==> lines[k + 1] == rest[k];
    if FreshLabels(lines, used) {
      forall k | 0 <= k < |rest| && rest[k].Label?
        ensures LabelKey(rest[k].token) !in u2
      {
        assert lines[k + 1] == rest[k];
        assert LabelKey(lines[0].token) != LabelKey(lines[k + 1].token) || key == ProtoKey;
      }
      forall j, k | 0 <= j < k < |rest| && rest[j].Label? && rest[k].Label?
        ensures LabelKey(rest[j].token) != LabelKey(rest[k].token) || LabelKey(rest[j].token) == ProtoKey
      {
        assert lines[j + 1] == rest[j] && lines[k + 1] == rest[k];
      }
    }
    if key !in used && FreshLabels(rest, u2) {
      forall k | 0 <= k < |lines| && lines[k].Label?
        ensures LabelKey(lines[k].token) !in used
      {
        if k > 0 {
          assert lines[k] == rest[k - 1];
        }
      }
      forall j, k | 0 <= j < k < |lines| && lines[j].Label? && lines[k].Label?
        ensures LabelKey(lines[j].token) != LabelKey(lines[k].token) || LabelKey(lines[j].token) == ProtoKey
      {
        assert lines[k] == rest[k - 1];
        if j > 0 {
          assert lines[j] == rest[j - 1];
        }
      }
    }
  }

  /** Checking the labels one by one is the same as the condition on all of
      them. */
  lemma {:induction false} FreshFromIff(lines: seq<Line>, used: set<string>)
    ensures FreshFrom(lines, used) <==> FreshLabels(lines, used)
    decreases |lines|
  {
    if lines != [] {
      if lines[0].Label? {
        FreshLabelCons(lines, used);
        FreshFromIff(lines[1..], EnteredKeys(used, LabelKey(lines[0].token)));
      } else {
        assert lines == [lines[0]] + lines[1..];
        FreshNoLabelFront([lines[0]], lines[1..], used);
        FreshFromIff(lines[1..], used);
      }
    }
  }

  lemma {:induction false} FreshFromEmitted(a: seq<Line>, b: seq<Line>, used: set<string>)
    requires forall i :: 0 <= i < |a| ==> Emitted(a[i])
    ensures FreshFrom(a + b, used) == FreshFrom(b, used)
  {
    if a == [] {
      assert a + b == b;
    } else {
      assert (a + b)[1..] == a[1..] + b;
      FreshFromEmitted(a[1..], b, used);
    }
  }

  /** Pass 1 succeeds exactly when no label repeats a key, among themselves
      or with the keys already entered, a repeated `__proto__` aside: the
      `%PLDI` expansions add no labels. */
  lemma {:induction false} Pass1OkIff(lines: seq<Line>, c: nat, li: int, syms: map<string, nat>)
    ensures Pass1From(lines, c, li, syms).Ok? <==> FreshLabels(lines, syms.Keys)
  {
    Pass1OkFresh(lines, c, li, syms);
    FreshFromIff(lines, syms.Keys);
  }

  lemma {:induction false} Pass1OkFresh(lines: seq<Line>, c: nat, li: int, syms: map<string, nat>)
    ensures Pass1From(lines, c, li, syms).Ok? <==> FreshFrom(lines, syms.Keys)
    decreases PldiCount(lines), |lines|
  {
    if lines != [] {
      var rest := lines[1..];
      match lines[0]
      case Pldi =>
        var pcli := SldiLines(Num(c), 6);
        SplicePldiCount(c, rest);
        SldiEmitted(Num(c), 6);
        FreshFromEmitted(pcli, rest, syms.Keys);
        Pass1OkFresh(pcli + rest, c, li - |pcli|, syms);
      case Label(tok) =>
        var key := LabelKey(tok);
        if key !in syms {
          Pass1OkFresh(rest, c, li + 1, Enter(syms, key, c));
        }
      case Blank => Pass1OkFresh(rest, c, li, syms);
      case Note(_) => Pass1OkFresh(rest, c, li, syms);
      case SldiSym(_, _) => Pass1OkFresh(rest, c + 1, li + 1, syms);
      case Instr(_, _) => Pass1OkFresh(rest, c + 1, li + 1, syms);
    }
  }

  // ----- symbolic `%SLDI` -----

  /** No `%PLDI` and no symbolic `%SLDI` left: what pass 2 reads. */
  predicate Resolved(lines: seq<Line>)
  {
    forall i :: 0 <= i < |lines| ==> !lines[i].Pldi? && !lines[i].SldiSym?
  }

  /** A `%SLDI r<reg>,.<name>` line becomes the lines of `sldi` for the
      address of `name`, or for `NaN` (`parseInt(undefined)`) when the name
      is not in the table; every other line stays. */
  function ResolveLine(l: Line, syms: map<string, nat>): (out: seq<Line>)
    ensures !l.SldiSym? ==> out == [l]
    ensures l.SldiSym? ==> |out| >= 3 && out[0] == Note(Open) && out[|out| - 1] == Note(Close)
    ensures l.SldiSym? ==> forall k :: 0 < k < |out| - 1 ==> out[k].Instr?
  {
    match l
    case SldiSym(reg, name) => SldiLines(if name in syms then Num(syms[name]) else NaN, reg)
    case _ => [l]
  }

  lemma {:induction false} ResolveLineResolved(l: Line, syms: map<string, nat>)
    ensures !l.Pldi? ==> Resolved(ResolveLine(l, syms))
  {
    if l.SldiSym? {
      SldiEmitted(if l.name in syms then Num(syms[l.name]) else NaN, l.reg);
    }
  }

  /** The rewrite of the whole stream after pass 1; with no `%PLDI` left in
      the input, nothing but instructions, labels, markers and blank lines
      remains. */
  function ResolveSldi(lines: seq<Line>, syms: map<string, nat>): (out: seq<Line>)
    ensures PldiCount(lines) == 0 ==> Resolved(out)
    ensures |out| >= |lines|
    ensures (forall i :: 0 <= i < |lines| ==> !lines[i].SldiSym?) ==> out == lines
  {
    if lines == [] then []
    else
      var head := ResolveLine(lines[0], syms);
      var tail := ResolveSldi(lines[1..], syms);
      ResolveLineResolved(lines[0], syms);
      assert forall i :: 0 <= i < |tail| ==> (head + tail)[|head| + i] == tail[i];
      head + tail
  }

  // ----- pass 2 -----

  /** The variables of pass 2: the address counter, the source line count
      (advanced only outside macro blocks), the macro nesting depth, the
      words encoded so far and the line recorded for each instruction. */
  datatype Pass2State = Pass2State(caddr: nat, lineidx: nat, depth: int, words: seq<int>, mapping: seq<nat>)

  const Pass2Init := Pass2State(0, 0, 0, [], [])

  function Depth(depth: int, m: Marker): int
  {
    match m
    case Open => depth + 1
    case Close => depth - 1
    case NoMarker => depth
  }

  /** The `switch` on the lower-cased mnemonic: a known one appends its
      encoding, an unknown one appends nothing. */
  function Emit(words: seq<int>, mnemonic: string, ops: seq<Operand>, caddr: nat, line: nat): Result<seq<int>, AsmError>
  {
    match ParseMnemonic(mnemonic)
    case None => Ok(words)
    case Some(o) =>
      var w :- EncodeInstr(o, ops, caddr, line);
      Ok(words + [w])
  }

  /** An instruction's operands classified, then its encoding appended. */
  function InstrWords(words: seq<int>, m: string, toks: seq<Token>, syms: map<string, nat>, caddr: nat, line: nat)
    : Result<seq<int>, AsmError>
  {
    var ops :- ClassifyAll(toks, syms, line);
    Emit(words, m, ops, caddr, line)
  }

  /** One line of pass 2. The line count moves first when outside a macro
      block; a blank line stops there; a marker line changes the depth; a
      label is skipped; an instruction records its line, has its operands
      classified and is encoded, and takes one address. */
  function Pass2Line(st: Pass2State, l: Line, syms: map<string, nat>): (r: Result<Pass2State, AsmError>)
    requires !l.Pldi? && !l.SldiSym?
    ensures r.Err? ==> l.Instr?
    ensures r.Ok? ==> r.value.lineidx == (if st.depth == 0 then st.lineidx + 1 else st.lineidx)
    ensures r.Ok? ==> r.value.caddr == st.caddr + (if l.Instr? then 1 else 0)
    ensures r.Ok? ==> r.value.mapping == st.mapping + (if l.Instr? then [r.value.lineidx] else [])
    ensures r.Ok? ==> st.words <= r.value.words && |r.value.words| <= |st.words| + 1
    ensures r.Ok? && !l.Instr? ==> r.value.words == st.words
  {
    var idx := if st.depth == 0 then st.lineidx + 1 else st.lineidx;
    match l
    case Instr(m, toks) =>
      var words :- InstrWords(st.words, m, toks, syms, st.caddr, idx);
      Ok(Pass2State(st.caddr + 1, idx, st.depth, words, st.mapping + [idx]))
    case Note(marker) => Ok(st.(lineidx := idx, depth := Depth(st.depth, marker)))
    case Blank => Ok(st.(lineidx := idx))
    case Label(_) => Ok(st.(lineidx := idx))
  }

  /** Pass 2 over the rest of the stream; the first rejection decides. */
  function Pass2Run(st: Pass2State, lines: seq<Line>, syms: map<string, nat>): (r: Result<Pass2State, AsmError>)
    requires Resolved(lines)
    ensures r.Ok? ==> st.caddr <= r.value.caddr <= st.caddr + |lines|
    ensures r.Ok? ==> st.mapping <= r.value.mapping && |r.value.mapping| - |st.mapping| == r.value.caddr - st.caddr
    ensures r.Ok? ==> st.words <= r.value.words && |r.value.words| - |st.words| <= r.value.caddr - st.caddr
    decreases |lines|
  {
    if lines == [] then Ok(st)
    else
      var next :- Pass2Line(st, lines[0], syms);
      Pass2Run(next, lines[1..], syms)
  }

  lemma {:induction false} Pass2Unfold(st: Pass2State, lines: seq<Line>, i: nat, syms: map<string, nat>)
    requires Resolved(lines) && i < |lines|
    ensures Pass2Line(st, lines[i], syms).Err? ==> Pass2Run(st, lines[i..], syms) == Err(Pass2Line(st, lines[i], syms).error)
    ensures Pass2Line(st, lines[i], syms).Ok? ==>
              Pass2Run(st, lines[i..], syms) == Pass2Run(Pass2Line(st, lines[i], syms).value, lines[i + 1..], syms)
  {
    assert lines[i..][0] == lines[i] && lines[i..][1..] == lines[i + 1..];
  }

  /** The operands of one instruction classified, then the `switch` on its
      mnemonic; a rejection of either kind is returned. */
  method EncodeLine(m: string, toks: seq<Token>, syms: map<string, nat>, caddr: nat, line: nat, words: seq<int>)
    returns (r: Result<seq<int>, AsmError>)
    ensures r == InstrWords(words, m, toks, syms, caddr, line)
  {
    var ops := ClassifyAll(toks, syms, line);
    if ops.Err? {
      return Err(ops.error);
    }
    var o := ParseMnemonic(m);
    if o.None? {
      return Ok(words);
    }
    var w := EncodeInstr(o.value, ops.value, caddr, line);
    if w.Err? {
      return Err(w.error);
    }
    return Ok(words + [w.value]);
  }

  /** The body of the pass-2 scan for one line: the counters, the depth,
      the words and the mapping as the source leaves them, and the rejection
      the line raises, if any. */
  method Pass2Step(st: Pass2State, l: Line, syms: map<string, nat>) returns (next: Pass2State, e: Option<AsmError>)
    requires !l.Pldi? && !l.SldiSym?
    ensures e.None? ==> Pass2Line(st, l, syms) == Ok(next)
    ensures e.Some? ==> Pass2Line(st, l, syms) == Err(e.value)
  {
    var caddr, lineidx, depth, words, mapping := st.caddr, st.lineidx, st.depth, st.words, st.mapping;
    e := None;
    if depth == 0 {
      lineidx := lineidx + 1;
    }
    match l {
      case Blank =>
      case Label(_) =>
      case Note(marker) =>
        if marker == Open {
          depth := depth + 1;
        } else if marker == Close {
          depth := depth - 1;
        }
      case Instr(m, toks) =>
        mapping := mapping + [lineidx];
        var res := EncodeLine(m, toks, syms, caddr, lineidx, words);
        if res.Err? {
          e := Some(res.error);
        } else {
          words := res.value;
        }
        caddr := caddr + 1;
    }
    next := Pass2State(caddr, lineidx, depth, words, mapping);
  }

  /** Pass 2 as the source runs it: one scan that updates the counters, the
      depth, the words and the line mapping in place; a rejection is
      remembered and the scan goes on, except for a `brz` out of range,
      which is thrown and ends it. A `brz` whose operands were already
      rejected, and a `brn` to an undefined label, throw as well; that ends
      the scan too, but only after the rejection has decided the result, so
      the loop carries on there without changing what it returns. */
  method Pass2(lines: seq<Line>, syms: map<string, nat>) returns (r: Result<Pass2State, AsmError>)
    requires Resolved(lines)
    ensures r == Pass2Run(Pass2Init, lines, syms)
  {
    var st := Pass2Init;
    var err: Option<AsmError> := None;
    var i := 0;
    var thrown := false;
    assert lines[0..] == lines;
    while i < |lines| && !thrown
      invariant 0 <= i <= |lines|
      invariant thrown ==> err.Some?
      invariant err.None? ==> Pass2Run(Pass2Init, lines, syms) == Pass2Run(st, lines[i..], syms)
      invariant err.Some? ==> Pass2Run(Pass2Init, lines, syms) == Err(err.value)
      decreases |lines| - i
    {
      Pass2Unfold(st, lines, i, syms);
      var e;
      st, e := Pass2Step(st, lines[i], syms);
      if e.Some? {
        if err.None? {
          err := e;
        }
        thrown := e.value.BranchTooFar?;
      }
      i := i + 1;
    }
    if err.Some? {
      return Err(err.value);
    }
    assert lines[i..] == [];
    return Ok(st);
  }

  // ----- the whole assembler -----

  /** What `scasm` resolves with (the display text `iasmsrc` is not kept):
      the hex text, the symbol table and the source line of each instruction
      but the last. */
  datatype Assembly = Assembly(hex: string, syms: map<string, nat>, mapping: seq<nat>)

  /** `lineToAddrMapping.pop()`. */
  function DropLast(m: seq<nat>): (d: seq<nat>)
    ensures |d| == if m == [] then 0 else |m| - 1
    ensures d == m[..|d|]
  {
    if m == [] then [] else m[..|m| - 1]
  }

  predicate AllWords(ws: seq<int>)
  {
    forall i :: 0 <= i < |ws| ==> IsWord(ws[i])
  }

  /** Pass 0, pass 1, the symbolic `%SLDI` rewrite and pass 2. */
  function Assemble(src: seq<Directive>): (r: Result<Assembly, AsmError>)
    ensures r.Ok? ==> |r.value.hex| % 4 == 0
    ensures r.Ok? ==> forall i :: 0 <= i < |r.value.hex| ==> IsUpperHexChar(r.value.hex[i])
  {
    var p1 :- Pass1From(ExpandAll(src), 0, 0, map[]);
    Pass1Labels(ExpandAll(src), 0, 0, map[]);
    var lines := ResolveSldi(p1.lines, p1.syms);
    var st :- Pass2Run(Pass2Init, lines, p1.syms);
    Pass2Words(Pass2Init, lines, p1.syms);
    Ok(Assembly(HexText(st.words), p1.syms, DropLast(st.mapping)))
  }

  /** Every word pass 2 appends is a 16-bit word whose opcode the machine knows. */
  predicate KnownWords(ws: seq<int>)
  {
    forall i :: 0 <= i < |ws| ==> IsWord(ws[i]) && OpcodeOf(Decode(ws[i]).op).Some?
  }

  lemma {:induction false} Pass2Words(st: Pass2State, lines: seq<Line>, syms: map<string, nat>)
    requires Resolved(lines) && KnownWords(st.words)
    requires Pass2Run(st, lines, syms).Ok?
    ensures KnownWords(Pass2Run(st, lines, syms).value.words)
    decreases |lines|
  {
    if lines != [] {
      var next := Pass2Line(st, lines[0], syms).value;
      if lines[0].Instr? {
        var ops := ClassifyAll(lines[0].operands, syms, next.lineidx).value;
        var o := ParseMnemonic(lines[0].mnemonic);
        if o.Some? {
          var w := EncodeInstr(o.value, ops, st.caddr, next.lineidx).value;
          OpcodeTableConsistent(o.value);
          assert next.words == st.words + [w];
        }
      }
      Pass2Words(next, lines[1..], syms);
    }
  }

  /** `scasm`: pass 0, then pass 1, the rewrite and pass 2 as the source runs them. */
  method Scasm(src: seq<Directive>) returns (r: Result<Assembly, AsmError>)
    ensures r == Assemble(src)
  {
    var lines := ExpandAll(src);
    var p1 := Pass1(lines);
    if p1.Err? {
      return Err(p1.error);
    }
    Pass1Labels(lines, 0, 0, map[]);
    var resolved := ResolveSldi(p1.value.lines, p1.value.syms);
    var p2 := Pass2(resolved, p1.value.syms);
    if p2.Err? {
      return Err(p2.error);
    }
    Pass2Words(Pass2Init, resolved, p1.value.syms);
    var mapping := p2.value.mapping;
    if |mapping| > 0 {
      mapping := mapping[..|mapping| - 1];
    }
    return Ok(Assembly(HexText(p2.value.words), p1.value.syms, mapping));
  }
}
