/** The assembler's macros: `sldi`, which expands a 16-bit load into
    `ldi`/`adi`/`shl`/`inc` instructions, and the pass-0 rewriting of the
    `%SLDI`, `%ISTK`, `%CALL` and `%RET` directives into macro blocks. */
module Macros {
  import opened Common
  import opened AsmSyntax

  /** The number handed to `sldi`: a natural, or `NaN` (`parseInt` of an empty
      digit string, or of an undefined symbol). */
  datatype Num = Num(n: nat) | NaN

  /** A source line before pass 0: an ordinary line, or a directive whose
      register operand is `r<reg>` with `reg` in 0..7. */
  datatype Directive =
    | Plain(line: Line)
    | SldiImm(reg: nat, n: Num)
    | Istk
    | Call(reg: nat)
    | Ret

  function RegToken(r: nat): Token { Token("r" + Decimal(r), Some(r)) }

  function NumToken(n: nat): Token { Token(Decimal(n), Some(n)) }

  function Xor(r: nat): Line { Instr("xor", [RegToken(r), RegToken(r), RegToken(r)]) }
  function Not(r: nat): Line { Instr("not", [RegToken(r), RegToken(r)]) }
  function Ldi(r: nat, t: nat): Line { Instr("ldi", [RegToken(r), NumToken(t)]) }
  function Adi(r: nat, t: nat): Line { Instr("adi", [RegToken(r), RegToken(r), NumToken(t)]) }
  function Shl(r: nat): Line { Instr("shl", [RegToken(r), RegToken(r)]) }
  function Inc(r: nat): Line { Instr("inc", [RegToken(r), RegToken(r)]) }
  function Dec(r: nat): Line { Instr("dec", [RegToken(r), RegToken(r)]) }
  function St(a: nat, b: nat): Line { Instr("st", [RegToken(a), RegToken(b)]) }
  function Ld(d: nat, a: nat): Line { Instr("ld", [RegToken(d), RegToken(a)]) }
  function Jmp(r: nat): Line { Instr("jmp", [RegToken(r)]) }

  /** The bits `sldi` reads through `&`: those of the number, none for `NaN`. */
  function Bits(n: Num): nat
  {
    if n.Num? then n.n else 0
  }

  /** The five three-bit groups at bit offsets 13, 10, 7, 4 and 1, most significant first. */
  function Groups(k: nat): (g: seq<nat>)
    ensures |g| == 5 && forall i :: 0 <= i < 5 ==> g[i] < 8
  {
    [(k / 8192) % 8, (k / 1024) % 8, (k / 128) % 8, (k / 16) % 8, (k / 2) % 8]
  }

  /** `ts` with its leading zeros dropped. */
  function DropZeros(ts: seq<nat>): (d: seq<nat>)
    ensures d != [] ==> d[0] != 0
  {
    if ts != [] && ts[0] == 0 then DropZeros(ts[1..]) else ts
  }

  /** The groups `sldi` loads: the three-bit groups from the first nonzero one on. */
  function Windows(k: nat): seq<nat>
  {
    DropZeros(Groups(k))
  }

  /** The lines `sldi` emits for group `i` of `ts`: an `ldi` for the first group,
      an `adi` for a later nonzero one, then three `shl` unless it is the last. */
  function GroupLines(ts: seq<nat>, i: nat, r: nat): (lines: seq<Line>)
    requires i < |ts|
    ensures forall k :: 0 <= k < |lines| ==> lines[k].Instr?
  {
    GroupHead(ts, i, r) + GroupTail(ts, i, r)
  }

  function GroupHead(ts: seq<nat>, i: nat, r: nat): seq<Line>
    requires i < |ts|
  {
    if ts[i] > 0 || i == 0 then [if i == 0 then Ldi(r, ts[i]) else Adi(r, ts[i])] else []
  }

  function GroupTail(ts: seq<nat>, i: nat, r: nat): seq<Line>
    requires i < |ts|
  {
    if i < |ts| - 1 then [Shl(r), Shl(r), Shl(r)] else []
  }

  /** The lines for the first `j` groups. */
  function GroupsLines(ts: seq<nat>, j: nat, r: nat): (lines: seq<Line>)
    requires j <= |ts|
    ensures forall k :: 0 <= k < |lines| ==> lines[k].Instr?
  {
    if j == 0 then [] else GroupsLines(ts, j - 1, r) + GroupLines(ts, j - 1, r)
  }

  /** The lines of `sldi(n, r)`, the macro block `//%M SLDI …` … `//%ENDM`. */
  function SldiLines(n: Num, r: nat): (lines: seq<Line>)
    ensures |lines| >= 3 && lines[0] == Note(Open) && lines[|lines| - 1] == Note(Close)
    ensures forall k :: 0 < k < |lines| - 1 ==> lines[k].Instr?
  {
    if n == Num(0) then [Note(Open), Xor(r), Note(Close)]
    else if n == Num(0xFFFF) then [Note(Open), Xor(r), Not(r), Note(Close)]
    else if n.Num? && n.n <= 7 then [Note(Open), Ldi(r, n.n), Note(Close)]
    else
      var ts := Windows(Bits(n));
      [Note(Open)] + GroupsLines(ts, |ts|, r) + FinishLines(Bits(n), r) + [Note(Close)]
  }

  /** The closing `shl` of the general expansion and, for an odd number, `inc`. */
  function FinishLines(k: nat, r: nat): seq<Line>
  {
    [Shl(r)] + (if k % 2 == 1 then [Inc(r)] else [])
  }

  lemma {:induction false} DropZerosSnoc(ts: seq<nat>, t: nat)
    ensures DropZeros(ts + [t]) == if DropZeros(ts) == [] && t == 0 then [] else DropZeros(ts) + [t]
  {
    if ts == [] {
      assert ts + [t] == [t];
      assert [t][1..] == [];
    } else {
      assert (ts + [t])[0] == ts[0];
      if ts[0] == 0 {
        assert (ts + [t])[1..] == ts[1..] + [t];
        DropZerosSnoc(ts[1..], t);
      }
    }
  }

  /** `sldi` itself: the group loop over offsets 13 down to 1 that collects the
      groups from the first nonzero one, then the loop over the groups that emits
      their lines, then the final `shl` and, for an odd number, `inc`. */
  method Sldi(n: Num, r: nat) returns (lines: seq<Line>)
    ensures lines == SldiLines(n, r)
  {
    if n == Num(0) {
      return [Note(Open), Xor(r), Note(Close)];
    } else if n == Num(0xFFFF) {
      return [Note(Open), Xor(r), Not(r), Note(Close)];
    } else if n.Num? && n.n <= 7 {
      return [Note(Open), Ldi(r, n.n), Note(Close)];
    }
    var k := Bits(n);
    var ts := CollectGroups(k);
    lines := EmitGroups(ts, r);
    ghost var groups := lines;
    lines := lines + [Shl(r)];
    if k % 2 == 1 {
      lines := lines + [Inc(r)];
    }
    assert lines == groups + FinishLines(k, r);
    lines := lines + [Note(Close)];
  }

  /** The first loop of `sldi`: offsets 13 down to 1 in steps of 3, skipping
      zero groups until the first nonzero one. */
  method CollectGroups(k: nat) returns (ts: seq<nat>)
    ensures ts == Windows(k)
  {
    ts := [];
    var o := 13;
    ghost var j := 0;
    while o >= 1
      invariant 0 <= j <= 5 && o == 13 - 3 * j
      invariant ts == DropZeros(Groups(k)[..j])
    {
      var t := (k / Pow(o)) % 8;
      PowGroups(k, j, o);
      assert Groups(k)[..j + 1] == Groups(k)[..j] + [t];
      DropZerosSnoc(Groups(k)[..j], t);
      if !(t == 0 && |ts| < 1) {
        ts := ts + [t];
      }
      o, j := o - 3, j + 1;
    }
    assert Groups(k)[..5] == Groups(k);
  }

  /** The second loop of `sldi`, over the collected groups, after the header line. */
  method EmitGroups(ts: seq<nat>, r: nat) returns (lines: seq<Line>)
    ensures lines == [Note(Open)] + GroupsLines(ts, |ts|, r)
  {
    lines := [Note(Open)];
    var i := 0;
    while i < |ts|
      invariant 0 <= i <= |ts|
      invariant lines == [Note(Open)] + GroupsLines(ts, i, r)
    {
      ghost var before := lines;
      var t := ts[i];
      if t > 0 || i == 0 {
        lines := lines + [if i == 0 then Ldi(r, t) else Adi(r, t)];
      }
      ghost var mid := lines;
      assert mid == before + GroupHead(ts, i, r);
      if i < |ts| - 1 {
        lines := lines + [Shl(r), Shl(r), Shl(r)];
      }
      assert lines == mid + GroupTail(ts, i, r);
      EmitStep(ts, i, r, before, mid, lines);
      i := i + 1;
    }
  }

  /** One turn of the loop of `EmitGroups` adds the lines of group `i`. */
  lemma {:induction false} EmitStep(ts: seq<nat>, i: nat, r: nat, before: seq<Line>, mid: seq<Line>, after: seq<Line>)
    requires i < |ts| && before == [Note(Open)] + GroupsLines(ts, i, r)
    requires mid == before + GroupHead(ts, i, r) && after == mid + GroupTail(ts, i, r)
    ensures after == [Note(Open)] + GroupsLines(ts, i + 1, r)
  {
    AppendAssoc(before, GroupHead(ts, i, r), GroupTail(ts, i, r));
    AppendAssoc([Note(Open)], GroupsLines(ts, i, r), GroupLines(ts, i, r));
  }

  /** `1 << o` for the group offsets. */
  function Pow(o: int): (p: nat)
    ensures p >= 1
  {
    if o <= 0 then 1 else 2 * Pow(o - 1)
  }

  lemma PowGroups(k: nat, j: nat, o: int)
    requires j < 5 && o == 13 - 3 * j
    ensures Groups(k)[j] == (k / Pow(o)) % 8
  {
    assert Pow(1) == 2 && Pow(4) == 16 && Pow(7) == 128 && Pow(10) == 1024 && Pow(13) == 8192;
  }

  /** Pass 0: a directive becomes its macro block; `%CALL` leaves a `%PLDI`
      for pass 1 to replace with a load of the address it stands at. */
  function Expand(d: Directive): (lines: seq<Line>)
    ensures d.Plain? ==> lines == [d.line]
    ensures !d.Plain? ==> |lines| >= 3 && lines[0] == Note(Open) && lines[|lines| - 1] == Note(Close)
  {
    match d
    case Plain(l) => [l]
    case SldiImm(reg, n) => SldiLines(n, reg)
    case Istk => [Note(Open), Xor(7), Note(Close)]
    case Call(reg) => [Note(Open), Pldi, Inc(7), St(7, 6), Jmp(reg), Note(Close)]
    case Ret => [Note(Open), Ld(6, 7), Dec(7), Jmp(6), Note(Close)]
  }

  /** The source after pass 0, line by line. */
  function ExpandAll(src: seq<Directive>): (lines: seq<Line>)
    ensures |lines| >= |src|
    ensures (forall i :: 0 <= i < |src| ==> src[i].Plain?) ==>
              |lines| == |src| && forall i :: 0 <= i < |src| ==> lines[i] == src[i].line
  {
    if src == [] then [] else ExpandAll(src[..|src| - 1]) + Expand(src[|src| - 1])
  }
}
