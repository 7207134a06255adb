/** The assembler's view of a source line after tokenisation, the operand
    classification of pass 2, `schemaEqual` and the per-mnemonic encoding
    (`generateInstr` with each mnemonic's operand schema). */
module AsmSyntax {
  import opened Common
  import opened Isa

  /** One operand as pass 2 sees it: its text (`opargs[i]`) and what
      `parseInt` makes of the text with every `r`/`R` removed (`opargv[i]`),
      `None` standing for `NaN`. */
  datatype Token = Token(text: string, value: Option<int>)

  /** The kinds of `opargt`. */
  datatype Kind = Reg | Addr | Imm | Off

  /** A classified operand: its kind and the number the encoder uses (the
      symbol's address for `Addr`). */
  datatype Operand = Operand(kind: Kind, value: int)

  /** The rejections of the assembler, each with the line number it reports. */
  datatype AsmError =
    | DuplicateSymbol(line: int, name: string)
    | UndefinedSymbol(line: int, operand: string)
    | UnknownArgument(line: int, operand: string)
    | InvalidArgs(line: int, mnemonic: string)
    | BranchTooFar(line: int, offset: int)

  /** A comment line that opens (`//%M`) or closes (`//%ENDM`) a macro block. */
  datatype Marker = NoMarker | Open | Close

  /** A source line after the comment is removed and the rest is split on
      blanks: the empty line; a line with no tokens (its marker when it starts
      with one); a line whose first token starts with `.`; `%PLDI`; the pass-1
      form `%SLDI r<reg>,.<name>`; any other line, as its first token and the
      comma-separated operands of the rest. Source text never gives an
      `Instr` with no operands: splitting an empty rest on `,` gives one
      empty operand, which classification rejects as an unknown argument. */
  datatype Line =
    | Blank
    | Note(marker: Marker)
    | Label(token: string)
    | Pldi
    | SldiSym(reg: nat, name: string)
    | Instr(mnemonic: string, operands: seq<Token>)

  predicate InRange(v: Option<int>)
  {
    v.Some? && 0 <= v.value <= 7
  }

  predicate StartsWith(s: string, c: char)
  {
    |s| > 0 && s[0] == c
  }

  /** The classification of one operand in the order pass 2 tries: a register,
      a defined symbol, an undefined symbol (rejected), a small immediate, any
      other number, anything else (rejected). */
  function Classify(tok: Token, syms: map<string, nat>, line: int): (r: Result<Operand, AsmError>)
    ensures r.Ok? && r.value.kind == Reg <==> (StartsWith(tok.text, 'r') || StartsWith(tok.text, 'R')) && InRange(tok.value)
    ensures r.Ok? && r.value.kind == Addr <==>
              !(StartsWith(tok.text, 'r') || StartsWith(tok.text, 'R')) && StartsWith(tok.text, '.') && tok.text[1..] in syms
    ensures r.Ok? && r.value.kind == Addr ==> r.value.value == syms[tok.text[1..]]
    ensures r.Ok? && r.value.kind != Addr ==> tok.value == Some(r.value.value)
    ensures r.Ok? && r.value.kind == Imm ==> 0 <= r.value.value <= 7 && !StartsWith(tok.text, '.')
    ensures r.Ok? && r.value.kind == Off ==> !(0 <= r.value.value <= 7) && !StartsWith(tok.text, '.')
    ensures r.Err? ==> r.error == UndefinedSymbol(line, tok.text) || r.error == UnknownArgument(line, tok.text)
    ensures r.Err? <==> (StartsWith(tok.text, '.') && tok.text[1..] !in syms) || (!StartsWith(tok.text, '.') && tok.value.None?)
  {
    if (StartsWith(tok.text, 'r') || StartsWith(tok.text, 'R')) && InRange(tok.value) then Ok(Operand(Reg, tok.value.value))
    else if StartsWith(tok.text, '.') && tok.text[1..] in syms then Ok(Operand(Addr, syms[tok.text[1..]]))
    else if StartsWith(tok.text, '.') then Err(UndefinedSymbol(line, tok.text))
    else if InRange(tok.value) then Ok(Operand(Imm, tok.value.value))
    else if tok.value.Some? then Ok(Operand(Off, tok.value.value))
    else Err(UnknownArgument(line, tok.text))
  }

  /** `opargs.map(...)`: every operand classified; the first rejection decides. */
  function ClassifyAll(toks: seq<Token>, syms: map<string, nat>, line: int): (r: Result<seq<Operand>, AsmError>)
    ensures r.Ok? ==> |r.value| == |toks|
    ensures r.Ok? ==> forall i :: 0 <= i < |toks| ==> Classify(toks[i], syms, line) == Ok(r.value[i])
    ensures r.Err? ==> exists i :: && 0 <= i < |toks| && Classify(toks[i], syms, line) == Err(r.error)
                                  && (forall j :: 0 <= j < i ==> Classify(toks[j], syms, line).Ok?)
  {
    if toks == [] then Ok([])
    else
      match Classify(toks[0], syms, line)
      case Err(e) => Err(e)
      case Ok(first) =>
        match ClassifyAll(toks[1..], syms, line)
        case Err(e) =>
          var i :| 0 <= i < |toks| - 1 && Classify(toks[1..][i], syms, line) == Err(e) &&
                   forall j :: 0 <= j < i ==> Classify(toks[1..][j], syms, line).Ok?;
          assert toks[i + 1] == toks[1..][i] && forall j :: 0 < j <= i ==> toks[j] == toks[1..][j - 1];
          Err(e)
        case Ok(rest) => Ok([first] + rest)
  }

  function Kinds(ops: seq<Operand>): (ks: seq<Kind>)
    ensures |ks| == |ops| && forall i :: 0 <= i < |ops| ==> ks[i] == ops[i].kind
  {
    seq(|ops|, i requires 0 <= i < |ops| => ops[i].kind)
  }

  /** `schemaEqual`: same length and no position where the two differ. */
  function SchemaEqual(s1: seq<Kind>, s2: seq<Kind>): (b: bool)
    ensures b <==> s1 == s2
  {
    if |s1| != |s2| then false
    else forall i :: 0 <= i < |s1| ==> s1[i] == s2[i]
  }

  /** `opargv[i]`, with a missing operand giving 0 as `generateInstr` makes of `undefined`. */
  function Value(ops: seq<Operand>, i: nat): int
  {
    if i < |ops| then ops[i].value else 0
  }

  /** The six-bit branch offset field of `brz`/`brn`: `off & 0x3F`. */
  function Six(off: int): (six: int)
    ensures 0 <= six < 64 && (six - off) % 64 == 0
  {
    off % 64
  }

  /** The `case` of pass 2's `switch (op.toLowerCase())` for a recognised
      mnemonic: check the operand kinds against the schema and encode. */
  function EncodeInstr(o: Opcode, ops: seq<Operand>, caddr: int, line: int): (r: Result<int, AsmError>)
    ensures r.Ok? ==> IsWord(r.value) && Decode(r.value).op == Code(o)
    ensures r.Err? ==> r.error == InvalidArgs(line, Mnemonic(o)) || (o == BRZ && r.error.BranchTooFar?)
  {
    var ks := Kinds(ops);
    var v0, v1, v2 := Value(ops, 0), Value(ops, 1), Value(ops, 2);
    var bad := Err(InvalidArgs(line, Mnemonic(o)));
    match o
    case MOVA | INC | DEC | NOT | LD =>
      if SchemaEqual(ks, [Reg, Reg]) then Ok(Encode(Code(o), v0, v1, 0)) else bad
    case ADD | SUB | AND | OR | XOR =>
      if SchemaEqual(ks, [Reg, Reg, Reg]) then Ok(Encode(Code(o), v0, v1, v2)) else bad
    case MOVB | SHR | SHL =>
      if SchemaEqual(ks, [Reg, Reg]) then Ok(Encode(Code(o), v0, 0, v1)) else bad
    case LDI =>
      if SchemaEqual(ks, [Reg, Addr]) || SchemaEqual(ks, [Reg, Imm]) then Ok(Encode(Code(o), v0, 0, v1)) else bad
    case ADI =>
      // with a label the address lands in the `aa` field and `ba` is 0
      if SchemaEqual(ks, [Reg, Addr]) || SchemaEqual(ks, [Reg, Reg, Imm]) then Ok(Encode(Code(o), v0, v1, v2)) else bad
    case ST =>
      if SchemaEqual(ks, [Reg, Reg]) then Ok(Encode(Code(o), 0, v0, v1)) else bad
    case BRZ | BRN =>
      if !(SchemaEqual(ks, [Reg, Addr]) || SchemaEqual(ks, [Reg, Imm]) || SchemaEqual(ks, [Reg, Off])) then bad
      else
        var off := if ks[1] == Addr then v1 - caddr else v1;
        // only `brz` checks the range; `brn` keeps the low six bits of any offset
        if o == BRZ && (off >= 32 || off < -32) then Err(BranchTooFar(line, off))
        else Ok(Encode(Code(o), Six(off) / 8, v0, Six(off) % 8))
    case JMP =>
      if SchemaEqual(ks, [Reg]) then Ok(Encode(Code(o), 0, v0, 0)) else bad
  }
}
