/** Hexadecimal text: `hex4b` as the assembler uses it, the program loader's
    `bin.match(/[0-9a-fA-F]{4}/g)` and the disassembler's removal of comment lines. */
module Hex {
  import opened Isa

  predicate IsHexChar(c: char)
  {
    '0' <= c <= '9' || 'a' <= c <= 'f' || 'A' <= c <= 'F'
  }

  predicate IsUpperHexChar(c: char)
  {
    '0' <= c <= '9' || 'A' <= c <= 'F'
  }

  function HexValue(c: char): (v: int)
    requires IsHexChar(c)
    ensures 0 <= v < 16
  {
    if '0' <= c <= '9' then c as int - '0' as int
    else if 'a' <= c <= 'f' then c as int - 'a' as int + 10
    else c as int - 'A' as int + 10
  }

  function HexDigit(d: int): (c: char)
    requires 0 <= d < 16
    ensures IsUpperHexChar(c) && IsHexChar(c)
    ensures HexValue(c) == d
  {
    if d < 10 then ('0' as int + d) as char else ('A' as int + d - 10) as char
  }

  /** `hex4b` for a word: four upper-case hex digits, most significant first. */
  function Hex4(w: int): (s: string)
    requires IsWord(w)
    ensures |s| == 4
    ensures forall i :: 0 <= i < 4 ==> IsUpperHexChar(s[i]) && IsHexChar(s[i])
  {
    [HexDigit(w / 4096), HexDigit((w / 256) % 16), HexDigit((w / 16) % 16), HexDigit(w % 16)]
  }

  /** `parseInt(s, 16)` of four hex digits. */
  function Hex4Value(s: string): (w: int)
    requires |s| == 4 && forall i :: 0 <= i < 4 ==> IsHexChar(s[i])
    ensures IsWord(w)
  {
    ((HexValue(s[0]) * 16 + HexValue(s[1])) * 16 + HexValue(s[2])) * 16 + HexValue(s[3])
  }

  lemma {:induction false} Hex4RoundTrip(w: int)
    requires IsWord(w)
    ensures Hex4Value(Hex4(w)) == w
  {
    var s := Hex4(w);
    assert HexValue(s[0]) == w / 4096;
    assert HexValue(s[1]) == (w / 256) % 16;
    assert HexValue(s[2]) == (w / 16) % 16;
    assert HexValue(s[3]) == w % 16;
    NibbleSum(w);
  }

  /** The four hex digits of a word, weighted, add up to the word. */
  lemma {:induction false} NibbleSum(w: int)
    requires IsWord(w)
    ensures (((w / 4096) * 16 + (w / 256) % 16) * 16 + (w / 16) % 16) * 16 + w % 16 == w
  {
    assert (w / 4096) * 16 + (w / 256) % 16 == w / 256;
    assert (w / 256) * 16 + (w / 16) % 16 == w / 16;
    assert (w / 16) * 16 + w % 16 == w;
  }

  predicate StartsWithHexWord(s: string)
  {
    |s| >= 4 && IsHexChar(s[0]) && IsHexChar(s[1]) && IsHexChar(s[2]) && IsHexChar(s[3])
  }

  /** The program words the emulator's constructor reads from its text: the
      global match of four hex digits, tried at each position from left to right. */
  function ParseProgram(s: string): (ws: seq<int>)
    ensures forall i :: 0 <= i < |ws| ==> IsWord(ws[i])
    ensures |ws| <= |s| / 4
    decreases |s|
  {
    if |s| == 0 then []
    else if StartsWithHexWord(s) then [Hex4Value(s[..4])] + ParseProgram(s[4..])
    else ParseProgram(s[1..])
  }

  /** The assembler's output for a sequence of words: `hex4b` of each, concatenated. */
  function HexText(ws: seq<int>): (s: string)
    requires forall i :: 0 <= i < |ws| ==> IsWord(ws[i])
    ensures |s| == 4 * |ws| && |s| % 4 == 0
    ensures forall i :: 0 <= i < |s| ==> IsUpperHexChar(s[i])
  {
    if ws == [] then [] else HexText(ws[..|ws| - 1]) + Hex4(ws[|ws| - 1])
  }

  lemma {:induction false} HexTextAppend(ws: seq<int>, w: int)
    requires forall i :: 0 <= i < |ws| ==> IsWord(ws[i])
    requires IsWord(w)
    ensures HexText(ws + [w]) == HexText(ws) + Hex4(w)
  {
    assert (ws + [w])[..|ws|] == ws;
  }

  /** Loading the assembler's hex text gives back exactly the words it encoded. */
  lemma {:induction false} ParseHexText(ws: seq<int>)
    requires forall i :: 0 <= i < |ws| ==> IsWord(ws[i])
    ensures ParseProgram(HexText(ws)) == ws
  {
    if ws != [] {
      HexTextFront(ws);
      var s := HexText(ws);
      assert StartsWithHexWord(s);
      assert s[..4] == Hex4(ws[0]);
      Hex4RoundTrip(ws[0]);
      ParseHexText(ws[1..]);
      assert s[4..] == HexText(ws[1..]);
    }
  }

  lemma {:induction false} HexTextFront(ws: seq<int>)
    requires forall i :: 0 <= i < |ws| ==> IsWord(ws[i])
    requires ws != []
    ensures HexText(ws) == Hex4(ws[0]) + HexText(ws[1..])
    decreases |ws|
  {
    if |ws| > 1 {
      var init := ws[..|ws| - 1];
      HexTextFront(init);
      assert init[1..] == ws[1..][..|ws[1..]| - 1];
      assert init[0] == ws[0];
    } else {
      assert ws[1..] == [];
    }
  }

  /** The characters that end a line for a JavaScript regular expression:
      line feed, carriage return, line separator and paragraph separator. */
  predicate IsLineTerminator(c: char)
  {
    c == '\n' || c == '\r' || c == '\U{2028}' || c == '\U{2029}'
  }

  predicate NoTerminator(s: string)
  {
    forall i :: 0 <= i < |s| ==> !IsLineTerminator(s[i])
  }

  /** A line that `^\/\/.*$` matches in full: it starts with `//`. */
  predicate IsCommentLine(line: string)
  {
    |line| >= 2 && line[0] == '/' && line[1] == '/'
  }

  /** Length of the first line of `s` (up to, not including, the first line terminator). */
  function LineLength(s: string): (k: nat)
    ensures k <= |s|
    ensures NoTerminator(s[..k])
    ensures k < |s| ==> IsLineTerminator(s[k])
  {
    if |s| == 0 || IsLineTerminator(s[0]) then 0
    else
      var k := 1 + LineLength(s[1..]);
      assert s[..k] == [s[0]] + s[1..][..k - 1];
      k
  }

  /** `prghex.replace(/^\/\/.*$/gm, '')`: every line that begins with `//` is emptied,
      the line terminators stay. */
  function StripCommentLines(s: string): (t: string)
    ensures |t| <= |s|
    decreases |s|
  {
    var k := LineLength(s);
    var line := s[..k];
    var kept := if IsCommentLine(line) then "" else line;
    if k == |s| then kept else kept + [s[k]] + StripCommentLines(s[k + 1..])
  }

  /** The length of a line that holds no terminator is the whole line. */
  lemma {:induction false} LineLengthOf(line: string, rest: string)
    requires NoTerminator(line) && (rest == [] || IsLineTerminator(rest[0]))
    ensures LineLength(line + rest) == |line|
    decreases |line|
  {
    if line != [] {
      assert (line + rest)[1..] == line[1..] + rest;
      LineLengthOf(line[1..], rest);
    } else {
      assert line + rest == rest;
    }
  }

  /** Comment stripping goes line by line: a line that starts with `//`
      becomes empty, any other line is kept, and its terminator stays. */
  lemma {:induction false} StripLine(line: string, t: char, rest: string)
    requires NoTerminator(line) && IsLineTerminator(t)
    ensures StripCommentLines(line + [t] + rest)
         == (if IsCommentLine(line) then "" else line) + [t] + StripCommentLines(rest)
  {
    var s := line + [t] + rest;
    assert s == line + ([t] + rest);
    LineLengthOf(line, [t] + rest);
    assert s[..|line|] == line && s[|line|] == t && s[|line| + 1..] == rest;
  }

  /** The last line, with no terminator after it. */
  lemma {:induction false} StripLastLine(line: string)
    requires NoTerminator(line)
    ensures StripCommentLines(line) == if IsCommentLine(line) then "" else line
  {
    LineLengthOf(line, []);
    assert line + [] == line && line[..|line|] == line;
  }

  /** A hex word cannot run across a character that is not a hex digit: the
      words of `a + c` are those of `a` and then those of `c`. */
  lemma {:induction false} ParseProgramSplit(a: string, c: string)
    requires c != [] && !IsHexChar(c[0])
    ensures ParseProgram(a + c) == ParseProgram(a) + ParseProgram(c)
    decreases |a|
  {
    var ac := a + c;
    if a == [] {
      assert ac == c;
    } else {
      if |a| < 4 {
        assert ac[|a|] == c[0];
      } else {
        assert ac[..4] == a[..4];
      }
      if StartsWithHexWord(ac) {
        assert ac[4..] == a[4..] + c;
        ParseProgramSplit(a[4..], c);
      } else {
        assert ac[1..] == a[1..] + c;
        ParseProgramSplit(a[1..], c);
      }
    }
  }

  /** What a line of the disassembler's input loads: no words for a line
      that starts with `//`, the hex words of the line itself otherwise, and
      no word runs on across the line terminator. */
  lemma {:induction false} LineWords(line: string, t: char, rest: string)
    requires NoTerminator(line) && IsLineTerminator(t)
    ensures ParseProgram(StripCommentLines(line + [t] + rest))
         == (if IsCommentLine(line) then [] else ParseProgram(line)) + ParseProgram(StripCommentLines(rest))
  {
    StripLine(line, t, rest);
    var kept := if IsCommentLine(line) then "" else line;
    var tail := StripCommentLines(rest);
    assert kept + [t] + tail == kept + ([t] + tail);
    ParseProgramSplit(kept, [t] + tail);
    assert !StartsWithHexWord([t] + tail);
    assert ([t] + tail)[1..] == tail;
    if kept == "" {
      assert ParseProgram(kept) == [];
    }
  }
}
