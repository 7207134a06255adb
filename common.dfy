/** Small shared vocabulary: optional values, results with an error, and the
    string helpers that the emulator's listing text and the assembler use. */
module Common {

  datatype Option<+T> = None | Some(value: T)

  /** A value or the first error met while computing it. */
  datatype Result<+T, +E> = Ok(value: T) | Err(error: E) {
    predicate IsFailure() { Err? }

    function PropagateFailure<U>(): Result<U, E>
      requires Err?
    {
      Err(error)
    }

    function Extract(): T
      requires Ok?
    {
      value
    }
  }

  predicate IsDigit(c: char) { '0' <= c <= '9' }

  predicate AllDigits(s: string)
  {
    forall i :: 0 <= i < |s| ==> IsDigit(s[i])
  }

  /** The number a string of decimal digits spells, most significant first. */
  function DigitsValue(s: string): nat
    requires AllDigits(s)
  {
    if s == [] then 0 else DigitsValue(s[..|s| - 1]) * 10 + (s[|s| - 1] as int - '0' as int)
  }

  /** Decimal digits of a natural number, most significant first (no sign, no leading zeros). */
  function NatDigits(n: nat): (s: string)
    ensures |s| >= 1 && AllDigits(s)
    ensures DigitsValue(s) == n
    ensures s[0] == '0' ==> s == "0"
    decreases n
  {
    var d := [(('0' as int) + n % 10) as char];
    if n < 10 then d
    else
      var hi := NatDigits(n / 10);
      assert (hi + d)[..|hi + d| - 1] == hi;
      hi + d
  }

  /** The text JavaScript's `${n}` gives for an integer: a minus sign exactly
      for a negative number, then the digits of its magnitude, which read back
      as that magnitude and have no leading zero. */
  function Decimal(n: int): (s: string)
    ensures |s| >= 1
    ensures (s[0] == '-') <==> n < 0
    ensures var digits := if n < 0 then s[1..] else s;
      && |digits| >= 1 && AllDigits(digits)
      && DigitsValue(digits) == (if n < 0 then -n else n)
      && (digits[0] == '0' ==> digits == "0")
  {
    if n < 0 then
      var s := "-" + NatDigits(-n);
      assert s[1..] == NatDigits(-n);
      s
    else NatDigits(n)
  }

  /** ASCII lower-casing of one character. */
  function LowerChar(c: char): (d: char)
    ensures 'A' <= c <= 'Z' ==> 'a' <= d <= 'z'
    ensures !('A' <= c <= 'Z') ==> d == c
  {
    if 'A' <= c <= 'Z' then (c as int + 32) as char else c
  }

  function ToLower(s: string): (t: string)
    ensures |t| == |s|
    ensures forall i :: 0 <= i < |s| ==> t[i] == LowerChar(s[i])
  {
    seq(|s|, i requires 0 <= i < |s| => LowerChar(s[i]))
  }

  /** `s.padEnd(width, ' ')`. */
  function PadEnd(s: string, width: nat): (t: string)
    ensures |t| == if |s| < width then width else |s|
    ensures t[..|s|] == s
    ensures forall i :: |s| <= i < |t| ==> t[i] == ' '
  {
    if |s| < width then s + seq(width - |s|, _ => ' ') else s
  }

  /** `parts.join(sep)`. */
  function Join(parts: seq<string>, sep: string): string
  {
    if |parts| == 0 then ""
    else if |parts| == 1 then parts[0]
    else Join(parts[..|parts| - 1], sep) + sep + parts[|parts| - 1]
  }

  lemma AppendAssoc<T>(a: seq<T>, b: seq<T>, c: seq<T>)
    ensures (a + b) + c == a + (b + c)
  {
  }
}
