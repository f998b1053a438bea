/**
 * String building blocks the source gets from the JavaScript runtime:
 * `Array.prototype.join`, `Number.prototype.toString(radix)` on integers,
 * and `String.prototype.padStart`.
 */
module Text {

  /** `parts.join(sep)`: the parts in order with `sep` between neighbours. */
  function Join(parts: seq<string>, sep: string): string
  {
    if |parts| == 0 then ""
    else if |parts| == 1 then parts[0]
    else parts[0] + sep + Join(parts[1..], sep)
  }

  lemma {:induction false} JoinAppend(parts: seq<string>, last: string, sep: string)
    requires |parts| > 0
    ensures Join(parts + [last], sep) == Join(parts, sep) + sep + last
    decreases |parts|
  {
    if |parts| == 1 {
      assert parts + [last] == [parts[0], last];
    } else {
      assert (parts + [last])[1..] == parts[1..] + [last];
      JoinAppend(parts[1..], last, sep);
    }
  }

  /** Concatenation of all parts: `parts.join("")`. */
  function Concat(parts: seq<string>): string
  {
    if |parts| == 0 then "" else parts[0] + Concat(parts[1..])
  }

  /** The i-th lower-case digit of base 36, as `toString(radix)` prints it. */
  function DigitChar(d: nat): char
    requires d < 36
  {
    if d < 10 then ('0' as int + d) as char else ('a' as int + (d - 10)) as char
  }

  /** `n.toString(radix)` for a non-negative integer. */
  function NatToString(n: nat, radix: nat): (r: string)
    requires 2 <= radix <= 36
    ensures |r| >= 1
    decreases n
  {
    if n < radix then [DigitChar(n)]
    else NatToString(n / radix, radix) + [DigitChar(n % radix)]
  }

  /** `n.toString(radix)` for any integer: a leading minus sign, then the magnitude's digits. */
  function IntToString(n: int, radix: nat): (r: string)
    requires 2 <= radix <= 36
    ensures |r| >= 1
  {
    if n < 0 then "-" + NatToString(-n, radix) else NatToString(n, radix)
  }

  /** Decimal rendering, as a template literal prints an integral number. */
  function Decimal(n: int): (r: string)
    ensures |r| >= 1
  {
    IntToString(n, 10)
  }

  function Repeat(c: char, k: nat): (r: string)
    ensures |r| == k
    ensures forall i | 0 <= i < k :: r[i] == c
  {
    if k == 0 then "" else [c] + Repeat(c, k - 1)
  }

  /** `s.padStart(width, c)`: fill on the left until the string is `width` long; longer strings are kept. */
  function PadStart(s: string, width: nat, c: char): (r: string)
    ensures |s| >= width ==> r == s
    ensures |s| < width ==> |r| == width && r[width - |s|..] == s
    ensures forall i | 0 <= i < |r| - |s| :: r[i] == c
  {
    if |s| >= width then s else Repeat(c, width - |s|) + s
  }

  predicate IsDigit(c: char)
  {
    '0' <= c <= '9'
  }

  lemma {:induction false} NatToStringDigits(n: nat, radix: nat)
    requires 2 <= radix <= 10
    ensures forall i | 0 <= i < |NatToString(n, radix)| :: IsDigit(NatToString(n, radix)[i])
    decreases n
  {
    if n >= radix {
      NatToStringDigits(n / radix, radix);
      var head := NatToString(n / radix, radix);
      assert NatToString(n, radix) == head + [DigitChar(n % radix)];
    }
  }
}
