/**
 * Upper-case hexadecimal formatting of code points, zero-padded to at least
 * four digits (Python's `f'{n:04X}'` for a non-negative `n`), and parsing
 * such a string back into the number it names.
 */
module HexFormat {
  import opened Wrappers

  /** The digits `f'{n:X}'` writes. */
  predicate IsUpperHexDigit(c: char) {
    ('0' <= c <= '9') || ('A' <= c <= 'F')
  }

  /** The digits `int(s, 16)` accepts: the upper-case ones and `a`-`f`. */
  predicate IsHexDigit(c: char) {
    IsUpperHexDigit(c) || ('a' <= c <= 'f')
  }

  predicate AllHexDigits(s: string) {
    forall i :: 0 <= i < |s| ==> IsHexDigit(s[i])
  }

  predicate AllUpperHexDigits(s: string) {
    forall i :: 0 <= i < |s| ==> IsUpperHexDigit(s[i])
  }

  function DigitValue(c: char): (d: nat)
    requires IsHexDigit(c)
    ensures d < 16
  {
    if '0' <= c <= '9' then c as int - '0' as int
    else if 'A' <= c <= 'F' then c as int - 'A' as int + 10
    else c as int - 'a' as int + 10
  }

  /** The upper-case digit for `d`; `DigitValue` inverts it. */
  function HexDigit(d: nat): (c: char)
    requires d < 16
    ensures IsUpperHexDigit(c) && DigitValue(c) == d
    ensures c == '0' <==> d == 0
  {
    if d < 10 then ('0' as int + d) as char else ('A' as int + d - 10) as char
  }

  /** Shortest upper-case hexadecimal rendering of `n` (at least one digit). */
  function ToHex(n: nat): (s: string)
    ensures |s| >= 1 && AllUpperHexDigits(s)
    decreases n
  {
    if n < 16 then [HexDigit(n)] else ToHex(n / 16) + [HexDigit(n % 16)]
  }

  function Zeros(k: nat): (s: string)
    ensures |s| == k && forall i :: 0 <= i < k ==> s[i] == '0'
  {
    if k == 0 then [] else Zeros(k - 1) + ['0']
  }

  /** `f'{n:04X}'`: upper-case hexadecimal, left-padded with zeros to four digits. */
  function Hex04(n: nat): (s: string)
    ensures |s| >= 4 && AllUpperHexDigits(s)
  {
    var digits := ToHex(n);
    if |digits| < 4 then Zeros(4 - |digits|) + digits else digits
  }

  /** The number a string of hexadecimal digits stands for (most significant first). */
  function HexValue(s: string): nat
    requires AllHexDigits(s)
  {
    if s == [] then 0 else 16 * HexValue(s[..|s| - 1]) + DigitValue(s[|s| - 1])
  }

  /** Parses a non-empty string of hexadecimal digits of either case. */
  function ParseHex(s: string): (r: Option<nat>)
    ensures r.Some? <==> |s| > 0 && AllHexDigits(s)
  {
    if |s| > 0 && AllHexDigits(s) then Some(HexValue(s)) else None
  }

  function Pow16(k: nat): (p: nat)
    ensures p >= 1
  {
    if k == 0 then 1 else 16 * Pow16(k - 1)
  }

  lemma {:induction false} HexValueOfToHex(n: nat)
    ensures HexValue(ToHex(n)) == n
    decreases n
  {
    var s := ToHex(n);
    if n < 16 {
      assert s[..0] == [];
    } else {
      HexValueOfToHex(n / 16);
      assert s[..|s| - 1] == ToHex(n / 16);
    }
  }

  lemma {:induction false} HexValueIgnoresLeadingZeros(k: nat, s: string)
    requires AllHexDigits(s)
    ensures AllHexDigits(Zeros(k) + s) && HexValue(Zeros(k) + s) == HexValue(s)
    decreases |s|, k
  {
    var t := Zeros(k) + s;
    if s == [] {
      assert t == Zeros(k);
      if k > 0 {
        assert t[..|t| - 1] == Zeros(k - 1) + [];
        HexValueIgnoresLeadingZeros(k - 1, []);
      }
    } else {
      assert t[..|t| - 1] == Zeros(k) + s[..|s| - 1];
      HexValueIgnoresLeadingZeros(k, s[..|s| - 1]);
    }
  }

  /** A number of at most `k` hexadecimal digits renders in at most `k` digits. */
  lemma {:induction false} ToHexLength(n: nat, k: nat)
    requires k >= 1 && n < Pow16(k)
    ensures |ToHex(n)| <= k
    decreases n
  {
    if n >= 16 {
      assert k >= 2;
      ToHexLength(n / 16, k - 1);
    }
  }

  /** A number of at least `k + 1` hexadecimal digits renders in more than `k` digits. */
  lemma {:induction false} ToHexLengthAtLeast(n: nat, k: nat)
    requires n >= Pow16(k)
    ensures |ToHex(n)| > k
    decreases k
  {
    if k > 0 {
      ToHexLengthAtLeast(n / 16, k - 1);
    }
  }

  /** The unpadded rendering of a positive number never starts with `0`. */
  lemma {:induction false} ToHexNoLeadingZero(n: nat)
    requires n > 0
    ensures ToHex(n)[0] != '0'
    decreases n
  {
    if n >= 16 {
      ToHexNoLeadingZero(n / 16);
    }
  }

  /** Padding only ever adds zeros: four digits below 0x10000, no leading zero above. */
  lemma Hex04Width(n: nat)
    ensures n < 0x1_0000 ==> |Hex04(n)| == 4
    ensures n >= 0x1_0000 ==> Hex04(n) == ToHex(n) && Hex04(n)[0] != '0'
  {
    if n < 0x1_0000 {
      assert Pow16(4) == 0x1_0000;
      ToHexLength(n, 4);
    } else {
      assert Pow16(4) == 0x1_0000;
      ToHexLengthAtLeast(n, 4);
      ToHexNoLeadingZero(n);
    }
  }

  /** Parsing the formatted code point gives the code point back. */
  lemma Hex04RoundTrip(n: nat)
    ensures ParseHex(Hex04(n)) == Some(n)
  {
    var digits := ToHex(n);
    HexValueOfToHex(n);
    if |digits| < 4 {
      HexValueIgnoresLeadingZeros(4 - |digits|, digits);
    }
  }

  lemma Hex04Injective(m: nat, n: nat)
    ensures Hex04(m) == Hex04(n) <==> m == n
  {
    Hex04RoundTrip(m);
    Hex04RoundTrip(n);
  }
}
