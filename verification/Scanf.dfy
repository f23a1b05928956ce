/**
  The part of C's scanf and printf that the daemon relies on: unsigned numbers in base 10
  and 16, white space, literals, and fixed-width hexadecimal text.
 */
module Scanf {
  import opened SharedDisk

  const TWO64: nat := 0x1_0000_0000_0000_0000
  const TWO32: nat := 0x1_0000_0000

  /** A converted number and the text after it. */
  datatype Scanned = Scanned(value: nat, rest: string)

  predicate IsSpace(c: char) { c == ' ' || '\t' <= c <= '\r' }

  function SkipSpace(s: string): string {
    if s != "" && IsSpace(s[0]) then SkipSpace(s[1..]) else s
  }

  lemma {:induction false} SkipSpaceStops(s: string)
    ensures var t := SkipSpace(s); t == "" || !IsSpace(t[0])
    decreases |s|
  {
    if s == "" || !IsSpace(s[0]) {
    } else {
      SkipSpaceStops(s[1..]);
    }
  }

  /** Only white space is skipped, and nothing is left of white space alone. */
  lemma {:induction false} SkipSpaceLeaves(s: string)
    ensures SkipSpace(s) == "" <==> forall i | 0 <= i < |s| :: IsSpace(s[i])
    decreases |s|
  {
    if s == "" || !IsSpace(s[0]) {
    } else {
      SkipSpaceLeaves(s[1..]);
      assert forall i | 0 <= i < |s[1..]| :: s[1..][i] == s[i + 1];
      assert forall i | 1 <= i < |s| :: s[i] == s[1..][i - 1];
    }
  }

  /** The text after the literal `lit`, if `s` starts with it. */
  function Literal(s: string, lit: string): Option<string> {
    if lit <= s then Some(s[|lit|..]) else None
  }

  function Digit(c: char, base: nat): Option<nat> {
    var d := if '0' <= c <= '9' then (c as nat) - ('0' as nat)
             else if 'a' <= c <= 'f' then (c as nat) - ('a' as nat) + 10
             else if 'A' <= c <= 'F' then (c as nat) - ('A' as nat) + 10
             else base;
    if d < base then Some(d) else None
  }

  predicate AllDigits(s: string, base: nat) {
    forall i | 0 <= i < |s| :: Digit(s[i], base).Some?
  }

  /** The number of digits `s` starts with, at most `width`. */
  function DigitCount(s: string, base: nat, width: nat): (n: nat)
    ensures n <= |s| && n <= width && AllDigits(s[..n], base)
  {
    if s == "" || width == 0 || Digit(s[0], base).None? then 0
    else
      var n := DigitCount(s[1..], base, width - 1);
      assert s[..n + 1] == [s[0]] + s[1..][..n];
      n + 1
  }

  function Value(s: string, base: nat): nat
    requires AllDigits(s, base)
  {
    if s == "" then 0
    else Value(s[..|s| - 1], base) * base + Digit(s[|s| - 1], base).value
  }

  /** strtoull: too large a number becomes the largest one, and a minus sign wraps around. */
  function Clamp(v: nat, negative: bool): (r: Key) {
    if v >= TWO64 then TWO64 - 1 else if negative then (TWO64 - v) % TWO64 else v
  }

  function Prefix(s: string, base: nat, width: nat): (r: nat)
    ensures r <= |s| && r <= width
  {
    if base == 16 && width >= 2 && |s| >= 2 && s[0] == '0' && (s[1] == 'x' || s[1] == 'X') then 2 else 0
  }

  /** The digits that `s` starts with, as a number. */
  function Convert(s: string, base: nat, width: nat, negative: bool): Option<Scanned> {
    var n := DigitCount(s, base, width);
    if n == 0 then None else Some(Scanned(Clamp(Value(s[..n], base), negative), s[n..]))
  }

  function SignLength(s: string, width: nat): nat {
    if s != "" && width > 0 && (s[0] == '+' || s[0] == '-') then 1 else 0
  }

  /** One unsigned conversion: white space, then at most `width` characters of sign, 0x and digits. */
  function ScanNumber(s: string, base: nat, width: nat): Option<Scanned> {
    var t := SkipSpace(s);
    var sign := SignLength(t, width);
    var pre := Prefix(t[sign..], base, width - sign);
    Convert(t[sign + pre..], base, width - sign - pre, sign == 1 && t[0] == '-')
  }

  /** White space in front of a number does not count. */
  lemma NumberAfterSpace(s: string, base: nat, width: nat)
    ensures ScanNumber(s, base, width) == ScanNumber(SkipSpace(s), base, width)
  {
    hide Convert, Prefix, SignLength;
    SkipSpaceStops(s);
    assert SkipSpace(SkipSpace(s)) == SkipSpace(s);
  }

  lemma {:induction false} CountDigits(t: string, rest: string, base: nat, width: nat)
    requires AllDigits(t, base) && |t| <= width
    requires |t| == width || rest == "" || Digit(rest[0], base).None?
    ensures DigitCount(t + rest, base, width) == |t|
    decreases |t|
  {
    if t == "" {
      assert t + rest == rest;
    } else {
      assert (t + rest)[1..] == t[1..] + rest;
      CountDigits(t[1..], rest, base, width - 1);
    }
  }

  lemma ConvertDigits(t: string, rest: string, base: nat, width: nat)
    requires t != "" && AllDigits(t, base) && |t| <= width
    requires |t| == width || rest == "" || Digit(rest[0], base).None?
    ensures Convert(t + rest, base, width, false) == Some(Scanned(Clamp(Value(t, base), false), rest))
  {
    CountDigits(t, rest, base, width);
    assert (t + rest)[..|t|] == t && (t + rest)[|t|..] == rest;
  }

  /** Without white space or a sign in front, conversion starts at the digits or at 0x. */
  lemma ScanUnsigned(s: string, base: nat, width: nat)
    requires s != "" && !IsSpace(s[0]) && s[0] != '+' && s[0] != '-'
    ensures var pre := Prefix(s, base, width);
            ScanNumber(s, base, width) == Convert(s[pre..], base, width - pre, false)
  {
    hide Convert, Prefix;
    assert s[0..] == s;
    var pre := Prefix(s, base, width);
    assert s[0 + pre..] == s[pre..];
  }

  /** Digits up to the end of the number scan to their value. */
  lemma ScanDigits(t: string, rest: string, base: nat, width: nat)
    requires t != "" && AllDigits(t, base) && |t| <= width
    requires |t| == width || rest == "" || Digit(rest[0], base).None?
    requires |t| == 1 && rest != "" ==> rest[0] != 'x' && rest[0] != 'X'
    ensures ScanNumber(t + rest, base, width) == Some(Scanned(Clamp(Value(t, base), false), rest))
  {
    hide ScanNumber, Convert, DigitCount, Value;
    var s := t + rest;
    assert Digit(t[0], base).Some? && s[0] == t[0];
    ScanUnsigned(s, base, width);
    assert Prefix(s, base, width) == 0 by {
      if |t| > 1 {
        assert Digit(t[1], base).Some? && s[1] == t[1];
      } else if |s| > 1 {
        assert s[1] == rest[0];
      }
    }
    assert s[0..] == t + rest;
    ConvertDigits(t, rest, base, width);
  }

  lemma ConvertSigned(t: string, rest: string, width: nat, negative: bool)
    requires t != "" && AllDigits(t, 10) && |t| <= width
    requires |t| == width || rest == "" || Digit(rest[0], 10).None?
    ensures Convert(t + rest, 10, width, negative) == Some(Scanned(Clamp(Value(t, 10), negative), rest))
  {
    CountDigits(t, rest, 10, width);
    assert (t + rest)[..|t|] == t && (t + rest)[|t|..] == rest;
  }

  /** Behind a minus sign the number is negated modulo 2^64; one of 2^64 or more becomes 2^64 - 1. */
  lemma ScanSignedDigits(sign: char, t: string, rest: string, width: nat)
    requires sign == '+' || sign == '-'
    requires t != "" && AllDigits(t, 10) && |t| + 1 <= width
    requires |t| + 1 == width || rest == "" || Digit(rest[0], 10).None?
    ensures var v := Value(t, 10);
            ScanNumber([sign] + (t + rest), 10, width)
            == Some(Scanned(if v >= TWO64 then TWO64 - 1 else if sign == '+' || v == 0 then v else TWO64 - v, rest))
  {
    hide Convert, Value;
    var s := [sign] + (t + rest);
    assert s[1..] == t + rest && s[1 + 0..] == t + rest;
    hide Digit;
    ConvertSigned(t, rest, width - 1, sign == '-');
  }

  /** The same behind a 0x prefix. */
  lemma ScanPrefixedDigits(t: string, rest: string, width: nat)
    requires t != "" && AllDigits(t, 16) && |t| + 2 <= width
    requires |t| + 2 == width || rest == "" || Digit(rest[0], 16).None?
    ensures ScanNumber("0x" + t + rest, 16, width) == Some(Scanned(Clamp(Value(t, 16), false), rest))
  {
    hide ScanNumber, Convert, DigitCount, Value;
    var s := "0x" + t + rest;
    assert s[0] == '0' && s[1] == 'x';
    ScanUnsigned(s, 16, width);
    assert s[2..] == t + rest;
    ConvertDigits(t, rest, 16, width - 2);
  }

  // ---------- Numbers without leading zeros ----------

  function DigitChar(d: nat, base: nat): (c: char)
    requires d < base <= 16
    ensures Digit(c, base) == Some(d)
  {
    "0123456789abcdef"[d]
  }

  lemma DivideAndMultiply(n: nat, base: nat)
    requires base > 0
    ensures n == n / base * base + n % base
  {
  }

  lemma AtLeastTwice(q: nat, base: nat)
    requires base >= 2
    ensures q * base >= q * 2
  {
    assert q * base == q * 2 + q * (base - 2);
  }

  lemma QuotientIsSmaller(n: nat, base: nat)
    requires n > 0 && base >= 2
    ensures n / base < n
  {
    var q := n / base;
    DivideAndMultiply(n, base);
    AtLeastTwice(q, base);
  }

  /** What "%u" prints for base 10, and "%x" for base 16. */
  function Numeral(n: nat, base: nat): (s: string)
    requires 2 <= base <= 16
    ensures s != "" && AllDigits(s, base)
  {
    if n < base then [DigitChar(n, base)]
    else
      QuotientIsSmaller(n, base);
      Numeral(n / base, base) + [DigitChar(n % base, base)]
  }

  lemma ValueOfNext(s: string, c: char, base: nat)
    requires AllDigits(s, base) && Digit(c, base).Some?
    ensures AllDigits(s + [c], base) && Value(s + [c], base) == Value(s, base) * base + Digit(c, base).value
  {
    assert (s + [c])[..|s|] == s;
  }

  lemma NumeralIs(n: nat, base: nat)
    requires 2 <= base <= 16
    ensures n < base ==> Numeral(n, base) == "" + [DigitChar(n, base)]
    ensures n >= base ==> n / base < n && Numeral(n, base) == Numeral(n / base, base) + [DigitChar(n % base, base)]
  {
    if n == 0 {
    } else {
      QuotientIsSmaller(n, base);
    }
  }

  lemma NoValue(base: nat)
    ensures AllDigits("", base) && Value("", base) == 0
  {
  }

  lemma {:induction false} NumeralValue(n: nat, base: nat)
    requires 2 <= base <= 16
    ensures Value(Numeral(n, base), base) == n
    decreases n
  {
    hide Value, Digit, AllDigits, Numeral;
    NumeralIs(n, base);
    if n < base {
      NoValue(base);
      ValueOfNext("", DigitChar(n, base), base);
    } else {
      NumeralValue(n / base, base);
      ValueOfNext(Numeral(n / base, base), DigitChar(n % base, base), base);
      DivideAndMultiply(n, base);
    }
  }

  // ---------- Hexadecimal text of fixed width ----------

  function Power(base: nat, n: nat): nat {
    if n == 0 then 1 else base * Power(base, n - 1)
  }

  /** The last `n` hexadecimal digits of `k`, padded with zeros. */
  function HexText(k: nat, n: nat): (s: string)
    ensures |s| == n && AllDigits(s, 16)
  {
    if n == 0 then "" else HexText(k / 16, n - 1) + [DigitChar(k % 16, 16)]
  }

  lemma {:induction false} HexValue(k: nat, n: nat)
    requires k < Power(16, n)
    ensures Value(HexText(k, n), 16) == k
  {
    if n == 0 {
    } else {
      HexValue(k / 16, n - 1);
      var s := HexText(k, n);
      assert s[..|s| - 1] == HexText(k / 16, n - 1);
    }
  }

  lemma PowerOfSixteen()
    ensures Power(16, 16) == TWO64
  {
    assert Power(16, 4) == 0x1_0000;
    assert Power(16, 8) == 0x1_0000_0000 by {
      assert Power(16, 6) == 0x100_0000;
    }
    assert Power(16, 12) == 0x1_0000_0000_0000 by {
      assert Power(16, 10) == 0x100_0000_0000;
    }
    assert Power(16, 14) == 0x100_0000_0000_0000;
  }

  /** What "%016lx" prints for a key. */
  function KeyText(k: Key): string { HexText(k, 16) }

  /** Printed keys read back, whatever text follows, if no more than 16 characters are read. */
  lemma KeyTextScans(k: Key, rest: string)
    ensures ScanNumber(KeyText(k) + rest, 16, 16) == Some(Scanned(k, rest))
  {
    PowerOfSixteen();
    HexValue(k, 16);
    ScanDigits(KeyText(k), rest, 16, 16);
  }

  /** Keys are printed in 16 digits, in lower case. */
  lemma {:induction false} HexTextIsLowerCase(k: nat, n: nat)
    ensures forall i | 0 <= i < n :: '0' <= HexText(k, n)[i] <= '9' || 'a' <= HexText(k, n)[i] <= 'f'
    decreases n
  {
    if n == 0 {
    } else {
      HexTextIsLowerCase(k / 16, n - 1);
    }
  }
}
