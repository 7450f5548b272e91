/** Positional numerals, as Rust's formatter writes unsigned integers:
    `format!("{:o}", n)` in base 8 and `format!("{}", n)` in base 10, most
    significant digit first, no sign, no padding, and "0" for zero.
 */
module Numerals {

  /** The character of one digit value below ten. */
  function DigitChar(d: nat): (c: char)
    requires d < 10
    ensures '0' <= c <= '9'
    ensures c as int - '0' as int == d
  {
    ('0' as int + d) as char
  }

  predicate IsDigitIn(c: char, base: nat) {
    '0' <= c && (c as int) < '0' as int + base
  }

  predicate AllDigitsIn(s: string, base: nat) {
    forall i :: 0 <= i < |s| ==> IsDigitIn(s[i], base)
  }

  /** The numeral of `n` in `base`, as `{:o}` (base 8) and `{}` (base 10) print it. */
  function ToRadix(n: nat, base: nat): (s: string)
    requires base == 8 || base == 10
    ensures |s| >= 1
    ensures AllDigitsIn(s, base)
    ensures n > 0 ==> s[0] != '0'
    ensures s[|s| - 1] == DigitChar(n % base)
    decreases n
  {
    if n < base then [DigitChar(n)] else ToRadix(n / base, base) + [DigitChar(n % base)]
  }

  /** The value a numeral denotes: the partner of `ToRadix`. */
  function FromRadix(s: string, base: nat): nat
    requires base == 8 || base == 10
    requires AllDigitsIn(s, base)
  {
    if s == [] then 0
    else FromRadix(s[..|s| - 1], base) * base + (s[|s| - 1] as int - '0' as int)
  }

  /** Reading back a printed numeral gives the number printed. */
  lemma {:induction false} FromToRadix(n: nat, base: nat)
    requires base == 8 || base == 10
    ensures FromRadix(ToRadix(n, base), base) == n
    decreases n
  {
    var s := ToRadix(n, base);
    if n >= base {
      var q, r := n / base, n % base;
      QuotientRemainder(n, base);
      FromToRadix(q, base);
      assert s[..|s| - 1] == ToRadix(q, base);
      assert s[|s| - 1] as int - '0' as int == r;
      assert FromRadix(s, base) == q * base + r;
    }
  }

  /** Printing the value of a numeral without a leading zero gives it back. */
  lemma {:induction false} ToFromRadix(s: string, base: nat)
    requires base == 8 || base == 10
    requires |s| >= 1 && AllDigitsIn(s, base)
    requires |s| > 1 ==> s[0] != '0'
    ensures ToRadix(FromRadix(s, base), base) == s
    decreases |s|
  {
    var c := s[|s| - 1];
    var last := c as int - '0' as int;
    assert IsDigitIn(c, base);
    assert DigitChar(last) == c;
    var front := s[..|s| - 1];
    assert AllDigitsIn(front, base) by {
      assert forall i :: 0 <= i < |front| ==> front[i] == s[i];
    }
    var f := FromRadix(front, base);
    var v := FromRadix(s, base);
    assert v == f * base + last;
    if |s| == 1 {
      assert f == 0;
      assert v == last < base;
      assert ToRadix(v, base) == [c];
    } else {
      ToFromRadix(front, base);
      PositiveValue(front, base);
      DivUnique(v, base, f, last);
      assert v >= base by {
        if base == 8 { assert v >= 8 * f; } else { assert v >= 10 * f; }
      }
      assert ToRadix(v, base) == ToRadix(f, base) + [DigitChar(last)];
      assert s == front + [c];
    }
  }

  /** A numeral that does not start with '0' denotes a positive number. */
  lemma {:induction false} PositiveValue(s: string, base: nat)
    requires base == 8 || base == 10
    requires |s| >= 1 && AllDigitsIn(s, base) && s[0] != '0'
    ensures FromRadix(s, base) >= 1
    decreases |s|
  {
    if |s| > 1 {
      PositiveValue(s[..|s| - 1], base);
    }
  }

  /** Division by the base, for the two bases the formatter is used with. */
  lemma QuotientRemainder(n: nat, base: nat)
    requires base == 8 || base == 10
    ensures n == (n / base) * base + n % base
    ensures 0 <= n % base < base
    ensures n >= base ==> 1 <= n / base < n
  {
    if base == 8 {
      assert n == (n / 8) * 8 + n % 8;
    } else {
      assert n == (n / 10) * 10 + n % 10;
    }
  }

  /** The quotient and remainder by the base are the only such pair. */
  lemma DivUnique(n: nat, base: nat, q: nat, r: nat)
    requires base == 8 || base == 10
    requires n == q * base + r && r < base
    ensures n / base == q && n % base == r
  {
  }

  function NatToOctal(n: nat): string { ToRadix(n, 8) }

  function NatToDecimal(n: nat): string { ToRadix(n, 10) }

  /** The octal form of `mode` has at least three digits exactly when `mode`
      is at least 0o100, and then its last three digits are the octal digits
      of `mode` of weight 0o100, 0o10 and 1: whatever stands above them (the
      set-id and sticky bits, the file type) is cut off. */
  lemma OctalLastThree(mode: nat)
    ensures |NatToOctal(mode)| >= 3 <==> mode >= 64
    ensures mode >= 64 ==>
      NatToOctal(mode)[|NatToOctal(mode)| - 3..]
        == [DigitChar(mode / 64 % 8), DigitChar(mode / 8 % 8), DigitChar(mode % 8)]
  {
    var s := NatToOctal(mode);
    if mode < 8 {
      assert |s| == 1;
    } else if mode < 64 {
      assert |s| == |ToRadix(mode / 8, 8)| + 1;
      assert mode / 8 < 8;
    } else {
      var q1 := mode / 8;
      var q2 := q1 / 8;
      assert q2 == mode / 64;
      assert q1 >= 8;
      assert q2 >= 1;
      var t := ToRadix(q2, 8);
      assert ToRadix(q1, 8) == t + [DigitChar(q1 % 8)];
      assert s == t + [DigitChar(q1 % 8)] + [DigitChar(mode % 8)];
      assert s[|s| - 3..] == [t[|t| - 1], DigitChar(q1 % 8), DigitChar(mode % 8)];
    }
  }
}
