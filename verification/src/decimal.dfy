/** Decimal text of natural numbers, as printed by `std::to_string` and
    `QString::arg`, and read back digit by digit. */
module Decimal {

  predicate IsDigit(c: char) {
    '0' <= c <= '9'
  }

  predicate AllDigits(s: string) {
    forall i :: 0 <= i < |s| ==> IsDigit(s[i])
  }

  function DigitChar(d: nat): (c: char)
    requires d < 10
    ensures IsDigit(c)
  {
    ('0' as int + d) as char
  }

  function DigitValue(c: char): (d: nat)
    requires IsDigit(c)
    ensures d < 10
  {
    c as int - '0' as int
  }

  /** Shortest decimal text of `n`: digits only, no leading zero. */
  function ToDecimal(n: nat): (s: string)
    ensures 0 < |s| && AllDigits(s)
    ensures s[0] == '0' <==> n == 0
    ensures s[0] == '0' ==> |s| == 1
    decreases n
  {
    if n < 10 then [DigitChar(n)] else ToDecimal(n / 10) + [DigitChar(n % 10)]
  }

  /** The number a digit string denotes; leading zeros are allowed. */
  function Value(s: string): nat
    requires AllDigits(s)
  {
    PrefixValue(s, |s|)
  }

  /** The number denoted by the first `n` digits of `s`. */
  function PrefixValue(s: string, n: nat): nat
    requires n <= |s| && AllDigits(s)
  {
    if n == 0 then 0 else PrefixValue(s, n - 1) * 10 + DigitValue(s[n - 1])
  }

  lemma {:induction false} PrefixValueOfPrefix(s: string, m: nat, n: nat)
    requires n <= m <= |s| && AllDigits(s)
    ensures PrefixValue(s[..m], n) == PrefixValue(s, n)
    decreases n
  {
    if n > 0 {
      PrefixValueOfPrefix(s, m, n - 1);
    }
  }

  /** The last digit is the units digit. */
  lemma ValueSnoc(s: string)
    requires 0 < |s| && AllDigits(s)
    ensures Value(s) == Value(s[..|s| - 1]) * 10 + DigitValue(s[|s| - 1])
  {
    PrefixValueOfPrefix(s, |s| - 1, |s| - 1);
  }

  /** Reading back the printed text gives the number again. */
  lemma {:induction false} ValueOfToDecimal(n: nat)
    ensures Value(ToDecimal(n)) == n
    decreases n
  {
    var s := ToDecimal(n);
    ValueSnoc(s);
    if n >= 10 {
      assert s[..|s| - 1] == ToDecimal(n / 10);
      ValueOfToDecimal(n / 10);
    } else {
      assert s[..0] == [];
    }
  }

  /** Printing is injective. */
  lemma ToDecimalInjective(m: nat, n: nat)
    requires ToDecimal(m) == ToDecimal(n)
    ensures m == n
  {
    ValueOfToDecimal(m);
    ValueOfToDecimal(n);
  }

  /** Text with no leading zero is exactly the printed form of its value. */
  lemma {:induction false} ToDecimalOfValue(s: string)
    requires 0 < |s| && AllDigits(s)
    requires s[0] == '0' ==> |s| == 1
    ensures ToDecimal(Value(s)) == s
    decreases |s|
  {
    if |s| > 1 {
      var p := s[..|s| - 1];
      assert p[0] == s[0];
      ToDecimalOfValue(p);
      ValuePositive(p);
      ValueSnoc(s);
      assert Value(s) / 10 == Value(p);
      assert Value(s) % 10 == DigitValue(s[|s| - 1]);
    } else {
      ValueSnoc(s);
      assert s[..0] == [];
    }
  }

  /** A digit string that does not start with '0' denotes a positive number. */
  lemma {:induction false} ValuePositive(s: string)
    requires 0 < |s| && AllDigits(s) && s[0] != '0'
    ensures Value(s) > 0
    decreases |s|
  {
    ValueSnoc(s);
    if |s| > 1 {
      var p := s[..|s| - 1];
      assert p[0] == s[0];
      ValuePositive(p);
    }
  }

  function Pow10(k: nat): (r: nat)
    ensures r > 0
  {
    if k == 0 then 1 else 10 * Pow10(k - 1)
  }

  /** A digit string with no leading zero denotes at least 10^(length - 1). */
  lemma {:induction false} ValueAtLeast(s: string)
    requires 0 < |s| && AllDigits(s) && s[0] != '0'
    ensures Value(s) >= Pow10(|s| - 1)
    decreases |s|
  {
    ValueSnoc(s);
    if |s| > 1 {
      var p := s[..|s| - 1];
      assert p[0] == s[0];
      ValueAtLeast(p);
    } else {
      assert s[..0] == [];
    }
  }

  /** Left-pads `s` with `fill` up to `width` characters; longer text is kept whole
      (the field width of `QString::arg`). */
  function PadLeft(s: string, width: nat, fill: char): (r: string)
    ensures |r| == if |s| < width then width else |s|
    ensures r[|r| - |s|..] == s
    ensures forall i :: 0 <= i < |r| - |s| ==> r[i] == fill
  {
    if |s| < width then seq(width - |s|, _ => fill) + s else s
  }
  /** A leading zero does not change the value. */
  lemma {:induction false} ValueLeadingZero(s: string)
    requires AllDigits(s)
    ensures AllDigits(['0'] + s) && Value(['0'] + s) == Value(s)
    decreases |s|
  {
    var t := ['0'] + s;
    ValueSnoc(t);
    if |s| == 0 {
      assert t[..0] == [];
    } else {
      ValueSnoc(s);
      assert t[..|t| - 1] == ['0'] + s[..|s| - 1];
      ValueLeadingZero(s[..|s| - 1]);
    }
  }

  /** Zero-padding a digit string keeps its value. */
  lemma PadLeftStep(s: string, width: nat, fill: char)
    requires |s| < width
    ensures PadLeft(s, width, fill) == [fill] + PadLeft(s, width - 1, fill)
  {
    assert seq(width - |s|, _ => fill) == [fill] + seq(width - 1 - |s|, _ => fill);
  }

  lemma {:induction false} ValuePadLeft(s: string, width: nat)
    requires AllDigits(s)
    ensures AllDigits(PadLeft(s, width, '0')) && Value(PadLeft(s, width, '0')) == Value(s)
    decreases width
  {
    if |s| < width {
      PadLeftStep(s, width, '0');
      ValuePadLeft(s, width - 1);
      ValueLeadingZero(PadLeft(s, width - 1, '0'));
    }
  }

  /** A number below 10^k prints in at most k digits. */
  lemma {:induction false} ToDecimalLength(n: nat, k: nat)
    requires 0 < k && n < Pow10(k)
    ensures |ToDecimal(n)| <= k
    decreases n
  {
    if n >= 10 {
      assert Pow10(k) == 10 * Pow10(k - 1);
      ToDecimalLength(n / 10, k - 1);
    }
  }
}
