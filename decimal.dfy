/**
 * Decimal renderings of natural numbers: Java's `toString` of an integer and the
 * zero-padded numeric fields of a `SimpleDateFormat` pattern such as "yyyy" or "MM".
 */
module Decimal {

  predicate IsDigit(c: char) { '0' <= c <= '9' }

  predicate AllDigits(s: string) { forall i :: 0 <= i < |s| ==> IsDigit(s[i]) }

  function DigitChar(d: nat): (c: char)
    requires d < 10
    ensures IsDigit(c)
  {
    ('0' as int + d) as char
  }

  function DigitValue(c: char): (d: nat)
    requires IsDigit(c)
    ensures d < 10 && DigitChar(d) == c
  {
    (c as int - '0' as int) as nat
  }

  lemma DigitCharValue(d: nat)
    requires d < 10
    ensures DigitValue(DigitChar(d)) == d
  {
  }

  function Pow10(w: nat): (p: nat)
    ensures p >= 1
  {
    if w == 0 then 1 else 10 * Pow10(w - 1)
  }

  /** `n` in decimal, left-padded with zeros to at least `w` digits (at least one digit). */
  function Digits(n: nat, w: nat): string
    decreases n + w
  {
    if n < 10 && w <= 1 then [DigitChar(n)]
    else Digits(n / 10, if w == 0 then 0 else w - 1) + [DigitChar(n % 10)]
  }

  /** The number a string of decimal digits denotes. */
  function ValueOf(s: string): (n: nat)
    requires AllDigits(s)
    ensures n < Pow10(|s|)
  {
    if s == [] then 0 else ValueOf(s[..|s| - 1]) * 10 + DigitValue(s[|s| - 1])
  }

  /** Java's decimal `toString` of an integer. */
  function DecimalText(n: int): string
  {
    if n < 0 then "-" + Digits(-n, 1) else Digits(n, 1)
  }

  lemma {:induction false} DigitsAreDigits(n: nat, w: nat)
    ensures AllDigits(Digits(n, w))
    decreases n + w
  {
    if !(n < 10 && w <= 1) {
      DigitsAreDigits(n / 10, if w == 0 then 0 else w - 1);
    }
  }

  /** A number below 10^w takes exactly `w` padded digits. */
  lemma {:induction false} DigitsWidth(n: nat, w: nat)
    requires 1 <= w && n < Pow10(w)
    ensures |Digits(n, w)| == w
    decreases w
  {
    if !(n < 10 && w <= 1) {
      DigitsWidth(n / 10, w - 1);
    }
  }

  /** Reading back a padded rendering gives the number rendered. */
  lemma {:induction false} ValueOfDigits(n: nat, w: nat)
    ensures AllDigits(Digits(n, w)) && ValueOf(Digits(n, w)) == n
    decreases n + w
  {
    DigitsAreDigits(n, w);
    if n < 10 && w <= 1 {
      var s := [DigitChar(n)];
      assert s[..0] == [];
      DigitCharValue(n);
    } else {
      var q, r := n / 10, n % 10;
      var w' := if w == 0 then 0 else w - 1;
      var prefix := Digits(q, w');
      var s := prefix + [DigitChar(r)];
      assert Digits(n, w) == s;
      ValueOfDigits(q, w');
      assert s[..|s| - 1] == prefix;
      DigitCharValue(r);
      assert ValueOf(s) == ValueOf(prefix) * 10 + r;
      assert q * 10 + r == n;
    }
  }

  /** Rendering the value of a digit string at its own width gives the string back. */
  lemma {:induction false} DigitsOfValue(s: string)
    requires |s| >= 1 && AllDigits(s)
    ensures Digits(ValueOf(s), |s|) == s
    decreases |s|
  {
    var init := s[..|s| - 1];
    if |s| > 1 {
      DigitsOfValue(init);
      assert ValueOf(s) / 10 == ValueOf(init);
      assert init + [s[|s| - 1]] == s;
    }
  }
}
