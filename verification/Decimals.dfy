/** Decimal numerals, as String(n) prints them and Number(s) reads them back. */
module Decimals {

  function Digit(d: nat): char
    requires d < 10
  {
    "0123456789"[d]
  }

  predicate IsDigit(c: char) {
    '0' <= c <= '9'
  }

  function DigitValue(c: char): (d: nat)
    requires IsDigit(c)
    ensures d < 10
  {
    c as int - '0' as int
  }

  function Print(n: nat): (s: string)
    ensures s != [] && forall i | 0 <= i < |s| :: IsDigit(s[i])
  {
    if n < 10 then [Digit(n)] else Print(n / 10) + [Digit(n % 10)]
  }

  function Value(s: string): nat
    requires forall i | 0 <= i < |s| :: IsDigit(s[i])
  {
    if s == [] then 0 else 10 * Value(s[..|s| - 1]) + DigitValue(s[|s| - 1])
  }

  /** A positive numeral starts with a non-zero digit and reads back as itself. */
  lemma {:induction false} PrintThenRead(n: nat)
    ensures Value(Print(n)) == n
    ensures n > 0 ==> Print(n)[0] != '0'
  {
    if n >= 10 {
      PrintThenRead(n / 10);
      var s := Print(n);
      assert s[..|s| - 1] == Print(n / 10);
    }
  }

  lemma PrintIsInjective(a: nat, b: nat)
    requires Print(a) == Print(b)
    ensures a == b
  {
    PrintThenRead(a);
    PrintThenRead(b);
  }

  lemma DigitOfItsValue(c: char)
    requires IsDigit(c)
    ensures Digit(DigitValue(c)) == c
  {
  }

  lemma SplitOffLastDigit(head: nat, d: nat)
    requires d < 10
    ensures (10 * head + d) / 10 == head && (10 * head + d) % 10 == d
  {
  }

  /** The canonical spelling is the only one without a leading zero. */
  lemma {:induction false} ReadThenPrint(s: string)
    requires s != [] && s[0] != '0'
    requires forall i | 0 <= i < |s| :: IsDigit(s[i])
    ensures Value(s) > 0 && Print(Value(s)) == s
  {
    var init, last := s[..|s| - 1], s[|s| - 1];
    DigitOfItsValue(last);
    if init != [] {
      ReadThenPrint(init);
      SplitOffLastDigit(Value(init), DigitValue(last));
      assert s == init + [last];
    }
  }

  lemma {:induction false} FewDigits(n: nat, digits: nat, bound: nat)
    requires digits > 0 && bound == Pow10(digits)
    ensures |Print(n)| <= digits <==> n < bound
  {
    if digits > 1 && n >= 10 {
      FewDigits(n / 10, digits - 1, Pow10(digits - 1));
    }
  }

  function Pow10(k: nat): (p: nat)
    ensures p > 0
  {
    if k == 0 then 1 else 10 * Pow10(k - 1)
  }
}
