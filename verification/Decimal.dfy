/** Decimal numerals as JavaScript prints them. */
module Decimal {

  function Digit(d: nat): char
    requires d < 10
  {
    ['0', '1', '2', '3', '4', '5', '6', '7', '8', '9'][d]
  }

  function Print(n: nat): (s: string)
    ensures s != []
  {
    if n < 10 then [Digit(n)] else Print(n / 10) + [Digit(n % 10)]
  }

  function DigitValue(c: char): nat {
    if '0' <= c <= '9' then c as int - '0' as int else 0
  }

  function Value(s: string): nat {
    if s == [] then 0 else Value(s[..|s| - 1]) * 10 + DigitValue(s[|s| - 1])
  }

  predicate AllDigits(s: string) {
    forall i :: 0 <= i < |s| ==> '0' <= s[i] <= '9'
  }

  lemma DigitReads(d: nat)
    requires d < 10
    ensures DigitValue(Digit(d)) == d && '0' <= Digit(d) <= '9'
  {
  }

  lemma {:induction false} PrintReads(n: nat)
    ensures Value(Print(n)) == n && AllDigits(Print(n))
  {
    if n < 10 {
      DigitReads(n);
      assert Print(n)[..0] == [];
    } else {
      PrintReads(n / 10);
      DigitReads(n % 10);
      assert Print(n)[..|Print(n)| - 1] == Print(n / 10);
    }
  }

  lemma PrintInjective(m: nat, n: nat)
    requires Print(m) == Print(n)
    ensures m == n
  {
    PrintReads(m);
    PrintReads(n);
  }

  function Pow10(k: nat): nat {
    if k == 0 then 1 else 10 * Pow10(k - 1)
  }

  lemma {:induction false} PrintLength(n: nat, k: nat)
    requires k > 0 && n < Pow10(k)
    ensures |Print(n)| <= k
  {
    assert Pow10(0) == 1;
    if n >= 10 {
      PrintLength(n / 10, k - 1);
    }
  }

  lemma {:induction false} PrintIsShort(n: nat)
    ensures |Print(n)| <= n / 10 + 1
  {
    if n >= 10 { PrintIsShort(n / 10); }
  }
}
