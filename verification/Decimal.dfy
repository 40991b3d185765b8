/** Decimal numerals as the sources print them in key versions and task ids. */
module Decimal {

  predicate IsDigit(c: char) {
    '0' <= c <= '9'
  }

  function Digit(d: nat): (c: char)
    requires d < 10
    ensures IsDigit(c) && Value(c) == d
  {
    ('0' as int + d) as char
  }

  function Value(c: char): nat
    requires IsDigit(c)
  {
    c as int - '0' as int
  }

  ghost predicate AllDigits(s: string) {
    forall i :: 0 <= i < |s| ==> IsDigit(s[i])
  }

  function Print(n: nat): string {
    if n < 10 then [Digit(n)] else Print(n / 10) + [Digit(n % 10)]
  }

  /** `parseInt(s, 10)` of a string of digits; leading zeros are allowed. */
  function Parse(s: string): nat
    requires forall i :: 0 <= i < |s| ==> IsDigit(s[i])
  {
    if s == [] then 0 else Parse(s[..|s| - 1]) * 10 + Value(s[|s| - 1])
  }

  lemma {:induction false} ParsePrint(n: nat)
    ensures AllDigits(Print(n)) && |Print(n)| >= 1 && Parse(Print(n)) == n
  {
    if n >= 10 {
      ParsePrint(n / 10);
      var s := Print(n);
      assert s[..|s| - 1] == Print(n / 10);
    } else {
      assert [Digit(n)][..0] == [];
    }
  }

  lemma {:induction false} PrintInjective(m: nat, n: nat)
    requires Print(m) == Print(n)
    ensures m == n
  {
    ParsePrint(m);
    ParsePrint(n);
  }
}
