/** Numbers in decimal, as Python prints them, and runs of digits in any base read back. */
module Numerals {
  function Digit(d: nat): char
    requires d < 10
  {
    '0' + d as char
  }

  /** `str(n)`. */
  function Decimal(n: nat): (r: string)
    ensures r != []
  {
    if n < 10 then [Digit(n)] else Decimal(n / 10) + [Digit(n % 10)]
  }

  /** The value of a digit character in any base up to sixteen. */
  function DigitOf(c: char): nat {
    if '0' <= c <= '9' then c as int - '0' as int
    else if 'a' <= c <= 'f' then c as int - 'a' as int + 10
    else if 'A' <= c <= 'F' then c as int - 'A' as int + 10
    else 99
  }

  /** Digits are taken while there are any. */
  function Accumulate(s: string, base: nat, acc: nat): nat {
    if s == [] || DigitOf(s[0]) >= base then acc else Accumulate(s[1..], base, acc * base + DigitOf(s[0]))
  }

  predicate AllDigits(s: string) {
    forall i :: 0 <= i < |s| ==> DigitOf(s[i]) < 10 && '0' <= s[i] <= '9'
  }

  lemma {:induction false} AccumulateAppend(s: string, c: char, acc: nat)
    requires AllDigits(s) && '0' <= c <= '9'
    ensures Accumulate(s + [c], 10, acc) == Accumulate(s, 10, acc) * 10 + DigitOf(c)
  {
    if s == [] {
      assert (s + [c])[1..] == [];
    } else {
      assert (s + [c])[1..] == s[1..] + [c];
      AccumulateAppend(s[1..], c, acc * 10 + DigitOf(s[0]));
    }
  }

  lemma {:induction false} DecimalDigits(n: nat)
    ensures AllDigits(Decimal(n)) && Accumulate(Decimal(n), 10, 0) == n
    ensures n > 0 ==> Decimal(n)[0] != '0'
  {
    if n < 10 {
      assert Decimal(n)[1..] == [];
    } else {
      DecimalDigits(n / 10);
      AccumulateAppend(Decimal(n / 10), Digit(n % 10), 0);
    }
  }
}
