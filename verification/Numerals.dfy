/** Whole numbers as decimal text. */
module Numerals {
  function Digit(d: nat): char
    requires d < 10
  {
    '0' + d as char
  }

  function Digits(n: nat): string {
    if n < 10 then [Digit(n)] else Digits(n / 10) + [Digit(n % 10)]
  }

  predicate AllDigits(s: string) {
    s != "" && forall i :: 0 <= i < |s| ==> '0' <= s[i] <= '9'
  }

  lemma {:induction false} DigitsAreDigits(n: nat)
    ensures AllDigits(Digits(n))
  {
    if n >= 10 {
      DigitsAreDigits(n / 10);
    }
  }

  lemma {:induction false} DigitsInjective(m: nat, n: nat)
    requires Digits(m) == Digits(n)
    ensures m == n
  {
    DigitsAreDigits(m / 10);
    DigitsAreDigits(n / 10);
    var s, t := Digits(m), Digits(n);
    assert s[|s| - 1] == Digit(m % 10) && t[|t| - 1] == Digit(n % 10);
    DigitsLength(m);
    DigitsLength(n);
    if m >= 10 && n >= 10 {
      assert s[..|s| - 1] == Digits(m / 10) && t[..|t| - 1] == Digits(n / 10);
      DigitsInjective(m / 10, n / 10);
    }
  }

  lemma DigitsLength(n: nat)
    ensures |Digits(n)| >= 2 <==> n >= 10
  {
    DigitsAreDigits(n / 10);
  }

  /** The number a row of digits stands for. */
  function Reading(s: string): int {
    if s == "" then 0 else Reading(s[..|s| - 1]) * 10 + (s[|s| - 1] as int - '0' as int)
  }

  /** A number is written with its decimal digits, the first not zero. */
  lemma {:induction false} DigitsRead(n: nat)
    ensures AllDigits(Digits(n)) && Reading(Digits(n)) == n && (n > 0 ==> Digits(n)[0] != '0')
  {
    DigitsAreDigits(n);
    if n < 10 {
      assert [Digit(n)][..0] == "";
    } else {
      DigitsRead(n / 10);
      var s := Digits(n);
      assert s[..|s| - 1] == Digits(n / 10);
    }
  }

  function Numeral(n: int): string {
    if n < 0 then "-" + Digits(-n) else Digits(n)
  }

  lemma NumeralReads(n: int)
    ensures n >= 0 ==> AllDigits(Numeral(n)) && Reading(Numeral(n)) == n
    ensures n < 0 ==> Numeral(n)[0] == '-' && AllDigits(Numeral(n)[1..]) && Reading(Numeral(n)[1..]) == -n
  {
    hide Digits;
    var a: nat := if n < 0 then -n else n;
    DigitsRead(a);
    assert n < 0 ==> Numeral(n)[1..] == Digits(a);
  }

  lemma NumeralInjective(m: int, n: int)
    requires Numeral(m) == Numeral(n)
    ensures m == n
  {
    hide Digits;
    var a: nat, b: nat := if m < 0 then -m else m, if n < 0 then -n else n;
    DigitsAreDigits(a);
    DigitsAreDigits(b);
    assert Numeral(m)[0] == '-' <==> m < 0;
    assert Numeral(n)[0] == '-' <==> n < 0;
    assert Digits(a) == (if m < 0 then Numeral(m)[1..] else Numeral(m));
    assert Digits(b) == (if n < 0 then Numeral(n)[1..] else Numeral(n));
    DigitsInjective(a, b);
  }
}
