/** Decimal printing of integers, as Rust's `{}` and `{:02}` write them. */
module Decimals {

  function Digit(d: nat): (c: char)
    requires d < 10
    ensures '0' <= c <= '9'
  {
    (48 + d) as char
  }

  function Digits(n: nat): (s: string)
    ensures s != [] && forall i | 0 <= i < |s| :: '0' <= s[i] <= '9'
  {
    if n < 10 then [Digit(n)] else Digits(n / 10) + [Digit(n % 10)]
  }

  function Decimal(i: int): string {
    if i < 0 then ['-'] + Digits(-i) else Digits(i)
  }

  function TwoDigits(n: nat): (s: string)
    requires n < 100
    ensures |s| == 2
  {
    [Digit(n / 10), Digit(n % 10)]
  }

  /** The number a run of digits stands for. */
  function NumberOf(s: string): int {
    if s == [] then 0 else 10 * NumberOf(s[..|s| - 1]) + (s[|s| - 1] as int - 48)
  }

  lemma {:induction false} NumberOfDigits(n: nat)
    ensures NumberOf(Digits(n)) == n
  {
    var s := Digits(n);
    if n < 10 {
      assert s[..0] == [] && NumberOf(s[..0]) == 0;
    } else {
      NumberOfDigits(n / 10);
      assert s[..|s| - 1] == Digits(n / 10);
    }
  }

  lemma SignShows(i: int)
    ensures Decimal(i) != [] && (Decimal(i)[0] == '-' <==> i < 0)
    ensures i < 0 ==> Decimal(i)[1..] == Digits(-i)
  {
    hide Digits;
  }

  lemma DigitsInjective(a: nat, b: nat)
    requires Digits(a) == Digits(b)
    ensures a == b
  {
    hide Digits, NumberOf;
    NumberOfDigits(a);
    NumberOfDigits(b);
  }

  lemma DecimalInjective(a: int, b: int)
    ensures Decimal(a) == Decimal(b) <==> a == b
  {
    hide Digits;
    if Decimal(a) == Decimal(b) {
      SignShows(a);
      SignShows(b);
      if a < 0 {
        DigitsInjective(-a, -b);
      } else {
        DigitsInjective(a, b);
      }
    }
  }

  lemma TwoDigitsInjective(a: nat, b: nat)
    requires a < 100 && b < 100 && TwoDigits(a) == TwoDigits(b)
    ensures a == b
  {
    assert Digit(a / 10) as int == 48 + a / 10 && Digit(b / 10) as int == 48 + b / 10;
    assert Digit(a % 10) as int == 48 + a % 10 && Digit(b % 10) as int == 48 + b % 10;
    assert TwoDigits(a)[0] == TwoDigits(b)[0] && TwoDigits(a)[1] == TwoDigits(b)[1];
  }

  /** Appending two digits multiplies by one hundred and adds. */
  lemma NumberOfTwoMoreDigits(s: string, n: nat)
    requires n < 100
    ensures NumberOf(s + TwoDigits(n)) == 100 * NumberOf(s) + n
  {
    var t := s + TwoDigits(n);
    assert t[..|t| - 1] == s + [Digit(n / 10)];
    assert t[..|t| - 1][..|s|] == s;
  }
}
