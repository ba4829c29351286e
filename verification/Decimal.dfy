/** Decimal numerals. */
module Decimal {

  predicate Digits(s: string) {
    forall i :: 0 <= i < |s| ==> '0' <= s[i] <= '9'
  }

  function DecimalValue(s: string): nat
    requires Digits(s)
  {
    if s == "" then 0 else DecimalValue(s[..|s| - 1]) * 10 + (s[|s| - 1] as int - '0' as int)
  }

  function Digit(n: nat): char
    requires n < 10
  {
    '0' + n as char
  }

  /** The numeral of a number, without leading zeros. */
  function Nat(n: nat): string {
    if n < 10 then [Digit(n)] else Nat(n / 10) + [Digit(n % 10)]
  }

  lemma {:induction false} NatValue(n: nat)
    ensures Digits(Nat(n)) && DecimalValue(Nat(n)) == n
    decreases n
  {
    if n < 10 {
      var s := Nat(n);
      assert s[..|s| - 1] == "" && DecimalValue("") == 0;
    } else {
      NatValue(n / 10);
      var s := Nat(n);
      assert s[..|s| - 1] == Nat(n / 10);
    }
  }

  lemma NatNonEmpty(n: nat)
    ensures |Nat(n)| >= 1
  {
  }

  lemma NatLength(n: nat)
    ensures 1 <= |Nat(n)| && (|Nat(n)| <= 4 <==> n < 10000)
  {
    if n >= 10 {
      assert |Nat(n)| == |Nat(n / 10)| + 1;
      if n / 10 >= 10 {
        assert |Nat(n / 10)| == |Nat(n / 10 / 10)| + 1;
        if n / 10 / 10 >= 10 {
          assert |Nat(n / 10 / 10)| == |Nat(n / 10 / 10 / 10)| + 1;
          if n / 10 / 10 / 10 >= 10 {
            assert |Nat(n / 10 / 10 / 10)| == |Nat(n / 10 / 10 / 10 / 10)| + 1;
            NatNonEmpty(n / 10 / 10 / 10 / 10);
          }
        }
      }
    }
  }

  /** The last `width` digits of a number. */
  function Padded(n: nat, width: nat): (s: string)
    ensures |s| == width
  {
    if width == 0 then "" else Padded(n / 10, width - 1) + [Digit(n % 10)]
  }

  function Ten(width: nat): (n: nat)
    ensures n >= 1
  {
    if width == 0 then 1 else 10 * Ten(width - 1)
  }

  lemma {:induction false} PaddedInjective(m: nat, n: nat, width: nat)
    requires m < Ten(width) && n < Ten(width) && Padded(m, width) == Padded(n, width)
    ensures m == n
    decreases width
  {
    if width > 0 {
      var s, t := Padded(m, width), Padded(n, width);
      assert s[..width - 1] == Padded(m / 10, width - 1) && t[..width - 1] == Padded(n / 10, width - 1);
      assert s[width - 1] == Digit(m % 10) && t[width - 1] == Digit(n % 10);
      PaddedInjective(m / 10, n / 10, width - 1);
    }
  }
}
