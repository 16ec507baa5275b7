/** Decimal numerals, as `str` writes integers. */
module Numerals {
  import opened Wrappers

  function Magnitude(n: int): nat { if n < 0 then -n else n }

  function Digit(d: nat): char
    requires d < 16
  {
    "0123456789abcdef"[d]
  }

  predicate IsDecimal(s: string) {
    s != [] && forall i :: 0 <= i < |s| ==> '0' <= s[i] <= '9'
  }

  /** `str` of a natural number. */
  function Decimals(n: nat): (s: string)
    ensures IsDecimal(s)
  {
    if n < 10 then [Digit(n)] else Decimals(n / 10) + [Digit(n % 10)]
  }

  /** The number a decimal numeral stands for. */
  function ValueOf(s: string): nat
    requires IsDecimal(s)
  {
    var d := s[|s| - 1] as int - '0' as int;
    if |s| == 1 then d else 10 * ValueOf(s[..|s| - 1]) + d
  }

  /** A numeral has the value of the number, and no leading zero. */
  lemma {:induction false} DecimalsHaveValue(n: nat)
    ensures ValueOf(Decimals(n)) == n
    ensures n > 0 ==> Decimals(n)[0] != '0'
    ensures n == 0 ==> Decimals(n) == "0"
  {
    if n >= 10 {
      DecimalsHaveValue(n / 10);
      var s := Decimals(n);
      assert s[..|s| - 1] == Decimals(n / 10) && s[|s| - 1] == Digit(n % 10);
    }
  }

  /** `str` of an integer. */
  function Numeral(n: int): string {
    if n < 0 then "-" + Decimals(Magnitude(n)) else Decimals(Magnitude(n))
  }

  lemma DecimalsInjective(m: nat, n: nat)
    ensures Decimals(m) == Decimals(n) ==> m == n
  {
    DecimalsHaveValue(m);
    DecimalsHaveValue(n);
  }

  /** The number a signed numeral stands for. */
  function IntOf(s: string): Option<int> {
    if IsDecimal(s) then Some(ValueOf(s))
    else if |s| > 1 && s[0] == '-' && IsDecimal(s[1..]) then Some(0 - ValueOf(s[1..]))
    else None
  }

  lemma NumeralHasValue(n: int)
    ensures IntOf(Numeral(n)) == Some(n)
  {
    DecimalsHaveValue(Magnitude(n));
    if n < 0 {
      assert Numeral(n)[0] == '-' && Numeral(n)[1..] == Decimals(Magnitude(n));
    }
  }
}
