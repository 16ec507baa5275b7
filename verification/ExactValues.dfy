/** Exact numbers: finite decimals as reduced fractions, one fraction for each rational. */
module ExactValues {
  import opened Wrappers

  /** A reduced fraction has a positive denominator and no common divisor above one. */
  datatype Fraction = Fraction(numerator: int, denominator: int)

  function Abs(n: int): nat { if n < 0 then -n else n }

  function Gcd(a: nat, b: nat): nat
    decreases b
  {
    if b == 0 then a else Gcd(b, a % b)
  }

  ghost predicate Reduced(f: Fraction) {
    f.denominator > 0 && Gcd(Abs(f.numerator), f.denominator) == 1
  }

  /** Two fractions denote the same rational. */
  predicate SameRational(f: Fraction, g: Fraction) {
    f.numerator * g.denominator == g.numerator * f.denominator
  }

  // ----- the greatest common divisor

  lemma {:induction false} GcdDivides(a: nat, b: nat) returns (p: nat, q: nat)
    ensures a == Gcd(a, b) * p && b == Gcd(a, b) * q
    decreases b
  {
    if b == 0 {
      p, q := 1, 0;
    } else {
      var r, s := GcdDivides(b, a % b);
      p, q := r * (a / b) + s, r;
      Distribute(Gcd(a, b), r, s, a / b);
    }
  }

  lemma Distribute(g: int, r: int, s: int, t: int)
    ensures g * (r * t + s) == (g * r) * t + g * s
  {
  }

  /** Bezout: the greatest common divisor is a combination of both numbers. */
  lemma {:induction false} GcdCombines(a: nat, b: nat) returns (x: int, y: int)
    ensures a * x + b * y == Gcd(a, b)
    decreases b
  {
    if b == 0 {
      x, y := 1, 0;
    } else {
      var u, v := GcdCombines(b, a % b);
      x, y := v, u - (a / b) * v;
      BezoutStep(a, b, a / b, a % b, u, v);
    }
  }

  lemma BezoutStep(a: int, b: int, t: int, m: int, u: int, v: int)
    requires a == b * t + m
    ensures a * v + b * (u - t * v) == b * u + m * v
  {
  }

  /** Dividing by the greatest common divisor leaves coprime numbers. */
  lemma QuotientsAreCoprime(a: nat, b: nat, p: nat, q: nat)
    requires b > 0
    requires a == Gcd(a, b) * p && b == Gcd(a, b) * q
    ensures Gcd(a, b) > 0 && Gcd(p, q) == 1
  {
    var g := Gcd(a, b);
    var x, y := GcdCombines(a, b);
    var r, s := GcdDivides(p, q);
    var h := Gcd(p, q);
    calc {
      g;
      a * x + b * y;
      g * p * x + g * q * y;
      { assert p == h * r && q == h * s; }
      g * (h * r) * x + g * (h * s) * y;
      { Factor(g, h, r, s, x, y); }
      g * (h * (r * x + s * y));
    }
    UnitFactor(g, h, r * x + s * y);
  }

  lemma Factor(g: int, h: int, r: int, s: int, x: int, y: int)
    ensures g * (h * r) * x + g * (h * s) * y == g * (h * (r * x + s * y))
  {
  }

  lemma UnitFactor(g: int, h: nat, k: int)
    requires g > 0 && g == g * (h * k)
    ensures h == 1
  {
  }

  lemma ProductBounds(a: nat, k: int)
    ensures k <= 0 ==> a * k <= 0
    ensures k >= 1 ==> a * k >= a
  {
  }

  // ----- reduced fractions are canonical

  lemma DenominatorDivides(f: Fraction, g: Fraction) returns (k: int)
    requires Reduced(f) && Reduced(g) && SameRational(f, g)
    ensures g.denominator == f.denominator * k
  {
    var n, d := Abs(f.numerator), f.denominator;
    var x, y := GcdCombines(n, d);
    var z := if f.numerator < 0 then -x else x;
    assert f.numerator * z == n * x;
    k := g.numerator * z + g.denominator * y;
    calc {
      g.denominator;
      { assert f.numerator * z + d * y == 1; }
      g.denominator * (f.numerator * z + d * y);
      { Expand(g.denominator, f.numerator, z, d, y); }
      (f.numerator * g.denominator) * z + d * (g.denominator * y);
      (g.numerator * d) * z + d * (g.denominator * y);
      { Collect(d, g.numerator, z, g.denominator * y); }
      d * k;
    }
  }

  lemma Expand(e: int, n: int, z: int, d: int, y: int)
    ensures e * (n * z + d * y) == (n * e) * z + d * (e * y)
  {
  }

  lemma Collect(d: int, m: int, z: int, w: int)
    ensures (m * d) * z + d * w == d * (m * z + w)
  {
  }

  lemma MutualDivisors(a: int, b: int, j: int, k: int)
    requires a > 0 && b > 0 && b == a * j && a == b * k
    ensures a == b
  {
  }

  /** Equal rationals have one reduced fraction. */
  lemma ReducedIsCanonical(f: Fraction, g: Fraction)
    requires Reduced(f) && Reduced(g)
    ensures SameRational(f, g) <==> f == g
  {
    if SameRational(f, g) {
      var j := DenominatorDivides(f, g);
      var k := DenominatorDivides(g, f);
      MutualDivisors(f.denominator, g.denominator, j, k);
      assert (f.numerator - g.numerator) * f.denominator == 0;
    }
  }

  // ----- decimals

  /** `Decimal.as_tuple()` of a finite decimal. */
  datatype Decimal = Decimal(negative: bool, digits: seq<nat>, exponent: int)

  function Pow10(k: nat): (p: int)
    ensures p > 0
  {
    if k == 0 then 1 else 10 * Pow10(k - 1)
  }

  function Coefficient(digits: seq<nat>): nat {
    if digits == [] then 0 else Coefficient(digits[..|digits| - 1]) * 10 + digits[|digits| - 1]
  }

  /** The rational a decimal denotes, as an unreduced fraction. */
  function Denoted(d: Decimal): Fraction {
    var c: int := Coefficient(d.digits);
    Fraction((if d.negative then -c else c) * Pow10(Max0(d.exponent)), Pow10(Max0(-d.exponent)))
  }

  /** A zero more behind the digits, and the exponent one less, is the same number. */
  lemma TrailingZero(d: Decimal)
    ensures SameRational(Denoted(d), Denoted(Decimal(d.negative, d.digits + [0], d.exponent - 1)))
  {
    var digits := d.digits + [0];
    assert digits[..|digits| - 1] == d.digits && Coefficient(digits) == 10 * Coefficient(d.digits);
    var n: int := Coefficient(d.digits);
    var c := if d.negative then -n else n;
    if d.exponent > 0 {
      ShiftTen(c, Pow10(d.exponent - 1));
    } else {
      ShiftTen(c, Pow10(-d.exponent));
    }
  }

  lemma ShiftTen(c: int, p: int)
    ensures c * (10 * p) == (10 * c) * p
  {
  }

  lemma TenTimes(c: int, p: int, m: int, d: int)
    ensures (c * p + m) * 10 + d == c * (10 * p) + (m * 10 + d)
  {
  }

  /** The digits are read in base ten. */
  lemma {:induction false} CoefficientMeans(digits: seq<nat>, more: seq<nat>)
    ensures Coefficient(digits + more) == Coefficient(digits) * Pow10(|more|) + Coefficient(more)
    decreases |more|
  {
    var n := |more|;
    if n == 0 {
      assert digits + more == digits;
    } else {
      var all := digits + more;
      assert all[..|all| - 1] == digits + more[..n - 1] && all[|all| - 1] == more[n - 1];
      CoefficientMeans(digits, more[..n - 1]);
      TenTimes(Coefficient(digits), Pow10(n - 1), Coefficient(more[..n - 1]), more[n - 1]);
    }
  }

  /** The normalisation of `Fraction(n, d)`. */
  method Normalized(n: int, d: int) returns (f: Fraction)
    requires d > 0
    ensures Reduced(f) && SameRational(f, Fraction(n, d))
  {
    var g := Gcd(Abs(n), d);
    ghost var p, q := GcdDivides(Abs(n), d);
    QuotientsAreCoprime(Abs(n), d, p, q);
    var m := Abs(n) / g;
    assert m == p && d / g == q by {
      ExactQuotient(g, p, Abs(n));
      ExactQuotient(g, q, d);
    }
    f := Fraction(if n < 0 then -m else m, d / g);
    ProductBounds(g, q);
    CrossMultiply(g, p, q);
    assert Abs(f.numerator) == p;
  }

  lemma ExactQuotient(g: int, p: int, n: int)
    requires g > 0 && n == g * p
    ensures n / g == p
  {
    var k := n / g;
    assert g * (p - k) == n % g;
    assert g * (k - p) == -(n % g);
    ProductBounds(g, p - k);
    ProductBounds(g, k - p);
  }

  lemma CrossMultiply(g: int, p: int, q: int)
    ensures p * (g * q) == (g * p) * q
    ensures (-p) * (g * q) == -(g * p) * q
  {
  }

  /** `exact_number` of a finite decimal. */
  method ExactNumber(d: Decimal) returns (f: Fraction)
    ensures Reduced(f) && SameRational(f, Denoted(d))
  {
    var coefficient := 0;
    for i := 0 to |d.digits|
      invariant coefficient == Coefficient(d.digits[..i])
    {
      assert d.digits[..i + 1][..i] == d.digits[..i];
      coefficient := coefficient * 10 + d.digits[i];
    }
    assert d.digits[..|d.digits|] == d.digits;
    if d.negative {
      coefficient := -coefficient;
    }
    f := Normalized(coefficient * Pow10(Max0(d.exponent)), Pow10(Max0(-d.exponent)));
  }

  /** Whatever its digits and exponent, a decimal and its equals share one exact number. */
  lemma ExactNumbersAreCanonical(d: Decimal, e: Decimal, f: Fraction, g: Fraction)
    requires Reduced(f) && SameRational(f, Denoted(d))
    requires Reduced(g) && SameRational(g, Denoted(e))
    ensures f == g <==> SameRational(Denoted(d), Denoted(e))
  {
    var s, t := Denoted(d), Denoted(e);
    if f == g {
      Transitive(s, f, t);
    }
    if SameRational(s, t) {
      Transitive(f, s, t);
      Transitive(f, t, g);
      ReducedIsCanonical(f, g);
    }
  }

  lemma Transitive(a: Fraction, b: Fraction, c: Fraction)
    requires a.denominator > 0 && b.denominator > 0 && c.denominator > 0
    requires SameRational(a, b) && SameRational(b, c)
    ensures SameRational(a, c)
  {
  }
}
