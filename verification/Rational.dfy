/** The reduced integer pairs of scripts/krb1_c_stress_independent_verify.py: exact operations whose results
    are in reduced form, so that a pair is known by the number it stands for. */
module Rational {
  import opened Wrappers
  import opened Arithmetic

  datatype Ratio = Ratio(num: int, den: int)

  /** A pair as `ratio` produces it: the denominator is positive. */
  type Fraction = r: Ratio | r.den > 0 witness Ratio(0, 1)

  // ----- greatest common divisors -----

  function Gcd(a: nat, b: nat): nat
    decreases b
  {
    if b == 0 then a else Gcd(b, a % b)
  }

  lemma {:induction false} GcdPositive(a: nat, b: nat)
    requires b > 0
    ensures Gcd(a, b) > 0
    decreases b
  {
    if a % b > 0 {
      GcdPositive(b, a % b);
    }
  }

  lemma {:induction false} GcdDivides(a: nat, b: nat) returns (k: nat, l: nat)
    ensures a == k * Gcd(a, b) && b == l * Gcd(a, b)
    decreases b
  {
    if b == 0 {
      k, l := 1, 0;
    } else {
      var k', l' := GcdDivides(b, a % b);
      var g, q := Gcd(b, a % b), a / b;
      k, l := q * k' + l', k';
      Combine(a, b, q, k', l', g);
    }
  }

  lemma {:induction false} Combine(a: int, b: int, q: int, k: int, l: int, g: int)
    requires b != 0 && q == a / b && b == k * g && a % b == l * g
    ensures a == (q * k + l) * g
  {
    assert a == q * b + a % b;
    assert (q * k + l) * g == q * (k * g) + l * g;
  }

  lemma {:induction false} Bezout(a: nat, b: nat) returns (x: int, y: int)
    ensures x * a + y * b == Gcd(a, b)
    decreases b
  {
    if b == 0 {
      x, y := 1, 0;
    } else {
      var x', y' := Bezout(b, a % b);
      var q := a / b;
      x, y := y', x' - q * y';
      assert a % b == a - q * b;
      assert y' * (a - q * b) == y' * a - (q * y') * b;
      assert (x' - q * y') * b == x' * b - (q * y') * b;
    }
  }

  lemma {:induction false} DividesOne(h: nat, m: int)
    requires h * m == 1
    ensures h == 1
  {
    if h >= 2 {
      if m >= 1 {
        MulMonotone(1, m, h);
      } else {
        MulMonotone(m, 0, h);
      }
    }
  }

  /** Dividing both sides by the greatest common divisor leaves coprime numbers. */
  lemma {:induction false} GcdOfQuotients(a: nat, b: nat)
    requires b > 0
    ensures Gcd(a, b) > 0 && Gcd(a / Gcd(a, b), b / Gcd(a, b)) == 1
  {
    GcdPositive(a, b);
    var g := Gcd(a, b);
    var k, l := GcdDivides(a, b);
    DivExact(k, g);
    DivExact(l, g);
    var x, y := Bezout(a, b);
    Regroup(x, k, y, l, g);
    MulCancelEq(x * k + y * l, 1, g);
    CoprimeFromBezout(k, l, x, y);
  }

  lemma {:induction false} Regroup(x: int, k: int, y: int, l: int, g: int)
    ensures x * (k * g) + y * (l * g) == (x * k + y * l) * g
  {
  }

  lemma {:induction false} CoprimeFromBezout(k: nat, l: nat, x: int, y: int)
    requires x * k + y * l == 1
    ensures Gcd(k, l) == 1
  {
    var h := Gcd(k, l);
    var k', l' := GcdDivides(k, l);
    Regroup(x, k', y, l', h);
    DividesOne(h, x * k' + y * l');
  }

  /** Euclid's lemma: b divides d when it divides a*d and shares no factor with a. */
  lemma {:induction false} EuclidsLemma(a: nat, b: nat, c: int, d: int) returns (q: int)
    requires Gcd(a, b) == 1 && a * d == b * c
    ensures d == q * b
  {
    var x, y := Bezout(a, b);
    q := x * c + y * d;
    BezoutTimes(x, a, y, b, d);
    Regroup(x, c, y, d, b);
    assert x * (a * d) == x * (c * b) && d * b == b * d;
  }

  lemma {:induction false} BezoutTimes(x: int, a: int, y: int, b: int, d: int)
    requires x * a + y * b == 1
    ensures d == x * (a * d) + y * (d * b)
  {
    assert d == (x * a + y * b) * d;
    assert (x * a) * d == x * (a * d) && (y * b) * d == y * (d * b);
  }

  // ----- ratio -----

  function Abs(n: int): nat {
    if n < 0 then -n else n
  }

  /** The source raises on a zero denominator; every other pair is reduced. */
  function MakeRatio(numerator: int, denominator: int): (r: Result<Fraction, string>)
    ensures r.Failure? <==> denominator == 0
    ensures r.Success? ==>
            r.value.num * denominator == numerator * r.value.den && Gcd(Abs(r.value.num), r.value.den) == 1
  {
    if denominator == 0 then Failure("zero rational denominator") else Success(Reduce(numerator, denominator))
  }

  function Reduce(numerator: int, denominator: int): (r: Fraction)
    requires denominator != 0
    ensures r.num * denominator == numerator * r.den
    ensures Gcd(Abs(r.num), r.den) == 1
  {
    if denominator < 0 then
      var r := ReducePositive(-numerator, -denominator);
      NegateCross(r.num, denominator, numerator, r.den);
      r
    else ReducePositive(numerator, denominator)
  }

  lemma {:induction false} NegateCross(a: int, d: int, n: int, b: int)
    requires a * (-d) == (-n) * b
    ensures a * d == n * b
  {
  }

  function ReducePositive(n: int, d: int): (r: Fraction)
    requires d > 0
    ensures r.num * d == n * r.den
    ensures Gcd(Abs(r.num), r.den) == 1
  {
    var g := Gcd(Abs(n), d);
    ReduceExact(n, d, g);
    Ratio(n / g, d / g)
  }

  lemma {:induction false} ReduceExact(n: int, d: int, g: nat)
    requires d > 0 && g == Gcd(Abs(n), d)
    ensures g > 0 && d / g > 0
    ensures (n / g) * d == n * (d / g)
    ensures Gcd(Abs(n / g), d / g) == 1
  {
    GcdOfQuotients(Abs(n), d);
    var k: int, l: int := GcdDivides(Abs(n), d);
    QuotientOfMultiple(Abs(n), k, g);
    QuotientOfMultiple(d, l, g);
    MulCancelLess(0, l, g);
    var p := if n < 0 then 0 - k else k;
    SignedMultiple(n, k, p, g);
    QuotientOfMultiple(n, p, g);
    CrossMultiple(p, l, g);
  }

  lemma {:induction false} QuotientOfMultiple(n: int, k: int, g: nat)
    requires g > 0 && n == k * g
    ensures n / g == k
  {
    DivExact(k, g);
  }

  lemma {:induction false} SignedMultiple(n: int, k: int, p: int, g: nat)
    requires Abs(n) == k * g && p == (if n < 0 then -k else k)
    ensures n == p * g
  {
  }

  lemma {:induction false} CrossMultiple(p: int, l: int, g: int)
    ensures p * (l * g) == (p * g) * l
  {
  }

  /** What a pair stands for. */
  function Val(r: Fraction): real {
    (r.num as real) / (r.den as real)
  }

  lemma {:induction false} DivUnique(n: real, d: real, v: real)
    requires d != 0.0 && n == v * d
    ensures n / d == v
  {
  }

  lemma {:induction false} ReduceValue(n: int, d: int)
    requires d != 0
    ensures Val(Reduce(n, d)) == (n as real) / (d as real)
  {
    var r := Reduce(n, d);
    CrossEqual(r.num, r.den, n, d);
  }

  lemma {:induction false} CrossEqual(a: int, b: int, c: int, d: int)
    requires b != 0 && d != 0 && a * d == c * b
    ensures (a as real) / (b as real) == (c as real) / (d as real)
  {
    var v := (c as real) / (d as real);
    assert (a as real) * (d as real) == (c as real) * (b as real) by {
      CastProduct(a, d);
      CastProduct(c, b);
    }
    assert c as real == v * (d as real);
    RealCancel(a as real, v * (b as real), d as real);
    DivUnique(a as real, b as real, v);
  }

  lemma {:induction false} CastProduct(a: int, b: int)
    ensures (a * b) as real == (a as real) * (b as real)
  {
  }

  lemma {:induction false} RealCancel(x: real, y: real, d: real)
    requires d != 0.0 && x * d == y * d
    ensures x == y
  {
    assert (x - y) * d == 0.0;
  }

  /** The reduced form is unique, so comparing tuples compares values. */
  lemma {:induction false} ReducedFormUnique(r: Fraction, s: Fraction)
    requires Gcd(Abs(r.num), r.den) == 1 && Gcd(Abs(s.num), s.den) == 1
    ensures r == s <==> Val(r) == Val(s)
  {
    if Val(r) == Val(s) {
      SameValueCross(r, s);
      DenominatorDivides(r, s);
      DenominatorDivides(s, r);
      var q := DividesTwice(r.den, s.den);
      MulCancelEq(r.num, s.num, r.den);
    }
  }

  ghost predicate Divides(a: int, b: int) {
    exists q :: b == q * a
  }

  lemma {:induction false} DividesTwice(a: nat, b: nat) returns (q: int)
    requires a > 0 && b > 0 && Divides(a, b) && Divides(b, a)
    ensures a == b
  {
    q :| b == q * a;
    var t :| a == t * b;
    assert q * (t * b) == (q * t) * b;
    MulCancelEq(q * t, 1, b);
    if q <= 0 {
      MulMonotone(q, 0, a);
    }
    DividesOne(q, t);
  }

  lemma {:induction false} SameValueCross(r: Fraction, s: Fraction)
    requires Val(r) == Val(s)
    ensures r.num * s.den == s.num * r.den
  {
    var v, b, d := Val(r), r.den as real, s.den as real;
    assert r.num as real == v * b && s.num as real == v * d;
    assert (v * b) * d == (v * d) * b;
    CastProduct(r.num, s.den);
    CastProduct(s.num, r.den);
  }

  lemma {:induction false} DenominatorDivides(r: Fraction, s: Fraction)
    requires Gcd(Abs(r.num), r.den) == 1 && r.num * s.den == s.num * r.den
    ensures Divides(r.den, s.den)
  {
    var c := if r.num < 0 then -s.num else s.num;
    assert Abs(r.num) * s.den == r.den * c;
    var q := EuclidsLemma(Abs(r.num), r.den, c, s.den);
  }

  // ----- arithmetic -----

  function Add(left: Fraction, right: Fraction): (r: Fraction)
    ensures Val(r) == Val(left) + Val(right)
    ensures Gcd(Abs(r.num), r.den) == 1
  {
    MulPositive(left.den, right.den);
    ReduceValue(left.num * right.den + right.num * left.den, left.den * right.den);
    SumOfQuotients(left, right);
    Reduce(left.num * right.den + right.num * left.den, left.den * right.den)
  }

  function Subtract(left: Fraction, right: Fraction): (r: Fraction)
    ensures Val(r) == Val(left) - Val(right)
    ensures Gcd(Abs(r.num), r.den) == 1
  {
    MulPositive(left.den, right.den);
    ReduceValue(left.num * right.den - right.num * left.den, left.den * right.den);
    SumOfQuotients(left, right);
    Reduce(left.num * right.den - right.num * left.den, left.den * right.den)
  }

  function Multiply(left: Fraction, right: Fraction): (r: Fraction)
    ensures Val(r) == Val(left) * Val(right)
    ensures Gcd(Abs(r.num), r.den) == 1
  {
    MulPositive(left.den, right.den);
    ReduceValue(left.num * right.num, left.den * right.den);
    ProductOfQuotients(left.num, left.den, right.num, right.den);
    Reduce(left.num * right.num, left.den * right.den)
  }

  function Divide(left: Fraction, right: Fraction): (r: Fraction)
    requires right.num != 0
    ensures Val(right) != 0.0 && Val(r) == Val(left) / Val(right)
    ensures Gcd(Abs(r.num), r.den) == 1
  {
    MulNonzero(left.den, right.num);
    ReduceValue(left.num * right.den, left.den * right.num);
    ProductOfQuotients(left.num, left.den, right.den, right.num);
    QuotientOfQuotients(left, right);
    Reduce(left.num * right.den, left.den * right.num)
  }

  function Greater(left: Fraction, right: Fraction): (r: bool)
    ensures r <==> Val(left) > Val(right)
  {
    CrossCompare(left, right);
    left.num * right.den > right.num * left.den
  }

  function GreaterEqual(left: Fraction, right: Fraction): (r: bool)
    ensures r <==> Val(left) >= Val(right)
  {
    CrossCompare(right, left);
    left.num * right.den >= right.num * left.den
  }

  function Positive(value: Fraction): (r: bool)
    ensures r <==> Val(value) > 0.0
  {
    value.num > 0
  }

  lemma {:induction false} MulPositive(a: int, b: int)
    requires a > 0 && b > 0
    ensures a * b > 0
  {
  }

  lemma {:induction false} MulNonzero(a: int, b: int)
    requires a != 0 && b != 0
    ensures a * b != 0
  {
  }

  lemma {:induction false} SumOfQuotients(l: Fraction, r: Fraction)
    ensures l.den * r.den != 0
    ensures ((l.num * r.den + r.num * l.den) as real) / ((l.den * r.den) as real) == Val(l) + Val(r)
    ensures ((l.num * r.den - r.num * l.den) as real) / ((l.den * r.den) as real) == Val(l) - Val(r)
  {
    var x, y, b, d := Val(l), Val(r), l.den as real, r.den as real;
    MulPositive(l.den, r.den);
    CastProduct(l.num, r.den);
    CastProduct(r.num, l.den);
    CastProduct(l.den, r.den);
    assert l.num as real == x * b && r.num as real == y * d;
    assert (x * b) * d == x * (b * d) && (y * d) * b == y * (b * d);
    assert (x + y) * (b * d) == x * (b * d) + y * (b * d);
    assert (x - y) * (b * d) == x * (b * d) - y * (b * d);
    DivUnique((l.num * r.den + r.num * l.den) as real, b * d, x + y);
    DivUnique((l.num * r.den - r.num * l.den) as real, b * d, x - y);
  }

  lemma {:induction false} ProductOfQuotients(a: int, b: int, c: int, d: int)
    requires b != 0 && d != 0
    ensures b * d != 0
    ensures ((a * c) as real) / ((b * d) as real) == ((a as real) / (b as real)) * ((c as real) / (d as real))
  {
    MulNonzero(b, d);
    var x, y := (a as real) / (b as real), (c as real) / (d as real);
    CastProduct(a, c);
    CastProduct(b, d);
    assert a as real == x * (b as real) && c as real == y * (d as real);
    FourFactors(x, b as real, y, d as real);
    DivUnique((a * c) as real, (b as real) * (d as real), x * y);
  }

  lemma {:induction false} FourFactors(x: real, b: real, y: real, d: real)
    ensures (x * b) * (y * d) == (x * y) * (b * d)
  {
  }

  lemma {:induction false} QuotientOfQuotients(l: Fraction, r: Fraction)
    requires r.num != 0
    ensures Val(r) != 0.0
    ensures Val(l) * ((r.den as real) / (r.num as real)) == Val(l) / Val(r)
  {
    var x, p, q := Val(l), r.num as real, r.den as real;
    assert Val(r) * q == p;
    var inverse := q / p;
    assert inverse * p == q;
    assert (x * inverse) * (p / q) == x * (inverse * (p / q));
    assert inverse * (p / q) == 1.0 by {
      assert (inverse * (p / q)) * q == inverse * p;
      RealCancel(inverse * (p / q), 1.0, q);
    }
    DivUnique(x, p / q, x * inverse);
  }

  lemma {:induction false} CrossCompare(l: Fraction, r: Fraction)
    ensures l.num * r.den > r.num * l.den <==> Val(l) > Val(r)
  {
    var x, y, b, d := Val(l), Val(r), l.den as real, r.den as real;
    CastProduct(l.num, r.den);
    CastProduct(r.num, l.den);
    assert l.num as real == x * b && r.num as real == y * d;
    assert (x * b) * d == x * (b * d) && (y * d) * b == y * (b * d);
    assert b * d > 0.0;
    if x > y {
      assert (x - y) * (b * d) > 0.0;
    } else {
      assert (y - x) * (b * d) >= 0.0;
    }
  }
}
