/** Order quantities of scripts/binance_futures_demo_smoke.py: rounding down, against the symbol's step. */
module LotStep {
  import opened Wrappers

  /** A positive decimal in normal form: mantissa times ten to the exponent, the mantissa without trailing zeros. */
  datatype Step = Step(mantissa: nat, exponent: int)

  predicate Normal(s: Step) {
    s.mantissa % 10 != 0
  }

  function Power(n: nat): (p: nat)
    ensures p >= 1
  {
    if n == 0 then 1 else 10 * Power(n - 1)
  }

  /** Decimal(1).scaleb(n) */
  function Scale(n: int): (p: real)
    ensures p > 0.0
  {
    if n >= 0 then Power(n) as real else 1.0 / Power(-n) as real
  }

  function Times(a: real, b: real): real {
    a * b
  }

  function Value(s: Step): real {
    Times(s.mantissa as real, Scale(s.exponent))
  }

  /** The symbol's quantity precision if it has one, else the step's own exponent when that is below one unit. */
  function Finest(s: Step, precision: Option<int>): int {
    match precision
    case Some(p) => -p
    case None => if s.exponent < 0 then s.exponent else 0
  }

  /** The target a quantity is rounded to. */
  function Quantum(s: Step, precision: Option<int>): (q: real)
    ensures q > 0.0
    ensures precision.None? && s.exponent >= 0 ==> q == 1.0
    ensures precision.None? && s.exponent <= 0 ==> q == Scale(s.exponent)
  {
    Scale(Finest(s, precision))
  }

  function Multiple(n: int, quantum: real): real {
    Times(n as real, quantum)
  }

  ghost predicate IsMultiple(r: real, quantum: real) {
    exists n: int :: r == Multiple(n, quantum)
  }

  /** _quantize_qty: the largest multiple of the quantum within the quantity. */
  function Quantize(qty: real, quantum: real): (r: real)
    requires qty >= 0.0 && quantum > 0.0
    ensures IsMultiple(r, quantum) && 0.0 <= r <= qty && qty - r < quantum
  {
    FloorBounds(qty, qty / quantum, quantum);
    Multiple((qty / quantum).Floor, quantum)
  }

  lemma {:induction false} FloorBounds(qty: real, x: real, quantum: real)
    requires quantum > 0.0 && qty >= 0.0 && x == qty / quantum
    ensures var r := Times(x.Floor as real, quantum); 0.0 <= r <= qty && qty - r < quantum
  {
    DivideBack(qty, x, quantum);
    Between(qty, x, x.Floor as real, Times(x.Floor as real, quantum), quantum);
  }

  lemma {:induction false} DivideBack(qty: real, x: real, quantum: real)
    requires quantum > 0.0 && x == qty / quantum
    ensures Times(x, quantum) == qty
  {
  }

  lemma {:induction false} Between(qty: real, x: real, n: real, r: real, quantum: real)
    requires quantum > 0.0 && qty >= 0.0 && Times(x, quantum) == qty && r == Times(n, quantum)
    requires n <= x < n + 1.0 && (x >= 0.0 ==> n >= 0.0)
    ensures 0.0 <= r <= qty < r + quantum
  {
    if x < 0.0 {
      Negative(x, quantum);
      assert false;
    }
    ScaledLe(0.0, n, quantum);
    ScaledLe(n, x, quantum);
    ScaledLt(x, n + 1.0, quantum);
    OneMore(n, quantum);
    assert Times(0.0, quantum) == 0.0;
  }

  lemma {:induction false} Negative(x: real, y: real)
    requires x < 0.0 && y > 0.0
    ensures Times(x, y) < 0.0
  {
  }

  lemma {:induction false} ScaledLe(x: real, y: real, quantum: real)
    requires x <= y && quantum > 0.0
    ensures Times(x, quantum) <= Times(y, quantum)
  {
  }

  lemma {:induction false} ScaledLt(x: real, y: real, quantum: real)
    requires x < y && quantum > 0.0
    ensures Times(x, quantum) < Times(y, quantum)
  {
  }

  lemma {:induction false} OneMore(n: real, quantum: real)
    ensures Times(n + 1.0, quantum) == Times(n, quantum) + quantum
  {
  }

  /** Rounding leaves a quantity as it is exactly when that is a multiple of the quantum. */
  lemma {:induction false} KeptExactly(qty: real, quantum: real)
    requires qty >= 0.0 && quantum > 0.0
    ensures Quantize(qty, quantum) == qty <==> IsMultiple(qty, quantum)
  {
    if n: int :| qty == Multiple(n, quantum) {
      DivideBack(qty, qty / quantum, quantum);
      SameFactor(n as real, qty / quantum, quantum);
      assert (n as real).Floor == n;
    }
  }

  lemma {:induction false} SameFactor(x: real, y: real, quantum: real)
    requires quantum > 0.0 && Times(x, quantum) == Times(y, quantum)
    ensures x == y
  {
    if x < y {
      ScaledLt(x, y, quantum);
    } else if y < x {
      ScaledLt(y, x, quantum);
    }
  }

  // ----- steps against quanta -----

  lemma {:induction false} PowerAdd(i: nat, j: nat)
    ensures Power(i + j) == Power(i) * Power(j)
  {
    if i > 0 {
      PowerAdd(i - 1, j);
      assert Power(i + j) == 10 * (Power(i - 1) * Power(j)) == (10 * Power(i - 1)) * Power(j);
    }
  }

  /** A larger power of ten is a whole number of smaller ones. */
  lemma {:induction false} ScaleSplit(a: int, b: int)
    requires b <= a
    ensures Scale(a) == Multiple(Power(a - b), Scale(b))
  {
    if b >= 0 {
      PowerAdd(a - b, b);
    } else if a < 0 {
      PowerAdd(a - b, -a);
      Quotient(Power(a - b), Power(-a), Power(-b));
    } else {
      PowerAdd(a, -b);
      Whole(Power(a), Power(-b), Power(a - b));
    }
  }

  lemma {:induction false} Quotient(x: nat, y: nat, z: nat)
    requires x >= 1 && y >= 1 && z == x * y
    ensures z >= 1 && 1.0 / y as real == Times(x as real, 1.0 / z as real)
  {
    assert z as real == x as real * y as real;
    assert (1.0 / z as real) * (z as real) == 1.0;
    assert (x as real * (1.0 / z as real)) * y as real == 1.0;
  }

  lemma {:induction false} Whole(x: nat, y: nat, z: nat)
    requires y >= 1 && z == x * y
    ensures x as real == Times(z as real, 1.0 / y as real)
  {
    assert z as real == x as real * y as real;
    assert (1.0 / y as real) * (y as real) == 1.0;
  }

  lemma {:induction false} TimesWhole(a: int, b: int, x: real)
    ensures Times(a as real, Multiple(b, x)) == Multiple(a * b, x)
  {
    assert (a * b) as real == a as real * b as real;
  }

  lemma {:induction false} StepIsMultiple(s: Step, t: int)
    requires t <= s.exponent
    ensures IsMultiple(Value(s), Scale(t))
  {
    ScaleSplit(s.exponent, t);
    TimesWhole(s.mantissa, Power(s.exponent - t), Scale(t));
  }

  lemma {:induction false} StepIsNoMultiple(s: Step, t: int, k: int)
    requires Normal(s) && s.exponent < t
    ensures Value(s) != Multiple(k, Scale(t))
  {
    var d := t - s.exponent;
    ScaleSplit(t, s.exponent);
    TimesWhole(k, Power(d), Scale(s.exponent));
    if Value(s) == Multiple(k, Scale(t)) {
      SameFactor(s.mantissa as real, (k * Power(d)) as real, Scale(s.exponent));
      TenDivides(k, Power(d - 1));
    }
  }

  lemma {:induction false} TenDivides(k: int, p: int)
    ensures (k * (10 * p)) % 10 == 0
  {
    assert k * (10 * p) == 10 * (k * p);
  }

  /** The n-th point of the step grid. */
  function Grid(n: nat, s: Step): (r: real)
    ensures r >= 0.0
  {
    Times(n as real, Value(s))
  }

  lemma {:induction false} OnGrid(k: int, s: Step)
    requires Normal(s) && Multiple(k, Value(s)) >= 0.0
    ensures k >= 0 && Grid(k, s) == Multiple(k, Value(s))
  {
    Positive(s);
    if k < 0 {
      Negative(k as real, Value(s));
    }
  }

  lemma {:induction false} Positive(s: Step)
    requires Normal(s)
    ensures Value(s) > 0.0
  {
    assert s.mantissa >= 1;
    ScaledLt(0.0, s.mantissa as real, Scale(s.exponent));
  }

  lemma {:induction false} GridIsMultiple(n: nat, s: Step, quantum: real)
    requires IsMultiple(Value(s), quantum)
    ensures IsMultiple(Grid(n, s), quantum)
  {
    var k: int :| Value(s) == Multiple(k, quantum);
    TimesWhole(n, k, quantum);
  }

  /** Quantities on the step grid keep their value exactly when the target is no coarser than the step: always
      without a quantity precision, and with one exactly when it has as many decimals as the step. */
  lemma {:induction false} GridKeptExactly(s: Step, precision: Option<int>)
    requires Normal(s)
    ensures (forall n: nat :: Quantize(Grid(n, s), Quantum(s, precision)) == Grid(n, s))
       <==> precision.None? || -precision.value <= s.exponent
  {
    var q := Quantum(s, precision);
    if Finest(s, precision) <= s.exponent {
      StepIsMultiple(s, Finest(s, precision));
      forall n: nat
        ensures Quantize(Grid(n, s), q) == Grid(n, s)
      {
        GridIsMultiple(n, s, q);
        KeptExactly(Grid(n, s), q);
      }
    } else {
      OffGrid(s, q, precision);
    }
  }

  lemma {:induction false} OffGrid(s: Step, q: real, precision: Option<int>)
    requires Normal(s) && s.exponent < Finest(s, precision) && q == Quantum(s, precision)
    ensures Quantize(Grid(1, s), q) != Grid(1, s)
  {
    assert Grid(1, s) == Value(s);
    forall k: int
      ensures Value(s) != Multiple(k, q)
    {
      StepIsNoMultiple(s, Finest(s, precision), k);
    }
    KeptExactly(Grid(1, s), q);
  }

  /** A coarser precision loses part of a step: with a step of 0.001 and two decimals, 0.123 becomes 0.12. */
  lemma {:induction false} CoarsePrecision()
    ensures Value(Step(1, -3)) == 0.001 && Grid(123, Step(1, -3)) == 0.123
    ensures Quantize(0.123, Quantum(Step(1, -3), Some(2))) == 0.12
  {
    assert Power(1) == 10 && Power(2) == 100 && Power(3) == 1000;
    var q := Quantum(Step(1, -3), Some(2));
    assert q == 0.01;
    assert Multiple(12, q) == 0.12;
    var n: int :| Quantize(0.123, q) == Multiple(n, q);
    assert n == 12;
  }
}
