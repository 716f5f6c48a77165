/** Small facts of integer division and multiplication that the models appeal to by name; division is by
    positive numbers throughout. */
module Arithmetic {

  lemma {:induction false} MulMonotone(x: int, y: int, d: int)
    requires x <= y && d >= 0
    ensures x * d <= y * d && d * x <= d * y
  {
    assert (y - x) * d >= 0;
  }

  lemma {:induction false} MulCancelLess(x: int, y: int, d: int)
    requires x * d < y * d && d > 0
    ensures x < y
  {
    if x >= y {
      MulMonotone(y, x, d);
    }
  }

  lemma {:induction false} MulCancelEq(x: int, y: int, d: int)
    requires x * d == y * d && d > 0
    ensures x == y
  {
    assert (x - y) * d == 0;
  }

  lemma {:induction false} DivBounds(a: int, d: int)
    requires d > 0
    ensures (a / d) * d <= a < (a / d + 1) * d
  {
    assert a == d * (a / d) + a % d;
  }

  /** a / d is the largest q with q * d <= a. */
  lemma {:induction false} DivIsFloor(a: int, q: int, d: int)
    requires d > 0
    ensures q <= a / d <==> q * d <= a
  {
    DivBounds(a, d);
    if q <= a / d {
      MulMonotone(q, a / d, d);
    }
    if q * d <= a {
      MulCancelLess(q, a / d + 1, d);
    }
  }

  lemma {:induction false} DivMonotone(a: int, b: int, d: int)
    requires a <= b && d > 0
    ensures a / d <= b / d
  {
    DivBounds(a, d);
    DivIsFloor(b, a / d, d);
  }

  lemma {:induction false} DivExact(q: int, d: int)
    requires d > 0
    ensures q * d / d == q && (q * d) % d == 0
  {
    DivIsFloor(q * d, q, d);
    DivBounds(q * d, d);
    MulCancelLess(q * d / d, q + 1, d);
  }
}
