/** Small arithmetic helpers shared by the batch driver and the percentile
    computation: the JavaScript Math.ceil of an integer quotient, and the
    Math.min / Math.max of two numbers. */
module Numeric {

  /** Math.ceil(a / b) for a positive divisor. Dafny's `/` on int is Euclidean
      (it floors for b > 0), so the ceiling is the negated floor of -a / b. */
  function CeilDiv(a: int, b: int): (r: int)
    requires b > 0
    ensures r * b >= a
    ensures (r - 1) * b < a
  {
    -((-a) / b)
  }

  /** A smaller numerator never has a larger ceiling. */
  lemma CeilDivMonotone(a: int, a': int, b: int)
    requires b > 0 && a <= a'
    ensures CeilDiv(a, b) <= CeilDiv(a', b)
  {
    var r, r' := CeilDiv(a, b), CeilDiv(a', b);
    if r > r' {
      assert (r - 1) * b >= r' * b by {
        assert r - 1 >= r';
        MulMonotone(r', r - 1, b);
      }
      assert false;
    }
  }

  /** The ceiling is the only integer with its two defining bounds. */
  lemma CeilDivUnique(a: int, b: int, r: int)
    requires b > 0 && r * b >= a && (r - 1) * b < a
    ensures r == CeilDiv(a, b)
  {
    var c := CeilDiv(a, b);
    if r < c {
      MulMonotone(r, c - 1, b);
      assert false;
    } else if r > c {
      MulMonotone(c, r - 1, b);
      assert false;
    }
  }

  lemma MulMonotone(x: int, y: int, b: int)
    requires x <= y && b >= 0
    ensures x * b <= y * b
  {
    assert y * b - x * b == (y - x) * b;
  }

  /** `Math.min` of two integers, for the batch sizes of the driver. */
  function MinInt(a: int, b: int): (r: int)
    ensures r <= a && r <= b && (r == a || r == b)
  {
    if a <= b then a else b
  }

  /** `Math.min` of two reals, for the latency scores and the improvement.
      It repeats `MinInt` because Dafny has no type parameter restricted to
      ordered types, and the two are needed at `int` and at `real`. */
  function MinReal(a: real, b: real): (r: real)
    ensures r <= a && r <= b && (r == a || r == b)
  {
    if a <= b then a else b
  }

  /** `Math.max` of two reals. */
  function MaxReal(a: real, b: real): (r: real)
    ensures r >= a && r >= b && (r == a || r == b)
  {
    if a >= b then a else b
  }

  /** `Math.abs` of a real. */
  function AbsReal(a: real): (r: real)
    ensures r >= 0.0 && (r == a || r == -a)
  {
    if a >= 0.0 then a else -a
  }
}
