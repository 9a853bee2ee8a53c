/** Small facts about integer multiplication and Euclidean division. */
module Arith {

  lemma MulMonotone(a: int, c: int, b: int)
    requires a <= c && b >= 0
    ensures a * b <= c * b
  {
    assert c * b - a * b == (c - a) * b;
  }

  /** Euclidean division is determined by any quotient and remainder pair. */
  lemma DivUnique(x: int, b: int, q: int, r: int)
    requires b > 0 && 0 <= r < b && x == q * b + r
    ensures x / b == q
  {
    var q', r' := x / b, x % b;
    assert x == q' * b + r';
    if q' < q {
      MulMonotone(q' + 1, q, b);
      assert false;
    } else if q < q' {
      MulMonotone(q + 1, q', b);
      assert false;
    }
  }

  /** A multiple of `b` that fits under `c` has a factor at most `c / b`. */
  lemma MulBound(a: int, b: int, c: int)
    requires b > 0 && a * b <= c
    ensures a <= c / b
  {
    var q, r := c / b, c % b;
    assert c == q * b + r;
    if a > q {
      MulMonotone(q + 1, a, b);
      assert false;
    }
  }
}
