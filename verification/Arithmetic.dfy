/** The int64 arithmetic of Go, written out over unbounded integers. */
module Arithmetic {
  const TWO_62 := 0x4000_0000_0000_0000
  const TWO_63 := 0x8000_0000_0000_0000
  const TWO_64 := 0x1_0000_0000_0000_0000
  const MAX_INT64 := TWO_63 - 1

  predicate InInt64(x: int) {
    -TWO_63 <= x < TWO_63
  }

  /** The int64 value that an exact result is truncated to. */
  function Wrap64(x: int): (w: int)
    ensures InInt64(w) && (w - x) % TWO_64 == 0
    ensures InInt64(x) ==> w == x
  {
    (x + TWO_63) % TWO_64 - TWO_63
  }

  function Min(a: int, b: int): int {
    if a <= b then a else b
  }

  lemma ProductIsMonotone(a: int, b: int, c: int)
    requires a <= b && c >= 0
    ensures a * c <= b * c
  {
  }

  lemma AtMostQuotientIff(c: int, a: int, b: int)
    requires b > 0
    ensures c <= a / b <==> c * b <= a
  {
    var q := a / b;
    assert q * b <= a < q * b + b;
    if c <= q {
      ProductIsMonotone(c, q, b);
    } else {
      ProductIsMonotone(q + 1, c, b);
      assert (q + 1) * b == q * b + b;
    }
  }

  lemma QuotientSteps(n: int, k: int)
    requires k > 0
    ensures n / k <= (n + 1) / k <= n / k + 1
  {
    var q := n / k;
    AtMostQuotientIff(q, n, k);
    AtMostQuotientIff(q, n + 1, k);
    AtMostQuotientIff(q + 1, n, k);
    AtMostQuotientIff(q + 2, n + 1, k);
    assert (q + 2) * k == (q + 1) * k + k;
  }
}
