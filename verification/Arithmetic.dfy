/** Integer facts shared by the components that lay time out in equal steps. */
module Arithmetic {
  lemma MulLe(a: int, b: int, c: int)
    requires a <= b && 0 <= c
    ensures a * c <= b * c
  {
  }

  /** Quotient and remainder are unique. */
  lemma DivUnique(a: int, p: int, m: int, q: int)
    requires 0 < p && 0 <= q < p && a == m * p + q
    ensures a / p == m && a % p == q
  {
    var d := a / p - m;
    assert d * p == q - a % p;
    if d > 0 {
      MulLe(1, d, p);
    } else if d < 0 {
      MulLe(d, -1, p);
    }
  }

  /** How many steps of `b` cover `a` (internal/alert/filters.go). */
  function CeilDiv(a: int, b: int): int
    requires 0 < b
  {
    (a + b - 1) / b
  }

  /** The width they cover: `a` rounded up to whole steps, and `a` itself exactly when the step divides it. */
  lemma CeilDivCovers(a: int, b: int)
    requires 0 <= a && 0 < b
    ensures 0 <= CeilDiv(a, b) && a <= CeilDiv(a, b) * b < a + b
    ensures CeilDiv(a, b) * b == a <==> a % b == 0
  {
    var q, r := a / b, a % b;
    assert a == q * b + r;
    if r == 0 {
      DivUnique(a + b - 1, b, q, b - 1);
    } else {
      assert (q + 1) * b == q * b + b;
      DivUnique(a + b - 1, b, q + 1, r - 1);
    }
  }

  lemma CeilDivMonotone(a: int, b: int, step: int)
    requires 0 <= a <= b && 0 < step
    ensures CeilDiv(a, step) <= CeilDiv(b, step)
  {
    CeilDivCovers(a, step);
    CeilDivCovers(b, step);
    if CeilDiv(a, step) > CeilDiv(b, step) {
      MulLe(CeilDiv(b, step), CeilDiv(a, step) - 1, step);
    }
  }

  /** The `k`-th mark of a ruler that starts at `origin`. */
  function Mark(origin: int, step: int, k: int): int {
    origin + k * step
  }

  lemma MarkNext(origin: int, step: int, k: int)
    ensures Mark(origin, step, k + 1) == Mark(origin, step, k) + step
  {
    assert (k + 1) * step == k * step + step;
  }

  lemma MarkLe(origin: int, step: int, a: int, b: int)
    requires a <= b && 0 < step
    ensures Mark(origin, step, a) <= Mark(origin, step, b)
  {
    MulLe(a, b, step);
  }

  /** A ruler that starts `k` steps earlier has the same marks, `k` later. */
  lemma MarkShift(from: int, step: int, k: int, i: int)
    ensures Mark(from - k * step, step, i + k) == Mark(from, step, i)
  {
    assert (i + k) * step == i * step + k * step;
  }

  lemma MarkBack(origin: int, step: int, k: int, i: int)
    ensures Mark(origin, step, i) == Mark(origin, step, i + k) - k * step
  {
    assert (i + k) * step == i * step + k * step;
  }
}
