/** Facts about multiplication and Euclidean division that the proofs
    of the generator and the chunk loader share. */
module Arithmetic {

  lemma MulLessCancel(a: int, b: int, c: int)
    requires c > 0 && a * c < b * c
    ensures a < b
  {
    if a >= b {
      MulLe(b, a, c);
    }
  }

  lemma MulLe(a: int, b: int, c: int)
    requires a <= b && c >= 0
    ensures a * c <= b * c
  {
    assert b * c - a * c == (b - a) * c;
  }

  lemma MulCancel(a: int, b: int, c: int)
    requires c > 0 && a * c == b * c
    ensures a == b
  {
    assert (a - b) * c == a * c - b * c;
  }

  /** Euclidean division is unique: q and r are n / w and n % w. */
  lemma DivModUnique(n: int, w: int, q: int, r: int)
    requires w > 0 && 0 <= r < w && n == q * w + r
    ensures n / w == q && n % w == r
  {
    var q', r' := n / w, n % w;
    assert n == q' * w + r';
    if q > q' {
      MulLe(q' + 1, q, w);
    } else if q < q' {
      MulLe(q + 1, q', w);
    }
  }

  /** Slots in increasing order have non-decreasing quotients, and
      increasing remainders when the quotients agree. */
  lemma DivModOrder(i: int, j: int, w: int)
    requires 0 <= i < j && w > 0
    ensures i / w < j / w || (i / w == j / w && i % w < j % w)
  {
    var qi, qj := i / w, j / w;
    assert i == qi * w + i % w && j == qj * w + j % w;
    if qi > qj {
      MulLe(qj + 1, qi, w);
    }
  }

  lemma RealScaleLe(a: real, b: real, c: real)
    requires a <= b && c >= 0.0
    ensures a * c <= b * c
  {
    assert b * c - a * c == (b - a) * c;
  }

  lemma RealScaleLt(a: real, b: real, c: real)
    requires a < b && c > 0.0
    ensures a * c < b * c
  {
    assert b * c - a * c == (b - a) * c;
  }

  /** For non-negative d and r, d > r exactly when d * d > r * r. */
  lemma SquareMonotone(d: real, r: real)
    requires d >= 0.0 && r >= 0.0
    ensures d > r <==> d * d > r * r
  {
    if d > r {
      RealScaleLt(0.0, d - r, d + r);
      assert d * d - r * r == (d - r) * (d + r);
    } else {
      RealScaleLe(0.0, r - d, r + d);
      assert r * r - d * d == (r - d) * (r + d);
    }
  }

  /** An offset of less than one chunk has a square below the chunk's. */
  lemma SquareBelow(d: real, s: real)
    requires -s < d <= 0.0
    ensures d * d <= s * s
  {
    RealScaleLe(-d, s, -d);
    RealScaleLe(-d, s, s);
    assert d * d == (-d) * (-d);
  }

  lemma MulDiv(q: int, w: int)
    requires w > 0
    ensures (q * w) / w == q && (q * w) % w == 0
  {
    DivModUnique(q * w, w, q, 0);
  }
}
