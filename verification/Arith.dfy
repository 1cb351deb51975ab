/** Non-linear facts, each proved once in isolation. */
module Arith {

  lemma DivMod(a: int, d: int)
    requires d > 0
    ensures a == d * (a / d) + a % d
    ensures 0 <= a % d < d
  {
  }

  lemma MulMono(a: int, b: int, c: int)
    requires a <= b && 0 <= c
    ensures a * c <= b * c
    ensures c * a <= c * b
  {
  }

  lemma MulNonNeg(a: int, b: int)
    requires 0 <= a && 0 <= b
    ensures 0 <= a * b
  {
  }

  /** `q` is the floor of `a / d` exactly when `d * q <= a < d * (q + 1)`. */
  lemma DivUnique(a: int, d: int, q: int)
    requires d > 0
    requires d * q <= a < d * q + d
    ensures a / d == q && a % d == a - d * q
  {
    DivMod(a, d);
    if a / d < q {
      MulMono(a / d + 1, q, d);
    } else if a / d > q {
      MulMono(q + 1, a / d, d);
    }
  }

  lemma DivMono(a: int, b: int, d: int)
    requires a <= b && d > 0
    ensures a / d <= b / d
  {
    DivMod(a, d);
    DivMod(b, d);
    if b / d < a / d {
      MulMono(b / d + 1, a / d, d);
    }
  }

  /** The floor of a sum is the sum of the floors, plus one when the fractions carry. */
  lemma DivAdd(a: int, b: int, d: int)
    requires d > 0
    ensures (a + b) / d == a / d + b / d + (if a % d + b % d >= d then 1 else 0)
  {
    DivMod(a, d);
    DivMod(b, d);
    var c := if a % d + b % d >= d then 1 else 0;
    var q := a / d + b / d + c;
    assert d * q == d * (a / d) + d * (b / d) + d * c;
    DivUnique(a + b, d, q);
  }

  lemma DivBound(a: int, d: int, q: int)
    requires d > 0
    requires a <= d * q
    ensures a / d <= q
  {
    DivMod(a, d);
    if q < a / d {
      MulMono(q + 1, a / d, d);
    }
  }

  lemma DivLower(a: int, d: int, q: int)
    requires d > 0
    requires d * q <= a
    ensures q <= a / d
  {
    DivMod(a, d);
    if a / d < q {
      MulMono(a / d + 1, q, d);
    }
  }

  lemma DivNonNeg(a: int, d: int)
    requires d > 0 && 0 <= a
    ensures 0 <= a / d <= a
  {
    DivLower(a, d, 0);
    MulMono(1, d, a);
    DivBound(a, d, a);
  }
}
