// Small facts about products, stated one at a time for the solver.

module Arith {
  lemma MulAdd(a: int, b: int, c: int)
    ensures (a + b) * c == a * c + b * c
    ensures c * (a + b) == c * a + c * b
  {
  }

  lemma MulSub(a: int, b: int, c: int)
    ensures (a - b) * c == a * c - b * c
    ensures c * (a - b) == c * a - c * b
  {
  }

  /** Multiplying by a positive number does not shrink. */
  lemma MulGrows(a: int, b: int)
    requires a >= 1 && b >= 0
    ensures a * b >= b
  {
  }

  lemma MulMonotone(a: int, b: int, c: int)
    requires a <= b && c >= 0
    ensures a * c <= b * c
    ensures c * a <= c * b
  {
  }

  lemma MulSign(a: int, b: int)
    ensures a >= 0 && b >= 0 ==> a * b >= 0
    ensures a <= 0 && b >= 0 ==> a * b <= 0
  {
  }

  /** Quotients order as their dividends do. */
  lemma DivisionOrder(s: int, p: int, q: int, r: int, t: int)
    requires p * s + r >= q * s + t
    requires 0 <= r < s && 0 <= t < s
    ensures p >= q
  {
    if p < q {
      MulSub(q, p, s);
      MulGrows(q - p, s);
    }
  }

  lemma DivisionUnique(s: int, p: int, q: int, r: int, t: int)
    requires p * s + r == q * s + t
    requires 0 <= r < s && 0 <= t < s
    ensures p == q && r == t
  {
    DivisionOrder(s, p, q, r, t);
    DivisionOrder(s, q, p, t, r);
  }

  lemma DivMod(n: nat, u: nat)
    requires u > 0
    ensures n == (n / u) * u + n % u && 0 <= n / u && 0 <= n % u < u
  {
  }

  lemma RealMonotone(x: real, y: real, z: real)
    requires x <= y && z > 0.0
    ensures x * z <= y * z
  {
  }

  lemma RealAdd(x: real, y: real, z: real)
    ensures (x + y) * z == x * z + y * z
  {
  }

  lemma RealStrict(x: real, y: real, z: real)
    requires x < y && z > 0.0
    ensures x * z < y * z
  {
  }
}
