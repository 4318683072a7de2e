/** Integer division facts shared by the kernel launch and attention dispatch models. */
module Arith {

  type Pos = n: nat | n > 0 witness 1

  /** Ceiling division of a count by a positive divisor (`tl.cdiv`, `triton.cdiv`). */
  function CeilDiv(a: nat, b: Pos): (q: nat)
    ensures q * b >= a
    ensures a > 0 ==> (q - 1) * b < a
    ensures a == 0 <==> q == 0
  {
    var q := (a + b - 1) / b;
    DivBounds(a + b - 1, b);
    q
  }

  /** The quotient and remainder bracket the dividend. */
  lemma DivBounds(a: nat, b: Pos)
    ensures (a / b) * b <= a < (a / b + 1) * b
  {
  }

  /** Division and remainder recompose the dividend. */
  lemma DivMod(x: nat, d: Pos)
    ensures x == (x / d) * d + x % d
  {
  }

  /** A decomposition x == q * d + r with 0 <= r < d is the quotient and remainder. */
  lemma DivModUnique(x: int, d: Pos, q: int, r: int)
    requires 0 <= r < d && x == q * d + r
    ensures x / d == q && x % d == r
  {
    var q', r' := x / d, x % d;
    assert x == q' * d + r';
    assert (q - q') * d == r' - r;
    if q > q' {
      MulMono(1, q - q', d);
    } else if q < q' {
      MulMono(1, q' - q, d);
    }
  }

  /** Multiplying by a positive factor keeps order. */
  lemma MulMono(a: int, b: int, c: Pos)
    requires a <= b
    ensures a * c <= b * c
  {
    assert b * c - a * c == (b - a) * c;
  }

  /** Multiplying by a positive factor reflects strict order. */
  lemma MulMonoStrict(a: int, b: int, c: Pos)
    requires a * c < b * c
    ensures a < b
  {
    if a >= b {
      MulMono(b, a, c);
    }
  }

  /** Below n copies of d, the quotient by d is below n. */
  lemma DivBelow(x: nat, d: Pos, n: nat)
    requires x < d * n
    ensures x / d < n
  {
    DivBounds(x, d);
    MulMonoStrict(x / d, n, d);
  }

  /** A multiple of d plus something below d has the multiple's quotient. */
  lemma DivOfOffset(q: nat, d: Pos, r: nat)
    requires r < d
    ensures (q * d + r) / d == q && (q * d + r) % d == r
  {
    DivModUnique(q * d + r, d, q, r);
  }

  /** Two numbers closer than d with the same remainder are equal. */
  lemma ModEqClose(a: nat, b: nat, d: Pos)
    requires a % d == b % d && a < b + d && b < a + d
    ensures a == b
  {
    DivBounds(a, d);
    DivBounds(b, d);
    assert a - b == (a / d - b / d) * d;
    if a / d > b / d {
      MulMono(1, a / d - b / d, d);
    } else if a / d < b / d {
      MulMono(1, b / d - a / d, d);
    }
  }

  /** A multiple of a multiple of m is a multiple of m. */
  lemma MulDivisible(a: nat, b: nat, m: Pos)
    requires b % m == 0
    ensures (a * b) % m == 0
  {
    var k := b / m;
    assert b == k * m;
    assert a * b == (a * k) * m;
    DivOfOffset(a * k, m, 0);
  }
}
