/**
 * Facts of real arithmetic about squares, products and quotients, used as
 * proof steps by the vector lemmas in `Points` and `Integrator`.  Several
 * (`MulEq`, `ZeroSquare`) are plain proof helpers with no content of their
 * own.
 */
module RealFacts {

  function Abs(k: real): (a: real)
    ensures 0.0 <= a && (a == k || a == -k)
  {
    if k < 0.0 then -k else k
  }

  lemma SquareFacts(a: real)
    ensures 0.0 <= a * a
    ensures a != 0.0 ==> 0.0 < a * a
  {
    if a < 0.0 {
      assert a * a == (-a) * (-a);
    }
  }

  /** Strict positivity, named so that lemmas can state it about a whole expression. */
  predicate Positive(v: real) {
    0.0 < v
  }

  lemma MulEq(a: real, a': real, b: real, b': real)
    requires a == a' && b == b'
    ensures a * b == a' * b'
  {
  }

  lemma ProductSquare(a: real, b: real)
    ensures (a * b) * (a * b) == (a * a) * (b * b)
  {
  }

  lemma AbsSquare(k: real)
    ensures Abs(k) * Abs(k) == k * k
  {
  }

  lemma NonnegProduct(a: real, b: real)
    requires 0.0 <= a && 0.0 <= b
    ensures 0.0 <= a * b
  {
  }

  lemma ZeroSquare(a: real)
    requires a == 0.0
    ensures a * a == 0.0
  {
  }

  /** Multiplying every coordinate by `k` multiplies the sum of squares by `k * k`. */
  lemma ScaledSquares(x: real, y: real, z: real, k: real)
    ensures (x * k) * (x * k) + (y * k) * (y * k) + (z * k) * (z * k)
            == (x * x + y * y + z * z) * (k * k)
  {
  }

  lemma DivTimes(a: real, n: real, q: real)
    requires n != 0.0 && q == a / n
    ensures q * n == a
  {
  }

  lemma CancelFactor(s: real, m: real, k: real)
    requires m != 0.0 && s * m == k && k == m
    ensures s == 1.0
  {
  }

  /** Between nonnegative reals, the larger square has the larger root. */
  lemma SquareMonotone(d: real, m: real)
    requires 0.0 <= d && 0.0 <= m
    requires m * m < d * d
    ensures m < d
  {
  }
}
