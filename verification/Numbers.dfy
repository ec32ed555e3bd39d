/** Arithmetic the solver does not find on its own. */
module Numbers {

  function Min(a: int, b: int): int { if a < b then a else b }

  lemma MulMonotone(a: int, b: int, d: int)
    requires a <= b && d >= 0
    ensures a * d <= b * d
  {
  }

  lemma QuotientBounds(n: nat, d: nat)
    requires d > 0
    ensures (n / d) * d <= n < (n / d + 1) * d
  {
    assert n == (n / d) * d + n % d;
  }

  /** A multiple of `d` at most `n` is at most `n / d` times `d`. */
  lemma QuotientIsLargest(k: nat, n: nat, d: nat)
    requires d > 0 && k * d <= n
    ensures k <= n / d
  {
    QuotientBounds(n, d);
    if k > n / d {
      MulMonotone(n / d + 1, k, d);
    }
  }
}
