/**
 * Facts about multiplying natural numbers that the size and address
 * computations of the loaders need: the solver does not find them on its
 * own once the products sit inside larger terms.
 */
module MulFacts {

  /** Multiplication distributes over a sum. */
  lemma MulAdd(a: nat, d: nat, k: nat)
    ensures (a + d) * k == a * k + d * k
  {
  }

  /** Multiplying by the same factor keeps the order. */
  lemma MulLe(a: nat, b: nat, k: nat)
    requires a <= b
    ensures a * k <= b * k
  {
  }

  /** MulLe as an implication, for callers that do not know which way the order goes. */
  lemma MulOrder(a: nat, b: nat, k: nat)
    ensures a <= b ==> a * k <= b * k
  {
    if a <= b {
      MulLe(a, b, k);
    }
  }

  /** Item x of `width` items of `step` bytes ends within them. */
  lemma MulStep(x: nat, width: nat, step: nat)
    requires x < width
    ensures x * step + step <= width * step
  {
    assert x * step + step == (x + 1) * step;
  }

  /** A positive multiple of k is at least k. */
  lemma MulAtLeast(d: nat, k: nat)
    requires d >= 1
    ensures d * k >= k
  {
  }

  /** A multiple of a multiple of eight is a multiple of eight. */
  lemma MulMod8(a: nat, k: nat)
    requires a % 8 == 0
    ensures (a * k) % 8 == 0
  {
    var q := a / 8;
    assert a * k == 8 * (q * k);
  }
}
