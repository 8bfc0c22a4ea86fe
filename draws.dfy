/** Draws of the page's uniform random source, passed in as parameters. */
module Draws {

  /** A value `Math.random()` can return: 0 <= r < 1. */
  predicate IsUnit(r: real) {
    0.0 <= r < 1.0
  }

  /** `Math.floor(r * n)` for a draw r picks an index in [0, n). */
  function PickIndex(r: real, n: nat): (k: int)
    requires IsUnit(r) && n > 0
    ensures 0 <= k < n
  {
    ScaleBelow(r, n as real);
    (r * n as real).Floor
  }

  /** A draw scaled by a positive width lands in [0, width). */
  lemma ScaleBelow(r: real, w: real)
    requires IsUnit(r) && w > 0.0
    ensures 0.0 <= r * w < w
  {
    assert (1.0 - r) * w > 0.0;
  }
}
