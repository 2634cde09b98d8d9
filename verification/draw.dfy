/**
 * A call to `Math.random()` is replaced by a draw `r` in [0, 1) that the
 * caller supplies; `Math.floor(r * n)` turns it into a list index.
 */
module Draw {

  /** The range `Math.random()` returns. */
  predicate IsDraw(r: real) {
    0.0 <= r < 1.0
  }

  lemma ScaledBounds(r: real, n: nat)
    requires IsDraw(r)
    ensures 0.0 <= r * n as real
    ensures n > 0 ==> r * n as real < n as real
  {
    if n > 0 {
      assert (1.0 - r) * n as real > 0.0;
    }
  }

  lemma PositiveFactor(a: real, b: real)
    requires b > 0.0 && a * b > 0.0
    ensures a > 0.0
  {
  }

  /** `Math.floor(r * n)`: an index into a list of length `n`, or 0 when the list is empty. */
  function Index(r: real, n: nat): (i: nat)
    requires IsDraw(r)
    ensures n == 0 ==> i == 0
    ensures n > 0 ==> i < n
  {
    ScaledBounds(r, n);
    (r * n as real).Floor
  }

  /** Every index of a non-empty list is chosen by some draw: the draw `i / n`. */
  lemma IndexReaches(n: nat, i: nat)
    requires i < n
    ensures IsDraw(i as real / n as real)
    ensures Index(i as real / n as real, n) == i
  {
    var r := i as real / n as real;
    assert r * n as real == i as real;
    assert (1.0 - r) * n as real == (n - i) as real;
    PositiveFactor(1.0 - r, n as real);
  }
}
