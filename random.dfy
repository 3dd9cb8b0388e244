/** The random source of the quiz: the successive results of `Math.random()`
    and the `getRandomInt` helper built on them (script.js:321-323). */
module Random {

  /** The values `Math.random()` returns, in the order they are drawn. */
  type Stream = nat -> real

  /** Every draw lies in [0, 1), as `Math.random()` guarantees. */
  ghost predicate IsUniform(rand: Stream)
  {
    forall i :: 0.0 <= rand(i) < 1.0
  }

  /** `r * n` lies in [0, n) when `r` lies in [0, 1), so its floor does too. */
  lemma ScaledFloorInRange(r: real, n: nat)
    requires 0.0 <= r < 1.0 && 1 <= n
    ensures 0 <= (r * n as real).Floor < n
  {
    assert r * n as real < n as real by {
      assert (n as real) - r * (n as real) == (1.0 - r) * (n as real);
    }
  }

  /** `getRandomInt(min, max)`: `Math.floor(r * (max - min + 1)) + min`. */
  function RandomInt(r: real, lo: nat, hi: nat): (x: nat)
    requires 0.0 <= r < 1.0 && lo <= hi
    ensures lo <= x <= hi
  {
    ScaledFloorInRange(r, hi - lo + 1);
    (r * (hi - lo + 1) as real).Floor + lo
  }

  /** Every value of the range is drawn for some value of `Math.random()`:
      the bounded choice is onto [lo, hi]. */
  lemma RandomIntReaches(x: nat, lo: nat, hi: nat)
    requires lo <= x <= hi
    ensures var r := (x - lo) as real / (hi - lo + 1) as real;
            0.0 <= r < 1.0 && RandomInt(r, lo, hi) == x
  {
    var n := (hi - lo + 1) as real;
    var r := (x - lo) as real / n;
    assert r * n == (x - lo) as real;
    assert (x - lo) as real < n;
  }

  /** `n` successive calls `getRandomInt(lo, hi)` starting at draw `start`. */
  function Draws(rand: Stream, start: nat, n: nat, lo: nat, hi: nat): (xs: seq<nat>)
    requires IsUniform(rand) && lo <= hi
    ensures |xs| == n
    ensures forall i :: 0 <= i < n ==> lo <= xs[i] <= hi
    ensures forall i :: 0 <= i < n ==> xs[i] == RandomInt(rand(start + i), lo, hi)
  {
    if n == 0 then []
    else Draws(rand, start, n - 1, lo, hi) + [RandomInt(rand(start + n - 1), lo, hi)]
  }

  /** The draw at which block `j` of `step` draws each begins, when block 0
      begins at draw `first`. */
  function BlockStart(first: nat, j: nat, step: nat): nat
  {
    if j == 0 then first else BlockStart(first, j - 1, step) + step
  }

  /** Block `j` begins `j` whole blocks after the first. */
  lemma {:induction false} BlockStartClosedForm(first: nat, j: nat, step: nat)
    ensures BlockStart(first, j, step) == first + j * step
  {
    if j > 0 {
      BlockStartClosedForm(first, j - 1, step);
    }
  }

  lemma BlockStartNext(first: nat, j: nat, step: nat)
    ensures BlockStart(first, j + 1, step) == BlockStart(first, j, step) + step
  {
  }
}
