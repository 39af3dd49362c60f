/** The widget's only source of randomness is `Math.floor(Math.random() * n)`.
    The model replaces every such call by an index parameter that is known to
    lie in the range the call can produce. */
module Draw {

  /** `r` is a value `Math.floor(Math.random() * n)` can return. With
      `Math.random()` in [0, 1) that is 0 .. n-1, and exactly 0 when n is 0. */
  predicate ValidDraw(r: nat, n: nat) {
    if n == 0 then r == 0 else r < n
  }
}
