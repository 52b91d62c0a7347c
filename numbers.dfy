/** The JavaScript `Math` functions and operators the player uses, on unbounded reals and integers. */
module Numbers {
  import opened Wrappers

  /** `Math.floor`. */
  function Floor(x: real): (r: int)
    ensures r as real <= x < r as real + 1.0
  {
    x.Floor
  }

  /** `Math.ceil`. */
  function Ceil(x: real): (r: int)
    ensures x <= r as real < x + 1.0
  {
    -((-x).Floor)
  }

  /** `Math.round`: halves go up (towards +infinity). */
  function Round(x: real): (r: int)
    ensures x - 0.5 < r as real <= x + 0.5
  {
    (x + 0.5).Floor
  }

  /** `Math.abs`. */
  function Abs(x: real): (r: real)
    ensures r >= 0.0 && (r == x || r == -x)
  {
    if x < 0.0 then -x else x
  }

  function Min(a: real, b: real): (r: real)
    ensures r <= a && r <= b && (r == a || r == b)
  {
    if a <= b then a else b
  }

  function Max(a: real, b: real): (r: real)
    ensures r >= a && r >= b && (r == a || r == b)
  {
    if a >= b then a else b
  }

  /**
   * The quotient of `a / b` truncated toward zero, as `Math.floor` does it on
   * a non-negative quotient and `Math.ceil` on a negative one.
   */
  function TruncDiv(a: int, b: int): int
    requires b != 0
  {
    if a >= 0 then a / b else -((-a) / b)
  }

  /**
   * JavaScript's `%` on integers: the remainder of the truncated division, so
   * it takes the sign of the dividend and is smaller than the divisor in size.
   */
  function JsRem(a: int, b: int): (r: int)
    requires b != 0
    ensures a == b * TruncDiv(a, b) + r
    ensures b > 0 ==> -b < r < b
    ensures b < 0 ==> b < r < -b
    ensures a >= 0 ==> r >= 0
    ensures a < 0 ==> r <= 0
    ensures a >= 0 ==> r == a % b
  {
    if a >= 0 then a % b
    else
      var q, m := (-a) / b, (-a) % b;
      assert -a == b * q + m;
      -m
  }

  /** `a / b` for a JavaScript number: `None` when the quotient is `NaN` or infinite. */
  function Ratio(a: real, b: real): (r: Option<real>)
    ensures r.Some? <==> b != 0.0
    ensures r.Some? ==> r.value * b == a
  {
    if b != 0.0 then Some(a / b) else None
  }

  // Steps of real arithmetic the solver does not take on its own.

  lemma DivMul(a: real, c: real)
    requires c != 0.0
    ensures (a / c) * c == a
  {
  }

  lemma Cancel(a: real, c: real)
    requires c != 0.0
    ensures (c * a) / c == a
  {
  }

  lemma Distribute(a: real, b: real, c: real)
    ensures (a - b) * c == a * c - b * c
  {
  }

  lemma Commute(a: real, b: real)
    ensures a * b == b * a
  {
  }

  lemma Negate(a: real, c: real)
    ensures (-a) * c == -(a * c)
  {
  }

  lemma MulMono(a: real, b: real, c: real)
    requires a <= b && c >= 0.0
    ensures a * c <= b * c
  {
  }

  /** Scaling by a positive `c` to at most `k` means at most `k / c`. */
  lemma ScaledAtMost(x: real, c: real, k: real)
    requires c > 0.0 && x * c <= k
    ensures x <= k / c
  {
    DivMul(k, c);
    Distribute(x, k / c, c);
    assert (x - k / c) * c <= 0.0;
  }

  /** Scaling by a positive `c` to at least `k` means at least `k / c`. */
  lemma ScaledAtLeast(x: real, c: real, k: real)
    requires c > 0.0 && x * c >= k
    ensures x >= k / c
  {
    DivMul(k, c);
    Distribute(x, k / c, c);
    assert (x - k / c) * c >= 0.0;
  }

  /** Below one unit once scaled by `c` means below `1 / c`. */
  lemma BelowReciprocal(x: real, c: real)
    requires c > 0.0 && x * c < 1.0
    ensures x < 1.0 / c
  {
    var y := 1.0 / c;
    var one := y * c;
    var p := x * c;
    assert one == 1.0;
    assert p < one;
    if x >= y {
      MulMono(y, x, c);
    }
  }

  /** A count within half a unit of `frac * c`, divided by `c`, is within `1 / c` of `frac`. */
  lemma WithinOneUnit(f: real, frac: real, c: real)
    requires c > 0.0 && frac * c - 0.5 < f <= frac * c + 0.5
    ensures -1.0 / c < f / c - frac < 1.0 / c
  {
    var q := f / c;
    var d := q - frac;
    DivMul(f, c);
    Distribute(q, frac, c);
    var p := d * c;
    var e := f - frac * c;
    assert p == e;
    assert -0.5 < e <= 0.5;
    assert p < 1.0;
    BelowReciprocal(d, c);
    var nd := -d;
    Negate(d, c);
    var m := nd * c;
    assert m == -p;
    assert m < 1.0;
    BelowReciprocal(nd, c);
  }
}
