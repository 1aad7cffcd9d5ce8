/** Exact stand-ins for the numeric primitives the Python code takes from its runtime. */
module Numerics {
  /**
   * `sqrt` behaves as the real square root on the non-negative reals (math.sqrt, math.hypot and
   * numpy.linalg.norm rest on it): zero at zero, non-negative, squaring back, positive on positives.
   */
  ghost predicate IsSqrt(sqrt: real -> real)
  {
    && sqrt(0.0) == 0.0
    && forall x {:trigger sqrt(x)} :: 0.0 <= x ==>
         0.0 <= sqrt(x) && sqrt(x) * sqrt(x) == x && (0.0 < x ==> 0.0 < sqrt(x))
  }

  /** math.hypot(dx, dy) in terms of a square root. */
  function Hypot(sqrt: real -> real, dx: real, dy: real): real
  {
    sqrt(dx * dx + dy * dy)
  }

  /** A non-zero real has a positive square. */
  lemma SquarePositive(x: real)
    ensures x * x >= 0.0
    ensures x != 0.0 ==> x * x > 0.0
  {
    if x < 0.0 {
      assert (-x) * (-x) > 0.0;
      assert x * x == (-x) * (-x);
    } else if x > 0.0 {
      assert x * x > 0.0;
    }
  }

  lemma SumOfSquaresPositive(dx: real, dy: real)
    ensures dx * dx + dy * dy >= 0.0
    ensures (dx != 0.0 || dy != 0.0) ==> dx * dx + dy * dy > 0.0
  {
    SquarePositive(dx);
    SquarePositive(dy);
  }

  /** hypot is non-negative and zero exactly when both components are zero. */
  lemma HypotZero(sqrt: real -> real, dx: real, dy: real)
    requires IsSqrt(sqrt)
    ensures 0.0 <= Hypot(sqrt, dx, dy)
    ensures Hypot(sqrt, dx, dy) == 0.0 <==> dx == 0.0 && dy == 0.0
  {
    SumOfSquaresPositive(dx, dy);
    if dx == 0.0 && dy == 0.0 {
      assert dx * dx + dy * dy == 0.0;
    } else {
      assert sqrt(dx * dx + dy * dy) > 0.0;
    }
  }

  /** hypot depends only on the magnitudes of its arguments. */
  lemma HypotNegate(sqrt: real -> real, dx: real, dy: real)
    ensures Hypot(sqrt, -dx, -dy) == Hypot(sqrt, dx, dy)
  {
    assert (-dx) * (-dx) == dx * dx && (-dy) * (-dy) == dy * dy;
  }

  function Abs(x: real): (r: real)
    ensures 0.0 <= r && (r == x || r == -x)
  {
    if x < 0.0 then -x else x
  }

  function Max(a: real, b: real): (r: real)
    ensures a <= r && b <= r && (r == a || r == b)
  {
    if a < b then b else a
  }

  function Min(a: real, b: real): (r: real)
    ensures r <= a && r <= b && (r == a || r == b)
  {
    if a < b then a else b
  }

  /** Python's int() of a float: truncation toward zero. */
  function TruncToInt(x: real): (r: int)
    ensures 0.0 <= x ==> r as real <= x < r as real + 1.0
    ensures x < 0.0 ==> r as real - 1.0 < x <= r as real
  {
    if 0.0 <= x then x.Floor else -((-x).Floor)
  }

  const TwoTo32: int := 0x1_0000_0000
  const TwoTo31: int := 0x8000_0000

  /** The value a ctypes c_int slot holds after a Python int is stored in it (two's-complement wrap-around). */
  function WrapInt32(n: int): (r: int)
    ensures -TwoTo31 <= r < TwoTo31
    ensures (n - r) % TwoTo32 == 0
    ensures -TwoTo31 <= n < TwoTo31 ==> r == n
  {
    var m := n % TwoTo32;
    if m >= TwoTo31 then m - TwoTo32 else m
  }

  function Sum(xs: seq<real>): real
  {
    if xs == [] then 0.0 else Sum(xs[..|xs| - 1]) + xs[|xs| - 1]
  }

  /** Arithmetic mean; the callers guard the empty case. */
  function Mean(xs: seq<real>): real
    requires |xs| > 0
  {
    Sum(xs) / |xs| as real
  }

  lemma {:induction false} SumBounds(xs: seq<real>, lo: real, hi: real)
    requires forall i :: 0 <= i < |xs| ==> lo <= xs[i] <= hi
    ensures |xs| as real * lo <= Sum(xs) <= |xs| as real * hi
  {
    if xs != [] {
      SumBounds(xs[..|xs| - 1], lo, hi);
    }
  }

  /** The mean lies between the smallest and the largest value. */
  lemma MeanBounds(xs: seq<real>, lo: real, hi: real)
    requires |xs| > 0
    requires forall i :: 0 <= i < |xs| ==> lo <= xs[i] <= hi
    ensures lo <= Mean(xs) <= hi
  {
    SumBounds(xs, lo, hi);
    var n := |xs| as real;
    assert n * lo <= Sum(xs) <= n * hi;
    assert Sum(xs) / n >= lo by {
      assert Sum(xs) >= lo * n;
    }
    assert Sum(xs) / n <= hi by {
      assert Sum(xs) <= hi * n;
    }
  }
}
