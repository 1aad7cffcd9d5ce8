/**
 * DS-TWR timing, start-line geometry and two-anchor position estimation
 * (src/uwb_line_tracker/ds_twr.py). Square roots are a parameter `sqrt`; lemmas that
 * need its properties require Numerics.IsSqrt(sqrt).
 */
module DsTwr {
  import opened Wrappers
  import opened Numerics
  import opened Models

  /** SPEED_OF_LIGHT_M_S. */
  const SpeedOfLight: real := 299792458.0
  const NanosPerSecond: real := 1000000000.0
  /** LINE_OPTIONS["prefer_positive_side"]. */
  const LinePreferPositiveSide: bool := true
  /** The 1e-6 m margin of the circle clamps. */
  const ClampMargin: real := 0.000001

  // ----- DS-TWR timing

  /** distance_to_tof_ns: metres to nanoseconds of flight. */
  function DistanceToTofNs(distanceM: real): real
  {
    (distanceM / SpeedOfLight) * NanosPerSecond
  }

  /** The inverse conversion, nanoseconds of flight to metres. */
  function TofNsToDistance(tofNs: real): real
  {
    tofNs / NanosPerSecond * SpeedOfLight
  }

  lemma TofRoundTrip(d: real)
    ensures TofNsToDistance(DistanceToTofNs(d)) == d
    ensures d > 0.0 <==> DistanceToTofNs(d) > 0.0
  {
  }

  /** euclidean_distance over the three coordinates. */
  function EuclideanDistance(sqrt: real -> real, a: Vector3, b: Vector3): real
  {
    sqrt((a.x - b.x) * (a.x - b.x) + (a.y - b.y) * (a.y - b.y) + (a.z - b.z) * (a.z - b.z))
  }

  /**
   * simulate_ds_twr with the Gaussian sample `noiseSample` (drawn from N(0, noiseStdM)) as an input:
   * the true distance plus noise, its time of flight plus the clock drift, and the round trip
   * as twice the time of flight plus the responder delay.
   */
  function SimulateDsTwr(
    sqrt: real -> real, anchor: Anchor, tag: TagState,
    noiseStdM: real, responderDelayNs: real, clockDriftNs: real, noiseSample: real): RangeMeasurement
  {
    var noisy := EuclideanDistance(sqrt, anchor.position, tag.truePosition) + noiseSample;
    RangeMeasurement(
      anchorId := anchor.id,
      tagId := tag.id,
      tofNs := DistanceToTofNs(noisy) + clockDriftNs,
      distanceM := noisy,
      varianceM2 := noiseStdM * noiseStdM,
      roundTripNs := 2.0 * DistanceToTofNs(noisy) + responderDelayNs,
      replyTimeNs := responderDelayNs)
  }

  /**
   * The fields of a simulated measurement are consistent with each other: the noisy distance is
   * recovered both from the time of flight net of drift and from the round trip net of the reply
   * time, the round trip exceeds twice the drift-free flight time by exactly the reply time, and
   * the variance is the square of the noise deviation.
   */
  lemma SimulateDsTwrRelations(
    sqrt: real -> real, anchor: Anchor, tag: TagState,
    noiseStdM: real, responderDelayNs: real, clockDriftNs: real, noiseSample: real)
    ensures var m := SimulateDsTwr(sqrt, anchor, tag, noiseStdM, responderDelayNs, clockDriftNs, noiseSample);
      && m.anchorId == anchor.id && m.tagId == tag.id
      && m.distanceM == EuclideanDistance(sqrt, anchor.position, tag.truePosition) + noiseSample
      && TofNsToDistance(m.tofNs - clockDriftNs) == m.distanceM
      && TofNsToDistance((m.roundTripNs - m.replyTimeNs) / 2.0) == m.distanceM
      && m.roundTripNs - 2.0 * (m.tofNs - clockDriftNs) == m.replyTimeNs
      && m.replyTimeNs == responderDelayNs
      && m.varianceM2 == noiseStdM * noiseStdM && m.varianceM2 >= 0.0
  {
    var m := SimulateDsTwr(sqrt, anchor, tag, noiseStdM, responderDelayNs, clockDriftNs, noiseSample);
    TofRoundTrip(m.distanceM);
    SquarePositive(noiseStdM);
  }

  // ----- start-line geometry

  /** side_of_line: the z-free cross product (B - A) x (P - A). */
  function SideOfLine(a: Vector3, b: Vector3, p: Vector3): real
  {
    (b.x - a.x) * (p.y - a.y) - (b.y - a.y) * (p.x - a.x)
  }

  /**
   * The side value of the point A + s (B - A) + t (B - A) rotated a quarter turn left is t |B - A|^2,
   * so it is positive exactly for points left of A -> B (and zero on the line or when A and B coincide in XY).
   */
  lemma SideOfLineLeft(a: Vector3, b: Vector3, s: real, t: real, z: real)
    ensures var dx, dy := b.x - a.x, b.y - a.y;
      SideOfLine(a, b, Vector3(a.x + s * dx - t * dy, a.y + s * dy + t * dx, z)) == t * (dx * dx + dy * dy)
  {
    var dx, dy := b.x - a.x, b.y - a.y;
    var p := Vector3(a.x + s * dx - t * dy, a.y + s * dy + t * dx, z);
    assert p.y - a.y == s * dy + t * dx;
    assert p.x - a.x == s * dx - t * dy;
    calc {
      SideOfLine(a, b, p);
      dx * (s * dy + t * dx) - dy * (s * dx - t * dy);
      { Expand(dx, s * dy, t * dx); Expand(dy, s * dx, -(t * dy)); }
      (dx * (s * dy) + dx * (t * dx)) - (dy * (s * dx) + dy * (-(t * dy)));
      { Rearrange(dx, s, dy); Rearrange(dx, t, dx); Rearrange(dy, s, dx); Rearrange(dy, -t, dy); }
      (s * (dx * dy) + t * (dx * dx)) - (s * (dy * dx) + (-t) * (dy * dy));
      t * (dx * dx) + t * (dy * dy);
      { Expand(t, dx * dx, dy * dy); }
      t * (dx * dx + dy * dy);
    }
  }

  /** (-u) w = -(u w). */
  lemma NegateFactor(u: real, w: real)
    ensures (-u) * w == -(u * w)
  {
  }

  /** u (v + w) = u v + u w. */
  lemma Expand(u: real, v: real, w: real)
    ensures u * (v + w) == u * v + u * w
  {
  }

  /** u (k v) = k (u v), and -(k v) = (-k) v. */
  lemma Rearrange(u: real, k: real, v: real)
    ensures u * (k * v) == k * (u * v)
    ensures u * (-(k * v)) == (-k) * (u * v)
  {
  }

  /** Swapping the anchors negates the side value; z coordinates play no part. */
  lemma SideOfLineSwap(a: Vector3, b: Vector3, p: Vector3, za: real, zb: real, zp: real)
    ensures SideOfLine(b, a, p) == -SideOfLine(a, b, p)
    ensures SideOfLine(a.(z := za), b.(z := zb), p.(z := zp)) == SideOfLine(a, b, p)
  {
    var u, v := a.x - b.x, a.y - b.y;
    var py, px := p.y - a.y, p.x - a.x;
    calc {
      SideOfLine(b, a, p);
      u * (py + v) - v * (px + u);
      { Expand(u, py, v); Expand(v, px, u); }
      (u * py + u * v) - (v * px + v * u);
      u * py - v * px;
      { NegateFactor(u, py); NegateFactor(v, px); }
      -((-u) * py - (-v) * px);
      -SideOfLine(a, b, p);
    }
  }

  /** A product is negative exactly when its factors have strictly opposite signs. */
  lemma ProductNegative(u: real, v: real)
    ensures u * v < 0.0 <==> (u < 0.0 && v > 0.0) || (u > 0.0 && v < 0.0)
  {
    if u < 0.0 && v > 0.0 {
      assert (-u) * v > 0.0;
    } else if u > 0.0 && v < 0.0 {
      assert u * (-v) > 0.0;
    } else if u < 0.0 && v < 0.0 {
      assert (-u) * (-v) > 0.0;
    } else if u > 0.0 && v > 0.0 {
      assert u * v > 0.0;
    }
  }

  /** detect_line_crossing: the previous point lies on the line, or the two points are strictly on opposite sides. */
  predicate DetectLineCrossing(a: Vector3, b: Vector3, previous: Vector3, current: Vector3)
  {
    SideOfLine(a, b, previous) == 0.0 || SideOfLine(a, b, previous) * SideOfLine(a, b, current) < 0.0
  }

  /**
   * The crossing rule in terms of signs: it fires iff the previous point is on the line or the
   * points are strictly on opposite sides; in particular two points strictly on the same side never
   * fire, and landing exactly on the line from off it does not fire either.
   */
  lemma DetectLineCrossingSigns(a: Vector3, b: Vector3, previous: Vector3, current: Vector3)
    ensures var sp, sc := SideOfLine(a, b, previous), SideOfLine(a, b, current);
      DetectLineCrossing(a, b, previous, current) <==> sp == 0.0 || (sp < 0.0 && sc > 0.0) || (sp > 0.0 && sc < 0.0)
    ensures var sp, sc := SideOfLine(a, b, previous), SideOfLine(a, b, current);
      ((sp > 0.0 && sc > 0.0) || (sp < 0.0 && sc < 0.0) || (sp != 0.0 && sc == 0.0)) ==> !DetectLineCrossing(a, b, previous, current)
  {
    ProductNegative(SideOfLine(a, b, previous), SideOfLine(a, b, current));
  }

  /** signed_distance_to_line: the side value over |B - A|, or 0 when A and B coincide in XY. */
  function SignedDistanceToLine(sqrt: real -> real, a: Vector3, b: Vector3, p: Vector3): real
  {
    var denom := Hypot(sqrt, b.x - a.x, b.y - a.y);
    if denom == 0.0 then 0.0 else SideOfLine(a, b, p) / denom
  }

  /** The signed distance is 0 for coincident anchors and otherwise has the sign of side_of_line, scaled by 1/|AB|. */
  lemma SignedDistanceSign(sqrt: real -> real, a: Vector3, b: Vector3, p: Vector3)
    requires IsSqrt(sqrt)
    ensures var r := SignedDistanceToLine(sqrt, a, b, p);
      (a.x == b.x && a.y == b.y ==> r == 0.0)
      && (!(a.x == b.x && a.y == b.y) ==>
            r * Hypot(sqrt, b.x - a.x, b.y - a.y) == SideOfLine(a, b, p)
            && (r > 0.0 <==> SideOfLine(a, b, p) > 0.0)
            && (r < 0.0 <==> SideOfLine(a, b, p) < 0.0))
  {
    HypotZero(sqrt, b.x - a.x, b.y - a.y);
    var denom := Hypot(sqrt, b.x - a.x, b.y - a.y);
    if denom != 0.0 {
      var side := SideOfLine(a, b, p);
      var r := side / denom;
      assert r * denom == side;
      if side > 0.0 { assert r > 0.0; }
      if side < 0.0 { assert r < 0.0; }
      if r > 0.0 { assert r * denom > 0.0; }
      if r < 0.0 { assert (-r) * denom > 0.0; }
    }
  }

  // ----- two-circle intersection

  /**
   * The clamping step of _circle_intersection for d > 0: a sum of distances below d scales both
   * distances up by (d + 1e-6) / sum, then a difference above d scales both down by (d - 1e-6) / diff.
   * A zero sum below d divides by zero.
   */
  function ClampDistances(distA: real, distB: real, d: real): Result<(real, real)>
    requires d > 0.0
  {
    if distA + distB < d && distA + distB == 0.0 then Err(ZeroDivisionError)
    else
      var scaled := ScaleUpToBaseline(distA, distB, d);
      Ok(ShrinkToBaseline(scaled.0, scaled.1, d))
  }

  /** The first clamp: a sum short of the baseline d is scaled up to d + 1e-6. */
  function ScaleUpToBaseline(distA: real, distB: real, d: real): (real, real)
  {
    var sum := distA + distB;
    if sum < d && sum != 0.0 then Scaled(distA, distB, (d + ClampMargin) / sum)
    else (distA, distB)
  }

  /** The second clamp: a difference beyond the baseline d is scaled down to d - 1e-6. */
  function ShrinkToBaseline(a1: real, b1: real, d: real): (real, real)
    requires d > 0.0
  {
    var diff := Abs(a1 - b1);
    if diff > d then Scaled(a1, b1, (d - ClampMargin) / diff)
    else (a1, b1)
  }

  /** Both distances multiplied by one factor. */
  function Scaled(a: real, b: real, k: real): (real, real)
  {
    (a * k, b * k)
  }

  /**
   * The only failure of the clamps is the zero sum; feasible distances (sum at least d,
   * difference at most d) pass unchanged; both clamps multiply the two distances by one common
   * factor, so their ratio is preserved; and, for a baseline of at least the 1e-6 margin, the
   * clamped difference never exceeds d.
   */
  lemma ClampDistancesProperties(distA: real, distB: real, d: real)
    requires d > 0.0
    ensures var r := ClampDistances(distA, distB, d);
      && (r.Err? <==> distA + distB == 0.0)
      && (distA + distB >= d && Abs(distA - distB) <= d ==> r == Ok((distA, distB)))
      && (r.Ok? ==> r.value.0 * distB == r.value.1 * distA)
      && (r.Ok? && d >= ClampMargin ==> Abs(r.value.0 - r.value.1) <= d)
  {
    ClampKeepsRatio(distA, distB, d);
    ClampBoundsDifference(distA, distB, d);
  }

  lemma ClampKeepsRatio(distA: real, distB: real, d: real)
    requires d > 0.0
    ensures var r := ClampDistances(distA, distB, d);
      r.Ok? ==> r.value.0 * distB == r.value.1 * distA
  {
    if !(distA + distB < d && distA + distB == 0.0) {
      var scaled := ScaleUpToBaseline(distA, distB, d);
      ScaleUpKeepsRatio(distA, distB, d);
      ShrinkKeepsRatio(scaled.0, scaled.1, d, distA, distB);
      assert ClampDistances(distA, distB, d) == Ok(ShrinkToBaseline(scaled.0, scaled.1, d));
    }
  }

  lemma ScaleUpKeepsRatio(distA: real, distB: real, d: real)
    ensures var s := ScaleUpToBaseline(distA, distB, d); s.0 * distB == s.1 * distA
  {
    var sum := distA + distB;
    if sum < d && sum != 0.0 {
      ScaledKeepsRatio(distA, distB, (d + ClampMargin) / sum, distA, distB);
    }
  }

  lemma ShrinkKeepsRatio(a1: real, b1: real, d: real, a: real, b: real)
    requires d > 0.0 && a1 * b == b1 * a
    ensures var s := ShrinkToBaseline(a1, b1, d); s.0 * b == s.1 * a
  {
    var diff := Abs(a1 - b1);
    if diff > d {
      ScaledKeepsRatio(a1, b1, (d - ClampMargin) / diff, a, b);
    }
  }

  lemma ClampBoundsDifference(distA: real, distB: real, d: real)
    requires d > 0.0
    ensures var r := ClampDistances(distA, distB, d);
      r.Ok? && d >= ClampMargin ==> Abs(r.value.0 - r.value.1) <= d
  {
    if !(distA + distB < d && distA + distB == 0.0) && d >= ClampMargin {
      var scaled := ScaleUpToBaseline(distA, distB, d);
      ShrinkBoundsDifference(scaled.0, scaled.1, d);
      assert ClampDistances(distA, distB, d) == Ok(ShrinkToBaseline(scaled.0, scaled.1, d));
    }
  }

  lemma ShrinkBoundsDifference(a1: real, b1: real, d: real)
    requires d >= ClampMargin && d > 0.0
    ensures var s := ShrinkToBaseline(a1, b1, d); Abs(s.0 - s.1) <= d
  {
    if Abs(a1 - b1) > d {
      ShrunkDifference(a1, b1, d);
    }
  }

  /** Scaling both distances by one factor keeps their ratio. */
  lemma ScaledKeepsRatio(a1: real, b1: real, k: real, a: real, b: real)
    requires a1 * b == b1 * a
    ensures Scaled(a1, b1, k).0 * b == Scaled(a1, b1, k).1 * a
  {
    assert (a1 * k) * b == k * (a1 * b);
    assert (b1 * k) * a == k * (b1 * a);
  }

  lemma ShrunkDifference(a1: real, b1: real, d: real)
    requires d >= ClampMargin && Abs(a1 - b1) > d
    ensures var shrink := (d - ClampMargin) / Abs(a1 - b1);
      Abs(a1 * shrink - b1 * shrink) == d - ClampMargin
  {
    var diff := Abs(a1 - b1);
    var shrink := (d - ClampMargin) / diff;
    assert shrink >= 0.0;
    assert a1 * shrink - b1 * shrink == (a1 - b1) * shrink;
    AbsScale(a1 - b1, shrink);
    assert diff * shrink == d - ClampMargin;
  }

  lemma AbsScale(u: real, k: real)
    requires k >= 0.0
    ensures Abs(u * k) == Abs(u) * k
  {
    if u < 0.0 {
      assert u * k == -((-u) * k);
      assert (-u) * k >= 0.0;
    } else {
      assert u * k >= 0.0;
    }
  }

  /**
   * _circle_intersection: place A at the origin and B on the x axis, clamp the distances, take the
   * intersection on the chosen side and rotate back. Coincident anchors raise ValueError (the
   * Euclidean norm d is never negative).
   */
  function CircleIntersection(
    sqrt: real -> real, anchorA: Anchor, anchorB: Anchor,
    distA: real, distB: real, preferPositiveSide: bool): (r: Result<(real, real)>)
  {
    var xA, yA := anchorA.position.x, anchorA.position.y;
    var dx, dy := anchorB.position.x - xA, anchorB.position.y - yA;
    var d := Hypot(sqrt, dx, dy);
    if d <= 0.0 then Err(ValueError)
    else
      match ClampDistances(distA, distB, d)
      case Err(e) => Err(e)
      case Ok(clamped) => Ok(PlaceIntersection(sqrt, xA, yA, dx, dy, d, clamped.0, clamped.1, preferPositiveSide))
  }

  /** The intersection in A's local frame (x along A -> B, y to its left), rotated back to the world frame. */
  function PlaceIntersection(
    sqrt: real -> real, xA: real, yA: real, dx: real, dy: real, d: real,
    ra: real, rb: real, preferPositiveSide: bool): (real, real)
    requires d > 0.0
  {
    var x := LocalX(ra, rb, d);
    ToWorld(xA, yA, dx / d, dy / d, x, LocalY(sqrt, ra, x, preferPositiveSide))
  }

  /** The local x of the intersection: (ra^2 - rb^2 + d^2) / 2d. */
  function LocalX(ra: real, rb: real, d: real): real
    requires d > 0.0
  {
    (ra * ra - rb * rb + d * d) / (2.0 * d)
  }

  /** The local y: sqrt(max(ra^2 - x^2, 0)) on the preferred side, its negation otherwise. */
  function LocalY(sqrt: real -> real, ra: real, x: real, preferPositiveSide: bool): real
  {
    var y0 := sqrt(Max(ra * ra - x * x, 0.0));
    if preferPositiveSide then y0 else -y0
  }

  /** The local point (x, y) rotated by the unit vector (ux, uy) and moved to A. */
  function ToWorld(xA: real, yA: real, ux: real, uy: real, x: real, y: real): (real, real)
  {
    (xA + x * ux - y * uy, yA + x * uy + y * ux)
  }

  lemma LocalYSign(sqrt: real -> real, ra: real, x: real, preferPositiveSide: bool)
    requires IsSqrt(sqrt)
    ensures preferPositiveSide ==> LocalY(sqrt, ra, x, preferPositiveSide) >= 0.0
    ensures !preferPositiveSide ==> LocalY(sqrt, ra, x, preferPositiveSide) <= 0.0
  {
    assert sqrt(Max(ra * ra - x * x, 0.0)) >= 0.0;
  }

  /** Rotating the local point (x, y) back gives a side value of y * d * (ux^2 + uy^2), whose sign is that of y. */
  lemma LocalFrameSide(xA: real, yA: real, dx: real, dy: real, d: real, x: real, y: real)
    requires d > 0.0
    ensures var ux, uy := dx / d, dy / d;
      var w := ToWorld(xA, yA, ux, uy, x, y);
      SideOfLine(Vector3(xA, yA, 0.0), Vector3(xA + dx, yA + dy, 0.0), Vector3(w.0, w.1, 0.0))
      == y * d * (ux * ux + uy * uy)
  {
    var ux, uy := dx / d, dy / d;
    assert dx == ux * d && dy == uy * d;
    RotatedSide(d, ux, uy, x, y);
  }

  lemma RotatedSide(d: real, ux: real, uy: real, x: real, y: real)
    ensures (ux * d) * (x * uy + y * ux) - (uy * d) * (x * ux - y * uy) == y * d * (ux * ux + uy * uy)
  {
  }

  lemma NonNegProduct(y: real, d: real, s: real)
    requires y >= 0.0 && d >= 0.0 && s >= 0.0
    ensures y * d * s >= 0.0
  {
    assert y * d >= 0.0;
  }

  /** The point lies left of A -> B (side >= 0) when the positive side is preferred and right of it otherwise. */
  lemma PlaceIntersectionSide(
    sqrt: real -> real, xA: real, yA: real, dx: real, dy: real, d: real, ra: real, rb: real, preferPositiveSide: bool)
    requires IsSqrt(sqrt) && d > 0.0
    ensures var p := PlaceIntersection(sqrt, xA, yA, dx, dy, d, ra, rb, preferPositiveSide);
      var side := SideOfLine(Vector3(xA, yA, 0.0), Vector3(xA + dx, yA + dy, 0.0), Vector3(p.0, p.1, 0.0));
      (preferPositiveSide ==> side >= 0.0) && (!preferPositiveSide ==> side <= 0.0)
  {
    var x := LocalX(ra, rb, d);
    var y := LocalY(sqrt, ra, x, preferPositiveSide);
    LocalYSign(sqrt, ra, x, preferPositiveSide);
    LocalFrameSide(xA, yA, dx, dy, d, x, y);
    var ux, uy := dx / d, dy / d;
    SquarePositive(ux);
    SquarePositive(uy);
    SideSign(y, d, ux * ux + uy * uy, preferPositiveSide);
  }

  /** y d q with d, q >= 0 is non-negative for y >= 0 and non-positive for y <= 0. */
  lemma SideSign(y: real, d: real, q: real, positive: bool)
    requires d >= 0.0 && q >= 0.0 && (positive ==> y >= 0.0) && (!positive ==> y <= 0.0)
    ensures positive ==> y * d * q >= 0.0
    ensures !positive ==> y * d * q <= 0.0
  {
    if positive {
      NonNegProduct(y, d, q);
    } else {
      NonNegProduct(-y, d, q);
      assert (-y) * d * q == -(y * d * q);
    }
  }

  /**
   * Coincident anchors raise ValueError; otherwise the only failure is a zero distance sum.
   * The intersection lies on the left of A -> B (side_of_line >= 0) when the positive side is
   * preferred and on the right (<= 0) otherwise.
   */
  lemma CircleIntersectionSide(
    sqrt: real -> real, anchorA: Anchor, anchorB: Anchor, distA: real, distB: real, preferPositiveSide: bool)
    requires IsSqrt(sqrt)
    ensures var r := CircleIntersection(sqrt, anchorA, anchorB, distA, distB, preferPositiveSide);
      var a, b := anchorA.position, anchorB.position;
      && (r == Err(ValueError) <==> a.x == b.x && a.y == b.y)
      && (r == Err(ZeroDivisionError) <==> !(a.x == b.x && a.y == b.y) && distA + distB == 0.0)
      && (r.Ok? && preferPositiveSide ==> SideOfLine(a, b, Vector3(r.value.0, r.value.1, 0.0)) >= 0.0)
      && (r.Ok? && !preferPositiveSide ==> SideOfLine(a, b, Vector3(r.value.0, r.value.1, 0.0)) <= 0.0)
  {
    var a, b := anchorA.position, anchorB.position;
    var dx, dy := b.x - a.x, b.y - a.y;
    HypotZero(sqrt, dx, dy);
    var d := Hypot(sqrt, dx, dy);
    if d != 0.0 {
      ClampDistancesProperties(distA, distB, d);
      var r := CircleIntersection(sqrt, anchorA, anchorB, distA, distB, preferPositiveSide);
      if r.Ok? {
        var clamped := ClampDistances(distA, distB, d).value;
        PlaceIntersectionSide(sqrt, a.x, a.y, dx, dy, d, clamped.0, clamped.1, preferPositiveSide);
        var p := Vector3(r.value.0, r.value.1, 0.0);
        SideOfLineSwap(Vector3(a.x, a.y, 0.0), Vector3(a.x + dx, a.y + dy, 0.0), p, a.z, b.z, 0.0);
      }
    }
  }

  // ----- estimate_tag_position

  /** Python's `a <= b` on strings: lexicographic by code point. */
  predicate StrLe(a: string, b: string)
  {
    if a == [] then true
    else if b == [] then false
    else a[0] < b[0] || (a[0] == b[0] && StrLe(a[1..], b[1..]))
  }

  lemma {:induction false} StrLeTotal(a: string, b: string)
    ensures StrLe(a, b) || StrLe(b, a)
  {
    if a != [] && b != [] && a[0] == b[0] {
      StrLeTotal(a[1..], b[1..]);
    }
  }

  lemma {:induction false} StrLeTransitive(a: string, b: string, c: string)
    requires StrLe(a, b) && StrLe(b, c)
    ensures StrLe(a, c)
  {
    if a != [] && b != [] && c != [] && a[0] == b[0] && b[0] == c[0] {
      StrLeTransitive(a[1..], b[1..], c[1..]);
    }
  }

  predicate SortedById(s: seq<RangeMeasurement>)
  {
    forall i, j :: 0 <= i < j < |s| ==> StrLe(s[i].anchorId, s[j].anchorId)
  }

  /** Insert before the first element whose id is not smaller: equal ids keep their original order. */
  function InsertById(m: RangeMeasurement, s: seq<RangeMeasurement>): (r: seq<RangeMeasurement>)
    ensures multiset(r) == multiset(s) + multiset{m}
  {
    if s == [] then [m]
    else if StrLe(m.anchorId, s[0].anchorId) then [m] + s
    else
      assert multiset(s) == multiset{s[0]} + multiset(s[1..]) by { assert s == [s[0]] + s[1..]; }
      [s[0]] + InsertById(m, s[1..])
  }

  /** Inserting into a list sorted by id keeps it sorted. */
  lemma {:induction false} InsertByIdSorted(m: RangeMeasurement, s: seq<RangeMeasurement>)
    requires SortedById(s)
    ensures SortedById(InsertById(m, s))
  {
    if s == [] {
    } else if StrLe(m.anchorId, s[0].anchorId) {
      forall j | 0 <= j < |s| ensures StrLe(m.anchorId, s[j].anchorId) {
        if j > 0 { StrLeTransitive(m.anchorId, s[0].anchorId, s[j].anchorId); }
      }
      ConsSorted(m, s);
    } else {
      var rest := InsertById(m, s[1..]);
      assert SortedById(s[1..]);
      InsertByIdSorted(m, s[1..]);
      StrLeTotal(m.anchorId, s[0].anchorId);
      HeadBelowInserted(m, s);
      ConsSorted(s[0], rest);
    }
  }

  /** A list sorted by id stays sorted under a new head whose id is no greater than any of its ids. */
  lemma ConsSorted(x: RangeMeasurement, rest: seq<RangeMeasurement>)
    requires SortedById(rest)
    requires forall j | 0 <= j < |rest| :: StrLe(x.anchorId, rest[j].anchorId)
    ensures SortedById([x] + rest)
  {
    var r := [x] + rest;
    forall i, j | 0 <= i < j < |r| ensures StrLe(r[i].anchorId, r[j].anchorId) {
      assert r[j] == rest[j - 1];
      if i > 0 { assert r[i] == rest[i - 1]; }
    }
  }

  /** The head of a sorted list stays below everything once an element of larger id is inserted behind it. */
  lemma HeadBelowInserted(m: RangeMeasurement, s: seq<RangeMeasurement>)
    requires SortedById(s) && s != [] && StrLe(s[0].anchorId, m.anchorId)
    ensures forall j | 0 <= j < |InsertById(m, s[1..])| :: StrLe(s[0].anchorId, InsertById(m, s[1..])[j].anchorId)
  {
    var rest := InsertById(m, s[1..]);
    forall j | 0 <= j < |rest| ensures StrLe(s[0].anchorId, rest[j].anchorId) {
      assert rest[j] in multiset(rest);
      assert rest[j] == m || rest[j] in multiset(s[1..]);
      if rest[j] != m {
        var k :| 0 <= k < |s[1..]| && s[1..][k] == rest[j];
        assert s[k + 1] == rest[j];
      }
    }
  }

  /** sorted(measurements, key=lambda m: m.anchor_id): a stable sort by anchor id. */
  function SortById(ms: seq<RangeMeasurement>): (r: seq<RangeMeasurement>)
    ensures multiset(r) == multiset(ms) && |r| == |ms|
    ensures SortedById(r)
    ensures forall id :: WithId(r, id) == WithId(ms, id)
  {
    if ms == [] then []
    else
      assert ms == [ms[0]] + ms[1..];
      var rest := SortById(ms[1..]);
      InsertByIdSorted(ms[0], rest);
      forall id ensures WithId(InsertById(ms[0], rest), id) == WithId(ms, id) {
        InsertByIdWithId(ms[0], rest, id);
      }
      InsertById(ms[0], rest)
  }

  /** The measurements of one anchor id, in their order in s. */
  function WithId(s: seq<RangeMeasurement>, id: string): seq<RangeMeasurement>
  {
    if s == [] then []
    else (if s[0].anchorId == id then [s[0]] else []) + WithId(s[1..], id)
  }

  lemma {:induction false} StrLeReflexive(a: string)
    ensures StrLe(a, a)
  {
    if a != [] { StrLeReflexive(a[1..]); }
  }

  /** Insertion passes only elements of a different id, so the measurements of each id keep their order. */
  lemma {:induction false} InsertByIdWithId(m: RangeMeasurement, s: seq<RangeMeasurement>, id: string)
    ensures WithId(InsertById(m, s), id) == (if m.anchorId == id then [m] else []) + WithId(s, id)
  {
    if s == [] {
      assert InsertById(m, s) == [m] + s;
      WithIdCons(m, s, id);
    } else if StrLe(m.anchorId, s[0].anchorId) {
      assert InsertById(m, s) == [m] + s;
      WithIdCons(m, s, id);
    } else {
      InsertByIdWithId(m, s[1..], id);
      InsertPastWithId(m, s, id);
    }
  }

  /** One step of insertion past a head whose id differs from m's. */
  lemma InsertPastWithId(m: RangeMeasurement, s: seq<RangeMeasurement>, id: string)
    requires s != [] && !StrLe(m.anchorId, s[0].anchorId)
    requires WithId(InsertById(m, s[1..]), id) == (if m.anchorId == id then [m] else []) + WithId(s[1..], id)
    ensures WithId(InsertById(m, s), id) == (if m.anchorId == id then [m] else []) + WithId(s, id)
  {
    var rest := InsertById(m, s[1..]);
    assert InsertById(m, s) == [s[0]] + rest;
    StrLeReflexive(m.anchorId);
    WithIdCons(s[0], rest, id);
    var h := if s[0].anchorId == id then [s[0]] else [];
    var mm := if m.anchorId == id then [m] else [];
    assert m.anchorId == id ==> h == [];
    assert WithId(s, id) == h + WithId(s[1..], id);
    assert WithId(InsertById(m, s), id) == h + (mm + WithId(s[1..], id));
    if m.anchorId == id {
      assert h + (mm + WithId(s[1..], id)) == mm + WithId(s[1..], id);
      assert h + WithId(s[1..], id) == WithId(s[1..], id);
    } else {
      assert mm + WithId(s[1..], id) == WithId(s[1..], id);
      assert mm + WithId(s, id) == WithId(s, id);
    }
  }

  lemma WithIdCons(x: RangeMeasurement, t: seq<RangeMeasurement>, id: string)
    ensures WithId([x] + t, id) == (if x.anchorId == id then [x] else []) + WithId(t, id)
  {
    assert ([x] + t)[0] == x && ([x] + t)[1..] == t;
  }

  /** anchor_lookup = {anchor.id: anchor for anchor in anchors}: the last anchor with an id wins. */
  function LookupAnchor(anchors: seq<Anchor>, id: string): (r: Option<Anchor>)
    ensures r.Some? ==> r.value in anchors && r.value.id == id
    ensures r.None? <==> forall a :: a in anchors ==> a.id != id
    ensures r.Some? ==> exists k :: 0 <= k < |anchors| && anchors[k] == r.value && LastWithId(anchors, id, k)
  {
    if anchors == [] then None
    else if anchors[|anchors| - 1].id == id then Some(anchors[|anchors| - 1])
    else
      var r := LookupAnchor(anchors[..|anchors| - 1], id);
      assert forall a :: a in anchors ==> a in anchors[..|anchors| - 1] || a == anchors[|anchors| - 1] by {
        assert anchors == anchors[..|anchors| - 1] + [anchors[|anchors| - 1]];
      }
      if r.Some? then
        var k :| 0 <= k < |anchors| - 1 && anchors[..|anchors| - 1][k] == r.value && LastWithId(anchors[..|anchors| - 1], id, k);
        assert anchors[k] == r.value && LastWithId(anchors, id, k);
        r
      else r
  }

  /** No anchor after position k carries the id. */
  predicate LastWithId(anchors: seq<Anchor>, id: string, k: nat)
  {
    forall j :: k < j < |anchors| ==> anchors[j].id != id
  }

  /**
   * estimate_tag_position: ValueError with fewer than two anchors or measurements; otherwise the
   * two measurements whose anchor ids sort first, their anchors looked up by id (KeyError when
   * missing), and the circle intersection on the requested side, LINE_OPTIONS deciding when none is given.
   */
  function EstimateTagPosition(
    sqrt: real -> real, anchors: seq<Anchor>, measurements: seq<RangeMeasurement>,
    preferPositiveSide: Option<bool>): (r: Result<(real, real)>)
  {
    if |anchors| < 2 || |measurements| < 2 then Err(ValueError)
    else
      var sorted := SortById(measurements)[..2];
      match (LookupAnchor(anchors, sorted[0].anchorId), LookupAnchor(anchors, sorted[1].anchorId))
      case (Some(anchorA), Some(anchorB)) =>
        var prefer := if preferPositiveSide.Some? then preferPositiveSide.value else LinePreferPositiveSide;
        CircleIntersection(sqrt, anchorA, anchorB, sorted[0].distanceM, sorted[1].distanceM, prefer)
      case _ => Err(KeyError)
  }

  /**
   * The first element of the sorted list has an id no greater than any other measurement's,
   * and the second one an id no greater than any measurement but the first.
   */
  lemma SortByIdFirstTwo(ms: seq<RangeMeasurement>)
    requires |ms| >= 2
    ensures var s := SortById(ms);
      && multiset{s[0], s[1]} <= multiset(ms)
      && (forall x | x in multiset(ms) - multiset{s[0]} :: StrLe(s[0].anchorId, x.anchorId))
      && (forall x | x in multiset(ms) - multiset{s[0], s[1]} :: StrLe(s[1].anchorId, x.anchorId))
  {
    var s := SortById(ms);
    MultisetTail(s);
    MultisetFirstTwo(s);
    assert s[1..][1..] == s[2..];
    SortedHeadLeast(s);
    SortedHeadLeast(s[1..]);
  }

  lemma MultisetTail<T>(s: seq<T>)
    requires |s| >= 1
    ensures multiset(s) - multiset{s[0]} == multiset(s[1..])
  {
    assert s == [s[0]] + s[1..];
  }

  lemma MultisetFirstTwo<T>(s: seq<T>)
    requires |s| >= 2
    ensures multiset(s) - multiset{s[0], s[1]} == multiset(s[2..])
    ensures multiset{s[0], s[1]} <= multiset(s)
  {
    assert s == [s[0], s[1]] + s[2..];
  }

  /** The head of a list sorted by id has an id no greater than that of any later element. */
  lemma SortedHeadLeast(s: seq<RangeMeasurement>)
    requires SortedById(s) && |s| >= 1
    ensures forall x | x in multiset(s[1..]) :: StrLe(s[0].anchorId, x.anchorId)
  {
    forall x | x in multiset(s[1..])
      ensures StrLe(s[0].anchorId, x.anchorId)
    {
      var q :| 0 <= q < |s[1..]| && s[1..][q] == x;
      assert s[q + 1] == x;
    }
  }

  /**
   * A successful estimate needs two anchors and two measurements, and intersects the circles of
   * the first two measurements in id order (SortByIdFirstTwo), each centred on an anchor carrying
   * that measurement's id; without an explicit side the positive side of LINE_OPTIONS is used.
   */
  lemma EstimateUsesFirstTwo(
    sqrt: real -> real, anchors: seq<Anchor>, measurements: seq<RangeMeasurement>, preferPositiveSide: Option<bool>)
    requires EstimateTagPosition(sqrt, anchors, measurements, preferPositiveSide).Ok?
    ensures |anchors| >= 2 && |measurements| >= 2
    ensures var s := SortById(measurements);
      var anchorA, anchorB := LookupAnchor(anchors, s[0].anchorId), LookupAnchor(anchors, s[1].anchorId);
      && anchorA.Some? && anchorA.value in anchors && anchorA.value.id == s[0].anchorId
      && anchorB.Some? && anchorB.value in anchors && anchorB.value.id == s[1].anchorId
      && EstimateTagPosition(sqrt, anchors, measurements, preferPositiveSide)
         == CircleIntersection(sqrt, anchorA.value, anchorB.value, s[0].distanceM, s[1].distanceM,
                               if preferPositiveSide.None? then true else preferPositiveSide.value)
  {
  }
}
