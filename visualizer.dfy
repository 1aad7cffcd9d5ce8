/**
 * The state behind the Tk visualiser: the world bounds that start around the anchors and the
 * expected course and only ever grow, the world-to-canvas mapping, the capped path of tag
 * positions, the last crossing time, and the frame handler that updates them. Drawing, the
 * widgets, the frame receiver thread and the simulator subprocess are left out; the widget
 * sizes are parameters.
 */
module Visualizer {
  import opened Wrappers
  import opened Numerics
  import opened Models
  import opened Json
  import DsTwr
  import Fifo

  /** deque(maxlen=2000) for path_points. */
  const PathCapacity: nat := 2000
  /** The margin around the initial extents. */
  const BoundsMargin: real := 5.0
  /** The margin _expand_bounds keeps around every tag position. */
  const ExpandMargin: real := 2.0
  /** The canvas padding of _world_to_canvas. */
  const Padding: real := 40.0
  /** The sizes used while the canvas reports a width or height of 0. */
  const FallbackWidth: int := 800
  const FallbackHeight: int := 500

  datatype Bounds = Bounds(minX: real, maxX: real, minY: real, maxY: real)

  /** The course extents taken from the simulation settings. */
  datatype Extents = Extents(approachDistance: real, postCrossingDistance: real, semicircleRadius: real)

  /**
   * The configured extents: approach 15 m and radius 18 m from the settings, and the 8 m fallback
   * for the post-crossing distance, which the settings do not define.
   */
  const ConfigExtents: Extents := Extents(15.0, 8.0, 18.0)

  // ---------------------------------------------------------------------------------------------
  // Initial bounds

  /** Python min over a non-empty list. */
  function MinOf(xs: seq<real>): (m: real)
    requires |xs| > 0
    ensures m in xs
    ensures forall i :: 0 <= i < |xs| ==> m <= xs[i]
  {
    if |xs| == 1 then xs[0] else Min(xs[0], MinOf(xs[1..]))
  }

  /** Python max over a non-empty list. */
  function MaxOf(xs: seq<real>): (m: real)
    requires |xs| > 0
    ensures m in xs
    ensures forall i :: 0 <= i < |xs| ==> xs[i] <= m
  {
    if |xs| == 1 then xs[0] else Max(xs[0], MaxOf(xs[1..]))
  }

  function Xs(anchors: seq<Anchor>): (r: seq<real>)
    ensures |r| == |anchors| && forall i :: 0 <= i < |anchors| ==> r[i] == anchors[i].position.x
  {
    seq(|anchors|, i requires 0 <= i < |anchors| => anchors[i].position.x)
  }

  function Ys(anchors: seq<Anchor>): (r: seq<real>)
    ensures |r| == |anchors| && forall i :: 0 <= i < |anchors| ==> r[i] == anchors[i].position.y
  {
    seq(|anchors|, i requires 0 <= i < |anchors| => anchors[i].position.y)
  }

  /** xs + [min(xs) - radius, max(xs) + radius]. */
  function ExtendedXs(anchors: seq<Anchor>, e: Extents): (r: seq<real>)
    requires |anchors| > 0
    ensures |r| == |anchors| + 2
    ensures forall i :: 0 <= i < |anchors| ==> r[i] == anchors[i].position.x
  {
    var xs := Xs(anchors);
    xs + [MinOf(xs) - e.semicircleRadius, MaxOf(xs) + e.semicircleRadius]
  }

  /** ys + [min(ys) - approach - radius, max(ys) + post_crossing + radius]. */
  function ExtendedYs(anchors: seq<Anchor>, e: Extents): (r: seq<real>)
    requires |anchors| > 0
    ensures |r| == |anchors| + 2
    ensures forall i :: 0 <= i < |anchors| ==> r[i] == anchors[i].position.y
  {
    var ys := Ys(anchors);
    ys + [MinOf(ys) - e.approachDistance - e.semicircleRadius, MaxOf(ys) + e.postCrossingDistance + e.semicircleRadius]
  }

  /** The extended coordinates, widened by 5 m on every side. */
  function InitialBounds(anchors: seq<Anchor>, e: Extents): Bounds
    requires |anchors| > 0
  {
    var xs, ys := ExtendedXs(anchors, e), ExtendedYs(anchors, e);
    Bounds(MinOf(xs) - BoundsMargin, MaxOf(xs) + BoundsMargin, MinOf(ys) - BoundsMargin, MaxOf(ys) + BoundsMargin)
  }

  /** The start of VisualizerApp: anchors[0] and anchors[1] must exist (IndexError otherwise). */
  function Setup(anchors: seq<Anchor>, e: Extents): (r: Result<Bounds>)
    ensures r.Err? <==> |anchors| < 2
    ensures r.Err? ==> r.error == IndexError
  {
    if |anchors| < 2 then Err(IndexError) else Ok(InitialBounds(anchors, e))
  }

  /** Every anchor lies inside the initial bounds with at least the 5 m margin. */
  lemma InitialBoundsContainAnchors(anchors: seq<Anchor>, e: Extents, i: int)
    requires 0 <= i < |anchors|
    ensures var b := InitialBounds(anchors, e);
      && b.minX + BoundsMargin <= anchors[i].position.x <= b.maxX - BoundsMargin
      && b.minY + BoundsMargin <= anchors[i].position.y <= b.maxY - BoundsMargin
  {
    var xs, ys := ExtendedXs(anchors, e), ExtendedYs(anchors, e);
    assert xs[i] == anchors[i].position.x && ys[i] == anchors[i].position.y;
  }

  /**
   * With non-negative extents the bounds are exactly the anchor extremes pushed out by the
   * semicircle radius sideways, by the approach distance below and the post-crossing distance
   * above, plus the margin.
   */
  lemma InitialBoundsExtents(anchors: seq<Anchor>, e: Extents)
    requires |anchors| > 0
    requires 0.0 <= e.approachDistance && 0.0 <= e.postCrossingDistance && 0.0 <= e.semicircleRadius
    ensures var b, xs, ys := InitialBounds(anchors, e), Xs(anchors), Ys(anchors);
      && b.minX == MinOf(xs) - e.semicircleRadius - BoundsMargin
      && b.maxX == MaxOf(xs) + e.semicircleRadius + BoundsMargin
      && b.minY == MinOf(ys) - e.approachDistance - e.semicircleRadius - BoundsMargin
      && b.maxY == MaxOf(ys) + e.postCrossingDistance + e.semicircleRadius + BoundsMargin
  {
    var xs, ys := Xs(anchors), Ys(anchors);
    var xs2, ys2 := ExtendedXs(anchors, e), ExtendedYs(anchors, e);
    var xLow, xHigh := MinOf(xs) - e.semicircleRadius, MaxOf(xs) + e.semicircleRadius;
    var yLow := MinOf(ys) - e.approachDistance - e.semicircleRadius;
    var yHigh := MaxOf(ys) + e.postCrossingDistance + e.semicircleRadius;
    assert xs2 == xs + [xLow, xHigh];
    assert ys2 == ys + [yLow, yHigh];
    ExtendedMin(xs, xLow, xHigh, xs2);
    ExtendedMax(xs, xLow, xHigh, xs2);
    ExtendedMin(ys, yLow, yHigh, ys2);
    ExtendedMax(ys, yLow, yHigh, ys2);
  }

  /** Appending a value below the minimum and one at least as large makes the first the new minimum. */
  lemma ExtendedMin(xs: seq<real>, lo: real, hi: real, ys: seq<real>)
    requires |xs| > 0 && lo <= MinOf(xs) && lo <= hi && ys == xs + [lo, hi]
    ensures MinOf(ys) == lo
  {
    var m := MinOf(ys);
    assert ys[|xs|] == lo;
    var k :| 0 <= k < |ys| && ys[k] == m;
    if k < |xs| {
      assert ys[k] == xs[k];
    }
  }

  /** Appending a value above the maximum and one at most as large makes the second the new maximum. */
  lemma ExtendedMax(xs: seq<real>, lo: real, hi: real, ys: seq<real>)
    requires |xs| > 0 && MaxOf(xs) <= hi && lo <= hi && ys == xs + [lo, hi]
    ensures MaxOf(ys) == hi
  {
    var m := MaxOf(ys);
    assert ys[|xs| + 1] == hi;
    var k :| 0 <= k < |ys| && ys[k] == m;
    if k < |xs| {
      assert ys[k] == xs[k];
    }
  }

  // ---------------------------------------------------------------------------------------------
  // Growing the bounds

  /** The point lies inside the bounds with `margin` to spare on every side. */
  predicate Encloses(b: Bounds, p: (real, real), margin: real)
  {
    b.minX <= p.0 - margin && p.0 + margin <= b.maxX && b.minY <= p.1 - margin && p.1 + margin <= b.maxY
  }

  /** `b2` contains `b`. */
  predicate Grows(b: Bounds, b2: Bounds)
  {
    b2.minX <= b.minX && b.maxX <= b2.maxX && b2.minY <= b.minY && b.maxY <= b2.maxY
  }

  /** _expand_bounds on a bounds value. */
  function Expand(b: Bounds, x: real, y: real): (r: Bounds)
    ensures Encloses(r, (x, y), ExpandMargin)
    ensures Grows(b, r)
  {
    Bounds(Min(b.minX, x - ExpandMargin), Max(b.maxX, x + ExpandMargin),
           Min(b.minY, y - ExpandMargin), Max(b.maxY, y + ExpandMargin))
  }

  /** The smallest bounds that grow `b` and enclose the point with the 2 m margin are Expand's result. */
  lemma ExpandIsLeast(b: Bounds, x: real, y: real, c: Bounds)
    requires Grows(b, c) && Encloses(c, (x, y), ExpandMargin)
    ensures Grows(Expand(b, x, y), c)
  {
  }

  /** Expanding by a point already enclosed with the margin changes nothing. */
  lemma ExpandEnclosed(b: Bounds, x: real, y: real)
    requires Encloses(b, (x, y), ExpandMargin)
    ensures Expand(b, x, y) == b
  {
  }

  /** Growing preserves every enclosure. */
  lemma GrowsKeepsEnclosed(b: Bounds, b2: Bounds, p: (real, real), margin: real)
    requires Grows(b, b2) && Encloses(b, p, margin)
    ensures Encloses(b2, p, margin)
  {
  }

  // ---------------------------------------------------------------------------------------------
  // World to canvas

  /** `winfo_width() or 800`: a reported size of 0 falls back. */
  function SizeOr(reported: int, fallback: int): int
  {
    if reported == 0 then fallback else reported
  }

  function SpanX(b: Bounds): (s: real)
    ensures s >= 1.0 && s >= b.maxX - b.minX
  {
    Max(b.maxX - b.minX, 1.0)
  }

  function SpanY(b: Bounds): (s: real)
    ensures s >= 1.0 && s >= b.maxY - b.minY
  {
    Max(b.maxY - b.minY, 1.0)
  }

  /** The common scale: the smaller of the two axis scales. */
  function Scale(b: Bounds, width: real, height: real): (s: real)
    ensures s * SpanX(b) <= width - 2.0 * Padding
    ensures s * SpanY(b) <= height - 2.0 * Padding
  {
    var sx, sy := (width - 2.0 * Padding) / SpanX(b), (height - 2.0 * Padding) / SpanY(b);
    var s := Min(sx, sy);
    assert s * SpanX(b) <= width - 2.0 * Padding by {
      ScaledBelow(s, sx, SpanX(b));
    }
    assert s * SpanY(b) <= height - 2.0 * Padding by {
      ScaledBelow(s, sy, SpanY(b));
    }
    s
  }

  lemma ScaledBelow(s: real, q: real, span: real)
    requires span > 0.0 && s <= q
    ensures s * span <= q * span
  {
  }

  /** The scale is one of the two axis scales and at most either. */
  lemma ScaleIsSmallerAxis(b: Bounds, width: real, height: real)
    ensures var s, sx, sy := Scale(b, width, height), (width - 2.0 * Padding) / SpanX(b), (height - 2.0 * Padding) / SpanY(b);
      s <= sx && s <= sy && (s == sx || s == sy)
  {
  }

  /** The canvas size used for a reported width or height. */
  function CanvasWidth(reportedWidth: int): real
  {
    SizeOr(reportedWidth, FallbackWidth) as real
  }

  function CanvasHeight(reportedHeight: int): real
  {
    SizeOr(reportedHeight, FallbackHeight) as real
  }

  function CanvasScale(b: Bounds, reportedWidth: int, reportedHeight: int): real
  {
    Scale(b, CanvasWidth(reportedWidth), CanvasHeight(reportedHeight))
  }

  /** The canvas x of world x. */
  function MapX(b: Bounds, s: real, x: real): real
  {
    Padding + (x - b.minX) * s
  }

  /** The canvas y of world y: canvas y grows downwards. */
  function MapY(b: Bounds, s: real, height: real, y: real): real
  {
    height - (Padding + (y - b.minY) * s)
  }

  /** _world_to_canvas for a canvas that reports the given size. */
  function WorldToCanvas(b: Bounds, reportedWidth: int, reportedHeight: int, x: real, y: real): (real, real)
  {
    var s := CanvasScale(b, reportedWidth, reportedHeight);
    (MapX(b, s, x), MapY(b, s, CanvasHeight(reportedHeight), y))
  }

  /** A canvas larger than the padding in both directions has a positive scale. */
  lemma ScalePositive(b: Bounds, width: real, height: real)
    requires width > 2.0 * Padding && height > 2.0 * Padding
    ensures Scale(b, width, height) > 0.0
  {
    Quotient(width - 2.0 * Padding, SpanX(b));
    Quotient(height - 2.0 * Padding, SpanY(b));
  }

  /** A canvas at least as large as the padding has a non-negative scale. */
  lemma ScaleNonNegative(b: Bounds, width: real, height: real)
    requires width >= 2.0 * Padding && height >= 2.0 * Padding
    ensures Scale(b, width, height) >= 0.0
  {
    Quotient(width - 2.0 * Padding, SpanX(b));
    Quotient(height - 2.0 * Padding, SpanY(b));
  }

  lemma Quotient(n: real, d: real)
    requires d > 0.0
    ensures n > 0.0 ==> n / d > 0.0
    ensures n >= 0.0 ==> n / d >= 0.0
  {
  }

  lemma MapOrder(b: Bounds, s: real, height: real, u: real, v: real)
    requires u < v && s > 0.0
    ensures MapX(b, s, u) < MapX(b, s, v)
    ensures MapY(b, s, height, u) > MapY(b, s, height, v)
  {
    StrictScale(u - b.minX, v - b.minX, s);
    StrictScale(u - b.minY, v - b.minY, s);
  }

  lemma StrictScale(u: real, v: real, s: real)
    requires u < v && s > 0.0
    ensures u * s < v * s
  {
  }

  /** On a canvas larger than the padding, the mapping preserves the order of x and reverses the order of y. */
  lemma WorldToCanvasOrientation(b: Bounds, w: int, h: int, x1: real, y1: real, x2: real, y2: real)
    requires CanvasWidth(w) > 2.0 * Padding && CanvasHeight(h) > 2.0 * Padding
    ensures x1 < x2 ==> WorldToCanvas(b, w, h, x1, y1).0 < WorldToCanvas(b, w, h, x2, y2).0
    ensures y1 < y2 ==> WorldToCanvas(b, w, h, x1, y1).1 > WorldToCanvas(b, w, h, x2, y2).1
  {
    var s := CanvasScale(b, w, h);
    ScalePositive(b, CanvasWidth(w), CanvasHeight(h));
    if x1 < x2 {
      MapOrder(b, s, CanvasHeight(h), x1, x2);
    }
    if y1 < y2 {
      MapOrder(b, s, CanvasHeight(h), y1, y2);
    }
  }

  /** The bottom-left corner of the bounds lands at (40, height - 40). */
  lemma WorldToCanvasCorner(b: Bounds, w: int, h: int)
    ensures WorldToCanvas(b, w, h, b.minX, b.minY) == (Padding, CanvasHeight(h) - Padding)
  {
    MapXAtMinimum(b, CanvasScale(b, w, h), b.minX);
    MapYAtMinimum(b, CanvasScale(b, w, h), CanvasHeight(h), b.minY);
  }

  lemma MapXAtMinimum(b: Bounds, s: real, x: real)
    requires x == b.minX
    ensures MapX(b, s, x) == Padding
  {
    calc {
      MapX(b, s, x);
      Padding + (x - b.minX) * s;
      { assert x - b.minX == 0.0; }
      Padding + 0.0 * s;
      Padding;
    }
  }

  lemma MapYAtMinimum(b: Bounds, s: real, height: real, y: real)
    requires y == b.minY
    ensures MapY(b, s, height, y) == height - Padding
  {
    calc {
      MapY(b, s, height, y);
      height - (Padding + (y - b.minY) * s);
      { assert y - b.minY == 0.0; }
      height - (Padding + 0.0 * s);
      height - Padding;
    }
  }

  lemma MapXWithin(b: Bounds, s: real, room: real, x: real)
    requires 0.0 <= s && s * SpanX(b) <= room && b.minX <= x <= b.maxX
    ensures Padding <= MapX(b, s, x) <= Padding + room
  {
    ScaledWithin(x - b.minX, SpanX(b), s, room);
    assert MapX(b, s, x) == Padding + (x - b.minX) * s;
  }

  lemma MapYWithin(b: Bounds, s: real, height: real, room: real, y: real)
    requires 0.0 <= s && s * SpanY(b) <= room && b.minY <= y <= b.maxY
    ensures height - Padding - room <= MapY(b, s, height, y) <= height - Padding
  {
    ScaledWithin(y - b.minY, SpanY(b), s, room);
  }

  /** A point inside the bounds maps inside the padded canvas. */
  lemma WorldToCanvasInside(b: Bounds, w: int, h: int, x: real, y: real)
    requires CanvasWidth(w) >= 2.0 * Padding && CanvasHeight(h) >= 2.0 * Padding
    requires b.minX <= x <= b.maxX && b.minY <= y <= b.maxY
    ensures var (px, py) := WorldToCanvas(b, w, h, x, y);
      && Padding <= px <= CanvasWidth(w) - Padding
      && Padding <= py <= CanvasHeight(h) - Padding
  {
    var s := CanvasScale(b, w, h);
    ScaleNonNegative(b, CanvasWidth(w), CanvasHeight(h));
    MapXWithin(b, s, CanvasWidth(w) - 2.0 * Padding, x);
    MapYWithin(b, s, CanvasHeight(h), CanvasHeight(h) - 2.0 * Padding, y);
  }

  lemma ScaledWithin(u: real, span: real, s: real, room: real)
    requires 0.0 <= u <= span && 0.0 <= s && s * span <= room
    ensures 0.0 <= u * s <= room
  {
    assert u * s <= span * s;
  }

  // ---------------------------------------------------------------------------------------------
  // Handling one frame

  /** What _handle_frame reads from a frame before it changes anything. */
  datatype Reading = Reading(position: (real, real), speed: real, distance: real, timestampNs: JValue)

  /** The record _handle_frame appends to the history store. */
  datatype Record = Record(frameId: JValue, timestampNs: JValue, positionXY: (real, real), distanceToLine: real, lineCrossing: JValue)

  /** The visualiser state a frame updates. */
  datatype View = View(bounds: Bounds, path: seq<(real, real)>, lastCrossingNs: Option<JValue>, records: seq<Record>)

  /** An element Python arithmetic and the `f` format take as a number: an int, a float or a bool. */
  function PyReal(v: JValue): (r: Option<real>)
    ensures r.Some? <==> v.JInt? || v.JFloat? || v.JBool?
  {
    match v
    case JInt(i) => Some(i as real)
    case JFloat(x) => Some(x)
    case JBool(b) => Some(if b then 1.0 else 0.0)
    case _ => None
  }

  /**
   * `math.hypot(velocity[0], velocity[1])`'s arguments: both are indexed first (IndexError when
   * the tuple is shorter), then hypot refuses anything that is not a number with TypeError.
   */
  function HypotArgs(items: seq<JValue>): (r: Result<(real, real)>)
    ensures r.Ok? <==> |items| >= 2 && PyReal(items[0]).Some? && PyReal(items[1]).Some?
    ensures r.Ok? ==> r.value == (PyReal(items[0]).value, PyReal(items[1]).value)
    ensures r.Err? ==> r.error == (if |items| < 2 then IndexError else TypeError)
  {
    if |items| < 2 then Err(IndexError)
    else if PyReal(items[0]).Some? && PyReal(items[1]).Some? then
      Ok((PyReal(items[0]).value, PyReal(items[1]).value))
    else Err(TypeError)
  }

  /** The error of `format(v, "7.2f")` for a non-number: ValueError for a string, TypeError otherwise. */
  function FormatError(v: JValue): PyError
  {
    if v.JStr? then ValueError else TypeError
  }

  /**
   * `f"({position[0]:7.2f}, {position[1]:7.2f})"` evaluated left to right: each element is indexed
   * and then formatted, so a bad first element fails before the second is looked at.
   */
  function FormatArgs(items: seq<JValue>): (r: Result<(real, real)>)
    ensures r.Ok? <==> |items| >= 2 && PyReal(items[0]).Some? && PyReal(items[1]).Some?
    ensures r.Ok? ==> r.value == (PyReal(items[0]).value, PyReal(items[1]).value)
    ensures |items| == 0 ==> r == Err(IndexError)
    ensures |items| >= 1 && PyReal(items[0]).None? ==> r == Err(FormatError(items[0]))
    ensures |items| == 1 && PyReal(items[0]).Some? ==> r == Err(IndexError)
  {
    if |items| == 0 then Err(IndexError)
    else if PyReal(items[0]).None? then Err(FormatError(items[0]))
    else if |items| == 1 then Err(IndexError)
    else if PyReal(items[1]).None? then Err(FormatError(items[1]))
    else Ok((PyReal(items[0]).value, PyReal(items[1]).value))
  }

  const ZeroVelocity: JValue := JArr([JFloat(0.0), JFloat(0.0), JFloat(0.0)])

  /**
   * The reads of _handle_frame in source order: frame["tag"], tuple(tag["true_position"]),
   * tuple(tag.get("velocity", (0, 0, 0))), frame["timestamp_ns"], the speed from the first two
   * velocity components, the first two position coordinates, and the signed distance to A-B,
   * whose unpacking of the position needs exactly three items (ValueError otherwise).
   */
  function Read(sqrt: real -> real, a: Anchor, b: Anchor, frame: JValue): (r: Result<Reading>)
    ensures r.Ok? ==> frame.JObj? && Index(frame, "timestamp_ns") == Ok(r.value.timestampNs)
  {
    match Index(frame, "tag")
    case Err(e) => Err(e)
    case Ok(tag) =>
      match Index(tag, "true_position")
      case Err(e) => Err(e)
      case Ok(positionValue) =>
        match Iterate(positionValue)
        case Err(e) => Err(e)
        case Ok(position) =>
          match Get(tag, "velocity", ZeroVelocity)
          case Err(e) => Err(e)
          case Ok(velocityValue) =>
            match Iterate(velocityValue)
            case Err(e) => Err(e)
            case Ok(velocity) =>
              match Index(frame, "timestamp_ns")
              case Err(e) => Err(e)
              case Ok(timestampNs) =>
                match HypotArgs(velocity)
                case Err(e) => Err(e)
                case Ok(v) =>
                  match FormatArgs(position)
                  case Err(e) => Err(e)
                  case Ok(p) =>
                    if |position| != 3 then Err(ValueError)
                    else Ok(Reading(p, Hypot(sqrt, v.0, v.1),
                               DsTwr.SignedDistanceToLine(sqrt, a.position, b.position, Vector3(p.0, p.1, 0.0)),
                                    timestampNs))
  }

  /** frame.get("line_crossing"), JNull standing for None. */
  function LineCrossingOf(frame: JValue): JValue
  {
    match Get(frame, "line_crossing", JNull)
    case Ok(v) => v
    case Err(_) => JNull
  }

  /** The new last crossing time: None when the frame carries no truthy line_crossing, else its timestamp_ns. */
  function CrossingUpdate(frame: JValue): (r: Result<Option<JValue>>)
    requires frame.JObj?
    ensures r == Ok(None) <==> !Truthy(LineCrossingOf(frame))
    ensures r.Ok? && r.value.Some? ==> Index(LineCrossingOf(frame), "timestamp_ns") == Ok(r.value.value)
  {
    var crossing := LineCrossingOf(frame);
    if !Truthy(crossing) then Ok(None)
    else
      match Index(crossing, "timestamp_ns")
      case Err(e) => Err(e)
      case Ok(ts) => Ok(Some(ts))
  }

  /** Displaying a set last crossing time divides it by 1e9: only a number (or bool) can be divided. */
  predicate DisplayFails(last: Option<JValue>)
  {
    last.Some? && Truthy(last.value) && !(last.value.JInt? || last.value.JFloat? || last.value.JBool?)
  }

  /** The state once a frame's position is taken: the bounds grow around it and it joins the capped path. */
  function Advance(v: View, p: (real, real), last: Option<JValue>): View
  {
    View(Expand(v.bounds, p.0, p.1), Fifo.Offer(v.path, p, PathCapacity), last, v.records)
  }

  /** The history record of the frame: KeyError, with nothing stored, when the frame has no frame_id. */
  function Store(v: View, reading: Reading, frame: JValue): (View, Result<Reading>)
  {
    match Index(frame, "frame_id")
    case Err(e) => (v, Err(e))
    case Ok(id) =>
      var record := Record(id, reading.timestampNs, reading.position, reading.distance, LineCrossingOf(frame));
      (v.(records := v.records + [record]), Ok(reading))
  }

  /** What _handle_frame does once the reads succeeded, from the line_crossing check on. */
  function AfterRead(v: View, reading: Reading, frame: JValue): (View, Result<Reading>)
    requires frame.JObj?
  {
    match CrossingUpdate(frame)
    case Err(e) => (v, Err(e))
    case Ok(update) =>
      var last := if update.Some? then update else v.lastCrossingNs;
      if DisplayFails(last) then (v.(lastCrossingNs := last), Err(TypeError))
      else Store(Advance(v, reading.position, last), reading, frame)
  }

  /**
   * _handle_frame on the state: a failing read changes nothing; a failing crossing lookup changes
   * nothing; a new last crossing time that cannot be displayed is stored and then raises; otherwise
   * the position joins the capped path and the bounds grow around it, and a frame without
   * frame_id raises before its record is stored.
   */
  function Step(sqrt: real -> real, a: Anchor, b: Anchor, v: View, frame: JValue): (View, Result<Reading>)
  {
    match Read(sqrt, a, b, frame)
    case Err(e) => (v, Err(e))
    case Ok(reading) => AfterRead(v, reading, frame)
  }

  /** The invariant of the visualiser: the path is within its cap and every point on it is enclosed with the 2 m margin. */
  predicate ViewValid(v: View)
  {
    && |v.path| <= PathCapacity
    && forall i :: 0 <= i < |v.path| ==> Encloses(v.bounds, v.path[i], ExpandMargin)
  }

  /** Taking a position keeps the invariant, grows the bounds and encloses the new position. */
  lemma AdvanceKeepsValid(v: View, p: (real, real), last: Option<JValue>)
    requires ViewValid(v)
    ensures ViewValid(Advance(v, p, last))
    ensures Grows(v.bounds, Advance(v, p, last).bounds)
    ensures Encloses(Advance(v, p, last).bounds, p, ExpandMargin)
  {
    OfferKeepsEnclosed(v.bounds, Expand(v.bounds, p.0, p.1), v.path, p);
  }

  /**
   * A frame keeps the invariant and never shrinks the bounds; a successful frame appends its
   * position to the path (dropping the oldest beyond 2000) and is stored as one more record;
   * a frame whose reads fail changes nothing.
   */
  lemma StepKeepsValid(sqrt: real -> real, a: Anchor, b: Anchor, v: View, frame: JValue)
    requires ViewValid(v)
    ensures var (v2, r) := Step(sqrt, a, b, v, frame);
      && ViewValid(v2)
      && Grows(v.bounds, v2.bounds)
      && (r.Ok? ==> v2.path == Fifo.Offer(v.path, r.value.position, PathCapacity)
                    && Encloses(v2.bounds, r.value.position, ExpandMargin)
                    && |v2.records| == |v.records| + 1)
      && (Read(sqrt, a, b, frame).Err? ==> v2 == v && r == Err(Read(sqrt, a, b, frame).error))
  {
    var read := Read(sqrt, a, b, frame);
    if read.Ok? {
      AfterReadKeepsValid(v, read.value, frame);
    }
  }

  /** The part of StepKeepsValid after the reads succeeded. */
  lemma AfterReadKeepsValid(v: View, reading: Reading, frame: JValue)
    requires ViewValid(v) && frame.JObj?
    ensures var (v2, r) := AfterRead(v, reading, frame);
      && ViewValid(v2)
      && Grows(v.bounds, v2.bounds)
      && (r.Ok? ==> r.value == reading
                    && v2.path == Fifo.Offer(v.path, reading.position, PathCapacity)
                    && Encloses(v2.bounds, reading.position, ExpandMargin)
                    && |v2.records| == |v.records| + 1)
  {
    match CrossingUpdate(frame)
    case Err(_) =>
    case Ok(update) =>
      var last := if update.Some? then update else v.lastCrossingNs;
      if !DisplayFails(last) {
        AdvanceKeepsValid(v, reading.position, last);
      }
  }

  /**
   * The last crossing time changes only when the frame carries a truthy line_crossing, and then
   * to that crossing's timestamp_ns. Once set, the model's Option stays Some; a null timestamp_ns
   * is stored as Some(JNull), which stands for Python's None being assigned back.
   */
  lemma StepCrossing(sqrt: real -> real, a: Anchor, b: Anchor, v: View, frame: JValue)
    ensures var v2 := Step(sqrt, a, b, v, frame).0;
      && (v2.lastCrossingNs != v.lastCrossingNs ==>
            Truthy(LineCrossingOf(frame)) && Index(LineCrossingOf(frame), "timestamp_ns") == Ok(v2.lastCrossingNs.value))
      && (v.lastCrossingNs.Some? ==> v2.lastCrossingNs.Some?)
  {
    match Read(sqrt, a, b, frame)
    case Err(_) =>
    case Ok(reading) =>
      match CrossingUpdate(frame)
      case Err(_) =>
      case Ok(update) =>
  }

  /** Offering an enclosed point to a path whose points are enclosed in bounds that then grow keeps them all enclosed. */
  lemma OfferKeepsEnclosed(b: Bounds, b2: Bounds, path: seq<(real, real)>, p: (real, real))
    requires Grows(b, b2) && Encloses(b2, p, ExpandMargin)
    requires forall i :: 0 <= i < |path| ==> Encloses(b, path[i], ExpandMargin)
    ensures forall i :: 0 <= i < |Fifo.Offer(path, p, PathCapacity)| ==>
      Encloses(b2, Fifo.Offer(path, p, PathCapacity)[i], ExpandMargin)
  {
    var q := path + [p];
    var r := Fifo.Offer(path, p, PathCapacity);
    assert r == q[|q| - |r|..];
    forall i | 0 <= i < |r| ensures Encloses(b2, r[i], ExpandMargin) {
      var k := |q| - |r| + i;
      assert r[i] == q[k];
      if k < |path| {
        assert q[k] == path[k];
        GrowsKeepsEnclosed(b, b2, path[k], ExpandMargin);
      }
    }
  }

  /** A poll result for the frames after the first `k`, counted from the start. */
  function Shifted(r: (View, nat, Option<PyError>), k: nat): (View, nat, Option<PyError>)
  {
    (r.0, r.1 + k, r.2)
  }

  /** One frame handled against a view: the shape of Step with its anchors fixed. */
  type FrameHandler = (View, JValue) -> (View, Result<Reading>)

  /** Step for the line through anchors `a` and `b`. */
  function StepFor(sqrt: real -> real, a: Anchor, b: Anchor): (h: FrameHandler)
    ensures forall v, f :: h(v, f) == Step(sqrt, a, b, v, f)
  {
    (v: View, f: JValue) => Step(sqrt, a, b, v, f)
  }

  /** The frames _poll_queues drains in one call: handled in order until one raises. */
  function Poll(handle: FrameHandler, v: View, frames: seq<JValue>): (r: (View, nat, Option<PyError>))
    ensures r.1 <= |frames|
    ensures r.2.None? ==> r.1 == |frames|
    decreases |frames|
  {
    if frames == [] then (v, 0, None)
    else
      var step := handle(v, frames[0]);
      if step.1.Err? then (step.0, 0, Some(step.1.error))
      else Shifted(Poll(handle, step.0, frames[1..]), 1)
  }

  /** The poll after `h` frames, one frame further on. */
  lemma PollAdvance(handle: FrameHandler, v0: View, frames: seq<JValue>, h: nat,
                    before: View, after: View, r: Result<Reading>)
    requires h < |frames|
    requires Poll(handle, v0, frames) == Shifted(Poll(handle, before, frames[h..]), h)
    requires (after, r) == handle(before, frames[h])
    ensures r.Ok? ==> Poll(handle, v0, frames) == Shifted(Poll(handle, after, frames[h + 1..]), h + 1)
    ensures r.Err? ==> Poll(handle, v0, frames) == (after, h, Some(r.error))
  {
    var rest := frames[h..];
    assert rest[0] == frames[h];
    assert rest[1..] == frames[h + 1..];
  }

  /** Any poll keeps the invariant and never shrinks the bounds. */
  lemma {:induction false} PollKeepsValid(sqrt: real -> real, a: Anchor, b: Anchor, v: View, frames: seq<JValue>)
    requires ViewValid(v)
    ensures ViewValid(Poll(StepFor(sqrt, a, b), v, frames).0)
    ensures Grows(v.bounds, Poll(StepFor(sqrt, a, b), v, frames).0.bounds)
    decreases |frames|
  {
    if frames != [] {
      StepKeepsValid(sqrt, a, b, v, frames[0]);
      var step := StepFor(sqrt, a, b)(v, frames[0]);
      if step.1.Ok? {
        PollKeepsValid(sqrt, a, b, step.0, frames[1..]);
      }
    }
  }

  // ---------------------------------------------------------------------------------------------
  // The application

  /** VisualizerApp, with the state its frame handling reads and writes. */
  class VisualizerApp {
    const anchorA: Anchor
    const anchorB: Anchor
    var worldBounds: Bounds
    var pathPoints: seq<(real, real)>
    var lastCrossingNs: Option<JValue>
    var records: seq<Record>

    function State(): View
      reads this`worldBounds, this`pathPoints, this`lastCrossingNs, this`records
    {
      View(worldBounds, pathPoints, lastCrossingNs, records)
    }

    ghost predicate Valid()
      reads this`worldBounds, this`pathPoints, this`lastCrossingNs, this`records
    {
      ViewValid(State())
    }

    /** The start: line anchors A and B, the initial bounds, an empty path, no crossing yet. */
    constructor (anchors: seq<Anchor>, e: Extents)
      requires |anchors| >= 2
      ensures Valid()
      ensures anchorA == anchors[0] && anchorB == anchors[1]
      ensures State() == View(InitialBounds(anchors, e), [], None, [])
    {
      anchorA := anchors[0];
      anchorB := anchors[1];
      worldBounds := InitialBounds(anchors, e);
      pathPoints := [];
      lastCrossingNs := None;
      records := [];
    }

    /** _expand_bounds. */
    method ExpandBounds(x: real, y: real)
      modifies this`worldBounds
      ensures worldBounds == Expand(old(worldBounds), x, y)
    {
      worldBounds := Bounds(Min(worldBounds.minX, x - ExpandMargin), Max(worldBounds.maxX, x + ExpandMargin),
                            Min(worldBounds.minY, y - ExpandMargin), Max(worldBounds.maxY, y + ExpandMargin));
    }

    /** path_points.append followed by _expand_bounds. */
    method AppendPosition(p: (real, real))
      requires |pathPoints| <= PathCapacity
      modifies this`pathPoints, this`worldBounds
      ensures pathPoints == Fifo.Offer(old(pathPoints), p, PathCapacity)
      ensures worldBounds == Expand(old(worldBounds), p.0, p.1)
    {
      Fifo.OfferProperties(pathPoints, p, PathCapacity);
      if |pathPoints| < PathCapacity {
        pathPoints := pathPoints + [p];
      } else {
        pathPoints := pathPoints[1..] + [p];
      }
      ExpandBounds(p.0, p.1);
    }

    /** _handle_frame: the state and the outcome follow Step; Err is the exception it raises. */
    method HandleFrame(frame: JValue, sqrt: real -> real) returns (r: Result<Reading>)
      requires Valid()
      modifies this`worldBounds, this`pathPoints, this`lastCrossingNs, this`records
      ensures Valid()
      ensures (State(), r) == Step(sqrt, anchorA, anchorB, old(State()), frame)
    {
      ghost var v := State();
      StepKeepsValid(sqrt, anchorA, anchorB, v, frame);
      var read := Read(sqrt, anchorA, anchorB, frame);
      if read.Err? {
        return Err(read.error);
      }
      var reading := read.value;
      var update := CrossingUpdate(frame);
      if update.Err? {
        return Err(update.error);
      }
      if update.value.Some? {
        lastCrossingNs := update.value;
      }
      if DisplayFails(lastCrossingNs) {
        return Err(TypeError);
      }
      AppendPosition(reading.position);
      assert State() == Advance(v, reading.position, lastCrossingNs);
      var id := Index(frame, "frame_id");
      if id.Err? {
        return Err(id.error);
      }
      records := records + [Record(id.value, reading.timestampNs, reading.position, reading.distance, LineCrossingOf(frame))];
      r := Ok(reading);
    }

    /**
     * The frame part of _poll_queues: frames are handled in order until one raises; the result
     * is how many were handled, the exception if one was raised, and whether the canvas is
     * redrawn (at least one frame and no exception).
     */
    method PollFrames(frames: seq<JValue>, sqrt: real -> real) returns (handled: nat, failure: Option<PyError>, redraw: bool)
      requires Valid()
      modifies this`worldBounds, this`pathPoints, this`lastCrossingNs, this`records
      ensures Valid()
      ensures (State(), handled, failure) == Poll(StepFor(sqrt, anchorA, anchorB), old(State()), frames)
      ensures redraw <==> handled > 0 && failure.None?
    {
      handled := 0;
      failure := None;
      while handled < |frames|
        invariant handled <= |frames|
        invariant Valid()
        invariant Poll(StepFor(sqrt, anchorA, anchorB), old(State()), frames)
                  == Shifted(Poll(StepFor(sqrt, anchorA, anchorB), State(), frames[handled..]), handled)
        decreases |frames| - handled
      {
        ghost var before := State();
        var r := HandleFrame(frames[handled], sqrt);
        PollAdvance(StepFor(sqrt, anchorA, anchorB), old(State()), frames, handled, before, State(), r);
        if r.Err? {
          failure := Some(r.error);
          return handled, failure, false;
        }
        handled := handled + 1;
      }
      assert frames[handled..] == [];
      redraw := handled > 0;
    }
  }
}
