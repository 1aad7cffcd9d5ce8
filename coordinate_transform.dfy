/**
 * Start-line distance and crossing rule of src/uwb_line_tracker/coordinate_transform.py, their
 * relation to the rule of ds_twr.py, and the calibrated-state machine of UWBToGPSTransformer with
 * the WGS84 and rigid-body numerics as parameters.
 */
module CoordinateTransform {
  import opened Wrappers
  import opened Numerics
  import opened Models
  import DsTwr

  /** Below this line length the start and end points count as coincident. */
  const DegenerateLength: real := 0.0000000001

  /** The ds_twr side value of 2D points, lifted to z = 0. */
  function Side(start: (real, real), end: (real, real), p: (real, real)): real
  {
    DsTwr.SideOfLine(Vector3(start.0, start.1, 0.0), Vector3(end.0, end.1, 0.0), Vector3(p.0, p.1, 0.0))
  }

  function LineLength(sqrt: real -> real, start: (real, real), end: (real, real)): real
  {
    Hypot(sqrt, end.0 - start.0, end.1 - start.1)
  }

  /**
   * calculate_distance_to_line: the distance to line_start for a line shorter than 1e-10, and
   * otherwise ((px - x1) dy - (py - y1) dx) / length.
   */
  function DistanceToLine(sqrt: real -> real, point: (real, real), start: (real, real), end: (real, real)): real
  {
    var dx, dy := end.0 - start.0, end.1 - start.1;
    var length := Hypot(sqrt, dx, dy);
    if length < DegenerateLength then Hypot(sqrt, point.0 - start.0, point.1 - start.1)
    else ((point.0 - start.0) * dy - (point.1 - start.1) * dx) / length
  }

  /**
   * A degenerate line gives the non-negative distance to its start. Otherwise the distance times
   * the line length is minus the side value of ds_twr, so its sign is the opposite one:
   * positive on the right of start -> end, despite the docstring.
   */
  lemma DistanceToLineSign(sqrt: real -> real, point: (real, real), start: (real, real), end: (real, real))
    requires IsSqrt(sqrt)
    ensures var r, length := DistanceToLine(sqrt, point, start, end), LineLength(sqrt, start, end);
      && (length < DegenerateLength ==> r >= 0.0 && r == Hypot(sqrt, point.0 - start.0, point.1 - start.1))
      && (length >= DegenerateLength ==>
            && r * length == -Side(start, end, point)
            && (r > 0.0 <==> Side(start, end, point) < 0.0)
            && (r < 0.0 <==> Side(start, end, point) > 0.0)
            && (r == 0.0 <==> Side(start, end, point) == 0.0))
  {
    HypotZero(sqrt, point.0 - start.0, point.1 - start.1);
    var length := LineLength(sqrt, start, end);
    if length >= DegenerateLength {
      var cross := (point.0 - start.0) * (end.1 - start.1) - (point.1 - start.1) * (end.0 - start.0);
      assert cross == -Side(start, end, point);
      var r := cross / length;
      assert r * length == cross;
      if cross > 0.0 { assert r > 0.0; }
      if cross < 0.0 { assert r < 0.0; }
      if r > 0.0 { assert r * length > 0.0; }
      if r < 0.0 { assert (-r) * length > 0.0; }
    }
  }

  /** Reversing a non-degenerate line negates the distance. */
  lemma DistanceToLineReverse(sqrt: real -> real, point: (real, real), start: (real, real), end: (real, real))
    requires LineLength(sqrt, start, end) >= DegenerateLength
    ensures LineLength(sqrt, end, start) == LineLength(sqrt, start, end)
    ensures DistanceToLine(sqrt, point, end, start) == -DistanceToLine(sqrt, point, start, end)
  {
    HypotNegate(sqrt, end.0 - start.0, end.1 - start.1);
    assert start.0 - end.0 == -(end.0 - start.0) && start.1 - end.1 == -(end.1 - start.1);
    var length := LineLength(sqrt, start, end);
    var cross := (point.0 - start.0) * (end.1 - start.1) - (point.1 - start.1) * (end.0 - start.0);
    var crossReversed := (point.0 - end.0) * (start.1 - end.1) - (point.1 - end.1) * (start.0 - end.0);
    assert crossReversed == -cross by {
      DsTwr.SideOfLineSwap(Vector3(start.0, start.1, 0.0), Vector3(end.0, end.1, 0.0), Vector3(point.0, point.1, 0.0), 0.0, 0.0, 0.0);
    }
    assert (-cross) / length == -(cross / length);
  }

  /** The crossing rule on two distance (or side) values: strictly opposite signs, or landing on the line from off it. */
  predicate CheckRule(previous: real, current: real)
  {
    previous * current < 0.0 || (previous != 0.0 && current == 0.0)
  }

  /** The crossing rule of ds_twr on two side values: leaving the line, or strictly opposite signs. */
  predicate DetectRule(previous: real, current: real)
  {
    previous == 0.0 || previous * current < 0.0
  }

  /** check_line_crossing. */
  predicate CheckLineCrossing(sqrt: real -> real, previous: (real, real), current: (real, real), start: (real, real), end: (real, real))
  {
    CheckRule(DistanceToLine(sqrt, previous, start, end), DistanceToLine(sqrt, current, start, end))
  }

  lemma CheckRuleSigns(previous: real, current: real)
    ensures CheckRule(previous, current) <==>
      (previous < 0.0 && current > 0.0) || (previous > 0.0 && current < 0.0) || (previous != 0.0 && current == 0.0)
    ensures DetectRule(previous, current) <==>
      previous == 0.0 || (previous < 0.0 && current > 0.0) || (previous > 0.0 && current < 0.0)
  {
    DsTwr.ProductNegative(previous, current);
  }

  /**
   * check_line_crossing fires iff the points are strictly on opposite sides or the current point
   * lands on the line from off it; it never fires from a previous point on the line, nor for two
   * points strictly on one side. For a non-degenerate line it is the same rule on the side values
   * of ds_twr, hence unchanged when the line's endpoints are swapped.
   */
  lemma CheckLineCrossingProperties(sqrt: real -> real, previous: (real, real), current: (real, real), start: (real, real), end: (real, real))
    requires IsSqrt(sqrt)
    ensures var pd, cd := DistanceToLine(sqrt, previous, start, end), DistanceToLine(sqrt, current, start, end);
      && (CheckLineCrossing(sqrt, previous, current, start, end) <==>
            (pd < 0.0 && cd > 0.0) || (pd > 0.0 && cd < 0.0) || (pd != 0.0 && cd == 0.0))
      && (pd == 0.0 ==> !CheckLineCrossing(sqrt, previous, current, start, end))
      && ((pd > 0.0 && cd > 0.0) || (pd < 0.0 && cd < 0.0) ==> !CheckLineCrossing(sqrt, previous, current, start, end))
    ensures LineLength(sqrt, start, end) >= DegenerateLength ==>
      && (CheckLineCrossing(sqrt, previous, current, start, end) <==> CheckRule(Side(start, end, previous), Side(start, end, current)))
      && (CheckLineCrossing(sqrt, previous, current, end, start) <==> CheckLineCrossing(sqrt, previous, current, start, end))
  {
    var pd, cd := DistanceToLine(sqrt, previous, start, end), DistanceToLine(sqrt, current, start, end);
    CheckRuleSigns(pd, cd);
    if LineLength(sqrt, start, end) >= DegenerateLength {
      DistanceToLineSign(sqrt, previous, start, end);
      DistanceToLineSign(sqrt, current, start, end);
      CheckRuleSigns(Side(start, end, previous), Side(start, end, current));
      DistanceToLineReverse(sqrt, previous, start, end);
      DistanceToLineReverse(sqrt, current, start, end);
      CheckRuleSigns(-pd, -cd);
    }
  }

  /**
   * How the two rules relate on the same pair of points: they agree when neither point is on the
   * line; landing on the line from off it fires only check_line_crossing; leaving from the line
   * fires only detect_line_crossing.
   */
  lemma CrossingRulesRelation(sqrt: real -> real, previous: (real, real), current: (real, real), start: (real, real), end: (real, real))
    requires IsSqrt(sqrt) && LineLength(sqrt, start, end) >= DegenerateLength
    ensures var sp, sc := Side(start, end, previous), Side(start, end, current);
      var detect := DsTwr.DetectLineCrossing(Vector3(start.0, start.1, 0.0), Vector3(end.0, end.1, 0.0),
                                             Vector3(previous.0, previous.1, 0.0), Vector3(current.0, current.1, 0.0));
      var check := CheckLineCrossing(sqrt, previous, current, start, end);
      && (sp != 0.0 && sc != 0.0 ==> (detect <==> check))
      && (sp != 0.0 && sc == 0.0 ==> check && !detect)
      && (sp == 0.0 ==> detect && !check)
  {
    CheckLineCrossingProperties(sqrt, previous, current, start, end);
    CheckRuleSigns(Side(start, end, previous), Side(start, end, current));
  }

  // ----- a strictly monotone pass through the line

  predicate StrictlyIncreasing(s: seq<real>)
  {
    forall i, j :: 0 <= i < j < |s| ==> s[i] < s[j]
  }

  /** The first index whose value is not negative. */
  lemma FirstNonNegative(s: seq<real>) returns (m: nat)
    requires |s| >= 2 && s[0] < 0.0 && s[|s| - 1] > 0.0
    ensures 0 < m < |s| && s[m] >= 0.0 && forall k :: 0 <= k < m ==> s[k] < 0.0
  {
    m := 1;
    while s[m] < 0.0
      invariant 0 < m < |s|
      invariant forall k :: 0 <= k < m ==> s[k] < 0.0
      decreases |s| - m
    {
      m := m + 1;
    }
  }

  /**
   * Along side (or distance) values that increase strictly from negative to positive, each rule
   * fires at exactly one step. With m the first sample not on the negative side, the rule of
   * check_line_crossing fires on reaching m; the rule of detect_line_crossing fires at the same
   * step when sample m is strictly past the line, and one step later when it lies exactly on it.
   */
  lemma MonotonePassFiresOnce(s: seq<real>) returns (m: nat)
    requires |s| >= 2 && s[0] < 0.0 && s[|s| - 1] > 0.0 && StrictlyIncreasing(s)
    ensures 0 < m < |s| && s[m - 1] < 0.0 && s[m] >= 0.0
    ensures forall t :: 0 < t < |s| ==> (CheckRule(s[t - 1], s[t]) <==> t == m)
    ensures forall t :: 0 < t < |s| ==> (DetectRule(s[t - 1], s[t]) <==> t == (if s[m] == 0.0 then m + 1 else m))
    ensures s[m] == 0.0 ==> m + 1 < |s|
  {
    m := FirstNonNegative(s);
    forall t | 0 < t < |s|
      ensures CheckRule(s[t - 1], s[t]) <==> t == m
      ensures DetectRule(s[t - 1], s[t]) <==> t == (if s[m] == 0.0 then m + 1 else m)
    {
      CheckRuleSigns(s[t - 1], s[t]);
      if t < m {
        assert s[t - 1] < 0.0 && s[t] < 0.0;
      } else if t > m {
        assert s[t - 1] >= 0.0 && s[t] > 0.0 by { assert s[m] < s[t]; assert m == t - 1 || s[m] < s[t - 1]; }
      }
    }
  }

  // ----- UWBToGPSTransformer

  datatype GnssPosition = GnssPosition(lat: real, lon: real, alt: real)

  /** The rigid-body map p_E = R p_U + t, R given by its rows. */
  datatype RigidTransform = RigidTransform(row0: Vector3, row1: Vector3, row2: Vector3, translation: Vector3)

  function Dot(a: Vector3, b: Vector3): real
  {
    a.x * b.x + a.y * b.y + a.z * b.z
  }

  function Apply(rt: RigidTransform, p: Vector3): Vector3
  {
    Vector3(Dot(rt.row0, p) + rt.translation.x, Dot(rt.row1, p) + rt.translation.y, Dot(rt.row2, p) + rt.translation.z)
  }

  /**
   * normalize: a vector whose norm is below 1e-10 is returned unchanged, never rejected. Only
   * calibrate's frame construction calls it, and that construction is the `fit` parameter of
   * Transformer, so nothing in this model calls Normalize: it and NormalizeScales document the
   * helper that `fit` stands on.
   */
  function Normalize(sqrt: real -> real, v: Vector3): (r: Vector3)
  {
    var norm := sqrt(Dot(v, v));
    if norm < DegenerateLength then v else Vector3(v.x / norm, v.y / norm, v.z / norm)
  }

  lemma NormalizeScales(sqrt: real -> real, v: Vector3)
    ensures var norm, r := sqrt(Dot(v, v)), Normalize(sqrt, v);
      (norm < DegenerateLength ==> r == v)
      && (norm >= DegenerateLength ==> r.x * norm == v.x && r.y * norm == v.y && r.z * norm == v.z)
  {
  }

  /**
   * UWBToGPSTransformer. `fit` stands for the ENU conversion of the GNSS anchors and the frame
   * construction of calibrate (R = E U^T, t = p0_E - R p0_U), None when that computation raises;
   * `toGnss` for enu_to_lla relative to the reference anchor.
   */
  class Transformer {
    var isCalibrated: bool
    var rigid: Option<RigidTransform>
    var refGnss: Option<GnssPosition>
    var uwbAnchors: seq<Vector3>
    var gnssAnchors: seq<GnssPosition>

    /** Either never calibrated with anchors, or three of each with anchor 0 as reference; calibrated implies a transform. */
    ghost predicate Valid()
      reads this
    {
      && ((|uwbAnchors| == 0 && |gnssAnchors| == 0 && refGnss.None?)
          || (|uwbAnchors| == 3 && |gnssAnchors| == 3 && refGnss == Some(gnssAnchors[0])))
      && (isCalibrated ==> rigid.Some? && refGnss.Some?)
    }

    constructor ()
      ensures Valid() && !isCalibrated && rigid.None? && refGnss.None?
      ensures uwbAnchors == [] && gnssAnchors == []
    {
      isCalibrated := false;
      rigid := None;
      refGnss := None;
      uwbAnchors := [];
      gnssAnchors := [];
    }

    /**
     * calibrate: fewer than three anchors of either kind returns False and changes nothing;
     * otherwise the first three of each are stored and anchor 0 becomes the reference before the
     * fit is tried. A fit that raises returns False and leaves the transform and the flag as they
     * were; one that succeeds is installed whatever its determinant.
     */
    method Calibrate(fit: (seq<Vector3>, seq<GnssPosition>) -> Option<RigidTransform>,
                     uwb: seq<Vector3>, gnss: seq<GnssPosition>) returns (ok: bool)
      requires Valid()
      modifies this
      ensures Valid()
      ensures ok <==> |uwb| >= 3 && |gnss| >= 3 && fit(uwb[..3], gnss[..3]).Some?
      ensures (|uwb| < 3 || |gnss| < 3) ==>
        uwbAnchors == old(uwbAnchors) && gnssAnchors == old(gnssAnchors) && refGnss == old(refGnss)
      ensures |uwb| >= 3 && |gnss| >= 3 ==> uwbAnchors == uwb[..3] && gnssAnchors == gnss[..3] && refGnss == Some(gnss[0])
      ensures !ok ==> isCalibrated == old(isCalibrated) && rigid == old(rigid)
      ensures ok ==> isCalibrated && rigid == fit(uwb[..3], gnss[..3])
    {
      if |uwb| < 3 || |gnss| < 3 {
        return false;
      }
      uwbAnchors := uwb[..3];
      gnssAnchors := gnss[..3];
      refGnss := Some(gnss[0]);
      var fitted := fit(uwb[..3], gnss[..3]);
      if fitted.None? {
        return false;
      }
      rigid := fitted;
      isCalibrated := true;
      return true;
    }

    /** transform: None before calibration, otherwise the GNSS image of R p + t. */
    function Transform(toGnss: (Vector3, GnssPosition) -> GnssPosition, p: Vector3): (r: Option<GnssPosition>)
      requires Valid()
      reads this
      ensures r.None? <==> !isCalibrated
      ensures r.Some? ==> r.value == toGnss(Apply(rigid.value, p), refGnss.value)
    {
      if !isCalibrated then None else Some(toGnss(Apply(rigid.value, p), refGnss.value))
    }

    /**
     * get_anchor_gnss: None for an index at or past the end; Python list indexing otherwise,
     * negative indices counting from the end and IndexError below -len.
     */
    function GetAnchorGnss(index: int): (r: Result<Option<GnssPosition>>)
      reads this
      ensures index >= |gnssAnchors| ==> r == Ok(None)
      ensures 0 <= index < |gnssAnchors| ==> r == Ok(Some(gnssAnchors[index]))
      ensures -|gnssAnchors| <= index < 0 ==> r == Ok(Some(gnssAnchors[|gnssAnchors| + index]))
      ensures index < -|gnssAnchors| ==> r == Err(IndexError)
    {
      if index >= |gnssAnchors| then Ok(None)
      else if index >= 0 then Ok(Some(gnssAnchors[index]))
      else if index >= -|gnssAnchors| then Ok(Some(gnssAnchors[|gnssAnchors| + index]))
      else Err(IndexError)
    }
  }

  /** After calibrate on three or more anchors, transform is defined for every point exactly when the fit succeeded. */
  method CalibrateThenTransform(fit: (seq<Vector3>, seq<GnssPosition>) -> Option<RigidTransform>,
                                toGnss: (Vector3, GnssPosition) -> GnssPosition,
                                uwb: seq<Vector3>, gnss: seq<GnssPosition>, p: Vector3)
      returns (ok: bool, r: Option<GnssPosition>)
    requires |uwb| >= 3 && |gnss| >= 3
    ensures ok == fit(uwb[..3], gnss[..3]).Some?
    ensures ok ==> r == Some(toGnss(Apply(fit(uwb[..3], gnss[..3]).value, p), gnss[0]))
    ensures !ok ==> r.None?
  {
    var t := new Transformer();
    ok := t.Calibrate(fit, uwb, gnss);
    r := t.Transform(toGnss, p);
    var missing := t.GetAnchorGnss(3);
    assert missing == Ok(None);
  }
}
