/**
 * RegattaSimulator: a tag that approaches the start line along its perpendicular, crosses it,
 * runs on to the anchor line and returns along a semicircle, and the frames it produces on each
 * tick. The clocks, the Gaussian noise samples, the square root and the trigonometric arc
 * interpolation are inputs; the TCP broadcaster is left out.
 */
module Simulator {
  import opened Wrappers
  import opened Numerics
  import opened Models
  import opened Json
  import DsTwr
  import Fifo

  /** The settings the simulator reads; only crossing_to_anchor_line_m is looked up with a default. */
  datatype Settings = Settings(
    tagId: string,
    historyLimit: int,
    approachSpeed: real,
    approachDistance: real,
    crossingToAnchorLine: Option<real>,
    semicircleRadius: real,
    semicircleSpeed: real,
    noiseStd: real,
    responderDelayNs: real,
    clockDriftNs: real)

  /** The configured simulation settings. */
  const ConfigSettings: Settings :=
    Settings("TAG-01", 5000, 4.0, 15.0, Some(12.5), 18.0, 3.5, 0.015, 120.0, 4.0)

  const DefaultCrossingToAnchorLine: real := 12.5

  /** The smallest tick the velocity is divided by. */
  const MinTickS: real := 0.001

  /** The fraction of the radius by which the semicircle centre sits left of anchor A. */
  const CenterOffsetFactor: real := 0.3

  function TargetDistance(s: Settings): real
  {
    if s.crossingToAnchorLine.Some? then s.crossingToAnchorLine.value else DefaultCrossingToAnchorLine
  }

  datatype Phase = Approach | Crossing | Semicircle

  /** The start line as fixed at construction: its two anchors, midpoint and unit perpendicular. */
  datatype Geometry = Geometry(a: Anchor, b: Anchor, midpoint: Vector3, perpendicular: Vector3)

  /**
   * The checks and line geometry of __init__: ValueError for fewer than two anchors and for a
   * negative history limit (deque's maxlen), ZeroDivisionError when the first two anchors
   * coincide in XY.
   */
  function Setup(sqrt: real -> real, anchors: seq<Anchor>, s: Settings): Result<Geometry>
  {
    if |anchors| < 2 then Err(ValueError)
    else if s.historyLimit < 0 then Err(ValueError)
    else
      var a, b := anchors[0].position, anchors[1].position;
      var dx, dy := b.x - a.x, b.y - a.y;
      var len := Hypot(sqrt, dx, dy);
      if len == 0.0 then Err(ZeroDivisionError)
      else Ok(Geometry(anchors[0], anchors[1],
        Vector3((a.x + b.x) / 2.0, (a.y + b.y) / 2.0, 0.0),
        Vector3(-dy / len, dx / len, 0.0)))
  }

  /** Construction succeeds exactly with two anchors apart in XY and a non-negative history limit. */
  lemma SetupSucceeds(sqrt: real -> real, anchors: seq<Anchor>, s: Settings)
    requires IsSqrt(sqrt)
    ensures Setup(sqrt, anchors, s).Ok? <==>
      |anchors| >= 2 && s.historyLimit >= 0
      && !(anchors[0].position.x == anchors[1].position.x && anchors[0].position.y == anchors[1].position.y)
    ensures |anchors| < 2 ==> Setup(sqrt, anchors, s) == Err(ValueError)
    ensures Setup(sqrt, anchors, s).Ok? ==>
      Setup(sqrt, anchors, s).value.a == anchors[0] && Setup(sqrt, anchors, s).value.b == anchors[1]
  {
    if |anchors| >= 2 {
      var a, b := anchors[0].position, anchors[1].position;
      HypotZero(sqrt, b.x - a.x, b.y - a.y);
    }
  }

  /** The signed distance of a point from the line midpoint along the perpendicular (positive above the line). */
  function SignedDistance(g: Geometry, p: Vector3): real
  {
    (p.x - g.midpoint.x) * g.perpendicular.x + (p.y - g.midpoint.y) * g.perpendicular.y
  }

  /** A point moved by d along the perpendicular, keeping its height. */
  function Along(g: Geometry, p: Vector3, d: real): Vector3
  {
    Vector3(p.x + d * g.perpendicular.x, p.y + d * g.perpendicular.y, p.z)
  }

  /** The approach start: approach_distance_m below the line midpoint, at height 0. */
  function StartPosition(g: Geometry, s: Settings): Vector3
  {
    Along(g, g.midpoint, -s.approachDistance)
  }

  /** The semicircle centre: anchor A moved left (along the perpendicular) by 0.3 times the radius. */
  function SemicircleCenter(g: Geometry, s: Settings): Vector3
  {
    var c := Along(g, g.a.position, CenterOffsetFactor * s.semicircleRadius);
    c.(z := 0.0)
  }

  /** The perpendicular of a successful setup is a unit vector orthogonal to the line. */
  lemma PerpendicularUnit(sqrt: real -> real, anchors: seq<Anchor>, s: Settings)
    requires IsSqrt(sqrt) && Setup(sqrt, anchors, s).Ok?
    ensures var g := Setup(sqrt, anchors, s).value;
      && g.perpendicular.x * g.perpendicular.x + g.perpendicular.y * g.perpendicular.y == 1.0
      && g.perpendicular.x * (g.b.position.x - g.a.position.x) + g.perpendicular.y * (g.b.position.y - g.a.position.y) == 0.0
  {
    var a, b := anchors[0].position, anchors[1].position;
    var dx, dy := b.x - a.x, b.y - a.y;
    var len := Hypot(sqrt, dx, dy);
    SumOfSquaresPositive(dx, dy);
    assert len * len == dx * dx + dy * dy;
    UnitQuotients(dx, dy, len);
  }

  lemma UnitQuotients(dx: real, dy: real, len: real)
    requires len != 0.0 && len * len == dx * dx + dy * dy
    ensures (-dy / len) * (-dy / len) + (dx / len) * (dx / len) == 1.0
    ensures (-dy / len) * dx + (dx / len) * dy == 0.0
  {
    var r := Reciprocal(len);
    assert -dy / len == -dy * r && dx / len == dx * r;
    UnitScaled(dx, dy, len, r);
  }

  lemma Reciprocal(len: real) returns (r: real)
    requires len != 0.0
    ensures r * len == 1.0 && r == 1.0 / len
  {
    r := 1.0 / len;
  }

  /** (-dy, dx) scaled by 1 / len is a unit vector orthogonal to (dx, dy) when len is the length of (dx, dy). */
  lemma UnitScaled(dx: real, dy: real, len: real, r: real)
    requires len * len == dx * dx + dy * dy && r * len == 1.0
    ensures (-dy * r) * (-dy * r) + (dx * r) * (dx * r) == 1.0
    ensures (-dy * r) * dx + (dx * r) * dy == 0.0
  {
    calc {
      (-dy * r) * (-dy * r) + (dx * r) * (dx * r);
      (dx * dx + dy * dy) * (r * r);
      (len * len) * (r * r);
      (r * len) * (r * len);
      1.0;
    }
  }

  /**
   * The simulator's signed distance is signed_distance_to_line of ds_twr: the side value over |AB|.
   * So the tag is above the line exactly when it is left of A -> B.
   */
  lemma SignedDistanceAgrees(sqrt: real -> real, anchors: seq<Anchor>, s: Settings, p: Vector3)
    requires IsSqrt(sqrt) && Setup(sqrt, anchors, s).Ok?
    ensures var g := Setup(sqrt, anchors, s).value;
      SignedDistance(g, p) == DsTwr.SignedDistanceToLine(sqrt, g.a.position, g.b.position, p)
  {
    var g := Setup(sqrt, anchors, s).value;
    var a, b := g.a.position, g.b.position;
    var dx, dy := b.x - a.x, b.y - a.y;
    var len := Hypot(sqrt, dx, dy);
    var m := g.midpoint;
    assert (p.x - m.x) * (-dy) + (p.y - m.y) * dx == DsTwr.SideOfLine(a, b, p);
    QuotientSum(p.x - m.x, p.y - m.y, -dy, dx, len);
  }

  lemma QuotientSum(u: real, v: real, p: real, q: real, len: real)
    requires len != 0.0
    ensures u * (p / len) + v * (q / len) == (u * p + v * q) / len
  {
  }

  /** Moving by d along a unit perpendicular changes the signed distance by exactly d. */
  lemma AlongShifts(g: Geometry, p: Vector3, d: real)
    requires g.perpendicular.x * g.perpendicular.x + g.perpendicular.y * g.perpendicular.y == 1.0
    ensures SignedDistance(g, Along(g, p, d)) == SignedDistance(g, p) + d
  {
    var px, py := g.perpendicular.x, g.perpendicular.y;
    assert SignedDistance(g, Along(g, p, d)) == SignedDistance(g, p) + d * (px * px + py * py);
  }

  /** The tag starts approach_distance_m below the line. */
  lemma StartBelowLine(sqrt: real -> real, anchors: seq<Anchor>, s: Settings)
    requires IsSqrt(sqrt) && Setup(sqrt, anchors, s).Ok?
    ensures SignedDistance(Setup(sqrt, anchors, s).value, StartPosition(Setup(sqrt, anchors, s).value, s)) == -s.approachDistance
  {
    var g := Setup(sqrt, anchors, s).value;
    PerpendicularUnit(sqrt, anchors, s);
    AlongShifts(g, g.midpoint, -s.approachDistance);
  }

  // ----- one tick of motion

  /** The state _update_tag_state reads and writes. */
  datatype Motion = Motion(
    phase: Phase,
    phaseStartTime: real,
    phaseStartPosition: Option<Vector3>,
    semicircleCenter: Option<Vector3>,
    semicircleStartPos: Option<Vector3>,
    tag: TagState)

  /**
   * The arc interpolation of the semicircle phase (atan2, cos and sin): from the centre, start,
   * end and time spent in the phase, the progress and the interpolated XY point.
   */
  datatype ArcStep = ArcStep(progress: real, x: real, y: real)
  type Arc = (Vector3, Vector3, Vector3, real) -> ArcStep

  /** The velocity of a move over dt seconds; dt is floored at 1 ms and vz is always 0. */
  function Velocity(from: Vector3, to: Vector3, dt: real): (v: Vector3)
    ensures v.x * Max(dt, MinTickS) == to.x - from.x
    ensures v.y * Max(dt, MinTickS) == to.y - from.y
    ensures v.z == 0.0
  {
    Vector3((to.x - from.x) / Max(dt, MinTickS), (to.y - from.y) / Max(dt, MinTickS), 0.0)
  }

  /** The phase and phase bookkeeping after one tick, with the new tag position. */
  function PhaseStep(g: Geometry, s: Settings, sqrt: real -> real, arc: Arc, elapsed: real, m: Motion, dt: real): (Motion, Vector3)
  {
    var cur := m.tag.truePosition;
    match m.phase
    case Approach =>
      var p := Along(g, cur, s.approachSpeed * dt);
      if SignedDistance(g, p) >= 0.0 then
        (m.(phase := Crossing, phaseStartTime := elapsed, phaseStartPosition := Some(p)), p)
      else (m, p)
    case Crossing =>
      var p := Along(g, cur, s.approachSpeed * dt);
      if m.phaseStartPosition.Some?
        && Hypot(sqrt, p.x - m.phaseStartPosition.value.x, p.y - m.phaseStartPosition.value.y) >= TargetDistance(s)
      then
        (m.(semicircleStartPos := Some(p), phase := Semicircle, phaseStartTime := elapsed, semicircleCenter := None), p)
      else (m, p)
    case Semicircle =>
      if m.semicircleStartPos.None? then (m, cur)
      else
        var end := StartPosition(g, s);
        var center := if m.semicircleCenter.Some? then m.semicircleCenter.value else SemicircleCenter(g, s);
        var step := arc(center, m.semicircleStartPos.value, end, elapsed - m.phaseStartTime);
        if step.progress >= 1.0 then
          (m.(phase := Approach, phaseStartTime := elapsed, semicircleCenter := None, semicircleStartPos := None),
           Vector3(end.x, end.y, cur.z))
        else (m.(semicircleCenter := Some(center)), Vector3(step.x, step.y, cur.z))
  }

  /** The approach and crossing steps move the tag to `p`, the point approach_speed * dt further along. */
  lemma MovingStep(g: Geometry, s: Settings, sqrt: real -> real, arc: Arc, elapsed: real, m: Motion, dt: real, p: Vector3)
    requires m.phase != Semicircle
    requires p == Along(g, m.tag.truePosition, s.approachSpeed * dt)
    ensures PhaseStep(g, s, sqrt, arc, elapsed, m, dt).1 == p
    ensures m.phase == Approach ==>
      PhaseStep(g, s, sqrt, arc, elapsed, m, dt).0
        == (if SignedDistance(g, p) >= 0.0
            then m.(phase := Crossing, phaseStartTime := elapsed, phaseStartPosition := Some(p))
            else m)
    ensures m.phase == Crossing ==>
      PhaseStep(g, s, sqrt, arc, elapsed, m, dt).0
        == (if m.phaseStartPosition.Some?
               && Hypot(sqrt, p.x - m.phaseStartPosition.value.x, p.y - m.phaseStartPosition.value.y) >= TargetDistance(s)
            then m.(semicircleStartPos := Some(p), phase := Semicircle, phaseStartTime := elapsed, semicircleCenter := None)
            else m)
  {
  }

  /** _update_tag_state: the phase step, then the tag at its new position with the move's velocity. */
  function UpdateTag(g: Geometry, s: Settings, sqrt: real -> real, arc: Arc, elapsed: real, m: Motion, dt: real): Motion
  {
    var (next, p) := PhaseStep(g, s, sqrt, arc, elapsed, m, dt);
    next.(tag := TagState(m.tag.id, p, Velocity(m.tag.truePosition, p, dt)))
  }

  /** The tag keeps its id, and its velocity is the move it just made over max(dt, 1 ms). */
  lemma TagMoves(g: Geometry, s: Settings, sqrt: real -> real, arc: Arc, elapsed: real, m: Motion, dt: real)
    ensures var m' := UpdateTag(g, s, sqrt, arc, elapsed, m, dt);
      && m'.tag.id == m.tag.id
      && m'.tag.velocity.x * Max(dt, MinTickS) == m'.tag.truePosition.x - m.tag.truePosition.x
      && m'.tag.velocity.y * Max(dt, MinTickS) == m'.tag.truePosition.y - m.tag.truePosition.y
      && m'.tag.velocity.z == 0.0
  {
  }

  /**
   * Approach: the tag moves approach_speed * dt along the perpendicular, and the phase turns to
   * crossing, starting now at the new position, exactly when the new signed distance is >= 0.
   */
  lemma ApproachStep(g: Geometry, s: Settings, sqrt: real -> real, arc: Arc, elapsed: real, m: Motion, dt: real)
    requires m.phase == Approach
    ensures var m' := UpdateTag(g, s, sqrt, arc, elapsed, m, dt);
      var p := Along(g, m.tag.truePosition, s.approachSpeed * dt);
      && m'.tag.truePosition == p
      && (m'.phase == Crossing <==> SignedDistance(g, p) >= 0.0)
      && (m'.phase == Crossing ==> m'.phaseStartTime == elapsed && m'.phaseStartPosition == Some(p))
      && (m'.phase != Crossing ==> m'.phase == Approach && m'.tag.id == m.tag.id && m'.(tag := m.tag) == m)
  {
  }

  /**
   * Crossing: the tag keeps moving along the perpendicular, and the phase turns to semicircle,
   * with the semicircle starting at the new position and no centre yet, exactly when the tag has
   * travelled crossing_to_anchor_line_m (default 12.5) in XY since the phase started.
   */
  lemma CrossingStep(g: Geometry, s: Settings, sqrt: real -> real, arc: Arc, elapsed: real, m: Motion, dt: real)
    requires m.phase == Crossing && m.phaseStartPosition.Some?
    ensures var m' := UpdateTag(g, s, sqrt, arc, elapsed, m, dt);
      var p := Along(g, m.tag.truePosition, s.approachSpeed * dt);
      var start := m.phaseStartPosition.value;
      && m'.tag.truePosition == p
      && (m'.phase == Semicircle <==> Hypot(sqrt, p.x - start.x, p.y - start.y) >= TargetDistance(s))
      && (m'.phase == Semicircle ==>
            m'.semicircleStartPos == Some(p) && m'.semicircleCenter.None? && m'.phaseStartTime == elapsed)
      && (m'.phase != Semicircle ==> m'.phase == Crossing && m'.(tag := m.tag) == m)
  {
  }

  /**
   * Semicircle: once the arc's progress reaches 1 the tag is back at the approach start (keeping
   * its height), the phase is approach again and the centre and start are cleared; before that
   * the tag is at the interpolated point and the centre is fixed.
   */
  lemma SemicircleStep(g: Geometry, s: Settings, sqrt: real -> real, arc: Arc, elapsed: real, m: Motion, dt: real)
    requires m.phase == Semicircle && m.semicircleStartPos.Some?
    ensures var m' := UpdateTag(g, s, sqrt, arc, elapsed, m, dt);
      var center := if m.semicircleCenter.Some? then m.semicircleCenter.value else SemicircleCenter(g, s);
      var step := arc(center, m.semicircleStartPos.value, StartPosition(g, s), elapsed - m.phaseStartTime);
      && (m'.phase == Approach <==> step.progress >= 1.0)
      && (m'.phase == Approach ==>
            && m'.semicircleCenter.None? && m'.semicircleStartPos.None? && m'.phaseStartTime == elapsed
            && m'.tag.truePosition == StartPosition(g, s).(z := m.tag.truePosition.z))
      && (m'.phase != Approach ==>
            && m'.phase == Semicircle && m'.semicircleCenter == Some(center)
            && m'.tag.truePosition == Vector3(step.x, step.y, m.tag.truePosition.z))
  {
  }

  /**
   * The phases follow the cycle approach -> crossing -> semicircle -> approach: each tick either
   * stays in its phase or moves to the next one.
   */
  lemma PhaseCycle(g: Geometry, s: Settings, sqrt: real -> real, arc: Arc, elapsed: real, m: Motion, dt: real)
    ensures var next := UpdateTag(g, s, sqrt, arc, elapsed, m, dt).phase;
      next == m.phase
      || (m.phase == Approach && next == Crossing)
      || (m.phase == Crossing && next == Semicircle)
      || (m.phase == Semicircle && next == Approach)
  {
  }

  /** The crossing phase always knows where it started, and the semicircle phase where it starts. */
  ghost predicate MotionValid(m: Motion)
  {
    && (m.phase == Crossing ==> m.phaseStartPosition.Some?)
    && (m.phase == Semicircle ==> m.semicircleStartPos.Some?)
  }

  /** Every tick keeps MotionValid, so the "no start position" fallbacks are never taken. */
  lemma UpdateKeepsValid(g: Geometry, s: Settings, sqrt: real -> real, arc: Arc, elapsed: real, m: Motion, dt: real)
    requires MotionValid(m)
    ensures MotionValid(UpdateTag(g, s, sqrt, arc, elapsed, m, dt))
  {
  }

  // ----- frames

  /** The measurement of each anchor in turn, with that anchor's noise sample. */
  function Measurements(sqrt: real -> real, anchors: seq<Anchor>, tag: TagState, s: Settings, noise: nat -> real)
    : (r: seq<RangeMeasurement>)
    ensures |r| == |anchors|
  {
    seq(|anchors|, i requires 0 <= i < |anchors| =>
      DsTwr.SimulateDsTwr(sqrt, anchors[i], tag, s.noiseStd, s.responderDelayNs, s.clockDriftNs, noise(i)))
  }

  /**
   * There is one measurement per anchor, in anchor order: the i-th is taken by anchor i of the
   * tag, at the true distance plus the i-th noise sample.
   */
  lemma MeasurementPerAnchor(sqrt: real -> real, anchors: seq<Anchor>, tag: TagState, s: Settings, noise: nat -> real, i: nat)
    requires i < |anchors|
    ensures var m := Measurements(sqrt, anchors, tag, s, noise)[i];
      && m.anchorId == anchors[i].id && m.tagId == tag.id
      && m.distanceM == DsTwr.EuclideanDistance(sqrt, anchors[i].position, tag.truePosition) + noise(i)
      && m.replyTimeNs == s.responderDelayNs
  {
    DsTwr.SimulateDsTwrRelations(sqrt, anchors[i], tag, s.noiseStd, s.responderDelayNs, s.clockDriftNs, noise(i));
  }

  /** The line_crossing dict: the wall-clock time and the tag position. */
  function CrossingRecord(timestampNs: int, p: Vector3): JValue
  {
    JObj(map["timestamp_ns" := JInt(timestampNs), "tag_position" := VectorPayload(p)])
  }

  /**
   * What generate_frame emits for the tag `tag` under frame id `id`: the anchors and the tag, one
   * measurement per anchor, and a line_crossing exactly when the move from `previous` crossed the line.
   */
  predicate Describes(frame: Frame, id: int, frameNs: int, crossingNs: int, anchors: seq<Anchor>, tag: TagState,
                      s: Settings, g: Geometry, previous: Vector3, sqrt: real -> real, noise: nat -> real)
  {
    && frame.frameId == id && frame.timestampNs == frameNs
    && frame.anchors == anchors && frame.tag == tag
    && frame.measurements == Measurements(sqrt, anchors, tag, s, noise)
    && (frame.lineCrossing.Some? <==> DsTwr.DetectLineCrossing(g.a.position, g.b.position, previous, tag.truePosition))
    && (frame.lineCrossing.Some? ==> frame.lineCrossing.value == CrossingRecord(crossingNs, tag.truePosition))
  }

  /** RegattaSimulator without its wall-clock reads: the clocks are method arguments. */
  class RegattaSimulator {
    const anchors: seq<Anchor>
    const settings: Settings
    const geometry: Geometry
    const historyLimit: nat
    var frameId: int
    var lastTick: real
    var elapsed: real
    var history: seq<Frame>
    var phase: Phase
    var phaseStartTime: real
    var phaseStartPosition: Option<Vector3>
    var semicircleCenter: Option<Vector3>
    var semicircleStartPos: Option<Vector3>
    var tag: TagState
    var previousPosition: Vector3

    function State(): Motion
      reads this`phase, this`phaseStartTime, this`phaseStartPosition, this`semicircleCenter,
        this`semicircleStartPos, this`tag
    {
      Motion(phase, phaseStartTime, phaseStartPosition, semicircleCenter, semicircleStartPos, tag)
    }

    ghost predicate Valid()
      reads this`phase, this`phaseStartTime, this`phaseStartPosition, this`semicircleCenter,
        this`semicircleStartPos, this`tag, this`history
    {
      MotionValid(State()) && |history| <= historyLimit && tag.id == settings.tagId
    }

    /**
     * __init__ once Setup has succeeded: frame 0, no history, phase approach with no start
     * position, and the tag at rest at the approach start, which is also its previous position.
     */
    constructor(sqrt: real -> real, anchorList: seq<Anchor>, s: Settings, startTime: real)
      requires Setup(sqrt, anchorList, s).Ok?
      ensures Valid()
      ensures anchors == anchorList && settings == s && geometry == Setup(sqrt, anchorList, s).value
      ensures historyLimit == s.historyLimit && frameId == 0 && history == []
      ensures lastTick == startTime && elapsed == 0.0
      ensures State() == Motion(Approach, 0.0, None, None, None,
        TagState(s.tagId, StartPosition(geometry, s), Vector3(0.0, 0.0, 0.0)))
      ensures previousPosition == StartPosition(geometry, s)
    {
      anchors := anchorList;
      settings := s;
      var g := Setup(sqrt, anchorList, s).value;
      geometry := g;
      historyLimit := s.historyLimit;
      frameId := 0;
      lastTick := startTime;
      elapsed := 0.0;
      history := [];
      phase := Approach;
      phaseStartTime := 0.0;
      phaseStartPosition := None;
      semicircleCenter := None;
      semicircleStartPos := None;
      var start := StartPosition(g, s);
      tag := TagState(s.tagId, start, Vector3(0.0, 0.0, 0.0));
      previousPosition := start;
    }

    /** _update_tag_state. */
    method UpdateTagState(dt: real, sqrt: real -> real, arc: Arc)
      requires Valid()
      modifies this`phase, this`phaseStartTime, this`phaseStartPosition, this`semicircleCenter,
        this`semicircleStartPos, this`tag
      ensures Valid()
      ensures State() == UpdateTag(geometry, settings, sqrt, arc, elapsed, old(State()), dt)
    {
      ghost var m := State();
      var cur := tag.truePosition;
      var p: Vector3;
      if phase == Approach {
        p := ApproachTick(dt, sqrt, arc);
      } else if phase == Crossing {
        p := CrossingTick(dt, sqrt, arc);
      } else {
        p := SemicircleTick(dt, sqrt, arc);
      }
      tag := TagState(tag.id, p, Velocity(cur, p, dt));
      UpdateKeepsValid(geometry, settings, sqrt, arc, elapsed, m, dt);
    }

    /** The approach branch of _update_tag_state, up to the tag update: the phase step and the new position. */
    method ApproachTick(dt: real, sqrt: real -> real, arc: Arc) returns (p: Vector3)
      requires phase == Approach
      modifies this`phase, this`phaseStartTime, this`phaseStartPosition
      ensures (State(), p) == PhaseStep(geometry, settings, sqrt, arc, elapsed, old(State()), dt)
    {
      p := Along(geometry, tag.truePosition, settings.approachSpeed * dt);
      MovingStep(geometry, settings, sqrt, arc, elapsed, State(), dt, p);
      if SignedDistance(geometry, p) >= 0.0 {
        phase := Crossing;
        phaseStartTime := elapsed;
        phaseStartPosition := Some(p);
      }
    }

    /** The crossing branch: the semicircle starts once the tag is target_distance past its crossing start. */
    method CrossingTick(dt: real, sqrt: real -> real, arc: Arc) returns (p: Vector3)
      requires phase == Crossing
      modifies this`phase, this`phaseStartTime, this`semicircleCenter, this`semicircleStartPos
      ensures (State(), p) == PhaseStep(geometry, settings, sqrt, arc, elapsed, old(State()), dt)
    {
      p := Along(geometry, tag.truePosition, settings.approachSpeed * dt);
      MovingStep(geometry, settings, sqrt, arc, elapsed, State(), dt, p);
      if phaseStartPosition.Some? {
        var start := phaseStartPosition.value;
        if Hypot(sqrt, p.x - start.x, p.y - start.y) >= TargetDistance(settings) {
          semicircleStartPos := Some(p);
          phase := Semicircle;
          phaseStartTime := elapsed;
          semicircleCenter := None;
        }
      }
    }

    /** The semicircle branch: the arc from its start back to the approach start, then a new approach. */
    method SemicircleTick(dt: real, sqrt: real -> real, arc: Arc) returns (p: Vector3)
      requires phase == Semicircle
      modifies this`phase, this`phaseStartTime, this`semicircleCenter, this`semicircleStartPos
      ensures (State(), p) == PhaseStep(geometry, settings, sqrt, arc, elapsed, old(State()), dt)
    {
      var cur := tag.truePosition;
      if semicircleStartPos.None? {
        p := cur;
      } else {
        var end := StartPosition(geometry, settings);
        if semicircleCenter.None? {
          semicircleCenter := Some(SemicircleCenter(geometry, settings));
        }
        var arcStep := arc(semicircleCenter.value, semicircleStartPos.value, end, elapsed - phaseStartTime);
        if arcStep.progress >= 1.0 {
          phase := Approach;
          phaseStartTime := elapsed;
          p := Vector3(end.x, end.y, cur.z);
          semicircleCenter := None;
          semicircleStartPos := None;
        } else {
          p := Vector3(arcStep.x, arcStep.y, cur.z);
        }
      }
    }

    /**
     * generate_frame at perf-counter time `now`: the clock advances, the tag moves, each anchor
     * measures the new position, the frame carries a crossing record exactly when
     * detect_line_crossing fires between the previous and the new position, and the frame is
     * appended to the bounded history under the next frame id.
     */
    method GenerateFrame(now: real, crossingNs: int, frameNs: int, sqrt: real -> real, arc: Arc, noise: nat -> real)
      returns (frame: Frame)
      requires Valid()
      modifies this`lastTick, this`elapsed, this`phase, this`phaseStartTime, this`phaseStartPosition,
        this`semicircleCenter, this`semicircleStartPos, this`tag, this`previousPosition, this`history, this`frameId
      ensures Valid()
      ensures lastTick == now && elapsed == old(elapsed) + (now - old(lastTick))
      ensures State() == UpdateTag(geometry, settings, sqrt, arc, elapsed, old(State()), now - old(lastTick))
      ensures Describes(frame, old(frameId), frameNs, crossingNs, anchors, tag, settings, geometry, old(previousPosition), sqrt, noise)
      ensures previousPosition == tag.truePosition
      ensures history == Fifo.Offer(old(history), frame, historyLimit)
      ensures frameId == old(frameId) + 1
    {
      ghost var m0 := State();
      var dt := now - lastTick;
      lastTick := now;
      elapsed := elapsed + dt;
      assert State() == m0;
      UpdateTagState(dt, sqrt, arc);
      ghost var m1 := State();
      frame := EmitFrame(crossingNs, frameNs, sqrt, noise);
      assert State() == m1;
    }

    /** The second half of generate_frame: the frame for the current tag, recorded in the history. */
    method EmitFrame(crossingNs: int, frameNs: int, sqrt: real -> real, noise: nat -> real) returns (frame: Frame)
      requires Valid()
      modifies this`previousPosition, this`history, this`frameId
      ensures Valid()
      ensures Describes(frame, old(frameId), frameNs, crossingNs, anchors, tag, settings, geometry, old(previousPosition), sqrt, noise)
      ensures previousPosition == tag.truePosition
      ensures history == Fifo.Offer(old(history), frame, historyLimit)
      ensures frameId == old(frameId) + 1
    {
      var measurements := Measurements(sqrt, anchors, tag, settings, noise);
      var lineCrossing: Option<JValue> := None;
      if DsTwr.DetectLineCrossing(geometry.a.position, geometry.b.position, previousPosition, tag.truePosition) {
        lineCrossing := Some(CrossingRecord(crossingNs, tag.truePosition));
      }
      frame := Frame(frameId, frameNs, anchors, tag, measurements, lineCrossing);
      previousPosition := tag.truePosition;
      history := Fifo.Offer(history, frame, historyLimit);
      frameId := frameId + 1;
    }
  }

  /**
   * The history never exceeds history_limit and holds the newest frames: after any run of
   * frames it is the last history_limit of all frames generated.
   */
  lemma HistoryKeepsNewest(frames: seq<Frame>, limit: nat)
    ensures Fifo.OfferAll([], frames, limit) == Fifo.KeepNewest(frames, limit)
    ensures |Fifo.OfferAll([], frames, limit)| <= limit
  {
    var none: seq<Frame> := [];
    Fifo.KeepNewestWithin(none, limit);
    Fifo.OfferAllKeepsNewest(none, frames, limit);
    assert none + frames == frames;
  }
}
