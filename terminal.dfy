/**
 * The terminal receiver: reading anchors and measurements back out of a frame payload, the
 * client's per-frame bookkeeping (anchors shown once, time relative to the first frame, the
 * history record) and its frame limit, and which records a history replay shows. Sockets,
 * console output and the history file are left out: a connection is the sequence of decoded
 * lines, and the history file is the list of records appended to it.
 */
module Terminal {
  import opened Wrappers
  import opened Json
  import opened Models
  import DsTwr

  // ----- the payload readers

  /** `[f(x) for x in items]` where f may raise: the results in order, or the first exception. */
  function MapAll<T>(items: seq<JValue>, f: JValue -> Result<T>): Result<seq<T>>
  {
    if items == [] then Ok([])
    else
      match MapAll(items[..|items| - 1], f)
      case Err(e) => Err(e)
      case Ok(prev) =>
        match f(items[|items| - 1])
        case Err(e) => Err(e)
        case Ok(x) => Ok(prev + [x])
  }

  lemma MapAllSnoc<T>(items: seq<JValue>, i: nat, f: JValue -> Result<T>)
    requires i < |items|
    ensures MapAll(items[..i + 1], f) ==
      match MapAll(items[..i], f)
      case Err(e) => Err(e)
      case Ok(prev) =>
        match f(items[i])
        case Err(e) => Err(e)
        case Ok(x) => Ok(prev + [x])
  {
    assert items[..i + 1][..i] == items[..i];
  }

  /** Once a prefix has raised, the whole list raises the same exception. */
  lemma {:induction false} MapAllStops<T>(items: seq<JValue>, k: nat, f: JValue -> Result<T>)
    requires k <= |items| && MapAll(items[..k], f).Err?
    ensures MapAll(items, f) == MapAll(items[..k], f)
    decreases |items| - k
  {
    if k == |items| {
      assert items[..k] == items;
    } else {
      MapAllSnoc(items, k, f);
      MapAllStops(items, k + 1, f);
    }
  }

  /** A successful MapAll keeps the length and order: result i is what item i gave. */
  lemma {:induction false} MapAllOk<T>(items: seq<JValue>, f: JValue -> Result<T>)
    requires MapAll(items, f).Ok?
    ensures |MapAll(items, f).value| == |items|
    ensures forall i :: 0 <= i < |items| ==> f(items[i]) == Ok(MapAll(items, f).value[i])
  {
    if items != [] {
      var init := items[..|items| - 1];
      MapAllOk(init, f);
      assert forall i :: 0 <= i < |init| ==> items[i] == init[i];
    }
  }

  /** Conversely, items that each give their value make MapAll give the list of values. */
  lemma {:induction false} MapAllOfValues<T>(items: seq<JValue>, xs: seq<T>, f: JValue -> Result<T>)
    requires |items| == |xs|
    requires forall i :: 0 <= i < |items| ==> f(items[i]) == Ok(xs[i])
    ensures MapAll(items, f) == Ok(xs)
  {
    if items != [] {
      var n := |items| - 1;
      MapAllOfValues(items[..n], xs[..n], f);
      assert xs[..n] + [xs[n]] == xs;
    }
  }

  /** `tuple(float(coord) for coord in value)`. */
  function Coordinates(value: JValue): Result<seq<real>>
  {
    match Iterate(value)
    case Err(e) => Err(e)
    case Ok(items) => MapAll(items, PyFloat)
  }

  /**
   * One anchor of anchors_from_payload: item["id"] taken verbatim and the position converted
   * coordinate by coordinate. An id that is not a string, or a position that is not three
   * numbers, is outside what the model represents.
   */
  function AnchorItem(item: JValue): Result<Anchor>
  {
    match Index(item, "id")
    case Err(e) => Err(e)
    case Ok(id) =>
      match Index(item, "position")
      case Err(e) => Err(e)
      case Ok(position) =>
        match Coordinates(position)
        case Err(e) => Err(e)
        case Ok(c) =>
          if !id.JStr? || |c| != 3 then Err(Unsupported)
          else Ok(Anchor(id.s, Vector3(c[0], c[1], c[2])))
  }

  /** One measurement of measurements_from_payload: the two ids verbatim, then five float() fields in order. */
  function MeasurementItem(item: JValue): Result<RangeMeasurement>
  {
    match Index(item, "anchor_id")
    case Err(e) => Err(e)
    case Ok(anchorId) =>
      match Index(item, "tag_id")
      case Err(e) => Err(e)
      case Ok(tagId) =>
        match FloatAt(item, "tof_ns")
        case Err(e) => Err(e)
        case Ok(tof) =>
          match FloatAt(item, "distance_m")
          case Err(e) => Err(e)
          case Ok(distance) =>
            match FloatAt(item, "variance_m2")
            case Err(e) => Err(e)
            case Ok(variance) =>
              match FloatAt(item, "round_trip_ns")
              case Err(e) => Err(e)
              case Ok(roundTrip) =>
                match FloatAt(item, "reply_time_ns")
                case Err(e) => Err(e)
                case Ok(reply) =>
                  if !anchorId.JStr? || !tagId.JStr? then Err(Unsupported)
                  else Ok(RangeMeasurement(anchorId.s, tagId.s, tof, distance, variance, roundTrip, reply))
  }

  /** The list a payload converter builds: one element per item of the payload, in order. */
  function ReadAll<T>(payload: JValue, f: JValue -> Result<T>): Result<seq<T>>
  {
    match Iterate(payload)
    case Err(e) => Err(e)
    case Ok(items) => MapAll(items, f)
  }

  /** anchors_from_payload. */
  method AnchorsFromPayload(payload: JValue) returns (r: Result<seq<Anchor>>)
    ensures r == ReadAll(payload, AnchorItem)
  {
    var it := Iterate(payload);
    if it.Err? {
      return Err(it.error);
    }
    var items := it.value;
    var anchors: seq<Anchor> := [];
    for i := 0 to |items|
      invariant MapAll(items[..i], AnchorItem) == Ok(anchors)
    {
      var a := AnchorItem(items[i]);
      MapAllSnoc(items, i, AnchorItem);
      if a.Err? {
        MapAllStops(items, i + 1, AnchorItem);
        return Err(a.error);
      }
      anchors := anchors + [a.value];
    }
    assert items[..|items|] == items;
    return Ok(anchors);
  }

  /** measurements_from_payload. */
  method MeasurementsFromPayload(payload: JValue) returns (r: Result<seq<RangeMeasurement>>)
    ensures r == ReadAll(payload, MeasurementItem)
  {
    var it := Iterate(payload);
    if it.Err? {
      return Err(it.error);
    }
    var items := it.value;
    var measurements: seq<RangeMeasurement> := [];
    for i := 0 to |items|
      invariant MapAll(items[..i], MeasurementItem) == Ok(measurements)
    {
      var m := MeasurementItem(items[i]);
      MapAllSnoc(items, i, MeasurementItem);
      if m.Err? {
        MapAllStops(items, i + 1, MeasurementItem);
        return Err(m.error);
      }
      measurements := measurements + [m.value];
    }
    assert items[..|items|] == items;
    return Ok(measurements);
  }

  /** to_payload's anchor list reads back as the frame's anchors, in order. */
  lemma AnchorsRoundTrip(f: Frame)
    ensures Index(ToPayload(f), "anchors").Ok?
    ensures ReadAll(Index(ToPayload(f), "anchors").value, AnchorItem) == Ok(f.anchors)
  {
    var items := Index(ToPayload(f), "anchors").value.items;
    forall i | 0 <= i < |items|
      ensures AnchorItem(items[i]) == Ok(f.anchors[i])
    {
      assert items[i] == AnchorPayload(f.anchors[i]);
      var p := f.anchors[i].position;
      var coords := [JFloat(p.x), JFloat(p.y), JFloat(p.z)];
      MapAllOfValues(coords, [p.x, p.y, p.z], PyFloat);
    }
    MapAllOfValues(items, f.anchors, AnchorItem);
  }

  /** to_payload's measurement list reads back as the frame's measurements with all seven fields. */
  lemma MeasurementsRoundTrip(f: Frame)
    ensures Index(ToPayload(f), "measurements").Ok?
    ensures ReadAll(Index(ToPayload(f), "measurements").value, MeasurementItem) == Ok(f.measurements)
  {
    var items := Index(ToPayload(f), "measurements").value.items;
    forall i | 0 <= i < |items|
      ensures MeasurementItem(items[i]) == Ok(f.measurements[i])
    {
      assert items[i] == MeasurementPayload(f.measurements[i]);
    }
    MapAllOfValues(items, f.measurements, MeasurementItem);
  }

  /** A converted list has one element per payload item, each converted from that item. */
  lemma ReadAllPointwise<T>(payload: JValue, f: JValue -> Result<T>)
    requires ReadAll(payload, f).Ok?
    ensures Iterate(payload).Ok?
    ensures |ReadAll(payload, f).value| == |Iterate(payload).value|
    ensures forall i :: 0 <= i < |Iterate(payload).value| ==>
      f(Iterate(payload).value[i]) == Ok(ReadAll(payload, f).value[i])
  {
    MapAllOk(Iterate(payload).value, f);
  }

  // ----- one frame

  /** One line of history: what _handle_frame appends. */
  datatype HistoryRecord = HistoryRecord(
    frameId: JValue, timestampNs: int, estimate: Option<(real, real)>, lineCrossing: JValue)

  /**
   * What _handle_frame prints: the anchor list (only when `anchorsShown`), the relative time, the
   * frame id, the estimate (None standing for NaN) and the crossing time in seconds, if any.
   */
  datatype Report = Report(
    anchorsShown: bool, relativeMs: real, frameId: int, estimate: Option<(real, real)>, crossingSeconds: Option<real>)

  /** The client's mutable state, as a value. */
  datatype ClientState = ClientState(
    frameZeroNs: Option<int>, anchorsPrinted: bool, framesSeen: int, history: seq<HistoryRecord>)

  /** The anchors and measurements of a frame. */
  function FrameLists(frame: JValue): Result<(seq<Anchor>, seq<RangeMeasurement>)>
  {
    match Index(frame, "anchors")
    case Err(e) => Err(e)
    case Ok(a) =>
      match ReadAll(a, AnchorItem)
      case Err(e) => Err(e)
      case Ok(anchors) =>
        match Index(frame, "measurements")
        case Err(e) => Err(e)
        case Ok(m) =>
          match ReadAll(m, MeasurementItem)
          case Err(e) => Err(e)
          case Ok(measurements) => Ok((anchors, measurements))
  }

  /** A position estimator over a frame's anchors and measurements. */
  type Estimator = (seq<Anchor>, seq<RangeMeasurement>) -> Result<(real, real)>

  /** The estimator the terminal uses: estimate_tag_position with the default side. */
  function TagEstimator(sqrt: real -> real): Estimator
  {
    (anchors: seq<Anchor>, measurements: seq<RangeMeasurement>) =>
      DsTwr.EstimateTagPosition(sqrt, anchors, measurements, None)
  }

  /** The estimate with its ValueError turned into NaN (None); any other exception escapes. */
  function Estimate(estimator: Estimator, anchors: seq<Anchor>, measurements: seq<RangeMeasurement>)
    : Result<Option<(real, real)>>
  {
    match estimator(anchors, measurements)
    case Ok(p) => Ok(Some(p))
    case Err(e) => if e == ValueError then Ok(None) else Err(e)
  }

  /** int(frame["timestamp_ns"]). */
  function FrameTimestamp(frame: JValue): Result<int>
  {
    match Index(frame, "timestamp_ns")
    case Err(e) => Err(e)
    case Ok(v) => PyInt(v)
  }

  /** `frame["line_crossing"]["timestamp_ns"] / 1e9` when frame.get("line_crossing") is truthy. */
  function CrossingSeconds(frame: JValue): Result<Option<real>>
  {
    match Get(frame, "line_crossing", JNull)
    case Err(e) => Err(e)
    case Ok(crossing) =>
      if !Truthy(crossing) then Ok(None)
      else
        match Index(crossing, "timestamp_ns")
        case Err(e) => Err(e)
        case Ok(JInt(t)) => Ok(Some(t as real / 1000000000.0))
        case Ok(JFloat(t)) => Ok(Some(t / 1000000000.0))
        case Ok(JBool(b)) => Ok(Some(if b then 1.0 / 1000000000.0 else 0.0))
        case Ok(_) => Err(TypeError)
  }

  /** frame["frame_id"] and its value under the `05d` format, which only accepts integers. */
  function FrameId(frame: JValue): Result<(JValue, int)>
  {
    match Index(frame, "frame_id")
    case Err(e) => Err(e)
    case Ok(JInt(i)) => Ok((JInt(i), i))
    case Ok(JBool(b)) => Ok((JBool(b), if b then 1 else 0))
    case Ok(JFloat(_)) => Err(ValueError)
    case Ok(JStr(_)) => Err(ValueError)
    case Ok(_) => Err(TypeError)
  }

  /**
   * _handle_frame on a state value. The steps run in source order: the two lists, then the
   * anchors are marked printed, the estimate, the timestamp (the first one fixes the zero), the
   * crossing and the frame id; an exception at any step keeps the changes made before it, and
   * only a frame that gets through every step is appended to the history.
   */
  function HandleFrameSpec(st: ClientState, frame: JValue, estimator: Estimator): (ClientState, Result<Report>)
  {
    match FrameLists(frame)
    case Err(e) => (st, Err(e))
    case Ok(lists) =>
      var st1 := st.(anchorsPrinted := true);
      match Estimate(estimator, lists.0, lists.1)
      case Err(e) => (st1, Err(e))
      case Ok(estimate) =>
        RecordSpec(st1, !st.anchorsPrinted, frame, estimate)
  }

  /**
   * The steps of _handle_frame after the estimate: the timestamp, which fixes the zero on the
   * first frame, the crossing and the frame id, then the history record and the report.
   */
  function RecordSpec(st: ClientState, shown: bool, frame: JValue, estimate: Option<(real, real)>)
    : (ClientState, Result<Report>)
  {
    match FrameTimestamp(frame)
    case Err(e) => (st, Err(e))
    case Ok(ts) =>
      var zero := if st.frameZeroNs.Some? then st.frameZeroNs.value else ts;
      var st2 := st.(frameZeroNs := Some(zero));
      match CrossingSeconds(frame)
      case Err(e) => (st2, Err(e))
      case Ok(crossing) =>
        match FrameId(frame)
        case Err(e) => (st2, Err(e))
        case Ok(id) =>
          var lineCrossing := Get(frame, "line_crossing", JNull).value;
          var record := HistoryRecord(id.0, ts, estimate, lineCrossing);
          var report := Report(shown, (ts - zero) as real / 1000000.0, id.1, estimate, crossing);
          (st2.(history := st.history + [record]), Ok(report))
  }

  /**
   * Handling a frame leaves the frame count alone; the history gains one record, at its end,
   * exactly when the frame is reported, and is untouched otherwise.
   */
  lemma HandleFrameBookkeeping(st: ClientState, frame: JValue, estimator: Estimator)
    ensures var (st', r) := HandleFrameSpec(st, frame, estimator);
      && st'.framesSeen == st.framesSeen
      && (r.Ok? ==> |st'.history| == |st.history| + 1 && st'.history[..|st.history|] == st.history)
      && (r.Err? ==> st'.history == st.history)
  {
    match FrameLists(frame)
    case Err(_) =>
    case Ok(lists) =>
      match Estimate(estimator, lists.0, lists.1)
      case Err(_) =>
      case Ok(estimate) => RecordBookkeeping(st.(anchorsPrinted := true), !st.anchorsPrinted, frame, estimate);
  }

  lemma RecordBookkeeping(st: ClientState, shown: bool, frame: JValue, estimate: Option<(real, real)>)
    ensures var (st', r) := RecordSpec(st, shown, frame, estimate);
      && st'.framesSeen == st.framesSeen
      && (r.Ok? ==> |st'.history| == |st.history| + 1 && st'.history[..|st.history|] == st.history)
      && (r.Err? ==> st'.history == st.history)
  {
  }

  /** The first frame fixes the zero at its own timestamp and is reported at 0 ms. */
  lemma FirstFrameAtZero(st: ClientState, frame: JValue, estimator: Estimator)
    requires st.frameZeroNs.None?
    requires HandleFrameSpec(st, frame, estimator).1.Ok?
    ensures FrameTimestamp(frame).Ok?
    ensures HandleFrameSpec(st, frame, estimator).0.frameZeroNs == Some(FrameTimestamp(frame).value)
    ensures HandleFrameSpec(st, frame, estimator).1.value.relativeMs == 0.0
  {
  }

  /** Once fixed, the zero stays, and a frame is reported (t - t0) / 1e6 ms after it. */
  lemma LaterFrameRelative(st: ClientState, frame: JValue, estimator: Estimator)
    requires st.frameZeroNs.Some?
    requires HandleFrameSpec(st, frame, estimator).1.Ok?
    ensures FrameTimestamp(frame).Ok?
    ensures HandleFrameSpec(st, frame, estimator).0.frameZeroNs == st.frameZeroNs
    ensures HandleFrameSpec(st, frame, estimator).1.value.relativeMs
      == (FrameTimestamp(frame).value - st.frameZeroNs.value) as real / 1000000.0
  {
  }

  /**
   * A handled frame shows the anchors exactly when none were shown before, and afterwards
   * they count as shown; its history record carries the frame id, timestamp, estimate and crossing.
   */
  lemma HandledFrame(st: ClientState, frame: JValue, estimator: Estimator)
    requires HandleFrameSpec(st, frame, estimator).1.Ok?
    ensures var (st', r) := HandleFrameSpec(st, frame, estimator);
      && st'.anchorsPrinted
      && r.value.anchorsShown == !st.anchorsPrinted
      && FrameTimestamp(frame).Ok? && Index(frame, "frame_id").Ok?
      && st'.history == st.history + [HistoryRecord(
           Index(frame, "frame_id").value, FrameTimestamp(frame).value, r.value.estimate,
           Get(frame, "line_crossing", JNull).value)]
  {
  }

  /** How a connection ends. */
  datatype RunEnd = FrameLimit | Disconnected | Raised(error: PyError)

  /** `self._max_frames and frames_seen >= self._max_frames`. */
  predicate LimitReached(maxFrames: Option<int>, seen: int)
  {
    maxFrames.Some? && maxFrames.value != 0 && seen >= maxFrames.value
  }

  /** What handling one frame does to the client state. */
  type Handler = (ClientState, JValue) -> (ClientState, Result<Report>)

  /** _handle_frame with the given estimator. */
  function FrameHandler(estimator: Estimator): Handler
  {
    (st: ClientState, frame: JValue) => HandleFrameSpec(st, frame, estimator)
  }

  /** A handler leaves the frame count alone and records exactly the frames it reports. */
  ghost predicate Counts(handle: Handler)
  {
    forall st: ClientState, frame: JValue {:trigger handle(st, frame)} ::
      && handle(st, frame).0.framesSeen == st.framesSeen
      && |handle(st, frame).0.history| == |st.history| + (if handle(st, frame).1.Ok? then 1 else 0)
  }

  /** A handler shows the anchors on a reported frame exactly when none were shown, and marks them shown. */
  ghost predicate ShowsAnchorsOnce(handle: Handler)
  {
    forall st: ClientState, frame: JValue {:trigger handle(st, frame)} ::
      handle(st, frame).1.Ok? ==>
        handle(st, frame).0.anchorsPrinted && handle(st, frame).1.value.anchorsShown == !st.anchorsPrinted
  }

  lemma FrameHandlerBehaves(estimator: Estimator)
    ensures Counts(FrameHandler(estimator)) && ShowsAnchorsOnce(FrameHandler(estimator))
  {
    forall st: ClientState, frame: JValue
      ensures FrameHandler(estimator)(st, frame) == HandleFrameSpec(st, frame, estimator)
      ensures HandleFrameSpec(st, frame, estimator).0.framesSeen == st.framesSeen
      ensures |HandleFrameSpec(st, frame, estimator).0.history|
        == |st.history| + (if HandleFrameSpec(st, frame, estimator).1.Ok? then 1 else 0)
    {
      HandleFrameBookkeeping(st, frame, estimator);
    }
    forall st: ClientState, frame: JValue | HandleFrameSpec(st, frame, estimator).1.Ok?
      ensures HandleFrameSpec(st, frame, estimator).0.anchorsPrinted
      ensures HandleFrameSpec(st, frame, estimator).1.value.anchorsShown == !st.anchorsPrinted
    {
      HandledFrame(st, frame, estimator);
    }
  }

  /**
   * run over the lines of one connection, each already put through json.loads (Err for a line
   * that does not decode): frames are handled and counted until the frame limit is reached,
   * an exception escapes, or the connection closes (ConnectionError once the lines run out).
   */
  function RunSpec(st: ClientState, lines: seq<Result<JValue>>, handle: Handler, maxFrames: Option<int>)
    : (ClientState, seq<Report>, RunEnd)
    decreases |lines|
  {
    if lines == [] then (st, [], Disconnected)
    else if lines[0].Err? then (st, [], Raised(lines[0].error))
    else
      var handled := handle(st, lines[0].value);
      if handled.1.Err? then (handled.0, [], Raised(handled.1.error))
      else
        var st2 := handled.0.(framesSeen := handled.0.framesSeen + 1);
        if LimitReached(maxFrames, st2.framesSeen) then (st2, [handled.1.value], FrameLimit)
        else
          var rest := RunSpec(st2, lines[1..], handle, maxFrames);
          (rest.0, [handled.1.value] + rest.1, rest.2)
  }

  /**
   * Every reported frame is counted and recorded once; a closed connection reports every line;
   * at the frame limit the count has just reached it, and not before.
   */
  lemma {:induction false} RunCounts(st: ClientState, lines: seq<Result<JValue>>, handle: Handler, maxFrames: Option<int>)
    requires Counts(handle)
    ensures var (st', reports, end) := RunSpec(st, lines, handle, maxFrames);
      && st'.framesSeen == st.framesSeen + |reports|
      && |st'.history| == |st.history| + |reports|
      && (end == Disconnected ==> |reports| == |lines|)
      && (end == FrameLimit ==> LimitReached(maxFrames, st'.framesSeen))
      && (forall k :: st.framesSeen < k < st'.framesSeen ==> !LimitReached(maxFrames, k))
      && (end != FrameLimit && |reports| > 0 ==> !LimitReached(maxFrames, st'.framesSeen))
    decreases |lines|
  {
    if lines != [] && lines[0].Ok? {
      var handled := handle(st, lines[0].value);
      if handled.1.Ok? {
        var st2 := handled.0.(framesSeen := handled.0.framesSeen + 1);
        if !LimitReached(maxFrames, st2.framesSeen) {
          RunCounts(st2, lines[1..], handle, maxFrames);
        }
      }
    }
  }

  /**
   * With a positive frame limit m, a fresh client stops after exactly m frames: at the limit it
   * has reported m, and the connection can only close first when it delivered fewer than m lines.
   */
  lemma StopsAtLimit(st: ClientState, lines: seq<Result<JValue>>, handle: Handler, m: int)
    requires Counts(handle)
    requires m > 0 && st.framesSeen == 0
    ensures var (st', reports, end) := RunSpec(st, lines, handle, Some(m));
      && (end == FrameLimit ==> st'.framesSeen == m && |reports| == m)
      && (end == Disconnected ==> |lines| < m)
  {
    RunCounts(st, lines, handle, Some(m));
    var run := RunSpec(st, lines, handle, Some(m));
    CountWithinLimit(run.0.framesSeen, m);
  }

  /** A positive limit m is reached at m, so a count that has not reached it on the way stays at most m. */
  lemma CountWithinLimit(final: int, m: int)
    requires m > 0
    requires forall k :: 0 < k < final ==> !LimitReached(Some(m), k)
    ensures final <= m
  {
    assert LimitReached(Some(m), m);
  }

  /** Only the first frame of a run can show the anchors, and it does when none were shown before. */
  lemma {:induction false} AnchorsShownOnce(st: ClientState, lines: seq<Result<JValue>>, handle: Handler, maxFrames: Option<int>)
    requires ShowsAnchorsOnce(handle)
    ensures var (st', reports, end) := RunSpec(st, lines, handle, maxFrames);
      && (forall i :: 0 < i < |reports| ==> !reports[i].anchorsShown)
      && (|reports| > 0 ==> reports[0].anchorsShown == !st.anchorsPrinted)
    decreases |lines|
  {
    if lines != [] && lines[0].Ok? {
      var handled := handle(st, lines[0].value);
      if handled.1.Ok? {
        var st2 := handled.0.(framesSeen := handled.0.framesSeen + 1);
        if !LimitReached(maxFrames, st2.framesSeen) {
          AnchorsShownOnce(st2, lines[1..], handle, maxFrames);
          var rest := RunSpec(st2, lines[1..], handle, maxFrames).1;
          assert forall i :: 0 < i < |[handled.1.value] + rest| ==> ([handled.1.value] + rest)[i] == rest[i - 1];
        }
      }
    }
  }

  /** TerminalClient. */
  class Client {
    const maxFrames: Option<int>
    var frameZeroNs: Option<int>
    var anchorsPrinted: bool
    var framesSeen: int
    /** The records appended to the history file, in order. */
    var history: seq<HistoryRecord>

    function State(): ClientState
      reads this
    {
      ClientState(frameZeroNs, anchorsPrinted, framesSeen, history)
    }

    constructor(limit: Option<int>)
      ensures maxFrames == limit && State() == ClientState(None, false, 0, [])
    {
      maxFrames := limit;
      frameZeroNs := None;
      anchorsPrinted := false;
      framesSeen := 0;
      history := [];
    }

    /** The first steps of _handle_frame: the frame's anchors, then its measurements. */
    method ReadLists(frame: JValue) returns (r: Result<(seq<Anchor>, seq<RangeMeasurement>)>)
      ensures r == FrameLists(frame)
    {
      var anchorsValue := Index(frame, "anchors");
      if anchorsValue.Err? {
        return Err(anchorsValue.error);
      }
      var anchors := AnchorsFromPayload(anchorsValue.value);
      if anchors.Err? {
        return Err(anchors.error);
      }
      var measurementsValue := Index(frame, "measurements");
      if measurementsValue.Err? {
        return Err(measurementsValue.error);
      }
      var measurements := MeasurementsFromPayload(measurementsValue.value);
      if measurements.Err? {
        return Err(measurements.error);
      }
      r := Ok((anchors.value, measurements.value));
    }

    /** _handle_frame. */
    method HandleFrame(frame: JValue, estimator: Estimator) returns (r: Result<Report>)
      modifies this`frameZeroNs, this`anchorsPrinted, this`history
      ensures State() == HandleFrameSpec(old(State()), frame, estimator).0
      ensures r == HandleFrameSpec(old(State()), frame, estimator).1
    {
      var lists := ReadLists(frame);
      if lists.Err? {
        return Err(lists.error);
      }
      var shown := !anchorsPrinted;
      anchorsPrinted := true;
      var estimate := Estimate(estimator, lists.value.0, lists.value.1);
      if estimate.Err? {
        return Err(estimate.error);
      }
      r := Record(shown, frame, estimate.value);
    }

    /** The rest of _handle_frame once the position is estimated. */
    method Record(shown: bool, frame: JValue, estimate: Option<(real, real)>) returns (r: Result<Report>)
      modifies this`frameZeroNs, this`history
      ensures (State(), r) == RecordSpec(old(State()), shown, frame, estimate)
    {
      var ts := FrameTimestamp(frame);
      if ts.Err? {
        return Err(ts.error);
      }
      if frameZeroNs.None? {
        frameZeroNs := Some(ts.value);
      }
      var relativeMs := (ts.value - frameZeroNs.value) as real / 1000000.0;
      var crossing := CrossingSeconds(frame);
      if crossing.Err? {
        return Err(crossing.error);
      }
      var id := FrameId(frame);
      if id.Err? {
        return Err(id.error);
      }
      history := history + [HistoryRecord(id.value.0, ts.value, estimate, Get(frame, "line_crossing", JNull).value)];
      r := Ok(Report(shown, relativeMs, id.value.1, estimate, crossing.value));
    }

    /** _handle_frame, stated through the handler that RunSpec threads. */
    method HandleWith(frame: JValue, estimator: Estimator) returns (r: Result<Report>)
      modifies this`frameZeroNs, this`anchorsPrinted, this`history
      ensures (State(), r) == FrameHandler(estimator)(old(State()), frame)
    {
      r := HandleFrame(frame, estimator);
    }

    /**
     * One pass of run's loop: the line's exception, or the frame handled, counted and reported,
     * and the frame limit tested. `end` is how the connection ends here, if it does.
     */
    method Consume(
      line: Result<JValue>, estimator: Estimator, ghost total: (ClientState, seq<Report>, RunEnd),
      ghost reports: seq<Report>, ghost rest: seq<Result<JValue>>)
      returns (report: Option<Report>, end: Option<RunEnd>)
      requires rest != [] && rest[0] == line
      requires Progress(total, reports, State(), rest, FrameHandler(estimator), maxFrames)
      modifies this`frameZeroNs, this`anchorsPrinted, this`history, this`framesSeen
      ensures var shown := if report.Some? then reports + [report.value] else reports;
        if end.Some? then total == (State(), shown, end.value)
        else report.Some? && Progress(total, shown, State(), rest[1..], FrameHandler(estimator), maxFrames)
    {
      ghost var handle := FrameHandler(estimator);
      ghost var st := State();
      if line.Err? {
        ProgressRaised(total, reports, st, rest, handle, maxFrames);
        return None, Some(Raised(line.error));
      }
      var r := HandleWith(line.value, estimator);
      if r.Err? {
        ProgressRaised(total, reports, st, rest, handle, maxFrames);
        return None, Some(Raised(r.error));
      }
      framesSeen := framesSeen + 1;
      report := Some(r.value);
      ProgressReported(total, reports, st, rest, handle, maxFrames, State(), reports + [r.value], rest[1..]);
      if LimitReached(maxFrames, framesSeen) {
        return report, Some(FrameLimit);
      }
      end := None;
    }

    /** run: the reports printed and how the connection ended. */
    method Run(lines: seq<Result<JValue>>, estimator: Estimator) returns (reports: seq<Report>, end: RunEnd)
      modifies this`frameZeroNs, this`anchorsPrinted, this`history, this`framesSeen
      ensures (State(), reports, end) == RunSpec(old(State()), lines, FrameHandler(estimator), maxFrames)
    {
      ghost var total := RunSpec(State(), lines, FrameHandler(estimator), maxFrames);
      reports := [];
      var i := 0;
      assert lines[0..] == lines && [] + total.1 == total.1;
      while i < |lines|
        invariant i <= |lines|
        invariant Progress(total, reports, State(), lines[i..], FrameHandler(estimator), maxFrames)
      {
        var report, stop := Consume(lines[i], estimator, total, reports, lines[i..]);
        if report.Some? {
          reports := reports + [report.value];
        }
        if stop.Some? {
          return reports, stop.value;
        }
        assert lines[i..][1..] == lines[i + 1..];
        i := i + 1;
      }
      ProgressClosed(total, reports, State(), lines[i..], FrameHandler(estimator), maxFrames);
      end := Disconnected;
    }
  }

  /** The whole run `total` is `reports` so far followed by the run of `rest` from `st`. */
  ghost predicate Progress(
    total: (ClientState, seq<Report>, RunEnd), reports: seq<Report>, st: ClientState,
    rest: seq<Result<JValue>>, handle: Handler, maxFrames: Option<int>)
  {
    var tail := RunSpec(st, rest, handle, maxFrames);
    total == (tail.0, reports + tail.1, tail.2)
  }

  lemma ProgressRaised(
    total: (ClientState, seq<Report>, RunEnd), reports: seq<Report>, st: ClientState,
    rest: seq<Result<JValue>>, handle: Handler, maxFrames: Option<int>)
    requires Progress(total, reports, st, rest, handle, maxFrames) && rest != []
    ensures rest[0].Err? ==> total == (st, reports, Raised(rest[0].error))
    ensures rest[0].Ok? && handle(st, rest[0].value).1.Err? ==>
      total == (handle(st, rest[0].value).0, reports, Raised(handle(st, rest[0].value).1.error))
  {
    assert reports + [] == reports;
  }

  lemma ProgressReported(
    total: (ClientState, seq<Report>, RunEnd), reports: seq<Report>, st: ClientState,
    rest: seq<Result<JValue>>, handle: Handler, maxFrames: Option<int>,
    st2: ClientState, reports2: seq<Report>, rest2: seq<Result<JValue>>)
    requires Progress(total, reports, st, rest, handle, maxFrames) && rest != [] && rest[0].Ok?
    requires handle(st, rest[0].value).1.Ok?
    requires st2 == handle(st, rest[0].value).0.(framesSeen := handle(st, rest[0].value).0.framesSeen + 1)
    requires reports2 == reports + [handle(st, rest[0].value).1.value] && rest2 == rest[1..]
    ensures LimitReached(maxFrames, st2.framesSeen) ==> total == (st2, reports2, FrameLimit)
    ensures !LimitReached(maxFrames, st2.framesSeen) ==> Progress(total, reports2, st2, rest2, handle, maxFrames)
  {
    var h := handle(st, rest[0].value);
    if !LimitReached(maxFrames, st2.framesSeen) {
      var tail := RunSpec(st2, rest[1..], handle, maxFrames);
      assert reports + ([h.1.value] + tail.1) == (reports + [h.1.value]) + tail.1;
    }
  }

  lemma ProgressClosed(
    total: (ClientState, seq<Report>, RunEnd), reports: seq<Report>, st: ClientState,
    rest: seq<Result<JValue>>, handle: Handler, maxFrames: Option<int>)
    requires Progress(total, reports, st, rest, handle, maxFrames) && rest == []
    ensures total == (st, reports, Disconnected)
  {
    assert reports + [] == reports;
  }

  // ----- replay

  /** Python's `s[start:]`: a negative start counts from the end, and both are clamped. */
  function SliceFrom<T>(s: seq<T>, start: int): seq<T>
  {
    if start >= 0 then s[if start <= |s| then start else |s|..]
    else s[if |s| + start >= 0 then |s| + start else 0..]
  }

  /** The records replay_history shows: `history[-(limit or len(history)):]`, none for an empty history. */
  function Replayed<T>(history: seq<T>, limit: Option<int>): seq<T>
  {
    if history == [] then []
    else
      var l := if limit.None? || limit.value == 0 then |history| else limit.value;
      SliceFrom(history, -l)
  }

  /**
   * Without a limit (or with 0) every record is shown; with a positive limit the last
   * min(limit, len) ones; a negative limit skips that many records at the front.
   */
  lemma ReplayedTail<T>(history: seq<T>, limit: Option<int>)
    ensures history == [] ==> Replayed(history, limit) == []
    ensures limit.None? || limit == Some(0) ==> Replayed(history, limit) == history
    ensures limit.Some? && limit.value > 0 ==>
      var n := if limit.value < |history| then limit.value else |history|;
      Replayed(history, limit) == history[|history| - n..] && |Replayed(history, limit)| == n
    ensures limit.Some? && limit.value < 0 && history != [] ==>
      Replayed(history, limit) == history[if -limit.value < |history| then -limit.value else |history|..]
  {
  }
}
