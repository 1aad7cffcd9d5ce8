/**
 * Anchors, tag state, range measurements and frames, with the frame's JSON payload
 * (`Frame.to_payload`) and the construction of anchors from configuration dictionaries.
 */
module Models {
  import opened Wrappers
  import opened Json

  datatype Vector3 = Vector3(x: real, y: real, z: real)

  /** A UWB anchor (a base station on a buoy). */
  datatype Anchor = Anchor(id: string, position: Vector3)

  /** The tag on the sailboat. */
  datatype TagState = TagState(id: string, truePosition: Vector3, velocity: Vector3)

  /** One DS-TWR range measurement from an anchor to the tag. */
  datatype RangeMeasurement = RangeMeasurement(
    anchorId: string,
    tagId: string,
    tofNs: real,
    distanceM: real,
    varianceM2: real,
    roundTripNs: real,
    replyTimeNs: real)

  /** A frame: anchors, tag, measurements and an optional line-crossing record (a JSON dict). */
  datatype Frame = Frame(
    frameId: int,
    timestampNs: int,
    anchors: seq<Anchor>,
    tag: TagState,
    measurements: seq<RangeMeasurement>,
    lineCrossing: Option<JValue>)

  /** The configured start-line anchors: A at the origin and B 25 m along x. */
  const ConfigAnchors: seq<JValue> := [
    JObj(map["id" := JStr("A"), "position" := JArr([JFloat(0.0), JFloat(0.0), JFloat(0.0)])]),
    JObj(map["id" := JStr("B"), "position" := JArr([JFloat(25.0), JFloat(0.0), JFloat(0.0)])])
  ]

  // ----- to_payload

  /** list(v). */
  function VectorPayload(v: Vector3): JValue
  {
    JArr([JFloat(v.x), JFloat(v.y), JFloat(v.z)])
  }

  function AnchorPayload(a: Anchor): JValue
  {
    JObj(map["id" := JStr(a.id), "position" := VectorPayload(a.position)])
  }

  function TagPayload(t: TagState): JValue
  {
    JObj(map[
      "id" := JStr(t.id),
      "true_position" := VectorPayload(t.truePosition),
      "velocity" := VectorPayload(t.velocity)])
  }

  function MeasurementPayload(m: RangeMeasurement): JValue
  {
    JObj(map[
      "anchor_id" := JStr(m.anchorId),
      "tag_id" := JStr(m.tagId),
      "tof_ns" := JFloat(m.tofNs),
      "distance_m" := JFloat(m.distanceM),
      "variance_m2" := JFloat(m.varianceM2),
      "round_trip_ns" := JFloat(m.roundTripNs),
      "reply_time_ns" := JFloat(m.replyTimeNs)])
  }

  /** None is serialised as null. */
  function OptionalPayload(o: Option<JValue>): JValue
  {
    match o
    case None => JNull
    case Some(v) => v
  }

  /** Frame.to_payload(). */
  function ToPayload(f: Frame): JValue
  {
    JObj(map[
      "frame_id" := JInt(f.frameId),
      "timestamp_ns" := JInt(f.timestampNs),
      "anchors" := JArr(seq(|f.anchors|, i requires 0 <= i < |f.anchors| => AnchorPayload(f.anchors[i]))),
      "tag" := TagPayload(f.tag),
      "measurements" := JArr(seq(|f.measurements|, i requires 0 <= i < |f.measurements| => MeasurementPayload(f.measurements[i]))),
      "line_crossing" := OptionalPayload(f.lineCrossing)])
  }

  /**
   * The payload's scalar members read back as the frame's: frame_id, timestamp_ns and
   * line_crossing are copied unchanged, and the anchor and measurement lists keep their lengths.
   */
  lemma PayloadScalars(f: Frame)
    ensures Index(ToPayload(f), "frame_id").Ok? && PyInt(Index(ToPayload(f), "frame_id").value) == Ok(f.frameId)
    ensures Index(ToPayload(f), "timestamp_ns").Ok? && PyInt(Index(ToPayload(f), "timestamp_ns").value) == Ok(f.timestampNs)
    ensures Index(ToPayload(f), "line_crossing") == Ok(OptionalPayload(f.lineCrossing))
    ensures f.lineCrossing.Some? ==> Index(ToPayload(f), "line_crossing") == Ok(f.lineCrossing.value)
    ensures Index(ToPayload(f), "anchors").Ok? && Index(ToPayload(f), "anchors").value.JArr?
    ensures |Index(ToPayload(f), "anchors").value.items| == |f.anchors|
    ensures Index(ToPayload(f), "measurements").Ok? && Index(ToPayload(f), "measurements").value.JArr?
    ensures |Index(ToPayload(f), "measurements").value.items| == |f.measurements|
  {
  }

  // ----- from_dict and anchors_from_config

  /** A float or int element of a position tuple. */
  function NumberValue(v: JValue): Option<real>
  {
    match v
    case JInt(i) => Some(i as real)
    case JFloat(x) => Some(x)
    case _ => None
  }

  /**
   * tuple(items) as a Vector3. Python would build a tuple of any length and element type;
   * the model represents only three numbers.
   */
  function TupleAsVector(items: seq<JValue>): Result<Vector3>
  {
    if |items| == 3 && NumberValue(items[0]).Some? && NumberValue(items[1]).Some? && NumberValue(items[2]).Some? then
      Ok(Vector3(NumberValue(items[0]).value, NumberValue(items[1]).value, NumberValue(items[2]).value))
    else Err(Unsupported)
  }

  /** Anchor.from_dict: data["id"], then tuple(data["position"]), taken verbatim. */
  function AnchorFromDict(data: JValue): (r: Result<Anchor>)
    ensures r.Ok? ==> Index(data, "id") == Ok(JStr(r.value.id))
    ensures Index(data, "id").Err? ==> r == Err(Index(data, "id").error)
    ensures Index(data, "id").Ok? && Index(data, "position").Err? ==> r == Err(Index(data, "position").error)
  {
    match Index(data, "id")
    case Err(e) => Err(e)
    case Ok(idValue) =>
      match Index(data, "position")
      case Err(e) => Err(e)
      case Ok(positionValue) =>
        match Iterate(positionValue)
        case Err(e) => Err(e)
        case Ok(items) =>
          if !idValue.JStr? then Err(Unsupported)
          else
            match TupleAsVector(items)
            case Err(e) => Err(e)
            case Ok(p) => Ok(Anchor(idValue.s, p))
  }

  /** The anchor dict of a payload reads back as the same anchor. */
  lemma AnchorDictRoundTrip(a: Anchor)
    ensures AnchorFromDict(AnchorPayload(a)) == Ok(a)
  {
  }

  /** anchors_from_config: one anchor per item, in order; the first failing item's exception propagates. */
  function AnchorsFromConfig(config: seq<JValue>): (r: Result<seq<Anchor>>)
    ensures r.Ok? ==> |r.value| == |config|
    ensures r.Ok? ==> forall i :: 0 <= i < |config| ==> AnchorFromDict(config[i]) == Ok(r.value[i])
    ensures r.Err? ==> exists i :: 0 <= i < |config| && AnchorFromDict(config[i]).Err?
  {
    if config == [] then Ok([])
    else
      match AnchorFromDict(config[0])
      case Err(e) => Err(e)
      case Ok(a) =>
        match AnchorsFromConfig(config[1..])
        case Err(e) => Err(e)
        case Ok(rest) => Ok([a] + rest)
  }

  /** The configured anchors are A = (0, 0, 0) and B = (25, 0, 0). */
  lemma ConfigAnchorsValue()
    ensures AnchorsFromConfig(ConfigAnchors) == Ok([Anchor("A", Vector3(0.0, 0.0, 0.0)), Anchor("B", Vector3(25.0, 0.0, 0.0))])
  {
    var a := Anchor("A", Vector3(0.0, 0.0, 0.0));
    var b := Anchor("B", Vector3(25.0, 0.0, 0.0));
    assert ConfigAnchors[0] == AnchorPayload(a);
    assert ConfigAnchors[1] == AnchorPayload(b);
    AnchorDictRoundTrip(a);
    AnchorDictRoundTrip(b);
    var rest := ConfigAnchors[1..];
    assert rest == [AnchorPayload(b)] && rest[1..] == [];
    assert AnchorFromDict(rest[0]) == Ok(b);
    assert AnchorsFromConfig(rest[1..]) == Ok([]);
    assert [b] + [] == [b];
    assert AnchorsFromConfig(rest) == Ok([b]);
    assert AnchorFromDict(ConfigAnchors[0]) == Ok(a);
    assert [a] + [b] == [a, b];
  }
}
