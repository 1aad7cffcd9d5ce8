/**
 * The host-software UDP receiver: dispatch of one decoded datagram on its "Command" field into
 * tag records and anchor range records, the two capacity-100 drop-oldest queues they go to, the
 * callbacks that see each record, and the draining reads. The socket, the thread and the UTF-8
 * and JSON decoding are left out: a datagram arrives here as the value json.loads returned.
 */
module UdpReceiver {
  import opened Wrappers
  import opened Json
  import Fifo

  /** UWBTagData. The tag id is stored exactly as the payload holds it: it is not passed through int(). */
  datatype TagData = TagData(tagId: JValue, x: real, y: real, z: real, timestamp: real)

  /** AnchorRangeData. */
  datatype RangeData = RangeData(anchorI: int, anchorJ: int, distanceMm: int, timestamp: real)

  // ----- dispatch

  /** payload.get("Command", "") == name; a payload that is not an object has no .get and raises. */
  predicate CommandIs(payload: JValue, name: string)
  {
    Get(payload, "Command", JStr("")) == Ok(JStr(name))
  }

  /** float(payload.get(key, 0.0)). */
  function FloatField(payload: JValue, key: string): Result<real>
  {
    match Get(payload, key, JFloat(0.0))
    case Err(e) => Err(e)
    case Ok(v) => PyFloat(v)
  }

  /** int(payload.get(key, 0)). */
  function IntFieldOr0(payload: JValue, key: string): Result<int>
  {
    match Get(payload, key, JInt(0))
    case Err(e) => Err(e)
    case Ok(v) => PyInt(v)
  }

  /** The UWBTagData of an UpLink payload: TagID defaults to 0, X, Y and Z to 0.0. */
  function UpLinkRecord(payload: JValue, timestamp: real): (r: Result<TagData>)
    ensures r.Ok? ==> r.value.timestamp == timestamp
  {
    match Get(payload, "TagID", JInt(0))
    case Err(e) => Err(e)
    case Ok(id) =>
      match FloatField(payload, "X")
      case Err(e) => Err(e)
      case Ok(x) =>
        match FloatField(payload, "Y")
        case Err(e) => Err(e)
        case Ok(y) =>
          match FloatField(payload, "Z")
          case Err(e) => Err(e)
          case Ok(z) => Ok(TagData(id, x, y, z, timestamp))
  }

  /**
   * One AnchorRangeData read from an object with the given keys, each defaulting to 0. The
   * distance is not checked: any integer is accepted.
   */
  function RangeRecord(r: JValue, keyI: string, keyJ: string, timestamp: real): (rec: Result<RangeData>)
    ensures rec.Ok? ==> rec.value.timestamp == timestamp
  {
    match IntFieldOr0(r, keyI)
    case Err(e) => Err(e)
    case Ok(i) =>
      match IntFieldOr0(r, keyJ)
      case Err(e) => Err(e)
      case Ok(j) =>
        match IntFieldOr0(r, "Distance")
        case Err(e) => Err(e)
        case Ok(d) => Ok(RangeData(i, j, d, timestamp))
  }

  /**
   * What `for r in ranges` visits. Iterating an object yields its keys, and iterating a string
   * yields its characters; both are strings, whose missing .get raises on the first element, so
   * only whether there is one matters: a non-empty object stands for its keys by a failing step.
   */
  function RangeElements(ranges: JValue): (r: Result<seq<JValue>>)
    ensures ranges.JArr? ==> r == Ok(ranges.items)
  {
    match ranges
    case JArr(items) => Ok(items)
    case JStr(_) => Iterate(ranges)
    case JObj(fields) => if fields == map[] then Ok([]) else Err(AttributeError)
    case _ => Err(TypeError)
  }

  /**
   * The records the RangeData loop enqueues: one per element, in order, up to the first element
   * that raises; the exception ends the loop and the records already enqueued stay.
   */
  function ElementRecords(elements: seq<JValue>, timestamp: real): (r: seq<RangeData>)
    ensures |r| <= |elements|
  {
    if elements == [] then []
    else
      match RangeRecord(elements[0], "I", "J", timestamp)
      case Err(_) => []
      case Ok(rec) => [rec] + ElementRecords(elements[1..], timestamp)
  }

  /** The tag records one datagram yields: one for a well-formed UpLink, none otherwise. */
  function TagItems(payload: JValue, timestamp: real): (r: seq<TagData>)
    ensures |r| <= 1
  {
    if CommandIs(payload, "UpLink") then
      match UpLinkRecord(payload, timestamp)
      case Err(_) => []
      case Ok(t) => [t]
    else []
  }

  /** The range records one datagram yields: at most one for AnchorRange, one per element for RangeData. */
  function RangeItems(payload: JValue, timestamp: real): seq<RangeData>
  {
    if CommandIs(payload, "AnchorRange") then
      match RangeRecord(payload, "AnchorI", "AnchorJ", timestamp)
      case Err(_) => []
      case Ok(rec) => [rec]
    else if CommandIs(payload, "RangeData") then
      match Get(payload, "Ranges", JArr([]))
      case Err(_) => []
      case Ok(ranges) =>
        match RangeElements(ranges)
        case Err(_) => []
        case Ok(elements) => ElementRecords(elements, timestamp)
    else []
  }

  /** A payload carries one command at most. */
  lemma OneCommand(payload: JValue)
    ensures CommandIs(payload, "UpLink") ==> !CommandIs(payload, "AnchorRange") && !CommandIs(payload, "RangeData")
    ensures CommandIs(payload, "AnchorRange") ==> !CommandIs(payload, "RangeData")
  {
    assert "UpLink" != "AnchorRange" && "UpLink" != "RangeData" && "AnchorRange" != "RangeData";
  }

  // ----- what dispatch promises

  /** Any other or missing command, or a payload that is not an object, leaves both queues alone. */
  lemma OtherCommandsIgnored(payload: JValue, timestamp: real)
    requires !CommandIs(payload, "UpLink") && !CommandIs(payload, "AnchorRange") && !CommandIs(payload, "RangeData")
    ensures TagItems(payload, timestamp) == [] && RangeItems(payload, timestamp) == []
  {
  }

  /** Only an object can carry a command. */
  lemma NonObjectIgnored(payload: JValue, timestamp: real)
    requires !payload.JObj?
    ensures TagItems(payload, timestamp) == [] && RangeItems(payload, timestamp) == []
  {
    assert Get(payload, "Command", JStr("")).Err?;
  }

  /** The commands are exclusive: an UpLink yields no range record and a range command no tag record. */
  lemma CommandsExclusive(payload: JValue, timestamp: real)
    ensures TagItems(payload, timestamp) != [] ==> RangeItems(payload, timestamp) == []
    ensures RangeItems(payload, timestamp) != [] ==> TagItems(payload, timestamp) == []
  {
  }

  /** `{"Command": "UpLink"}` alone gives tag 0 at the origin with the datagram's timestamp. */
  lemma UpLinkDefaults(timestamp: real)
    ensures TagItems(JObj(map["Command" := JStr("UpLink")]), timestamp)
      == [TagData(JInt(0), 0.0, 0.0, 0.0, timestamp)]
  {
    var p := JObj(map["Command" := JStr("UpLink")]);
    assert CommandIs(p, "UpLink");
    assert UpLinkRecord(p, timestamp) == Ok(TagData(JInt(0), 0.0, 0.0, 0.0, timestamp));
  }

  /** An UpLink whose fields are numbers gives exactly those numbers. */
  lemma UpLinkFields(fields: map<string, JValue>, id: int, x: real, y: real, z: real, timestamp: real)
    requires fields == map["Command" := JStr("UpLink"), "TagID" := JInt(id), "X" := JFloat(x), "Y" := JFloat(y), "Z" := JFloat(z)]
    ensures TagItems(JObj(fields), timestamp) == [TagData(JInt(id), x, y, z, timestamp)]
  {
    assert CommandIs(JObj(fields), "UpLink");
  }

  /** An AnchorRange yields exactly one record for integer (or absent) fields, with absent ones 0. */
  lemma AnchorRangeOne(fields: map<string, JValue>, timestamp: real)
    requires "Command" in fields && fields["Command"] == JStr("AnchorRange")
    requires forall k :: k in fields && k != "Command" ==> fields[k].JInt?
    ensures RangeItems(JObj(fields), timestamp) == [RangeData(IntOr0(fields, "AnchorI"), IntOr0(fields, "AnchorJ"), IntOr0(fields, "Distance"), timestamp)]
  {
    var p := JObj(fields);
    assert CommandIs(p, "AnchorRange");
    assert !CommandIs(p, "UpLink");
  }

  /** The integer under key, 0 when absent (a helper of the lemmas). */
  function IntOr0(fields: map<string, JValue>, key: string): int
  {
    if key in fields && fields[key].JInt? then fields[key].i else 0
  }

  /** An AnchorRange never yields more than one record. */
  lemma AnchorRangeAtMostOne(payload: JValue, timestamp: real)
    requires CommandIs(payload, "AnchorRange")
    ensures |RangeItems(payload, timestamp)| <= 1
  {
  }

  /**
   * A RangeData list yields one record per element, in order, as far as the elements read
   * without raising: record k comes from element k.
   */
  lemma {:induction false} ElementRecordsInOrder(elements: seq<JValue>, timestamp: real)
    ensures forall k :: 0 <= k < |ElementRecords(elements, timestamp)| ==>
      RangeRecord(elements[k], "I", "J", timestamp) == Ok(ElementRecords(elements, timestamp)[k])
  {
    if elements != [] && RangeRecord(elements[0], "I", "J", timestamp).Ok? {
      ElementRecordsInOrder(elements[1..], timestamp);
    }
  }

  /** When every element reads without raising, every element yields its record. */
  lemma {:induction false} ElementRecordsComplete(elements: seq<JValue>, timestamp: real)
    requires forall k :: 0 <= k < |elements| ==> RangeRecord(elements[k], "I", "J", timestamp).Ok?
    ensures |ElementRecords(elements, timestamp)| == |elements|
  {
    if elements != [] {
      ElementRecordsComplete(elements[1..], timestamp);
    }
  }

  /** An element that raises stops the loop there: nothing after it is enqueued. */
  lemma {:induction false} ElementRecordsStop(elements: seq<JValue>, k: nat, timestamp: real)
    requires k < |elements| && RangeRecord(elements[k], "I", "J", timestamp).Err?
    ensures |ElementRecords(elements, timestamp)| <= k
  {
    if k > 0 && RangeRecord(elements[0], "I", "J", timestamp).Ok? {
      ElementRecordsStop(elements[1..], k - 1, timestamp);
    }
  }

  /** The receiver's queues and callback registrations; socket and thread state are left out. */
  class Receiver {
    var dataQueue: seq<TagData>
    var rangeQueue: seq<RangeData>
    var tagCallbackSet: bool
    var rangeCallbackSet: bool
    var running: bool

    ghost predicate Valid()
      reads this
    {
      |dataQueue| <= Fifo.QueueCapacity && |rangeQueue| <= Fifo.QueueCapacity
    }

    constructor()
      ensures Valid() && dataQueue == [] && rangeQueue == []
      ensures !tagCallbackSet && !rangeCallbackSet && !running
    {
      dataQueue := [];
      rangeQueue := [];
      tagCallbackSet := false;
      rangeCallbackSet := false;
      running := false;
    }

    /** start: true at once when already running; otherwise running exactly when the socket could be bound. */
    method Start(bindSucceeds: bool) returns (ok: bool)
      modifies this`running
      ensures ok == (old(running) || bindSucceeds) && running == ok
    {
      if running {
        return true;
      }
      running := bindSucceeds;
      return bindSucceeds;
    }

    /** stop: the receiver is no longer running; queued data stays. */
    method Stop()
      modifies this`running
      ensures !running
    {
      running := false;
    }

    method SetCallback()
      modifies this`tagCallbackSet
      ensures tagCallbackSet
    {
      tagCallbackSet := true;
    }

    method SetRangeCallback()
      modifies this`rangeCallbackSet
      ensures rangeCallbackSet
    {
      rangeCallbackSet := true;
    }

    /** put_nowait on the tag queue, dropping the oldest item when it is full. */
    method PutTag(t: TagData)
      requires Valid()
      modifies this`dataQueue
      ensures Valid() && dataQueue == Fifo.Offer(old(dataQueue), t, Fifo.QueueCapacity)
    {
      if |dataQueue| < Fifo.QueueCapacity {
        dataQueue := dataQueue + [t];
      } else {
        dataQueue := dataQueue[1..] + [t];
      }
    }

    /** put_nowait on the range queue, dropping the oldest item when it is full. */
    method PutRange(r: RangeData)
      requires Valid()
      modifies this`rangeQueue
      ensures Valid() && rangeQueue == Fifo.Offer(old(rangeQueue), r, Fifo.QueueCapacity)
    {
      if |rangeQueue| < Fifo.QueueCapacity {
        rangeQueue := rangeQueue + [r];
      } else {
        rangeQueue := rangeQueue[1..] + [r];
      }
    }

    /**
     * _process_data on a decoded datagram: the records go to their queues in order, each one
     * followed by its callback when one is set (the records the callbacks see are returned).
     */
    method ProcessData(payload: JValue, timestamp: real) returns (tagCalls: seq<TagData>, rangeCalls: seq<RangeData>)
      requires Valid()
      modifies this`dataQueue, this`rangeQueue
      ensures Valid()
      ensures dataQueue == Fifo.KeepNewest(old(dataQueue) + TagItems(payload, timestamp), Fifo.QueueCapacity)
      ensures rangeQueue == Fifo.KeepNewest(old(rangeQueue) + RangeItems(payload, timestamp), Fifo.QueueCapacity)
      ensures tagCalls == if tagCallbackSet then TagItems(payload, timestamp) else []
      ensures rangeCalls == if rangeCallbackSet then RangeItems(payload, timestamp) else []
    {
      tagCalls, rangeCalls := [], [];
      Fifo.KeepNewestWithin(dataQueue, Fifo.QueueCapacity);
      Fifo.KeepNewestWithin(rangeQueue, Fifo.QueueCapacity);
      OneCommand(payload);
      if CommandIs(payload, "UpLink") {
        assert RangeItems(payload, timestamp) == [];
        var t := UpLinkRecord(payload, timestamp);
        if t.Ok? {
          PutTag(t.value);
          assert [t.value] == TagItems(payload, timestamp);
          if tagCallbackSet {
            tagCalls := [t.value];
          }
        }
      } else if CommandIs(payload, "AnchorRange") {
        assert TagItems(payload, timestamp) == [];
        var r := RangeRecord(payload, "AnchorI", "AnchorJ", timestamp);
        if r.Ok? {
          PutRange(r.value);
          assert [r.value] == RangeItems(payload, timestamp);
          if rangeCallbackSet {
            rangeCalls := [r.value];
          }
        }
      } else if CommandIs(payload, "RangeData") {
        assert TagItems(payload, timestamp) == [];
        var ranges := Get(payload, "Ranges", JArr([]));
        var elements := if ranges.Ok? then RangeElements(ranges.value) else Err(AttributeError);
        if elements.Ok? {
          assert RangeItems(payload, timestamp) == ElementRecords(elements.value, timestamp);
          rangeCalls := PutElements(elements.value, timestamp);
        }
      }
    }

    /** The `for r in ranges` loop: enqueue each element's record until one raises. */
    method PutElements(elements: seq<JValue>, timestamp: real) returns (calls: seq<RangeData>)
      requires Valid()
      modifies this`rangeQueue
      ensures Valid()
      ensures rangeQueue == Fifo.KeepNewest(old(rangeQueue) + ElementRecords(elements, timestamp), Fifo.QueueCapacity)
      ensures calls == if rangeCallbackSet then ElementRecords(elements, timestamp) else []
    {
      calls := [];
      Fifo.KeepNewestWithin(rangeQueue, Fifo.QueueCapacity);
      var i := 0;
      while i < |elements|
        invariant 0 <= i <= |elements| && |ElementRecords(elements[..i], timestamp)| == i
        invariant Delivered(old(rangeQueue), ElementRecords(elements[..i], timestamp), calls)
      {
        var rec := RangeRecord(elements[i], "I", "J", timestamp);
        ghost var done := ElementRecords(elements[..i], timestamp);
        if rec.Err? {
          RecordsStop(elements, i, timestamp);
          break;
        }
        RecordsGrow(elements, i, timestamp);
        calls := PutDelivered(old(rangeQueue), done, calls, rec.value);
        i := i + 1;
      }
      assert elements[..|elements|] == elements;
    }

    /** The range queue holds the newest of q0 then done, and the callback has seen done when set. */
    ghost predicate Delivered(q0: seq<RangeData>, done: seq<RangeData>, calls: seq<RangeData>)
      reads this
    {
      Valid()
      && rangeQueue == Fifo.KeepNewest(q0 + done, Fifo.QueueCapacity)
      && calls == if rangeCallbackSet then done else []
    }

    /** One record of the loop: enqueued, then handed to the callback when one is set. */
    method PutDelivered(ghost q0: seq<RangeData>, ghost done: seq<RangeData>, calls: seq<RangeData>, r: RangeData)
        returns (calls': seq<RangeData>)
      requires Delivered(q0, done, calls)
      modifies this`rangeQueue
      ensures Delivered(q0, done + [r], calls')
    {
      PutRange(r);
      Fifo.OfferOne(q0, done, r, Fifo.QueueCapacity);
      calls' := if rangeCallbackSet then calls + [r] else calls;
    }

    /** get_latest_data: drains the tag queue and returns its newest item, or None. */
    method GetLatestData() returns (latest: Option<TagData>)
      requires Valid()
      modifies this`dataQueue
      ensures Valid() && dataQueue == []
      ensures latest == if old(dataQueue) == [] then None else Some(old(dataQueue)[|old(dataQueue)| - 1])
    {
      latest := Fifo.DrainLast(dataQueue);
      dataQueue := [];
    }

    /** get_all_data: every queued tag record, oldest first; the queue is left empty. */
    method GetAllData() returns (items: seq<TagData>)
      requires Valid()
      modifies this`dataQueue
      ensures Valid() && items == old(dataQueue) && dataQueue == []
    {
      items := Fifo.DrainAll(dataQueue);
      dataQueue := [];
    }

    /** get_latest_range: drains the range queue and returns its newest item, or None. */
    method GetLatestRange() returns (latest: Option<RangeData>)
      requires Valid()
      modifies this`rangeQueue
      ensures Valid() && rangeQueue == []
      ensures latest == if old(rangeQueue) == [] then None else Some(old(rangeQueue)[|old(rangeQueue)| - 1])
    {
      latest := Fifo.DrainLast(rangeQueue);
      rangeQueue := [];
    }

    /** get_all_ranges: every queued range record, oldest first; the queue is left empty. */
    method GetAllRanges() returns (items: seq<RangeData>)
      requires Valid()
      modifies this`rangeQueue
      ensures Valid() && items == old(rangeQueue) && rangeQueue == []
    {
      items := Fifo.DrainAll(rangeQueue);
      rangeQueue := [];
    }
  }

  /** While every element so far has read without raising, the next one that reads extends the records. */
  lemma {:induction false} RecordsGrow(elements: seq<JValue>, i: nat, timestamp: real)
    requires i < |elements| && |ElementRecords(elements[..i], timestamp)| == i
    requires RangeRecord(elements[i], "I", "J", timestamp).Ok?
    ensures ElementRecords(elements[..i + 1], timestamp)
      == ElementRecords(elements[..i], timestamp) + [RangeRecord(elements[i], "I", "J", timestamp).value]
  {
    if i > 0 {
      assert elements[..i + 1][1..] == elements[1..][..i];
      assert elements[..i][1..] == elements[1..][..i - 1];
      assert RangeRecord(elements[0], "I", "J", timestamp).Ok?;
      RecordsGrow(elements[1..], i - 1, timestamp);
    } else {
      assert elements[..1] == [elements[0]];
    }
  }

  /** The first element that raises ends the records: nothing from it on is enqueued. */
  lemma {:induction false} RecordsStop(elements: seq<JValue>, i: nat, timestamp: real)
    requires i < |elements| && |ElementRecords(elements[..i], timestamp)| == i
    requires RangeRecord(elements[i], "I", "J", timestamp).Err?
    ensures ElementRecords(elements, timestamp) == ElementRecords(elements[..i], timestamp)
  {
    if i > 0 {
      assert elements[..i][1..] == elements[1..][..i - 1];
      assert RangeRecord(elements[0], "I", "J", timestamp).Ok?;
      RecordsStop(elements[1..], i - 1, timestamp);
    }
  }
}
