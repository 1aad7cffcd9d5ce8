/**
 * The GNSS receiver fed by the TCP server: validation of one decoded message, the latest record
 * per client id, the capacity-100 drop-oldest queue with its draining read, and the anchor
 * queries over client ids 0, 1 and 2. The ZMQ socket and the thread are left out: a message
 * arrives here as the value recv_json returned.
 */
module GnssReceiver {
  import opened Wrappers
  import opened Json
  import Fifo

  const ZmqConnectAddr: string := "tcp://127.0.0.1:5555"

  /** The client ids of the three anchors. */
  const AnchorIds: seq<int> := [0, 1, 2]

  /** GNSSData. */
  datatype GnssData = GnssData(clientId: int, lat: real, lng: real, alt: real, timestamp: real)

  /**
   * _process_data up to the store: Ok(None) when one of client_id, lat, lng is missing (the
   * message is rejected), Err for an exception the handler swallows, otherwise the record, with
   * alt defaulting to 0.0.
   */
  function ReadMessage(msg: JValue, timestamp: real): (r: Result<Option<GnssData>>)
    ensures r.Ok? && r.value.Some? ==> r.value.value.timestamp == timestamp
  {
    match ContainsAll(msg, ["client_id", "lat", "lng"])
    case Err(e) => Err(e)
    case Ok(false) => Ok(None)
    case Ok(true) =>
      match Index(msg, "client_id")
      case Err(e) => Err(e)
      case Ok(idValue) =>
        match PyInt(idValue)
        case Err(e) => Err(e)
        case Ok(id) =>
          match FloatAt(msg, "lat")
          case Err(e) => Err(e)
          case Ok(lat) =>
            match FloatAt(msg, "lng")
            case Err(e) => Err(e)
            case Ok(lng) =>
              match Get(msg, "alt", JFloat(0.0))
              case Err(e) => Err(e)
              case Ok(altValue) =>
                match PyFloat(altValue)
                case Err(e) => Err(e)
                case Ok(alt) => Ok(Some(GnssData(id, lat, lng, alt, timestamp)))
  }

  /** The record a message stores, or None when it is rejected or raises. */
  function Accepted(msg: JValue, timestamp: real): Option<GnssData>
  {
    match ReadMessage(msg, timestamp)
    case Ok(Some(d)) => Some(d)
    case _ => None
  }

  /** A message without one of the three required keys is rejected. */
  lemma MissingFieldRejected(fields: map<string, JValue>, timestamp: real)
    requires !("client_id" in fields && "lat" in fields && "lng" in fields)
    ensures ReadMessage(JObj(fields), timestamp) == Ok(None)
    ensures Accepted(JObj(fields), timestamp) == None
  {
  }

  /** A message with numeric fields is stored as they are; a missing alt reads as 0.0. */
  lemma NumericMessageAccepted(fields: map<string, JValue>, id: int, lat: real, lng: real, timestamp: real)
    requires "client_id" in fields && fields["client_id"] == JInt(id)
    requires "lat" in fields && fields["lat"] == JFloat(lat)
    requires "lng" in fields && fields["lng"] == JFloat(lng)
    requires "alt" !in fields || fields["alt"].JFloat?
    ensures Accepted(JObj(fields), timestamp)
      == Some(GnssData(id, lat, lng, if "alt" in fields then fields["alt"].f else 0.0, timestamp))
  {
    assert ContainsAll(JObj(fields), ["client_id", "lat", "lng"]) == Ok(true);
  }

  /** Only an object can be stored: `in` or indexing on anything else ends in an exception or a rejection. */
  lemma NonObjectNotStored(msg: JValue, timestamp: real)
    requires !msg.JObj?
    ensures Accepted(msg, timestamp) == None
  {
    match ContainsAll(msg, ["client_id", "lat", "lng"])
    case Err(_) =>
    case Ok(b) =>
      if b {
        assert Index(msg, "client_id").Err?;
      }
  }

  /** The receiver's table, queue and callback registration; the socket and thread are left out. */
  class Receiver {
    const zmqAvailable: bool
    var latest: map<int, GnssData>
    var queue: seq<GnssData>
    var callbackSet: bool
    var running: bool

    ghost predicate Valid()
      reads this
    {
      |queue| <= Fifo.QueueCapacity
    }

    constructor(hasZmq: bool)
      ensures Valid() && zmqAvailable == hasZmq
      ensures latest == map[] && queue == [] && !callbackSet && !running
    {
      zmqAvailable := hasZmq;
      latest := map[];
      queue := [];
      callbackSet := false;
      running := false;
    }

    /** start: false without pyzmq; true at once when running; otherwise running exactly when the connect succeeded. */
    method Start(connectSucceeds: bool) returns (ok: bool)
      modifies this`running
      ensures ok == (zmqAvailable && (old(running) || connectSucceeds))
      ensures running == if zmqAvailable then ok else old(running)
    {
      if !zmqAvailable {
        return false;
      }
      if running {
        return true;
      }
      running := connectSucceeds;
      return connectSucceeds;
    }

    /** stop: the receiver is no longer running; stored data stays. */
    method Stop()
      modifies this`running
      ensures !running
    {
      running := false;
    }

    method SetCallback()
      modifies this`callbackSet
      ensures callbackSet
    {
      callbackSet := true;
    }

    /**
     * _process_data: a stored record overwrites its client's entry, is offered to the queue and
     * handed to the callback when one is set (the result); a rejected message changes nothing.
     */
    method ProcessData(msg: JValue, timestamp: real) returns (called: Option<GnssData>)
      requires Valid()
      modifies this`latest, this`queue
      ensures Valid()
      ensures Accepted(msg, timestamp).None? ==>
        latest == old(latest) && queue == old(queue) && called == None
      ensures Accepted(msg, timestamp).Some? ==>
        var d := Accepted(msg, timestamp).value;
        && latest == old(latest)[d.clientId := d]
        && queue == Fifo.Offer(old(queue), d, Fifo.QueueCapacity)
        && called == if callbackSet then Some(d) else None
    {
      called := None;
      var accepted := Accepted(msg, timestamp);
      if accepted.None? {
        return;
      }
      var d := accepted.value;
      latest := latest[d.clientId := d];
      Fifo.OfferProperties(queue, d, Fifo.QueueCapacity);
      if |queue| < Fifo.QueueCapacity {
        queue := queue + [d];
      } else {
        queue := queue[1..] + [d];
      }
      if callbackSet {
        called := Some(d);
      }
    }

    /**
     * get_latest_data: with a client id, that client's entry (the queue is untouched); without
     * one, the queue is drained and its newest item returned.
     */
    method GetLatestData(clientId: Option<int>) returns (r: Option<GnssData>)
      requires Valid()
      modifies this`queue
      ensures Valid()
      ensures clientId.Some? ==>
        queue == old(queue) && r == if clientId.value in latest then Some(latest[clientId.value]) else None
      ensures clientId.None? ==>
        queue == [] && r == if old(queue) == [] then None else Some(old(queue)[|old(queue)| - 1])
    {
      if clientId.Some? {
        return if clientId.value in latest then Some(latest[clientId.value]) else None;
      }
      r := Fifo.DrainLast(queue);
      queue := [];
    }

    /** get_anchor_data: the entry of one anchor id, through get_latest_data. */
    method GetAnchorData(anchorId: int) returns (r: Option<GnssData>)
      requires Valid()
      modifies this`queue
      ensures Valid() && queue == old(queue)
      ensures r == if anchorId in latest then Some(latest[anchorId]) else None
    {
      r := GetLatestData(Some(anchorId));
    }

    /** get_all_anchors: the entries of the anchor ids 0, 1 and 2 that are present. */
    function AllAnchors(): (m: map<int, GnssData>)
      reads this
      ensures forall i :: i in m <==> i in AnchorIds && i in latest
      ensures forall i :: i in m ==> m[i] == latest[i]
    {
      map i | i in AnchorIds && i in latest :: latest[i]
    }

    /** has_all_anchors: every anchor id has an entry. */
    predicate HasAllAnchors()
      reads this
    {
      forall i :: i in AnchorIds ==> i in latest
    }

    /** has_all_anchors holds exactly when get_all_anchors returns all three ids. */
    lemma HasAllAnchorsIffComplete()
      ensures HasAllAnchors() <==> AllAnchors().Keys == {0, 1, 2}
      ensures HasAllAnchors() <==> 0 in latest && 1 in latest && 2 in latest
    {
      var m := AllAnchors();
      if m.Keys == {0, 1, 2} {
        assert 0 in m && 1 in m && 2 in m;
      }
      if HasAllAnchors() {
        assert forall i :: i in m.Keys <==> i in {0, 1, 2};
      }
    }
  }
}
