/**
 * The tracking state of the desktop application: the start-line timing record, the smoothed speed
 * of the tag over the last ten UWB packets, the crossing latch, the three GNSS anchor slots with
 * their one-shot calibration, and the time-to-line readout. The widgets, the maps, the receivers'
 * threads and the clock are left out: the time of a packet is a parameter.
 */
module MainApp {
  import opened Wrappers
  import opened Numerics
  import opened Models
  import CT = CoordinateTransform
  import Fifo
  import UdpReceiver
  import GnssReceiver

  /** The moving-average window of the speed readout. */
  const SpeedWindow: nat := 10
  /** A packet gap of this many seconds or more gives no speed sample. */
  const MaxPacketGap: real := 1.0
  /** Below this speed no time to the line is shown. */
  const MinSpeedForEta: real := 0.01
  /** A time to the line of this many seconds or more is not shown. */
  const MaxTimeToLine: real := 1000.0
  /** The anchor layout the application starts with. */
  const DefaultUwbAnchors: seq<Vector3> := [Vector3(0.0, 0.0, 0.0), Vector3(25.0, 0.0, 0.0), Vector3(12.5, 10.0, 0.0)]
  /** The number of GNSS anchor slots (client ids 0, 1 and 2). */
  const AnchorSlots: nat := 3

  /** TimingStats: the start, end and crossing times of one run, each unset until recorded. */
  class TimingStats {
    var startTime: Option<real>
    var endTime: Option<real>
    var crossingTime: Option<real>

    constructor ()
      ensures startTime.None? && endTime.None? && crossingTime.None?
    {
      startTime := None;
      endTime := None;
      crossingTime := None;
    }

    /** reset: all three times are unset again. */
    method Reset()
      modifies this
      ensures startTime.None? && endTime.None? && crossingTime.None?
    {
      startTime := None;
      endTime := None;
      crossingTime := None;
    }
  }

  // ---------------------------------------------------------------------------------------------
  // Speed smoothing

  /** Append a sample and drop the oldest one when the history grows past the window. */
  function PushSpeed(history: seq<real>, v: real): (r: seq<real>)
    ensures |r| > 0 && r[|r| - 1] == v
  {
    var h := history + [v];
    if |h| > SpeedWindow then h[1..] else h
  }

  /** Within the window, pushing a sample keeps exactly the ten newest samples. */
  lemma PushSpeedKeepsNewest(history: seq<real>, v: real)
    requires |history| <= SpeedWindow
    ensures PushSpeed(history, v) == Fifo.Offer(history, v, SpeedWindow)
    ensures |PushSpeed(history, v)| <= SpeedWindow
  {
  }

  /** Keeping the newest items twice is keeping them once over the whole run. */
  lemma KeepNewestTwice(a: seq<real>, b: seq<real>, cap: nat)
    ensures Fifo.KeepNewest(Fifo.KeepNewest(a, cap) + b, cap) == Fifo.KeepNewest(a + b, cap)
  {
    var k := Fifo.KeepNewest(a, cap);
    Fifo.OfferAllKeepsNewest(k, b, cap);
    Fifo.KeepNewestWithin(k, cap);
    Fifo.OfferAllKeepsNewest(a, b, cap);
  }

  /** A sum of non-negative samples is non-negative. */
  lemma {:induction false} SumNonNegative(xs: seq<real>)
    requires forall i :: 0 <= i < |xs| ==> 0.0 <= xs[i]
    ensures 0.0 <= Sum(xs)
  {
    if xs != [] {
      SumNonNegative(xs[..|xs| - 1]);
    }
  }

  /** The XY projection the line checks use. */
  function XY(p: Vector3): (real, real)
  {
    (p.x, p.y)
  }

  /** The planar speed between two packets `dt` seconds apart. */
  function InstantSpeed(sqrt: real -> real, from: Vector3, to: Vector3, dt: real): (r: real)
    requires dt > 0.0
    ensures IsSqrt(sqrt) ==> 0.0 <= r
    ensures r * dt == Hypot(sqrt, to.x - from.x, to.y - from.y)
  {
    var d := Hypot(sqrt, to.x - from.x, to.y - from.y);
    assert IsSqrt(sqrt) ==> 0.0 <= d by {
      if IsSqrt(sqrt) {
        SumOfSquaresPositive(to.x - from.x, to.y - from.y);
      }
    }
    d / dt
  }

  // ---------------------------------------------------------------------------------------------
  // One UWB packet

  /** The part of the application state a UWB packet reads and writes (timing fields included). */
  datatype Track = Track(
    tagPos: Option<Vector3>,
    prevTagPos: Option<Vector3>,
    lastDataTime: Option<real>,
    speedHistory: seq<real>,
    currentSpeed: real,
    hasCrossed: bool,
    crossingTime: Option<real>,
    endTime: Option<real>,
    dataCount: int)

  /** The state before the first packet. */
  const InitialTrack: Track := Track(None, None, None, [], 0.0, false, None, None, 0)

  /** The invariant every reachable track keeps. */
  predicate TrackValid(t: Track)
  {
    && |t.speedHistory| <= SpeedWindow
    && (forall i :: 0 <= i < |t.speedHistory| ==> 0.0 <= t.speedHistory[i])
    && (t.speedHistory == [] ==> t.currentSpeed == 0.0)
    && (t.speedHistory != [] ==> t.currentSpeed == Mean(t.speedHistory))
    && (t.hasCrossed <==> t.crossingTime.Some?)
    && t.endTime == t.crossingTime
    && (t.tagPos.Some? <==> t.lastDataTime.Some?)
    && (t.tagPos.None? ==> t.speedHistory == [] && t.prevTagPos.None?)
  }

  /** A packet at time `now` yields a speed sample: a previous packet exists and the gap is in (0, 1). */
  predicate SpeedSampled(t: Track, now: real)
  {
    t.tagPos.Some? && t.lastDataTime.Some? && 0.0 < now - t.lastDataTime.value < MaxPacketGap
  }

  /** The speed sample of a packet at `p`, when it yields one. */
  function Sample(sqrt: real -> real, t: Track, p: Vector3, now: real): real
    requires SpeedSampled(t, now)
  {
    InstantSpeed(sqrt, t.tagPos.value, p, now - t.lastDataTime.value)
  }

  /** The crossing check runs only with a previous position and an unset latch. */
  predicate Fires(sqrt: real -> real, line: ((real, real), (real, real)), t: Track, p: Vector3)
  {
    t.tagPos.Some? && !t.hasCrossed && CT.CheckLineCrossing(sqrt, XY(t.tagPos.value), XY(p), line.0, line.1)
  }

  /** The speed history and readout after a packet at `p` arriving at time `now`. */
  function SpeedAfter(sqrt: real -> real, t: Track, p: Vector3, now: real): (seq<real>, real)
  {
    if SpeedSampled(t, now) then
      var h := PushSpeed(t.speedHistory, Sample(sqrt, t, p, now));
      (h, Mean(h))
    else if t.tagPos.None? then (t.speedHistory, 0.0)
    else (t.speedHistory, t.currentSpeed)
  }

  /** _process_uwb_data on the tracking state, for a packet at `p` arriving at time `now`. */
  function Packet(sqrt: real -> real, line: ((real, real), (real, real)), t: Track, p: Vector3, now: real): Track
  {
    var speed := SpeedAfter(sqrt, t, p, now);
    var fires := Fires(sqrt, line, t, p);
    Track(Some(p), t.tagPos, Some(now), speed.0, speed.1,
          t.hasCrossed || fires,
          if fires then Some(now) else t.crossingTime,
          if fires then Some(now) else t.endTime,
          t.dataCount + 1)
  }

  /**
   * The speed rule: a sample in (0, 1) seconds is appended to the ten newest and the readout
   * becomes the mean of the window; the first packet resets the readout to zero; any other
   * packet leaves both alone.
   */
  lemma SpeedRule(sqrt: real -> real, t: Track, p: Vector3, now: real)
    requires |t.speedHistory| <= SpeedWindow
    ensures var (h, speed) := SpeedAfter(sqrt, t, p, now);
      && (SpeedSampled(t, now) ==>
            && h == Fifo.Offer(t.speedHistory, Sample(sqrt, t, p, now), SpeedWindow)
            && h[|h| - 1] * (now - t.lastDataTime.value) == Hypot(sqrt, p.x - t.tagPos.value.x, p.y - t.tagPos.value.y)
            && speed == Mean(h))
      && (t.tagPos.None? ==> h == t.speedHistory && speed == 0.0)
      && (t.tagPos.Some? && !SpeedSampled(t, now) ==> h == t.speedHistory && speed == t.currentSpeed)
  {
    if SpeedSampled(t, now) {
      PushSpeedKeepsNewest(t.speedHistory, Sample(sqrt, t, p, now));
    }
  }

  /** A packet records its position, the previous one, its time and one more packet; its speed fields follow SpeedAfter. */
  lemma PacketFields(sqrt: real -> real, line: ((real, real), (real, real)), t: Track, p: Vector3, now: real)
    ensures var r := Packet(sqrt, line, t, p, now);
      && r.tagPos == Some(p) && r.prevTagPos == t.tagPos && r.lastDataTime == Some(now)
      && r.dataCount == t.dataCount + 1
      && (r.speedHistory, r.currentSpeed) == SpeedAfter(sqrt, t, p, now)
  {
  }

  /** The first half of a packet: position, counter, speed and packet time. */
  function Recorded(sqrt: real -> real, t: Track, p: Vector3, now: real): Track
  {
    var speed := SpeedAfter(sqrt, t, p, now);
    t.(tagPos := Some(p), prevTagPos := t.tagPos, lastDataTime := Some(now),
       speedHistory := speed.0, currentSpeed := speed.1, dataCount := t.dataCount + 1)
  }

  /** The second half of a packet: the crossing check on the previous and the new position. */
  function Latched(sqrt: real -> real, line: ((real, real), (real, real)), t: Track, p: Vector3, now: real): Track
  {
    var fires := t.prevTagPos.Some? && !t.hasCrossed
                 && CT.CheckLineCrossing(sqrt, XY(t.prevTagPos.value), XY(p), line.0, line.1);
    t.(hasCrossed := t.hasCrossed || fires,
       crossingTime := if fires then Some(now) else t.crossingTime,
       endTime := if fires then Some(now) else t.endTime)
  }

  /** A packet is its first half followed by its second. */
  lemma PacketInTwoSteps(sqrt: real -> real, line: ((real, real), (real, real)), t: Track, p: Vector3, now: real)
    ensures Latched(sqrt, line, Recorded(sqrt, t, p, now), p, now) == Packet(sqrt, line, t, p, now)
  {
  }

  /**
   * The crossing latch: once set, a packet keeps it and both recorded times; while unset it is
   * set exactly when a previous position exists and check_line_crossing holds, and then the
   * crossing and end times are the packet's time.
   */
  lemma PacketLatch(sqrt: real -> real, line: ((real, real), (real, real)), t: Track, p: Vector3, now: real)
    ensures var r := Packet(sqrt, line, t, p, now);
      && (t.hasCrossed ==> r.hasCrossed && r.crossingTime == t.crossingTime && r.endTime == t.endTime)
      && (!t.hasCrossed ==>
            (r.hasCrossed <==> t.tagPos.Some? && CT.CheckLineCrossing(sqrt, XY(t.tagPos.value), XY(p), line.0, line.1)))
      && (!t.hasCrossed && r.hasCrossed ==> r.crossingTime == Some(now) && r.endTime == Some(now))
      && (!r.hasCrossed ==> r.crossingTime == t.crossingTime && r.endTime == t.endTime)
  {
  }

  /** Every packet keeps the track invariant: the window bound, the mean readout, the latch and its times. */
  lemma PacketKeepsValid(sqrt: real -> real, line: ((real, real), (real, real)), t: Track, p: Vector3, now: real)
    requires IsSqrt(sqrt) && TrackValid(t)
    ensures TrackValid(Packet(sqrt, line, t, p, now))
  {
    if SpeedSampled(t, now) {
      var s := Sample(sqrt, t, p, now);
      assert 0.0 <= s;
      var h := PushSpeed(t.speedHistory, s);
      assert forall i :: 0 <= i < |h| ==> 0.0 <= h[i];
      assert SpeedAfter(sqrt, t, p, now) == (h, Mean(h));
    }
  }

  /** A run of packets, each a position and its arrival time. */
  function Replay(sqrt: real -> real, line: ((real, real), (real, real)), t: Track, packets: seq<(Vector3, real)>): Track
    decreases |packets|
  {
    if packets == [] then t
    else Replay(sqrt, line, Packet(sqrt, line, t, packets[0].0, packets[0].1), packets[1..])
  }

  /** The speed samples a run of packets records, in order. */
  function Samples(sqrt: real -> real, line: ((real, real), (real, real)), t: Track, packets: seq<(Vector3, real)>): seq<real>
    decreases |packets|
  {
    if packets == [] then []
    else
      FirstSample(sqrt, t, packets[0].0, packets[0].1) + Samples(sqrt, line, Packet(sqrt, line, t, packets[0].0, packets[0].1), packets[1..])
  }

  /** A run of packets keeps the track invariant. */
  lemma {:induction false} ReplayKeepsValid(sqrt: real -> real, line: ((real, real), (real, real)), t: Track, packets: seq<(Vector3, real)>)
    requires IsSqrt(sqrt) && TrackValid(t)
    ensures TrackValid(Replay(sqrt, line, t, packets))
    decreases |packets|
  {
    if packets != [] {
      PacketKeepsValid(sqrt, line, t, packets[0].0, packets[0].1);
      ReplayKeepsValid(sqrt, line, Packet(sqrt, line, t, packets[0].0, packets[0].1), packets[1..]);
    }
  }

  /** Once the latch is set, no run of packets clears it or moves the recorded crossing time. */
  lemma {:induction false} ReplayKeepsLatch(sqrt: real -> real, line: ((real, real), (real, real)), t: Track, packets: seq<(Vector3, real)>)
    requires t.hasCrossed
    ensures Replay(sqrt, line, t, packets).hasCrossed
    ensures Replay(sqrt, line, t, packets).crossingTime == t.crossingTime
    ensures Replay(sqrt, line, t, packets).endTime == t.endTime
    decreases |packets|
  {
    if packets != [] {
      PacketLatch(sqrt, line, t, packets[0].0, packets[0].1);
      ReplayKeepsLatch(sqrt, line, Packet(sqrt, line, t, packets[0].0, packets[0].1), packets[1..]);
    }
  }

  /** The samples one packet contributes: its own speed sample, if any. */
  function FirstSample(sqrt: real -> real, t: Track, p: Vector3, now: real): seq<real>
  {
    if SpeedSampled(t, now) then [Sample(sqrt, t, p, now)] else []
  }

  /** One packet of a run, unfolded. */
  lemma ReplayUnfold(sqrt: real -> real, line: ((real, real), (real, real)), t: Track, packets: seq<(Vector3, real)>)
    requires packets != []
    ensures var t1 := Packet(sqrt, line, t, packets[0].0, packets[0].1);
      && Replay(sqrt, line, t, packets) == Replay(sqrt, line, t1, packets[1..])
      && Samples(sqrt, line, t, packets)
         == FirstSample(sqrt, t, packets[0].0, packets[0].1) + Samples(sqrt, line, t1, packets[1..])
  {
  }

  /** One packet moves its own sample, if any, from the pending samples into the window. */
  lemma WindowStep(sqrt: real -> real, line: ((real, real), (real, real)), t: Track, p: Vector3, now: real, rest: seq<real>)
    requires |t.speedHistory| <= SpeedWindow
    ensures var t1 := Packet(sqrt, line, t, p, now);
      && |t1.speedHistory| <= SpeedWindow
      && Fifo.KeepNewest(t1.speedHistory + rest, SpeedWindow)
         == Fifo.KeepNewest(t.speedHistory + (FirstSample(sqrt, t, p, now) + rest), SpeedWindow)
  {
    var t1 := Packet(sqrt, line, t, p, now);
    SpeedRule(sqrt, t, p, now);
    PacketFields(sqrt, line, t, p, now);
    if SpeedSampled(t, now) {
      var s := Sample(sqrt, t, p, now);
      assert t1.speedHistory == Fifo.KeepNewest(t.speedHistory + [s], SpeedWindow);
      KeepNewestTwice(t.speedHistory + [s], rest, SpeedWindow);
      assert t.speedHistory + [s] + rest == t.speedHistory + ([s] + rest);
    } else {
      assert t1.speedHistory == t.speedHistory;
      assert FirstSample(sqrt, t, p, now) + rest == rest;
    }
  }

  /** After any run the speed history holds exactly the ten newest samples ever recorded. */
  lemma {:induction false} ReplayWindow(sqrt: real -> real, line: ((real, real), (real, real)), t: Track, packets: seq<(Vector3, real)>)
    requires |t.speedHistory| <= SpeedWindow
    ensures Replay(sqrt, line, t, packets).speedHistory
            == Fifo.KeepNewest(t.speedHistory + Samples(sqrt, line, t, packets), SpeedWindow)
    decreases |packets|
  {
    if packets == [] {
      assert t.speedHistory + [] == t.speedHistory;
      Fifo.KeepNewestWithin(t.speedHistory, SpeedWindow);
    } else {
      var t1 := Packet(sqrt, line, t, packets[0].0, packets[0].1);
      var rest := Samples(sqrt, line, t1, packets[1..]);
      ReplayUnfold(sqrt, line, t, packets);
      WindowStep(sqrt, line, t, packets[0].0, packets[0].1, rest);
      ReplayWindow(sqrt, line, t1, packets[1..]);
    }
  }

  // ---------------------------------------------------------------------------------------------
  // GNSS anchor slots

  /** The GNSS part of the application state: the anchor slots, the calibrated flag, the direct tag position. */
  datatype GnssSlots = GnssSlots(anchors: seq<Option<CT.GnssPosition>>, calibrated: bool, directTag: Option<CT.GnssPosition>)

  predicate AllPresent(slots: seq<Option<CT.GnssPosition>>)
  {
    forall i :: 0 <= i < |slots| ==> slots[i].Some?
  }

  /** Reachable slot states: three slots, and all three filled only once the flag is set. */
  predicate SlotsValid(g: GnssSlots)
  {
    |g.anchors| == AnchorSlots && (AllPresent(g.anchors) ==> g.calibrated)
  }

  function PositionOf(d: GnssReceiver.GnssData): CT.GnssPosition
  {
    CT.GnssPosition(d.lat, d.lng, d.alt)
  }

  /** _on_gnss_data on the slots, together with whether it schedules auto-calibration. */
  function OnGnss(g: GnssSlots, d: GnssReceiver.GnssData): (GnssSlots, bool)
    requires |g.anchors| == AnchorSlots
  {
    if 0 <= d.clientId < AnchorSlots then
      var anchors := g.anchors[d.clientId := Some(PositionOf(d))];
      if !g.calibrated && AllPresent(anchors) then (GnssSlots(anchors, true, g.directTag), true)
      else (GnssSlots(anchors, g.calibrated, g.directTag), false)
    else
      (g.(directTag := Some(PositionOf(d))), false)
  }

  /**
   * An anchor id fills its own slot and touches nothing else; any other id only replaces the
   * direct tag position. Calibration is scheduled exactly when the flag was clear and the slots
   * are now all filled, and the flag is never cleared.
   */
  lemma OnGnssSlots(g: GnssSlots, d: GnssReceiver.GnssData)
    requires SlotsValid(g)
    ensures var (r, scheduled) := OnGnss(g, d);
      && SlotsValid(r)
      && (0 <= d.clientId < AnchorSlots ==>
            && r.anchors[d.clientId] == Some(PositionOf(d))
            && (forall i :: 0 <= i < AnchorSlots && i != d.clientId ==> r.anchors[i] == g.anchors[i])
            && r.directTag == g.directTag)
      && (!(0 <= d.clientId < AnchorSlots) ==>
            r.anchors == g.anchors && r.directTag == Some(PositionOf(d)) && r.calibrated == g.calibrated)
      && (scheduled <==> !g.calibrated && r.calibrated)
      && (g.calibrated ==> r.calibrated)
  {
  }

  /** A run of GNSS messages: the final slots and how many times calibration was scheduled. */
  function GnssRun(g: GnssSlots, ds: seq<GnssReceiver.GnssData>): (GnssSlots, nat)
    requires |g.anchors| == AnchorSlots
    decreases |ds|
  {
    if ds == [] then (g, 0)
    else
      var (g1, scheduled) := OnGnss(g, ds[0]);
      var (last, n) := GnssRun(g1, ds[1..]);
      (last, n + if scheduled then 1 else 0)
  }

  /**
   * Auto-calibration is scheduled at most once over any run, and exactly once when the run
   * takes the flag from clear to set, which happens exactly when all three slots end up filled.
   */
  lemma {:induction false} ScheduledOnce(g: GnssSlots, ds: seq<GnssReceiver.GnssData>)
    requires SlotsValid(g)
    ensures var (r, n) := GnssRun(g, ds);
      && SlotsValid(r)
      && n <= 1
      && (n == 1 <==> !g.calibrated && r.calibrated)
      && (r.calibrated <==> g.calibrated || AllPresent(r.anchors))
    decreases |ds|
  {
    if ds != [] {
      OnGnssSlots(g, ds[0]);
      var (g1, scheduled) := OnGnss(g, ds[0]);
      ScheduledOnce(g1, ds[1..]);
      var (r, n) := GnssRun(g1, ds[1..]);
      if g1.calibrated && !g.calibrated {
        assert AllPresent(g1.anchors);
        assert AllPresent(r.anchors) by {
          SlotsStayFilled(g1, ds[1..]);
        }
      }
    }
  }

  /** Slots are only ever filled, never emptied. */
  lemma {:induction false} SlotsStayFilled(g: GnssSlots, ds: seq<GnssReceiver.GnssData>)
    requires |g.anchors| == AnchorSlots && AllPresent(g.anchors)
    ensures |GnssRun(g, ds).0.anchors| == AnchorSlots && AllPresent(GnssRun(g, ds).0.anchors)
    decreases |ds|
  {
    if ds != [] {
      var (g1, _) := OnGnss(g, ds[0]);
      assert AllPresent(g1.anchors);
      SlotsStayFilled(g1, ds[1..]);
    }
  }

  /** The filled slots in order, as `[a for a in self.gnss_anchors if a is not None]`. */
  function Present(slots: seq<Option<CT.GnssPosition>>): (r: seq<CT.GnssPosition>)
    ensures |r| <= |slots|
    ensures AllPresent(slots) ==> |r| == |slots| && forall i :: 0 <= i < |r| ==> r[i] == slots[i].value
    ensures !AllPresent(slots) ==> |r| < |slots|
  {
    if slots == [] then []
    else
      var rest := Present(slots[1..]);
      assert AllPresent(slots) ==> AllPresent(slots[1..]) by {
        if AllPresent(slots) {
          forall i | 0 <= i < |slots[1..]| ensures slots[1..][i].Some? {
            assert slots[1..][i] == slots[i + 1];
          }
        }
      }
      assert !AllPresent(slots) && slots[0].Some? ==> !AllPresent(slots[1..]) by {
        if !AllPresent(slots) && slots[0].Some? {
          var i :| 0 <= i < |slots| && slots[i].None?;
          assert slots[1..][i - 1] == slots[i];
        }
      }
      if slots[0].Some? then [slots[0].value] + rest else rest
  }

  // ---------------------------------------------------------------------------------------------
  // Time to the line

  /** The readouts of _update_metrics; None is the "--" placeholder. */
  datatype Metrics = Metrics(speed: real, distance: Option<real>, timeToLine: Option<real>)

  /** The time-to-line readout for a distance and a speed. */
  function TimeToLine(distance: real, speed: real): (r: Option<real>)
    ensures r.Some? ==> speed > MinSpeedForEta && r.value * speed == distance && r.value < MaxTimeToLine
  {
    if speed > MinSpeedForEta && distance / speed < MaxTimeToLine then Some(distance / speed) else None
  }

  /** The readout is shown exactly when the speed exceeds 0.01 and the line is under 1000 s away at that speed. */
  lemma TimeToLineShown(distance: real, speed: real)
    ensures TimeToLine(distance, speed).Some? <==> speed > MinSpeedForEta && distance < MaxTimeToLine * speed
    ensures 0.0 <= distance && TimeToLine(distance, speed).Some? ==> 0.0 <= TimeToLine(distance, speed).value
  {
    if speed > MinSpeedForEta {
      var q := distance / speed;
      assert q * speed == distance;
      assert q < MaxTimeToLine <==> q * speed < MaxTimeToLine * speed;
    }
  }

  // ---------------------------------------------------------------------------------------------
  // The application

  /** MainApplication, with the state the tracking logic reads and writes. */
  class App {
    const timing: TimingStats
    const transformer: CT.Transformer
    var uwbAnchors: seq<Vector3>
    var gnssAnchors: seq<Option<CT.GnssPosition>>
    var gnssCalibrated: bool
    var gnssDirectTagPos: Option<CT.GnssPosition>
    var uwbTagPos: Option<Vector3>
    var gnssTagPos: Option<CT.GnssPosition>
    var prevUwbTagPos: Option<Vector3>
    var lastUwbDataTime: Option<real>
    var speedHistory: seq<real>
    var currentSpeed: real
    var hasCrossed: bool
    var uwbDataCount: int

    /** The tracking state, timing fields included. */
    function Tracking(): Track
      reads this`uwbTagPos, this`prevUwbTagPos, this`lastUwbDataTime, this`speedHistory,
            this`currentSpeed, this`hasCrossed, this`uwbDataCount,
            timing`crossingTime, timing`endTime
    {
      Track(uwbTagPos, prevUwbTagPos, lastUwbDataTime, speedHistory, currentSpeed, hasCrossed,
            timing.crossingTime, timing.endTime, uwbDataCount)
    }

    function Slots(): GnssSlots
      reads this`gnssAnchors, this`gnssCalibrated, this`gnssDirectTagPos
    {
      GnssSlots(gnssAnchors, gnssCalibrated, gnssDirectTagPos)
    }

    /** The start line: anchors 0 and 1 in the XY plane. */
    function Line(): ((real, real), (real, real))
      requires |uwbAnchors| >= 2
      reads this`uwbAnchors
    {
      (XY(uwbAnchors[0]), XY(uwbAnchors[1]))
    }

    ghost predicate Valid()
      reads this`uwbAnchors, this`gnssAnchors, this`gnssCalibrated, this`gnssDirectTagPos,
            this`uwbTagPos, this`prevUwbTagPos, this`lastUwbDataTime, this`speedHistory,
            this`currentSpeed, this`hasCrossed, this`uwbDataCount,
            timing`crossingTime, timing`endTime, transformer
    {
      && |uwbAnchors| == AnchorSlots
      && SlotsValid(Slots())
      && TrackValid(Tracking())
      && transformer.Valid()
    }

    /** The initial state: default anchors, empty slots, no tag, no speed, latch clear. */
    constructor ()
      ensures Valid() && fresh(timing) && fresh(transformer)
      ensures uwbAnchors == DefaultUwbAnchors && Slots() == GnssSlots([None, None, None], false, None)
      ensures Tracking() == InitialTrack && gnssTagPos.None? && timing.startTime.None?
      ensures !transformer.isCalibrated
    {
      timing := new TimingStats();
      transformer := new CT.Transformer();
      uwbAnchors := DefaultUwbAnchors;
      gnssAnchors := [None, None, None];
      gnssCalibrated := false;
      gnssDirectTagPos := None;
      uwbTagPos := None;
      gnssTagPos := None;
      prevUwbTagPos := None;
      lastUwbDataTime := None;
      speedHistory := [];
      currentSpeed := 0.0;
      hasCrossed := false;
      uwbDataCount := 0;
      new;
      assert !AllPresent(gnssAnchors) by {
        assert gnssAnchors[0].None?;
      }
    }

    /** _on_gnss_data; the result says whether auto-calibration was scheduled. */
    method OnGnssData(d: GnssReceiver.GnssData) returns (scheduled: bool)
      requires Valid()
      modifies this`gnssAnchors, this`gnssCalibrated, this`gnssDirectTagPos
      ensures Valid()
      ensures (Slots(), scheduled) == OnGnss(old(Slots()), d)
    {
      scheduled := false;
      if 0 <= d.clientId < AnchorSlots {
        gnssAnchors := gnssAnchors[d.clientId := Some(PositionOf(d))];
        if !gnssCalibrated && AllPresent(gnssAnchors) {
          gnssCalibrated := true;
          scheduled := true;
        }
      } else {
        gnssDirectTagPos := Some(PositionOf(d));
      }
      OnGnssSlots(old(Slots()), d);
    }

    /**
     * _auto_calibrate: nothing while the flag is clear or a slot is empty (None); otherwise the
     * transformer is calibrated from the three UWB anchors and the three GNSS slots, and the
     * result is whether the fit succeeded.
     */
    method AutoCalibrate(fit: (seq<Vector3>, seq<CT.GnssPosition>) -> Option<CT.RigidTransform>) returns (attempt: Option<bool>)
      requires Valid()
      modifies transformer
      ensures Valid()
      ensures attempt.Some? <==> gnssCalibrated && AllPresent(gnssAnchors)
      ensures attempt.None? ==>
        && transformer.isCalibrated == old(transformer.isCalibrated) && transformer.rigid == old(transformer.rigid)
        && transformer.refGnss == old(transformer.refGnss)
        && transformer.uwbAnchors == old(transformer.uwbAnchors) && transformer.gnssAnchors == old(transformer.gnssAnchors)
      ensures attempt.Some? ==>
        && transformer.uwbAnchors == uwbAnchors
        && |transformer.gnssAnchors| == AnchorSlots
        && (forall i :: 0 <= i < AnchorSlots ==> transformer.gnssAnchors[i] == gnssAnchors[i].value)
        && transformer.refGnss == Some(gnssAnchors[0].value)
        && attempt.value == fit(uwbAnchors, transformer.gnssAnchors).Some?
        && (attempt.value ==> transformer.isCalibrated && transformer.rigid == fit(uwbAnchors, transformer.gnssAnchors))
        && (!attempt.value ==> transformer.isCalibrated == old(transformer.isCalibrated)
                               && transformer.rigid == old(transformer.rigid))
    {
      if !gnssCalibrated {
        return None;
      }
      var positions := Present(gnssAnchors);
      if |positions| >= 3 {
        var ok := transformer.Calibrate(fit, uwbAnchors, positions);
        assert uwbAnchors[..3] == uwbAnchors && positions[..3] == positions;
        return Some(ok);
      }
      return None;
    }

    /** _manual_calibrate: refused (None) until all three slots are filled; then the flag is set and calibration runs. */
    method ManualCalibrate(fit: (seq<Vector3>, seq<CT.GnssPosition>) -> Option<CT.RigidTransform>) returns (attempt: Option<bool>)
      requires Valid()
      modifies this`gnssCalibrated, transformer
      ensures Valid()
      ensures attempt.Some? <==> old(AllPresent(gnssAnchors))
      ensures gnssCalibrated == (old(gnssCalibrated) || AllPresent(gnssAnchors))
      ensures gnssAnchors == old(gnssAnchors)
      ensures attempt.None? ==>
        && transformer.isCalibrated == old(transformer.isCalibrated) && transformer.rigid == old(transformer.rigid)
        && transformer.refGnss == old(transformer.refGnss)
        && transformer.uwbAnchors == old(transformer.uwbAnchors) && transformer.gnssAnchors == old(transformer.gnssAnchors)
      ensures attempt.Some? ==>
        && transformer.uwbAnchors == uwbAnchors
        && |transformer.gnssAnchors| == AnchorSlots
        && (forall i :: 0 <= i < AnchorSlots ==> transformer.gnssAnchors[i] == gnssAnchors[i].value)
        && transformer.refGnss == Some(gnssAnchors[0].value)
        && attempt.value == fit(uwbAnchors, transformer.gnssAnchors).Some?
        && (attempt.value ==> transformer.isCalibrated && transformer.rigid == fit(uwbAnchors, transformer.gnssAnchors))
        && (!attempt.value ==> transformer.isCalibrated == old(transformer.isCalibrated)
                               && transformer.rigid == old(transformer.rigid))
    {
      if !AllPresent(gnssAnchors) {
        return None;
      }
      gnssCalibrated := true;
      attempt := AutoCalibrate(fit);
    }

    /**
     * set_gnss_anchors: the first three given positions fill slots 0, 1, 2 in order (slots past
     * the list keep their value); when all slots are then filled the flag is set and calibration
     * runs (the result), otherwise None.
     */
    method SetGnssAnchors(anchors: seq<CT.GnssPosition>, fit: (seq<Vector3>, seq<CT.GnssPosition>) -> Option<CT.RigidTransform>)
        returns (attempt: Option<bool>)
      requires Valid()
      modifies this`gnssAnchors, this`gnssCalibrated, transformer
      ensures Valid()
      ensures |gnssAnchors| == AnchorSlots
      ensures forall i :: 0 <= i < AnchorSlots ==>
        gnssAnchors[i] == if i < |anchors| then Some(anchors[i]) else old(gnssAnchors)[i]
      ensures gnssCalibrated == (old(gnssCalibrated) || AllPresent(gnssAnchors))
      ensures attempt.Some? <==> AllPresent(gnssAnchors)
      ensures attempt.None? ==>
        && transformer.isCalibrated == old(transformer.isCalibrated) && transformer.rigid == old(transformer.rigid)
        && transformer.refGnss == old(transformer.refGnss)
        && transformer.uwbAnchors == old(transformer.uwbAnchors) && transformer.gnssAnchors == old(transformer.gnssAnchors)
      ensures attempt.Some? ==>
        && transformer.uwbAnchors == uwbAnchors
        && |transformer.gnssAnchors| == AnchorSlots
        && (forall i :: 0 <= i < AnchorSlots ==> transformer.gnssAnchors[i] == gnssAnchors[i].value)
        && transformer.refGnss == Some(gnssAnchors[0].value)
        && attempt.value == fit(uwbAnchors, transformer.gnssAnchors).Some?
        && (attempt.value ==> transformer.isCalibrated && transformer.rigid == fit(uwbAnchors, transformer.gnssAnchors))
        && (!attempt.value ==> transformer.isCalibrated == old(transformer.isCalibrated)
                               && transformer.rigid == old(transformer.rigid))
    {
      var n := if |anchors| < AnchorSlots then |anchors| else AnchorSlots;
      for i := 0 to n
        modifies this`gnssAnchors
        invariant |gnssAnchors| == AnchorSlots
        invariant forall j :: 0 <= j < AnchorSlots ==>
          gnssAnchors[j] == if j < i then Some(anchors[j]) else old(gnssAnchors)[j]
      {
        gnssAnchors := gnssAnchors[i := Some(anchors[i])];
      }
      if AllPresent(gnssAnchors) {
        gnssCalibrated := true;
        attempt := AutoCalibrate(fit);
      } else {
        attempt := None;
      }
    }

    /** The settings dialog's OK: new UWB anchors, and a recalibration when the flag is set. */
    method ApplyAnchorSettings(anchors: seq<Vector3>, fit: (seq<Vector3>, seq<CT.GnssPosition>) -> Option<CT.RigidTransform>)
        returns (attempt: Option<bool>)
      requires Valid() && |anchors| == AnchorSlots
      modifies this`uwbAnchors, transformer
      ensures Valid() && uwbAnchors == anchors
      ensures attempt.Some? <==> gnssCalibrated && AllPresent(gnssAnchors)
      ensures gnssAnchors == old(gnssAnchors) && gnssCalibrated == old(gnssCalibrated)
      ensures attempt.None? ==>
        && transformer.isCalibrated == old(transformer.isCalibrated) && transformer.rigid == old(transformer.rigid)
        && transformer.refGnss == old(transformer.refGnss)
        && transformer.uwbAnchors == old(transformer.uwbAnchors) && transformer.gnssAnchors == old(transformer.gnssAnchors)
      ensures attempt.Some? ==>
        && transformer.uwbAnchors == anchors
        && |transformer.gnssAnchors| == AnchorSlots
        && (forall i :: 0 <= i < AnchorSlots ==> transformer.gnssAnchors[i] == gnssAnchors[i].value)
        && transformer.refGnss == Some(gnssAnchors[0].value)
        && attempt.value == fit(anchors, transformer.gnssAnchors).Some?
        && (attempt.value ==> transformer.isCalibrated && transformer.rigid == fit(anchors, transformer.gnssAnchors))
        && (!attempt.value ==> transformer.isCalibrated == old(transformer.isCalibrated)
                               && transformer.rigid == old(transformer.rigid))
    {
      uwbAnchors := anchors;
      attempt := None;
      if gnssCalibrated {
        attempt := AutoCalibrate(fit);
      }
    }

    /** _reset_timing: all times unset and the latch cleared; the rest of the tracking state stays. */
    method ResetTiming()
      requires Valid()
      modifies timing, this`hasCrossed
      ensures Valid()
      ensures !hasCrossed && timing.startTime.None? && timing.endTime.None? && timing.crossingTime.None?
    {
      timing.Reset();
      hasCrossed := false;
    }

    /** _start_timing: a reset, then the start time is the current time. */
    method StartTiming(now: real)
      requires Valid()
      modifies timing, this`hasCrossed
      ensures Valid()
      ensures !hasCrossed && timing.startTime == Some(now) && timing.endTime.None? && timing.crossingTime.None?
    {
      ResetTiming();
      timing.startTime := Some(now);
    }

    /**
     * The first half of _process_uwb_data: the packet counter, the previous and new position,
     * the speed history and readout (as SpeedAfter), and the time of the last packet.
     */
    method RecordPacket(p: Vector3, now: real, sqrt: real -> real)
      modifies this`uwbTagPos, this`prevUwbTagPos, this`lastUwbDataTime, this`speedHistory,
               this`currentSpeed, this`uwbDataCount
      ensures uwbTagPos == Some(p) && prevUwbTagPos == old(uwbTagPos) && lastUwbDataTime == Some(now)
      ensures uwbDataCount == old(uwbDataCount) + 1
      ensures (speedHistory, currentSpeed) == SpeedAfter(sqrt, old(Tracking()), p, now)
      ensures Tracking() == Recorded(sqrt, old(Tracking()), p, now)
    {
      ghost var t := Tracking();
      uwbDataCount := uwbDataCount + 1;
      prevUwbTagPos := uwbTagPos;
      uwbTagPos := Some(p);
      if prevUwbTagPos.Some? && lastUwbDataTime.Some? {
        var dt := now - lastUwbDataTime.value;
        if 0.0 < dt < MaxPacketGap {
          var instant := InstantSpeed(sqrt, prevUwbTagPos.value, p, dt);
          assert instant == Sample(sqrt, t, p, now);
          speedHistory := speedHistory + [instant];
          if |speedHistory| > SpeedWindow {
            speedHistory := speedHistory[1..];
          }
          assert speedHistory == PushSpeed(t.speedHistory, instant);
          currentSpeed := Sum(speedHistory) / |speedHistory| as real;
        }
      } else if prevUwbTagPos.None? {
        currentSpeed := 0.0;
      }
      lastUwbDataTime := Some(now);
    }

    /**
     * The crossing part of _process_uwb_data, given the position before this packet: with a
     * previous position and the latch clear, a line crossing sets the latch and records the
     * packet's time as crossing and end time; the result is the duration then shown.
     */
    method LatchCrossing(previous: Option<Vector3>, p: Vector3, now: real, sqrt: real -> real)
        returns (duration: Option<real>)
      requires |uwbAnchors| >= 2
      modifies this`hasCrossed, timing`crossingTime, timing`endTime
      ensures var fires := previous.Some? && !old(hasCrossed)
                           && CT.CheckLineCrossing(sqrt, XY(previous.value), XY(p), Line().0, Line().1);
        && hasCrossed == (old(hasCrossed) || fires)
        && timing.crossingTime == (if fires then Some(now) else old(timing.crossingTime))
        && timing.endTime == (if fires then Some(now) else old(timing.endTime))
      ensures duration == if !old(hasCrossed) && hasCrossed && timing.startTime.Some? && timing.startTime.value != 0.0
                          then Some(now - timing.startTime.value) else None
      ensures previous == old(Tracking()).prevTagPos ==> Tracking() == Latched(sqrt, Line(), old(Tracking()), p, now)
    {
      duration := None;
      if previous.Some? && !hasCrossed {
        if CT.CheckLineCrossing(sqrt, XY(previous.value), XY(p), Line().0, Line().1) {
          hasCrossed := true;
          timing.crossingTime := Some(now);
          timing.endTime := Some(now);
          if timing.startTime.Some? && timing.startTime.value != 0.0 {
            duration := Some(now - timing.startTime.value);
          }
        }
      }
    }

    /**
     * _process_uwb_data for a packet received at time `now`: the tracking state follows Packet;
     * with a calibrated transformer the GNSS tag position is the transform of the new position;
     * the result is the run duration shown when this packet sets the latch and a start time is
     * set (a start time of exactly 0.0 counts as unset, as Python's truthiness has it).
     */
    method ProcessUwbData(data: UdpReceiver.TagData, now: real, sqrt: real -> real,
                          toGnss: (Vector3, CT.GnssPosition) -> CT.GnssPosition)
        returns (duration: Option<real>)
      requires Valid() && IsSqrt(sqrt)
      modifies this`uwbTagPos, this`prevUwbTagPos, this`lastUwbDataTime, this`speedHistory,
               this`currentSpeed, this`hasCrossed, this`uwbDataCount, this`gnssTagPos,
               timing`crossingTime, timing`endTime
      ensures Valid()
      ensures Tracking() == Packet(sqrt, Line(), old(Tracking()), Vector3(data.x, data.y, data.z), now)
      ensures gnssTagPos == if transformer.isCalibrated
                            then transformer.Transform(toGnss, Vector3(data.x, data.y, data.z))
                            else old(gnssTagPos)
      ensures duration == if !old(hasCrossed) && hasCrossed && timing.startTime.Some? && timing.startTime.value != 0.0
                          then Some(now - timing.startTime.value) else None
    {
      ghost var t := Tracking();
      var p := Vector3(data.x, data.y, data.z);
      var previous := uwbTagPos;
      RecordPacket(p, now, sqrt);
      TransformTag(toGnss, p);
      duration := LatchCrossing(previous, p, now, sqrt);
      PacketInTwoSteps(sqrt, Line(), t, p, now);
      PacketKeepsValid(sqrt, Line(), t, p, now);
    }

    /** With a calibrated transformer, the GNSS tag position becomes the transform of p. */
    method TransformTag(toGnss: (Vector3, CT.GnssPosition) -> CT.GnssPosition, p: Vector3)
      requires transformer.Valid()
      modifies this`gnssTagPos
      ensures gnssTagPos == if transformer.isCalibrated then transformer.Transform(toGnss, p) else old(gnssTagPos)
    {
      if transformer.isCalibrated {
        gnssTagPos := transformer.Transform(toGnss, p);
      }
    }

    /** _update_metrics: without a tag, speed 0 and both placeholders; otherwise the speed, |distance| and the time to the line. */
    function UpdateMetrics(sqrt: real -> real): (m: Metrics)
      requires |uwbAnchors| >= 2
      reads this`uwbTagPos, this`currentSpeed, this`uwbAnchors
      ensures uwbTagPos.None? ==> m == Metrics(0.0, None, None)
      ensures uwbTagPos.Some? ==>
        && m.speed == currentSpeed
        && m.distance == Some(Abs(CT.DistanceToLine(sqrt, XY(uwbTagPos.value), Line().0, Line().1)))
        && 0.0 <= m.distance.value
        && (m.timeToLine.Some? <==> currentSpeed > MinSpeedForEta && m.distance.value < MaxTimeToLine * currentSpeed)
        && (m.timeToLine.Some? ==> m.timeToLine.value * currentSpeed == m.distance.value)
    {
      if uwbTagPos.None? then Metrics(0.0, None, None)
      else
        var distance := Abs(CT.DistanceToLine(sqrt, XY(uwbTagPos.value), Line().0, Line().1));
        TimeToLineShown(distance, currentSpeed);
        Metrics(currentSpeed, Some(distance), TimeToLine(distance, currentSpeed))
    }
  }
}
