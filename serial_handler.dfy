/**
 * The serial handler for the UWB module: the `ma`/`mc`/`mi` text frame parser, the anchor-to-anchor
 * range filter used during self-calibration, CRLF command termination, the calibration flag and
 * the CRLF receive buffer. The port itself is reduced to a connected flag, a write outcome and
 * the text chunks it delivers.
 */
module SerialHandler {
  import opened Wrappers
  import opened PyText

  const Crlf: string := "\r\n"
  /** A range strictly between these millimetre bounds counts as an anchor-to-anchor distance. */
  const MinValidDistanceMm: int := 10
  const MaxValidDistanceMm: int := 100000

  /** RangeData: the fields of one parsed frame (the tag id is None when the role token has no colon). */
  datatype RangeData = RangeData(
    messageType: string,
    userByte: string,
    ranges: seq<int>,
    timestamp: string,
    role: string,
    baseStationId: string,
    tagId: Option<string>,
    rawData: string)

  /** AnchorRangeData: the reporting anchor and its kept ranges by slot index. */
  datatype AnchorRangeData = AnchorRangeData(anchorId: int, ranges: map<int, int>, timestamp: real)

  // ----- tokens

  /** One range token: the literal "-1" is -1, anything else is read as hexadecimal (None: ValueError). */
  function RangeToken(tok: string): Option<int>
  {
    if tok == "-1" then Some(-1) else ParseInt(tok, 16)
  }

  /** The list comprehension [parse(t) for t in parts[lo..hi]]: the first token that fails to parse aborts it. */
  function TokensWith(parts: seq<string>, lo: nat, hi: nat, parse: string -> Option<int>): (r: Option<seq<int>>)
    requires lo <= hi <= |parts|
    ensures r.Some? ==> |r.value| == hi - lo
    decreases hi - lo
  {
    if lo == hi then Some([])
    else match parse(parts[lo])
      case None => None
      case Some(v) =>
        match TokensWith(parts, lo + 1, hi, parse)
        case None => None
        case Some(rest) => Some([v] + rest)
  }

  /** The range tokens of a frame, parts[lo..hi]. */
  function RangeTokens(parts: seq<string>, lo: nat, hi: nat): Option<seq<int>>
    requires lo <= hi <= |parts|
  {
    TokensWith(parts, lo, hi, RangeToken)
  }

  /** A successful comprehension holds, in order, the value of every token in the slice. */
  lemma {:induction false} TokensWithValues(parts: seq<string>, lo: nat, hi: nat, parse: string -> Option<int>)
    requires lo <= hi <= |parts| && TokensWith(parts, lo, hi, parse).Some?
    ensures var r := TokensWith(parts, lo, hi, parse).value;
      |r| == hi - lo && forall i :: lo <= i < hi ==> parse(parts[i]) == Some(r[i - lo])
    decreases hi - lo
  {
    if lo < hi {
      TokensWithValues(parts, lo + 1, hi, parse);
      var r := TokensWith(parts, lo, hi, parse).value;
      var rest := TokensWith(parts, lo + 1, hi, parse).value;
      assert r == [r[0]] + rest;
      forall i | lo < i < hi
        ensures parse(parts[i]) == Some(r[i - lo])
      {
        assert r[i - lo] == rest[i - (lo + 1)];
      }
    }
  }

  /** The comprehension fails exactly when some token in the slice fails to parse. */
  lemma {:induction false} TokensWithFailure(parts: seq<string>, lo: nat, hi: nat, parse: string -> Option<int>)
    requires lo <= hi <= |parts|
    ensures TokensWith(parts, lo, hi, parse).None? <==> exists k :: lo <= k < hi && parse(parts[k]).None?
    decreases hi - lo
  {
    if lo < hi {
      TokensWithFailure(parts, lo + 1, hi, parse);
    }
  }

  /** The range tokens of a parsed slice are the values of its tokens, and a slice fails exactly on an unreadable token. */
  lemma RangeTokensMeaning(parts: seq<string>, lo: nat, hi: nat)
    requires lo <= hi <= |parts|
    ensures RangeTokens(parts, lo, hi).None? <==> exists k :: lo <= k < hi && RangeToken(parts[k]).None?
    ensures RangeTokens(parts, lo, hi).Some? ==>
      var r := RangeTokens(parts, lo, hi).value;
      |r| == hi - lo && forall i :: lo <= i < hi ==> RangeToken(parts[i]) == Some(r[i - lo])
  {
    TokensWithFailure(parts, lo, hi, RangeToken);
    if RangeTokens(parts, lo, hi).Some? {
      TokensWithValues(parts, lo, hi, RangeToken);
    }
  }

  /** The role character and the base:tag split of a role token. */
  datatype RoleFields = RoleFields(role: string, baseStationId: string, tagId: Option<string>)

  function SplitRole(roleInfo: string): RoleFields
  {
    var role := if |roleInfo| > 0 then [roleInfo[0]] else "";
    var idParts := if |roleInfo| > 1 then Split(roleInfo[1..], ":") else ["", ""];
    RoleFields(role, idParts[0], if |idParts| > 1 then Some(idParts[1]) else None)
  }

  lemma JoinHead(parts: seq<string>, sep: string)
    requires |parts| >= 2
    ensures StartsWith(Join(parts, sep), parts[0] + sep + parts[1])
  {
    var rest := Join(parts[1..], sep);
    assert Join(parts, sep) == parts[0] + sep + rest;
    if |parts| > 2 {
      assert rest == parts[1] + sep + Join(parts[2..], sep);
    }
    assert (parts[0] + sep + rest)[..|parts[0] + sep + parts[1]|] == parts[0] + sep + parts[1];
  }

  /**
   * The role is the first character; the base id is everything after it up to the first colon and
   * contains none; there is a tag id exactly when a colon follows, and then the token continues
   * with base ':' tag, the tag again free of colons. A single-character token has empty base and tag.
   */
  lemma SplitRoleProperties(roleInfo: string)
    ensures var f := SplitRole(roleInfo);
      && (|roleInfo| == 0 ==> f == RoleFields("", "", Some("")))
      && (|roleInfo| == 1 ==> f == RoleFields([roleInfo[0]], "", Some("")))
      && (|roleInfo| > 1 ==>
            && f.role == [roleInfo[0]]
            && !IsSubstring(":", f.baseStationId)
            && (f.tagId.None? <==> !IsSubstring(":", roleInfo[1..]))
            && (f.tagId.None? ==> f.baseStationId == roleInfo[1..])
            && (f.tagId.Some? ==>
                  !IsSubstring(":", f.tagId.value)
                  && StartsWith(roleInfo[1..], f.baseStationId + ":" + f.tagId.value)))
  {
    if |roleInfo| > 1 {
      var rest := roleInfo[1..];
      var parts := Split(rest, ":");
      SplitJoin(rest, ":");
      SplitPiecesFree(rest, ":");
      FindIsSubstring(rest, ":");
      if |parts| > 1 {
        JoinHead(parts, ":");
      } else {
        assert Join(parts, ":") == parts[0];
      }
    }
  }

  // ----- _parse_data

  /** The decision on the space-separated tokens of a frame already known to have at least 5 of them. */
  function ParseTokens(parts: seq<string>, dataStr: string): Option<RangeData>
    requires |parts| >= 5
  {
    var messageType := parts[0];
    var length := |parts|;
    if messageType == "ma" then
      if length == 11 || length == 15 then
        var roleInfo := if length == 11 then parts[9] else parts[13];
        match RangeTokens(parts, 2, if length == 11 then 6 else 10)
        case None => None
        case Some(ranges) => Some(Frame(parts, ranges, roleInfo, dataStr))
      else None
    else if messageType == "mc" || messageType == "mi" then
      if length >= 11 then
        match RangeTokens(parts, 2, 6)
        case None => None
        case Some(ranges) => Some(Frame(parts, ranges, parts[9], dataStr))
      else if length >= 7 then
        var hi := if 6 < length - 1 then 6 else length - 1;
        match RangeTokens(parts, 2, hi)
        case None => None
        case Some(ranges) => Some(Frame(parts, ranges, parts[length - 2], dataStr))
      else None
    else None
  }

  function Frame(parts: seq<string>, ranges: seq<int>, roleInfo: string, dataStr: string): RangeData
    requires |parts| >= 2
  {
    var f := SplitRole(roleInfo);
    RangeData(parts[0], parts[1], ranges, parts[|parts| - 1], f.role, f.baseStationId, f.tagId, dataStr)
  }

  /** _parse_data: empty text, an unknown prefix or fewer than five tokens give None. */
  function ParseData(dataStr: string): Option<RangeData>
  {
    if dataStr == "" then None
    else if !(StartsWith(dataStr, "mc") || StartsWith(dataStr, "mi") || StartsWith(dataStr, "ma")) then None
    else
      var parts := Split(dataStr, " ");
      if |parts| < 5 then None else ParseTokens(parts, dataStr)
  }

  /** The frame layouts: which token counts are accepted, where the ranges and the role token sit. */
  lemma ParseTokensLayout(parts: seq<string>, dataStr: string)
    requires |parts| >= 5
    ensures var r := ParseTokens(parts, dataStr);
      && (r.Some? ==>
            r.value.messageType == parts[0] && r.value.userByte == parts[1]
            && r.value.timestamp == parts[|parts| - 1] && r.value.rawData == dataStr)
      && (parts[0] == "ma" && |parts| == 11 ==>
            r == (match RangeTokens(parts, 2, 6) case None => None
                  case Some(rs) => Some(Frame(parts, rs, parts[9], dataStr))))
      && (parts[0] == "ma" && |parts| == 15 ==>
            r == (match RangeTokens(parts, 2, 10) case None => None
                  case Some(rs) => Some(Frame(parts, rs, parts[13], dataStr))))
      && (parts[0] == "ma" && |parts| != 11 && |parts| != 15 ==> r.None?)
      && ((parts[0] == "mc" || parts[0] == "mi") && |parts| >= 11 ==>
            r == (match RangeTokens(parts, 2, 6) case None => None
                  case Some(rs) => Some(Frame(parts, rs, parts[9], dataStr))))
      && ((parts[0] == "mc" || parts[0] == "mi") && 7 <= |parts| < 11 ==>
            r == (match RangeTokens(parts, 2, 6) case None => None
                  case Some(rs) => Some(Frame(parts, rs, parts[|parts| - 2], dataStr))))
      && ((parts[0] == "mc" || parts[0] == "mi") && |parts| < 7 ==> r.None?)
      && (parts[0] != "ma" && parts[0] != "mc" && parts[0] != "mi" ==> r.None?)
  {
  }

  /** A parsed frame carries 4 ranges, or 8 for a 15-token `ma` frame, each -1 or a hex value. */
  lemma ParseTokensRanges(parts: seq<string>, dataStr: string)
    requires |parts| >= 5 && ParseTokens(parts, dataStr).Some?
    ensures var r := ParseTokens(parts, dataStr).value;
      && |r.ranges| == (if parts[0] == "ma" && |parts| == 15 then 8 else 4)
      && forall k :: 0 <= k < |r.ranges| ==>
           (parts[2 + k] == "-1" && r.ranges[k] == -1) || ParseInt(parts[2 + k], 16) == Some(r.ranges[k])
  {
    var length := |parts|;
    if parts[0] == "ma" {
      RangeTokensMeaning(parts, 2, if length == 11 then 6 else 10);
    } else if length >= 11 {
      RangeTokensMeaning(parts, 2, 6);
    } else {
      RangeTokensMeaning(parts, 2, if 6 < length - 1 then 6 else length - 1);
    }
  }

  /** Only the three prefixes and at least five tokens get past the first checks. */
  lemma ParseDataRejects(dataStr: string)
    ensures dataStr == "" ==> ParseData(dataStr).None?
    ensures !(StartsWith(dataStr, "mc") || StartsWith(dataStr, "mi") || StartsWith(dataStr, "ma"))
      ==> ParseData(dataStr).None?
    ensures |Split(dataStr, " ")| < 5 ==> ParseData(dataStr).None?
    ensures ParseData(dataStr).Some? ==>
      |Split(dataStr, " ")| >= 5 && ParseData(dataStr) == ParseTokens(Split(dataStr, " "), dataStr)
  {
  }

  /** The module's "no measurement" value 0xffffffff reads back as 4294967295, not -1. */
  lemma AllOnesIsNotMinusOne()
    ensures RangeToken("ffffffff") == Some(4294967295)
  {
    assert Digits(4294967295, 16) == "ffffffff" by {
      assert Digits(15, 16) == "f";
      assert Digits(255, 16) == "ff";
      assert Digits(4095, 16) == "fff";
      assert Digits(65535, 16) == "ffff";
      assert Digits(1048575, 16) == "fffff";
      assert Digits(16777215, 16) == "ffffff";
      assert Digits(268435455, 16) == "fffffff";
    }
    HexRoundTrip(4294967295);
  }

  // ----- _extract_anchor_ranges

  function KeptRanges(ranges: seq<int>): map<int, int>
  {
    map i | 0 <= i < |ranges| && MinValidDistanceMm < ranges[i] < MaxValidDistanceMm :: ranges[i]
  }

  /** The anchor-range record of a frame: only anchors, with an integer base id, and at least one kept range. */
  function AnchorRangesOf(data: RangeData, now: real): Option<AnchorRangeData>
  {
    if data.role != "a" then None
    else match ParseInt(data.baseStationId, 10)
      case None => None
      case Some(id) =>
        var kept := KeptRanges(data.ranges);
        if |kept| == 0 then None else Some(AnchorRangeData(id, kept, now))
  }

  /**
   * A record names exactly the slots whose range lies strictly between 10 and 100000 mm, with their
   * values; the invalid markers -1 and 4294967295 are never kept.
   */
  lemma AnchorRangesFilter(data: RangeData, now: real)
    ensures var r := AnchorRangesOf(data, now);
      && (r.Some? <==>
            data.role == "a" && ParseInt(data.baseStationId, 10).Some?
            && exists i :: 0 <= i < |data.ranges| && MinValidDistanceMm < data.ranges[i] < MaxValidDistanceMm)
      && (r.Some? ==>
            r.value.anchorId == ParseInt(data.baseStationId, 10).value && r.value.timestamp == now
            && (forall i :: i in r.value.ranges <==>
                  0 <= i < |data.ranges| && MinValidDistanceMm < data.ranges[i] < MaxValidDistanceMm)
            && (forall i :: i in r.value.ranges ==>
                  r.value.ranges[i] == data.ranges[i] && r.value.ranges[i] != -1 && r.value.ranges[i] != 4294967295))
  {
    var kept := KeptRanges(data.ranges);
    if exists i :: 0 <= i < |data.ranges| && MinValidDistanceMm < data.ranges[i] < MaxValidDistanceMm {
      var i :| 0 <= i < |data.ranges| && MinValidDistanceMm < data.ranges[i] < MaxValidDistanceMm;
      assert i in kept;
    } else {
      assert kept == map[];
    }
  }

  /** The ranges kept from the first n slots, one slot at a time as the dict-filling loop adds them. */
  function KeptUpTo(ranges: seq<int>, n: nat): map<int, int>
    requires n <= |ranges|
  {
    if n == 0 then map[]
    else if MinValidDistanceMm < ranges[n - 1] < MaxValidDistanceMm then KeptUpTo(ranges, n - 1)[n - 1 := ranges[n - 1]]
    else KeptUpTo(ranges, n - 1)
  }

  /** Filling slot by slot keeps exactly the valid slots seen so far, so the whole pass yields KeptRanges. */
  lemma {:induction false} KeptUpToAll(ranges: seq<int>, n: nat)
    requires n <= |ranges|
    ensures KeptUpTo(ranges, n) == map k | 0 <= k < n && MinValidDistanceMm < ranges[k] < MaxValidDistanceMm :: ranges[k]
    ensures n == |ranges| ==> KeptUpTo(ranges, n) == KeptRanges(ranges)
  {
    if n > 0 {
      KeptUpToAll(ranges, n - 1);
    }
  }

  /** The dict-filling loop of _extract_anchor_ranges: slot i is kept when its range is valid. */
  method KeepValidRanges(dists: seq<int>) returns (ranges: map<int, int>)
    ensures ranges == KeptRanges(dists)
  {
    ranges := map[];
    var i := 0;
    while i < |dists|
      invariant 0 <= i <= |dists|
      invariant ranges == KeptUpTo(dists, i)
    {
      var dist := dists[i];
      if MinValidDistanceMm < dist < MaxValidDistanceMm {
        ranges := ranges[i := dist];
      }
      i := i + 1;
    }
    KeptUpToAll(dists, |dists|);
  }

  /** _extract_anchor_ranges; the timestamp is the clock reading `now`. */
  method ExtractAnchorRanges(data: RangeData, now: real) returns (r: Option<AnchorRangeData>)
    ensures r == AnchorRangesOf(data, now)
  {
    if data.role != "a" {
      return None;
    }
    var anchorId := ParseInt(data.baseStationId, 10);
    if anchorId.None? {
      return None;
    }
    var ranges := KeepValidRanges(data.ranges);
    if |ranges| == 0 {
      return None;
    }
    return Some(AnchorRangeData(anchorId.value, ranges, now));
  }

  // ----- send_command and the receive buffer

  /** A command as written: CRLF is appended unless already present. */
  function Terminated(command: string): string
  {
    if EndsWith(command, Crlf) then command else command + Crlf
  }

  /** The written command always ends in CRLF, keeps the command as its prefix, and terminating twice changes nothing. */
  lemma TerminatedIdempotent(command: string)
    ensures EndsWith(Terminated(command), Crlf)
    ensures StartsWith(Terminated(command), command)
    ensures Terminated(Terminated(command)) == Terminated(command)
  {
    var t := Terminated(command);
    if !EndsWith(command, Crlf) {
      assert t[|t| - 2..] == Crlf;
      assert t[..|command|] == command;
    } else {
      assert t[..|command|] == command;
    }
  }

  /** The frames a buffer releases: every CRLF-terminated piece, when the buffer holds a CRLF. */
  function CompleteFrames(buffer: string): seq<string>
  {
    if IsSubstring(Crlf, buffer) then
      var frames := Split(buffer, Crlf);
      frames[..|frames| - 1]
    else []
  }

  /** What stays buffered: the piece after the last CRLF (all of it when there is none). */
  function Remainder(buffer: string): string
  {
    if IsSubstring(Crlf, buffer) then
      var frames := Split(buffer, Crlf);
      frames[|frames| - 1]
    else buffer
  }

  /** The complete frames and the remainder rejoin to the buffer, and the remainder holds no CRLF. */
  lemma BufferReassembles(buffer: string)
    ensures Join(CompleteFrames(buffer) + [Remainder(buffer)], Crlf) == buffer
    ensures !IsSubstring(Crlf, Remainder(buffer))
    ensures forall i :: 0 <= i < |CompleteFrames(buffer)| ==> !IsSubstring(Crlf, CompleteFrames(buffer)[i])
  {
    SplitJoin(buffer, Crlf);
    SplitPiecesFree(buffer, Crlf);
    var frames := Split(buffer, Crlf);
    if IsSubstring(Crlf, buffer) {
      assert CompleteFrames(buffer) + [Remainder(buffer)] == frames;
    } else {
      assert Join([buffer], Crlf) == buffer;
    }
  }

  /** What one frame makes the handler report to its callbacks. */
  datatype Event = RangeEvent(data: RangeData) | AnchorRangeEvent(anchorData: AnchorRangeData)

  /** _process_frame on a stripped frame. */
  function FrameEvents(frame: string, calibrating: bool, rangeCallback: bool, anchorCallback: bool, now: real): seq<Event>
  {
    match ParseData(frame)
    case None => []
    case Some(parsed) =>
      (if rangeCallback then [RangeEvent(parsed)] else [])
      + (if calibrating && anchorCallback then
           match AnchorRangesOf(parsed, now)
           case None => []
           case Some(a) => [AnchorRangeEvent(a)]
         else [])
  }

  /** What processing one raw frame reports. */
  type FrameProcessor = string -> seq<Event>

  /**
   * The loop body of the receive loop as a processor, for fixed mode flags, callbacks and clock
   * reading: a blank frame reports nothing, any other is stripped and handed to _process_frame.
   */
  function ProcessorFor(calibrating: bool, rangeCallback: bool, anchorCallback: bool, now: real): (p: FrameProcessor)
    ensures forall frame ::
      p(frame) == if Strip(frame) != "" then FrameEvents(Strip(frame), calibrating, rangeCallback, anchorCallback, now) else []
  {
    frame => if Strip(frame) != "" then FrameEvents(Strip(frame), calibrating, rangeCallback, anchorCallback, now) else []
  }

  /** The events of the frames, in order. */
  function FramesEvents(frames: seq<string>, process: FrameProcessor): seq<Event>
  {
    if frames == [] then []
    else FramesEvents(frames[..|frames| - 1], process) + process(frames[|frames| - 1])
  }

  /** The events of consecutive batches of frames concatenate. */
  lemma {:induction false} FramesEventsAppend(a: seq<string>, b: seq<string>, process: FrameProcessor)
    ensures FramesEvents(a + b, process) == FramesEvents(a, process) + FramesEvents(b, process)
    decreases |b|
  {
    if b == [] {
      assert a + b == a;
    } else {
      var ab := a + b;
      var init := b[..|b| - 1];
      var last := b[|b| - 1];
      assert ab[..|ab| - 1] == a + init;
      assert ab[|ab| - 1] == last;
      FramesEventsAppend(a, init, process);
      calc {
        FramesEvents(ab, process);
        FramesEvents(a + init, process) + process(last);
        (FramesEvents(a, process) + FramesEvents(init, process)) + process(last);
        FramesEvents(a, process) + (FramesEvents(init, process) + process(last));
        FramesEvents(a, process) + FramesEvents(b, process);
      }
    }
  }

  /** One more frame adds what the processor reports for it. */
  lemma FramesEventsStep(frames: seq<string>, k: nat, process: FrameProcessor, produced: seq<Event>)
    requires k < |frames| && process(frames[k]) == produced
    ensures FramesEvents(frames[..k + 1], process) == FramesEvents(frames[..k], process) + produced
  {
    assert frames[..k + 1][..k] == frames[..k];
  }

  /** Blank frames report nothing: they may be dropped without changing the events. */
  lemma FramesEventsSkipBlank(a: seq<string>, blank: string, calibrating: bool, rangeCallback: bool,
                              anchorCallback: bool, now: real)
    requires Strip(blank) == ""
    ensures var process := ProcessorFor(calibrating, rangeCallback, anchorCallback, now);
      FramesEvents(a + [blank], process) == FramesEvents(a, process)
  {
    var process := ProcessorFor(calibrating, rangeCallback, anchorCallback, now);
    assert (a + [blank])[..|a|] == a;
    assert process(blank) == [];
  }

  /** UWBSerialHandler with the port reduced to a connected flag and the list of written commands. */
  class Handler {
    var connected: bool
    var isCalibrating: bool
    var buffer: string
    var written: seq<string>
    var rangeCallback: bool
    var anchorCallback: bool

    constructor()
      ensures !connected && !isCalibrating && buffer == "" && written == [] && !rangeCallback && !anchorCallback
    {
      connected := false;
      isCalibrating := false;
      buffer := "";
      written := [];
      rangeCallback := false;
      anchorCallback := false;
    }

    /** send_command: refused when not connected; otherwise the CRLF-terminated command is written if the port accepts it. */
    method SendCommand(command: string, writeSucceeds: bool) returns (ok: bool)
      modifies this
      ensures ok == (old(connected) && writeSucceeds)
      ensures written == if ok then old(written) + [Terminated(command)] else old(written)
      ensures connected == old(connected) && isCalibrating == old(isCalibrating) && buffer == old(buffer)
      ensures rangeCallback == old(rangeCallback) && anchorCallback == old(anchorCallback)
    {
      if !connected {
        return false;
      }
      if !writeSucceeds {
        return false;
      }
      written := written + [Terminated(command)];
      return true;
    }

    /** start_calibration: the flag is raised only when $ancrangestart was sent. */
    method StartCalibration(writeSucceeds: bool) returns (ok: bool)
      modifies this
      ensures ok == (old(connected) && writeSucceeds)
      ensures written == if ok then old(written) + ["$ancrangestart\r\n"] else old(written)
      ensures isCalibrating == if ok then true else old(isCalibrating)
      ensures connected == old(connected) && buffer == old(buffer)
      ensures rangeCallback == old(rangeCallback) && anchorCallback == old(anchorCallback)
    {
      assert Terminated("$ancrangestart") == "$ancrangestart\r\n";
      ok := SendCommand("$ancrangestart", writeSucceeds);
      if ok {
        isCalibrating := true;
      }
    }

    /** stop_calibration: the flag is lowered only when $ancrangestop was sent. */
    method StopCalibration(writeSucceeds: bool) returns (ok: bool)
      modifies this
      ensures ok == (old(connected) && writeSucceeds)
      ensures written == if ok then old(written) + ["$ancrangestop\r\n"] else old(written)
      ensures isCalibrating == if ok then false else old(isCalibrating)
      ensures connected == old(connected) && buffer == old(buffer)
      ensures rangeCallback == old(rangeCallback) && anchorCallback == old(anchorCallback)
    {
      assert Terminated("$ancrangestop") == "$ancrangestop\r\n";
      ok := SendCommand("$ancrangestop", writeSucceeds);
      if ok {
        isCalibrating := false;
      }
    }

    /**
     * One pass of _receive_loop with a chunk: the chunk is appended to the buffer, every complete
     * non-blank frame is processed in order, and the incomplete tail is kept.
     */
    method Receive(data: string, now: real) returns (events: seq<Event>)
      modifies this`buffer
      ensures buffer == Remainder(old(buffer) + data)
      ensures events == FramesEvents(CompleteFrames(old(buffer) + data), ProcessorFor(isCalibrating, rangeCallback, anchorCallback, now))
      ensures isCalibrating == old(isCalibrating) && connected == old(connected) && written == old(written)
      ensures rangeCallback == old(rangeCallback) && anchorCallback == old(anchorCallback)
    {
      var joined := buffer + data;
      events := ProcessFrames(CompleteFrames(joined), now);
      buffer := Remainder(joined);
    }

    /** The frame loop of _receive_loop: each complete frame in order, blank ones skipped, the rest stripped and processed. */
    method ProcessFrames(complete: seq<string>, now: real) returns (events: seq<Event>)
      ensures events == FramesEvents(complete, ProcessorFor(isCalibrating, rangeCallback, anchorCallback, now))
    {
      ghost var process := ProcessorFor(isCalibrating, rangeCallback, anchorCallback, now);
      events := [];
      var k := 0;
      while k < |complete|
        invariant 0 <= k <= |complete|
        invariant events == FramesEvents(complete[..k], process)
      {
        var frame := complete[k];
        var produced := [];
        if Strip(frame) != "" {
          produced := ProcessFrame(Strip(frame), now);
        }
        FramesEventsStep(complete, k, process, produced);
        events := events + produced;
        k := k + 1;
      }
      assert complete[..k] == complete;
    }

    /** _process_frame: the parsed frame goes to the range callback; in calibration mode its anchor ranges go on. */
    method ProcessFrame(frame: string, now: real) returns (events: seq<Event>)
      ensures events == FrameEvents(frame, isCalibrating, rangeCallback, anchorCallback, now)
    {
      events := [];
      var parsed := ParseData(frame);
      if parsed.None? {
        return;
      }
      if rangeCallback {
        events := [RangeEvent(parsed.value)];
      }
      if isCalibrating && anchorCallback {
        var anchorData := ExtractAnchorRanges(parsed.value, now);
        if anchorData.Some? {
          events := events + [AnchorRangeEvent(anchorData.value)];
        }
      }
    }
  }
}
