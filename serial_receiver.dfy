/**
 * The `mc` frame receiver: its stricter frame parser (only `mc`; values above 0x7FFFFFFF become -1;
 * ranges padded to eight), the capacity-100 drop-oldest queue, front-first reads, FIFO draining
 * and the calibration sample buffer.
 */
module SerialReceiver {
  import opened Wrappers
  import opened PyText
  import Fifo
  import SerialHandler

  const MaxValidRaw: int := 0x7FFF_FFFF

  /** UWBRangingData (the tag id is "" without a colon). */
  datatype RangingData = RangingData(
    messageType: string,
    userByte: string,
    ranges: seq<int>,
    timestamp: string,
    role: string,
    baseStationId: string,
    tagId: string,
    rawData: string)

  /** One calibration-mode record: a copy of the ranges, the clock reading and the base id. */
  datatype CalibrationSample = CalibrationSample(ranges: seq<int>, timestamp: real, baseStationId: string)

  /** The stored value of one parsed hex value: anything above 0x7FFFFFFF (0xFFFFFFFF included) becomes -1. */
  function Invalidated(v: int): (r: int)
    ensures r <= MaxValidRaw
    ensures v >= 0 ==> -1 <= r
  {
    if v > MaxValidRaw then -1 else v
  }

  /** int(token, 16); None stands for the ValueError that aborts the parse. */
  function HexValue(tok: string): Option<int>
  {
    ParseInt(tok, 16)
  }

  /** int(_, 16) over parts[lo..hi]; the first token that does not parse aborts (None). */
  function HexValues(parts: seq<string>, lo: nat, hi: nat): Option<seq<int>>
    requires lo <= hi <= |parts|
  {
    SerialHandler.TokensWith(parts, lo, hi, HexValue)
  }

  /** Every value above 0x7FFFFFFF replaced by -1, position by position. */
  function InvalidateAll(vs: seq<int>): (r: seq<int>)
    ensures |r| == |vs|
    ensures forall k :: 0 <= k < |r| ==> r[k] <= MaxValidRaw && (vs[k] <= MaxValidRaw ==> r[k] == vs[k])
  {
    seq(|vs|, k requires 0 <= k < |vs| => Invalidated(vs[k]))
  }

  /** The range loop over parts[lo..hi] as a value: None when any token fails to parse. */
  function RangeValues(parts: seq<string>, lo: nat, hi: nat): Option<seq<int>>
    requires lo <= hi <= |parts|
  {
    match HexValues(parts, lo, hi)
    case None => None
    case Some(vs) => Some(InvalidateAll(vs))
  }

  /**
   * The for loop of _parse_data over tokens lo..hi-1: parse, replace values above 0x7FFFFFFF by -1,
   * append; a token int(_, 16) rejects raises, here None.
   */
  method ReadRanges(parts: seq<string>, lo: nat, hi: nat) returns (r: Option<seq<int>>)
    requires lo <= hi <= |parts|
    ensures r == RangeValues(parts, lo, hi)
  {
    var ranges: seq<int> := [];
    var i := lo;
    while i < hi
      invariant lo <= i <= hi && |ranges| == i - lo
      invariant forall k :: lo <= k < i ==> HexValue(parts[k]).Some? && ranges[k - lo] == Invalidated(HexValue(parts[k]).value)
    {
      var v := HexValue(parts[i]);
      if v.None? {
        RangeValuesFails(parts, lo, hi, i);
        return None;
      }
      var val := v.value;
      ghost var before := ranges;
      if val == 0xFFFF_FFFF || val > MaxValidRaw {
        ranges := ranges + [-1];
      } else {
        ranges := ranges + [val];
      }
      ReadStep(parts, lo, i, before, ranges);
      i := i + 1;
    }
    RangeValuesComplete(parts, lo, hi, ranges);
    return Some(ranges);
  }

  /** One more token read: its invalidated value is appended to the ranges read so far. */
  lemma ReadStep(parts: seq<string>, lo: nat, i: nat, before: seq<int>, after: seq<int>)
    requires lo <= i < |parts| && |before| == i - lo
    requires forall k :: lo <= k < i ==> HexValue(parts[k]).Some? && before[k - lo] == Invalidated(HexValue(parts[k]).value)
    requires HexValue(parts[i]).Some? && after == before + [Invalidated(HexValue(parts[i]).value)]
    ensures |after| == i + 1 - lo
    ensures forall k :: lo <= k < i + 1 ==> HexValue(parts[k]).Some? && after[k - lo] == Invalidated(HexValue(parts[k]).value)
  {
    forall k | lo <= k < i + 1
      ensures HexValue(parts[k]).Some? && after[k - lo] == Invalidated(HexValue(parts[k]).value)
    {
      if k < i {
        assert after[k - lo] == before[k - lo];
      }
    }
  }

  /** The range loop yields, in order, each token's hex value with values above 0x7FFFFFFF replaced by -1. */
  lemma RangeValuesMeaning(parts: seq<string>, lo: nat, hi: nat)
    requires lo <= hi <= |parts|
    ensures RangeValues(parts, lo, hi).None? <==> exists k :: lo <= k < hi && HexValue(parts[k]).None?
    ensures RangeValues(parts, lo, hi).Some? ==>
      var r := RangeValues(parts, lo, hi).value;
      |r| == hi - lo
      && forall k :: lo <= k < hi ==> HexValue(parts[k]).Some? && r[k - lo] == Invalidated(HexValue(parts[k]).value)
  {
    SerialHandler.TokensWithFailure(parts, lo, hi, HexValue);
    if HexValues(parts, lo, hi).Some? {
      var vs := HexValues(parts, lo, hi).value;
      var r := InvalidateAll(vs);
      SerialHandler.TokensWithValues(parts, lo, hi, HexValue);
      forall k | lo <= k < hi
        ensures HexValue(parts[k]).Some? && r[k - lo] == Invalidated(HexValue(parts[k]).value)
      {
        var v := HexValue(parts[k]);
        assert v == Some(vs[k - lo]);
        assert r[k - lo] == Invalidated(vs[k - lo]);
      }
    }
  }

  /** A token that does not parse makes the whole range loop fail. */
  lemma RangeValuesFails(parts: seq<string>, lo: nat, hi: nat, i: nat)
    requires lo <= i < hi <= |parts| && HexValue(parts[i]).None?
    ensures RangeValues(parts, lo, hi) == None
  {
    SerialHandler.TokensWithFailure(parts, lo, hi, HexValue);
  }

  /** Ranges holding, in order, every token's value with values above 0x7FFFFFFF replaced are what the loop gives. */
  lemma RangeValuesComplete(parts: seq<string>, lo: nat, hi: nat, ranges: seq<int>)
    requires lo <= hi <= |parts| && |ranges| == hi - lo
    requires forall k :: lo <= k < hi ==> HexValue(parts[k]).Some? && ranges[k - lo] == Invalidated(HexValue(parts[k]).value)
    ensures RangeValues(parts, lo, hi) == Some(ranges)
  {
    RangeValuesMeaning(parts, lo, hi);
    forall k | lo <= k < hi
      ensures HexValue(parts[k]).Some?
    {
    }
    var r := RangeValues(parts, lo, hi).value;
    forall k | 0 <= k < hi - lo
      ensures r[k] == ranges[k]
    {
      assert HexValue(parts[lo + k]).Some?;
      assert r[(lo + k) - lo] == ranges[(lo + k) - lo];
    }
    assert r == ranges;
  }

  /**
   * The role token: the first character is the role; with a colon anywhere in the token the rest
   * must split on ':' into exactly two parts (else the unpacking raises and the parse gives None).
   */
  function SplitRole(roleInfo: string): Option<(string, string, string)>
  {
    var role := if |roleInfo| > 0 then [roleInfo[0]] else "";
    if IsSubstring(":", roleInfo) then
      var idParts := Split(roleInfo[1..], ":");
      if |idParts| == 2 then Some((role, idParts[0], idParts[1])) else None
    else Some((role, if |roleInfo| > 1 then roleInfo[1..] else "", ""))
  }

  /** The decision on the tokens of a frame starting with "mc" or "mi". */
  function ParseTokens(parts: seq<string>, dataStr: string): Option<RangingData>
  {
    if |parts| == 0 || parts[0] != "mc" then None
    else if |parts| == 11 then
      match RangeValues(parts, 2, 6)
      case None => None
      case Some(rs) => Build(parts, rs + [-1, -1, -1, -1], parts[9], parts[10], dataStr)
    else if |parts| == 15 then
      match RangeValues(parts, 2, 10)
      case None => None
      case Some(rs) => Build(parts, rs, parts[13], parts[14], dataStr)
    else None
  }

  function Build(parts: seq<string>, ranges: seq<int>, roleInfo: string, timestamp: string, dataStr: string): Option<RangingData>
    requires |parts| >= 2
  {
    match SplitRole(roleInfo)
    case None => None
    case Some((role, base, tag)) => Some(RangingData(parts[0], parts[1], ranges, timestamp, role, base, tag, dataStr))
  }

  /** _parse_data. */
  function ParseData(dataStr: string): Option<RangingData>
  {
    if !(StartsWith(dataStr, "mc") || StartsWith(dataStr, "mi")) then None
    else ParseTokens(Split(dataStr, " "), dataStr)
  }

  /**
   * Only an exact first token "mc" with 11 or 15 tokens parses; every result has eight ranges,
   * the first four (or all eight) from tokens 2.., each -1 or a value no larger than 0x7FFFFFFF,
   * and the 11-token form pads with four -1; role and timestamp come from tokens 9/10 or 13/14.
   */
  lemma ParseTokensShape(parts: seq<string>, dataStr: string)
    ensures (|parts| == 0 || parts[0] != "mc" || (|parts| != 11 && |parts| != 15)) ==> ParseTokens(parts, dataStr).None?
    ensures ParseTokens(parts, dataStr).Some? ==>
      var r := ParseTokens(parts, dataStr).value;
      var n := if |parts| == 11 then 4 else 8;
      && r.messageType == "mc" && r.userByte == parts[1] && r.rawData == dataStr
      && |r.ranges| == 8
      && (forall k :: 0 <= k < 8 ==> r.ranges[k] <= MaxValidRaw)
      && (forall k :: 0 <= k < n ==>
            HexValue(parts[2 + k]).Some? && r.ranges[k] == Invalidated(HexValue(parts[2 + k]).value))
      && (forall k :: n <= k < 8 ==> r.ranges[k] == -1)
      && r.timestamp == parts[if |parts| == 11 then 10 else 14]
      && SplitRole(parts[if |parts| == 11 then 9 else 13]) == Some((r.role, r.baseStationId, r.tagId))
  {
    if ParseTokens(parts, dataStr).Some? {
      var r := ParseTokens(parts, dataStr).value;
      ParseTokensFields(parts, dataStr);
      var hi := if |parts| == 11 then 6 else 10;
      RangeValuesMeaning(parts, 2, hi);
      PaddedRanges(parts, hi, RangeValues(parts, 2, hi).value, r.ranges);
    }
  }

  /** Where the fields of a parsed frame come from. */
  lemma ParseTokensFields(parts: seq<string>, dataStr: string)
    requires ParseTokens(parts, dataStr).Some?
    ensures |parts| == 11 || |parts| == 15
    ensures var hi := if |parts| == 11 then 6 else 10;
      var r := ParseTokens(parts, dataStr).value;
      && RangeValues(parts, 2, hi).Some?
      && r.ranges == (if |parts| == 11 then RangeValues(parts, 2, hi).value + [-1, -1, -1, -1] else RangeValues(parts, 2, hi).value)
      && r.messageType == "mc" && r.userByte == parts[1] && r.rawData == dataStr
      && r.timestamp == parts[if |parts| == 11 then 10 else 14]
      && SplitRole(parts[if |parts| == 11 then 9 else 13]) == Some((r.role, r.baseStationId, r.tagId))
  {
  }

  /** The stored ranges: the invalidated token values, padded with -1 to eight for an 11-token frame. */
  lemma PaddedRanges(parts: seq<string>, hi: nat, rs: seq<int>, ranges: seq<int>)
    requires (hi == 6 || hi == 10) && hi <= |parts| && |rs| == hi - 2
    requires forall k :: 2 <= k < hi ==> HexValue(parts[k]).Some? && rs[k - 2] == Invalidated(HexValue(parts[k]).value)
    requires ranges == if hi == 6 then rs + [-1, -1, -1, -1] else rs
    ensures |ranges| == 8
    ensures forall k :: 0 <= k < hi - 2 ==> HexValue(parts[2 + k]).Some? && ranges[k] == Invalidated(HexValue(parts[2 + k]).value)
    ensures forall k :: hi - 2 <= k < 8 ==> ranges[k] == -1
    ensures forall k :: 0 <= k < 8 ==> ranges[k] <= MaxValidRaw
  {
    forall k | 0 <= k < hi - 2
      ensures HexValue(parts[2 + k]).Some? && ranges[k] == Invalidated(HexValue(parts[2 + k]).value)
    {
      assert ranges[k] == rs[(2 + k) - 2];
    }
    forall k | 0 <= k < 8
      ensures ranges[k] <= MaxValidRaw
    {
      if k < hi - 2 {
        assert ranges[k] == Invalidated(HexValue(parts[2 + k]).value);
      }
    }
  }

  /**
   * Only frames whose first space-separated token is exactly "mc" parse: an "mi" frame, accepted
   * by the prefix check, never does.
   */
  lemma ParseDataOnlyMc(dataStr: string)
    ensures ParseData(dataStr).Some? ==> Split(dataStr, " ")[0] == "mc" && ParseData(dataStr).value.messageType == "mc"
    ensures StartsWith(dataStr, "mi") ==> ParseData(dataStr).None?
  {
    var parts := Split(dataStr, " ");
    if StartsWith(dataStr, "mi") && |parts| > 0 && parts[0] == "mc" {
      SplitJoin(dataStr, " ");
      JoinStartsWithHead(parts, " ");
      assert false;
    }
  }

  lemma JoinStartsWithHead(parts: seq<string>, sep: string)
    requires |parts| > 0
    ensures StartsWith(Join(parts, sep), parts[0])
  {
    if |parts| > 1 {
      assert Join(parts, sep)[..|parts[0]|] == (parts[0] + sep + Join(parts[1..], sep))[..|parts[0]|];
    }
  }

  /** The all-ones token 0xffffffff is stored as -1. */
  lemma AllOnesTokenInvalid()
    ensures RangeValues(["ffffffff"], 0, 1) == Some([-1])
  {
    SerialHandler.AllOnesIsNotMinusOne();
    assert HexValue(["ffffffff"][0]) == Some(4294967295);
    RangeValuesComplete(["ffffffff"], 0, 1, [-1]);
  }

  /** 0x80000000 written in hexadecimal. */
  lemma SignBitDigits()
    ensures Digits(2147483648, 16) == "80000000"
  {
    assert Digits(8, 16) == "8";
    assert Digits(128, 16) == "80";
    assert Digits(2048, 16) == "800";
    assert Digits(32768, 16) == "8000";
    assert Digits(524288, 16) == "80000";
    assert Digits(8388608, 16) == "800000";
    assert Digits(134217728, 16) == "8000000";
  }

  /** 0x7fffffff written in hexadecimal. */
  lemma LargestDigits()
    ensures Digits(2147483647, 16) == "7fffffff"
  {
    assert Digits(7, 16) == "7";
    assert Digits(127, 16) == "7f";
    assert Digits(2047, 16) == "7ff";
    assert Digits(32767, 16) == "7fff";
    assert Digits(524287, 16) == "7ffff";
    assert Digits(8388607, 16) == "7fffff";
    assert Digits(134217727, 16) == "7ffffff";
  }

  /** The first value past 0x7FFFFFFF, 0x80000000, is stored as -1. */
  lemma SignBitTokenInvalid()
    ensures RangeValues(["80000000"], 0, 1) == Some([-1])
  {
    SignBitDigits();
    HexRoundTrip(2147483648);
    assert HexValue(["80000000"][0]) == Some(2147483648);
    RangeValuesComplete(["80000000"], 0, 1, [-1]);
  }

  /** The largest kept value, 0x7fffffff, is stored unchanged. */
  lemma LargestTokenKept()
    ensures RangeValues(["7fffffff"], 0, 1) == Some([MaxValidRaw])
  {
    LargestDigits();
    HexRoundTrip(2147483647);
    assert HexValue(["7fffffff"][0]) == Some(2147483647);
    RangeValuesComplete(["7fffffff"], 0, 1, [MaxValidRaw]);
  }

  /** The role token splits into role, base and tag around its one colon; a second colon rejects the frame. */
  lemma SplitRoleProperties(roleInfo: string)
    ensures !IsSubstring(":", roleInfo) ==>
      SplitRole(roleInfo) == Some((if |roleInfo| > 0 then [roleInfo[0]] else "", if |roleInfo| > 1 then roleInfo[1..] else "", ""))
    ensures SplitRole(roleInfo).Some? && IsSubstring(":", roleInfo) ==>
      var (role, base, tag) := SplitRole(roleInfo).value;
      role == [roleInfo[0]] && roleInfo[1..] == base + ":" + tag
      && !IsSubstring(":", base) && !IsSubstring(":", tag)
  {
    if IsSubstring(":", roleInfo) && SplitRole(roleInfo).Some? {
      var rest := roleInfo[1..];
      var parts := Split(rest, ":");
      SplitJoin(rest, ":");
      SplitPiecesFree(rest, ":");
      assert Join(parts, ":") == parts[0] + ":" + parts[1] by {
        assert parts[1..] == [parts[1]];
      }
    }
  }

  /**
   * SerialReceiver's state: the queue, the callback flag, the calibration buffer, whether the port
   * is open and the commands written to it.
   */
  class Receiver {
    var queue: seq<RangingData>
    var callbackSet: bool
    var calibrationMode: bool
    var calibrationData: seq<CalibrationSample>
    var portOpen: bool
    var written: seq<string>

    ghost predicate Valid()
      reads this`queue
    {
      |queue| <= Fifo.QueueCapacity
    }

    constructor()
      ensures Valid() && queue == [] && !callbackSet && !calibrationMode && calibrationData == []
      ensures !portOpen && written == []
    {
      queue := [];
      callbackSet := false;
      calibrationMode := false;
      calibrationData := [];
      portOpen := false;
      written := [];
    }

    /**
     * send_command: refused without an open port; otherwise the command, CRLF-terminated unless it
     * already is, is written when the port accepts it.
     */
    method SendCommand(command: string, writeSucceeds: bool) returns (ok: bool)
      modifies this
      ensures ok == (old(portOpen) && writeSucceeds)
      ensures written == if ok then old(written) + [SerialHandler.Terminated(command)] else old(written)
      ensures portOpen == old(portOpen) && queue == old(queue) && callbackSet == old(callbackSet)
      ensures calibrationMode == old(calibrationMode) && calibrationData == old(calibrationData)
    {
      if !portOpen || !writeSucceeds {
        return false;
      }
      written := written + [SerialHandler.Terminated(command)];
      return true;
    }

    /** enter_calibration_mode: sends "la"; the calibration flag is not touched. */
    method EnterCalibrationMode(writeSucceeds: bool) returns (ok: bool)
      modifies this
      ensures ok == (old(portOpen) && writeSucceeds)
      ensures written == if ok then old(written) + ["la\r\n"] else old(written)
      ensures calibrationMode == old(calibrationMode) && queue == old(queue)
      ensures portOpen == old(portOpen) && callbackSet == old(callbackSet) && calibrationData == old(calibrationData)
    {
      assert SerialHandler.Terminated("la") == "la\r\n";
      ok := SendCommand("la", writeSucceeds);
    }

    /** exit_calibration_mode: sends "les". */
    method ExitCalibrationMode(writeSucceeds: bool) returns (ok: bool)
      modifies this
      ensures ok == (old(portOpen) && writeSucceeds)
      ensures written == if ok then old(written) + ["les\r\n"] else old(written)
      ensures calibrationMode == old(calibrationMode) && queue == old(queue)
      ensures portOpen == old(portOpen) && callbackSet == old(callbackSet) && calibrationData == old(calibrationData)
    {
      assert SerialHandler.Terminated("les") == "les\r\n";
      ok := SendCommand("les", writeSucceeds);
    }

    /**
     * _handle_parsed_data: drop-oldest enqueue; the callback is reported (the result) when set;
     * in calibration mode a copy of the ranges is recorded with the clock reading `now`.
     */
    method HandleParsedData(data: RangingData, now: real) returns (notified: bool)
      requires Valid()
      modifies this`queue, this`calibrationData
      ensures Valid()
      ensures queue == Fifo.Offer(old(queue), data, Fifo.QueueCapacity)
      ensures notified == callbackSet
      ensures calibrationData == if calibrationMode then old(calibrationData) + [CalibrationSample(data.ranges, now, data.baseStationId)]
                                 else old(calibrationData)
      ensures callbackSet == old(callbackSet) && calibrationMode == old(calibrationMode)
    {
      if |queue| < Fifo.QueueCapacity {
        queue := queue + [data];
      } else {
        queue := queue[1..] + [data];
      }
      notified := callbackSet;
      if calibrationMode {
        calibrationData := calibrationData + [CalibrationSample(data.ranges, now, data.baseStationId)];
      }
    }

    /** get_latest_data: takes the front, i.e. the OLDEST queued item, or None for an empty queue. */
    method GetLatestData() returns (r: Option<RangingData>)
      requires Valid()
      modifies this
      ensures Valid()
      ensures old(queue) == [] ==> r.None? && queue == []
      ensures old(queue) != [] ==> r == Some(old(queue)[0]) && queue == old(queue)[1..]
      ensures callbackSet == old(callbackSet) && calibrationMode == old(calibrationMode) && calibrationData == old(calibrationData)
      ensures portOpen == old(portOpen) && written == old(written)
    {
      if queue == [] {
        return None;
      }
      r := Some(queue[0]);
      queue := queue[1..];
    }

    /** get_all_data: every queued item, oldest first; the queue is left empty. */
    method GetAllData() returns (items: seq<RangingData>)
      requires Valid()
      modifies this
      ensures Valid() && items == old(queue) && queue == []
      ensures callbackSet == old(callbackSet) && calibrationMode == old(calibrationMode) && calibrationData == old(calibrationData)
      ensures portOpen == old(portOpen) && written == old(written)
    {
      items := Fifo.DrainAll(queue);
      queue := [];
    }

    /** start_calibration: calibration mode on, buffer cleared. */
    method StartCalibration()
      modifies this
      ensures calibrationMode && calibrationData == []
      ensures queue == old(queue) && callbackSet == old(callbackSet)
      ensures portOpen == old(portOpen) && written == old(written)
    {
      calibrationMode := true;
      calibrationData := [];
    }

    /** stop_calibration: returns everything collected, in order, and leaves the buffer empty. */
    method StopCalibration() returns (data: seq<CalibrationSample>)
      modifies this
      ensures !calibrationMode && data == old(calibrationData) && calibrationData == []
      ensures queue == old(queue) && callbackSet == old(callbackSet)
      ensures portOpen == old(portOpen) && written == old(written)
    {
      calibrationMode := false;
      data := calibrationData;
      calibrationData := [];
    }

    /**
     * One pass of _receive_loop over its local buffer: every complete non-blank frame (stripped)
     * that parses is handled in order; the returned buffer is the incomplete tail.
     */
    method ReceiveChunk(buffer: string, data: string, now: real) returns (rest: string, notified: nat)
      requires Valid()
      modifies this`queue, this`calibrationData
      ensures Valid()
      ensures rest == SerialHandler.Remainder(buffer + data)
      ensures var handled := Parsed(SerialHandler.CompleteFrames(buffer + data));
        && queue == Fifo.KeepNewest(old(queue) + handled, Fifo.QueueCapacity)
        && notified == (if callbackSet then |handled| else 0)
        && calibrationData == old(calibrationData) + (if calibrationMode then Samples(handled, now) else [])
      ensures callbackSet == old(callbackSet) && calibrationMode == old(calibrationMode)
    {
      var all := buffer + data;
      rest := all;
      notified := 0;
      if IsSubstring(SerialHandler.Crlf, all) {
        var frames := Split(all, SerialHandler.Crlf);
        notified := HandleFrames(frames[..|frames| - 1], now);
        rest := frames[|frames| - 1];
      } else {
        assert Parsed([]) == [];
        Fifo.KeepNewestWithin(old(queue), Fifo.QueueCapacity);
      }
    }

    /** The frame loop of _receive_loop: each frame is handled in order. */
    method HandleFrames(frames: seq<string>, now: real) returns (notified: nat)
      requires Valid()
      modifies this`queue, this`calibrationData
      ensures Valid()
      ensures queue == Fifo.KeepNewest(old(queue) + Parsed(frames), Fifo.QueueCapacity)
      ensures notified == (if callbackSet then |Parsed(frames)| else 0)
      ensures calibrationData == old(calibrationData) + (if calibrationMode then Samples(Parsed(frames), now) else [])
      ensures callbackSet == old(callbackSet) && calibrationMode == old(calibrationMode)
    {
      notified := 0;
      var k := 0;
      ghost var handled: seq<RangingData> := [];
      Fifo.KeepNewestWithin(old(queue), Fifo.QueueCapacity);
      while k < |frames|
        invariant 0 <= k <= |frames| && Valid() && handled == Parsed(frames[..k])
        invariant queue == Fifo.KeepNewest(old(queue) + handled, Fifo.QueueCapacity)
        invariant notified == (if callbackSet then |handled| else 0)
        invariant calibrationData == old(calibrationData) + (if calibrationMode then Samples(handled, now) else [])
        invariant callbackSet == old(callbackSet) && calibrationMode == old(calibrationMode)
      {
        ghost var item := PrefixStep(frames, k);
        ghost var queueBefore, samplesBefore := queue, calibrationData;
        var called := HandleFrame(frames[k], now);
        assert queue == Fifo.OfferAll(queueBefore, item, Fifo.QueueCapacity);
        Fifo.OfferBatch(old(queue), handled, item, Fifo.QueueCapacity);
        SamplesStep(old(calibrationData), handled, item, now, calibrationMode, samplesBefore, calibrationData);
        handled := handled + item;
        notified := notified + called;
        k := k + 1;
      }
      assert frames[..k] == frames;
    }

    /** One frame of the receive loop: blank or unparsable frames change nothing. */
    method HandleFrame(frame: string, now: real) returns (called: nat)
      requires Valid()
      modifies this`queue, this`calibrationData
      ensures Valid()
      ensures queue == Fifo.OfferAll(old(queue), FrameItems(frame), Fifo.QueueCapacity)
      ensures called == (if callbackSet then |FrameItems(frame)| else 0)
      ensures calibrationData == old(calibrationData) + (if calibrationMode then Samples(FrameItems(frame), now) else [])
      ensures callbackSet == old(callbackSet) && calibrationMode == old(calibrationMode)
    {
      called := 0;
      ghost var items := FrameItems(frame);
      if Strip(frame) != "" {
        var parsed := ParseData(Strip(frame));
        if parsed.Some? {
          assert items == [parsed.value];
          var notify := HandleParsedData(parsed.value, now);
          called := if notify then 1 else 0;
          assert [parsed.value][1..] == [];
          assert Samples(items, now) == [CalibrationSample(parsed.value.ranges, now, parsed.value.baseStationId)];
        } else {
          assert items == [];
        }
      } else {
        assert items == [];
      }
    }
  }

  /** The items a single received frame contributes: none for a blank or unparsable frame. */
  function FrameItems(frame: string): (r: seq<RangingData>)
    ensures |r| <= 1
  {
    if Strip(frame) == "" then []
    else match ParseData(Strip(frame))
      case None => []
      case Some(d) => [d]
  }

  /** The parsed items of a run of frames, blank and unparsable frames skipped. */
  function Parsed(frames: seq<string>): seq<RangingData>
  {
    if frames == [] then [] else Parsed(frames[..|frames| - 1]) + FrameItems(frames[|frames| - 1])
  }

  function Samples(items: seq<RangingData>, now: real): (r: seq<CalibrationSample>)
    ensures |r| == |items|
  {
    seq(|items|, i requires 0 <= i < |items| => CalibrationSample(items[i].ranges, now, items[i].baseStationId))
  }

  /** The items of one more frame extend those of the frames before it. */
  lemma PrefixStep(frames: seq<string>, k: nat) returns (item: seq<RangingData>)
    requires k < |frames|
    ensures item == FrameItems(frames[k]) && Parsed(frames[..k + 1]) == Parsed(frames[..k]) + item
  {
    assert frames[..k + 1][..k] == frames[..k];
    item := FrameItems(frames[k]);
  }

  /** Recording one more batch after a run of items records the samples of the whole run. */
  lemma SamplesStep(base: seq<CalibrationSample>, handled: seq<RangingData>, item: seq<RangingData>, now: real,
                    mode: bool, before: seq<CalibrationSample>, after: seq<CalibrationSample>)
    requires before == base + (if mode then Samples(handled, now) else [])
    requires after == before + (if mode then Samples(item, now) else [])
    ensures after == base + (if mode then Samples(handled + item, now) else [])
  {
    if mode {
      SamplesAppend(handled, item, now);
      assert after == base + (Samples(handled, now) + Samples(item, now));
    } else {
      assert after == base + [];
    }
  }

  /** The samples of consecutive batches concatenate. */
  lemma SamplesAppend(done: seq<RangingData>, item: seq<RangingData>, now: real)
    ensures Samples(done + item, now) == Samples(done, now) + Samples(item, now)
  {
  }
}
