/**
 * The GNSS TCP server's client handler: the receive loop, newline framing of the byte stream,
 * validation of each decoded line and forwarding over the ZMQ PUSH socket. The sockets, the
 * accept loop and the threads are left out: a connection is the sequence of byte strings that
 * recv returned, and decoding a line is a parameter.
 */
module TcpServer {
  import opened Wrappers
  import opened Json
  import opened PyText

  const ZmqBindAddr: string := "tcp://127.0.0.1:5555"
  const TcpHost: string := "0.0.0.0"
  const TcpPort: int := 7799
  const RecvSize: int := 1024

  /** The keys a message must have to be forwarded, tested in this order. */
  const RequiredKeys: seq<string> := ["client_id", "lat", "lng"]

  /**
   * What `json.loads(line.decode().strip())` gives for one line: a value, a JSONDecodeError,
   * or a UnicodeDecodeError from bytes that are not UTF-8.
   */
  datatype Decoded = Message(value: JValue) | NotJson | NotUtf8

  type LineDecoder = string -> Decoded

  /** What handling one line does. */
  datatype Outcome =
    | Skipped              // blank line
    | Dropped              // JSON parse error, or a required key missing
    | Forwarded(msg: JValue)
    | Failed               // an exception the client handler does not catch: the connection ends

  // ----- framing

  /**
   * `while b'\n' in buffer: line, buffer = buffer.split(b'\n', 1)`: the complete lines in
   * order and the bytes left after the last newline.
   */
  function Frames(buffer: string): (r: (seq<string>, string))
    decreases |buffer|
  {
    var k := IndexOf(buffer, '\n');
    if k < |buffer| then
      var tail := Frames(buffer[k + 1..]);
      ([buffer[..k]] + tail.0, tail.1)
    else ([], buffer)
  }

  /** One framing step. */
  lemma FrameUnfold(buffer: string) returns (k: nat)
    ensures k == IndexOf(buffer, '\n')
    ensures k < |buffer| ==>
      Frames(buffer) == ([buffer[..k]] + Frames(buffer[k + 1..]).0, Frames(buffer[k + 1..]).1)
    ensures k >= |buffer| ==> Frames(buffer) == ([], buffer)
  {
    k := IndexOf(buffer, '\n');
  }

  /** One framing step, with the matching step of str.split. */
  lemma FrameStep(buffer: string) returns (k: nat)
    ensures k == IndexOf(buffer, '\n') && (k < |buffer| <==> '\n' in buffer)
    ensures k < |buffer| ==>
      && Frames(buffer) == ([buffer[..k]] + Frames(buffer[k + 1..]).0, Frames(buffer[k + 1..]).1)
      && Split(buffer, "\n") == [buffer[..k]] + Split(buffer[k + 1..], "\n")
    ensures k == |buffer| ==> Frames(buffer) == ([], buffer) && Split(buffer, "\n") == [buffer]
  {
    IndexOfSpec(buffer, '\n');
    FindChar(buffer, '\n');
    k := IndexOf(buffer, '\n');
  }

  /** The framing is str.split on LF with the last piece kept back as the buffer. */
  lemma {:induction false} FramesMatchSplit(buffer: string)
    ensures var pieces := Split(buffer, "\n");
      Frames(buffer) == (pieces[..|pieces| - 1], pieces[|pieces| - 1])
    decreases |buffer|
  {
    var k := FrameStep(buffer);
    if k < |buffer| {
      FramesMatchSplit(buffer[k + 1..]);
      var pieces := Split(buffer[k + 1..], "\n");
      assert ([buffer[..k]] + pieces)[..|pieces|] == [buffer[..k]] + pieces[..|pieces| - 1];
    }
  }

  /**
   * Nothing is lost or invented: the lines and the kept tail, joined with LF, are the buffer;
   * no line and not the tail contains an LF.
   */
  lemma FramesRejoin(buffer: string)
    ensures Join(Frames(buffer).0 + [Frames(buffer).1], "\n") == buffer
    ensures forall i :: 0 <= i < |Frames(buffer).0| ==> '\n' !in Frames(buffer).0[i]
    ensures '\n' !in Frames(buffer).1
  {
    var pieces := Split(buffer, "\n");
    FramesMatchSplit(buffer);
    assert Frames(buffer).0 + [Frames(buffer).1] == pieces;
    SplitJoin(buffer, "\n");
    SplitPiecesFree(buffer, "\n");
    forall i | 0 <= i < |pieces|
      ensures '\n' !in pieces[i]
    {
      OccursSingle(pieces[i], '\n');
    }
    assert Frames(buffer).1 == pieces[|pieces| - 1];
  }

  lemma {:induction false} IndexOfAppend(s: string, t: string, c: char)
    ensures IndexOf(s, c) < |s| ==> IndexOf(s + t, c) == IndexOf(s, c)
    ensures IndexOf(s, c) == |s| ==> IndexOf(s + t, c) == |s| + IndexOf(t, c)
  {
    if s != [] {
      assert (s + t)[1..] == s[1..] + t;
      IndexOfAppend(s[1..], t, c);
    } else {
      assert s + t == t;
    }
  }

  /**
   * Data arriving in pieces is framed as if it had arrived at once: the lines of s + t are the
   * lines of s followed by the lines of s's tail with t appended.
   */
  lemma {:induction false} FramesAppend(s: string, t: string)
    ensures Frames(s + t).0 == Frames(s).0 + Frames(Frames(s).1 + t).0
    ensures Frames(s + t).1 == Frames(Frames(s).1 + t).1
    decreases |s|
  {
    var k := IndexOf(s, '\n');
    if k < |s| {
      FramesAppend(s[k + 1..], t);
      AppendAfterCut(s, t, k);
    } else {
      AppendWithoutCut(s, t);
    }
  }

  /** FramesAppend when s holds an LF at k, given the statement for what follows it. */
  lemma AppendAfterCut(s: string, t: string, k: nat)
    requires k == IndexOf(s, '\n') < |s|
    requires var u := s[k + 1..];
      && Frames(u + t).0 == Frames(u).0 + Frames(Frames(u).1 + t).0
      && Frames(u + t).1 == Frames(Frames(u).1 + t).1
    ensures Frames(s + t).0 == Frames(s).0 + Frames(Frames(s).1 + t).0
    ensures Frames(s + t).1 == Frames(Frames(s).1 + t).1
  {
    var u := s[k + 1..];
    IndexOfAppend(s, t, '\n');
    SliceOfAppend(s, t, k);
    var whole := CutAt(s + t, k);
    var part := CutAt(s, k);
    assert whole == ([s[..k]] + Frames(u + t).0, Frames(u + t).1);
    assert part == ([s[..k]] + Frames(u).0, Frames(u).1);
    Assoc([s[..k]], Frames(u).0, Frames(Frames(u).1 + t).0);
  }

  /** The framing of a buffer whose first LF is at k. */
  lemma CutAt(buffer: string, k: nat) returns (r: (seq<string>, string))
    requires k == IndexOf(buffer, '\n') < |buffer|
    ensures r == Frames(buffer)
    ensures r == ([buffer[..k]] + Frames(buffer[k + 1..]).0, Frames(buffer[k + 1..]).1)
  {
    r := Frames(buffer);
  }

  lemma SliceOfAppend(s: string, t: string, k: nat)
    requires k < |s|
    ensures (s + t)[..k] == s[..k] && (s + t)[k + 1..] == s[k + 1..] + t
  {
  }

  lemma Assoc<T>(a: seq<T>, b: seq<T>, c: seq<T>)
    ensures a + (b + c) == (a + b) + c
  {
  }

  /** FramesAppend when s holds no LF: all its bytes are the tail. */
  lemma AppendWithoutCut(s: string, t: string)
    requires IndexOf(s, '\n') == |s|
    ensures Frames(s + t).0 == Frames(s).0 + Frames(Frames(s).1 + t).0
    ensures Frames(s + t).1 == Frames(Frames(s).1 + t).1
  {
    var k := FrameUnfold(s);
    assert Frames(s).0 + Frames(s + t).0 == Frames(s + t).0;
  }

  /** `line, buffer = buffer.split(b'\n', 1)` on a buffer that holds an LF. */
  method CutLine(buffer: string) returns (line: string, rest: string)
    requires '\n' in buffer
    ensures |rest| < |buffer|
    ensures Frames(buffer) == ([line] + Frames(rest).0, Frames(rest).1)
    ensures Split(buffer, "\n") == [line] + Split(rest, "\n")
  {
    ghost var k := FrameStep(buffer);
    var n := IndexOf(buffer, '\n');
    line := buffer[..n];
    rest := buffer[n + 1..];
  }

  // ----- one line

  /** `f"{value:.6f}"` succeeds for int, float and bool; anything else raises. */
  predicate FormatsFixed(v: JValue)
  {
    v.JInt? || v.JFloat? || v.JBool?
  }

  /** The body of the framing loop for one line. */
  function HandleLine(line: string, decode: LineDecoder): Outcome
  {
    if BytesStrip(line) == "" then Skipped
    else
      match decode(line)
      case NotUtf8 => Failed
      case NotJson => Dropped
      case Message(msg) =>
        match ContainsAll(msg, RequiredKeys)
        case Err(_) => Failed
        case Ok(false) => Dropped
        case Ok(true) =>
          if msg.JObj? && FormatsFixed(msg.fields["lat"]) && FormatsFixed(msg.fields["lng"])
          then Forwarded(msg)
          else Failed
  }

  /** A line is skipped exactly when it is blank, whatever the decoder would say. */
  lemma BlankSkipped(line: string, decode: LineDecoder)
    ensures HandleLine(line, decode) == Skipped <==> forall i :: 0 <= i < |line| ==> IsAsciiSpace(line[i])
  {
  }

  /**
   * A line is forwarded exactly when it is not blank and decodes to an object holding
   * client_id, lat and lng with printable coordinates, and then the decoded message itself goes out.
   */
  lemma ForwardedIff(line: string, decode: LineDecoder)
    ensures HandleLine(line, decode).Forwarded? <==>
      && BytesStrip(line) != ""
      && decode(line).Message? && decode(line).value.JObj?
      && (forall k :: k in RequiredKeys ==> k in decode(line).value.fields)
      && FormatsFixed(decode(line).value.fields["lat"])
      && FormatsFixed(decode(line).value.fields["lng"])
    ensures HandleLine(line, decode).Forwarded? ==> HandleLine(line, decode).msg == decode(line).value
  {
  }

  /** A decoded object without one of the required keys is dropped, not forwarded. */
  lemma MissingKeyDropped(line: string, decode: LineDecoder, fields: map<string, JValue>)
    requires BytesStrip(line) != "" && decode(line) == Message(JObj(fields))
    requires exists k :: k in RequiredKeys && k !in fields
    ensures HandleLine(line, decode) == Dropped
  {
  }

  /** A line that is not JSON is dropped. */
  lemma UndecodableDropped(line: string, decode: LineDecoder)
    requires BytesStrip(line) != "" && decode(line) == NotJson
    ensures HandleLine(line, decode) == Dropped
  {
  }

  /**
   * The exceptions that escape the inner handler: bytes that are not UTF-8, a message on which
   * `in` raises (a number, null, a bool), and a non-numeric lat.
   */
  lemma FailureCases(line: string, decode: LineDecoder)
    requires BytesStrip(line) != ""
    ensures decode(line) == NotUtf8 ==> HandleLine(line, decode) == Failed
    ensures decode(line).Message? && !(decode(line).value.JObj? || decode(line).value.JArr? || decode(line).value.JStr?)
      ==> HandleLine(line, decode) == Failed
    ensures decode(line).Message? && decode(line).value.JObj?
      && (forall k :: k in RequiredKeys ==> k in decode(line).value.fields)
      && decode(line).value.fields["lat"].JStr?
      ==> HandleLine(line, decode) == Failed
  {
  }

  // ----- a run of lines

  /** Folds one outcome into (forwarded messages, connection failed); nothing changes after a failure. */
  function Step(prev: (seq<JValue>, bool), o: Outcome): (r: (seq<JValue>, bool))
  {
    if prev.1 then prev
    else
      match o
      case Forwarded(m) => (prev.0 + [m], false)
      case Failed => (prev.0, true)
      case _ => prev
  }

  /** The lines handled in order, up to the first failure. */
  function Run(lines: seq<string>, decode: LineDecoder): (seq<JValue>, bool)
  {
    if lines == [] then ([], false)
    else Step(Run(lines[..|lines| - 1], decode), HandleLine(lines[|lines| - 1], decode))
  }

  lemma RunSnoc(lines: seq<string>, line: string, decode: LineDecoder)
    ensures Run(lines + [line], decode) == Step(Run(lines, decode), HandleLine(line, decode))
  {
    assert (lines + [line])[..|lines|] == lines;
  }

  /** After a failure no later line has any effect. */
  lemma {:induction false} RunSticky(a: seq<string>, b: seq<string>, decode: LineDecoder)
    requires Run(a, decode).1
    ensures Run(a + b, decode) == Run(a, decode)
    decreases |b|
  {
    if b == [] {
      assert a + b == a;
    } else {
      var b' := b[..|b| - 1];
      assert a + b == (a + b') + [b[|b| - 1]];
      assert b' + [b[|b| - 1]] == b;
      RunSticky(a, b', decode);
      RunSnoc(a + b', b[|b| - 1], decode);
    }
  }

  /** The forwarded messages are, in order, those of the lines forwarded before any failure. */
  function ForwardedBy(lines: seq<string>, decode: LineDecoder): seq<JValue>
  {
    if lines == [] then []
    else
      match HandleLine(lines[0], decode)
      case Failed => []
      case Forwarded(m) => [m] + ForwardedBy(lines[1..], decode)
      case _ => ForwardedBy(lines[1..], decode)
  }

  /** `Run` agrees with the line-by-line reading from the front. */
  lemma {:induction false} RunMatchesForwardedBy(lines: seq<string>, decode: LineDecoder)
    ensures Run(lines, decode).0 == ForwardedBy(lines, decode)
    decreases |lines|
  {
    if lines != [] {
      RunPrepend(lines[0], lines[1..], decode);
      RunMatchesForwardedBy(lines[1..], decode);
      assert [lines[0]] + lines[1..] == lines;
    }
  }

  /** A run fails exactly when one of its lines fails. */
  lemma {:induction false} RunFailsIff(lines: seq<string>, decode: LineDecoder)
    ensures Run(lines, decode).1 <==> exists i :: 0 <= i < |lines| && HandleLine(lines[i], decode) == Failed
    decreases |lines|
  {
    if lines != [] {
      var t := lines[..|lines| - 1];
      var x := lines[|lines| - 1];
      assert t + [x] == lines;
      RunSnoc(t, x, decode);
      RunFailsIff(t, decode);
      FailsSnoc(t, x, decode);
    }
  }

  lemma FailsSnoc(t: seq<string>, x: string, decode: LineDecoder)
    ensures (exists i :: 0 <= i < |t + [x]| && HandleLine((t + [x])[i], decode) == Failed)
      <==> (exists i :: 0 <= i < |t| && HandleLine(t[i], decode) == Failed) || HandleLine(x, decode) == Failed
  {
    var l := t + [x];
    if exists i :: 0 <= i < |t| && HandleLine(t[i], decode) == Failed {
      var i :| 0 <= i < |t| && HandleLine(t[i], decode) == Failed;
      assert l[i] == t[i];
    }
    if HandleLine(x, decode) == Failed {
      assert l[|t|] == x;
    }
    if exists i :: 0 <= i < |l| && HandleLine(l[i], decode) == Failed {
      var i :| 0 <= i < |l| && HandleLine(l[i], decode) == Failed;
      if i < |t| {
        assert t[i] == l[i];
      }
    }
  }

  /** A message in front of a run passes through a step unchanged. */
  lemma StepPrepend(m: JValue, p: (seq<JValue>, bool), o: Outcome)
    ensures Step(([m] + p.0, p.1), o) == ([m] + Step(p, o).0, Step(p, o).1)
  {
    if !p.1 && o.Forwarded? {
      assert [m] + p.0 + [o.msg] == [m] + (p.0 + [o.msg]);
    }
  }

  /** What one more line in front does to `Run`. */
  lemma {:induction false} RunPrepend(h: string, t: seq<string>, decode: LineDecoder)
    ensures HandleLine(h, decode) == Failed ==> Run([h] + t, decode) == ([], true)
    ensures HandleLine(h, decode).Forwarded? ==>
      Run([h] + t, decode) == ([HandleLine(h, decode).msg] + Run(t, decode).0, Run(t, decode).1)
    ensures HandleLine(h, decode).Skipped? || HandleLine(h, decode).Dropped? ==>
      Run([h] + t, decode) == Run(t, decode)
    decreases |t|
  {
    if t == [] {
      RunSnoc([], h, decode);
      assert [] + [h] == [h] + t;
      if HandleLine(h, decode).Forwarded? {
        var m := HandleLine(h, decode).msg;
        assert [] + [m] == [m] + [];
      }
    } else {
      var t' := t[..|t| - 1];
      var x := t[|t| - 1];
      assert [h] + t == ([h] + t') + [x];
      assert t' + [x] == t;
      RunPrepend(h, t', decode);
      RunSnoc([h] + t', x, decode);
      RunSnoc(t', x, decode);
      var o := HandleLine(h, decode);
      if o.Forwarded? {
        StepPrepend(o.msg, Run(t', decode), HandleLine(x, decode));
      }
    }
  }

  /** Every forwarded message is an object holding client_id, lat and lng. */
  lemma {:induction false} ForwardedAreValid(lines: seq<string>, decode: LineDecoder)
    ensures forall m :: m in ForwardedBy(lines, decode) ==>
      m.JObj? && forall k :: k in RequiredKeys ==> k in m.fields
    decreases |lines|
  {
    if lines != [] {
      ForwardedAreValid(lines[1..], decode);
      ForwardedIff(lines[0], decode);
    }
  }

  // ----- the receive stream

  /** Index of the first empty receive, which ends the loop, or the length when there is none. */
  function StreamEnd(chunks: seq<string>): (n: nat)
    ensures n <= |chunks|
  {
    if chunks == [] then 0 else if chunks[0] == "" then 0 else 1 + StreamEnd(chunks[1..])
  }

  lemma {:induction false} StreamEndSpec(chunks: seq<string>)
    ensures StreamEnd(chunks) < |chunks| ==> chunks[StreamEnd(chunks)] == ""
    ensures forall j :: 0 <= j < StreamEnd(chunks) ==> chunks[j] != ""
  {
    if chunks != [] && chunks[0] != "" {
      StreamEndSpec(chunks[1..]);
      assert forall j :: 1 <= j < |chunks| ==> chunks[j] == chunks[1..][j - 1];
    }
  }

  /** A non-empty receive at i, within the stream, extends it past i. */
  lemma {:induction false} StreamEndNext(chunks: seq<string>, i: nat)
    requires i <= StreamEnd(chunks) && i < |chunks| && chunks[i] != ""
    ensures i + 1 <= StreamEnd(chunks)
  {
    if i > 0 {
      StreamEndNext(chunks[1..], i - 1);
    }
  }

  /** The stream ends at the first empty receive, or with the receives. */
  lemma StreamEndStops(chunks: seq<string>, i: nat)
    requires i <= StreamEnd(chunks) && (i == |chunks| || chunks[i] == "")
    ensures i == StreamEnd(chunks)
  {
    StreamEndSpec(chunks);
  }

  /** The receives the handler reads: those before the first empty one. */
  function Received(chunks: seq<string>): seq<string>
  {
    chunks[..StreamEnd(chunks)]
  }

  /** Nothing is read after an empty receive. */
  lemma AfterEmptyIgnored(before: seq<string>, later: seq<string>)
    ensures Received(before + [""] + later) == Received(before + [""])
  {
    var a := before + [""] + later;
    var b := before + [""];
    StreamEndSpec(a);
    StreamEndSpec(b);
    assert a[|before|] == "" && b[|before|] == "";
    assert forall j :: 0 <= j <= |before| ==> a[j] == b[j];
    assert StreamEnd(a) == StreamEnd(b);
    assert a[..StreamEnd(a)] == b[..StreamEnd(b)];
  }

  /** The bytes of a sequence of receives, concatenated. */
  function Concat(chunks: seq<string>): string
  {
    if chunks == [] then "" else Concat(chunks[..|chunks| - 1]) + chunks[|chunks| - 1]
  }

  lemma {:induction false} ConcatPrefix(chunks: seq<string>, i: nat, j: nat) returns (extra: string)
    requires i <= j <= |chunks|
    ensures Concat(chunks[..j]) == Concat(chunks[..i]) + extra
    decreases j
  {
    if i == j {
      extra := "";
    } else {
      var more := ConcatPrefix(chunks, i, j - 1);
      assert chunks[..j][..j - 1] == chunks[..j - 1];
      extra := more + chunks[j - 1];
    }
  }

  /** The lines of the whole connection. */
  function ClientLines(chunks: seq<string>): seq<string>
  {
    Frames(Concat(Received(chunks))).0
  }

  /** Framing the first i + 1 receives continues the framing of the first i with the next one. */
  lemma ChunkStep(chunks: seq<string>, i: nat)
    requires i < |chunks|
    ensures var f := Frames(Concat(chunks[..i]));
      Frames(Concat(chunks[..i + 1])) == (f.0 + Frames(f.1 + chunks[i]).0, Frames(f.1 + chunks[i]).1)
  {
    var all := Concat(chunks[..i]);
    FramesAppend(all, chunks[i]);
    assert chunks[..i + 1][..i] == chunks[..i];
    assert Concat(chunks[..i + 1]) == all + chunks[i];
  }

  /** `Run` of a prefix of the connection's lines, once failed, is the run of all of them. */
  lemma FailureEndsConnection(chunks: seq<string>, i: nat, decode: LineDecoder)
    requires i <= StreamEnd(chunks)
    requires Run(Frames(Concat(chunks[..i])).0, decode).1
    ensures Run(ClientLines(chunks), decode) == Run(Frames(Concat(chunks[..i])).0, decode)
  {
    var extra := ConcatPrefix(chunks, i, StreamEnd(chunks));
    FramesAppend(Concat(chunks[..i]), extra);
    RunSticky(Frames(Concat(chunks[..i])).0, Frames(Frames(Concat(chunks[..i])).1 + extra).0, decode);
  }

  lemma Regroup(seen: seq<string>, line: string, later: seq<string>, all: seq<string>)
    requires seen + ([line] + later) == all
    ensures (seen + [line]) + later == all
  {
  }

  /** The server's forwarding state; the TCP and ZMQ sockets themselves are left out. */
  class Server {
    /** HAS_ZMQ: pyzmq could be imported. */
    const zmqAvailable: bool
    /** start has created the PUSH socket. */
    var socketOpen: bool
    /** The messages sent on the PUSH socket, in order. */
    var forwarded: seq<JValue>
    var stopRequested: bool

    constructor(hasZmq: bool)
      ensures zmqAvailable == hasZmq && !socketOpen && forwarded == [] && !stopRequested
    {
      zmqAvailable := hasZmq;
      socketOpen := false;
      forwarded := [];
      stopRequested := false;
    }

    /** start, up to its accept loop: the PUSH socket exists exactly when pyzmq does. */
    method Start()
      modifies this`socketOpen, this`stopRequested
      ensures socketOpen == zmqAvailable && !stopRequested
    {
      socketOpen := zmqAvailable;
      stopRequested := false;
    }

    method Stop()
      modifies this`stopRequested
      ensures stopRequested
    {
      stopRequested := true;
    }

    /** The messages a run of lines puts on the socket. */
    function Pushed(lines: seq<string>, decode: LineDecoder): seq<JValue>
      reads this`socketOpen
    {
      if socketOpen then Run(lines, decode).0 else []
    }

    ghost predicate Sent(base: seq<JValue>, lines: seq<string>, decode: LineDecoder)
      reads this`socketOpen, this`forwarded
    {
      forwarded == base + Pushed(lines, decode)
    }

    /** Handles one line after `done`, sending it when it is forwarded and the socket exists. */
    method SendLine(line: string, decode: LineDecoder, ghost base: seq<JValue>, ghost done: seq<string>)
      returns (failed: bool)
      requires Sent(base, done, decode) && !Run(done, decode).1
      modifies this`forwarded
      ensures Sent(base, done + [line], decode)
      ensures failed == Run(done + [line], decode).1
    {
      RunSnoc(done, line, decode);
      var o := HandleLine(line, decode);
      failed := o.Failed?;
      if o.Forwarded? && socketOpen {
        forwarded := forwarded + [o.msg];
      }
    }

    /**
     * The framing loop over one buffer: every complete line after `done` is handled in order
     * until one fails; without a failure the tail after the last LF is what remains.
     */
    method DrainBuffer(buffer: string, decode: LineDecoder, ghost base: seq<JValue>, ghost done: seq<string>)
      returns (rest: string, failed: bool)
      requires Sent(base, done, decode) && !Run(done, decode).1
      modifies this`forwarded
      ensures Sent(base, done + Frames(buffer).0, decode)
      ensures failed == Run(done + Frames(buffer).0, decode).1
      ensures !failed ==> rest == Frames(buffer).1
    {
      rest := buffer;
      failed := false;
      ghost var seen := done;
      while '\n' in rest
        invariant seen + Frames(rest).0 == done + Frames(buffer).0 && Frames(rest).1 == Frames(buffer).1
        invariant Sent(base, seen, decode) && !Run(seen, decode).1
        decreases |rest|
      {
        var line;
        line, rest := CutLine(rest);
        failed := SendLine(line, decode, base, seen);
        Regroup(seen, line, Frames(rest).0, done + Frames(buffer).0);
        seen := seen + [line];
        if failed {
          RunSticky(seen, Frames(rest).0, decode);
          return;
        }
      }
      ghost var k := FrameStep(rest);
      assert seen + [] == seen;
    }

    /**
     * _handle_client over the receives of one connection: the loop stops at the first empty
     * receive or at the first line that fails; the lines of all bytes read are handled in
     * order, and without a failure the bytes after the last LF stay buffered.
     */
    method HandleClient(chunks: seq<string>, decode: LineDecoder) returns (buffer: string, failed: bool)
      modifies this`forwarded
      ensures forwarded == old(forwarded) + Pushed(ClientLines(chunks), decode)
      ensures failed == Run(ClientLines(chunks), decode).1
      ensures !failed ==> buffer == Frames(Concat(Received(chunks))).1
    {
      buffer := "";
      failed := false;
      ghost var base := forwarded;
      ghost var done: seq<string> := [];
      var i := 0;
      while i < |chunks| && chunks[i] != ""
        invariant i <= StreamEnd(chunks)
        invariant done == Frames(Concat(chunks[..i])).0 && buffer == Frames(Concat(chunks[..i])).1
        invariant Sent(base, done, decode) && !Run(done, decode).1
      {
        ChunkStep(chunks, i);
        StreamEndNext(chunks, i);
        buffer := buffer + chunks[i];
        buffer, failed := DrainBuffer(buffer, decode, base, done);
        i := i + 1;
        done := Frames(Concat(chunks[..i])).0;
        if failed {
          FailureEndsConnection(chunks, i, decode);
          return;
        }
      }
      StreamEndStops(chunks, i);
    }
  }
}
