/**
 * The anchor self-calibration serial link: LF-then-CR line framing of the receive buffer, the
 * three measurement formats tried in turn (decoded object, CSV, the `A0-A1: 25000` pattern), the
 * capacity-100 drop-oldest queue with its two draining reads, and the calibration-mode flag that
 * follows successful sends. JSON decoding is a parameter returning an already-decoded value.
 */
module SerialComm {
  import opened Wrappers
  import opened PyText
  import opened Json
  import Fifo

  /** AnchorRangeMeasurement. */
  datatype AnchorRangeMeasurement = AnchorRangeMeasurement(anchorI: int, anchorJ: int, distanceMm: int, timestamp: real)

  /** json.loads: None stands for JSONDecodeError. */
  type Decoder = string -> Option<JValue>

  const CalibrateCommand: string := "CALIBRATE\r\n"
  const ExitCalibrateCommand: string := "EXIT_CAL\r\n"

  // ----- line framing

  /** One step of the framing loop: split once at the first LF, or, without any LF, at the first CR. */
  function Cut(buffer: string): (r: Option<(string, string)>)
    ensures r.Some? ==> |r.value.1| < |buffer|
  {
    var n := IndexOf(buffer, '\n');
    if n < |buffer| then Some((buffer[..n], buffer[n + 1..]))
    else
      var c := IndexOf(buffer, '\r');
      if c < |buffer| then Some((buffer[..c], buffer[c + 1..])) else None
  }

  /**
   * The loop runs exactly while the buffer holds an LF or a CR. A cut line is followed by the
   * first LF; it ends at a CR only when the buffer has no LF at all, and then it holds no CR.
   */
  lemma CutProperties(buffer: string)
    ensures Cut(buffer).None? <==> '\n' !in buffer && '\r' !in buffer
    ensures Cut(buffer).Some? ==>
      var (line, rest) := Cut(buffer).value;
      '\n' !in line
      && ((buffer == line + "\n" + rest)
          || (buffer == line + "\r" + rest && '\n' !in buffer && '\r' !in line))
  {
    IndexOfSpec(buffer, '\n');
    IndexOfSpec(buffer, '\r');
    var n := IndexOf(buffer, '\n');
    var c := IndexOf(buffer, '\r');
    if n < |buffer| {
      assert buffer == buffer[..n] + "\n" + buffer[n + 1..];
    } else if c < |buffer| {
      assert buffer == buffer[..c] + "\r" + buffer[c + 1..];
    }
  }

  /** Every line the loop cuts, empty ones included, in order, and the buffer it leaves. */
  function Lines(buffer: string): (r: (seq<string>, string))
    ensures |r.1| <= |buffer|
    decreases |buffer|
  {
    match Cut(buffer)
    case None => ([], buffer)
    case Some((line, rest)) =>
      var (ls, tail) := Lines(rest);
      ([line] + ls, tail)
  }

  /**
   * No cut line holds an LF; the buffer left over holds neither an LF nor a CR and is a suffix
   * of the input.
   */
  lemma LinesProperties(buffer: string)
    ensures forall i :: 0 <= i < |Lines(buffer).0| ==> '\n' !in Lines(buffer).0[i]
    ensures '\n' !in Lines(buffer).1 && '\r' !in Lines(buffer).1
    ensures EndsWith(buffer, Lines(buffer).1)
  {
    LinesFree(buffer);
    LinesTail(buffer);
  }

  lemma {:induction false} LinesFree(buffer: string)
    ensures forall i :: 0 <= i < |Lines(buffer).0| ==> '\n' !in Lines(buffer).0[i]
    decreases |buffer|
  {
    var cut := CutStep(buffer);
    if cut.Some? {
      LinesFree(cut.value.1);
    }
  }

  lemma {:induction false} LinesTail(buffer: string)
    ensures '\n' !in Lines(buffer).1 && '\r' !in Lines(buffer).1
    ensures EndsWith(buffer, Lines(buffer).1)
    decreases |buffer|
  {
    var cut := CutStep(buffer);
    if cut.Some? {
      var rest := cut.value.1;
      LinesTail(rest);
      var tail := Lines(rest).1;
      assert buffer[|buffer| - |tail|..] == rest[|rest| - |tail|..];
    } else {
      assert buffer[|buffer| - |buffer|..] == buffer;
    }
  }

  /** One step of LinesProperties: the line cut off holds no LF and the rest is a suffix. */
  lemma CutStep(buffer: string) returns (cut: Option<(string, string)>)
    ensures cut == Cut(buffer)
    ensures cut.None? <==> '\n' !in buffer && '\r' !in buffer
    ensures cut.None? ==> Lines(buffer) == ([], buffer)
    ensures cut.Some? ==>
      && '\n' !in cut.value.0
      && |cut.value.1| < |buffer|
      && buffer[|buffer| - |cut.value.1|..] == cut.value.1
      && Lines(buffer) == ([cut.value.0] + Lines(cut.value.1).0, Lines(cut.value.1).1)
  {
    CutProperties(buffer);
    cut := Cut(buffer);
  }

  /** Without any CR, the framing agrees with buffer.split('\n'): all pieces but the last, then the last. */
  lemma {:induction false} LinesMatchSplit(buffer: string)
    requires '\r' !in buffer
    ensures var pieces := Split(buffer, "\n");
      Lines(buffer) == (pieces[..|pieces| - 1], pieces[|pieces| - 1])
    decreases |buffer|
  {
    var n := SplitAtNewline(buffer);
    if n < |buffer| {
      LinesMatchSplit(buffer[n + 1..]);
      var pieces := Split(buffer[n + 1..], "\n");
      assert ([buffer[..n]] + pieces)[..|pieces|] == [buffer[..n]] + pieces[..|pieces| - 1];
    }
  }

  /** One step of LinesMatchSplit: the framing and str.split both cut at the first LF. */
  lemma SplitAtNewline(buffer: string) returns (n: nat)
    requires '\r' !in buffer
    ensures n <= |buffer|
    ensures n < |buffer| ==>
      && '\r' !in buffer[n + 1..]
      && Lines(buffer) == ([buffer[..n]] + Lines(buffer[n + 1..]).0, Lines(buffer[n + 1..]).1)
      && Split(buffer, "\n") == [buffer[..n]] + Split(buffer[n + 1..], "\n")
    ensures n == |buffer| ==> Lines(buffer) == ([], buffer) && Split(buffer, "\n") == [buffer]
  {
    IndexOfSpec(buffer, '\r');
    FindChar(buffer, '\n');
    n := IndexOf(buffer, '\n');
    if n < |buffer| {
      var rest := buffer[n + 1..];
      assert '\r' !in rest by {
        assert forall k :: 0 <= k < |rest| ==> rest[k] == buffer[n + 1 + k];
      }
    }
  }

  // ----- measurement formats

  /**
   * The decoded-object branch: Ok(None) when one of the three keys is missing (the next format is
   * tried), Ok(Some) for a measurement, Err for an exception that escapes to the outer handler
   * (`in` on a number, indexing a list, int() of a non-numeric value).
   */
  function JsonMeasure(payload: JValue): Result<Option<(int, int, int)>>
  {
    match ContainsAll(payload, ["AnchorI", "AnchorJ", "Distance"])
    case Err(e) => Err(e)
    case Ok(false) => Ok(None)
    case Ok(true) =>
      match IntField(payload, "AnchorI")
      case Err(e) => Err(e)
      case Ok(i) =>
        match IntField(payload, "AnchorJ")
        case Err(e) => Err(e)
        case Ok(j) =>
          match IntField(payload, "Distance")
          case Err(e) => Err(e)
          case Ok(d) => Ok(Some((i, j, d)))
  }

  /** int(payload[key]). */
  function IntField(payload: JValue, key: string): Result<int>
  {
    match Index(payload, key)
    case Err(e) => Err(e)
    case Ok(v) => PyInt(v)
  }

  /** The CSV branch: at least three comma-separated fields whose first three are integers. */
  function CsvMeasure(text: string): Option<(int, int, int)>
  {
    var parts := Split(text, ",");
    if |parts| >= 3 then
      match (ParseInt(parts[0], 10), ParseInt(parts[1], 10), ParseInt(parts[2], 10))
      case (Some(i), Some(j), Some(d)) => Some((i, j, d))
      case _ => None
    else None
  }

  predicate IsAsciiDigit(c: char)
  {
    '0' <= c <= '9'
  }

  /** The character classes of the pattern: `\d`, `[\s-]` and `[\s:]`. */
  datatype CharClass = Digit | SpaceOrDash | SpaceOrColon

  predicate InClass(c: char, k: CharClass)
  {
    match k
    case Digit => IsAsciiDigit(c)
    case SpaceOrDash => IsSpace(c) || c == '-'
    case SpaceOrColon => IsSpace(c) || c == ':'
  }

  /** The end of the longest run of class-k characters starting at i (a greedy `+` or `*`). */
  function RunEnd(s: string, i: nat, k: CharClass): (e: nat)
    requires i <= |s|
    ensures i <= e <= |s|
    decreases |s| - i
  {
    if i < |s| && InClass(s[i], k) then RunEnd(s, i + 1, k) else i
  }

  /** The run is maximal: all of it is in the class, and the character after it is not. */
  lemma {:induction false} RunEndMaximal(s: string, i: nat, k: CharClass)
    requires i <= |s|
    ensures forall j :: i <= j < RunEnd(s, i, k) ==> InClass(s[j], k)
    ensures RunEnd(s, i, k) < |s| ==> !InClass(s[RunEnd(s, i, k)], k)
    decreases |s| - i
  {
    if i < |s| && InClass(s[i], k) {
      RunEndMaximal(s, i + 1, k);
    }
  }

  /** `A?` at i: one 'A' is taken when present. */
  function SkipA(s: string, i: nat): (j: nat)
    requires i <= |s|
    ensures i <= j <= |s|
  {
    if i < |s| && s[i] == 'A' then i + 1 else i
  }

  /** The positions where the groups and separators of a match at p start and end. */
  datatype Bounds = Bounds(a: nat, e1: nat, e2: nat, b: nat, e3: nat, e4: nat, e5: nat)

  function BoundsAt(s: string, p: nat): (r: Bounds)
    requires p <= |s|
    ensures p <= r.a <= r.e1 <= r.e2 <= r.b <= r.e3 <= r.e4 <= r.e5 <= |s|
  {
    var a := SkipA(s, p);
    var e1 := RunEnd(s, a, Digit);
    var e2 := RunEnd(s, e1, SpaceOrDash);
    var b := SkipA(s, e2);
    var e3 := RunEnd(s, b, Digit);
    var e4 := RunEnd(s, e3, SpaceOrColon);
    Bounds(a, e1, e2, b, e3, e4, RunEnd(s, e4, Digit))
  }

  /**
   * `A?(\d+)[\s-]+A?(\d+)[\s:]+(\d+)` matched at position p. Each run is taken whole: giving back
   * a character of a run would leave a character the next element cannot start with, so the
   * backtracking matcher finds exactly this match or none.
   */
  function MatchAt(s: string, p: nat): (r: Option<(int, int, int)>)
    requires p <= |s|
    ensures r.Some? <==> MatchesAt(s, p)
  {
    if MatchesAt(s, p) then
      var m := BoundsAt(s, p);
      Some((DigitsNumber(s[m.a..m.e1]), DigitsNumber(s[m.b..m.e3]), DigitsNumber(s[m.e4..m.e5])))
    else None
  }

  /** Every group and separator of the pattern is non-empty at p. */
  predicate MatchesAt(s: string, p: nat)
    requires p <= |s|
  {
    var m := BoundsAt(s, p);
    m.a < m.e1 && m.e1 < m.e2 && m.b < m.e3 && m.e3 < m.e4 && m.e4 < m.e5
  }

  /** The value of a run of ASCII digits, as int() reads it. */
  function DigitsNumber(t: string): int
  {
    if AllDecimalDigits(t) then DecimalDigitsValue(t) else 0
  }

  /** Whether the pattern matches at q, for every q of the text. */
  function Matcher(s: string): nat -> bool
  {
    (q: nat) => q <= |s| && MatchesAt(s, q)
  }

  /** The first position from p up to n that satisfies matches, as re.search scans. */
  function SearchWith(n: nat, p: nat, matches: nat -> bool): (r: Option<nat>)
    requires p <= n
    ensures r.Some? ==> p <= r.value <= n
    decreases n - p
  {
    if matches(p) then Some(p)
    else if p == n then None
    else SearchWith(n, p + 1, matches)
  }

  /** The scan reports only a position that satisfies matches. */
  lemma {:induction false} SearchWithSound(n: nat, p: nat, matches: nat -> bool)
    requires p <= n
    ensures SearchWith(n, p, matches).Some? ==> matches(SearchWith(n, p, matches).value)
    decreases n - p
  {
    if !matches(p) && p < n {
      SearchWithSound(n, p + 1, matches);
    }
  }

  /** Any position q from p that satisfies matches is found or preceded by the reported one. */
  lemma {:induction false} SearchWithLeftmost(n: nat, p: nat, q: nat, matches: nat -> bool)
    requires p <= q <= n && matches(q)
    ensures SearchWith(n, p, matches).Some? && SearchWith(n, p, matches).value <= q
    decreases q - p
  {
    if !matches(p) {
      SearchWithLeftmost(n, p + 1, q, matches);
    }
  }

  /** re.search: the first position from p where the pattern matches. */
  function SearchFrom(s: string, p: nat): (r: Option<nat>)
    requires p <= |s|
    ensures r.Some? ==> p <= r.value <= |s|
  {
    SearchWith(|s|, p, Matcher(s))
  }

  /** The search reports only a position where the pattern matches. */
  lemma SearchFromSound(s: string, p: nat)
    requires p <= |s|
    ensures SearchFrom(s, p).Some? ==> MatchesAt(s, SearchFrom(s, p).value)
  {
    SearchWithSound(|s|, p, Matcher(s));
  }

  /**
   * Any matching position q at or after p is found or preceded by the reported one, so the
   * search is leftmost and fails only when no position from p matches.
   */
  lemma SearchFromLeftmost(s: string, p: nat, q: nat)
    requires p <= q <= |s| && MatchesAt(s, q)
    ensures SearchFrom(s, p).Some? && SearchFrom(s, p).value <= q
  {
    SearchWithLeftmost(|s|, p, q, Matcher(s));
  }

  function PatternMeasure(text: string): Option<(int, int, int)>
  {
    match SearchFrom(text, 0)
    case None => None
    case Some(q) => MatchAt(text, q)
  }

  /** _process_received_data on the stripped text: decoded object first, then CSV, then the pattern. */
  function ParseText(text: string, decode: Decoder): Option<(int, int, int)>
  {
    var fromJson: Result<Option<(int, int, int)>> := match decode(text)
                    case None => Ok(None)
                    case Some(payload) => JsonMeasure(payload);
    match fromJson
    case Err(_) => None
    case Ok(Some(m)) => Some(m)
    case Ok(None) =>
      match CsvMeasure(text)
      case Some(m) => Some(m)
      case None => PatternMeasure(text)
  }

  /** The measurements one cut line contributes: none for an empty line or one no format accepts. */
  function LineItems(line: string, decode: Decoder, now: real): (r: seq<AnchorRangeMeasurement>)
    ensures |r| <= 1
  {
    if line == "" then []
    else match ParseText(Strip(line), decode)
      case None => []
      case Some((i, j, d)) => [AnchorRangeMeasurement(i, j, d, now)]
  }

  function LinesItems(lines: seq<string>, decode: Decoder, now: real): seq<AnchorRangeMeasurement>
  {
    if lines == [] then [] else LinesItems(lines[..|lines| - 1], decode, now) + LineItems(lines[|lines| - 1], decode, now)
  }

  /** An object with the three keys holding integers wins, whatever the text would give as CSV or pattern. */
  lemma JsonWins(text: string, decode: Decoder, fields: map<string, JValue>)
    requires decode(text) == Some(JObj(fields))
    requires "AnchorI" in fields && "AnchorJ" in fields && "Distance" in fields
    requires fields["AnchorI"].JInt? && fields["AnchorJ"].JInt? && fields["Distance"].JInt?
    ensures ParseText(text, decode) == Some((fields["AnchorI"].i, fields["AnchorJ"].i, fields["Distance"].i))
  {
    assert ContainsAll(JObj(fields), ["AnchorI", "AnchorJ", "Distance"]) == Ok(true);
  }

  /** A decoded value `in` cannot search (a bare number, true, null) makes the whole line produce nothing. */
  lemma ScalarSwallowsLine(text: string, decode: Decoder)
    requires decode(text).Some? && !(decode(text).value.JObj? || decode(text).value.JArr? || decode(text).value.JStr?)
    ensures ParseText(text, decode) == None
  {
    assert Contains(decode(text).value, "AnchorI").Err?;
  }

  /** "i,j,d" (what a decoder rejects) parses back to (i, j, d); fields after the third are ignored. */
  lemma CsvRoundTrip(i: int, j: int, d: int, extra: string, decode: Decoder)
    requires decode(CsvLine(i, j, d) + extra).None?
    requires extra == "" || (extra[0] == ',' && !IsSpace(extra[|extra| - 1]))
    ensures ParseText(Strip(CsvLine(i, j, d) + extra), decode) == Some((i, j, d))
  {
    var line := CsvLine(i, j, d) + extra;
    CsvLineUnpadded(i, j, d, extra);
    StripUnpadded(line);
    CsvMeasureRoundTrip(i, j, d, extra);
  }

  /** The CSV branch alone: the first three fields are read back, whatever follows a third comma. */
  lemma CsvMeasureRoundTrip(i: int, j: int, d: int, extra: string)
    requires extra == "" || extra[0] == ','
    ensures CsvMeasure(CsvLine(i, j, d) + extra) == Some((i, j, d))
  {
    CsvFields(i, j, d, extra);
    DecimalRoundTrip(i);
    DecimalRoundTrip(j);
    DecimalRoundTrip(d);
  }

  lemma CsvFields(i: int, j: int, d: int, extra: string)
    requires extra == "" || extra[0] == ','
    ensures var parts := Split(CsvLine(i, j, d) + extra, ",");
      |parts| >= 3 && parts[0] == DecimalString(i) && parts[1] == DecimalString(j) && parts[2] == DecimalString(d)
  {
    DecimalStringShape(i);
    DecimalStringShape(j);
    DecimalStringShape(d);
    ThreeFields(DecimalString(i), DecimalString(j), DecimalString(d), extra);
  }

  /** Three comma-free fields joined by commas, then nothing or a comma and more, split back. */
  lemma ThreeFields(a: string, b: string, c: string, extra: string)
    requires ',' !in a && ',' !in b && ',' !in c
    requires extra == "" || extra[0] == ','
    ensures var parts := Split(a + "," + b + "," + c + extra, ",");
      |parts| >= 3 && parts[0] == a && parts[1] == b && parts[2] == c
  {
    var tail := LastField(c, extra);
    assert a + "," + b + "," + c + extra == a + "," + (b + "," + (c + extra));
    SplitAfterFree(a, b + "," + (c + extra));
    SplitAfterFree(b, c + extra);
  }

  lemma LastField(c: string, extra: string) returns (tail: seq<string>)
    requires ',' !in c
    requires extra == "" || extra[0] == ','
    ensures Split(c + extra, ",") == [c] + tail
  {
    if extra == "" {
      SplitNoComma(c);
      assert c + extra == c;
      tail := [];
    } else {
      SplitAfterFree(c, extra[1..]);
      assert c + extra == c + "," + extra[1..];
      tail := Split(extra[1..], ",");
    }
  }

  /** The line starts with the first field's first character and ends with a non-space. */
  lemma CsvLineUnpadded(i: int, j: int, d: int, extra: string)
    requires extra == "" || (extra[0] == ',' && !IsSpace(extra[|extra| - 1]))
    ensures var line := CsvLine(i, j, d) + extra;
      |line| > 0 && !IsSpace(line[0]) && !IsSpace(line[|line| - 1])
  {
    var a, b, c := DecimalString(i), DecimalString(j), DecimalString(d);
    DecimalStringShape(i);
    DecimalStringShape(d);
    var line := CsvLine(i, j, d) + extra;
    assert line == a + ("," + b + "," + c + extra);
    assert line[0] == a[0];
    if extra == "" {
      assert line == (a + "," + b + ",") + c;
    } else {
      assert line == (a + "," + b + "," + c) + extra;
    }
  }

  function CsvLine(i: int, j: int, d: int): string
  {
    DecimalString(i) + "," + DecimalString(j) + "," + DecimalString(d)
  }

  /** str(i) is non-empty, has no comma and no whitespace, and starts and ends with a non-space. */
  lemma DecimalStringShape(i: int)
    ensures |DecimalString(i)| > 0 && ',' !in DecimalString(i)
    ensures !IsSpace(DecimalString(i)[0]) && !IsSpace(DecimalString(i)[|DecimalString(i)| - 1])
  {
    var n: nat := if i < 0 then -i else i;
    DigitsAreDigits(n);
  }

  lemma {:induction false} DigitsAreDigits(n: nat)
    ensures |Digits(n, 10)| > 0
    ensures forall k :: 0 <= k < |Digits(n, 10)| ==> IsAsciiDigit(Digits(n, 10)[k])
    decreases n
  {
    if n >= 10 {
      DigitsAreDigits(n / 10);
    }
  }

  lemma SplitNoComma(s: string)
    requires ',' !in s
    ensures Split(s, ",") == [s]
  {
    OccursSingle(s, ',');
    SplitNoSeparator(s, ",");
  }

  /** A comma-free head splits off at the comma that follows it. */
  lemma SplitAfterFree(head: string, rest: string)
    requires ',' !in head
    ensures Split(head + "," + rest, ",") == [head] + Split(rest, ",")
  {
    var s := head + "," + rest;
    FindChar(s, ',');
    IndexOfPast(head, ',', rest);
    assert s[..|head|] == head;
    assert s[|head| + 1..] == rest;
  }

  lemma {:induction false} IndexOfPast(head: string, c: char, rest: string)
    requires c !in head
    ensures IndexOf(head + [c] + rest, c) == |head|
  {
    if head != [] {
      assert (head + [c] + rest)[1..] == head[1..] + [c] + rest;
      IndexOfPast(head[1..], c, rest);
    }
  }

  /** The text form `A0-A1: 25000` gives anchors 0 and 1 at 25000 mm. */
  lemma PatternExample(decode: Decoder)
    requires decode("A0-A1: 25000").None?
    ensures ParseText("A0-A1: 25000", decode) == Some((0, 1, 25000))
  {
    SampleNotCsv();
    SampleFound();
  }

  lemma SampleNotCsv()
    ensures CsvMeasure("A0-A1: 25000") == None
  {
    assert ',' !in "A0-A1: 25000";
    CommaFreeNotCsv("A0-A1: 25000");
  }

  /** Text without a comma has a single field, too few for the CSV form. */
  lemma CommaFreeNotCsv(text: string)
    requires ',' !in text
    ensures CsvMeasure(text) == None
  {
    SplitNoComma(text);
  }

  lemma SampleFound()
    ensures PatternMeasure("A0-A1: 25000") == Some((0, 1, 25000))
  {
    var s := "A0-A1: 25000";
    SampleMatch();
    assert Matcher(s)(0);
    assert SearchWith(|s|, 0, Matcher(s)) == Some(0);
    assert SearchFrom(s, 0) == Some(0);
  }

  lemma SampleMatch()
    ensures MatchAt("A0-A1: 25000", 0) == Some((0, 1, 25000))
  {
    var s := "A0-A1: 25000";
    SampleBounds();
    assert s[1..2] == "0" && s[4..5] == "1" && s[7..12] == "25000";
    SampleDigits();
  }

  lemma SampleDigits()
    ensures DigitsNumber("25000") == 25000
  {
    assert AllDecimalDigits("25000");
    assert DecimalDigitsValue("2") == 2 by { assert "2"[..0] == ""; }
    assert DecimalDigitsValue("25") == 25 by { assert "25"[..1] == "2"; }
    assert DecimalDigitsValue("250") == 250 by { assert "250"[..2] == "25"; }
    assert DecimalDigitsValue("2500") == 2500 by { assert "2500"[..3] == "250"; }
    assert DecimalDigitsValue("25000") == 25000 by { assert "25000"[..4] == "2500"; }
  }

  lemma SampleBounds()
    ensures BoundsAt("A0-A1: 25000", 0) == Bounds(1, 2, 3, 4, 5, 7, 12)
  {
    var s := "A0-A1: 25000";
    assert RunEnd(s, 1, Digit) == 2 by {
      assert RunEnd(s, 2, Digit) == 2;
    }
    assert RunEnd(s, 2, SpaceOrDash) == 3 by {
      assert RunEnd(s, 3, SpaceOrDash) == 3;
    }
    assert RunEnd(s, 4, Digit) == 5 by {
      assert RunEnd(s, 5, Digit) == 5;
    }
    assert RunEnd(s, 5, SpaceOrColon) == 7 by {
      assert RunEnd(s, 6, SpaceOrColon) == 7;
      assert RunEnd(s, 7, SpaceOrColon) == 7;
    }
    assert RunEnd(s, 7, Digit) == 12 by {
      assert RunEnd(s, 12, Digit) == 12;
      assert RunEnd(s, 11, Digit) == 12;
      assert RunEnd(s, 10, Digit) == 12;
      assert RunEnd(s, 9, Digit) == 12;
      assert RunEnd(s, 8, Digit) == 12;
    }
  }

  /** SerialCalibrationComm's state apart from the port handle and the thread. */
  class Comm {
    var queue: seq<AnchorRangeMeasurement>
    var connected: bool
    var inCalibrationMode: bool
    var callbackSet: bool
    var written: seq<string>

    ghost predicate Valid()
      reads this
    {
      |queue| <= Fifo.QueueCapacity
    }

    constructor()
      ensures Valid() && queue == [] && !connected && !inCalibrationMode && !callbackSet && written == []
    {
      queue := [];
      connected := false;
      inCalibrationMode := false;
      callbackSet := false;
      written := [];
    }

    /** send_command: refused when not connected; the bytes are written as given, with no terminator added. */
    method SendCommand(command: string, writeSucceeds: bool) returns (ok: bool)
      modifies this
      ensures ok == (old(connected) && writeSucceeds)
      ensures written == if ok then old(written) + [command] else old(written)
      ensures connected == old(connected) && inCalibrationMode == old(inCalibrationMode)
      ensures queue == old(queue) && callbackSet == old(callbackSet)
    {
      if !connected || !writeSucceeds {
        return false;
      }
      written := written + [command];
      return true;
    }

    /** enter_calibration_mode: the flag is raised only when CALIBRATE was sent. */
    method EnterCalibrationMode(writeSucceeds: bool) returns (ok: bool)
      modifies this
      ensures ok == (old(connected) && writeSucceeds)
      ensures written == if ok then old(written) + [CalibrateCommand] else old(written)
      ensures inCalibrationMode == if ok then true else old(inCalibrationMode)
      ensures connected == old(connected) && queue == old(queue) && callbackSet == old(callbackSet)
    {
      ok := SendCommand(CalibrateCommand, writeSucceeds);
      if ok {
        inCalibrationMode := true;
      }
    }

    /** exit_calibration_mode: the flag is lowered only when EXIT_CAL was sent. */
    method ExitCalibrationMode(writeSucceeds: bool) returns (ok: bool)
      modifies this
      ensures ok == (old(connected) && writeSucceeds)
      ensures written == if ok then old(written) + [ExitCalibrateCommand] else old(written)
      ensures inCalibrationMode == if ok then false else old(inCalibrationMode)
      ensures connected == old(connected) && queue == old(queue) && callbackSet == old(callbackSet)
    {
      ok := SendCommand(ExitCalibrateCommand, writeSucceeds);
      if ok {
        inCalibrationMode := false;
      }
    }

    /** _handle_range_data: drop-oldest enqueue, and the callback (the result) on every measurement when set. */
    method HandleRangeData(m: AnchorRangeMeasurement) returns (notified: bool)
      requires Valid()
      modifies this
      ensures Valid() && queue == Fifo.Offer(old(queue), m, Fifo.QueueCapacity) && notified == callbackSet
      ensures connected == old(connected) && inCalibrationMode == old(inCalibrationMode)
      ensures callbackSet == old(callbackSet) && written == old(written)
    {
      if |queue| < Fifo.QueueCapacity {
        queue := queue + [m];
      } else {
        queue := queue[1..] + [m];
      }
      notified := callbackSet;
    }

    /** One cut line: an empty line is skipped; otherwise the stripped text goes through the three formats. */
    method ProcessLine(line: string, decode: Decoder, now: real) returns (called: nat)
      requires Valid()
      modifies this
      ensures Valid()
      ensures queue == Fifo.OfferAll(old(queue), LineItems(line, decode, now), Fifo.QueueCapacity)
      ensures called == (if callbackSet then |LineItems(line, decode, now)| else 0)
      ensures connected == old(connected) && inCalibrationMode == old(inCalibrationMode)
      ensures callbackSet == old(callbackSet) && written == old(written)
    {
      called := 0;
      if line != "" {
        var parsed := ParseText(Strip(line), decode);
        if parsed.Some? {
          var (i, j, d) := parsed.value;
          var notify := HandleRangeData(AnchorRangeMeasurement(i, j, d, now));
          called := if notify then 1 else 0;
        }
      }
    }

    /**
     * One pass of _receive_loop with the bytes read: the data is appended to the buffer, lines are
     * cut off the front while it holds an LF or a CR, and the buffer left over is returned. All
     * measurements of the pass carry the clock reading `now`.
     */
    method ReceiveData(buffer: string, data: string, decode: Decoder, now: real) returns (rest: string, notified: nat)
      requires Valid()
      modifies this
      ensures Valid()
      ensures rest == Lines(buffer + data).1
      ensures var handled := LinesItems(Lines(buffer + data).0, decode, now);
        && queue == Fifo.KeepNewest(old(queue) + handled, Fifo.QueueCapacity)
        && notified == (if callbackSet then |handled| else 0)
      ensures connected == old(connected) && inCalibrationMode == old(inCalibrationMode)
      ensures callbackSet == old(callbackSet) && written == old(written)
    {
      rest := buffer + data;
      notified := 0;
      ghost var done: seq<string> := [];
      ghost var handled: seq<AnchorRangeMeasurement> := [];
      Fifo.KeepNewestWithin(old(queue), Fifo.QueueCapacity);
      while '\n' in rest || '\r' in rest
        invariant Valid() && handled == LinesItems(done, decode, now)
        invariant done + Lines(rest).0 == Lines(buffer + data).0 && Lines(rest).1 == Lines(buffer + data).1
        invariant queue == Fifo.KeepNewest(old(queue) + handled, Fifo.QueueCapacity)
        invariant notified == (if callbackSet then |handled| else 0)
        invariant connected == old(connected) && inCalibrationMode == old(inCalibrationMode)
        invariant callbackSet == old(callbackSet) && written == old(written)
        decreases |rest|
      {
        ghost var before := rest;
        var line;
        line, rest := SplitOnce(rest);
        FramingStep(done, before, line, rest);
        ghost var item := LinesStep(done, line, decode, now);
        var called := ProcessLine(line, decode, now);
        Fifo.OfferBatch(old(queue), handled, item, Fifo.QueueCapacity);
        done := done + [line];
        handled := handled + item;
        notified := notified + called;
      }
      ghost var cut := CutStep(rest);
      assert done == Lines(buffer + data).0;
    }

    /** get_latest_range: drains the queue and returns its last (newest) item, or None. */
    method GetLatestRange() returns (latest: Option<AnchorRangeMeasurement>)
      requires Valid()
      modifies this
      ensures Valid() && queue == []
      ensures latest == if old(queue) == [] then None else Some(old(queue)[|old(queue)| - 1])
      ensures connected == old(connected) && inCalibrationMode == old(inCalibrationMode)
      ensures callbackSet == old(callbackSet) && written == old(written)
    {
      latest := Fifo.DrainLast(queue);
      queue := [];
    }

    /** get_all_ranges: every queued item in FIFO order; the queue is left empty. */
    method GetAllRanges() returns (items: seq<AnchorRangeMeasurement>)
      requires Valid()
      modifies this
      ensures Valid() && items == old(queue) && queue == []
      ensures connected == old(connected) && inCalibrationMode == old(inCalibrationMode)
      ensures callbackSet == old(callbackSet) && written == old(written)
    {
      items := Fifo.DrainAll(queue);
      queue := [];
    }
  }

  /**
   * The split at the head of the loop body: at the first LF when the buffer holds one, otherwise
   * at the first CR.
   */
  method SplitOnce(buffer: string) returns (line: string, rest: string)
    requires '\n' in buffer || '\r' in buffer
    ensures Cut(buffer) == Some((line, rest))
  {
    IndexOfSpec(buffer, '\n');
    IndexOfSpec(buffer, '\r');
    if '\n' in buffer {
      var k := IndexOf(buffer, '\n');
      line, rest := buffer[..k], buffer[k + 1..];
    } else {
      var k := IndexOf(buffer, '\r');
      line, rest := buffer[..k], buffer[k + 1..];
    }
  }

  /** The lines cut so far grow by the line just cut; what is left to frame shrinks by it. */
  lemma FramingStep(done: seq<string>, buffer: string, line: string, rest: string)
    requires Cut(buffer) == Some((line, rest))
    ensures (done + [line]) + Lines(rest).0 == done + Lines(buffer).0
    ensures Lines(rest).1 == Lines(buffer).1
  {
    var _ := CutStep(buffer);
  }

  /** The items of the lines so far grow by those of the next line. */
  lemma LinesStep(done: seq<string>, line: string, decode: Decoder, now: real) returns (item: seq<AnchorRangeMeasurement>)
    ensures item == LineItems(line, decode, now)
    ensures LinesItems(done + [line], decode, now) == LinesItems(done, decode, now) + item
  {
    assert (done + [line])[..|done + [line]| - 1] == done;
    item := LineItems(line, decode, now);
  }
}
