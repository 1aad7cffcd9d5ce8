/**
 * The Python string operations the parsers rely on: str.strip / bytes.strip, str.split with a
 * separator, startswith / endswith, the `in` substring test, str.replace of one character by
 * another, and int(text, base) for bases 10 and 16.
 */
module PyText {
  import opened Wrappers

  /** str.isspace(): the code points Python treats as whitespace. */
  predicate IsSpace(c: char)
  {
    || ('\t' <= c <= '\r') || ('\U{1C}' <= c <= '\U{1F}') || c == ' '
    || c == '\U{85}' || c == '\U{A0}' || c == '\U{1680}' || ('\U{2000}' <= c <= '\U{200A}')
    || c == '\U{2028}' || c == '\U{2029}' || c == '\U{202F}' || c == '\U{205F}' || c == '\U{3000}'
  }

  /** bytes.isspace(): ASCII space, tab, newline, vertical tab, form feed and carriage return. */
  predicate IsAsciiSpace(c: char)
  {
    ('\t' <= c <= '\r') || c == ' '
  }

  // ----- searching

  predicate StartsWith(s: string, prefix: string)
  {
    |prefix| <= |s| && s[..|prefix|] == prefix
  }

  predicate EndsWith(s: string, suffix: string)
  {
    |suffix| <= |s| && s[|s| - |suffix|..] == suffix
  }

  /** `sub` occurs in `s` starting at index `i`. */
  predicate OccursAt(s: string, sub: string, i: nat)
  {
    i <= |s| && StartsWith(s[i..], sub)
  }

  /** Python's `sub in s`. */
  predicate IsSubstring(sub: string, s: string)
  {
    exists i: nat | i <= |s| :: OccursAt(s, sub, i)
  }

  /** str.find for a non-empty needle: the leftmost occurrence. */
  function Find(s: string, sub: string): (r: Option<nat>)
    requires |sub| > 0
    ensures r.Some? ==> OccursAt(s, sub, r.value)
    ensures r.Some? ==> forall j: nat :: j < r.value ==> !OccursAt(s, sub, j)
    ensures r.None? ==> forall j: nat :: !OccursAt(s, sub, j)
    decreases |s|
  {
    if |s| < |sub| then
      assert forall j: nat :: !OccursAt(s, sub, j);
      None
    else if StartsWith(s, sub) then
      assert s[0..] == s;
      Some(0)
    else
      var rest := Find(s[1..], sub);
      ShiftOccurs(s, sub);
      assert !OccursAt(s, sub, 0) by {
        assert s[0..] == s;
      }
      match rest
      case None => None
      case Some(k) => Some(k + 1)
  }

  lemma ShiftOccurs(s: string, sub: string)
    requires |s| > 0
    ensures forall j: nat :: 1 <= j ==> (OccursAt(s, sub, j) <==> OccursAt(s[1..], sub, j - 1))
  {
    forall j: nat | 1 <= j <= |s|
      ensures s[1..][j - 1..] == s[j..]
    {
    }
  }

  lemma FindIsSubstring(s: string, sub: string)
    requires |sub| > 0
    ensures Find(s, sub).Some? <==> IsSubstring(sub, s)
  {
    if Find(s, sub).Some? {
      assert OccursAt(s, sub, Find(s, sub).value);
    }
  }

  /** bytes.find(c): the index of the first c, or |s| when there is none. */
  function IndexOf(s: string, c: char): (r: nat)
    ensures r <= |s|
  {
    if s == [] then 0 else if s[0] == c then 0 else 1 + IndexOf(s[1..], c)
  }

  lemma {:induction false} IndexOfSpec(s: string, c: char)
    ensures IndexOf(s, c) < |s| <==> c in s
    ensures IndexOf(s, c) < |s| ==> s[IndexOf(s, c)] == c
    ensures forall k :: 0 <= k < IndexOf(s, c) ==> s[k] != c
  {
    if s != [] && s[0] != c {
      IndexOfSpec(s[1..], c);
      assert forall k :: 1 <= k < |s| ==> s[k] == s[1..][k - 1];
    }
  }

  /** str.find of a one-character needle is IndexOf, reported as an Option. */
  lemma {:induction false} FindChar(s: string, c: char)
    ensures Find(s, [c]) == if IndexOf(s, c) < |s| then Some(IndexOf(s, c)) else None
    decreases |s|
  {
    if s != [] {
      if s[0] == c {
        assert StartsWith(s, [c]);
      } else {
        assert !StartsWith(s, [c]);
        FindChar(s[1..], c);
      }
    }
  }

  // ----- split and join

  /** sep.join(parts). */
  function Join(parts: seq<string>, sep: string): string
  {
    if parts == [] then ""
    else if |parts| == 1 then parts[0]
    else parts[0] + sep + Join(parts[1..], sep)
  }

  /** A one-character string occurs exactly where that character stands. */
  lemma OccursSingle(s: string, c: char)
    ensures forall j: nat :: OccursAt(s, [c], j) <==> j < |s| && s[j] == c
    ensures IsSubstring([c], s) <==> c in s
  {
    forall j: nat
      ensures OccursAt(s, [c], j) <==> j < |s| && s[j] == c
    {
      if j < |s| {
        assert s[j..][..1] == [s[j]];
      }
    }
    if c in s {
      var j :| 0 <= j < |s| && s[j] == c;
      assert OccursAt(s, [c], j);
    }
  }

  /** s.split(sep) for a non-empty separator: cut at every leftmost occurrence, keep empty pieces. */
  function Split(s: string, sep: string): (r: seq<string>)
    requires |sep| > 0
    ensures |r| >= 1
    decreases |s|
  {
    match Find(s, sep)
    case None => [s]
    case Some(k) => [s[..k]] + Split(s[k + |sep|..], sep)
  }

  lemma Reassemble(s: string, sep: string, k: nat)
    requires OccursAt(s, sep, k)
    ensures s == s[..k] + sep + s[k + |sep|..]
  {
    assert s[k..][..|sep|] == sep;
    assert s[k..] == sep + s[k + |sep|..];
    assert s == s[..k] + s[k..];
  }

  /** Joining the pieces with the separator gives the original string back. */
  lemma {:induction false} SplitJoin(s: string, sep: string)
    requires |sep| > 0
    ensures Join(Split(s, sep), sep) == s
    decreases |s|
  {
    var f := Find(s, sep);
    if f.Some? {
      var k := f.value;
      var rest := s[k + |sep|..];
      SplitJoin(rest, sep);
      Reassemble(s, sep, k);
      assert Split(s, sep) == [s[..k]] + Split(rest, sep);
    }
  }

  /** No piece contains the separator. */
  lemma {:induction false} SplitPiecesFree(s: string, sep: string)
    requires |sep| > 0
    ensures forall i :: 0 <= i < |Split(s, sep)| ==> !IsSubstring(sep, Split(s, sep)[i])
    decreases |s|
  {
    var f := Find(s, sep);
    FindIsSubstring(s, sep);
    if f.Some? {
      var k := f.value;
      var rest := s[k + |sep|..];
      SplitPiecesFree(rest, sep);
      PrefixBeforeFirst(s, sep, k);
      assert Split(s, sep) == [s[..k]] + Split(rest, sep);
    }
  }

  lemma PrefixBeforeFirst(s: string, sep: string, k: nat)
    requires |sep| > 0 && Find(s, sep) == Some(k)
    ensures !IsSubstring(sep, s[..k])
  {
    if IsSubstring(sep, s[..k]) {
      var j: nat :| j <= k && OccursAt(s[..k], sep, j);
      assert s[..k][j..][..|sep|] == s[j..][..|sep|];
      assert OccursAt(s, sep, j);
      assert false;
    }
  }

  /** A string without the separator splits into itself alone. */
  lemma SplitNoSeparator(s: string, sep: string)
    requires |sep| > 0 && !IsSubstring(sep, s)
    ensures Split(s, sep) == [s]
  {
    FindIsSubstring(s, sep);
  }

  // ----- strip

  /** Number of leading characters satisfying `ws`. */
  function LeadingCount(s: string, ws: char -> bool): (n: nat)
    ensures n <= |s|
    ensures forall i :: 0 <= i < n ==> ws(s[i])
    ensures n < |s| ==> !ws(s[n])
  {
    if s == [] || !ws(s[0]) then 0 else 1 + LeadingCount(s[1..], ws)
  }

  /** Number of trailing characters satisfying `ws`. */
  function TrailingCount(s: string, ws: char -> bool): (n: nat)
    ensures n <= |s|
    ensures forall i :: |s| - n <= i < |s| ==> ws(s[i])
    ensures n < |s| ==> !ws(s[|s| - 1 - n])
  {
    if s == [] || !ws(s[|s| - 1]) then 0 else 1 + TrailingCount(s[..|s| - 1], ws)
  }

  /** str.strip() with the whitespace class `ws`. */
  function StripWith(s: string, ws: char -> bool): (r: string)
    ensures |r| <= |s|
    ensures r == [] <==> forall i :: 0 <= i < |s| ==> ws(s[i])
    ensures r != [] ==> !ws(r[0]) && !ws(r[|r| - 1])
    ensures IsSubstring(r, s)
  {
    var a := LeadingCount(s, ws);
    if a == |s| then
      assert OccursAt(s, "", 0);
      ""
    else
      var b := |s| - TrailingCount(s, ws);
      assert a < b;
      var r := s[a..b];
      assert s[a..][..|r|] == r;
      assert OccursAt(s, r, a);
      r
  }

  lemma {:induction false} StripWithIdempotent(s: string, ws: char -> bool)
    ensures StripWith(StripWith(s, ws), ws) == StripWith(s, ws)
  {
    var r := StripWith(s, ws);
    if r != [] {
      assert LeadingCount(r, ws) == 0;
      assert TrailingCount(r, ws) == 0;
      assert r[0..|r|] == r;
    }
  }

  /** str.strip(). */
  function Strip(s: string): string
  {
    StripWith(s, IsSpace)
  }

  /** bytes.strip() on a line whose bytes are read as characters. */
  function BytesStrip(s: string): string
  {
    StripWith(s, IsAsciiSpace)
  }

  /** str.replace(from, to) for single characters. */
  function ReplaceChar(s: string, from: char, to: char): (r: string)
    ensures |r| == |s|
    ensures forall i :: 0 <= i < |s| ==> r[i] == (if s[i] == from then to else s[i])
  {
    if s == [] then [] else [if s[0] == from then to else s[0]] + ReplaceChar(s[1..], from, to)
  }

  // ----- int(text, base)

  /** The value of an ASCII digit or letter, as int() reads it. */
  function DigitValue(c: char): (r: Option<nat>)
    ensures r.Some? ==> r.value < 36
  {
    if '0' <= c <= '9' then Some(c as nat - '0' as nat)
    else if 'a' <= c <= 'z' then Some(c as nat - 'a' as nat + 10)
    else if 'A' <= c <= 'Z' then Some(c as nat - 'A' as nat + 10)
    else None
  }

  predicate IsDigitOf(c: char, base: nat)
  {
    DigitValue(c).Some? && DigitValue(c).value < base
  }

  /** Digits of `base`, with single underscores allowed between digits. */
  predicate WellFormedDigits(s: string, base: nat)
  {
    && |s| > 0
    && s[0] != '_' && s[|s| - 1] != '_'
    && (forall i :: 0 <= i < |s| ==> s[i] == '_' || IsDigitOf(s[i], base))
    && (forall i :: 0 <= i < |s| - 1 ==> !(s[i] == '_' && s[i + 1] == '_'))
  }

  /** The value of a digit string, ignoring underscores. */
  function DigitsValue(s: string, base: nat): nat
    requires forall i :: 0 <= i < |s| ==> s[i] == '_' || IsDigitOf(s[i], base)
  {
    if s == [] then 0
    else if s[|s| - 1] == '_' then DigitsValue(s[..|s| - 1], base)
    else
      assert IsDigitOf(s[|s| - 1], base);
      DigitsValue(s[..|s| - 1], base) * base + DigitValue(s[|s| - 1]).value
  }

  /** The unsigned part after the sign: for base 16 an optional 0x/0X prefix, optionally followed by one underscore. */
  function ParseMagnitude(t: string, base: nat): (r: Option<int>)
    ensures r.Some? ==> r.value >= 0
  {
    if base == 16 && (StartsWith(t, "0x") || StartsWith(t, "0X")) then
      var body := if StartsWith(t[2..], "_") then t[3..] else t[2..];
      if WellFormedDigits(body, base) then Some(DigitsValue(body, base)) else None
    else if WellFormedDigits(t, base) then Some(DigitsValue(t, base))
    else None
  }

  /**
   * int(text, base) for base 10 or 16: surrounding whitespace, one optional sign, the digits.
   * None stands for the ValueError Python raises.
   */
  function ParseInt(text: string, base: nat): (r: Option<int>)
    requires base == 10 || base == 16
  {
    var t := Strip(text);
    if StartsWith(t, "-") then
      match ParseMagnitude(t[1..], base)
      case None => None
      case Some(m) => Some(-m)
    else if StartsWith(t, "+") then
      match ParseMagnitude(t[1..], base)
      case None => None
      case Some(m) => Some(m)
    else
      match ParseMagnitude(t, base)
      case None => None
      case Some(m) => Some(m)
  }

  // ----- printing digits (the partner of ParseInt)

  function DigitChar(d: nat): (c: char)
    requires d < 16
    ensures DigitValue(c) == Some(d)
  {
    if d < 10 then ('0' as int + d) as char else ('a' as int + d - 10) as char
  }

  /** The digits of `n` in `base`, most significant first, without prefix or underscores. */
  function Digits(n: nat, base: nat): (s: string)
    requires 2 <= base <= 16
    ensures |s| > 0
    ensures forall i :: 0 <= i < |s| ==> IsDigitOf(s[i], base)
    decreases n
  {
    if n < base then [DigitChar(n)]
    else
      DivModBase(n, base);
      Digits(n / base, base) + [DigitChar(n % base)]
  }

  lemma DivModBase(n: nat, base: nat)
    requires 2 <= base <= n
    ensures n / base < n && n % base < base && n == (n / base) * base + n % base
  {
  }

  lemma {:induction false} DigitsValueOfDigits(n: nat, base: nat)
    requires 2 <= base <= 16
    ensures WellFormedDigits(Digits(n, base), base)
    ensures DigitsValue(Digits(n, base), base) == n
    decreases n
  {
    var s := Digits(n, base);
    if n >= base {
      DivModBase(n, base);
      DigitsValueOfDigits(n / base, base);
      assert s[..|s| - 1] == Digits(n / base, base);
      assert s[|s| - 1] == DigitChar(n % base);
    }
  }

  /** str(i) for an int. */
  function DecimalString(i: int): string
  {
    if i < 0 then "-" + Digits(-i, 10) else Digits(i, 10)
  }

  /** A string with no whitespace at either end is its own strip. */
  lemma StripUnpadded(t: string)
    requires |t| > 0 && !IsSpace(t[0]) && !IsSpace(t[|t| - 1])
    ensures Strip(t) == t
  {
    assert LeadingCount(t, IsSpace) == 0;
    assert TrailingCount(t, IsSpace) == 0;
    assert t[0..|t|] == t;
  }

  lemma MagnitudeOfDigits(n: nat, base: nat)
    requires base == 10 || base == 16
    ensures ParseMagnitude(Digits(n, base), base) == Some(n)
  {
    var d := Digits(n, base);
    DigitsValueOfDigits(n, base);
    if |d| >= 2 {
      assert IsDigitOf(d[1], base);
    }
    assert !StartsWith(d, "0x") && !StartsWith(d, "0X");
  }

  /** Parsing text that is already stripped and unsigned reduces to its magnitude. */
  lemma ParseUnsigned(t: string, base: nat)
    requires base == 10 || base == 16
    requires Strip(t) == t && |t| > 0 && t[0] != '-' && t[0] != '+'
    ensures ParseInt(t, base) == ParseMagnitude(t, base)
  {
    assert !StartsWith(t, "-") && !StartsWith(t, "+");
  }

  /** Parsing stripped text with a leading minus negates the magnitude. */
  lemma ParseNegative(t: string, base: nat)
    requires base == 10 || base == 16
    requires Strip(t) == t && |t| > 0 && t[0] == '-'
    ensures ParseInt(t, base) == match ParseMagnitude(t[1..], base)
                                 case None => None
                                 case Some(m) => Some(-m)
  {
    assert StartsWith(t, "-");
  }

  /** int(str(i)) == i. */
  lemma DecimalRoundTrip(i: int)
    ensures ParseInt(DecimalString(i), 10) == Some(i)
  {
    var n: nat := if i < 0 then -i else i;
    var d := Digits(n, 10);
    MagnitudeOfDigits(n, 10);
    assert IsDigitOf(d[0], 10) && IsDigitOf(d[|d| - 1], 10);
    if i < 0 {
      var t := "-" + d;
      assert t[|t| - 1] == d[|d| - 1];
      StripUnpadded(t);
      assert t[1..] == d;
      ParseNegative(t, 10);
    } else {
      StripUnpadded(d);
      ParseUnsigned(d, 10);
    }
  }

  /** int(format(n, 'x'), 16) == n. */
  lemma HexRoundTrip(n: nat)
    ensures ParseInt(Digits(n, 16), 16) == Some(n)
  {
    var d := Digits(n, 16);
    MagnitudeOfDigits(n, 16);
    assert IsDigitOf(d[0], 16) && IsDigitOf(d[|d| - 1], 16);
    assert d[0] != '-' && d[0] != '+';
    StripUnpadded(d);
    ParseUnsigned(d, 16);
    assert ParseMagnitude(d, 16) == Some(n);
  }
}
