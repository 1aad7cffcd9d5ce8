/**
 * Already-decoded JSON values (what json.loads returns) and the Python operations the
 * receivers apply to them: `key in value`, indexing, dict.get, int(), float(), truthiness
 * and iteration.
 */
module Json {
  import opened Wrappers
  import PyText
  import Numerics

  datatype JValue =
    | JNull
    | JBool(b: bool)
    | JInt(i: int)
    | JFloat(f: real)
    | JStr(s: string)
    | JArr(items: seq<JValue>)
    | JObj(fields: map<string, JValue>)

  /** Python `key in value`: dict keys, list elements, substrings; anything else raises TypeError. */
  function Contains(v: JValue, key: string): (r: Result<bool>)
    ensures r.Err? <==> !(v.JObj? || v.JArr? || v.JStr?)
    ensures r.Err? ==> r.error == TypeError
    ensures v.JObj? ==> r == Ok(key in v.fields)
  {
    match v
    case JObj(fields) => Ok(key in fields)
    case JArr(items) => Ok(JStr(key) in items)
    case JStr(s) => Ok(PyText.IsSubstring(key, s))
    case _ => Err(TypeError)
  }

  /** `all(k in value for k in keys)`, evaluated left to right and stopping at the first False. */
  function ContainsAll(v: JValue, keys: seq<string>): (r: Result<bool>)
    ensures v.JObj? ==> r == Ok(forall k :: k in keys ==> k in v.fields)
  {
    if keys == [] then Ok(true)
    else
      match Contains(v, keys[0])
      case Err(e) => Err(e)
      case Ok(false) => Ok(false)
      case Ok(true) => ContainsAll(v, keys[1..])
  }

  /** value[key] with a string key. */
  function Index(v: JValue, key: string): (r: Result<JValue>)
    ensures r.Ok? <==> v.JObj? && key in v.fields
    ensures r.Ok? ==> r.value == v.fields[key]
    ensures r.Err? ==> r.error == (if v.JObj? then KeyError else TypeError)
  {
    match v
    case JObj(fields) => if key in fields then Ok(fields[key]) else Err(KeyError)
    case _ => Err(TypeError)
  }

  /** value.get(key, default): only dicts have it. */
  function Get(v: JValue, key: string, default: JValue): (r: Result<JValue>)
    ensures r.Ok? <==> v.JObj?
    ensures v.JObj? ==> r.value == if key in v.fields then v.fields[key] else default
    ensures r.Err? ==> r.error == AttributeError
  {
    match v
    case JObj(fields) => Ok(if key in fields then fields[key] else default)
    case _ => Err(AttributeError)
  }

  /** Python int(value). */
  function PyInt(v: JValue): (r: Result<int>)
    ensures v.JInt? ==> r == Ok(v.i)
    ensures v.JFloat? ==> r == Ok(Numerics.TruncToInt(v.f))
    ensures (v.JNull? || v.JArr? || v.JObj?) ==> r == Err(TypeError)
  {
    match v
    case JBool(b) => Ok(if b then 1 else 0)
    case JInt(i) => Ok(i)
    case JFloat(f) => Ok(Numerics.TruncToInt(f))
    case JStr(s) =>
      (match PyText.ParseInt(s, 10)
       case Some(i) => Ok(i)
       case None => Err(ValueError))
    case _ => Err(TypeError)
  }

  /** Characters outside plain decimal notation (exponent, inf, nan, underscores). */
  predicate OutsideDecimalNotation(c: char)
  {
    c in "eEiInN_"
  }

  /** The value of a run of decimal digits. */
  function DecimalDigitsValue(s: string): nat
    requires forall i :: 0 <= i < |s| ==> '0' <= s[i] <= '9'
  {
    if s == [] then 0 else DecimalDigitsValue(s[..|s| - 1]) * 10 + (s[|s| - 1] as int - '0' as int)
  }

  function Pow10(k: nat): (r: nat)
    ensures r >= 1
  {
    if k == 0 then 1 else 10 * Pow10(k - 1)
  }

  predicate AllDecimalDigits(s: string)
  {
    forall i :: 0 <= i < |s| ==> '0' <= s[i] <= '9'
  }

  /** [digits][.digits], at least one digit in all. */
  function ParseUnsignedDecimal(t: string): Option<real>
  {
    var dot := PyText.Find(t, ".");
    match dot
    case None =>
      if t != [] && AllDecimalDigits(t) then Some(DecimalDigitsValue(t) as real) else None
    case Some(k) =>
      var whole := t[..k];
      var frac := t[k + 1..];
      if (whole != [] || frac != []) && AllDecimalDigits(whole) && AllDecimalDigits(frac) then
        Some(DecimalDigitsValue(whole) as real + DecimalDigitsValue(frac) as real / Pow10(|frac|) as real)
      else None
  }

  /**
   * Python float(text) for plain decimal notation. Text using exponents, inf, nan or
   * underscores is reported as Unsupported rather than modelled.
   */
  function ParseFloatText(text: string): Result<real>
  {
    var t := PyText.Strip(text);
    if exists i :: 0 <= i < |t| && OutsideDecimalNotation(t[i]) then Err(Unsupported)
    else
      var neg := PyText.StartsWith(t, "-");
      var body := if neg || PyText.StartsWith(t, "+") then t[1..] else t;
      match ParseUnsignedDecimal(body)
      case None => Err(ValueError)
      case Some(x) => Ok(if neg then -x else x)
  }

  /** Python float(value). */
  function PyFloat(v: JValue): (r: Result<real>)
    ensures v.JInt? ==> r == Ok(v.i as real)
    ensures v.JFloat? ==> r == Ok(v.f)
    ensures (v.JNull? || v.JArr? || v.JObj?) ==> r == Err(TypeError)
  {
    match v
    case JBool(b) => Ok(if b then 1.0 else 0.0)
    case JInt(i) => Ok(i as real)
    case JFloat(f) => Ok(f)
    case JStr(s) => ParseFloatText(s)
    case _ => Err(TypeError)
  }

  /** float(msg[key]). */
  function FloatAt(msg: JValue, key: string): Result<real>
  {
    match Index(msg, key)
    case Err(e) => Err(e)
    case Ok(v) => PyFloat(v)
  }

  /** Python truthiness. */
  predicate Truthy(v: JValue)
  {
    match v
    case JNull => false
    case JBool(b) => b
    case JInt(i) => i != 0
    case JFloat(f) => f != 0.0
    case JStr(s) => s != []
    case JArr(items) => items != []
    case JObj(fields) => fields != map[]
  }

  /**
   * The elements `for x in value` visits: list elements, one-character strings, or the keys of a
   * dict. A dict is a map here, without its insertion order, so only an empty one is iterated.
   */
  function Iterate(v: JValue): (r: Result<seq<JValue>>)
    ensures v.JArr? ==> r == Ok(v.items)
    ensures v.JStr? ==> r.Ok? && |r.value| == |v.s|
    ensures v.JObj? && v.fields == map[] ==> r == Ok([])
    ensures r.Err? ==> r.error == (if v.JObj? then Unsupported else TypeError)
  {
    match v
    case JArr(items) => Ok(items)
    case JStr(s) => Ok(seq(|s|, i requires 0 <= i < |s| => JStr([s[i]])))
    case JObj(fields) => if fields == map[] then Ok([]) else Err(Unsupported)
    case _ => Err(TypeError)
  }
}
