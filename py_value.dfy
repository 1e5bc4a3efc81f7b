/**
 * How Python treats a value that `json.loads` produced: its truth value
 * (`if v`, `v or default`), `str(v)`, `repr(v)` and `int(v)`.
 */
module PyValue {
  import opened Wrappers
  import opened JsonValue
  import PyText

  /** The built-in exceptions the modelled code can raise. */
  datatype PyError =
    | TypeError
    | ValueError
    | AttributeError
    | KeyError
    | IndexError
    | LookupError
    | ZeroDivisionError
    | JsonDecodeError

  /** `bool(v)`: None, False, 0 and empty strings, lists and dicts are false. */
  predicate Truthy(v: JSON) {
    match v
    case JNull => false
    case JBool(b) => b
    case JInt(i) => i != 0
    case JString(s) => s != ""
    case JArray(items) => items != []
    case JObject(fields) => fields != []
  }

  /** `d.get(key)` where a missing key reads as None, tested for truth. */
  predicate TruthyMember(fields: Fields, key: string) {
    Get(fields, key).Some? && Truthy(Get(fields, key).value)
  }

  /** One character inside the quotes of `repr(s)`, for the quote character `q`. */
  function ReprChar(c: char, q: char): string {
    if c == q || c == '\\' then ['\\', c]
    else if c == '\t' then "\\t"
    else if c == '\n' then "\\n"
    else if c == '\r' then "\\r"
    else if c < ' ' || c == '\U{7F}' then ['\\', 'x', PyText.HexDigit(c as int / 16), PyText.HexDigit(c as int % 16)]
    else [c]
  }

  function ReprBody(s: string, q: char): string {
    if s == [] then [] else ReprChar(s[0], q) + ReprBody(s[1..], q)
  }

  /** `repr(s)` for a str: single quotes unless the text holds a single quote and no double quote. */
  function ReprString(s: string): string {
    var q := if '\'' in s && '"' !in s then '"' else '\'';
    [q] + ReprBody(s, q) + [q]
  }

  /** `repr(v)`; lists and dicts show the repr of their elements. */
  function Repr(v: JSON): string
    decreases v
  {
    match v
    case JNull => "None"
    case JBool(b) => if b then "True" else "False"
    case JInt(i) => PyText.IntToDecimal(i)
    case JString(s) => ReprString(s)
    case JArray(items) =>
      "[" + PyText.Join(seq(|items|, k requires 0 <= k < |items| => Repr(items[k])), ", ") + "]"
    case JObject(fields) =>
      "{" + PyText.Join(seq(|fields|, k requires 0 <= k < |fields| =>
                            ReprString(fields[k].0) + ": " + Repr(fields[k].1)), ", ") + "}"
  }

  /** `str(v)`: a str is itself, anything else is its repr. */
  function Str(v: JSON): (r: string)
    ensures v.JString? ==> r == v.s
    ensures !v.JString? ==> r == Repr(v)
  {
    if v.JString? then v.s else Repr(v)
  }

  /**
   * `str()` of an integer is its decimal text, which `int()` reads back, and
   * `str()` of a str is that str, so applying `str` twice changes nothing.
   */
  lemma StrRoundTrips(v: JSON)
    ensures v.JInt? ==> Str(v) == PyText.IntToDecimal(v.i) && Int(JString(Str(v))) == Ok(v.i)
    ensures Str(JString(Str(v))) == Str(v)
  {
    if v.JInt? {
      PyText.ParseIntToDecimal(v.i);
    }
  }

  /** A value that is not a str has a non-empty `str()`. */
  lemma StrOfNonString(v: JSON)
    requires !v.JString?
    ensures Str(v) != ""
  {
    if v.JInt? {
      assert |PyText.IntToDecimal(v.i)| >= 1;
    }
  }

  /** `int(v)`: bools are 0 and 1, strs are parsed, None, lists and dicts raise TypeError. */
  function Int(v: JSON): (r: Result<int, PyError>)
    ensures v.JInt? ==> r == Ok(v.i)
    ensures v.JNull? || v.JArray? || v.JObject? ==> r == Err(TypeError)
    ensures v.JBool? ==> r == Ok(if v.b then 1 else 0)
    ensures v.JString? ==> (r.Err? <==> PyText.ParsePyInt(v.s).None?)
    ensures v.JString? && r.Ok? ==> PyText.ParsePyInt(v.s) == Some(r.value)
    ensures r.Err? ==> r.error == TypeError || r.error == ValueError
  {
    match v
    case JNull => Err(TypeError)
    case JBool(b) => Ok(if b then 1 else 0)
    case JInt(i) => Ok(i)
    case JString(s) =>
      (match PyText.ParsePyInt(s)
       case Some(n) => Ok(n)
       case None => Err(ValueError))
    case JArray(_) => Err(TypeError)
    case JObject(_) => Err(TypeError)
  }

  /** `int(str(i)) == i`: an integer written out as text reads back unchanged. */
  lemma IntOfDecimalText(i: int)
    ensures Int(JString(PyText.IntToDecimal(i))) == Ok(i)
  {
    PyText.ParseIntToDecimal(i);
  }
}
