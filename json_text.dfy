/**
 * JSON text as Python's `json.dumps` writes it with its defaults
 * (`ensure_ascii=True`, separators ", " and ": "), and the decoder for the
 * string literals it writes (RFC 8259, section 7), against which the
 * escaping is proved to be lossless.
 */
module JsonText {
  import opened Wrappers
  import opened JsonValue
  import PyText

  /** Printable ASCII, U+0020 to U+007E: the only characters `ensure_ascii` output holds. */
  predicate Printable(s: string) {
    forall i :: 0 <= i < |s| ==> ' ' <= s[i] <= '~'
  }

  /** Four lower-case hexadecimal digits for a UTF-16 code unit. */
  function Hex4(n: nat): (h: string)
    requires n < 0x10000
    ensures |h| == 4 && Printable(h)
  {
    var q1 := n / 16;
    var q2 := q1 / 16;
    [PyText.HexDigit(q2 / 16), PyText.HexDigit(q2 % 16), PyText.HexDigit(q1 % 16), PyText.HexDigit(n % 16)]
  }

  /** A hexadecimal digit of either case, as a decoder reads it. */
  function HexValue(c: char): Option<nat> {
    if '0' <= c <= '9' then Some(c as int - '0' as int)
    else if 'a' <= c <= 'f' then Some(c as int - 'a' as int + 10)
    else if 'A' <= c <= 'F' then Some(c as int - 'A' as int + 10)
    else None
  }

  /** The code unit four hex digits denote. */
  function Hex4Value(h: string): (r: Option<nat>)
    requires |h| == 4
    ensures r.Some? ==> r.value < 0x10000
  {
    match (HexValue(h[0]), HexValue(h[1]), HexValue(h[2]), HexValue(h[3]))
    case (Some(a), Some(b), Some(c), Some(d)) =>
      if a < 16 && b < 16 && c < 16 && d < 16 then Some(((a * 16 + b) * 16 + c) * 16 + d) else None
    case _ => None
  }

  lemma HexDigitValue(d: nat)
    requires d < 16
    ensures HexValue(PyText.HexDigit(d)) == Some(d)
  {
  }

  lemma Hex4RoundTrip(n: nat)
    requires n < 0x10000
    ensures Hex4Value(Hex4(n)) == Some(n)
  {
    var q1 := n / 16;
    var q2 := q1 / 16;
    HexDigitValue(q2 / 16);
    HexDigitValue(q2 % 16);
    HexDigitValue(q1 % 16);
    HexDigitValue(n % 16);
    assert q2 == q2 / 16 * 16 + q2 % 16;
    assert q1 == q2 * 16 + q1 % 16;
    assert n == q1 * 16 + n % 16;
  }

  /**
   * One character of a string as `json.dumps` writes it: the two-character
   * escapes for quote, backslash and the five named controls, printable ASCII
   * as is, any other character of the Basic Multilingual Plane as `\uXXXX`,
   * and a character beyond it as a UTF-16 surrogate pair.
   */
  function EscapeChar(c: char): (r: string)
    ensures Printable(r) && |r| >= 1
  {
    if c == '"' then "\\\""
    else if c == '\\' then "\\\\"
    else if c == '\n' then "\\n"
    else if c == '\r' then "\\r"
    else if c == '\t' then "\\t"
    else if c == '\U{8}' then "\\b"
    else if c == '\U{C}' then "\\f"
    else if ' ' <= c <= '~' then [c]
    else if c as int < 0x10000 then "\\u" + Hex4(c as int)
    else
      var n := c as int - 0x10000;
      "\\u" + Hex4(0xD800 + n / 0x400) + "\\u" + Hex4(0xDC00 + n % 0x400)
  }

  function EscapeString(s: string): (r: string)
    ensures Printable(r)
  {
    if s == [] then [] else EscapeChar(s[0]) + EscapeString(s[1..])
  }

  /** A string literal: the escaped text between double quotes. */
  function Quote(s: string): (r: string)
    ensures Printable(r) && |r| >= 2 && r[0] == '"' && r[|r| - 1] == '"'
  {
    "\"" + EscapeString(s) + "\""
  }

  /** `json.dumps(v)`. */
  function Dumps(v: JSON): string
    decreases v
  {
    match v
    case JNull => "null"
    case JBool(b) => if b then "true" else "false"
    case JInt(i) => PyText.IntToDecimal(i)
    case JString(s) => Quote(s)
    case JArray(items) =>
      "[" + PyText.Join(seq(|items|, k requires 0 <= k < |items| => Dumps(items[k])), ", ") + "]"
    case JObject(fields) =>
      "{" + PyText.Join(seq(|fields|, k requires 0 <= k < |fields| =>
                            Quote(fields[k].0) + ": " + Dumps(fields[k].1)), ", ") + "}"
  }

  function Prepend(p: string, r: Option<string>): Option<string> {
    if r.None? then None else Some(p + r.value)
  }

  /** The character a two-character escape `\x` stands for. */
  function ShortEscape(x: char): Option<char> {
    if x == '"' then Some('"')
    else if x == '\\' then Some('\\')
    else if x == '/' then Some('/')
    else if x == 'b' then Some('\U{8}')
    else if x == 'f' then Some('\U{C}')
    else if x == 'n' then Some('\n')
    else if x == 'r' then Some('\r')
    else if x == 't' then Some('\t')
    else None
  }

  /**
   * The text between the quotes of a string literal, decoded: a bare quote or
   * control character, an unknown escape, bad hex digits and an unpaired
   * surrogate are errors.
   */
  function Unescape(t: string): Option<string>
    decreases |t|
  {
    if t == [] then Some([])
    else if t[0] == '"' || t[0] < ' ' then None
    else if t[0] != '\\' then Prepend([t[0]], Unescape(t[1..]))
    else if |t| < 2 then None
    else if t[1] != 'u' then
      match ShortEscape(t[1])
      case Some(c) => Prepend([c], Unescape(t[2..]))
      case None => None
    else if |t| < 6 then None
    else
      match Hex4Value(t[2..6])
      case None => None
      case Some(u) =>
        if 0xDC00 <= u < 0xE000 then None
        else if u < 0xD800 || 0xE000 <= u then Prepend([u as char], Unescape(t[6..]))
        else if |t| < 12 || t[6] != '\\' || t[7] != 'u' then None
        else
          match Hex4Value(t[8..12])
          case None => None
          case Some(l) =>
            if 0xDC00 <= l < 0xE000 then
              Prepend([(0x10000 + (u - 0xD800) * 0x400 + (l - 0xDC00)) as char], Unescape(t[12..]))
            else None
  }

  /** Decodes a whole string literal, quotes included. */
  function DecodeString(t: string): Option<string> {
    if |t| >= 2 && t[0] == '"' && t[|t| - 1] == '"' then Unescape(t[1..|t| - 1]) else None
  }

  lemma UnescapeShort(x: char, c: char, rest: string)
    requires x != 'u' && ShortEscape(x) == Some(c)
    ensures Unescape(['\\', x] + rest) == Prepend([c], Unescape(rest))
  {
    assert (['\\', x] + rest)[2..] == rest;
  }

  lemma UnescapeBmp(c: char, rest: string)
    requires !(' ' <= c <= '~') && c as int < 0x10000
    ensures Unescape("\\u" + Hex4(c as int) + rest) == Prepend([c], Unescape(rest))
  {
    var t := "\\u" + Hex4(c as int) + rest;
    Hex4RoundTrip(c as int);
    assert t[2..6] == Hex4(c as int);
    assert t[6..] == rest;
  }

  lemma UnescapePair(c: char, rest: string)
    requires c as int >= 0x10000
    ensures
      var n := c as int - 0x10000;
      Unescape("\\u" + Hex4(0xD800 + n / 0x400) + "\\u" + Hex4(0xDC00 + n % 0x400) + rest)
        == Prepend([c], Unescape(rest))
  {
    var n := c as int - 0x10000;
    var hi, lo := 0xD800 + n / 0x400, 0xDC00 + n % 0x400;
    var t := "\\u" + Hex4(hi) + "\\u" + Hex4(lo) + rest;
    Hex4RoundTrip(hi);
    Hex4RoundTrip(lo);
    assert t[2..6] == Hex4(hi);
    assert t[6] == '\\' && t[7] == 'u';
    assert t[8..12] == Hex4(lo);
    assert t[12..] == rest;
    assert 0x10000 + (hi - 0xD800) * 0x400 + (lo - 0xDC00) == c as int;
  }

  /** Decoding the escape of one character gives that character back. */
  lemma UnescapeEscapeChar(c: char, rest: string)
    ensures Unescape(EscapeChar(c) + rest) == Prepend([c], Unescape(rest))
  {
    if c == '"' {
      UnescapeShort('"', c, rest);
    } else if c == '\\' {
      UnescapeShort('\\', c, rest);
    } else if c == '\n' {
      UnescapeShort('n', c, rest);
    } else if c == '\r' {
      UnescapeShort('r', c, rest);
    } else if c == '\t' {
      UnescapeShort('t', c, rest);
    } else if c == '\U{8}' {
      UnescapeShort('b', c, rest);
    } else if c == '\U{C}' {
      UnescapeShort('f', c, rest);
    } else if ' ' <= c <= '~' {
      assert ([c] + rest)[1..] == rest;
    } else if c as int < 0x10000 {
      UnescapeBmp(c, rest);
    } else {
      UnescapePair(c, rest);
    }
  }

  /** The decoder inverts the escaping: `json.loads(json.dumps(s)) == s` for every str. */
  lemma {:induction false} UnescapeEscapeString(s: string)
    ensures Unescape(EscapeString(s)) == Some(s)
  {
    if s != [] {
      UnescapeEscapeString(s[1..]);
      UnescapeEscapeChar(s[0], EscapeString(s[1..]));
      assert [s[0]] + s[1..] == s;
    }
  }

  /** A dumped string reads back as the same string. */
  lemma DecodeDumpedString(s: string)
    ensures DecodeString(Dumps(JString(s))) == Some(s)
  {
    var t := Dumps(JString(s));
    assert t[1..|t| - 1] == EscapeString(s);
    UnescapeEscapeString(s);
  }

  /** Different strings are dumped differently. */
  lemma DumpsStringInjective(s: string, s': string)
    requires Dumps(JString(s)) == Dumps(JString(s'))
    ensures s == s'
  {
    DecodeDumpedString(s);
    DecodeDumpedString(s');
  }

  lemma {:induction false} JoinPrintable(parts: seq<string>, sep: string)
    requires Printable(sep)
    requires forall k :: 0 <= k < |parts| ==> Printable(parts[k])
    ensures Printable(PyText.Join(parts, sep))
  {
    if |parts| > 1 {
      JoinPrintable(parts[1..], sep);
    }
  }

  lemma ArrayPrintable(items: seq<JSON>)
    requires forall k :: 0 <= k < |items| ==> Printable(Dumps(items[k]))
    ensures Printable(Dumps(JArray(items)))
  {
    var parts := seq(|items|, k requires 0 <= k < |items| => Dumps(items[k]));
    JoinPrintable(parts, ", ");
  }

  lemma ObjectPrintable(fields: seq<(string, JSON)>)
    requires forall k :: 0 <= k < |fields| ==> Printable(Dumps(fields[k].1))
    ensures Printable(Dumps(JObject(fields)))
  {
    var parts := seq(|fields|, k requires 0 <= k < |fields| =>
                     Quote(fields[k].0) + ": " + Dumps(fields[k].1));
    forall k | 0 <= k < |fields| ensures Printable(parts[k]) {
      var q := Quote(fields[k].0);
      assert parts[k] == q + ": " + Dumps(fields[k].1);
    }
    JoinPrintable(parts, ", ");
  }

  /** With `ensure_ascii`, everything `json.dumps` writes is printable ASCII. */
  lemma {:induction false} DumpsPrintable(v: JSON)
    ensures Printable(Dumps(v))
    decreases v
  {
    match v
    case JNull =>
    case JBool(_) =>
    case JInt(i) =>
      var d := PyText.IntToDecimal(i);
      assert forall k :: 0 <= k < |d| ==> d[k] == '-' || PyText.IsDigit(d[k]);
    case JString(_) =>
    case JArray(items) =>
      forall k | 0 <= k < |items| ensures Printable(Dumps(items[k])) {
        DumpsPrintable(items[k]);
      }
      ArrayPrintable(items);
    case JObject(fields) =>
      forall k | 0 <= k < |fields| ensures Printable(Dumps(fields[k].1)) {
        DumpsPrintable(fields[k].1);
      }
      ObjectPrintable(fields);
  }
}
