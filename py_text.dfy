/**
 * Python's built-in string operations that the core relies on: `str.isspace`,
 * `strip`/`lstrip`/`rstrip`, `split()` on whitespace, `split(sep)`, `join`,
 * slicing `s[:k]`, `lower()` on ASCII letters, and the decimal conversions
 * `str(int)` and `int(str)`. A Python `str` is a sequence of code points,
 * which is what a Dafny `string` is.
 */
module PyText {
  import opened Wrappers

  /** The code points for which Python's `c.isspace()` holds; `strip()` and `split()` remove these. */
  const Whitespace: seq<char> := ['\U{9}', '\U{A}', '\U{B}', '\U{C}', '\U{D}', '\U{1C}', '\U{1D}', '\U{1E}', '\U{1F}', '\U{20}', '\U{85}', '\U{A0}', '\U{1680}', '\U{2000}', '\U{2001}', '\U{2002}', '\U{2003}', '\U{2004}', '\U{2005}', '\U{2006}', '\U{2007}', '\U{2008}', '\U{2009}', '\U{200A}', '\U{2028}', '\U{2029}', '\U{202F}', '\U{205F}', '\U{3000}']

  predicate InWhitespaceFrom(c: char, i: nat)
    decreases |Whitespace| - i
  {
    i < |Whitespace| && (Whitespace[i] == c || InWhitespaceFrom(c, i + 1))
  }

  /** `c.isspace()` */
  predicate IsSpace(c: char) {
    InWhitespaceFrom(c, 0)
  }

  lemma {:induction false} InWhitespaceFromIsListed(c: char, i: nat)
    requires InWhitespaceFrom(c, i)
    ensures exists j :: i <= j < |Whitespace| && Whitespace[j] == c
    decreases |Whitespace| - i
  {
    if Whitespace[i] != c {
      InWhitespaceFromIsListed(c, i + 1);
    }
  }

  lemma NotListedNotSpace(c: char)
    requires c !in Whitespace
    ensures !IsSpace(c)
  {
    if IsSpace(c) {
      InWhitespaceFromIsListed(c, 0);
    }
  }

  /** Printable ASCII characters other than the blank are never whitespace. */
  lemma PrintableNotSpace(c: char)
    requires '!' <= c <= '~'
    ensures !IsSpace(c)
  {
    NotListedNotSpace(c);
  }

  predicate AllSpace(s: string) {
    forall i :: 0 <= i < |s| ==> IsSpace(s[i])
  }

  /** Neither end of `s` is whitespace: what `strip()` returns. */
  predicate IsStripped(s: string) {
    |s| == 0 || (!IsSpace(s[0]) && !IsSpace(s[|s| - 1]))
  }

  /** The number of whitespace characters `s` starts with. */
  function LeadingSpace(s: string): (n: nat)
    ensures n <= |s|
    ensures forall i :: 0 <= i < n ==> IsSpace(s[i])
    ensures n < |s| ==> !IsSpace(s[n])
  {
    if |s| > 0 && IsSpace(s[0]) then 1 + LeadingSpace(s[1..]) else 0
  }

  /** Where the whitespace `s` ends with begins. */
  function TrailingStart(s: string): (n: nat)
    ensures n <= |s|
    ensures forall i :: n <= i < |s| ==> IsSpace(s[i])
    ensures n > 0 ==> !IsSpace(s[n - 1])
  {
    if |s| > 0 && IsSpace(s[|s| - 1]) then TrailingStart(s[..|s| - 1]) else |s|
  }

  /** `s.lstrip()`: the suffix left after dropping leading whitespace. */
  function LStrip(s: string): (r: string)
    ensures |r| <= |s| && r == s[|s| - |r|..]
    ensures forall i :: 0 <= i < |s| - |r| ==> IsSpace(s[i])
    ensures r == [] || !IsSpace(r[0])
  {
    s[LeadingSpace(s)..]
  }

  /** `s.rstrip()`: the prefix left after dropping trailing whitespace. */
  function RStrip(s: string): (r: string)
    ensures |r| <= |s| && r == s[..|r|]
    ensures forall i :: |r| <= i < |s| ==> IsSpace(s[i])
    ensures r == [] || !IsSpace(r[|r| - 1])
  {
    s[..TrailingStart(s)]
  }

  /** `s.strip()`: both ends are free of whitespace. */
  function Strip(s: string): (r: string)
    ensures IsStripped(r) && |r| <= |s|
  {
    var t := LStrip(s);
    var r := RStrip(t);
    assert r != [] ==> r[0] == t[0];
    r
  }

  /** What `lstrip()` removes is a run of whitespace. */
  lemma LStripRemovesSpace(s: string)
    ensures var k := |s| - |LStrip(s)|; s[k..] == LStrip(s) && AllSpace(s[..k])
  {
    var k := |s| - |LStrip(s)|;
    forall i | 0 <= i < k ensures IsSpace(s[..k][i]) {
      assert s[..k][i] == s[i];
    }
  }

  /** What `rstrip()` removes is a run of whitespace. */
  lemma RStripRemovesSpace(t: string)
    ensures var r := RStrip(t); t[..|r|] == r && AllSpace(t[|r|..])
  {
    var r := RStrip(t);
    forall i | 0 <= i < |t| - |r| ensures IsSpace(t[|r|..][i]) {
      assert t[|r|..][i] == t[|r| + i];
    }
  }

  /** `strip()` keeps a contiguous slice of its input. */
  lemma StripMiddle(s: string)
    ensures var k := |s| - |LStrip(s)|; var r := Strip(s);
      k + |r| <= |s| && r == s[k..k + |r|]
  {
    var t := LStrip(s);
    var k := |s| - |t|;
    var r := RStrip(t);
    assert s[k..] == t;
    assert t[..|r|] == r;
    assert s[k..k + |r|] == s[k..][..|r|];
  }

  /** What `strip()` removes on either side of that slice is whitespace. */
  lemma StripEnds(s: string)
    ensures var k := |s| - |LStrip(s)|; var r := Strip(s);
      k + |r| <= |s| && AllSpace(s[..k]) && AllSpace(s[k + |r|..])
  {
    var t := LStrip(s);
    var k := |s| - |t|;
    var r := RStrip(t);
    LStripRemovesSpace(s);
    RStripRemovesSpace(t);
    assert s[k + |r|..] == s[k..][|r|..];
  }

  /** What `strip()` removes is whitespace at the two ends and nothing else. */
  lemma StripShape(s: string)
    ensures var k := |s| - |LStrip(s)|; var r := Strip(s);
      k + |r| <= |s| && r == s[k..k + |r|] && AllSpace(s[..k]) && AllSpace(s[k + |r|..])
  {
    StripMiddle(s);
    StripEnds(s);
  }

  lemma StripOfStripped(s: string)
    requires IsStripped(s)
    ensures Strip(s) == s
  {
  }

  lemma StripIdempotent(s: string)
    ensures Strip(Strip(s)) == Strip(s)
  {
    StripOfStripped(Strip(s));
  }

  /** `s.strip()` is empty exactly when every character of `s` is whitespace. */
  lemma StripEmptyIffAllSpace(s: string)
    ensures Strip(s) == [] <==> AllSpace(s)
  {
    StripShape(s);
    var k := |s| - |LStrip(s)|;
    if Strip(s) == [] {
      assert s == s[..k] + s[k..];
    }
  }

  /** `s[:k]` with Python's clamping and negative-index rules. */
  function PyTake(s: string, k: int): (r: string)
    ensures k >= 0 ==> r == s[..if k <= |s| then k else |s|]
    ensures k < 0 ==> r == s[..if |s| + k >= 0 then |s| + k else 0]
  {
    if k >= 0 then (if k <= |s| then s[..k] else s)
    else (if |s| + k >= 0 then s[..|s| + k] else [])
  }

  function LowerChar(c: char): char {
    if 'A' <= c <= 'Z' then (c as int + 32) as char else c
  }

  function UpperChar(c: char): char {
    if 'a' <= c <= 'z' then (c as int - 32) as char else c
  }

  /** `s.lower()` restricted to ASCII letters; every other code point is kept. */
  function AsciiLower(s: string): string {
    seq(|s|, i requires 0 <= i < |s| => LowerChar(s[i]))
  }

  function AsciiUpper(s: string): string {
    seq(|s|, i requires 0 <= i < |s| => UpperChar(s[i]))
  }

  /** Lower-casing forgets the case a string was written in. */
  lemma LowerForgetsCase(s: string)
    ensures AsciiLower(AsciiUpper(s)) == AsciiLower(s)
    ensures AsciiLower(AsciiLower(s)) == AsciiLower(s)
  {
  }

  predicate OccursAt(s: string, sub: string, i: int) {
    0 <= i <= |s| - |sub| && s[i..i + |sub|] == sub
  }

  /** `sub in s`. */
  function Contains(s: string, sub: string): bool
    decreases |s|
  {
    if |s| < |sub| then false
    else s[..|sub|] == sub || (|s| > 0 && Contains(s[1..], sub))
  }

  lemma {:induction false} ContainsAt(s: string, sub: string)
    ensures Contains(s, sub) <==> exists i :: OccursAt(s, sub, i)
    decreases |s|
  {
    if |s| >= |sub| && |s| > 0 {
      ContainsAt(s[1..], sub);
      if Contains(s[1..], sub) {
        var i :| OccursAt(s[1..], sub, i);
        assert s[i + 1..i + 1 + |sub|] == s[1..][i..i + |sub|];
        assert OccursAt(s, sub, i + 1);
      }
      if exists i :: OccursAt(s, sub, i) {
        var i :| OccursAt(s, sub, i);
        if i > 0 {
          assert s[1..][i - 1..i - 1 + |sub|] == s[i..i + |sub|];
          assert OccursAt(s[1..], sub, i - 1);
        } else {
          assert s[..|sub|] == sub;
        }
      }
      if s[..|sub|] == sub {
        assert OccursAt(s, sub, 0);
      }
    } else if |s| >= |sub| {
      assert OccursAt(s, sub, 0);
    }
  }

  /** `sep.join(parts)`. */
  function Join(parts: seq<string>, sep: string): string
    decreases |parts|
  {
    if |parts| == 0 then ""
    else if |parts| == 1 then parts[0]
    else parts[0] + sep + Join(parts[1..], sep)
  }

  /** `s.split(sep)` for a one-character separator: never empty, no piece holds `sep`. */
  function SplitOn(s: string, sep: char): (r: seq<string>)
    ensures |r| >= 1
    ensures forall i :: 0 <= i < |r| ==> sep !in r[i]
    decreases |s|
  {
    if |s| == 0 then [""]
    else
      var rest := SplitOn(s[1..], sep);
      if s[0] == sep then [""] + rest
      else [[s[0]] + rest[0]] + rest[1..]
  }

  /** Splitting and joining back with the same separator gives the input again. */
  lemma {:induction false} JoinSplitOn(s: string, sep: char)
    ensures Join(SplitOn(s, sep), [sep]) == s
    decreases |s|
  {
    if |s| > 0 {
      var rest := SplitOn(s[1..], sep);
      JoinSplitOn(s[1..], sep);
      if s[0] != sep {
        var r := [[s[0]] + rest[0]] + rest[1..];
        if |rest| > 1 {
          assert r[1..] == rest[1..];
          assert Join(rest, [sep]) == rest[0] + [sep] + Join(rest[1..], [sep]);
        }
      }
    }
  }

  /** The first piece of `s.split(sep)` is the text before the first `sep`. */
  lemma {:induction false} SplitOnHead(s: string, sep: char)
    ensures var h := SplitOn(s, sep)[0];
      |h| <= |s| && h == s[..|h|] && (|h| < |s| ==> s[|h|] == sep)
    decreases |s|
  {
    if |s| > 0 && s[0] != sep {
      SplitOnHead(s[1..], sep);
      var h := SplitOn(s[1..], sep)[0];
      assert SplitOn(s, sep)[0] == [s[0]] + h;
    }
  }

  /** The leading run of non-whitespace characters of `s`. */
  function TakeWord(s: string): (w: string)
    ensures |w| <= |s| && w == s[..|w|]
    ensures forall i :: 0 <= i < |w| ==> !IsSpace(w[i])
    ensures |w| < |s| ==> IsSpace(s[|w|])
  {
    if |s| > 0 && !IsSpace(s[0]) then [s[0]] + TakeWord(s[1..]) else []
  }

  /** A non-empty run of non-whitespace characters. */
  predicate IsWord(w: string) {
    |w| > 0 && forall j :: 0 <= j < |w| ==> !IsSpace(w[j])
  }

  /** `s.split()`: the maximal runs of non-whitespace characters, in order. */
  function Words(s: string): (ws: seq<string>)
    ensures forall i :: 0 <= i < |ws| ==> IsWord(ws[i])
    decreases |s|
  {
    if s == [] then []
    else if IsSpace(s[0]) then Words(s[1..])
    else
      var w := TakeWord(s);
      assert w == [s[0]] + TakeWord(s[1..]);
      [w] + Words(s[|w|..])
  }

  /** A sequence is its prefix followed by its suffix. */
  lemma SplitAt(s: string, i: nat)
    requires i <= |s|
    ensures s[..i] + s[i..] == s
  {
  }

  /** The characters of `s` that are not whitespace. */
  function NonSpace(s: string): string {
    if s == [] then [] else (if IsSpace(s[0]) then [] else [s[0]]) + NonSpace(s[1..])
  }

  function Concat(ws: seq<string>): string {
    if ws == [] then [] else ws[0] + Concat(ws[1..])
  }

  lemma {:induction false} NonSpaceAppend(a: string, b: string)
    ensures NonSpace(a + b) == NonSpace(a) + NonSpace(b)
    decreases |a|
  {
    if a != [] {
      var h: string := if IsSpace(a[0]) then [] else [a[0]];
      assert (a + b)[0] == a[0];
      assert (a + b)[1..] == a[1..] + b;
      NonSpaceAppend(a[1..], b);
      calc {
        NonSpace(a + b);
        h + NonSpace(a[1..] + b);
        h + (NonSpace(a[1..]) + NonSpace(b));
        (h + NonSpace(a[1..])) + NonSpace(b);
        NonSpace(a) + NonSpace(b);
      }
    } else {
      assert a + b == b;
    }
  }

  lemma {:induction false} NonSpaceOfWord(w: string)
    requires forall i :: 0 <= i < |w| ==> !IsSpace(w[i])
    ensures NonSpace(w) == w
    decreases |w|
  {
    if w != [] {
      NonSpaceOfWord(w[1..]);
    }
  }

  /** `s.split()` loses exactly the whitespace: the words put together are the non-blank characters. */
  lemma {:induction false} WordsKeepNonSpace(s: string)
    ensures Concat(Words(s)) == NonSpace(s)
    decreases |s|
  {
    if s != [] && !IsSpace(s[0]) {
      var w := TakeWord(s);
      assert w == [s[0]] + TakeWord(s[1..]);
      SplitAt(s, |w|);
      NonSpaceAppend(w, s[|w|..]);
      NonSpaceOfWord(w);
      WordsKeepNonSpace(s[|w|..]);
      assert Words(s) == [w] + Words(s[|w|..]);
      assert Concat(Words(s)) == w + Concat(Words(s[|w|..]));
    } else if s != [] {
      WordsKeepNonSpace(s[1..]);
    }
  }

  lemma {:induction false} ListedFrom(c: char, i: nat, j: nat)
    requires i <= j < |Whitespace| && Whitespace[j] == c
    ensures InWhitespaceFrom(c, i)
    decreases j - i
  {
    if i < j {
      ListedFrom(c, i + 1, j);
    }
  }

  /** The blank is whitespace. */
  lemma BlankIsSpace()
    ensures IsSpace(' ')
  {
    ListedFrom(' ', 0, 9);
  }

  lemma {:induction false} TakeWordOfWord(w: string, rest: string)
    requires forall i :: 0 <= i < |w| ==> !IsSpace(w[i])
    requires rest == [] || IsSpace(rest[0])
    ensures TakeWord(w + rest) == w
    decreases |w|
  {
    if w != [] {
      assert (w + rest)[1..] == w[1..] + rest;
      TakeWordOfWord(w[1..], rest);
    }
  }

  /** `split()` ignores a leading blank. */
  lemma WordsAfterBlank(s: string)
    ensures Words(" " + s) == Words(s)
  {
    BlankIsSpace();
    assert (" " + s)[1..] == s;
  }

  /** A word followed by nothing or by whitespace is the first word of the text. */
  lemma WordsOfWordThen(w: string, rest: string)
    requires IsWord(w)
    requires rest == [] || IsSpace(rest[0])
    ensures Words(w + rest) == [w] + Words(rest)
  {
    var t := w + rest;
    assert t[0] == w[0];
    TakeWordOfWord(w, rest);
    assert t[|w|..] == rest;
  }

  lemma WordsOfOneWord(w: string)
    requires IsWord(w)
    ensures Words(Join([w], " ")) == [w]
  {
    assert Join([w], " ") == w;
    WordsOfWordThen(w, []);
    assert w + [] == w;
    assert Words([]) == [];
  }

  lemma WordsOfJoinStep(ws: seq<string>)
    requires |ws| > 1 && IsWord(ws[0])
    requires Words(Join(ws[1..], " ")) == ws[1..]
    ensures Words(Join(ws, " ")) == ws
  {
    var w := ws[0];
    var j := Join(ws[1..], " ");
    assert Join(ws, " ") == w + " " + j;
    assert w + " " + j == w + (" " + j);
    BlankIsSpace();
    WordsOfWordThen(w, " " + j);
    WordsAfterBlank(j);
    assert Words(w + (" " + j)) == [w] + ws[1..];
    assert ws == [w] + ws[1..];
  }

  /** Words joined with single blanks split back into the same words. */
  lemma {:induction false} WordsOfJoin(ws: seq<string>)
    requires forall i :: 0 <= i < |ws| ==> IsWord(ws[i])
    ensures Words(Join(ws, " ")) == ws
    decreases |ws|
  {
    if |ws| == 1 {
      WordsOfOneWord(ws[0]);
      assert ws == [ws[0]];
    } else if |ws| > 1 {
      WordsOfJoin(ws[1..]);
      WordsOfJoinStep(ws);
    }
  }

  predicate IsDigit(c: char) {
    '0' <= c <= '9'
  }

  function DigitChar(d: nat): char
    requires d < 10
  {
    ('0' as int + d) as char
  }

  /** A hexadecimal digit, lower case, as both `repr` and `json.dumps` write it. */
  function HexDigit(d: nat): (c: char)
    requires d < 16
    ensures '0' <= c <= '9' || 'a' <= c <= 'f'
  {
    if d < 10 then DigitChar(d) else ('a' as int + d - 10) as char
  }

  /** The decimal digits of `n`, most significant first, with no leading zero. */
  function Decimal(n: nat): (s: string)
    ensures |s| >= 1 && forall i :: 0 <= i < |s| ==> IsDigit(s[i])
  {
    if n < 10 then [DigitChar(n)] else Decimal(n / 10) + [DigitChar(n % 10)]
  }

  /** `str(i)` for a Python int. */
  function IntToDecimal(i: int): string {
    if i < 0 then "-" + Decimal(-i) else Decimal(i)
  }

  /** A digit string as `int()` accepts it: digits with single underscores between them. */
  predicate ValidDigits(t: string) {
    && |t| >= 1 && IsDigit(t[0]) && IsDigit(t[|t| - 1])
    && (forall i :: 0 <= i < |t| ==> IsDigit(t[i]) || t[i] == '_')
    && (forall i :: 0 <= i < |t| - 1 ==> !(t[i] == '_' && t[i + 1] == '_'))
  }

  /** The number a digit string denotes, underscores ignored. */
  function DigitsValue(t: string): nat
    requires forall i :: 0 <= i < |t| ==> IsDigit(t[i]) || t[i] == '_'
  {
    if t == [] then 0
    else if t[|t| - 1] == '_' then DigitsValue(t[..|t| - 1])
    else
      assert IsDigit(t[|t| - 1]);
      DigitsValue(t[..|t| - 1]) * 10 + (t[|t| - 1] as int - '0' as int)
  }

  /**
   * `int(s)` for a str: surrounding whitespace is ignored, an optional sign,
   * then ASCII digits. `None` is the ValueError Python raises.
   */
  function ParsePyInt(s: string): Option<int> {
    var t := Strip(s);
    if |t| > 0 && (t[0] == '+' || t[0] == '-') then
      if ValidDigits(t[1..]) then
        var v: int := DigitsValue(t[1..]);
        Some(if t[0] == '-' then -v else v)
      else None
    else if ValidDigits(t) then Some(DigitsValue(t))
    else None
  }

  lemma {:induction false} DecimalValue(n: nat)
    ensures ValidDigits(Decimal(n)) && DigitsValue(Decimal(n)) == n
  {
    if n >= 10 {
      DecimalValue(n / 10);
      var s := Decimal(n);
      assert s[..|s| - 1] == Decimal(n / 10);
    }
  }

  /** `int(str(i)) == i` for every Python int. */
  lemma ParseIntToDecimal(i: int)
    ensures ParsePyInt(IntToDecimal(i)) == Some(i)
  {
    var s := IntToDecimal(i);
    DecimalValue(if i < 0 then -i else i);
    PrintableNotSpace(s[0]);
    PrintableNotSpace(s[|s| - 1]);
    assert IsStripped(s);
    StripOfStripped(s);
    if i < 0 {
      assert s[1..] == Decimal(-i);
    }
  }
}
