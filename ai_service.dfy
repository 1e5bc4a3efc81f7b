/**
 * The mail triage service: it fills the prompt template with the email, and it
 * repairs the dictionary the language model answers with into an `EmailOut`
 * whose subject line fits the dashboard width.
 *
 * The language model is not modelled: `Analyze` receives the value that
 * `json.loads` made of its answer.
 */
module AiService {
  import opened Wrappers
  import opened JsonValue
  import opened PyText
  import opened PyValue
  import JsonText

  /** `SUBJECT_MAX` when the environment does not set it. */
  const DefaultSubjectMax: int := 72

  /** The single character `…` (U+2026) that marks a cut subject. */
  const Ellipsis: char := '…'

  lemma EllipsisNotSpace()
    ensures !IsSpace(Ellipsis)
  {
    NotListedNotSpace(Ellipsis);
  }

  // ---------------------------------------------------------------------------
  // deterministic_truncate

  /**
   * `deterministic_truncate(s, max_len)`: the stripped text if it fits,
   * otherwise its first `max_len - 1` characters, right-stripped, and `…`;
   * for `max_len` of 1 or less, the plain slice `[:max_len]`.
   */
  function Truncate(s: Option<string>, maxLen: int): (r: string)
    ensures maxLen >= 0 ==> |r| <= maxLen
  {
    var t := Strip(s.GetOr(""));
    if |t| <= maxLen then t
    else if maxLen <= 1 then PyTake(t, maxLen)
    else RStrip(t[..maxLen - 1]) + [Ellipsis]
  }

  /** `None` reads as the empty string. */
  lemma TruncateNone(maxLen: int)
    ensures Truncate(None, maxLen) == Truncate(Some(""), maxLen)
  {
  }

  /** Text that fits after stripping comes back stripped and otherwise untouched. */
  lemma TruncateFits(s: string, maxLen: int)
    requires |Strip(s)| <= maxLen
    ensures Truncate(Some(s), maxLen) == Strip(s)
  {
  }

  /**
   * Longer text is cut to `max_len - 1` characters, right-stripped, and ends in
   * one ellipsis; the result is exactly `max_len` long precisely when the
   * character before the cut is not whitespace, and shorter otherwise.
   */
  lemma TruncateCut(s: string, maxLen: int)
    requires maxLen >= 2 && |Strip(s)| > maxLen
    ensures var t, r := Strip(s), Truncate(Some(s), maxLen);
      && r == RStrip(t[..maxLen - 1]) + [Ellipsis]
      && |r| <= maxLen
      && (|r| == maxLen <==> !IsSpace(t[maxLen - 2]))
  {
    var t := Strip(s);
    var c := t[..maxLen - 1];
    if !IsSpace(t[maxLen - 2]) {
      assert RStrip(c) == c;
    } else {
      assert |RStrip(c)| < |c|;
    }
  }

  /** With room for at most one character there is no ellipsis: a plain prefix. */
  lemma TruncateTiny(s: string, maxLen: int)
    requires 0 <= maxLen <= 1 && |Strip(s)| > maxLen
    ensures Truncate(Some(s), maxLen) == Strip(s)[..maxLen]
  {
  }

  /** Every result for a non-negative width is itself stripped. */
  lemma TruncateStripped(s: Option<string>, maxLen: int)
    requires maxLen >= 0
    ensures IsStripped(Truncate(s, maxLen))
  {
    var t := Strip(s.GetOr(""));
    var r := Truncate(s, maxLen);
    if |t| <= maxLen {
      assert r == t;
    } else if maxLen <= 1 {
      assert r == t[..maxLen];
      if maxLen == 1 {
        assert r[0] == t[0];
      }
    } else {
      EllipsisNotSpace();
      var p := RStrip(t[..maxLen - 1]);
      assert r == p + [Ellipsis];
      assert r[|r| - 1] == Ellipsis;
      if p == [] {
        assert r[0] == Ellipsis;
      } else {
        assert r[0] == t[0];
      }
    }
  }

  /** Truncating a truncated subject again with the same width changes nothing. */
  lemma TruncateIdempotent(s: Option<string>, maxLen: int)
    requires maxLen >= 0
    ensures Truncate(Some(Truncate(s, maxLen)), maxLen) == Truncate(s, maxLen)
  {
    var r := Truncate(s, maxLen);
    TruncateStripped(s, maxLen);
    StripOfStripped(r);
    TruncateFits(r, maxLen);
  }

  /** Stripping before truncating makes no difference. */
  lemma TruncateOfStripped(s: string, maxLen: int)
    ensures Truncate(Some(Strip(s)), maxLen) == Truncate(Some(s), maxLen)
  {
    StripIdempotent(s);
  }

  // ---------------------------------------------------------------------------
  // analyze

  /** The service's answer; `priority` is whatever `int()` made of the model's value. */
  datatype EmailOut = EmailOut(priority: int, tags: seq<string>, summary: string, subjectTruncated: string)

  /** `int(m.get("priority", 3))`. */
  function Priority(v: Option<JSON>): (r: Result<int, PyError>)
    ensures v.None? ==> r == Ok(3)
    ensures v.Some? ==> r == Int(v.value)
  {
    Int(v.GetOr(JInt(3)))
  }

  /**
   * `[str(t) for t in (m.get("tags") or [])]`: iterating a list yields its
   * elements, a string its characters, a dict its keys; a true boolean or a
   * non-zero number is not iterable.
   */
  function Tags(v: Option<JSON>): (r: Result<seq<string>, PyError>)
    ensures r.Err? <==> v.Some? && Truthy(v.value) && (v.value.JInt? || v.value.JBool?)
    ensures r.Err? ==> r.error == TypeError
    ensures v.None? || !Truthy(v.value) ==> r == Ok([])
  {
    if v.None? || !Truthy(v.value) then Ok([])
    else if v.value.JArray? then Ok(seq(|v.value.items|, k requires 0 <= k < |v.value.items| => Str(v.value.items[k])))
    else if v.value.JString? then Ok(seq(|v.value.s|, k requires 0 <= k < |v.value.s| => [v.value.s[k]]))
    else if v.value.JObject? then Ok(Keys(v.value.fields))
    else Err(TypeError)
  }

  /** A list of strings passes through as is. */
  lemma TagsOfStrings(items: seq<JSON>)
    requires forall k :: 0 <= k < |items| ==> items[k].JString?
    ensures Tags(Some(JArray(items))).Ok?
    ensures Tags(Some(JArray(items))).value == seq(|items|, k requires 0 <= k < |items| => items[k].s)
  {
  }

  /** `(m.get(key) or "").strip()`: a missing or false value is the empty string; `strip` needs a str. */
  function StrippedText(v: Option<JSON>): (r: Result<string, PyError>)
    ensures r.Ok? ==> IsStripped(r.value)
    ensures v.None? || !Truthy(v.value) ==> r == Ok("")
    ensures v.Some? && v.value.JString? ==> r == Ok(Strip(v.value.s))
    ensures r.Err? <==> v.Some? && Truthy(v.value) && !v.value.JString?
  {
    if v.None? || !Truthy(v.value) then Ok("")
    else if v.value.JString? then Ok(Strip(v.value.s))
    else Err(AttributeError)
  }

  /**
   * `analyze`: the fields are read in the source's order, so the first
   * failing conversion is the error raised. A model answer that is not a JSON
   * object has no `.get` and raises AttributeError.
   */
  function Analyze(subject: string, m: JSON, subjectMax: int): (r: Result<EmailOut, PyError>)
    ensures !m.JObject? ==> r == Err(AttributeError)
    ensures r.Ok? && subjectMax >= 0 ==> |r.value.subjectTruncated| <= subjectMax
    ensures r.Ok? ==> IsStripped(r.value.summary)
  {
    if !m.JObject? then Err(AttributeError)
    else
      var priority :- Priority(Get(m.fields, "priority"));
      var tags :- Tags(Get(m.fields, "tags"));
      var summary :- StrippedText(Get(m.fields, "summary"));
      var given :- StrippedText(Get(m.fields, "subject_truncated"));
      var subjectTruncated := if given == "" then Truncate(Some(subject), subjectMax)
                              else Truncate(Some(given), subjectMax);
      Ok(EmailOut(priority, tags, summary, subjectTruncated))
  }

  /**
   * The priority defaults to 3 only when the key is missing; an integer is kept
   * as it is, however far outside 1..5; text that is not a number raises
   * ValueError and an explicit null raises TypeError.
   */
  lemma AnalyzePriority(subject: string, fields: Fields, subjectMax: int)
    ensures var r := Analyze(subject, JObject(fields), subjectMax);
      && (Get(fields, "priority").None? && r.Ok? ==> r.value.priority == 3)
      && (Get(fields, "priority").Some? && Get(fields, "priority").value.JInt? && r.Ok? ==>
            r.value.priority == Get(fields, "priority").value.i)
      && (Get(fields, "priority") == Some(JNull) ==> r == Err(TypeError))
      && ((Get(fields, "priority").Some? && Get(fields, "priority").value.JString?
           && ParsePyInt(Get(fields, "priority").value.s).None?) ==> r == Err(ValueError))
  {
    AnalyzeReadsPriorityFirst(subject, fields, subjectMax);
  }

  /** The priority is read first: its error is the answer's, its value the answer's level. */
  lemma AnalyzeReadsPriorityFirst(subject: string, fields: Fields, subjectMax: int)
    ensures var r := Analyze(subject, JObject(fields), subjectMax);
      var pr := Priority(Get(fields, "priority"));
      && (pr.Err? ==> r == Err(pr.error))
      && (r.Ok? ==> pr.Ok? && r.value.priority == pr.value)
  {
    var pr := Priority(Get(fields, "priority"));
    if pr.Ok? {
      var r := Analyze(subject, JObject(fields), subjectMax);
      assert r.Ok? ==> r.value.priority == pr.value;
    }
  }

  /** The subject shown is the model's own line if it has any text, else the email's subject; both are cut to width. */
  lemma AnalyzeSubject(subject: string, fields: Fields, subjectMax: int)
    ensures var r := Analyze(subject, JObject(fields), subjectMax);
      var st := Get(fields, "subject_truncated");
      r.Ok? ==>
        if st.Some? && st.value.JString? && Strip(st.value.s) != [] then
          r.value.subjectTruncated == Truncate(Some(st.value.s), subjectMax)
        else
          r.value.subjectTruncated == Truncate(Some(subject), subjectMax)
  {
    var r := Analyze(subject, JObject(fields), subjectMax);
    var st := Get(fields, "subject_truncated");
    if r.Ok? {
      assert Priority(Get(fields, "priority")).Ok? && Tags(Get(fields, "tags")).Ok?;
      assert StrippedText(Get(fields, "summary")).Ok?;
      var given := StrippedText(st);
      assert given.Ok?;
      assert r.value.subjectTruncated == if given.value == "" then Truncate(Some(subject), subjectMax)
                                         else Truncate(Some(given.value), subjectMax);
      if st.Some? && st.value.JString? {
        TruncateOfStripped(st.value.s, subjectMax);
      }
    }
  }

  /**
   * An answer shaped as the prompt asks (an integer priority, a list of tag
   * strings, a string summary and subject line, any of them missing or null)
   * is always accepted, and its fields come through repaired but unchanged in
   * meaning.
   */
  lemma AnalyzeWellTyped(subject: string, fields: Fields, subjectMax: int)
    requires var p := Get(fields, "priority"); p.None? || p.value.JInt?
    requires var t := Get(fields, "tags");
      t.None? || t.value.JNull? || (t.value.JArray? && forall k :: 0 <= k < |t.value.items| ==> t.value.items[k].JString?)
    requires var s := Get(fields, "summary"); s.None? || s.value.JNull? || s.value.JString?
    requires var s := Get(fields, "subject_truncated"); s.None? || s.value.JNull? || s.value.JString?
    ensures var r := Analyze(subject, JObject(fields), subjectMax);
      && r.Ok?
      && r.value.priority == Get(fields, "priority").GetOr(JInt(3)).i
      && (Get(fields, "tags").Some? && Get(fields, "tags").value.JArray? ==>
            var items := Get(fields, "tags").value.items;
            r.value.tags == seq(|items|, k requires 0 <= k < |items| => items[k].s))
      && (Get(fields, "tags").None? || Get(fields, "tags").value.JNull? ==> r.value.tags == [])
      && (Get(fields, "summary").Some? && Get(fields, "summary").value.JString? ==>
            r.value.summary == Strip(Get(fields, "summary").value.s))
  {
    var t := Get(fields, "tags");
    if t.Some? && t.value.JArray? {
      TagsOfStrings(t.value.items);
    }
  }

  // ---------------------------------------------------------------------------
  // build_prompt

  /**
   * The values `build_prompt` puts into the template's placeholders, in the
   * order they occur in it: the width, the subject and the body as JSON string
   * literals, the overrides as a JSON object (`{}` when absent), the preferred
   * tags as a JSON array (`[]` when absent), and the width once more.
   */
  function PromptFills(subjectMax: int, subject: string, body: string,
                       overrides: Option<Fields>, preferred: Option<seq<string>>): (f: seq<string>)
    ensures |f| == 6
  {
    var tags := preferred.GetOr([]);
    [ IntToDecimal(subjectMax),
      JsonText.Dumps(JString(subject)),
      JsonText.Dumps(JString(body)),
      JsonText.Dumps(JObject(overrides.GetOr([]))),
      JsonText.Dumps(JArray(seq(|tags|, k requires 0 <= k < |tags| => JString(tags[k])))),
      IntToDecimal(subjectMax) ]
  }

  /** `texts[0] + fills[0] + texts[1] + ... + texts[n]`: what `str.format` makes of the template. */
  function Interleave(texts: seq<string>, fills: seq<string>): string
    requires |texts| == |fills| + 1
    decreases |fills|
  {
    if fills == [] then texts[0] else texts[0] + fills[0] + Interleave(texts[1..], fills[1..])
  }

  /**
   * `build_prompt`. The template's wording is not modelled: it is given as the
   * seven runs of text around its six placeholders.
   */
  function BuildPrompt(texts: seq<string>, subjectMax: int, subject: string, body: string,
                       overrides: Option<Fields>, preferred: Option<seq<string>>): (p: string)
    requires |texts| == 7
  {
    Interleave(texts, PromptFills(subjectMax, subject, body, overrides, preferred))
  }

  /** Absent overrides and tags are written as the empty object and the empty list. */
  lemma PromptDefaults(texts: seq<string>, subjectMax: int, subject: string, body: string)
    requires |texts| == 7
    ensures BuildPrompt(texts, subjectMax, subject, body, None, None)
         == BuildPrompt(texts, subjectMax, subject, body, Some([]), Some([]))
  {
  }

  /**
   * The subject and the body are embedded as JSON string literals that decode
   * back to exactly the email's text, and the width as a number that reads
   * back as the width.
   */
  lemma PromptFillsDecode(subjectMax: int, subject: string, body: string,
                          overrides: Option<Fields>, preferred: Option<seq<string>>)
    ensures var f := PromptFills(subjectMax, subject, body, overrides, preferred);
      && JsonText.DecodeString(f[1]) == Some(subject)
      && JsonText.DecodeString(f[2]) == Some(body)
      && ParsePyInt(f[0]) == Some(subjectMax) && f[5] == f[0]
  {
    var f := PromptFills(subjectMax, subject, body, overrides, preferred);
    assert f[0] == IntToDecimal(subjectMax) && f[5] == f[0];
    assert f[1] == JsonText.Dumps(JString(subject)) && f[2] == JsonText.Dumps(JString(body));
    JsonText.DecodeDumpedString(subject);
    JsonText.DecodeDumpedString(body);
    ParseIntToDecimal(subjectMax);
  }

  /** Everything filled in is printable ASCII: a non-ASCII subject or body never reaches the prompt raw. */
  lemma PromptFillsPrintable(subjectMax: int, subject: string, body: string,
                             overrides: Option<Fields>, preferred: Option<seq<string>>)
    ensures var f := PromptFills(subjectMax, subject, body, overrides, preferred);
      forall k :: 0 <= k < |f| ==> JsonText.Printable(f[k])
  {
    var f := PromptFills(subjectMax, subject, body, overrides, preferred);
    var d := IntToDecimal(subjectMax);
    var tags := preferred.GetOr([]);
    var list := JArray(seq(|tags|, k requires 0 <= k < |tags| => JString(tags[k])));
    var obj := JObject(overrides.GetOr([]));
    assert f == [d, JsonText.Dumps(JString(subject)), JsonText.Dumps(JString(body)),
                 JsonText.Dumps(obj), JsonText.Dumps(list), d];
    assert JsonText.Printable(d) by {
      assert forall k :: 0 <= k < |d| ==> d[k] == '-' || IsDigit(d[k]);
    }
    JsonText.DumpsPrintable(JString(subject));
    JsonText.DumpsPrintable(JString(body));
    JsonText.DumpsPrintable(list);
    JsonText.DumpsPrintable(obj);
  }

  /** Each character of a filled template comes from the template's text or from a filled value. */
  lemma {:induction false} InterleaveChars(texts: seq<string>, fills: seq<string>, c: char)
    requires |texts| == |fills| + 1
    requires c in Interleave(texts, fills)
    ensures (exists k :: 0 <= k < |texts| && c in texts[k]) || (exists k :: 0 <= k < |fills| && c in fills[k])
    decreases |fills|
  {
    if fills != [] {
      var rest := Interleave(texts[1..], fills[1..]);
      if c in rest {
        InterleaveChars(texts[1..], fills[1..], c);
        if exists k :: 0 <= k < |texts[1..]| && c in texts[1..][k] {
          var k :| 0 <= k < |texts[1..]| && c in texts[1..][k];
          assert c in texts[k + 1];
        } else {
          var k :| 0 <= k < |fills[1..]| && c in fills[1..][k];
          assert c in fills[k + 1];
        }
      } else if c !in texts[0] {
        assert c in fills[0];
      }
    }
  }

  /** A character of the prompt that is not printable ASCII was written in the template itself. */
  lemma PromptForeignCharsFromTemplate(texts: seq<string>, subjectMax: int, subject: string, body: string,
                                       overrides: Option<Fields>, preferred: Option<seq<string>>, c: char)
    requires |texts| == 7
    requires c in BuildPrompt(texts, subjectMax, subject, body, overrides, preferred)
    requires !(' ' <= c <= '~')
    ensures exists k :: 0 <= k < |texts| && c in texts[k]
  {
    var f := PromptFills(subjectMax, subject, body, overrides, preferred);
    InterleaveChars(texts, f, c);
    PromptFillsPrintable(subjectMax, subject, body, overrides, preferred);
    forall k | 0 <= k < |f| ensures c !in f[k] {
      assert JsonText.Printable(f[k]);
    }
  }
}
