/**
 * The mail ingester: every message of the inbox is flattened to a subject,
 * a sender and a plain-text body, and inserted into the `emails` table.
 *
 * The email library is given: a message arrives already split into its
 * `decode_header` chunks and its `walk()` parts, and charset decoding with
 * `errors="ignore"` is an oracle that fails only for an unknown charset.
 */
module MailIngest {
  import opened Wrappers
  import SeqFacts

  newtype byte = x: int | 0 <= x < 256

  /** `bytes.decode(charset, errors="ignore")`: `None` is the LookupError of an unknown charset. */
  type Decoder = (seq<byte>, string) -> Option<string>

  /** One `(value, charset)` pair of `decode_header`. */
  datatype Chunk = TextChunk(text: string) | BytesChunk(bytes: seq<byte>, charset: Option<string>)

  /** A MIME part: its content type, its `Content-Disposition` header, its charset and decoded payload bytes. */
  datatype Part = Part(contentType: string, disposition: Option<string>, charset: Option<string>, payload: seq<byte>)

  /** A message: its Subject chunks, its From header, and either the parts of its walk or its single body. */
  datatype Message =
    | Multipart(subject: seq<Chunk>, from: Option<string>, walk: seq<Part>)
    | Single(subject: seq<Chunk>, from: Option<string>, part: Part)

  datatype Fault = NoSubjectChunk | UnknownCharset

  /** `x or "utf-8"` for a charset. */
  function CharsetOr(c: Option<string>): (r: string)
    ensures c.Some? && c.value != "" ==> r == c.value
    ensures c.None? || c.value == "" ==> r == "utf-8"
    ensures r != ""
  {
    if c.Some? && c.value != "" then c.value else "utf-8"
  }

  /** The subject is the first chunk only: a str as is, bytes decoded with its charset or UTF-8. */
  function Subject(chunks: seq<Chunk>, decode: Decoder): (r: Result<string, Fault>)
    ensures chunks == [] ==> r == Err(NoSubjectChunk)
    ensures chunks != [] && chunks[0].TextChunk? ==> r == Ok(chunks[0].text)
    ensures chunks != [] && chunks[0].BytesChunk? ==>
      r == (var d := decode(chunks[0].bytes, CharsetOr(chunks[0].charset)); if d.Some? then Ok(d.value) else Err(UnknownCharset))
  {
    if chunks == [] then Err(NoSubjectChunk)
    else match chunks[0]
      case TextChunk(s) => Ok(s)
      case BytesChunk(b, enc) =>
        var d := decode(b, CharsetOr(enc));
        if d.Some? then Ok(d.value) else Err(UnknownCharset)
  }

  /** The chunks after the first never reach the subject. */
  lemma SubjectIgnoresLaterChunks(first: Chunk, rest: seq<Chunk>, rest': seq<Chunk>, decode: Decoder)
    ensures Subject([first] + rest, decode) == Subject([first] + rest', decode)
  {
  }

  /**
   * A subject chunk or a body part with no charset, or an empty one, decodes
   * exactly as if it named UTF-8; a text chunk is the subject verbatim.
   */
  lemma MissingCharsetIsUtf8(b: seq<byte>, rest: seq<Chunk>, p: Part, text: string, decode: Decoder)
    ensures Subject([BytesChunk(b, None)] + rest, decode) == Subject([BytesChunk(b, Some("utf-8"))] + rest, decode)
    ensures Subject([BytesChunk(b, Some(""))] + rest, decode) == Subject([BytesChunk(b, Some("utf-8"))] + rest, decode)
    ensures PartText(p.(charset := None), decode) == PartText(p.(charset := Some("utf-8")), decode)
    ensures PartText(p.(charset := Some("")), decode) == PartText(p.(charset := Some("utf-8")), decode)
    ensures Subject([TextChunk(text)] + rest, decode) == Ok(text)
  {
  }

  /** A part that contributes to the body: plain text without a (non-empty) `Content-Disposition`. */
  predicate Selected(p: Part) {
    p.contentType == "text/plain" && (p.disposition.None? || p.disposition == Some(""))
  }

  /** The decoded text of a part. */
  function PartText(p: Part, decode: Decoder): Option<string> {
    decode(p.payload, CharsetOr(p.charset))
  }

  /** The body a walk accumulates: the decoded selected parts, in walk order, or the first decoding failure. */
  function WalkBody(parts: seq<Part>, decode: Decoder): Result<string, Fault>
    decreases |parts|
  {
    if parts == [] then Ok("")
    else
      var last := parts[|parts| - 1];
      var init := WalkBody(parts[..|parts| - 1], decode);
      if init.Err? then init
      else if !Selected(last) then init
      else
        var t := PartText(last, decode);
        if t.None? then Err(UnknownCharset) else Ok(init.value + t.value)
  }

  /** The selected parts, in walk order. */
  function SelectedParts(parts: seq<Part>): (r: seq<Part>)
    ensures forall k :: 0 <= k < |r| ==> Selected(r[k])
    decreases |parts|
  {
    if parts == [] then []
    else SelectedParts(parts[..|parts| - 1]) + (if Selected(parts[|parts| - 1]) then [parts[|parts| - 1]] else [])
  }

  /** Attachments, HTML parts and containers in the walk contribute nothing. */
  lemma {:induction false} WalkBodyOnlySelected(parts: seq<Part>, decode: Decoder)
    ensures WalkBody(parts, decode) == WalkBody(SelectedParts(parts), decode)
    decreases |parts|
  {
    if parts != [] {
      var init := parts[..|parts| - 1];
      var last := parts[|parts| - 1];
      WalkBodyOnlySelected(init, decode);
      assert parts[..|parts| - 1] == init;
      if Selected(last) {
        var s := SelectedParts(init) + [last];
        assert SelectedParts(parts) == s;
        assert s[..|s| - 1] == SelectedParts(init) && s[|s| - 1] == last;
      } else {
        assert SelectedParts(parts) == SelectedParts(init);
        assert WalkBody(parts, decode) == WalkBody(init, decode);
      }
    }
  }

  /** Where every selected part decodes, the body is their texts concatenated in walk order. */
  lemma {:induction false} WalkBodyAppend(a: seq<Part>, b: seq<Part>, decode: Decoder)
    requires WalkBody(a, decode).Ok? && WalkBody(b, decode).Ok?
    ensures WalkBody(a + b, decode) == Ok(WalkBody(a, decode).value + WalkBody(b, decode).value)
    decreases |b|
  {
    if b == [] {
      assert a + b == a;
      assert WalkBody(a, decode).value + "" == WalkBody(a, decode).value;
    } else {
      var binit := b[..|b| - 1];
      assert (a + b)[..|a + b| - 1] == a + binit;
      assert (a + b)[|a + b| - 1] == b[|b| - 1];
      assert b[..|b| - 1] == binit;
      assert WalkBody(binit, decode).Ok?;
      WalkBodyAppend(a, binit, decode);
      var last := b[|b| - 1];
      if Selected(last) {
        var t := PartText(last, decode);
        assert WalkBody(b, decode) == Ok(WalkBody(binit, decode).value + t.value);
        assert WalkBody(a, decode).value + WalkBody(binit, decode).value + t.value
            == WalkBody(a, decode).value + (WalkBody(binit, decode).value + t.value);
      }
    }
  }

  /** The body of a message: the walk for a multipart one, the whole decoded payload otherwise. */
  function Body(m: Message, decode: Decoder): Result<string, Fault> {
    match m
    case Multipart(_, _, walk) => WalkBody(walk, decode)
    case Single(_, _, part) =>
      var t := PartText(part, decode);
      if t.None? then Err(UnknownCharset) else Ok(t.value)
  }

  /** A single-part message keeps its whole payload, whatever its content type or disposition. */
  lemma SingleBodyIsWholePayload(subject: seq<Chunk>, from: Option<string>, part: Part, decode: Decoder)
    requires decode(part.payload, CharsetOr(part.charset)).Some?
    ensures Body(Single(subject, from, part), decode) == Ok(decode(part.payload, CharsetOr(part.charset)).value)
  {
  }

  /** What `parse_email` returns: subject, sender, body. */
  datatype Parsed = Parsed(subject: string, sender: Option<string>, body: string)

  /** `parse_email`; the sender is the From header verbatim. */
  function ParseEmail(m: Message, decode: Decoder): (r: Result<Parsed, Fault>)
    ensures r.Ok? ==> r.value.sender == m.from && Subject(m.subject, decode) == Ok(r.value.subject)
                      && Body(m, decode) == Ok(r.value.body)
    ensures r.Err? <==> Subject(m.subject, decode).Err? || Body(m, decode).Err?
  {
    var subject :- Subject(m.subject, decode);
    var body :- Body(m, decode);
    Ok(Parsed(subject, m.from, body))
  }

  /** The body accumulation loop of `parse_email` over a multipart message's walk. */
  method CollectBody(walk: seq<Part>, decode: Decoder) returns (body: Result<string, Fault>)
    ensures body == WalkBody(walk, decode)
  {
    var text := "";
    for i := 0 to |walk|
      invariant WalkBody(walk[..i], decode) == Ok(text)
    {
      var part := walk[i];
      assert walk[..i + 1][..i] == walk[..i];
      if part.contentType == "text/plain" && (part.disposition.None? || part.disposition == Some("")) {
        var t := decode(part.payload, CharsetOr(part.charset));
        if t.None? {
          assert walk[..i + 1][i] == part;
          WalkBodyErrSticks(walk, decode, i + 1);
          return Err(UnknownCharset);
        }
        text := text + t.value;
      }
    }
    assert walk[..|walk|] == walk;
    return Ok(text);
  }

  /** A decoding failure in a prefix of the walk is the result of the whole walk. */
  lemma {:induction false} WalkBodyErrSticks(walk: seq<Part>, decode: Decoder, i: nat)
    requires i <= |walk| && WalkBody(walk[..i], decode).Err?
    ensures WalkBody(walk, decode) == WalkBody(walk[..i], decode)
    decreases |walk| - i
  {
    if i < |walk| {
      assert walk[..i + 1][..i] == walk[..i];
      WalkBodyErrSticks(walk, decode, i + 1);
    } else {
      assert walk[..i] == walk;
    }
  }

  // ---------------------------------------------------------------------------
  // The table and the fetch loop

  datatype EmailRow = EmailRow(id: int, subject: string, sender: Option<string>, body: string)

  /** The `emails` table; `id` is SERIAL. */
  class EmailStore {
    var rows: seq<EmailRow>
    var nextId: int

    constructor()
      ensures rows == [] && nextId == 1
    {
      rows := [];
      nextId := 1;
    }

    /** The stored subject, sender and body of every row, in insertion order. */
    function Contents(): seq<Parsed>
      reads this
    {
      var rs := rows;
      seq(|rs|, k requires 0 <= k < |rs| => Parsed(rs[k].subject, rs[k].sender, rs[k].body))
    }

    /** `save_email`: one INSERT, committed at once; nothing is looked up first. */
    method SaveEmail(subject: string, sender: Option<string>, body: string)
      modifies this
      ensures rows == old(rows) + [EmailRow(old(nextId), subject, sender, body)]
      ensures nextId == old(nextId) + 1
      ensures Contents() == old(Contents()) + [Parsed(subject, sender, body)]
    {
      rows := rows + [EmailRow(nextId, subject, sender, body)];
      nextId := nextId + 1;
    }
  }

  /** One item of what `IMAP fetch` returns for a message: the `(envelope, bytes)` tuple, or a bare byte string. */
  datatype ResponsePart = Envelope(msg: Message) | Bare

  /** The messages of the tuple parts, in order. */
  function TupleMessages(parts: seq<ResponsePart>): seq<Message>
    decreases |parts|
  {
    if parts == [] then []
    else TupleMessages(parts[..|parts| - 1]) + (if parts[|parts| - 1].Envelope? then [parts[|parts| - 1].msg] else [])
  }

  /** The messages of the whole inbox: each fetched message's tuple parts, in id order. */
  function InboxMessages(inbox: seq<seq<ResponsePart>>): seq<Message>
    decreases |inbox|
  {
    if inbox == [] then [] else InboxMessages(inbox[..|inbox| - 1]) + TupleMessages(inbox[|inbox| - 1])
  }

  /** What `parse_email` gives for each message, in order. */
  function Outcomes(msgs: seq<Message>, decode: Decoder): (r: seq<Result<Parsed, Fault>>)
    ensures |r| == |msgs|
  {
    seq(|msgs|, k requires 0 <= k < |msgs| => ParseEmail(msgs[k], decode))
  }

  lemma OutcomesAppend(a: seq<Message>, b: seq<Message>, decode: Decoder)
    ensures Outcomes(a + b, decode) == Outcomes(a, decode) + Outcomes(b, decode)
  {
  }

  /**
   * What saving the messages one after another does, given what each parses
   * to: the outcome and the rows inserted. The first failure stops the run.
   */
  function Run(outcomes: seq<Result<Parsed, Fault>>): (Result<(), Fault>, seq<Parsed>) {
    if outcomes == [] then (Ok(()), [])
    else if outcomes[0].Err? then (Err(outcomes[0].error), [])
    else
      var rest := Run(outcomes[1..]);
      (rest.0, [outcomes[0].value] + rest.1)
  }

  lemma {:induction false} RunAppend(a: seq<Result<Parsed, Fault>>, b: seq<Result<Parsed, Fault>>)
    ensures Run(a).0.Ok? ==> Run(a + b) == (Run(b).0, Run(a).1 + Run(b).1)
    ensures Run(a).0.Err? ==> Run(a + b) == Run(a)
  {
    if a == [] {
      assert a + b == b;
      assert [] + Run(b).1 == Run(b).1;
    } else {
      assert (a + b)[0] == a[0] && (a + b)[1..] == a[1..] + b;
      RunAppend(a[1..], b);
      if a[0].Ok? && Run(a).0.Ok? {
        assert [a[0].value] + Run(a[1..]).1 + Run(b).1 == [a[0].value] + (Run(a[1..]).1 + Run(b).1);
      }
    }
  }

  lemma {:induction false} RunOkIsUnit(outcomes: seq<Result<Parsed, Fault>>)
    ensures Run(outcomes).0.Ok? ==> Run(outcomes).0 == Ok(())
  {
    if outcomes != [] && outcomes[0].Ok? {
      RunOkIsUnit(outcomes[1..]);
    }
  }

  /** The first failure among the outcomes. */
  function FirstFailure(outcomes: seq<Result<Parsed, Fault>>): (r: Option<nat>)
    ensures r.None? <==> forall k :: 0 <= k < |outcomes| ==> outcomes[k].Ok?
    ensures r.Some? ==> r.value < |outcomes| && outcomes[r.value].Err?
                        && forall k :: 0 <= k < r.value ==> outcomes[k].Ok?
  {
    if outcomes == [] then None
    else if outcomes[0].Err? then Some(0)
    else
      var r := FirstFailure(outcomes[1..]);
      if r.None? then None
      else
        assert forall k :: 1 <= k < r.value + 1 ==> outcomes[k] == outcomes[1..][k - 1];
        Some(r.value + 1)
  }

  /** The rows of outcomes that all succeeded. */
  function ParsedAll(outcomes: seq<Result<Parsed, Fault>>): (r: seq<Parsed>)
    requires forall k :: 0 <= k < |outcomes| ==> outcomes[k].Ok?
    ensures |r| == |outcomes|
  {
    seq(|outcomes|, k requires 0 <= k < |outcomes| => outcomes[k].value)
  }

  /**
   * A run inserts one row per message, in order, up to the first message that
   * does not parse, and then fails with that message's error.
   */
  lemma {:induction false} RunMeaning(outcomes: seq<Result<Parsed, Fault>>)
    ensures var f := FirstFailure(outcomes);
      if f.None? then Run(outcomes) == (Ok(()), ParsedAll(outcomes))
      else Run(outcomes) == (Err(outcomes[f.value].error), ParsedAll(outcomes[..f.value]))
  {
    if outcomes != [] && outcomes[0].Ok? {
      var tail := outcomes[1..];
      RunMeaning(tail);
      var f := FirstFailure(tail);
      if f.None? {
        assert ParsedAll(outcomes) == [outcomes[0].value] + ParsedAll(tail);
      } else {
        assert FirstFailure(outcomes) == Some(f.value + 1);
        assert outcomes[..f.value + 1] == [outcomes[0]] + tail[..f.value];
        assert ParsedAll(outcomes[..f.value + 1]) == [outcomes[0].value] + ParsedAll(tail[..f.value]);
      }
    }
  }

  lemma {:induction false} TupleMessagesAppend(a: seq<ResponsePart>, b: seq<ResponsePart>)
    ensures TupleMessages(a + b) == TupleMessages(a) + TupleMessages(b)
    decreases |b|
  {
    if b == [] {
      assert a + b == a;
    } else {
      assert (a + b)[..|a + b| - 1] == a + b[..|b| - 1];
      TupleMessagesAppend(a, b[..|b| - 1]);
    }
  }

  lemma {:induction false} InboxMessagesAppend(a: seq<seq<ResponsePart>>, b: seq<seq<ResponsePart>>)
    ensures InboxMessages(a + b) == InboxMessages(a) + InboxMessages(b)
    decreases |b|
  {
    if b == [] {
      assert a + b == a;
    } else {
      assert (a + b)[..|a + b| - 1] == a + b[..|b| - 1];
      InboxMessagesAppend(a, b[..|b| - 1]);
    }
  }

  /** A run adds its rows again: after two runs each of its rows is stored at least twice. */
  lemma RerunDuplicates(before: seq<Parsed>, outcomes: seq<Result<Parsed, Fault>>, k: nat)
    requires k < |Run(outcomes).1|
    ensures var once := Run(outcomes).1;
      multiset(before + once + once)[once[k]] >= 2
  {
    var once := Run(outcomes).1;
    assert once[k] in multiset(once);
    assert multiset(before + once + once) == multiset(before) + multiset(once) + multiset(once);
  }

  /** Saving one more stretch of outcomes after a successful run so far. */
  lemma RunStep(seen: seq<Result<Parsed, Fault>>, here: seq<Result<Parsed, Fault>>,
                start: seq<Parsed>, before: seq<Parsed>, after: seq<Parsed>)
    requires Run(seen).0.Ok? && before == start + Run(seen).1 && after == before + Run(here).1
    ensures Run(seen + here).0 == Run(here).0
    ensures after == start + Run(seen + here).1
  {
    RunAppend(seen, here);
    assert start + Run(seen).1 + Run(here).1 == start + (Run(seen).1 + Run(here).1);
  }

  /** A failed run stays failed whatever follows it. */
  lemma RunStops(failed: seq<Result<Parsed, Fault>>, rest: seq<Result<Parsed, Fault>>)
    requires Run(failed).0.Err?
    ensures Run(failed + rest) == Run(failed)
  {
    RunAppend(failed, rest);
  }

  /** What one response part adds to the outcomes of the parts before it. */
  lemma TupleStep(parts: seq<ResponsePart>, j: nat, decode: Decoder)
    requires j < |parts|
    ensures Outcomes(TupleMessages(parts[..j + 1]), decode)
         == Outcomes(TupleMessages(parts[..j]), decode)
            + (if parts[j].Envelope? then [ParseEmail(parts[j].msg, decode)] else [])
  {
    var p := parts[..j + 1];
    assert p[..|p| - 1] == parts[..j];
    var added: seq<Message> := if parts[j].Envelope? then [parts[j].msg] else [];
    assert TupleMessages(p) == TupleMessages(parts[..j]) + added;
    OutcomesAppend(TupleMessages(parts[..j]), added, decode);
  }

  lemma TupleSplit(parts: seq<ResponsePart>, j: nat, decode: Decoder)
    requires j < |parts|
    ensures Outcomes(TupleMessages(parts), decode)
         == Outcomes(TupleMessages(parts[..j + 1]), decode) + Outcomes(TupleMessages(parts[j + 1..]), decode)
  {
    SeqFacts.PrefixSuffix(parts, j + 1);
    TupleMessagesAppend(parts[..j + 1], parts[j + 1..]);
    OutcomesAppend(TupleMessages(parts[..j + 1]), TupleMessages(parts[j + 1..]), decode);
  }

  /** The inner loop of `fetch_gmail`: the tuple parts of one fetched message, parsed and saved. */
  method SaveFetched(store: EmailStore, msgData: seq<ResponsePart>, decode: Decoder) returns (r: Result<(), Fault>)
    modifies store
    ensures var run := Run(Outcomes(TupleMessages(msgData), decode));
      r == run.0 && store.Contents() == old(store.Contents()) + run.1
  {
    ghost var start := store.Contents();
    ghost var done: seq<Result<Parsed, Fault>> := [];
    for j := 0 to |msgData|
      invariant done == Outcomes(TupleMessages(msgData[..j]), decode)
      invariant Run(done).0.Ok?
      invariant store.Contents() == start + Run(done).1
    {
      TupleStep(msgData, j, decode);
      var part := msgData[j];
      if part.Envelope? {
        var parsed := ParseEmail(part.msg, decode);
        ghost var before := store.Contents();
        assert [parsed][1..] == [];
        if parsed.Err? {
          RunStep(done, [parsed], start, before, before);
          TupleSplit(msgData, j, decode);
          RunStops(done + [parsed], Outcomes(TupleMessages(msgData[j + 1..]), decode));
          return Err(parsed.error);
        }
        store.SaveEmail(parsed.value.subject, parsed.value.sender, parsed.value.body);
        RunStep(done, [parsed], start, before, store.Contents());
        done := done + [parsed];
      } else {
        assert done + [] == done;
      }
    }
    assert msgData[..|msgData|] == msgData;
    RunOkIsUnit(done);
    return Ok(());
  }

  /**
   * `fetch_gmail`: every tuple part of every fetched message is parsed and saved,
   * with no check for rows that are already there. A message that does not
   * parse stops the run; the rows saved before it stay, as each insert is
   * committed on its own.
   */
  method FetchGmail(store: EmailStore, inbox: seq<seq<ResponsePart>>, decode: Decoder) returns (r: Result<(), Fault>)
    modifies store
    ensures var run := Run(Outcomes(InboxMessages(inbox), decode));
      r == run.0 && store.Contents() == old(store.Contents()) + run.1
  {
    ghost var start := store.Contents();
    ghost var done: seq<Result<Parsed, Fault>> := [];
    for i := 0 to |inbox|
      invariant done == Outcomes(InboxMessages(inbox[..i]), decode)
      invariant Run(done).0.Ok?
      invariant store.Contents() == start + Run(done).1
    {
      ghost var here := Outcomes(TupleMessages(inbox[i]), decode);
      ghost var before := store.Contents();
      var saved := SaveFetched(store, inbox[i], decode);
      RunStep(done, here, start, before, store.Contents());
      InboxStep(inbox, i, decode);
      if saved.Err? {
        InboxSplit(inbox, i, decode);
        RunStops(done + here, Outcomes(InboxMessages(inbox[i + 1..]), decode));
        return saved;
      }
      done := done + here;
    }
    assert inbox[..|inbox|] == inbox;
    RunOkIsUnit(done);
    return Ok(());
  }

  /**
   * Running `fetch_gmail` twice over the same inbox: each run saves its rows
   * again, so every row of a run is stored at least twice.
   */
  method FetchGmailTwice(store: EmailStore, inbox: seq<seq<ResponsePart>>, decode: Decoder)
    returns (first: Result<(), Fault>, second: Result<(), Fault>)
    modifies store
    ensures var run := Run(Outcomes(InboxMessages(inbox), decode));
      && first == run.0 && second == run.0
      && store.Contents() == old(store.Contents()) + run.1 + run.1
    ensures var once := Run(Outcomes(InboxMessages(inbox), decode)).1;
      forall k :: 0 <= k < |once| ==> multiset(store.Contents())[once[k]] >= 2
  {
    first := FetchGmail(store, inbox, decode);
    second := FetchGmail(store, inbox, decode);
    ghost var outcomes := Outcomes(InboxMessages(inbox), decode);
    forall k | 0 <= k < |Run(outcomes).1|
      ensures multiset(store.Contents())[Run(outcomes).1[k]] >= 2
    {
      RerunDuplicates(old(store.Contents()), outcomes, k);
    }
  }

  lemma InboxMessagesOne(parts: seq<ResponsePart>)
    ensures InboxMessages([parts]) == TupleMessages(parts)
  {
    assert [parts][..0] == [];
    assert [] + TupleMessages(parts) == TupleMessages(parts);
  }

  lemma InboxStep(inbox: seq<seq<ResponsePart>>, i: nat, decode: Decoder)
    requires i < |inbox|
    ensures Outcomes(InboxMessages(inbox[..i + 1]), decode)
         == Outcomes(InboxMessages(inbox[..i]), decode) + Outcomes(TupleMessages(inbox[i]), decode)
  {
    SeqFacts.PrefixSnoc(inbox, i);
    InboxMessagesAppend(inbox[..i], [inbox[i]]);
    InboxMessagesOne(inbox[i]);
    OutcomesAppend(InboxMessages(inbox[..i]), TupleMessages(inbox[i]), decode);
  }

  lemma InboxSplit(inbox: seq<seq<ResponsePart>>, i: nat, decode: Decoder)
    requires i < |inbox|
    ensures Outcomes(InboxMessages(inbox), decode)
         == Outcomes(InboxMessages(inbox[..i]), decode) + Outcomes(TupleMessages(inbox[i]), decode)
            + Outcomes(InboxMessages(inbox[i + 1..]), decode)
  {
    var a, b, c := InboxMessages(inbox[..i]), TupleMessages(inbox[i]), InboxMessages(inbox[i + 1..]);
    SeqFacts.PrefixSnoc(inbox, i);
    InboxMessagesAppend(inbox[..i], [inbox[i]]);
    InboxMessagesOne(inbox[i]);
    SeqFacts.PrefixSuffix(inbox, i + 1);
    InboxMessagesAppend(inbox[..i + 1], inbox[i + 1..]);
    assert InboxMessages(inbox) == (a + b) + c;
    OutcomesAppend(a + b, c, decode);
    OutcomesAppend(a, b, decode);
  }
}
