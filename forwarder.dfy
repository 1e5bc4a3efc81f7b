/**
 * The forwarding script: it reads the stored emails from the database and
 * posts each one, as a subject and a body, to the triage service's
 * `/process_email`, pausing between posts and counting what succeeded.
 *
 * The database query and the HTTP post are oracles; a pause is an event in
 * the run's trace, its length in milliseconds.
 */
module Forwarder {
  import opened Wrappers

  /** The triage service the script posts to (its uvicorn port, 8081). */
  const Url := "http://10.91.86.87:8081"

  /** A row of the `emails` query: id, subject, body, received date; NULL columns are `None`. */
  type Row = (int, Option<string>, Option<string>, string)

  /** The dict `fetch_email_data` makes of a row. */
  datatype EmailRecord = EmailRecord(id: int, subject: Option<string>, body: Option<string>, receivedDate: string)

  /** The rows as records, in query order; a failed query gives `[]`. */
  function EmailData(rows: Option<seq<Row>>): (r: seq<EmailRecord>)
    ensures rows.None? ==> r == []
    ensures rows.Some? ==> |r| == |rows.value|
  {
    if rows.None? then []
    else seq(|rows.value|, k requires 0 <= k < |rows.value| =>
               var row := rows.value[k]; EmailRecord(row.0, row.1, row.2, row.3))
  }

  /** Each record carries the columns of the row at the same position. */
  lemma EmailDataKeepsRows(rows: seq<Row>, k: nat)
    requires k < |rows|
    ensures var r := EmailData(Some(rows))[k];
      (r.id, r.subject, r.body, r.receivedDate) == rows[k]
  {
  }

  /** `fetch_email_data`: `None` for `rows` is a query that raised. */
  method FetchEmailData(rows: Option<seq<Row>>) returns (emailData: seq<EmailRecord>)
    ensures emailData == EmailData(rows)
  {
    if rows.None? {
      return [];
    }
    var records := rows.value;
    emailData := [];
    for i := 0 to |records|
      invariant emailData == EmailData(Some(records[..i]))
    {
      var record := records[i];
      emailData := emailData + [EmailRecord(record.0, record.1, record.2, record.3)];
    }
    assert records[..|records|] == records;
  }

  // ---------------------------------------------------------------------------
  // One post

  /** The JSON body of a post. */
  datatype Payload = Payload(subject: string, body: string)

  /** What `requests.post` gave: an exception, or a status code. */
  datatype PostOutcome = RequestError | OtherError | Status(code: int)

  type Poster = (string, Payload) -> PostOutcome

  /** A NULL or empty column is sent as the empty string. */
  function PayloadOf(e: EmailRecord): (p: Payload)
    ensures p.subject == "" <==> e.subject.None? || e.subject == Some("")
    ensures e.subject.Some? ==> p.subject == e.subject.value
    ensures p.body == "" <==> e.body.None? || e.body == Some("")
    ensures e.body.Some? ==> p.body == e.body.value
  {
    Payload(if e.subject.Some? && e.subject.value != "" then e.subject.value else "",
            if e.body.Some? && e.body.value != "" then e.body.value else "")
  }

  /** The endpoint a post goes to. */
  function ProcessEndpoint(base: string): (r: string)
    ensures |r| >= |base| && r[..|base|] == base && r[|base|..] == "/process_email"
  {
    base + "/process_email"
  }

  /**
   * The script posts to the triage service's `/process_email` route, and
   * different base URLs never share an endpoint.
   */
  lemma ProcessEndpointTarget(a: string, b: string)
    ensures ProcessEndpoint(Url) == "http://10.91.86.87:8081/process_email"
    ensures ProcessEndpoint(a) == ProcessEndpoint(b) ==> a == b
  {
    if ProcessEndpoint(a) == ProcessEndpoint(b) {
      assert |a| == |b|;
      assert a == ProcessEndpoint(a)[..|a|];
    }
  }

  /** `make_post_request`. */
  function MakePostRequest(post: Poster, e: EmailRecord, base: string): bool {
    var o := post(ProcessEndpoint(base), PayloadOf(e));
    o.Status? && (o.code == 200 || o.code == 201)
  }

  /** A post succeeds exactly on status 200 or 201; an exception of either kind is a failure. */
  lemma MakePostRequestClassifies(post: Poster, e: EmailRecord, base: string)
    ensures MakePostRequest(post, e, base) <==>
      exists code :: code in {200, 201} && post(base + "/process_email", PayloadOf(e)) == Status(code)
    ensures post(base + "/process_email", PayloadOf(e)) in {RequestError, OtherError} ==> !MakePostRequest(post, e, base)
  {
    var o := post(base + "/process_email", PayloadOf(e));
    if MakePostRequest(post, e, base) {
      assert o.code in {200, 201} && o == Status(o.code);
    }
  }

  // ---------------------------------------------------------------------------
  // The batch

  /** What a run does, in order. */
  datatype Event = Posted(id: int, ok: bool) | Slept(millis: nat)

  /** Completed with the two counters, or stopped by an exception after the events so far. */
  datatype BatchOutcome =
    | Completed(successes: nat, failures: nat, trace: seq<Event>)
    | Raised(error: BatchError, trace: seq<Event>)

  datatype BatchError = NoSubjectLength | ZeroDivision

  /** The events for the first `k` emails: each post, then a pause unless it was the last email. */
  function TraceUpTo(emails: seq<EmailRecord>, post: Poster, base: string, delay: nat, k: nat): seq<Event>
    requires k <= |emails|
  {
    if k == 0 then []
    else TraceUpTo(emails, post, base, delay, k - 1)
         + [Posted(emails[k - 1].id, MakePostRequest(post, emails[k - 1], base))]
         + (if k < |emails| then [Slept(delay)] else [])
  }

  /** How many of the emails are posted successfully. */
  function Successes(emails: seq<EmailRecord>, post: Poster, base: string): (n: nat)
    ensures n <= |emails|
  {
    if emails == [] then 0
    else Successes(emails[..|emails| - 1], post, base) + (if MakePostRequest(post, emails[|emails| - 1], base) then 1 else 0)
  }

  /** The position of the first email whose subject is NULL. */
  function FirstNullSubject(emails: seq<EmailRecord>): (r: Option<nat>)
    ensures r.None? <==> forall k :: 0 <= k < |emails| ==> emails[k].subject.Some?
    ensures r.Some? ==> r.value < |emails| && emails[r.value].subject.None?
                        && forall k :: 0 <= k < r.value ==> emails[k].subject.Some?
  {
    if emails == [] then None
    else if emails[0].subject.None? then Some(0)
    else
      var r := FirstNullSubject(emails[1..]);
      if r.None? then None
      else
        assert forall k :: 1 <= k < r.value + 1 ==> emails[k] == emails[1..][k - 1];
        Some(r.value + 1)
  }

  /**
   * `process_emails_with_rate_limit` as written: taking `len` of a NULL subject
   * raises after the emails before it were posted, and an empty batch raises
   * on the success-rate division.
   */
  function BatchOutcomeOf(emails: seq<EmailRecord>, post: Poster, base: string, delay: nat): BatchOutcome {
    match FirstNullSubject(emails)
    case Some(k) => Raised(NoSubjectLength, TraceUpTo(emails, post, base, delay, k))
    case None =>
      if emails == [] then Raised(ZeroDivision, [])
      else
        var s := Successes(emails, post, base);
        Completed(s, |emails| - s, TraceUpTo(emails, post, base, delay, |emails|))
  }

  /** Counting one more email adds its post's result. */
  lemma SuccessesStep(emails: seq<EmailRecord>, post: Poster, base: string, i: nat)
    requires i < |emails|
    ensures Successes(emails[..i + 1], post, base)
         == Successes(emails[..i], post, base) + (if MakePostRequest(post, emails[i], base) then 1 else 0)
  {
    assert emails[..i + 1][..i] == emails[..i];
  }

  /** A NULL subject after only non-NULL ones is the first. */
  lemma FirstNullAt(emails: seq<EmailRecord>, i: nat)
    requires i < |emails| && emails[i].subject.None?
    requires forall k :: 0 <= k < i ==> emails[k].subject.Some?
    ensures FirstNullSubject(emails) == Some(i)
  {
  }

  /** A run that stops at the first NULL subject raises with the trace so far. */
  lemma OutcomeAtNull(emails: seq<EmailRecord>, post: Poster, base: string, delay: nat, i: nat)
    requires i < |emails| && emails[i].subject.None?
    requires forall k :: 0 <= k < i ==> emails[k].subject.Some?
    ensures BatchOutcomeOf(emails, post, base, delay) == Raised(NoSubjectLength, TraceUpTo(emails, post, base, delay, i))
  {
    FirstNullAt(emails, i);
  }

  /** A run without NULL subjects counts every email. */
  lemma OutcomeAtEnd(emails: seq<EmailRecord>, post: Poster, base: string, delay: nat, s: nat, f: nat)
    requires forall k :: 0 <= k < |emails| ==> emails[k].subject.Some?
    requires s == Successes(emails[..|emails|], post, base) && f == |emails| - s
    ensures s + f == 0 ==> BatchOutcomeOf(emails, post, base, delay) == Raised(ZeroDivision, TraceUpTo(emails, post, base, delay, |emails|))
    ensures s + f != 0 ==> BatchOutcomeOf(emails, post, base, delay) == Completed(s, f, TraceUpTo(emails, post, base, delay, |emails|))
  {
    assert emails[..|emails|] == emails;
  }

  /** The trace of one more email: its post, then a pause unless it was the last. */
  lemma TraceStep(emails: seq<EmailRecord>, post: Poster, base: string, delay: nat, i: nat)
    requires i < |emails|
    ensures TraceUpTo(emails, post, base, delay, i + 1)
         == TraceUpTo(emails, post, base, delay, i) + [Posted(emails[i].id, MakePostRequest(post, emails[i], base))]
            + (if i + 1 < |emails| then [Slept(delay)] else [])
  {
  }

  method ProcessEmailsWithRateLimit(emails: seq<EmailRecord>, post: Poster, base: string, delay: nat)
    returns (outcome: BatchOutcome)
    ensures outcome == BatchOutcomeOf(emails, post, base, delay)
  {
    var successCount, failureCount := 0, 0;
    var trace := [];
    for i := 0 to |emails|
      invariant forall k :: 0 <= k < i ==> emails[k].subject.Some?
      invariant successCount == Successes(emails[..i], post, base) && failureCount == i - successCount
      invariant trace == TraceUpTo(emails, post, base, delay, i)
    {
      var email := emails[i];
      if email.subject.None? {
        OutcomeAtNull(emails, post, base, delay, i);
        return Raised(NoSubjectLength, trace);
      }
      var success := MakePostRequest(post, email, base);
      SuccessesStep(emails, post, base, i);
      TraceStep(emails, post, base, delay, i);
      trace := trace + [Posted(email.id, success)];
      if success {
        successCount := successCount + 1;
      } else {
        failureCount := failureCount + 1;
      }
      if i + 1 < |emails| {
        trace := trace + [Slept(delay)];
      } else {
        assert trace + [] == trace;
      }
    }
    OutcomeAtEnd(emails, post, base, delay, successCount, failureCount);
    if successCount + failureCount == 0 {
      return Raised(ZeroDivision, trace);
    }
    return Completed(successCount, failureCount, trace);
  }

  /** The number of pauses among the events. */
  function Pauses(t: seq<Event>): nat {
    if t == [] then 0 else (if t[0].Slept? then 1 else 0) + Pauses(t[1..])
  }

  lemma {:induction false} PausesAppend(a: seq<Event>, b: seq<Event>)
    ensures Pauses(a + b) == Pauses(a) + Pauses(b)
  {
    if a == [] {
      assert a + b == b;
    } else {
      assert (a + b)[1..] == a[1..] + b;
      PausesAppend(a[1..], b);
    }
  }

  /** Before email `k` there are exactly `k` pauses, and the last email is followed by none. */
  lemma {:induction false} TracePauses(emails: seq<EmailRecord>, post: Poster, base: string, delay: nat, k: nat)
    requires k <= |emails|
    ensures Pauses(TraceUpTo(emails, post, base, delay, k)) == if k == |emails| && k > 0 then k - 1 else k
    ensures 0 < k == |emails| ==> TraceUpTo(emails, post, base, delay, k)[|TraceUpTo(emails, post, base, delay, k)| - 1].Posted?
  {
    if k > 0 {
      TracePauses(emails, post, base, delay, k - 1);
      var head := TraceUpTo(emails, post, base, delay, k - 1);
      var p := [Posted(emails[k - 1].id, MakePostRequest(post, emails[k - 1], base))];
      var tail := if k < |emails| then [Slept(delay)] else [];
      PausesAppend(head, p);
      PausesAppend(head + p, tail);
    }
  }

  /** A completed run counted every email once, its successes are the posts that returned true, it paused n-1 times and not after the last. */
  lemma CompletedRunAccounting(emails: seq<EmailRecord>, post: Poster, base: string, delay: nat)
    requires BatchOutcomeOf(emails, post, base, delay).Completed?
    ensures var o := BatchOutcomeOf(emails, post, base, delay);
      && o.successes + o.failures == |emails|
      && o.successes == Successes(emails, post, base)
      && Pauses(o.trace) == |emails| - 1
      && o.trace[|o.trace| - 1].Posted?
  {
    TracePauses(emails, post, base, delay, |emails|);
  }

  /** The run completes exactly when there is at least one email and none has a NULL subject. */
  lemma BatchCompletesIff(emails: seq<EmailRecord>, post: Poster, base: string, delay: nat)
    ensures BatchOutcomeOf(emails, post, base, delay).Completed? <==>
      |emails| > 0 && forall k :: 0 <= k < |emails| ==> emails[k].subject.Some?
  {
  }

  /** A NULL subject stops the batch: the emails after it are never posted, although the payload would have sent `""`. */
  lemma NullSubjectAbortsBatch(post: Poster, base: string, delay: nat)
    ensures var emails := [EmailRecord(1, None, Some("b"), "d"), EmailRecord(2, Some("s"), Some("b"), "d")];
      BatchOutcomeOf(emails, post, base, delay) == Raised(NoSubjectLength, [])
      && PayloadOf(emails[0]) == Payload("", "b")
  {
    var emails := [EmailRecord(1, None, Some("b"), "d"), EmailRecord(2, Some("s"), Some("b"), "d")];
    assert FirstNullSubject(emails) == Some(0);
  }

  /**
   * The batch as it is evidently meant to run: a NULL subject is shown as the
   * empty one, as the payload already treats it, so every email is posted.
   */
  function IntendedBatch(emails: seq<EmailRecord>, post: Poster, base: string, delay: nat): (o: BatchOutcome)
    ensures emails != [] ==> o.Completed?
  {
    if emails == [] then Raised(ZeroDivision, [])
    else
      var s := Successes(emails, post, base);
      Completed(s, |emails| - s, TraceUpTo(emails, post, base, delay, |emails|))
  }

  /** Every email of a non-empty batch is counted once, and the pauses fall between posts. */
  lemma IntendedBatchAccounting(emails: seq<EmailRecord>, post: Poster, base: string, delay: nat)
    requires emails != []
    ensures var o := IntendedBatch(emails, post, base, delay);
      && o.successes + o.failures == |emails|
      && o.successes == Successes(emails, post, base)
      && Pauses(o.trace) == |emails| - 1
      && o.trace[|o.trace| - 1].Posted?
  {
    TracePauses(emails, post, base, delay, |emails|);
  }

  /** Where nothing is NULL, the intended batch is the written one. */
  lemma IntendedAgreesWithoutNulls(emails: seq<EmailRecord>, post: Poster, base: string, delay: nat)
    requires forall k :: 0 <= k < |emails| ==> emails[k].subject.Some?
    ensures IntendedBatch(emails, post, base, delay) == BatchOutcomeOf(emails, post, base, delay)
  {
  }

  // ---------------------------------------------------------------------------
  // The script

  /** The database connection: the rows its query returns (`None` when it raises) and whether it is open. */
  class Connection {
    const rows: Option<seq<Row>>
    var open: bool

    constructor(rows: Option<seq<Row>>)
      ensures this.rows == rows && open
    {
      this.rows := rows;
      open := true;
    }

    method Close()
      modifies this
      ensures !open
    {
      open := false;
    }
  }

  /**
   * `main`: nothing is processed without a connection or without data;
   * otherwise the batch runs as written, its TypeError on a NULL subject is
   * caught and reported as the raised outcome, and a connection that was
   * opened is closed on every path.
   */
  method ForwardStoredEmails(connection: Connection?, post: Poster) returns (run: Option<BatchOutcome>)
    modifies connection
    ensures connection == null ==> run.None?
    ensures connection != null ==> !connection.open
    ensures connection != null ==>
      var data := EmailData(connection.rows);
      run == if data == [] then None else Some(BatchOutcomeOf(data, post, Url, 500))
    ensures run.Some? && run.value.Raised? ==> run.value.error == NoSubjectLength
  {
    if connection == null {
      return None;
    }
    var emailData := FetchEmailData(connection.rows);
    if emailData == [] {
      run := None;
    } else {
      var outcome := ProcessEmailsWithRateLimit(emailData, post, Url, 500);
      run := Some(outcome);
    }
    connection.Close();
  }
}
