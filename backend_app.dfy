/**
 * The news backend: `submit_news` validates a submission and stores it,
 * `process_email` turns an email body into a published item with the rule
 * based summariser `generate_ai_summary`.
 *
 * The `submissions` table is a class holding its rows; the clock and the two
 * regular-expression searches for a date and a time are inputs.
 */
module BackendApp {
  import opened Wrappers
  import opened JsonValue
  import opened PyText
  import opened PyValue

  // ---------------------------------------------------------------------------
  // The submissions table

  /** The columns of one row of `submissions`, as the values bound to the INSERT. */
  datatype Columns = Columns(
    title: JSON, category: JSON, organization: JSON, description: JSON,
    eventDate: JSON, eventTime: JSON, location: JSON,
    contactEmail: JSON, contactPhone: JSON, contactName: JSON,
    submittedAt: JSON, status: string)

  datatype Row = Row(id: int, cols: Columns)

  /** The table; `nextId` is the id SQLite's AUTOINCREMENT gives the next row. */
  class SubmissionsDb {
    var rows: seq<Row>
    var nextId: int

    /** Ids are positive, increase with every insert and stay below `nextId`. */
    ghost predicate Valid()
      reads this
    {
      && nextId >= 1
      && (forall i :: 0 <= i < |rows| ==> 1 <= rows[i].id < nextId)
      && (forall i, j :: 0 <= i < j < |rows| ==> rows[i].id < rows[j].id)
    }

    constructor()
      ensures Valid() && rows == [] && nextId == 1
    {
      rows := [];
      nextId := 1;
    }

    /** INSERT followed by `cursor.lastrowid`. */
    method Insert(cols: Columns) returns (id: int)
      requires Valid()
      modifies this
      ensures Valid()
      ensures id == old(nextId) && nextId == old(nextId) + 1
      ensures rows == old(rows) + [Row(id, cols)]
    {
      id := nextId;
      rows := rows + [Row(id, cols)];
      nextId := nextId + 1;
    }
  }

  /** Row ids never repeat. */
  lemma ValidIdsDistinct(db: SubmissionsDb, i: int, j: int)
    requires db.Valid() && 0 <= i < |db.rows| && 0 <= j < |db.rows| && i != j
    ensures db.rows[i].id != db.rows[j].id
  {
  }

  /** Why a request ended with status 500. */
  datatype Fault =
    | Raised(e: PyError)        // an exception of the handler's own code
    | MalformedJson             // `request.get_json()` could not parse the body
    | UnbindableValue           // a list or dict, or an int beyond 64 bits, bound as an SQL parameter
    | NotNullViolated           // NULL for a NOT NULL column

  datatype Rejection = BadRequest(message: string) | ServerError(fault: Fault)

  /**
   * SQLite binds None, numbers and text; a list or a dict cannot be bound, and
   * an int outside the signed 64-bit range makes `sqlite3` raise OverflowError.
   */
  predicate Bindable(v: JSON) {
    !v.JArray? && !v.JObject? && (v.JInt? ==> -0x8000_0000_0000_0000 <= v.i < 0x8000_0000_0000_0000)
  }

  predicate AllBindable(c: Columns) {
    && Bindable(c.title) && Bindable(c.category) && Bindable(c.organization)
    && Bindable(c.description) && Bindable(c.eventDate) && Bindable(c.eventTime)
    && Bindable(c.location) && Bindable(c.contactEmail) && Bindable(c.contactPhone)
    && Bindable(c.contactName) && Bindable(c.submittedAt)
  }

  /** What executing the INSERT does with a row: bind every value, then check NOT NULL. */
  function Store(c: Columns): (r: Result<Columns, Rejection>)
    ensures r.Ok? <==> AllBindable(c) && !c.title.JNull? && !c.category.JNull?
                       && !c.description.JNull? && !c.submittedAt.JNull?
    ensures r.Ok? ==> r.value == c
  {
    if !AllBindable(c) then Err(ServerError(UnbindableValue))
    else if c.title.JNull? || c.category.JNull? || c.description.JNull? || c.submittedAt.JNull? then
      Err(ServerError(NotNullViolated))
    else Ok(c)
  }

  // ---------------------------------------------------------------------------
  // submit_news

  /** The fields a submission must have, checked in this order. */
  const RequiredFields: seq<string> := ["title", "category", "description"]

  /** The first of `keys` whose value is missing or false in `data`. */
  function FirstFalsy(data: Fields, keys: seq<string>): (r: Option<string>)
    ensures r.None? <==> forall k :: 0 <= k < |keys| ==> TruthyMember(data, keys[k])
    ensures r.Some? ==> exists k :: 0 <= k < |keys| && keys[k] == r.value && !TruthyMember(data, keys[k])
                                   && forall j :: 0 <= j < k ==> TruthyMember(data, keys[j])
  {
    if keys == [] then None
    else if !TruthyMember(data, keys[0]) then Some(keys[0])
    else
      var r := FirstFalsy(data, keys[1..]);
      if r.Some? then
        var k :| 0 <= k < |keys[1..]| && keys[1..][k] == r.value && !TruthyMember(data, keys[1..][k])
                 && forall j :: 0 <= j < k ==> TruthyMember(data, keys[1..][j]);
        assert keys[k + 1] == r.value && forall j :: 0 < j < k + 1 ==> keys[j] == keys[1..][j - 1];
        r
      else r
  }

  /** The required-field loop of `submit_news`: it stops at the first missing field. */
  method FirstMissingField(data: Fields) returns (missing: Option<string>)
    ensures missing == FirstFalsy(data, RequiredFields)
  {
    var i := 0;
    while i < |RequiredFields|
      invariant 0 <= i <= |RequiredFields|
      invariant FirstFalsy(data, RequiredFields) == FirstFalsy(data, RequiredFields[i..])
    {
      if !TruthyMember(data, RequiredFields[i]) {
        return Some(RequiredFields[i]);
      }
      assert RequiredFields[i..][1..] == RequiredFields[i + 1..];
      i := i + 1;
    }
    return None;
  }

  /** A request body: JSON (`None` when it does not parse) or an HTML form. */
  datatype Request = JsonRequest(json: Option<JSON>) | FormRequest(form: seq<(string, string)>)

  /** `request.form.get(key, default)`: the first value sent under `key`. */
  function FormGet(form: seq<(string, string)>, key: string, default: string): string {
    if form == [] then default
    else if form[0].0 == key then form[0].1
    else FormGet(form[1..], key, default)
  }

  /** The keys of the dict `submit_news` builds from a form, in its order. */
  const FormKeys: seq<string> := [
    "title", "category", "organization", "description", "event_date", "event_time",
    "location", "contact_email", "contact_phone", "contact_name", "submitted_at"]

  lemma FormKeysDistinct()
    ensures forall i, j :: 0 <= i < j < |FormKeys| ==> FormKeys[i] != FormKeys[j]
  {
  }

  /** The dict built from a form: every key read with default '', only `submitted_at` defaults to the clock. */
  function FormData(form: seq<(string, string)>, now: string): (data: Fields)
    ensures |data| == |FormKeys|
  {
    seq(|FormKeys|, i requires 0 <= i < |FormKeys| =>
      (FormKeys[i], JString(FormGet(form, FormKeys[i], if FormKeys[i] == "submitted_at" then now else ""))))
  }

  /** `data` in `submit_news`. */
  function RequestData(req: Request, now: string): Result<JSON, Rejection> {
    match req
    case JsonRequest(json) => if json.None? then Err(ServerError(MalformedJson)) else Ok(json.value)
    case FormRequest(form) => Ok(JObject(FormData(form, now)))
  }

  /** `data.get(key, '')`. */
  function GetOrEmpty(data: Fields, key: string): JSON {
    Get(data, key).GetOr(JString(""))
  }

  /** `data[key]`: KeyError when the key is absent. */
  function Item(data: Fields, key: string): (r: Result<JSON, Rejection>)
    ensures r.Ok? <==> Get(data, key).Some?
    ensures r.Ok? ==> r.value == Get(data, key).value
    ensures r.Err? ==> r.error == ServerError(Raised(KeyError))
  {
    if Get(data, key).None? then Err(ServerError(Raised(KeyError))) else Ok(Get(data, key).value)
  }

  /** The row `submit_news` inserts: required columns by `data[key]`, the others by `data.get(key, '')`. */
  function SubmissionColumns(data: Fields): Result<Columns, Rejection> {
    var title :- Item(data, "title");
    var category :- Item(data, "category");
    var description :- Item(data, "description");
    var submitted :- Item(data, "submitted_at");
    Ok(Columns(
      title, category, GetOrEmpty(data, "organization"), description,
      GetOrEmpty(data, "event_date"), GetOrEmpty(data, "event_time"), GetOrEmpty(data, "location"),
      GetOrEmpty(data, "contact_email"), GetOrEmpty(data, "contact_phone"), GetOrEmpty(data, "contact_name"),
      submitted, "pending"))
  }

  /** Everything `submit_news` decides before touching the table: the row to insert, or the error reply. */
  function SubmitOutcome(req: Request, now: string): Result<Columns, Rejection> {
    var data :- RequestData(req, now);
    if !data.JObject? then Err(ServerError(Raised(AttributeError)))
    else
      var missing := FirstFalsy(data.fields, RequiredFields);
      if missing.Some? then Err(BadRequest("Missing required field: " + missing.value))
      else
        var cols :- SubmissionColumns(data.fields);
        Store(cols)
  }

  /** A submission missing a required field is answered 400 naming the first such field. */
  lemma SubmitRejectsFirstMissing(req: Request, now: string, data: Fields, field: string)
    requires RequestData(req, now) == Ok(JObject(data))
    requires FirstFalsy(data, RequiredFields) == Some(field)
    ensures SubmitOutcome(req, now) == Err(BadRequest("Missing required field: " + field))
    ensures field in RequiredFields && !TruthyMember(data, field)
  {
  }

  /**
   * Validation does not look at `submitted_at`, but the INSERT reads it with
   * `data['submitted_at']`: a JSON submission without it passes validation and
   * is answered 500 with a KeyError, storing nothing.
   */
  lemma SubmitNeedsTimestamp(req: Request, now: string, data: Fields)
    requires RequestData(req, now) == Ok(JObject(data))
    requires FirstFalsy(data, RequiredFields).None? && Get(data, "submitted_at").None?
    ensures SubmitOutcome(req, now) == Err(ServerError(Raised(KeyError)))
  {
    RequiredPresentItems(data);
  }

  /** A contact phone sent as a JSON number of 64 bits or more is answered 500, storing nothing. */
  lemma SubmitRejectsWideInt(req: Request, now: string, data: Fields, phone: int)
    requires RequestData(req, now) == Ok(JObject(data))
    requires FirstFalsy(data, RequiredFields).None? && Get(data, "submitted_at").Some?
    requires Get(data, "contact_phone") == Some(JInt(phone)) && phone >= 0x8000_0000_0000_0000
    ensures SubmitOutcome(req, now) == Err(ServerError(UnbindableValue))
  {
    RequiredPresentItems(data);
    var cols := SubmissionColumns(data);
    assert cols.Ok? && cols.value.contactPhone == JInt(phone);
  }

  /** A stored submission always has a title, a category and a description, and is pending review. */
  lemma SubmitStoresRequired(req: Request, now: string)
    requires SubmitOutcome(req, now).Ok?
    ensures var c := SubmitOutcome(req, now).value;
      Truthy(c.title) && Truthy(c.category) && Truthy(c.description) && c.status == "pending"
  {
    var data := RequestData(req, now).value;
    assert data.JObject? && FirstFalsy(data.fields, RequiredFields).None?;
    var fields := data.fields;
    var cols := SubmissionColumns(fields);
    assert cols.Ok? && SubmitOutcome(req, now) == Store(cols.value);
    assert TruthyMember(fields, RequiredFields[0]) && TruthyMember(fields, RequiredFields[1])
        && TruthyMember(fields, RequiredFields[2]);
    assert cols.value.title == Get(fields, "title").value;
    assert cols.value.category == Get(fields, "category").value;
    assert cols.value.description == Get(fields, "description").value;
  }

  /** A complete form is always stored, with the clock as its time when the form gives none. */
  lemma SubmitFormAccepted(form: seq<(string, string)>, now: string)
    requires FormGet(form, "title", "") != "" && FormGet(form, "category", "") != ""
    requires FormGet(form, "description", "") != ""
    ensures SubmitOutcome(FormRequest(form), now).Ok?
    ensures SubmitOutcome(FormRequest(form), now).value.submittedAt == JString(FormGet(form, "submitted_at", now))
  {
    FormRequired(form, now);
    FormField(form, now, 10);
    FormText(form, now);
    AcceptText(FormRequest(form), now, FormData(form, now));
  }

  lemma FormText(form: seq<(string, string)>, now: string)
    ensures var data := FormData(form, now); forall i :: 0 <= i < |data| ==> data[i].1.JString?
  {
  }

  /** Validated data made of text only is stored as it is. */
  lemma AcceptText(req: Request, now: string, data: Fields)
    requires RequestData(req, now) == Ok(JObject(data))
    requires FirstFalsy(data, RequiredFields).None? && Get(data, "submitted_at").Some?
    requires forall i :: 0 <= i < |data| ==> data[i].1.JString?
    ensures SubmitOutcome(req, now).Ok?
    ensures SubmitOutcome(req, now).value.submittedAt == Get(data, "submitted_at").value
  {
    RequiredPresentItems(data);
    var cols := SubmissionColumns(data);
    assert cols.Ok?;
    StringsBind(data, cols.value);
  }

  lemma RequiredPresentItems(data: Fields)
    requires FirstFalsy(data, RequiredFields).None?
    ensures Get(data, "title").Some? && Get(data, "category").Some? && Get(data, "description").Some?
  {
    assert TruthyMember(data, RequiredFields[0]) && TruthyMember(data, RequiredFields[1])
        && TruthyMember(data, RequiredFields[2]);
  }

  lemma FormRequired(form: seq<(string, string)>, now: string)
    requires FormGet(form, "title", "") != "" && FormGet(form, "category", "") != ""
    requires FormGet(form, "description", "") != ""
    ensures FirstFalsy(FormData(form, now), RequiredFields).None?
  {
    var data := FormData(form, now);
    assert FormKeys[0] == "title" && FormKeys[1] == "category" && FormKeys[3] == "description";
    FormField(form, now, 0);
    FormField(form, now, 1);
    FormField(form, now, 3);
    assert Get(data, "title") == Some(JString(FormGet(form, "title", "")));
    assert Get(data, "category") == Some(JString(FormGet(form, "category", "")));
    assert Get(data, "description") == Some(JString(FormGet(form, "description", "")));
    RequiredPresent(data);
  }

  /** Each member of the form's dict reads back as the text sent under its key, or the default. */
  lemma FormField(form: seq<(string, string)>, now: string, i: nat)
    requires i < |FormKeys|
    ensures var data := FormData(form, now);
      Get(data, FormKeys[i]) == Some(JString(FormGet(form, FormKeys[i], if FormKeys[i] == "submitted_at" then now else "")))
  {
    var data := FormData(form, now);
    FormKeysDistinct();
    assert forall j :: 0 <= j < |data| ==> data[j].0 == FormKeys[j];
    GetAt(data, i);
  }

  lemma RequiredPresent(data: Fields)
    requires TruthyMember(data, "title") && TruthyMember(data, "category") && TruthyMember(data, "description")
    ensures FirstFalsy(data, RequiredFields).None?
  {
  }

  /** A row whose every value is text stores. */
  lemma StringsBind(data: Fields, c: Columns)
    requires forall i :: 0 <= i < |data| ==> data[i].1.JString?
    requires SubmissionColumns(data) == Ok(c)
    ensures Store(c) == Ok(c)
  {
    TextValue(data, "title");
    TextValue(data, "category");
    TextValue(data, "organization");
    TextValue(data, "description");
    TextValue(data, "event_date");
    TextValue(data, "event_time");
    TextValue(data, "location");
    TextValue(data, "contact_email");
    TextValue(data, "contact_phone");
    TextValue(data, "contact_name");
    TextValue(data, "submitted_at");
    assert TextColumns(c);
    StoreText(c);
  }

  predicate TextColumns(c: Columns) {
    && c.title.JString? && c.category.JString? && c.organization.JString? && c.description.JString?
    && c.eventDate.JString? && c.eventTime.JString? && c.location.JString?
    && c.contactEmail.JString? && c.contactPhone.JString? && c.contactName.JString? && c.submittedAt.JString?
  }

  lemma StoreText(c: Columns)
    requires TextColumns(c)
    ensures Store(c) == Ok(c)
  {
  }

  lemma TextValue(data: Fields, key: string)
    requires forall i :: 0 <= i < |data| ==> data[i].1.JString?
    ensures GetOrEmpty(data, key).JString?
  {
    if Get(data, key).Some? {
      assert (key, Get(data, key).value) in data;
    }
  }

  datatype SubmitReply = Created(id: int) | Refused(why: Rejection)

  /** `submit_news`: validate, then insert; a refused request leaves the table as it was. */
  method SubmitNews(db: SubmissionsDb, req: Request, now: string) returns (reply: SubmitReply)
    requires db.Valid()
    modifies db
    ensures db.Valid()
    ensures SubmitOutcome(req, now).Err? ==>
      reply == Refused(SubmitOutcome(req, now).error) && db.rows == old(db.rows) && db.nextId == old(db.nextId)
    ensures SubmitOutcome(req, now).Ok? ==>
      reply == Created(old(db.nextId)) && db.rows == old(db.rows) + [Row(old(db.nextId), SubmitOutcome(req, now).value)]
  {
    var d := RequestData(req, now);
    if d.Err? {
      return Refused(d.error);
    }
    var data := d.value;
    if !data.JObject? {
      return Refused(ServerError(Raised(AttributeError)));
    }
    var missing := FirstMissingField(data.fields);
    if missing.Some? {
      return Refused(BadRequest("Missing required field: " + missing.value));
    }
    var cols := SubmissionColumns(data.fields);
    if cols.Err? {
      return Refused(cols.error);
    }
    var stored := Store(cols.value);
    if stored.Err? {
      return Refused(stored.error);
    }
    var id := db.Insert(stored.value);
    return Created(id);
  }

  // ---------------------------------------------------------------------------
  // generate_ai_summary

  /** The keywords that make a word part of a location. */
  const LocationKeywords: seq<string> := ["room", "hall", "building", "center", "auditorium", "campus"]

  predicate AnyOccurs(text: string, keys: seq<string>) {
    exists k :: 0 <= k < |keys| && Contains(text, keys[k])
  }

  /** `any(keyword in word.lower() for keyword in location_keywords)`. */
  predicate MentionsPlace(word: string) {
    AnyOccurs(AsciiLower(word), LocationKeywords)
  }

  /** The index of the first word that mentions a place. */
  function FirstPlace(words: seq<string>): (r: Option<nat>)
    ensures r.None? <==> forall j :: 0 <= j < |words| ==> !MentionsPlace(words[j])
    ensures r.Some? ==> r.value < |words| && MentionsPlace(words[r.value])
                        && forall j :: 0 <= j < r.value ==> !MentionsPlace(words[j])
  {
    if words == [] then None
    else if MentionsPlace(words[0]) then Some(0)
    else
      var r := FirstPlace(words[1..]);
      if r.None? then None
      else
        assert forall j :: 0 < j <= r.value ==> words[j] == words[1..][j - 1];
        Some(r.value + 1)
  }

  /** `words[max(0, i - 2):i + 3]`, joined with blanks. */
  function Window(words: seq<string>, i: nat): string
    requires i < |words|
  {
    Join(words[WindowStart(i)..WindowEnd(words, i)], " ")
  }

  function WindowStart(i: nat): nat {
    if i >= 2 then i - 2 else 0
  }

  function WindowEnd(words: seq<string>, i: nat): (e: nat)
    requires i < |words|
    ensures WindowStart(i) <= i < e <= |words|
  {
    if i + 3 <= |words| then i + 3 else |words|
  }

  /** The location the summariser reports: the words around the first place word, or nothing. */
  function LocationOf(words: seq<string>): string {
    var p := FirstPlace(words);
    if p.None? then "" else Window(words, p.value)
  }

  /** `words.index(word)`: the first position holding `word`. */
  function IndexOf(words: seq<string>, word: string): (i: nat)
    requires word in words
    ensures i < |words| && words[i] == word && forall j :: 0 <= j < i ==> words[j] != word
  {
    if words[0] == word then 0 else 1 + IndexOf(words[1..], word)
  }

  /** The location loop: the first place word is looked up again with `words.index`, which finds the same position. */
  method FindLocation(words: seq<string>) returns (location: string)
    ensures location == LocationOf(words)
  {
    location := "";
    var i := 0;
    while i < |words|
      invariant 0 <= i <= |words|
      invariant forall j :: 0 <= j < i ==> !MentionsPlace(words[j])
    {
      if MentionsPlace(words[i]) {
        var at := IndexOf(words, words[i]);
        assert at == i;
        location := Window(words, at);
        return;
      }
      i := i + 1;
    }
  }

  /** When words come from `split()`, the location splits back into exactly the words of the window. */
  lemma LocationWords(words: seq<string>)
    requires forall j :: 0 <= j < |words| ==> IsWord(words[j])
    requires FirstPlace(words).Some?
    ensures var i := FirstPlace(words).value;
      Words(LocationOf(words)) == words[WindowStart(i)..WindowEnd(words, i)]
  {
    WindowWords(words, FirstPlace(words).value);
  }

  lemma WindowWords(words: seq<string>, i: nat)
    requires forall j :: 0 <= j < |words| ==> IsWord(words[j])
    requires i < |words|
    ensures Words(Window(words, i)) == words[WindowStart(i)..WindowEnd(words, i)]
  {
    var w := words[WindowStart(i)..WindowEnd(words, i)];
    forall j | 0 <= j < |w| ensures IsWord(w[j]) {
      assert w[j] == words[WindowStart(i) + j];
    }
    WordsOfJoin(w);
  }

  /** The category, decided on the lower-cased content by the first matching keyword pair. */
  function Category(content: string): string {
    var low := AsciiLower(content);
    if Contains(low, "event") || Contains(low, "meeting") then "events"
    else if Contains(low, "research") || Contains(low, "academic") then "research"
    else if Contains(low, "career") || Contains(low, "job") then "career-services"
    else "campus-news"
  }

  /** Letter case in the content never changes the category. */
  lemma CategoryIgnoresCase(content: string)
    ensures Category(AsciiUpper(content)) == Category(content)
    ensures Category(AsciiLower(content)) == Category(content)
  {
    LowerForgetsCase(content);
  }

  /** An event keyword wins over every other, research over careers, and campus news is what is left. */
  lemma CategoryPrecedence(content: string)
    ensures var low := AsciiLower(content);
      var event := Contains(low, "event") || Contains(low, "meeting");
      var research := Contains(low, "research") || Contains(low, "academic");
      var career := Contains(low, "career") || Contains(low, "job");
      && (Category(content) == "events" <==> event)
      && (Category(content) == "research" <==> !event && research)
      && (Category(content) == "career-services" <==> !event && !research && career)
      && (Category(content) == "campus-news" <==> !event && !research && !career)
  {
  }

  /** The title before the priority marker: the subject, else the first sentence cut to 80 characters. */
  function BaseTitle(content: string, subject: JSON): string {
    if Truthy(subject) then Str(subject)
    else PyTake(SplitOn(content, '.')[0], 80) + "..."
  }

  /** Without a subject the title is the content up to its first full stop, at most 80 characters of it. */
  lemma BaseTitleFromContent(content: string, subject: JSON)
    requires !Truthy(subject)
    ensures var t := BaseTitle(content, subject); var h := t[..|t| - 3];
      && t[|t| - 3..] == "..." && |h| <= 80 && |h| <= |content| && h == content[..|h|] && '.' !in h
      && (|h| < 80 ==> |h| == |content| || content[|h|] == '.')
  {
    SplitOnHead(content, '.');
    var t := BaseTitle(content, subject);
    var first := SplitOn(content, '.')[0];
    assert t[..|t| - 3] == PyTake(first, 80);
  }

  /** `'. '.join(content.split('.')[:2]) + '.'`, cut to 197 characters and `...` beyond 200. */
  function Summary(content: string): (r: string)
    ensures |r| <= 200
  {
    var sentences := SplitOn(content, '.');
    var s := Join(sentences[..if |sentences| >= 2 then 2 else |sentences|], ". ") + ".";
    if |s| > 200 then s[..197] + "..." else s
  }

  /** A short content without a full stop is summarised as itself with a full stop. */
  lemma SummaryOfOneSentence(content: string)
    requires '.' !in content && |content| < 200
    ensures Summary(content) == content + "."
  {
    JoinSplitOn(content, '.');
    assert |SplitOn(content, '.')| == 1;
  }

  /** Every summary ends in a full stop, or in `...` when it was cut. */
  lemma SummaryEnding(content: string)
    ensures var r := Summary(content); r[|r| - 1] == '.'
  {
  }

  /** The marker `generate_ai_summary` puts before the title; only the strings 'high' and 'low' have their own. */
  function PriorityMarker(priority: JSON): string {
    if priority == JString("high") then "🚨 "
    else if priority == JString("low") then "📝 "
    else "📢 "
  }

  datatype AiSummary = AiSummary(
    title: string, category: string, summary: string,
    eventDate: string, eventTime: string, location: string,
    priority: JSON, notificationLevel: JSON, generatedBy: string)

  /**
   * What `generate_ai_summary` returns; `dateFound` and `timeFound` are what
   * its regular expressions find in the content ('' when nothing matches).
   */
  function SummaryOf(content: string, subject: JSON, priority: JSON, level: JSON,
                     dateFound: string, timeFound: string): AiSummary
  {
    var category := Category(content);
    var events := category == "events";
    AiSummary(
      PriorityMarker(priority) + BaseTitle(content, subject), category, Summary(content),
      if events then dateFound else "", if events then timeFound else "",
      if events then LocationOf(Words(content)) else "",
      priority, level, "AI Assistant")
  }

  /** Only events carry a date, a time and a location. */
  lemma NonEventsHaveNoDetails(content: string, subject: JSON, priority: JSON, level: JSON, d: string, t: string)
    requires Category(content) != "events"
    ensures var s := SummaryOf(content, subject, priority, level, d, t);
      s.eventDate == "" && s.eventTime == "" && s.location == ""
  {
  }

  /** The reply echoes the caller's priority and notification level and names the generator. */
  lemma SummaryEchoes(content: string, subject: JSON, priority: JSON, level: JSON, d: string, t: string)
    ensures var s := SummaryOf(content, subject, priority, level, d, t);
      && s.priority == priority && s.notificationLevel == level && s.generatedBy == "AI Assistant"
      && |s.summary| <= 200
      && s.title == PriorityMarker(priority) + BaseTitle(content, subject)
  {
  }

  /** `generate_ai_summary`, with its location loop. */
  method GenerateAiSummary(content: string, subject: JSON, priority: JSON, level: JSON,
                           dateFound: string, timeFound: string) returns (s: AiSummary)
    ensures s == SummaryOf(content, subject, priority, level, dateFound, timeFound)
  {
    var words := Words(content);
    var category := Category(content);
    var eventDate, eventTime, location := "", "", "";
    if category == "events" {
      eventDate := dateFound;
      eventTime := timeFound;
      location := FindLocation(words);
    }
    var title := BaseTitle(content, subject);
    var summary := Summary(content);
    title := PriorityMarker(priority) + title;
    s := AiSummary(title, category, summary, eventDate, eventTime, location, priority, level, "AI Assistant");
  }

  // ---------------------------------------------------------------------------
  // process_email

  /** The row `process_email` inserts for a summary: published at once, attributed to the assistant. */
  function PublishedColumns(s: AiSummary, now: string): Columns {
    Columns(JString(s.title), JString(s.category), JString("AI Generated"), JString(s.summary),
            JString(s.eventDate), JString(s.eventTime), JString(s.location),
            JString("ai@notifly.system"), JString(""), JString("AI Assistant"), JString(now), "approved")
  }

  /** The summary `process_email` publishes, or why it refuses. */
  function ProcessOutcome(body: Option<JSON>, dateFound: string, timeFound: string): Result<AiSummary, Rejection> {
    if body.None? then Err(ServerError(MalformedJson))
    else if !body.value.JObject? then Err(ServerError(Raised(AttributeError)))
    else
      var data := body.value.fields;
      var content := GetOrEmpty(data, "body");
      if !Truthy(content) then Err(BadRequest("Content body is required for AI summary generation"))
      else if !content.JString? then Err(ServerError(Raised(AttributeError)))
      else Ok(SummaryOf(content.s, GetOrEmpty(data, "subject"), Get(data, "priority").GetOr(JString("normal")),
                        Get(data, "notification_level").GetOr(JString("medium")), dateFound, timeFound))
  }

  /** An email without body text is refused with 400 before anything is summarised. */
  lemma ProcessRejectsEmptyBody(data: Fields, dateFound: string, timeFound: string)
    requires !TruthyMember(data, "body")
    ensures ProcessOutcome(Some(JObject(data)), dateFound, timeFound)
         == Err(BadRequest("Content body is required for AI summary generation"))
  {
  }

  datatype ProcessReply = Published(id: int, summary: AiSummary) | Declined(why: Rejection)

  /** `process_email`: summarise and publish; a declined email leaves the table as it was. */
  method ProcessEmail(db: SubmissionsDb, body: Option<JSON>, now: string, dateFound: string, timeFound: string)
    returns (reply: ProcessReply)
    requires db.Valid()
    modifies db
    ensures db.Valid()
    ensures var o := ProcessOutcome(body, dateFound, timeFound);
      && (o.Err? ==> reply == Declined(o.error) && db.rows == old(db.rows) && db.nextId == old(db.nextId))
      && (o.Ok? ==> reply == Published(old(db.nextId), o.value)
                    && db.rows == old(db.rows) + [Row(old(db.nextId), PublishedColumns(o.value, now))])
  {
    if body.None? {
      return Declined(ServerError(MalformedJson));
    }
    if !body.value.JObject? {
      return Declined(ServerError(Raised(AttributeError)));
    }
    var data := body.value.fields;
    var content := GetOrEmpty(data, "body");
    var subject := GetOrEmpty(data, "subject");
    var priority := Get(data, "priority").GetOr(JString("normal"));
    var level := Get(data, "notification_level").GetOr(JString("medium"));
    if !Truthy(content) {
      return Declined(BadRequest("Content body is required for AI summary generation"));
    }
    if !content.JString? {
      return Declined(ServerError(Raised(AttributeError)));
    }
    var summary := GenerateAiSummary(content.s, subject, priority, level, dateFound, timeFound);
    var id := db.Insert(PublishedColumns(summary, now));
    return Published(id, summary);
  }
}
