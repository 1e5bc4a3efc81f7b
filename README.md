# Notifly pipeline — a Dafny model

Notifly collects campus news from two places and shows it to students:

- **Submissions.** Students post news through a web form.
  - The browser-side data manager (`js/data-manager.js`) queues a form locally when no backend answers, and replays the queue later.
  - The Flask backend (`backend/app.py`) checks the required fields and stores the submission as `pending`.
- **Email.** Incoming mail is turned into published news.
  - The ingester (`Back_end.py`) flattens every inbox message into a subject, a sender and a plain-text body, and stores it.
  - The forwarder (`Responce_e.py`) reads an `emails` table that has a received date, in another database than the ingester's (whose table has none). It posts each email to the triage service's `/process_email` (port 8081), with a pause between posts.
  - A rule-based summariser classifies each email by keyword, extracts a location window, and publishes a titled, length-bounded summary at once.
- **Triage service** (`ai_service_v003.py`). This service asks a language model for a priority, tags and a summary, then repairs the reply and truncates the subject deterministically.
- **Newsletter** (`app.py`). This service serves articles sorted by priority (5 = critical), each with a label and a colour scheme.

There is one module per source file.

| file | module | models |
|---|---|---|
| `ai_service.dfy` | `AiService` | `ai_service_v003.py` |
| `backend_app.dfy` | `BackendApp` | `backend/app.py` |
| `data_manager.dfy` | `DataManager` | `js/data-manager.js` |
| `newsletter.dfy` | `Newsletter` | `app.py` |
| `forwarder.dfy` | `Forwarder` | `Responce_e.py` |
| `mail_ingest.dfy` | `MailIngest` | `Back_end.py` |

Shared modules hold the language semantics these files rely on:

- `PyText`: Python `str` methods (`strip`, `split`, `lower`, `int`, `join`, slicing).
- `PyValue`: truth value, `str`, `repr` and `int` of a decoded JSON value.
- `JsonValue`: JSON values, with objects kept as ordered member lists.
- `JsonText`: `json.dumps` with `ensure_ascii`, and the RFC 8259 section 7 string decoder it is proved to invert.
- `Wrappers`: `Option` and `Result`.
- `SeqFacts`: slicing facts used by the loop proofs, and a generic filter with its membership and order lemmas.

Two kinds of state are classes:

- the two database tables: `BackendApp.SubmissionsDb` and `MailIngest.EmailStore`;
- the `localStorage` slot of the browser client: `DataManager.NotiflyDataManager`.

The network, the clock, the regular-expression searches, the database queries and the email library are parameters.

Priority scales differ: in `app.py` 5 is the most urgent, while the triage service's prompt treats 1 as the most urgent. The two are kept apart (`Newsletter.PriorityLabel` is not `AiService.Priority`).

Where one might expect other behaviour, the model follows the code:

- **Truncation length.** One might expect a truncated subject to be exactly `max` long. The code right-strips before the ellipsis, so it can be shorter (`AiService.TruncateCut`).
- **Bad priority.** One might expect a priority that cannot be parsed to default to 3. The code defaults only a *missing* key; `int()` raises on bad text and on null (`AiService.AnalyzePriority`).
- **Malformed replies.** One might expect the reply's repair never to raise. The code raises in three cases:
  - an integer `tags` value (TypeError);
  - a non-string `summary` (AttributeError);
  - a reply that is not an object (AttributeError).
- **Duplicates.** One might expect a re-run to skip messages already stored. `fetch_gmail` has no existence check, so running it twice stores every message twice (`MailIngest.FetchGmailTwice`).
- **Decoding failures.** One might expect a part that fails to decode to become the empty string. The code drops undecodable bytes (`errors="ignore"`), but an unknown charset raises and stops the run (`MailIngest.FetchGmail`).
- **Batch completion.** One might expect a batch always to complete. The forwarder stops on an email with a NULL subject (see Findings).
- **Title marker.** `generate_ai_summary` writes the marker followed by a space (`"🚨 "`, `"📝 "`, `"📢 "`), as the f-strings do.

## Model

| member | source | states |
|---|---|---|
| AiService.Truncate | ai_service_v003.py:98-104 | For `max_len >= 0` the result is never longer than `max_len`. |
| AiService.TruncateNone | ai_service_v003.py:99 | `None` is truncated exactly like the empty string. |
| AiService.TruncateFits | ai_service_v003.py:99-101 | Text whose stripped form fits is returned stripped and otherwise unchanged. |
| AiService.TruncateCut | ai_service_v003.py:102-104 | A longer text with `max_len >= 2` becomes its first `max_len-1` characters, right-stripped, plus `…`. The result is at most `max_len` long, and exactly `max_len` iff the character before the cut is not whitespace. |
| AiService.TruncateTiny | ai_service_v003.py:102-103 | With `max_len` 0 or 1 a longer text becomes a plain prefix with no ellipsis. |
| AiService.TruncateStripped | ai_service_v003.py:98-104 | A truncated subject never starts or ends with whitespace. |
| AiService.TruncateIdempotent | ai_service_v003.py:98-104 | Truncating an already truncated subject changes nothing. |
| AiService.TruncateOfStripped | ai_service_v003.py:99 | Stripping the input first gives the same result. |
| AiService.Tags | ai_service_v003.py:110 | Fails with TypeError exactly when the value is a truthy int or bool. A missing or falsy value gives `[]`. |
| AiService.TagsOfStrings | ai_service_v003.py:110 | A list of strings comes through as the same strings in the same order. |
| AiService.StrippedText | ai_service_v003.py:111-112 | The result is stripped; a falsy value gives `""`; a string gives its strip. It fails exactly for a truthy non-string. |
| AiService.Analyze | ai_service_v003.py:106-117 | A reply that is not an object fails with AttributeError. An accepted reply has a stripped summary and a subject within `SUBJECT_MAX`. |
| AiService.AnalyzePriority | ai_service_v003.py:109 | Priority is 3 when absent, and an integer is kept as is. An explicit null raises TypeError, and non-numeric text raises ValueError. |
| AiService.AnalyzeReadsPriorityFirst | ai_service_v003.py:109-110 | The priority is converted before anything else, so its error is the answer. Otherwise its value is the answer's level. |
| AiService.AnalyzeSubject | ai_service_v003.py:112-116 | The subject shown is the model's own line when it has text, else the email's subject; both are truncated. |
| AiService.AnalyzeWellTyped | ai_service_v003.py:106-117 | A reply shaped as the prompt asks is always accepted, with priority, tags and summary taken from it. |
| AiService.PromptDefaults | ai_service_v003.py:77-78 | Absent overrides and tags are written as `{}` and `[]`. |
| AiService.PromptFillsDecode | ai_service_v003.py:72-79 | The embedded subject and body decode back to the email's exact text, and the width reads back as `SUBJECT_MAX`. |
| AiService.PromptFillsPrintable | ai_service_v003.py:74-78 | Every value filled into the template is printable ASCII. |
| AiService.InterleaveChars | ai_service_v003.py:73 | Every character of a filled template comes from a template run or from a filled value. |
| AiService.PromptForeignCharsFromTemplate | ai_service_v003.py:72-79 | Any non-ASCII character in the prompt comes from the template text, never from the email. |
| JsonText.UnescapeEscapeString | ai_service_v003.py:75-76 | Decoding the escaped form of any string gives the string back. |
| JsonText.DecodeDumpedString | ai_service_v003.py:75-76 | `json.dumps` of a string decodes back to that string. |
| JsonText.DumpsStringInjective | ai_service_v003.py:75-76 | Different strings are dumped differently. |
| JsonText.DumpsPrintable | ai_service_v003.py:75-78 | With `ensure_ascii`, everything `json.dumps` writes is printable ASCII. |
| JsonText.EscapeChar | ai_service_v003.py:75-76 | Each character is written as non-empty printable ASCII. |
| PyText.StripIdempotent | ai_service_v003.py:99 | Stripping twice is stripping once. |
| PyText.StripEmptyIffAllSpace | ai_service_v003.py:113 | The strip is empty exactly when the text is all whitespace. |
| PyText.StripShape | ai_service_v003.py:99 | The strip is a contiguous slice with non-space ends, and only whitespace is removed around it. |
| PyText.ParseIntToDecimal | ai_service_v003.py:109 | `int(str(i)) == i` for every integer. |
| PyText.JoinSplitOn | backend/app.py:311-312 | Joining the `split('.')` pieces with `.` gives the text back. |
| PyText.SplitOnHead | backend/app.py:308 | The first `split('.')` piece is the text before the first full stop. |
| PyText.WordsOfJoin | backend/app.py:288 | Words joined with blanks split back into the same words. |
| PyText.WordsKeepNonSpace | backend/app.py:268 | `split()` keeps every non-whitespace character, in order. |
| PyText.LowerForgetsCase | backend/app.py:271 | Lower-casing removes all case information (ASCII letters). |
| PyText.ContainsAt | backend/app.py:271 | The substring test holds iff the keyword occurs at some position. |
| PyValue.StrRoundTrips | ai_service_v003.py:110 | `str()` of an integer tag is its decimal text, which `int()` reads back. `str()` of a string is that string, so `str` twice changes nothing. |
| PyValue.StrOfNonString | ai_service_v003.py:110 | `str()` of a non-string value is never empty. |
| PyValue.Int | ai_service_v003.py:109 | Integers are kept and bools are 0 and 1. A string gives the integer it parses to, or ValueError. Null, lists and dicts raise TypeError. |
| PyValue.IntOfDecimalText | ai_service_v003.py:109 | An integer written as text reads back unchanged. |
| JsonValue.Get | ai_service_v003.py:109 | Absent exactly when the key is not among the object's keys; a found value is a member of the object. |
| JsonValue.GetAt | backend/app.py:79-91 | A member reads back when no member before it has the same key. |
| JsonValue.Set | js/data-manager.js:109 | Assigning a key makes it read back as the new value, and leaves every other key unchanged. |
| JsonValue.SetKeys | js/data-manager.js:109 | Assignment keeps the key order, and adds a new key at the end. |
| BackendApp.SubmissionsDb.constructor | backend/app.py:16-31 | The table starts empty, with the first id 1. |
| BackendApp.SubmissionsDb.Insert | backend/app.py:103-125 | Appends exactly one row, whose id is the next id; earlier rows are unchanged and ids stay increasing. |
| BackendApp.ValidIdsDistinct | backend/app.py:18 | Two rows never share an id. |
| BackendApp.Store | backend/app.py:106-123 | Storing succeeds iff every value is bindable and title, category, description and submitted_at are not NULL. Lists, dicts and ints outside the signed 64-bit range are not bindable. The row is stored as is. |
| BackendApp.SubmitRejectsWideInt | backend/app.py:106-155 | A contact phone sent as a JSON number of 2^63 or more is answered 500, and nothing is stored. |
| BackendApp.FirstFalsy | backend/app.py:94-100 | None iff every required key is present and truthy. Otherwise it names the first key that is missing or false. |
| BackendApp.FirstMissingField | backend/app.py:94-100 | The validation loop returns the first missing required field, in the order title, category, description. |
| BackendApp.FormKeysDistinct | backend/app.py:79-91 | The dict built from a form has eleven distinct keys. |
| BackendApp.FormField | backend/app.py:79-91 | Each member of the form dict is the first value sent under its key. The default is `''`, or the clock for `submitted_at`. |
| BackendApp.SubmitNeedsTimestamp | backend/app.py:94-155 | Validation ignores `submitted_at`, but `data['submitted_at']` raises KeyError: such a JSON submission is answered 500 and nothing is stored. |
| BackendApp.SubmitRejectsFirstMissing | backend/app.py:94-100 | A request missing a required field is answered 400, naming the first such field. |
| BackendApp.SubmitStoresRequired | backend/app.py:103-123 | A stored submission has a non-empty title, category and description, and status `pending`. |
| BackendApp.SubmitFormAccepted | backend/app.py:79-123 | A form with title, category and description is always stored. Its time is the form's `submitted_at`, or the clock. |
| BackendApp.AcceptText | backend/app.py:94-123 | Validated all-text data is stored with its own `submitted_at`. |
| BackendApp.RequiredPresent | backend/app.py:94-100 | Truthy title, category and description pass validation. |
| BackendApp.RequiredPresentItems | backend/app.py:112-115 | After validation the required keys are present. |
| BackendApp.StringsBind | backend/app.py:106-123 | A row made of text values always binds and stores. |
| BackendApp.SubmitNews | backend/app.py:60-155 | A refused request (400 or 500) leaves the table unchanged. An accepted one appends exactly its row, with the returned id. |
| BackendApp.FirstPlace | backend/app.py:284-285 | The index of the first word containing a location keyword, case-insensitively, or none. |
| BackendApp.IndexOf | backend/app.py:287 | `words.index` is the first position holding the word. |
| BackendApp.WindowEnd | backend/app.py:288 | The window `[max(0,i-2), i+3)` contains the place word and stays within the words. |
| BackendApp.FindLocation | backend/app.py:282-290 | The loop's location is the window around the first place word, or `''`. |
| BackendApp.LocationWords | backend/app.py:282-290 | The location splits back into exactly the words of the window. |
| BackendApp.WindowWords | backend/app.py:288 | A joined window of `split()` words splits back into the window. |
| BackendApp.CategoryIgnoresCase | backend/app.py:271-305 | Letter case in the content never changes the category. |
| BackendApp.CategoryPrecedence | backend/app.py:271-305 | Each of the four categories is chosen exactly when its keyword pair occurs and no earlier pair does, in the order event/meeting, research/academic, career/job; campus-news is chosen when none occurs. |
| BackendApp.BaseTitleFromContent | backend/app.py:308 | Without a subject, the title is the longest prefix of the content before its first `.`, cut to 80 characters, plus `...`. |
| BackendApp.Summary | backend/app.py:310-314 | The summary is never longer than 200 characters. |
| BackendApp.SummaryOfOneSentence | backend/app.py:311-312 | A short content without a full stop is summarised as itself plus `.`. |
| BackendApp.SummaryEnding | backend/app.py:311-314 | Every summary ends in a full stop. |
| BackendApp.NonEventsHaveNoDetails | backend/app.py:291-305 | Only events carry a date, a time and a location. |
| BackendApp.SummaryEchoes | backend/app.py:317-334 | The summary echoes priority and notification level, names the assistant, and prefixes the title with the marker of its priority. |
| BackendApp.GenerateAiSummary | backend/app.py:260-334 | The method computes exactly the summary its specification defines, location loop included. |
| BackendApp.ProcessRejectsEmptyBody | backend/app.py:207-211 | An email without body text is answered 400 before anything is summarised. |
| BackendApp.ProcessEmail | backend/app.py:188-258 | A declined email leaves the table unchanged. A published one appends exactly its approved, assistant-attributed row. |
| DataManager.ObjectOfLastWins | js/data-manager.js:106-112 | A form key sent more than once takes the value of its last entry; an unsent key is absent. |
| DataManager.FormDataToObject | js/data-manager.js:106-112 | The loop builds the object of successive assignments. |
| DataManager.StampedFields | js/data-manager.js:82-85 | A queued record carries the clock's id, `stored_locally: true` and the time, and keeps every other form field. |
| DataManager.FirstAnswer | js/data-manager.js:46-75 | None iff no endpoint answers an ok, parseable response. Otherwise it is the body of the first endpoint that does, all earlier ones having failed. |
| DataManager.NotiflyDataManager.Endpoints | js/data-manager.js:47-51 | The three endpoints, in order: `apiBase + '/submit-news'`, `/api/submit-news`, `/submit`. |
| DataManager.NotiflyDataManager.SubmitToAPI | js/data-manager.js:46-75 | The loop returns the first answering endpoint's body, or fails ('All API endpoints failed'). |
| DataManager.ReadSlot | js/data-manager.js:117-124 | A missing or unparsable stored value reads as `[]`. |
| DataManager.NotiflyDataManager.StoreLocally | js/data-manager.js:80-101 | Appends exactly one stamped record after the earlier ones and answers success with its id. A stored value that is not a list makes it throw, with nothing written. |
| DataManager.NotiflyDataManager.SubmitNews | js/data-manager.js:28-41 | A backend answer reporting success is returned with storage untouched. Otherwise the form is queued as by `storeLocally`. |
| DataManager.Removal | js/data-manager.js:165 | Removal never lengthens the list. |
| DataManager.RemovalMembers | js/data-manager.js:163-167 | An item stays iff its id is not strictly equal to the given id. |
| DataManager.RemovalAppend | js/data-manager.js:165 | Removal keeps the relative order of the items kept. |
| DataManager.NotiflyDataManager.RemoveStoredSubmission | js/data-manager.js:163-167 | The stored list becomes the list without the id's records. A null item or a non-list makes it throw, with nothing written. |
| DataManager.Locals | js/data-manager.js:131 | Only objects whose `stored_locally` is truthy are replayed. |
| DataManager.LocalsMembers | js/data-manager.js:131 | A stored record is replayed exactly when it is an object whose `stored_locally` is truthy. |
| DataManager.LocalsAppend | js/data-manager.js:131 | The replay keeps the stored order: it distributes over concatenation. |
| DataManager.SyncForm | js/data-manager.js:141-146 | The replayed form never contains `id` or `stored_locally`. |
| DataManager.SyncFormKeeps | js/data-manager.js:142-145 | Every other field of the record is sent, converted to text. |
| DataManager.SyncFoldShrinks | js/data-manager.js:139-157 | Replaying never adds an item to the stored list. |
| DataManager.SyncFoldNoneAccepted | js/data-manager.js:148-153 | If the backend reports success for none of them, the list is unchanged. |
| DataManager.SyncFoldRemovesAccepted | js/data-manager.js:148-153 | Once a replayed record is accepted, no item with its id remains. |
| DataManager.SyncFoldKeepsUnaccepted | js/data-manager.js:148-153 | A stored record that shares its id with no accepted replay stays queued, even when other records are accepted. |
| DataManager.SyncFoldMembers | js/data-manager.js:139-157 | After the replay, the list holds exactly the stored records that share their id with no accepted replay. |
| DataManager.SyncWithoutLocalsKeepsSlot | js/data-manager.js:133-135 | With nothing queued, sync writes nothing. |
| DataManager.NotiflyDataManager.SyncStoredSubmissions | js/data-manager.js:129-158 | The storage afterwards is the replay's result; a non-list or a null item aborts before anything is sent. |
| DataManager.ListingOf | js/data-manager.js:172-192 | A stored `null` has no `.length`, so the call rejects with TypeError; otherwise the local part is the stored value, and when both parts are lists the total is the remote count plus the local count. |
| DataManager.ListingWhenOffline | js/data-manager.js:173-191 | A failed listing request still resolves, showing every queued record, and the total counts them. |
| DataManager.NotiflyDataManager.GetAllSubmissions | js/data-manager.js:172-192 | The call rejects with TypeError exactly when storage holds `null`; otherwise the local part is what `getStoredSubmissions` reads. |
| DataManager.NotiflyDataManager.constructor | js/data-manager.js:7-9 | The API base is `http://localhost:5000/api`. |
| Newsletter.PriorityColor | app.py:20-29 | Any level outside 1..5 gets the gray level-1 scheme. |
| Newsletter.PriorityLabel | app.py:31-40 | The function is total, with one of five labels, and INFO outside 1..5. |
| Newsletter.LevelsDistinguishable | app.py:20-40 | On the five levels, each label and each scheme names exactly one level. |
| Newsletter.LowerLabels | app.py:64 | Articles show `critical`, `high`, `medium`, `low` or `info` for 5, 4, 3, 2 and anything else. |
| Newsletter.SortDescSorted | app.py:51 | The sorted data runs from the highest level to the lowest. |
| Newsletter.SortDescPermutation | app.py:51 | The sorted data holds the same items, each as often. |
| Newsletter.SortDescStable | app.py:51 | Items of equal level keep their input order. |
| Newsletter.TagTextAsOneTag | app.py:57-59 | A string of tags is shown as one tag, never split: tags `s` and tags `[s]` give the same article. A repaired tag list needs no further repair. |
| Newsletter.Articles | app.py:53-70 | There is exactly one article per input item. |
| Newsletter.ArticlesOrdered | app.py:51-70 | Articles are ordered by non-increasing level, and each shows its level's lower-case label. |
| Newsletter.ArticlesCoverData | app.py:53-70 | Every item appears as an article. |
| Newsletter.ApiNewsletter | app.py:47-72 | The loop builds one article per sorted item, in order. |
| Forwarder.EmailData | Responce_e.py:71-86 | A failed query gives `[]`; otherwise there is one record per row. |
| Forwarder.EmailDataKeepsRows | Responce_e.py:73-79 | Each record carries the columns of the row at the same position, in query order. |
| Forwarder.FetchEmailData | Responce_e.py:54-86 | The loop maps the rows, in order, to their records. |
| Forwarder.PayloadOf | Responce_e.py:94-97 | A NULL or empty subject or body is sent as `""`, and any other value as itself. |
| Forwarder.ProcessEndpointTarget | Responce_e.py:88-91 | The script posts to `http://10.91.86.87:8081/process_email`, the triage service's route, and different base URLs never share an endpoint. |
| Forwarder.MakePostRequestClassifies | Responce_e.py:114-126 | The post succeeds iff the status is 200 or 201; a request error or other error is a failure. |
| Forwarder.FirstNullSubject | Responce_e.py:136 | The position of the first email with a NULL subject, or none. |
| Forwarder.ProcessEmailsWithRateLimit | Responce_e.py:128-152 | The loop, as written, gives the outcome `BatchOutcomeOf` defines. |
| Forwarder.TracePauses | Responce_e.py:146-147 | After the first k emails there were k pauses, n-1 after all n, and the last event is a post. |
| Forwarder.CompletedRunAccounting | Responce_e.py:130-147 | In a completed run, successes + failures = n, and the successes are the posts that returned true. There are n-1 pauses and none after the last email. |
| Forwarder.BatchCompletesIff | Responce_e.py:136-152 | The run completes iff there is an email and no subject is NULL. |
| Forwarder.NullSubjectAbortsBatch | Responce_e.py:136 | An email with a NULL subject stops the batch before anything is posted, although its payload would be `""`. |
| Forwarder.IntendedBatch | Responce_e.py:128-152 | The corrected batch always completes on a non-empty list. |
| Forwarder.IntendedBatchAccounting | Responce_e.py:130-147 | In the corrected batch, successes + failures = n. There are n-1 pauses, with no pause after the last email. |
| Forwarder.IntendedAgreesWithoutNulls | Responce_e.py:136 | Without NULL subjects, the corrected batch is the written one. |
| Forwarder.Connection.Close | Responce_e.py:180-181 | Closing leaves the connection closed. |
| Forwarder.ForwardStoredEmails | Responce_e.py:154-182 | Nothing is processed without a connection or without data. Otherwise the batch runs as written, and the only error `main` can catch is the NULL-subject TypeError. An opened connection is always closed. |
| MailIngest.MissingCharsetIsUtf8 | Back_end.py:37-49 | A subject chunk or body part with no charset, or an empty one, decodes exactly as with UTF-8. A text chunk is the subject verbatim. |
| MailIngest.SubjectIgnoresLaterChunks | Back_end.py:37 | Chunks after the first never change the subject. |
| MailIngest.SelectedParts | Back_end.py:44 | Only plain-text parts without a Content-Disposition are selected. |
| MailIngest.WalkBodyOnlySelected | Back_end.py:42-46 | Attachments and non-text parts contribute nothing to the body. |
| MailIngest.WalkBodyAppend | Back_end.py:43-46 | The body is the concatenation of the parts' texts, in walk order. |
| MailIngest.SingleBodyIsWholePayload | Back_end.py:47-49 | A single-part message's body is its whole decoded payload. |
| MailIngest.ParseEmail | Back_end.py:36-50 | The sender is the From header verbatim; subject and body are as defined. It fails iff the subject or the body does. |
| MailIngest.CollectBody | Back_end.py:43-46 | The accumulation loop computes the walk's body, or its first decoding failure. |
| MailIngest.WalkBodyErrSticks | Back_end.py:46 | A decoding failure in a prefix of the walk fails the whole walk. |
| MailIngest.EmailStore.SaveEmail | Back_end.py:52-58 | Appends exactly one row with the given fields and the next id, with no lookup. |
| MailIngest.RunAppend | Back_end.py:71-77 | Saving a sequence of messages is saving its two halves one after the other, stopping at the first failure. |
| MailIngest.RunMeaning | Back_end.py:71-77 | A run inserts one row per message, in order, up to the first message that fails to parse, and then fails with its error. |
| MailIngest.FirstFailure | Back_end.py:71-77 | The first message that does not parse, or none. |
| MailIngest.RerunDuplicates | Back_end.py:52-58 | Rows added twice after any list of earlier rows occur at least twice. |
| MailIngest.FetchGmailTwice | Back_end.py:60-80 | Running `fetch_gmail` twice over one inbox appends the run's rows twice, so each of them is stored at least twice. |
| MailIngest.SaveFetched | Back_end.py:73-77 | The inner loop saves the tuple parts of one fetched message, as a run. |
| MailIngest.FetchGmail | Back_end.py:60-80 | The table gains exactly the run's rows; the result is the run's outcome. |

## Left out

- Web framework plumbing is not modelled. This covers Flask and FastAPI routing, CORS and `OPTIONS` preflight, `jsonify`, and response status codes beyond the refusal values.
- `call_ollama` and its HTTP exchange are not modelled. The model's reply is a parameter of `AiService.Analyze`, and a failed call is outside it.
- AiService.BuildPrompt: the template's wording is natural-language policy without executable meaning. It is given as the seven text runs around its six placeholders.
- Database access is not modelled: SQL execution, commit and connection setup (`connect_to_database`, `connect_postgres`, `create_table`). It is replaced by the two table classes and by the query result as a parameter; `ORDER BY received_date DESC` is the order of that parameter.
- File attachments in `submit_news` (`backend/app.py:129-141`) are not modelled, because the file system is outside the model.
- The regular-expression date and time searches (`backend/app.py:274-279`) are parameters of the summary.
- The clock is a parameter: `datetime.now()`, `Date.now()`, `new Date().toISOString()` and the newsletter date.
- Floating point is not modelled. The success-rate percentage is left out except for its division by zero. JSON numbers are integers only, so there are no floats and no `NaN` (a `NaN` total is `None`).
- `time.sleep` is recorded as a pause event in the trace, with its length in milliseconds (500 in `main`).
- `ping_server` and its call at import time (`Responce_e.py:10-25`) are not modelled; they are a network call with printing.
- Printing, logging and `console` output are not modelled.
- PyText.AsciiLower: `str.lower()` is modelled for ASCII letters only. Non-ASCII characters whose lower case is ASCII, such as the Kelvin sign, are not folded.
- PyText.ParsePyInt: only ASCII digits are accepted. Python's `int()` also reads other Unicode decimal digits (category Nd, such as `int('٣') == 3`); the model raises ValueError on them, and so does `AiService.Analyze` for such a priority.
- PyValue.ReprString: non-printable non-ASCII characters are shown as themselves. The `\u` and `\U` escapes of `repr` are not modelled.
- Parsing JSON with duplicate object keys is not modelled: the model's lookup takes the first member, while `json.loads` and `JSON.parse` keep the last.
- JavaScript's ordering of integer-like keys first is not modelled, and neither is the special `__proto__` key.
- Lone UTF-16 surrogates cannot occur in strings, so a JSON string that decodes to one is rejected.
- The stored `localStorage` slot holds the parsed value, so `JSON.stringify` followed by `JSON.parse` is taken to give the value back. Quota errors from `setItem` are not modelled.
- DataManager.NotiflyDataManager.SyncStoredSubmissions: the asynchronous calls run in sequence, and the `online` listener that triggers a sync is not modelled.
- The network oracle of the browser client is a fixed function of the endpoint and the form: the same request always gets the same reply.
- The email library is given rather than modelled: `message_from_bytes`, the internals of `decode_header`, `walk()`, `get_payload(decode=True)` and charset decoding. A message arrives as its chunks and parts, and decoding is an oracle.
- `decode_header` failing on a message without a Subject header is part of that library, and is not modelled.
- DataManager.JsLength: an object with its own `length` member has that length in JavaScript; the model gives it none (`NaN`), as for any other object.
- Forwarder.Row: the received date is always text; a NULL `received_date` cannot be represented. The script never reads it beyond copying it.
- Server-error messages (`str(e)`) are not modelled; a 500 records only its kind of fault.
- IMAP login, search, logout and fetch are not modelled. The inbox is the list of fetched response parts.
- The sample `newsletter_data` (`app.py:10-18`) is data. The model serves any list of items whose tags are a list or a string.

## Findings

| source | as written | input that shows it | evidently intended | confidence | as-written member | corrected member |
|---|---|---|---|---|---|---|
| Responce_e.py:136 | `len(email['subject'])` raises TypeError on a NULL subject. This stops the whole batch after the emails before it. | A batch whose first email has subject NULL and body `"b"`, followed by a normal email: nothing is posted. | A NULL subject counts as empty, as the payload on line 95 already treats it, and every email is posted. | not executed; medium | Forwarder.NullSubjectAbortsBatch | Forwarder.IntendedBatch |
