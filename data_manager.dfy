/**
 * The browser-side data manager of the submission form: it posts a form to
 * the first backend endpoint that answers, queues the form in `localStorage`
 * when none does, and later replays the queue.
 *
 * `localStorage` under the manager's key is the field `storage` of the class:
 * a JSON value as `JSON.stringify` wrote it, or nothing, or text that does not
 * parse. The network is an oracle `net` that maps an endpoint and a form to
 * what `fetch` gave; the clock is passed in.
 */
module DataManager {
  import opened Wrappers
  import opened JsonValue
  import PyText
  import SeqFacts

  // ---------------------------------------------------------------------------
  // JavaScript values

  /** `Boolean(v)`; `None` is `undefined`. Unlike Python, an empty array or object is true. */
  predicate JsTruthy(v: Option<JSON>) {
    match v
    case None => false
    case Some(JNull) => false
    case Some(JBool(b)) => b
    case Some(JInt(i)) => i != 0
    case Some(JString(s)) => s != ""
    case Some(JArray(_)) => true
    case Some(JObject(_)) => true
  }

  /** `v[key]` for a value that is not null: a member of an object, `undefined` on anything else. */
  function Prop(v: JSON, key: string): Option<JSON> {
    if v.JObject? then Get(v.fields, key) else None
  }

  /** `a === b`: primitives compare by value, two arrays or objects are never the same object here. */
  predicate StrictEq(a: Option<JSON>, b: Option<JSON>) {
    match (a, b)
    case (None, None) => true
    case (Some(x), Some(y)) => !x.JArray? && !x.JObject? && x == y
    case _ => false
  }

  /** `String(v)`, as `FormData.append` converts a value. */
  function JsString(v: JSON): string
    decreases v
  {
    match v
    case JNull => "null"
    case JBool(b) => if b then "true" else "false"
    case JInt(i) => PyText.IntToDecimal(i)
    case JString(s) => s
    case JArray(items) => JoinComma(seq(|items|, k requires 0 <= k < |items| =>
                                          if items[k].JNull? then "" else JsString(items[k])))
    case JObject(_) => "[object Object]"
  }

  /** `Array.prototype.join` with the default comma. */
  function JoinComma(parts: seq<string>): string {
    if |parts| == 0 then "" else if |parts| == 1 then parts[0] else parts[0] + "," + JoinComma(parts[1..])
  }

  // ---------------------------------------------------------------------------
  // Forms

  /** A `FormData`: its entries in the order they were appended. */
  type Form = seq<(string, string)>

  /** The object `formDataToObject` builds: entries assigned one after another. */
  function ObjectOf(entries: Form): Fields
    decreases |entries|
  {
    if entries == [] then []
    else
      var last := entries[|entries| - 1];
      Set(ObjectOf(entries[..|entries| - 1]), last.0, JString(last.1))
  }

  /** The value of the last entry named `key`. */
  function LastValue(entries: Form, key: string): Option<string>
    decreases |entries|
  {
    if entries == [] then None
    else if entries[|entries| - 1].0 == key then Some(entries[|entries| - 1].1)
    else LastValue(entries[..|entries| - 1], key)
  }

  /** A key that appears more than once keeps the value of its last entry. */
  lemma {:induction false} ObjectOfLastWins(entries: Form, key: string)
    ensures LastValue(entries, key).None? ==> Get(ObjectOf(entries), key).None?
    ensures LastValue(entries, key).Some? ==> Get(ObjectOf(entries), key) == Some(JString(LastValue(entries, key).value))
    decreases |entries|
  {
    if entries != [] {
      ObjectOfLastWins(entries[..|entries| - 1], key);
    }
  }

  /** `formDataToObject`. */
  method FormDataToObject(entries: Form) returns (obj: Fields)
    ensures obj == ObjectOf(entries)
  {
    obj := [];
    var i := 0;
    while i < |entries|
      invariant 0 <= i <= |entries|
      invariant obj == ObjectOf(entries[..i])
    {
      assert entries[..i + 1][..i] == entries[..i];
      obj := Set(obj, entries[i].0, JString(entries[i].1));
      i := i + 1;
    }
    assert entries[..i] == entries;
  }

  /** The record `storeLocally` queues: the form's fields plus the id, the flag and the time. */
  function Stamped(form: Form, now: int, iso: string): Fields {
    Set(Set(Set(ObjectOf(form), "id", JInt(now)), "stored_locally", JBool(true)), "submitted_at", JString(iso))
  }

  /** A queued record carries the clock's id, the local flag and the time, and every other field of the form. */
  lemma StampedFields(form: Form, now: int, iso: string, key: string)
    ensures var r := Stamped(form, now, iso);
      && Get(r, "id") == Some(JInt(now))
      && Get(r, "stored_locally") == Some(JBool(true))
      && Get(r, "submitted_at") == Some(JString(iso))
      && (key != "id" && key != "stored_locally" && key != "submitted_at" ==> Get(r, key) == Get(ObjectOf(form), key))
  {
  }

  /** The object `storeLocally` answers with. */
  function StoredReply(now: int): JSON {
    JObject([("success", JBool(true)), ("message", JString("Stored locally - will sync when server is available")),
             ("id", JInt(now)), ("stored_locally", JBool(true))])
  }

  // ---------------------------------------------------------------------------
  // Network

  /** What `fetch` gave: a rejected promise, or a response with its `ok` flag and its parsed body. */
  datatype FetchOutcome = Threw | Responded(ok: bool, body: Option<JSON>)

  /** The response `submitToAPI` accepts: ok, with a body that parses. */
  predicate Answers(o: FetchOutcome) {
    o.Responded? && o.ok && o.body.Some?
  }

  datatype JsError = AllEndpointsFailed | LocalStorageFailed | TypeError

  /** The body of the first endpoint that answers, if any. */
  function FirstAnswer(net: (string, Form) -> FetchOutcome, form: Form, endpoints: seq<string>): (r: Option<JSON>)
    ensures r.None? <==> forall k :: 0 <= k < |endpoints| ==> !Answers(net(endpoints[k], form))
    ensures r.Some? ==> exists k :: 0 <= k < |endpoints| && net(endpoints[k], form) == Responded(true, r)
                                   && forall j :: 0 <= j < k ==> !Answers(net(endpoints[j], form))
  {
    if endpoints == [] then None
    else if Answers(net(endpoints[0], form)) then net(endpoints[0], form).body
    else
      var r := FirstAnswer(net, form, endpoints[1..]);
      if r.Some? then
        var k :| 0 <= k < |endpoints[1..]| && net(endpoints[1..][k], form) == Responded(true, r)
                 && forall j :: 0 <= j < k ==> !Answers(net(endpoints[1..][j], form));
        assert net(endpoints[k + 1], form) == Responded(true, r);
        assert forall j :: 1 <= j < k + 1 ==> endpoints[j] == endpoints[1..][j - 1];
        r
      else r
  }

  /** The body makes `submitNews` return it rather than queue: an object-like value whose `success` is true. */
  predicate Succeeded(body: JSON) {
    !body.JNull? && JsTruthy(Prop(body, "success"))
  }

  // ---------------------------------------------------------------------------
  // Stored list operations as values

  /** `localStorage.getItem(key)` under the manager's key. */
  datatype Slot = Absent | Stored(value: JSON) | Unparsable

  /** `getStoredSubmissions`: the parsed list; nothing stored or text that does not parse reads as `[]`. */
  function ReadSlot(slot: Slot): (r: JSON)
    ensures !slot.Stored? ==> r == JArray([])
  {
    if slot.Stored? then slot.value else JArray([])
  }

  /** `item.id` for a stored item that is not null. */
  function ItemId(item: JSON): Option<JSON> {
    Prop(item, "id")
  }

  /** The filter's test `item => item.id !== id`. */
  function KeepsOther(id: Option<JSON>): JSON -> bool {
    item => !StrictEq(ItemId(item), id)
  }

  /** `stored.filter(item => item.id !== id)`. */
  function Removal(items: seq<JSON>, id: Option<JSON>): (r: seq<JSON>)
    ensures |r| <= |items|
  {
    SeqFacts.Filter(items, KeepsOther(id))
  }

  /** Exactly the items with that id go; all others stay. */
  lemma RemovalMembers(items: seq<JSON>, id: Option<JSON>, x: JSON)
    ensures x in Removal(items, id) <==> x in items && !StrictEq(ItemId(x), id)
  {
    SeqFacts.FilterMembers(items, KeepsOther(id), x);
  }

  /** Removal keeps the relative order: it distributes over concatenation. */
  lemma RemovalAppend(a: seq<JSON>, b: seq<JSON>, id: Option<JSON>)
    ensures Removal(a + b, id) == Removal(a, id) + Removal(b, id)
  {
    SeqFacts.FilterAppend(a, b, KeepsOther(id));
  }

  /** `item => item.stored_locally`, for an item that is not null. */
  predicate Flagged(item: JSON) {
    item.JObject? && JsTruthy(Get(item.fields, "stored_locally"))
  }

  /** The items `syncStoredSubmissions` replays: `stored.filter(item => item.stored_locally)`. */
  function Locals(items: seq<JSON>): (r: seq<JSON>)
    ensures forall k :: 0 <= k < |r| ==> r[k].JObject? && JsTruthy(Get(r[k].fields, "stored_locally"))
  {
    SeqFacts.FilterKeeps(items, Flagged);
    SeqFacts.Filter(items, Flagged)
  }

  /** Every flagged object is replayed, and nothing else. */
  lemma LocalsMembers(items: seq<JSON>, x: JSON)
    ensures x in Locals(items) <==> x in items && x.JObject? && JsTruthy(Get(x.fields, "stored_locally"))
  {
    SeqFacts.FilterMembers(items, Flagged, x);
  }

  /** The replay keeps the stored order: it distributes over concatenation. */
  lemma LocalsAppend(a: seq<JSON>, b: seq<JSON>)
    ensures Locals(a + b) == Locals(a) + Locals(b)
  {
    SeqFacts.FilterAppend(a, b, Flagged);
  }

  /** The form `syncStoredSubmissions` rebuilds from a record: every other field, as text. */
  function SyncForm(fields: Fields): (f: Form)
    ensures forall k :: 0 <= k < |f| ==> f[k].0 != "id" && f[k].0 != "stored_locally"
  {
    if fields == [] then []
    else (if fields[0].0 != "id" && fields[0].0 != "stored_locally" then [(fields[0].0, JsString(fields[0].1))] else [])
         + SyncForm(fields[1..])
  }

  /** A queued record's own fields survive into the replayed form. */
  lemma {:induction false} SyncFormKeeps(fields: Fields, key: string, v: JSON)
    requires (key, v) in fields && key != "id" && key != "stored_locally"
    ensures (key, JsString(v)) in SyncForm(fields)
  {
    if fields[0] != (key, v) {
      assert (key, v) in fields[1..];
      SyncFormKeeps(fields[1..], key, v);
    }
  }

  /** The backend accepts a replayed record: its first answer reports success. */
  predicate Accepted(sub: JSON, net: (string, Form) -> FetchOutcome, endpoints: seq<string>)
    requires sub.JObject?
  {
    var answer := FirstAnswer(net, SyncForm(sub.fields), endpoints);
    answer.Some? && Succeeded(answer.value)
  }

  /** The list after replaying one record: without its id when accepted, as it was otherwise. */
  function AfterReplay(items: seq<JSON>, sub: JSON, net: (string, Form) -> FetchOutcome, endpoints: seq<string>): seq<JSON>
    requires sub.JObject?
  {
    if Accepted(sub, net, endpoints) then Removal(items, ItemId(sub)) else items
  }

  /** The list after replaying `subs` in order. */
  function SyncFold(items: seq<JSON>, subs: seq<JSON>, net: (string, Form) -> FetchOutcome, endpoints: seq<string>): seq<JSON>
    requires forall k :: 0 <= k < |subs| ==> subs[k].JObject?
    decreases |subs|
  {
    if subs == [] then items
    else SyncFold(AfterReplay(items, subs[0], net, endpoints), subs[1..], net, endpoints)
  }

  /** Replaying never adds an item: what is left was stored before. */
  lemma {:induction false} SyncFoldShrinks(items: seq<JSON>, subs: seq<JSON>, net: (string, Form) -> FetchOutcome,
                                           endpoints: seq<string>, x: JSON)
    requires forall k :: 0 <= k < |subs| ==> subs[k].JObject?
    requires x in SyncFold(items, subs, net, endpoints)
    ensures x in items
    decreases |subs|
  {
    if subs != [] {
      var next := AfterReplay(items, subs[0], net, endpoints);
      assert forall k :: 0 <= k < |subs[1..]| ==> subs[1..][k] == subs[k + 1];
      SyncFoldShrinks(next, subs[1..], net, endpoints, x);
      if Accepted(subs[0], net, endpoints) {
        RemovalMembers(items, ItemId(subs[0]), x);
      }
    }
  }

  /** When the backend accepts none of the replayed records, the list stays as it was. */
  lemma {:induction false} SyncFoldNoneAccepted(items: seq<JSON>, subs: seq<JSON>, net: (string, Form) -> FetchOutcome,
                                                endpoints: seq<string>)
    requires forall k :: 0 <= k < |subs| ==> subs[k].JObject? && !Accepted(subs[k], net, endpoints)
    ensures SyncFold(items, subs, net, endpoints) == items
    decreases |subs|
  {
    if subs != [] {
      assert forall k :: 0 <= k < |subs[1..]| ==> subs[1..][k] == subs[k + 1];
      SyncFoldNoneAccepted(items, subs[1..], net, endpoints);
    }
  }

  /** Once the backend accepts a replayed record, no item with its id is left. */
  lemma {:induction false} SyncFoldRemovesAccepted(items: seq<JSON>, subs: seq<JSON>, net: (string, Form) -> FetchOutcome,
                                                   endpoints: seq<string>, sub: JSON, x: JSON)
    requires forall j :: 0 <= j < |subs| ==> subs[j].JObject?
    requires sub in subs && sub.JObject? && Accepted(sub, net, endpoints)
    requires x in SyncFold(items, subs, net, endpoints)
    ensures !StrictEq(ItemId(x), ItemId(sub))
    decreases |subs|
  {
    var next := AfterReplay(items, subs[0], net, endpoints);
    var tail := subs[1..];
    assert forall j :: 0 <= j < |tail| ==> tail[j] == subs[j + 1];
    if subs[0] == sub {
      SyncFoldShrinks(next, tail, net, endpoints, x);
      RemovalMembers(items, ItemId(sub), x);
    } else {
      assert subs == [subs[0]] + tail;
      SyncFoldRemovesAccepted(next, tail, net, endpoints, sub, x);
    }
  }

  /** A stored record that shares its id with no accepted replay stays in the list. */
  lemma {:induction false} SyncFoldKeepsUnaccepted(items: seq<JSON>, subs: seq<JSON>, net: (string, Form) -> FetchOutcome,
                                                   endpoints: seq<string>, x: JSON)
    requires forall k :: 0 <= k < |subs| ==> subs[k].JObject?
    requires x in items
    requires forall s :: s in subs && s.JObject? && Accepted(s, net, endpoints) ==> !StrictEq(ItemId(x), ItemId(s))
    ensures x in SyncFold(items, subs, net, endpoints)
    decreases |subs|
  {
    if subs != [] {
      var next := AfterReplay(items, subs[0], net, endpoints);
      var tail := subs[1..];
      assert forall k :: 0 <= k < |tail| ==> tail[k] == subs[k + 1];
      if Accepted(subs[0], net, endpoints) {
        RemovalMembers(items, ItemId(subs[0]), x);
      }
      assert x in next;
      SyncFoldKeepsUnaccepted(next, tail, net, endpoints, x);
    }
  }

  /**
   * The list after the replay holds exactly the stored records that share
   * their id with no accepted replay.
   */
  lemma SyncFoldMembers(items: seq<JSON>, subs: seq<JSON>, net: (string, Form) -> FetchOutcome,
                        endpoints: seq<string>, x: JSON)
    requires forall k :: 0 <= k < |subs| ==> subs[k].JObject?
    ensures x in SyncFold(items, subs, net, endpoints) <==>
      x in items && forall s :: s in subs && s.JObject? && Accepted(s, net, endpoints) ==> !StrictEq(ItemId(x), ItemId(s))
  {
    if x in SyncFold(items, subs, net, endpoints) {
      SyncFoldShrinks(items, subs, net, endpoints, x);
      forall s | s in subs && s.JObject? && Accepted(s, net, endpoints)
        ensures !StrictEq(ItemId(x), ItemId(s))
      {
        SyncFoldRemovesAccepted(items, subs, net, endpoints, s, x);
      }
    } else if x in items && forall s :: s in subs && s.JObject? && Accepted(s, net, endpoints) ==> !StrictEq(ItemId(x), ItemId(s)) {
      SyncFoldKeepsUnaccepted(items, subs, net, endpoints, x);
    }
  }

  /**
   * What `syncStoredSubmissions` leaves in storage. Reading `stored_locally` of
   * a null item throws before anything is sent; so does a stored value that
   * is not a list.
   */
  function SyncSlot(slot: Slot, net: (string, Form) -> FetchOutcome, endpoints: seq<string>): Slot {
    var stored := ReadSlot(slot);
    if !stored.JArray? || JNull in stored.items then slot
    else
      var locals := Locals(stored.items);
      if locals == [] then slot
      else Stored(JArray(SyncFold(stored.items, locals, net, endpoints)))
  }

  /** Nothing queued, nothing written. */
  lemma SyncWithoutLocalsKeepsSlot(slot: Slot, net: (string, Form) -> FetchOutcome, endpoints: seq<string>)
    requires ReadSlot(slot).JArray? && Locals(ReadSlot(slot).items) == []
    ensures SyncSlot(slot, net, endpoints) == slot
  {
  }

  /** A total of the two lists' `length`s; `None` stands for `NaN`, when either has no length. */
  datatype Listing = Listing(remote: JSON, local: JSON, total: Option<int>)

  /** `.length` of a list or a string (UTF-16 code units); anything else is `undefined`. */
  function JsLength(v: JSON): Option<int> {
    if v.JArray? then Some(|v.items|)
    else if v.JString? then Some(Utf16Length(v.s))
    else None
  }

  function Utf16Length(s: string): nat {
    if s == [] then 0 else (if s[0] as int >= 0x10000 then 2 else 1) + Utf16Length(s[1..])
  }

  /** `result.submissions || []` of the listing response; a null body throws and is caught, leaving `[]`. */
  function RemoteSubmissions(o: FetchOutcome): JSON {
    if o.Responded? && o.ok && o.body.Some? && !o.body.value.JNull? && JsTruthy(Prop(o.body.value, "submissions"))
    then Prop(o.body.value, "submissions").value
    else JArray([])
  }

  /**
   * The object `getAllSubmissions` resolves to. The remote part is never
   * null (`|| []` replaces it), but a stored `null` has no `.length`, and that
   * TypeError, outside the `try`, rejects the whole call.
   */
  function ListingOf(remote: FetchOutcome, stored: JSON): (r: Result<Listing, JsError>)
    ensures r.Err? <==> stored.JNull?
    ensures r.Err? ==> r.error == TypeError
    ensures r.Ok? ==> r.value.local == stored && JsTruthy(Some(r.value.remote))
    ensures r.Ok? && r.value.remote.JArray? && stored.JArray? ==>
      r.value.total == Some(|r.value.remote.items| + |stored.items|)
  {
    if stored.JNull? then Err(TypeError)
    else
      var rem := RemoteSubmissions(remote);
      var n, m := JsLength(rem), JsLength(stored);
      Ok(Listing(rem, stored, if n.Some? && m.Some? then Some(n.value + m.value) else None))
  }

  /** A failed listing request still shows every queued record, with the total counting them. */
  lemma ListingWhenOffline(stored: seq<JSON>)
    ensures ListingOf(Threw, JArray(stored)) == Ok(Listing(JArray([]), JArray(stored), Some(|stored|)))
  {
  }

  // ---------------------------------------------------------------------------
  // The manager

  class NotiflyDataManager {
    const apiBase: string
    var storage: Slot

    constructor(slot: Slot)
      ensures apiBase == "http://localhost:5000/api" && storage == slot
    {
      apiBase := "http://localhost:5000/api";
      storage := slot;
    }

    /** The endpoints `submitToAPI` tries, in order. */
    function Endpoints(): (e: seq<string>)
      reads this
      ensures |e| == 3
      ensures e[0] == apiBase + "/submit-news" && e[1] == "/api/submit-news" && e[2] == "/submit"
    {
      [apiBase + "/submit-news", "/api/submit-news", "/submit"]
    }

    /** `getStoredSubmissions`. */
    function GetStoredSubmissions(): JSON
      reads this
    {
      ReadSlot(storage)
    }

    /** `submitToAPI`: the body of the first endpoint that answers; `None` is the thrown 'All API endpoints failed'. */
    method SubmitToAPI(form: Form, net: (string, Form) -> FetchOutcome) returns (result: Option<JSON>)
      ensures result == FirstAnswer(net, form, Endpoints())
    {
      var endpoints := Endpoints();
      var i := 0;
      while i < |endpoints|
        invariant 0 <= i <= |endpoints|
        invariant FirstAnswer(net, form, endpoints) == FirstAnswer(net, form, endpoints[i..])
      {
        var response := net(endpoints[i], form);
        if response.Responded? && response.ok && response.body.Some? {
          return response.body;
        }
        assert endpoints[i..][1..] == endpoints[i + 1..];
        i := i + 1;
      }
      return None;
    }

    /**
     * `storeLocally`: the stamped record is appended to the stored list. A stored
     * value that is not a list has no `push`; the call then throws and nothing
     * is written.
     */
    method StoreLocally(form: Form, now: int, iso: string) returns (r: Result<JSON, JsError>)
      modifies this
      ensures var stored := ReadSlot(old(storage));
        if stored.JArray? then
          r == Ok(StoredReply(now)) && storage == Stored(JArray(stored.items + [JObject(Stamped(form, now, iso))]))
        else
          r == Err(LocalStorageFailed) && storage == old(storage)
    {
      var data := FormDataToObject(form);
      data := Set(data, "id", JInt(now));
      data := Set(data, "stored_locally", JBool(true));
      data := Set(data, "submitted_at", JString(iso));
      var stored := GetStoredSubmissions();
      if !stored.JArray? {
        return Err(LocalStorageFailed);
      }
      storage := Stored(JArray(stored.items + [JObject(data)]));
      return Ok(StoredReply(now));
    }

    /** `submitNews`: the backend's answer when it reports success, otherwise the form is queued. */
    method SubmitNews(form: Form, net: (string, Form) -> FetchOutcome, now: int, iso: string)
      returns (r: Result<JSON, JsError>)
      modifies this
      ensures var answer := FirstAnswer(net, form, Endpoints());
        var stored := ReadSlot(old(storage));
        if answer.Some? && Succeeded(answer.value) then
          r == Ok(answer.value) && storage == old(storage)
        else if stored.JArray? then
          r == Ok(StoredReply(now)) && storage == Stored(JArray(stored.items + [JObject(Stamped(form, now, iso))]))
        else
          r == Err(LocalStorageFailed) && storage == old(storage)
    {
      var response := SubmitToAPI(form, net);
      if response.Some? && !response.value.JNull? && JsTruthy(Prop(response.value, "success")) {
        return Ok(response.value);
      }
      r := StoreLocally(form, now, iso);
    }

    /** `removeStoredSubmission`: a null item makes `item.id` throw, and then nothing is written. */
    method RemoveStoredSubmission(id: Option<JSON>) returns (r: Result<(), JsError>)
      modifies this
      ensures var stored := ReadSlot(old(storage));
        if stored.JArray? && JNull !in stored.items then
          r.Ok? && storage == Stored(JArray(Removal(stored.items, id)))
        else
          r == Err(TypeError) && storage == old(storage)
    {
      var stored := GetStoredSubmissions();
      if !stored.JArray? || JNull in stored.items {
        return Err(TypeError);
      }
      storage := Stored(JArray(Removal(stored.items, id)));
      return Ok(());
    }

    /** `syncStoredSubmissions`: each queued record is posted again and removed by id once accepted. */
    method SyncStoredSubmissions(net: (string, Form) -> FetchOutcome)
      modifies this
      ensures storage == SyncSlot(old(storage), net, Endpoints())
    {
      var stored := GetStoredSubmissions();
      if !stored.JArray? || JNull in stored.items {
        return;
      }
      var locals := Locals(stored.items);
      if |locals| == 0 {
        return;
      }
      ghost var items := stored.items;
      var i := 0;
      while i < |locals|
        invariant 0 <= i <= |locals|
        invariant storage.Stored? && storage.value.JArray? && JNull !in storage.value.items
        invariant SyncFold(items, locals, net, Endpoints()) == SyncFold(storage.value.items, locals[i..], net, Endpoints())
      {
        var submission := locals[i];
        var form := SyncForm(submission.fields);
        var result := SubmitToAPI(form, net);
        assert locals[i..][0] == submission && locals[i..][1..] == locals[i + 1..];
        if result.Some? && !result.value.JNull? && JsTruthy(Prop(result.value, "success")) {
          ghost var before := storage.value.items;
          var _ := RemoveStoredSubmission(ItemId(submission));
          assert JNull !in storage.value.items by {
            RemovalMembers(before, ItemId(submission), JNull);
          }
        }
        i := i + 1;
      }
    }

    /** `getAllSubmissions`, given what the listing request gave. */
    function GetAllSubmissions(remote: FetchOutcome): (r: Result<Listing, JsError>)
      reads this
      ensures r.Err? <==> storage == Stored(JNull)
      ensures r.Err? ==> r.error == TypeError
      ensures r.Ok? ==> r.value.local == GetStoredSubmissions()
    {
      ListingOf(remote, GetStoredSubmissions())
    }
  }
}
