/**
 * A parsed JSON value, as Python's `json.loads` and JavaScript's `JSON.parse`
 * hand it to the program: null, booleans, integers, strings, arrays and
 * objects. An object keeps its members in insertion order, the order in which
 * both languages iterate a dict or an object's keys.
 */
module JsonValue {
  import opened Wrappers

  datatype JSON =
    | JNull
    | JBool(b: bool)
    | JInt(i: int)
    | JString(s: string)
    | JArray(items: seq<JSON>)
    | JObject(fields: seq<(string, JSON)>)

  type Fields = seq<(string, JSON)>

  function Keys(fields: Fields): (ks: seq<string>)
    ensures |ks| == |fields| && forall i :: 0 <= i < |fields| ==> ks[i] == fields[i].0
  {
    if fields == [] then [] else [fields[0].0] + Keys(fields[1..])
  }

  /** `d.get(key)` / `obj[key]`: the value of the first member named `key`, if any. */
  function Get(fields: Fields, key: string): (r: Option<JSON>)
    ensures r.None? <==> key !in Keys(fields)
    ensures r.Some? ==> (key, r.value) in fields
  {
    if fields == [] then None
    else if fields[0].0 == key then Some(fields[0].1)
    else Get(fields[1..], key)
  }

  /** A member reads back when no member before it has the same key. */
  lemma {:induction false} GetAt(fields: Fields, i: nat)
    requires i < |fields| && forall j :: 0 <= j < i ==> fields[j].0 != fields[i].0
    ensures Get(fields, fields[i].0) == Some(fields[i].1)
  {
    if i > 0 {
      assert fields[1..][i - 1] == fields[i];
      GetAt(fields[1..], i - 1);
    }
  }

  /** No key occurs twice: what a dict or an object built by assignments looks like. */
  predicate DistinctKeys(fields: Fields) {
    forall i, j :: 0 <= i < j < |fields| ==> fields[i].0 != fields[j].0
  }

  /**
   * `d[key] = v` / `obj[key] = v`: an existing member keeps its position and
   * takes the new value; a new key is added at the end.
   */
  function Set(fields: Fields, key: string, v: JSON): (r: Fields)
    ensures Get(r, key) == Some(v)
    ensures forall k :: k != key ==> Get(r, k) == Get(fields, k)
  {
    if fields == [] then [(key, v)]
    else if fields[0].0 == key then [(key, v)] + fields[1..]
    else [fields[0]] + Set(fields[1..], key, v)
  }

  /** Assigning to a key never reorders the object and adds at most that key, at the end. */
  lemma {:induction false} SetKeys(fields: Fields, key: string, v: JSON)
    ensures key in Keys(fields) ==> Keys(Set(fields, key, v)) == Keys(fields)
    ensures key !in Keys(fields) ==> Keys(Set(fields, key, v)) == Keys(fields) + [key]
  {
    if fields != [] && fields[0].0 != key {
      SetKeys(fields[1..], key, v);
      assert Keys(fields) == [fields[0].0] + Keys(fields[1..]);
    }
  }
}
