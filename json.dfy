/** JSON documents as stored in the database's JSON columns. */
module Json {
  import opened Common

  datatype Json =
    | JNull
    | JBool(b: bool)
    | JNum(n: real)
    | JStr(s: string)
    | JArr(items: seq<Json>)
    | JObj(entries: seq<Entry>)

  datatype Entry = Entry(key: string, value: Json)

  /** The value of the first entry with key `key`, as Python's dict lookup on parsed JSON. */
  function LookupEntries(entries: seq<Entry>, key: string): (r: Option<Json>)
    ensures r.Some? <==> exists i :: 0 <= i < |entries| && entries[i].key == key
    ensures r.Some? ==> exists i :: 0 <= i < |entries| && entries[i].key == key && entries[i].value == r.value
  {
    if |entries| == 0 then None
    else if entries[0].key == key then Some(entries[0].value)
    else
      var r := LookupEntries(entries[1..], key);
      assert forall i :: 1 <= i < |entries| ==> entries[i] == entries[1..][i - 1];
      r
  }

  /** `doc[key]`: a missing key or a document that is not an object is a `KeyError`/`TypeError`. */
  function Lookup(doc: Json, key: string): (r: Option<Json>)
    ensures r.Some? ==> doc.JObj?
  {
    if doc.JObj? then LookupEntries(doc.entries, key) else None
  }
}
