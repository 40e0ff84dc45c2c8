/**
 JSON values as they come out of `JSON.parse`: a tagged variant over scalars,
 arrays and objects. An object is its ordered list of members (key, value),
 the order in which `Object.keys`, `Object.values` and `Object.entries` visit
 them. Numbers are modelled as integers.
 */
module Json {
  import opened Collections

  datatype Json =
    | JNull
    | JBool(b: bool)
    | JNum(n: int)
    | JStr(str: string)
    | JArr(items: seq<Json>)
    | JObj(members: seq<(string, Json)>)

  /** A string-keyed record such as `Record<string, unknown>`: an object's members. */
  type Record = seq<(string, Json)>

  /** `Object.keys(record)`. */
  function Keys(record: Record): (ks: seq<string>)
    ensures |ks| == |record|
    ensures forall i :: 0 <= i < |record| ==> ks[i] == record[i].0
  {
    if record == [] then [] else Keys(record[..|record| - 1]) + [record[|record| - 1].0]
  }

  /** `key in record`. */
  predicate HasKey(record: Record, key: string) {
    key in Keys(record)
  }

  /** `record[key]`: the value of the first member named `key`, if any. */
  function Get(record: Record, key: string): (r: Option<Json>)
    ensures r.Some? <==> HasKey(record, key)
    ensures r.Some? ==> (key, r.value) in record
  {
    if record == [] then None
    else if record[0].0 == key then Some(record[0].1)
    else
      assert Keys(record) == [record[0].0] + Keys(record[1..]);
      Get(record[1..], key)
  }
}
