/**
 * JSON values as the worker's `json` module reads and writes them; objects
 * keep their keys in insertion order, as Python dictionaries do.
 */
module Json {
  import opened Wrappers

  datatype Json =
    | Null
    | Bool(b: bool)
    | Number(n: int)
    | Str(s: string)
    | Arr(items: seq<Json>)
    | Obj(fields: seq<(string, Json)>)

  /** The keys of an object's fields, in order. */
  function Keys(fields: seq<(string, Json)>): (r: seq<string>)
    ensures |r| == |fields|
    ensures forall i :: 0 <= i < |fields| ==> r[i] == fields[i].0
  {
    if fields == [] then [] else Keys(fields[..|fields| - 1]) + [fields[|fields| - 1].0]
  }

  /**
   * `d.get(key)`: the value of the field named `key`, if any. A repeated key
   * keeps its last value, as `json.loads` does.
   */
  function Get(fields: seq<(string, Json)>, key: string): (r: Option<Json>)
    ensures r.Some? <==> key in Keys(fields)
  {
    if fields == [] then None
    else
      var last := fields[|fields| - 1];
      if last.0 == key then Some(last.1)
      else
        var r := Get(fields[..|fields| - 1], key);
        assert Keys(fields) == Keys(fields[..|fields| - 1]) + [last.0];
        r
  }

  /** A field that no later field overrides is what `get` returns for its key. */
  lemma {:induction false} GetAt(fields: seq<(string, Json)>, i: nat)
    requires i < |fields|
    requires forall j :: i < j < |fields| ==> fields[j].0 != fields[i].0
    ensures Get(fields, fields[i].0) == Some(fields[i].1)
    decreases |fields|
  {
    if i < |fields| - 1 {
      var prefix := fields[..|fields| - 1];
      assert prefix[i] == fields[i];
      GetAt(prefix, i);
    }
  }

  /** What `get` returns is the value of the last field with that key. */
  lemma {:induction false} GetReturnsLastField(fields: seq<(string, Json)>, key: string)
    requires key in Keys(fields)
    ensures exists i :: 0 <= i < |fields| && fields[i] == (key, Get(fields, key).value)
                        && forall j :: i < j < |fields| ==> fields[j].0 != key
    decreases |fields|
  {
    var n := |fields| - 1;
    if fields[n].0 != key {
      var prefix := fields[..n];
      assert Keys(fields) == Keys(prefix) + [fields[n].0];
      GetReturnsLastField(prefix, key);
      var i :| 0 <= i < |prefix| && prefix[i] == (key, Get(prefix, key).value)
               && forall j :: i < j < |prefix| ==> prefix[j].0 != key;
      assert fields[i] == prefix[i];
    }
  }
}
