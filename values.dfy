/** A Helm values tree: the `map[string]any` that YAML decoding produces. A
  * map is a sequence of entries in the order the code ranges over it (Go's
  * map order is unspecified, so every property below holds for any order). */
module HelmValues {
  import opened Wrappers

  /** A decoded YAML value: a string, a boolean, a nested map, anything else
    * (numbers, lists), or nil. */
  datatype Value = Str(s: string) | Bool(b: bool) | Map(entries: seq<Entry>) | Other | Nil

  datatype Entry = Entry(key: string, val: Value)

  predicate HasKey(m: seq<Entry>, k: string)
  {
    exists i :: 0 <= i < |m| && m[i].key == k
  }

  /** Go's `m[k]`: the value stored under `k`, or nil when the key is absent. */
  function Lookup(m: seq<Entry>, k: string): (v: Value)
    ensures !HasKey(m, k) ==> v == Nil
    ensures HasKey(m, k) ==>
              exists i :: 0 <= i < |m| && m[i].key == k && m[i].val == v
                          && forall j :: 0 <= j < i ==> m[j].key != k
  {
    if m == [] then Nil
    else if m[0].key == k then m[0].val
    else
      assert HasKey(m, k) ==> HasKey(m[1..], k) by {
        if HasKey(m, k) {
          var i :| 0 <= i < |m| && m[i].key == k;
          assert m[1..][i - 1].key == k;
        }
      }
      Lookup(m[1..], k)
  }

  /** The type assertion `v.(map[string]any)`: a map, or a runtime panic. */
  function AsMap(v: Value): (r: Result<seq<Entry>>)
    ensures r.Ok? <==> v.Map?
    ensures r.Ok? ==> r.value == v.entries
    ensures r.Err? ==> r.error == PanicConversion
  {
    match v
    case Map(m) => Ok(m)
    case _ => Err(PanicConversion)
  }
}
