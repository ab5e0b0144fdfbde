/** A stored record (one element of `data.profiles` or `data.petitions`) is a
    JavaScript object: a map from property names to values. */
module Records {
  import opened Wrappers
  import opened Json

  type Record = map<string, Value>

  /** `r[key]`: `undefined` when the property is absent. */
  function Get(r: Record, key: string): Value
  {
    if key in r then r[key] else Undefined
  }

  /** The object spread `{ ...base, ...updates }`: every property of either,
      the value from `updates` where both have one. */
  function Merge(base: Record, updates: Record): (r: Record)
    ensures r.Keys == base.Keys + updates.Keys
    ensures forall k :: k in updates ==> Get(r, k) == updates[k]
    ensures forall k :: k !in updates ==> Get(r, k) == Get(base, k)
  {
    base + updates
  }

  /** `s.findIndex(p => p[key] === v)`: the first index whose record has `v`
      under `key`, or -1 when there is none. */
  function FindIndex(s: seq<Record>, key: string, v: Value): (i: int)
    ensures -1 <= i < |s|
    ensures i >= 0 ==> Get(s[i], key) == v
    ensures forall j :: 0 <= j < |s| && (i == -1 || j < i) ==> Get(s[j], key) != v
  {
    if |s| == 0 then -1
    else if Get(s[0], key) == v then 0
    else
      var k := FindIndex(s[1..], key, v);
      if k == -1 then -1 else k + 1
  }

  /** The last index whose record has `v` under `key`, or -1 when there is none. */
  function FindLastIndex(s: seq<Record>, key: string, v: Value): (i: int)
    ensures -1 <= i < |s|
    ensures i >= 0 ==> Get(s[i], key) == v
    ensures forall j :: 0 <= j < |s| && i < j ==> Get(s[j], key) != v
  {
    if |s| == 0 then -1
    else if Get(s[|s| - 1], key) == v then |s| - 1
    else FindLastIndex(s[..|s| - 1], key, v)
  }

  /** `s.find(p => p[key] === v)`: the first matching record, if any. */
  function Find(s: seq<Record>, key: string, v: Value): (r: Option<Record>)
    ensures r.None? <==> forall j :: 0 <= j < |s| ==> Get(s[j], key) != v
    ensures r.Some? ==> exists i :: 0 <= i < |s| && s[i] == r.value && Get(s[i], key) == v
                                    && forall j :: 0 <= j < i ==> Get(s[j], key) != v
  {
    var i := FindIndex(s, key, v);
    if i == -1 then None else Some(s[i])
  }

  /** A record appended after records none of which match is what a lookup finds. */
  lemma FindAppended(s: seq<Record>, r: Record, key: string, v: Value)
    requires forall j :: 0 <= j < |s| ==> Get(s[j], key) != v
    requires Get(r, key) == v
    ensures Find(s + [r], key, v) == Some(r)
  {
    var t := s + [r];
    assert forall j :: 0 <= j < |s| ==> t[j] == s[j];
    assert t[|s|] == r;
  }
}
