/**
 * JavaScript objects used as string-keyed records keep their keys in insertion order:
 * assigning a new key appends it, re-assigning keeps its place, `delete` removes it.
 * The session file's top-level records depend on this order (the first key is adopted
 * as the session id), so they are modelled with this map.
 */
module OrderedMaps {
  import opened Wrappers

  datatype Raw<V> = Raw(keys: seq<string>, values: map<string, V>) {
    ghost predicate Valid() {
      && Distinct(keys)
      && (forall k :: k in values <==> k in keys)
    }
  }

  ghost predicate Distinct(keys: seq<string>) {
    forall i, j :: 0 <= i < j < |keys| ==> keys[i] != keys[j]
  }

  type OMap<V> = m: Raw<V> | m.Valid() witness Raw([], map[])

  function Empty<V>(): (m: OMap<V>)
    ensures |m.keys| == 0
  {
    Raw([], map[])
  }

  function Lookup<V>(m: OMap<V>, k: string): (r: Option<V>)
    ensures r.Some? <==> k in m.keys
  {
    if k in m.values then Some(m.values[k]) else None
  }

  /** `Object.keys(m)[0]`, when there is one. */
  function FirstKey<V>(m: OMap<V>): (r: Option<string>)
    ensures r.Some? <==> |m.keys| > 0
    ensures r.Some? ==> r.value in m.keys
  {
    if |m.keys| > 0 then Some(m.keys[0]) else None
  }

  /** `m[k] = v`. */
  function Put<V>(m: OMap<V>, k: string, v: V): (r: OMap<V>)
    ensures Lookup(r, k) == Some(v)
    ensures forall k' :: k' != k ==> Lookup(r, k') == Lookup(m, k')
    ensures k in m.keys ==> r.keys == m.keys
    ensures k !in m.keys ==> r.keys == m.keys + [k]
  {
    var r := Raw(if k in m.values then m.keys else m.keys + [k], m.values[k := v]);
    assert r.Valid();
    r
  }

  /** `delete m[k]`. */
  function Remove<V>(m: OMap<V>, k: string): (r: OMap<V>)
    ensures Lookup(r, k) == None
    ensures forall k' :: k' != k ==> Lookup(r, k') == Lookup(m, k')
  {
    RemoveKeyFacts(m.keys, k);
    var r := Raw(RemoveKey(m.keys, k), map k' | k' in m.values && k' != k :: m.values[k']);
    assert r.Valid();
    r
  }

  function RemoveKey(keys: seq<string>, k: string): seq<string>
  {
    if |keys| == 0 then []
    else if keys[0] == k then RemoveKey(keys[1..], k)
    else [keys[0]] + RemoveKey(keys[1..], k)
  }

  lemma {:induction false} RemoveKeyFacts(keys: seq<string>, k: string)
    requires Distinct(keys)
    ensures forall x :: x in RemoveKey(keys, k) <==> x in keys && x != k
    ensures Distinct(RemoveKey(keys, k))
  {
    if |keys| > 0 {
      RemoveKeyFacts(keys[1..], k);
      var rest := RemoveKey(keys[1..], k);
      if keys[0] != k {
        assert keys[0] !in keys[1..];
        assert keys[0] !in rest;
        var r := [keys[0]] + rest;
        forall i, j | 0 <= i < j < |r| ensures r[i] != r[j] {
          if i == 0 {
            assert r[j] == rest[j - 1];
          } else {
            assert r[i] == rest[i - 1] && r[j] == rest[j - 1];
          }
        }
      }
    }
  }
}
