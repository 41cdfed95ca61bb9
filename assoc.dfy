/** Score maps: a JavaScript object or a Python dict keyed by criterion id,
    as a list of (key, value) entries in enumeration order. */
module Assoc {
  import opened Util

  function Keys<V>(m: seq<(string, V)>): (r: seq<string>)
    ensures |r| == |m|
    ensures forall i :: 0 <= i < |m| ==> r[i] == m[i].0
  {
    if m == [] then [] else [m[0].0] + Keys(m[1..])
  }

  function Values<V>(m: seq<(string, V)>): (r: seq<V>)
    ensures |r| == |m|
    ensures forall i :: 0 <= i < |m| ==> r[i] == m[i].1
  {
    if m == [] then [] else [m[0].1] + Values(m[1..])
  }

  /** Object keys are unique. */
  predicate DistinctKeys<V>(m: seq<(string, V)>) {
    forall i, j :: 0 <= i < j < |m| ==> m[i].0 != m[j].0
  }

  /** `m[k]`: the value under `k`, or none (`undefined`, a `KeyError`). */
  function Get<V>(m: seq<(string, V)>, k: string): (r: Option<V>)
    ensures r.None? <==> k !in Keys(m)
    ensures r.Some? ==> exists i :: 0 <= i < |m| && m[i] == (k, r.value)
  {
    if m == [] then None
    else if m[0].0 == k then Some(m[0].1)
    else Get(m[1..], k)
  }

  /** `{...m, [k]: v}` or `d[k] = v`: an existing key keeps its place and takes
      the new value; a new key goes last. */
  function Put<V>(m: seq<(string, V)>, k: string, v: V): (r: seq<(string, V)>)
    ensures |r| == if k in Keys(m) then |m| else |m| + 1
  {
    if m == [] then [(k, v)]
    else if m[0].0 == k then [(k, v)] + m[1..]
    else [m[0]] + Put(m[1..], k, v)
  }

  lemma {:induction false} GetPut<V>(m: seq<(string, V)>, k: string, v: V, k': string)
    ensures Get(Put(m, k, v), k') == if k' == k then Some(v) else Get(m, k')
  {
    if m != [] && m[0].0 != k {
      GetPut(m[1..], k, v, k');
    }
  }

  /** The keys after `Put` are the old keys and `k`, still without repetition. */
  lemma {:induction false} PutKeys<V>(m: seq<(string, V)>, k: string, v: V)
    requires DistinctKeys(m)
    ensures DistinctKeys(Put(m, k, v))
    ensures forall k' :: k' in Keys(Put(m, k, v)) <==> k' == k || k' in Keys(m)
  {
    if m != [] && m[0].0 != k {
      PutKeys(m[1..], k, v);
      var r := Put(m[1..], k, v);
      assert Put(m, k, v) == [m[0]] + r;
      assert m[0].0 !in Keys(m[1..]);
      assert m[0].0 !in Keys(r);
      forall k' ensures k' in Keys([m[0]] + r) <==> k' == m[0].0 || k' in Keys(r) {
        assert Keys([m[0]] + r) == [m[0].0] + Keys(r);
      }
    } else if m != [] {
      assert Keys(Put(m, k, v)) == [k] + Keys(m[1..]);
      assert Keys(m) == [k] + Keys(m[1..]);
    }
  }

  /** Sum of the values of a numeric map, `sum(d.values())` and
      `Object.values(m).reduce((a, b) => a + b, 0)`. */
  function SumValues(m: seq<(string, real)>): real {
    Sum(Values(m))
  }

  lemma {:induction false} SumValuesCons(e: (string, real), m: seq<(string, real)>)
    ensures SumValues([e] + m) == e.1 + SumValues(m)
  {
    assert Values([e] + m) == [e.1] + Values(m);
    SumCons(e.1, Values(m));
  }

  lemma SumValuesSnoc(m: seq<(string, real)>)
    requires m != []
    ensures SumValues(m) == SumValues(m[..|m| - 1]) + m[|m| - 1].1
  {
    assert Values(m)[..|m| - 1] == Values(m[..|m| - 1]);
  }

  /** Replacing the value under an existing key changes the sum by the difference. */
  lemma {:induction false} SumValuesPut(m: seq<(string, real)>, k: string, v: real)
    requires DistinctKeys(m)
    ensures SumValues(Put(m, k, v)) == SumValues(m) - Get(m, k).GetOr(0.0) + v
  {
    if m == [] {
      assert SumValues([(k, v)]) == v by { SumValuesCons((k, v), []); }
    } else {
      SumValuesCons(m[0], m[1..]);
      assert m == [m[0]] + m[1..];
      if m[0].0 == k {
        SumValuesCons((k, v), m[1..]);
      } else {
        SumValuesPut(m[1..], k, v);
        SumValuesCons(m[0], Put(m[1..], k, v));
      }
    }
  }

  /** `Get` on a map with one more entry at the end. */
  lemma {:induction false} GetSnoc<V>(m: seq<(string, V)>, e: (string, V), k: string)
    ensures Get(m + [e], k) == if k in Keys(m) then Get(m, k) else if e.0 == k then Some(e.1) else None
  {
    if m == [] {
      assert m + [e] == [e];
    } else {
      assert (m + [e])[1..] == m[1..] + [e];
      assert Keys(m) == [m[0].0] + Keys(m[1..]);
      GetSnoc(m[1..], e, k);
    }
  }

  /** `keys.forEach(k => { m[k] = v; })` from an empty object. */
  function Fill<V>(keys: seq<string>, v: V): seq<(string, V)>
    decreases |keys|
  {
    if keys == [] then [] else Put(Fill(keys[..|keys| - 1], v), keys[|keys| - 1], v)
  }

  /** The filled map has one entry per distinct key, each holding `v`. */
  lemma {:induction false} FillAt<V>(keys: seq<string>, v: V)
    ensures DistinctKeys(Fill(keys, v))
    ensures forall k :: k in Keys(Fill(keys, v)) <==> k in keys
    ensures forall k :: k in keys ==> Get(Fill(keys, v), k) == Some(v)
    decreases |keys|
  {
    if keys != [] {
      var init, k0 := keys[..|keys| - 1], keys[|keys| - 1];
      FillAt(init, v);
      PutKeys(Fill(init, v), k0, v);
      assert keys == init + [k0];
      forall k | k in keys ensures Get(Fill(keys, v), k) == Some(v) {
        GetPut(Fill(init, v), k0, v, k);
      }
    }
  }

  /** The entries whose key is not `k`, in order. */
  function Without<V>(m: seq<(string, V)>, k: string): (r: seq<(string, V)>)
    ensures |r| <= |m|
    ensures forall e :: e in r ==> e in m && e.0 != k
    ensures DistinctKeys(m) ==> DistinctKeys(r)
    decreases |m|
  {
    if m == [] then []
    else
      var e := m[|m| - 1];
      var init := m[..|m| - 1];
      assert forall e' :: e' in init ==> e' in m;
      var w := Without(init, k);
      if e.0 == k then w
      else
        assert DistinctKeys(m) ==> forall e' :: e' in w ==> e'.0 != e.0 by {
          if DistinctKeys(m) {
            forall e' | e' in w ensures e'.0 != e.0 {
              var i :| 0 <= i < |init| && init[i] == e';
              assert m[i] == e';
            }
          }
        }
        w + [e]
  }
}
