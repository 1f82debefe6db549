/**
 * A Python dict: a finite map that also remembers the order in which keys
 * were first inserted, which is the order `items()` iterates in.
 */
module PyDict {

  /** No element occurs twice. */
  predicate Distinct<K(==)>(s: seq<K>) {
    forall i, j :: 0 <= i < j < |s| ==> Differ(s, i, j)
  }

  /** Positions i and j of s hold different elements. */
  predicate Differ<K(==)>(s: seq<K>, i: int, j: int) {
    0 <= i < |s| && 0 <= j < |s| && s[i] != s[j]
  }

  lemma DistinctAt<K>(s: seq<K>, i: int, j: int)
    requires Distinct(s) && 0 <= i < j < |s|
    ensures s[i] != s[j]
  {
    assert Differ(s, i, j);
  }

  /** Appending an element that is not yet present keeps a sequence distinct. */
  lemma DistinctSnoc<K>(s: seq<K>, x: K)
    ensures Distinct(s) && x !in s ==> Distinct(s + [x])
  {
    if Distinct(s) && x !in s {
      var t := s + [x];
      forall i, j | 0 <= i < j < |t|
        ensures Differ(t, i, j)
      {
        if j < |s| {
          DistinctAt(s, i, j);
        }
      }
    }
  }

  /** A distinct sequence without its last element is distinct and lacks that element. */
  lemma DistinctInit<K>(s: seq<K>)
    requires Distinct(s) && s != []
    ensures Distinct(s[..|s| - 1]) && s[|s| - 1] !in s[..|s| - 1]
  {
    var t := s[..|s| - 1];
    forall i, j | 0 <= i < j < |t|
      ensures Differ(t, i, j)
    {
      DistinctAt(s, i, j);
    }
    if s[|s| - 1] in t {
      var i :| 0 <= i < |t| && t[i] == s[|s| - 1];
      DistinctAt(s, i, |s| - 1);
    }
  }

  datatype Dict<K(!new), V> = Dict(keys: seq<K>, values: map<K, V>) {

    /** The key order lists every key of the map exactly once. */
    ghost predicate Valid() {
      && (forall k :: k in values <==> k in keys)
      && Distinct(keys)
    }
  }

  function Empty<K(!new), V>(): (d: Dict<K, V>)
    ensures d.Valid() && d.values == map[]
  {
    Dict([], map[])
  }

  /** `d[k] = v`: a new key goes last, an existing key keeps its place. */
  function Put<K(!new), V>(d: Dict<K, V>, k: K, v: V): (r: Dict<K, V>)
    ensures d.Valid() ==> r.Valid()
    ensures r.values == d.values[k := v]
    ensures r.keys == if k in d.values then d.keys else d.keys + [k]
  {
    DistinctSnoc(d.keys, k);
    if k in d.values then Dict(d.keys, d.values[k := v]) else Dict(d.keys + [k], d.values[k := v])
  }

  /** `list(d.items())`. */
  function Items<K(!new), V>(d: Dict<K, V>): (r: seq<(K, V)>)
    requires d.Valid()
    ensures |r| == |d.keys|
    ensures forall i :: 0 <= i < |r| ==> r[i].0 == d.keys[i] && r[i].1 == d.values[d.keys[i]]
  {
    seq(|d.keys|, i requires 0 <= i < |d.keys| => (d.keys[i], d.values[d.keys[i]]))
  }

  lemma {:induction false} DistinctCard<K(!new)>(s: seq<K>)
    requires Distinct(s)
    ensures |set x | x in s| == |s|
  {
    if s != [] {
      var t := s[..|s| - 1];
      DistinctInit(s);
      DistinctCard(t);
      assert (set x | x in s) == (set x | x in t) + {s[|s| - 1]};
    }
  }

  /** `len(d)` is the number of keys in the order list. */
  lemma {:induction false} LenKeys<K(!new), V>(d: Dict<K, V>)
    requires d.Valid()
    ensures |d.values| == |d.keys|
  {
    DistinctCard(d.keys);
    assert d.values.Keys == set x | x in d.keys;
  }
}
