/**
 * Python's insertion-ordered `dict` and the list helpers the model shares: a key
 * keeps the position of its first insertion, and `update` adds new keys at the end.
 */
module Collections {

  predicate NoDuplicates<T(==)>(s: seq<T>) {
    forall i, j :: 0 <= i < j < |s| ==> s[i] != s[j]
  }

  function Reverse<T>(s: seq<T>): (r: seq<T>)
    ensures |r| == |s| && forall i :: 0 <= i < |s| ==> r[i] == s[|s| - 1 - i]
  {
    if s == [] then [] else Reverse(s[1..]) + [s[0]]
  }

  /** A `dict`: its keys in insertion order, and the value of each key. */
  datatype Dict<K(==, !new), V> = Dict(keys: seq<K>, values: map<K, V>) {
    ghost predicate Valid() {
      NoDuplicates(keys) && forall k :: k in values <==> k in keys
    }
  }

  function Empty<K(==, !new), V>(): (d: Dict<K, V>)
    ensures d.Valid() && d.keys == []
  {
    Dict([], map[])
  }

  /** `d[k] = v`: an existing key keeps its place, a new one goes last. */
  function Put<K(==, !new), V>(d: Dict<K, V>, k: K, v: V): (r: Dict<K, V>)
    requires d.Valid()
    ensures r.Valid() && k in r.values && r.values[k] == v
    ensures forall j :: j in d.values && j != k ==> j in r.values && r.values[j] == d.values[j]
    ensures forall j :: j in r.values ==> j in d.values || j == k
    ensures |d.keys| <= |r.keys| && r.keys[..|d.keys|] == d.keys
    ensures k in d.keys ==> r.keys == d.keys
    ensures k !in d.keys ==> r.keys == d.keys + [k]
  {
    Dict(if k in d.keys then d.keys else d.keys + [k], d.values[k := v])
  }

  /** `d.update(e)`: each key of `e`, in `e`'s order, is put with its value from `e`. */
  function Update<K(==, !new), V>(d: Dict<K, V>, e: Dict<K, V>): Dict<K, V>
    requires d.Valid() && e.Valid()
  {
    PutAll(d, e.keys, e.values)
  }

  function PutAll<K(==, !new), V>(d: Dict<K, V>, ks: seq<K>, vals: map<K, V>): (r: Dict<K, V>)
    requires d.Valid() && forall k :: k in ks ==> k in vals
    ensures r.Valid()
    decreases |ks|
  {
    if ks == [] then d else PutAll(Put(d, ks[0], vals[ks[0]]), ks[1..], vals)
  }

  /**
   * `update` never removes or reorders the keys already present: the old keys are a
   * prefix of the new ones. Keys of `e` take `e`'s values, all others keep theirs.
   */
  lemma {:induction false} PutAllKeepsOrder<K(!new), V>(d: Dict<K, V>, ks: seq<K>, vals: map<K, V>)
    requires d.Valid() && forall k :: k in ks ==> k in vals
    ensures var r := PutAll(d, ks, vals);
      && |d.keys| <= |r.keys| && r.keys[..|d.keys|] == d.keys
      && (forall k :: k in r.values <==> k in d.values || k in ks)
      && (forall k :: k in ks ==> r.values[k] == vals[k])
      && (forall k :: k in d.values && k !in ks ==> r.values[k] == d.values[k])
    decreases |ks|
  {
    if ks != [] {
      var d' := Put(d, ks[0], vals[ks[0]]);
      PutAllKeepsOrder(d', ks[1..], vals);
      var r := PutAll(d', ks[1..], vals);
      assert r.keys[..|d'.keys|] == d'.keys;
      assert r.keys[..|d.keys|] == r.keys[..|d'.keys|][..|d.keys|];
      assert forall k :: k in ks ==> k == ks[0] || k in ks[1..];
    }
  }

  lemma UpdateKeepsOrder<K(!new), V>(d: Dict<K, V>, e: Dict<K, V>)
    requires d.Valid() && e.Valid()
    ensures var r := Update(d, e);
      && r.Valid() && |d.keys| <= |r.keys| && r.keys[..|d.keys|] == d.keys
      && (forall k :: k in r.values <==> k in d.values || k in e.values)
      && (forall k :: k in e.values ==> r.values[k] == e.values[k])
      && (forall k :: k in d.values && k !in e.values ==> r.values[k] == d.values[k])
  {
    PutAllKeepsOrder(d, e.keys, e.values);
  }

  /** `d.setdefault(k, []).append(x)`. */
  function AppendAt<K(==, !new), X>(d: Dict<K, seq<X>>, k: K, x: X): (r: Dict<K, seq<X>>)
    requires d.Valid()
    ensures r.Valid() && k in r.values
    ensures r.values[k] == (if k in d.values then d.values[k] else []) + [x]
    ensures forall j :: j != k ==> (j in r.values <==> j in d.values)
    ensures forall j :: j in d.values && j != k ==> r.values[j] == d.values[j]
    ensures k in d.keys ==> r.keys == d.keys
    ensures k !in d.keys ==> r.keys == d.keys + [k]
  {
    Put(d, k, (if k in d.values then d.values[k] else []) + [x])
  }

  /**
   * The key order of a `dict` after the keys `ks` are inserted one by one into one with
   * `keys`: each key not yet present goes last, so new keys come in the order first met.
   */
  function InsertKeys<K(==)>(keys: seq<K>, ks: seq<K>): seq<K>
    decreases |ks|
  {
    if ks == [] then keys else InsertKeys(if ks[0] in keys then keys else keys + [ks[0]], ks[1..])
  }

  /**
   * Inserting keeps the existing keys in front and adds each inserted key exactly once:
   * without duplicates before, none after.
   */
  lemma {:induction false} InsertKeysSpec<K>(keys: seq<K>, ks: seq<K>)
    ensures var r := InsertKeys(keys, ks);
      && |keys| <= |r| && r[..|keys|] == keys
      && (forall x :: x in r <==> x in keys || x in ks)
      && (NoDuplicates(keys) ==> NoDuplicates(r))
    decreases |ks|
  {
    if ks != [] {
      var next := if ks[0] in keys then keys else keys + [ks[0]];
      InsertKeysSpec(next, ks[1..]);
      var r := InsertKeys(next, ks[1..]);
      assert r[..|keys|] == r[..|next|][..|keys|];
      assert forall x :: x in ks <==> x == ks[0] || x in ks[1..];
    }
  }

  /** Inserting one more key after `ks` adds it last unless it is already there. */
  lemma {:induction false} InsertKeysSnoc<K>(keys: seq<K>, ks: seq<K>, k: K)
    ensures InsertKeys(keys, ks + [k]) == var r := InsertKeys(keys, ks); if k in r then r else r + [k]
    decreases |ks|
  {
    if ks != [] {
      var next := if ks[0] in keys then keys else keys + [ks[0]];
      assert (ks + [k])[1..] == ks[1..] + [k];
      InsertKeysSnoc(next, ks[1..], k);
    } else {
      assert ([k])[1..] == [];
    }
  }
}
