/**
 * A Python dict: a finite map together with the order in which its keys
 * were first inserted, which is the order `keys()`, `values()` and
 * `items()` iterate in.
 */
module Dicts {

  datatype Dict<K(==, !new), V> = Dict(keys: seq<K>, entries: map<K, V>) {

    /** Keys are listed once each and exactly the keys of the map are listed. */
    ghost predicate Valid() {
      && (forall i, j :: 0 <= i < j < |keys| ==> keys[i] != keys[j])
      && (forall k :: k in entries <==> k in keys)
    }

    /** `d[k] = v`: replaces the value in place, or appends a new key. */
    function Put(k: K, v: V): (d: Dict<K, V>)
      requires Valid()
      ensures d.Valid()
      ensures d.entries == entries[k := v]
      ensures k in entries ==> d.keys == keys
      ensures k !in entries ==> d.keys == keys + [k]
    {
      if k in entries then Dict(keys, entries[k := v]) else Dict(keys + [k], entries[k := v])
    }

    /** `d.values()` in iteration order. */
    function Values(): (vs: seq<V>)
      requires Valid()
      ensures |vs| == |keys|
      ensures forall i :: 0 <= i < |keys| ==> vs[i] == entries[keys[i]]
    {
      seq(|keys|, i requires 0 <= i < |keys| => entries[keys[i]])
    }
  }

  function Empty<K(==, !new), V>(): (d: Dict<K, V>)
    ensures d.Valid() && d.keys == [] && d.entries == map[]
  {
    Dict([], map[])
  }

  /** The dict with the same keys in the same order, each value mapped through `f`. */
  function MapValues<K(==, !new), V, W>(d: Dict<K, V>, f: V -> W): (r: Dict<K, W>)
    requires d.Valid()
    ensures r.Valid() && r.keys == d.keys
    ensures forall k :: k in d.entries ==> k in r.entries && r.entries[k] == f(d.entries[k])
  {
    Dict(d.keys, map k | k in d.entries :: f(d.entries[k]))
  }

  /** `r` holds the first `n` keys of `d`, in order, each value mapped through `f`. */
  ghost predicate MapsPrefix<K(!new), V, W>(d: Dict<K, V>, r: Dict<K, W>, n: nat, f: V -> W) {
    && n <= |d.keys|
    && r.Valid() && r.keys == d.keys[..n]
    && forall k :: k in r.entries ==> k in d.entries && r.entries[k] == f(d.entries[k])
  }

  /** Inserting the mapped value of the next key extends the prefix by one. */
  lemma MapsPrefixStep<K(!new), V, W>(d: Dict<K, V>, r: Dict<K, W>, n: nat, f: V -> W)
    requires d.Valid() && MapsPrefix(d, r, n, f) && n < |d.keys|
    ensures d.keys[n] in d.entries
    ensures MapsPrefix(d, r.Put(d.keys[n], f(d.entries[d.keys[n]])), n + 1, f)
  {
    var key := d.keys[n];
    assert key !in d.keys[..n];
    assert d.keys[..n + 1] == d.keys[..n] + [key];
  }

  /** A prefix covering every key is the mapped dict. */
  lemma MapsPrefixAll<K(!new), V, W>(d: Dict<K, V>, r: Dict<K, W>, f: V -> W)
    requires d.Valid() && MapsPrefix(d, r, |d.keys|, f)
    ensures r == MapValues(d, f)
  {
    assert d.keys[..|d.keys|] == d.keys;
    assert r.entries == MapValues(d, f).entries;
  }

  /** The dict that inserting `ks[i] := vs[i]` in turn builds from an empty one. */
  function PutAll<K(==, !new), V>(ks: seq<K>, vs: seq<V>): (d: Dict<K, V>)
    requires |ks| == |vs|
    ensures d.Valid()
    decreases |ks|
  {
    if ks == [] then Empty()
    else
      var n := |ks| - 1;
      PutAll(ks[..n], vs[..n]).Put(ks[n], vs[n])
  }

  /** One more insertion. */
  lemma PutAllSnoc<K(!new), V>(ks: seq<K>, vs: seq<V>, i: nat)
    requires |ks| == |vs| && i < |ks|
    ensures PutAll(ks[..i + 1], vs[..i + 1]) == PutAll(ks[..i], vs[..i]).Put(ks[i], vs[i])
  {
    assert ks[..i + 1][..i] == ks[..i];
    assert vs[..i + 1][..i] == vs[..i];
  }

  /** The keys are the inserted keys without repeats, in first-insertion order. */
  lemma {:induction false} PutAllKeys<K(!new), V>(ks: seq<K>, vs: seq<V>)
    requires |ks| == |vs|
    ensures PutAll(ks, vs).keys == Deduplicated(ks)
  {
    if ks != [] {
      var n := |ks| - 1;
      PutAllKeys(ks[..n], vs[..n]);
    }
  }

  /** Every value held was inserted. */
  lemma {:induction false} PutAllValues<K(!new), V>(ks: seq<K>, vs: seq<V>)
    requires |ks| == |vs|
    ensures forall k :: k in PutAll(ks, vs).entries ==> PutAll(ks, vs).entries[k] in vs
  {
    if ks != [] {
      var n := |ks| - 1;
      var before := PutAll(ks[..n], vs[..n]);
      PutAllValues(ks[..n], vs[..n]);
      assert vs == vs[..n] + [vs[n]];
      forall k | k in PutAll(ks, vs).entries ensures PutAll(ks, vs).entries[k] in vs {
        if k != ks[n] {
          assert PutAll(ks, vs).entries[k] == before.entries[k];
        }
      }
    }
  }

  /** A key not inserted again later holds the value of its last insertion. */
  lemma {:induction false} PutAllLast<K(!new), V>(ks: seq<K>, vs: seq<V>, i: nat)
    requires |ks| == |vs| && i < |ks|
    requires forall j :: i < j < |ks| ==> ks[j] != ks[i]
    ensures ks[i] in PutAll(ks, vs).entries && PutAll(ks, vs).entries[ks[i]] == vs[i]
  {
    var n := |ks| - 1;
    var init, rest := ks[..n], vs[..n];
    if i < n {
      assert forall j :: i < j < n ==> init[j] == ks[j];
      PutAllLast(init, rest, i);
      assert init[i] == ks[i] && rest[i] == vs[i];
    }
  }

  /** The elements of `s` without repeats, each at its first occurrence. */
  function Deduplicated<T(==, !new)>(s: seq<T>): (d: seq<T>)
    ensures forall x :: x in d <==> x in s
    ensures forall i, j :: 0 <= i < j < |d| ==> d[i] != d[j]
    ensures |d| <= |s|
  {
    if s == [] then []
    else
      var t := Deduplicated(s[..|s| - 1]);
      assert s == s[..|s| - 1] + [s[|s| - 1]];
      if s[|s| - 1] in t then t else t + [s[|s| - 1]]
  }

  /** Repeats are dropped exactly when the list has a duplicate. */
  lemma {:induction false} DeduplicatedShorter<T(!new)>(s: seq<T>)
    ensures |Deduplicated(s)| < |s| <==> exists i, j :: 0 <= i < j < |s| && s[i] == s[j]
  {
    if s != [] {
      var t := s[..|s| - 1];
      var x := s[|s| - 1];
      DeduplicatedShorter(t);
      if x in Deduplicated(t) {
        var i :| 0 <= i < |t| && t[i] == x;
        assert s[i] == s[|s| - 1];
      } else {
        assert x !in t;
        assert forall k :: 0 <= k < |t| ==> s[k] == t[k];
        if exists i, j :: 0 <= i < j < |s| && s[i] == s[j] {
          var i, j :| 0 <= i < j < |s| && s[i] == s[j];
          assert j < |t|;
          assert t[i] == t[j];
        }
        forall i, j | 0 <= i < j < |t| && t[i] == t[j] ensures s[i] == s[j] {
        }
      }
    }
  }

  /** The number of entries of a valid dict is the length of its key list. */
  lemma SizeIsKeyCount<K(!new), V>(d: Dict<K, V>)
    requires d.Valid()
    ensures |d.entries| == |d.keys|
  {
    DistinctCard(d.keys);
    assert d.entries.Keys == set k | k in d.keys;
  }

  lemma {:induction false} DistinctCard<K>(s: seq<K>)
    requires forall i, j :: 0 <= i < j < |s| ==> s[i] != s[j]
    ensures |set k | k in s| == |s|
  {
    if s != [] {
      var t := s[..|s| - 1];
      DistinctCard(t);
      assert (set k | k in s) == (set k | k in t) + {s[|s| - 1]};
      assert s[|s| - 1] !in t;
    }
  }
}
