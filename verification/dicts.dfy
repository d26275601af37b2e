/** Python dictionaries as association lists: a sequence of (key, value)
    pairs in insertion order, with no key twice. The order matters to the
    decompiler interface because it returns the first function whose range
    holds an address and because later writes overwrite earlier ones. */
module Dicts {
  import opened Wrappers

  ghost predicate DistinctKeys<K, V>(d: seq<(K, V)>) {
    forall i, j :: 0 <= i < j < |d| ==> d[i].0 != d[j].0
  }

  /** A Python `dict`: insertion-ordered, keys unique. */
  type Dict<K, V> = d: seq<(K, V)> | DistinctKeys(d) witness []

  /** The keys in iteration order (`for k in d`). */
  function Keys<K, V>(d: seq<(K, V)>): (ks: seq<K>)
    ensures |ks| == |d|
    ensures forall i :: 0 <= i < |d| ==> ks[i] == d[i].0
  {
    if |d| == 0 then [] else [d[0].0] + Keys(d[1..])
  }

  /** The values in iteration order (`d.values()`). */
  function Values<K, V>(d: seq<(K, V)>): (vs: seq<V>)
    ensures |vs| == |d|
    ensures forall i :: 0 <= i < |d| ==> vs[i] == d[i].1
  {
    if |d| == 0 then [] else [d[0].1] + Values(d[1..])
  }

  /** The dictionary as a finite map; on a repeated key the last pair wins. */
  function ToMap<K, V>(d: seq<(K, V)>): map<K, V>
  {
    if |d| == 0 then map[] else ToMap(d[..|d| - 1])[d[|d| - 1].0 := d[|d| - 1].1]
  }

  lemma {:induction false} ToMapKeys<K, V>(d: seq<(K, V)>)
    ensures forall k :: k in ToMap(d) <==> exists i :: 0 <= i < |d| && d[i].0 == k
  {
    if |d| > 0 {
      var p := d[..|d| - 1];
      ToMapKeys(p);
      assert forall i :: 0 <= i < |p| ==> p[i] == d[i];
    }
  }

  /** In a dictionary the map holds, for each key, the value of its one pair. */
  lemma {:induction false} ToMapAt<K, V>(d: Dict<K, V>, i: nat)
    requires i < |d|
    ensures d[i].0 in ToMap(d) && ToMap(d)[d[i].0] == d[i].1
  {
    if i < |d| - 1 {
      var p: Dict<K, V> := d[..|d| - 1];
      ToMapAt(p, i);
    }
  }

  /** `d.get(k, None)`. */
  function Get<K(==), V>(d: Dict<K, V>, k: K): (r: Option<V>)
    ensures r.Some? <==> k in ToMap(d)
    ensures r.Some? ==> r.value == ToMap(d)[k]
  {
    ToMapKeys(d);
    if |d| == 0 then None
    else if d[0].0 == k then (ToMapAt(d, 0); Some(d[0].1))
    else
      var tail: Dict<K, V> := d[1..];
      ToMapKeys(tail);
      var r := Get(tail, k);
      if r.Some? then
        var i :| 0 <= i < |tail| && tail[i].0 == k;
        ToMapAt(tail, i);
        ToMapAt(d, i + 1);
        r
      else
        assert forall i :: 1 <= i < |d| ==> d[i].0 != k by {
          forall i | 1 <= i < |d| ensures d[i].0 != k {
            assert tail[i - 1] == d[i];
          }
        }
        r
  }

  /** The position of `k` in `d`, if `k` is a key of `d`. */
  function IndexOf<K(==), V>(d: seq<(K, V)>, k: K): (r: Option<nat>)
    ensures r.Some? ==> r.value < |d| && d[r.value].0 == k
    ensures r.None? ==> forall i :: 0 <= i < |d| ==> d[i].0 != k
  {
    if |d| == 0 then None
    else if d[|d| - 1].0 == k then Some(|d| - 1)
    else IndexOf(d[..|d| - 1], k)
  }

  /** `d[k] = v`: an existing key keeps its position and takes the new value,
      a new key is appended. */
  function Put<K(==), V>(d: Dict<K, V>, k: K, v: V): (r: Dict<K, V>)
    ensures ToMap(r) == ToMap(d)[k := v]
  {
    match IndexOf(d, k)
    case Some(i) =>
      ReplaceToMap(d, i, v);
      d[i := (k, v)]
    case None =>
      var r := d + [(k, v)];
      assert r[..|r| - 1] == d;
      r
  }

  lemma {:induction false} ReplaceToMap<K, V>(d: Dict<K, V>, i: nat, v: V)
    requires i < |d|
    ensures DistinctKeys(d[i := (d[i].0, v)])
    ensures ToMap(d[i := (d[i].0, v)]) == ToMap(d)[d[i].0 := v]
  {
    var r := d[i := (d[i].0, v)];
    if i == |d| - 1 {
      assert r[..|r| - 1] == d[..|d| - 1];
    } else {
      var p: Dict<K, V> := d[..|d| - 1];
      ReplaceToMap(p, i, v);
      assert r[..|r| - 1] == p[i := (p[i].0, v)];
      assert d[i].0 != d[|d| - 1].0;
    }
  }

  /** `d.update(e)`: every pair of `e`, in order, written into `d`. */
  function Update<K(==), V>(d: Dict<K, V>, e: Dict<K, V>): (r: Dict<K, V>)
    ensures ToMap(r) == ToMap(d) + ToMap(e)
    decreases |e|
  {
    if |e| == 0 then d
    else
      var init: Dict<K, V> := e[..|e| - 1];
      var last := e[|e| - 1];
      Put(Update(d, init), last.0, last.1)
  }

  /** Rewrites keys and values through injective-on-keys maps, as when a
      `Dict[str, Struct]` is read as a dict of artifacts keyed by name. */
  function Embed<K(!new), V, K2, V2>(d: Dict<K, V>, fk: K -> K2, fv: V -> V2): (r: Dict<K2, V2>)
    requires forall a, b :: fk(a) == fk(b) ==> a == b
    ensures |r| == |d|
    ensures forall i :: 0 <= i < |d| ==> r[i] == (fk(d[i].0), fv(d[i].1))
  {
    var r := seq(|d|, i requires 0 <= i < |d| => (fk(d[i].0), fv(d[i].1)));
    assert DistinctKeys(r);
    r
  }

  /** The position of the pair that gives a key of the map. */
  lemma PairOf<K, V>(d: Dict<K, V>, k: K) returns (i: nat)
    requires k in ToMap(d)
    ensures i < |d| && d[i].0 == k
  {
    ToMapKeys(d);
    i :| 0 <= i < |d| && d[i].0 == k;
  }

  /** Rewriting a dictionary rewrites its map: the same keys, through `fk`,
      bound to the same values, through `fv`. */
  lemma EmbedToMap<K(!new), V, K2, V2>(d: Dict<K, V>, fk: K -> K2, fv: V -> V2)
    requires forall a, b :: fk(a) == fk(b) ==> a == b
    ensures forall k :: k in ToMap(d) <==> fk(k) in ToMap(Embed(d, fk, fv))
    ensures forall k :: k in ToMap(d) ==> ToMap(Embed(d, fk, fv))[fk(k)] == fv(ToMap(d)[k])
    ensures forall k2 :: k2 in ToMap(Embed(d, fk, fv)) ==> exists k :: k in ToMap(d) && fk(k) == k2
  {
    var r := Embed(d, fk, fv);
    ToMapKeys(d);
    ToMapKeys(r);
    forall k | k in ToMap(d) ensures fk(k) in ToMap(r) && ToMap(r)[fk(k)] == fv(ToMap(d)[k]) {
      var i :| 0 <= i < |d| && d[i].0 == k;
      ToMapAt(d, i);
      ToMapAt(r, i);
    }
    forall k2 | k2 in ToMap(r) ensures exists k :: k in ToMap(d) && fk(k) == k2 {
      var i := PairOf(r, k2);
      assert d[i].0 in ToMap(d);
    }
  }
}
