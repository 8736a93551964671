/**
 Python's insertion-ordered `dict` with string keys: a key sequence in
 insertion order beside the mapping itself. Assigning to a present key keeps
 its position; a new key goes last.
 */
module OrderedDict {
  import opened Common

  datatype Dict<V> = Dict(keys: seq<string>, vals: map<string, V>)

  ghost predicate Valid<V>(d: Dict<V>)
  {
    && Distinct(d.keys)
    && (forall k :: k in d.vals <==> k in d.keys)
  }

  function Empty<V>(): (d: Dict<V>)
    ensures Valid(d)
    ensures d.keys == [] && d.vals == map[]
  {
    Dict([], map[])
  }

  /** `d[k] = v`. */
  function Put<V>(d: Dict<V>, k: string, v: V): (r: Dict<V>)
    requires Valid(d)
    ensures Valid(r)
    ensures k in r.vals && r.vals[k] == v
    ensures r.vals.Keys == d.vals.Keys + {k}
    ensures forall j :: j in d.vals && j != k ==> j in r.vals && r.vals[j] == d.vals[j]
    ensures |d.keys| <= |r.keys| && r.keys[..|d.keys|] == d.keys
    ensures |r.keys| == |d.keys| + (if k in d.vals then 0 else 1)
    ensures r.keys == if k in d.vals then d.keys else d.keys + [k]
  {
    if k in d.vals then Dict(d.keys, d.vals[k := v])
    else Dict(d.keys + [k], d.vals[k := v])
  }

  /** `del d[k]` on a present key: the other keys keep their relative order. */
  function Remove<V>(d: Dict<V>, k: string): (r: Dict<V>)
    requires Valid(d) && k in d.vals
    ensures Valid(r)
    ensures r.vals.Keys == d.vals.Keys - {k}
    ensures forall j :: j in r.vals ==> r.vals[j] == d.vals[j]
    ensures r.keys == Filter(d.keys, j => j != k)
  {
    var ks := Filter(d.keys, j => j != k);
    FilterDistinct(d.keys, j => j != k);
    Dict(ks, d.vals - {k})
  }

  lemma {:induction false} FilterDistinct(xs: seq<string>, keep: string -> bool)
    requires Distinct(xs)
    ensures Distinct(Filter(xs, keep))
  {
    if xs != [] {
      FilterDistinct(xs[1..], keep);
      assert xs[0] !in xs[1..];
    }
  }

  /** Three different keys put into an empty dict come out in insertion order. */
  lemma PutThree<V>(a: string, b: string, c: string, x: V, y: V, z: V)
    requires a != b && a != c && b != c
    ensures Put(Put(Put(Empty(), a, x), b, y), c, z) == Dict([a, b, c], map[a := x, b := y, c := z])
  {
    var d0: Dict<V> := Empty();
    PutFresh(d0, a, x);
    var d1 := Put(d0, a, x);
    assert d1.keys == [a];
    PutFresh(d1, b, y);
    var d2 := Put(d1, b, y);
    assert d2.keys == [a, b];
    PutFresh(d2, c, z);
  }

  /** Putting a new key appends it. */
  lemma PutFresh<V>(d: Dict<V>, k: string, v: V)
    requires Valid(d) && k !in d.vals
    ensures Put(d, k, v) == Dict(d.keys + [k], d.vals[k := v])
  {
  }
}
