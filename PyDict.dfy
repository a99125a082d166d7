// A Python dict with string keys, as the list of its items in insertion
// order. Assigning to a key that is present replaces its value where it
// stands; assigning to a new key appends it.
module PyDict {
  import opened Common

  type Dict<V> = seq<(string, V)>

  function Keys<V>(d: Dict<V>): (r: seq<string>)
    ensures |r| == |d| && forall i :: 0 <= i < |d| ==> r[i] == d[i].0
  {
    if d == [] then [] else Keys(d[..|d| - 1]) + [d[|d| - 1].0]
  }

  predicate DistinctKeys<V>(d: Dict<V>)
  {
    forall i, j :: 0 <= i < j < |d| ==> d[i].0 != d[j].0
  }

  /** d.get(k): the value stored under k, if any. */
  function Lookup<V>(d: Dict<V>, k: string): (r: Option<V>)
    ensures r.None? <==> k !in Keys(d)
  {
    if d == [] then None
    else if d[|d| - 1].0 == k then Some(d[|d| - 1].1)
    else Lookup(d[..|d| - 1], k)
  }

  /** d[k] = v. */
  function Set<V>(d: Dict<V>, k: string, v: V): Dict<V>
  {
    if k !in Keys(d) then d + [(k, v)]
    else if d[|d| - 1].0 == k then d[..|d| - 1] + [(k, v)]
    else Set(d[..|d| - 1], k, v) + [d[|d| - 1]]
  }

  /** After d[k] = v, k holds v and every other key holds what it held. */
  lemma {:induction false} SetLookup<V>(d: Dict<V>, k: string, v: V, k': string)
    ensures Lookup(Set(d, k, v), k') == if k' == k then Some(v) else Lookup(d, k')
  {
    var r := Set(d, k, v);
    if k !in Keys(d) {
      assert r[..|r| - 1] == d;
    } else if d[|d| - 1].0 != k {
      assert Keys(d) == Keys(d[..|d| - 1]) + [d[|d| - 1].0];
      assert r[..|r| - 1] == Set(d[..|d| - 1], k, v);
      SetLookup(d[..|d| - 1], k, v, k');
    }
  }

  /** d[k] = v keeps the key order: a present key stays where it is, a new
      key goes last. */
  lemma {:induction false} SetKeys<V>(d: Dict<V>, k: string, v: V)
    ensures k in Keys(d) ==> Keys(Set(d, k, v)) == Keys(d)
    ensures k !in Keys(d) ==> Keys(Set(d, k, v)) == Keys(d) + [k]
  {
    var r := Set(d, k, v);
    if k !in Keys(d) {
      assert Keys(r) == Keys(r[..|r| - 1]) + [k] && r[..|r| - 1] == d;
    } else {
      var p := d[..|d| - 1];
      assert Keys(d) == Keys(p) + [d[|d| - 1].0];
      if d[|d| - 1].0 == k {
        assert Keys(Set(d, k, v)) == Keys(p) + [k];
      } else {
        var r := Set(d, k, v);
        assert r[..|r| - 1] == Set(p, k, v);
        assert Keys(r) == Keys(Set(p, k, v)) + [d[|d| - 1].0];
        SetKeys(p, k, v);
      }
    }
  }

  /** Assignment keeps the keys distinct, as they are in a real dict. */
  lemma SetDistinct<V>(d: Dict<V>, k: string, v: V)
    requires DistinctKeys(d)
    ensures DistinctKeys(Set(d, k, v))
  {
    SetKeys(d, k, v);
    var r := Set(d, k, v);
    assert forall i :: 0 <= i < |d| ==> Keys(d)[i] == d[i].0;
    assert forall i :: 0 <= i < |r| ==> Keys(r)[i] == r[i].0;
  }

  /** d.update(e) written as a loop of assignments, item by item. */
  function Update<V>(d: Dict<V>, e: Dict<V>): Dict<V>
  {
    if e == [] then d else Set(Update(d, e[..|e| - 1]), e[|e| - 1].0, e[|e| - 1].1)
  }

  /** After an update a key holds e's value when e has it and d's value
      otherwise. */
  lemma {:induction false} UpdateLookup<V>(d: Dict<V>, e: Dict<V>, k: string)
    ensures Lookup(Update(d, e), k) == if Lookup(e, k).Some? then Lookup(e, k) else Lookup(d, k)
  {
    if e != [] {
      UpdateLookup(d, e[..|e| - 1], k);
      SetLookup(Update(d, e[..|e| - 1]), e[|e| - 1].0, e[|e| - 1].1, k);
    }
  }

  /** The dict with every value passed through f, keys unchanged. */
  function MapDict<V, W>(d: Dict<V>, f: V -> W): (r: Dict<W>)
    ensures |r| == |d| && forall i :: 0 <= i < |d| ==> r[i] == (d[i].0, f(d[i].1))
  {
    if d == [] then [] else MapDict(d[..|d| - 1], f) + [(d[|d| - 1].0, f(d[|d| - 1].1))]
  }

  lemma {:induction false} MapDictLookup<V, W>(d: Dict<V>, f: V -> W, k: string)
    ensures Lookup(MapDict(d, f), k) == if Lookup(d, k).Some? then Some(f(Lookup(d, k).value)) else None
  {
    if d != [] {
      var r := MapDict(d, f);
      assert r[..|r| - 1] == MapDict(d[..|d| - 1], f);
      MapDictLookup(d[..|d| - 1], f, k);
    }
  }
}
