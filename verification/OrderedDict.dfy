/** A dictionary that remembers insertion order: a key keeps its place until it is deleted. */
module OrderedDict {
  import opened Prelude

  datatype Dict<K(==), V> = Dict(order: seq<K>, at: map<K, V>) {

    ghost predicate Valid() {
      && Distinct(order)
      && (forall k :: k in order ==> k in at)
      && (forall k :: k in at ==> k in order)
    }

    function Put(k: K, v: V): Dict<K, V> {
      Dict(if k in at then order else order + [k], at[k := v])
    }

    function Delete(k: K): Dict<K, V> {
      Dict(Without(order, k), at - {k})
    }

    /** The values in insertion order. */
    function Values(): seq<V> {
      ValuesOf(order, at)
    }
  }

  /** A dictionary as a program holds one. */
  type SoundDict<K(==), V> = d: Dict<K, V> | d.Valid() witness Dict([], map[])

  function Without<K(==)>(s: seq<K>, k: K): seq<K> {
    if s == [] then []
    else
      var n := |s| - 1;
      Without(s[..n], k) + if s[n] == k then [] else [s[n]]
  }

  function ValuesOf<K(==), V>(order: seq<K>, at: map<K, V>): seq<V> {
    if order == [] then []
    else
      var n := |order| - 1;
      ValuesOf(order[..n], at) + if order[n] in at then [at[order[n]]] else []
  }

  function Empty<K(==), V>(): (d: Dict<K, V>)
    ensures d.Valid()
  {
    Dict([], map[])
  }

  lemma PutKeepsValid<K, V>(d: Dict<K, V>, k: K, v: V)
    requires d.Valid()
    ensures d.Put(k, v).Valid()
  {
  }

  lemma {:induction false} WithoutAbsent<K>(s: seq<K>, k: K)
    requires k !in s
    ensures Without(s, k) == s
  {
    if s != [] {
      WithoutAbsent(s[..|s| - 1], k);
    }
  }

  lemma {:induction false} WithoutElements<K>(s: seq<K>, k: K, x: K)
    ensures x in Without(s, k) <==> x in s && x != k
  {
    if s != [] {
      var n := |s| - 1;
      WithoutElements(s[..n], k, x);
      assert s == s[..n] + [s[n]];
    }
  }

  lemma {:induction false} WithoutKeepsDistinct<K>(s: seq<K>, k: K)
    requires Distinct(s)
    ensures Distinct(Without(s, k))
  {
    if s != [] {
      var n := |s| - 1;
      WithoutKeepsDistinct(s[..n], k);
      WithoutElements(s[..n], k, s[n]);
      assert s[n] !in s[..n];
    }
  }

  lemma DeleteKeepsValid<K, V>(d: Dict<K, V>, k: K)
    requires d.Valid()
    ensures d.Delete(k).Valid()
  {
    WithoutKeepsDistinct(d.order, k);
    var r := d.Delete(k);
    forall x | x in r.order
      ensures x in r.at
    {
      WithoutElements(d.order, k, x);
    }
    forall x | x in r.at
      ensures x in r.order
    {
      WithoutElements(d.order, k, x);
    }
  }

  /** Deleting a key that was just inserted restores the dictionary, order included. */
  lemma DeleteUndoesFreshPut<K, V>(d: Dict<K, V>, k: K, v: V)
    requires d.Valid() && k !in d.at
    ensures d.Put(k, v).Delete(k) == d
  {
    WithoutAbsent(d.order, k);
    var o := d.order + [k];
    assert o[..|o| - 1] == d.order;
    assert d.at[k := v] - {k} == d.at;
  }

  lemma {:induction false} ValuesAreEntries<K, V>(order: seq<K>, at: map<K, V>)
    ensures forall v :: v in ValuesOf(order, at) <==> exists k :: k in order && k in at && at[k] == v
  {
    if order != [] {
      var n := |order| - 1;
      ValuesAreEntries(order[..n], at);
      assert order == order[..n] + [order[n]];
      forall v
        ensures v in ValuesOf(order, at) <==> exists k :: k in order && k in at && at[k] == v
      {
        if k :| k in order && k in at && at[k] == v {
          assert k in order[..n] || k == order[n];
        }
      }
    }
  }

  lemma {:induction false} OneValuePerKey<K, V>(order: seq<K>, at: map<K, V>)
    requires forall k :: k in order ==> k in at
    ensures |ValuesOf(order, at)| == |order|
    ensures forall i :: 0 <= i < |order| ==> ValuesOf(order, at)[i] == at[order[i]]
  {
    if order != [] {
      OneValuePerKey(order[..|order| - 1], at);
    }
  }
}
