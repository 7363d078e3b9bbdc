/** Python's `sorted`: a stable sort by a total preorder. */
module Sorting {
  import opened Prelude

  ghost predicate TotalPreorder<T(!new)>(leq: (T, T) -> bool) {
    && (forall a, b :: leq(a, b) || leq(b, a))
    && (forall a, b, c :: leq(a, b) && leq(b, c) ==> leq(a, c))
  }

  ghost predicate Ordered<T>(leq: (T, T) -> bool, s: seq<T>) {
    forall i, j :: 0 <= i < j < |s| ==> leq(s[i], s[j])
  }

  function Insert<T>(leq: (T, T) -> bool, x: T, s: seq<T>): (r: seq<T>)
    ensures |r| == |s| + 1
  {
    if s == [] || leq(x, s[0]) then [x] + s else [s[0]] + Insert(leq, x, s[1..])
  }

  function SortBy<T>(leq: (T, T) -> bool, s: seq<T>): (r: seq<T>)
    ensures |r| == |s|
  {
    if s == [] then [] else Insert(leq, s[0], SortBy(leq, s[1..]))
  }

  lemma {:induction false} InsertKeepsMultiset<T>(leq: (T, T) -> bool, x: T, s: seq<T>)
    ensures multiset(Insert(leq, x, s)) == multiset(s) + multiset{x}
  {
    if s == [] || leq(x, s[0]) {
    } else {
      InsertKeepsMultiset(leq, x, s[1..]);
      assert s == [s[0]] + s[1..];
    }
  }

  lemma {:induction false} InsertIsOrdered<T(!new)>(leq: (T, T) -> bool, x: T, s: seq<T>)
    requires TotalPreorder(leq) && Ordered(leq, s)
    ensures Ordered(leq, Insert(leq, x, s))
  {
    if s == [] || leq(x, s[0]) {
    } else {
      InsertIsOrdered(leq, x, s[1..]);
      var r := Insert(leq, x, s[1..]);
      forall k | 0 <= k < |r|
        ensures leq(s[0], r[k])
      {
        InsertElements(leq, x, s[1..], r[k]);
      }
    }
  }

  /** `sorted` returns a permutation of its input, in order. */
  lemma {:induction false} SortIsOrdered<T(!new)>(leq: (T, T) -> bool, s: seq<T>)
    requires TotalPreorder(leq)
    ensures Ordered(leq, SortBy(leq, s))
    ensures multiset(SortBy(leq, s)) == multiset(s)
  {
    if s != [] {
      SortIsOrdered(leq, s[1..]);
      InsertIsOrdered(leq, s[0], SortBy(leq, s[1..]));
      InsertKeepsMultiset(leq, s[0], SortBy(leq, s[1..]));
      assert s == [s[0]] + s[1..];
    }
  }

  lemma {:induction false} InsertElements<T>(leq: (T, T) -> bool, x: T, s: seq<T>, y: T)
    ensures y in Insert(leq, x, s) <==> y == x || y in s
  {
    if s == [] || leq(x, s[0]) {
    } else {
      InsertElements(leq, x, s[1..], y);
      assert s == [s[0]] + s[1..];
    }
  }

  lemma {:induction false} SortElements<T>(leq: (T, T) -> bool, s: seq<T>, y: T)
    ensures y in SortBy(leq, s) <==> y in s
  {
    if s != [] {
      SortElements(leq, s[1..], y);
      InsertElements(leq, s[0], SortBy(leq, s[1..]), y);
      assert s == [s[0]] + s[1..];
    }
  }

  lemma {:induction false} InsertKeepsDistinct<T>(leq: (T, T) -> bool, x: T, s: seq<T>)
    requires Distinct(s) && x !in s
    ensures Distinct(Insert(leq, x, s))
  {
    if s == [] || leq(x, s[0]) {
    } else {
      InsertKeepsDistinct(leq, x, s[1..]);
      InsertElements(leq, x, s[1..], s[0]);
      assert s[0] !in Insert(leq, x, s[1..]);
    }
  }

  lemma {:induction false} SortKeepsDistinct<T>(leq: (T, T) -> bool, s: seq<T>)
    requires Distinct(s)
    ensures Distinct(SortBy(leq, s))
  {
    if s != [] {
      SortKeepsDistinct(leq, s[1..]);
      SortElements(leq, s[1..], s[0]);
      InsertKeepsDistinct(leq, s[0], SortBy(leq, s[1..]));
    }
  }

  predicate RanksWith<T>(leq: (T, T) -> bool, x: T, y: T) {
    leq(x, y) && leq(y, x)
  }

  /** The elements that rank with x, in the order they come. */
  function Peers<T>(leq: (T, T) -> bool, x: T, s: seq<T>): seq<T> {
    if s == [] then [] else (if RanksWith(leq, x, s[0]) then [s[0]] else []) + Peers(leq, x, s[1..])
  }

  /** Nothing that must come before y ranks with x if y does. */
  ghost predicate Apart<T>(leq: (T, T) -> bool, x: T, y: T, s: seq<T>) {
    RanksWith(leq, x, y) ==> forall i :: 0 <= i < |s| && RanksWith(leq, x, s[i]) ==> leq(y, s[i])
  }

  lemma PeersOfCons<T>(leq: (T, T) -> bool, x: T, y: T, s: seq<T>)
    ensures Peers(leq, x, [y] + s) == (if RanksWith(leq, x, y) then [y] else []) + Peers(leq, x, s)
  {
    assert ([y] + s)[1..] == s;
  }

  lemma PeersOfTwo<T>(leq: (T, T) -> bool, x: T, y: T, z: T, s: seq<T>)
    requires !(RanksWith(leq, x, y) && RanksWith(leq, x, z))
    ensures Peers(leq, x, [y] + ([z] + s)) == Peers(leq, x, [z] + ([y] + s))
  {
    PeersOfCons(leq, x, y, [z] + s);
    PeersOfCons(leq, x, z, [y] + s);
    PeersOfCons(leq, x, y, s);
    PeersOfCons(leq, x, z, s);
  }

  lemma {:induction false} InsertIsStable<T>(leq: (T, T) -> bool, x: T, y: T, s: seq<T>)
    requires Apart(leq, x, y, s)
    ensures Peers(leq, x, Insert(leq, y, s)) == Peers(leq, x, [y] + s)
  {
    if s != [] && !leq(y, s[0]) {
      var z, rest := s[0], s[1..];
      InsertIsStable(leq, x, y, rest);
      PeersOfCons(leq, x, z, Insert(leq, y, rest));
      PeersOfCons(leq, x, z, [y] + rest);
      PeersOfTwo(leq, x, y, z, rest);
      assert [z] + rest == s;
    }
  }

  lemma PeersAreApart<T(!new)>(leq: (T, T) -> bool, x: T, y: T, s: seq<T>)
    requires TotalPreorder(leq)
    ensures Apart(leq, x, y, s)
  {
  }

  /** `sorted` is stable: elements that rank alike keep the order they came in. */
  lemma {:induction false} SortIsStable<T(!new)>(leq: (T, T) -> bool, x: T, s: seq<T>)
    requires TotalPreorder(leq)
    ensures Peers(leq, x, SortBy(leq, s)) == Peers(leq, x, s)
  {
    if s != [] {
      var y, sorted := s[0], SortBy(leq, s[1..]);
      SortIsStable(leq, x, s[1..]);
      PeersAreApart(leq, x, y, sorted);
      InsertIsStable(leq, x, y, sorted);
      PeersOfCons(leq, x, y, sorted);
    }
  }
}
