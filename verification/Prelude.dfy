/** Shared vocabulary: optional values and the slice Python writes `s[:n]`. */
module Prelude {

  datatype Option<+T> = None | Some(value: T)

  /** Identifiers are compared, hashed and ordered; a UUID's text order is its numeric order. */
  type Uuid = nat

  /** A point in UTC time, in microseconds. */
  type Time = int

  const SECOND: int := 1_000_000

  /** `s[:n]`: a negative bound drops that many elements from the end. */
  function Take<T>(s: seq<T>, n: int): (r: seq<T>)
    ensures r <= s
    ensures n >= 0 ==> |r| == if n <= |s| then n else |s|
  {
    if n >= |s| then s
    else if n >= 0 then s[..n]
    else if |s| + n >= 0 then s[..|s| + n]
    else []
  }

  /** A negative bound leaves out that many elements, or all there are. */
  lemma TakeFromTheEnd<T>(s: seq<T>, n: int)
    requires n < 0
    ensures |Take(s, n)| == if |s| + n >= 0 then |s| + n else 0
  {
  }

  function Lesser(a: int, b: int): int {
    if a <= b then a else b
  }

  /** Feed a sequence to a step function, left to right. */
  function Fold<S, T>(step: (S, T) -> S, start: S, s: seq<T>): S {
    if s == [] then start else step(Fold(step, start, s[..|s| - 1]), s[|s| - 1])
  }

  lemma {:induction false} FoldAppends<S, T>(step: (S, T) -> S, start: S, a: seq<T>, b: seq<T>)
    ensures Fold(step, start, a + b) == Fold(step, Fold(step, start, a), b)
  {
    if b == [] {
      assert a + b == a;
    } else {
      var n := |b| - 1;
      FoldAppends(step, start, a, b[..n]);
      assert (a + b)[..|a + b| - 1] == a + b[..n];
    }
  }

  ghost predicate Distinct<T>(s: seq<T>) {
    forall i, j :: 0 <= i < j < |s| ==> s[i] != s[j]
  }
}
