/** Values that may be absent, results that may be an error, the smaller of two numbers, the
    elements of a sequence that are kept, and sequences related element by element. */
module Wrappers {

  datatype Option<+T> = None | Some(value: T)

  function Min(a: int, b: int): int {
    if a <= b then a else b
  }

  /** The elements that `keep` accepts, in order. */
  function Kept<T(!new)>(xs: seq<T>, keep: T -> bool): (r: seq<T>)
    ensures forall x :: x in r <==> x in xs && keep(x)
  {
    if xs == [] then []
    else
      var before, last := xs[..|xs| - 1], xs[|xs| - 1];
      assert forall x :: x in xs <==> x in before || x == last;
      Kept(before, keep) + if keep(last) then [last] else []
  }

  /** `from` lists, in order, exactly the places of the elements that `keep` accepts. */
  ghost predicate Places<T(!new)>(from: seq<nat>, xs: seq<T>, keep: T -> bool) {
    && (forall i :: 0 <= i < |from| ==> from[i] < |xs| && keep(xs[from[i]]))
    && (forall i, j :: 0 <= i < j < |from| ==> from[i] < from[j])
    && (forall k: nat :: k < |xs| && keep(xs[k]) ==> k in from)
  }

  lemma PlacesGrow<T(!new)>(from: seq<nat>, xs: seq<T>, n: nat, keep: T -> bool)
    requires |xs| == n + 1 && Places(from, xs[..n], keep)
    ensures keep(xs[n]) ==> Places(from + [n], xs, keep)
    ensures !keep(xs[n]) ==> Places(from, xs, keep)
  {
    forall k: nat | k < n && keep(xs[k])
      ensures k in from
    {
      assert xs[..n][k] == xs[k];
    }
    forall i | 0 <= i < |from|
      ensures from[i] < n && keep(xs[from[i]])
    {
      assert xs[..n][from[i]] == xs[from[i]];
    }
  }

  lemma {:induction false} KeptPlaces<T(!new)>(xs: seq<T>, keep: T -> bool) returns (from: seq<nat>)
    ensures Places(from, xs, keep) && |Kept(xs, keep)| == |from|
    ensures forall i :: 0 <= i < |from| ==> Kept(xs, keep)[i] == xs[from[i]]
  {
    if xs == [] {
      from := [];
    } else {
      var n := |xs| - 1;
      from := KeptPlaces(xs[..n], keep);
      PlacesGrow(from, xs, n, keep);
      if keep(xs[n]) {
        from := from + [n];
      }
    }
  }

  lemma LastApart<T>(xs: seq<T>)
    requires xs != []
    ensures xs == xs[..|xs| - 1] + [xs[|xs| - 1]]
  {
  }

  lemma Regroup<T>(a: seq<T>, b: seq<T>, c: seq<T>)
    ensures a + (b + c) == (a + b) + c
  {
  }

  lemma PlaceIn<T>(xs: seq<T>, x: T) returns (i: nat)
    requires x in xs
    ensures i < |xs| && xs[i] == x
  {
    i :| 0 <= i < |xs| && xs[i] == x;
  }

  ghost predicate AllPairs<A, B>(p: (A, B) -> bool, a: seq<A>, b: seq<B>) {
    |a| == |b| && forall i :: 0 <= i < |a| ==> p(a[i], b[i])
  }

  lemma PairsAppend<A, B>(p: (A, B) -> bool, a: seq<A>, b: seq<B>, c: seq<A>, d: seq<B>)
    requires AllPairs(p, a, b) && AllPairs(p, c, d)
    ensures AllPairs(p, a + c, b + d)
  {
  }

  datatype Result<+T, +E> = Ok(value: T) | Err(error: E) {
    predicate IsFailure() {
      Err?
    }

    function PropagateFailure<U>(): Result<U, E>
      requires Err?
    {
      Err(error)
    }

    function Extract(): T
      requires Ok?
    {
      value
    }
  }
}
