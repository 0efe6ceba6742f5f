/** A few facts about sequences that several modules use. */
module Sequences {
  lemma Assoc<T>(a: seq<T>, b: seq<T>, c: seq<T>)
    ensures (a + b) + c == a + (b + c)
  {
  }

  lemma FirstThenRest<T>(a: seq<T>, b: seq<T>)
    requires a != []
    ensures a + b == [a[0]] + (a[1..] + b)
  {
  }

  lemma CountSnoc<T>(a: seq<T>, x: T, y: T)
    ensures multiset(a + [x])[y] == multiset(a)[y] + if x == y then 1 else 0
  {
  }

  ghost predicate Increasing(ids: seq<nat>) {
    forall i, j :: 0 <= i < j < |ids| ==> ids[i] < ids[j]
  }

  /** The numbers below n, in order. */
  function Upto(n: nat): (ids: seq<nat>)
    ensures |ids| == n && forall i :: 0 <= i < n ==> ids[i] == i
  {
    if n == 0 then [] else Upto(n - 1) + [n - 1]
  }

  /** The elements of a occur in b in this order, each at a place of its own. */
  ghost predicate Within<T(!new)>(a: seq<T>, b: seq<T>) {
    || a == []
    || (b != [] && Within(a, b[..|b| - 1]))
    || (b != [] && a[|a| - 1] == b[|b| - 1] && Within(a[..|a| - 1], b[..|b| - 1]))
  }

  lemma WithinGrows<T(!new)>(a: seq<T>, b: seq<T>, x: T)
    requires Within(a, b)
    ensures Within(a, b + [x]) && Within(a + [x], b + [x])
  {
    assert (b + [x])[..|b|] == b && (a + [x])[..|a|] == a;
  }

  lemma {:induction false} WithinShrinks<T(!new)>(a: seq<T>, x: T, b: seq<T>)
    requires Within(a + [x], b)
    ensures Within(a, b)
  {
    var c := b[..|b| - 1];
    if Within(a + [x], c) {
      WithinShrinks(a, x, c);
    } else {
      assert (a + [x])[..|a|] == a;
    }
  }

  /** The places: increasing, and with the same elements. */
  lemma {:induction false} WithinPlaces<T(!new)>(a: seq<T>, b: seq<T>) returns (at: seq<nat>)
    requires Within(a, b)
    ensures |at| == |a| && forall i :: 0 <= i < |a| ==> at[i] < |b| && b[at[i]] == a[i]
    ensures forall i, j :: 0 <= i < j < |a| ==> at[i] < at[j]
  {
    if a == [] {
      return [];
    }
    var c := b[..|b| - 1];
    if Within(a, c) {
      at := WithinPlaces(a, c);
    } else {
      at := WithinPlaces(a[..|a| - 1], c);
      at := at + [|b| - 1];
    }
  }
}
