/**
  The live-engine list as a sequence, with the removal `g_list_remove`
  performs: drop the FIRST element equal to the given one (object
  identity), keep every other element in its order.
 */
module EngineList {

  predicate Distinct<T(==)>(xs: seq<T>) {
    forall i, j :: 0 <= i < j < |xs| ==> xs[i] != xs[j]
  }

  /** `g_list_remove`: the list without the first occurrence of `x`. */
  function Remove<T(==)>(xs: seq<T>, x: T): (r: seq<T>)
    ensures x !in xs ==> r == xs
    ensures x in xs ==> |r| == |xs| - 1
    decreases |xs|
  {
    if |xs| == 0 then []
    else
      assert xs == [xs[0]] + xs[1..];
      if xs[0] == x then xs[1..] else [xs[0]] + Remove(xs[1..], x)
  }

  /** Removal takes exactly one copy of `x` out of the list's contents, if there is one. */
  lemma {:induction false} RemoveMultiset<T>(xs: seq<T>, x: T)
    ensures multiset(Remove(xs, x)) == multiset(xs) - multiset{x}
    decreases |xs|
  {
    if |xs| > 0 {
      assert xs == [xs[0]] + xs[1..];
      if xs[0] != x {
        RemoveMultiset(xs[1..], x);
      }
    }
  }

  /** Reference definition: every element different from `x`, in order. */
  function Without<T(==)>(xs: seq<T>, x: T): (r: seq<T>)
    ensures x !in r
    ensures forall k :: 0 <= k < |r| ==> r[k] in xs && r[k] != x
    ensures forall k :: 0 <= k < |xs| && xs[k] != x ==> xs[k] in r
    decreases |xs|
  {
    if |xs| == 0 then []
    else if xs[0] == x then Without(xs[1..], x)
    else [xs[0]] + Without(xs[1..], x)
  }

  /** `Remove` cuts the list at the first occurrence of `x` and splices the two sides. */
  lemma {:induction false} RemoveSplits<T>(xs: seq<T>, x: T) returns (i: nat)
    requires x in xs
    ensures i < |xs| && xs[i] == x && x !in xs[..i]
    ensures Remove(xs, x) == xs[..i] + xs[i + 1..]
    decreases |xs|
  {
    if xs[0] == x {
      i := 0;
      assert xs[..i] == [];
    } else {
      var tail := xs[1..];
      assert xs == [xs[0]] + tail;
      assert x in tail;
      var j := RemoveSplits(tail, x);
      i := j + 1;
      assert Remove(xs, x) == [xs[0]] + Remove(tail, x);
      assert xs[..i] == [xs[0]] + tail[..j];
      assert xs[i + 1..] == tail[j + 1..];
      assert x !in xs[..i];
    }
  }

  /** On a duplicate-free list, removing the first occurrence removes every occurrence. */
  lemma {:induction false} RemoveIsWithout<T>(xs: seq<T>, x: T)
    requires Distinct(xs)
    ensures Remove(xs, x) == Without(xs, x)
    decreases |xs|
  {
    if |xs| > 0 {
      assert Distinct(xs[1..]);
      if xs[0] == x {
        assert x !in xs[1..] by {
          forall k | 0 <= k < |xs[1..]|
            ensures xs[1..][k] != x
          {
            assert xs[1..][k] == xs[k + 1];
          }
        }
        WithoutAbsent(xs[1..], x);
      } else {
        RemoveIsWithout(xs[1..], x);
      }
    }
  }

  /** Filtering out an absent element changes nothing. */
  lemma {:induction false} WithoutAbsent<T>(xs: seq<T>, x: T)
    requires x !in xs
    ensures Without(xs, x) == xs
    decreases |xs|
  {
    if |xs| > 0 {
      assert x !in xs[1..];
      WithoutAbsent(xs[1..], x);
      assert xs == [xs[0]] + xs[1..];
    }
  }

  /** Removal keeps a duplicate-free list duplicate-free and leaves no copy of `x`. */
  lemma RemoveDistinct<T>(xs: seq<T>, x: T)
    requires Distinct(xs)
    ensures Distinct(Remove(xs, x))
    ensures x !in Remove(xs, x)
  {
    if x in xs {
      var i := RemoveSplits(xs, x);
      var r := Remove(xs, x);
      assert forall k :: 0 <= k < |r| ==> r[k] == (if k < i then xs[k] else xs[k + 1]);
    }
  }

  /** Removing the same element twice from a duplicate-free list is removing it once. */
  lemma RemoveTwice<T>(xs: seq<T>, x: T)
    requires Distinct(xs)
    ensures Remove(Remove(xs, x), x) == Remove(xs, x)
  {
    RemoveDistinct(xs, x);
  }
}
