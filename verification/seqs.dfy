/** Sequence vocabulary shared by the catalog: element sets, absence of
    duplicates, and de-duplication that keeps each element's first occurrence. */
module Seqs {

  /** The set of elements of `s`. */
  function Elems<T>(s: seq<T>): set<T>
  {
    set x | x in s
  }

  /** No element occurs twice in `s`. */
  predicate NoDup<T(==)>(s: seq<T>)
  {
    forall i, j :: 0 <= i < j < |s| ==> s[i] != s[j]
  }

  /** The index of the first occurrence of `x` in `xs`. */
  function FirstIndex<T(==)>(xs: seq<T>, x: T): (k: nat)
    requires x in xs
    ensures k < |xs| && xs[k] == x && x !in xs[..k]
  {
    var init := xs[..|xs| - 1];
    if x in init then
      var k := FirstIndex(init, x);
      assert xs[..k] == init[..k];
      k
    else
      |xs| - 1
  }

  /** `xs` with every element after its first occurrence dropped, as a list
      grown by appending each element that it does not contain yet. */
  function FirstSeen<T(==)>(xs: seq<T>): seq<T>
  {
    if xs == [] then []
    else
      var seen := FirstSeen(xs[..|xs| - 1]);
      if xs[|xs| - 1] in seen then seen else seen + [xs[|xs| - 1]]
  }

  /** Extending the input by one element extends the result by that element
      exactly when it has not been seen yet. */
  lemma FirstSeenSnoc<T>(xs: seq<T>, x: T)
    ensures FirstSeen(xs + [x]) == if x in FirstSeen(xs) then FirstSeen(xs) else FirstSeen(xs) + [x]
  {
    assert (xs + [x])[..|xs|] == xs;
  }

  /** De-duplication keeps exactly the elements of its input. */
  lemma {:induction false} FirstSeenElems<T>(xs: seq<T>)
    ensures forall x :: x in FirstSeen(xs) <==> x in xs
  {
    if xs != [] {
      var init := xs[..|xs| - 1];
      FirstSeenElems(init);
      assert xs == init + [xs[|xs| - 1]];
    }
  }

  /** De-duplication leaves no element twice. */
  lemma {:induction false} FirstSeenNoDup<T>(xs: seq<T>)
    ensures NoDup(FirstSeen(xs))
  {
    if xs != [] {
      FirstSeenNoDup(xs[..|xs| - 1]);
    }
  }

  /** Appending an element leaves the first occurrences of earlier elements where they were. */
  lemma FirstIndexSnoc<T>(init: seq<T>, last: T, x: T)
    requires x in init
    ensures FirstIndex(init + [last], x) == FirstIndex(init, x)
  {
    assert (init + [last])[..|init|] == init;
  }

  /** De-duplication lists the elements in the order of their first
      occurrences in the input. */
  lemma {:induction false} FirstSeenOrder<T>(xs: seq<T>)
    ensures forall x :: x in FirstSeen(xs) ==> x in xs
    ensures forall i, j :: 0 <= i < j < |FirstSeen(xs)| ==>
              FirstIndex(xs, FirstSeen(xs)[i]) < FirstIndex(xs, FirstSeen(xs)[j])
  {
    FirstSeenElems(xs);
    if xs != [] {
      var init, last := xs[..|xs| - 1], xs[|xs| - 1];
      assert xs == init + [last];
      var seen, r := FirstSeen(init), FirstSeen(xs);
      FirstSeenOrder(init);
      FirstSeenElems(init);
      forall i, j | 0 <= i < j < |r|
        ensures FirstIndex(xs, r[i]) < FirstIndex(xs, r[j])
      {
        assert r[i] == seen[i];
        FirstIndexSnoc(init, last, seen[i]);
        if j < |seen| {
          assert r[j] == seen[j];
          FirstIndexSnoc(init, last, seen[j]);
        } else {
          assert r[j] == last && last !in init;
        }
      }
    }
  }
}
