/** Generic sequence helpers shared by the model. */
module Sequences {

  /** Python's `xs[:n]` for a non-negative `n`. */
  function Take<T>(xs: seq<T>, n: nat): (r: seq<T>)
    ensures |r| == if n <= |xs| then n else |xs|
    ensures forall i :: 0 <= i < |r| ==> r[i] == xs[i]
  {
    if n <= |xs| then xs[..n] else xs
  }

  function Last<T>(xs: seq<T>): T
    requires |xs| > 0
  {
    xs[|xs| - 1]
  }

  /** The concatenation of a sequence of sequences. */
  function Flatten<T>(xss: seq<seq<T>>): seq<T>
  {
    if |xss| == 0 then [] else Flatten(xss[..|xss| - 1]) + xss[|xss| - 1]
  }

  predicate NoDuplicates<T(==)>(xs: seq<T>)
  {
    forall i, j :: 0 <= i < j < |xs| ==> xs[i] != xs[j]
  }

  /** The distinct elements of `xs` in first-seen order (appending to a list
      only when the element is not yet `in` it). */
  function Dedup<T(==,!new)>(xs: seq<T>): (r: seq<T>)
    ensures NoDuplicates(r)
    ensures forall x :: x in r <==> x in xs
  {
    if |xs| == 0 then []
    else
      var init := Dedup(xs[..|xs| - 1]);
      assert forall x :: x in xs <==> x in xs[..|xs| - 1] || x == xs[|xs| - 1];
      if xs[|xs| - 1] in init then init else init + [xs[|xs| - 1]]
  }

  /** The position of the first occurrence of `x` in `xs`. */
  function FirstIndex<T(==)>(xs: seq<T>, x: T): (i: nat)
    requires x in xs
    ensures i < |xs| && xs[i] == x && x !in xs[..i]
  {
    if xs[0] == x then 0
    else
      var j := FirstIndex(xs[1..], x);
      assert xs[..j + 1] == [xs[0]] + xs[1..][..j];
      j + 1
  }

  /** The first occurrence is the only position holding `x` with no `x`
      before it. */
  lemma FirstIndexUnique<T>(xs: seq<T>, x: T, k: nat)
    requires k < |xs| && xs[k] == x && x !in xs[..k]
    ensures FirstIndex(xs, x) == k
  {
  }

  /** The elements of `r`, all taken from `xs`, are in the order of their
      first occurrences in `xs`. */
  predicate FirstSeenOrder<T(==)>(xs: seq<T>, r: seq<T>)
  {
    && (forall i :: 0 <= i < |r| ==> r[i] in xs)
    && (forall i, j :: 0 <= i < j < |r| ==> FirstIndex(xs, r[i]) < FirstIndex(xs, r[j]))
  }

  /** `Dedup` lists the distinct elements in the order in which they first
      appear. */
  lemma {:induction false} DedupFirstSeen<T(!new)>(xs: seq<T>)
    ensures FirstSeenOrder(xs, Dedup(xs))
  {
    if |xs| > 0 {
      var n := |xs| - 1;
      var init := xs[..n];
      var y := xs[n];
      assert xs == init + [y];
      DedupFirstSeen(init);
      var d := Dedup(init);
      forall x | x in init ensures FirstIndex(xs, x) == FirstIndex(init, x) {
        var k := FirstIndex(init, x);
        assert xs[..k] == init[..k];
        FirstIndexUnique(xs, x, k);
      }
      if y !in d {
        assert xs[..n] == init;
        FirstIndexUnique(xs, y, n);
        ExtendFirstSeen(xs, init, d, y);
      } else {
        RestrictFirstSeen(xs, init, d);
      }
    }
  }

  lemma RestrictFirstSeen<T>(xs: seq<T>, init: seq<T>, d: seq<T>)
    requires FirstSeenOrder(init, d)
    requires forall x :: x in init ==> x in xs && FirstIndex(xs, x) == FirstIndex(init, x)
    ensures FirstSeenOrder(xs, d)
  {
  }

  lemma ExtendFirstSeen<T>(xs: seq<T>, init: seq<T>, d: seq<T>, y: T)
    requires FirstSeenOrder(init, d) && y in xs && FirstIndex(xs, y) == |init|
    requires forall x :: x in d ==> x in init
    requires forall x :: x in init ==> x in xs && FirstIndex(xs, x) == FirstIndex(init, x)
    ensures FirstSeenOrder(xs, d + [y])
  {
    var r := d + [y];
    forall i, j | 0 <= i < j < |r|
      ensures r[i] in xs && r[j] in xs && FirstIndex(xs, r[i]) < FirstIndex(xs, r[j])
    {
      assert r[i] == d[i];
      assert d[i] in init;
      if j < |d| {
        assert r[j] == d[j];
      }
    }
  }
}
