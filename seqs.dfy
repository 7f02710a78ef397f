/** Sequences built element by element, and first-occurrence bookkeeping: de-duplication and positions. */
module Seqs {

  /** The sequence `f(0), ..., f(n - 1)`, built from the left. */
  function Build<T>(n: nat, f: nat --> T): (r: seq<T>)
    requires forall j | 0 <= j < n :: f.requires(j)
    ensures |r| == n
  {
    if n == 0 then [] else Build(n - 1, f) + [f(n - 1)]
  }

  lemma {:induction false} BuildAt<T>(n: nat, f: nat --> T, j: nat)
    requires forall j | 0 <= j < n :: f.requires(j)
    requires j < n
    ensures Build(n, f)[j] == f(j)
  {
    if j < n - 1 {
      BuildAt(n - 1, f, j);
    }
  }

  /** `f` applied to every element of `xs`. */
  function Map<A, B>(f: A -> B, xs: seq<A>): (r: seq<B>)
    ensures |r| == |xs|
    ensures forall k | 0 <= k < |xs| :: r[k] == f(xs[k])
  {
    seq(|xs|, k requires 0 <= k < |xs| => f(xs[k]))
  }

  /** Mapping one element more appends its image. */
  lemma MapSnoc<A, B>(f: A -> B, xs: seq<A>, i: nat)
    requires i < |xs|
    ensures Map(f, xs[..i + 1]) == Map(f, xs[..i]) + [f(xs[i])]
  {
  }

  /** The position of the first occurrence of `x` in `xs`. */
  function FirstIndex<T(==)>(xs: seq<T>, x: T): (i: nat)
    requires x in xs
    ensures i < |xs| && xs[i] == x
    ensures forall j | 0 <= j < i :: xs[j] != x
  {
    if xs[0] == x then 0 else 1 + FirstIndex(xs[1..], x)
  }

  /** Appending does not move the first occurrence of something already present. */
  lemma FirstIndexAppend<T>(xs: seq<T>, y: T, x: T)
    requires x in xs
    ensures FirstIndex(xs + [y], x) == FirstIndex(xs, x)
  {
    var i, k := FirstIndex(xs, x), FirstIndex(xs + [y], x);
    assert (xs + [y])[i] == x;
  }

  /** The distinct elements of `xs`, each kept where it first occurs. */
  function Distinct<T(==)>(xs: seq<T>): (r: seq<T>)
    ensures forall k | 0 <= k < |r| :: r[k] in xs
    ensures forall i, j | 0 <= i < j < |r| :: r[i] != r[j]
    ensures |r| <= |xs|
  {
    if xs == [] then []
    else
      var d := Distinct(xs[..|xs| - 1]);
      var x := xs[|xs| - 1];
      assert xs == xs[..|xs| - 1] + [x];
      if x in d then d else d + [x]
  }

  /** Every element of the input is among the distinct elements. */
  lemma {:induction false} DistinctCovers<T>(xs: seq<T>)
    ensures forall k | 0 <= k < |xs| :: xs[k] in Distinct(xs)
    decreases |xs|
  {
    if xs != [] {
      var init := xs[..|xs| - 1];
      DistinctCovers(init);
      assert xs == init + [xs[|xs| - 1]];
      forall k | 0 <= k < |xs|
        ensures xs[k] in Distinct(xs)
      {
        if k < |init| {
          assert xs[k] == init[k];
        }
      }
    }
  }

  /** Distinct elements come out in the order of their first occurrences. */
  lemma {:induction false} DistinctOrder<T>(xs: seq<T>, i: nat, j: nat)
    requires i < j < |Distinct(xs)|
    ensures FirstIndex(xs, Distinct(xs)[i]) < FirstIndex(xs, Distinct(xs)[j])
    decreases |xs|
  {
    var r := Distinct(xs);
    var init := xs[..|xs| - 1];
    var x := xs[|xs| - 1];
    var d := Distinct(init);
    assert xs == init + [x];
    assert r[i] in xs && r[j] in xs;
    if j < |d| {
      DistinctOrder(init, i, j);
      assert r[i] == d[i] && r[j] == d[j];
      FirstIndexAppend(init, x, r[i]);
      FirstIndexAppend(init, x, r[j]);
    } else {
      DistinctCovers(init);
      assert r[j] == x && x !in init;
      assert r[i] == d[i] && r[i] in init;
      FirstIndexAppend(init, x, r[i]);
      assert FirstIndex(xs, x) == |init|;
    }
  }

  /** Growing the input only ever appends to the distinct list. */
  lemma DistinctSnoc<T>(xs: seq<T>, x: T)
    ensures Distinct(xs + [x]) == if x in Distinct(xs) then Distinct(xs) else Distinct(xs) + [x]
  {
    assert (xs + [x])[..|xs + [x]| - 1] == xs;
  }

  /** A list without repetitions is its own distinct list. */
  lemma {:induction false} DistinctOfDistinct<T>(xs: seq<T>)
    requires forall i, j | 0 <= i < j < |xs| :: xs[i] != xs[j]
    ensures Distinct(xs) == xs
    decreases |xs|
  {
    if xs != [] {
      var init := xs[..|xs| - 1];
      DistinctOfDistinct(init);
      assert forall i | 0 <= i < |init| :: init[i] == xs[i] != xs[|xs| - 1];
      assert init + [xs[|xs| - 1]] == xs;
    }
  }

  /** The position of `x` in a list without repetitions. */
  function IndexOf<T(==)>(d: seq<T>, x: T): (i: nat)
    requires x in d
    ensures i < |d| && d[i] == x
  {
    FirstIndex(d, x)
  }

  /** A non-empty list is its front followed by its last element. */
  lemma FrontLast<T>(xs: seq<T>)
    requires xs != []
    ensures xs[..|xs| - 1] + [xs[|xs| - 1]] == xs
  {
  }
}
