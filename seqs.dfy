/** Order-preserving selection from a sequence, and the duplicate-free list
    of its values that `[...new Set(xs)]` builds. */
module Seqs {

  /** a is obtained from b by dropping some elements, keeping the order of
      the rest. */
  predicate IsSubseq<T(==)>(a: seq<T>, b: seq<T>)
    decreases |b|
  {
    a == [] || (b != [] && ((a[0] == b[0] && IsSubseq(a[1..], b[1..])) || IsSubseq(a, b[1..])))
  }

  lemma {:induction false} IsSubseqRefl<T>(a: seq<T>)
    ensures IsSubseq(a, a)
  {
    if a != [] {
      IsSubseqRefl(a[1..]);
    }
  }

  /** No value occurs twice. */
  predicate NoDuplicates<T(==)>(s: seq<T>)
  {
    forall i, j :: 0 <= i < j < |s| ==> s[i] != s[j]
  }

  /** Position of the first occurrence of x in s. */
  function FirstIndex<T(==)>(s: seq<T>, x: T): (i: nat)
    requires x in s
    ensures i < |s| && s[i] == x && x !in s[..i]
  {
    if s[0] == x then 0 else 1 + FirstIndex(s[1..], x)
  }

  /** `[...new Set(xs)]`: a Set keeps its values in insertion order, so each
      value appears once, where it first occurs. */
  function Unique<T(==,!new)>(xs: seq<T>): (u: seq<T>)
    ensures NoDuplicates(u)
    ensures forall x :: x in u <==> x in xs
  {
    if xs == [] then []
    else
      var u := Unique(xs[..|xs| - 1]);
      var last := xs[|xs| - 1];
      assert xs == xs[..|xs| - 1] + [last];
      if last in u then u else u + [last]
  }

  /** A value listed twice is kept once. */
  lemma UniquePair<T(!new)>(a: T, b: T)
    ensures Unique([a, b]) == if a == b then [a] else [a, b]
  {
    assert [a, b][..1] == [a];
    assert [a][..0] == [];
    assert Unique([a]) == [a];
  }

  /** Appending a value leaves the first occurrence of every earlier value
      where it was. */
  lemma {:induction false} FirstIndexAppend<T>(s: seq<T>, z: T, x: T)
    requires x in s
    ensures x in s + [z] && FirstIndex(s + [z], x) == FirstIndex(s, x)
  {
    if s[0] != x {
      assert (s + [z])[1..] == s[1..] + [z];
      FirstIndexAppend(s[1..], z, x);
    }
  }

  /** The values of Unique(xs) come in the order of their first occurrence in
      xs. */
  lemma {:induction false} UniqueFirstOccurrenceOrder<T(!new)>(xs: seq<T>)
    ensures forall i, j :: 0 <= i < j < |Unique(xs)| ==>
      Unique(xs)[i] in xs && Unique(xs)[j] in xs &&
      FirstIndex(xs, Unique(xs)[i]) < FirstIndex(xs, Unique(xs)[j])
  {
    if xs != [] {
      var init := xs[..|xs| - 1];
      var last := xs[|xs| - 1];
      var u := Unique(init);
      assert xs == init + [last];
      UniqueFirstOccurrenceOrder(init);
      forall y | y in u
        ensures y in init && y in xs && FirstIndex(xs, y) == FirstIndex(init, y)
      {
        FirstIndexAppend(init, last, y);
      }
      var r := Unique(xs);
      assert r == if last in u then u else u + [last];
      if last !in u {
        assert FirstIndex(xs, last) == |init|;
      }
      forall i, j | 0 <= i < j < |r|
        ensures r[i] in xs && r[j] in xs && FirstIndex(xs, r[i]) < FirstIndex(xs, r[j])
      {
        assert r[i] == u[i] && r[i] in u;
        if j < |u| {
          assert r[j] == u[j] && r[j] in u;
        }
      }
    } else {
      assert Unique(xs) == [];
    }
  }
}
