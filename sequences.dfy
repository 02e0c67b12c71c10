/** Order-preserving filtering: the shape of both loops of the node that append to a list
    only some of the items they visit. */
module Sequences {
  import opened Messages

  /** xs can be obtained from ys by deleting elements, keeping the order of the rest.
      Defined from the back, as the lists built by appending are. */
  ghost predicate IsSubsequence<T>(xs: seq<T>, ys: seq<T>)
    decreases |ys|
  {
    if ys == [] then xs == []
    else
      || (xs != [] && xs[|xs| - 1] == ys[|ys| - 1] && IsSubsequence(xs[..|xs| - 1], ys[..|ys| - 1]))
      || IsSubsequence(xs, ys[..|ys| - 1])
  }

  lemma {:induction false} EmptyIsSubsequence<T>(ys: seq<T>)
    ensures IsSubsequence([], ys)
  {
    if ys != [] {
      EmptyIsSubsequence(ys[..|ys| - 1]);
    }
  }

  /** Appending an element to ys keeps a subsequence one, with or without that element. */
  lemma SubsequenceSnoc<T>(xs: seq<T>, ys: seq<T>, y: T)
    requires IsSubsequence(xs, ys)
    ensures IsSubsequence(xs + [y], ys + [y])
    ensures IsSubsequence(xs, ys + [y])
  {
    assert (xs + [y])[..|xs|] == xs;
    assert (ys + [y])[..|ys|] == ys;
  }

  /** A subsequence is no longer than the sequence, and each of its elements occurs there. */
  lemma {:induction false} SubsequenceMembers<T>(xs: seq<T>, ys: seq<T>)
    requires IsSubsequence(xs, ys)
    ensures |xs| <= |ys|
    ensures forall x :: x in xs ==> x in ys
    decreases |ys|
  {
    if ys != [] {
      var ys' := ys[..|ys| - 1];
      assert ys == ys' + [ys[|ys| - 1]];
      if xs != [] && xs[|xs| - 1] == ys[|ys| - 1] && IsSubsequence(xs[..|xs| - 1], ys') {
        SubsequenceMembers(xs[..|xs| - 1], ys');
        assert xs == xs[..|xs| - 1] + [xs[|xs| - 1]];
      } else {
        SubsequenceMembers(xs, ys');
      }
    }
  }

  function Map<A, B>(xs: seq<A>, g: A -> B): (r: seq<B>)
    ensures |r| == |xs|
    ensures forall i :: 0 <= i < |xs| ==> r[i] == g(xs[i])
  {
    seq(|xs|, i requires 0 <= i < |xs| => g(xs[i]))
  }

  /** Visit xs in order and append y for every item that f maps to Some(y). */
  function FilterMap<A, B>(xs: seq<A>, f: A -> Option<B>): (r: seq<B>)
    ensures |r| <= |xs|
  {
    if xs == [] then []
    else
      FilterMap(xs[..|xs| - 1], f)
      + match f(xs[|xs| - 1])
        case None => []
        case Some(y) => [y]
  }

  /** Appending one more item appends its image, if it has one. */
  lemma FilterMapSnoc<A, B>(xs: seq<A>, x: A, f: A -> Option<B>)
    ensures FilterMap(xs + [x], f) == FilterMap(xs, f) + match f(x) case None => [] case Some(y) => [y]
  {
    assert (xs + [x])[..|xs|] == xs;
  }

  /** The output holds exactly the images of the items f keeps. */
  lemma {:induction false} FilterMapMembers<A, B>(xs: seq<A>, f: A -> Option<B>)
    ensures forall y :: y in FilterMap(xs, f) ==> exists i :: 0 <= i < |xs| && f(xs[i]) == Some(y)
    ensures forall i :: 0 <= i < |xs| && f(xs[i]).Some? ==> f(xs[i]).value in FilterMap(xs, f)
  {
    if xs != [] {
      var init, x := xs[..|xs| - 1], xs[|xs| - 1];
      FilterMapMembers(init, f);
      forall y | y in FilterMap(xs, f)
        ensures exists i :: 0 <= i < |xs| && f(xs[i]) == Some(y)
      {
        if y in FilterMap(init, f) {
          var i :| 0 <= i < |init| && f(init[i]) == Some(y);
          assert xs[i] == init[i];
        } else {
          assert f(xs[|xs| - 1]) == Some(y);
        }
      }
      forall i | 0 <= i < |xs| && f(xs[i]).Some?
        ensures f(xs[i]).value in FilterMap(xs, f)
      {
        if i < |init| {
          assert xs[i] == init[i];
        }
      }
    }
  }

  /** When every kept image agrees with its item under the views h and g, the viewed output
      is a subsequence of the viewed input: the filter drops items and never reorders. */
  lemma {:induction false} FilterMapIsSubsequence<A, B, C>(xs: seq<A>, f: A -> Option<B>, g: A -> C, h: B -> C)
    requires forall x :: f(x).Some? ==> h(f(x).value) == g(x)
    ensures IsSubsequence(Map(FilterMap(xs, f), h), Map(xs, g))
  {
    if xs == [] {
      EmptyIsSubsequence(Map(xs, g));
    } else {
      var init, x := xs[..|xs| - 1], xs[|xs| - 1];
      var r0 := FilterMap(init, f);
      FilterMapIsSubsequence(init, f, g, h);
      assert Map(xs, g) == Map(init, g) + [g(x)];
      SubsequenceSnoc(Map(r0, h), Map(init, g), g(x));
      match f(x)
      case None =>
        assert FilterMap(xs, f) == r0;
      case Some(y) =>
        assert FilterMap(xs, f) == r0 + [y];
        assert Map(r0 + [y], h) == Map(r0, h) + [g(x)];
    }
  }
}
