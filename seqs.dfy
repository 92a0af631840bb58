/** Mapping over sequences, with the facts about them every plan and
    argument list relies on. */
module Seqs {
  import opened Wrappers

  /** `f` applied to every element, in order. */
  function MapSeq<A, B>(xs: seq<A>, f: A -> B): (r: seq<B>)
    ensures |r| == |xs|
  {
    if xs == [] then [] else MapSeq(xs[..|xs| - 1], f) + [f(xs[|xs| - 1])]
  }

  /** Element `i` of the result is `f` of element `i`. */
  lemma {:induction false} MapSeqAt<A, B>(xs: seq<A>, f: A -> B, i: nat)
    requires i < |xs|
    ensures MapSeq(xs, f)[i] == f(xs[i])
  {
    if i < |xs| - 1 {
      MapSeqAt(xs[..|xs| - 1], f, i);
    }
  }

  lemma {:induction false} MapSeqAppend<A, B>(a: seq<A>, b: seq<A>, f: A -> B)
    ensures MapSeq(a + b, f) == MapSeq(a, f) + MapSeq(b, f)
    decreases |b|
  {
    if b == [] {
      assert a + b == a;
    } else {
      var b' := b[..|b| - 1];
      var ab := a + b;
      MapSeqAppend(a, b', f);
      assert ab[..|ab| - 1] == a + b';
      assert ab[|ab| - 1] == b[|b| - 1];
    }
  }

  /** The pieces `f` gives for the elements, one after the other. */
  function FlatMap<A, B>(xs: seq<A>, f: A -> seq<B>): seq<B>
  {
    if xs == [] then [] else FlatMap(xs[..|xs| - 1], f) + f(xs[|xs| - 1])
  }

  lemma FlatMapSnoc<A, B>(xs: seq<A>, i: nat, f: A -> seq<B>)
    requires i < |xs|
    ensures FlatMap(xs[..i + 1], f) == FlatMap(xs[..i], f) + f(xs[i])
  {
    var p := xs[..i + 1];
    assert p[..|p| - 1] == xs[..i];
  }

  lemma {:induction false} FlatMapAppend<A, B>(a: seq<A>, b: seq<A>, f: A -> seq<B>)
    ensures FlatMap(a + b, f) == FlatMap(a, f) + FlatMap(b, f)
    decreases |b|
  {
    if b == [] {
      assert a + b == a;
    } else {
      var b' := b[..|b| - 1];
      var ab := a + b;
      FlatMapAppend(a, b', f);
      assert ab[..|ab| - 1] == a + b';
      assert ab[|ab| - 1] == b[|b| - 1];
    }
  }

  /** An element is in the result exactly when some element's piece holds it. */
  lemma {:induction false} FlatMapMembership<A, B>(xs: seq<A>, f: A -> seq<B>, y: B)
    ensures y in FlatMap(xs, f) <==> exists i :: 0 <= i < |xs| && y in f(xs[i])
  {
    if xs != [] {
      var init := xs[..|xs| - 1];
      FlatMapMembership(init, f, y);
      if exists i :: 0 <= i < |xs| && y in f(xs[i]) {
        var i :| 0 <= i < |xs| && y in f(xs[i]);
        if i < |xs| - 1 {
          assert init[i] == xs[i];
        }
      }
      if exists i :: 0 <= i < |init| && y in f(init[i]) {
        var i :| 0 <= i < |init| && y in f(init[i]);
        assert xs[i] == init[i];
      }
    }
  }

  /** The first answer `f` gives, trying the elements in order (a loop that
      returns from the first element that yields something). */
  function FirstSome<A, B>(xs: seq<A>, f: A -> Option<B>): Option<B>
    decreases |xs|
  {
    if xs == [] then None
    else if f(xs[0]).Some? then f(xs[0])
    else FirstSome(xs[1..], f)
  }

  /** Nothing is found exactly when no element yields anything; what is
      found is the answer of an element before which none yields one. */
  lemma {:induction false} FirstSomeMeaning<A, B>(xs: seq<A>, f: A -> Option<B>)
    ensures FirstSome(xs, f).None? <==> forall i :: 0 <= i < |xs| ==> f(xs[i]).None?
    ensures FirstSome(xs, f).Some? ==>
      exists i :: 0 <= i < |xs| && f(xs[i]) == FirstSome(xs, f) && forall j :: 0 <= j < i ==> f(xs[j]).None?
    decreases |xs|
  {
    if xs != [] && f(xs[0]).None? {
      FirstSomeMeaning(xs[1..], f);
      assert forall i :: 0 < i < |xs| ==> xs[i] == xs[1..][i - 1];
      if FirstSome(xs, f).Some? {
        var k :| 0 <= k < |xs| - 1 && f(xs[1..][k]) == FirstSome(xs, f) && forall j :: 0 <= j < k ==> f(xs[1..][j]).None?;
        assert f(xs[k + 1]) == FirstSome(xs, f);
      }
    }
  }

  /** Elements that yield nothing can be skipped. */
  lemma FirstSomeFrom<A, B>(xs: seq<A>, i: nat, f: A -> Option<B>)
    requires i < |xs| && f(xs[i]).None?
    ensures FirstSome(xs[i..], f) == FirstSome(xs[i + 1..], f)
  {
    assert xs[i..][1..] == xs[i + 1..];
  }
}
