/** Insertion sort by a strict "must come before" relation, standing for
    Rust's `slice::sort` and `slice::sort_by`: the result is sorted and a
    permutation of the input. */
module Sorting {

  /** `lt` is irreflexive and transitive. */
  ghost predicate StrictOrder<T(!new)>(lt: (T, T) -> bool)
  {
    (forall a :: !lt(a, a)) && (forall a, b, c :: lt(a, b) && lt(b, c) ==> lt(a, c))
  }

  /** No element must come before an element placed ahead of it. */
  predicate SortedBy<T>(s: seq<T>, lt: (T, T) -> bool)
  {
    forall i, j :: 0 <= i < j < |s| ==> !lt(s[j], s[i])
  }

  /** `x` placed before the first element it must precede, so after every
      element that compares equal to it. */
  function InsertBy<T(==)>(x: T, s: seq<T>, lt: (T, T) -> bool): (r: seq<T>)
    ensures multiset(r) == multiset(s) + multiset{x}
  {
    if s == [] then [x]
    else if lt(x, s[0]) then [x] + s
    else
      assert s == [s[0]] + s[1..];
      [s[0]] + InsertBy(x, s[1..], lt)
  }

  /** The elements of `s` in sorted order. */
  function SortBy<T(==)>(s: seq<T>, lt: (T, T) -> bool): (r: seq<T>)
    ensures multiset(r) == multiset(s)
  {
    if s == [] then []
    else
      assert s == s[..|s| - 1] + [s[|s| - 1]];
      InsertBy(s[|s| - 1], SortBy(s[..|s| - 1], lt), lt)
  }

  lemma {:induction false} InsertBySorted<T(!new)>(x: T, s: seq<T>, lt: (T, T) -> bool)
    requires StrictOrder(lt) && SortedBy(s, lt)
    ensures SortedBy(InsertBy(x, s, lt), lt)
    decreases |s|
  {
    if s != [] && !lt(x, s[0]) {
      InsertBySorted(x, s[1..], lt);
      var tail := InsertBy(x, s[1..], lt);
      forall w | w in tail
        ensures !lt(w, s[0])
      {
        assert w in multiset(tail);
        if w != x {
          assert w in multiset(s[1..]);
        }
      }
    }
  }

  /** The sort's result is sorted; with the multiset contract above it is a
      sorted permutation of the input. */
  lemma {:induction false} SortBySorted<T(!new)>(s: seq<T>, lt: (T, T) -> bool)
    requires StrictOrder(lt)
    ensures SortedBy(SortBy(s, lt), lt)
    decreases |s|
  {
    if s != [] {
      SortBySorted(s[..|s| - 1], lt);
      InsertBySorted(s[|s| - 1], SortBy(s[..|s| - 1], lt), lt);
    }
  }
}
