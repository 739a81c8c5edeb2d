/** Small sequence operations shared by the text codec and the edge lists. */
module Seqs {

  /** Index of the first element equal to `x`, or `|s|` when there is none
      (`iter().position(..).unwrap_or(len)`). */
  function IndexOf<T(==)>(s: seq<T>, x: T): (r: nat)
    ensures r <= |s|
    ensures r < |s| ==> s[r] == x
    ensures forall k :: 0 <= k < r ==> s[k] != x
    ensures r == |s| <==> x !in s
  {
    if s == [] then 0
    else if s[0] == x then 0
    else 1 + IndexOf(s[1..], x)
  }

  /** The first occurrence is found past a prefix that does not contain it. */
  lemma {:induction false} IndexOfPastPrefix<T>(a: seq<T>, x: T, b: seq<T>)
    requires x !in a
    ensures IndexOf(a + [x] + b, x) == |a|
  {
    if a != [] {
      assert (a + [x] + b)[1..] == a[1..] + [x] + b;
      IndexOfPastPrefix(a[1..], x, b);
    }
  }

  /** `Vec::swap_remove`: the last element takes the place of the removed one. */
  function SwapRemove<T>(s: seq<T>, i: nat): (r: seq<T>)
    requires i < |s|
    ensures |r| == |s| - 1
    ensures forall k :: 0 <= k < |r| && k != i ==> r[k] == s[k]
    ensures i < |r| ==> r[i] == s[|s| - 1]
  {
    s[i := s[|s| - 1]][..|s| - 1]
  }

  /** Swap-removal deletes exactly one occurrence of the removed element. */
  lemma SwapRemoveMultiset<T>(s: seq<T>, i: nat)
    requires i < |s|
    ensures multiset(SwapRemove(s, i)) == multiset(s) - multiset{s[i]}
  {
    var n := |s|;
    var q := s[i := s[n - 1]];
    assert q == SwapRemove(s, i) + [s[n - 1]];
    assert multiset(q) == multiset(SwapRemove(s, i)) + multiset{s[n - 1]};
    assert multiset(q) == multiset(s) - multiset{s[i]} + multiset{s[n - 1]};
    MultisetCancel(multiset(SwapRemove(s, i)), multiset(s) - multiset{s[i]}, s[n - 1]);
  }

  lemma MultisetCancel<T>(a: multiset<T>, b: multiset<T>, y: T)
    requires a + multiset{y} == b + multiset{y}
    ensures a == b
  {
    assert forall z :: a[z] == (a + multiset{y})[z] - multiset{y}[z];
  }
}
