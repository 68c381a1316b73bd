/** Sorting by a comparison that is a strict weak order on the sorted elements.
    Like sort.Slice, the result is only promised to be ordered and a permutation. */
module Sorting {

  ghost predicate WeakOrder<T(!new)>(s: seq<T>, less: (T, T) -> bool) {
    && (forall a, b :: a in s && b in s && less(a, b) ==> !less(b, a))
    && (forall a, b, c :: a in s && b in s && c in s && !less(a, b) && !less(b, c) ==> !less(a, c))
  }

  ghost predicate Ordered<T(!new)>(s: seq<T>, less: (T, T) -> bool) {
    forall i, j :: 0 <= i < j < |s| ==> !less(s[j], s[i])
  }

  method SortBy<T(==, !new)>(s: seq<T>, less: (T, T) -> bool) returns (r: seq<T>)
    requires WeakOrder(s, less)
    ensures multiset(r) == multiset(s)
    ensures Ordered(r, less)
  {
    r := [];
    for i := 0 to |s|
      invariant multiset(r) == multiset(s[..i])
      invariant Ordered(r, less)
    {
      var k := |r|;
      while k > 0 && less(s[i], r[k - 1])
        invariant 0 <= k <= |r|
        invariant k < |r| ==> less(s[i], r[k])
      {
        k := k - 1;
      }
      PlacedOrdered(s, r, less, s[i], k, i);
      assert r == r[..k] + r[k..];
      r := r[..k] + [s[i]] + r[k..];
      assert s[..i + 1] == s[..i] + [s[i]];
    }
    assert s[..|s|] == s;
  }

  lemma PlacedOrdered<T(!new)>(s: seq<T>, r: seq<T>, less: (T, T) -> bool, x: T, k: nat, i: nat)
    requires i < |s| && x == s[i] && k <= |r|
    requires multiset(r) == multiset(s[..i])
    requires WeakOrder(s, less) && Ordered(r, less)
    requires k > 0 ==> !less(x, r[k - 1])
    requires k < |r| ==> less(x, r[k])
    ensures Ordered(r[..k] + [x] + r[k..], less)
  {
    forall j | 0 <= j < |r|
      ensures r[j] in s
    {
      assert r[j] in multiset(r);
    }
    forall j | 0 <= j < |r|
      ensures if j < k then !less(x, r[j]) else !less(r[j], x)
    {
      if j < k - 1 {
        assert !less(x, r[k - 1]) && !less(r[k - 1], r[j]);
      } else if j > k {
        assert !less(r[j], r[k]) && !less(r[k], x);
      }
    }
  }

  /** A permutation has the same members and, if one has no repetition, neither has the other. */
  lemma SameMembers<T>(s: seq<T>, r: seq<T>)
    requires multiset(r) == multiset(s)
    ensures |r| == |s|
    ensures forall x :: x in r <==> x in s
  {
    assert |multiset(r)| == |r| && |multiset(s)| == |s|;
    forall x
      ensures x in r <==> x in s
    {
      assert x in r <==> x in multiset(r);
      assert x in s <==> x in multiset(s);
    }
  }

  ghost predicate NoRepeats<T>(s: seq<T>) {
    forall i, j :: 0 <= i < j < |s| ==> s[i] != s[j]
  }

  lemma {:induction false} NoRepeatsCount<T>(s: seq<T>, x: T)
    requires NoRepeats(s)
    ensures multiset(s)[x] <= 1
  {
    if s != [] {
      NoRepeatsCount(s[1..], x);
      assert s == [s[0]] + s[1..];
      if s[0] == x {
        assert x !in s[1..];
        assert x !in multiset(s[1..]);
      }
    }
  }

  lemma PermutationNoRepeats<T>(s: seq<T>, r: seq<T>)
    requires NoRepeats(s) && multiset(r) == multiset(s)
    ensures NoRepeats(r)
  {
    forall i, j | 0 <= i < j < |r|
      ensures r[i] != r[j]
    {
      NoRepeatsCount(s, r[j]);
      assert r == r[..j] + [r[j]] + r[j + 1..];
      assert multiset(r[..j])[r[j]] == 0;
      assert r[..j][i] in multiset(r[..j]);
    }
  }
}
