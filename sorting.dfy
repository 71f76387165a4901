/** The in-place exchange sort that `GetEnabledProviders` runs on its slice
    (backend-go/models/provider.go): for each position i, every later
    element that is strictly smaller than the one at i is swapped into i.
    The same method stands for Go's `sort.Slice`, whose algorithm is library
    code; only the contract of `sort.Slice` (a permutation, ordered by the
    comparison) is relied on where it is used. */
module Sorting {

  /** Sorts `a` by non-decreasing `key`, in place. */
  method ExchangeSort<T>(a: array<T>, key: T -> real)
    modifies a
    ensures multiset(a[..]) == old(multiset(a[..]))
    ensures forall i, j :: 0 <= i < j < a.Length ==> key(a[i]) <= key(a[j])
  {
    var i := 0;
    while i < a.Length
      invariant 0 <= i <= a.Length
      invariant SortedBefore(a[..], key, i)
      invariant multiset(a[..]) == old(multiset(a[..]))
    {
      var j := i + 1;
      while j < a.Length
        invariant i < j <= a.Length
        invariant SortedBefore(a[..], key, i)
        invariant LeastUpTo(a[..], key, i, j)
        invariant multiset(a[..]) == old(multiset(a[..]))
      {
        if key(a[j]) < key(a[i]) {
          SwapStep(a[..], key, i, j);
          Swap(a, i, j);
        } else {
          LeastStep(a[..], key, i, j);
        }
        j := j + 1;
      }
      SortedStep(a[..], key, i);
      i := i + 1;
    }
    assert SortedBefore(a[..], key, a.Length);
  }

  /** Every element before `i` is placed no later than any element after
      it. */
  predicate SortedBefore<T>(s: seq<T>, key: T -> real, i: int) {
    forall p, q :: 0 <= p < q < |s| && p < i ==> key(s[p]) <= key(s[q])
  }

  /** `s[i]` has the least key of `s[i..j]`: what one pass of the inner
      loop has achieved so far. */
  predicate LeastUpTo<T>(s: seq<T>, key: T -> real, i: int, j: int)
    requires 0 <= i < |s| && j <= |s|
  {
    forall q :: i < q < j ==> key(s[i]) <= key(s[q])
  }

  /** Exchanging a smaller later element into `i` keeps both loop
      invariants. */
  lemma SwapStep<T>(s: seq<T>, key: T -> real, i: int, j: int)
    requires 0 <= i < j < |s|
    requires SortedBefore(s, key, i) && LeastUpTo(s, key, i, j)
    requires key(s[j]) < key(s[i])
    ensures SortedBefore(s[i := s[j]][j := s[i]], key, i)
    ensures LeastUpTo(s[i := s[j]][j := s[i]], key, i, j + 1)
  {
  }

  lemma LeastStep<T>(s: seq<T>, key: T -> real, i: int, j: int)
    requires 0 <= i < j < |s|
    requires LeastUpTo(s, key, i, j) && key(s[i]) <= key(s[j])
    ensures LeastUpTo(s, key, i, j + 1)
  {
  }

  lemma SortedStep<T>(s: seq<T>, key: T -> real, i: int)
    requires 0 <= i < |s|
    requires SortedBefore(s, key, i) && LeastUpTo(s, key, i, |s|)
    ensures SortedBefore(s, key, i + 1)
  {
  }

  /** Exchanges two elements. */
  method Swap<T>(a: array<T>, i: int, j: int)
    requires 0 <= i < j < a.Length
    modifies a
    ensures a[..] == old(a[..])[i := old(a[j])][j := old(a[i])]
    ensures multiset(a[..]) == old(multiset(a[..]))
  {
    a[i], a[j] := a[j], a[i];
  }

  /** An element at two positions occurs at least twice. */
  lemma CountAtLeastTwo<T>(s: seq<T>, i: int, j: int)
    requires 0 <= i < j < |s| && s[i] == s[j]
    ensures multiset(s)[s[i]] >= 2
  {
    assert s == s[..j] + [s[j]] + s[j + 1..];
    assert s[..j][i] == s[i];
    assert s[i] in multiset(s[..j]);
  }

  /** In a sequence where nothing occurs twice, positions hold distinct
      elements. */
  lemma DistinctElements<T>(s: seq<T>, i: int, j: int)
    requires forall x :: multiset(s)[x] <= 1
    requires 0 <= i < j < |s|
    ensures s[i] != s[j]
  {
    if s[i] == s[j] {
      CountAtLeastTwo(s, i, j);
    }
  }

  /** Pairwise distinct elements occur once each. */
  lemma {:induction false} DistinctCountOne<T>(s: seq<T>)
    requires forall i, j :: 0 <= i < j < |s| ==> s[i] != s[j]
    ensures forall x :: multiset(s)[x] <= 1
  {
    if s != [] {
      var init := s[..|s| - 1];
      forall i, j | 0 <= i < j < |init| ensures init[i] != init[j] {
        assert init[i] == s[i] && init[j] == s[j];
      }
      DistinctCountOne(init);
      assert s == init + [s[|s| - 1]];
      forall k | 0 <= k < |init| ensures init[k] != s[|s| - 1] {
        assert init[k] == s[k];
      }
      assert s[|s| - 1] !in init;
    }
  }

  /** Permutations have the same members. */
  lemma SameMembers<T>(a: seq<T>, b: seq<T>)
    requires multiset(a) == multiset(b)
    ensures forall c :: c in a <==> c in b
  {
    forall c ensures c in a <==> c in b {
      assert c in a <==> c in multiset(a);
      assert c in b <==> c in multiset(b);
    }
  }
}
