/**
 What callers may rely on from Go's `sort.Slice`: given a strict weak order it
 permutes the slice so that no element is less than an earlier one. It is not
 stable. The body is a stand-in for the library; callers use the contract only.
 */
module Sorting {
  /** The order `sort.Slice` asks of `less`, on the elements of `xs`. */
  ghost predicate StrictWeak<T(!new)>(less: (T, T) -> bool, xs: seq<T>) {
    && (forall x | x in xs :: !less(x, x))
    && (forall x, y, z | x in xs && y in xs && z in xs && less(x, y) && less(y, z) :: less(x, z))
    && (forall x, y, z | x in xs && y in xs && z in xs && less(x, z) :: less(x, y) || less(y, z))
  }

  ghost predicate Sorted<T(!new)>(less: (T, T) -> bool, xs: seq<T>) {
    forall i, j | 0 <= i < j < |xs| :: !less(xs[j], xs[i])
  }

  lemma SameElements<T>(xs: seq<T>, ys: seq<T>)
    requires multiset(xs) == multiset(ys)
    ensures |xs| == |ys| && forall x :: x in xs <==> x in ys
  {
    assert |multiset(xs)| == |xs| && |multiset(ys)| == |ys|;
    forall x ensures x in xs <==> x in ys {
      assert x in xs <==> x in multiset(xs);
      assert x in ys <==> x in multiset(ys);
    }
  }

  method SortSlice<T(!new)>(xs: seq<T>, less: (T, T) -> bool) returns (ys: seq<T>)
    requires StrictWeak(less, xs)
    ensures multiset(ys) == multiset(xs)
    ensures Sorted(less, ys)
  {
    ys := [];
    for n := 0 to |xs|
      invariant multiset(ys) == multiset(xs[..n])
      invariant Sorted(less, ys)
    {
      assert xs[..n + 1] == xs[..n] + [xs[n]];
      SameElements(ys, xs[..n]);
      ys := Insert(ys, xs[n], less, xs);
    }
    assert xs[..|xs|] == xs;
  }

  method Insert<T(!new)>(ys: seq<T>, x: T, less: (T, T) -> bool, ghost all: seq<T>) returns (zs: seq<T>)
    requires StrictWeak(less, all) && x in all && forall y | y in ys :: y in all
    requires Sorted(less, ys)
    ensures multiset(zs) == multiset(ys) + multiset{x}
    ensures Sorted(less, zs)
  {
    var k := |ys|;
    while k > 0 && less(x, ys[k - 1])
      invariant 0 <= k <= |ys|
      invariant forall i | k <= i < |ys| :: less(x, ys[i])
    {
      k := k - 1;
    }
    zs := ys[..k] + [x] + ys[k..];
    InsertedElements(ys, k, x);
    InsertedSorted(less, ys, k, x, all);
  }

  lemma InsertedElements<T>(ys: seq<T>, k: nat, x: T)
    requires k <= |ys|
    ensures multiset(ys[..k] + [x] + ys[k..]) == multiset(ys) + multiset{x}
  {
    assert ys == ys[..k] + ys[k..];
  }

  lemma InsertedSorted<T(!new)>(less: (T, T) -> bool, ys: seq<T>, k: nat, x: T, all: seq<T>)
    requires StrictWeak(less, all) && x in all && forall y | y in ys :: y in all
    requires Sorted(less, ys) && k <= |ys|
    requires k > 0 ==> !less(x, ys[k - 1])
    requires forall i | k <= i < |ys| :: less(x, ys[i])
    ensures Sorted(less, ys[..k] + [x] + ys[k..])
  {
    var zs := ys[..k] + [x] + ys[k..];
    forall i, j | 0 <= i < j < |zs| ensures !less(zs[j], zs[i]) {
      if j == k {
        // Were x less than ys[i], then ys[k-1] would be too, or x less than ys[k-1].
        assert ys[i] in ys && ys[k - 1] in ys;
        assert i < k - 1 ==> !less(ys[k - 1], ys[i]);
      } else if i == k {
        assert ys[j - 1] in ys && less(x, ys[j - 1]);
      }
    }
  }
}
