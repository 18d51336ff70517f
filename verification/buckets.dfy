/**
 Grouping a slice by a key, as several rules do with a Go map of slices, and visiting
 the groups in the arbitrary order of Go's map iteration.
 */
module Buckets {
  /** The elements of `xs` with key `k`, in order. */
  function Bucket<T(!new), K(==)>(xs: seq<T>, key: T -> K, k: K): seq<T> {
    if xs == [] then []
    else
      var n := |xs| - 1;
      Bucket(xs[..n], key, k) + if key(xs[n]) == k then [xs[n]] else []
  }

  /** The elements of `xs` whose key is one of `ks`, in order. */
  function Within<T(!new), K(==)>(xs: seq<T>, key: T -> K, ks: seq<K>): seq<T> {
    if xs == [] then []
    else
      var n := |xs| - 1;
      Within(xs[..n], key, ks) + if key(xs[n]) in ks then [xs[n]] else []
  }

  lemma {:induction false} BucketMembers<T(!new), K>(xs: seq<T>, key: T -> K, k: K)
    ensures forall x :: x in Bucket(xs, key, k) <==> x in xs && key(x) == k
  {
    if xs != [] {
      BucketMembers(xs[..|xs| - 1], key, k);
    }
  }

  lemma {:induction false} BucketDistinct<T(!new), K>(xs: seq<T>, key: T -> K, k: K)
    requires Distinct(xs)
    ensures Distinct(Bucket(xs, key, k))
  {
    if xs != [] {
      var n := |xs| - 1;
      BucketDistinct(xs[..n], key, k);
      BucketMembers(xs[..n], key, k);
    }
  }

  /** Adding one more key adds exactly its bucket. */
  lemma {:induction false} WithinGrows<T(!new), K>(xs: seq<T>, key: T -> K, ks: seq<K>, k: K)
    requires k !in ks
    ensures multiset(Within(xs, key, ks + [k])) == multiset(Within(xs, key, ks)) + multiset(Bucket(xs, key, k))
  {
    if xs != [] {
      WithinGrows(xs[..|xs| - 1], key, ks, k);
    }
  }

  /** The step of a loop that appends the buckets one after the other. */
  lemma WithinNext<T(!new), K>(xs: seq<T>, key: T -> K, ks: seq<K>, n: nat)
    requires Distinct(ks) && n < |ks|
    ensures multiset(Within(xs, key, ks[..n + 1]))
        == multiset(Within(xs, key, ks[..n])) + multiset(Bucket(xs, key, ks[n]))
  {
    assert ks[..n + 1] == ks[..n] + [ks[n]];
    WithinGrows(xs, key, ks[..n], ks[n]);
  }

  lemma {:induction false} WithinAll<T(!new), K>(xs: seq<T>, key: T -> K, ks: seq<K>)
    requires forall x | x in xs :: key(x) in ks
    ensures Within(xs, key, ks) == xs
  {
    if xs != [] {
      var n := |xs| - 1;
      assert xs == xs[..n] + [xs[n]] && xs[n] in xs;
      WithinAll(xs[..n], key, ks);
    }
  }

  lemma {:induction false} WithinNone<T(!new), K>(xs: seq<T>, key: T -> K)
    ensures Within(xs, key, []) == []
  {
    if xs != [] {
      WithinNone(xs[..|xs| - 1], key);
    }
  }

  ghost predicate Distinct<T>(xs: seq<T>) {
    forall i, j | 0 <= i < j < |xs| :: xs[i] != xs[j]
  }

  lemma PermutationStaysDistinct<T(!new)>(xs: seq<T>, ys: seq<T>)
    requires Distinct(xs) && multiset(xs) == multiset(ys)
    ensures Distinct(ys)
  {
    forall i, j | 0 <= i < j < |ys| ensures ys[i] != ys[j] {
      if ys[i] == ys[j] {
        DistinctMeansOnce(xs, ys[i]);
        RepeatedMeansTwice(ys, i, j);
        assert false;
      }
    }
  }

  lemma RepeatedMeansTwice<T(!new)>(ys: seq<T>, i: nat, j: nat)
    requires i < j < |ys| && ys[i] == ys[j]
    ensures multiset(ys)[ys[i]] >= 2
  {
    assert ys == ys[..j] + [ys[j]] + ys[j + 1..];
    assert ys[..j][i] == ys[i];
  }

  lemma {:induction false} DistinctMeansOnce<T(!new)>(xs: seq<T>, x: T)
    requires Distinct(xs)
    ensures multiset(xs)[x] <= 1
  {
    if xs != [] {
      var n := |xs| - 1;
      DistinctMeansOnce(xs[..n], x);
      assert xs == xs[..n] + [xs[n]];
      if x == xs[n] {
        assert x !in xs[..n];
      }
    }
  }

  /** The loop `for _, x := range xs { groups[key(x)] = append(groups[key(x)], x) }`. */
  method Gather<T(!new), K(==)>(xs: seq<T>, key: T -> K) returns (groups: map<K, seq<T>>)
    ensures forall k <- groups :: groups[k] == Bucket(xs, key, k) && groups[k] != []
    ensures forall k :: k in groups <==> Bucket(xs, key, k) != []
    ensures forall x | x in xs :: key(x) in groups
  {
    groups := map[];
    for i := 0 to |xs|
      invariant forall x | x in xs[..i] :: key(x) in groups
      invariant forall k <- groups :: groups[k] == Bucket(xs[..i], key, k) && groups[k] != []
      invariant forall k :: k !in groups ==> Bucket(xs[..i], key, k) == []
    {
      var k := key(xs[i]);
      ghost var before := groups;
      groups := groups[k := (if k in groups then groups[k] else []) + [xs[i]]];
      assert xs[..i + 1][..i] == xs[..i];
      forall l <- groups ensures groups[l] == Bucket(xs[..i + 1], key, l) && groups[l] != [] {
        assert Bucket(xs[..i + 1], key, l) == Bucket(xs[..i], key, l) + if l == k then [xs[i]] else [];
        assert l != k ==> l in before && groups[l] == before[l];
      }
    }
    assert xs[..|xs|] == xs;
  }

  /** The keys of a map, in whatever order iteration produces them. */
  method KeysOf<K, V>(groups: map<K, V>) returns (keys: seq<K>)
    ensures Distinct(keys) && forall k :: k in keys <==> k in groups
  {
    keys := [];
    var todo := groups.Keys;
    while todo != {}
      invariant todo <= groups.Keys && Distinct(keys)
      invariant forall k :: k in keys <==> k in groups && k !in todo
      decreases todo
    {
      var k :| k in todo;
      keys, todo := keys + [k], todo - {k};
    }
  }
}
