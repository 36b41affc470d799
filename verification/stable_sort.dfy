/**
 * Python's `sorted` and `list.sort` are stable. When the sort key takes
 * only the values 0 .. n-1, a stable sort is the same as listing the
 * elements of key 0 in their original order, then those of key 1, and so
 * on. This module defines that listing and proves it is what a stable sort
 * must return: ordered by the key, a permutation of its input, and keeping
 * the input order among elements with equal keys.
 */
module StableSort {

  /** The elements of `xs` whose key is `k`, in their order in `xs`. */
  function Bucket<T>(xs: seq<T>, key: T -> nat, k: nat): (r: seq<T>)
    ensures |r| <= |xs|
    decreases |xs|
  {
    if |xs| == 0 then []
    else if key(xs[0]) == k then [xs[0]] + Bucket(xs[1..], key, k)
    else Bucket(xs[1..], key, k)
  }

  /** The buckets 0 .. n-1 one after another. */
  function SortByKey<T>(xs: seq<T>, key: T -> nat, n: nat): seq<T>
    decreases n
  {
    if n == 0 then [] else SortByKey(xs, key, n - 1) + Bucket(xs, key, n - 1)
  }

  /** The elements whose key is `n` or more, which no bucket below `n` takes. */
  function Over<T>(xs: seq<T>, key: T -> nat, n: nat): seq<T>
    decreases |xs|
  {
    if |xs| == 0 then []
    else if key(xs[0]) >= n then [xs[0]] + Over(xs[1..], key, n)
    else Over(xs[1..], key, n)
  }

  predicate SortedBy<T>(xs: seq<T>, key: T -> nat) {
    forall i, j :: 0 <= i < j < |xs| ==> key(xs[i]) <= key(xs[j])
  }

  predicate KeysBelow<T>(xs: seq<T>, key: T -> nat, n: nat) {
    forall i :: 0 <= i < |xs| ==> key(xs[i]) < n
  }

  // ------------------------------------------------------------------
  // Buckets
  // ------------------------------------------------------------------

  /** Every element of bucket `k` has key `k`. */
  lemma {:induction false} BucketKeys<T>(xs: seq<T>, key: T -> nat, k: nat)
    ensures forall i :: 0 <= i < |Bucket(xs, key, k)| ==> key(Bucket(xs, key, k)[i]) == k
    decreases |xs|
  {
    if |xs| > 0 {
      BucketKeys(xs[1..], key, k);
    }
  }

  lemma {:induction false} BucketAppend<T>(a: seq<T>, b: seq<T>, key: T -> nat, k: nat)
    ensures Bucket(a + b, key, k) == Bucket(a, key, k) + Bucket(b, key, k)
    decreases |a|
  {
    if |a| == 0 {
      assert a + b == b;
    } else {
      assert (a + b)[0] == a[0];
      assert (a + b)[1..] == a[1..] + b;
      BucketAppend(a[1..], b, key, k);
    }
  }

  /** A bucket of a bucket: the same bucket, or nothing. */
  lemma {:induction false} BucketOfBucket<T>(xs: seq<T>, key: T -> nat, k: nat, j: nat)
    ensures Bucket(Bucket(xs, key, k), key, j) == if j == k then Bucket(xs, key, k) else []
    decreases |xs|
  {
    if |xs| > 0 {
      BucketOfBucket(xs[1..], key, k, j);
      var rest := Bucket(xs[1..], key, k);
      if key(xs[0]) == k {
        assert ([xs[0]] + rest)[0] == xs[0];
        assert ([xs[0]] + rest)[1..] == rest;
      }
    }
  }

  /** No element has a key at or above the bound. */
  lemma {:induction false} BucketNone<T>(xs: seq<T>, key: T -> nat, k: nat)
    requires KeysBelow(xs, key, k)
    ensures Bucket(xs, key, k) == []
    decreases |xs|
  {
    if |xs| > 0 {
      assert KeysBelow(xs[1..], key, k) by {
        forall i | 0 <= i < |xs| - 1
          ensures key(xs[1..][i]) < k
        {
          assert xs[1..][i] == xs[i + 1];
        }
      }
      BucketNone(xs[1..], key, k);
    }
  }

  lemma {:induction false} OverNone<T>(xs: seq<T>, key: T -> nat, n: nat)
    requires KeysBelow(xs, key, n)
    ensures Over(xs, key, n) == []
    decreases |xs|
  {
    if |xs| > 0 {
      assert KeysBelow(xs[1..], key, n) by {
        forall i | 0 <= i < |xs| - 1
          ensures key(xs[1..][i]) < n
        {
          assert xs[1..][i] == xs[i + 1];
        }
      }
      OverNone(xs[1..], key, n);
    }
  }

  lemma {:induction false} OverZero<T>(xs: seq<T>, key: T -> nat)
    ensures Over(xs, key, 0) == xs
    decreases |xs|
  {
    if |xs| > 0 {
      OverZero(xs[1..], key);
      assert [xs[0]] + xs[1..] == xs;
    }
  }

  // ------------------------------------------------------------------
  // Multiplicities
  // ------------------------------------------------------------------

  /** What is over `n` is bucket `n` and what is over `n + 1`. */
  lemma {:induction false} OverSplit<T>(xs: seq<T>, key: T -> nat, n: nat)
    ensures multiset(Over(xs, key, n)) == multiset(Bucket(xs, key, n)) + multiset(Over(xs, key, n + 1))
    decreases |xs|
  {
    if |xs| > 0 {
      OverSplit(xs[1..], key, n);
    }
  }

  lemma Regroup<T>(below: multiset<T>, bucket: multiset<T>, over: multiset<T>, above: multiset<T>, whole: multiset<T>)
    requires below + over == whole
    requires over == bucket + above
    ensures (below + bucket) + above == whole
  {
    assert (below + bucket) + above == below + (bucket + above);
  }

  /** Every element lands in a bucket below `n`, or is over the bound. */
  lemma {:induction false} BucketsAndOver<T>(xs: seq<T>, key: T -> nat, n: nat)
    ensures multiset(SortByKey(xs, key, n)) + multiset(Over(xs, key, n)) == multiset(xs)
    decreases n
  {
    if n == 0 {
      OverZero(xs, key);
      assert multiset(SortByKey(xs, key, 0)) == multiset{};
    } else {
      BucketsAndOver(xs, key, n - 1);
      BucketsAndOverStep(xs, key, n);
    }
  }

  lemma BucketsAndOverStep<T>(xs: seq<T>, key: T -> nat, n: nat)
    requires n > 0
    requires multiset(SortByKey(xs, key, n - 1)) + multiset(Over(xs, key, n - 1)) == multiset(xs)
    ensures multiset(SortByKey(xs, key, n)) + multiset(Over(xs, key, n)) == multiset(xs)
  {
    OverSplit(xs, key, n - 1);
    Regroup(multiset(SortByKey(xs, key, n - 1)), multiset(Bucket(xs, key, n - 1)),
            multiset(Over(xs, key, n - 1)), multiset(Over(xs, key, n)), multiset(xs));
  }

  // ------------------------------------------------------------------
  // The three properties of a stable sort
  // ------------------------------------------------------------------

  /** The listing is ordered by the key, and every key in it is below `n`. */
  lemma {:induction false} SortByKeySorted<T>(xs: seq<T>, key: T -> nat, n: nat)
    ensures SortedBy(SortByKey(xs, key, n), key)
    ensures KeysBelow(SortByKey(xs, key, n), key, n)
    decreases n
  {
    if n > 0 {
      SortByKeySorted(xs, key, n - 1);
      BucketKeys(xs, key, n - 1);
      var p := SortByKey(xs, key, n - 1);
      var b := Bucket(xs, key, n - 1);
      var r := p + b;
      forall i, j | 0 <= i < j < |r|
        ensures key(r[i]) <= key(r[j])
      {
        if j < |p| {
          assert r[i] == p[i] && r[j] == p[j];
        } else if i < |p| {
          assert r[i] == p[i] && r[j] == b[j - |p|];
        } else {
          assert r[i] == b[i - |p|] && r[j] == b[j - |p|];
        }
      }
      forall i | 0 <= i < |r|
        ensures key(r[i]) < n
      {
        if i < |p| {
          assert r[i] == p[i];
        } else {
          assert r[i] == b[i - |p|];
        }
      }
    }
  }

  /** Among elements of equal key the listing keeps the input's order: its
      bucket `k` is the input's bucket `k`. */
  lemma {:induction false} SortByKeyStable<T>(xs: seq<T>, key: T -> nat, n: nat, k: nat)
    requires k < n
    ensures Bucket(SortByKey(xs, key, n), key, k) == Bucket(xs, key, k)
    decreases n
  {
    if k < n - 1 {
      SortByKeyStable(xs, key, n - 1, k);
      StableBelowTop(xs, key, n, k);
    } else {
      StableAtTop(xs, key, n);
    }
  }

  /** A bucket below the last one comes only from the listing before it. */
  lemma StableBelowTop<T>(xs: seq<T>, key: T -> nat, n: nat, k: nat)
    requires k + 1 < n
    ensures Bucket(SortByKey(xs, key, n), key, k) == Bucket(SortByKey(xs, key, n - 1), key, k)
  {
    var p := SortByKey(xs, key, n - 1);
    var b := Bucket(xs, key, n - 1);
    BucketAppend(p, b, key, k);
    BucketOfBucket(xs, key, n - 1, k);
    assert Bucket(p, key, k) + [] == Bucket(p, key, k);
  }

  /** The last bucket of the listing is the input's last bucket. */
  lemma StableAtTop<T>(xs: seq<T>, key: T -> nat, n: nat)
    requires n > 0
    ensures Bucket(SortByKey(xs, key, n), key, n - 1) == Bucket(xs, key, n - 1)
  {
    var p := SortByKey(xs, key, n - 1);
    var b := Bucket(xs, key, n - 1);
    BucketAppend(p, b, key, n - 1);
    BucketOfBucket(xs, key, n - 1, n - 1);
    SortByKeySorted(xs, key, n - 1);
    BucketNone(p, key, n - 1);
    assert [] + b == b;
  }

  /** When every key is below `n`, the listing is a permutation of the
      input. */
  lemma SortByKeyPermutation<T>(xs: seq<T>, key: T -> nat, n: nat)
    requires KeysBelow(xs, key, n)
    ensures multiset(SortByKey(xs, key, n)) == multiset(xs)
  {
    OverNone(xs, key, n);
    BucketsAndOver(xs, key, n);
  }
}
