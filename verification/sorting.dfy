/**
 * A stable sort by a lexicographic integer key.  JavaScript's `Array.sort`
 * is stable, so with a comparator that only compares keys the order it
 * produces is exactly the stable sort below: elements with smaller keys
 * first, elements with equal keys in their original relative order.
 */
module Sorting {
  import opened Seqs

  /** A key compared first on `major`, then on `minor`. */
  datatype Key = Key(major: int, minor: int)

  predicate KeyLe(a: Key, b: Key)
  {
    a.major < b.major || (a.major == b.major && a.minor <= b.minor)
  }

  predicate SortedBy<T>(xs: seq<T>, key: T -> Key)
  {
    forall i, j :: 0 <= i < j < |xs| ==> KeyLe(key(xs[i]), key(xs[j]))
  }

  /** The elements of `xs` whose key is `k`, in order. */
  function WithKey<T>(xs: seq<T>, key: T -> Key, k: Key): seq<T>
  {
    if xs == [] then [] else (if key(xs[0]) == k then [xs[0]] else []) + WithKey(xs[1..], key, k)
  }

  /** Places `x` in front of the first element whose key is not smaller than its own. */
  function Insert<T>(x: T, xs: seq<T>, key: T -> Key): (r: seq<T>)
    requires SortedBy(xs, key)
    ensures SortedBy(r, key)
    ensures multiset(r) == multiset(xs) + multiset{x}
    ensures |r| == |xs| + 1 && (r[0] == x || (xs != [] && r[0] == xs[0]))
  {
    if xs == [] || KeyLe(key(x), key(xs[0])) then
      ConsSorted(x, xs, key);
      [x] + xs
    else
      TailSorted(xs, key);
      var rest := Insert(x, xs[1..], key);
      assert xs == [xs[0]] + xs[1..];
      assert KeyLe(key(xs[0]), key(rest[0]));
      ConsSorted(xs[0], rest, key);
      [xs[0]] + rest
  }

  /** An element no greater than the head of a sorted sequence can go in front of it. */
  lemma {:induction false} ConsSorted<T>(h: T, ys: seq<T>, key: T -> Key)
    requires SortedBy(ys, key) && (ys == [] || KeyLe(key(h), key(ys[0])))
    ensures SortedBy([h] + ys, key)
  {
    var r := [h] + ys;
    forall i, j | 0 <= i < j < |r|
      ensures KeyLe(key(r[i]), key(r[j]))
    {
      assert r[j] == ys[j - 1];
      if i > 0 {
        assert r[i] == ys[i - 1];
      } else if j > 1 {
        assert KeyLe(key(ys[0]), key(ys[j - 1]));
      }
    }
  }

  lemma {:induction false} TailSorted<T>(xs: seq<T>, key: T -> Key)
    requires SortedBy(xs, key) && xs != []
    ensures SortedBy(xs[1..], key)
  {
    forall i, j | 0 <= i < j < |xs| - 1
      ensures KeyLe(key(xs[1..][i]), key(xs[1..][j]))
    {
      assert xs[1..][i] == xs[i + 1] && xs[1..][j] == xs[j + 1];
    }
  }

  /** Stable insertion sort by ascending key. */
  function SortBy<T>(xs: seq<T>, key: T -> Key): (r: seq<T>)
    ensures SortedBy(r, key)
    ensures multiset(r) == multiset(xs)
    ensures |r| == |xs|
  {
    if xs == [] then []
    else
      var r := Insert(xs[0], SortBy(xs[1..], key), key);
      assert xs == [xs[0]] + xs[1..];
      assert |r| == |multiset(r)|;
      r
  }

  lemma {:induction false} InsertWithKey<T>(x: T, xs: seq<T>, key: T -> Key, k: Key)
    requires SortedBy(xs, key)
    ensures WithKey(Insert(x, xs, key), key, k)
         == (if key(x) == k then [x] else []) + WithKey(xs, key, k)
  {
    if xs == [] || KeyLe(key(x), key(xs[0])) {
      WithKeyCons(x, xs, key, k);
    } else {
      var rest := Insert(x, xs[1..], key);
      InsertWithKey(x, xs[1..], key, k);
      WithKeyCons(xs[0], rest, key, k);
      WithKeyCons(xs[0], xs[1..], key, k);
      assert xs == [xs[0]] + xs[1..];
      assert key(xs[0]) != k || key(x) != k;
    }
  }

  lemma {:induction false} WithKeyCons<T>(h: T, xs: seq<T>, key: T -> Key, k: Key)
    ensures WithKey([h] + xs, key, k) == (if key(h) == k then [h] else []) + WithKey(xs, key, k)
  {
    assert ([h] + xs)[0] == h && ([h] + xs)[1..] == xs;
  }

  /** Stability: for every key, the elements carrying it keep their original order. */
  lemma {:induction false} SortByStable<T>(xs: seq<T>, key: T -> Key, k: Key)
    ensures WithKey(SortBy(xs, key), key, k) == WithKey(xs, key, k)
  {
    if xs != [] {
      SortByStable(xs[1..], key, k);
      InsertWithKey(xs[0], SortBy(xs[1..], key), key, k);
    }
  }

  /** The elements carrying key `k` keep their relative order in `WithKey`. */
  lemma {:induction false} WithKeyPositions<T>(xs: seq<T>, key: T -> Key, k: Key, i: nat, j: nat)
    requires i < j < |xs| && key(xs[i]) == k && key(xs[j]) == k
    ensures exists p, q :: 0 <= p < q < |WithKey(xs, key, k)| && WithKey(xs, key, k)[p] == xs[i] && WithKey(xs, key, k)[q] == xs[j]
  {
    var w := WithKey(xs, key, k);
    var rest := WithKey(xs[1..], key, k);
    if i == 0 {
      WithKeyHas(xs[1..], key, k, j - 1);
      var q :| 0 <= q < |rest| && rest[q] == xs[j];
      assert w[0] == xs[0] && w[q + 1] == xs[j];
    } else {
      WithKeyPositions(xs[1..], key, k, i - 1, j - 1);
      var p, q :| 0 <= p < q < |rest| && rest[p] == xs[i] && rest[q] == xs[j];
      var d := |w| - |rest|;
      assert w[p + d] == xs[i] && w[q + d] == xs[j];
    }
  }

  lemma {:induction false} WithKeyHas<T>(xs: seq<T>, key: T -> Key, k: Key, j: nat)
    requires j < |xs| && key(xs[j]) == k
    ensures exists q :: 0 <= q < |WithKey(xs, key, k)| && WithKey(xs, key, k)[q] == xs[j]
  {
    var w := WithKey(xs, key, k);
    var rest := WithKey(xs[1..], key, k);
    if j == 0 {
      assert w[0] == xs[0];
    } else {
      WithKeyHas(xs[1..], key, k, j - 1);
      var q :| 0 <= q < |rest| && rest[q] == xs[j];
      var d := |w| - |rest|;
      assert w[q + d] == xs[j];
    }
  }

  /** Conversely, the order in `WithKey` is an order of positions in `xs`. */
  lemma {:induction false} WithKeyIndices<T>(xs: seq<T>, key: T -> Key, k: Key, p: nat, q: nat)
    requires p < q < |WithKey(xs, key, k)|
    ensures exists i, j :: 0 <= i < j < |xs| && xs[i] == WithKey(xs, key, k)[p] && xs[j] == WithKey(xs, key, k)[q]
  {
    var w := WithKey(xs, key, k);
    var rest := WithKey(xs[1..], key, k);
    if key(xs[0]) == k && p == 0 {
      WithKeyElem(xs[1..], key, k, q - 1);
      var j :| 0 <= j < |xs[1..]| && xs[1..][j] == rest[q - 1];
      assert xs[j + 1] == w[q];
    } else {
      var d := |w| - |rest|;
      WithKeyIndices(xs[1..], key, k, p - d, q - d);
      var i, j :| 0 <= i < j < |xs[1..]| && xs[1..][i] == rest[p - d] && xs[1..][j] == rest[q - d];
      assert xs[i + 1] == w[p] && xs[j + 1] == w[q];
    }
  }

  lemma {:induction false} WithKeyElem<T>(xs: seq<T>, key: T -> Key, k: Key, q: nat)
    requires q < |WithKey(xs, key, k)|
    ensures exists j :: 0 <= j < |xs| && xs[j] == WithKey(xs, key, k)[q]
  {
    var w := WithKey(xs, key, k);
    var rest := WithKey(xs[1..], key, k);
    if key(xs[0]) == k && q == 0 {
      assert xs[0] == w[0];
    } else {
      var d := |w| - |rest|;
      WithKeyElem(xs[1..], key, k, q - d);
      var j :| 0 <= j < |xs[1..]| && xs[1..][j] == rest[q - d];
      assert xs[j + 1] == w[q];
    }
  }

  /**
   * Stability stated on positions: two elements with equal keys that are
   * in order after sorting were in order before it.
   */
  lemma {:induction false} SortedTiesKeepOrder<T>(xs: seq<T>, key: T -> Key, i: nat, j: nat)
    requires i < j < |SortBy(xs, key)| && key(SortBy(xs, key)[i]) == key(SortBy(xs, key)[j])
    ensures exists a, b :: 0 <= a < b < |xs| && xs[a] == SortBy(xs, key)[i] && xs[b] == SortBy(xs, key)[j]
  {
    var r := SortBy(xs, key);
    var k := key(r[i]);
    WithKeyPositions(r, key, k, i, j);
    var p, q :| 0 <= p < q < |WithKey(r, key, k)| && WithKey(r, key, k)[p] == r[i] && WithKey(r, key, k)[q] == r[j];
    SortByStable(xs, key, k);
    WithKeyIndices(xs, key, k, p, q);
  }

  /** Dropping elements from a sorted sequence leaves it sorted. */
  lemma {:induction false} SubseqSorted<T(!new)>(xs: seq<T>, ys: seq<T>, key: T -> Key)
    requires IsSubseq(xs, ys) && SortedBy(ys, key)
    ensures SortedBy(xs, key)
  {
    if xs != [] {
      assert SortedBy(ys[1..], key) by {
        forall i, j | 0 <= i < j < |ys[1..]|
          ensures KeyLe(key(ys[1..][i]), key(ys[1..][j]))
        {
          assert ys[1..][i] == ys[i + 1] && ys[1..][j] == ys[j + 1];
        }
      }
      if xs[0] == ys[0] && IsSubseq(xs[1..], ys[1..]) {
        SubseqSorted(xs[1..], ys[1..], key);
        SubseqMembers(xs[1..], ys[1..]);
        forall j | 0 < j < |xs|
          ensures KeyLe(key(xs[0]), key(xs[j]))
        {
          assert xs[1..][j - 1] == xs[j];
          assert xs[j] in ys[1..];
          var k :| 0 <= k < |ys[1..]| && ys[1..][k] == xs[j];
          assert ys[k + 1] == xs[j];
        }
      } else {
        SubseqSorted(xs, ys[1..], key);
      }
    }
  }
}
