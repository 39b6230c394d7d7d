/**
 * Order-preserving filtering, subsequences and occurrence counts over
 * sequences: the vocabulary the list pages of the directory are stated in.
 */
module Seqs {
  import opened Wrappers

  /** The elements of `xs` that satisfy `p`, in their original order (JavaScript's `Array.filter`). */
  function Filter<T(==,!new)>(xs: seq<T>, p: T -> bool): (r: seq<T>)
    ensures |r| <= |xs|
    ensures forall x :: x in r <==> x in xs && p(x)
  {
    if xs == [] then []
    else (if p(xs[0]) then [xs[0]] else []) + Filter(xs[1..], p)
  }

  /** The values `f` yields for the elements of `xs`, in order, skipping the elements it yields nothing for. */
  function FilterMap<T, U>(xs: seq<T>, f: T -> Option<U>): seq<U>
  {
    if xs == [] then []
    else (if f(xs[0]).Some? then [f(xs[0]).value] else []) + FilterMap(xs[1..], f)
  }

  /** Mapping two sequences end to end maps each in turn; one element yields its own value, if any. */
  lemma {:induction false} FilterMapConcat<T, U>(a: seq<T>, b: seq<T>, f: T -> Option<U>)
    ensures FilterMap(a + b, f) == FilterMap(a, f) + FilterMap(b, f)
    ensures forall x :: FilterMap([x], f) == (if f(x).Some? then [f(x).value] else [])
  {
    if a != [] {
      var head := if f(a[0]).Some? then [f(a[0]).value] else [];
      assert (a + b)[0] == a[0] && (a + b)[1..] == a[1..] + b;
      FilterMapConcat(a[1..], b, f);
      calc {
        FilterMap(a + b, f);
        head + FilterMap(a[1..] + b, f);
        head + (FilterMap(a[1..], f) + FilterMap(b, f));
        (head + FilterMap(a[1..], f)) + FilterMap(b, f);
      }
    } else {
      assert a + b == b;
    }
    forall x
      ensures FilterMap([x], f) == (if f(x).Some? then [f(x).value] else [])
    {
      assert [x][1..] == [];
    }
  }

  /** A value is yielded exactly when some element yields it. */
  lemma {:induction false} FilterMapMembers<T, U>(xs: seq<T>, f: T -> Option<U>)
    ensures forall y :: y in FilterMap(xs, f) <==> exists x :: x in xs && f(x) == Some(y)
  {
    if xs != [] {
      FilterMapMembers(xs[1..], f);
      assert forall x :: x in xs <==> x == xs[0] || x in xs[1..];
    }
  }

  /** `xs` can be obtained from `ys` by deleting elements, without reordering. */
  predicate IsSubseq<T(==)>(xs: seq<T>, ys: seq<T>)
  {
    if xs == [] then true
    else if ys == [] then false
    else (xs[0] == ys[0] && IsSubseq(xs[1..], ys[1..])) || IsSubseq(xs, ys[1..])
  }

  /** Number of occurrences of `x` in `xs`. */
  function Count<T(==)>(xs: seq<T>, x: T): nat
  {
    if xs == [] then 0 else (if xs[0] == x then 1 else 0) + Count(xs[1..], x)
  }

  /** No element occurs twice. */
  predicate NoDups<T(==)>(xs: seq<T>)
  {
    forall i, j :: 0 <= i < j < |xs| ==> xs[i] != xs[j]
  }

  /** The first `n` elements, or all of them when there are fewer (JavaScript's `slice(0, n)`). */
  function Take<T>(xs: seq<T>, n: nat): (r: seq<T>)
    ensures |r| <= n && |r| <= |xs|
    ensures |xs| <= n ==> r == xs
    ensures |xs| > n ==> |r| == n
    ensures forall i :: 0 <= i < |r| ==> r[i] == xs[i]
  {
    if |xs| <= n then xs else xs[..n]
  }

  lemma {:induction false} FilterIsSubseq<T(!new)>(xs: seq<T>, p: T -> bool)
    ensures IsSubseq(Filter(xs, p), xs)
  {
    if xs != [] {
      FilterIsSubseq(xs[1..], p);
      var rest := Filter(xs[1..], p);
      if p(xs[0]) {
        assert Filter(xs, p) == [xs[0]] + rest;
        assert ([xs[0]] + rest)[1..] == rest;
      } else {
        assert Filter(xs, p) == rest;
        SubseqOfTail(rest, xs);
      }
    }
  }

  /** A subsequence of the tail is a subsequence of the whole. */
  lemma {:induction false} SubseqOfTail<T>(xs: seq<T>, ys: seq<T>)
    requires ys != [] && IsSubseq(xs, ys[1..])
    ensures IsSubseq(xs, ys)
  {
  }

  lemma {:induction false} SubseqRefl<T>(xs: seq<T>)
    ensures IsSubseq(xs, xs)
  {
    if xs != [] {
      SubseqRefl(xs[1..]);
    }
  }

  /** Every element of a subsequence is an element of the sequence. */
  lemma {:induction false} SubseqMembers<T(!new)>(xs: seq<T>, ys: seq<T>)
    requires IsSubseq(xs, ys)
    ensures forall x :: x in xs ==> x in ys
  {
    if xs != [] && ys != [] {
      if xs[0] == ys[0] && IsSubseq(xs[1..], ys[1..]) {
        SubseqMembers(xs[1..], ys[1..]);
        assert forall x :: x in xs ==> x == xs[0] || x in xs[1..];
      } else {
        SubseqMembers(xs, ys[1..]);
      }
    }
  }

  lemma {:induction false} SubseqTrans<T>(xs: seq<T>, ys: seq<T>, zs: seq<T>)
    requires IsSubseq(xs, ys) && IsSubseq(ys, zs)
    ensures IsSubseq(xs, zs)
    decreases |zs|
  {
    if xs != [] {
      assert ys != [] && zs != [];
      if ys[0] == zs[0] && IsSubseq(ys[1..], zs[1..]) {
        if xs[0] == ys[0] && IsSubseq(xs[1..], ys[1..]) {
          SubseqTrans(xs[1..], ys[1..], zs[1..]);
        } else {
          SubseqTrans(xs, ys[1..], zs[1..]);
          SubseqOfTail(xs, zs);
        }
      } else {
        SubseqTrans(xs, ys, zs[1..]);
        SubseqOfTail(xs, zs);
      }
    }
  }

  /** A prefix is a subsequence. */
  lemma {:induction false} TakeIsSubseq<T>(xs: seq<T>, n: nat)
    ensures IsSubseq(Take(xs, n), xs)
  {
    if |xs| <= n {
      SubseqRefl(xs);
    } else {
      PrefixIsSubseq(xs, n);
    }
  }

  lemma {:induction false} PrefixIsSubseq<T>(xs: seq<T>, n: nat)
    requires n <= |xs|
    ensures IsSubseq(xs[..n], xs)
  {
    if n > 0 {
      PrefixIsSubseq(xs[1..], n - 1);
      assert xs[..n][1..] == xs[1..][..n - 1];
    }
  }

  lemma {:induction false} FilterConcat<T(!new)>(a: seq<T>, b: seq<T>, p: T -> bool)
    ensures Filter(a + b, p) == Filter(a, p) + Filter(b, p)
  {
    if a != [] {
      assert (a + b)[1..] == a[1..] + b;
      FilterConcat(a[1..], b, p);
    } else {
      assert a + b == b;
    }
  }

  /** Filtering twice with the same predicate changes nothing the second time. */
  lemma {:induction false} FilterIdempotent<T(!new)>(xs: seq<T>, p: T -> bool)
    ensures Filter(Filter(xs, p), p) == Filter(xs, p)
  {
    if xs != [] {
      FilterIdempotent(xs[1..], p);
      var rest := Filter(xs[1..], p);
      if p(xs[0]) {
        var f := [xs[0]] + rest;
        assert Filter(xs, p) == f;
        assert f[0] == xs[0] && f[1..] == rest;
        assert Filter(f, p) == [xs[0]] + Filter(rest, p);
      } else {
        assert Filter(xs, p) == rest;
      }
    }
  }

  /** A predicate that holds everywhere keeps the whole sequence. */
  lemma {:induction false} FilterKeepsAll<T(!new)>(xs: seq<T>, p: T -> bool)
    requires forall x :: x in xs ==> p(x)
    ensures Filter(xs, p) == xs
  {
    if xs != [] {
      assert forall x :: x in xs[1..] ==> x in xs;
      FilterKeepsAll(xs[1..], p);
      assert [xs[0]] + xs[1..] == xs;
    }
  }

  /** Two predicates that agree on the sequence filter it alike. */
  lemma {:induction false} FilterSame<T(!new)>(xs: seq<T>, p: T -> bool, q: T -> bool)
    requires forall x :: x in xs ==> p(x) == q(x)
    ensures Filter(xs, p) == Filter(xs, q)
  {
    if xs != [] {
      FilterSame(xs[1..], p, q);
    }
  }

  /** Appending to the longer sequence keeps a subsequence. */
  lemma {:induction false} SubseqExtend<T>(xs: seq<T>, ys: seq<T>, y: T)
    requires IsSubseq(xs, ys)
    ensures IsSubseq(xs, ys + [y])
  {
    if xs != [] {
      assert (ys + [y])[1..] == ys[1..] + [y];
      if xs[0] == ys[0] && IsSubseq(xs[1..], ys[1..]) {
        SubseqExtend(xs[1..], ys[1..], y);
      } else {
        SubseqExtend(xs, ys[1..], y);
      }
    }
  }

  /** Appending the same element to both keeps a subsequence. */
  lemma {:induction false} SubseqAppend<T>(xs: seq<T>, ys: seq<T>, y: T)
    requires IsSubseq(xs, ys)
    ensures IsSubseq(xs + [y], ys + [y])
  {
    if ys == [] {
      assert xs == [];
      assert IsSubseq([y][1..], [y][1..]);
    } else if xs == [] {
      assert (ys + [y])[1..] == ys[1..] + [y];
      SubseqAppend(xs, ys[1..], y);
    } else {
      assert (ys + [y])[1..] == ys[1..] + [y];
      assert (xs + [y])[1..] == xs[1..] + [y];
      if xs[0] == ys[0] && IsSubseq(xs[1..], ys[1..]) {
        SubseqAppend(xs[1..], ys[1..], y);
      } else {
        SubseqAppend(xs, ys[1..], y);
      }
    }
  }

  /** Elements in non-decreasing order of `f`. */
  predicate OrderedBy<T>(xs: seq<T>, f: T -> int)
  {
    forall i, j :: 0 <= i < j < |xs| ==> f(xs[i]) <= f(xs[j])
  }

  /** A subsequence of an ordered sequence is ordered. */
  lemma {:induction false} SubseqOrdered<T(!new)>(xs: seq<T>, ys: seq<T>, f: T -> int)
    requires IsSubseq(xs, ys) && OrderedBy(ys, f)
    ensures OrderedBy(xs, f)
  {
    if xs != [] {
      assert OrderedBy(ys[1..], f) by {
        forall i, j | 0 <= i < j < |ys[1..]|
          ensures f(ys[1..][i]) <= f(ys[1..][j])
        {
          assert ys[1..][i] == ys[i + 1] && ys[1..][j] == ys[j + 1];
        }
      }
      if xs[0] == ys[0] && IsSubseq(xs[1..], ys[1..]) {
        SubseqOrdered(xs[1..], ys[1..], f);
        SubseqMembers(xs[1..], ys[1..]);
        forall j | 0 < j < |xs|
          ensures f(xs[0]) <= f(xs[j])
        {
          assert xs[1..][j - 1] == xs[j];
          assert xs[j] in ys[1..];
        }
      } else {
        SubseqOrdered(xs, ys[1..], f);
      }
    }
  }

  /** A sequence on which `f` is constant is ordered by it. */
  lemma {:induction false} LevelOrdered<T>(xs: seq<T>, f: T -> int, m: int)
    requires forall x :: x in xs ==> f(x) == m
    ensures OrderedBy(xs, f)
  {
    forall i, j | 0 <= i < j < |xs|
      ensures f(xs[i]) <= f(xs[j])
    {
      assert xs[i] in xs && xs[j] in xs;
    }
  }

  /** Two ordered sequences separated by `m` concatenate to an ordered sequence. */
  lemma {:induction false} OrderedConcat<T>(a: seq<T>, b: seq<T>, f: T -> int, m: int)
    requires OrderedBy(a, f) && OrderedBy(b, f)
    requires forall x :: x in a ==> f(x) <= m
    requires forall y :: y in b ==> m < f(y)
    ensures OrderedBy(a + b, f)
  {
    var r := a + b;
    forall i, j | 0 <= i < j < |r|
      ensures f(r[i]) <= f(r[j])
    {
      if j < |a| {
        assert r[i] == a[i] && r[j] == a[j];
      } else if i >= |a| {
        assert r[i] == b[i - |a|] && r[j] == b[j - |a|];
      } else {
        assert r[i] == a[i] && a[i] in a;
        assert r[j] == b[j - |a|] && b[j - |a|] in b;
      }
    }
  }
}
