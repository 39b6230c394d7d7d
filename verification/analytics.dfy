/**
 * The explorer's analytics panel: per-category and per-city counts of the
 * result list, sorted by count with ties in first-encountered order, the
 * average rating, and the top category.
 */
module Analytics {
  import opened Seqs
  import opened Sorting
  import opened Directory

  /** One row of a breakdown. */
  datatype Entry = Entry(name: string, count: nat)

  /** Some entry is named `k`. */
  predicate HasName(t: seq<Entry>, k: string)
  {
    exists i :: 0 <= i < |t| && t[i].name == k
  }

  /** No two entries share a name. */
  predicate DistinctNames(t: seq<Entry>)
  {
    forall i, j :: 0 <= i < j < |t| ==> t[i].name != t[j].name
  }

  /** Sum of the counts. */
  function Total(t: seq<Entry>): nat
  {
    if t == [] then 0 else t[0].count + Total(t[1..])
  }

  /** Position of the first occurrence of `k` in `xs`. */
  function FirstIndex(xs: seq<string>, k: string): (i: nat)
    requires k in xs
    ensures i < |xs| && xs[i] == k && k !in xs[..i]
  {
    if xs[0] == k then 0
    else
      var i := 1 + FirstIndex(xs[1..], k);
      assert xs[..i] == [xs[0]] + xs[1..][..i - 1];
      i
  }

  lemma {:induction false} FirstIndexUnique(xs: seq<string>, k: string, i: nat)
    requires i < |xs| && xs[i] == k && k !in xs[..i]
    ensures FirstIndex(xs, k) == i
  {
  }

  /** One more occurrence of `k`: its entry is incremented, or a new entry is appended. */
  function Bump(t: seq<Entry>, k: string): (r: seq<Entry>)
    ensures |r| == if HasName(t, k) then |t| else |t| + 1
    ensures forall i :: 0 <= i < |t| ==> r[i].name == t[i].name
    ensures !HasName(t, k) ==> r[|t|] == Entry(k, 1)
    ensures Total(r) == Total(t) + 1
  {
    if t == [] then [Entry(k, 1)]
    else if t[0].name == k then
      assert HasName(t, k);
      [Entry(k, t[0].count + 1)] + t[1..]
    else
      assert HasName(t, k) <==> HasName(t[1..], k) by {
        if HasName(t, k) {
          var i :| 0 <= i < |t| && t[i].name == k;
          assert t[1..][i - 1].name == k;
        }
      }
      [t[0]] + Bump(t[1..], k)
  }

  /** When no name repeats, only the entry for `k` changes, by one. */
  lemma {:induction false} BumpCounts(t: seq<Entry>, k: string)
    requires DistinctNames(t)
    ensures forall i :: 0 <= i < |t| ==>
              Bump(t, k)[i].count == t[i].count + (if t[i].name == k then 1 else 0)
  {
    if t != [] {
      var r := Bump(t, k);
      var rest := t[1..];
      if t[0].name == k {
        assert r == [Entry(k, t[0].count + 1)] + rest;
        forall i | 0 < i < |t|
          ensures r[i] == t[i] && t[i].name != k
        {
          assert t[i].name != t[0].name;
        }
      } else {
        assert DistinctNames(rest) by {
          forall i, j | 0 <= i < j < |rest|
            ensures rest[i].name != rest[j].name
          {
            assert rest[i] == t[i + 1] && rest[j] == t[j + 1];
          }
        }
        BumpCounts(rest, k);
        var b := Bump(rest, k);
        assert r == [t[0]] + b;
        forall i | 0 < i < |t|
          ensures r[i].count == t[i].count + (if t[i].name == k then 1 else 0)
        {
          assert r[i] == b[i - 1] && t[i] == rest[i - 1];
        }
      }
    }
  }

  /** Counting one more key never makes a name repeat. */
  lemma {:induction false} BumpKeepsDistinct(t: seq<Entry>, k: string)
    requires DistinctNames(t)
    ensures DistinctNames(Bump(t, k))
  {
    var r := Bump(t, k);
    if HasName(t, k) {
      SameNamesDistinct(t, r);
    } else {
      SameNamesDistinct(t, r[..|t|]);
      NewNameDistinct(r[..|t|], r[|t|]);
      assert r == r[..|t|] + [r[|t|]];
    }
  }

  lemma {:induction false} SameNamesDistinct(t: seq<Entry>, r: seq<Entry>)
    requires DistinctNames(t) && |r| == |t|
    requires forall i :: 0 <= i < |t| ==> r[i].name == t[i].name
    ensures DistinctNames(r)
  {
    forall i, j | 0 <= i < j < |r|
      ensures r[i].name != r[j].name
    {
      assert r[i].name == t[i].name && r[j].name == t[j].name;
    }
  }

  lemma {:induction false} NewNameDistinct(t: seq<Entry>, e: Entry)
    requires DistinctNames(t) && !HasName(t, e.name)
    ensures DistinctNames(t + [e])
  {
    var r := t + [e];
    forall i, j | 0 <= i < j < |r|
      ensures r[i].name != r[j].name
    {
      assert r[i] == t[i];
      if j < |t| {
        assert r[j] == t[j];
      }
    }
  }

  /**
   * The counting loop over `keys`: `counts[k] = (counts[k] || 0) + 1`, read
   * back with `Object.entries`, which lists string keys in insertion order.
   */
  function Tally(keys: seq<string>): (r: seq<Entry>)
    ensures DistinctNames(r)
  {
    if keys == [] then []
    else
      var t := Tally(keys[..|keys| - 1]);
      BumpKeepsDistinct(t, keys[|keys| - 1]);
      Bump(t, keys[|keys| - 1])
  }

  lemma {:induction false} CountSnoc(xs: seq<string>, y: string, k: string)
    ensures Count(xs + [y], k) == Count(xs, k) + (if y == k then 1 else 0)
  {
    if xs != [] {
      assert (xs + [y])[1..] == xs[1..] + [y];
      CountSnoc(xs[1..], y, k);
    }
  }

  lemma {:induction false} CountAbsent(xs: seq<string>, k: string)
    requires k !in xs
    ensures Count(xs, k) == 0
  {
    if xs != [] {
      CountAbsent(xs[1..], k);
    }
  }

  /** Exactly the distinct keys have an entry. */
  lemma {:induction false} TallyNames(keys: seq<string>)
    ensures forall k :: k in keys <==> HasName(Tally(keys), k)
  {
    if keys != [] {
      var init := keys[..|keys| - 1];
      var y := keys[|keys| - 1];
      assert keys == init + [y];
      TallyNames(init);
      var t := Tally(init);
      var r := Tally(keys);
      forall k
        ensures k in keys <==> HasName(r, k)
      {
        if HasName(r, k) {
          var i :| 0 <= i < |r| && r[i].name == k;
          if i < |t| {
            assert t[i].name == k;
          }
        }
        if HasName(t, k) {
          var i :| 0 <= i < |t| && t[i].name == k;
          assert r[i].name == k;
        }
      }
    }
  }

  /** Each entry holds the number of occurrences of its key. */
  lemma {:induction false} TallyCounts(keys: seq<string>)
    ensures forall i :: 0 <= i < |Tally(keys)| ==> Tally(keys)[i].count == Count(keys, Tally(keys)[i].name)
  {
    if keys != [] {
      var init := keys[..|keys| - 1];
      var y := keys[|keys| - 1];
      assert keys == init + [y];
      TallyCounts(init);
      TallyNames(init);
      var t := Tally(init);
      BumpCounts(t, y);
      var r := Tally(keys);
      forall i | 0 <= i < |r|
        ensures r[i].count == Count(keys, r[i].name)
      {
        CountSnoc(init, y, r[i].name);
        if i >= |t| {
          assert !HasName(t, y);
          CountAbsent(init, y);
        }
      }
    }
  }

  /** Every entry is named by one of `keys`, in the order the names first occur there. */
  ghost predicate InFirstOrder(t: seq<Entry>, keys: seq<string>)
  {
    && (forall i :: 0 <= i < |t| ==> t[i].name in keys)
    && (forall i, j :: 0 <= i < j < |t| ==> FirstIndex(keys, t[i].name) < FirstIndex(keys, t[j].name))
  }

  /** Entries come in the order their keys first occur. */
  lemma {:induction false} TallyOrder(keys: seq<string>)
    ensures forall i :: 0 <= i < |Tally(keys)| ==> Tally(keys)[i].name in keys
    ensures forall i, j :: 0 <= i < j < |Tally(keys)| ==>
              FirstIndex(keys, Tally(keys)[i].name) < FirstIndex(keys, Tally(keys)[j].name)
  {
    TallyInFirstOrder(keys);
  }

  lemma {:induction false} TallyInFirstOrder(keys: seq<string>)
    ensures InFirstOrder(Tally(keys), keys)
  {
    if keys != [] {
      var init := keys[..|keys| - 1];
      var y := keys[|keys| - 1];
      assert keys == init + [y];
      TallyInFirstOrder(init);
      var t := Tally(init);
      assert y in init <==> HasName(t, y) by {
        TallyNames(init);
      }
      BumpOrder(t, init, y);
    }
  }

  /** The order property survives counting one more key. */
  lemma {:induction false} BumpOrder(t: seq<Entry>, init: seq<string>, y: string)
    requires InFirstOrder(t, init)
    requires y in init <==> HasName(t, y)
    ensures InFirstOrder(Bump(t, y), init + [y])
  {
    var r := Bump(t, y);
    if HasName(t, y) {
      SameNamesOrder(t, r, init);
      SnocKeepsOrder(r, init, y);
    } else {
      var front := r[..|t|];
      SameNamesOrder(t, front, init);
      AppendNewOrder(front, init, r[|t|]);
      assert r == front + [r[|t|]];
    }
  }

  lemma {:induction false} SameNamesOrder(t: seq<Entry>, r: seq<Entry>, keys: seq<string>)
    requires InFirstOrder(t, keys) && |r| == |t|
    requires forall i :: 0 <= i < |t| ==> r[i].name == t[i].name
    ensures InFirstOrder(r, keys)
  {
    forall i, j | 0 <= i < j < |r|
      ensures r[i].name in keys && FirstIndex(keys, r[i].name) < FirstIndex(keys, r[j].name)
    {
      assert r[i].name == t[i].name && r[j].name == t[j].name;
    }
  }

  /** Appending a key already seen keeps the order. */
  lemma {:induction false} SnocKeepsOrder(t: seq<Entry>, init: seq<string>, y: string)
    requires InFirstOrder(t, init) && y in init
    ensures InFirstOrder(t, init + [y])
  {
    forall i | 0 <= i < |t|
      ensures t[i].name in init + [y]
    {
      assert t[i].name in init;
    }
    forall i, j | 0 <= i < j < |t|
      ensures FirstIndex(init + [y], t[i].name) < FirstIndex(init + [y], t[j].name)
    {
      SnocOrder(init, y, t[i].name, t[j].name);
    }
  }

  /** A new key gets a new entry at the end, after every older one. */
  lemma {:induction false} AppendNewOrder(t: seq<Entry>, init: seq<string>, e: Entry)
    requires InFirstOrder(t, init) && e.name !in init
    ensures InFirstOrder(t + [e], init + [e.name])
  {
    var r := t + [e];
    var y := e.name;
    forall i | 0 <= i < |r|
      ensures r[i].name in init + [y]
    {
      if i < |t| {
        assert r[i] == t[i] && t[i].name in init;
      }
    }
    forall i, j | 0 <= i < j < |r|
      ensures FirstIndex(init + [y], r[i].name) < FirstIndex(init + [y], r[j].name)
    {
      assert r[i] == t[i] && t[i].name in init;
      if j < |t| {
        assert r[j] == t[j];
      }
      SnocOrder(init, y, r[i].name, r[j].name);
    }
  }

  /** Appending a key keeps first positions, and a new key comes after all old ones. */
  lemma {:induction false} SnocOrder(init: seq<string>, y: string, a: string, b: string)
    requires a in init && (b in init || (b == y && y !in init))
    requires b in init ==> FirstIndex(init, a) < FirstIndex(init, b)
    ensures FirstIndex(init + [y], a) < FirstIndex(init + [y], b)
  {
    var keys := init + [y];
    assert keys[..|init|] == init;
    assert keys[..FirstIndex(init, a)] == init[..FirstIndex(init, a)];
    FirstIndexUnique(keys, a, FirstIndex(init, a));
    if b in init {
      assert keys[..FirstIndex(init, b)] == init[..FirstIndex(init, b)];
      FirstIndexUnique(keys, b, FirstIndex(init, b));
    } else {
      FirstIndexUnique(keys, b, |init|);
    }
  }

  /** The counts add up to the number of keys. */
  lemma {:induction false} TallyTotal(keys: seq<string>)
    ensures Total(Tally(keys)) == |keys|
  {
    if keys != [] {
      TallyTotal(keys[..|keys| - 1]);
    }
  }

  /** Larger counts sort first. */
  function CountKey(e: Entry): Key
  {
    Key(-(e.count as int), 0)
  }

  /** The tally sorted by descending count, ties left in first-encountered order. */
  function Breakdown(keys: seq<string>): (r: seq<Entry>)
    ensures SortedBy(r, CountKey) && multiset(r) == multiset(Tally(keys))
    ensures Total(r) == |keys|
  {
    TallyTotal(keys);
    TotalSort(Tally(keys));
    SortBy(Tally(keys), CountKey)
  }

  lemma {:induction false} TotalInsert(x: Entry, xs: seq<Entry>)
    requires SortedBy(xs, CountKey)
    ensures Total(Insert(x, xs, CountKey)) == x.count + Total(xs)
  {
    if xs != [] && !KeyLe(CountKey(x), CountKey(xs[0])) {
      TotalInsert(x, xs[1..]);
    }
  }

  lemma {:induction false} TotalSort(xs: seq<Entry>)
    ensures Total(SortBy(xs, CountKey)) == Total(xs)
  {
    if xs != [] {
      TotalSort(xs[1..]);
      TotalInsert(xs[0], SortBy(xs[1..], CountKey));
    }
  }

  lemma {:induction false} SameElements(bd: seq<Entry>, t: seq<Entry>)
    requires multiset(bd) == multiset(t)
    ensures forall e :: e in bd <==> e in t
  {
    assert forall e :: e in bd <==> e in multiset(bd);
    assert forall e :: e in t <==> e in multiset(t);
  }

  /**
   * The breakdown has one entry per distinct key, holding its number of
   * occurrences, and the counts add up to the number of keys.
   */
  lemma {:induction false} BreakdownEntries(keys: seq<string>)
    ensures var bd := Breakdown(keys);
      && (forall i :: 0 <= i < |bd| ==> bd[i].name in keys && bd[i].count == Count(keys, bd[i].name))
      && (forall k :: k in keys ==> HasName(bd, k))
      && Total(bd) == |keys|
  {
    var t := Tally(keys);
    var bd := Breakdown(keys);
    TallyNames(keys);
    TallyCounts(keys);
    TallyOrder(keys);
    TallyTotal(keys);
    TotalSort(t);
    SameElements(bd, t);
    forall i | 0 <= i < |bd|
      ensures bd[i].name in keys && bd[i].count == Count(keys, bd[i].name)
    {
      assert bd[i] in t;
      var j :| 0 <= j < |t| && t[j] == bd[i];
    }
    forall k | k in keys
      ensures HasName(bd, k)
    {
      var i :| 0 <= i < |t| && t[i].name == k;
      assert t[i] in bd;
    }
  }

  /**
   * Counts never increase down the breakdown, and of two entries with equal
   * counts the one whose key occurs first in `keys` comes first.
   */
  lemma {:induction false} BreakdownOrder(keys: seq<string>)
    ensures var bd := Breakdown(keys);
      && (forall i, j :: 0 <= i < j < |bd| ==> bd[i].count >= bd[j].count)
      && (forall i, j :: 0 <= i < j < |bd| && bd[i].count == bd[j].count ==>
            bd[i].name in keys && bd[j].name in keys &&
            FirstIndex(keys, bd[i].name) < FirstIndex(keys, bd[j].name))
  {
    var t := Tally(keys);
    var bd := Breakdown(keys);
    TallyOrder(keys);
    forall i, j | 0 <= i < j < |bd| && bd[i].count == bd[j].count
      ensures bd[i].name in keys && bd[j].name in keys
      ensures FirstIndex(keys, bd[i].name) < FirstIndex(keys, bd[j].name)
    {
      SortedTiesKeepOrder(t, CountKey, i, j);
      var a, b :| 0 <= a < b < |t| && t[a] == bd[i] && t[b] == bd[j];
    }
  }

  /** The category of each result, in result order. */
  function CategoryKeys(results: seq<Business>): (r: seq<string>)
    ensures |r| == |results| && forall i :: 0 <= i < |r| ==> r[i] == CategoryName(results[i].category)
  {
    seq(|results|, i requires 0 <= i < |results| => CategoryName(results[i].category))
  }

  /** The city of each result, in result order. */
  function CityKeys(results: seq<Business>): (r: seq<string>)
    ensures |r| == |results| && forall i :: 0 <= i < |r| ==> r[i] == results[i].city
  {
    seq(|results|, i requires 0 <= i < |results| => results[i].city)
  }

  /** The name of the first category-breakdown entry, or `N/A` when there is none (or it is empty). */
  function TopCategory(results: seq<Business>): (r: string)
    ensures r == "N/A" || exists b :: b in results && CategoryName(b.category) == r
  {
    var keys := CategoryKeys(results);
    var bd := Breakdown(keys);
    BreakdownEntries(keys);
    if bd == [] || bd[0].name == "" then "N/A"
    else
      var i :| 0 <= i < |keys| && keys[i] == bd[0].name;
      assert results[i] in results;
      bd[0].name
  }

  /**
   * The top category is `N/A` exactly when there are no results; otherwise
   * it is a category of some result, no category has more results, and of
   * the categories with as many results it is the one met first.
   */
  lemma {:induction false} TopCategoryCorrect(results: seq<Business>)
    ensures results == [] <==> TopCategory(results) == "N/A"
    ensures results != [] ==>
      var keys := CategoryKeys(results);
      var top := TopCategory(results);
      && top in keys
      && (forall c :: c in keys ==> Count(keys, c) <= Count(keys, top))
      && (forall c :: c in keys && c != top && Count(keys, c) == Count(keys, top) ==>
            FirstIndex(keys, top) < FirstIndex(keys, c))
  {
    if results != [] {
      var keys := CategoryKeys(results);
      var bd := Breakdown(keys);
      TopIsFirstEntry(results);
      BreakdownEntries(keys);
      BreakdownOrder(keys);
      forall c | c in keys
        ensures Count(keys, c) <= Count(keys, bd[0].name)
        ensures c != bd[0].name && Count(keys, c) == Count(keys, bd[0].name) ==>
                  FirstIndex(keys, bd[0].name) < FirstIndex(keys, c)
      {
        var j :| 0 <= j < |bd| && bd[j].name == c;
        if j > 0 {
          assert bd[0].count >= bd[j].count;
        }
      }
    } else {
      assert CategoryKeys(results) == [];
    }
  }

  /** For a non-empty result list the top category is the name of the first breakdown entry. */
  lemma {:induction false} TopIsFirstEntry(results: seq<Business>)
    requires results != []
    ensures Breakdown(CategoryKeys(results)) != []
    ensures TopCategory(results) == Breakdown(CategoryKeys(results))[0].name != "N/A"
  {
    var keys := CategoryKeys(results);
    var bd := Breakdown(keys);
    BreakdownEntries(keys);
    assert keys[0] in keys;
    var j :| 0 <= j < |bd| && bd[j].name == keys[0];
    var i0 :| 0 <= i0 < |keys| && keys[i0] == bd[0].name;
    CategoryNameNotNA(results[i0].category);
  }

  lemma {:induction false} CategoryNameNotNA(c: Category)
    ensures CategoryName(c) != "" && CategoryName(c) != "N/A"
  {
  }

  /** Sum of the results' ratings, in tenths. */
  function TotalRating(results: seq<Business>): nat
  {
    if results == [] then 0 else results[0].rating + TotalRating(results[1..])
  }

  /** The mean rating rounded to the nearest tenth (halves up), `0` for no results. */
  function AvgRating(results: seq<Business>): (r: nat)
    ensures results == [] ==> r == 0
    ensures results != [] ==>
      r * (2 * |results|) <= 2 * TotalRating(results) + |results| < (r + 1) * (2 * |results|)
  {
    if results == [] then 0
    else
      DivBounds(2 * TotalRating(results) + |results|, 2 * |results|);
      (2 * TotalRating(results) + |results|) / (2 * |results|)
  }

  lemma {:induction false} TotalRatingBounds(results: seq<Business>, lo: nat, hi: nat)
    requires forall b :: b in results ==> lo <= b.rating <= hi
    ensures lo * |results| <= TotalRating(results) <= hi * |results|
  {
    if results != [] {
      var n := |results| - 1;
      assert forall b :: b in results[1..] ==> b in results;
      TotalRatingBounds(results[1..], lo, hi);
      assert results[0] in results;
      MulSucc(lo, n);
      MulSucc(hi, n);
    }
  }

  /** The average lies between the lowest and the highest rating of the results. */
  lemma {:induction false} AvgRatingBounds(results: seq<Business>, lo: nat, hi: nat)
    requires results != []
    requires forall b :: b in results ==> lo <= b.rating <= hi
    ensures lo <= AvgRating(results) <= hi
  {
    var n := |results|;
    var sum := TotalRating(results);
    TotalRatingBounds(results, lo, hi);
    var x := 2 * sum + n;
    var q := x / (2 * n);
    DivBounds(x, 2 * n);
    if q < lo {
      MulMono(q + 1, lo, 2 * n);
      MulComm(lo, n);
    }
    if q > hi {
      MulMono(hi + 1, q, 2 * n);
      MulComm(hi, n);
    }
  }

  lemma {:induction false} MulSucc(a: nat, n: nat)
    ensures a * (n + 1) == a + a * n
  {
  }

  lemma {:induction false} MulComm(a: nat, n: nat)
    ensures a * (2 * n) == 2 * (a * n) && (a + 1) * (2 * n) == 2 * (a * n) + 2 * n
  {
  }

  lemma {:induction false} DivBounds(x: nat, d: nat)
    requires d > 0
    ensures (x / d) * d <= x < (x / d + 1) * d
  {
  }

  lemma {:induction false} MulMono(a: int, b: int, c: nat)
    requires a <= b
    ensures a * c <= b * c
  {
  }

  /** The analytics panel for one result list. */
  datatype Summary = Summary(categoryBreakdown: seq<Entry>, cityBreakdown: seq<Entry>, avgRating: nat, topCategory: string)

  function Summarise(results: seq<Business>): (r: Summary)
    ensures r.topCategory == "N/A" <==> results == []
    ensures Total(r.categoryBreakdown) == |results| && Total(r.cityBreakdown) == |results|
    ensures results == [] ==> r.avgRating == 0 && r.categoryBreakdown == [] && r.cityBreakdown == []
    ensures results != [] ==> r.categoryBreakdown != [] && r.topCategory == r.categoryBreakdown[0].name
  {
    TopCategoryCorrect(results);
    var bd := Breakdown(CategoryKeys(results));
    assert results != [] ==> bd != [] && TopCategory(results) == bd[0].name by {
      if results != [] {
        TopIsFirstEntry(results);
      }
    }
    BreakdownEntries(CategoryKeys(results));
    BreakdownEntries(CityKeys(results));
    Summary(Breakdown(CategoryKeys(results)), Breakdown(CityKeys(results)), AvgRating(results), TopCategory(results))
  }
}
