/**
 * The explorer's suggestion dropdown.  With a blank query it lists the
 * recent searches and three fixed trending searches.  Otherwise it lists,
 * in this order, the businesses whose lower-cased name starts with the
 * lower-cased trimmed query (or, failing that, fuzzy-matches it), the
 * categories and the cities whose lower-cased name starts with it; repeats
 * of the same text and kind are dropped and at most ten entries are kept.
 */
module Suggestions {
  import opened Wrappers
  import opened Seqs
  import opened Text
  import opened Fuzzy
  import opened Directory

  datatype Kind = BusinessKind | CategoryKind | CityKind | HistoryKind | TrendingKind | FuzzyKind

  /** `original` is the query a fuzzy suggestion was matched against. */
  datatype Suggestion = Suggestion(text: string, kind: Kind, original: Option<string>)

  const TrendingSearches: seq<string> := ["Dana Point Surf", "Harbor Dining", "Startup Incubators"]
  const MaxSuggestions: nat := 10

  function HistoryItems(history: seq<string>): (r: seq<Suggestion>)
    ensures |r| == |history| && forall i :: 0 <= i < |r| ==> r[i] == Suggestion(history[i], HistoryKind, None)
  {
    seq(|history|, i requires 0 <= i < |history| => Suggestion(history[i], HistoryKind, None))
  }

  function TrendingItems(): (r: seq<Suggestion>)
    ensures |r| == 3 && forall i :: 0 <= i < 3 ==> r[i] == Suggestion(TrendingSearches[i], TrendingKind, None)
  {
    seq(3, i requires 0 <= i < 3 => Suggestion(TrendingSearches[i], TrendingKind, None))
  }

  /** The entry one business contributes for the lower-cased query `v`: a prefix match, else a fuzzy match. */
  function ForBusiness(b: Business, v: string): Option<Suggestion>
  {
    if StartsWith(Lower(b.name), v) then Some(Suggestion(b.name, BusinessKind, None))
    else if IsHit(FuzzyMatch(v, b.name)) then Some(Suggestion(b.name, FuzzyKind, Some(v)))
    else None
  }

  /** The business block: each listing's entry, in catalog order. */
  function BusinessMatches(catalog: seq<Business>, v: string): (r: seq<Suggestion>)
    ensures forall s :: s in r <==> exists b :: b in catalog && ForBusiness(b, v) == Some(s)
  {
    if catalog == [] then []
    else
      var rest := BusinessMatches(catalog[1..], v);
      assert forall b :: b in catalog <==> b == catalog[0] || b in catalog[1..];
      match ForBusiness(catalog[0], v)
      case None => rest
      case Some(s) => [s] + rest
  }

  /** The category entry of one category for the lower-cased query `v`, if it matches. */
  function ForCategory(c: Category, v: string): Option<Suggestion>
  {
    if StartsWith(Lower(CategoryName(c)), v) then Some(Suggestion(CategoryName(c), CategoryKind, None)) else None
  }

  /** The category block: each matching category, in the order given. */
  function CategoryMatches(cats: seq<Category>, v: string): (r: seq<Suggestion>)
    ensures forall s :: s in r <==> exists c :: c in cats && StartsWith(Lower(CategoryName(c)), v) && s == Suggestion(CategoryName(c), CategoryKind, None)
  {
    if cats == [] then []
    else
      var rest := CategoryMatches(cats[1..], v);
      assert forall c :: c in cats <==> c == cats[0] || c in cats[1..];
      if StartsWith(Lower(CategoryName(cats[0])), v) then [Suggestion(CategoryName(cats[0]), CategoryKind, None)] + rest else rest
  }

  /** The city entry of one city for the lower-cased query `v`, if it matches. */
  function ForCity(city: string, v: string): Option<Suggestion>
  {
    if StartsWith(Lower(city), v) then Some(Suggestion(city, CityKind, None)) else None
  }

  /** The city block: each matching city, in the order of the city list. */
  function CityMatches(cities: seq<string>, v: string): (r: seq<Suggestion>)
    ensures forall s :: s in r <==> s.text in cities && StartsWith(Lower(s.text), v) && s.kind == CityKind && s.original == None
  {
    if cities == [] then []
    else
      var rest := CityMatches(cities[1..], v);
      assert forall c :: c in cities <==> c == cities[0] || c in cities[1..];
      if StartsWith(Lower(cities[0]), v) then [Suggestion(cities[0], CityKind, None)] + rest else rest
  }

  /** The entry an optional match contributes: none, or the one it holds. */
  function Emitted(o: Option<Suggestion>): seq<Suggestion>
  {
    if o.Some? then [o.value] else []
  }

  /**
   * The business block is built listing by listing, in catalog order: the
   * block of two catalogs end to end is the first block followed by the
   * second, and one listing contributes its own entry, if any.
   */
  lemma {:induction false} BusinessMatchesConcat(a: seq<Business>, b: seq<Business>, v: string)
    ensures BusinessMatches(a + b, v) == BusinessMatches(a, v) + BusinessMatches(b, v)
    ensures forall x :: BusinessMatches([x], v) == Emitted(ForBusiness(x, v))
  {
    BusinessMatchesIsFilterMap(a, v);
    BusinessMatchesIsFilterMap(b, v);
    BusinessMatchesIsFilterMap(a + b, v);
    FilterMapConcat(a, b, x => ForBusiness(x, v));
    forall x
      ensures BusinessMatches([x], v) == Emitted(ForBusiness(x, v))
    {
      BusinessMatchesIsFilterMap([x], v);
    }
  }

  /** The block is the filter-map of each listing's entry. */
  lemma {:induction false} BusinessMatchesIsFilterMap(xs: seq<Business>, v: string)
    ensures BusinessMatches(xs, v) == FilterMap(xs, x => ForBusiness(x, v))
  {
    if xs != [] {
      BusinessMatchesIsFilterMap(xs[1..], v);
    }
  }

  /** The category block is built category by category, in the order given. */
  lemma {:induction false} CategoryMatchesConcat(a: seq<Category>, b: seq<Category>, v: string)
    ensures CategoryMatches(a + b, v) == CategoryMatches(a, v) + CategoryMatches(b, v)
    ensures forall c :: CategoryMatches([c], v) == Emitted(ForCategory(c, v))
  {
    CategoryMatchesIsFilterMap(a, v);
    CategoryMatchesIsFilterMap(b, v);
    CategoryMatchesIsFilterMap(a + b, v);
    FilterMapConcat(a, b, c => ForCategory(c, v));
    forall c
      ensures CategoryMatches([c], v) == Emitted(ForCategory(c, v))
    {
      CategoryMatchesIsFilterMap([c], v);
    }
  }

  /** The block is the filter-map of each category's entry. */
  lemma {:induction false} CategoryMatchesIsFilterMap(xs: seq<Category>, v: string)
    ensures CategoryMatches(xs, v) == FilterMap(xs, c => ForCategory(c, v))
  {
    if xs != [] {
      CategoryMatchesIsFilterMap(xs[1..], v);
    }
  }

  /** The city block is built city by city, in the order of the city list. */
  lemma {:induction false} CityMatchesConcat(a: seq<string>, b: seq<string>, v: string)
    ensures CityMatches(a + b, v) == CityMatches(a, v) + CityMatches(b, v)
    ensures forall c :: CityMatches([c], v) == Emitted(ForCity(c, v))
  {
    CityMatchesIsFilterMap(a, v);
    CityMatchesIsFilterMap(b, v);
    CityMatchesIsFilterMap(a + b, v);
    FilterMapConcat(a, b, c => ForCity(c, v));
    forall c
      ensures CityMatches([c], v) == Emitted(ForCity(c, v))
    {
      CityMatchesIsFilterMap([c], v);
    }
  }

  /** The block is the filter-map of each city's entry. */
  lemma {:induction false} CityMatchesIsFilterMap(xs: seq<string>, v: string)
    ensures CityMatches(xs, v) == FilterMap(xs, c => ForCity(c, v))
  {
    if xs != [] {
      CityMatchesIsFilterMap(xs[1..], v);
    }
  }

  /** Two suggestions the dropdown treats as the same: equal text and kind. */
  predicate SameKey(a: Suggestion, b: Suggestion)
  {
    a.text == b.text && a.kind == b.kind
  }

  predicate HasKey(xs: seq<Suggestion>, x: Suggestion)
  {
    exists j :: 0 <= j < |xs| && SameKey(xs[j], x)
  }

  predicate DistinctKeys(xs: seq<Suggestion>)
  {
    forall i, j :: 0 <= i < j < |xs| ==> !SameKey(xs[i], xs[j])
  }

  /** Keeps an entry only when no earlier entry has its text and kind. */
  function Dedup(xs: seq<Suggestion>): (r: seq<Suggestion>)
    ensures DistinctKeys(r)
    ensures forall x :: HasKey(r, x) <==> HasKey(xs, x)
    ensures forall i :: 0 <= i < |r| ==> r[i] in xs
  {
    if xs == [] then []
    else
      var init := xs[..|xs| - 1];
      var x := xs[|xs| - 1];
      var d := Dedup(init);
      assert forall y :: HasKey(xs, y) <==> HasKey(init, y) || SameKey(x, y) by {
        forall y
          ensures HasKey(xs, y) <==> HasKey(init, y) || SameKey(x, y)
        {
          if HasKey(xs, y) {
            var j :| 0 <= j < |xs| && SameKey(xs[j], y);
            if j < |init| {
              assert SameKey(init[j], y);
            }
          }
          if HasKey(init, y) {
            var j :| 0 <= j < |init| && SameKey(init[j], y);
            assert SameKey(xs[j], y);
          }
          if SameKey(x, y) {
            assert SameKey(xs[|init|], y);
          }
        }
      }
      assert forall y :: y in init ==> y in xs;
      if HasKey(init, x) then d
      else
        var r := d + [x];
        assert forall y :: HasKey(r, y) <==> HasKey(d, y) || SameKey(x, y) by {
          forall y
            ensures HasKey(r, y) <==> HasKey(d, y) || SameKey(x, y)
          {
            if HasKey(r, y) {
              var j :| 0 <= j < |r| && SameKey(r[j], y);
              if j < |d| {
                assert SameKey(d[j], y);
              }
            }
            if HasKey(d, y) {
              var j :| 0 <= j < |d| && SameKey(d[j], y);
              assert SameKey(r[j], y);
            }
            if SameKey(x, y) {
              assert SameKey(r[|d|], y);
            }
          }
        }
        assert !HasKey(d, x);
        r
  }

  /** Deduplication keeps the original order. */
  lemma {:induction false} DedupSubseq(xs: seq<Suggestion>)
    ensures IsSubseq(Dedup(xs), xs)
  {
    if xs != [] {
      var init := xs[..|xs| - 1];
      var x := xs[|xs| - 1];
      assert xs == init + [x];
      DedupSubseq(init);
      if HasKey(init, x) {
        SubseqExtend(Dedup(init), init, x);
      } else {
        SubseqAppend(Dedup(init), init, x);
      }
    }
  }

  /** The entry kept for a text and kind is the first entry with them. */
  lemma {:induction false} DedupKeepsFirst(xs: seq<Suggestion>)
    ensures forall i :: 0 <= i < |Dedup(xs)| ==>
              exists k :: 0 <= k < |xs| && xs[k] == Dedup(xs)[i] && !HasKey(xs[..k], xs[k])
  {
    if xs != [] {
      var init := xs[..|xs| - 1];
      var x := xs[|xs| - 1];
      var d := Dedup(init);
      var r := Dedup(xs);
      DedupKeepsFirst(init);
      assert r == if HasKey(init, x) then d else d + [x];
      forall i | 0 <= i < |r|
        ensures exists k :: 0 <= k < |xs| && xs[k] == r[i] && !HasKey(xs[..k], xs[k])
      {
        if i < |d| {
          assert r[i] == d[i];
          var k :| 0 <= k < |init| && init[k] == d[i] && !HasKey(init[..k], init[k]);
          assert xs[..k] == init[..k] && xs[k] == init[k];
          assert 0 <= k < |xs| && xs[k] == r[i] && !HasKey(xs[..k], xs[k]);
        } else {
          assert r[i] == x && !HasKey(init, x);
          assert xs[..|init|] == init && xs[|init|] == x;
          assert 0 <= |init| < |xs| && xs[|init|] == r[i] && !HasKey(xs[..|init|], xs[|init|]);
        }
      }
    } else {
      assert Dedup(xs) == [];
    }
  }

  /** The raw list before deduplication and the cap. */
  function Raw(catalog: seq<Business>, cities: seq<string>, v: string): seq<Suggestion>
  {
    BusinessMatches(catalog, v) + CategoryMatches(AllCategories, v) + CityMatches(cities, v)
  }

  /** The dropdown's entries for the query `q`. */
  function Suggest(q: string, history: seq<string>, catalog: seq<Business>, cities: seq<string>): (r: seq<Suggestion>)
    ensures Trim(q) == [] ==> |r| == |history| + |TrendingSearches|
    ensures Trim(q) != [] ==> |r| <= MaxSuggestions
  {
    var t := Trim(q);
    if t == [] then HistoryItems(history) + TrendingItems()
    else Take(Dedup(Raw(catalog, cities, Lower(t))), MaxSuggestions)
  }

  /** What an entry for the lower-cased query `v` may be. */
  ghost predicate Valid(s: Suggestion, v: string, catalog: seq<Business>, cities: seq<string>)
  {
    match s.kind
    case BusinessKind =>
      s.original == None && StartsWith(Lower(s.text), v) && exists b :: b in catalog && b.name == s.text
    case FuzzyKind =>
      && s.original == Some(v) && !StartsWith(Lower(s.text), v) && IsHit(FuzzyMatch(v, s.text))
      && exists b :: b in catalog && b.name == s.text
    case CategoryKind =>
      s.original == None && StartsWith(Lower(s.text), v) && exists c :: CategoryName(c) == s.text
    case CityKind =>
      s.original == None && StartsWith(Lower(s.text), v) && s.text in cities
    case HistoryKind => false
    case TrendingKind => false
  }

  /** Business and fuzzy entries first, then categories, then cities. */
  function Rank(s: Suggestion): int
  {
    match s.kind
    case CategoryKind => 1
    case CityKind => 2
    case _ => 0
  }

  lemma {:induction false} RawValid(catalog: seq<Business>, cities: seq<string>, v: string)
    ensures forall s :: s in Raw(catalog, cities, v) <==> Valid(s, v, catalog, cities)
  {
    forall s
      ensures s in Raw(catalog, cities, v) <==> Valid(s, v, catalog, cities)
    {
      RawValidAt(catalog, cities, v, s);
    }
  }

  lemma {:induction false} RawValidAt(catalog: seq<Business>, cities: seq<string>, v: string, s: Suggestion)
    ensures s in Raw(catalog, cities, v) <==> Valid(s, v, catalog, cities)
  {
    var a := BusinessMatches(catalog, v);
    var b := CategoryMatches(AllCategories, v);
    var c := CityMatches(cities, v);
    assert s in Raw(catalog, cities, v) <==> s in a || s in b || s in c;
    match s.kind
    case BusinessKind =>
      BusinessValid(catalog, v, s);
    case FuzzyKind =>
      BusinessValid(catalog, v, s);
    case CategoryKind =>
      CategoryValid(v, s);
    case CityKind =>
    case HistoryKind =>
    case TrendingKind =>
  }

  /** A business or fuzzy entry is among the business matches exactly when it is valid. */
  lemma {:induction false} BusinessValid(catalog: seq<Business>, v: string, s: Suggestion)
    requires s.kind == BusinessKind || s.kind == FuzzyKind
    ensures s in BusinessMatches(catalog, v) <==> Valid(s, v, catalog, [])
  {
    if Valid(s, v, catalog, []) {
      var b :| b in catalog && b.name == s.text;
      assert ForBusiness(b, v) == Some(s);
    }
  }

  /** A category entry is among the category matches exactly when it is valid. */
  lemma {:induction false} CategoryValid(v: string, s: Suggestion)
    requires s.kind == CategoryKind
    ensures s in CategoryMatches(AllCategories, v) <==> Valid(s, v, [], [])
  {
    if Valid(s, v, [], []) {
      var c :| CategoryName(c) == s.text;
      AllCategoriesComplete(c);
    }
  }

  /** Every business entry ranks 0, every category 1, every city 2. */
  lemma {:induction false} BlockRanks(catalog: seq<Business>, cities: seq<string>, v: string)
    ensures forall x :: x in BusinessMatches(catalog, v) ==> Rank(x) == 0
    ensures forall x :: x in CategoryMatches(AllCategories, v) ==> Rank(x) == 1
    ensures forall x :: x in CityMatches(cities, v) ==> Rank(x) == 2
  {
    forall x | x in BusinessMatches(catalog, v)
      ensures Rank(x) == 0
    {
      var y :| y in catalog && ForBusiness(y, v) == Some(x);
    }
  }

  lemma {:induction false} RawRanked(catalog: seq<Business>, cities: seq<string>, v: string)
    ensures OrderedBy(Raw(catalog, cities, v), Rank)
  {
    var a := BusinessMatches(catalog, v);
    var b := CategoryMatches(AllCategories, v);
    var c := CityMatches(cities, v);
    BlockRanks(catalog, cities, v);
    LevelOrdered(a, Rank, 0);
    LevelOrdered(b, Rank, 1);
    LevelOrdered(c, Rank, 2);
    OrderedConcat(a, b, Rank, 0);
    OrderedConcat(a + b, c, Rank, 1);
  }

  /**
   * For a query that is not blank: the first ten entries, after dropping
   * repeats, of the business block, the category block and the city block
   * end to end (each block in its source order, see the `Concat` lemmas).
   * So at most ten entries, no text and kind twice, every entry a business,
   * category or city that matches the lower-cased trimmed query as its kind
   * says, in the order businesses, categories, cities.
   */
  lemma {:induction false} SuggestSound(q: string, history: seq<string>, catalog: seq<Business>, cities: seq<string>)
    requires Trim(q) != []
    ensures var v := Lower(Trim(q));
      var d := Dedup(BusinessMatches(catalog, v) + CategoryMatches(AllCategories, v) + CityMatches(cities, v));
      var r := Suggest(q, history, catalog, cities);
      && |r| == (if |d| < MaxSuggestions then |d| else MaxSuggestions)
      && (forall i :: 0 <= i < |r| ==> r[i] == d[i])
    ensures var r := Suggest(q, history, catalog, cities);
      && |r| <= MaxSuggestions
      && DistinctKeys(r)
      && (forall s :: s in r ==> Valid(s, Lower(Trim(q)), catalog, cities))
      && OrderedBy(r, Rank)
  {
    CappedSound(catalog, cities, Lower(Trim(q)));
  }

  lemma {:induction false} CappedSound(catalog: seq<Business>, cities: seq<string>, v: string)
    ensures var r := Take(Dedup(Raw(catalog, cities, v)), MaxSuggestions);
      && DistinctKeys(r)
      && (forall s :: s in r ==> Valid(s, v, catalog, cities))
      && OrderedBy(r, Rank)
  {
    var raw := Raw(catalog, cities, v);
    var d := Dedup(raw);
    var r := Take(d, MaxSuggestions);
    RawValid(catalog, cities, v);
    RawRanked(catalog, cities, v);
    DedupSubseq(raw);
    TakeIsSubseq(d, MaxSuggestions);
    SubseqTrans(r, d, raw);
    SubseqMembers(r, raw);
    SubseqOrdered(r, raw, Rank);
    assert DistinctKeys(r) by {
      forall i, j | 0 <= i < j < |r|
        ensures !SameKey(r[i], r[j])
      {
        assert r[i] == d[i] && r[j] == d[j];
      }
    }
  }

  /**
   * When deduplication leaves ten entries or fewer, nothing is cut: every
   * business, category and city that qualifies is offered.
   */
  lemma {:induction false} SuggestComplete(q: string, history: seq<string>, catalog: seq<Business>, cities: seq<string>, s: Suggestion)
    requires Trim(q) != []
    requires |Dedup(Raw(catalog, cities, Lower(Trim(q))))| <= MaxSuggestions
    requires Valid(s, Lower(Trim(q)), catalog, cities)
    ensures HasKey(Suggest(q, history, catalog, cities), s)
  {
    var v := Lower(Trim(q));
    var raw := Raw(catalog, cities, v);
    RawValid(catalog, cities, v);
    var k :| 0 <= k < |raw| && raw[k] == s;
    assert HasKey(raw, s);
  }

  /**
   * A blank query lists the recent searches, newest first, then the three
   * trending searches, with no cap and whatever the catalog.
   */
  lemma {:induction false} BlankQuerySuggestions(q: string, history: seq<string>, catalog: seq<Business>, cities: seq<string>)
    requires AllSpace(q)
    ensures var r := Suggest(q, history, catalog, cities);
      && |r| == |history| + 3
      && (forall i :: 0 <= i < |history| ==> r[i].text == history[i] && r[i].kind == HistoryKind)
      && (forall i :: 0 <= i < 3 ==> r[|history| + i].text == TrendingSearches[i] && r[|history| + i].kind == TrendingKind)
  {
    TrimEmptyIffAllSpace(q);
  }
}
