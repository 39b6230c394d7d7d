/**
 * The deals page: the listings that carry a deal, in catalog order, either
 * all of them or those of one selected category.
 */
module DealsPage {
  import opened Seqs
  import opened Directory

  /** The category selector: `All` or one category. */
  datatype Selection = All | Only(category: Category)

  /** The selector's options: `All` followed by every category name. */
  function Options(): (r: seq<string>)
    ensures |r| == |AllCategories| + 1
    ensures r[0] == "All" && forall i :: 1 <= i < |r| ==> r[i] == CategoryName(AllCategories[i - 1])
  {
    ["All"] + seq(|AllCategories|, i requires 0 <= i < |AllCategories| => CategoryName(AllCategories[i]))
  }

  /** The options are distinct, so each names one selection. */
  lemma {:induction false} OptionsDistinct()
    ensures NoDups(Options())
  {
    var r := Options();
    forall i, j | 0 <= i < j < |r|
      ensures r[i] != r[j]
    {
      if i > 0 {
        CategoryNamesDistinct(AllCategories[i - 1], AllCategories[j - 1]);
      }
    }
  }

  predicate HasDeal(b: Business)
  {
    b.deal.Some?
  }

  predicate InCategory(c: Category, b: Business)
  {
    b.category == c
  }

  function WithCategory(c: Category): Business -> bool
  {
    b => InCategory(c, b)
  }

  /** `filteredDeals`. */
  function FilteredDeals(catalog: seq<Business>, sel: Selection): (r: seq<Business>)
    ensures forall b :: b in r <==> b in catalog && Shown(sel, b)
  {
    var allDeals := Filter(catalog, HasDeal);
    if sel.All? then allDeals else Filter(allDeals, WithCategory(sel.category))
  }

  /** Whether the page shows listing `b` under selection `sel`. */
  predicate Shown(sel: Selection, b: Business)
  {
    HasDeal(b) && match sel
      case All => true
      case Only(c) => b.category == c
  }

  function ShownBy(sel: Selection): Business -> bool
  {
    b => Shown(sel, b)
  }

  lemma {:induction false} FilterFuse(xs: seq<Business>, c: Category)
    ensures Filter(Filter(xs, HasDeal), WithCategory(c)) == Filter(xs, ShownBy(Only(c)))
  {
    if xs != [] {
      FilterFuse(xs[1..], c);
      var head := if HasDeal(xs[0]) then [xs[0]] else [];
      var rest := Filter(xs[1..], HasDeal);
      assert Filter(xs, HasDeal) == head + rest;
      FilterConcat(head, rest, WithCategory(c));
      assert Filter(head, WithCategory(c)) == if Shown(Only(c), xs[0]) then [xs[0]] else [] by {
        if HasDeal(xs[0]) {
          assert head[1..] == [];
        }
      }
      assert Filter(xs, ShownBy(Only(c))) == (if Shown(Only(c), xs[0]) then [xs[0]] else []) + Filter(xs[1..], ShownBy(Only(c)));
    }
  }

  /**
   * The page shows, in catalog order, exactly the listings with a deal
   * that are in the selected category (any category for `All`).
   */
  lemma {:induction false} FilteredDealsCorrect(catalog: seq<Business>, sel: Selection)
    ensures FilteredDeals(catalog, sel) == Filter(catalog, ShownBy(sel))
  {
    match sel
    case All =>
      FilterSame(catalog, HasDeal, ShownBy(sel));
    case Only(c) =>
      FilterFuse(catalog, c);
  }

  /** Selecting a category never shows more than `All` does, and keeps its order. */
  lemma {:induction false} CategoryNarrowsAll(catalog: seq<Business>, c: Category)
    ensures IsSubseq(FilteredDeals(catalog, Only(c)), FilteredDeals(catalog, All))
  {
    FilterIsSubseq(Filter(catalog, HasDeal), WithCategory(c));
  }

  /** Every category's deals together are all the deals: each deal shows under its own category. */
  lemma {:induction false} EveryDealHasItsCategory(catalog: seq<Business>, b: Business)
    requires b in FilteredDeals(catalog, All)
    ensures b in FilteredDeals(catalog, Only(b.category))
  {
  }
}
