/**
 * The explorer's result list: the query is split into lower-case tokens,
 * every token must occur in a record's searchable text or fuzzy-match one
 * of its words, and the structured filters (city, region, category, price
 * tier, popular tab) must all hold.  While records are examined, the tokens
 * and fuzzy words that matched are recorded for highlighting, together with
 * whether the fuzzy path was ever taken.
 */
module ExploreSearch {
  import opened Wrappers
  import opened Seqs
  import opened Text
  import opened Fuzzy
  import opened Directory

  datatype Tab = AllResults | Popular

  /** The explorer's filter state; each string is `""` when its URL parameter is unset. */
  datatype Filters = Filters(q: string, city: string, region: string, category: string, price: string, tab: Tab)

  /** Ratings are in tenths of a star: 4.5 and 4.7. */
  const ValueRating: nat := 45
  const PopularRating: nat := 47

  /** The categories the `free` price tier admits. */
  predicate FreeTier(c: Category)
  {
    c == ArtsCulture || c == Technology
  }

  predicate NonEmpty(w: string)
  {
    w != []
  }

  /** The query's tokens: lower-cased, trimmed, split on white-space runs, empty pieces dropped. */
  function Tokens(q: string): (r: seq<string>)
    ensures forall t :: t in r ==> t != [] && NoSep(t, IsSpace)
  {
    Filter(Split(Trim(Lower(q)), IsSpace), NonEmpty)
  }

  /** Every token occurs in the lower-cased query. */
  lemma {:induction false} TokensOccur(q: string)
    ensures forall t :: t in Tokens(q) ==> Contains(Lower(q), t)
  {
    TrimmedPiecesOccur(Lower(q), IsSpace);
  }

  /** A query that is empty or only white space has no tokens. */
  lemma {:induction false} BlankQueryHasNoTokens(q: string)
    requires AllSpace(q)
    ensures Tokens(q) == []
  {
    assert AllSpace(Lower(q)) by {
      forall i | 0 <= i < |q|
        ensures IsSpace(Lower(q)[i])
      {
        assert IsSpace(q[i]);
      }
    }
    TrimEmptyIffAllSpace(Lower(q));
    assert Split([], IsSpace) == [[]];
  }

  /** `name description category city region`, lower-cased. */
  function SearchableText(b: Business): string
  {
    Lower(b.name + " " + b.description + " " + CategoryName(b.category) + " " + b.city + " " + RegionName(b.region))
  }

  /** One token passes for a text when the text contains it or a word of the text fuzzy-matches it. */
  predicate TokenPasses(k: string, text: string)
  {
    Contains(text, k) || IsHit(FuzzyMatch(k, text))
  }

  predicate TextPasses(tokens: seq<string>, text: string)
  {
    forall i :: 0 <= i < |tokens| ==> TokenPasses(tokens[i], text)
  }

  /** The price-tier condition; any value other than `free` and `value` admits everything. */
  predicate PricePasses(b: Business, price: string)
  {
    (price == "free" ==> FreeTier(b.category)) && (price == "value" ==> b.rating >= ValueRating)
  }

  predicate StructuredPasses(b: Business, f: Filters)
  {
    && (f.city == "" || b.city == f.city)
    && (f.region == "" || RegionName(b.region) == f.region)
    && (f.category == "" || CategoryName(b.category) == f.category)
    && PricePasses(b, f.price)
    && (f.tab == Popular ==> b.rating >= PopularRating)
  }

  /** The filter predicate as a whole. */
  predicate Matches(b: Business, f: Filters)
  {
    TextPasses(Tokens(f.q), SearchableText(b)) && StructuredPasses(b, f)
  }

  /** Insertion-ordered set of highlight terms (JavaScript's `Set`). */
  function AddTerm(terms: seq<string>, t: string): (r: seq<string>)
    ensures NoDups(terms) ==> NoDups(r)
    ensures t in r && forall u :: u in r <==> u in terms || u == t
  {
    if t in terms then terms else terms + [t]
  }

  /** What the scan records: the highlight terms and whether the fuzzy path was taken. */
  datatype Marks = Marks(terms: seq<string>, fuzzyUsed: bool)

  /**
   * `keywords.every(...)` for one record, recording as it goes: a token the
   * text contains is recorded as itself, a token that only fuzzy-matches is
   * recorded as the matched word and sets the fuzzy flag, and the first
   * failing token stops the scan.
   */
  function EvalTokens(tokens: seq<string>, text: string, m: Marks): (r: (bool, Marks))
    ensures r.0 <==> TextPasses(tokens, text)
  {
    if tokens == [] then (true, m)
    else
      var k := tokens[0];
      var w := FuzzyMatch(k, text);
      TextPassesCons(tokens, text);
      if !Contains(text, k) && !IsHit(w) then (false, m)
      else
        var m' := if Contains(text, k) then Marks(AddTerm(m.terms, k), m.fuzzyUsed)
                  else Marks(AddTerm(m.terms, w.value), true);
        EvalTokens(tokens[1..], text, m')
  }

  lemma {:induction false} TextPassesCons(tokens: seq<string>, text: string)
    requires tokens != []
    ensures TextPasses(tokens, text) <==> TokenPasses(tokens[0], text) && TextPasses(tokens[1..], text)
  {
    if TokenPasses(tokens[0], text) && TextPasses(tokens[1..], text) {
      forall i | 1 <= i < |tokens|
        ensures TokenPasses(tokens[i], text)
      {
        assert tokens[i] == tokens[1..][i - 1];
      }
    }
  }

  /**
   * What one record's scan records: the terms only grow and stay free of
   * duplicates, every new term occurs in the (lower-case) text, the fuzzy
   * flag is never cleared, and while it stays clear every new term is a
   * query token.
   */
  lemma {:induction false} EvalTokensMarks(tokens: seq<string>, text: string, m: Marks)
    requires Lower(text) == text
    ensures var r := EvalTokens(tokens, text, m);
      && (NoDups(m.terms) ==> NoDups(r.1.terms))
      && (forall u :: u in m.terms ==> u in r.1.terms)
      && (forall u :: u in r.1.terms ==> u in m.terms || Contains(text, u))
      && (m.fuzzyUsed ==> r.1.fuzzyUsed)
      && (!r.1.fuzzyUsed ==> forall u :: u in r.1.terms ==> u in m.terms || u in tokens)
  {
    if tokens != [] {
      var k := tokens[0];
      var w := FuzzyMatch(k, text);
      if Contains(text, k) || IsHit(w) {
        if !Contains(text, k) {
          MatchOccursInHaystack(k, text);
        }
        var m' := if Contains(text, k) then Marks(AddTerm(m.terms, k), m.fuzzyUsed)
                  else Marks(AddTerm(m.terms, w.value), true);
        EvalTokensMarks(tokens[1..], text, m');
        assert forall u :: u in tokens[1..] ==> u in tokens;
      }
    }
  }

  /** The `every` scan of the tokens over `text` reaches token `i`: every earlier token passed. */
  ghost predicate Reaches(tokens: seq<string>, text: string, i: int)
  {
    0 <= i < |tokens| && forall j :: 0 <= j < i ==> TokenPasses(tokens[j], text)
  }

  /** The term token `k` records for `text`: itself when contained, else a non-empty fuzzy word, else nothing. */
  function TermOf(k: string, text: string): Option<string>
  {
    if Contains(text, k) then Some(k)
    else if IsHit(FuzzyMatch(k, text)) then FuzzyMatch(k, text)
    else None
  }

  /** `u` is the term of some token the scan of `text` reaches. */
  ghost predicate RecordsTerm(tokens: seq<string>, text: string, u: string)
  {
    exists i :: Reaches(tokens, text, i) && TermOf(tokens[i], text) == Some(u)
  }

  /** Some token the scan of `text` reaches passes by fuzzy match alone. */
  ghost predicate FuzzyPath(tokens: seq<string>, text: string)
  {
    exists i :: Reaches(tokens, text, i) && !Contains(text, tokens[i]) && IsHit(FuzzyMatch(tokens[i], text))
  }

  /** Token `i + 1` is reached exactly when the first token passes and the rest reach token `i`. */
  lemma {:induction false} ReachesCons(tokens: seq<string>, text: string, i: nat)
    requires tokens != []
    ensures Reaches(tokens, text, i + 1) <==> TokenPasses(tokens[0], text) && Reaches(tokens[1..], text, i)
  {
    if TokenPasses(tokens[0], text) && Reaches(tokens[1..], text, i) {
      forall j | 0 <= j < i + 1
        ensures TokenPasses(tokens[j], text)
      {
        if j > 0 {
          assert tokens[j] == tokens[1..][j - 1];
        }
      }
    }
    if Reaches(tokens, text, i + 1) {
      assert TokenPasses(tokens[0], text);
      forall j | 0 <= j < i
        ensures TokenPasses(tokens[1..][j], text)
      {
        assert tokens[1..][j] == tokens[j + 1];
      }
    }
  }

  /** The terms recorded for `text`: the first token's, then those the rest reach if it passes. */
  lemma {:induction false} RecordsTermCons(tokens: seq<string>, text: string, u: string)
    requires tokens != []
    ensures RecordsTerm(tokens, text, u) <==>
      TermOf(tokens[0], text) == Some(u) || (TokenPasses(tokens[0], text) && RecordsTerm(tokens[1..], text, u))
  {
    var rest := tokens[1..];
    if RecordsTerm(tokens, text, u) {
      var i :| Reaches(tokens, text, i) && TermOf(tokens[i], text) == Some(u);
      if i > 0 {
        ReachesCons(tokens, text, i - 1);
        assert rest[i - 1] == tokens[i];
      }
    }
    if TokenPasses(tokens[0], text) && RecordsTerm(rest, text, u) {
      var i :| Reaches(rest, text, i) && TermOf(rest[i], text) == Some(u);
      ReachesCons(tokens, text, i);
      assert tokens[i + 1] == rest[i];
    }
    if TermOf(tokens[0], text) == Some(u) {
      assert Reaches(tokens, text, 0);
    }
  }

  /** The fuzzy path is taken for `text` by the first token, or by a later one if the first passes. */
  lemma {:induction false} FuzzyPathCons(tokens: seq<string>, text: string)
    requires tokens != []
    ensures FuzzyPath(tokens, text) <==>
      (!Contains(text, tokens[0]) && IsHit(FuzzyMatch(tokens[0], text)))
      || (TokenPasses(tokens[0], text) && FuzzyPath(tokens[1..], text))
  {
    var rest := tokens[1..];
    if FuzzyPath(tokens, text) {
      var i :| Reaches(tokens, text, i) && !Contains(text, tokens[i]) && IsHit(FuzzyMatch(tokens[i], text));
      if i > 0 {
        ReachesCons(tokens, text, i - 1);
        assert rest[i - 1] == tokens[i];
      }
    }
    if TokenPasses(tokens[0], text) && FuzzyPath(rest, text) {
      var i :| Reaches(rest, text, i) && !Contains(text, rest[i]) && IsHit(FuzzyMatch(rest[i], text));
      ReachesCons(tokens, text, i);
      assert tokens[i + 1] == rest[i];
    }
    if !Contains(text, tokens[0]) && IsHit(FuzzyMatch(tokens[0], text)) {
      assert Reaches(tokens, text, 0);
    }
  }

  /**
   * Exactly what one record's scan records: the new terms are the terms of
   * the tokens it reaches, and the fuzzy flag is set exactly when one of
   * them passes by fuzzy match alone.
   */
  lemma {:induction false} EvalTokensRecords(tokens: seq<string>, text: string, m: Marks)
    ensures var r := EvalTokens(tokens, text, m).1;
      && (forall u :: u in r.terms <==> u in m.terms || RecordsTerm(tokens, text, u))
      && (r.fuzzyUsed <==> m.fuzzyUsed || FuzzyPath(tokens, text))
  {
    EvalTokensTerms(tokens, text, m);
    EvalTokensFuzzy(tokens, text, m);
  }

  lemma {:induction false} EvalTokensTerms(tokens: seq<string>, text: string, m: Marks)
    ensures forall u :: u in EvalTokens(tokens, text, m).1.terms <==> u in m.terms || RecordsTerm(tokens, text, u)
  {
    if tokens != [] {
      var k := tokens[0];
      var w := FuzzyMatch(k, text);
      forall u
        ensures RecordsTerm(tokens, text, u) <==> TermOf(k, text) == Some(u) || (TokenPasses(k, text) && RecordsTerm(tokens[1..], text, u))
      {
        RecordsTermCons(tokens, text, u);
      }
      if Contains(text, k) || IsHit(w) {
        var m' := if Contains(text, k) then Marks(AddTerm(m.terms, k), m.fuzzyUsed)
                  else Marks(AddTerm(m.terms, w.value), true);
        EvalTokensTerms(tokens[1..], text, m');
      }
    }
  }

  lemma {:induction false} EvalTokensFuzzy(tokens: seq<string>, text: string, m: Marks)
    ensures EvalTokens(tokens, text, m).1.fuzzyUsed <==> m.fuzzyUsed || FuzzyPath(tokens, text)
  {
    if tokens != [] {
      var k := tokens[0];
      var w := FuzzyMatch(k, text);
      FuzzyPathCons(tokens, text);
      if Contains(text, k) || IsHit(w) {
        var m' := if Contains(text, k) then Marks(AddTerm(m.terms, k), m.fuzzyUsed)
                  else Marks(AddTerm(m.terms, w.value), true);
        EvalTokensFuzzy(tokens[1..], text, m');
      }
    }
  }

  /** The scan's outcome: the records kept, in catalog order, and what was recorded. */
  datatype Outcome = Outcome(results: seq<Business>, marks: Marks)

  /**
   * One pass over the catalog.  The text test runs first and records its
   * marks whether or not the structured filters later reject the record.
   */
  function Scan(catalog: seq<Business>, f: Filters, m: Marks): (r: Outcome)
    ensures IsSubseq(r.results, catalog)
  {
    if catalog == [] then Outcome([], m)
    else
      var b := catalog[0];
      var e := Step(b, f, m);
      var rest := Scan(catalog[1..], f, e.1);
      var keep := e.0 && StructuredPasses(b, f);
      if keep then
        assert ([b] + rest.results)[1..] == rest.results;
        Outcome([b] + rest.results, rest.marks)
      else
        SubseqOfTail(rest.results, catalog);
        Outcome(rest.results, rest.marks)
  }

  /** The text test for one record; a query without tokens passes every record. */
  function Step(b: Business, f: Filters, m: Marks): (r: (bool, Marks))
    ensures r.0 == TextPasses(Tokens(f.q), SearchableText(b))
  {
    var tokens := Tokens(f.q);
    if tokens == [] then (true, m) else EvalTokens(tokens, SearchableText(b), m)
  }

  /** The scan keeps exactly the records the filter predicate accepts, in order. */
  lemma {:induction false} ScanKeepsMatches(catalog: seq<Business>, f: Filters, m: Marks)
    ensures Scan(catalog, f, m).results == Filter(catalog, (b: Business) => Matches(b, f))
  {
    if catalog != [] {
      var b := catalog[0];
      var e := Step(b, f, m);
      ScanKeepsMatches(catalog[1..], f, e.1);
      assert e.0 && StructuredPasses(b, f) <==> Matches(b, f);
    }
  }

  /** The explorer's search over a catalog, starting with nothing recorded. */
  function Search(catalog: seq<Business>, f: Filters): (r: Outcome)
    ensures r.results == Filter(catalog, (b: Business) => Matches(b, f))
  {
    ScanKeepsMatches(catalog, f, Marks([], false));
    Scan(catalog, f, Marks([], false))
  }

  /**
   * A record is in the results exactly when every query token occurs in
   * its searchable text or fuzzy-matches a word of it, and each structured
   * filter that is set holds for it.
   */
  lemma {:induction false} ResultsCharacterised(catalog: seq<Business>, f: Filters, b: Business)
    ensures b in Search(catalog, f).results <==>
      && b in catalog
      && (forall k :: k in Tokens(f.q) ==> TokenPasses(k, SearchableText(b)))
      && (f.city != "" ==> b.city == f.city)
      && (f.region != "" ==> RegionName(b.region) == f.region)
      && (f.category != "" ==> CategoryName(b.category) == f.category)
      && (f.price == "free" ==> b.category == ArtsCulture || b.category == Technology)
      && (f.price == "value" ==> b.rating >= 45)
      && (f.tab == Popular ==> b.rating >= 47)
  {
    assert b in Search(catalog, f).results <==> b in catalog && Matches(b, f);
    TextPassesMembers(Tokens(f.q), SearchableText(b));
  }

  /** Every token passes, stated over membership rather than positions. */
  lemma {:induction false} TextPassesMembers(tokens: seq<string>, text: string)
    ensures TextPasses(tokens, text) <==> forall k :: k in tokens ==> TokenPasses(k, text)
  {
    if TextPasses(tokens, text) {
      forall k | k in tokens
        ensures TokenPasses(k, text)
      {
        var i :| 0 <= i < |tokens| && tokens[i] == k;
      }
    }
  }

  /** The results keep catalog order. */
  lemma {:induction false} ResultsInCatalogOrder(catalog: seq<Business>, f: Filters)
    ensures IsSubseq(Search(catalog, f).results, catalog)
  {
    FilterIsSubseq(catalog, (b: Business) => Matches(b, f));
  }

  /** With no query tokens every record passes the text stage. */
  lemma {:induction false} BlankQueryFiltersOnStructure(catalog: seq<Business>, f: Filters)
    requires AllSpace(f.q)
    ensures Search(catalog, f).results == Filter(catalog, (b: Business) => StructuredPasses(b, f))
  {
    BlankQueryHasNoTokens(f.q);
    FilterSame(catalog, (b: Business) => Matches(b, f), (b: Business) => StructuredPasses(b, f));
  }

  /** Searching the results again with the same filters changes nothing. */
  lemma {:induction false} SearchIdempotent(catalog: seq<Business>, f: Filters)
    ensures Search(Search(catalog, f).results, f).results == Search(catalog, f).results
  {
    FilterIdempotent(catalog, (b: Business) => Matches(b, f));
  }

  /**
   * What the whole scan records: no term twice, every term occurs in the
   * searchable text of some record of the catalog, and while the fuzzy flag
   * is clear every term is one of the query's tokens.
   */
  lemma {:induction false} ScanMarks(catalog: seq<Business>, f: Filters, m: Marks)
    ensures var r := Scan(catalog, f, m).marks;
      && (NoDups(m.terms) ==> NoDups(r.terms))
      && (forall u :: u in m.terms ==> u in r.terms)
      && (forall u :: u in r.terms ==> u in m.terms || exists b :: b in catalog && Contains(SearchableText(b), u))
      && (m.fuzzyUsed ==> r.fuzzyUsed)
      && (!r.fuzzyUsed ==> forall u :: u in r.terms ==> u in m.terms || u in Tokens(f.q))
  {
    if catalog != [] {
      var b := catalog[0];
      var e := Step(b, f, m);
      StepMarks(b, f, m);
      ScanMarks(catalog[1..], f, e.1);
      var r := Scan(catalog, f, m).marks;
      assert r == Scan(catalog[1..], f, e.1).marks;
      forall u | u in r.terms && u !in m.terms
        ensures exists c :: c in catalog && Contains(SearchableText(c), u)
      {
        if u in e.1.terms {
          assert b in catalog && Contains(SearchableText(b), u);
        } else {
          var c :| c in catalog[1..] && Contains(SearchableText(c), u);
          assert c in catalog;
        }
      }
    }
  }

  /** What the text test of one record records. */
  lemma {:induction false} StepMarks(b: Business, f: Filters, m: Marks)
    ensures var r := Step(b, f, m).1;
      && (NoDups(m.terms) ==> NoDups(r.terms))
      && (forall u :: u in m.terms ==> u in r.terms)
      && (forall u :: u in r.terms ==> u in m.terms || Contains(SearchableText(b), u))
      && (m.fuzzyUsed ==> r.fuzzyUsed)
      && (!r.fuzzyUsed ==> forall u :: u in r.terms ==> u in m.terms || u in Tokens(f.q))
  {
    var tokens := Tokens(f.q);
    if tokens != [] {
      LowerIdempotent(b.name + " " + b.description + " " + CategoryName(b.category) + " " + b.city + " " + RegionName(b.region));
      EvalTokensMarks(tokens, SearchableText(b), m);
    }
  }

  /** Exactly what the text test of one record records. */
  lemma {:induction false} StepRecords(b: Business, f: Filters, m: Marks)
    ensures var r := Step(b, f, m).1;
      && (forall u :: u in r.terms <==> u in m.terms || RecordsTerm(Tokens(f.q), SearchableText(b), u))
      && (r.fuzzyUsed <==> m.fuzzyUsed || FuzzyPath(Tokens(f.q), SearchableText(b)))
  {
    if Tokens(f.q) != [] {
      EvalTokensRecords(Tokens(f.q), SearchableText(b), m);
    }
  }

  /**
   * Exactly what the whole scan records: the terms of the tokens reached
   * for each record of the catalog, kept or not, and the fuzzy flag exactly
   * when some record's scan passes a token by fuzzy match alone.
   */
  lemma {:induction false} ScanRecords(catalog: seq<Business>, f: Filters, m: Marks)
    ensures var r := Scan(catalog, f, m).marks;
      && (forall u :: u in r.terms <==> u in m.terms || exists b :: b in catalog && RecordsTerm(Tokens(f.q), SearchableText(b), u))
      && (r.fuzzyUsed <==> m.fuzzyUsed || exists b :: b in catalog && FuzzyPath(Tokens(f.q), SearchableText(b)))
  {
    ScanRecordsTerms(catalog, f, m);
    ScanRecordsFuzzy(catalog, f, m);
  }

  lemma {:induction false} ScanRecordsTerms(catalog: seq<Business>, f: Filters, m: Marks)
    ensures forall u :: u in Scan(catalog, f, m).marks.terms <==>
      u in m.terms || exists b :: b in catalog && RecordsTerm(Tokens(f.q), SearchableText(b), u)
  {
    if catalog != [] {
      var b := catalog[0];
      var e := Step(b, f, m);
      StepRecords(b, f, m);
      ScanRecordsTerms(catalog[1..], f, e.1);
      assert Scan(catalog, f, m).marks == Scan(catalog[1..], f, e.1).marks;
      var tokens := Tokens(f.q);
      forall u
        ensures (exists c :: c in catalog && RecordsTerm(tokens, SearchableText(c), u)) <==>
          RecordsTerm(tokens, SearchableText(b), u) || exists c :: c in catalog[1..] && RecordsTerm(tokens, SearchableText(c), u)
      {
        if exists c :: c in catalog && RecordsTerm(tokens, SearchableText(c), u) {
          var c :| c in catalog && RecordsTerm(tokens, SearchableText(c), u);
          if c != b {
            assert c in catalog[1..];
          }
        }
        if exists c :: c in catalog[1..] && RecordsTerm(tokens, SearchableText(c), u) {
          var c :| c in catalog[1..] && RecordsTerm(tokens, SearchableText(c), u);
          assert c in catalog;
        }
      }
    }
  }

  lemma {:induction false} ScanRecordsFuzzy(catalog: seq<Business>, f: Filters, m: Marks)
    ensures Scan(catalog, f, m).marks.fuzzyUsed <==>
      m.fuzzyUsed || exists b :: b in catalog && FuzzyPath(Tokens(f.q), SearchableText(b))
  {
    if catalog != [] {
      var b := catalog[0];
      var e := Step(b, f, m);
      StepRecords(b, f, m);
      ScanRecordsFuzzy(catalog[1..], f, e.1);
      assert Scan(catalog, f, m).marks == Scan(catalog[1..], f, e.1).marks;
      assert forall c :: c in catalog <==> c == b || c in catalog[1..];
    }
  }

  /** The bounds of `ScanMarks` for a search, which starts with nothing recorded. */
  lemma {:induction false} SearchMarks(catalog: seq<Business>, f: Filters)
    ensures var r := Scan(catalog, f, Marks([], false)).marks;
      && NoDups(r.terms)
      && (forall u :: u in r.terms ==> exists b :: b in catalog && Contains(SearchableText(b), u))
      && (!r.fuzzyUsed ==> forall u :: u in r.terms ==> u in Tokens(f.q))
  {
    ScanMarks(catalog, f, Marks([], false));
  }

  /** The characterisation of `ScanRecords` for a search, which starts with nothing recorded. */
  lemma {:induction false} SearchRecords(catalog: seq<Business>, f: Filters)
    ensures var r := Scan(catalog, f, Marks([], false)).marks;
      && (forall u :: u in r.terms <==> exists b :: b in catalog && RecordsTerm(Tokens(f.q), SearchableText(b), u))
      && (r.fuzzyUsed <==> exists b :: b in catalog && FuzzyPath(Tokens(f.q), SearchableText(b)))
  {
    ScanRecords(catalog, f, Marks([], false));
  }

  /**
   * The highlight terms of a search: no term twice, and a term is present
   * exactly when it is the term of a token reached for some record of the
   * catalog (the token itself when the record's text contains it, else the
   * non-empty fuzzy word), whether or not the record is kept.
   */
  function HighlightTerms(catalog: seq<Business>, f: Filters): (r: seq<string>)
    ensures NoDups(r)
    ensures forall u :: u in r <==> exists b :: b in catalog && RecordsTerm(Tokens(f.q), SearchableText(b), u)
    ensures forall u :: u in r ==> exists b :: b in catalog && Contains(SearchableText(b), u)
  {
    SearchMarks(catalog, f);
    SearchRecords(catalog, f);
    Scan(catalog, f, Marks([], false)).marks.terms
  }

  /**
   * Whether the fuzzy path was taken: exactly when, for some record, a
   * token the scan reaches is not contained in the text but fuzzy-matches
   * a non-empty word of it.  While it is off every term is a query token.
   */
  function FuzzyUsed(catalog: seq<Business>, f: Filters): (r: bool)
    ensures r <==> exists b :: b in catalog && FuzzyPath(Tokens(f.q), SearchableText(b))
    ensures !r ==> forall u :: u in HighlightTerms(catalog, f) ==> u in Tokens(f.q)
  {
    SearchMarks(catalog, f);
    SearchRecords(catalog, f);
    Scan(catalog, f, Marks([], false)).marks.fuzzyUsed
  }

  /**
   * For every record whose text passes every token, kept or not: each
   * token its text contains is a highlight term, and each token that only
   * fuzzy-matches turns the fuzzy flag on and adds the matched word.
   */
  lemma {:induction false} PassingRecordTermsRecorded(catalog: seq<Business>, f: Filters, b: Business, i: nat)
    requires b in catalog && TextPasses(Tokens(f.q), SearchableText(b)) && i < |Tokens(f.q)|
    ensures Contains(SearchableText(b), Tokens(f.q)[i]) ==> Tokens(f.q)[i] in HighlightTerms(catalog, f)
    ensures !Contains(SearchableText(b), Tokens(f.q)[i]) ==>
      && FuzzyUsed(catalog, f)
      && FuzzyMatch(Tokens(f.q)[i], SearchableText(b)).value in HighlightTerms(catalog, f)
  {
    var tokens, text := Tokens(f.q), SearchableText(b);
    assert Reaches(tokens, text, i);
    assert RecordsTerm(tokens, text, TermOf(tokens[i], text).value);
    if !Contains(text, tokens[i]) {
      assert FuzzyPath(tokens, text);
    }
  }

  /**
   * The recorded marks depend on the query alone: changing the structured
   * filters (city, region, category, price, tab) leaves them as they are,
   * even though it changes which records are kept.
   */
  lemma {:induction false} MarksIgnoreStructuredFilters(catalog: seq<Business>, f: Filters, g: Filters, m: Marks)
    requires f.q == g.q
    ensures Scan(catalog, f, m).marks == Scan(catalog, g, m).marks
  {
    if catalog != [] {
      MarksIgnoreStructuredFilters(catalog[1..], f, g, Step(catalog[0], f, m).1);
    }
  }

  /**
   * A record whose text contains the query's first token contributes that
   * token to the highlight terms, whether or not the record is kept.
   */
  lemma {:induction false} FirstTokenRecorded(catalog: seq<Business>, f: Filters, m: Marks, b: Business)
    requires b in catalog && Tokens(f.q) != []
    requires Contains(SearchableText(b), Tokens(f.q)[0])
    ensures Tokens(f.q)[0] in Scan(catalog, f, m).marks.terms
  {
    var tokens := Tokens(f.q);
    var e := Step(catalog[0], f, m);
    if catalog[0] == b {
      var k := tokens[0];
      var m' := Marks(AddTerm(m.terms, k), m.fuzzyUsed);
      LowerIdempotent(b.name + " " + b.description + " " + CategoryName(b.category) + " " + b.city + " " + RegionName(b.region));
      EvalTokensMarks(tokens[1..], SearchableText(b), m');
      assert e.1 == EvalTokens(tokens[1..], SearchableText(b), m').1;
      ScanMarks(catalog[1..], f, e.1);
    } else {
      FirstTokenRecorded(catalog[1..], f, e.1, b);
    }
  }
}
