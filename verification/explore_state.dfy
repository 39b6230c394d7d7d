/**
 * The explorer's URL parameters, recent searches and the handlers that
 * change them.  A handler works on the values it was rendered with: every
 * `updateFilter` call in one handler copies the same URL parameters and
 * the same history, and of several writes to the same piece of state the
 * last one is what remains.
 */
module ExploreState {
  import opened Wrappers
  import opened SearchHistory
  import opened Suggestions
  import opened ExploreSearch

  /** URL search parameters, one value per key. */
  type Params = map<string, string>

  /** `searchParams.get(key) || ''`. */
  function Param(p: Params, key: string): string
  {
    if key in p then p[key] else ""
  }

  datatype State = State(params: Params, history: seq<string>, showSuggestions: bool)

  /** The filters the result list is computed from. */
  function FiltersOf(p: Params, tab: Tab): Filters
  {
    Filters(Param(p, "q"), Param(p, "city"), Param(p, "region"), Param(p, "category"), Param(p, "price"), tab)
  }

  /**
   * What one `updateFilter(key, value)` call writes, computed from the
   * rendered state `s`.  The history is written only when `addToHistory`
   * gets past its guard; otherwise it returns before `setRecentSearches`.
   */
  datatype Effect = Effect(params: Params, history: Option<seq<string>>)

  function UpdateEffect(s: State, key: string, value: string): Effect
  {
    Effect(
      if value != "" then s.params[key := value] else s.params - {key},
      if key == "q" && Recordable(value) then Some(AddToHistory(s.history, value)) else None)
  }

  /** The state after one handler ran its `updateFilter` calls against the rendered state `s`. */
  function RunHandler(s: State, calls: seq<(string, string)>): State
    decreases |calls|
  {
    if calls == [] then s
    else
      var last := calls[|calls| - 1];
      var e := UpdateEffect(s, last.0, last.1);
      var before := RunHandler(s, calls[..|calls| - 1]);
      State(e.params, if e.history.Some? then e.history.value else before.history, false)
  }

  /** `updateFilter` on its own. */
  function UpdateFilter(s: State, key: string, value: string): (r: State)
    ensures Param(r.params, key) == value && !r.showSuggestions
    ensures forall k :: k != key ==> Param(r.params, k) == Param(s.params, k)
  {
    assert [(key, value)][..0] == [];
    RunHandler(s, [(key, value)])
  }

  /**
   * One update sets its parameter (an empty value removes it), leaves every
   * other parameter as it was, closes the dropdown, and passes a query to
   * `addToHistory`.
   */
  lemma {:induction false} UpdateFilterEffect(s: State, key: string, value: string)
    ensures var r := UpdateFilter(s, key, value);
      && Param(r.params, key) == value
      && (value == "" ==> key !in r.params)
      && (forall k :: k != key ==> (k in r.params <==> k in s.params) && Param(r.params, k) == Param(s.params, k))
      && r.history == (if key == "q" then AddToHistory(s.history, value) else s.history)
      && !r.showSuggestions
  {
    assert [(key, value)][..0] == [];
    assert RunHandler(s, []) == s;
  }

  /** `handleSuggestionClick` as written. */
  function ClickAsWritten(s: State, sug: Suggestion): (r: State)
    ensures !r.showSuggestions
    ensures Param(r.params, "q") == (if sug.kind == CategoryKind || sug.kind == CityKind then "" else sug.text)
  {
    match sug.kind
    case CategoryKind => RunHandler(s, [("category", sug.text), ("q", "")])
    case CityKind => RunHandler(s, [("city", sug.text), ("q", "")])
    case _ =>
      assert [("q", sug.text)][..0] == [];
      RunHandler(s, [("q", sug.text)])
  }

  /**
   * As written, a category or city suggestion does not set its filter: the
   * second call's parameters were copied before the first call's write, so
   * the click only clears the query and the category or city stays what it
   * was.
   */
  lemma {:induction false} ClickAsWrittenDropsFilter(s: State, sug: Suggestion)
    requires sug.kind == CategoryKind || sug.kind == CityKind
    ensures var key := if sug.kind == CategoryKind then "category" else "city";
      var r := ClickAsWritten(s, sug);
      && Param(r.params, key) == Param(s.params, key)
      && Param(r.params, "q") == ""
      && r.history == s.history
  {
    var key := if sug.kind == CategoryKind then "category" else "city";
    var calls := [(key, sug.text), ("q", "")];
    assert calls[..1] == [(key, sug.text)];
    assert calls[..1][..0] == [];
    assert RunHandler(s, []) == s;
    assert RunHandler(s, calls[..1]).history == s.history;
  }

  /** With no filters set, clicking the `Retail` category suggestion leaves the category unset. */
  lemma {:induction false} ClickAsWrittenExample()
    ensures Param(ClickAsWritten(State(map[], [], true), Suggestion("Retail", CategoryKind, None)).params, "category") == ""
  {
    ClickAsWrittenDropsFilter(State(map[], [], true), Suggestion("Retail", CategoryKind, None));
  }

  /** `handleSuggestionClick` as evidently intended: each update applied to the result of the one before. */
  function Click(s: State, sug: Suggestion): (r: State)
    ensures !r.showSuggestions
    ensures Param(r.params, "q") == (if sug.kind == CategoryKind || sug.kind == CityKind then "" else sug.text)
    ensures sug.kind == CategoryKind ==> Param(r.params, "category") == sug.text
    ensures sug.kind == CityKind ==> Param(r.params, "city") == sug.text
  {
    match sug.kind
    case CategoryKind => UpdateFilter(UpdateFilter(s, "category", sug.text), "q", "")
    case CityKind => UpdateFilter(UpdateFilter(s, "city", sug.text), "q", "")
    case _ => UpdateFilter(s, "q", sug.text)
  }

  /**
   * A category or city suggestion sets that filter and clears the query,
   * any other suggestion becomes the query and is recorded; no other
   * parameter changes, and the dropdown closes.
   */
  lemma {:induction false} ClickSetsFilter(s: State, sug: Suggestion)
    ensures var r := Click(s, sug);
      var key := match sug.kind
        case CategoryKind => "category"
        case CityKind => "city"
        case _ => "q";
      && (key == "q" ==> Param(r.params, "q") == sug.text)
      && (key != "q" ==> Param(r.params, key) == sug.text && Param(r.params, "q") == "")
      && (forall k :: k != key && k != "q" ==> Param(r.params, k) == Param(s.params, k))
      && r.history == (if key == "q" && sug.text != "" then AddToHistory(s.history, sug.text) else s.history)
      && !r.showSuggestions
  {
    var key := match sug.kind
      case CategoryKind => "category"
      case CityKind => "city"
      case _ => "q";
    UpdateFilterEffect(s, key, sug.text);
    if key != "q" {
      UpdateFilterEffect(UpdateFilter(s, key, sug.text), "q", "");
    }
  }

  /** For suggestions other than categories and cities the written handler already does what is intended. */
  lemma {:induction false} ClickAgreesOnQueries(s: State, sug: Suggestion)
    requires sug.kind != CategoryKind && sug.kind != CityKind
    ensures ClickAsWritten(s, sug) == Click(s, sug)
  {
  }
}
