# OC Thrive directory: search, boards and listing wizard

A Dafny model of the logic behind the pages of OC Thrive, a directory of
Orange County businesses:

- **Explore**: the fuzzy search engine. This covers the Levenshtein
  distance, `findFuzzyMatch` and the result filter. It also covers the
  highlight terms and fuzzy flag recorded while filtering, the analytics
  panel, recent-search history, the suggestion dropdown and the URL
  parameter handlers.
- **Jobs**: the flattened job board, its featured/newest ordering and its
  three filters.
- **Events**: the flattened calendar in date order and its two filters.
- **Deals**: the category selector and the deal filter.
- **Add business**: the eight-step listing wizard. This covers the package
  chosen from the link, the step guards, submission, the job list, and the
  rule that a manual upload and a generated cover image are never both held.

Everything is immutable datatypes and pure functions. The one exception is
the table-filling edit-distance algorithm, a method proved equal to the
recursive definition. JavaScript's string and array primitives are written
out in `text.dfy` and `seqs.dfy`:

- `toLowerCase` on ASCII letters;
- `trim`, with the ECMAScript white-space set;
- `includes`, `startsWith`;
- `split` on a regular-expression character class, with its empty edge pieces;
- `filter`, `slice(0, n)`;
- the stable `Array.sort` (`sorting.dfy`).

A model string is a sequence of Unicode scalar values. JavaScript stores
strings as UTF-16 code units, and `length` and indexing count those units.
`CodeUnits` encodes strings into code units, and the history's `length`
test, the fuzzy matcher's length tiers and the edit distance all count
units. `includes`, `startsWith` and `split` are modelled on characters.
For strings of whole characters this agrees with comparing code units,
because no character's encoding starts with a low surrogate, and no white
space or `[a-z0-9]` character lies outside the Basic Multilingual Plane.
The model relies on that argument; it does not prove it.

Ratings are integer tenths of a star, so 4.5 and 4.7 are 45 and 47. Dates
are integer timestamps standing for `new Date(...).getTime()`.

Modules, one per file:

- `Wrappers`, `Seqs`, `Sorting`, `Text`, `CodeUnits`;
- `Levenshtein`, `Fuzzy`;
- `Directory` (the records of `types.ts`);
- `ExploreSearch`, `Analytics`, `SearchHistory`, `Suggestions`, `ExploreState`;
- `JobBoard`, `EventsCalendar`, `DealsPage`;
- `ListingWizard`.

## Model

| member | source | states |
|---|---|---|
| Text.Lower | pages/Explore.tsx:37 | Lower-casing keeps the length, maps each character through ASCII lower-casing and leaves no upper-case letter |
| Text.LowerIdempotent | pages/Explore.tsx:89 | Lower-casing twice is lower-casing once |
| Text.TrimStart | pages/Explore.tsx:37 | The result is a suffix of the input that starts with a non-space, and everything cut off is white space |
| Text.TrimEnd | pages/Explore.tsx:37 | The result is a prefix of the input that ends with a non-space, and everything cut off is white space |
| Text.Trim | pages/Explore.tsx:37 | The result is a slice of the input with only white space cut from either side, and it neither starts nor ends with white space |
| Text.TrimEmptyIffAllSpace | pages/Explore.tsx:155-156 | A string trims to nothing exactly when it is all white space |
| Text.Split | pages/Explore.tsx:40 | Splitting yields at least one piece, and no piece contains a separator |
| Text.Separators | pages/Explore.tsx:40 | The separator runs a split cuts out are non-empty and consist of separator characters only |
| Text.SplitRoundTrip | pages/Explore.tsx:40 | There is one more piece than separator runs, and the pieces with the runs between them rebuild the string: splitting loses nothing |
| Text.SplitPiecesOccur | pages/Explore.tsx:40 | Every piece of a split occurs in the string split |
| Text.SplitInnerPiecesNonEmpty | pages/Explore.tsx:40 | Only the first and the last piece can be empty: separators are taken in runs |
| Text.SplitFirstPiece | pages/Explore.tsx:40 | The first piece is empty exactly when the string starts with a separator |
| Text.SplitNoSeparator | pages/Explore.tsx:40 | A string without separators splits into itself alone |
| Text.TrimmedPiecesOccur | pages/Explore.tsx:84 | Every piece of the split trimmed string occurs in the string |
| CodeUnits.CharUnits | pages/Explore.tsx:22-23 | A character below U+10000 is one code unit, its own value. Any other is a high surrogate followed by a low surrogate |
| CodeUnits.Units | pages/Explore.tsx:22-23 | Encoding a string never shortens it and yields only 16-bit code units |
| CodeUnits.RoundTrip | pages/Explore.tsx:22-29 | Decoding a string's code units gives the string back |
| CodeUnits.UnitsInjective | pages/Explore.tsx:29 | Different strings have different code units |
| CodeUnits.UnitsAppend | pages/Explore.tsx:22-29 | The code units of a concatenation are the two strings' code units joined |
| CodeUnits.JsLengthCounts | pages/Explore.tsx:22-23 | `length` counts every character once and each character outside the Basic Multilingual Plane twice |
| CodeUnits.BmpUnits | pages/Explore.tsx:22-23 | Below U+10000 the code units are the characters' values and `length` is the character count |
| CodeUnits.EmojiLength | pages/Explore.tsx:76 | The one-character string U+1F600 has `length` 2 |
| Levenshtein.Lev | pages/Explore.tsx:24-33 | The distance lies between 0 and the longer length |
| Levenshtein.CheapestScript | pages/Explore.tsx:24-33 | Builds an insert/delete/substitute script that turns `a` into `b` at a cost equal to the recurrence's value |
| Levenshtein.ScriptCostAtLeastLev | pages/Explore.tsx:24-33 | No edit script from `a` to `b` costs less than the recurrence's value |
| Levenshtein.LevIsEditDistance | pages/Explore.tsx:24-33 | The recurrence is exactly the least number of single-character edits: one script attains it and none beats it |
| Levenshtein.LevBounds | pages/Explore.tsx:24-33 | The distance is at least the length difference and at most the longer length |
| Levenshtein.LevEmpty | pages/Explore.tsx:25-26 | The distance between the empty string and `s`, in either order, is the length of `s` |
| Levenshtein.LevZeroIffEqual | pages/Explore.tsx:27-33 | The distance is zero exactly between equal strings |
| Levenshtein.LevSymmetric | pages/Explore.tsx:27-33 | The distance does not depend on the order of the arguments |
| Levenshtein.LevAtIsLev | pages/Explore.tsx:27-31 | Cell `(i, j)` of the table's recurrence is the distance between the prefixes of length `i` and `j` |
| Levenshtein.FirstRow | pages/Explore.tsx:25-26 | Row 0 of the table holds the cells of the recurrence for the empty prefix |
| Levenshtein.NextRow | pages/Explore.tsx:27-31 | Each row is computed from the previous row by the table's recurrence |
| Levenshtein.TableDistance | pages/Explore.tsx:21-34 | The table-filling algorithm, over sequences of any element type, returns the value of the recursive definition |
| Levenshtein.Distance | pages/Explore.tsx:21-34 | Run on two strings, the algorithm works on their UTF-16 code units, as `s1.length` and `s1[i - 1]` do. It returns the least number of single-unit edits between them: one edit script attains it and none costs less |
| Fuzzy.FirstAccepted | pages/Explore.tsx:41-47 | Returns the index of the first word that passes the test, or none when no word passes |
| Fuzzy.FuzzyMatch | pages/Explore.tsx:36-49 | A needle that normalises to fewer than two UTF-16 code units gives null. Otherwise the result is the first word that passes the test, or null when none does. The test's `length` tiers and edit distance count code units |
| Fuzzy.LeadingSeparatorHidesMatches | pages/Explore.tsx:40-42 | A haystack starting with punctuation makes the matcher return the empty word, which callers treat as no match |
| Fuzzy.WordInsideNeedleMatches | pages/Explore.tsx:42 | Any word that occurs inside the needle, however short, guarantees a result |
| Fuzzy.DistanceMatchLength | pages/Explore.tsx:43-45 | A word accepted on edit distance alone comes from a needle of three or more code units, and its `length` is within the threshold of the needle's |
| Fuzzy.EmptyHaystack | pages/Explore.tsx:37-42 | An empty haystack has one empty word. So the result is that word for a needle of two or more code units, and null otherwise |
| Fuzzy.AstralNeedleIsLongEnough | pages/Explore.tsx:37-38 | A one-emoji needle has `length` 2, so it passes the `< 2` test and can match |
| Fuzzy.MatchOccursInHaystack | pages/Explore.tsx:40-42 | The word returned occurs in the lower-cased haystack |
| Fuzzy.FirstMatchNotBestMatch | pages/Explore.tsx:41-47 | An earlier qualifying word is returned even when a later word contains the needle |
| ExploreSearch.Tokens | pages/Explore.tsx:84 | Every query token is non-empty and holds no white space |
| ExploreSearch.TokensOccur | pages/Explore.tsx:84 | Every token occurs in the lower-cased query |
| ExploreSearch.BlankQueryHasNoTokens | pages/Explore.tsx:84 | An empty or all-white-space query yields no tokens |
| ExploreSearch.AddTerm | pages/Explore.tsx:95-101 | Adding to the insertion-ordered set adds exactly that term and creates no duplicate |
| ExploreSearch.EvalTokens | pages/Explore.tsx:92-106 | The recording scan of the tokens accepts exactly when every token passes by substring or fuzzy match |
| ExploreSearch.TextPassesCons | pages/Explore.tsx:92 | `every` over the tokens is the first token's test and `every` over the rest |
| ExploreSearch.EvalTokensMarks | pages/Explore.tsx:92-106 | Terms only grow, stay duplicate-free and occur in the text. The fuzzy flag is never cleared, and while it is clear every new term is a query token |
| ExploreSearch.EvalTokensRecords | pages/Explore.tsx:92-106 | Exactly the terms of the tokens the `every` scan reaches are added: a contained token itself, else its non-empty fuzzy word. The fuzzy flag is set exactly when a reached token passes by fuzzy match alone |
| ExploreSearch.Step | pages/Explore.tsx:88-106 | The text stage of one record passes exactly when every token passes, and passes every record when there are no tokens |
| ExploreSearch.Scan | pages/Explore.tsx:88-119 | The records kept are an order-preserving subsequence of the catalog |
| ExploreSearch.ScanKeepsMatches | pages/Explore.tsx:88-119 | The recording scan keeps exactly the records the filter predicate accepts, in catalog order |
| ExploreSearch.Search | pages/Explore.tsx:88-119 | The results are the catalog filtered by the text and structured conditions |
| ExploreSearch.ResultsCharacterised | pages/Explore.tsx:88-119 | A record is in the results exactly when it is in the catalog, every token passes, and each set city, region, category, price-tier and popular-tab condition holds |
| ExploreSearch.TextPassesMembers | pages/Explore.tsx:92 | Every token passes, stated over token membership instead of positions |
| ExploreSearch.ResultsInCatalogOrder | pages/Explore.tsx:88 | The results are an order-preserving subsequence of the catalog |
| ExploreSearch.BlankQueryFiltersOnStructure | pages/Explore.tsx:84-92 | With a blank query only the structured filters decide |
| ExploreSearch.SearchIdempotent | pages/Explore.tsx:88-119 | Filtering the results again with the same filters changes nothing |
| ExploreSearch.ScanMarks | pages/Explore.tsx:85-106 | The recorded terms have no duplicates and each occurs in some catalog record's text. While the fuzzy flag is clear every term is a query token |
| ExploreSearch.StepMarks | pages/Explore.tsx:88-106 | The same guarantees for the text stage of one record |
| ExploreSearch.StepRecords | pages/Explore.tsx:88-106 | The same exact account of the terms and the flag for the text stage of one record |
| ExploreSearch.ScanRecords | pages/Explore.tsx:85-119 | Over the whole catalog a term is recorded exactly when it is the term of a reached token for some record, kept or not. The flag is set exactly when some record has a fuzzy-only pass |
| ExploreSearch.HighlightTerms | pages/Explore.tsx:85-106 | The highlight terms have no duplicates. A term is present exactly when it is the term of a token reached for some catalog record, kept or not, and each occurs in that record's searchable text |
| ExploreSearch.FuzzyUsed | pages/Explore.tsx:86-103 | The flag is on exactly when, for some record, a reached token is not contained in its text but fuzzy-matches a non-empty word of it. While it is off, every highlight term is a query token |
| ExploreSearch.PassingRecordTermsRecorded | pages/Explore.tsx:92-103 | For a record whose text passes every token, each contained token is a highlight term. Each token that passes by fuzzy match alone turns the flag on and adds its matched word |
| ExploreSearch.MarksIgnoreStructuredFilters | pages/Explore.tsx:88-117 | The recorded terms and flag depend on the query alone, not on the city, region, category, price or tab |
| ExploreSearch.FirstTokenRecorded | pages/Explore.tsx:94-96 | A record containing the first token records it even if a later token or a structured filter rejects the record |
| Analytics.Bump | pages/Explore.tsx:126 | Counting one key increments its entry or appends a new entry with count 1, leaves the other names and adds one to the total |
| Analytics.BumpCounts | pages/Explore.tsx:126 | With distinct names only the counted key's entry changes, by one |
| Analytics.BumpKeepsDistinct | pages/Explore.tsx:126 | Counting one key never makes a name repeat |
| Analytics.Tally | pages/Explore.tsx:125-131 | The tally of `Object.entries` of the counts never repeats a name |
| Analytics.TallyNames | pages/Explore.tsx:125-131 | Exactly the keys that occur have an entry |
| Analytics.TallyCounts | pages/Explore.tsx:125-131 | Each entry holds its key's number of occurrences |
| Analytics.TallyOrder | pages/Explore.tsx:131 | Entries come in the order their keys first occur, the insertion order of a string-keyed object |
| Analytics.TallyTotal | pages/Explore.tsx:125-127 | The counts add up to the number of results |
| Analytics.BreakdownEntries | pages/Explore.tsx:131-137 | The breakdown has one entry per distinct key, holding its count, and the counts sum to the number of results |
| Analytics.BreakdownOrder | pages/Explore.tsx:131-137 | Counts never increase down the breakdown, and entries with equal counts keep first-encountered order |
| Analytics.Breakdown | pages/Explore.tsx:131-137 | The breakdown is a permutation of the tally, sorted by descending count, and its counts add up to the number of keys |
| Analytics.TopCategoryCorrect | pages/Explore.tsx:149 | `N/A` exactly when there are no results. Otherwise the top category is a category of the results with the highest count, and the first met among those tied |
| Analytics.TopIsFirstEntry | pages/Explore.tsx:149 | For non-empty results the top category is the first breakdown entry's name |
| Analytics.TopCategory | pages/Explore.tsx:149 | The top category is `N/A` or the category of some result |
| Analytics.TotalRatingBounds | pages/Explore.tsx:128 | The rating total lies between the count times the lowest and the highest rating |
| Analytics.AvgRatingBounds | pages/Explore.tsx:139 | The rounded average lies between the lowest and the highest rating of the results |
| Analytics.AvgRating | pages/Explore.tsx:139 | No results gives 0. Otherwise the result is the mean rating in tenths, rounded to the nearest tenth with halves up |
| Analytics.Summarise | pages/Explore.tsx:121-151 | Both breakdowns sum to the result count. No results gives empty breakdowns, average 0 and `N/A`. Otherwise the top category is the first breakdown entry |
| Sorting.Insert | pages/Explore.tsx:133 | Inserting into a sorted sequence keeps it sorted and adds exactly one element |
| Sorting.SortBy | pages/Explore.tsx:131-137 | The sort returns a sorted permutation of its input |
| Sorting.SortByStable | pages/Explore.tsx:131-137 | For every key, the elements carrying it keep their original relative order |
| Sorting.SortedTiesKeepOrder | pages/Explore.tsx:131-137 | Two elements with equal keys that are in order after sorting were in that order before |
| Sorting.SubseqSorted | pages/Jobs.tsx:25-34 | Dropping elements from a sorted sequence leaves it sorted |
| SearchHistory.AddToHistory | pages/Explore.tsx:75-81 | Either the history is unchanged, or the trimmed query, at least two code units long, heads a history of at most five entries |
| SearchHistory.ShortQueryIgnored | pages/Explore.tsx:76 | A query whose trimmed `length` is under two UTF-16 code units leaves the history unchanged |
| SearchHistory.LongQueryRecorded | pages/Explore.tsx:76-78 | A query whose trimmed `length` is two code units or more is recorded in its trimmed form |
| SearchHistory.EmojiQueryRecorded | pages/Explore.tsx:76-78 | A one-emoji query has `length` 2 and is recorded |
| SearchHistory.RecordedFirst | pages/Explore.tsx:75-81 | After a search the trimmed query heads a history of at most five entries and occurs nowhere else. The other entries are earlier entries in their earlier order |
| SearchHistory.KeepsDistinct | pages/Explore.tsx:78 | A history without repeats stays without repeats |
| SearchHistory.RepeatIsIdempotent | pages/Explore.tsx:75-81 | Recording the same query twice equals recording it once |
| SearchHistory.FullHistoryEvictsOldest | pages/Explore.tsx:78 | A new query on a full history drops the oldest entry and keeps the other four in order |
| SearchHistory.RepeatMovesToFront | pages/Explore.tsx:78 | Searching again for an entry moves it to the front and keeps everything else in order |
| SearchHistory.DropOnly | pages/Explore.tsx:78 | Filtering out the only occurrence of an entry removes exactly that position |
| SearchHistory.KeystrokesRecorded | pages/Explore.tsx:195-199 | Two successive query edits are both recorded, newest first, because every keystroke goes through `updateFilter` |
| Suggestions.BusinessMatches | pages/Explore.tsx:171-178 | An entry is produced exactly when some business yields it: a prefix match as Business, otherwise a fuzzy hit as Fuzzy |
| Suggestions.CategoryMatches | pages/Explore.tsx:180-184 | An entry is produced exactly for each category whose lower-cased name starts with the query |
| Suggestions.CityMatches | pages/Explore.tsx:186-190 | An entry is produced exactly for each city whose lower-cased name starts with the query |
| Suggestions.BusinessMatchesConcat | pages/Explore.tsx:171-178 | The business block of a joined catalog is the two blocks joined, and one listing contributes exactly its own entry. So the block follows catalog order |
| Suggestions.CategoryMatchesConcat | pages/Explore.tsx:180-184 | The category block follows the order of the category list in the same way |
| Suggestions.CityMatchesConcat | pages/Explore.tsx:186-190 | The city block follows the order of the city list in the same way |
| Seqs.FilterMapConcat | pages/Explore.tsx:171-190 | Collecting over a joined sequence joins the collections, and one element contributes exactly what it yields |
| Suggestions.Dedup | pages/Explore.tsx:192 | No text and kind twice, the same text-and-kind pairs as the input, and only input elements |
| Suggestions.DedupSubseq | pages/Explore.tsx:192 | Deduplication keeps the original order |
| Suggestions.DedupKeepsFirst | pages/Explore.tsx:192 | The entry kept for each text and kind is its first occurrence |
| Suggestions.RawValid | pages/Explore.tsx:167-190 | The raw list holds exactly the valid business, fuzzy, category and city entries for the query |
| Suggestions.RawRanked | pages/Explore.tsx:167-190 | Business and fuzzy entries come first, then categories, then cities |
| Suggestions.Suggest | pages/Explore.tsx:154-193 | A blank query gives one entry per recent search plus the three trending entries. Any other query gives at most ten entries |
| Suggestions.SuggestSound | pages/Explore.tsx:154-193 | For a non-blank query the list is exactly the first ten entries (or all, if fewer) of the deduplicated business, category and city blocks, in that order. So it has at most ten entries, no text and kind twice, each valid for the query, in rank order |
| Suggestions.CappedSound | pages/Explore.tsx:192 | Deduplicating and cutting to ten keeps the entries distinct, valid and ranked |
| Suggestions.SuggestComplete | pages/Explore.tsx:167-192 | When nothing is cut, every valid entry is offered |
| Suggestions.BlankQuerySuggestions | pages/Explore.tsx:155-164 | A blank query lists the recent searches as History, then the three Trending searches |
| ExploreState.UpdateFilter | pages/Explore.tsx:195-201 | The parameter reads back as the value (an empty value as unset), every other parameter reads as before, and the dropdown closes |
| ExploreState.UpdateFilterEffect | pages/Explore.tsx:195-201 | One update sets or deletes its parameter, leaves the others, and closes the dropdown. A `q` update leaves the history as `addToHistory` makes it, and unchanged for a query under two code units |
| ExploreState.ClickAsWritten | pages/Explore.tsx:203-212 | The dropdown closes. The query ends up empty for a category or city suggestion and equal to the suggestion's text otherwise |
| ExploreState.ClickAsWrittenDropsFilter | pages/Explore.tsx:203-212 | As written, a category or city suggestion leaves that parameter as it was and only clears the query |
| ExploreState.ClickAsWrittenExample | pages/Explore.tsx:203-206 | Clicking the `Retail` suggestion with no filters set leaves the category unset |
| ExploreState.Click | pages/Explore.tsx:203-212 | Corrected handler: a category or city suggestion sets that filter and clears the query. Any other suggestion becomes the query. The dropdown closes |
| ExploreState.ClickSetsFilter | pages/Explore.tsx:203-212 | Corrected: a category or city suggestion sets that filter and clears the query. Any other suggestion becomes the query. Nothing else changes |
| ExploreState.ClickAgreesOnQueries | pages/Explore.tsx:210-212 | For other suggestion kinds the written handler already behaves as intended |
| JobBoard.PostingsOf | pages/Jobs.tsx:15 | One posting per job of the listing, each paired with the listing |
| JobBoard.PostingsComplete | pages/Jobs.tsx:14-16 | A posting is on the board exactly when its listing is in the catalog and lists the job, and the board holds as many postings as the listings hold jobs |
| JobBoard.AllJobs | pages/Jobs.tsx:13-22 | The board is a permutation of all postings, sorted featured first, then newest first |
| JobBoard.AllJobsOrdered | pages/Jobs.tsx:13-22 | The sorted board is a permutation of the postings. Featured postings come first, and within each group `postedAt` does not increase |
| JobBoard.AllJobsStable | pages/Jobs.tsx:16-22 | Postings with the same featured status and date keep catalog order |
| JobBoard.FilteredJobs | pages/Jobs.tsx:25-34 | A posting is shown exactly when it is on the board and passes every set filter |
| JobBoard.FilteredJobsCorrect | pages/Jobs.tsx:25-34 | A posting is shown exactly when it passes the city, type and case-insensitive text filters. The result is an ordered subsequence of the board |
| JobBoard.NoFilterShowsAll | pages/Jobs.tsx:25-34 | With no filter set the whole board is shown |
| EventsCalendar.ListedOf | pages/Events.tsx:13 | One entry per event of the listing, each paired with the listing |
| EventsCalendar.EventsComplete | pages/Events.tsx:12-13 | An event is listed exactly when its host is in the catalog and lists it |
| EventsCalendar.AllEvents | pages/Events.tsx:11-15 | The calendar is a permutation of all events, sorted by date |
| EventsCalendar.AllEventsOrdered | pages/Events.tsx:11-15 | The calendar is a permutation of the events in non-decreasing date order |
| EventsCalendar.AllEventsStable | pages/Events.tsx:14 | Events on the same date keep catalog order |
| EventsCalendar.FilteredEvents | pages/Events.tsx:17-25 | An event is shown exactly when it is on the calendar and passes every set filter |
| EventsCalendar.FilteredEventsCorrect | pages/Events.tsx:17-25 | An event is shown exactly when it passes the city and case-insensitive text filters, still in date order |
| EventsCalendar.NoFilterShowsAll | pages/Events.tsx:17-25 | With no filter set the whole calendar is shown |
| DealsPage.OptionsDistinct | pages/Deals.tsx:11 | The options are distinct |
| DealsPage.FilteredDeals | pages/Deals.tsx:13-17 | A listing is shown exactly when it is in the catalog, has a deal and is in the selected category (any category for `All`) |
| DealsPage.FilteredDealsCorrect | pages/Deals.tsx:13-17 | In catalog order, exactly the listings with a deal in the selected category are shown, any category for `All` |
| DealsPage.CategoryNarrowsAll | pages/Deals.tsx:14-16 | A category selection shows an ordered subsequence of what `All` shows |
| DealsPage.EveryDealHasItsCategory | pages/Deals.tsx:14-16 | Every deal shown under `All` is shown under its own category |
| Directory.CategoryNamesDistinct | types.ts:9-17 | Distinct categories have distinct string values |
| Directory.AllCategoriesComplete | types.ts:9-17 | The declaration-order list holds every category |
| ListingWizard.InitialPackage | pages/AddBusiness.tsx:57-59 | `silver` gives Silver, `gold` gives Gold, anything else or nothing gives Free |
| ListingWizard.PlanLinkRoundTrip | pages/Pricing.tsx:20-136 | Each plan's link carries its `id` (`free`, `silver`, `gold`: lines 20, 37, 57 and 136). Read back by the package selection of pages/AddBusiness.tsx:57-59, it preselects that same plan |
| ListingWizard.Initial | pages/AddBusiness.tsx:51-107 | The first render is on step 1 with no error, no picture and no jobs, and it satisfies the invariant |
| ListingWizard.DefaultPromptMentions | pages/AddBusiness.tsx:254 | The prefilled image prompt quotes the business name and names its category |
| ListingWizard.NextStep | pages/AddBusiness.tsx:240-259 | At the account step a logged-out user with an empty e-mail or password gets an error and stays. At the identity step a missing name, category or description does the same. Otherwise the error clears and the step rises by one. `login` fires only when leaving the account step logged out. The prompt is prefilled only when leaving the identity step with an empty prompt |
| ListingWizard.PrevStep | pages/AddBusiness.tsx:261 | Back lowers the step by one and changes nothing else |
| ListingWizard.UnguardedStepsAdvance | pages/AddBusiness.tsx:240-259 | Outside the account and identity steps, Continue always advances and never logs in |
| ListingWizard.BackUndoesContinue | pages/AddBusiness.tsx:240-261 | Back after a successful Continue restores the state, except when leaving the identity step |
| ListingWizard.AddJob | pages/AddBusiness.tsx:221-234 | A no-op unless title, description and application value are set. Otherwise it appends exactly one job, keeping every earlier one. The job has the draft's title, description, type, salary and featured flag, the chosen method and value, and the supplied id and time. Then the form is reset and hidden |
| ListingWizard.RemoveAt | pages/AddBusiness.tsx:237 | Drops exactly the element at the index and keeps the rest in order. An out-of-range index changes nothing |
| ListingWizard.RemoveJob | pages/AddBusiness.tsx:236-238 | Removes exactly the job at the index, leaves an out-of-range index alone and changes nothing else in the form |
| ListingWizard.RemoveUndoesAdd | pages/AddBusiness.tsx:221-238 | Removing the posting just added restores the earlier list |
| ListingWizard.SelectFile | pages/AddBusiness.tsx:178-188 | A non-image file only sets the error. An image file is held with its preview and clears the generated image and the error. Nothing outside the error and the pictures changes |
| ListingWizard.ClearManualImage | pages/AddBusiness.tsx:213-219 | Clears the file and its preview. The generated image, the prompt and the rest of the state are kept |
| ListingWizard.AiGenerate | pages/AddBusiness.tsx:263-290 | No prompt: nothing happens. A non-empty URL replaces the manual upload. An empty URL, an expired key or another failure each sets its error and keeps the pictures. Nothing outside the error and the pictures changes |
| ListingWizard.Submit | pages/AddBusiness.tsx:292-304 | An unticked box sets the terms error and does not submit. A missing picture sets the media error and jumps to step 7. Otherwise the listing is submitted. Only the error, the step and the submitted flag can change |
| ListingWizard.SubmittedListingComplete | pages/AddBusiness.tsx:292-304 | A submitted listing has both boxes ticked and exactly one kind of cover picture |
| ListingWizard.Apply | pages/AddBusiness.tsx:827-841 | Every action the page offers keeps the step within 1..8. It never holds an upload and a generated image together, and it keeps a preview exactly while an upload is held |
| ListingWizard.RunKeepsInvariant | pages/AddBusiness.tsx:827-841 | The invariant holds after any sequence of offered actions |
| ListingWizard.ReachableStatesKeepInvariant | pages/AddBusiness.tsx:827-841 | Every state reachable from the first render satisfies the invariant |

## Left out

- Text.Lower: lower-cases only `A`-`Z`. The Unicode mappings of `toLowerCase` are not modelled.
- Analytics.AvgRating: the average is the mean in tenths, rounded half up. `toFixed(1)` on a binary floating-point quotient can round a tie differently, and that is not modelled.
- Floating point: ratings are integer tenths of a star.
- Dates: `new Date(...).getTime()` is an integer timestamp, and date-string parsing is not modelled.
- Persistence: `localStorage` loading and saving of the history is not modelled. The history is a plain sequence.
- URL parameters: `URLSearchParams` is a map from key to value. Repeated keys and parameter order are not modelled.
- Analytics.TallyOrder: `Object.entries` is modelled with insertion order. JavaScript lists integer-like keys (such as a city named "92660") first, in ascending numeric order. So this lemma and Analytics.BreakdownOrder hold only for keys that are not integer-like.
- Analytics.Bump: city keys that name an inherited `Object.prototype` property are not modelled. Examples are `constructor`, `toString`, `valueOf`, `hasOwnProperty` and `__proto__`. On the plain `{}` of pages/Explore.tsx:121-122, `counts[k] || 0` reads the inherited value. A method name gets a string count such as `"function Object() { [native code] }1"`, and `__proto__` gets no own entry at all, since its setter ignores a string. The model counts such a key like any other. Category keys are enum values and cannot be affected.
- Analytics.BumpCounts: the one-entry increment holds only for a key that does not name an inherited `Object.prototype` property (see Analytics.Bump).
- Analytics.TallyNames: one entry per occurring key holds only for keys that do not name an inherited `Object.prototype` property. A `__proto__` city has no own entry in the source.
- Analytics.TallyCounts: integer counts hold only for keys that do not name an inherited `Object.prototype` property. A `constructor` or `toString` city gets a string count in the source.
- Analytics.TallyTotal: the counts sum to the number of results only when no city key names an inherited `Object.prototype` property.
- Analytics.BreakdownEntries: the per-key counts and their total hold only when no city key names an inherited `Object.prototype` property.
- Analytics.BreakdownOrder: holds only for keys that are neither integer-like nor names of inherited `Object.prototype` properties. A string count makes `b.count - a.count` NaN, and the sort order is then up to the implementation.
- Analytics.Breakdown: a sorted permutation of the tally with the right total only when no city key names an inherited `Object.prototype` property.
- Analytics.Summarise: the city breakdown sums to the result count only when no city key names an inherited `Object.prototype` property. The category breakdown is unaffected.
- Network: Gemini calls are not modelled. This covers `handleSearch`, description generation, the chat bot, image generation and the API-key dialogs (`hasSelectedApiKey`, `openSelectKey`, `hasApiKey`). Only the settled outcome of an image generation is an input (`Generation`). ListingWizard.AiGenerate merges the click (the empty-prompt check and the error reset) and the settlement into one action, so edits to the prompt during a generation are not interleaved with it.
- Timers, effects and object URLs: the loading-message interval, the automatic description timer, URL revocation and the drag state are not modelled. The API-key check and key-selector dialog at the start of `handleAiGenerate` are not modelled either. An object URL is passed in as a parameter.
- Fresh values: the random job id and the current time in `addJob` are parameters.
- Wizard fields: the step 4 and 5 fields (website, phone, price range, address, city, region) are not modelled. No guard or handler in the modelled core reads them.
- Wizard after submission: once submitted, the page shows a confirmation screen. The model still accepts actions after that point.
- Rendering: JSX, routing and `highlightText` in `components/BusinessCard.tsx` are not modelled.
- Fixtures: the mock catalog and city list of `constants.ts` are not modelled. Every operation takes the catalog and the city list as parameters.
- React batching: several state writes in one handler are modelled as "the last write wins, computed from the rendered state". React's scheduling is not modelled beyond that.

## Findings

| source | as written | input that shows it | evidently intended | confidence | as-written member | corrected member |
|---|---|---|---|---|---|---|
| pages/Explore.tsx:203-212 | A category or city suggestion calls `updateFilter` twice. Each call copies the URL parameters of the current render, so the second call (clearing `q`) overwrites the first (setting `category` or `city`) | With no filters set, click the `Retail` category suggestion: `category` stays unset and only `q` is cleared | The click sets the category or city filter and clears the query | not executed; high | ExploreState.ClickAsWrittenDropsFilter | ExploreState.ClickSetsFilter |
