/**
 * The explorer's fuzzy word matcher: the first word of a haystack that
 * contains the needle, occurs inside the needle, or (for needles of three
 * characters or more) lies within a length-scaled edit distance of it.
 */
module Fuzzy {
  import opened Wrappers
  import opened Text
  import opened Levenshtein
  import opened CodeUnits

  /** Edit-distance tolerance for a needle whose `length` is `n` code units. */
  function Threshold(n: nat): nat
  {
    if n > 8 then 3 else if n > 5 then 2 else 1
  }

  /**
   * The test one haystack word must pass, for an already normalised needle
   * `n`.  Lengths and the edit distance count UTF-16 code units, as
   * `n.length` and `getLevenshteinDistance` do.
   */
  predicate Accepts(n: string, w: string)
  {
    || Contains(w, n)
    || Contains(n, w)
    || (JsLength(n) >= 3 && Lev(Units(n), Units(w)) <= Threshold(JsLength(n)))
  }

  /** The needle as the matcher compares it: lower-cased, then trimmed. */
  function Needle(needle: string): string
  {
    Trim(Lower(needle))
  }

  /** The haystack's words: the lower-cased haystack split on runs of characters outside `[a-z0-9]`. */
  function Words(haystack: string): seq<string>
  {
    Split(Lower(haystack), IsWordSep)
  }

  /** Word `k` is the first word that passes the test. */
  predicate FirstAcceptedAt(n: string, words: seq<string>, k: int)
  {
    0 <= k < |words| && Accepts(n, words[k]) && forall j :: 0 <= j < k ==> !Accepts(n, words[j])
  }

  /** The index of the first accepted word, scanning in order. */
  function FirstAccepted(n: string, words: seq<string>): (r: Option<nat>)
    ensures r.Some? ==> FirstAcceptedAt(n, words, r.value)
    ensures r.None? ==> forall k :: 0 <= k < |words| ==> !Accepts(n, words[k])
  {
    if words == [] then None
    else if Accepts(n, words[0]) then Some(0)
    else
      match FirstAccepted(n, words[1..])
      case None => None
      case Some(k) => Some(k + 1)
  }

  /**
   * `findFuzzyMatch`: None for a needle shorter than two code units after
   * normalisation; otherwise the first qualifying word of the haystack, or
   * None when no word qualifies.  The word returned can be empty (a
   * haystack that starts or ends with punctuation has an empty first or
   * last word, and every needle contains the empty word).
   */
  function FuzzyMatch(needle: string, haystack: string): (r: Option<string>)
    ensures JsLength(Needle(needle)) < 2 ==> r.None?
    ensures r.None? && JsLength(Needle(needle)) >= 2 ==>
              forall k :: 0 <= k < |Words(haystack)| ==> !Accepts(Needle(needle), Words(haystack)[k])
    ensures r.Some? ==>
              exists k :: FirstAcceptedAt(Needle(needle), Words(haystack), k) && r.value == Words(haystack)[k]
  {
    var n := Needle(needle);
    if JsLength(n) < 2 then None
    else
      match FirstAccepted(n, Words(haystack))
      case None => None
      case Some(k) => Some(Words(haystack)[k])
  }

  /** What the callers count as a match: a returned word that is not the empty string. */
  predicate IsHit(m: Option<string>)
  {
    m.Some? && m.value != []
  }

  /**
   * A haystack that starts with a character outside `[a-z0-9]` makes every
   * needle of two or more characters return the empty word, which callers
   * read as no match: the later words are never examined.
   */
  lemma {:induction false} LeadingSeparatorHidesMatches(needle: string, haystack: string)
    requires JsLength(Needle(needle)) >= 2
    requires haystack != [] && IsWordSep(LowerChar(haystack[0]))
    ensures FuzzyMatch(needle, haystack) == Some([])
    ensures !IsHit(FuzzyMatch(needle, haystack))
  {
    var words := Words(haystack);
    SplitFirstPiece(Lower(haystack), IsWordSep);
    ContainsEmpty(Needle(needle));
    assert Accepts(Needle(needle), words[0]);
  }

  /**
   * Any word that occurs inside the needle qualifies, however short: a
   * one-letter word whose letter is in the needle guarantees a result.
   */
  lemma {:induction false} WordInsideNeedleMatches(needle: string, haystack: string, k: nat)
    requires JsLength(Needle(needle)) >= 2
    requires k < |Words(haystack)| && Contains(Needle(needle), Words(haystack)[k])
    ensures FuzzyMatch(needle, haystack).Some?
  {
    assert Accepts(Needle(needle), Words(haystack)[k]);
  }

  /**
   * A word accepted on edit distance alone has a `length` within the
   * threshold of the needle's `length`.
   */
  lemma {:induction false} DistanceMatchLength(n: string, w: string)
    requires Accepts(n, w) && !Contains(w, n) && !Contains(n, w)
    ensures JsLength(n) >= 3
    ensures JsLength(w) <= JsLength(n) + Threshold(JsLength(n))
    ensures JsLength(n) <= JsLength(w) + Threshold(JsLength(n))
  {
    LevBounds(Units(n), Units(w));
  }

  /**
   * An empty haystack has the single empty word, which every needle
   * contains: the result is the empty word unless the needle is too short.
   */
  lemma {:induction false} EmptyHaystack(needle: string)
    ensures FuzzyMatch(needle, "") == (if JsLength(Needle(needle)) < 2 then None else Some(""))
  {
    assert Words("") == [""] by {
      assert Lower("") == "";
      SplitNoSeparator("", IsWordSep);
    }
    ContainsEmpty(Needle(needle));
    assert Accepts(Needle(needle), "");
  }

  lemma {:induction false} EmojiNeedle()
    ensures Needle("\U{1F600}") == "\U{1F600}"
  {
    var e: string := "\U{1F600}";
    assert Lower(e) == [LowerChar(e[0])] + Lower(e[1..]);
    assert e[1..] == [];
    TrimUnpadded(e);
  }

  /**
   * A needle of one character outside the Basic Multilingual Plane has
   * `length` 2, so it passes the `< 2` test and can match.
   */
  lemma {:induction false} AstralNeedleIsLongEnough()
    ensures JsLength(Needle("\U{1F600}")) == 2
    ensures FuzzyMatch("\U{1F600}", "") == Some("")
  {
    EmojiNeedle();
    EmojiLength();
    EmptyHaystack("\U{1F600}");
  }

  /** The word returned occurs in the lower-cased haystack. */
  lemma {:induction false} MatchOccursInHaystack(needle: string, haystack: string)
    requires FuzzyMatch(needle, haystack).Some?
    ensures Contains(Lower(haystack), FuzzyMatch(needle, haystack).value)
  {
    SplitPiecesOccur(Lower(haystack), IsWordSep);
  }

  /**
   * First match, not best match: when an earlier word passes only on edit
   * distance, it is returned even though a later word contains the needle.
   */
  lemma {:induction false} FirstMatchNotBestMatch(needle: string, haystack: string, i: nat, k: nat)
    requires JsLength(Needle(needle)) >= 2
    requires i < k < |Words(haystack)|
    requires FirstAcceptedAt(Needle(needle), Words(haystack), i)
    requires Contains(Words(haystack)[k], Needle(needle))
    ensures FuzzyMatch(needle, haystack) == Some(Words(haystack)[i])
  {
    var r := FuzzyMatch(needle, haystack);
    var j :| FirstAcceptedAt(Needle(needle), Words(haystack), j) && r.value == Words(haystack)[j];
    assert j == i;
  }
}
