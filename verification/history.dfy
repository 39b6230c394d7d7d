/**
 * The explorer's recent-search history: the five most recent distinct
 * searches, newest first.  A query is recorded trimmed, only when the
 * trimmed query's `length` is at least two UTF-16 code units; an earlier
 * occurrence of the same query moves to the front instead of repeating.
 */
module SearchHistory {
  import opened Seqs
  import opened Text
  import opened CodeUnits

  const MaxHistory: nat := 5

  predicate Other(c: string, h: string)
  {
    h != c
  }

  /** The test that drops earlier occurrences of `c`. */
  function Without(c: string): string -> bool
  {
    h => Other(c, h)
  }

  /** The guard of `addToHistory`: a non-empty query whose trimmed `length` is at least two. */
  predicate Recordable(query: string)
  {
    query != "" && JsLength(Trim(query)) >= 2
  }

  /** `addToHistory`: the history after a search for `query`. */
  function AddToHistory(history: seq<string>, query: string): (r: seq<string>)
    ensures r == history || (r != [] && r[0] == Trim(query) && JsLength(r[0]) >= 2 && |r| <= MaxHistory)
  {
    if query == "" || JsLength(Trim(query)) < 2 then history else Record(history, Trim(query))
  }

  /** `c` in front of the history's other entries, cut to the maximum length. */
  function Record(history: seq<string>, c: string): seq<string>
  {
    Take([c] + Filter(history, Without(c)), MaxHistory)
  }

  lemma {:induction false} TakeCons(c: string, xs: seq<string>)
    ensures Take([c] + xs, MaxHistory) == [c] + Take(xs, MaxHistory - 1)
  {
    if |xs| > MaxHistory - 1 {
      assert ([c] + xs)[..MaxHistory] == [c] + xs[..MaxHistory - 1];
    }
  }

  /** A query that trims to fewer than two code units leaves the history unchanged. */
  lemma {:induction false} ShortQueryIgnored(history: seq<string>, query: string)
    requires JsLength(Trim(query)) < 2
    ensures AddToHistory(history, query) == history
  {
  }

  /** Any other query is recorded trimmed. */
  lemma {:induction false} LongQueryRecorded(history: seq<string>, query: string)
    requires JsLength(Trim(query)) >= 2
    ensures AddToHistory(history, query) == Record(history, Trim(query))
  {
    assert query != "";
  }

  /**
   * One emoji is a single character but two code units, so searching for
   * it is recorded.
   */
  lemma {:induction false} EmojiQueryRecorded()
    ensures AddToHistory([], "\U{1F600}") == ["\U{1F600}"]
  {
    var e: string := "\U{1F600}";
    TrimUnpadded(e);
    EmojiLength();
    LongQueryRecorded([], e);
    RecordShape([], e);
    assert Filter([], Without(e)) == [];
  }

  lemma {:induction false} RecordShape(history: seq<string>, c: string)
    ensures Record(history, c) == [c] + Take(Filter(history, Without(c)), MaxHistory - 1)
  {
    TakeCons(c, Filter(history, Without(c)));
  }

  /**
   * After a search the trimmed query heads the history, occurs nowhere
   * else in it, the history holds at most five entries, and the remaining
   * entries are earlier entries in their earlier order.
   */
  lemma {:induction false} RecordedFirst(history: seq<string>, query: string)
    requires JsLength(Trim(query)) >= 2
    ensures var r := AddToHistory(history, query);
      && 1 <= |r| <= MaxHistory
      && r[0] == Trim(query)
      && Trim(query) !in r[1..]
      && IsSubseq(r[1..], history)
  {
    var c := Trim(query);
    LongQueryRecorded(history, query);
    RecordFirst(history, c);
  }

  lemma {:induction false} RecordFirst(history: seq<string>, c: string)
    ensures var r := Record(history, c);
      && 1 <= |r| <= MaxHistory
      && r[0] == c
      && c !in r[1..]
      && IsSubseq(r[1..], history)
  {
    var f := Filter(history, Without(c));
    var r := Record(history, c);
    RecordShape(history, c);
    assert r[1..] == Take(f, MaxHistory - 1);
    TakeIsSubseq(f, MaxHistory - 1);
    FilterIsSubseq(history, Without(c));
    SubseqTrans(r[1..], f, history);
    SubseqMembers(r[1..], f);
  }

  /** A history without repeats stays without repeats. */
  lemma {:induction false} KeepsDistinct(history: seq<string>, query: string)
    requires NoDups(history)
    ensures NoDups(AddToHistory(history, query))
  {
    if JsLength(Trim(query)) >= 2 {
      LongQueryRecorded(history, query);
      RecordDistinct(history, Trim(query));
    }
  }

  lemma {:induction false} RecordDistinct(history: seq<string>, c: string)
    requires NoDups(history)
    ensures NoDups(Record(history, c))
  {
    var f := Filter(history, Without(c));
    FilterNoDups(history, Without(c));
    var r := Record(history, c);
    RecordShape(history, c);
    forall i, j | 0 <= i < j < |r|
      ensures r[i] != r[j]
    {
      if i == 0 {
        assert r[j] == f[j - 1] && f[j - 1] in f;
      } else {
        assert r[i] == f[i - 1] && r[j] == f[j - 1];
      }
    }
  }

  lemma {:induction false} FilterNoDups(xs: seq<string>, p: string -> bool)
    requires NoDups(xs)
    ensures NoDups(Filter(xs, p))
  {
    if xs != [] {
      assert NoDups(xs[1..]) by {
        forall i, j | 0 <= i < j < |xs[1..]|
          ensures xs[1..][i] != xs[1..][j]
        {
          assert xs[1..][i] == xs[i + 1] && xs[1..][j] == xs[j + 1];
        }
      }
      FilterNoDups(xs[1..], p);
      var rest := Filter(xs[1..], p);
      assert xs[0] !in xs[1..];
      assert xs[0] !in rest;
    }
  }

  /** Searching for the same query twice in a row records it once. */
  lemma {:induction false} RepeatIsIdempotent(history: seq<string>, query: string)
    ensures AddToHistory(AddToHistory(history, query), query) == AddToHistory(history, query)
  {
    if JsLength(Trim(query)) >= 2 {
      LongQueryRecorded(history, query);
      LongQueryRecorded(Record(history, Trim(query)), query);
      RecordTwice(history, Trim(query));
    }
  }

  lemma {:induction false} RecordTwice(history: seq<string>, c: string)
    ensures Record(Record(history, c), c) == Record(history, c)
  {
    var f := Filter(history, Without(c));
    var r := Record(history, c);
    RecordShape(history, c);
    var t := Take(f, MaxHistory - 1);
    assert forall x :: x in t ==> Other(c, x) by {
      forall x | x in t
        ensures Other(c, x)
      {
        var i :| 0 <= i < |t| && t[i] == x;
        assert f[i] == x && f[i] in f;
      }
    }
    FilterKeepsAll(t, Without(c));
    FilterConcat([c], t, Without(c));
    assert Filter([c], Without(c)) == [];
    assert Filter(r, Without(c)) == t;
    RecordShape(r, c);
    assert Take(t, MaxHistory - 1) == t;
  }

  /**
   * A new query on a full history pushes out the oldest entry and keeps
   * the other four in order.
   */
  lemma {:induction false} FullHistoryEvictsOldest(history: seq<string>, query: string)
    requires |history| == MaxHistory && JsLength(Trim(query)) >= 2 && Trim(query) !in history
    ensures AddToHistory(history, query) == [Trim(query)] + history[..MaxHistory - 1]
  {
    var c := Trim(query);
    LongQueryRecorded(history, query);
    FilterKeepsAll(history, Without(c));
    RecordShape(history, c);
  }

  /**
   * Searching again for a query already in a history of at most five
   * distinct entries moves it to the front and keeps everything else.
   */
  lemma {:induction false} RepeatMovesToFront(history: seq<string>, query: string, i: nat)
    requires |history| <= MaxHistory && NoDups(history)
    requires JsLength(Trim(query)) >= 2 && i < |history| && history[i] == Trim(query)
    ensures AddToHistory(history, query) == [Trim(query)] + history[..i] + history[i + 1..]
  {
    LongQueryRecorded(history, query);
    RecordMovesToFront(history, Trim(query), i);
  }

  lemma {:induction false} RecordMovesToFront(history: seq<string>, c: string, i: nat)
    requires |history| <= MaxHistory && NoDups(history)
    requires i < |history| && history[i] == c
    ensures Record(history, c) == [c] + history[..i] + history[i + 1..]
  {
    var pre := history[..i];
    var post := history[i + 1..];
    DropOnly(history, c, i);
    var f := Filter(history, Without(c));
    assert f == pre + post;
    assert Take(f, MaxHistory - 1) == f;
    RecordShape(history, c);
  }

  /** Dropping the only occurrence of `c` leaves the rest in order. */
  lemma {:induction false} DropOnly(history: seq<string>, c: string, i: nat)
    requires NoDups(history) && i < |history| && history[i] == c
    ensures Filter(history, Without(c)) == history[..i] + history[i + 1..]
  {
    var pre := history[..i];
    var post := history[i + 1..];
    var p := Without(c);
    OnlyOccurrence(history, i);
    assert history == (pre + [c]) + post;
    FilterConcat(pre + [c], post, p);
    FilterConcat(pre, [c], p);
    KeepAllOthers(pre, c);
    KeepAllOthers(post, c);
    DropSingle(c);
    assert Filter(pre + [c], p) == pre;
  }

  lemma {:induction false} OnlyOccurrence(history: seq<string>, i: nat)
    requires NoDups(history) && i < |history|
    ensures history[i] !in history[..i] && history[i] !in history[i + 1..]
  {
    var c := history[i];
    forall j | 0 <= j < i
      ensures history[..i][j] != c
    {
      assert history[..i][j] == history[j];
    }
    var post := history[i + 1..];
    forall j | 0 <= j < |post|
      ensures post[j] != c
    {
      assert post[j] == history[i + 1 + j];
    }
  }

  lemma {:induction false} DropSingle(c: string)
    ensures Filter([c], Without(c)) == []
  {
    assert !Without(c)(c);
    assert [c][1..] == [];
  }

  lemma {:induction false} KeepAllOthers(xs: seq<string>, c: string)
    requires c !in xs
    ensures Filter(xs, Without(c)) == xs
  {
    FilterKeepsAll(xs, Without(c));
  }

  /**
   * The search box records every keystroke: typing `a` and then `b`
   * (whose trimmed forms are two code units or longer and differ) leaves
   * both in the history, newest first, so typing a word records each of
   * its prefixes from the second character on.
   */
  lemma {:induction false} KeystrokesRecorded(history: seq<string>, a: string, b: string)
    requires JsLength(Trim(a)) >= 2 && JsLength(Trim(b)) >= 2 && Trim(a) != Trim(b)
    ensures var r := AddToHistory(AddToHistory(history, a), b);
      |r| >= 2 && r[0] == Trim(b) && r[1] == Trim(a)
  {
    LongQueryRecorded(history, a);
    LongQueryRecorded(Record(history, Trim(a)), b);
    RecordTwo(history, Trim(a), Trim(b));
  }

  lemma {:induction false} RecordTwo(history: seq<string>, a: string, b: string)
    requires a != b
    ensures var r := Record(Record(history, a), b);
      |r| >= 2 && r[0] == b && r[1] == a
  {
    var h1 := Record(history, a);
    RecordShape(history, a);
    RecordShape(h1, b);
    var rest := Take(Filter(history, Without(a)), MaxHistory - 1);
    assert h1 == [a] + rest;
    FilterConcat([a], rest, Without(b));
    assert Filter([a], Without(b)) == [a];
  }
}
