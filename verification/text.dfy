/**
 * The string primitives the directory's search relies on, with JavaScript's
 * meaning: `toLowerCase` (ASCII letters), `trim` and the `\s` character
 * class, `includes`, `startsWith`, and `split` on a regular expression that
 * matches runs of separator characters.
 */
module Text {

  function LowerChar(c: char): char
  {
    if 'A' <= c <= 'Z' then (c as int + 32) as char else c
  }

  predicate IsUpper(c: char)
  {
    'A' <= c <= 'Z'
  }

  /** ASCII lower-casing, character by character. */
  function Lower(s: string): (r: string)
    ensures |r| == |s|
    ensures forall i :: 0 <= i < |s| ==> r[i] == LowerChar(s[i])
    ensures forall i :: 0 <= i < |r| ==> !IsUpper(r[i])
  {
    if s == [] then [] else [LowerChar(s[0])] + Lower(s[1..])
  }

  lemma {:induction false} LowerIdempotent(s: string)
    ensures Lower(Lower(s)) == Lower(s)
  {
  }

  /** The characters JavaScript's `\s` and `String.prototype.trim` treat as white space. */
  predicate IsSpace(c: char)
  {
    || c == ' ' || c == '\t' || c == '\n' || c == '\r'
    || c == '\U{000B}' || c == '\U{000C}' || c == '\U{00A0}' || c == '\U{1680}'
    || ('\U{2000}' <= c <= '\U{200A}')
    || c == '\U{2028}' || c == '\U{2029}' || c == '\U{202F}' || c == '\U{205F}'
    || c == '\U{3000}' || c == '\U{FEFF}'
  }

  /** The complement of `[a-z0-9]`: what separates the words of a lower-cased text. */
  predicate IsWordSep(c: char)
  {
    !('a' <= c <= 'z' || '0' <= c <= '9')
  }

  predicate AllSpace(s: string)
  {
    forall i :: 0 <= i < |s| ==> IsSpace(s[i])
  }

  function TrimStart(s: string): (r: string)
    ensures |r| <= |s| && r == s[|s| - |r|..]
    ensures r == [] || !IsSpace(r[0])
    ensures AllSpace(s[..|s| - |r|])
  {
    if s != [] && IsSpace(s[0]) then
      var r := TrimStart(s[1..]);
      assert s[1..][..|s| - 1 - |r|] == s[1..|s| - |r|];
      r
    else s
  }

  function TrimEnd(s: string): (r: string)
    ensures |r| <= |s| && r == s[..|r|]
    ensures r == [] || !IsSpace(r[|r| - 1])
    ensures AllSpace(s[|r|..])
  {
    if s != [] && IsSpace(s[|s| - 1]) then
      var r := TrimEnd(s[..|s| - 1]);
      assert s[..|s| - 1][|r|..] + [s[|s| - 1]] == s[|r|..];
      r
    else s
  }

  /**
   * White space removed from both ends: a slice of the input with only
   * white space outside it, and no white space at either of its ends.
   */
  function Trim(s: string): (r: string)
    ensures |r| <= |s|
    ensures r == [] || (!IsSpace(r[0]) && !IsSpace(r[|r| - 1]))
    ensures exists a :: PaddedAt(s, r, a)
  {
    var t := TrimStart(s);
    var r := TrimEnd(t);
    var a := |s| - |t|;
    assert PaddedAt(s, r, a) by {
      assert s[a..a + |r|] == t[..|r|] == r;
      assert s[a + |r|..] == t[|r|..];
    }
    r
  }

  /** `s` is `r` with white space before it, `a` characters of it, and after it. */
  predicate PaddedAt(s: string, r: string, a: int)
  {
    0 <= a <= a + |r| <= |s| && r == s[a..a + |r|] && AllSpace(s[..a]) && AllSpace(s[a + |r|..])
  }

  /** Trimming yields the empty string exactly when the input is all white space. */
  lemma {:induction false} TrimEmptyIffAllSpace(s: string)
    ensures Trim(s) == [] <==> AllSpace(s)
  {
    if AllSpace(s) {
      TrimStartAllSpace(s);
    }
    if Trim(s) == [] {
      var a :| PaddedAt(s, [], a);
      forall i | 0 <= i < |s|
        ensures IsSpace(s[i])
      {
        if i < a {
          assert s[i] == s[..a][i];
        } else {
          assert s[i] == s[a..][i - a];
        }
      }
    }
  }

  lemma {:induction false} TrimStartAllSpace(s: string)
    requires AllSpace(s)
    ensures TrimStart(s) == []
  {
    if s != [] {
      TrimStartAllSpace(s[1..]);
    }
  }

  /** A string without white space at either end is left as it is. */
  lemma {:induction false} TrimUnpadded(s: string)
    requires s == [] || (!IsSpace(s[0]) && !IsSpace(s[|s| - 1]))
    ensures Trim(s) == s
  {
  }

  /** `sub` occurs in `s` at some position (JavaScript's `s.includes(sub)`). */
  predicate Contains(s: string, sub: string)
  {
    exists i :: 0 <= i <= |s| && OccursAt(s, sub, i)
  }

  predicate OccursAt(s: string, sub: string, i: nat)
  {
    i + |sub| <= |s| && s[i..i + |sub|] == sub
  }

  /** JavaScript's `s.startsWith(p)`. */
  predicate StartsWith(s: string, p: string)
  {
    |p| <= |s| && s[..|p|] == p
  }

  lemma {:induction false} ContainsEmpty(s: string)
    ensures Contains(s, [])
  {
    assert OccursAt(s, [], 0);
  }

  lemma {:induction false} ContainsSelf(s: string)
    ensures Contains(s, s)
  {
    assert OccursAt(s, s, 0);
  }

  /** Whatever occurs in a slice of `s` occurs in `s`. */
  lemma {:induction false} ContainsInSlice(s: string, a: nat, b: nat, w: string)
    requires a <= b <= |s| && Contains(s[a..b], w)
    ensures Contains(s, w)
  {
    var i :| 0 <= i <= b - a && OccursAt(s[a..b], w, i);
    assert i + |w| <= b - a;
    var u := s[a..b][i..i + |w|];
    assert forall k :: 0 <= k < |w| ==> u[k] == s[a + i + k];
    assert s[a + i..a + i + |w|] == u;
    assert OccursAt(s, w, a + i);
  }

  lemma {:induction false} ContainsInSuffix(s: string, a: nat, w: string)
    requires a <= |s| && Contains(s[a..], w)
    ensures Contains(s, w)
  {
    assert s[a..|s|] == s[a..];
    ContainsInSlice(s, a, |s|, w);
  }

  lemma {:induction false} StartsWithContains(s: string, p: string)
    requires StartsWith(s, p)
    ensures Contains(s, p)
  {
    assert OccursAt(s, p, 0);
  }

  predicate NoSep(w: string, sep: char -> bool)
  {
    forall i :: 0 <= i < |w| ==> !sep(w[i])
  }

  /** Length of the longest prefix free of separators. */
  function SepIndex(s: string, sep: char -> bool): (i: nat)
    ensures i <= |s|
    ensures NoSep(s[..i], sep)
    ensures i < |s| ==> sep(s[i])
  {
    if s == [] || sep(s[0]) then 0
    else
      var i := 1 + SepIndex(s[1..], sep);
      assert forall k :: 1 <= k < i ==> s[..i][k] == s[1..][..i - 1][k - 1];
      i
  }

  /** Length of the longest prefix made only of separators. */
  function SepRun(s: string, sep: char -> bool): (i: nat)
    ensures i <= |s|
    ensures forall k :: 0 <= k < i ==> sep(s[k])
    ensures i < |s| ==> !sep(s[i])
  {
    if s == [] || !sep(s[0]) then 0 else 1 + SepRun(s[1..], sep)
  }

  /**
   * The pieces between maximal runs of separators, as JavaScript's
   * `s.split(/[sep]+/)` returns them: a separator at the very start or the
   * very end yields an empty first or last piece, and the empty string
   * yields one empty piece.
   */
  function Split(s: string, sep: char -> bool): (r: seq<string>)
    ensures |r| >= 1
    ensures forall k :: 0 <= k < |r| ==> NoSep(r[k], sep)
    decreases |s|
  {
    var i := SepIndex(s, sep);
    if i == |s| then
      assert s[..i] == s;
      [s]
    else
      var j := i + SepRun(s[i..], sep);
      [s[..i]] + Split(s[j..], sep)
  }

  predicate AllSep(w: string, sep: char -> bool)
  {
    forall i :: 0 <= i < |w| ==> sep(w[i])
  }

  /** The separator runs `Split` cuts out, in order. */
  function Separators(s: string, sep: char -> bool): (r: seq<string>)
    ensures forall k :: 0 <= k < |r| ==> r[k] != [] && AllSep(r[k], sep)
    decreases |s|
  {
    var i := SepIndex(s, sep);
    if i == |s| then []
    else
      var n := SepRun(s[i..], sep);
      var j := i + n;
      var rest := Separators(s[j..], sep);
      var run := s[i..j];
      assert n > 0 by { assert s[i..][0] == s[i]; }
      assert AllSep(run, sep) by {
        forall k | 0 <= k < n
          ensures sep(run[k])
        {
          assert run[k] == s[i..][k];
        }
      }
      [run] + rest
  }

  /** The pieces with the separator runs between them: `p[0] + d[0] + p[1] + ... + p[n]`. */
  function Interleave(pieces: seq<string>, seps: seq<string>): string
    requires |pieces| == |seps| + 1
    decreases |seps|
  {
    if seps == [] then pieces[0] else pieces[0] + seps[0] + Interleave(pieces[1..], seps[1..])
  }

  /** Splitting loses nothing: the pieces with the separator runs between them rebuild the string. */
  lemma {:induction false} SplitRoundTrip(s: string, sep: char -> bool)
    ensures |Split(s, sep)| == |Separators(s, sep)| + 1 && Interleave(Split(s, sep), Separators(s, sep)) == s
    decreases |s|
  {
    var i := SepIndex(s, sep);
    if i == |s| {
      assert s[..i] == s;
    } else {
      var j := i + SepRun(s[i..], sep);
      var pieces, rest := Split(s, sep), Split(s[j..], sep);
      var seps, restSeps := Separators(s, sep), Separators(s[j..], sep);
      assert pieces == [s[..i]] + rest;
      assert seps == [s[i..j]] + restSeps;
      assert pieces[0] == s[..i] && pieces[1..] == rest;
      assert seps[0] == s[i..j] && seps[1..] == restSeps;
      SplitRoundTrip(s[j..], sep);
      calc {
        Interleave(pieces, seps);
        s[..i] + s[i..j] + Interleave(rest, restSeps);
        s[..i] + s[i..j] + s[j..];
        { SlicesJoin(s, i, j); }
        s;
      }
    }
  }

  lemma {:induction false} SlicesJoin(s: string, i: nat, j: nat)
    requires i <= j <= |s|
    ensures s[..i] + s[i..j] + s[j..] == s
  {
  }

  /** Every piece of a split occurs in the split string. */
  lemma {:induction false} SplitPiecesOccur(s: string, sep: char -> bool)
    ensures forall k :: 0 <= k < |Split(s, sep)| ==> Contains(s, Split(s, sep)[k])
    decreases |s|
  {
    var i := SepIndex(s, sep);
    if i == |s| {
      assert s[..i] == s;
      ContainsSelf(s);
    } else {
      var j := i + SepRun(s[i..], sep);
      var rest := Split(s[j..], sep);
      var r := Split(s, sep);
      assert r == [s[..i]] + rest;
      SplitPiecesOccur(s[j..], sep);
      forall k | 0 <= k < |r|
        ensures Contains(s, r[k])
      {
        if k == 0 {
          assert OccursAt(s, s[..i], 0);
        } else {
          assert r[k] == rest[k - 1];
          ContainsInSuffix(s, j, rest[k - 1]);
        }
      }
    }
  }

  /** Every piece of the split trimmed string occurs in the string. */
  lemma {:induction false} TrimmedPiecesOccur(s: string, sep: char -> bool)
    ensures forall t :: t in Split(Trim(s), sep) ==> Contains(s, t)
  {
    var r := Trim(s);
    var pieces := Split(r, sep);
    var a :| PaddedAt(s, r, a);
    var b := a + |r|;
    assert s[a..b] == r;
    SplitPiecesOccur(r, sep);
    forall k | 0 <= k < |pieces|
      ensures Contains(s, pieces[k])
    {
      var w := pieces[k];
      assert Contains(s[a..b], w);
      ContainsInSlice(s, a, b, w);
    }
  }

  /** Only the first and the last piece can be empty. */
  lemma {:induction false} SplitInnerPiecesNonEmpty(s: string, sep: char -> bool)
    ensures forall k :: 0 < k < |Split(s, sep)| - 1 ==> Split(s, sep)[k] != []
    decreases |s|
  {
    var i := SepIndex(s, sep);
    if i < |s| {
      var j := i + SepRun(s[i..], sep);
      SplitInnerPiecesNonEmpty(s[j..], sep);
      if j < |s| {
        SplitFirstPiece(s[j..], sep);
      }
    }
  }

  /** The first piece is empty exactly when the string starts with a separator. */
  lemma {:induction false} SplitFirstPiece(s: string, sep: char -> bool)
    requires s != []
    ensures Split(s, sep)[0] == [] <==> sep(s[0])
  {
  }

  /** A string without separators is its own single piece. */
  lemma {:induction false} SplitNoSeparator(s: string, sep: char -> bool)
    requires NoSep(s, sep)
    ensures Split(s, sep) == [s]
  {
    if SepIndex(s, sep) < |s| {
      assert false;
    }
  }
}
