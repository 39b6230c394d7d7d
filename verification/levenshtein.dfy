/**
 * Levenshtein edit distance: the recurrence the explorer's dynamic-programming
 * table fills in, an independent edit-script reading of "fewest single-character
 * insertions, deletions and substitutions", the proof that the two agree, and
 * the table-filling algorithm itself.
 */
module Levenshtein {
  import opened Wrappers
  import opened CodeUnits

  function Min3(a: int, b: int, c: int): int
  {
    if a <= b && a <= c then a else if b <= c then b else c
  }

  /**
   * The distance between `a` and `b`, by the recurrence over prefixes that
   * fills cell `dp[|a|][|b|]` of the table.
   */
  function Lev<T(==)>(a: seq<T>, b: seq<T>): (r: int)
    ensures 0 <= r <= (if |a| < |b| then |b| else |a|)
  {
    if |a| == 0 then |b|
    else if |b| == 0 then |a|
    else
      Min3(Lev(a[..|a| - 1], b) + 1,
           Lev(a, b[..|b| - 1]) + 1,
           Lev(a[..|a| - 1], b[..|b| - 1]) + (if a[|a| - 1] == b[|b| - 1] then 0 else 1))
  }

  /** One step of an edit script. */
  datatype Edit<T> = Keep | Substitute(c: T) | Insert(c: T) | Delete

  function EditCost<T>(e: Edit<T>): nat
  {
    if e.Keep? then 0 else 1
  }

  function ScriptCost<T>(ops: seq<Edit<T>>): nat
  {
    if ops == [] then 0 else ScriptCost(ops[..|ops| - 1]) + EditCost(ops[|ops| - 1])
  }

  /**
   * Runs an edit script over `a` from left to right: `Keep` copies the next
   * input character, `Substitute(c)` replaces it by `c`, `Delete` drops it,
   * `Insert(c)` emits `c` without consuming input.  The script must consume
   * the whole input; otherwise the result is None.
   */
  function Apply<T(==)>(ops: seq<Edit<T>>, a: seq<T>): Option<seq<T>>
    decreases |ops|
  {
    if ops == [] then
      if a == [] then Some([]) else None
    else
      var init := ops[..|ops| - 1];
      match ops[|ops| - 1]
      case Insert(c) =>
        (match Apply(init, a)
         case Some(b) => Some(b + [c])
         case None => None)
      case Keep =>
        if a == [] then None
        else (match Apply(init, a[..|a| - 1])
              case Some(b) => Some(b + [a[|a| - 1]])
              case None => None)
      case Substitute(c) =>
        if a == [] then None
        else (match Apply(init, a[..|a| - 1])
              case Some(b) => Some(b + [c])
              case None => None)
      case Delete =>
        if a == [] then None
        else Apply(init, a[..|a| - 1])
  }

  /** No edit script turning `a` into `b` is cheaper than `Lev(a, b)`. */
  lemma {:induction false} ScriptCostAtLeastLev<T>(ops: seq<Edit<T>>, a: seq<T>, b: seq<T>)
    requires Apply(ops, a) == Some(b)
    ensures ScriptCost(ops) >= Lev(a, b)
    decreases |ops|
  {
    if ops != [] {
      var init := ops[..|ops| - 1];
      match ops[|ops| - 1]
      case Insert(c) =>
        var b' := Apply(init, a).value;
        assert b == b' + [c];
        assert b[..|b| - 1] == b';
        ScriptCostAtLeastLev(init, a, b');
      case Keep =>
        var b' := Apply(init, a[..|a| - 1]).value;
        assert b == b' + [a[|a| - 1]];
        assert b[..|b| - 1] == b';
        ScriptCostAtLeastLev(init, a[..|a| - 1], b');
      case Substitute(c) =>
        var b' := Apply(init, a[..|a| - 1]).value;
        assert b == b' + [c];
        assert b[..|b| - 1] == b';
        ScriptCostAtLeastLev(init, a[..|a| - 1], b');
      case Delete =>
        ScriptCostAtLeastLev(init, a[..|a| - 1], b);
    }
  }

  lemma {:induction false} AppendStep<T>(ops: seq<Edit<T>>, e: Edit<T>)
    ensures (ops + [e])[..|ops|] == ops && (ops + [e])[|ops|] == e
    ensures ScriptCost(ops + [e]) == ScriptCost(ops) + EditCost(e)
  {
    assert (ops + [e])[..|ops|] == ops;
  }

  lemma {:induction false} ExtendInsert<T>(ops: seq<Edit<T>>, a: seq<T>, b: seq<T>, c: T)
    requires Apply(ops, a) == Some(b)
    ensures Apply(ops + [Insert(c)], a) == Some(b + [c])
    ensures ScriptCost(ops + [Insert(c)]) == ScriptCost(ops) + 1
  {
    AppendStep(ops, Insert(c));
  }

  lemma {:induction false} ExtendDelete<T>(ops: seq<Edit<T>>, a: seq<T>, b: seq<T>, x: T)
    requires Apply(ops, a) == Some(b)
    ensures Apply(ops + [Delete], a + [x]) == Some(b)
    ensures ScriptCost(ops + [Delete]) == ScriptCost(ops) + 1
  {
    AppendStep(ops, Delete);
    assert (a + [x])[..|a|] == a;
  }

  lemma {:induction false} ExtendKeep<T>(ops: seq<Edit<T>>, a: seq<T>, b: seq<T>, x: T)
    requires Apply(ops, a) == Some(b)
    ensures Apply(ops + [Keep], a + [x]) == Some(b + [x])
    ensures ScriptCost(ops + [Keep]) == ScriptCost(ops)
  {
    AppendStep(ops, Keep);
    assert (a + [x])[..|a|] == a;
  }

  lemma {:induction false} ExtendSubstitute<T>(ops: seq<Edit<T>>, a: seq<T>, b: seq<T>, x: T, c: T)
    requires Apply(ops, a) == Some(b)
    ensures Apply(ops + [Substitute(c)], a + [x]) == Some(b + [c])
    ensures ScriptCost(ops + [Substitute(c)]) == ScriptCost(ops) + 1
  {
    AppendStep(ops, Substitute(c));
    assert (a + [x])[..|a|] == a;
  }

  /** An edit script that turns `a` into `b` at cost exactly `Lev(a, b)`. */
  function CheapestScript<T(==)>(a: seq<T>, b: seq<T>): (ops: seq<Edit<T>>)
    ensures Apply(ops, a) == Some(b)
    ensures ScriptCost(ops) == Lev(a, b)
    decreases |a| + |b|
  {
    if |a| == 0 && |b| == 0 then []
    else if |a| == 0 then
      var b', y := b[..|b| - 1], b[|b| - 1];
      var prev := CheapestScript(a, b');
      ExtendInsert(prev, a, b', y);
      assert b' + [y] == b;
      prev + [Insert(y)]
    else if |b| == 0 then
      var a', x := a[..|a| - 1], a[|a| - 1];
      var prev := CheapestScript(a', b);
      ExtendDelete(prev, a', b, x);
      assert a' + [x] == a;
      prev + [Delete]
    else
      var a', x := a[..|a| - 1], a[|a| - 1];
      var b', y := b[..|b| - 1], b[|b| - 1];
      assert a' + [x] == a && b' + [y] == b;
      var del := Lev(a', b) + 1;
      var ins := Lev(a, b') + 1;
      var sub := Lev(a', b') + (if x == y then 0 else 1);
      assert Lev(a, b) == Min3(del, ins, sub);
      if del <= ins && del <= sub then
        var prev := CheapestScript(a', b);
        ExtendDelete(prev, a', b, x);
        prev + [Delete]
      else if ins <= sub then
        var prev := CheapestScript(a, b');
        ExtendInsert(prev, a, b', y);
        prev + [Insert(y)]
      else if x == y then
        var prev := CheapestScript(a', b');
        ExtendKeep(prev, a', b', x);
        prev + [Keep]
      else
        var prev := CheapestScript(a', b');
        ExtendSubstitute(prev, a', b', x, y);
        prev + [Substitute(y)]
  }

  /** `Lev` is the least cost of any edit script from `a` to `b`. */
  lemma {:induction false} LevIsEditDistance<T>(a: seq<T>, b: seq<T>)
    ensures exists ops :: Apply(ops, a) == Some(b) && ScriptCost(ops) == Lev(a, b)
    ensures forall ops :: Apply(ops, a) == Some(b) ==> ScriptCost(ops) >= Lev(a, b)
  {
    var best := CheapestScript(a, b);
    assert Apply(best, a) == Some(b);
    forall ops | Apply(ops, a) == Some(b)
      ensures ScriptCost(ops) >= Lev(a, b)
    {
      ScriptCostAtLeastLev(ops, a, b);
    }
  }

  /**
   * The distance is at least the difference of the lengths and at most the
   * longer length.
   */
  lemma {:induction false} LevBounds<T>(a: seq<T>, b: seq<T>)
    ensures Lev(a, b) <= (if |a| < |b| then |b| else |a|)
    ensures Lev(a, b) >= |a| - |b| && Lev(a, b) >= |b| - |a| && Lev(a, b) >= 0
    decreases |a| + |b|
  {
    if |a| > 0 && |b| > 0 {
      LevBounds(a[..|a| - 1], b);
      LevBounds(a, b[..|b| - 1]);
      LevBounds(a[..|a| - 1], b[..|b| - 1]);
    }
  }

  /** The distance from the empty string is the other string's length, in either order. */
  lemma {:induction false} LevEmpty<T>(s: seq<T>)
    ensures Lev([], s) == |s| && Lev(s, []) == |s|
  {
  }

  /** The distance is zero exactly between equal strings. */
  lemma {:induction false} LevZeroIffEqual<T>(a: seq<T>, b: seq<T>)
    ensures Lev(a, b) == 0 <==> a == b
  {
    if a == b {
      LevSelf(a);
    } else if Lev(a, b) == 0 {
      LevZeroEqual(a, b);
    }
  }

  lemma {:induction false} LevSelf<T>(a: seq<T>)
    ensures Lev(a, a) == 0
  {
    if a != [] {
      var a' := a[..|a| - 1];
      LevSelf(a');
      LevBounds(a', a);
      LevBounds(a, a');
    }
  }

  lemma {:induction false} LevZeroEqual<T>(a: seq<T>, b: seq<T>)
    requires Lev(a, b) == 0
    ensures a == b
    decreases |a| + |b|
  {
    if |a| > 0 && |b| > 0 {
      var a', b' := a[..|a| - 1], b[..|b| - 1];
      LevBounds(a', b);
      LevBounds(a, b');
      LevBounds(a', b');
      var sub := Lev(a', b') + (if a[|a| - 1] == b[|b| - 1] then 0 else 1);
      assert Lev(a, b) == Min3(Lev(a', b) + 1, Lev(a, b') + 1, sub);
      assert sub == 0;
      LevZeroEqual(a', b');
      assert a == a' + [a[|a| - 1]] && b == b' + [b[|b| - 1]];
    }
  }

  /** The distance does not depend on the order of its arguments. */
  lemma {:induction false} LevSymmetric<T>(a: seq<T>, b: seq<T>)
    ensures Lev(a, b) == Lev(b, a)
    decreases |a| + |b|
  {
    if |a| > 0 && |b| > 0 {
      LevSymmetric(a[..|a| - 1], b);
      LevSymmetric(a, b[..|b| - 1]);
      LevSymmetric(a[..|a| - 1], b[..|b| - 1]);
    }
  }

  /**
   * The same recurrence read off the table's indices: the distance between
   * the first `i` characters of `a` and the first `j` characters of `b`.
   */
  function LevAt<T(==)>(a: seq<T>, b: seq<T>, i: nat, j: nat): int
    requires i <= |a| && j <= |b|
    decreases i + j
  {
    if i == 0 then j
    else if j == 0 then i
    else
      Min3(LevAt(a, b, i - 1, j) + 1,
           LevAt(a, b, i, j - 1) + 1,
           LevAt(a, b, i - 1, j - 1) + (if a[i - 1] == b[j - 1] then 0 else 1))
  }

  lemma {:induction false} LevAtIsLev<T>(a: seq<T>, b: seq<T>, i: nat, j: nat)
    requires i <= |a| && j <= |b|
    ensures LevAt(a, b, i, j) == Lev(a[..i], b[..j])
    decreases i + j
  {
    if i > 0 && j > 0 {
      LevAtIsLev(a, b, i - 1, j);
      LevAtIsLev(a, b, i, j - 1);
      LevAtIsLev(a, b, i - 1, j - 1);
      LevAtStep(a, b, i, j);
    }
  }

  /** One cell: if the three neighbouring cells agree with `Lev`, so does this one. */
  lemma {:induction false} LevAtStep<T>(a: seq<T>, b: seq<T>, i: nat, j: nat)
    requires 0 < i <= |a| && 0 < j <= |b|
    requires LevAt(a, b, i - 1, j) == Lev(a[..i - 1], b[..j])
    requires LevAt(a, b, i, j - 1) == Lev(a[..i], b[..j - 1])
    requires LevAt(a, b, i - 1, j - 1) == Lev(a[..i - 1], b[..j - 1])
    ensures LevAt(a, b, i, j) == Lev(a[..i], b[..j])
  {
    PrefixUnfold(a, b, i, j);
    LevAtUnfold(a, b, i, j);
  }

  lemma {:induction false} LevAtUnfold<T>(a: seq<T>, b: seq<T>, i: nat, j: nat)
    requires 0 < i <= |a| && 0 < j <= |b|
    ensures LevAt(a, b, i, j) == Min3(LevAt(a, b, i - 1, j) + 1,
                                      LevAt(a, b, i, j - 1) + 1,
                                      LevAt(a, b, i - 1, j - 1) + (if a[i - 1] == b[j - 1] then 0 else 1))
  {
  }

  /** The recurrence of `Lev` restated on prefixes of `a` and `b`. */
  lemma {:induction false} PrefixUnfold<T>(a: seq<T>, b: seq<T>, i: nat, j: nat)
    requires 0 < i <= |a| && 0 < j <= |b|
    ensures Lev(a[..i], b[..j]) == Min3(Lev(a[..i - 1], b[..j]) + 1,
                                        Lev(a[..i], b[..j - 1]) + 1,
                                        Lev(a[..i - 1], b[..j - 1]) + (if a[i - 1] == b[j - 1] then 0 else 1))
  {
    assert a[..i] == a[..i - 1] + [a[i - 1]];
    assert b[..j] == b[..j - 1] + [b[j - 1]];
    LevUnfold(a[..i], a[..i - 1], a[i - 1], b[..j], b[..j - 1], b[j - 1]);
  }

  /** The recurrence of `Lev` for `a = a0 + [x]` and `b = b0 + [y]`. */
  lemma {:induction false} LevUnfold<T>(a: seq<T>, a0: seq<T>, x: T, b: seq<T>, b0: seq<T>, y: T)
    requires a == a0 + [x] && b == b0 + [y]
    ensures Lev(a, b) == Min3(Lev(a0, b) + 1, Lev(a, b0) + 1, Lev(a0, b0) + (if x == y then 0 else 1))
  {
    assert a[..|a| - 1] == a0 && b[..|b| - 1] == b0;
  }

  /** Row 0 of the table: the distances from the empty prefix of `s1` to each prefix of `s2`. */
  method FirstRow<T(==)>(s1: seq<T>, s2: seq<T>) returns (row: seq<int>)
    ensures |row| == |s2| + 1
    ensures forall q {:trigger row[q]} :: 0 <= q <= |s2| ==> row[q] == LevAt(s1, s2, 0, q)
  {
    row := [];
    var j := 0;
    while j <= |s2|
      invariant 0 <= j <= |s2| + 1 && |row| == j
      invariant forall q :: 0 <= q < j ==> row[q] == q
    {
      row := row + [j];
      j := j + 1;
    }
  }

  /**
   * Row `i` of the table from row `i - 1`: column 0 holds `i`, and every
   * other cell is the cheapest of a deletion (the cell above), an insertion
   * (the cell to the left) and a substitution that is free when the
   * characters agree (the cell diagonally above).
   */
  method NextRow<T(==)>(s1: seq<T>, s2: seq<T>, i: nat, prev: seq<int>) returns (row: seq<int>)
    requires 0 < i <= |s1| && |prev| == |s2| + 1
    requires forall q {:trigger prev[q]} :: 0 <= q <= |s2| ==> prev[q] == LevAt(s1, s2, i - 1, q)
    ensures |row| == |s2| + 1
    ensures forall q {:trigger row[q]} :: 0 <= q <= |s2| ==> row[q] == LevAt(s1, s2, i, q)
  {
    row := [i];
    var j := 1;
    while j <= |s2|
      invariant 1 <= j <= |s2| + 1 && |row| == j
      invariant forall q {:trigger row[q]} :: 0 <= q < j ==> row[q] == LevAt(s1, s2, i, q)
    {
      var cost := if s1[i - 1] == s2[j - 1] then 0 else 1;
      row := row + [Min3(prev[j] + 1, row[j - 1] + 1, prev[j - 1] + cost)];
      j := j + 1;
    }
  }

  /**
   * The table algorithm, row by row: `dp[i][j]` is the distance between the
   * first `i` elements of `s1` and the first `j` elements of `s2`, and the
   * answer is the bottom-right cell.
   */
  method TableDistance<T(==)>(s1: seq<T>, s2: seq<T>) returns (d: int)
    ensures d == Lev(s1, s2)
  {
    var first := FirstRow(s1, s2);
    var dp := [first];
    var i := 1;
    while i <= |s1|
      invariant 1 <= i <= |s1| + 1 && |dp| == i
      invariant forall p :: 0 <= p < i ==> |dp[p]| == |s2| + 1
      invariant forall p, q {:trigger dp[p][q]} :: 0 <= p < i && 0 <= q <= |s2| ==> dp[p][q] == LevAt(s1, s2, p, q)
    {
      var row := NextRow(s1, s2, i, dp[i - 1]);
      dp := dp + [row];
      i := i + 1;
    }
    LevAtIsLev(s1, s2, |s1|, |s2|);
    assert s1[..|s1|] == s1 && s2[..|s2|] == s2;
    d := dp[|s1|][|s2|];
  }

  /**
   * `getLevenshteinDistance` of the explorer.  Its table is as long and as
   * wide as the strings' `length`, and it compares `s1[i - 1]` with
   * `s2[j - 1]`, so it works on UTF-16 code units: a character outside the
   * Basic Multilingual Plane is two units, and costs two edits to insert.
   */
  method Distance(s1: string, s2: string) returns (d: int)
    ensures d == Lev(Units(s1), Units(s2))
    ensures forall ops :: Apply(ops, Units(s1)) == Some(Units(s2)) ==> ScriptCost(ops) >= d
    ensures exists ops :: Apply(ops, Units(s1)) == Some(Units(s2)) && ScriptCost(ops) == d
  {
    var a, b := Units(s1), Units(s2);
    d := TableDistance(a, b);
    LevIsEditDistance(a, b);
    forall ops | Apply(ops, a) == Some(b)
      ensures ScriptCost(ops) >= d
    {
      ScriptCostAtLeastLev(ops, a, b);
    }
  }
}
