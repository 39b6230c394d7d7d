/**
 * JavaScript strings are sequences of UTF-16 code units, and `length` and
 * indexing count those units.  A model string is a sequence of Unicode
 * scalar values; this module encodes it into the units JavaScript holds,
 * decodes units back, and measures `length` the JavaScript way.
 */
module CodeUnits {
  import opened Wrappers

  const SurrogateBase: int := 0xD800
  const LowSurrogateBase: int := 0xDC00
  const SurrogateEnd: int := 0xE000
  const AstralBase: int := 0x1_0000

  predicate IsHighSurrogate(u: int)
  {
    SurrogateBase <= u < LowSurrogateBase
  }

  predicate IsLowSurrogate(u: int)
  {
    LowSurrogateBase <= u < SurrogateEnd
  }

  /** A character outside the Basic Multilingual Plane, stored as a surrogate pair. */
  predicate IsAstral(c: char)
  {
    c as int >= AstralBase
  }

  /** The code units of one character: itself below U+10000, a high and a low surrogate above. */
  function CharUnits(c: char): (r: seq<int>)
    ensures |r| == (if IsAstral(c) then 2 else 1)
    ensures !IsAstral(c) ==> r == [c as int] && !IsHighSurrogate(r[0]) && !IsLowSurrogate(r[0])
    ensures IsAstral(c) ==> IsHighSurrogate(r[0]) && IsLowSurrogate(r[1])
  {
    var v := c as int;
    if v < AstralBase then [v]
    else [SurrogateBase + (v - AstralBase) / 0x400, LowSurrogateBase + (v - AstralBase) % 0x400]
  }

  /** The string as JavaScript stores it. */
  function Units(s: string): (r: seq<int>)
    ensures |r| >= |s|
    ensures forall k :: 0 <= k < |r| ==> 0 <= r[k] < AstralBase
  {
    if s == [] then [] else CharUnits(s[0]) + Units(s[1..])
  }

  /** JavaScript's `s.length`. */
  function JsLength(s: string): nat
  {
    |Units(s)|
  }

  /** The characters of `s` that take two code units. */
  function AstralCount(s: string): nat
  {
    if s == [] then 0 else (if IsAstral(s[0]) then 1 else 0) + AstralCount(s[1..])
  }

  /** The character a surrogate pair stands for. */
  function PairChar(hi: int, lo: int): char
    requires IsHighSurrogate(hi) && IsLowSurrogate(lo)
  {
    var cp := AstralBase + (hi - SurrogateBase) * 0x400 + (lo - LowSurrogateBase);
    assert cp <= 0x10_FFFF;
    cp as char
  }

  /**
   * Code units back to characters.  None for a lone surrogate or a value
   * that is not a code unit, which no model string encodes to.
   */
  function Decode(u: seq<int>): Option<string>
    decreases |u|
  {
    if u == [] then Some([])
    else if IsHighSurrogate(u[0]) then
      if |u| >= 2 && IsLowSurrogate(u[1]) then
        match Decode(u[2..])
        case Some(t) => Some([PairChar(u[0], u[1])] + t)
        case None => None
      else None
    else if IsLowSurrogate(u[0]) || u[0] < 0 || u[0] >= AstralBase then None
    else
      match Decode(u[1..])
      case Some(t) => Some([u[0] as char] + t)
      case None => None
  }

  /** Decoding one character's units gives the character back. */
  lemma {:induction false} CharRoundTrip(c: char)
    ensures IsAstral(c) ==> PairChar(CharUnits(c)[0], CharUnits(c)[1]) == c
    ensures !IsAstral(c) ==> CharUnits(c)[0] as char == c
  {
    if IsAstral(c) {
      var v := c as int - AstralBase;
      assert v == (v / 0x400) * 0x400 + v % 0x400;
    }
  }

  /** Decoding undoes encoding: every string survives the trip through its code units. */
  lemma {:induction false} RoundTrip(s: string)
    ensures Decode(Units(s)) == Some(s)
  {
    if s != [] {
      var u := Units(s);
      var head := CharUnits(s[0]);
      RoundTrip(s[1..]);
      CharRoundTrip(s[0]);
      assert u[|head|..] == Units(s[1..]);
      assert u[0] == head[0];
      if IsAstral(s[0]) {
        assert u[1] == head[1];
        assert u[2..] == Units(s[1..]);
      } else {
        assert u[1..] == Units(s[1..]);
      }
      assert s == [s[0]] + s[1..];
    }
  }

  /** Distinct strings have distinct code units. */
  lemma {:induction false} UnitsInjective(s: string, t: string)
    requires Units(s) == Units(t)
    ensures s == t
  {
    RoundTrip(s);
    RoundTrip(t);
  }

  /** Encoding distributes over concatenation. */
  lemma {:induction false} UnitsAppend(a: string, b: string)
    ensures Units(a + b) == Units(a) + Units(b)
  {
    if a != [] {
      assert (a + b)[0] == a[0];
      assert (a + b)[1..] == a[1..] + b;
      UnitsAppend(a[1..], b);
      assert Units(a + b) == CharUnits(a[0]) + (Units(a[1..]) + Units(b));
    } else {
      assert a + b == b;
    }
  }

  /** `length` counts every character once and the astral ones twice. */
  lemma {:induction false} JsLengthCounts(s: string)
    ensures JsLength(s) == |s| + AstralCount(s)
  {
    if s != [] {
      JsLengthCounts(s[1..]);
    }
  }

  /** Below U+10000 the units are the characters' own values, so `length` is the character count. */
  lemma {:induction false} BmpUnits(s: string)
    requires forall k :: 0 <= k < |s| ==> !IsAstral(s[k])
    ensures Units(s) == seq(|s|, k requires 0 <= k < |s| => s[k] as int)
    ensures JsLength(s) == |s|
  {
    if s != [] {
      BmpUnits(s[1..]);
    }
  }

  /** U+1F600, an emoji, has `length` 2 although it is one character. */
  lemma {:induction false} EmojiLength()
    ensures JsLength("\U{1F600}") == 2
  {
    var e: string := "\U{1F600}";
    assert Units(e) == CharUnits(e[0]) + Units(e[1..]);
    assert e[1..] == [];
  }
}
