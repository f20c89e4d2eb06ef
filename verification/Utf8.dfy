/** The truncation of UTF-8 strings (app/src/util/str.c). A string is its bytes without the final zero. */
module Utf8 {
  import opened Common
  import opened Binary

  predicate IsContinuation(b: Byte) {
    0x80 <= b < 0xC0
  }

  /** Going back from index i to the start of a code point. None: the loop leaves the string. */
  function CodePointStart(s: seq<Byte>, i: nat): (r: Option<nat>)
    requires i < |s|
    ensures r.None? ==> forall j | 0 <= j <= i :: IsContinuation(s[j])
    ensures r.Some? ==>
              && r.value <= i && !IsContinuation(s[r.value])
              && forall j | r.value < j <= i :: IsContinuation(s[j])
  {
    if !IsContinuation(s[i]) then Some(i) else if i == 0 then None else CodePointStart(s, i - 1)
  }

  /** The loop of sc_str_utf8_truncation_index() stops inside the string. */
  predicate StopsInside(s: seq<Byte>, max: nat) {
    |s| <= max || exists j | 0 <= j <= max :: !IsContinuation(s[j])
  }

  function TruncationIndex(s: seq<Byte>, max: nat): (r: Option<nat>)
    ensures r.Some? <==> StopsInside(s, max)
    ensures r.Some? ==> r.value <= max && r.value <= |s|
    ensures |s| <= max ==> r == Some(|s|)
    ensures r.Some? && |s| > max ==> !IsContinuation(s[r.value])
  {
    if |s| <= max then Some(|s|) else CodePointStart(s, max)
  }

  /** sc_str_utf8_truncation_index(); None when its loop leaves the string. */
  method FindTruncationIndex(s: seq<Byte>, max: nat) returns (r: Option<nat>)
    ensures r == TruncationIndex(s, max)
  {
    if |s| <= max {
      return Some(|s|);
    }
    var len: int := max;
    while len >= 0 && IsContinuation(s[len])
      invariant -1 <= len <= max
      invariant CodePointStart(s, max) == if len >= 0 then CodePointStart(s, len) else None
    {
      len := len - 1;
    }
    r := if len >= 0 then Some(len) else None;
  }

  /** On continuation bytes only, one more than the limit, the loop leaves the string. */
  lemma LeavesStringExample(s: seq<Byte>, max: nat)
    requires |s| == max + 1 && forall i | 0 <= i < |s| :: IsContinuation(s[i])
    ensures TruncationIndex(s, max) == None
  {
  }

  function Truncated(s: seq<Byte>, max: nat): (r: seq<Byte>)
    requires StopsInside(s, max)
    ensures |r| <= max && r <= s
    ensures |s| <= max ==> r == s
  {
    s[..TruncationIndex(s, max).value]
  }

  // ---------------------------------------------------------------- well-formed strings

  predicate Continues(s: seq<Byte>, from: nat, to: nat) {
    to <= |s| && forall i | from <= i < to :: IsContinuation(s[i])
  }

  /**
   * The number of bytes of the code point at the start of s, or 0 if there is none that is
   * well formed (table 3-7 of the Unicode standard).
   */
  function CodePointLength(s: seq<Byte>): (n: nat)
    requires s != []
    ensures n <= |s| && Continues(s, 1, n) && (n > 0 ==> !IsContinuation(s[0]))
  {
    var b := s[0];
    if b < 0x80 then 1
    else if 0xC2 <= b < 0xE0 && Continues(s, 1, 2) then 2
    else if 0xE0 <= b < 0xF0 && Continues(s, 1, 3) && (b == 0xE0 ==> s[1] >= 0xA0) && (b == 0xED ==> s[1] < 0xA0) then 3
    else if 0xF0 <= b < 0xF5 && Continues(s, 1, 4) && (b == 0xF0 ==> s[1] >= 0x90) && (b == 0xF4 ==> s[1] < 0x90) then 4
    else 0
  }

  /** The Unicode scalar values: the code points but for the surrogates. */
  predicate IsScalar(c: nat) {
    c < 0x11_0000 && !(0xD800 <= c < 0xE000)
  }

  /** Section 3 of RFC 3629 */
  function Encoding(c: nat): (s: seq<Byte>)
    requires c < 0x11_0000
  {
    if c < 0x80 then [c]
    else if c < 0x800 then [0xC0 + c / 0x40, 0x80 + c % 0x40]
    else if c < 0x1_0000 then [0xE0 + c / 0x1000, 0x80 + c / 0x40 % 0x40, 0x80 + c % 0x40]
    else [0xF0 + c / 0x4_0000, 0x80 + c / 0x1000 % 0x40, 0x80 + c / 0x40 % 0x40, 0x80 + c % 0x40]
  }

  lemma ShortIsWellFormed(c: nat, rest: seq<Byte>)
    requires c < 0x800
    ensures CodePointLength(Encoding(c) + rest) == |Encoding(c)|
  {
    var t := Encoding(c) + rest;
    assert c >= 0x80 ==> t[1] == 0x80 + c % 0x40;
  }

  lemma MiddleIsWellFormed(c: nat, rest: seq<Byte>)
    requires IsScalar(c) && 0x800 <= c < 0x1_0000
    ensures CodePointLength(Encoding(c) + rest) == |Encoding(c)|
  {
    var t := Encoding(c) + rest;
    assert t[1] == 0x80 + c / 0x40 % 0x40 && t[2] == 0x80 + c % 0x40;
  }

  lemma LongIsWellFormed(c: nat, rest: seq<Byte>)
    requires 0x1_0000 <= c < 0x11_0000
    ensures CodePointLength(Encoding(c) + rest) == |Encoding(c)|
  {
    var t := Encoding(c) + rest;
    assert t[1] == 0x80 + c / 0x1000 % 0x40 && t[2] == 0x80 + c / 0x40 % 0x40 && t[3] == 0x80 + c % 0x40;
  }

  /** The encoding of a scalar value is well formed, whatever follows. */
  lemma ScalarIsWellFormed(c: nat, rest: seq<Byte>)
    requires IsScalar(c)
    ensures CodePointLength(Encoding(c) + rest) == |Encoding(c)|
  {
    hide CodePointLength, Encoding;
    if c < 0x800 {
      ShortIsWellFormed(c, rest);
    } else if c < 0x1_0000 {
      MiddleIsWellFormed(c, rest);
    } else {
      LongIsWellFormed(c, rest);
    }
  }

  lemma TwoBytes(a: nat, b: nat) returns (c: nat)
    requires 0xC2 <= a < 0xE0 && 0x80 <= b < 0xC0
    ensures IsScalar(c) && Encoding(c) == [a, b]
  {
    c := 0x40 * (a - 0xC0) + (b - 0x80);
  }

  lemma ThreeBytes(a: nat, b: nat, d: nat) returns (c: nat)
    requires 0xE0 <= a < 0xF0 && 0x80 <= b < 0xC0 && 0x80 <= d < 0xC0
    requires (a == 0xE0 ==> b >= 0xA0) && (a == 0xED ==> b < 0xA0)
    ensures IsScalar(c) && Encoding(c) == [a, b, d]
  {
    c := 0x1000 * (a - 0xE0) + 0x40 * (b - 0x80) + (d - 0x80);
    DigitsOf(a - 0xE0, b - 0x80, d - 0x80);
  }

  lemma FourBytes(a: nat, b: nat, d: nat, e: nat) returns (c: nat)
    requires 0xF0 <= a < 0xF5 && 0x80 <= b < 0xC0 && 0x80 <= d < 0xC0 && 0x80 <= e < 0xC0
    requires (a == 0xF0 ==> b >= 0x90) && (a == 0xF4 ==> b < 0x90)
    ensures IsScalar(c) && Encoding(c) == [a, b, d, e]
  {
    c := 0x4_0000 * (a - 0xF0) + 0x1000 * (b - 0x80) + 0x40 * (d - 0x80) + (e - 0x80);
    DigitsOf(0x40 * (a - 0xF0) + (b - 0x80), d - 0x80, e - 0x80);
  }

  /** Nothing else is. */
  lemma WellFormedIsScalar(s: seq<Byte>) returns (c: nat)
    requires s != [] && CodePointLength(s) > 0
    ensures IsScalar(c) && Encoding(c) == s[..CodePointLength(s)]
  {
    var n := CodePointLength(s);
    if n == 1 {
      c := s[0];
    } else {
      hide Encoding;
      assert IsContinuation(s[1]) && (n > 2 ==> IsContinuation(s[2])) && (n > 3 ==> IsContinuation(s[3]));
      if n == 2 {
        c := TwoBytes(s[0], s[1]);
      } else if n == 3 {
        c := ThreeBytes(s[0], s[1], s[2]);
      } else {
        c := FourBytes(s[0], s[1], s[2], s[3]);
      }
    }
  }

  lemma DigitsOf(x: nat, y: nat, z: nat)
    requires y < 0x40 && z < 0x40
    ensures var c := 0x1000 * x + 0x40 * y + z; c / 0x1000 == x && c / 0x40 % 0x40 == y && c % 0x40 == z
  {
    assert 0x1000 * x + 0x40 * y + z == 0x40 * (0x40 * x + y) + z;
  }

  /** (b & 0xC0) == 0x80 */
  lemma ContinuationBits(b: Byte)
    ensures IsContinuation(b) <==> (b as bv8) & 0xC0 == 0x80
  {
  }

  predicate IsUtf8(s: seq<Byte>)
    decreases |s|
  {
    s == [] || (CodePointLength(s) > 0 && IsUtf8(s[CodePointLength(s)..]))
  }

  lemma Utf8Head(s: seq<Byte>)
    requires s != [] && IsUtf8(s)
    ensures !IsContinuation(s[0])
  {
  }

  lemma Utf8Rest(s: seq<Byte>)
    requires s != [] && IsUtf8(s)
    ensures CodePointLength(s) > 0 && IsUtf8(s[CodePointLength(s)..])
  {
    hide CodePointLength;
  }

  /** In a well-formed string, the loop never leaves the string. */
  lemma StopsInsideUtf8(s: seq<Byte>, max: nat)
    requires IsUtf8(s)
    ensures StopsInside(s, max)
  {
    if s != [] {
      Utf8Head(s);
    }
  }

  lemma CodePointIsLocal(s: seq<Byte>, more: seq<Byte>)
    requires s != [] && CodePointLength(s) > 0
    ensures CodePointLength(s[..CodePointLength(s)] + more) == CodePointLength(s)
  {
    var n := CodePointLength(s);
    var t := s[..n] + more;
    assert forall i | 0 <= i < n :: t[i] == s[i];
  }

  lemma Utf8Cons(s: seq<Byte>, more: seq<Byte>)
    requires s != [] && CodePointLength(s) > 0
    ensures IsUtf8(s[..CodePointLength(s)] + more) <==> IsUtf8(more)
  {
    hide CodePointLength;
    CodePointIsLocal(s, more);
    var n := CodePointLength(s);
    assert (s[..n] + more)[n..] == more;
  }

  /** Truncating after the first code point is truncating the rest of the string. */
  lemma TruncatedCons(s: seq<Byte>, max: nat)
    requires s != [] && CodePointLength(s) > 0 && CodePointLength(s) <= max < |s|
    requires StopsInside(s, max) && StopsInside(s[CodePointLength(s)..], max - CodePointLength(s))
    ensures var n := CodePointLength(s);
            Truncated(s, max) == s[..n] + Truncated(s[n..], max - n)
  {
    hide CodePointLength;
    var n := CodePointLength(s);
    var rest := s[n..];
    var j := TruncationIndex(rest, max - n).value;
    forall i | n + j < i <= max
      ensures IsContinuation(s[i])
    {
      assert rest[i - n] == s[i];
    }
    TruncationIs(s, max, n + j);
  }

  lemma TruncationIs(s: seq<Byte>, max: nat, n: nat)
    requires n <= max < |s| && !IsContinuation(s[n])
    requires forall i | n < i <= max :: IsContinuation(s[i])
    ensures TruncationIndex(s, max) == Some(n)
  {
  }

  /** Truncation keeps a string well formed. */
  lemma {:induction false} TruncatedIsUtf8(s: seq<Byte>, max: nat)
    requires IsUtf8(s) && StopsInside(s, max)
    ensures IsUtf8(Truncated(s, max))
    decreases |s|
  {
    hide CodePointLength, IsUtf8, Truncated;
    if |s| > max {
      Utf8Rest(s);
      var n := CodePointLength(s);
      if n <= max {
        StopsInsideUtf8(s[n..], max - n);
        TruncatedIsUtf8(s[n..], max - n);
        TruncatedCons(s, max);
        Utf8Cons(s, Truncated(s[n..], max - n));
      } else {
        TruncatedInsideFirst(s, max);
      }
    }
  }

  lemma TruncatedInsideFirst(s: seq<Byte>, max: nat)
    requires s != [] && max < CodePointLength(s) && StopsInside(s, max) && max < |s|
    ensures IsUtf8(Truncated(s, max))
  {
    hide CodePointLength;
    TruncationIs(s, max, 0);
  }

  lemma SplitTwice(s: seq<Byte>, k: nat, n: nat)
    requires k <= n <= |s|
    ensures s[..n][..k] + s[k..] == s
    ensures s[k..][..n - k] == s[..n][k..]
    ensures s[k..][n - k..] == s[n..]
  {
  }

  /** What follows a well-formed beginning of a well-formed string is well formed. */
  lemma {:induction false} Utf8Suffix(s: seq<Byte>, n: nat)
    requires IsUtf8(s) && n <= |s| && IsUtf8(s[..n])
    ensures IsUtf8(s[n..])
    ensures n < |s| ==> !IsContinuation(s[n])
    decreases |s|
  {
    if n > 0 {
      hide CodePointLength, IsUtf8;
      var head := s[..n];
      var k := CodePointLength(head);
      Utf8Rest(head);
      CodePointIsLocal(head, s[k..]);
      SplitTwice(s, k, n);
      Utf8Rest(s);
      Utf8Suffix(s[k..], n - k);
    } else {
      assert s[n..] == s;
      if s != [] {
        Utf8Head(s);
      }
    }
  }

  /** No longer beginning of at most `max` bytes is well formed. */
  lemma TruncatedIsLongest(s: seq<Byte>, max: nat, n: nat)
    requires IsUtf8(s) && StopsInside(s, max)
    requires n <= max && n <= |s| && IsUtf8(s[..n])
    ensures n <= |Truncated(s, max)|
  {
    if |s| > max && n > |Truncated(s, max)| {
      hide CodePointLength;
      Utf8Suffix(s, n);
    }
  }
}
