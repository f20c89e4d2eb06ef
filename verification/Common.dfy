/** Small definitions shared by the other modules. */
module Common {

  datatype Option<+T> = None | Some(value: T)

  function Min(x: int, y: int): (m: int)
    ensures m <= x && m <= y && (m == x || m == y)
  {
    if x < y then x else y
  }

  function Max(x: int, y: int): (m: int)
    ensures m >= x && m >= y && (m == x || m == y)
  {
    if x > y then x else y
  }

  lemma MulMonotone(a: int, b: int, w: nat)
    requires a <= b
    ensures a * w <= b * w
  {
  }

  /** C integer division: it truncates toward zero. */
  function TruncDiv(a: int, b: int): (q: int)
    requires b > 0
    ensures a >= 0 ==> b * q <= a < b * q + b
    ensures a <= 0 ==> b * q - b < a <= b * q
  {
    if a >= 0 then a / b else -((-a) / b)
  }

  /** Conversion of a floating point value to an integer: it truncates toward zero. */
  function Truncate(x: real): (i: int)
    ensures x >= 0.0 ==> i as real <= x < i as real + 1.0
    ensures x <= 0.0 ==> i as real - 1.0 < x <= i as real
  {
    if x >= 0.0 then x.Floor else -((-x).Floor)
  }

  function NonNegative(x: real): (r: real)
    ensures r >= 0.0
  {
    if x < 0.0 then 0.0 else x
  }

  lemma RealMulAtMost(a: real, b: real, w: real)
    requires a <= b && w >= 0.0
    ensures a * w <= b * w
  {
  }

  lemma RealMulBelow(a: real, b: real, w: real)
    requires a < b && w > 0.0
    ensures a * w < b * w
  {
  }

  function Last<T>(s: seq<T>): (x: T)
    requires s != []
  {
    s[|s| - 1]
  }

  function DropLast<T>(s: seq<T>): (r: seq<T>)
    requires s != []
  {
    s[..|s| - 1]
  }

  /** The last n elements of s, or all of s when it is shorter. */
  function KeepLast<T>(s: seq<T>, n: nat): (r: seq<T>)
    ensures |r| == Min(|s|, n)
  {
    s[|s| - Min(|s|, n)..]
  }

  /** sub can be obtained from s by removing elements. */
  ghost predicate Subsequence<T>(sub: seq<T>, s: seq<T>) {
    || sub == []
    || (s != [] && (|| (Last(sub) == Last(s) && Subsequence(DropLast(sub), DropLast(s)))
                    || Subsequence(sub, DropLast(s))))
  }

  lemma {:induction false} SubsequenceOfLonger<T>(sub: seq<T>, s: seq<T>, more: seq<T>)
    requires Subsequence(sub, s)
    ensures Subsequence(sub, s + more)
  {
    if more == [] {
      assert s + more == s;
    } else {
      SubsequenceOfLonger(sub, s, DropLast(more));
      assert DropLast(s + more) == s + DropLast(more);
    }
  }

  lemma SubsequenceSnoc<T>(sub: seq<T>, s: seq<T>, x: T)
    requires Subsequence(sub, s)
    ensures Subsequence(sub, s + [x]) && Subsequence(sub + [x], s + [x])
  {
    assert DropLast(s + [x]) == s && DropLast(sub + [x]) == sub;
  }
}
