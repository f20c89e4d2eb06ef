/**
 * Display orientations (app/src/options.h, app/src/options.c): an optional horizontal flip, then
 * clockwise quarter turns, and what they do to the points of a picture (app/src/screen.c).
 */
module Orientations {
  import opened Coords

  /** Three bits: the flip (4) and the number of quarter turns (3), the lowest of which swaps the axes. */
  type Orientation = o: bv8 | o & 0xF8 == 0

  const ORIENTATION_0: Orientation := 0
  const ORIENTATION_90: Orientation := 1
  const ORIENTATION_180: Orientation := 2
  const ORIENTATION_270: Orientation := 3
  const ORIENTATION_FLIP_0: Orientation := 4
  const ORIENTATION_FLIP_90: Orientation := 5
  const ORIENTATION_FLIP_180: Orientation := 6
  const ORIENTATION_FLIP_270: Orientation := 7

  predicate IsSwap(o: Orientation) {
    o & 1 != 0
  }

  predicate IsMirror(o: Orientation) {
    o & 4 != 0
  }

  /** The orientation of a picture oriented by `src`, then by `transform`. */
  function Apply(src: Orientation, transform: Orientation): Orientation {
    // Moving the flip of the transform before the turns of src reverses these
    var srcRotation := if IsSwap(src) && IsMirror(transform) then (src & 3) + 2 else src & 3;
    ((src & 4) ^ (transform & 4)) | (((transform & 3) + srcRotation) % 4)
  }

  function OrientedSize(size: Size, o: Orientation): Size {
    if IsSwap(o) then Size(size.height, size.width) else size
  }

  /** From a point of the oriented picture, of the given size, to the point of the original picture. */
  function Convert(o: Orientation, size: Size, p: Point): Point {
    var Size(w, h) := size;
    if o == ORIENTATION_0 then p
    else if o == ORIENTATION_90 then Point(p.y, w - p.x)
    else if o == ORIENTATION_180 then Point(w - p.x, h - p.y)
    else if o == ORIENTATION_270 then Point(h - p.y, p.x)
    else if o == ORIENTATION_FLIP_0 then Point(w - p.x, p.y)
    else if o == ORIENTATION_FLIP_90 then Point(h - p.y, w - p.x)
    else if o == ORIENTATION_FLIP_180 then Point(p.x, h - p.y)
    else Point(p.y, p.x)
  }

  // What the bits mean, independently of the table above.

  function QuarterTurns(o: Orientation): (n: nat)
    ensures n <= 3
  {
    if o & 3 == 0 then 0 else if o & 3 == 1 then 1 else if o & 3 == 2 then 2 else 3
  }

  /** The point shown at p by a clockwise quarter turn, in a picture that then has the given size. */
  function TurnBack(size: Size, p: Point): Point {
    Point(p.y, size.width - p.x)
  }

  function TurnBackTimes(n: nat, size: Size, p: Point): Point {
    if n == 0 then p
    else TurnBackTimes(n - 1, Size(size.height, size.width), TurnBack(size, p))
  }

  function FlipBack(size: Size, p: Point): Point {
    Point(size.width - p.x, p.y)
  }

  /** The conversion table undoes the quarter turns, then the flip. */
  lemma ConvertUndoesTurnsThenFlip(o: Orientation, size: Size, p: Point)
    ensures Convert(o, size, p)
         == var turned := TurnBackTimes(QuarterTurns(o), size, p);
            if IsMirror(o) then FlipBack(OrientedSize(size, o), turned) else turned
  {
    var s1 := Size(size.height, size.width);
    var p1 := TurnBack(size, p);
    var p2 := TurnBack(s1, p1);
    var p3 := TurnBack(size, p2);
    assert TurnBackTimes(0, size, p) == p;
    assert TurnBackTimes(0, s1, p1) == p1;
    assert TurnBackTimes(1, size, p) == p1;
    assert TurnBackTimes(1, s1, p1) == TurnBackTimes(0, size, p2) == p2;
    assert TurnBackTimes(2, size, p) == p2;
    assert TurnBackTimes(2, s1, p1) == TurnBackTimes(1, size, p2) == TurnBackTimes(0, s1, p3) == p3;
    assert TurnBackTimes(3, size, p) == p3;
  }

  lemma OrientedSizeOfApply(s: Orientation, t: Orientation, size: Size)
    ensures OrientedSize(size, Apply(s, t)) == OrientedSize(OrientedSize(size, s), t)
  {
  }

  /**
   * The conversion is an action of the composition: converting under `Apply(s, t)` is
   * converting under `t`, then under `s` in the picture that `t` is applied to.
   */
  lemma ConvertOfApply(s: Orientation, t: Orientation, size: Size, p: Point)
    ensures Convert(Apply(s, t), size, p) == Convert(s, OrientedSize(size, t), Convert(t, size, p))
  {
  }

  function Inverse(o: Orientation): Orientation {
    if IsMirror(o) then o else (4 - o) % 4
  }

  /** The orientations form a group under the composition. */
  lemma ApplyIsGroup(a: Orientation, b: Orientation, c: Orientation)
    ensures Apply(Apply(a, b), c) == Apply(a, Apply(b, c))
    ensures Apply(a, ORIENTATION_0) == a == Apply(ORIENTATION_0, a)
    ensures Apply(a, Inverse(a)) == ORIENTATION_0 == Apply(Inverse(a), a)
  {
  }

  /** Converting under the inverse orientation undoes the conversion. */
  lemma ConvertOfInverse(o: Orientation, size: Size, p: Point)
    ensures Convert(Inverse(o), OrientedSize(size, o), Convert(o, size, p)) == p
  {
    ConvertOfApply(Inverse(o), o, size, p);
    ApplyIsGroup(o, o, o);
  }
}
