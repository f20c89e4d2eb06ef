/** Window sizes, content rectangle and coordinates of the screen (app/src/screen.c). */
module ScreenGeometry {
  import opened Common
  import opened Binary
  import opened Coords
  import opened Orientations

  datatype RenderFit = Letterbox | Unscaled | Stretched

  /** The float coordinates are modelled by reals. */
  datatype Rect = Rect(x: real, y: real, w: real, h: real)

  /** q is a / b, truncated. */
  predicate IsFloor(q: nat, a: nat, b: nat) {
    q * b <= a < (q + 1) * b
  }

  function Quotient(a: nat, b: nat): (q: nat)
    requires b > 0
    ensures IsFloor(q, a, b)
  {
    a / b
  }

  lemma QuotientIsUnique(q: nat, a: nat, b: nat)
    requires b > 0 && IsFloor(q, a, b)
    ensures q == Quotient(a, b)
  {
    hide Quotient;
    var d := Quotient(a, b);
    if q < d {
      MulMonotone(q + 1, d, b);
    } else if q > d {
      MulMonotone(d + 1, q, b);
    }
  }

  lemma QuotientAtMost(a: nat, b: nat, limit: nat)
    requires b > 0 && a <= limit * b
    ensures Quotient(a, b) <= limit
  {
    hide Quotient;
    if Quotient(a, b) > limit {
      MulMonotone(limit + 1, Quotient(a, b), b);
    }
  }

  /** The product of two 16-bit values, computed on 32 bits: it never wraps. */
  function Mul32(a: U16, b: U16): (r: U32)
    ensures r == a * b
  {
    MulMonotone(a, 0xFFFF, b);
    Wrap32(a * b)
  }

  function Wrap32(v: nat): (r: U32)
    ensures v < 0x1_0000_0000 ==> r == v
  {
    v % 0x1_0000_0000
  }

  /** The assignment of a value to a uint16_t. */
  function Narrow16(v: nat): (r: U16)
    ensures v < 0x1_0000 ==> r == v
  {
    v % 0x1_0000
  }

  predicate IsNonEmpty(s: Size) {
    s.width > 0 && s.height > 0
  }

  predicate IsOptimalSize(current: Size, content: Size)
    requires IsNonEmpty(content)
  {
    || current.height == Quotient(Mul32(current.width, content.height), content.width)
    || current.width == Quotient(Mul32(current.height, content.width), content.height)
  }

  /** Whether the width is the constraint: the content touches the left and right sides. */
  predicate KeepWidth(window: Size, content: Size) {
    Mul32(content.width, window.height) > Mul32(content.height, window.width)
  }

  function Clip(size: Size, bounds: Option<Size>): Size {
    match bounds
    case None => size
    case Some(b) => Size(Min(size.width, b.width), Min(size.height, b.height))
  }

  /** `bounds` are the preferred display bounds, if they apply and are known. */
  function OptimalSize(current: Size, content: Size, bounds: Option<Size>): Size {
    if !IsNonEmpty(content) then
      current // avoid division by 0
    else
      var window := Clip(current, bounds);
      if IsOptimalSize(window, content) then
        window
      else if KeepWidth(window, content) then
        Size(window.width, Narrow16(Quotient(Mul32(content.height, window.width), content.width)))
      else
        Size(Narrow16(Quotient(Mul32(content.width, window.height), content.height)), window.height)
  }

  /** A size is optimal when one of its dimensions is the exact one for the other, truncated. */
  lemma IsOptimalSizeIff(current: Size, content: Size)
    requires IsNonEmpty(content)
    ensures IsOptimalSize(current, content)
      <==> || IsFloor(current.height, current.width * content.height, content.width)
           || IsFloor(current.width, current.height * content.width, content.height)
  {
    hide Quotient, Mul32;
    if IsFloor(current.height, current.width * content.height, content.width) {
      QuotientIsUnique(current.height, current.width * content.height, content.width);
    }
    if IsFloor(current.width, current.height * content.width, content.height) {
      QuotientIsUnique(current.width, current.height * content.width, content.height);
    }
  }

  /** The result stays within `window`, keeps one of its dimensions, and is optimal. */
  ghost predicate CropsTo(window: Size, content: Size, r: Size)
    requires IsNonEmpty(content)
  {
    && r.width <= window.width && r.height <= window.height
    && (r.width == window.width || r.height == window.height)
    && IsOptimalSize(r, content)
  }

  /**
   * The optimal size only crops the black borders of the window, once within the bounds, so
   * the asserts of the caller hold; as it is optimal, computing it again changes nothing.
   */
  lemma OptimalSizeCrops(current: Size, content: Size, bounds: Option<Size>)
    requires IsNonEmpty(content)
    ensures var r := OptimalSize(current, content, bounds);
            && CropsTo(Clip(current, bounds), content, r)
            && OptimalSize(r, content, bounds) == r
  {
    hide Quotient, Mul32, Narrow16;
    var window := Clip(current, bounds);
    if !IsOptimalSize(window, content) {
      if KeepWidth(window, content) {
        QuotientAtMost(Mul32(content.height, window.width), content.width, window.height);
      } else {
        QuotientAtMost(Mul32(content.width, window.height), content.height, window.width);
      }
    }
  }

  /**
   * When the window has to be cropped, the new dimension is less than one pixel below the
   * one that keeps the aspect ratio exactly.
   */
  lemma CroppedDimensionIsFloor(current: Size, content: Size, bounds: Option<Size>)
    requires IsNonEmpty(content)
    requires !IsOptimalSize(Clip(current, bounds), content)
    ensures var r, window := OptimalSize(current, content, bounds), Clip(current, bounds);
            if content.width * window.height > content.height * window.width
            then r.width == window.width && IsFloor(r.height, r.width * content.height, content.width)
            else r.height == window.height && IsFloor(r.width, r.height * content.width, content.height)
  {
    hide Quotient, Mul32, Narrow16;
    OptimalSizeCrops(current, content, bounds);
    var window := Clip(current, bounds);
    if KeepWidth(window, content) {
      QuotientAtMost(Mul32(content.height, window.width), content.width, window.height);
    } else {
      QuotientAtMost(Mul32(content.width, window.height), content.height, window.width);
    }
  }

  /** The windows, not empty, that are cropped down to nothing. */
  lemma OptimalSizeVanishesIff(current: Size, content: Size)
    requires IsNonEmpty(content) && IsNonEmpty(current)
    ensures !IsNonEmpty(OptimalSize(current, content, None))
      <==> && !IsOptimalSize(current, content)
           && (current.width * content.height < content.width
               || current.height * content.width < content.height)
  {
    hide Quotient, Mul32, Narrow16, IsFloor, IsOptimalSize;
    var r := OptimalSize(current, content, None);
    if !IsOptimalSize(current, content) {
      CroppedDimensionIsFloor(current, content, None);
      MulMonotone(1, current.width, content.height);
      MulMonotone(1, current.height, content.width);
      if content.width * current.height > content.height * current.width {
        ZeroQuotientIff(r.height, r.width * content.height, content.width);
      } else {
        ZeroQuotientIff(r.width, r.height * content.width, content.height);
      }
    }
  }

  lemma ZeroQuotientIff(q: nat, a: nat, b: nat)
    requires b > 0
    ensures IsFloor(q, a, b) ==> (q == 0 <==> a < b)
  {
    if IsFloor(q, a, b) && q > 0 {
      MulMonotone(1, q, b);
    }
  }

  /** A length scaled by the ratio of two lengths. */
  function Fitted(length: U16, to: U16, from: U16): (r: real)
    requires from > 0
    ensures r * from as real == length as real * to as real
  {
    length as real * to as real / from as real
  }

  /** Where the content is displayed, by keeping its aspect ratio. */
  function LetterboxRect(window: Size, content: Size): Rect
    requires IsNonEmpty(content)
  {
    var (w, h) := (window.width as real, window.height as real);
    if IsOptimalSize(window, content) then
      Rect(0.0, 0.0, w, h)
    else if KeepWidth(window, content) then
      var fitted := Fitted(window.width, content.height, content.width);
      Rect(0.0, (h - fitted) / 2.0, w, fitted)
    else
      var fitted := Fitted(window.height, content.width, content.height);
      Rect((w - fitted) / 2.0, 0.0, fitted, h)
  }

  /** Where the content is displayed in the window. */
  function ContentRect(window: Size, content: Size, isIcon: bool, fit: RenderFit): Rect
    requires isIcon || fit.Letterbox? ==> IsNonEmpty(content)
  {
    var (x, y) := ((window.width as real - content.width as real) / 2.0,
                   (window.height as real - content.height as real) / 2.0);
    if isIcon && content.width <= window.width && content.height <= window.height then
      Rect(x, y, content.width as real, content.height as real)
    else if !isIcon && fit.Unscaled? then
      Rect(NonNegative(x), NonNegative(y), content.width as real, content.height as real)
    else if !isIcon && fit.Stretched? then
      Rect(0.0, 0.0, window.width as real, window.height as real)
    else
      LetterboxRect(window, content)
  }

  /** The scaled length is positive, and below any limit whose product is above. */
  lemma FittedIsInside(length: U16, to: U16, from: U16, limit: U16)
    requires from > 0 && to > 0 && length * to <= limit * from
    ensures 0.0 <= Fitted(length, to, from) <= limit as real
    ensures length > 0 ==> Fitted(length, to, from) > 0.0
  {
    hide Fitted;
    var r := Fitted(length, to, from);
    ProductsAsReals(length, to);
    ProductsAsReals(limit, from);
    if r > limit as real {
      RealMulBelow(limit as real, r, from as real);
    } else if r < 0.0 {
      RealMulBelow(r, 0.0, from as real);
    }
    if length > 0 {
      MulMonotone(1, length, to);
    }
  }

  lemma ProductsAsReals(a: U16, b: U16)
    ensures (a * b) as real == a as real * b as real
  {
  }

  /** The content rectangle is centered in the window, of which it touches two opposite sides. */
  ghost predicate IsCentered(rect: Rect, window: Size) {
    && 0.0 <= rect.x && 2.0 * rect.x + rect.w == window.width as real
    && 0.0 <= rect.y && 2.0 * rect.y + rect.h == window.height as real
  }

  ghost predicate HasRatio(width: real, height: real, content: Size) {
    width * content.height as real == height * content.width as real
  }

  lemma LetterboxFits(window: Size, content: Size)
    requires IsNonEmpty(content)
    ensures var rect := LetterboxRect(window, content);
            && IsCentered(rect, window)
            && (rect.w == window.width as real || rect.h == window.height as real)
            && (IsNonEmpty(window) ==> rect.w > 0.0 && rect.h > 0.0)
            && (IsOptimalSize(window, content) || HasRatio(rect.w, rect.h, content))
  {
    hide Quotient, Mul32, IsOptimalSize, Fitted;
    if !IsOptimalSize(window, content) {
      if KeepWidth(window, content) {
        FittedIsInside(window.width, content.height, content.width, window.height);
      } else {
        FittedIsInside(window.height, content.width, content.height, window.width);
      }
    }
  }

  /**
   * Whatever the mode, the content rectangle is not empty, so that coordinates can be converted
   * back, and it is centered unless a larger content is displayed unscaled, from its origin.
   */
  lemma ContentRectIsUsable(window: Size, content: Size, isIcon: bool, fit: RenderFit)
    requires IsNonEmpty(window) && IsNonEmpty(content)
    ensures var rect := ContentRect(window, content, isIcon, fit);
            && rect.w > 0.0 && rect.h > 0.0
            && if !isIcon && fit.Unscaled?
                  && (content.width > window.width || content.height > window.height)
               then (content.width >= window.width ==> rect.x == 0.0)
                 && (content.height >= window.height ==> rect.y == 0.0)
               else IsCentered(rect, window)
  {
    hide LetterboxRect;
    LetterboxFits(window, content);
  }

  /** An icon is never scaled up: it has its own size if it fits, and is scaled down otherwise. */
  lemma IconIsNotScaledUp(window: Size, content: Size, fit: RenderFit)
    requires IsNonEmpty(content)
    ensures var rect := ContentRect(window, content, true, fit);
            && rect.w <= content.width as real && rect.h <= content.height as real
            && (content.width <= window.width && content.height <= window.height ==>
                  rect.w == content.width as real && rect.h == content.height as real)
            && rect.w <= window.width as real && rect.h <= window.height as real
  {
    hide LetterboxRect;
    if content.width > window.width || content.height > window.height {
      LetterboxIsSmaller(window, content);
    }
  }

  lemma LetterboxIsSmaller(window: Size, content: Size)
    requires IsNonEmpty(content) && (content.width > window.width || content.height > window.height)
    ensures var rect := LetterboxRect(window, content);
            rect.w <= content.width as real && rect.h <= content.height as real
    ensures var rect := LetterboxRect(window, content);
            rect.w <= window.width as real && rect.h <= window.height as real
  {
    hide Fitted, IsOptimalSize, Quotient, Mul32;
    LetterboxFits(window, content);
    if IsOptimalSize(window, content) {
      OptimalIsSmaller(window, content);
    } else if KeepWidth(window, content) {
      if content.width < window.width { MulMonotone(content.width, window.width, content.height); }
      FittedIsInside(window.width, content.height, content.width, window.height);
      SmallerScale(window.width, content.height, content.width, window.height);
    } else {
      FittedIsInside(window.height, content.width, content.height, window.width);
      SmallerScale(window.height, content.width, content.height, window.width);
    }
  }

  /** Scaling by a ratio that is at most 1. */
  lemma SmallerScale(length: U16, to: U16, from: U16, limit: U16)
    requires from > 0 && to > 0 && length * to <= limit * from && (from > length || to > limit)
    ensures length <= from && Fitted(length, to, from) <= to as real
  {
    hide Fitted;
    if length > from {
      MulMonotone(limit + 1, to, from);
      MulMonotone(from, length, to);
      assert false;
    }
    MulMonotone(length, from, to);
    FittedIsInside(length, to, from, to);
  }

  lemma OptimalIsSmaller(window: Size, content: Size)
    requires IsNonEmpty(content) && IsOptimalSize(window, content)
    requires content.width > window.width || content.height > window.height
    ensures window.width <= content.width && window.height <= content.height
  {
    hide Quotient, Mul32, IsFloor;
    IsOptimalSizeIff(window, content);
    if window.height > content.height {
      FloorKeepsOrder(window.height, window.width, content.height, content.width);
      FloorKeepsStrictOrder(window.width, window.height, content.width, content.height);
    } else {
      FloorKeepsOrder(window.width, window.height, content.width, content.height);
      FloorKeepsStrictOrder(window.height, window.width, content.height, content.width);
    }
  }

  /** A length scaled down by to / from is at most `to`. */
  lemma FloorKeepsOrder(q: nat, length: nat, to: nat, from: nat)
    ensures IsFloor(q, length * to, from) && from > 0 && length <= from ==> q <= to
  {
    if IsFloor(q, length * to, from) && from > 0 && length <= from && q > to {
      MulMonotone(length, from, to);
      MulMonotone(to + 1, q, from);
      assert false;
    }
  }

  lemma FloorKeepsStrictOrder(q: nat, length: nat, to: nat, from: nat)
    ensures IsFloor(q, length * to, from) && from > 0 && length >= from ==> q >= to
  {
    if IsFloor(q, length * to, from) && from > 0 && length >= from && q < to {
      MulMonotone(from, length, to);
      MulMonotone(q + 1, to, from);
      assert false;
    }
  }

  /** Each mode displays the content at its own size, over the whole window, or letterboxed. */
  lemma ContentRectHasSize(window: Size, content: Size, fit: RenderFit)
    requires IsNonEmpty(content)
    ensures var rect := ContentRect(window, content, false, fit);
            match fit
            case Unscaled => rect.w == content.width as real && rect.h == content.height as real
            case Stretched => rect == Rect(0.0, 0.0, window.width as real, window.height as real)
            case Letterbox => IsOptimalSize(window, content) || HasRatio(rect.w, rect.h, content)
  {
    hide LetterboxRect, IsOptimalSize, HasRatio;
    LetterboxFits(window, content);
  }

  lemma SameRatioSameOrder(a: Rect, b: Rect, content: Size)
    requires IsNonEmpty(content)
    requires HasRatio(a.w, a.h, content) && HasRatio(b.w, b.h, content)
    ensures a.w <= b.w <==> a.h <= b.h
  {
    CrossProductsOrder(a.w, a.h, b.w, b.h, content.width as real, content.height as real);
  }

  lemma CrossProductsOrder(aw: real, ah: real, bw: real, bh: real, cw: real, ch: real)
    requires cw > 0.0 && ch > 0.0 && aw * ch == ah * cw && bw * ch == bh * cw
    ensures aw <= bw <==> ah <= bh
  {
    ProductsOrder(aw, bw, ch);
    ProductsOrder(ah, bh, cw);
  }

  lemma ProductsOrder(a: real, b: real, w: real)
    requires w > 0.0
    ensures a * w <= b * w <==> a <= b
  {
    if a > b {
      RealMulBelow(b, a, w);
    } else {
      RealMulAtMost(a, b, w);
    }
  }

  /** Any other rectangle of the aspect ratio of the content that fits in the window is smaller. */
  lemma LetterboxIsLargest(window: Size, content: Size, other: Rect)
    requires IsNonEmpty(content) && HasRatio(other.w, other.h, content)
    requires other.w <= window.width as real && other.h <= window.height as real
    ensures var rect := LetterboxRect(window, content); other.w <= rect.w && other.h <= rect.h
  {
    hide HasRatio, LetterboxRect, IsOptimalSize;
    LetterboxFits(window, content);
    if IsOptimalSize(window, content) {
      OptimalRect(window, content);
    } else {
      SameRatioSameOrder(other, LetterboxRect(window, content), content);
    }
  }

  lemma OptimalRect(window: Size, content: Size)
    requires IsNonEmpty(content) && IsOptimalSize(window, content)
    ensures LetterboxRect(window, content) == Rect(0.0, 0.0, window.width as real, window.height as real)
  {
  }

  /** One coordinate, from the window to the content: both conversions to integers truncate. */
  function Scale(p: int, origin: real, length: real, content: U16): int
    requires length > 0.0
  {
    Truncate((Truncate(p as real - origin) * content) as real / length)
  }

  /** The distance from the origin, truncated, times the ratio of the lengths, truncated. */
  lemma ScaleIs(p: int, origin: real, length: real, content: U16)
    requires length > 0.0 && origin <= p as real
    ensures var t := (p as real - origin).Floor;
            var q := Scale(p, origin, length, content) as real;
            Times(q, length) <= (t * content) as real < Times(q, length) + length
  {
    var t := Truncate(p as real - origin);
    MulMonotone(0, t, content);
    var product := (t * content) as real;
    RatioTimes(product, length);
    var ratio := product / length;
    FloorTimes(Truncate(ratio) as real, ratio, length);
    hide Times;
  }

  function Times(a: real, b: real): real {
    a * b
  }

  lemma RatioTimes(a: real, b: real)
    requires a >= 0.0 && b > 0.0
    ensures Times(a / b, b) == a && a / b >= 0.0
  {
    var r := a / b;
    assert r * b == a;
    if r < 0.0 {
      RealMulBelow(r, 0.0, b);
    }
  }

  lemma FloorTimes(q: real, r: real, b: real)
    requires b > 0.0 && q <= r < q + 1.0
    ensures Times(q, b) <= Times(r, b) < Times(q, b) + b
  {
    TimesAtMost(q, r, b);
    TimesBelow(r, q + 1.0, b);
    TimesNext(q, q + 1.0, b);
    hide Times;
  }

  lemma TimesAtMost(a: real, b: real, w: real)
    requires a <= b && w > 0.0
    ensures Times(a, w) <= Times(b, w)
  {
    RealMulAtMost(a, b, w);
  }

  lemma TimesBelow(a: real, b: real, w: real)
    requires a < b && w > 0.0
    ensures Times(a, w) < Times(b, w)
  {
    RealMulBelow(a, b, w);
  }

  lemma TimesNext(q: real, next: real, b: real)
    requires next == q + 1.0
    ensures Times(next, b) == Times(q, b) + b
  {
  }

  /** The position in the frame of a point of the window. */
  function ToFrame(o: Orientation, content: Size, rect: Rect, p: Point): Point
    requires rect.w > 0.0 && rect.h > 0.0
  {
    Convert(o, content, Point(Scale(p.x, rect.x, rect.w, content.width),
                              Scale(p.y, rect.y, rect.h, content.height)))
  }

  /** The conversion from the window is compatible with the composition of the orientations. */
  lemma ToFrameOfApply(s: Orientation, t: Orientation, content: Size, rect: Rect, p: Point)
    requires rect.w > 0.0 && rect.h > 0.0
    ensures ToFrame(Apply(s, t), content, rect, p)
         == Convert(s, OrientedSize(content, t), ToFrame(t, content, rect, p))
  {
    hide Apply, Convert, Scale;
    ConvertOfApply(s, t, content, Point(Scale(p.x, rect.x, rect.w, content.width),
                                        Scale(p.y, rect.y, rect.h, content.height)));
  }

  /** Whether a coordinate of the window is converted to 0. */
  predicate IsAtOrigin(p: int, origin: real, length: real, content: U16)
    requires length > 0.0
  {
    (Truncate(p as real - origin) * content) as real < length
  }

  lemma ScaleIsInside(p: int, origin: real, length: real, content: U16)
    requires length > 0.0 && content > 0
    requires origin <= p as real < origin + length
    ensures 0 <= Scale(p, origin, length, content) < content
    ensures Scale(p, origin, length, content) == 0 <==> IsAtOrigin(p, origin, length, content)
  {
    hide Truncate;
    var t := Truncate(p as real - origin);
    assert 0 <= t;
    assert (t * content) as real == t as real * content as real;
    RealMulBelow(t as real, length, content as real);
    QuotientInside((t * content) as real, length, content as real);
  }

  lemma QuotientInside(a: real, b: real, limit: real)
    requires b > 0.0 && 0.0 <= a < limit * b
    ensures 0.0 <= a / b < limit
    ensures a / b < 1.0 <==> a < b
  {
    var q := a / b;
    assert q * b == a;
    if q >= limit {
      RealMulAtMost(limit, q, b);
      assert false;
    }
    if q < 0.0 {
      RealMulBelow(q, 0.0, b);
      assert false;
    }
    if q < 1.0 {
      RealMulBelow(q, 1.0, b);
    } else {
      RealMulAtMost(1.0, q, b);
    }
  }

  /** Whether the orientation reverses the horizontal axis of the window. */
  predicate ReversesX(o: Orientation) {
    || o == ORIENTATION_90 || o == ORIENTATION_180
    || o == ORIENTATION_FLIP_0 || o == ORIENTATION_FLIP_90
  }

  predicate ReversesY(o: Orientation) {
    || o == ORIENTATION_180 || o == ORIENTATION_270
    || o == ORIENTATION_FLIP_90 || o == ORIENTATION_FLIP_180
  }

  /** Where a point strictly inside the content ends up in the frame, whose size is given. */
  lemma ConvertStaysInside(o: Orientation, content: Size, p: Point)
    requires 0 <= p.x < content.width && 0 <= p.y < content.height
    ensures var r, frame := Convert(o, content, p), OrientedSize(content, o);
            && 0 <= r.x <= frame.width && 0 <= r.y <= frame.height
            && (r.x < frame.width && r.y < frame.height
                <==> !(ReversesX(o) && p.x == 0) && !(ReversesY(o) && p.y == 0))
  {
  }

  /**
   * The points of the content rectangle are converted to points of the frame, edges included;
   * they are pixels of the frame unless they are at the origin of an axis that is reversed.
   */
  lemma PointsOfContentAreInFrame(o: Orientation, content: Size, rect: Rect, p: Point)
    requires IsNonEmpty(content) && rect.w > 0.0 && rect.h > 0.0
    requires rect.x <= p.x as real < rect.x + rect.w
    requires rect.y <= p.y as real < rect.y + rect.h
    ensures var r, frame := ToFrame(o, content, rect, p), OrientedSize(content, o);
            && 0 <= r.x <= frame.width && 0 <= r.y <= frame.height
            && (r.x < frame.width && r.y < frame.height
                <==> && !(ReversesX(o) && IsAtOrigin(p.x, rect.x, rect.w, content.width))
                     && !(ReversesY(o) && IsAtOrigin(p.y, rect.y, rect.h, content.height)))
  {
    hide Scale, IsAtOrigin, Convert, ReversesX, ReversesY;
    ScaleIsInside(p.x, rect.x, rect.w, content.width);
    ScaleIsInside(p.y, rect.y, rect.h, content.height);
    ConvertStaysInside(o, content, Point(Scale(p.x, rect.x, rect.w, content.width),
                                         Scale(p.y, rect.y, rect.h, content.height)));
  }

  /** The top-left corner of a window upside down is outside the pixels of the frame. */
  lemma CornerExample()
    ensures var size := Size(100, 50);
            && ContentRect(size, size, false, Letterbox) == Rect(0.0, 0.0, 100.0, 50.0)
            && ToFrame(ORIENTATION_180, size, Rect(0.0, 0.0, 100.0, 50.0), Point(0, 0)) == Point(100, 50)
  {
    var size := Size(100, 50);
    QuotientIsUnique(50, 5000, 100);
    assert IsOptimalSize(size, size);
  }
}
