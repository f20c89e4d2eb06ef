/**
 * The cursor arithmetic and the sequential operations of the audio ring buffer
 * (app/src/util/audiobuf.c).
 *
 * A sample of sample_size bytes is one value of type Sample; silence is SILENCE.
 */
module AudioBuffer {
  import opened Common
  import opened Memory

  type Sample = int
  const SILENCE: Sample := 0

  const U32_MODULUS := 0x1_0000_0000
  // The largest allocation for which the uint32_t cursor arithmetic is exact.
  const MAX_ALLOC := 0x8000_0000

  /** Unsigned 32-bit wrap-around. */
  function U32(x: int): (r: nat)
    ensures r < U32_MODULUS
    ensures 0 <= x < U32_MODULUS ==> r == x
  {
    x % U32_MODULUS
  }

  function CanRead(alloc: nat, head: nat, tail: nat): nat
    requires alloc > 0
  {
    U32(alloc + head - tail) % alloc
  }

  function CanWrite(alloc: nat, head: nat, tail: nat): nat
    requires alloc > 0
  {
    U32(alloc + tail - head - 1) % alloc
  }

  function Advance(alloc: nat, cursor: nat, count: nat): nat
    requires alloc > 0
  {
    U32(cursor + count) % alloc
  }

  /** The cell that is i places after cell `from`, going around the ring. */
  function Cell(alloc: nat, from: nat, i: nat): (c: nat)
    requires from < alloc && i <= alloc
    ensures c < alloc
  {
    if from + i < alloc then from + i else from + i - alloc
  }

  /** The number of cells from the reader cursor up to the writer cursor. */
  function Distance(alloc: nat, head: nat, tail: nat): (d: nat)
    requires head < alloc && tail < alloc
    ensures d < alloc
    ensures Cell(alloc, tail, d) == head
  {
    if head >= tail then head - tail else alloc + head - tail
  }

  lemma ModAlloc(x: nat, alloc: nat)
    requires 0 < alloc && x < 2 * alloc
    ensures x % alloc == if x < alloc then x else x - alloc
  {
    if x >= alloc {
      assert x == alloc * 1 + (x - alloc);
    }
  }

  /** Within MAX_ALLOC, the wrapping arithmetic computes what it is meant to. */
  lemma CursorArithmetic(alloc: nat, head: nat, tail: nat)
    requires head < alloc && tail < alloc && alloc <= MAX_ALLOC
    ensures CanRead(alloc, head, tail) == Distance(alloc, head, tail)
    ensures CanWrite(alloc, head, tail) == alloc - 1 - Distance(alloc, head, tail)
    ensures forall n: nat {:trigger Advance(alloc, head, n)} | n < alloc :: Advance(alloc, head, n) == Cell(alloc, head, n)
    ensures forall n: nat {:trigger Advance(alloc, tail, n)} | n < alloc :: Advance(alloc, tail, n) == Cell(alloc, tail, n)
  {
    ModAlloc(alloc + head - tail, alloc);
    ModAlloc(alloc + tail - head - 1, alloc);
    forall n: nat | n < alloc
      ensures Advance(alloc, head, n) == Cell(alloc, head, n)
      ensures Advance(alloc, tail, n) == Cell(alloc, tail, n)
    {
      ModAlloc(head + n, alloc);
      ModAlloc(tail + n, alloc);
    }
  }

  /**
   * The uint32_t expression for the number of readable samples is right for every
   * position of the cursors exactly when the allocation is at most MAX_ALLOC.
   */
  lemma CanReadIsExactIff(alloc: nat)
    requires 0 < alloc < U32_MODULUS
    ensures (forall head: nat, tail: nat | head < alloc && tail < alloc :: CanRead(alloc, head, tail) == Distance(alloc, head, tail))
       <==> alloc <= MAX_ALLOC
  {
    if alloc <= MAX_ALLOC {
      forall head: nat, tail: nat | head < alloc && tail < alloc
        ensures CanRead(alloc, head, tail) == Distance(alloc, head, tail)
      {
        CursorArithmetic(alloc, head, tail);
      }
    } else {
      var wrapped := 2 * alloc - 1 - U32_MODULUS;
      assert alloc + (alloc - 1) - 0 == U32_MODULUS * 1 + wrapped;
      assert U32(alloc + (alloc - 1) - 0) == wrapped;
      ModAlloc(wrapped, alloc);
      assert CanRead(alloc, alloc - 1, 0) != Distance(alloc, alloc - 1, 0);
    }
  }

  /** The n cells of the ring that start at cell `from`. */
  ghost function Window<T>(cells: seq<T>, from: nat, n: nat): (w: seq<T>)
    requires from < |cells| && n <= |cells|
    ensures |w| == n
    ensures forall i | 0 <= i < n :: w[i] == cells[Cell(|cells|, from, i)]
  {
    seq(n, i requires 0 <= i < n => cells[Cell(|cells|, from, i)])
  }

  /** The ring is read and written as at most two contiguous blocks. */
  lemma WindowIsTwoBlocks<T>(cells: seq<T>, from: nat, n: nat)
    requires from < |cells| && n <= |cells|
    ensures var right := Min(n, |cells| - from);
            Window(cells, from, n) == cells[from..from + right] + cells[..n - right]
  {
  }

  lemma WindowSplit<T>(cells: seq<T>, from: nat, a: nat, b: nat)
    requires from < |cells| && a + b <= |cells|
    ensures Window(cells, from, a + b) == Window(cells, from, a) + Window(cells, Cell(|cells|, from, a), b)
  {
  }

  /** memset(dst + dstOff, 0, count) */
  method FillSilence(dst: array<Sample>, dstOff: nat, count: nat)
    requires dstOff + count <= dst.Length
    modifies dst
    ensures dst[..] == Splice(old(dst[..]), dstOff, Silence(count))
  {
    hide Splice;
    SpliceNothing(dst[..], dstOff);
    var i := 0;
    while i < count
      invariant 0 <= i <= count
      invariant dst[..] == Splice(old(dst[..]), dstOff, Silence(i))
    {
      SpliceOneMore(old(dst[..]), dstOff, Silence(i), SILENCE);
      assert Silence(i + 1) == Silence(i) + [SILENCE];
      dst[dstOff + i] := SILENCE;
      i := i + 1;
    }
  }

  function Silence(n: nat): (s: seq<Sample>)
    ensures |s| == n && forall i | 0 <= i < n :: s[i] == SILENCE
  {
    seq(n, i => SILENCE)
  }

  /** What the cells hold once `written` has been stored around the ring from cell `head` on. */
  ghost function Stored<T>(cells: seq<T>, head: nat, written: seq<T>): (r: seq<T>)
    requires head < |cells| && |written| < |cells|
    ensures |r| == |cells|
  {
    var right := Min(|written|, |cells| - head);
    Splice(Splice(cells, head, written[..right]), 0, written[right..])
  }

  lemma StoredAt<T>(cells: seq<T>, head: nat, written: seq<T>, c: nat)
    requires head < |cells| && |written| < |cells| && c < |cells|
    ensures Stored(cells, head, written)[c] ==
            if head <= c < head + |written| then written[c - head]
            else if c + |cells| < head + |written| then written[c + |cells| - head]
            else cells[c]
  {
  }

  /** A write appends to the buffered samples and changes none of them. */
  lemma WindowAfterStore<T>(cells: seq<T>, tail: nat, d: nat, written: seq<T>)
    requires tail < |cells| && d + |written| < |cells|
    ensures Window(Stored(cells, Cell(|cells|, tail, d), written), tail, d + |written|)
         == Window(cells, tail, d) + written
  {
    var alloc := |cells|;
    var head := Cell(alloc, tail, d);
    var after := Stored(cells, head, written);
    var w := Window(after, tail, d + |written|);
    forall i | 0 <= i < d + |written|
      ensures w[i] == (Window(cells, tail, d) + written)[i]
    {
      StoredAt(cells, head, written, Cell(alloc, tail, i));
    }
  }

  /** The first n elements of dst replaced with a window read as two blocks. */
  lemma WindowBySplices<T>(cells: seq<T>, from: nat, n: nat, dst: seq<T>)
    requires from < |cells| && n <= |cells| && n <= |dst|
    ensures var right := Min(n, |cells| - from);
            Splice(Splice(dst, 0, cells[from..from + right]), right, cells[..n - right])
            == Window(cells, from, n) + dst[n..]
  {
    WindowIsTwoBlocks(cells, from, n);
  }

  /** The two memcpy() of a read. */
  method CopyFromRing(to: array<Sample>, data: array<Sample>, tail: nat, count: nat)
    requires to != data && tail < data.Length && count <= data.Length && count <= to.Length
    modifies to
    ensures to[..] == Window(data[..], tail, count) + old(to[..])[count..]
  {
    hide Splice, Window;
    ghost var cells := data[..];
    var rightCount := data.Length - tail;
    if rightCount > count {
      rightCount := count;
    }
    WindowBySplices(cells, tail, count, to[..]);
    CopyBlock(to, 0, data, tail, rightCount);
    if count > rightCount {
      var leftCount := count - rightCount;
      CopyBlock(to, rightCount, data, 0, leftCount);
    } else {
      SpliceNothing(to[..], rightCount);
    }
    assert data[..] == cells;
  }

  /** The two memcpy() of a write. */
  method CopyIntoRing(data: array<Sample>, head: nat, from: array<Sample>, off: nat, count: nat)
    requires from != data && head < data.Length && count < data.Length && off + count <= from.Length
    modifies data
    ensures data[..] == Stored(old(data[..]), head, from[..][off..off + count])
  {
    hide Splice;
    ghost var source := from[..];
    var rightCount := data.Length - head;
    if rightCount > count {
      rightCount := count;
    }
    SliceOfSlice(source, off, count, rightCount);
    CopyBlock(data, head, from, off, rightCount);
    assert from[..] == source;
    if count > rightCount {
      var leftCount := count - rightCount;
      CopyBlock(data, 0, from, off + rightCount, leftCount);
    } else {
      SpliceNothing(data[..], 0);
    }
    assert from[..] == source;
  }

  /** The two memset() of a silence write. */
  method SilenceIntoRing(data: array<Sample>, head: nat, count: nat)
    requires head < data.Length && count < data.Length
    modifies data
    ensures data[..] == Stored(old(data[..]), head, Silence(count))
  {
    hide Splice;
    var rightCount := data.Length - head;
    if rightCount > count {
      rightCount := count;
    }
    assert Silence(count)[..rightCount] == Silence(rightCount);
    assert Silence(count)[rightCount..] == Silence(count - rightCount);
    FillSilence(data, head, rightCount);
    if count > rightCount {
      var leftCount := count - rightCount;
      FillSilence(data, 0, leftCount);
    } else {
      SpliceNothing(data[..], 0);
    }
  }

  /** How far apart the cursors are once one of them has moved. */
  lemma DistanceAfter(alloc: nat, head: nat, tail: nat, n: nat)
    requires head < alloc && tail < alloc
    ensures n <= Distance(alloc, head, tail) ==>
              Distance(alloc, head, Cell(alloc, tail, n)) == Distance(alloc, head, tail) - n
    ensures n < alloc - Distance(alloc, head, tail) ==>
              Distance(alloc, Cell(alloc, head, n), tail) == Distance(alloc, head, tail) + n
  {
  }

  class AudioBuf {
    var data: array<Sample>
    var allocSize: nat
    var head: nat
    var tail: nat

    ghost predicate Valid()
      reads this
    {
      && 2 <= allocSize <= MAX_ALLOC
      && data.Length == allocSize
      && head < allocSize
      && tail < allocSize
    }

    /** The buffered samples, oldest first. */
    ghost function Contents(): (s: seq<Sample>)
      requires Valid()
      reads this, data
    {
      Window(data[..], tail, Distance(allocSize, head, tail))
    }

    ghost function Capacity(): nat
      requires Valid()
      reads this
    {
      allocSize - 1
    }

    /** The arithmetic of the other operations is right for capacities below MAX_ALLOC, and only these. */
    constructor (capacity: nat)
      requires 0 < capacity < U32_MODULUS
      ensures fresh(data) && data.Length == allocSize == U32(capacity + 1) && head == tail == 0
      ensures Valid() <==> capacity < MAX_ALLOC
      ensures Valid() ==> Capacity() == capacity && Contents() == []
    {
      var size := U32(capacity + 1);
      allocSize := size;
      data := new Sample[size];
      head, tail := 0, 0;
    }

    method CountReadable() returns (n: nat)
      requires Valid()
      ensures n == |Contents()|
    {
      CursorArithmetic(allocSize, head, tail);
      n := CanRead(allocSize, head, tail);
    }

    /** Reads into `to`, or only consumes when `to` is null. */
    method Read(to: array?<Sample>, samplesCount: nat) returns (r: nat)
      requires Valid() && samplesCount > 0
      requires to != null ==> to != data && samplesCount <= to.Length
      modifies `tail, if to == null then {} else {to}
      ensures Valid()
      ensures r == Min(samplesCount, |old(Contents())|)
      ensures Contents() == old(Contents())[r..]
      ensures to != null ==> to[..] == old(Contents())[..r] + old(to[..])[r..]
    {
      hide Window, CanRead, CanWrite, Advance, Distance, Cell;
      CursorArithmetic(allocSize, head, tail);
      var canRead := CanRead(allocSize, head, tail);
      if canRead == 0 {
        return 0;
      }
      r := if samplesCount > canRead then canRead else samplesCount;
      WindowSplit(data[..], tail, r, canRead - r);
      DistanceAfter(allocSize, head, tail, r);
      if to != null {
        CopyFromRing(to, data, tail, r);
      }
      tail := Advance(allocSize, tail, r);
    }

    /** Writes as much as fits of the `samplesCount` samples found at `off` in `from`. */
    method Write(from: array<Sample>, off: nat, samplesCount: nat) returns (w: nat)
      requires Valid() && from != data && off + samplesCount <= from.Length
      modifies `head, data
      ensures Valid()
      ensures w == Min(samplesCount, Capacity() - |old(Contents())|)
      ensures Contents() == old(Contents()) + from[..][off..off + w]
    {
      hide Window, Stored, CanRead, CanWrite, Advance, Distance, Cell;
      CursorArithmetic(allocSize, head, tail);
      var canWrite := CanWrite(allocSize, head, tail);
      if canWrite == 0 {
        return 0;
      }
      w := if samplesCount > canWrite then canWrite else samplesCount;
      DistanceAfter(allocSize, head, tail, w);
      WindowAfterStore(data[..], tail, Distance(allocSize, head, tail), from[..][off..off + w]);
      CopyIntoRing(data, head, from, off, w);
      head := Advance(allocSize, head, w);
    }

    method WriteSilence(samplesCount: nat) returns (w: nat)
      requires Valid()
      modifies `head, data
      ensures Valid()
      ensures w == Min(samplesCount, Capacity() - |old(Contents())|)
      ensures Contents() == old(Contents()) + Silence(w)
    {
      hide Window, Stored, CanRead, CanWrite, Advance, Distance, Cell;
      CursorArithmetic(allocSize, head, tail);
      var canWrite := CanWrite(allocSize, head, tail);
      if canWrite == 0 {
        return 0;
      }
      w := if samplesCount > canWrite then canWrite else samplesCount;
      DistanceAfter(allocSize, head, tail, w);
      WindowAfterStore(data[..], tail, Distance(allocSize, head, tail), Silence(w));
      SilenceIntoRing(data, head, w);
      head := Advance(allocSize, head, w);
    }
  }
}
