/**
 * The audio ring buffer shared by one writer and one reader without a lock
 * (app/src/util/audiobuf.c). Every atomic load, every copy of one sample and every
 * atomic store is a step, and the steps of the two threads interleave arbitrarily.
 */
module RingConcurrency {
  import opened Common
  import opened AudioBuffer
  import Fifo

  /** Progress of the thread that owns the writer cursor. */
  datatype Writer =
    | WIdle
    | WLoadedHead(src: seq<Sample>, h: nat)
    | WCopying(src: seq<Sample>, h: nat, n: nat, k: nat)
    | WProbing(h: nat)

  /** Progress of the thread that currently owns the reader cursor. */
  datatype Reader =
    | RIdle
    | RLoadedTail(count: nat, keep: bool, t: nat)
    | RCopying(keep: bool, t: nat, n: nat, got: seq<Sample>)
    | RProbing(h: nat)

  /** readable is the answer of the last probe of each side. */
  datatype Ring = Ring(
    cells: seq<Sample>,
    head: nat,
    tail: nat,
    writer: Writer,
    reader: Reader,
    writerSaw: nat,
    readerSaw: nat,
    published: seq<Sample>,    // history
    gone: seq<Fifo.Gone>,      // history
    probed: nat                // history: samples visible when a probing reader loaded head
  )

  datatype Action =
    | StartWrite(src: seq<Sample>)   // loads head
    | StartWriterProbe               // loads head
    | WriterStep
    | StartRead(count: nat, keep: bool)  // loads tail; keep is false for a NULL destination
    | StartReaderProbe               // loads head
    | ReaderStep

  function Init(cells: seq<Sample>): Ring {
    Ring(cells, 0, 0, WIdle, RIdle, 0, 0, [], [], 0)
  }

  /** The k-th sample of a block of n goes to, or comes from, this cell: right block first, then left block. */
  function BlockCell(alloc: nat, cursor: nat, n: nat, k: nat): (c: nat)
    requires cursor < alloc && k < n < alloc
    ensures c == Cell(alloc, cursor, k)
  {
    var rightCount := if alloc - cursor > n then n else alloc - cursor;
    if k < rightCount then cursor + k else k - rightCount
  }

  predicate WellFormed(s: Ring) {
    && 2 <= |s.cells| <= MAX_ALLOC
    && s.head < |s.cells|
    && s.tail < |s.cells|
    && (s.writer.WCopying? ==> s.writer.h < |s.cells| && s.writer.k <= s.writer.n <= |s.writer.src| && s.writer.n < |s.cells|)
    && (s.reader.RCopying? ==> s.reader.t < |s.cells| && |s.reader.got| <= s.reader.n < |s.cells|)
  }

  function WriterStepOf(s: Ring): (r: Ring)
    requires WellFormed(s)
  {
    var alloc := |s.cells|;
    match s.writer
    case WIdle => s
    case WLoadedHead(src, h) =>
      var canWrite := CanWrite(alloc, h, s.tail);  // loads tail
      if canWrite == 0 then s.(writer := WIdle)
      else s.(writer := WCopying(src, h, Min(|src|, canWrite), 0))
    case WCopying(src, h, n, k) =>
      if k < n then
        s.(cells := s.cells[BlockCell(alloc, h, n, k) := src[k]], writer := WCopying(src, h, n, k + 1))
      else
        s.(head := Advance(alloc, h, n), writer := WIdle, published := s.published + src[..n])
    case WProbing(h) =>
      s.(writer := WIdle, writerSaw := CanRead(alloc, h, s.tail))  // loads tail
  }

  function ReaderStepOf(s: Ring): (r: Ring)
    requires WellFormed(s)
  {
    var alloc := |s.cells|;
    match s.reader
    case RIdle => s
    case RLoadedTail(count, keep, t) =>
      var canRead := CanRead(alloc, s.head, t);  // loads head
      if canRead == 0 then s.(reader := RIdle)
      else s.(reader := RCopying(keep, t, Min(count, canRead), []))
    case RCopying(keep, t, n, got) =>
      if keep && |got| < n then
        s.(reader := RCopying(keep, t, n, got + [s.cells[BlockCell(alloc, t, n, |got|)]]))
      else
        var lost := seq(n, i requires 0 <= i < n => s.cells[Cell(alloc, t, i)]);
        s.(tail := Advance(alloc, t, n), reader := RIdle,
           gone := s.gone + Fifo.Mark(if keep then got else lost, keep))
    case RProbing(h) =>
      s.(reader := RIdle, readerSaw := CanRead(alloc, h, s.tail))  // loads tail
  }

  function Step(s: Ring, a: Action): (r: Ring)
    requires WellFormed(s)
  {
    match a
    case StartWrite(src) => if s.writer.WIdle? then s.(writer := WLoadedHead(src, s.head)) else s
    case StartWriterProbe => if s.writer.WIdle? then s.(writer := WProbing(s.head)) else s
    case WriterStep => WriterStepOf(s)
    case StartRead(count, keep) =>
      if s.reader.RIdle? && count > 0 then s.(reader := RLoadedTail(count, keep, s.tail)) else s
    case StartReaderProbe =>
      if s.reader.RIdle? then
        s.(reader := RProbing(s.head), probed := Distance(|s.cells|, s.head, s.tail))
      else s
    case ReaderStep => ReaderStepOf(s)
  }

  ghost function Size(s: Ring): (d: nat)
    requires WellFormed(s)
    ensures d < |s.cells|
  {
    Distance(|s.cells|, s.head, s.tail)
  }

  /** The cells a reader may look at: those between the two cursors. */
  ghost function Visible(s: Ring): (w: seq<Sample>)
    requires WellFormed(s)
  {
    Window(s.cells, s.tail, Size(s))
  }

  ghost predicate WriterInv(s: Ring)
    requires WellFormed(s)
  {
    match s.writer
    case WIdle => true
    case WLoadedHead(_, h) => h == s.head
    case WCopying(src, h, n, k) =>
      && h == s.head
      && Size(s) + n < |s.cells|
      && forall j | 0 <= j < k :: s.cells[Cell(|s.cells|, h, j)] == src[j]
    case WProbing(h) => h == s.head
  }

  ghost predicate ReaderInv(s: Ring)
    requires WellFormed(s)
  {
    match s.reader
    case RIdle => true
    case RLoadedTail(_, _, t) => t == s.tail
    case RCopying(_, t, n, got) =>
      && t == s.tail
      && n <= Size(s)
      && got == Window(s.cells, t, |got|)
    case RProbing(h) =>
      && h < |s.cells|
      && Distance(|s.cells|, h, s.tail) == s.probed <= Size(s)
  }

  ghost predicate Inv(s: Ring) {
    WellFormed(s) && WriterInv(s) && ReaderInv(s)
  }

  /** The queue that a state of the ring stands for. */
  ghost function Abs(s: Ring): Fifo.State
    requires WellFormed(s)
  {
    Fifo.State(
      |s.cells| - 1,
      Visible(s),
      if s.writer.WCopying? then s.writer.src[..s.writer.n] else [],
      if s.reader.RCopying? then s.reader.n else 0,
      s.published,
      s.gone)
  }

  /** What a step of the ring does to the queue. */
  ghost function Lift(s: Ring, a: Action): Fifo.Action
    requires WellFormed(s)
  {
    if a.WriterStep? then
      match s.writer
      case WLoadedHead(src, _) => Fifo.BeginWrite(src)
      case WCopying(_, _, n, k) => if k < n then Fifo.Skip else Fifo.Publish
      case _ => Fifo.Skip
    else if a.ReaderStep? then
      match s.reader
      case RLoadedTail(count, _, _) => Fifo.BeginRead(count)
      case RCopying(keep, _, n, got) => if keep && |got| < n then Fifo.Skip else Fifo.Retire(keep)
      case _ => Fifo.Skip
    else
      Fifo.Skip
  }

  /** Copying one sample touches no visible cell. */
  lemma WriterCopies(s: Ring)
    requires Inv(s) && s.writer.WCopying? && s.writer.k < s.writer.n
    ensures Inv(WriterStepOf(s))
    ensures Visible(WriterStepOf(s)) == Visible(s)
  {
    var alloc := |s.cells|;
    var k := s.writer.k;
    var r := WriterStepOf(s);
    assert forall i | 0 <= i < Size(s) :: Cell(alloc, s.tail, i) != Cell(alloc, s.head, k);
    assert Window(r.cells, s.tail, Size(s)) == Window(s.cells, s.tail, Size(s));
    assert forall j | 0 <= j < k :: Cell(alloc, s.head, j) != Cell(alloc, s.head, k);
    if s.reader.RCopying? {
      assert Window(r.cells, s.tail, |s.reader.got|) == Window(s.cells, s.tail, |s.reader.got|);
    }
  }

  lemma WriterPublishes(s: Ring)
    requires Inv(s) && s.writer.WCopying? && s.writer.k == s.writer.n
    ensures Inv(WriterStepOf(s))
    ensures Visible(WriterStepOf(s)) == Visible(s) + s.writer.src[..s.writer.n]
  {
    var n := s.writer.n;
    CursorArithmetic(|s.cells|, s.head, s.tail);
    WindowSplit(s.cells, s.tail, Size(s), n);
    assert Window(s.cells, s.head, n) == s.writer.src[..n];
    assert Size(WriterStepOf(s)) == Size(s) + n;
  }

  lemma WriterLoadsTail(s: Ring)
    requires Inv(s) && s.writer.WLoadedHead?
    ensures Inv(WriterStepOf(s))
    ensures Abs(WriterStepOf(s)) == Abs(s).(writing := s.writer.src[..Min(|s.writer.src|, |s.cells| - 1 - Size(s))])
  {
    CursorArithmetic(|s.cells|, s.head, s.tail);
  }

  lemma WriterRefines(s: Ring)
    requires Inv(s)
    ensures Inv(WriterStepOf(s)) && Abs(s).Valid()
    ensures Abs(WriterStepOf(s)) == Fifo.Step(Abs(s), Lift(s, WriterStep))
  {
    hide Cell, Distance, CanRead, CanWrite, Window;
    match s.writer
    case WCopying(src, h, n, k) =>
      if k < n {
        WriterCopies(s);
      } else {
        WriterPublishes(s);
      }
    case WLoadedHead(_, _) =>
      WriterLoadsTail(s);
    case _ =>
  }

  lemma AdvancedTail(alloc: nat, head: nat, tail: nat, n: nat)
    requires head < alloc && tail < alloc && alloc <= MAX_ALLOC && n <= Distance(alloc, head, tail)
    ensures Advance(alloc, tail, n) == Cell(alloc, tail, n)
    ensures Distance(alloc, head, Cell(alloc, tail, n)) == Distance(alloc, head, tail) - n
  {
    hide CanRead, CanWrite, Advance;
    CursorArithmetic(alloc, head, tail);
  }

  lemma ReaderRetires(s: Ring)
    requires Inv(s) && s.reader.RCopying? && !(s.reader.keep && |s.reader.got| < s.reader.n)
    ensures Inv(ReaderStepOf(s))
    ensures Visible(ReaderStepOf(s)) == Visible(s)[s.reader.n..]
    ensures ReaderStepOf(s).gone == s.gone + Fifo.Mark(Visible(s)[..s.reader.n], s.reader.keep)
  {
    hide CanRead, CanWrite, Advance, Cell, Distance, Window, Fifo.Mark;
    var n := s.reader.n;
    AdvancedTail(|s.cells|, s.head, s.tail, n);
    WindowSplit(s.cells, s.tail, n, Size(s) - n);
    assert Visible(s)[..n] == Window(s.cells, s.tail, n);
    assert seq(n, i requires 0 <= i < n => s.cells[Cell(|s.cells|, s.tail, i)]) == Window(s.cells, s.tail, n);
  }

  lemma ReaderLoadsHead(s: Ring)
    requires Inv(s) && s.reader.RLoadedTail?
    ensures Inv(ReaderStepOf(s))
    ensures Abs(ReaderStepOf(s)) == Abs(s).(reading := Min(s.reader.count, Size(s)))
  {
    CursorArithmetic(|s.cells|, s.head, s.tail);
  }

  lemma ReaderRetireIsRetire(s: Ring)
    requires Inv(s) && s.reader.RCopying? && !(s.reader.keep && |s.reader.got| < s.reader.n)
    ensures Inv(ReaderStepOf(s)) && Abs(s).Valid()
    ensures Abs(ReaderStepOf(s)) == Fifo.Step(Abs(s), Fifo.Retire(s.reader.keep))
  {
    ReaderRetires(s);
    var f := Abs(s);
    var n := s.reader.n;
    var r := ReaderStepOf(s);
    assert f.queue == Visible(s) && f.reading == n;
    assert Abs(r) == f.(queue := f.queue[n..], gone := f.gone + Fifo.Mark(f.queue[..n], s.reader.keep), reading := 0);
  }

  lemma ReaderRefines(s: Ring)
    requires Inv(s)
    ensures Inv(ReaderStepOf(s)) && Abs(s).Valid()
    ensures Abs(ReaderStepOf(s)) == Fifo.Step(Abs(s), Lift(s, ReaderStep))
  {
    hide Cell, Distance, CanRead, CanWrite, Fifo.Mark;
    match s.reader
    case RCopying(keep, t, n, got) =>
      if !(keep && |got| < n) {
        ReaderRetireIsRetire(s);
      }
    case RLoadedTail(_, _, _) =>
      ReaderLoadsHead(s);
    case _ =>
  }

  /** Every step keeps the invariant and is a step, or no step, of the queue. */
  lemma StepRefines(s: Ring, a: Action)
    requires Inv(s)
    ensures Inv(Step(s, a)) && Abs(s).Valid()
    ensures Abs(Step(s, a)) == Fifo.Step(Abs(s), Lift(s, a))
  {
    if a.WriterStep? {
      WriterRefines(s);
    } else if a.ReaderStep? {
      ReaderRefines(s);
    }
  }

  /** The state after any interleaving. */
  ghost function Run(cells: seq<Sample>, actions: seq<Action>): (s: Ring)
    requires 2 <= |cells| <= MAX_ALLOC
    ensures Inv(s) && |s.cells| == |cells|
  {
    if actions == [] then Init(cells)
    else
      var s := Run(cells, DropLast(actions));
      StepRefines(s, Last(actions));
      Step(s, Last(actions))
  }

  ghost function LiftRun(cells: seq<Sample>, actions: seq<Action>): (r: seq<Fifo.Action>)
    requires 2 <= |cells| <= MAX_ALLOC
  {
    if actions == [] then []
    else LiftRun(cells, DropLast(actions)) + [Lift(Run(cells, DropLast(actions)), Last(actions))]
  }

  /** Refinement: every interleaving of the ring behaves like a run of a FIFO queue of capacity alloc_size - 1. */
  lemma {:induction false} RunRefinesFifo(cells: seq<Sample>, actions: seq<Action>)
    requires 2 <= |cells| <= MAX_ALLOC
    ensures Abs(Run(cells, actions)) == Fifo.Run(|cells| - 1, LiftRun(cells, actions))
  {
    if actions == [] {
      assert Abs(Init(cells)) == Fifo.Init(|cells| - 1);
    } else {
      RunRefinesFifo(cells, DropLast(actions));
      StepRefines(Run(cells, DropLast(actions)), Last(actions));
      var lifted := LiftRun(cells, actions);
      assert DropLast(lifted) == LiftRun(cells, DropLast(actions));
    }
  }

  /**
   * The cells the writer is filling never overlap the cells that are readable, and
   * the cells the reader is copying are readable.
   */
  lemma {:induction false} InFlightCellsAreDisjoint(cells: seq<Sample>, actions: seq<Action>, i: nat, j: nat)
    requires 2 <= |cells| <= MAX_ALLOC
    ensures var s := Run(cells, actions);
            && (s.writer.WCopying? && i < s.writer.n && j < Size(s)
                ==> BlockCell(|cells|, s.writer.h, s.writer.n, i) != Cell(|cells|, s.tail, j))
            && (s.reader.RCopying? && j < s.reader.n
                ==> j < Size(s) && BlockCell(|cells|, s.reader.t, s.reader.n, j) == Cell(|cells|, s.tail, j))
  {
    var s := Run(cells, actions);
    if s.writer.WCopying? && i < s.writer.n && j < Size(s) {
      assert Cell(|cells|, s.head, i) == Cell(|cells|, s.tail, Size(s) + i);
    }
  }

  ghost predicate Conserves(s: Ring)
    requires WellFormed(s)
  {
    && s.published == Fifo.Samples(s.gone) + Visible(s)
    && Subsequence(Fifo.Delivered(s.gone), s.published)
    && |s.published| == |Fifo.Delivered(s.gone)| + Fifo.SkippedCount(s.gone) + Size(s)
  }

  lemma OrderOfAbs(s: Ring, f: Fifo.State)
    requires WellFormed(s) && Abs(s) == f && f.Valid() && Fifo.InOrder(f)
    ensures Conserves(s)
  {
    Fifo.ConservesSamples(f);
  }

  /** What readers were handed is what was written, in order, with nothing duplicated. */
  lemma {:induction false} RunConservesSamples(cells: seq<Sample>, actions: seq<Action>)
    requires 2 <= |cells| <= MAX_ALLOC
    ensures Conserves(Run(cells, actions))
  {
    hide Run, LiftRun;
    RunRefinesFifo(cells, actions);
    var lifted := LiftRun(cells, actions);
    Fifo.RunKeepsOrder(|cells| - 1, lifted);
    OrderOfAbs(Run(cells, actions), Fifo.Run(|cells| - 1, lifted));
  }

  /**
   * sc_audiobuf_can_read() loads two cursors at different times. Called by the writer
   * its answer is the number of samples visible at its last load; called by the
   * reader, the number visible at its first load.
   */
  lemma {:induction false} ProbesAreExact(cells: seq<Sample>, actions: seq<Action>)
    requires 2 <= |cells| <= MAX_ALLOC
    ensures var s := Run(cells, actions);
            && (s.writer.WProbing? ==> Step(s, WriterStep).writerSaw == |Visible(s)|)
            && (s.reader.RProbing? ==> Step(s, ReaderStep).readerSaw == s.probed <= |Visible(s)|)
  {
    var s := Run(cells, actions);
    CursorArithmetic(|s.cells|, s.head, s.tail);
    if s.reader.RProbing? {
      CursorArithmetic(|s.cells|, s.reader.h, s.tail);
    }
  }
}
