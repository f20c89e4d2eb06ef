/**
 * The plain bounded queue that the audio ring buffer stands for. One writer and one
 * reader use it in two phases each: they first fix how many samples they will move,
 * then make the move visible.
 */
module Fifo {
  import opened Common
  import opened AudioBuffer

  /** A sample that left the queue, either handed to a reader or dropped. */
  datatype Gone = Gone(sample: Sample, delivered: bool)

  datatype State = State(
    capacity: nat,
    queue: seq<Sample>,
    writing: seq<Sample>,    // accepted by the writer, not visible yet
    reading: nat,            // number of samples the reader is consuming
    published: seq<Sample>,  // history: every sample ever made visible
    gone: seq<Gone>          // history: every sample that left the queue
  ) {
    predicate Valid() {
      |queue| + |writing| <= capacity && reading <= |queue|
    }

    function Free(): nat
      requires Valid()
    {
      capacity - |queue|
    }
  }

  datatype Action =
    | Skip
    | BeginWrite(src: seq<Sample>)
    | Publish
    | BeginRead(count: nat)
    | Retire(deliver: bool)

  function Init(capacity: nat): State {
    State(capacity, [], [], 0, [], [])
  }

  function Mark(s: seq<Sample>, delivered: bool): (r: seq<Gone>)
    ensures |r| == |s| && forall i | 0 <= i < |s| :: r[i] == Gone(s[i], delivered)
  {
    seq(|s|, i requires 0 <= i < |s| => Gone(s[i], delivered))
  }

  function Step(s: State, a: Action): (r: State)
    requires s.Valid()
    ensures r.Valid() && r.capacity == s.capacity
  {
    match a
    case Skip => s
    case BeginWrite(src) => s.(writing := src[..Min(|src|, s.Free())])
    case Publish => s.(queue := s.queue + s.writing, published := s.published + s.writing, writing := [])
    case BeginRead(count) => s.(reading := Min(count, |s.queue|))
    case Retire(deliver) =>
      s.(queue := s.queue[s.reading..], gone := s.gone + Mark(s.queue[..s.reading], deliver), reading := 0)
  }

  function Run(capacity: nat, actions: seq<Action>): (r: State)
    ensures r.Valid() && r.capacity == capacity
  {
    if actions == [] then Init(capacity) else Step(Run(capacity, DropLast(actions)), Last(actions))
  }

  ghost function Samples(g: seq<Gone>): (r: seq<Sample>)
    ensures |r| == |g| && forall i | 0 <= i < |g| :: r[i] == g[i].sample
  {
    seq(|g|, i requires 0 <= i < |g| => g[i].sample)
  }

  /** The samples handed to readers, in the order in which they were handed. */
  ghost function Delivered(g: seq<Gone>): seq<Sample> {
    if g == [] then [] else Delivered(DropLast(g)) + (if Last(g).delivered then [Last(g).sample] else [])
  }

  ghost function SkippedCount(g: seq<Gone>): nat {
    if g == [] then 0 else SkippedCount(DropLast(g)) + (if Last(g).delivered then 0 else 1)
  }

  /** First in, first out: nothing is lost, duplicated or reordered. */
  ghost predicate InOrder(s: State) {
    s.published == Samples(s.gone) + s.queue
  }

  lemma StepKeepsOrder(s: State, a: Action)
    requires s.Valid() && InOrder(s)
    ensures InOrder(Step(s, a))
  {
    if a.Retire? {
      assert s.queue == s.queue[..s.reading] + s.queue[s.reading..];
    }
  }

  lemma {:induction false} RunKeepsOrder(capacity: nat, actions: seq<Action>)
    ensures InOrder(Run(capacity, actions))
  {
    if actions != [] {
      RunKeepsOrder(capacity, DropLast(actions));
      StepKeepsOrder(Run(capacity, DropLast(actions)), Last(actions));
    }
  }

  /** Delivered samples are an in-order selection of the published ones, and every sample is accounted for. */
  lemma {:induction false} DeliveredInOrder(g: seq<Gone>)
    ensures Subsequence(Delivered(g), Samples(g))
    ensures |Delivered(g)| + SkippedCount(g) == |g|
  {
    if g != [] {
      DeliveredInOrder(DropLast(g));
      assert DropLast(Samples(g)) == Samples(DropLast(g));
      if Last(g).delivered {
        assert DropLast(Delivered(g)) == Delivered(DropLast(g));
      } else {
        assert Delivered(g) == Delivered(DropLast(g));
      }
    }
  }

  lemma {:induction false} DeliveredMark(g: seq<Gone>, s: seq<Sample>, delivered: bool)
    ensures Delivered(g + Mark(s, delivered)) == Delivered(g) + (if delivered then s else [])
    ensures SkippedCount(g + Mark(s, delivered)) == SkippedCount(g) + (if delivered then 0 else |s|)
    decreases |s|
  {
    if s == [] {
      assert g + Mark(s, delivered) == g;
    } else {
      var m := g + Mark(s, delivered);
      assert DropLast(m) == g + Mark(DropLast(s), delivered);
      DeliveredMark(g, DropLast(s), delivered);
      assert s == DropLast(s) + [Last(s)];
    }
  }

  /**
   * Over any run: the published samples are the delivered ones, the skipped ones and
   * the ones still queued, and what was delivered is an in-order selection of what was published.
   */
  lemma {:induction false} RunConservesSamples(capacity: nat, actions: seq<Action>)
    ensures var s := Run(capacity, actions);
            && |s.published| == |Delivered(s.gone)| + SkippedCount(s.gone) + |s.queue|
            && Subsequence(Delivered(s.gone), s.published)
            && |s.queue| <= capacity
  {
    var s := Run(capacity, actions);
    RunKeepsOrder(capacity, actions);
    ConservesSamples(s);
  }

  lemma ConservesSamples(s: State)
    requires s.Valid() && InOrder(s)
    ensures |s.published| == |Delivered(s.gone)| + SkippedCount(s.gone) + |s.queue|
    ensures Subsequence(Delivered(s.gone), s.published)
  {
    DeliveredInOrder(s.gone);
    SubsequenceOfLonger(Delivered(s.gone), Samples(s.gone), s.queue);
  }
}
