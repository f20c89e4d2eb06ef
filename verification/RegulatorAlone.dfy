/**
 * A push or a pull of RegulatorConcurrency that runs without interference does what AudioRegulation
 * says of the methods of the object: the two models of app/src/audio_regulator.c agree.
 */
module RegulatorAlone {
  import opened Common
  import opened AudioBuffer
  import Fifo
  import AudioRegulation
  import opened RegulatorConcurrency

  /** n steps of the pushing thread. */
  function Pushing(m: Mem, target: nat, rate: nat, p: Producer, n: nat): (r: (Mem, Producer))
    requires m.fifo.Valid() && ProducerValid(p)
    ensures r.0.fifo.Valid() && ProducerValid(r.1)
    decreases n
  {
    if n == 0 then (m, p)
    else
      var (m', p') := ProducerNext(m, target, rate, p);
      Pushing(m', target, rate, p', n - 1)
  }

  /** n steps of the pulling thread. */
  function Pulling(m: Mem, target: nat, p: Player, n: nat): (r: (Mem, Player))
    requires m.fifo.Valid()
    ensures r.0.fifo.Valid()
    decreases n
  {
    if n == 0 then (m, p)
    else
      var (m', p') := PlayerNext(m, target, p);
      Pulling(m', target, p', n - 1)
  }

  lemma {:induction false} PushingGoesOn(m: Mem, target: nat, rate: nat, p: Producer, a: nat, b: nat)
    requires m.fifo.Valid() && ProducerValid(p)
    ensures var (m', p') := Pushing(m, target, rate, p, a);
            Pushing(m, target, rate, p, a + b) == Pushing(m', target, rate, p', b)
    decreases a
  {
    hide ProducerNext;
    if a > 0 {
      var (m', p') := ProducerNext(m, target, rate, p);
      PushingGoesOn(m', target, rate, p', a - 1, b);
    }
  }

  lemma {:induction false} PullingGoesOn(m: Mem, target: nat, p: Player, a: nat, b: nat)
    requires m.fifo.Valid()
    ensures var (m', p') := Pulling(m, target, p, a);
            Pulling(m, target, p, a + b) == Pulling(m', target, p', b)
    decreases a
  {
    hide PlayerNext;
    if a > 0 {
      var (m', p') := PlayerNext(m, target, p);
      PullingGoesOn(m', target, p', a - 1, b);
    }
  }

  lemma NextPush(m: Mem, target: nat, rate: nat, p: Producer, k: nat)
    requires m.fifo.Valid() && ProducerValid(p)
    ensures var (m', p') := Pushing(m, target, rate, p, k);
            Pushing(m, target, rate, p, k + 1) == ProducerNext(m', target, rate, p')
  {
    hide ProducerNext;
    PushingGoesOn(m, target, rate, p, k, 1);
    var (m', p') := Pushing(m, target, rate, p, k);
    var (m'', p'') := ProducerNext(m', target, rate, p');
    assert Pushing(m'', target, rate, p'', 0) == (m'', p'');
  }

  lemma NextPull(m: Mem, target: nat, p: Player, k: nat)
    requires m.fifo.Valid()
    ensures var (m', p') := Pulling(m, target, p, k);
            Pulling(m, target, p, k + 1) == PlayerNext(m', target, p')
  {
    hide PlayerNext;
    PullingGoesOn(m, target, p, k, 1);
    var (m', p') := Pulling(m, target, p, k);
    var (m'', p'') := PlayerNext(m', target, p');
    assert Pulling(m'', target, p'', 0) == (m'', p'');
  }

  /** Nobody is in the middle of anything. */
  predicate Quiet(m: Mem) {
    m.fifo.Valid() && m.lock.Free? && m.fifo.writing == [] && m.fifo.reading == 0
  }

  /** The queue of r holds these samples, and the rest of the memory is that of m. */
  predicate Leaves(m: Mem, r: Mem, queue: seq<Sample>) {
    Quiet(r) && r.fifo.queue == queue && r.fifo.capacity == m.fifo.capacity && r == m.(fifo := r.fifo)
  }

  // ---------------------------------------------------------------- a write, then its publication

  lemma WriteAlone(f: Fifo.State, src: seq<Sample>)
    requires f.Valid() && f.writing == []
    ensures var r := Fifo.Step(Fifo.Step(f, Fifo.BeginWrite(src)), Fifo.Publish);
            var n := Min(|src|, f.capacity - |f.queue|);
            && r.queue == f.queue + src[..n] && r.writing == [] && r.reading == f.reading && r.capacity == f.capacity
            && |Fifo.Step(f, Fifo.BeginWrite(src)).writing| == n
  {
  }

  lemma ReadAlone(f: Fifo.State, n: nat, deliver: bool)
    requires f.Valid() && f.writing == []
    ensures var b := Fifo.Step(f, Fifo.BeginRead(n));
            var r := Fifo.Step(b, Fifo.Retire(deliver));
            && b.reading == Min(n, |f.queue|) && b.queue == f.queue
            && r.queue == f.queue[Min(n, |f.queue|)..] && r.writing == [] && r.reading == 0 && r.capacity == f.capacity
  {
    hide Fifo.Mark;
  }

  // ---------------------------------------------------------------- a pull

  lemma BeginsPull(m: Mem, target: nat, count: nat)
    requires Quiet(m)
    ensures var silent := !m.played && |m.fifo.queue| < target;
            Pulling(m, target, Lock(count), 2)
              == (m.(lock := ByPlayer), if silent then UnlockSilent(count) else Take(count))
  {
    hide Pulling;
    NoPull(m, target, Lock(count));
    NextPull(m, target, Lock(count), 0);
    NextPull(m, target, Lock(count), 1);
  }

  lemma SilentPull(m: Mem, target: nat, count: nat)
    requires Quiet(m) && !m.played && |m.fifo.queue| < target
    ensures Pulling(m, target, Lock(count), 3) == (m, Ready)
  {
    hide Pulling;
    BeginsPull(m, target, count);
    NextPull(m, target, Lock(count), 2);
  }

  /** What the queue is once up to n samples have been consumed. */
  function Consumed(f: Fifo.State, n: nat, deliver: bool): Fifo.State
    requires f.Valid()
  {
    Fifo.Step(Fifo.Step(f, Fifo.BeginRead(n)), Fifo.Retire(deliver))
  }

  lemma TakesSamples(m: Mem, target: nat, count: nat)
    requires m.fifo.Valid() && m.fifo.writing == [] && count > 0
    ensures var k := Min(count, |m.fifo.queue|);
            var got := m.fifo.queue[..k];
            Pulling(m, target, Take(count), 3)
              == (m.(fifo := Consumed(m.fifo, count, true), lock := Free),
                  if k < count then CountUnderflow(count, got) else SetPlayed(count, got))
  {
    hide Pulling, Fifo.Step;
    ReadAlone(m.fifo, count, true);
    NoPull(m, target, Take(count));
    NextPull(m, target, Take(count), 0);
    NextPull(m, target, Take(count), 1);
    NextPull(m, target, Take(count), 2);
  }

  lemma EndsPull(m: Mem, target: nat, count: nat, got: seq<Sample>)
    requires m.fifo.Valid()
    ensures Pulling(m, target, SetPlayed(count, got), 1) == (m.(played := true), Ready)
  {
    hide Pulling;
    NoPull(m, target, SetPlayed(count, got));
    NextPull(m, target, SetPlayed(count, got), 0);
  }

  lemma CountsPull(m: Mem, target: nat, count: nat, got: seq<Sample>)
    requires m.fifo.Valid() && |got| < count
    ensures Pulling(m, target, CountUnderflow(count, got), 1)
         == (if m.received then m.(underflow := U32(m.underflow + count - |got|)) else m, SetPlayed(count, got))
  {
    hide Pulling;
    NoPull(m, target, CountUnderflow(count, got));
    NextPull(m, target, CountUnderflow(count, got), 0);
  }

  /** The memory after a pull. */
  function AfterPull(m: Mem, target: nat, count: nat): Mem
    requires m.fifo.Valid()
  {
    var k := Min(count, |m.fifo.queue|);
    if !m.played && |m.fifo.queue| < target then m
    else
      m.(fifo := Consumed(m.fifo, count, true), played := true,
         underflow := if m.received && k < count then U32(m.underflow + count - k) else m.underflow)
  }

  /** A pull alone: silence until the start-up buffering is reached, then the oldest samples, completed with counted silence. */
  lemma PullAlone(m: Mem, target: nat, count: nat) returns (n: nat, last: Player)
    requires Quiet(m) && count > 0
    ensures n > 0 && Pulling(m, target, Lock(count), n - 1).1 == last
    ensures Pulling(m, target, Lock(count), n) == (AfterPull(m, target, count), Ready)
    ensures if !m.played && |m.fifo.queue| < target then
              Completed(last) == [Pull(count, Silence(count), 0)]
            else
              var k := Min(count, |m.fifo.queue|);
              && Completed(last) == [Pull(count, m.fifo.queue[..k] + Silence(count - k), k)]
              && Consumed(m.fifo, count, true).queue == m.fifo.queue[k..]
  {
    hide Pulling, Fifo.Step, Consumed;
    BeginsPull(m, target, count);
    if !m.played && |m.fifo.queue| < target {
      SilentPull(m, target, count);
      n, last := 3, UnlockSilent(count);
    } else {
      ConsumedIs(m.fifo, count, true);
      var k := Min(count, |m.fifo.queue|);
      var got := m.fifo.queue[..k];
      var locked := m.(lock := ByPlayer);
      PullingGoesOn(m, target, Lock(count), 2, 3);
      TakesSamples(locked, target, count);
      var taken := m.(fifo := Consumed(m.fifo, count, true));
      last := SetPlayed(count, got);
      if k < count {
        CountsPull(taken, target, count, got);
        PullingGoesOn(m, target, Lock(count), 5, 1);
        n := 7;
      } else {
        n := 6;
      }
      PullingGoesOn(m, target, Lock(count), n - 1, 1);
      EndsPull(Pulling(m, target, Lock(count), n - 1).0, target, count, got);
    }
  }

  lemma ConsumedIs(f: Fifo.State, n: nat, deliver: bool)
    requires f.Valid() && f.writing == []
    ensures var r := Consumed(f, n, deliver);
            && r.Valid() && r.queue == f.queue[Min(n, |f.queue|)..] && r.writing == [] && r.reading == 0
            && r.capacity == f.capacity
  {
    ReadAlone(f, n, deliver);
  }

  lemma NoPull(m: Mem, target: nat, p: Player)
    requires m.fifo.Valid()
    ensures Pulling(m, target, p, 0) == (m, p)
  {
  }

  lemma NoPush(m: Mem, target: nat, rate: nat, p: Producer)
    requires m.fifo.Valid() && ProducerValid(p)
    ensures Pushing(m, target, rate, p, 0) == (m, p)
  {
  }

  // ---------------------------------------------------------------- a push

  /** What the queue is once what fits of src has been written. */
  function Appended(f: Fifo.State, src: seq<Sample>): Fifo.State
    requires f.Valid()
  {
    Fifo.Step(Fifo.Step(f, Fifo.BeginWrite(src)), Fifo.Publish)
  }

  lemma AppendedIs(f: Fifo.State, src: seq<Sample>)
    requires f.Valid() && f.writing == []
    ensures var r := Appended(f, src);
            && r.Valid() && r.queue == f.queue + src[..Min(|src|, f.capacity - |f.queue|)] && r.writing == []
            && r.reading == f.reading && r.capacity == f.capacity
  {
    WriteAlone(f, src);
  }

  function AfterGap(m: Mem, target: nat, f: Frame): Mem
    requires m.fifo.Valid()
  {
    var buffered := |m.fifo.queue|;
    m.(underflow := 0,
       fifo := if U32(f.inputSamples + buffered) < target
               then Appended(m.fifo, Silence(U32(target - buffered - f.inputSamples))) else m.fifo)
  }

  lemma FillsGap(m: Mem, target: nat, rate: nat, f: Frame, silence: nat)
    requires Quiet(m)
    ensures Pushing(m, target, rate, Gap(f, WriteSilence(silence)), 2)
         == (m.(fifo := Appended(m.fifo, Silence(silence))), Gap(f, ResetGap))
  {
    hide Pushing, Fifo.Step, Silence;
    var start := Gap(f, WriteSilence(silence));
    NoPush(m, target, rate, start);
    NextPush(m, target, rate, start, 0);
    NextPush(m, target, rate, start, 1);
  }

  lemma EndsGap(m: Mem, target: nat, rate: nat, f: Frame)
    requires m.fifo.Valid()
    ensures Pushing(m, target, rate, Gap(f, ResetGap), 1) == (m.(underflow := 0), Resample(f))
  {
    hide Pushing;
    NoPush(m, target, rate, Gap(f, ResetGap));
    NextPush(m, target, rate, Gap(f, ResetGap), 0);
  }

  lemma BeginsGap(m: Mem, target: nat, rate: nat, f: Frame)
    requires m.fifo.Valid()
    ensures var buffered := |m.fifo.queue|;
            Pushing(m, target, rate, Gap(f, CheckGap), 1)
              == (m, if U32(f.inputSamples + buffered) < target then Gap(f, WriteSilence(U32(target - buffered - f.inputSamples)))
                     else Gap(f, ResetGap))
  {
    hide Pushing, U32;
    NoPush(m, target, rate, Gap(f, CheckGap));
    NextPush(m, target, rate, Gap(f, CheckGap), 0);
  }

  lemma AfterGapIs(m: Mem, target: nat, f: Frame)
    requires Quiet(m)
    ensures var r := AfterGap(m, target, f);
            Leaves(m.(underflow := 0), r,
                   m.fifo.queue + Silence(AudioRegulation.GapSilence(|m.fifo.queue|, m.fifo.capacity, target, f.inputSamples)))
  {
    hide Appended, Fifo.Step;
    var silence := U32(target - |m.fifo.queue| - f.inputSamples);
    AppendedIs(m.fifo, Silence(silence));
    assert m.fifo.queue + Silence(0) == m.fifo.queue;
  }

  /** Handling a discontinuity alone appends the silence that is missing, as far as it fits. */
  lemma GapAlone(m: Mem, target: nat, rate: nat, f: Frame) returns (n: nat, r: Mem)
    requires Quiet(m)
    ensures Pushing(m, target, rate, Gap(f, CheckGap), n) == (r, Resample(f))
    ensures Leaves(m.(underflow := 0), r,
                   m.fifo.queue + Silence(AudioRegulation.GapSilence(|m.fifo.queue|, m.fifo.capacity, target, f.inputSamples)))
  {
    hide Pushing, Appended, Silence, U32, ProducerNext;
    var buffered := |m.fifo.queue|;
    BeginsGap(m, target, rate, f);
    AfterGapIs(m, target, f);
    r := AfterGap(m, target, f);
    if U32(f.inputSamples + buffered) < target {
      var silence := U32(target - buffered - f.inputSamples);
      FillsGap(m, target, rate, f, silence);
      PushingGoesOn(m, target, rate, Gap(f, CheckGap), 1, 2);
      EndsGap(m.(fifo := r.fifo), target, rate, f);
      n := 4;
    } else {
      EndsGap(m, target, rate, f);
      n := 2;
    }
    PushingGoesOn(m, target, rate, Gap(f, CheckGap), n - 1, 1);
  }

  lemma WritesChunk(m: Mem, target: nat, rate: nat, chunk: seq<Sample>)
    requires Quiet(m)
    ensures var w := Min(|chunk|, m.fifo.capacity - |m.fifo.queue|);
            Pushing(m, target, rate, Store(chunk, 0, Write1), 2)
              == (m.(fifo := Appended(m.fifo, chunk)), if w < |chunk| then Store(chunk, w, Lock1) else LoadPlayed)
  {
    hide Pushing, Fifo.Step;
    WriteAlone(m.fifo, chunk);
    var start := Store(chunk, 0, Write1);
    NoPush(m, target, rate, start);
    NextPush(m, target, rate, start, 0);
    NextPush(m, target, rate, start, 1);
  }

  lemma WritesLocked(m: Mem, target: nat, rate: nat, chunk: seq<Sample>, w: nat)
    requires Quiet(m) && w < |chunk| && |m.fifo.queue| == m.fifo.capacity
    ensures Pushing(m, target, rate, Store(chunk, w, Lock1), 3)
         == (m.(fifo := Appended(m.fifo, chunk[w..]), lock := ByProducer), Store(chunk, w, Drop))
  {
    hide Pushing, Fifo.Step;
    WriteAlone(m.fifo, chunk[w..]);
    var start := Store(chunk, w, Lock1);
    NoPush(m, target, rate, start);
    NextPush(m, target, rate, start, 0);
    NextPush(m, target, rate, start, 1);
    NextPush(m, target, rate, start, 2);
  }

  lemma DropsOldest(m: Mem, target: nat, rate: nat, chunk: seq<Sample>, w: nat)
    requires m.fifo.Valid() && m.fifo.writing == [] && w < |chunk| && |chunk| - w <= |m.fifo.queue|
    ensures Pushing(m, target, rate, Store(chunk, w, Drop), 3)
         == (m.(fifo := Consumed(m.fifo, |chunk| - w, false), lock := Free), Store(chunk, w, Write3))
  {
    hide Pushing, Fifo.Step;
    ReadAlone(m.fifo, |chunk| - w, false);
    var start := Store(chunk, w, Drop);
    NoPush(m, target, rate, start);
    NextPush(m, target, rate, start, 0);
    NextPush(m, target, rate, start, 1);
    NextPush(m, target, rate, start, 2);
  }

  lemma WritesRest(m: Mem, target: nat, rate: nat, chunk: seq<Sample>, w: nat)
    requires m.fifo.Valid() && m.fifo.writing == [] && w < |chunk| && |m.fifo.queue| + |chunk| - w <= m.fifo.capacity
    ensures Pushing(m, target, rate, Store(chunk, w, Write3), 2) == (m.(fifo := Appended(m.fifo, chunk[w..])), LoadPlayed)
  {
    hide Pushing, Fifo.Step;
    WriteAlone(m.fifo, chunk[w..]);
    var start := Store(chunk, w, Write3);
    NoPush(m, target, rate, start);
    NextPush(m, target, rate, start, 0);
    NextPush(m, target, rate, start, 1);
  }

  /** The part of the chunk that did not fit replaces the oldest samples. */
  lemma ReplacesOldest(m: Mem, target: nat, rate: nat, chunk: seq<Sample>, w: nat) returns (r: Mem)
    requires Quiet(m) && w < |chunk| && |m.fifo.queue| == m.fifo.capacity && |chunk| - w <= m.fifo.capacity
    ensures Pushing(m, target, rate, Store(chunk, w, Lock1), 8) == (r, LoadPlayed)
    ensures Leaves(m, r, m.fifo.queue[|chunk| - w..] + chunk[w..])
  {
    hide Pushing, Fifo.Step, Appended, Consumed, ProducerNext, KeepLast;
    var start, rest := Store(chunk, w, Lock1), chunk[w..];
    AppendedIs(m.fifo, rest);
    WritesLocked(m, target, rate, chunk, w);
    var b := m.(fifo := Appended(m.fifo, rest), lock := ByProducer);
    assert rest[..0] == [];
    ConsumedIs(b.fifo, |rest|, false);
    DropsOldest(b, target, rate, chunk, w);
    PushingGoesOn(m, target, rate, start, 3, 3);
    var c := m.(fifo := Consumed(b.fifo, |rest|, false));
    AppendedIs(c.fifo, rest);
    WritesRest(c, target, rate, chunk, w);
    PushingGoesOn(m, target, rate, start, 6, 2);
    assert rest[..|rest|] == rest;
    r := c.(fifo := Appended(c.fifo, rest));
  }

  /** Storing a chunk alone keeps the most recent samples, up to the capacity. */
  lemma StoreAlone(m: Mem, target: nat, rate: nat, chunk: seq<Sample>) returns (n: nat, r: Mem)
    requires Quiet(m) && |chunk| <= m.fifo.capacity
    ensures Pushing(m, target, rate, Store(chunk, 0, Write1), n) == (r, LoadPlayed)
    ensures Leaves(m, r, KeepLast(m.fifo.queue + chunk, m.fifo.capacity))
  {
    hide Pushing, Fifo.Step, Appended, Consumed, ProducerNext, KeepLast;
    var w := Min(|chunk|, m.fifo.capacity - |m.fifo.queue|);
    AudioRegulation.DropThenAppend(m.fifo.queue, chunk, w, m.fifo.capacity);
    AppendedIs(m.fifo, chunk);
    WritesChunk(m, target, rate, chunk);
    r := m.(fifo := Appended(m.fifo, chunk));
    if w == |chunk| {
      assert chunk[..w] == chunk && chunk[w..] == [];
      NothingToDrop(m.fifo.queue + chunk);
      n := 2;
    } else {
      var first := r;
      r := ReplacesOldest(first, target, rate, chunk, w);
      PushingGoesOn(m, target, rate, Store(chunk, 0, Write1), 2, 8);
      n := 10;
    }
  }

  lemma NothingToDrop(s: seq<Sample>)
    ensures s[0..] + [] == s
  {
  }

  /** Limiting the buffering alone keeps the most recent samples, up to the limit. */
  lemma TrimAlone(m: Mem, target: nat, rate: nat, played: bool, limit: nat) returns (n: nat, r: Mem)
    requires Quiet(m)
    ensures Pushing(m, target, rate, Trim(played, limit, Check), n) == (r, Idle)
    ensures var kept := KeepLast(m.fifo.queue, limit);
            Leaves(m.(received := true, pushes := m.pushes + [Push(played, limit, |kept|)]), r, kept)
  {
    hide Pushing, Fifo.Step, Consumed;
    var start := Trim(played, limit, Check);
    NoPush(m, target, rate, start);
    NextPush(m, target, rate, start, 0);
    if |m.fifo.queue| <= limit {
      NextPush(m, target, rate, start, 1);
      n, r := 2, m.(received := true, pushes := m.pushes + [Push(played, limit, |m.fifo.queue|)]);
    } else {
      var excess := |m.fifo.queue| - limit;
      ConsumedIs(m.fifo, excess, false);
      SkipsExcess(m, target, rate, played, limit);
      PushingGoesOn(m, target, rate, start, 1, 5);
      NextPush(m, target, rate, start, 6);
      n, r := 7, m.(fifo := Consumed(m.fifo, excess, false), received := true, pushes := m.pushes + [Push(played, limit, limit)]);
    }
  }

  lemma SkipsExcess(m: Mem, target: nat, rate: nat, played: bool, limit: nat)
    requires Quiet(m) && |m.fifo.queue| > limit
    ensures Pushing(m, target, rate, Trim(played, limit, Lock2), 5)
         == (m.(fifo := Consumed(m.fifo, |m.fifo.queue| - limit, false)), Trim(played, limit, Finish))
  {
    hide Pushing, Fifo.Step;
    ReadAlone(m.fifo, |m.fifo.queue| - limit, false);
    var start := Trim(played, limit, Lock2);
    NoPush(m, target, rate, start);
    NextPush(m, target, rate, start, 0);
    NextPush(m, target, rate, start, 1);
    NextPush(m, target, rate, start, 2);
    NextPush(m, target, rate, start, 3);
    NextPush(m, target, rate, start, 4);
  }

  lemma Resamples(m: Mem, target: nat, rate: nat, f: Frame)
    requires m.fifo.Valid()
    ensures Pushing(m, target, rate, Resample(f), 1)
         == (m, if f.resampled.None? then Idle else Store(KeepLast(f.resampled.value, m.fifo.capacity), 0, Write1))
  {
    hide Pushing, KeepLast;
    NoPush(m, target, rate, Resample(f));
    NextPush(m, target, rate, Resample(f), 0);
  }

  lemma LoadsPlayed(m: Mem, target: nat, rate: nat)
    requires m.fifo.Valid()
    ensures Pushing(m, target, rate, LoadPlayed, 1)
         == (if m.played then m.(underflow := 0) else m, Trim(m.played, Limit(target, rate, m.played), Check))
  {
    hide Pushing, Limit;
    NoPush(m, target, rate, LoadPlayed);
    NextPush(m, target, rate, LoadPlayed, 0);
  }

  /** The memory after a push alone that left these samples. */
  function Pushed(m: Mem, target: nat, rate: nat, kept: seq<Sample>): Mem {
    m.(received := true, underflow := if m.played then 0 else m.underflow,
       pushes := m.pushes + [Push(m.played, Limit(target, rate, m.played), |kept|)])
  }

  /** A push alone, without discontinuity: the chunk is stored, then the buffering limited. */
  lemma FramePushedAlone(m: Mem, target: nat, rate: nat, f: Frame) returns (n: nat, r: Mem)
    requires Quiet(m) && f.resampled.Some?
    ensures Pushing(m, target, rate, Resample(f), n) == (r, Idle)
    ensures var kept := KeepLast(KeepLast(m.fifo.queue + f.resampled.value, m.fifo.capacity), Limit(target, rate, m.played));
            Leaves(Pushed(m, target, rate, kept), r, kept)
  {
    hide Pushing, Limit, KeepLast, ProducerNext;
    var cap := m.fifo.capacity;
    var chunk := KeepLast(f.resampled.value, cap);
    AudioRegulation.KeepLastOfSum(m.fifo.queue, f.resampled.value, cap);
    var start := Resample(f);
    Resamples(m, target, rate, f);
    var a, s := StoreAlone(m, target, rate, chunk);
    PushingGoesOn(m, target, rate, start, 1, a);
    LoadsPlayed(s, target, rate);
    PushingGoesOn(m, target, rate, start, 1 + a, 1);
    var loaded := if s.played then s.(underflow := 0) else s;
    var b, t := TrimAlone(loaded, target, rate, s.played, Limit(target, rate, s.played));
    PushingGoesOn(m, target, rate, start, 2 + a, b);
    n, r := 2 + a + b, t;
  }

  /** The silence inserted before a frame. */
  function WithSilence(m: Mem, target: nat, f: Frame): seq<Sample>
    requires m.fifo.Valid()
  {
    m.fifo.queue
    + (if f.gap then Silence(AudioRegulation.GapSilence(|m.fifo.queue|, m.fifo.capacity, target, f.inputSamples)) else [])
  }

  /**
   * A push alone leaves the buffer that AudioRegulation says of the method: the silence of a gap, then the
   * most recent samples up to the capacity and to the limit; a failed resampling leaves only the silence.
   */
  lemma PushAlone(m: Mem, target: nat, rate: nat, f: Frame) returns (n: nat, r: Mem)
    requires Quiet(m)
    ensures var start := if f.gap then Gap(f, CheckGap) else Resample(f);
            Pushing(m, target, rate, start, n) == (r, Idle)
    ensures var filled := WithSilence(m, target, f);
            var reset := if f.gap then m.(underflow := 0) else m;
            if f.resampled.None? then Leaves(reset, r, filled)
            else
              var kept := KeepLast(KeepLast(filled + f.resampled.value, m.fifo.capacity), Limit(target, rate, m.played));
              Leaves(Pushed(reset, target, rate, kept), r, kept)
  {
    hide Pushing, Limit, KeepLast, ProducerNext, Silence;
    var start := if f.gap then Gap(f, CheckGap) else Resample(f);
    var a: nat, s := 0, m;
    if f.gap {
      a, s := GapAlone(m, target, rate, f);
    } else {
      NoPush(m, target, rate, start);
      assert m.fifo.queue + [] == m.fifo.queue;
    }
    var b: nat;
    if f.resampled.None? {
      Resamples(s, target, rate, f);
      b, r := 1, s;
    } else {
      b, r := FramePushedAlone(s, target, rate, f);
    }
    PushingGoesOn(m, target, rate, start, a, b);
    n := a + b;
  }
}
