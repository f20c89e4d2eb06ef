/**
 * The audio regulator on the lock-free ring buffer itself: the threads of RegulatorConcurrency
 * run on the ring of RingConcurrency, each atomic load, copy of a sample and atomic store
 * being a step of its own. The threads know of the ring only what its loads returned.
 */
module RegulatorOnRing {
  import opened Common
  import opened AudioBuffer
  import Fifo
  import Ring = RingConcurrency
  import Regulator = RegulatorConcurrency

  /** sys.mem.fifo is not used: the ring takes its place. */
  datatype State = State(sys: Regulator.Sys, ring: Ring.Ring)

  // ---------------------------------------------------------------- the two threads

  /** What the ring has told to a thread: as many samples buffered, written or read. */
  function Seen(s: State, queue: seq<Sample>, writing: seq<Sample>, reading: nat): Fifo.State
    requires s.ring.cells != []
  {
    Fifo.State(|s.ring.cells| - 1, queue, writing, reading, [], [])
  }

  /** The code of sc_audio_regulator_push() after the ring has answered. */
  ghost function ProducerCode(s: State, seen: Fifo.State, ring: Ring.Ring): State
    requires seen.Valid() && Regulator.ProducerValid(s.sys.producer) && Ring.WellFormed(ring)
  {
    var (mem, next) := Regulator.ProducerNext(s.sys.mem.(fifo := seen), s.sys.target, s.sys.rate, s.sys.producer);
    State(s.sys.(mem := mem.(fifo := s.sys.mem.fifo), producer := next,
                 reached := s.sys.reached || Ring.Size(ring) >= s.sys.target),
          ring)
  }

  /** The code of sc_audio_regulator_pull() after the ring has answered. */
  ghost function PlayerCode(s: State, seen: Fifo.State, ring: Ring.Ring): State
    requires seen.Valid()
  {
    var (mem, next) := Regulator.PlayerNext(s.sys.mem.(fifo := seen), s.sys.target, s.sys.player);
    State(s.sys.(mem := mem.(fifo := s.sys.mem.fifo), player := next,
                 pulls := s.sys.pulls + Regulator.Completed(s.sys.player)),
          ring)
  }

  /** The producer asks how many samples are buffered. */
  predicate Probes(p: Regulator.Producer) {
    (p.Gap? && p.gap.CheckGap?) || (p.Trim? && (p.trim.Check? || p.trim.Check2?))
  }

  predicate PlayerProbes(s: State) {
    s.sys.player.CheckBuffering? && !s.sys.mem.played
  }

  function Use(s: State): Fifo.Action
    requires Regulator.ProducerValid(s.sys.producer)
  {
    Regulator.ProducerQueueAction(s.sys.producer)
  }

  /** The producer only goes on with an operation of the ring: its code comes after. */
  ghost predicate ProducerInside(s: State)
    requires Regulator.ProducerValid(s.sys.producer)
  {
    match Use(s)
    case BeginWrite(_) => s.ring.writer.WIdle?
    case Publish => s.ring.writer.WCopying? && s.ring.writer.k < s.ring.writer.n
    case BeginRead(_) => s.ring.reader.RIdle?
    case Retire(_) => false
    case Skip => Probes(s.sys.producer) && s.ring.writer.WIdle?
  }

  ghost predicate PlayerInside(s: State) {
    match s.sys.player
    case Take(_) => s.ring.reader.RIdle?
    case Taking(_) => s.ring.reader.RCopying? && |s.ring.reader.got| < s.ring.reader.n
    case CheckBuffering(_) => PlayerProbes(s) && s.ring.reader.RIdle?
    case _ => false
  }

  /** The step of the ring that a step of the producer performs, if any. */
  ghost function ProducerRingAction(s: State): Option<Ring.Action>
    requires Regulator.ProducerValid(s.sys.producer)
  {
    match Use(s)
    case BeginWrite(src) => Some(if s.ring.writer.WIdle? then Ring.StartWrite(src) else Ring.WriterStep)
    case Publish => Some(Ring.WriterStep)
    case BeginRead(count) => Some(if s.ring.reader.RIdle? then Ring.StartRead(count, false) else Ring.ReaderStep)
    case Retire(_) => Some(Ring.ReaderStep)
    case Skip =>
      if !Probes(s.sys.producer) then None
      else Some(if s.ring.writer.WIdle? then Ring.StartWriterProbe else Ring.WriterStep)
  }

  ghost function PlayerRingAction(s: State): Option<Ring.Action> {
    match s.sys.player
    case Take(count) => Some(if s.ring.reader.RIdle? then Ring.StartRead(count, true) else Ring.ReaderStep)
    case Taking(_) => Some(Ring.ReaderStep)
    case CheckBuffering(_) =>
      if !PlayerProbes(s) then None
      else Some(if s.ring.reader.RIdle? then Ring.StartReaderProbe else Ring.ReaderStep)
    case _ => None
  }

  ghost function RingAfter(r: Ring.Ring, a: Option<Ring.Action>): (r': Ring.Ring)
    requires Ring.Inv(r)
    ensures Ring.Inv(r') && |r'.cells| == |r.cells|
  {
    if a.None? then r
    else
      Ring.StepRefines(r, a.value);
      Ring.Step(r, a.value)
  }

  ghost function ProducerRing(s: State): (r: Ring.Ring)
    requires Inv(s)
    ensures Ring.Inv(r) && |r.cells| == |s.ring.cells|
  {
    RingAfter(s.ring, ProducerRingAction(s))
  }

  ghost function PlayerRing(s: State): (r: Ring.Ring)
    requires Inv(s)
    ensures Ring.Inv(r) && |r.cells| == |s.ring.cells|
  {
    RingAfter(s.ring, PlayerRingAction(s))
  }

  /** What the operation of the ring returned: the number of samples written, read, or buffered. */
  ghost function ProducerSeen(s: State): Fifo.State
    requires Inv(s) && !ProducerInside(s)
    ensures ProducerSeen(s).Valid()
  {
    var r := s.ring;
    match Use(s)
    case Publish => Seen(s, [], if r.writer.WCopying? then r.writer.src[..r.writer.n] else [], 0)
    case Retire(_) =>
      var n := if r.reader.RCopying? then r.reader.n else 0;
      Seen(s, Silence(n), [], n)
    case _ =>
      if Probes(s.sys.producer) then Seen(s, Silence(ProducerRing(s).writerSaw), [], 0)
      // history: the samples buffered when a push returns
      else if s.sys.producer.Trim? && s.sys.producer.trim.Finish? then Seen(s, Ring.Visible(r), [], 0)
      else Seen(s, [], [], 0)
  }

  ghost function PlayerSeen(s: State): Fifo.State
    requires Inv(s) && !PlayerInside(s)
    ensures PlayerSeen(s).Valid()
  {
    match s.sys.player
    case Taking(_) =>
      var got := if s.ring.reader.RCopying? then s.ring.reader.got else [];
      Seen(s, got, [], |got|)
    case CheckBuffering(_) => Seen(s, if PlayerProbes(s) then Silence(PlayerRing(s).readerSaw) else [], [], 0)
    case _ => Seen(s, [], [], 0)
  }

  ghost function Step(s: State, a: Regulator.Action): State
    requires Inv(s)
  {
    match a
    case ProducerStep =>
      if ProducerInside(s) then s.(ring := ProducerRing(s)) else ProducerCode(s, ProducerSeen(s), ProducerRing(s))
    case PlayerStep =>
      if PlayerInside(s) then s.(ring := PlayerRing(s)) else PlayerCode(s, PlayerSeen(s), PlayerRing(s))
    case PushFrame(f) =>
      if s.sys.producer.Idle? then
        s.(sys := s.sys.(producer := if f.gap then Regulator.Gap(f, Regulator.CheckGap) else Regulator.Resample(f)))
      else s
    case PullSamples(count) =>
      if s.sys.player.Ready? && count > 0 then s.(sys := s.sys.(player := Regulator.Lock(count))) else s
  }

  // ---------------------------------------------------------------- the state it stands for

  /** The decision of a pull is taken when it loads the writer cursor, before it loads its own. */
  ghost function AbsPlayer(s: State): Regulator.Player {
    if s.sys.player.CheckBuffering? && s.ring.reader.RProbing? then
      if s.ring.probed < s.sys.target then Regulator.UnlockSilent(s.sys.player.count) else Regulator.Take(s.sys.player.count)
    else s.sys.player
  }

  ghost function Abs(s: State): Regulator.Sys
    requires Ring.WellFormed(s.ring)
  {
    s.sys.(mem := s.sys.mem.(fifo := Ring.Abs(s.ring)), player := AbsPlayer(s))
  }

  /** Only the producer uses the writer cursor. */
  predicate WriterCoupled(p: Regulator.Producer, w: Ring.Writer)
    requires Regulator.ProducerValid(p)
  {
    match w
    case WIdle => true
    case WLoadedHead(src, _) => Regulator.ProducerQueueAction(p) == Fifo.BeginWrite(src)
    case WCopying(_, _, _, _) => Regulator.ProducerQueueAction(p) == Fifo.Publish
    case WProbing(_) => Probes(p)
  }

  /** One thread at a time uses the reader cursor: the player to take samples, the producer to drop some. */
  predicate ReaderCoupled(s: State)
    requires Regulator.ProducerValid(s.sys.producer)
  {
    match s.ring.reader
    case RIdle => true
    case RLoadedTail(count, keep, _) => if keep then s.sys.player == Regulator.Take(count) else Use(s) == Fifo.BeginRead(count)
    case RCopying(keep, _, _, _) => if keep then s.sys.player.Taking? else Use(s) == Fifo.Retire(false)
    case RProbing(_) => PlayerProbes(s)
  }

  ghost predicate Inv(s: State) {
    && Ring.Inv(s.ring)
    && |s.ring.cells| == s.sys.target + s.sys.rate + 1
    && Regulator.ThreadInv(Abs(s))
    && WriterCoupled(s.sys.producer, s.ring.writer)
    && ReaderCoupled(s)
  }

  // ---------------------------------------------------------------- steps of the producer

  lemma {:induction false} ProducerOwnsReader(s: State)
    requires Inv(s) && (Use(s).BeginRead? || Use(s).Retire?)
    ensures match s.ring.reader
            case RIdle => true
            case RLoadedTail(count, keep, _) => !keep && Use(s) == Fifo.BeginRead(count)
            case RCopying(keep, _, _, _) => !keep && Use(s) == Fifo.Retire(false)
            case RProbing(_) => false
    ensures Use(s).BeginRead? ==> Use(s).count > 0
  {
  }

  /** What the queue has to tell to the producer. */
  predicate Tells(f: Fifo.State, g: Fifo.State, p: Regulator.Producer)
    requires Regulator.ProducerValid(p)
  {
    && f.capacity == g.capacity
    && (Probes(p) || (p.Trim? && p.trim.Finish?) ==> |f.queue| == |g.queue|)
    && (Regulator.ProducerQueueAction(p).Publish? ==> |f.writing| == |g.writing|)
    && (Regulator.ProducerQueueAction(p).Retire? ==> f.reading == g.reading)
  }

  /** The threads go on in the same way, and leave the same memory besides the queue. */
  predicate Same<P(==)>(a: (Regulator.Mem, P), b: (Regulator.Mem, P)) {
    a.1 == b.1 && a.0 == b.0.(fifo := a.0.fifo)
  }

  lemma SameWriteCode(m: Regulator.Mem, f: Fifo.State, p: Regulator.Producer)
    requires m.fifo.Valid() && f.Valid() && Regulator.ProducerValid(p) && Tells(f, m.fifo, p) && p.Store?
    requires p.store.Write1? || p.store.Write2? || p.store.Write3?
    ensures Same(Regulator.StoreStep(m, p.chunk, p.w, p.store), Regulator.StoreStep(m.(fifo := f), p.chunk, p.w, p.store))
  {
    hide Fifo.Step, Tells;
  }

  lemma SamePublishCode(m: Regulator.Mem, f: Fifo.State, p: Regulator.Producer)
    requires m.fifo.Valid() && f.Valid() && Regulator.ProducerValid(p) && Tells(f, m.fifo, p) && p.Store?
    requires p.store.Publish1? || p.store.Publish2? || p.store.Publish3?
    ensures Same(Regulator.StoreStep(m, p.chunk, p.w, p.store), Regulator.StoreStep(m.(fifo := f), p.chunk, p.w, p.store))
  {
    hide Fifo.Step;
  }

  lemma SameDropCode(m: Regulator.Mem, f: Fifo.State, p: Regulator.Producer)
    requires m.fifo.Valid() && f.Valid() && Regulator.ProducerValid(p) && Tells(f, m.fifo, p) && p.Store?
    requires p.store.Lock1? || p.store.Drop? || p.store.Dropping? || p.store.Unlock1?
    ensures Same(Regulator.StoreStep(m, p.chunk, p.w, p.store), Regulator.StoreStep(m.(fifo := f), p.chunk, p.w, p.store))
  {
    hide Fifo.Step;
  }

  lemma SameCountCode(m: Regulator.Mem, f: Fifo.State, p: Regulator.Producer)
    requires m.fifo.Valid() && f.Valid() && Regulator.ProducerValid(p) && Tells(f, m.fifo, p) && p.Trim?
    requires p.trim.Check? || p.trim.Check2? || p.trim.Finish?
    ensures Same(Regulator.TrimStep(m, p.played, p.limit, p.trim), Regulator.TrimStep(m.(fifo := f), p.played, p.limit, p.trim))
  {
    hide Fifo.Step, Regulator.ProducerQueueAction;
  }

  lemma SameSkipCode(m: Regulator.Mem, f: Fifo.State, p: Regulator.Producer)
    requires m.fifo.Valid() && f.Valid() && Regulator.ProducerValid(p) && Tells(f, m.fifo, p) && p.Trim?
    requires p.trim.Lock2? || p.trim.Skip? || p.trim.Skipping? || p.trim.Unlock2?
    ensures Same(Regulator.TrimStep(m, p.played, p.limit, p.trim), Regulator.TrimStep(m.(fifo := f), p.played, p.limit, p.trim))
  {
    hide Fifo.Step;
  }

  /** The code of the producer depends on the queue only through what the ring tells it. */
  lemma SameProducerCode(m: Regulator.Mem, f: Fifo.State, target: nat, rate: nat, p: Regulator.Producer)
    requires m.fifo.Valid() && f.Valid() && Regulator.ProducerValid(p) && Tells(f, m.fifo, p)
    ensures Same(Regulator.ProducerNext(m, target, rate, p), Regulator.ProducerNext(m.(fifo := f), target, rate, p))
  {
    hide Fifo.Step, Regulator.Limit, Regulator.StoreStep, Regulator.TrimStep;
    match p
    case Store(_, _, at) =>
      hide Same, Tells, KeepLast;
      match at {
        case Write1 | Write2 | Write3 => SameWriteCode(m, f, p);
        case Publish1 | Publish2 | Publish3 => SamePublishCode(m, f, p);
        case _ => SameDropCode(m, f, p);
      }
    case Trim(_, _, at) =>
      hide Same, Tells, KeepLast;
      match at {
        case Check | Check2 | Finish => SameCountCode(m, f, p);
        case _ => SameSkipCode(m, f, p);
      }
    case _ =>
  }

  lemma ProducerIsTold(s: State)
    requires Inv(s) && !ProducerInside(s)
    ensures Tells(ProducerSeen(s), Ring.Abs(s.ring), s.sys.producer)
  {
    CursorArithmetic(|s.ring.cells|, s.ring.head, s.ring.tail);
  }

  /** Publishing nothing, or consuming nothing, is no step of the queue. */
  lemma NothingMoves(f: Fifo.State)
    requires f.Valid()
    ensures f.writing == [] ==> Fifo.Step(f, Fifo.Publish) == f
    ensures f.reading == 0 ==> forall deliver :: Fifo.Step(f, Fifo.Retire(deliver)) == f
  {
  }

  lemma ProducerLifts(s: State)
    requires Inv(s)
    ensures Ring.Abs(s.ring).Valid()
    ensures Ring.Abs(ProducerRing(s))
         == if ProducerInside(s) then Ring.Abs(s.ring) else Fifo.Step(Ring.Abs(s.ring), Use(s))
  {
    hide Fifo.Step, Ring.Step, Ring.WriterInv, Ring.ReaderInv;
    var f := Ring.Abs(s.ring);
    var a := ProducerRingAction(s);
    if a.Some? {
      Ring.StepRefines(s.ring, a.value);
    }
    NothingMoves(f);
    SkipIsNothing(f);
    if Use(s).BeginRead? || Use(s).Retire? {
      ProducerOwnsReader(s);
    }
  }

  lemma SkipIsNothing(f: Fifo.State)
    requires f.Valid()
    ensures Fifo.Step(f, Fifo.Skip) == f
  {
  }

  /** An operation of the ring goes through its phases, and leaves the other cursor alone. */
  lemma ProducerMoves(s: State)
    requires Inv(s)
    ensures var r, u := ProducerRing(s), Use(s);
            var consumes := u.BeginRead? || u.Retire?;
            && r.probed == s.ring.probed
            && (if consumes then r.writer == s.ring.writer == Ring.WIdle && !s.ring.reader.RProbing?
                else r.reader == s.ring.reader)
            && (if ProducerInside(s) then
                  if consumes then r.reader == Ring.RLoadedTail(u.count, false, s.ring.tail)
                  else r.writer == match u
                    case BeginWrite(src) => Ring.WLoadedHead(src, s.ring.head)
                    case Publish => s.ring.writer.(k := s.ring.writer.k + 1)
                    case _ => Ring.WProbing(s.ring.head)
                else if consumes then r.reader.RIdle? || (u.BeginRead? && r.reader.RCopying? && !r.reader.keep)
                else r.writer.WIdle? || (u.BeginWrite? && r.writer.WCopying?))
  {
    hide Ring.WriterInv, Ring.ReaderInv, Ring.Visible, Regulator.ProducerInv, Regulator.PlayerInv, Ring.Size;
    if Use(s).BeginRead? || Use(s).Retire? {
      ProducerOwnsReader(s);
    }
  }

  predicate GoesOn(m: Regulator.Mem, p: Regulator.Producer, m': Regulator.Mem, p': Regulator.Producer)
    requires Regulator.ProducerValid(p) && Regulator.ProducerValid(p')
  {
    var u, u' := Regulator.ProducerQueueAction(p), Regulator.ProducerQueueAction(p');
    && m'.played == m.played
    && (u.BeginWrite? ==> u'.Publish?)
    && (u.BeginRead? ==> u' == Fifo.Retire(false))
  }

  lemma StoreGoesOn(m: Regulator.Mem, p: Regulator.Producer)
    requires m.fifo.Valid() && Regulator.ProducerValid(p) && p.Store?
    ensures var (m', p') := Regulator.StoreStep(m, p.chunk, p.w, p.store);
            GoesOn(m, p, m', p')
  {
    hide Fifo.Step, Fifo.State.Valid;
    if p.store.Write1? || p.store.Write2? || p.store.Write3? || p.store.Drop? {
      hide Min;
    }
  }

  /** The code comes back to the ring for the second phase of what it began. */
  lemma ProducerGoesOn(m: Regulator.Mem, target: nat, rate: nat, p: Regulator.Producer)
    requires m.fifo.Valid() && Regulator.ProducerValid(p)
    ensures var (m', p') := Regulator.ProducerNext(m, target, rate, p);
            GoesOn(m, p, m', p')
  {
    hide Fifo.Step, Regulator.Limit, KeepLast, Silence, Regulator.StoreStep, Regulator.StoreQueueAction;
    if p.Store? {
      hide GoesOn;
      StoreGoesOn(m, p);
    }
  }

  lemma ProducerKeepsCoupling(s: State)
    requires Inv(s)
    ensures var r := Step(s, Regulator.ProducerStep);
            && AbsPlayer(r) == AbsPlayer(s)
            && Regulator.ProducerValid(r.sys.producer)
            && WriterCoupled(r.sys.producer, r.ring.writer)
            && ReaderCoupled(r)
  {
    hide Regulator.ProducerNext, ProducerRing, Ring.Inv, Regulator.ProducerInv, Regulator.PlayerInv;
    ProducerMoves(s);
    if !ProducerInside(s) {
      ProducerGoesOn(s.sys.mem.(fifo := ProducerSeen(s)), s.sys.target, s.sys.rate, s.sys.producer);
    }
  }

  /** A step of the producer is one of the regulator on the queue, or none. */
  lemma ProducerSimulates(s: State)
    requires Inv(s)
    ensures var r := Step(s, Regulator.ProducerStep);
            && Inv(r)
            && Abs(r) == (if ProducerInside(s) then Abs(s) else Regulator.Step(Abs(s), Regulator.ProducerStep))
  {
    hide Regulator.ProducerNext, Fifo.Step, Ring.WriterInv, Ring.ReaderInv, ProducerRing, ProducerInside, ProducerSeen;
    ProducerLifts(s);
    ProducerKeepsCoupling(s);
    if !ProducerInside(s) {
      ProducerIsTold(s);
      SameProducerCode(Abs(s).mem, ProducerSeen(s), s.sys.target, s.sys.rate, s.sys.producer);
      Regulator.StepUsesQueue(Abs(s), Regulator.ProducerStep);
      Regulator.StepKeepsThreadInv(Abs(s), Regulator.ProducerStep);
    }
  }

  // ---------------------------------------------------------------- steps of the player

  lemma {:induction false} PlayerOwnsReader(s: State)
    requires Inv(s) && (s.sys.player.Take? || s.sys.player.Taking? || PlayerProbes(s))
    ensures match s.ring.reader
            case RIdle => true
            case RLoadedTail(count, keep, _) => keep && s.sys.player == Regulator.Take(count)
            case RCopying(keep, _, _, _) => keep && s.sys.player.Taking?
            case RProbing(_) => PlayerProbes(s)
    ensures s.sys.player.Take? ==> s.sys.player.count > 0
  {
    hide Ring.Inv, Ring.WriterInv, Ring.ReaderInv, Ring.Visible, Ring.Size;
  }

  /** The queue action of a step of the player; while it probes, there is none. */
  lemma PlayerLifts(s: State)
    requires Inv(s)
    ensures Ring.Abs(s.ring).Valid()
    ensures Ring.Abs(PlayerRing(s))
         == if PlayerInside(s) then Ring.Abs(s.ring)
            else Fifo.Step(Ring.Abs(s.ring), Regulator.PlayerQueueAction(s.sys.player))
  {
    hide Fifo.Step, Ring.Step, Ring.WriterInv, Ring.ReaderInv, Regulator.ProducerInv, Regulator.PlayerInv;
    var f := Ring.Abs(s.ring);
    var a := PlayerRingAction(s);
    if a.Some? {
      Ring.StepRefines(s.ring, a.value);
      PlayerOwnsReader(s);
    }
    NothingMoves(f);
    SkipIsNothing(f);
  }

  lemma PlayerIsTold(s: State)
    requires Inv(s) && !PlayerInside(s)
    ensures var f, seen, p := Ring.Abs(s.ring), PlayerSeen(s), s.sys.player;
            && f.Valid()
            && (p.Taking? ==> seen.reading == f.reading && seen.queue[..f.reading] == f.queue[..f.reading])
            && (PlayerProbes(s) ==> |seen.queue| == s.ring.probed && s.ring.reader.RProbing?)
  {
    if s.ring.reader.RProbing? {
      CursorArithmetic(|s.ring.cells|, s.ring.reader.h, s.ring.tail);
    }
  }

  /** The code of the player depends on the queue only through what the ring tells it. */
  lemma SamePlayerCode(m: Regulator.Mem, f: Fifo.State, target: nat, p: Regulator.Player)
    requires m.fifo.Valid() && f.Valid()
    requires p.CheckBuffering? && !m.played ==> |f.queue| == |m.fifo.queue|
    requires p.Taking? ==> f.reading == m.fifo.reading && f.queue[..f.reading] == m.fifo.queue[..f.reading]
    ensures Same(Regulator.PlayerNext(m, target, p), Regulator.PlayerNext(m.(fifo := f), target, p))
  {
    hide Fifo.Step;
  }

  lemma PlayerMoves(s: State)
    requires Inv(s)
    ensures var r, p := PlayerRing(s), s.sys.player;
            && r.writer == s.ring.writer
            && (if PlayerInside(s) then
                  match p
                  case Take(count) => r.reader == Ring.RLoadedTail(count, true, s.ring.tail) && s.ring.reader.RIdle?
                  case Taking(_) => s.ring.reader.RCopying? && r.reader == s.ring.reader.(got := r.reader.got)
                                    && |r.reader.got| == |s.ring.reader.got| + 1 && r.reader.keep
                  case CheckBuffering(_) =>
                    r.reader == Ring.RProbing(s.ring.head) && r.probed == Ring.Size(s.ring) && s.ring.reader.RIdle?
                  case _ => true
                else if p.Take? then r.reader.RIdle? || (r.reader.RCopying? && r.reader.keep)
                else if p.Taking? || PlayerProbes(s) then r.reader.RIdle?
                else r == s.ring && !r.reader.RProbing?)
  {
    hide Ring.WriterInv, Ring.ReaderInv, Ring.Visible, Regulator.ProducerInv, Regulator.PlayerInv;
    if s.sys.player.Take? || s.sys.player.Taking? || PlayerProbes(s) {
      PlayerOwnsReader(s);
    }
  }

  /** The code comes back to the ring to consume what it began to read. */
  lemma PlayerGoesOn(m: Regulator.Mem, target: nat, p: Regulator.Player)
    requires m.fifo.Valid()
    ensures var (m', p') := Regulator.PlayerNext(m, target, p);
            && (p.Take? ==> p'.Taking?)
            && (m'.played <==> m.played || p.SetPlayed?)
  {
    hide Fifo.Step;
  }

  lemma PlayerKeepsCoupling(s: State)
    requires Inv(s)
    ensures var r := Step(s, Regulator.PlayerStep);
            WriterCoupled(r.sys.producer, r.ring.writer) && ReaderCoupled(r)
  {
    hide Regulator.PlayerNext, PlayerRing, Ring.Inv, Regulator.ProducerInv, Regulator.PlayerInv;
    PlayerMoves(s);
    if !PlayerInside(s) {
      PlayerGoesOn(s.sys.mem.(fifo := PlayerSeen(s)), s.sys.target, s.sys.player);
    }
  }

  /** A pull that asks how many samples are buffered makes its step when it begins to ask. */
  ghost predicate PlayerLinearizes(s: State) {
    PlayerProbes(s) <==> PlayerInside(s)
  }

  lemma PlayerRuns(s: State)
    requires Inv(s) && !PlayerInside(s) && !PlayerProbes(s)
    ensures Abs(Step(s, Regulator.PlayerStep)) == Regulator.Step(Abs(s), Regulator.PlayerStep)
  {
    hide Regulator.PlayerNext, Fifo.Step, Ring.WriterInv, Ring.ReaderInv, PlayerRing, PlayerSeen, PlayerInside,
         Regulator.ProducerInv, Regulator.PlayerInv;
    PlayerLifts(s);
    PlayerMoves(s);
    PlayerIsTold(s);
    SamePlayerCode(Abs(s).mem, PlayerSeen(s), s.sys.target, s.sys.player);
    Regulator.StepUsesQueue(Abs(s), Regulator.PlayerStep);
  }

  /** The answer to a probe is the one that the pull has already acted upon. */
  lemma PlayerIsAnswered(s: State)
    requires Inv(s) && !PlayerInside(s) && PlayerProbes(s)
    ensures Abs(Step(s, Regulator.PlayerStep)) == Abs(s)
  {
    hide Fifo.Step, Ring.WriterInv, Ring.ReaderInv, PlayerRing, PlayerSeen, Regulator.ProducerInv, Regulator.PlayerInv;
    PlayerLifts(s);
    PlayerMoves(s);
    PlayerIsTold(s);
    SkipIsNothing(Ring.Abs(s.ring));
    assert s.sys.pulls + [] == s.sys.pulls;
  }

  lemma PlayerGoesInside(s: State)
    requires Inv(s) && PlayerInside(s)
    ensures Abs(Step(s, Regulator.PlayerStep))
         == if PlayerProbes(s) then Regulator.Step(Abs(s), Regulator.PlayerStep) else Abs(s)
  {
    hide Fifo.Step, Ring.WriterInv, Ring.ReaderInv, PlayerRing, Regulator.ProducerInv, Regulator.PlayerInv;
    PlayerLifts(s);
    PlayerMoves(s);
    assert s.sys.pulls + [] == s.sys.pulls;
  }

  /** A step of the player is one of the regulator on the queue, or none. */
  lemma PlayerSimulates(s: State)
    requires Inv(s)
    ensures var r := Step(s, Regulator.PlayerStep);
            && Inv(r)
            && Abs(r) == (if PlayerLinearizes(s) then Regulator.Step(Abs(s), Regulator.PlayerStep) else Abs(s))
  {
    hide PlayerRing, PlayerSeen, Regulator.PlayerNext, Regulator.ProducerInv, Regulator.PlayerInv, PlayerInside, Ring.WriterInv,
         Ring.ReaderInv;
    PlayerKeepsCoupling(s);
    Regulator.StepKeepsThreadInv(Abs(s), Regulator.PlayerStep);
    if PlayerInside(s) {
      PlayerGoesInside(s);
    } else if PlayerProbes(s) {
      PlayerIsAnswered(s);
    } else {
      PlayerRuns(s);
    }
  }

  // ---------------------------------------------------------------- every run

  /** The steps of the regulator on the queue that a step stands for: one or none. */
  ghost function Lifted(s: State, a: Regulator.Action): seq<Regulator.Action>
    requires Inv(s)
  {
    match a
    case ProducerStep => if ProducerInside(s) then [] else [a]
    case PlayerStep => if PlayerLinearizes(s) then [a] else []
    case _ => [a]
  }

  lemma StepSimulates(s: State, a: Regulator.Action)
    requires Inv(s)
    ensures Inv(Step(s, a))
    ensures Abs(Step(s, a)) == if Lifted(s, a) == [] then Abs(s) else Regulator.Step(Abs(s), a)
  {
    match a
    case ProducerStep =>
      hide Inv, Abs, Step;
      ProducerSimulates(s);
    case PlayerStep =>
      hide Inv, Abs, Step;
      PlayerSimulates(s);
    case _ =>
      hide Ring.WriterInv, Ring.ReaderInv;
      Regulator.StepKeepsThreadInv(Abs(s), a);
  }

  /** How many steps each thread still takes inside its operation of the ring. */
  ghost function ProducerRank(s: State): int
    requires Regulator.ProducerValid(s.sys.producer)
  {
    if !ProducerInside(s) then 0 else if Use(s).Publish? then s.ring.writer.n - s.ring.writer.k else 1
  }

  ghost function PlayerRank(s: State): int {
    if !PlayerInside(s) then 0 else if s.sys.player.Taking? then s.ring.reader.n - |s.ring.reader.got| else 1
  }

  lemma OneThreadReads(s: State)
    requires Inv(s) && PlayerInside(s)
    ensures !Use(s).BeginRead? && !Use(s).Retire?
  {
    hide Ring.Inv;
  }

  /** A thread comes back from the ring after a bounded number of its steps, whatever the other one does. */
  lemma OperationsEnd(s: State)
    requires Inv(s)
    ensures var r := Step(s, Regulator.ProducerStep);
            && (ProducerInside(s) ==> 0 <= ProducerRank(r) < ProducerRank(s))
            && (PlayerInside(s) ==> PlayerRank(r) <= PlayerRank(s))
    ensures var r := Step(s, Regulator.PlayerStep);
            && (PlayerInside(s) ==> 0 <= PlayerRank(r) < PlayerRank(s))
            && (ProducerInside(s) ==> ProducerRank(r) <= ProducerRank(s))
  {
    hide Ring.Inv, ProducerRing, PlayerRing, Regulator.ProducerInv, Regulator.PlayerInv;
    ProducerMoves(s);
    PlayerMoves(s);
    if PlayerInside(s) {
      OneThreadReads(s);
    }
  }

  function Init(target: nat, rate: nat, cells: seq<Sample>): State {
    State(Regulator.Init(target, rate), Ring.Init(cells))
  }

  /** The state after any interleaving of the two threads, on a buffer with any initial contents. */
  ghost function Run(target: nat, rate: nat, cells: seq<Sample>, actions: seq<Regulator.Action>): (s: State)
    requires 2 <= target + rate + 1 == |cells| <= MAX_ALLOC
    ensures Inv(s)
  {
    if actions == [] then Init(target, rate, cells)
    else
      var s := Run(target, rate, cells, DropLast(actions));
      StepSimulates(s, Last(actions));
      Step(s, Last(actions))
  }

  ghost function LiftedRun(target: nat, rate: nat, cells: seq<Sample>, actions: seq<Regulator.Action>): seq<Regulator.Action>
    requires 2 <= target + rate + 1 == |cells| <= MAX_ALLOC
  {
    if actions == [] then []
    else
      var before := DropLast(actions);
      LiftedRun(target, rate, cells, before) + Lifted(Run(target, rate, cells, before), Last(actions))
  }

  /** Simulation: every run of the regulator on the ring buffer is a run of the regulator on the queue. */
  lemma {:induction false} RunSimulates(target: nat, rate: nat, cells: seq<Sample>, actions: seq<Regulator.Action>)
    requires 2 <= target + rate + 1 == |cells| <= MAX_ALLOC
    ensures Abs(Run(target, rate, cells, actions))
         == Regulator.Run(target, rate, LiftedRun(target, rate, cells, actions))
  {
    var lifted := LiftedRun(target, rate, cells, actions);
    if actions == [] {
      assert Ring.Abs(Ring.Init(cells)) == Fifo.Init(target + rate);
    } else {
      hide Regulator.Step, Step, Abs, Inv;
      var before := DropLast(actions);
      RunSimulates(target, rate, cells, before);
      StepSimulates(Run(target, rate, cells, before), Last(actions));
      var was := LiftedRun(target, rate, cells, before);
      if lifted != was {
        assert lifted == was + [Last(actions)];
        assert DropLast(was + [Last(actions)]) == was;
      }
    }
  }

  /**
   * So what was proved on the queue holds on the ring, sample by sample: no assert of a push fails;
   * the cursor of the reader is used by one thread at a time; the samples stored in the ring are
   * the samples pulled, in order, the samples skipped and the samples readable; each pull is filled
   * with silence; each push leaves at most its limit; and nothing is pulled before the buffer has
   * held `target` samples.
   */
  lemma {:induction false} RegulatorOnRingIsCorrect(target: nat, rate: nat, cells: seq<Sample>, actions: seq<Regulator.Action>)
    requires 2 <= target + rate + 1 == |cells| <= MAX_ALLOC
    ensures var s := Run(target, rate, cells, actions);
            var pulled := Regulator.Pulled(s.sys.pulls) + Regulator.InHand(s.sys.player);
            && !s.sys.mem.assertFailed
            && ReaderCoupled(s)
            && |s.ring.published| == |pulled| + Fifo.SkippedCount(s.ring.gone) + |Ring.Visible(s.ring)|
            && Subsequence(pulled, s.ring.published)
            && (forall p | p in s.sys.pulls :: Regulator.PullValid(p))
            && (forall p | p in s.sys.mem.pushes :: p.buffered <= p.limit == Regulator.Limit(target, rate, p.played))
            && (!s.sys.reached ==> pulled == [])
  {
    hide Run, LiftedRun, Regulator.Run, Regulator.Limit, Subsequence;
    var lifted := LiftedRun(target, rate, cells, actions);
    RunSimulates(target, rate, cells, actions);
    Regulator.AssertsHold(target, rate, lifted);
    Regulator.SamplesAreConserved(target, rate, lifted);
    Regulator.RunKeepsLimit(target, rate, lifted);
    Regulator.NothingDeliveredBeforeTarget(target, rate, lifted);
  }
}
