/**
 * The audio regulator (app/src/audio_regulator.c) between the thread that pushes
 * decoded frames and the thread that plays them. Every lock, atomic access and ring
 * buffer phase is a step; the ring buffer is the queue that RingConcurrency refines.
 *
 * The proof is by rely and guarantee: each thread keeps its own assertions, and every
 * step of one thread is one that the assertions of the other can rely on.
 */
module RegulatorConcurrency {
  import opened Common
  import opened AudioBuffer
  import Fifo

  /** resampled is what swr_convert() produced; None when it failed. gap: a discontinuity was detected. */
  datatype Frame = Frame(inputSamples: nat, gap: bool, resampled: Option<seq<Sample>>)

  datatype Owner = Free | ByProducer | ByPlayer

  /** played: what the push has read; limit: the samples that it lets through. */
  datatype Push = Push(played: bool, limit: nat, buffered: nat)

  /** What the two threads share. assertFailed: a C assert() was false. */
  datatype Mem = Mem(
    fifo: Fifo.State,
    lock: Owner,
    played: bool,
    received: bool,
    underflow: nat,
    assertFailed: bool,
    pushes: seq<Push>     // history: successful pushes, with the samples buffered on return
  )

  datatype GapPc = CheckGap | WriteSilence(n: nat) | PublishSilence | ResetGap
  datatype StorePc =
    | Write1 | Publish1 | Lock1 | Write2 | Publish2 | Drop | Dropping | Unlock1 | Write3 | Publish3
  datatype TrimPc = Check | Lock2 | Check2 | Skip(n: nat) | Skipping(n: nat) | Unlock2 | Finish

  /** The next thing sc_audio_regulator_push() does. w is the number of samples of chunk written so far. */
  datatype Producer =
    | Idle
    | Gap(f: Frame, gap: GapPc)
    | Resample(f: Frame)
    | Store(chunk: seq<Sample>, w: nat, store: StorePc)
    | LoadPlayed
    | Trim(played: bool, limit: nat, trim: TrimPc)

  /** The next thing sc_audio_regulator_pull() does. */
  datatype Player =
    | Ready
    | Lock(count: nat)
    | CheckBuffering(count: nat)
    | Take(count: nat)
    | Taking(count: nat)
    | Unlock(count: nat, got: seq<Sample>)
    | UnlockSilent(count: nat)
    | CountUnderflow(count: nat, got: seq<Sample>)
    | SetPlayed(count: nat, got: seq<Sample>)

  datatype Pull = Pull(count: nat, out: seq<Sample>, kept: nat)

  datatype Sys = Sys(
    target: nat,
    rate: nat,
    mem: Mem,
    producer: Producer,
    player: Player,
    pulls: seq<Pull>,     // history: completed pulls
    reached: bool         // history: the buffer has held at least `target` samples
  )

  datatype Action =
    | PushFrame(f: Frame)
    | ProducerStep
    | PullSamples(count: nat)
    | PlayerStep

  function Init(target: nat, rate: nat): Sys {
    Sys(target, rate, Mem(Fifo.Init(target + rate), Free, false, false, 0, false, []), Idle, Ready, [], target == 0)
  }

  /** max_buffered_samples, in uint32_t arithmetic. */
  function Limit(target: nat, rate: nat, played: bool): nat {
    if played then U32(U32(target * 11) / 10 + U32(60 * rate) / 1000)
    else U32(target + U32(10 * rate) / 1000)
  }

  function Queue(m: Mem, a: Fifo.Action): (r: Mem)
    requires m.fifo.Valid()
    ensures r.fifo.Valid() && r == m.(fifo := r.fifo)
  {
    m.(fifo := Fifo.Step(m.fifo, a))
  }

  function Assert(m: Mem, condition: bool): Mem {
    m.(assertFailed := m.assertFailed || !condition)
  }

  /** The handling of a discontinuity. */
  function GapStep(m: Mem, target: nat, f: Frame, at: GapPc): (r: (Mem, Producer))
    requires m.fifo.Valid()
    ensures r.0.fifo.Valid()
  {
    var buffered := |m.fifo.queue|;
    match at
    case CheckGap =>
      if U32(f.inputSamples + buffered) < target
      then (m, Gap(f, WriteSilence(U32(target - buffered - f.inputSamples))))
      else (m, Gap(f, ResetGap))
    case WriteSilence(n) => (Queue(m, Fifo.BeginWrite(Silence(n))), Gap(f, PublishSilence))
    case PublishSilence => (Queue(m, Fifo.Publish), Gap(f, ResetGap))
    case ResetGap => (m.(underflow := 0), Resample(f))
  }

  /** Writing the resampled chunk, dropping the oldest samples if there is no room. */
  function StoreStep(m: Mem, chunk: seq<Sample>, w: nat, at: StorePc): (r: (Mem, Producer))
    requires m.fifo.Valid() && w <= |chunk|
    ensures r.0.fifo.Valid()
    ensures r.1.Store? ==> r.1.w <= |r.1.chunk|
  {
    var remaining := |chunk| - w;
    var now := Min(w + |m.fifo.writing|, |chunk|);
    match at
    case Write1 => (Queue(m, Fifo.BeginWrite(chunk)), Store(chunk, w, Publish1))
    case Publish1 => (Queue(m, Fifo.Publish), if now < |chunk| then Store(chunk, now, Lock1) else LoadPlayed)
    case Lock1 => if m.lock.Free? then (m.(lock := ByProducer), Store(chunk, w, Write2)) else (m, Store(chunk, w, Lock1))
    case Write2 => (Queue(m, Fifo.BeginWrite(chunk[w..])), Store(chunk, w, Publish2))
    case Publish2 => (Queue(m, Fifo.Publish), Store(chunk, now, if now < |chunk| then Drop else Unlock1))
    case Drop => (Assert(Queue(m, Fifo.BeginRead(remaining)), remaining > 0), Store(chunk, w, Dropping))
    case Dropping => (Assert(Queue(m, Fifo.Retire(false)), m.fifo.reading == remaining), Store(chunk, w, Unlock1))
    case Unlock1 => (m.(lock := Free), if w < |chunk| then Store(chunk, w, Write3) else LoadPlayed)
    case Write3 => (Queue(m, Fifo.BeginWrite(chunk[w..])), Store(chunk, w, Publish3))
    case Publish3 => (Assert(Queue(m, Fifo.Publish), |m.fifo.writing| == remaining), LoadPlayed)
  }

  /** Keeping the buffering under the limit. */
  function TrimStep(m: Mem, played: bool, limit: nat, at: TrimPc): (r: (Mem, Producer))
    requires m.fifo.Valid()
    ensures r.0.fifo.Valid()
  {
    var buffered := |m.fifo.queue|;
    match at
    case Check => (m, Trim(played, limit, if buffered > limit then Lock2 else Finish))
    case Lock2 => if m.lock.Free? then (m.(lock := ByProducer), Trim(played, limit, Check2)) else (m, Trim(played, limit, Lock2))
    case Check2 => (m, Trim(played, limit, if buffered > limit then Skip(buffered - limit) else Unlock2))
    case Skip(n) => (Assert(Queue(m, Fifo.BeginRead(n)), n > 0), Trim(played, limit, Skipping(n)))
    case Skipping(n) => (Assert(Queue(m, Fifo.Retire(false)), m.fifo.reading == n), Trim(played, limit, Unlock2))
    case Unlock2 => (m.(lock := Free), Trim(played, limit, Finish))
    case Finish => (m.(received := true, pushes := m.pushes + [Push(played, limit, buffered)]), Idle)
  }

  predicate ProducerValid(p: Producer) {
    p.Store? ==> p.w <= |p.chunk|
  }

  function ProducerNext(m: Mem, target: nat, rate: nat, p: Producer): (r: (Mem, Producer))
    requires m.fifo.Valid() && ProducerValid(p)
    ensures r.0.fifo.Valid() && ProducerValid(r.1)
  {
    match p
    case Idle => (m, p)
    case Gap(f, at) => GapStep(m, target, f, at)
    case Resample(f) =>
      (m, if f.resampled.None? then Idle else Store(KeepLast(f.resampled.value, m.fifo.capacity), 0, Write1))
    case Store(chunk, w, at) => StoreStep(m, chunk, w, at)
    case LoadPlayed => (if m.played then m.(underflow := 0) else m, Trim(m.played, Limit(target, rate, m.played), Check))
    case Trim(played, limit, at) => TrimStep(m, played, limit, at)
  }

  function PlayerNext(m: Mem, target: nat, p: Player): (r: (Mem, Player))
    requires m.fifo.Valid()
    ensures r.0.fifo.Valid()
  {
    match p
    case Ready => (m, p)
    case Lock(count) => if m.lock.Free? then (m.(lock := ByPlayer), CheckBuffering(count)) else (m, p)
    case CheckBuffering(count) =>
      (m, if !m.played && |m.fifo.queue| < target then UnlockSilent(count) else Take(count))
    case UnlockSilent(count) => (m.(lock := Free), Ready)
    case Take(count) => (Assert(Queue(m, Fifo.BeginRead(count)), count > 0), Taking(count))
    case Taking(count) => (Queue(m, Fifo.Retire(true)), Unlock(count, m.fifo.queue[..m.fifo.reading]))
    case Unlock(count, got) => (m.(lock := Free), if |got| < count then CountUnderflow(count, got) else SetPlayed(count, got))
    case CountUnderflow(count, got) =>
      (if m.received then m.(underflow := U32(m.underflow + count - |got|)) else m, SetPlayed(count, got))
    case SetPlayed(count, got) => (m.(played := true), Ready)
  }

  /** The caller's buffer after a pull: samples from the ring, then silence. */
  function Filled(got: seq<Sample>, count: nat): seq<Sample> {
    got + Silence(if count > |got| then count - |got| else 0)
  }

  /** The pull that ends with this step, if any. */
  function Completed(p: Player): seq<Pull> {
    if p.UnlockSilent? then [Pull(p.count, Silence(p.count), 0)]
    else if p.SetPlayed? then [Pull(p.count, Filled(p.got, p.count), |p.got|)]
    else []
  }

  predicate WellFormed(s: Sys) {
    s.mem.fifo.Valid() && ProducerValid(s.producer)
  }

  function Step(s: Sys, a: Action): (r: Sys)
    requires WellFormed(s)
    ensures WellFormed(r)
  {
    match a
    case PushFrame(f) =>
      if s.producer.Idle? then s.(producer := if f.gap then Gap(f, CheckGap) else Resample(f)) else s
    case ProducerStep =>
      var (mem, next) := ProducerNext(s.mem, s.target, s.rate, s.producer);
      s.(mem := mem, producer := next, reached := s.reached || |mem.fifo.queue| >= s.target)
    case PullSamples(count) =>
      if s.player.Ready? && count > 0 then s.(player := Lock(count)) else s
    case PlayerStep =>
      var (mem, next) := PlayerNext(s.mem, s.target, s.player);
      s.(mem := mem, player := next, pulls := s.pulls + Completed(s.player))
  }

  function Run(target: nat, rate: nat, actions: seq<Action>): (s: Sys)
    ensures WellFormed(s)
  {
    if actions == [] then Init(target, rate) else Step(Run(target, rate, DropLast(actions)), Last(actions))
  }

  // ---------------------------------------------------------------- assertions of the producer

  predicate StoreLocked(at: StorePc) {
    at.Write2? || at.Publish2? || at.Drop? || at.Dropping? || at.Unlock1?
  }

  predicate TrimLocked(at: TrimPc) {
    at.Check2? || at.Skip? || at.Skipping? || at.Unlock2?
  }

  predicate ProducerLocked(p: Producer) {
    (p.Store? && StoreLocked(p.store)) || (p.Trim? && TrimLocked(p.trim))
  }

  predicate StoreInv(m: Mem, chunk: seq<Sample>, w: nat, at: StorePc) {
    var cap := m.fifo.capacity;
    var size := |m.fifo.queue|;
    var writing := m.fifo.writing;
    && w <= |chunk| <= cap
    && (at.Write1? || at.Publish1? ==> w == 0)
    && (!at.Write1? && !at.Publish1? && !at.Unlock1? ==> w < |chunk|)
    && (!at.Publish1? && !at.Publish2? && !at.Publish3? ==> writing == [])
    && (at.Publish1? || at.Publish2? ==> writing <= chunk[w..])
    && (at.Publish2? && |writing| < |chunk| - w ==> size + |writing| == cap)
    && (at.Drop? || at.Dropping? ==> size == cap)
    && (at.Dropping? ==> m.fifo.reading == |chunk| - w)
    && (at.Unlock1? || at.Write3? ==> size + |chunk| - w <= cap)
    && (at.Publish3? ==> writing == chunk[w..])
    && (StoreLocked(at) && !at.Dropping? ==> m.fifo.reading == 0)
  }

  predicate TrimInv(m: Mem, limit: nat, at: TrimPc) {
    var size := |m.fifo.queue|;
    && m.fifo.writing == []
    && (at.Skip? || at.Skipping? ==> at.n > 0 && size == limit + at.n)
    && (at.Skipping? ==> m.fifo.reading == at.n)
    && (at.Unlock2? || at.Finish? ==> size <= limit)
    && (TrimLocked(at) && !at.Skipping? ==> m.fifo.reading == 0)
  }

  predicate ProducerInv(m: Mem, p: Producer) {
    && (m.lock.ByProducer? <==> ProducerLocked(p))
    && (m.lock.Free? ==> m.fifo.reading == 0)
    && (match p
        case Gap(_, at) => at.PublishSilence? || m.fifo.writing == []
        case Store(chunk, w, at) => StoreInv(m, chunk, w, at)
        case Trim(_, limit, at) => TrimInv(m, limit, at)
        case _ => m.fifo.writing == [])
  }

  /** What the producer does to the shared state, as the player sees it. */
  predicate ProducerGuarantee(m: Mem, m': Mem) {
    && (m.lock.ByPlayer? <==> m'.lock.ByPlayer?)
    && (m.lock.ByPlayer? ==> m.fifo.queue <= m'.fifo.queue && m.fifo.reading == m'.fifo.reading)
    && m'.played == m.played
    && m'.assertFailed == m.assertFailed
  }

  lemma StoreBeginKeeps(m: Mem, chunk: seq<Sample>, w: nat, at: StorePc)
    requires m.fifo.Valid() && ProducerInv(m, Store(chunk, w, at))
    requires at.Write1? || at.Write2? || at.Write3? || at.Drop? || at.Lock1?
    ensures var (m', p') := StoreStep(m, chunk, w, at);
            ProducerInv(m', p') && ProducerGuarantee(m, m')
  {
    hide Fifo.Mark, Fifo.State.Valid;
    assert chunk[0..] == chunk;
  }

  lemma StoreEndKeeps(m: Mem, chunk: seq<Sample>, w: nat, at: StorePc)
    requires m.fifo.Valid() && ProducerInv(m, Store(chunk, w, at))
    requires at.Publish1? || at.Publish2? || at.Publish3? || at.Dropping? || at.Unlock1?
    ensures var (m', p') := StoreStep(m, chunk, w, at);
            ProducerInv(m', p') && ProducerGuarantee(m, m')
  {
    hide Fifo.Mark;
  }

  lemma StoreKeeps(m: Mem, chunk: seq<Sample>, w: nat, at: StorePc)
    requires m.fifo.Valid() && ProducerInv(m, Store(chunk, w, at))
    ensures var (m', p') := StoreStep(m, chunk, w, at);
            ProducerInv(m', p') && ProducerGuarantee(m, m')
  {
    hide StoreStep, StoreInv;
    if at.Write1? || at.Write2? || at.Write3? || at.Drop? || at.Lock1? {
      StoreBeginKeeps(m, chunk, w, at);
    } else {
      StoreEndKeeps(m, chunk, w, at);
    }
  }

  lemma TrimKeeps(m: Mem, played: bool, limit: nat, at: TrimPc)
    requires m.fifo.Valid() && ProducerInv(m, Trim(played, limit, at))
    ensures var (m', p') := TrimStep(m, played, limit, at);
            ProducerInv(m', p') && ProducerGuarantee(m, m')
  {
    hide Fifo.Mark;
  }

  lemma GapKeeps(m: Mem, target: nat, f: Frame, at: GapPc)
    requires m.fifo.Valid() && ProducerInv(m, Gap(f, at))
    ensures var (m', p') := GapStep(m, target, f, at);
            ProducerInv(m', p') && ProducerGuarantee(m, m')
  {
    hide Fifo.Mark, Silence;
  }

  lemma ProducerKeeps(m: Mem, target: nat, rate: nat, p: Producer)
    requires m.fifo.Valid() && ProducerValid(p) && ProducerInv(m, p)
    ensures var (m', p') := ProducerNext(m, target, rate, p);
            ProducerInv(m', p') && ProducerGuarantee(m, m')
  {
    hide GapStep, StoreStep, TrimStep, Limit, ProducerInv, ProducerGuarantee;
    match p
    case Gap(f, at) => GapKeeps(m, target, f, at);
    case Store(chunk, w, at) => StoreKeeps(m, chunk, w, at);
    case Trim(played, limit, at) => TrimKeeps(m, played, limit, at);
    case _ => BetweenKeeps(m, target, rate, p);
  }

  /** The steps between the stages of a push. */
  lemma BetweenKeeps(m: Mem, target: nat, rate: nat, p: Producer)
    requires m.fifo.Valid() && ProducerInv(m, p) && (p.Idle? || p.Resample? || p.LoadPlayed?)
    ensures var (m', p') := ProducerNext(m, target, rate, p);
            ProducerInv(m', p') && ProducerGuarantee(m, m')
  {
    hide GapStep, StoreStep, TrimStep, Limit, KeepLast;
  }

  // ---------------------------------------------------------------- assertions of the player

  predicate PlayerLocked(p: Player) {
    p.CheckBuffering? || p.Take? || p.Taking? || p.Unlock? || p.UnlockSilent?
  }

  function InHand(p: Player): seq<Sample> {
    if p.Unlock? || p.CountUnderflow? || p.SetPlayed? then p.got else []
  }

  predicate PlayerInv(m: Mem, p: Player) {
    && (m.lock.ByPlayer? <==> PlayerLocked(p))
    && (m.lock.ByPlayer? && !p.Taking? ==> m.fifo.reading == 0)
    && (p.Lock? || p.CheckBuffering? || p.Take? ==> p.count > 0)
    && (p.Taking? ==> m.fifo.reading <= p.count)
    && (p.Unlock? || p.CountUnderflow? || p.SetPlayed? ==> |p.got| <= p.count)
    && (p.CountUnderflow? ==> |p.got| < p.count)
  }

  /** What the player does to the shared state, as the producer sees it. */
  predicate PlayerGuarantee(m: Mem, m': Mem) {
    && (m.lock.ByProducer? <==> m'.lock.ByProducer?)
    && (m.lock.ByProducer? ==> m'.fifo == m.fifo)
    && (m'.lock.Free? ==> m'.fifo.reading == 0)
    && m'.fifo.capacity == m.fifo.capacity
    && m'.fifo.writing == m.fifo.writing
    && |m'.fifo.queue| <= |m.fifo.queue|
    && m'.assertFailed == m.assertFailed
    && m'.pushes == m.pushes
  }

  lemma PlayerKeeps(m: Mem, target: nat, p: Player)
    requires m.fifo.Valid() && PlayerInv(m, p) && (m.lock.Free? ==> m.fifo.reading == 0)
    ensures var (m', p') := PlayerNext(m, target, p);
            PlayerInv(m', p') && PlayerGuarantee(m, m')
  {
    hide Fifo.Mark;
  }

  /** The producer may rely on what the player guarantees, and the other way round. */
  lemma ProducerInvIsStable(m: Mem, m': Mem, p: Producer)
    requires ProducerInv(m, p) && PlayerGuarantee(m, m')
    ensures ProducerInv(m', p)
  {
  }

  lemma PlayerInvIsStable(m: Mem, m': Mem, p: Player)
    requires PlayerInv(m, p) && ProducerGuarantee(m, m')
    ensures PlayerInv(m', p)
  {
  }

  predicate ThreadInv(s: Sys) {
    WellFormed(s) && ProducerInv(s.mem, s.producer) && PlayerInv(s.mem, s.player) && !s.mem.assertFailed
  }

  lemma StepKeepsThreadInv(s: Sys, a: Action)
    requires ThreadInv(s)
    ensures ThreadInv(Step(s, a))
  {
    hide ProducerNext, PlayerNext, Limit;
    match a
    case ProducerStep =>
      ProducerKeeps(s.mem, s.target, s.rate, s.producer);
      PlayerInvIsStable(s.mem, Step(s, a).mem, s.player);
    case PlayerStep =>
      PlayerKeeps(s.mem, s.target, s.player);
      ProducerInvIsStable(s.mem, Step(s, a).mem, s.producer);
    case _ =>
  }

  lemma {:induction false} RunKeepsThreadInv(target: nat, rate: nat, actions: seq<Action>)
    ensures ThreadInv(Run(target, rate, actions))
  {
    if actions != [] {
      hide Step;
      RunKeepsThreadInv(target, rate, DropLast(actions));
      StepKeepsThreadInv(Run(target, rate, DropLast(actions)), Last(actions));
    }
  }

  /** Whatever the player pulls meanwhile, no assert() of a push or of the ring buffer fails. */
  lemma {:induction false} AssertsHold(target: nat, rate: nat, actions: seq<Action>)
    ensures !Run(target, rate, actions).mem.assertFailed
  {
    hide Run;
    RunKeepsThreadInv(target, rate, actions);
  }

  // ---------------------------------------------------------------- what happens to the samples

  function StoreQueueAction(chunk: seq<Sample>, w: nat, at: StorePc): Fifo.Action
    requires w <= |chunk|
  {
    match at
    case Write1 => Fifo.BeginWrite(chunk)
    case Write2 => Fifo.BeginWrite(chunk[w..])
    case Write3 => Fifo.BeginWrite(chunk[w..])
    case Publish1 => Fifo.Publish
    case Publish2 => Fifo.Publish
    case Publish3 => Fifo.Publish
    case Drop => Fifo.BeginRead(|chunk| - w)
    case Dropping => Fifo.Retire(false)
    case _ => Fifo.Skip
  }

  function ProducerQueueAction(p: Producer): Fifo.Action
    requires ProducerValid(p)
  {
    match p
    case Gap(_, at) =>
      if at.WriteSilence? then Fifo.BeginWrite(Silence(at.n)) else if at.PublishSilence? then Fifo.Publish else Fifo.Skip
    case Store(chunk, w, at) => StoreQueueAction(chunk, w, at)
    case Trim(_, _, at) =>
      if at.Skip? then Fifo.BeginRead(at.n) else if at.Skipping? then Fifo.Retire(false) else Fifo.Skip
    case _ => Fifo.Skip
  }

  function PlayerQueueAction(p: Player): Fifo.Action {
    if p.Take? then Fifo.BeginRead(p.count) else if p.Taking? then Fifo.Retire(true) else Fifo.Skip
  }

  function QueueAction(s: Sys, a: Action): Fifo.Action
    requires WellFormed(s)
  {
    if a.ProducerStep? then ProducerQueueAction(s.producer)
    else if a.PlayerStep? then PlayerQueueAction(s.player)
    else Fifo.Skip
  }

  lemma StoreUsesQueue(m: Mem, chunk: seq<Sample>, w: nat, at: StorePc)
    requires m.fifo.Valid() && w <= |chunk|
    ensures StoreStep(m, chunk, w, at).0.fifo == Fifo.Step(m.fifo, StoreQueueAction(chunk, w, at))
    ensures StoreQueueAction(chunk, w, at) != Fifo.Retire(true)
  {
    hide Fifo.Mark;
  }

  lemma ProducerUsesQueue(m: Mem, target: nat, rate: nat, p: Producer)
    requires m.fifo.Valid() && ProducerValid(p)
    ensures ProducerNext(m, target, rate, p).0.fifo == Fifo.Step(m.fifo, ProducerQueueAction(p))
    ensures ProducerQueueAction(p) != Fifo.Retire(true)
  {
    hide Fifo.Mark, Limit, KeepLast, Silence, StoreStep, StoreQueueAction;
    if p.Store? {
      StoreUsesQueue(m, p.chunk, p.w, p.store);
    }
  }

  lemma PlayerUsesQueue(m: Mem, target: nat, p: Player)
    requires m.fifo.Valid()
    ensures PlayerNext(m, target, p).0.fifo == Fifo.Step(m.fifo, PlayerQueueAction(p))
  {
    hide Fifo.Mark, Silence;
  }

  /** The regulator uses the ring buffer only through the steps of the queue that the ring refines. */
  lemma StepUsesQueue(s: Sys, a: Action)
    requires WellFormed(s)
    ensures Step(s, a).mem.fifo == Fifo.Step(s.mem.fifo, QueueAction(s, a))
  {
    hide ProducerNext, PlayerNext, ProducerQueueAction, PlayerQueueAction;
    ProducerUsesQueue(s.mem, s.target, s.rate, s.producer);
    PlayerUsesQueue(s.mem, s.target, s.player);
  }

  /** The samples that the completed pulls took from the ring, in order. */
  ghost function Pulled(pulls: seq<Pull>): seq<Sample> {
    if pulls == [] then []
    else Pulled(DropLast(pulls)) + (var p := Last(pulls); if p.kept <= |p.out| then p.out[..p.kept] else [])
  }

  predicate PullValid(p: Pull) {
    p.kept <= |p.out| == p.count && forall j | p.kept <= j < p.count :: p.out[j] == SILENCE
  }

  ghost predicate HistoryInv(s: Sys) {
    && Fifo.InOrder(s.mem.fifo)
    && Fifo.Delivered(s.mem.fifo.gone) == Pulled(s.pulls) + InHand(s.player)
    && (forall p | p in s.pulls :: PullValid(p))
  }

  /** The samples that a queue action hands to the player. */
  function Handed(f: Fifo.State, a: Fifo.Action): seq<Sample>
    requires f.Valid()
  {
    if a.Retire? && a.deliver then f.queue[..f.reading] else []
  }

  lemma DeliveredAfter(f: Fifo.State, a: Fifo.Action)
    requires f.Valid()
    ensures Fifo.Delivered(Fifo.Step(f, a).gone)
         == Fifo.Delivered(f.gone) + Handed(f, a)
  {
    if a.Retire? {
      Fifo.DeliveredMark(f.gone, f.queue[..f.reading], a.deliver);
    }
  }

  lemma PulledAfter(pulls: seq<Pull>, p: Player)
    requires p.SetPlayed? ==> |p.got| <= p.count
    ensures Pulled(pulls + Completed(p)) == Pulled(pulls) + (if p.SetPlayed? then p.got else [])
    ensures forall q | q in Completed(p) :: PullValid(q)
  {
    var done := Completed(p);
    if done == [] {
      assert pulls + done == pulls;
    } else {
      assert DropLast(pulls + done) == pulls;
    }
  }

  /** What the player takes from the queue stays in its hands until the pull is completed. */
  lemma PlayerKeepsInHand(m: Mem, target: nat, p: Player)
    requires m.fifo.Valid()
    ensures var (m', p') := PlayerNext(m, target, p);
            && InHand(p) + Handed(m.fifo, PlayerQueueAction(p)) == (if p.SetPlayed? then p.got else []) + InHand(p')
            && m'.pushes == m.pushes
  {
    hide Fifo.Step;
  }

  lemma PlayerKeepsHistory(s: Sys)
    requires ThreadInv(s) && HistoryInv(s)
    ensures HistoryInv(Step(s, PlayerStep))
  {
    hide Fifo.InOrder, Fifo.Step, Fifo.Delivered, Completed, PlayerNext, PlayerQueueAction, InHand, Handed, ProducerInv,
         Pulled;
    var m, p := s.mem, s.player;
    var done := if p.SetPlayed? then p.got else [];
    var p' := PlayerNext(m, s.target, p).1;
    PlayerUsesQueue(m, s.target, p);
    Fifo.StepKeepsOrder(m.fifo, PlayerQueueAction(p));
    DeliveredAfter(m.fifo, PlayerQueueAction(p));
    PulledAfter(s.pulls, p);
    PlayerKeepsInHand(m, s.target, p);
    assert Pulled(s.pulls) + InHand(p) + Handed(m.fifo, PlayerQueueAction(p))
        == Pulled(s.pulls) + (InHand(p) + Handed(m.fifo, PlayerQueueAction(p)))
        == Pulled(s.pulls) + done + InHand(p');
  }

  lemma StepKeepsHistory(s: Sys, a: Action)
    requires ThreadInv(s) && HistoryInv(s)
    ensures HistoryInv(Step(s, a))
  {
    hide ProducerNext, PlayerNext, Limit, ProducerQueueAction, Fifo.InOrder, Fifo.Step, ProducerInv, PlayerInv;
    match a
    case ProducerStep =>
      ProducerUsesQueue(s.mem, s.target, s.rate, s.producer);
      Fifo.StepKeepsOrder(s.mem.fifo, ProducerQueueAction(s.producer));
      DeliveredAfter(s.mem.fifo, ProducerQueueAction(s.producer));
    case PlayerStep =>
      PlayerKeepsHistory(s);
    case _ =>
  }

  lemma {:induction false} RunKeepsHistory(target: nat, rate: nat, actions: seq<Action>)
    ensures ThreadInv(Run(target, rate, actions)) && HistoryInv(Run(target, rate, actions))
  {
    if actions != [] {
      hide Step, ThreadInv, HistoryInv;
      RunKeepsHistory(target, rate, DropLast(actions));
      StepKeepsThreadInv(Run(target, rate, DropLast(actions)), Last(actions));
      StepKeepsHistory(Run(target, rate, DropLast(actions)), Last(actions));
    }
  }

  // ---------------------------------------------------------------- the limit of a push

  /** No product of the computation of max_buffered_samples wraps around. */
  predicate NoWrap(target: nat, rate: nat) {
    target * 11 < U32_MODULUS && 60 * rate < U32_MODULUS
  }

  /** A tenth of the target and 60 ms, or 10 ms before the playback has started. */
  lemma LimitIs(target: nat, rate: nat, played: bool)
    requires NoWrap(target, rate)
    ensures Limit(target, rate, played) == target + (if played then target / 10 + 60 * rate / 1000 else 10 * rate / 1000)
    ensures target <= Limit(target, rate, false) <= Limit(target, rate, true)
  {
    assert target * 11 / 10 == target + target / 10;
    assert 60 * rate / 1000 < U32_MODULUS / 1000 + 1;
  }

  /** What a push compares the buffering with is the limit for what it has read of `played`. */
  predicate LimitInv(s: Sys) {
    && (s.producer.Trim? ==>
          s.producer.limit == Limit(s.target, s.rate, s.producer.played) && (s.producer.played ==> s.mem.played))
    && (forall p | p in s.mem.pushes ::
          p.buffered <= p.limit == Limit(s.target, s.rate, p.played) && (p.played ==> s.mem.played))
  }

  lemma ProducerKeepsLimit(s: Sys)
    requires ThreadInv(s) && LimitInv(s)
    ensures LimitInv(Step(s, ProducerStep))
  {
    hide Limit, GapStep, StoreStep, KeepLast, StoreInv, PlayerInv, Fifo.Step;
    if s.producer.Gap? || s.producer.Store? {
      GapAndStoreKeepPushes(s.mem, s.target, s.rate, s.producer);
    }
  }

  lemma GapAndStoreKeepPushes(m: Mem, target: nat, rate: nat, p: Producer)
    requires m.fifo.Valid() && ProducerValid(p) && (p.Gap? || p.Store?)
    ensures var (m', p') := ProducerNext(m, target, rate, p);
            m'.pushes == m.pushes && m'.played == m.played && !p'.Trim?
  {
    hide Fifo.Step, Fifo.State.Valid, StoreStep;
    if p.Store? {
      StoreKeepsPushes(m, p.chunk, p.w, p.store);
    }
  }

  lemma StoreKeepsPushes(m: Mem, chunk: seq<Sample>, w: nat, at: StorePc)
    requires m.fifo.Valid() && w <= |chunk|
    ensures var (m', p') := StoreStep(m, chunk, w, at);
            m'.pushes == m.pushes && m'.played == m.played && !p'.Trim?
  {
    hide Fifo.Step, Fifo.State.Valid, Min;
  }

  lemma PlayerKeepsLimit(s: Sys)
    requires WellFormed(s) && LimitInv(s)
    ensures LimitInv(Step(s, PlayerStep))
  {
    hide Limit, Fifo.Step, Completed;
  }

  lemma {:induction false} RunKeepsLimit(target: nat, rate: nat, actions: seq<Action>)
    ensures ThreadInv(Run(target, rate, actions)) && LimitInv(Run(target, rate, actions))
    ensures Run(target, rate, actions).target == target && Run(target, rate, actions).rate == rate
  {
    if actions != [] {
      hide ThreadInv, LimitInv, ProducerNext, PlayerNext;
      var before := DropLast(actions);
      RunKeepsLimit(target, rate, before);
      StepKeepsThreadInv(Run(target, rate, before), Last(actions));
      StepKeepsLimit(Run(target, rate, before), Last(actions));
    }
  }

  lemma StepKeepsLimit(s: Sys, a: Action)
    requires ThreadInv(s) && LimitInv(s)
    ensures LimitInv(Step(s, a))
  {
    hide ProducerNext, PlayerNext, Limit, ProducerInv, PlayerInv;
    match a
    case ProducerStep => ProducerKeepsLimit(s);
    case PlayerStep => PlayerKeepsLimit(s);
    case _ =>
  }

  /**
   * A successful push returns with at most a tenth of the target and 60 ms above the target, or 10 ms
   * as long as it has not seen the playback start; `played` is only seen once it is set.
   */
  lemma {:induction false} PushBoundsBuffering(target: nat, rate: nat, actions: seq<Action>, i: nat)
    requires NoWrap(target, rate) && i < |Run(target, rate, actions).mem.pushes|
    ensures var s := Run(target, rate, actions);
            var p := s.mem.pushes[i];
            && p.buffered <= target + (if p.played then target / 10 + 60 * rate / 1000 else 10 * rate / 1000)
            && (p.played ==> s.mem.played)
  {
    hide Run, Limit;
    RunKeepsLimit(target, rate, actions);
    LimitIs(target, rate, Run(target, rate, actions).mem.pushes[i].played);
  }

  /** A push drops samples for its limit only above it, and then leaves exactly that much, which is at least the target. */
  lemma {:induction false} DropsToLimit(target: nat, rate: nat, actions: seq<Action>)
    requires var p := Run(target, rate, actions).producer; p.Trim? && p.trim.Skipping?
    ensures var s, r := Run(target, rate, actions), Run(target, rate, actions + [ProducerStep]);
            var limit := Limit(target, rate, s.producer.played);
            && |s.mem.fifo.queue| > limit && r.mem.fifo.queue == KeepLast(s.mem.fifo.queue, limit)
            && (NoWrap(target, rate) ==> target <= |r.mem.fifo.queue|)
  {
    hide Run, Limit, Fifo.Mark;
    RunKeepsLimit(target, rate, actions);
    RunSnoc(target, rate, actions, ProducerStep);
    var s := Run(target, rate, actions);
    if NoWrap(target, rate) {
      LimitIs(target, rate, s.producer.played);
    }
  }

  lemma RunSnoc(target: nat, rate: nat, actions: seq<Action>, a: Action)
    ensures Run(target, rate, actions + [a]) == Step(Run(target, rate, actions), a)
  {
    assert DropLast(actions + [a]) == actions;
  }

  /** Since `start` pushes, playback is on and the pushes have seen it. */
  predicate SeesPlayed(s: Sys, start: nat) {
    && s.mem.played && start <= |s.mem.pushes|
    && (s.producer.Trim? ==> s.producer.played)
    && (forall i | start <= i < |s.mem.pushes| :: s.mem.pushes[i].played)
  }

  lemma StepKeepsSeen(s: Sys, a: Action, start: nat)
    requires WellFormed(s) && SeesPlayed(s, start)
    ensures SeesPlayed(Step(s, a), start)
  {
    hide Limit, Fifo.Step, Fifo.State.Valid, KeepLast, GapStep, StoreStep, Completed;
    if a.ProducerStep? && (s.producer.Gap? || s.producer.Store?) {
      GapAndStoreKeepPushes(s.mem, s.target, s.rate, s.producer);
    }
  }

  /** Every push that begins after the playback has started sees it, whatever follows. */
  lemma {:induction false} LaterPushesSeePlayed(target: nat, rate: nat, actions: seq<Action>, more: seq<Action>)
    requires var s := Run(target, rate, actions); s.mem.played && s.producer.Idle?
    ensures SeesPlayed(Run(target, rate, actions + more), |Run(target, rate, actions).mem.pushes|)
  {
    if more == [] {
      assert actions + more == actions;
    } else {
      hide Run, Step, SeesPlayed;
      LaterPushesSeePlayed(target, rate, actions, DropLast(more));
      assert actions + more == actions + DropLast(more) + [Last(more)];
      RunSnoc(target, rate, actions + DropLast(more), Last(more));
      StepKeepsSeen(Run(target, rate, actions + DropLast(more)), Last(more), |Run(target, rate, actions).mem.pushes|);
    }
  }

  /**
   * Samples stored (resampled audio and inserted silence) are the samples delivered, the
   * samples skipped and the samples still buffered; the player receives an in-order
   * selection of them, and every pull is filled to the requested length, with silence at its end.
   */
  lemma {:induction false} SamplesAreConserved(target: nat, rate: nat, actions: seq<Action>)
    ensures var s := Run(target, rate, actions);
            var f := s.mem.fifo;
            && |f.published| == |Pulled(s.pulls) + InHand(s.player)| + Fifo.SkippedCount(f.gone) + |f.queue|
            && Subsequence(Pulled(s.pulls) + InHand(s.player), f.published)
            && (forall p | p in s.pulls :: PullValid(p))
  {
    hide Run, Subsequence;
    RunKeepsHistory(target, rate, actions);
    Fifo.ConservesSamples(Run(target, rate, actions).mem.fifo);
  }

  /** The player has passed the initial buffering check. */
  predicate Playing(p: Player) {
    p.Take? || p.Taking? || p.Unlock? || p.CountUnderflow? || p.SetPlayed?
  }

  ghost predicate BufferingInv(s: Sys) {
    && (|s.mem.fifo.queue| >= s.target ==> s.reached)
    && (s.mem.played || Playing(s.player) || Pulled(s.pulls) != [] ==> s.reached)
  }

  lemma StepKeepsBuffering(s: Sys, a: Action)
    requires ThreadInv(s) && BufferingInv(s)
    ensures BufferingInv(Step(s, a))
  {
    hide ProducerNext, Limit, Fifo.Step, Completed, StoreInv, TrimInv;
    ProducerKeeps(s.mem, s.target, s.rate, s.producer);
    PlayerKeeps(s.mem, s.target, s.player);
    PulledAfter(s.pulls, s.player);
  }

  lemma {:induction false} RunKeepsBuffering(target: nat, rate: nat, actions: seq<Action>)
    ensures ThreadInv(Run(target, rate, actions)) && BufferingInv(Run(target, rate, actions))
  {
    if actions != [] {
      hide Step, ThreadInv, BufferingInv;
      RunKeepsBuffering(target, rate, DropLast(actions));
      StepKeepsThreadInv(Run(target, rate, DropLast(actions)), Last(actions));
      StepKeepsBuffering(Run(target, rate, DropLast(actions)), Last(actions));
    }
  }

  /** No sample reaches the player before the buffer has held `target` samples. */
  lemma {:induction false} NothingDeliveredBeforeTarget(target: nat, rate: nat, actions: seq<Action>)
    ensures var s := Run(target, rate, actions);
            !s.reached ==> Pulled(s.pulls) + InHand(s.player) == []
  {
    hide Run;
    RunKeepsBuffering(target, rate, actions);
  }
}
