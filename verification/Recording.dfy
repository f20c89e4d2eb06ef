/**
 * The recorder (app/src/recorder.c): two demuxer threads push packets, any thread may
 * stop it, and the recorder thread writes to the muxer. Each critical section is one
 * step, and so is each stretch of the recorder thread between two critical sections,
 * split at its foreign calls.
 *
 * A foreign call reports its success in the action. The muxer is the log of what it is handed.
 */
module Recording {
  import opened Common
  import opened PtsRepair

  datatype Packet = Packet(id: nat, pts: int, duration: int)

  predicate IsConfig(p: Packet) {
    p.pts == NOPTS
  }

  /** One stream: its queue, the packet that the recorder thread holds, and the history of both. */
  datatype Lane = Lane(
    init: bool,
    expects: bool,            // a configuration packet is expected first
    index: int,               // of the muxer stream, or -1
    queue: seq<Packet>,
    held: Option<Packet>,
    accepted: seq<Packet>,    // history: every packet pushed successfully
    taken: seq<Packet>        // history: the packets that reached the writing step
  )

  datatype Written = Written(video: bool, packet: Packet)

  const LAST_DURATION := 100000

  /** The next thing the recorder thread does. */
  datatype Thread =
    | Header          // waits, then takes the configuration packets
    | Config          // checks them and writes the header
    | Take            // waits, then takes packets
    | Process         // discards configuration packets, chooses the origin
    | WriteVideo
    | WriteAudio
    | Finish          // writes the last video packet and the trailer
    | Ended(success: bool)
    | Done(success: bool)

  datatype State = State(
    video: bool,
    audio: bool,
    stopped: bool,
    v: Lane,
    a: Lane,
    thread: Thread,
    previous: Option<Packet>,
    origin: int,
    late: bool,               // history: the origin was chosen after the stop, for want of an audio packet
    log: seq<Written>,
    assertFailed: bool
  )

  /** How far opening a stream goes: the muxer stream, its parameters, and the orientation of a video. */
  datatype Opening = NoStream | NoParameters | NoOrientation(index: nat) | Opened(index: nat, expects: bool)

  datatype Action =
    | OpenVideo(opening: Opening)
    | OpenAudio(opening: Opening)
    | DisableAudio
    | PushVideo(packet: Packet)
    | PushAudio(packet: Packet)
    | CloseVideo
    | CloseAudio
    | Stop
    | ThreadStep(ok: bool)

  const CLOSED_LANE := Lane(false, false, -1, [], None, [], [])

  function Init(video: bool, audio: bool): State {
    State(video, audio, false, CLOSED_LANE, CLOSED_LANE, Header, None, NOPTS, false, [], false)
  }

  predicate Running(t: Thread) {
    t != Ended(false) && t != Done(false)
  }

  /** The run ended without error. */
  predicate Over(t: Thread) {
    t == Ended(true) || t == Done(true)
  }

  function Accept(l: Lane, p: Packet): (r: Lane)
    ensures r == l.(queue := r.queue, accepted := r.accepted)
  {
    l.(queue := l.queue + [p], accepted := l.accepted + [p])
  }

  /** Takes the next packet unless one is held already. */
  function Pop(l: Lane): (r: Lane)
    ensures r == l.(held := r.held, queue := r.queue)
  {
    if l.held.None? && l.queue != [] then l.(held := Some(l.queue[0]), queue := l.queue[1..]) else l
  }

  function Discard(l: Lane): (r: Lane)
    ensures r == l.(held := r.held)
  {
    l.(held := WithoutConfig(l.held))
  }

  function WithoutConfig(p: Option<Packet>): Option<Packet> {
    if p.Some? && IsConfig(p.value) then None else p
  }

  function Consume(l: Lane): (r: Lane)
    ensures r == l.(held := r.held, taken := r.taken)
  {
    if l.held.Some? then l.(held := None, taken := l.taken + [l.held.value]) else l
  }

  predicate MustWaitForHeader(s: State) {
    && !s.stopped
    && (|| (s.video && !s.v.init)
        || (s.audio && !s.a.init)
        || (s.video && s.v.expects && s.v.queue == [])
        || (s.audio && s.a.expects && s.a.queue == []))
  }

  predicate SameOrigin(s: State, r: State) {
    r.origin == s.origin && r.late == s.late
  }

  function HeaderStep(s: State): (r: State)
    ensures r == s.(v := r.v, a := r.a, thread := r.thread, assertFailed := r.assertFailed)
    ensures r.v == s.v.(held := r.v.held, queue := r.v.queue) && r.a == s.a.(held := r.a.held, queue := r.a.queue)
  {
    if MustWaitForHeader(s) then s
    else if s.stopped && s.video && s.v.queue == [] then s.(thread := Ended(false))
    else
      s.(assertFailed := || s.assertFailed
                         || !(s.v.expects && s.v.queue != [] ==> s.video)
                         || !(s.a.expects && s.a.queue != [] ==> s.audio),
         v := if s.v.expects then Pop(s.v) else s.v,
         a := if s.a.expects then Pop(s.a) else s.a,
         thread := Config)
  }

  predicate IsConfigOrNone(p: Option<Packet>) {
    p.Some? ==> IsConfig(p.value)
  }

  /** A held configuration packet is stored in the muxer stream, whose index is asserted. */
  predicate HasStream(l: Lane) {
    l.held.Some? && IsConfig(l.held.value) ==> l.index >= 0
  }

  /** ok: the extra data could be set and the header written. */
  function ConfigStep(s: State, ok: bool): (r: State)
    ensures r == s.(v := r.v, a := r.a, thread := r.thread, assertFailed := r.assertFailed)
    ensures r.v == s.v.(held := r.v.held) && r.a == s.a.(held := r.a.held)
  {
    var good := ok && IsConfigOrNone(s.v.held) && IsConfigOrNone(s.a.held);
    s.(assertFailed := s.assertFailed || !HasStream(s.v) || !HasStream(s.a),
       v := s.v.(held := None), a := s.a.(held := None), thread := if good then Take else Ended(false))
  }

  predicate MustWaitForPackets(s: State) {
    && !s.stopped
    && !(s.video && s.v.held.None? && s.v.queue != [])
    && !(s.audio && s.a.held.None? && s.a.queue != [])
  }

  function TakeStep(s: State): (r: State)
    ensures r == s.(v := r.v, a := r.a, thread := r.thread, assertFailed := r.assertFailed)
    ensures r.v == s.v.(held := r.v.held, queue := r.v.queue) && r.a == s.a.(held := r.a.held, queue := r.a.queue)
  {
    if MustWaitForPackets(s) then s
    else
      var v, a := Pop(s.v), Pop(s.a);
      var over := s.stopped && v.held.None? && a.held.None?;
      s.(assertFailed := || s.assertFailed
                         || !(s.video || (s.v.held.None? && s.v.queue == []))
                         || !(s.audio || (s.a.held.None? && s.a.queue == []))
                         || !(if over then v.queue == [] && a.queue == [] else v.held.Some? || a.held.Some?),
         v := v, a := a, thread := if over then Finish else Process)
  }

  datatype Choice = Origin(pts: int) | NotYet | NoVideo

  /** The origin of time, from the packets held. */
  function ChooseOrigin(origin: int, video: bool, audio: bool, stopped: bool, v: Option<Packet>, a: Option<Packet>): Choice {
    if origin != NOPTS then Origin(origin)
    else if !audio && v.Some? then Origin(v.value.pts)
    else if !video && a.Some? then Origin(a.value.pts)
    else if video && audio && v.Some? && a.Some? then Origin(Min(v.value.pts, a.value.pts))
    else if stopped then (if v.Some? then Origin(v.value.pts) else NoVideo)
    else NotYet
  }

  /** `stopped` and `audio` are read here without the lock. */
  function ProcessStep(s: State): (r: State)
    ensures r == s.(v := r.v, a := r.a, origin := r.origin, late := r.late, thread := r.thread)
    ensures r.v == s.v.(held := r.v.held) && r.a == s.a.(held := r.a.held)
    ensures s.origin != NOPTS ==> r.origin == s.origin && r.late == s.late
  {
    var v, a := Discard(s.v), Discard(s.a);
    var choice := ChooseOrigin(s.origin, s.video, s.audio, s.stopped, v.held, a.held);
    s.(v := v, a := a, origin := if choice.Origin? then choice.pts else s.origin, thread := AfterChoice(choice),
       late := s.late || (s.origin == NOPTS && choice.Origin? && s.audio && a.held.None?))
  }

  function AfterChoice(choice: Choice): Thread {
    match choice
    case Origin(_) => WriteVideo
    case NotYet => Take
    case NoVideo => Ended(false)
  }

  function Shifted(p: Packet, origin: int): Packet {
    p.(pts := p.pts - origin)
  }

  /** ok: the muxer accepted the packet. */
  function WriteVideoStep(s: State, ok: bool): (r: State)
    ensures r == s.(v := r.v, previous := r.previous, log := r.log, thread := r.thread, assertFailed := r.assertFailed)
    ensures r.v == s.v.(held := r.v.held, taken := r.v.taken)
  {
    var r := s.(assertFailed := s.assertFailed || s.origin == NOPTS, v := Consume(s.v), thread := WriteAudio);
    if s.v.held.None? then r
    else
      var p := Shifted(s.v.held.value, s.origin);
      if s.previous.None? then r.(previous := Some(p))
      else
        var q := s.previous.value;
        r.(previous := Some(p),
           log := s.log + [Written(true, q.(duration := p.pts - q.pts))],
           thread := if ok then WriteAudio else Ended(false))
  }

  function WriteAudioStep(s: State, ok: bool): (r: State)
    ensures r == s.(a := r.a, log := r.log, thread := r.thread)
    ensures r.a == s.a.(held := r.a.held, taken := r.a.taken)
  {
    var r := s.(a := Consume(s.a), thread := Take);
    if s.a.held.None? then r
    else r.(log := s.log + [Written(false, Shifted(s.a.held.value, s.origin))],
            thread := if ok then Take else Ended(false))
  }

  /** Failing to write the last packet is not an error; ok: the trailer was written. */
  function FinishStep(s: State, ok: bool): (r: State)
    ensures r == s.(previous := r.previous, log := r.log, thread := Ended(ok))
  {
    var r := s.(thread := Ended(ok), previous := None);
    if s.previous.None? then r
    else r.(log := s.log + [Written(true, s.previous.value.(duration := LAST_DURATION))])
  }

  function CleanupStep(s: State): State
    requires s.thread.Ended?
  {
    s.(stopped := true, v := s.v.(queue := []), a := s.a.(queue := []), thread := Done(s.thread.success))
  }

  function ThreadStepOf(s: State, ok: bool): State {
    match s.thread
    case Header => HeaderStep(s)
    case Config => ConfigStep(s, ok)
    case Take => TakeStep(s)
    case Process => ProcessStep(s)
    case WriteVideo => WriteVideoStep(s, ok)
    case WriteAudio => WriteAudioStep(s, ok)
    case Finish => FinishStep(s, ok)
    case Ended(_) => CleanupStep(s)
    case Done(_) => s
  }

  function Open(l: Lane, opening: Opening): (r: Lane)
    ensures r == l.(init := r.init, expects := r.expects, index := r.index)
  {
    match opening
    case Opened(index, expects) => l.(init := true, expects := expects, index := index)
    case NoOrientation(index) => l.(index := index)
    case _ => l
  }

  /** The sinks. An action that the packet sources never request leaves the state unchanged. */
  function SinkStep(s: State, a: Action): State
  {
    match a
    case OpenVideo(opening) => if s.video && !s.v.init && !s.stopped then s.(v := Open(s.v, opening)) else s
    case OpenAudio(opening) =>
      if s.audio && !s.a.init && !opening.NoOrientation? then s.(a := Open(s.a, opening)) else s
    case DisableAudio => if s.audio && !s.a.init then s.(audio := false, a := s.a.(init := true)) else s
    case PushVideo(p) => if s.v.init && !s.stopped then s.(v := Accept(s.v, p)) else s
    case PushAudio(p) => if s.audio && s.a.init && !s.stopped then s.(a := Accept(s.a, p)) else s
    case CloseVideo => if s.v.init then s.(stopped := true) else s
    case CloseAudio => if s.audio && s.a.init then s.(stopped := true) else s
    case _ => s.(stopped := true)
  }

  function Step(s: State, a: Action): State {
    if a.ThreadStep? then ThreadStepOf(s, a.ok) else SinkStep(s, a)
  }

  function Run(video: bool, audio: bool, actions: seq<Action>): State {
    if actions == [] then Init(video, audio) else Step(Run(video, audio, DropLast(actions)), Last(actions))
  }

  // ---------------------------------------------------------------- what must be written

  function NonConfig(s: seq<Packet>): seq<Packet> {
    if s == [] then []
    else NonConfig(DropLast(s)) + (if IsConfig(Last(s)) then [] else [Last(s)])
  }

  /** A video packet lasts until the next one; the last one has an arbitrary duration. */
  function VideoOut(s: seq<Packet>, origin: int): (r: seq<Packet>)
    ensures |r| == |s|
  {
    seq(|s|, i requires 0 <= i < |s| =>
      Shifted(s[i], origin).(duration := if i + 1 < |s| then s[i + 1].pts - s[i].pts else LAST_DURATION))
  }

  function AudioOut(s: seq<Packet>, origin: int): (r: seq<Packet>)
    ensures |r| == |s|
  {
    seq(|s|, i requires 0 <= i < |s| => Shifted(s[i], origin))
  }

  /** The packets of one stream handed to the muxer, in order. */
  function StreamOf(log: seq<Written>, video: bool): seq<Packet> {
    if log == [] then []
    else StreamOf(DropLast(log), video) + (if Last(log).video == video then [Last(log).packet] else [])
  }

  lemma StreamOfAppend(log: seq<Written>, w: Written)
    ensures StreamOf(log + [w], w.video) == StreamOf(log, w.video) + [w.packet]
    ensures StreamOf(log + [w], !w.video) == StreamOf(log, !w.video)
  {
    assert DropLast(log + [w]) == log;
  }

  lemma {:induction false} NonConfigAppend(s: seq<Packet>, t: seq<Packet>)
    ensures NonConfig(s + t) == NonConfig(s) + NonConfig(t)
  {
    if t == [] {
      assert s + t == s;
    } else {
      NonConfigAppend(s, DropLast(t));
      assert DropLast(s + t) == s + DropLast(t) && Last(s + t) == Last(t);
      var kept := if IsConfig(Last(t)) then [] else [Last(t)];
      assert NonConfig(s + t) == NonConfig(s + DropLast(t)) + kept && NonConfig(t) == NonConfig(DropLast(t)) + kept;
      hide NonConfig;
    }
  }

  lemma NonConfigOne(p: Packet)
    ensures NonConfig([p]) == if IsConfig(p) then [] else [p]
  {
  }

  // ---------------------------------------------------------------- no packet is lost

  function Held(l: Lane): seq<Packet> {
    if l.held.Some? then [l.held.value] else []
  }

  /** Every accepted packet that is not a configuration packet has been taken or is still to come. */
  predicate LaneInv(l: Lane) {
    NonConfig(l.accepted) == l.taken + NonConfig(Held(l)) + NonConfig(l.queue)
  }

  lemma AcceptKeeps(l: Lane, p: Packet)
    requires LaneInv(l)
    ensures LaneInv(Accept(l, p)) && NonConfig(l.accepted) <= NonConfig(Accept(l, p).accepted)
  {
    hide NonConfig;
    NonConfigAppend(l.accepted, [p]);
    NonConfigAppend(l.queue, [p]);
  }

  lemma PopKeeps(l: Lane)
    requires LaneInv(l)
    ensures LaneInv(Pop(l))
  {
    if l.held.None? && l.queue != [] {
      hide NonConfig;
      NonConfigAppend([l.queue[0]], l.queue[1..]);
      assert l.queue == [l.queue[0]] + l.queue[1..];
      assert NonConfig(Held(l)) == [] by { NonConfigNothing(); }
    }
  }

  lemma NonConfigNothing()
    ensures NonConfig([]) == []
  {
  }

  lemma DiscardKeeps(l: Lane)
    requires LaneInv(l)
    ensures LaneInv(Discard(l))
  {
    if l.held.Some? {
      NonConfigOne(l.held.value);
    }
  }

  lemma ConfigKeeps(l: Lane)
    requires LaneInv(l) && IsConfigOrNone(l.held)
    ensures LaneInv(l.(held := None))
  {
    DiscardKeeps(l);
  }

  lemma ConsumeKeeps(l: Lane)
    requires LaneInv(l) && Discard(l) == l
    ensures LaneInv(Consume(l))
  {
    if l.held.Some? {
      NonConfigOne(l.held.value);
    }
  }

  predicate NothingLost(s: State) {
    Running(s.thread) ==> LaneInv(s.v) && LaneInv(s.a)
  }

  predicate Filtered(l: Lane) {
    Discard(l) == l
  }

  predicate Unused(l: Lane) {
    l.queue == [] && l.held.None? && !l.expects && l.accepted == []
  }

  /** Who may hold packets where: what the assert() of the recorder thread rest on. */
  predicate QueueInv(s: State) {
    && !s.assertFailed
    && (s.v.init ==> s.video && s.v.index >= 0)
    && (s.a.init && s.audio ==> s.a.index >= 0)
    && (!s.v.init ==> Unused(s.v))
    && (!s.a.init || !s.audio ==> Unused(s.a))
    && (match s.thread
        case Header => s.v.held.None? && s.a.held.None?
        case Config => true
        case Take => Filtered(s.v) && Filtered(s.a)
        case Process => true
        case WriteVideo => s.origin != NOPTS && Filtered(s.v) && Filtered(s.a)
        case WriteAudio => s.origin != NOPTS && s.v.held.None? && Filtered(s.a)
        case Finish => s.stopped && s.v.queue == s.a.queue == [] && s.v.held.None? && s.a.held.None?
        case _ => Running(s.thread) ==> s.stopped && s.v.queue == s.a.queue == [] && s.v.held.None? && s.a.held.None?)
  }

  lemma SinkKeepsQueueInv(s: State, a: Action)
    requires QueueInv(s) && !a.ThreadStep?
    ensures QueueInv(SinkStep(s, a))
  {
    hide IsConfig;
  }

  lemma WaitingKeepsQueueInv(s: State, ok: bool)
    requires QueueInv(s) && (s.thread.Header? || s.thread.Config? || s.thread.Take?)
    ensures QueueInv(ThreadStepOf(s, ok))
  {
    hide ProcessStep, WriteVideoStep, WriteAudioStep;
  }

  lemma ProcessKeepsQueueInv(s: State)
    requires QueueInv(s) && s.thread.Process?
    ensures QueueInv(ProcessStep(s))
  {
  }

  lemma VideoKeepsQueueInv(s: State, ok: bool)
    requires QueueInv(s) && s.thread.WriteVideo?
    ensures QueueInv(WriteVideoStep(s, ok))
  {
    hide IsConfig;
  }

  lemma AudioKeepsQueueInv(s: State, ok: bool)
    requires QueueInv(s) && s.thread.WriteAudio?
    ensures QueueInv(WriteAudioStep(s, ok))
  {
    hide IsConfig;
  }

  lemma WritingKeepsQueueInv(s: State, ok: bool)
    requires QueueInv(s) && (s.thread.WriteVideo? || s.thread.WriteAudio?)
    ensures QueueInv(ThreadStepOf(s, ok))
  {
    hide QueueInv, ProcessStep, WriteVideoStep, WriteAudioStep;
    if s.thread.WriteVideo? {
      VideoKeepsQueueInv(s, ok);
    } else {
      AudioKeepsQueueInv(s, ok);
    }
  }

  lemma EndingKeepsQueueInv(s: State, ok: bool)
    requires QueueInv(s) && (s.thread.Finish? || s.thread.Ended? || s.thread.Done?)
    ensures QueueInv(ThreadStepOf(s, ok))
  {
    hide ProcessStep, WriteVideoStep, WriteAudioStep;
  }

  lemma ProcessIsNext(s: State, a: Action)
    requires a.ThreadStep? && s.thread.Process?
    ensures Step(s, a) == ProcessStep(s)
  {
  }

  lemma StepKeepsQueueInv(s: State, a: Action)
    requires QueueInv(s)
    ensures QueueInv(Step(s, a))
  {
    hide SinkStep, ThreadStepOf, QueueInv;
    if !a.ThreadStep? {
      SinkKeepsQueueInv(s, a);
    } else if s.thread.Header? || s.thread.Config? || s.thread.Take? {
      WaitingKeepsQueueInv(s, a.ok);
    } else if s.thread.Process? {
      ProcessKeepsQueueInv(s);
      assert Step(s, a) == ProcessStep(s) by { ProcessIsNext(s, a); }
    } else if s.thread.WriteVideo? || s.thread.WriteAudio? {
      WritingKeepsQueueInv(s, a.ok);
    } else {
      EndingKeepsQueueInv(s, a.ok);
    }
  }

  lemma SinkKeepsLanes(s: State, a: Action)
    requires NothingLost(s) && !a.ThreadStep?
    ensures NothingLost(SinkStep(s, a))
  {
    hide LaneInv, Accept;
    if Running(s.thread) {
      if a.PushVideo? { AcceptKeeps(s.v, a.packet); }
      if a.PushAudio? { AcceptKeeps(s.a, a.packet); }
    }
    LaneInvIgnoresSetup(s.v);
    LaneInvIgnoresSetup(s.a);
  }

  lemma TakingKeepsLanes(s: State)
    requires NothingLost(s) && (s.thread.Header? || s.thread.Take?)
    ensures NothingLost(HeaderStep(s)) && NothingLost(TakeStep(s))
  {
    hide LaneInv, Pop;
    PopKeeps(s.v);
    PopKeeps(s.a);
  }

  lemma WritingKeepsLanes(s: State, ok: bool)
    requires NothingLost(s) && (s.thread.WriteVideo? || s.thread.WriteAudio?)
    requires s.thread.WriteVideo? ==> Filtered(s.v)
    requires s.thread.WriteAudio? ==> Filtered(s.a)
    ensures s.thread.WriteVideo? ==> NothingLost(WriteVideoStep(s, ok))
    ensures s.thread.WriteAudio? ==> NothingLost(WriteAudioStep(s, ok))
  {
    hide LaneInv, Consume;
    if s.thread.WriteVideo? {
      ConsumeKeeps(s.v);
    } else {
      ConsumeKeeps(s.a);
    }
  }

  lemma ThreadKeepsLanes(s: State, ok: bool)
    requires QueueInv(s) && NothingLost(s)
    ensures NothingLost(ThreadStepOf(s, ok))
  {
    hide LaneInv, Pop, Discard, Consume, HeaderStep, TakeStep, WriteVideoStep, WriteAudioStep, ChooseOrigin;
    if Running(s.thread) {
      match s.thread
      case Header => TakingKeepsLanes(s);
      case Take => TakingKeepsLanes(s);
      case WriteVideo => WritingKeepsLanes(s, ok);
      case WriteAudio => WritingKeepsLanes(s, ok);
      case Config =>
        if IsConfigOrNone(s.v.held) && IsConfigOrNone(s.a.held) {
          ConfigKeeps(s.v);
          ConfigKeeps(s.a);
        }
      case _ =>
        DiscardKeeps(s.v);
        DiscardKeeps(s.a);
    }
    LaneInvIgnoresSetup(s.v);
    LaneInvIgnoresSetup(s.a);
  }

  lemma StepKeepsLanes(s: State, a: Action)
    requires QueueInv(s) && NothingLost(s)
    ensures NothingLost(Step(s, a))
  {
    hide SinkStep, ThreadStepOf, QueueInv, NothingLost;
    if a.ThreadStep? {
      ThreadKeepsLanes(s, a.ok);
    } else {
      SinkKeepsLanes(s, a);
    }
  }

  lemma LaneInvIgnoresSetup(l: Lane)
    ensures forall init, expects, index :: LaneInv(l) == LaneInv(l.(init := init, expects := expects, index := index))
    ensures forall opening :: LaneInv(l) == LaneInv(Open(l, opening))
    ensures l.queue == [] ==> LaneInv(l) == LaneInv(l.(queue := []))
  {
  }

  // ---------------------------------------------------------------- what the muxer is handed

  predicate LogInv(s: State) {
    Running(s.thread) ==>
      && StreamOf(s.log, false) == AudioOut(s.a.taken, s.origin)
      && (s.origin == NOPTS ==> s.v.taken == [] && s.a.taken == [])
      && (if Over(s.thread) then StreamOf(s.log, true) == VideoOut(s.v.taken, s.origin) else VideoPending(s))
  }

  /** While recording, the last video packet taken waits for the next one. */
  predicate VideoPending(s: State) {
    if s.v.taken == [] then s.previous.None? && StreamOf(s.log, true) == []
    else
      && s.previous == Some(Shifted(Last(s.v.taken), s.origin))
      && StreamOf(s.log, true) == DropLast(VideoOut(s.v.taken, s.origin))
  }

  lemma VideoOutSnoc(t: seq<Packet>, p: Packet, origin: int)
    ensures DropLast(VideoOut(t + [p], origin)) ==
            if t == [] then []
            else DropLast(VideoOut(t, origin)) + [Shifted(Last(t), origin).(duration := p.pts - Last(t).pts)]
  {
  }

  lemma VideoOutLast(t: seq<Packet>, origin: int)
    requires t != []
    ensures VideoOut(t, origin)
         == DropLast(VideoOut(t, origin)) + [Shifted(Last(t), origin).(duration := LAST_DURATION)]
  {
  }

  lemma FirstVideoKeepsLog(s: State, ok: bool)
    requires LogInv(s) && s.thread.WriteVideo? && s.origin != NOPTS && (s.v.held.None? || s.previous.None?)
    ensures LogInv(WriteVideoStep(s, ok))
  {
    hide VideoOut, AudioOut, StreamOf;
    if s.v.held.Some? {
      VideoOutSnoc(s.v.taken, s.v.held.value, s.origin);
    }
  }

  lemma NextVideoKeepsLog(s: State, ok: bool)
    requires LogInv(s) && s.thread.WriteVideo? && s.origin != NOPTS && s.v.held.Some? && s.previous.Some?
    ensures LogInv(WriteVideoStep(s, ok))
  {
    hide VideoOut, AudioOut, StreamOf;
    VideoOutSnoc(s.v.taken, s.v.held.value, s.origin);
    StreamOfAppend(s.log, Last(WriteVideoStep(s, ok).log));
  }

  lemma WriteVideoKeepsLog(s: State, ok: bool)
    requires LogInv(s) && s.thread.WriteVideo? && s.origin != NOPTS
    ensures LogInv(WriteVideoStep(s, ok))
  {
    hide LogInv, WriteVideoStep;
    if s.v.held.Some? && s.previous.Some? {
      NextVideoKeepsLog(s, ok);
    } else {
      FirstVideoKeepsLog(s, ok);
    }
  }

  lemma WriteAudioKeepsLog(s: State, ok: bool)
    requires LogInv(s) && s.thread.WriteAudio? && s.origin != NOPTS
    ensures LogInv(WriteAudioStep(s, ok))
  {
    hide VideoOut, StreamOf;
    if s.a.held.Some? {
      StreamOfAppend(s.log, Last(WriteAudioStep(s, ok).log));
    }
  }

  lemma FinishKeepsLog(s: State, ok: bool)
    requires LogInv(s) && s.thread.Finish?
    ensures LogInv(FinishStep(s, ok))
  {
    hide AudioOut, StreamOf, VideoOut;
    if s.previous.Some? {
      VideoOutLast(s.v.taken, s.origin);
      StreamOfAppend(s.log, Last(FinishStep(s, ok).log));
    } else {
      assert VideoOut([], s.origin) == [];
    }
  }

  predicate SamePhase(s: State, r: State) {
    Running(r.thread) ==> Running(s.thread) && (Over(s.thread) <==> Over(r.thread))
  }

  lemma SinkIsQuiet(s: State, a: Action)
    requires !a.ThreadStep?
    ensures var r := SinkStep(s, a);
            && r.thread == s.thread && r.origin == s.origin && r.video == s.video
            && r.v.taken == s.v.taken && r.a.taken == s.a.taken
            && r.previous == s.previous && r.log == s.log
            && r.late == s.late && (s.stopped ==> r.stopped)
            && (r.audio == s.audio || (s.audio && !s.a.init))
            && (!a.PushVideo? ==> r.v.accepted == s.v.accepted)
            && (!a.PushAudio? ==> r.a.accepted == s.a.accepted)
  {
    SinkStops(s, a);
    SinkAccepts(s, a);
    SinkKeepsHeld(s, a);
    SinkWritesNothing(s, a);
    hide SinkStep;
  }

  lemma SinkWritesNothing(s: State, a: Action)
    ensures var r := SinkStep(s, a);
            && r == s.(v := r.v, a := r.a, audio := r.audio, stopped := r.stopped)
            && r.v.taken == s.v.taken && r.a.taken == s.a.taken
  {
    hide Accept, Open;
  }

  lemma SinkStops(s: State, a: Action)
    ensures var r := SinkStep(s, a);
            (s.stopped ==> r.stopped) && (r.audio == s.audio || (s.audio && !s.a.init))
  {
    hide Accept, Open;
  }

  lemma SinkAccepts(s: State, a: Action)
    ensures var r := SinkStep(s, a);
            (!a.PushVideo? ==> r.v.accepted == s.v.accepted) && (!a.PushAudio? ==> r.a.accepted == s.a.accepted)
  {
    hide Accept, Open;
  }

  lemma TakingGoesOn(s: State)
    ensures HeaderStep(s).thread == s.thread || HeaderStep(s).thread == Config || HeaderStep(s).thread == Ended(false)
    ensures TakeStep(s).thread == s.thread || TakeStep(s).thread == Process || TakeStep(s).thread == Finish
  {
    hide Pop, MustWaitForHeader, MustWaitForPackets;
  }

  lemma WritingGoesOn(s: State, ok: bool)
    ensures WriteVideoStep(s, ok).thread == WriteAudio || WriteVideoStep(s, ok).thread == Ended(false)
    ensures WriteAudioStep(s, ok).thread == Take || WriteAudioStep(s, ok).thread == Ended(false)
  {
    hide Consume;
  }

  lemma ProcessingGoesOn(s: State)
    ensures var next := ProcessStep(s).thread; next == WriteVideo || next == Take || next == Ended(false)
  {
    hide ChooseOrigin, Discard;
  }

  /** The order of the stretches of the thread. */
  lemma ThreadGoesOn(s: State, ok: bool)
    ensures var next := ThreadStepOf(s, ok).thread;
            match s.thread
            case Header => next == Header || next == Config || next == Ended(false)
            case Config => next == Take || next == Ended(false)
            case Take => next == Take || next == Process || next == Finish
            case Process => next == WriteVideo || next == Take || next == Ended(false)
            case WriteVideo => next == WriteAudio || next == Ended(false)
            case WriteAudio => next == Take || next == Ended(false)
            case Finish => next == Ended(ok)
            case Ended(success) => next == Done(success)
            case Done(_) => next == s.thread
  {
    hide HeaderStep, TakeStep, ProcessStep, WriteVideoStep, WriteAudioStep, IsConfigOrNone, HasStream;
    TakingGoesOn(s);
    ProcessingGoesOn(s);
    WritingGoesOn(s, ok);
  }

  lemma ThreadIsQuiet(s: State, ok: bool)
    requires !s.thread.WriteVideo? && !s.thread.WriteAudio? && !s.thread.Finish?
    ensures var r := ThreadStepOf(s, ok);
            && r == s.(v := r.v, a := r.a, thread := r.thread, assertFailed := r.assertFailed, stopped := r.stopped,
                       origin := r.origin, late := r.late)
            && r.v == s.v.(held := r.v.held, queue := r.v.queue) && r.a == s.a.(held := r.a.held, queue := r.a.queue)
            && (s.stopped ==> r.stopped) && SamePhase(s, r)
            && (s.origin != NOPTS || !s.thread.Process? ==> SameOrigin(s, r))
  {
    hide HeaderStep, ConfigStep, TakeStep, ProcessStep;
    ThreadGoesOn(s, ok);
  }

  lemma WritingAcceptsNothing(s: State, ok: bool)
    requires s.thread.WriteVideo? || s.thread.WriteAudio? || s.thread.Finish?
    ensures var r := ThreadStepOf(s, ok);
            && r == s.(v := r.v, a := r.a, thread := r.thread, assertFailed := r.assertFailed, previous := r.previous, log := r.log)
            && r.v == s.v.(held := r.v.held, taken := r.v.taken) && r.a == s.a.(held := r.a.held, taken := r.a.taken)
  {
    hide WriteVideoStep, WriteAudioStep, FinishStep, HeaderStep, ConfigStep, TakeStep, ProcessStep, CleanupStep;
  }

  lemma QuietKeepsLog(s: State, r: State)
    requires LogInv(s) && SamePhase(s, r) && (r.origin == s.origin || s.origin == NOPTS)
    requires r.log == s.log && r.previous == s.previous && r.v.taken == s.v.taken && r.a.taken == s.a.taken
    ensures LogInv(r)
  {
    hide StreamOf;
    assert AudioOut([], s.origin) == AudioOut([], r.origin);
    assert VideoOut([], s.origin) == VideoOut([], r.origin);
  }

  lemma StepKeepsLog(s: State, a: Action)
    requires QueueInv(s) && LogInv(s)
    ensures LogInv(Step(s, a))
  {
    hide WriteVideoStep, WriteAudioStep, FinishStep, LogInv, SinkStep, HeaderStep, ConfigStep, TakeStep, ProcessStep;
    if a.ThreadStep? && s.thread.WriteVideo? {
      WriteVideoKeepsLog(s, a.ok);
    } else if a.ThreadStep? && s.thread.WriteAudio? {
      WriteAudioKeepsLog(s, a.ok);
    } else if a.ThreadStep? && s.thread.Finish? {
      FinishKeepsLog(s, a.ok);
    } else if a.ThreadStep? {
      hide ThreadStepOf;
      ThreadIsQuiet(s, a.ok);
      QuietKeepsLog(s, Step(s, a));
    } else {
      SinkIsQuiet(s, a);
      QuietKeepsLog(s, Step(s, a));
    }
  }

  // ---------------------------------------------------------------- the origin of time

  /**
   * The first timestamp of the only stream, or the lesser of the first timestamps of both. The audio is
   * not waited for once the recorder is stopped: the origin is then that of the video.
   */
  predicate OriginIsFirst(s: State) {
    var v := NonConfig(s.v.accepted);
    var a := NonConfig(s.a.accepted);
    if !s.video then a != [] && s.origin == a[0].pts && !s.late
    else if s.late then v != [] && s.origin == v[0].pts && s.stopped
    else if !s.audio then v != [] && s.origin == v[0].pts
    else
      && v != [] && a != []
      && s.origin <= v[0].pts && s.origin <= a[0].pts && (s.origin == v[0].pts || s.origin == a[0].pts)
  }

  predicate OriginInv(s: State) {
    Running(s.thread) ==> if s.origin != NOPTS then OriginIsFirst(s) else !s.late
  }

  lemma ProcessKeepsOrigin(s: State)
    requires QueueInv(s) && NothingLost(s) && LogInv(s) && OriginInv(s) && s.thread.Process?
    ensures OriginInv(ProcessStep(s))
  {
    hide NonConfig, LaneInv, LogInv, QueueInv;
    if s.origin == NOPTS && Running(s.thread) {
      NothingTaken(s);
      WithoutVideo(s);
      HeldIsFirst(s.v);
      HeldIsFirst(s.a);
    }
  }

  lemma WithoutVideo(s: State)
    requires QueueInv(s)
    ensures !s.video ==> s.v.held.None?
  {
  }

  lemma NothingTaken(s: State)
    requires LogInv(s) && Running(s.thread) && s.origin == NOPTS
    ensures s.v.taken == [] && s.a.taken == []
  {
    hide VideoOut, AudioOut, StreamOf, VideoPending;
  }

  /** Before any is taken, a packet held is the first one that is not a configuration packet. */
  lemma HeldIsFirst(l: Lane)
    requires LaneInv(l) && l.taken == []
    ensures Discard(l).held.Some? ==> NonConfig(l.accepted) != [] && NonConfig(l.accepted)[0] == Discard(l).held.value
  {
    hide NonConfig;
    if l.held.Some? {
      NonConfigOne(l.held.value);
    }
  }

  lemma StepKeepsOrigin(s: State, a: Action)
    requires QueueInv(s) && NothingLost(s) && LogInv(s) && OriginInv(s)
    ensures OriginInv(Step(s, a))
  {
    hide QueueInv, NothingLost, LogInv, OriginInv, ThreadStepOf, SinkStep;
    if !a.ThreadStep? {
      SinkKeepsOrigin(s, a);
    } else if s.thread.Process? {
      ProcessKeepsOrigin(s);
      ProcessIsNext(s, a);
    } else {
      ThreadKeepsOrigin(s, a.ok);
    }
  }

  lemma ThreadKeepsOrigin(s: State, ok: bool)
    requires OriginInv(s) && !s.thread.Process?
    ensures OriginInv(ThreadStepOf(s, ok))
  {
    hide NonConfig, ThreadStepOf;
    if s.thread.WriteVideo? || s.thread.WriteAudio? || s.thread.Finish? {
      WritingAcceptsNothing(s, ok);
    } else {
      ThreadIsQuiet(s, ok);
    }
    ThreadGoesOn(s, ok);
  }

  lemma SinkKeepsOrigin(s: State, a: Action)
    requires QueueInv(s) && NothingLost(s) && OriginInv(s) && !a.ThreadStep?
    ensures OriginInv(SinkStep(s, a))
  {
    hide NonConfig, LaneInv, SinkStep, QueueInv;
    SinkIsQuiet(s, a);
    UninitializedIsEmpty(s);
    if Running(s.thread) {
      PushGrows(s, a);
    }
  }

  lemma UninitializedIsEmpty(s: State)
    requires QueueInv(s)
    ensures !s.a.init ==> NonConfig(s.a.accepted) == []
  {
  }

  lemma PushGrows(s: State, a: Action)
    requires NothingLost(s) && Running(s.thread) && !a.ThreadStep?
    ensures NonConfig(s.v.accepted) <= NonConfig(SinkStep(s, a).v.accepted)
    ensures NonConfig(s.a.accepted) <= NonConfig(SinkStep(s, a).a.accepted)
  {
    hide NonConfig, LaneInv;
    if a.PushVideo? {
      AcceptKeeps(s.v, a.packet);
    } else if a.PushAudio? {
      AcceptKeeps(s.a, a.packet);
    }
  }

  predicate Inv(s: State) {
    QueueInv(s) && NothingLost(s) && LogInv(s) && OriginInv(s)
  }

  lemma {:induction false} RunKeeps(video: bool, audio: bool, actions: seq<Action>)
    ensures Inv(Run(video, audio, actions))
  {
    if actions == [] {
      assert AudioOut([], NOPTS) == [];
    } else {
      hide Step, QueueInv, NothingLost, LogInv, OriginInv;
      RunKeeps(video, audio, DropLast(actions));
      var s := Run(video, audio, DropLast(actions));
      StepKeepsQueueInv(s, Last(actions));
      StepKeepsLanes(s, Last(actions));
      StepKeepsLog(s, Last(actions));
      StepKeepsOrigin(s, Last(actions));
    }
  }

  /**
   * No assert() of the recorder fails, for any interleaving and any results of the foreign calls: an origin is chosen before
   * anything is written, and no packet comes from a stream that is not recorded, or has no index.
   */
  lemma {:induction false} AssertsHold(video: bool, audio: bool, actions: seq<Action>)
    ensures var s := Run(video, audio, actions);
            && !s.assertFailed
            && (s.thread.WriteVideo? || s.thread.WriteAudio? ==> s.origin != NOPTS)
            && (!s.video ==> s.v.held.None? && s.v.queue == [] && !s.v.expects)
            && (!s.audio ==> s.a.held.None? && s.a.queue == [] && !s.a.expects)
            && (s.v.held.Some? ==> s.v.index >= 0) && (s.a.held.Some? ==> s.a.index >= 0)
  {
    hide Run, IsConfig;
    RunKeeps(video, audio, actions);
  }

  /**
   * A run that ends without error hands the muxer, for each stream, exactly the accepted
   * packets that are not configuration packets: once each, in arrival order, with times
   * relative to a common origin and each video packet lasting until the next one.
   */
  lemma {:induction false} RecordsEverything(video: bool, audio: bool, actions: seq<Action>)
    requires Over(Run(video, audio, actions).thread)
    ensures var s := Run(video, audio, actions);
            && StreamOf(s.log, true) == VideoOut(NonConfig(s.v.accepted), s.origin)
            && StreamOf(s.log, false) == AudioOut(NonConfig(s.a.accepted), s.origin)
            && (s.log != [] ==> OriginIsFirst(s))
  {
    hide Run, StreamOf, VideoOut, AudioOut, NonConfig;
    RunKeeps(video, audio, actions);
    var s := Run(video, audio, actions);
    NonConfigNothing();
    assert s.v.taken == NonConfig(s.v.accepted);
    assert s.a.taken == NonConfig(s.a.accepted);
    if s.origin == NOPTS {
      NothingWritten(s);
    }
  }

  lemma NothingWritten(s: State)
    requires LogInv(s) && Over(s.thread) && s.origin == NOPTS
    ensures s.log == []
  {
  }

  // ---------------------------------------------------------------- the header

  /** The stream is open, and the configuration packet that it expects is the first one accepted, which is held. */
  predicate HoldsConfig(l: Lane) {
    l.init && (l.expects ==> l.accepted != [] && l.held == Some(l.accepted[0]))
  }

  predicate HoldsFirst(l: Lane) {
    l.held.Some? ==> l.expects && l.accepted != [] && l.held.value == l.accepted[0]
  }

  predicate StartsWithConfig(l: Lane) {
    l.init && (l.expects ==> l.accepted != [] && IsConfig(l.accepted[0]))
  }

  predicate HeaderInv(s: State) {
    match s.thread
    case Header => s.v.accepted == s.v.queue && s.a.accepted == s.a.queue && s.origin == NOPTS
    case Config =>
      && HoldsFirst(s.v) && HoldsFirst(s.a) && s.origin == NOPTS
      && (!s.stopped ==> (s.video ==> HoldsConfig(s.v)) && (s.audio ==> HoldsConfig(s.a)))
    case _ => Running(s.thread) && !s.stopped ==> (s.video ==> StartsWithConfig(s.v)) && (s.audio ==> StartsWithConfig(s.a))
  }

  lemma SinkKeepsHeader(s: State, a: Action)
    requires QueueInv(s) && HeaderInv(s) && !a.ThreadStep?
    ensures HeaderInv(SinkStep(s, a))
  {
    hide IsConfig;
  }

  lemma StartKeepsHeader(s: State, ok: bool)
    requires QueueInv(s) && HeaderInv(s) && (s.thread.Header? || s.thread.Config?)
    ensures HeaderInv(ThreadStepOf(s, ok))
  {
    hide TakeStep, ProcessStep, WriteVideoStep, WriteAudioStep, FinishStep;
  }

  /** Past the header, a step of the thread changes nothing that the header depends on. */
  lemma ThreadKeepsHeader(s: State, ok: bool)
    requires HeaderInv(s) && !s.thread.Header? && !s.thread.Config?
    ensures HeaderInv(ThreadStepOf(s, ok))
  {
    hide ThreadStepOf, IsConfig;
    ThreadGoesOn(s, ok);
    if s.thread.WriteVideo? || s.thread.WriteAudio? || s.thread.Finish? {
      WritingAcceptsNothing(s, ok);
    } else {
      ThreadIsQuiet(s, ok);
    }
  }

  /**
   * Until it is stopped, the recorder writes the header only once every stream is open, and after
   * the configuration packet of each one that expects it, which is its first packet.
   */
  lemma {:induction false} HeaderWaits(video: bool, audio: bool, actions: seq<Action>)
    ensures HeaderInv(Run(video, audio, actions))
  {
    if actions != [] {
      hide Step, HeaderInv, QueueInv;
      var before := DropLast(actions);
      HeaderWaits(video, audio, before);
      RunKeeps(video, audio, before);
      StepKeepsHeader(Run(video, audio, before), Last(actions));
    }
  }

  lemma StepKeepsHeader(s: State, a: Action)
    requires QueueInv(s) && HeaderInv(s)
    ensures HeaderInv(Step(s, a))
  {
    hide HeaderInv, QueueInv, ThreadStepOf, SinkStep;
    if !a.ThreadStep? {
      SinkKeepsHeader(s, a);
    } else if s.thread.Header? || s.thread.Config? {
      StartKeepsHeader(s, a.ok);
    } else {
      ThreadKeepsHeader(s, a.ok);
    }
  }

  // ---------------------------------------------------------------- what the thread waits for

  /** Once the origin is chosen, no packet is held back. */
  predicate HoldsNothing(s: State) {
    s.thread.Take? && s.origin != NOPTS ==> s.v.held.None? && s.a.held.None?
  }

  lemma StepHoldsNothing(s: State, a: Action)
    requires QueueInv(s) && HoldsNothing(s)
    ensures HoldsNothing(Step(s, a))
  {
    hide QueueInv, SinkStep, HeaderStep, ConfigStep, TakeStep, ProcessStep, WriteVideoStep, WriteAudioStep, FinishStep,
         CleanupStep;
    if !a.ThreadStep? {
      SinkKeepsHeld(s, a);
    } else if s.thread.Config? {
      ConfigHoldsNothing(s, a.ok);
    } else if s.thread.Take? {
      WaitingHoldsNothing(s);
    } else if s.thread.Process? {
      ProcessingHoldsNothing(s);
    } else if s.thread.WriteAudio? {
      WritingHoldsNothing(s, a.ok);
    } else {
      ThreadGoesOn(s, a.ok);
    }
  }

  lemma ConfigHoldsNothing(s: State, ok: bool)
    ensures HoldsNothing(ConfigStep(s, ok))
  {
    hide IsConfigOrNone, HasStream;
  }

  lemma SinkKeepsHeld(s: State, a: Action)
    requires !a.ThreadStep?
    ensures var r := SinkStep(s, a);
            r.v.held == s.v.held && r.a.held == s.a.held && r.thread == s.thread && r.origin == s.origin
  {
    hide Accept, Open;
  }

  lemma WaitingHoldsNothing(s: State)
    requires HoldsNothing(s)
    ensures HoldsNothing(TakeStep(s))
  {
    hide Pop, MustWaitForPackets;
  }

  lemma ProcessingHoldsNothing(s: State)
    ensures HoldsNothing(ProcessStep(s))
  {
    hide Discard;
  }

  lemma WritingHoldsNothing(s: State, ok: bool)
    requires QueueInv(s) && s.thread.WriteAudio?
    ensures HoldsNothing(WriteAudioStep(s, ok))
  {
    hide IsConfig;
  }

  lemma {:induction false} RunHoldsNothing(video: bool, audio: bool, actions: seq<Action>)
    ensures HoldsNothing(Run(video, audio, actions))
  {
    if actions != [] {
      hide Step, QueueInv, HoldsNothing;
      RunHoldsNothing(video, audio, DropLast(actions));
      RunKeeps(video, audio, DropLast(actions));
      StepHoldsNothing(Run(video, audio, DropLast(actions)), Last(actions));
    }
  }

  /** A stream that the header waits for: it is not open, or has not received the configuration packet that it expects. */
  predicate Missing(enabled: bool, l: Lane) {
    enabled && (!l.init || (l.expects && l.accepted == []))
  }

  /**
   * The thread waits only for what is missing: before the header, until it is stopped, exactly while some
   * stream is missing; afterwards, once the origin is chosen, only if every packet accepted has been taken.
   */
  lemma {:induction false} WaitsOnlyForMissing(video: bool, audio: bool, actions: seq<Action>)
    ensures var s := Run(video, audio, actions);
            && (s.thread.Header? ==>
                  (MustWaitForHeader(s) <==> !s.stopped && (Missing(s.video, s.v) || Missing(s.audio, s.a))))
            && (s.thread.Take? && MustWaitForPackets(s) ==> !s.stopped)
            && (s.thread.Take? && MustWaitForPackets(s) && s.origin != NOPTS ==>
                  s.v.taken == NonConfig(s.v.accepted) && s.a.taken == NonConfig(s.a.accepted))
  {
    hide Run;
    RunKeeps(video, audio, actions);
    HeaderWaits(video, audio, actions);
    RunHoldsNothing(video, audio, actions);
    var s := Run(video, audio, actions);
    NonConfigNothing();
    DisabledIsUnused(s);
    hide QueueInv, NonConfig, IsConfig;
  }

  lemma DisabledIsUnused(s: State)
    requires QueueInv(s)
    ensures !s.video ==> Unused(s.v)
    ensures !s.audio ==> Unused(s.a)
  {
  }

  // ---------------------------------------------------------------- the end of the thread

  /** The header gives up exactly when the recorder is stopped without a video packet. */
  lemma {:induction false} HeaderGivesUpIff(video: bool, audio: bool, actions: seq<Action>)
    requires Run(video, audio, actions).thread.Header?
    ensures var s, r := Run(video, audio, actions), Run(video, audio, actions + [ThreadStep(true)]);
            r.thread == Ended(false) <==> s.stopped && s.video && s.v.accepted == []
  {
    hide Run, Pop;
    HeaderWaits(video, audio, actions);
    RunSnoc(video, audio, actions, ThreadStep(true));
  }

  predicate Failed(t: Thread) {
    t == Ended(false) || t == Done(false)
  }

  /** The stream expects a configuration packet and has begun with another one. */
  predicate BeginsWrong(l: Lane) {
    l.expects && l.accepted != [] && !IsConfig(l.accepted[0])
  }

  /** Why the thread fails: the header is wrong, or the recorder was stopped before it could choose an origin. */
  predicate FailsForReason(s: State) {
    BeginsWrong(s.v) || BeginsWrong(s.a) || (s.stopped && s.origin == NOPTS)
  }

  lemma StartHasReason(s: State)
    requires QueueInv(s) && HeaderInv(s) && (s.thread.Header? || s.thread.Config?)
    ensures var r := ThreadStepOf(s, true); Failed(r.thread) ==> FailsForReason(r)
  {
    hide Pop, TakeStep, ProcessStep, WriteVideoStep, WriteAudioStep, FinishStep, HasStream;
  }
  lemma ProcessHasReason(s: State)
    ensures Failed(ProcessStep(s).thread) ==> s.stopped && ProcessStep(s).origin == NOPTS
  {
    hide Discard;
  }

  lemma LaterHasReason(s: State)
    requires !s.thread.Header? && !s.thread.Config? && !s.thread.Process?
    ensures var r := ThreadStepOf(s, true); Failed(r.thread) ==> Failed(s.thread)
  {
    hide HeaderStep, ConfigStep, TakeStep, ProcessStep, WriteVideoStep, WriteAudioStep;
    TakingGoesOn(s);
    WritingSucceeds(s);
  }

  lemma WritingSucceeds(s: State)
    ensures WriteVideoStep(s, true).thread == WriteAudio && WriteAudioStep(s, true).thread == Take
  {
    hide Consume;
  }

  lemma ThreadKeepsReason(s: State)
    requires QueueInv(s) && HeaderInv(s) && (Failed(s.thread) ==> FailsForReason(s))
    ensures var r := ThreadStepOf(s, true); Failed(r.thread) ==> FailsForReason(r)
  {
    hide ThreadStepOf, QueueInv, HeaderInv, BeginsWrong, ProcessStep;
    if s.thread.Header? || s.thread.Config? {
      StartHasReason(s);
    } else if s.thread.Process? {
      ProcessHasReason(s);
      ProcessIsNext(s, ThreadStep(true));
      ThreadIsQuiet(s, true);
    } else {
      LaterHasReason(s);
      if Failed(s.thread) {
        ThreadIsQuiet(s, true);
        SameLanesSameReason(s, ThreadStepOf(s, true));
      }
    }
  }

  lemma SameLanesSameReason(s: State, r: State)
    requires r.v == s.v.(held := r.v.held, queue := r.v.queue) && r.a == s.a.(held := r.a.held, queue := r.a.queue)
    ensures BeginsWrong(s.v) == BeginsWrong(r.v) && BeginsWrong(s.a) == BeginsWrong(r.a)
  {
  }

  lemma SinkKeepsReason(s: State, a: Action)
    requires QueueInv(s) && !a.ThreadStep? && FailsForReason(s)
    ensures FailsForReason(SinkStep(s, a))
  {
    hide IsConfig;
  }

  /**
   * The thread fails only if a foreign call fails, if a stream that expects a configuration packet begins with
   * another one, or if the recorder is stopped before it could choose an origin.
   */
  lemma {:induction false} FailureHasReason(video: bool, audio: bool, actions: seq<Action>)
    ensures var s := Run(video, audio, actions);
            Failed(s.thread) && ThreadStep(false) !in actions ==> FailsForReason(s)
  {
    if actions != [] && ThreadStep(false) !in actions {
      hide Step, Failed, FailsForReason, QueueInv, HeaderInv;
      var before := DropLast(actions);
      assert actions == before + [Last(actions)];
      FailureHasReason(video, audio, before);
      RunKeeps(video, audio, before);
      HeaderWaits(video, audio, before);
      StepKeepsReason(Run(video, audio, before), Last(actions));
    }
  }

  lemma StepKeepsReason(s: State, a: Action)
    requires QueueInv(s) && HeaderInv(s) && (Failed(s.thread) ==> FailsForReason(s)) && a != ThreadStep(false)
    ensures Failed(Step(s, a).thread) ==> FailsForReason(Step(s, a))
  {
    hide FailsForReason, QueueInv, HeaderInv, SinkStep, ThreadStepOf;
    if a.ThreadStep? {
      ThreadKeepsReason(s);
    } else {
      SinkKeepsHeld(s, a);
      if FailsForReason(s) {
        SinkKeepsReason(s, a);
      }
    }
  }

  function Holding(l: Lane): nat {
    if l.held.Some? then 1 else 0
  }

  /** The steps that the thread still takes once it is stopped. */
  function Rank(s: State): nat {
    var queued := |s.v.queue| + |s.a.queue|;
    match s.thread
    case Header => 5 * queued + 5
    case Config => 5 * queued + 4
    case Take => 5 * (queued + Holding(s.v) + Holding(s.a)) + 3
    case Process => 5 * queued + 6
    case WriteVideo => 5 * queued + 5
    case WriteAudio => 5 * queued + 4
    case Finish => 2
    case Ended(_) => 1
    case Done(_) => 0
  }

  lemma StartSinks(s: State, ok: bool)
    requires s.stopped && (s.thread.Header? || s.thread.Config?)
    ensures Rank(ThreadStepOf(s, ok)) < Rank(s)
  {
    hide TakeStep, ProcessStep, WriteVideoStep, WriteAudioStep, FinishStep, IsConfigOrNone, HasStream;
  }

  lemma TakeSinks(s: State)
    requires s.stopped && s.thread.Take?
    ensures Rank(TakeStep(s)) < Rank(s)
  {
    PopSinks(s.v);
    PopSinks(s.a);
    hide Pop;
  }

  lemma PopSinks(l: Lane)
    ensures |Pop(l).queue| + Holding(Pop(l)) == |l.queue| + Holding(l)
  {
  }

  lemma ProcessSinks(s: State)
    requires s.stopped && s.thread.Process?
    ensures Rank(ProcessStep(s)) < Rank(s)
  {
    hide Discard;
  }

  lemma WritingSinks(s: State, ok: bool)
    requires QueueInv(s) && (s.thread.WriteVideo? || s.thread.WriteAudio?)
    ensures Rank(if s.thread.WriteVideo? then WriteVideoStep(s, ok) else WriteAudioStep(s, ok)) < Rank(s)
  {
    hide IsConfig;
  }

  lemma ThreadSinks(s: State, ok: bool)
    requires QueueInv(s) && s.stopped && !s.thread.Done?
    ensures Rank(ThreadStepOf(s, ok)) < Rank(s)
  {
    hide QueueInv, HeaderStep, ConfigStep, TakeStep, ProcessStep, WriteVideoStep, WriteAudioStep;
    if s.thread.Header? || s.thread.Config? {
      StartSinks(s, ok);
    } else if s.thread.Take? {
      TakeSinks(s);
    } else if s.thread.Process? {
      ProcessSinks(s);
    } else if s.thread.WriteVideo? || s.thread.WriteAudio? {
      WritingSinks(s, ok);
    }
  }

  /** Once the recorder is stopped, its thread ends after a bounded number of its steps, whatever the foreign calls return. */
  lemma {:induction false} StoppedEnds(video: bool, audio: bool, actions: seq<Action>, oks: seq<bool>)
    requires Run(video, audio, actions).stopped && |oks| >= Rank(Run(video, audio, actions))
    ensures Run(video, audio, actions + Steps(oks)).thread.Done?
    decreases |oks|
  {
    hide Run, Step, Steps, QueueInv;
    var s := Run(video, audio, actions);
    if s.thread.Done? {
      DoneStays(video, audio, actions, oks);
    } else {
      RunKeeps(video, audio, actions);
      var next := ThreadStep(oks[0]);
      ThreadSinks(s, oks[0]);
      RunSnoc(video, audio, actions, next);
      StepOfThread(s, oks[0]);
      StepsGoOn(actions, oks);
      StoppedEnds(video, audio, actions + [next], oks[1..]);
    }
  }

  function Steps(oks: seq<bool>): seq<Action> {
    if oks == [] then [] else [ThreadStep(oks[0])] + Steps(oks[1..])
  }

  lemma StepsGoOn(actions: seq<Action>, oks: seq<bool>)
    requires oks != []
    ensures actions + Steps(oks) == actions + [ThreadStep(oks[0])] + Steps(oks[1..])
  {
  }

  lemma StepOfThread(s: State, ok: bool)
    requires s.stopped
    ensures Step(s, ThreadStep(ok)) == ThreadStepOf(s, ok) && ThreadStepOf(s, ok).stopped
  {
    hide HeaderStep, ConfigStep, TakeStep, ProcessStep, WriteVideoStep, WriteAudioStep, FinishStep;
  }

  lemma DoneStep(s: State, ok: bool)
    requires s.thread.Done?
    ensures Step(s, ThreadStep(ok)) == s
  {
  }

  lemma {:induction false} DoneStays(video: bool, audio: bool, actions: seq<Action>, oks: seq<bool>)
    requires Run(video, audio, actions).thread.Done?
    ensures Run(video, audio, actions + Steps(oks)).thread.Done?
    decreases |oks|
  {
    if oks == [] {
      assert actions + Steps(oks) == actions;
    } else {
      hide Run, Step, Steps;
      var next := ThreadStep(oks[0]);
      RunSnoc(video, audio, actions, next);
      DoneStep(Run(video, audio, actions), oks[0]);
      StepsGoOn(actions, oks);
      DoneStays(video, audio, actions + [next], oks[1..]);
    }
  }

  /** What the sinks tell the recorder: which stream they open, and when to stop. */
  lemma SinksTell(video: bool, audio: bool, actions: seq<Action>, a: Action)
    requires !a.ThreadStep?
    ensures var s, r := Run(video, audio, actions), Run(video, audio, actions + [a]);
            && (r.stopped <==> s.stopped || a.Stop? || (a.CloseVideo? && s.v.init) || (a.CloseAudio? && s.audio && s.a.init))
            && (a.OpenVideo? && s.video && !s.v.init && !s.stopped ==>
                  && (r.v.init <==> a.opening.Opened?)
                  && (a.opening.Opened? ==> r.v.index == a.opening.index && r.v.expects == a.opening.expects)
                  && (a.opening.NoOrientation? ==> r.v.index == a.opening.index))
            && (a.OpenAudio? && s.audio && !s.a.init && a.opening.Opened? ==>
                  r.a.init && r.a.index == a.opening.index && r.a.expects == a.opening.expects)
            && (a.DisableAudio? && s.audio && !s.a.init ==> !r.audio && r.a.init)
  {
    hide Run;
    RunSnoc(video, audio, actions, a);
  }

  /** When the thread has ended, nothing is queued and nothing is accepted any more. */
  lemma {:induction false} DoneIsFinal(video: bool, audio: bool, actions: seq<Action>)
    requires Run(video, audio, actions).thread.Done?
    ensures var s := Run(video, audio, actions); s.stopped && s.v.queue == [] && s.a.queue == []
  {
    hide Step;
    var s := Run(video, audio, DropLast(actions));
    DoneIsClean(s, Last(actions));
    if s.thread.Done? {
      DoneIsFinal(video, audio, DropLast(actions));
    }
  }

  lemma DoneIsClean(s: State, a: Action)
    requires Step(s, a).thread.Done?
    ensures var r := Step(s, a);
            && (!s.thread.Done? ==> r.stopped && r.v.queue == [] && r.a.queue == [])
            && (s.thread.Done? && s.stopped ==> r.stopped && r.v.queue == s.v.queue && r.a.queue == s.a.queue)
  {
    if a.ThreadStep? {
      ThreadGoesOn(s, a.ok);
      hide HeaderStep, ConfigStep, TakeStep, ProcessStep, WriteVideoStep, WriteAudioStep, FinishStep, SinkStep;
    } else {
      hide ThreadStepOf, SinkStep;
      DoneSink(s, a);
    }
  }

  lemma DoneSink(s: State, a: Action)
    requires !a.ThreadStep?
    ensures var r := SinkStep(s, a);
            s.stopped ==> r.stopped && r.v.queue == s.v.queue && r.a.queue == s.a.queue
  {
    hide Accept, Open;
  }

  // ---------------------------------------------------------------- the times written

  /** In every run, the origin is as OriginIsFirst says as soon as it is chosen. */
  lemma {:induction false} OriginIsLesser(video: bool, audio: bool, actions: seq<Action>)
    ensures var s := Run(video, audio, actions);
            Running(s.thread) && s.origin != NOPTS ==> OriginIsFirst(s)
  {
    hide Run, OriginIsFirst;
    RunKeeps(video, audio, actions);
  }

  /** No packet is earlier than the first one. */
  predicate StartsFirst(ps: seq<Packet>) {
    forall i | 0 <= i < |ps| :: ps[0].pts <= ps[i].pts
  }

  predicate NoNegativeTime(ps: seq<Packet>) {
    forall i | 0 <= i < |ps| :: ps[i].pts >= 0
  }

  /**
   * If no packet of a stream is earlier than its first one, no time written is negative, unless the
   * recorder was stopped before it had an audio packet, and the audio came to start before the video.
   */
  lemma {:induction false} TimesAreNotNegativeIff(video: bool, audio: bool, actions: seq<Action>)
    requires Over(Run(video, audio, actions).thread)
    requires StartsFirst(NonConfig(Run(video, audio, actions).v.accepted))
    requires StartsFirst(NonConfig(Run(video, audio, actions).a.accepted))
    ensures var s := Run(video, audio, actions);
            var v, a := NonConfig(s.v.accepted), NonConfig(s.a.accepted);
            (NoNegativeTime(StreamOf(s.log, true)) && NoNegativeTime(StreamOf(s.log, false)))
            <==> !(s.late && v != [] && a != [] && a[0].pts < v[0].pts)
  {
    hide Run, StreamOf, NonConfig, VideoOut, AudioOut, NoNegativeTime;
    RunKeeps(video, audio, actions);
    RecordsEverything(video, audio, actions);
    var s := Run(video, audio, actions);
    var v, a := NonConfig(s.v.accepted), NonConfig(s.a.accepted);
    WithoutOrigin(s);
    hide Inv;
    VideoTimes(v, s.origin);
    AudioTimes(a, s.origin);
  }

  lemma VideoTimes(v: seq<Packet>, origin: int)
    requires StartsFirst(v)
    ensures NoNegativeTime(VideoOut(v, origin)) <==> v == [] || origin <= v[0].pts
  {
    if v != [] {
      assert VideoOut(v, origin)[0].pts == v[0].pts - origin;
    }
  }

  lemma AudioTimes(a: seq<Packet>, origin: int)
    requires StartsFirst(a)
    ensures NoNegativeTime(AudioOut(a, origin)) <==> a == [] || origin <= a[0].pts
  {
    if a != [] {
      assert AudioOut(a, origin)[0].pts == a[0].pts - origin;
    }
  }

  lemma WithoutOrigin(s: State)
    requires Inv(s) && Over(s.thread)
    ensures s.origin != NOPTS ==> OriginIsFirst(s)
    ensures s.origin == NOPTS ==> NonConfig(s.v.accepted) == [] && NonConfig(s.a.accepted) == [] && !s.late
    ensures NonConfig(s.a.accepted) != [] ==> s.audio || !s.video
  {
  }

  function Step4(s: State, a: Action, b: Action, c: Action, d: Action): State {
    Step(Step(Step(Step(s, a), b), c), d)
  }

  lemma RunSnoc(video: bool, audio: bool, actions: seq<Action>, a: Action)
    ensures Run(video, audio, actions + [a]) == Step(Run(video, audio, actions), a)
  {
    assert DropLast(actions + [a]) == actions;
  }

  lemma Run4(video: bool, audio: bool, actions: seq<Action>, a: Action, b: Action, c: Action, d: Action)
    ensures Run(video, audio, actions + [a, b, c, d]) == Step4(Run(video, audio, actions), a, b, c, d)
  {
    hide Run, Step;
    RunSnoc(video, audio, actions, a);
    RunSnoc(video, audio, actions + [a], b);
    RunSnoc(video, audio, actions + [a] + [b], c);
    RunSnoc(video, audio, actions + [a] + [b] + [c], d);
    assert actions + [a, b, c, d] == actions + [a] + [b] + [c] + [d];
  }

  const EARLY: Packet := Packet(1, 0, 0)
  const LATE: Packet := Packet(0, 100000, 0)

  const READY: State := Init(true, true).(
    v := CLOSED_LANE.(init := true, index := 0), a := CLOSED_LANE.(init := true, index := 1), thread := Take)

  const PUSHED: State := READY.(
    v := READY.v.(held := Some(LATE), accepted := [LATE]), a := READY.a.(queue := [EARLY], accepted := [EARLY]),
    thread := Process, stopped := true)

  const TAKEN: State := PUSHED.(
    v := PUSHED.v.(held := None, taken := [LATE]), a := PUSHED.a.(held := Some(EARLY), queue := []),
    origin := 100000, late := true, previous := Some(LATE.(pts := 0)), thread := Process)

  lemma OpenExample()
    ensures Step4(Init(true, true), OpenVideo(Opened(0, false)), OpenAudio(Opened(1, false)), ThreadStep(true), ThreadStep(true))
         == READY
  {
    var a := Step(Init(true, true), OpenVideo(Opened(0, false)));
    assert a == Init(true, true).(v := CLOSED_LANE.(init := true, index := 0));
    var b := Step(a, OpenAudio(Opened(1, false)));
    assert b == READY.(thread := Header);
    assert Step(b, ThreadStep(true)) == READY.(thread := Config);
  }

  lemma PushExample()
    ensures Step4(READY, PushVideo(LATE), ThreadStep(true), PushAudio(EARLY), Stop) == PUSHED
  {
    var a := Step(READY, PushVideo(LATE));
    assert a == READY.(v := READY.v.(queue := [LATE], accepted := [LATE]));
    var b := Step(a, ThreadStep(true));
    assert b == READY.(v := READY.v.(held := Some(LATE), accepted := [LATE]), thread := Process);
  }

  lemma TakeExample()
    ensures var t := ThreadStep(true); Step4(PUSHED, t, t, t, t) == TAKEN
  {
    var a := Step(PUSHED, ThreadStep(true));
    assert a == PUSHED.(origin := 100000, late := true, thread := WriteVideo);
    var b := Step(a, ThreadStep(true));
    assert b == a.(v := TAKEN.v, previous := TAKEN.previous, thread := WriteAudio);
    assert Step(b, ThreadStep(true)) == b.(thread := Take);
  }

  lemma WriteExample()
    ensures var t := ThreadStep(true); Step4(TAKEN, t, t, t, t).log == [Written(false, EARLY.(pts := -100000))]
    ensures var t := ThreadStep(true); Step4(TAKEN, t, t, t, t).late
  {
    var a := Step(TAKEN, ThreadStep(true));
    assert a == TAKEN.(thread := WriteVideo);
    var b := Step(a, ThreadStep(true));
    assert b == TAKEN.(thread := WriteAudio);
    var c := Step(b, ThreadStep(true));
    assert c.thread == Take && c.log == [Written(false, EARLY.(pts := -100000))] && c.late;
  }

  /**
   * A video packet is taken, an audio packet with an earlier time is pushed, and the recorder is
   * stopped: the audio is written at a negative time.
   */
  lemma NegativeTimeExample() returns (actions: seq<Action>)
    ensures var s := Run(true, true, actions);
            s.log == [Written(false, EARLY.(pts := -100000))] && s.late
  {
    hide Step4;
    var t := ThreadStep(true);
    actions := [];
    Run4(true, true, actions, OpenVideo(Opened(0, false)), OpenAudio(Opened(1, false)), t, t);
    OpenExample();
    actions := actions + [OpenVideo(Opened(0, false)), OpenAudio(Opened(1, false)), t, t];
    hide Run;
    Run4(true, true, actions, PushVideo(LATE), t, PushAudio(EARLY), Stop);
    PushExample();
    actions := actions + [PushVideo(LATE), t, PushAudio(EARLY), Stop];
    Run4(true, true, actions, t, t, t, t);
    TakeExample();
    actions := actions + [t, t, t, t];
    Run4(true, true, actions, t, t, t, t);
    WriteExample();
    actions := actions + [t, t, t, t];
  }
}
