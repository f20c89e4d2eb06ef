/**
 * The recorder object (app/src/recorder.c). Each method is one critical section, or one
 * stretch of the recorder thread between two critical sections, and does what the step
 * of Recording with the same name does; Recording proves what every run of them writes.
 */
module RecorderObject {
  import opened Common
  import opened PtsRepair
  import opened Recording
  import opened RecorderWakeups

  method PopIfNoneHeld(lane: Lane) returns (r: Lane)
    ensures r == Pop(lane)
  {
    r := lane;
    if lane.held.None? && |lane.queue| != 0 {
      r := lane.(held := Some(lane.queue[0]), queue := lane.queue[1..]);
    }
  }

  method DropConfig(p: Option<Packet>) returns (r: Option<Packet>)
    ensures r == WithoutConfig(p)
  {
    r := p;
    if p.Some? && p.value.pts == NOPTS {
      r := None;
    }
  }

  method TakeConfig(lane: Lane) returns (r: Lane, taken: bool)
    requires lane.held.None?
    ensures r == (if lane.expects then Pop(lane) else lane)
    ensures taken == (lane.expects && lane.queue != [])
  {
    r, taken := lane, false;
    if lane.expects && |lane.queue| != 0 {
      r := lane.(held := Some(lane.queue[0]), queue := lane.queue[1..]);
      taken := true;
    }
  }

  /** failed: the index of the stream is asserted, and is not set. */
  method CheckConfig(lane: Lane) returns (good: bool, failed: bool)
    ensures good == IsConfigOrNone(lane.held) && failed == !HasStream(lane)
  {
    good, failed := true, false;
    if lane.held.Some? {
      if lane.held.value.pts != NOPTS {
        good := false;
      } else {
        failed := lane.index < 0;
      }
    }
  }

  method FirstOrigin(origin: int, video: bool, audio: bool, stopped: bool,
                     videoPkt: Option<Packet>, audioPkt: Option<Packet>)
    returns (choice: Choice)
    ensures choice == ChooseOrigin(origin, video, audio, stopped, videoPkt, audioPkt)
  {
    if origin != NOPTS {
      choice := Origin(origin);
    } else if !audio && videoPkt.Some? {
      choice := Origin(videoPkt.value.pts);
    } else if !video && audioPkt.Some? {
      choice := Origin(audioPkt.value.pts);
    } else if video && audio && videoPkt.Some? && audioPkt.Some? {
      choice := Origin(Min(videoPkt.value.pts, audioPkt.value.pts));
    } else if stopped {
      // The recorder is stopped without audio: record the video packets, or fail if there are none.
      choice := if videoPkt.Some? then Origin(videoPkt.value.pts) else NoVideo;
    } else {
      choice := NotYet;
    }
  }

  function WithoutHeld(l: Lane): Lane {
    l.(held := None)
  }

  lemma ConfigStepIs(s: State, ok: bool, failed: bool, next: Thread)
    requires failed == (s.assertFailed || !HasStream(s.v) || !HasStream(s.a))
    requires next == if ok && IsConfigOrNone(s.v.held) && IsConfigOrNone(s.a.held) then Take else Ended(false)
    ensures ConfigStep(s, ok) == s.(v := WithoutHeld(s.v), a := WithoutHeld(s.a), assertFailed := failed, thread := next)
  {
    hide IsConfigOrNone, HasStream;
  }

  lemma WaitingTakesNothing(s: State)
    requires MustWaitForPackets(s)
    ensures TakeStep(s) == s
  {
    hide MustWaitForPackets;
  }

  lemma TakeStepIs(s: State, v: Lane, a: Lane, failed: bool, next: Thread)
    requires !MustWaitForPackets(s) && v == Pop(s.v) && a == Pop(s.a)
    requires next == if s.stopped && v.held.None? && a.held.None? then Finish else Process
    requires failed == (|| s.assertFailed
                        || !(s.video || (s.v.held.None? && s.v.queue == []))
                        || !(s.audio || (s.a.held.None? && s.a.queue == []))
                        || !(if next.Finish? then v.queue == [] && a.queue == [] else v.held.Some? || a.held.Some?))
    ensures TakeStep(s) == s.(v := v, a := a, assertFailed := failed, thread := next)
  {
    hide MustWaitForPackets, Pop;
  }

  lemma ProcessStepIs(s: State, choice: Choice, origin: int, late: bool)
    requires choice == ChooseOrigin(s.origin, s.video, s.audio, s.stopped, WithoutConfig(s.v.held), WithoutConfig(s.a.held))
    requires origin == if choice.Origin? then choice.pts else s.origin
    requires late == (s.late || (s.origin == NOPTS && choice.Origin? && s.audio && WithoutConfig(s.a.held).None?))
    ensures ProcessStep(s)
         == s.(v := s.v.(held := WithoutConfig(s.v.held)), a := s.a.(held := WithoutConfig(s.a.held)),
               origin := origin, late := late, thread := AfterChoice(choice))
  {
    hide Recording.ChooseOrigin, WithoutConfig, AfterChoice;
  }

  lemma NoVideoStepIs(s: State, ok: bool)
    requires s.v.held.None?
    ensures WriteVideoStep(s, ok)
         == s.(v := s.v, assertFailed := s.assertFailed || s.origin == NOPTS, previous := s.previous, log := s.log,
               thread := WriteAudio)
  {
  }

  lemma WriteVideoStepIs(s: State, ok: bool, p: Packet)
    requires s.v.held.Some? && p == Shifted(s.v.held.value, s.origin)
    ensures var log := if s.previous.None? then s.log
                       else s.log + [Written(true, s.previous.value.(duration := p.pts - s.previous.value.pts))];
            var next := if s.previous.None? || ok then WriteAudio else Ended(false);
            (WriteVideoStep(s, ok)
             == s.(v := Consume(s.v), assertFailed := s.assertFailed || s.origin == NOPTS, previous := Some(p),
                   log := log, thread := next))
  {
    hide Consume;
  }

  class Recorder {
    var video: bool
    var audio: bool
    var stopped: bool
    // for each stream: its queue and flags, and the packet held by the recorder thread
    var v: Lane
    var a: Lane
    // local variables of the recorder thread
    var thread: Thread
    var videoPktPrevious: Option<Packet>
    var ptsOrigin: int
    ghost var late: bool
    // the muxer
    var log: seq<Written>
    var assertFailed: bool
    var waiting: bool    // the recorder thread is blocked on the condition variable, not signalled

    ghost function View(): (s: State)
      reads this
      ensures s.video == video && s.audio == audio && s.stopped == stopped && s.v == v && s.a == a
      ensures s.thread == thread && s.assertFailed == assertFailed
      ensures s.previous == videoPktPrevious && s.origin == ptsOrigin && s.late == late && s.log == log
    {
      State(video, audio, stopped, v, a, thread, videoPktPrevious, ptsOrigin, late, log, assertFailed)
    }

    constructor (video: bool, audio: bool)
      ensures View() == Init(video, audio) && !waiting
    {
      this.video, this.audio, stopped := video, audio, false;
      v, a := CLOSED_LANE, CLOSED_LANE;
      thread, videoPktPrevious, ptsOrigin := Header, None, NOPTS;
      late, log, assertFailed, waiting := false, [], false, false;
    }

    /** sc_cond_signal() */
    method Signal()
      modifies `waiting
      ensures !waiting && View() == old(View())
    {
      waiting := false;
    }

    /** The end of a stretch of the recorder thread that changed the streams. */
    method Continue(v': Lane, a': Lane, failed: bool, next: Thread)
      modifies `v, `a, `assertFailed, `thread
      ensures View() == old(View()).(v := v', a := a', assertFailed := failed, thread := next)
    {
      v, a, assertFailed, thread := v', a', failed, next;
    }

    /** The same when it also changed what it has written. */
    method ContinueVideo(v': Lane, failed: bool, previous: Option<Packet>, log': seq<Written>, next: Thread)
      modifies `v, `assertFailed, `videoPktPrevious, `log, `thread
      ensures View() == old(View()).(v := v', assertFailed := failed, previous := previous, log := log', thread := next)
    {
      v, assertFailed, videoPktPrevious, log, thread := v', failed, previous, log', next;
    }

    /** The same when it chose the origin of time. */
    method Decide(v': Lane, a': Lane, origin: int, ghost late': bool, next: Thread)
      modifies `v, `a, `ptsOrigin, `late, `thread
      ensures View() == old(View()).(v := v', a := a', origin := origin, late := late', thread := next)
    {
      v, a, ptsOrigin, late, thread := v', a', origin, late', next;
    }

    method VideoSinkOpen(opening: Opening) returns (ok: bool)
      requires video && !v.init
      modifies this
      ensures View() == SinkStep(old(View()), OpenVideo(opening))
      ensures ok <==> !old(stopped) && opening.Opened?
      ensures waiting <==> old(waiting) && !ok
    {
      if stopped || opening.NoStream? || opening.NoParameters? {
        return false;
      }
      v := v.(index := opening.index);
      if opening.NoOrientation? {
        return false;
      }
      v := v.(expects := opening.expects, init := true);
      Signal();
      ok := true;
    }

    method AudioSinkOpen(opening: Opening) returns (ok: bool)
      requires audio && !a.init && !opening.NoOrientation?
      modifies this
      ensures View() == SinkStep(old(View()), OpenAudio(opening))
      ensures ok <==> opening.Opened?
      ensures waiting <==> old(waiting) && !ok
    {
      if opening.NoStream? || opening.NoParameters? {
        return false;
      }
      a := a.(index := opening.index, expects := opening.expects, init := true);
      Signal();
      ok := true;
    }

    method AudioSinkDisable()
      requires audio && !a.init
      modifies this
      ensures View() == SinkStep(old(View()), DisableAudio) && !waiting
    {
      audio := false;
      a := a.(init := true);
      Signal();
    }

    method VideoSinkPush(packet: Packet) returns (ok: bool)
      requires v.init
      modifies this
      ensures View() == SinkStep(old(View()), PushVideo(packet))
      ensures ok <==> !old(stopped)
      ensures waiting <==> old(waiting) && !ok
    {
      if stopped {
        return false;
      }
      v := v.(queue := v.queue + [packet], accepted := v.accepted + [packet]);
      Signal();
      ok := true;
    }

    method AudioSinkPush(packet: Packet) returns (ok: bool)
      requires audio && a.init
      modifies this
      ensures View() == SinkStep(old(View()), PushAudio(packet))
      ensures ok <==> !old(stopped)
      ensures waiting <==> old(waiting) && !ok
    {
      if stopped {
        return false;
      }
      a := a.(queue := a.queue + [packet], accepted := a.accepted + [packet]);
      Signal();
      ok := true;
    }

    /** sc_recorder_stop(), and the close operation of either sink. */
    method StopRecording()
      modifies this
      ensures View() == SinkStep(old(View()), Stop) && !waiting
    {
      stopped := true;
      Signal();
    }

    /** The condition of the wait in sc_recorder_process_header(). */
    method HeaderMustWait() returns (blocked: bool)
      ensures blocked == MustWaitForHeader(View())
    {
      blocked := !stopped && ((video && !v.init) || (audio && !a.init)
                              || (video && v.expects && |v.queue| == 0) || (audio && a.expects && |a.queue| == 0));
    }

    /** The critical section of sc_recorder_process_header(); nothing changes while it must wait. */
    method TakeConfigPackets() returns (blocked: bool)
      requires thread.Header? && v.held.None? && a.held.None?
      modifies this
      ensures View() == HeaderStep(old(View())) && waiting == old(waiting)
      ensures blocked == MustWaitForHeader(old(View()))
    {
      hide Recorder.View, MustWaitForHeader, Pop;
      blocked := HeaderMustWait();
      if blocked {
        return;
      }
      if stopped && video && |v.queue| == 0 {
        Continue(v, a, assertFailed, Ended(false));
        return;
      }
      TakeConfigs();
    }

    method TakeConfigs()
      requires v.held.None? && a.held.None?
      requires !MustWaitForHeader(View()) && !(stopped && video && v.queue == [])
      modifies this
      ensures View() == HeaderStep(old(View())) && waiting == old(waiting)
    {
      hide Recorder.View, MustWaitForHeader, Pop;
      var videoLane, videoTaken := TakeConfig(v);
      var audioLane, audioTaken := TakeConfig(a);
      Continue(videoLane, audioLane, assertFailed || (videoTaken && !video) || (audioTaken && !audio), Config);
    }

    /** The rest of sc_recorder_process_header(). */
    method WriteHeader(ok: bool)
      requires thread.Config?
      modifies this
      ensures View() == ConfigStep(old(View()), ok) && waiting == old(waiting)
    {
      hide Recorder.View, ConfigStep, IsConfigOrNone, HasStream;
      var videoGood, videoFailed := CheckConfig(v);
      var audioGood, audioFailed := CheckConfig(a);
      var failed := assertFailed || videoFailed || audioFailed;
      var next := if ok && videoGood && audioGood then Take else Ended(false);
      ConfigStepIs(View(), ok, failed, next);
      Continue(WithoutHeld(v), WithoutHeld(a), failed, next);
    }

    /** The condition of the wait in sc_recorder_process_packets(). */
    method PacketsMustWait() returns (blocked: bool)
      ensures blocked == MustWaitForPackets(View())
    {
      blocked := !stopped;
      if video && v.held.None? && |v.queue| != 0 {
        blocked := false;
      }
      if audio && a.held.None? && |a.queue| != 0 {
        blocked := false;
      }
    }

    /** The critical section of the loop of sc_recorder_process_packets(). */
    method TakePackets() returns (blocked: bool)
      requires thread.Take?
      modifies this
      ensures View() == TakeStep(old(View())) && waiting == old(waiting)
      ensures blocked == MustWaitForPackets(old(View()))
    {
      hide Recorder.View, Pop, MustWaitForPackets, TakeStep;
      blocked := PacketsMustWait();
      if blocked {
        WaitingTakesNothing(View());
        return;
      }
      TakeFromLanes();
    }

    method TakeFromLanes()
      requires !MustWaitForPackets(View())
      modifies this
      ensures View() == TakeStep(old(View())) && waiting == old(waiting)
    {
      hide Recorder.View, Pop, MustWaitForPackets, TakeStep;
      var videoLane := PopIfNoneHeld(v);
      var audioLane := PopIfNoneHeld(a);
      var over := stopped && videoLane.held.None? && audioLane.held.None?;
      var failed := || assertFailed
                    || !(video || (v.held.None? && v.queue == []))
                    || !(audio || (a.held.None? && a.queue == []))
                    || (over && (videoLane.queue != [] || audioLane.queue != []))
                    || (!over && videoLane.held.None? && audioLane.held.None?);
      var next := if over then Finish else Process;
      TakeStepIs(View(), videoLane, audioLane, failed, next);
      Continue(videoLane, audioLane, failed, next);
    }

    /** Discards configuration packets and chooses the origin of time. */
    method PrepareWrite()
      requires thread.Process?
      modifies this
      ensures View() == ProcessStep(old(View())) && waiting == old(waiting)
    {
      hide Recorder.View, Recording.ChooseOrigin, WithoutConfig, AfterChoice, ProcessStep;
      var videoPkt := DropConfig(v.held);
      var audioPkt := DropConfig(a.held);
      var choice := FirstOrigin(ptsOrigin, video, audio, stopped, videoPkt, audioPkt);
      ghost var chosenLate := late || (ptsOrigin == NOPTS && choice.Origin? && audio && audioPkt.None?);
      var origin := if choice.Origin? then choice.pts else ptsOrigin;
      ProcessStepIs(View(), choice, origin, chosenLate);
      Decide(v.(held := videoPkt), a.(held := audioPkt), origin, chosenLate, AfterChoice(choice));
    }

    /** Keeps the video packet, now that the duration of the previous one is known. */
    method WriteVideoPacket(ok: bool)
      requires thread.WriteVideo?
      modifies this
      ensures View() == WriteVideoStep(old(View()), ok) && waiting == old(waiting)
    {
      hide Recorder.View, WriteVideoStep;
      var failed := assertFailed || ptsOrigin == NOPTS;
      if v.held.None? {
        NoVideoStepIs(View(), ok);
        ContinueVideo(v, failed, videoPktPrevious, log, WriteAudio);
        return;
      }
      var p := v.held.value.(pts := v.held.value.pts - ptsOrigin);
      var consumed := v.(held := None, taken := v.taken + [v.held.value]);
      WriteVideoStepIs(View(), ok, p);
      if videoPktPrevious.None? {
        ContinueVideo(consumed, failed, Some(p), log, WriteAudio);
      } else {
        var q := videoPktPrevious.value;
        ContinueVideo(consumed, failed, Some(p), log + [Written(true, q.(duration := p.pts - q.pts))],
                      if ok then WriteAudio else Ended(false));
      }
    }

    method WriteAudioPacket(ok: bool)
      requires thread.WriteAudio?
      modifies this
      ensures View() == WriteAudioStep(old(View()), ok) && waiting == old(waiting)
    {
      var next := Take;
      if a.held.Some? {
        var p := a.held.value.(pts := a.held.value.pts - ptsOrigin);
        log := log + [Written(false, p)];
        next := if ok then Take else Ended(false);
        a := a.(held := None, taken := a.taken + [a.held.value]);
      }
      thread := next;
    }

    method WriteLastAndTrailer(ok: bool)
      requires thread.Finish?
      modifies this
      ensures View() == FinishStep(old(View()), ok) && waiting == old(waiting)
    {
      if videoPktPrevious.Some? {
        log := log + [Written(true, videoPktPrevious.value.(duration := LAST_DURATION))];
        videoPktPrevious := None;
      }
      thread := Ended(ok);
    }

    method DiscardPending()
      requires thread.Ended?
      modifies this
      ensures View() == CleanupStep(old(View())) && waiting == old(waiting)
    {
      stopped := true;
      v, a := v.(queue := []), a.(queue := []);
      thread := Done(thread.success);
    }

    /** One stretch of the recorder thread, unless it sleeps. */
    method RunThread(ok: bool)
      requires thread.Header? ==> v.held.None? && a.held.None?
      modifies this
      ensures View() == (if old(waiting) then old(View()) else ThreadStepOf(old(View()), ok))
      ensures waiting == (old(waiting) || MustWait(old(View())))
    {
      hide HeaderStep, ConfigStep, TakeStep, ProcessStep, WriteVideoStep, WriteAudioStep, FinishStep, CleanupStep,
           MustWaitForHeader, MustWaitForPackets;
      if waiting {
        return;
      }
      var blocked := false;
      match thread {
        case Header => blocked := TakeConfigPackets();
        case Config => WriteHeader(ok);
        case Take => blocked := TakePackets();
        case Process => PrepareWrite();
        case WriteVideo => WriteVideoPacket(ok);
        case WriteAudio => WriteAudioPacket(ok);
        case Finish => WriteLastAndTrailer(ok);
        case Ended(_) => DiscardPending();
        case Done(_) =>
      }
      waiting := blocked;
    }

    method RunSink(action: Action)
      requires !action.ThreadStep?
      modifies this
      ensures View() == SinkStep(old(View()), action)
      ensures waiting == (old(waiting) && !Signals(old(View()), action))
    {
      match action
      case OpenVideo(opening) => if video && !v.init { var _ := VideoSinkOpen(opening); }
      case OpenAudio(opening) => if audio && !a.init && !opening.NoOrientation? { var _ := AudioSinkOpen(opening); }
      case DisableAudio => if audio && !a.init { AudioSinkDisable(); }
      case PushVideo(p) => if v.init { var _ := VideoSinkPush(p); }
      case PushAudio(p) => if audio && a.init { var _ := AudioSinkPush(p); }
      case CloseVideo => if v.init { StopRecording(); }
      case CloseAudio => if audio && a.init { StopRecording(); }
      case Stop => StopRecording();
    }
  }

  /** Executing any interleaving of the threads on a recorder, with its wakeups, is a run of Recording. */
  method Execute(video: bool, audio: bool, events: seq<Event>) returns (recorder: Recorder)
    ensures fresh(recorder) && recorder.View() == Run(video, audio, ActionsOf(events))
    ensures recorder.waiting ==> MustWait(recorder.View())
  {
    hide Step, ThreadStepOf, SinkStep, MustWait, Signals, NothingLost, LogInv, OriginInv;
    recorder := new Recorder(video, audio);
    for i := 0 to |events|
      invariant Sys(recorder.View(), recorder.waiting) == RunAll(video, audio, events[..i])
      invariant fresh(recorder)
    {
      NoWakeupIsLost(video, audio, events[..i]);
      RunKeeps(video, audio, ActionsOf(events[..i]));
      match events[i] {
        case SpuriousWakeup => recorder.Signal();
        case Act(action) => DoAction(recorder, action);
      }
      assert DropLast(events[..i + 1]) == events[..i];
    }
    assert events[..|events|] == events;
    NoWakeupIsLost(video, audio, events);
  }

  method DoAction(recorder: Recorder, action: Action)
    requires QueueInv(recorder.View())
    modifies recorder
    ensures Sys(recorder.View(), recorder.waiting) == React(Sys(old(recorder.View()), old(recorder.waiting)), Act(action))
  {
    hide ThreadStepOf, SinkStep, MustWait, Signals;
    if action.ThreadStep? {
      recorder.RunThread(action.ok);
    } else {
      recorder.RunSink(action);
    }
  }
}
