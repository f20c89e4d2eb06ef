/**
 * The frames of the screen (app/src/screen.c): the decoder replaces the pending frame and
 * posts an event only if there was none; the UI thread consumes the pending frame when it
 * handles the event. While the screen is paused, the frame is kept for later.
 */
module ScreenFrames {
  import opened Common
  import opened FrameBuffer

  datatype State = State(
    pending: Option<Frame>,
    posting: bool,            // the decoder has released the mutex and will post an event
    events: nat,              // NEW_FRAME events in the queue
    handling: bool,           // the UI thread has taken an event and will consume the frame
    postFailed: bool,         // posting an event failed
    paused: bool,
    resume: Option<Frame>,
    shown: Option<Frame>,     // screen->frame
    pushed: seq<Frame>,       // history
    consumed: seq<Frame>,     // history
    skipped: nat,             // history: frames replaced before being consumed
    assertFailed: bool
  )

  datatype Action =
    | PushFrame(frame: Frame, refOk: bool)
    | PostEvent(ok: bool)
    | TakeEvent
    | UpdateFrame
    | SetPaused(paused: bool)

  function Init(): State {
    State(None, false, 0, false, false, false, None, None, [], [], 0, false)
  }

  /** The critical section of sc_screen_frame_sink_push(). */
  function PushStep(s: State, frame: Frame, refOk: bool): State {
    if !refOk then s
    else
      s.(pending := Some(frame), posting := s.pending.None?, pushed := s.pushed + [frame],
         skipped := s.skipped + (if s.pending.Some? then 1 else 0))
  }

  function PostStep(s: State, ok: bool): State {
    if ok then s.(posting := false, events := s.events + 1) else s.(posting := false, postFailed := true)
  }

  /** sc_screen_update_frame(), with the assertion of sc_frame_buffer_consume(). */
  function UpdateStep(s: State): State {
    match s.pending
    case None => s.(handling := false, assertFailed := true)
    case Some(frame) =>
      s.(handling := false, pending := None, consumed := s.consumed + [frame],
         resume := if s.paused then Some(frame) else s.resume,
         shown := if s.paused then s.shown else Some(frame))
  }

  /** sc_screen_set_paused() */
  function PauseStep(s: State, paused: bool): State {
    if !paused && !s.paused then s
    else
      var refresh := s.paused && s.resume.Some?;
      s.(paused := paused, shown := if refresh then s.resume else s.shown, resume := if refresh then None else s.resume)
  }

  function Step(s: State, a: Action): State {
    match a
    case PushFrame(frame, refOk) => if s.posting then s else PushStep(s, frame, refOk)
    case PostEvent(ok) => if s.posting then PostStep(s, ok) else s
    case TakeEvent => if s.events > 0 && !s.handling then s.(events := s.events - 1, handling := true) else s
    case UpdateFrame => if s.handling then UpdateStep(s) else s
    case SetPaused(paused) => if s.handling then s else PauseStep(s, paused)
  }

  function Run(actions: seq<Action>): State {
    if actions == [] then Init() else Step(Run(DropLast(actions)), Last(actions))
  }

  /** Events queued, being handled or about to be posted. */
  function InFlight(s: State): nat {
    s.events + (if s.posting then 1 else 0) + (if s.handling then 1 else 0)
  }

  function Count(o: Option<Frame>): nat {
    if o.Some? then 1 else 0
  }

  ghost predicate Inv(s: State) {
    && !s.assertFailed
    && InFlight(s) + (if s.postFailed then 1 else 0) == Count(s.pending)
    && |s.pushed| == |s.consumed| + s.skipped + Count(s.pending)
    && (s.pending.Some? ==> s.pushed != [] && Some(Last(s.pushed)) == s.pending)
    && (s.pending.Some? ==> Subsequence(s.consumed, DropLast(s.pushed)))
    && (s.pending.None? ==> Subsequence(s.consumed, s.pushed))
    && (s.pending.None? && s.pushed != [] ==> s.consumed != [] && Last(s.consumed) == Last(s.pushed))
    && (!s.paused ==> s.resume.None?)
    && (s.consumed != [] ==> Some(Last(s.consumed)) == if s.resume.Some? then s.resume else s.shown)
  }

  lemma PushKeeps(s: State, frame: Frame, refOk: bool)
    requires Inv(s) && !s.posting
    ensures Inv(PushStep(s, frame, refOk))
  {
    hide Subsequence;
    assert DropLast(s.pushed + [frame]) == s.pushed && Last(s.pushed + [frame]) == frame;
    if s.pending.Some? {
      SubsequenceSnoc(s.consumed, DropLast(s.pushed), Last(s.pushed));
      assert s.pushed == DropLast(s.pushed) + [Last(s.pushed)];
    }
    hide DropLast, Last;
  }

  lemma UpdateKeeps(s: State)
    requires Inv(s) && s.handling
    ensures Inv(UpdateStep(s))
  {
    hide Subsequence;
    SubsequenceSnoc(s.consumed, DropLast(s.pushed), Last(s.pushed));
    assert s.pushed == DropLast(s.pushed) + [Last(s.pushed)];
  }

  lemma StepKeeps(s: State, a: Action)
    requires Inv(s)
    ensures Inv(Step(s, a))
  {
    hide Subsequence, PushStep, UpdateStep;
    if a.PushFrame? && !s.posting {
      PushKeeps(s, a.frame, a.refOk);
    } else if a.UpdateFrame? && s.handling {
      UpdateKeeps(s);
    }
  }

  lemma {:induction false} RunKeeps(actions: seq<Action>)
    ensures Inv(Run(actions))
  {
    if actions != [] {
      hide Step, Inv;
      RunKeeps(DropLast(actions));
      StepKeeps(Run(DropLast(actions)), Last(actions));
    } else {
      assert Subsequence<Frame>([], []);
    }
  }

  /**
   * Exactly one event is in flight when a frame is pending and none otherwise, unless
   * posting an event failed: then the frame stays pending without any event.
   */
  lemma {:induction false} OneEventPerPendingFrame(actions: seq<Action>)
    ensures var s := Run(actions);
            && !s.assertFailed
            && (InFlight(s) == Count(s.pending) <==> !s.postFailed)
            && (s.postFailed ==> s.pending.Some? && InFlight(s) == 0)
  {
    hide Run, Subsequence;
    RunKeeps(actions);
  }

  lemma FailedPostIsKept(s: State, a: Action)
    requires Inv(s) && s.postFailed
    ensures Step(s, a).postFailed && Step(s, a).consumed == s.consumed
  {
  }

  /** After a failed post, whatever happens, a frame stays pending without event and none is consumed again. */
  lemma {:induction false} FailedPostIsFinal(actions: seq<Action>, more: seq<Action>)
    requires Run(actions).postFailed
    ensures var s, r := Run(actions), Run(actions + more);
            && r.postFailed && r.pending.Some? && InFlight(r) == 0
            && r.consumed == s.consumed
  {
    hide Step, Inv;
    RunKeeps(actions + more);
    InvOfFailedPost(Run(actions + more));
    if more == [] {
      assert actions + more == actions;
    } else {
      FailedPostIsFinal(actions, DropLast(more));
      assert DropLast(actions + more) == actions + DropLast(more);
      RunKeeps(actions + DropLast(more));
      FailedPostIsKept(Run(actions + DropLast(more)), Last(more));
    }
  }

  lemma InvOfFailedPost(s: State)
    requires Inv(s)
    ensures s.postFailed ==> s.pending.Some? && InFlight(s) == 0
  {
  }

  /** One event that cannot be posted is enough: the next frame pushed posts none either. */
  lemma FailedPostExample(first: Frame, second: Frame)
    ensures var s := Run([PushFrame(first, true), PostEvent(false), PushFrame(second, true)]);
            s.postFailed && s.pending == Some(second) && InFlight(s) == 0 && s.consumed == []
  {
    var a, b, c := PushFrame(first, true), PostEvent(false), PushFrame(second, true);
    assert DropLast([a, b, c]) == [a, b] && DropLast([a, b]) == [a] && DropLast([a]) == [];
    assert Run([a]) == Step(Init(), a);
    assert Run([a, b]) == Step(Run([a]), b);
  }

  /** Every frame pushed is consumed, skipped or pending; frames are consumed in order. */
  lemma {:induction false} FramesAreConserved(actions: seq<Action>)
    ensures var s := Run(actions);
            && |s.pushed| == |s.consumed| + s.skipped + Count(s.pending)
            && Subsequence(s.consumed, s.pushed)
  {
    hide Run, Subsequence;
    RunKeeps(actions);
    var s := Run(actions);
    if s.pending.Some? {
      SubsequenceSnoc(s.consumed, DropLast(s.pushed), Last(s.pushed));
      assert s.pushed == DropLast(s.pushed) + [Last(s.pushed)];
    }
  }

  /** Once drained, the last frame consumed is the last pushed; unless paused, it is the one shown. */
  lemma {:induction false} LatestFrameWins(actions: seq<Action>)
    ensures var s := Run(actions);
            s.pending.None? && s.pushed != [] ==>
              && s.consumed != [] && Last(s.consumed) == Last(s.pushed)
              && (!s.paused ==> s.shown == Some(Last(s.pushed)))
  {
    hide Run, Subsequence;
    RunKeeps(actions);
  }

  lemma RunSnoc(actions: seq<Action>, a: Action)
    ensures Run(actions + [a]) == Step(Run(actions), a)
  {
    assert DropLast(actions + [a]) == actions;
  }

  /** While the screen is paused, what it shows does not change, whatever is received. */
  lemma {:induction false} PausedShowsNothingNew(actions: seq<Action>, more: seq<Action>)
    requires Run(actions).paused && forall a | a in more :: !a.SetPaused?
    ensures Run(actions + more).paused && Run(actions + more).shown == Run(actions).shown
  {
    if more == [] {
      assert actions + more == actions;
    } else {
      hide Run;
      PausedShowsNothingNew(actions, DropLast(more));
      RunSnoc(actions + DropLast(more), Last(more));
      assert actions + more == actions + DropLast(more) + [Last(more)];
      assert Last(more) in more;
    }
  }

  /** Unpausing a paused screen, or pausing it again, shows the last frame consumed meanwhile. */
  lemma {:induction false} PauseRefreshes(actions: seq<Action>, paused: bool)
    requires Run(actions).paused && !Run(actions).handling && Run(actions).consumed != []
    ensures var s, r := Run(actions), Run(actions + [SetPaused(paused)]);
            r.shown == Some(Last(s.consumed)) && r.resume.None? && r.paused == paused && r.consumed == s.consumed
  {
    hide Run, Subsequence;
    RunKeeps(actions);
    RunSnoc(actions, SetPaused(paused));
  }

  /** An event in the queue is enough for the pending frame to be consumed. */
  lemma {:induction false} EventIsHandled(actions: seq<Action>)
    requires var s := Run(actions); s.events > 0 && !s.handling
    ensures var s, r := Run(actions), Run(actions + [TakeEvent] + [UpdateFrame]);
            s.pending.Some? && r.consumed == s.consumed + [s.pending.value] && r.pending.None? && r.events == 0 && !r.handling
  {
    hide Run, Subsequence;
    RunKeeps(actions);
    RunSnoc(actions, TakeEvent);
    RunSnoc(actions + [TakeEvent], UpdateFrame);
  }

  // ---------------------------------------------------------------- the object

  class Screen {
    const fb: FrameBuffer
    var paused: bool
    var resumeFrame: Option<Frame>
    var frame: Option<Frame>

    ghost predicate Valid()
      reads this, fb
    {
      fb.Valid()
    }

    /** The part of the state that the two threads' sections change. */
    ghost predicate Shows(s: State)
      reads this, fb
    {
      s.pending == fb.Pending() && s.paused == paused && s.resume == resumeFrame && s.shown == frame
    }

    constructor ()
      ensures Valid() && Shows(Init()) && fresh(fb)
    {
      fb := new FrameBuffer();
      paused, resumeFrame, frame := false, None, None;
    }

    /** mustPost: an event must be posted; skipped: a frame was replaced before being consumed. */
    method FrameSinkPush(newFrame: Frame, refOk: bool, ghost s: State) returns (ok: bool, mustPost: bool, skipped: bool)
      requires Valid() && Shows(s) && !s.posting
      modifies fb
      ensures Valid() && Shows(Step(s, PushFrame(newFrame, refOk)))
      ensures ok == refOk && mustPost == Step(s, PushFrame(newFrame, refOk)).posting
      ensures Step(s, PushFrame(newFrame, refOk)).skipped == s.skipped + (if skipped then 1 else 0)
    {
      var previousSkipped := fb.HasFrame();
      ok := fb.Push(newFrame, refOk);
      mustPost := ok && !previousSkipped;
      skipped := ok && previousSkipped;
    }

    method UpdateFrame(ghost s: State)
      requires Valid() && Shows(s) && s.handling && Inv(s)
      modifies this, fb
      ensures Valid() && Shows(Step(s, Action.UpdateFrame))
    {
      hide Subsequence;
      var dst := fb.Consume();
      if paused {
        resumeFrame := Some(dst);
      } else {
        frame := Some(dst);
      }
    }

    method SetPaused(newPaused: bool, ghost s: State)
      requires Valid() && Shows(s) && !s.handling
      modifies this
      ensures Valid() && Shows(Step(s, Action.SetPaused(newPaused)))
    {
      if !newPaused && !paused {
        return;
      }
      if paused && resumeFrame.Some? {
        frame := resumeFrame;
        resumeFrame := None;
      }
      paused := newPaused;
    }
  }
}
