/**
 * The V4L2 sink (app/src/v4l2_sink.c): the same latest-frame buffer, with a thread that
 * waits on a condition variable. ok reports whether a frame could be encoded and written.
 */
module V4l2Sink {
  import opened Common
  import opened FrameBuffer

  datatype Thread = Checking | Waiting | Writing(frame: Frame) | Ended

  datatype State = State(
    pending: Option<Frame>,
    hasFrame: bool,
    stopped: bool,
    thread: Thread,
    pushed: seq<Frame>,     // history
    consumed: seq<Frame>,   // history
    assertFailed: bool
  )

  datatype Action =
    | PushFrame(frame: Frame, refOk: bool)
    | Close
    | SpuriousWakeup
    | ThreadStep(ok: bool)

  function Init(): State {
    State(None, false, false, Checking, [], [], false)
  }

  function Signal(t: Thread): Thread {
    if t.Waiting? then Checking else t
  }

  /** has_frame is set, and the thread signalled, only when no frame was pending. */
  function PushStep(s: State, frame: Frame, refOk: bool): State {
    if !refOk then s
    else
      s.(pending := Some(frame), pushed := s.pushed + [frame],
         hasFrame := s.hasFrame || s.pending.None?,
         thread := if s.pending.None? then Signal(s.thread) else s.thread)
  }

  function CheckStep(s: State): State {
    if s.stopped then s.(thread := Ended)
    else if !s.hasFrame then s.(thread := Waiting)
    else
      match s.pending
      case None => s.(hasFrame := false, assertFailed := true, thread := Ended)
      case Some(frame) =>
        s.(hasFrame := false, pending := None, consumed := s.consumed + [frame], thread := Writing(frame))
  }

  function Step(s: State, a: Action): State {
    match a
    case PushFrame(frame, refOk) => PushStep(s, frame, refOk)
    case Close => s.(stopped := true, thread := Signal(s.thread))
    case SpuriousWakeup => s.(thread := Signal(s.thread))
    case ThreadStep(ok) =>
      match s.thread
      case Checking => CheckStep(s)
      case Writing(_) => s.(thread := if ok then Checking else Ended)
      case _ => s
  }

  function Run(actions: seq<Action>): State {
    if actions == [] then Init() else Step(Run(DropLast(actions)), Last(actions))
  }

  ghost predicate Inv(s: State) {
    && !s.assertFailed
    && (s.hasFrame <==> s.pending.Some?)
    && (s.thread.Waiting? ==> s.pending.None? && !s.stopped)
    && (s.pending.Some? ==> s.pushed != [] && Some(Last(s.pushed)) == s.pending && Subsequence(s.consumed, DropLast(s.pushed)))
    && (s.pending.None? ==> Subsequence(s.consumed, s.pushed))
    && (s.pending.None? && s.pushed != [] ==> s.consumed != [] && Last(s.consumed) == Last(s.pushed))
  }

  lemma StepKeeps(s: State, a: Action)
    requires Inv(s)
    ensures Inv(Step(s, a))
  {
    hide Subsequence;
    if a.PushFrame? {
      assert DropLast(s.pushed + [a.frame]) == s.pushed;
      if s.pending.Some? {
        SubsequenceSnoc(s.consumed, DropLast(s.pushed), Last(s.pushed));
        assert s.pushed == DropLast(s.pushed) + [Last(s.pushed)];
      }
    } else if s.pending.Some? {
      SubsequenceSnoc(s.consumed, DropLast(s.pushed), Last(s.pushed));
      assert s.pushed == DropLast(s.pushed) + [Last(s.pushed)];
    }
  }

  lemma {:induction false} RunKeeps(actions: seq<Action>)
    ensures Inv(Run(actions))
  {
    if actions != [] {
      hide Step, Inv;
      RunKeeps(DropLast(actions));
      StepKeeps(Run(DropLast(actions)), Last(actions));
    } else {
      assert Subsequence<Frame>([], []);
    }
  }

  /**
   * has_frame says whether a frame is pending, so the assertion of the frame buffer holds;
   * a thread that waits unsignalled has consumed the last frame pushed and was not stopped.
   */
  lemma {:induction false} MailboxIsSound(actions: seq<Action>)
    ensures var s := Run(actions);
            && !s.assertFailed
            && (s.hasFrame <==> s.pending.Some?)
            && (s.thread.Waiting? ==>
                  && !s.stopped
                  && (s.pushed != [] ==> s.consumed != [] && Last(s.consumed) == Last(s.pushed)))
  {
    hide Run, Subsequence;
    RunKeeps(actions);
  }

  lemma RunSnoc(actions: seq<Action>, a: Action)
    ensures Run(actions + [a]) == Step(Run(actions), a)
  {
    assert DropLast(actions + [a]) == actions;
  }

  /** In every run, a push replaces the pending frame, unless the frame cannot be referenced. */
  lemma PushReplaces(actions: seq<Action>, frame: Frame, refOk: bool)
    ensures var s, r := Run(actions), Run(actions + [PushFrame(frame, refOk)]);
            && r.pending == (if refOk then Some(frame) else s.pending)
            && r.pushed == (if refOk then s.pushed + [frame] else s.pushed)
            && r.consumed == s.consumed && r.stopped == s.stopped
  {
    hide Run;
    RunSnoc(actions, PushFrame(frame, refOk));
  }

  /** A frame pushed to a thread that waits, or that is about to check, is the next one written. */
  lemma {:induction false} NextFrameIsWritten(actions: seq<Action>, frame: Frame, ok: bool)
    requires var s := Run(actions); (s.thread.Waiting? || s.thread.Checking?) && !s.stopped
    ensures var s, r := Run(actions), Run(actions + [PushFrame(frame, true)] + [ThreadStep(ok)]);
            r.thread == Writing(frame) && r.consumed == s.consumed + [frame] && r.pending.None?
  {
    hide Run, Subsequence;
    RunKeeps(actions);
    RunSnoc(actions, PushFrame(frame, true));
    RunSnoc(actions + [PushFrame(frame, true)], ThreadStep(ok));
  }

  /** The thread ends only if the sink is closed or a frame cannot be written. */
  lemma {:induction false} EndHasReason(actions: seq<Action>)
    ensures Run(actions).thread.Ended? ==> Run(actions).stopped || ThreadStep(false) in actions
  {
    if actions != [] {
      hide Subsequence;
      EndHasReason(DropLast(actions));
      RunKeeps(DropLast(actions));
      assert actions == DropLast(actions) + [Last(actions)];
    }
  }

  /** It ends within two of its steps once the sink is closed, and goes on after writing a frame if that succeeded. */
  lemma {:induction false} ClosedEnds(actions: seq<Action>, first: Action, second: Action)
    requires first.ThreadStep? && second.ThreadStep?
    ensures Run(actions + [Close] + [first] + [second]).thread.Ended?
    ensures Run(actions).thread.Writing? ==> Run(actions + [first]).thread == if first.ok then Checking else Ended
  {
    hide Run, Subsequence;
    RunKeeps(actions);
    RunSnoc(actions, first);
    RunSnoc(actions, Close);
    RunSnoc(actions + [Close], first);
    RunSnoc(actions + [Close] + [first], second);
  }

  class Sink {
    const fb: FrameBuffer
    var hasFrame: bool
    var stopped: bool
    var thread: Thread
    ghost var pushed: seq<Frame>
    ghost var consumed: seq<Frame>

    ghost function View(): State
      reads this, fb
    {
      State(fb.Pending(), hasFrame, stopped, thread, pushed, consumed, false)
    }

    constructor ()
      ensures fb.Valid() && View() == Init() && fresh(fb)
    {
      fb := new FrameBuffer();
      hasFrame, stopped, thread := false, false, Checking;
      pushed, consumed := [], [];
    }

    method Push(frame: Frame, refOk: bool) returns (ok: bool)
      requires fb.Valid()
      modifies this, fb
      ensures fb.Valid() && View() == PushStep(old(View()), frame, refOk) && ok == refOk
    {
      var previousSkipped := fb.HasFrame();
      ok := fb.Push(frame, refOk);
      if !ok {
        return;
      }
      pushed := pushed + [frame];
      if !previousSkipped {
        hasFrame := true;
        if thread.Waiting? {
          thread := Checking;
        }
      }
    }

    /** The critical section of the loop of run_v4l2_sink(). */
    method Check()
      requires fb.Valid() && thread.Checking? && (hasFrame <==> fb.Pending().Some?)
      modifies this, fb
      ensures fb.Valid() && View() == CheckStep(old(View()))
    {
      if stopped {
        thread := Ended;
        return;
      }
      if !hasFrame {
        thread := Waiting;
        return;
      }
      hasFrame := false;
      var frame := fb.Consume();
      consumed := consumed + [frame];
      thread := Writing(frame);
    }
  }
}
