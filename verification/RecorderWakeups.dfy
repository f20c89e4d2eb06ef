/**
 * The condition variable of the recorder (app/src/recorder.c). Recording lets the recorder
 * thread evaluate its conditions at any time; here it sleeps until it is signalled, and does
 * the same.
 */
module RecorderWakeups {
  import opened Common
  import opened PtsRepair
  import opened Recording

  /** asleep: the recorder thread is blocked on the condition variable, not signalled. */
  datatype Sys = Sys(s: State, asleep: bool)

  datatype Event = Act(a: Action) | SpuriousWakeup

  /** The condition under which the thread waits. */
  predicate MustWait(s: State) {
    (s.thread.Header? && MustWaitForHeader(s)) || (s.thread.Take? && MustWaitForPackets(s))
  }

  /** Whether a sink signals the condition variable. */
  predicate Signals(s: State, a: Action) {
    match a
    case OpenVideo(opening) => s.video && !s.v.init && !s.stopped && opening.Opened?
    case OpenAudio(opening) => s.audio && !s.a.init && opening.Opened?
    case DisableAudio => s.audio && !s.a.init
    case PushVideo(_) => s.v.init && !s.stopped
    case PushAudio(_) => s.audio && s.a.init && !s.stopped
    case CloseVideo => s.v.init
    case CloseAudio => s.audio && s.a.init
    case Stop => true
    case ThreadStep(_) => false
  }

  function React(sys: Sys, e: Event): Sys {
    match e
    case SpuriousWakeup => sys.(asleep := false)
    case Act(a) =>
      if !a.ThreadStep? then Sys(Step(sys.s, a), sys.asleep && !Signals(sys.s, a))
      else if sys.asleep then sys
      else Sys(Step(sys.s, a), MustWait(sys.s))
  }

  function RunAll(video: bool, audio: bool, events: seq<Event>): Sys {
    if events == [] then Sys(Init(video, audio), false) else React(RunAll(video, audio, DropLast(events)), Last(events))
  }

  function ActionsOf(events: seq<Event>): seq<Action> {
    if events == [] then []
    else ActionsOf(DropLast(events)) + (if Last(events).Act? then [Last(events).a] else [])
  }

  /** No wakeup is lost: a thread that sleeps has to wait. */
  predicate NoLostWakeup(sys: Sys) {
    sys.asleep ==> MustWait(sys.s)
  }

  lemma WaitingChangesNothing(s: State, ok: bool)
    requires MustWait(s)
    ensures ThreadStepOf(s, ok) == s
  {
  }

  lemma SinkKeepsWaiting(s: State, a: Action)
    requires MustWait(s) && !a.ThreadStep? && !Signals(s, a)
    ensures MustWait(SinkStep(s, a))
  {
  }

  lemma ReactKeeps(sys: Sys, e: Event)
    requires NoLostWakeup(sys)
    ensures NoLostWakeup(React(sys, e))
    ensures React(sys, e).s == if e.Act? then Step(sys.s, e.a) else sys.s
  {
    hide MustWait, Signals, SinkStep, ThreadStepOf;
    if e.Act? && sys.asleep {
      if e.a.ThreadStep? {
        WaitingChangesNothing(sys.s, e.a.ok);
      } else if !Signals(sys.s, e.a) {
        SinkKeepsWaiting(sys.s, e.a);
      }
    } else if e.Act? && e.a.ThreadStep? && MustWait(sys.s) {
      WaitingChangesNothing(sys.s, e.a.ok);
    }
  }

  /**
   * A thread that sleeps unsignalled has nothing to do; and sleeping changes nothing: whatever the
   * wakeups, the recorder is in the state that Recording gives for the same actions.
   */
  lemma {:induction false} NoWakeupIsLost(video: bool, audio: bool, events: seq<Event>)
    ensures NoLostWakeup(RunAll(video, audio, events))
    ensures RunAll(video, audio, events).s == Run(video, audio, ActionsOf(events))
  {
    if events != [] {
      hide React, NoLostWakeup, Step;
      NoWakeupIsLost(video, audio, DropLast(events));
      ReactKeeps(RunAll(video, audio, DropLast(events)), Last(events));
      if Last(events).Act? {
        assert DropLast(ActionsOf(events)) == ActionsOf(DropLast(events));
      } else {
        assert ActionsOf(events) == ActionsOf(DropLast(events));
      }
    }
  }
}
