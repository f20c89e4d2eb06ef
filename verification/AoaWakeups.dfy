/**
 * The condition variables of the AOA thread (app/src/usb/aoa_hid.c, app/src/util/acksync.c):
 * one for its queue, signalled when the queue was empty, and one for the acknowledgements.
 */
module AoaWakeups {
  import opened Common
  import opened AoaHid

  /** asleep: the thread is blocked on the condition variable of what it does, not signalled. */
  datatype Sys = Sys(s: State, asleep: bool)

  datatype Action =
    | Push(e: Event)
    | Stop
    | Acknowledge(sequence: nat)
    | InterruptAcks
    | Thread(deadline: bool, ok: bool)   // deadline: that of a timed wait has expired
    | SpuriousWakeup

  /** What each action does, without condition variables. */
  function Step(s: State, a: Action): State {
    match a
    case Push(e) => PushStep(s, e)
    case Stop => s.(stopped := true)
    case Acknowledge(sequence) => s.(acks := s.acks.(ack := sequence))
    case InterruptAcks => s.(acks := s.acks.(stopped := true))
    case Thread(deadline, ok) => ThreadStep(s, deadline, ok)
    case SpuriousWakeup => s
  }

  function Run(actions: seq<Action>): State {
    if actions == [] then AoaHid.Init() else Step(Run(DropLast(actions)), Last(actions))
  }

  predicate WaitsForEvent(s: State) {
    s.thread.Idle? && !s.stopped && s.queue == []
  }

  predicate WaitsForAck(s: State) {
    && s.thread.Awaiting? && s.thread.event.Input?
    && !s.acks.stopped && s.acks.ack < s.thread.event.ackToWait
  }

  /** Whether the condition variable that the thread may be blocked on is signalled. */
  predicate Signals(s: State, a: Action) {
    match a
    case Push(e) => s.thread.Idle? && Accepts(s, e) && s.queue == []
    case Stop => s.thread.Idle?
    case Acknowledge(_) => s.thread.Awaiting?
    case InterruptAcks => s.thread.Awaiting?
    case Thread(_, _) => false
    case SpuriousWakeup => true
  }

  function React(sys: Sys, a: Action): Sys {
    if !a.Thread? then Sys(Step(sys.s, a), sys.asleep && !Signals(sys.s, a))
    else if sys.asleep && !(sys.s.thread.Awaiting? && a.deadline) then sys
    else Sys(Step(sys.s, a), WaitsForEvent(sys.s) || (WaitsForAck(sys.s) && !a.deadline))
  }

  function RunAll(actions: seq<Action>): Sys {
    if actions == [] then Sys(AoaHid.Init(), false) else React(RunAll(DropLast(actions)), Last(actions))
  }

  /** No wakeup is lost: a thread that sleeps has no event to take, or waits for an acknowledgement still to come. */
  predicate NoLostWakeup(sys: Sys) {
    sys.asleep ==> WaitsForEvent(sys.s) || WaitsForAck(sys.s)
  }

  lemma ReactKeeps(sys: Sys, a: Action)
    requires NoLostWakeup(sys)
    ensures NoLostWakeup(React(sys, a))
    ensures React(sys, a).s == Step(sys.s, a)
  {
    hide HandleStep;
  }

  /**
   * A thread that sleeps unsignalled has nothing to do; and sleeping changes nothing: the state is
   * the one that the same actions reach when the thread may act at any time.
   */
  lemma {:induction false} NoWakeupIsLost(actions: seq<Action>)
    ensures NoLostWakeup(RunAll(actions))
    ensures RunAll(actions).s == Run(actions)
  {
    if actions != [] {
      hide React, NoLostWakeup, Step;
      NoWakeupIsLost(DropLast(actions));
      ReactKeeps(RunAll(DropLast(actions)), Last(actions));
    }
  }

  // ---------------------------------------------------------------- the end of the thread

  /** In every run, the thread ends only when it is asked to, and an event is aborted only by that end. */
  lemma {:induction false} EndsOnlyIfAsked(actions: seq<Action>)
    ensures EndsIfAsked(Run(actions))
  {
    if actions != [] {
      hide EndsIfAsked, Step;
      EndsOnlyIfAsked(DropLast(actions));
      StepKeepsEnd(Run(DropLast(actions)), Last(actions));
    }
  }

  lemma StepKeepsEnd(s: State, a: Action)
    requires EndsIfAsked(s)
    ensures EndsIfAsked(Step(s, a))
  {
    hide ThreadStep;
    if a.Thread? {
      ThreadKeepsEnd(s, a.deadline, a.ok);
    }
  }

  lemma RunSnoc(actions: seq<Action>, a: Action)
    ensures Run(actions + [a]) == Step(Run(actions), a)
  {
    assert DropLast(actions + [a]) == actions;
  }

  predicate NotAsked(s: State) {
    !s.stopped && !s.acks.stopped
  }

  /** Unless it is asked to end, the thread discards an event that times out, and takes the next one. */
  lemma TimeoutGoesOn(actions: seq<Action>, first: Action, second: Action)
    requires var s := Run(actions);
             NotAsked(s) && WaitsForAck(s) && s.queue != [] && first.Thread? && first.deadline && second.Thread?
    ensures var s, r := Run(actions), Run(actions + [first, second]);
            && r.fates == s.fates + [(s.thread.event, TimedOut)]
            && (r.thread.Awaiting? || r.thread.Handling?) && r.thread.event == s.queue[0]
  {
    hide Run;
    RunSnoc(actions, first);
    RunSnoc(actions + [first], second);
    assert actions + [first, second] == actions + [first] + [second];
  }

  /** An event whose acknowledgement has arrived is sent, even if its deadline has expired. */
  lemma AcknowledgedIsSent(actions: seq<Action>, first: Action, second: Action)
    requires var s := Run(actions);
             s.thread.Awaiting? && s.thread.event.Input? && !s.acks.stopped && s.acks.ack >= s.thread.event.ackToWait
    requires first.Thread? && second.Thread?
    ensures var s, r := Run(actions), Run(actions + [first, second]);
            r.fates == s.fates + [(s.thread.event, Sent(second.ok))] && r.thread.Idle?
  {
    hide Run, Without;
    RunSnoc(actions, first);
    RunSnoc(actions + [first], second);
    assert actions + [first, second] == actions + [first] + [second];
  }

  predicate Busy(t: Thread) {
    t.Awaiting? || t.Handling?
  }

  lemma StoppedStep(s: State, a: Action)
    requires s.stopped
    ensures Step(s, a).stopped && Taken(Step(s, a)) == Taken(s)
    ensures !Busy(s.thread) ==> !Busy(Step(s, a).thread) && Step(s, a).fates == s.fates
  {
    hide Without;
    if a.Thread? && s.thread.Awaiting? && s.thread.event.Input? {
      assert Taken(WaitStep(s, a.deadline)) == Taken(s);
    } else if a.Thread? && s.thread.Handling? {
      assert Taken(HandleStep(s, a.ok)) == Taken(s);
    } else {
      assert Taken(Step(s, a)) == Taken(s);
    }
  }

  /** Once it is stopped, whatever follows, the thread takes no event any more. */
  lemma {:induction false} StoppedTakesNothing(actions: seq<Action>, more: seq<Action>)
    requires Run(actions).stopped
    ensures Run(actions + more).stopped && Taken(Run(actions + more)) == Taken(Run(actions))
  {
    if more == [] {
      assert actions + more == actions;
    } else {
      hide Taken, Step, Run;
      StoppedTakesNothing(actions, DropLast(more));
      assert actions + more == actions + DropLast(more) + [Last(more)];
      RunSnoc(actions + DropLast(more), Last(more));
      StoppedStep(Run(actions + DropLast(more)), Last(more));
    }
  }

  /** Asked to end, a thread that has nothing in progress, or waits for an acknowledgement that is interrupted, ends at once. */
  lemma EndsAtOnce(actions: seq<Action>, next: Action)
    requires next.Thread?
    ensures var s, r := Run(actions), Run(actions + [next]);
            && (s.thread.Idle? && s.stopped ==> r.thread.Exited?)
            && (s.thread.Awaiting? && s.acks.stopped ==> r.thread.Exited?)
            && (s.thread.Exited? ==> r.thread.Exited?)
  {
    RunSnoc(actions, next);
    AwaitsInput(actions);
  }

  lemma {:induction false} AwaitsInput(actions: seq<Action>)
    ensures var t := Run(actions).thread; t.Awaiting? ==> t.event.Input?
  {
    if actions != [] {
      hide HandleStep;
      AwaitsInput(DropLast(actions));
    }
  }

  /** An input event is dropped exactly when 60 events are queued; opening and closing events never are. */
  lemma AcceptedIff(actions: seq<Action>, e: Event)
    ensures var s, r := Run(actions), Run(actions + [Push(e)]);
            if |s.queue| < 60 || !e.Input? then r.accepted == s.accepted + [e] && r.queue == s.queue + [e] else r == s
  {
    hide Run;
    RunSnoc(actions, Push(e));
  }

  /**
   * A stop ends an idle thread at its next step, and so does an interruption a thread that waits; an
   * acknowledgement lets it go on.
   */
  lemma AskedEnds(actions: seq<Action>, n: nat, next: Action)
    requires next.Thread?
    ensures Run(actions).thread.Idle? ==> Run(actions + [Stop] + [next]).thread.Exited?
    ensures Run(actions).thread.Awaiting? ==> Run(actions + [InterruptAcks] + [next]).thread.Exited?
    ensures var s := Run(actions);
            (s.thread.Awaiting? && s.thread.event.Input? && !s.acks.stopped && n >= s.thread.event.ackToWait
             ==> Run(actions + [Acknowledge(n)] + [next]).thread.Handling?)
  {
    hide Run;
    AwaitsInput(actions);
    RunSnoc(actions, Stop);
    RunSnoc(actions + [Stop], next);
    RunSnoc(actions, InterruptAcks);
    RunSnoc(actions + [InterruptAcks], next);
    RunSnoc(actions, Acknowledge(n));
    RunSnoc(actions + [Acknowledge(n)], next);
  }
}
