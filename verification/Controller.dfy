/**
 * The controller (app/src/controller.c): a bounded queue of control messages, an
 * overwriting slot for display resizes, and the thread that sends them. Each critical
 * section is one step. Sending one message succeeds, or fails and ends the thread; a
 * message that cannot be serialized ends the program.
 */
module Controller {
  import opened Common
  import opened ControlMsg
  import opened Binary
  import opened Coords

  // Droppable messages are dropped above this limit.
  const QUEUE_LIMIT := 60

  /** Checking: the thread holds the mutex, or waits for it, and will evaluate its condition. */
  datatype Thread =
    | Checking
    | Waiting              // blocked on the condition variable, not signalled
    | Sending(msg: Msg)
    | Ended(error: bool)
    | Aborted              // an assert of the serializer failed

  datatype State = State(
    queue: seq<Msg>,
    resize: Size,           // requested if the width is not 0
    stopped: bool,
    thread: Thread,
    accepted: seq<Msg>,     // history: messages pushed successfully
    requests: seq<Size>,    // history: resizes requested
    sent: seq<Msg>,         // history: messages sent on the socket
    failed: seq<Msg>        // history: the message that could not be serialized or sent, if any
  )

  datatype Action =
    | Push(msg: Msg)
    | Resize(width: U16, height: U16)
    | Stop
    | SpuriousWakeup
    | ThreadStep(ok: bool, eos: bool)   // the results of sending, if the thread is sending

  const NO_RESIZE := Size(0, 0)

  function Init(): State {
    State([], NO_RESIZE, false, Checking, [], [], [], [])
  }

  function Signal(t: Thread): Thread {
    if t.Waiting? then Checking else t
  }

  /** Whether sc_controller_push_msg() accepts a message. */
  predicate Accepts(s: State, m: Msg) {
    |s.queue| < QUEUE_LIMIT || !IsDroppable(m)
  }

  /** The thread is signalled only when the queue was empty. */
  function PushStep(s: State, m: Msg): State {
    if |s.queue| < QUEUE_LIMIT then
      s.(queue := s.queue + [m], accepted := s.accepted + [m], thread := if s.queue == [] then Signal(s.thread) else s.thread)
    else if !IsDroppable(m) then
      s.(queue := s.queue + [m], accepted := s.accepted + [m])
    else s
  }

  /** The thread is signalled only when no resize was requested. */
  function ResizeStep(s: State, width: U16, height: U16): State {
    s.(resize := Size(width, height), requests := s.requests + [Size(width, height)],
       thread := if s.resize.width == 0 then Signal(s.thread) else s.thread)
  }

  predicate MustWait(s: State) {
    !s.stopped && s.resize.width == 0 && s.queue == []
  }

  function TakeStep(s: State): State {
    if MustWait(s) then s.(thread := Waiting)
    else if s.stopped then s.(thread := Ended(false))
    else if s.resize.width != 0 then
      s.(thread := Sending(ResizeDisplay(s.resize.width, s.resize.height)), resize := NO_RESIZE)
    else s.(thread := Sending(s.queue[0]), queue := s.queue[1..])
  }

  function SendStep(s: State, ok: bool, eos: bool): State
    requires s.thread.Sending?
  {
    if !Serializable(s.thread.msg) then s.(failed := [s.thread.msg], thread := Aborted)
    else if ok then s.(sent := s.sent + [s.thread.msg], thread := Checking)
    else s.(failed := [s.thread.msg], thread := Ended(!eos))
  }

  function Step(s: State, a: Action): State {
    match a
    case Push(m) => if m.ResizeDisplay? then s else PushStep(s, m)
    case Resize(w, h) => if w == 0 || h == 0 then s else ResizeStep(s, w, h)
    case Stop => s.(stopped := true, thread := Signal(s.thread))
    case SpuriousWakeup => s.(thread := Signal(s.thread))
    case ThreadStep(ok, eos) =>
      if s.thread.Checking? then TakeStep(s)
      else if s.thread.Sending? then SendStep(s, ok, eos)
      else s
  }

  function Run(actions: seq<Action>): State {
    if actions == [] then Init() else Step(Run(DropLast(actions)), Last(actions))
  }

  // ---------------------------------------------------------------- properties of every run

  function Queued(ms: seq<Msg>): seq<Msg> {
    if ms == [] then []
    else Queued(DropLast(ms)) + (if Last(ms).ResizeDisplay? then [] else [Last(ms)])
  }

  function Resizes(ms: seq<Msg>): seq<Size> {
    if ms == [] then []
    else Resizes(DropLast(ms)) + (if Last(ms).ResizeDisplay? then [Size(Last(ms).width, Last(ms).height)] else [])
  }

  /** The messages taken by the thread: sent, being sent, or failed. */
  function Taken(s: State): seq<Msg> {
    s.sent + (if s.thread.Sending? then [s.thread.msg] else s.failed)
  }

  lemma QueuedSnoc(ms: seq<Msg>, m: Msg)
    ensures Queued(ms + [m]) == Queued(ms) + (if m.ResizeDisplay? then [] else [m])
    ensures Resizes(ms + [m]) == Resizes(ms) + (if m.ResizeDisplay? then [Size(m.width, m.height)] else [])
  {
    assert DropLast(ms + [m]) == ms;
  }

  lemma {:induction false} QueuedPrefix(ms: seq<Msg>, more: seq<Msg>)
    ensures Queued(ms) <= Queued(ms + more) && Resizes(ms) <= Resizes(ms + more)
  {
    if more == [] {
      assert ms + more == ms;
    } else {
      QueuedPrefix(ms, DropLast(more));
      QueuedSnoc(ms + DropLast(more), Last(more));
      assert ms + more == ms + DropLast(more) + [Last(more)];
    }
  }

  /** No wakeup is lost: a thread that waits unsignalled has nothing to do. */
  predicate NoLostWakeup(s: State) {
    s.thread.Waiting? ==> s.queue == [] && s.resize.width == 0 && !s.stopped
  }

  /** Messages leave in the order in which they were accepted. */
  predicate InOrder(s: State) {
    && s.accepted == Queued(Taken(s)) + s.queue
    && (!s.thread.Ended? && !s.thread.Aborted? ==> s.failed == [])
    && (forall m | m in s.queue :: !m.ResizeDisplay?)
  }

  /** The resizes taken are some of those requested, in order; the last one requested is pending, or was the last taken. */
  ghost predicate LatestResize(s: State) {
    var out := Resizes(Taken(s));
    if s.resize.width != 0 then
      s.requests != [] && Last(s.requests) == s.resize && Subsequence(out, DropLast(s.requests))
    else
      Subsequence(out, s.requests) && (s.requests != [] ==> out != [] && Last(out) == Last(s.requests))
  }

  /** The thread aborts on the first message that it cannot serialize. */
  predicate SendsSerializable(s: State) {
    && (forall m | m in s.sent :: Serializable(m))
    && (s.thread.Aborted? <==> s.failed != [] && !Serializable(s.failed[0]))
  }

  ghost predicate Inv(s: State) {
    NoLostWakeup(s) && InOrder(s) && LatestResize(s) && SendsSerializable(s)
  }

  lemma StepKeepsWakeup(s: State, a: Action)
    requires NoLostWakeup(s)
    ensures NoLostWakeup(Step(s, a))
  {
  }

  /** Only the thread takes messages, one at a time. */
  lemma OthersTakeNothing(s: State, a: Action)
    requires InOrder(s) && !a.ThreadStep?
    ensures Taken(Step(s, a)) == Taken(s) && Step(s, a).failed == s.failed
  {
    hide Queued;
  }

  lemma SendTakesNothing(s: State, ok: bool, eos: bool)
    requires InOrder(s) && s.thread.Sending?
    ensures Taken(SendStep(s, ok, eos)) == Taken(s)
  {
    hide Queued;
  }

  lemma TakeTakes(s: State)
    requires InOrder(s) && s.thread.Checking?
    ensures var r := TakeStep(s);
            Taken(r) == if r.thread.Sending? then Taken(s) + [r.thread.msg] else Taken(s)
  {
    hide Queued;
  }

  lemma StepKeepsOrder(s: State, a: Action)
    requires InOrder(s)
    ensures InOrder(Step(s, a))
  {
    hide Queued, Taken;
    if !a.ThreadStep? {
      OthersTakeNothing(s, a);
    } else if s.thread.Sending? {
      SendTakesNothing(s, a.ok, a.eos);
    } else if s.thread.Checking? {
      TakeTakes(s);
      if TakeStep(s).thread.Sending? {
        QueuedSnoc(Taken(s), TakeStep(s).thread.msg);
      }
    }
  }

  lemma RequestKeepsLatest(s: State, width: U16, height: U16)
    requires LatestResize(s) && InOrder(s) && width != 0
    ensures LatestResize(ResizeStep(s, width, height))
  {
    hide Resizes, Queued, Subsequence;
    var size := Size(width, height);
    assert Taken(ResizeStep(s, width, height)) == Taken(s);
    assert DropLast(s.requests + [size]) == s.requests;
    if s.resize.width != 0 {
      SubsequenceSnoc(Resizes(Taken(s)), DropLast(s.requests), Last(s.requests));
      assert s.requests == DropLast(s.requests) + [Last(s.requests)];
    }
  }

  lemma TakeKeepsLatest(s: State)
    requires LatestResize(s) && InOrder(s) && s.thread.Checking?
    ensures LatestResize(TakeStep(s))
  {
    hide Resizes, Queued, Subsequence, Taken;
    var out := Resizes(Taken(s));
    TakeTakes(s);
    if TakeStep(s).thread.Sending? {
      QueuedSnoc(Taken(s), TakeStep(s).thread.msg);
      if s.resize.width != 0 {
        SubsequenceSnoc(out, DropLast(s.requests), s.resize);
        assert s.requests == DropLast(s.requests) + [s.resize];
        assert Resizes(Taken(TakeStep(s))) == out + [s.resize];
      } else {
        assert out + [] == out;
      }
    }
  }

  lemma StepKeepsLatest(s: State, a: Action)
    requires LatestResize(s) && InOrder(s)
    ensures LatestResize(Step(s, a))
  {
    hide Resizes, Queued, Subsequence, ResizeStep, TakeStep, Taken;
    if a.Resize? && a.width != 0 {
      RequestKeepsLatest(s, a.width, a.height);
    } else if a.ThreadStep? && s.thread.Checking? {
      TakeKeepsLatest(s);
    } else if a.ThreadStep? && s.thread.Sending? {
      SendTakesNothing(s, a.ok, a.eos);
    } else if !a.ThreadStep? {
      OthersTakeNothing(s, a);
    }
  }

  lemma StepKeepsSerializable(s: State, a: Action)
    requires SendsSerializable(s) && InOrder(s)
    ensures SendsSerializable(Step(s, a))
  {
    hide Serializable, Queued, Taken;
  }

  lemma StepKeeps(s: State, a: Action)
    requires Inv(s)
    ensures Inv(Step(s, a))
  {
    hide Step, NoLostWakeup, InOrder, LatestResize, SendsSerializable;
    StepKeepsSerializable(s, a);
    StepKeepsWakeup(s, a);
    StepKeepsOrder(s, a);
    StepKeepsLatest(s, a);
  }

  lemma {:induction false} RunKeeps(actions: seq<Action>)
    ensures Inv(Run(actions))
  {
    if actions != [] {
      hide Step, Inv;
      RunKeeps(DropLast(actions));
      StepKeeps(Run(DropLast(actions)), Last(actions));
    }
  }

  /** A thread blocked without a signal has nothing to send and was not asked to stop. */
  lemma {:induction false} NoWakeupIsLost(actions: seq<Action>)
    ensures NoLostWakeup(Run(actions))
  {
    hide Run;
    RunKeeps(actions);
  }

  /** Messages are sent in the order in which they were accepted; when the thread waits, all of them have been sent. */
  lemma {:induction false} SendsInOrder(actions: seq<Action>)
    ensures var s := Run(actions);
            && Queued(s.sent) <= s.accepted
            && (s.thread.Waiting? ==> Queued(s.sent) == s.accepted)
  {
    hide Run, Queued;
    RunKeeps(actions);
    var s := Run(actions);
    QueuedPrefix(s.sent, Taken(s)[|s.sent|..]);
    assert Taken(s) == s.sent + Taken(s)[|s.sent|..];
    if s.thread.Waiting? {
      assert Taken(s) == s.sent;
    }
  }

  lemma {:induction false} QueuedHas(ms: seq<Msg>, m: Msg)
    requires m in ms && !m.ResizeDisplay?
    ensures m in Queued(ms)
  {
    if m != Last(ms) {
      QueuedHas(DropLast(ms), m);
    }
  }

  /**
   * Only serializable messages are sent, and the thread aborts exactly when it takes another one:
   * never, if all the messages pushed are serializable.
   */
  lemma {:induction false} AbortsIff(actions: seq<Action>)
    ensures var s := Run(actions);
            && SendsSerializable(s)
            && ((forall m | m in s.accepted :: Serializable(m)) ==> !s.thread.Aborted?)
  {
    hide Run, Queued;
    RunKeeps(actions);
    var s := Run(actions);
    if s.thread.Aborted? {
      QueuedHas(Taken(s), s.failed[0]);
    }
  }

  /** Resizes sent are a subsequence of those requested; when the thread waits, the last one sent is the last requested. */
  lemma {:induction false} SendsLatestResize(actions: seq<Action>)
    ensures var s := Run(actions);
            && Subsequence(Resizes(s.sent), s.requests)
            && (s.thread.Waiting? && s.requests != [] ==>
                  Resizes(s.sent) != [] && Last(Resizes(s.sent)) == Last(s.requests))
  {
    hide Run, Resizes, Subsequence;
    RunKeeps(actions);
    var s := Run(actions);
    var out := Resizes(Taken(s));
    if s.resize.width != 0 {
      SubsequenceSnoc(out, DropLast(s.requests), Last(s.requests));
      assert s.requests == DropLast(s.requests) + [Last(s.requests)];
    }
    QueuedPrefix(s.sent, Taken(s)[|s.sent|..]);
    assert Taken(s) == s.sent + Taken(s)[|s.sent|..];
    PrefixIsSubsequence(Resizes(s.sent), out, s.requests);
    if s.thread.Waiting? {
      assert Taken(s) == s.sent;
    }
  }

  lemma {:induction false} PrefixIsSubsequence<T>(prefix: seq<T>, sub: seq<T>, s: seq<T>)
    requires prefix <= sub && Subsequence(sub, s)
    ensures Subsequence(prefix, s)
    decreases |s|
  {
    if prefix == sub || prefix == [] {
      assert Subsequence(prefix, s);
    } else if Last(sub) == Last(s) && Subsequence(DropLast(sub), DropLast(s)) {
      PrefixIsSubsequence(prefix, DropLast(sub), DropLast(s));
    } else {
      PrefixIsSubsequence(prefix, sub, DropLast(s));
    }
  }

  // ---------------------------------------------------------------- the priority of resizes

  lemma RunSnoc(actions: seq<Action>, a: Action)
    ensures Run(actions + [a]) == Step(Run(actions), a)
  {
    assert DropLast(actions + [a]) == actions;
  }

  predicate IsRequest(a: Action) {
    a.Resize? && a.width != 0 && a.height != 0
  }

  /** Nothing has been taken since `before` and the resize is pending, or it was taken just after `before`. */
  predicate IsNext(s: State, before: seq<Msg>, size: Size) {
    || (Taken(s) == before && s.resize == size)
    || before + [ResizeDisplay(size.width, size.height)] <= Taken(s)
  }

  lemma StepKeepsNext(s: State, a: Action, before: seq<Msg>, size: Size)
    requires InOrder(s) && IsNext(s, before, size) && size.width != 0 && !IsRequest(a)
    ensures IsNext(Step(s, a), before, size)
  {
    hide Queued, Taken;
    if !a.ThreadStep? {
      OthersTakeNothing(s, a);
    } else if s.thread.Sending? {
      SendTakesNothing(s, a.ok, a.eos);
    } else if s.thread.Checking? {
      TakeTakes(s);
    }
  }

  /**
   * A resize goes before the queue: in whatever follows its request, until another one, the first
   * message that the thread takes is that resize. Only the message being sent goes before it.
   */
  lemma {:induction false} ResizeGoesNext(actions: seq<Action>, request: Action, more: seq<Action>)
    requires IsRequest(request) && forall i | 0 <= i < |more| :: !IsRequest(more[i])
    ensures IsNext(Run(actions + [request] + more), Taken(Run(actions)), Size(request.width, request.height))
  {
    hide Run, Step, Taken, InOrder, IsNext;
    var all := actions + [request] + more;
    var before, size := Taken(Run(actions)), Size(request.width, request.height);
    if more == [] {
      assert all == actions + [request];
      RunKeeps(actions);
      RunSnoc(actions, request);
      RequestIsPending(Run(actions), request);
    } else {
      ResizeGoesNext(actions, request, DropLast(more));
      assert all == actions + [request] + DropLast(more) + [Last(more)];
      RunKeeps(actions + [request] + DropLast(more));
      RunSnoc(actions + [request] + DropLast(more), Last(more));
      StepKeepsNext(Run(actions + [request] + DropLast(more)), Last(more), before, size);
    }
  }

  lemma RequestIsPending(s: State, request: Action)
    requires InOrder(s) && IsRequest(request)
    ensures IsNext(Step(s, request), Taken(s), Size(request.width, request.height))
  {
    OthersTakeNothing(s, request);
  }

  // ---------------------------------------------------------------- the end of the thread, and its progress

  lemma StoppedStep(s: State, a: Action)
    requires InOrder(s) && s.stopped
    ensures Step(s, a).stopped && Taken(Step(s, a)) == Taken(s)
  {
    hide Queued, Taken;
    if !a.ThreadStep? {
      OthersTakeNothing(s, a);
    } else if s.thread.Sending? {
      SendTakesNothing(s, a.ok, a.eos);
    } else if s.thread.Checking? {
      TakeTakes(s);
    }
  }

  /** Once it is stopped, whatever follows, the thread takes no message any more. */
  lemma {:induction false} StoppedTakesNothing(actions: seq<Action>, more: seq<Action>)
    requires Run(actions).stopped
    ensures Run(actions + more).stopped && Taken(Run(actions + more)) == Taken(Run(actions))
  {
    if more == [] {
      assert actions + more == actions;
    } else {
      hide Taken, Step, Run, InOrder;
      StoppedTakesNothing(actions, DropLast(more));
      assert actions + more == actions + DropLast(more) + [Last(more)];
      RunKeeps(actions + DropLast(more));
      RunSnoc(actions + DropLast(more), Last(more));
      StoppedStep(Run(actions + DropLast(more)), Last(more));
    }
  }

  /** The steps that the thread needs to send what is pending. */
  function Pending(s: State): nat {
    2 * |s.queue| + (if s.resize.width != 0 then 2 else 0)
    + (if s.thread.Sending? then 2 else if s.thread.Checking? then 1 else 0)
  }

  predicate CanSend(s: State) {
    && !s.stopped && !s.thread.Ended? && !s.thread.Aborted?
    && (forall m | m in s.queue :: Serializable(m))
    && (s.thread.Sending? ==> Serializable(s.thread.msg))
  }

  lemma ThreadProgresses(s: State, eos: bool)
    requires CanSend(s) && !s.thread.Waiting?
    ensures var r := Step(s, ThreadStep(true, eos));
            CanSend(r) && (if r.thread.Waiting? then Pending(r) == 0 else Pending(r) < Pending(s))
  {
    hide Serializable;
    ResizeIsSerializable(s.resize);
  }

  lemma ResizeIsSerializable(size: Size)
    ensures Serializable(ResizeDisplay(size.width, size.height))
  {
  }

  /**
   * A thread that is neither stopped nor ended sends everything: if sending succeeds and every message
   * is serializable, it waits with nothing pending after a bounded number of its steps.
   */
  lemma {:induction false} Drains(actions: seq<Action>, eos: bool) returns (more: seq<Action>)
    requires CanSend(Run(actions))
    ensures |more| <= Pending(Run(actions)) && forall i | 0 <= i < |more| :: more[i] == ThreadStep(true, eos)
    ensures var r := Run(actions + more); r.thread.Waiting? && Pending(r) == 0
    decreases Pending(Run(actions))
  {
    hide Run, Step, InOrder, LatestResize, SendsSerializable;
    var s := Run(actions);
    RunKeeps(actions);
    if s.thread.Waiting? {
      more := [];
      assert actions + more == actions;
    } else {
      ThreadProgresses(s, eos);
      RunSnoc(actions, ThreadStep(true, eos));
      var next := actions + [ThreadStep(true, eos)];
      if Run(next).thread.Waiting? {
        more := [ThreadStep(true, eos)];
      } else {
        var rest := Drains(next, eos);
        more := [ThreadStep(true, eos)] + rest;
        assert actions + more == next + rest;
      }
    }
  }

  /**
   * The thread ends with an error only if sending failed otherwise than by the end of the stream, and
   * without error only if it was stopped or the stream ended.
   */
  lemma {:induction false} EndHasReason(actions: seq<Action>)
    ensures var s := Run(actions);
            && (s.thread == Ended(true) ==> ThreadStep(false, false) in actions)
            && (s.thread == Ended(false) ==> s.stopped || ThreadStep(false, true) in actions)
  {
    if actions != [] {
      hide Serializable;
      EndHasReason(DropLast(actions));
      assert actions == DropLast(actions) + [Last(actions)];
    }
  }

  // ---------------------------------------------------------------- what is accepted

  /** A message is dropped only when 60 are queued, and never if it creates or destroys a HID device. */
  lemma AcceptedIff(actions: seq<Action>, m: Msg)
    requires !m.ResizeDisplay?
    ensures var s, r := Run(actions), Run(actions + [Push(m)]);
            if |s.queue| < 60 || m.UhidCreate? || m.UhidDestroy? then
              r.accepted == s.accepted + [m] && r.queue == s.queue + [m]
            else r == s
  {
    hide Run;
    RunSnoc(actions, Push(m));
  }

  function Droppables(ms: seq<Msg>): nat {
    if ms == [] then 0 else Droppables(DropLast(ms)) + (if IsDroppable(Last(ms)) then 1 else 0)
  }

  lemma {:induction false} DroppablesOfTail(ms: seq<Msg>)
    requires ms != []
    ensures Droppables(ms[1..]) <= Droppables(ms) <= |ms|
  {
    if |ms| > 1 {
      assert DropLast(ms)[1..] == DropLast(ms[1..]);
      DroppablesOfTail(DropLast(ms));
    }
  }

  lemma {:induction false} DroppablesAreSome(ms: seq<Msg>)
    ensures Droppables(ms) <= |ms|
  {
    if ms != [] {
      DroppablesAreSome(DropLast(ms));
    }
  }

  /** However slow the device is, at most 60 messages that can be dropped are queued. */
  lemma {:induction false} QueueIsBounded(actions: seq<Action>)
    ensures Droppables(Run(actions).queue) <= 60
  {
    if actions != [] {
      hide Step;
      QueueIsBounded(DropLast(actions));
      StepKeepsBound(Run(DropLast(actions)), Last(actions));
    }
  }

  lemma StepKeepsBound(s: State, a: Action)
    requires Droppables(s.queue) <= 60
    ensures Droppables(Step(s, a).queue) <= 60
  {
    hide Droppables, Serializable, IsDroppable;
    match a
    case Push(m) =>
      DroppablesAreSome(s.queue);
      DroppablesSnoc(s.queue, m);
    case ThreadStep(_, _) =>
      if s.queue != [] {
        DroppablesOfTail(s.queue);
      }
    case _ =>
  }

  lemma DroppablesSnoc(ms: seq<Msg>, m: Msg)
    ensures Droppables(ms + [m]) == Droppables(ms) + (if IsDroppable(m) then 1 else 0)
  {
    assert DropLast(ms + [m]) == ms;
  }

  /** After a stop, the thread ends within two of its steps, or has ended before. */
  lemma StopEnds(actions: seq<Action>, first: Action, second: Action)
    requires first.ThreadStep? && second.ThreadStep?
    ensures var t := Run(actions + [Stop] + [first] + [second]).thread; t.Ended? || t.Aborted?
  {
    hide Run, Serializable;
    RunSnoc(actions, Stop);
    RunSnoc(actions + [Stop], first);
    RunSnoc(actions + [Stop] + [first], second);
  }
}
