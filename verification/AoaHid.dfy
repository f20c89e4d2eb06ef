/**
 * HID over AOA (app/src/usb/aoa_hid.c) and the acknowledgements it waits for
 * (app/src/util/acksync.c). USB transfers are foreign calls: their results are parameters.
 */
module AoaHid {
  import opened Common
  import opened Binary

  // Input events are dropped above this limit.
  const QUEUE_LIMIT := 60
  const SEQUENCE_INVALID: nat := 0

  datatype Event =
    | Input(hidId: U16, ackToWait: nat)
    | Open(hidId: U16)
    | Close(hidId: U16)

  datatype WaitResult = Acked | Timeout | Interrupted

  // ---------------------------------------------------------------- sc_acksync

  datatype Acks = Acks(ack: nat, stopped: bool)

  class AckSync {
    var ack: nat
    var stopped: bool

    ghost function View(): Acks
      reads this
    {
      Acks(ack, stopped)
    }

    constructor ()
      ensures View() == Acks(SEQUENCE_INVALID, false)
    {
      ack, stopped := SEQUENCE_INVALID, false;
    }

    /** Acknowledgements must be monotonic. */
    method Acknowledge(sequence: nat)
      requires sequence >= ack
      modifies this
      ensures View() == old(View()).(ack := sequence)
    {
      ack := sequence;
    }

    method Interrupt()
      modifies this
      ensures View() == old(View()).(stopped := true)
    {
      stopped := true;
    }

    /**
     * sc_acksync_wait(). Each element of `wakeups` is what the state is when the condition
     * variable returns, and whether the deadline had expired; the last one has expired.
     */
    method Wait(sequence: nat, wakeups: seq<(Acks, bool)>) returns (r: WaitResult)
      requires wakeups != [] && Last(wakeups).1
      modifies this
      ensures r.Acked? ==> !stopped && ack >= sequence
      ensures r.Timeout? ==> !stopped && ack < sequence
      ensures r.Interrupted? <==> stopped
      ensures View() == old(View()) || exists w | w in wakeups :: View() == w.0
      ensures old(stopped) || old(ack) >= sequence ==> View() == old(View())
    {
      var timedOut := false;
      var i := 0;
      while !stopped && ack < sequence && !timedOut
        invariant 0 <= i <= |wakeups|
        invariant i == |wakeups| ==> timedOut
        invariant View() == old(View()) || exists w | w in wakeups :: View() == w.0
        invariant old(stopped) || old(ack) >= sequence ==> View() == old(View())
        decreases |wakeups| - i
      {
        ack, stopped := wakeups[i].0.ack, wakeups[i].0.stopped;
        timedOut := wakeups[i].1;
        assert View() == wakeups[i].0;
        i := i + 1;
      }
      if stopped {
        r := Interrupted;
      } else if ack >= sequence {
        r := Acked;
      } else {
        assert timedOut;
        r := Timeout;
      }
    }
  }

  // ---------------------------------------------------------------- the AOA thread

  /** Sent: handed to the USB device, which accepted it or not. */
  datatype Fate = Sent(ok: bool) | TimedOut | Aborted

  datatype Thread = Idle | Awaiting(event: Event) | Handling(event: Event) | Exited

  datatype State = State(
    queue: seq<Event>,
    stopped: bool,
    thread: Thread,
    acks: Acks,
    vecOpen: seq<U16>,               // HID ids to unregister on exit
    accepted: seq<Event>,            // history: events pushed successfully
    fates: seq<(Event, Fate)>        // history: what became of the events taken
  )

  function Init(): State {
    State([], false, Idle, Acks(SEQUENCE_INVALID, false), [], [], [])
  }

  predicate Accepts(s: State, e: Event) {
    |s.queue| < QUEUE_LIMIT || !e.Input?
  }

  function PushStep(s: State, e: Event): State {
    if Accepts(s, e) then s.(queue := s.queue + [e], accepted := s.accepted + [e]) else s
  }

  /** The thread takes an event, or sees that it is stopped. */
  function TakeStep(s: State): State {
    if s.stopped then s.(thread := Exited)
    else if s.queue == [] then s
    else
      var e := s.queue[0];
      s.(queue := s.queue[1..],
         thread := if e.Input? && e.ackToWait != SEQUENCE_INVALID then Awaiting(e) else Handling(e))
  }

  /** The end of sc_acksync_wait(): nothing happens while it must go on waiting. */
  function WaitStep(s: State, deadline: bool): State
    requires s.thread.Awaiting? && s.thread.event.Input?
  {
    var e := s.thread.event;
    if s.acks.stopped then s.(thread := Exited, fates := s.fates + [(e, Aborted)])
    else if s.acks.ack >= e.ackToWait then s.(thread := Handling(e))
    else if deadline then s.(thread := Idle, fates := s.fates + [(e, TimedOut)])
    else s
  }

  function IndexOf(v: seq<U16>, x: U16): (i: nat)
    ensures i <= |v| && (i < |v| ==> v[i] == x) && (i == |v| ==> x !in v)
  {
    if v == [] then 0 else if v[0] == x then 0 else 1 + IndexOf(v[1..], x)
  }

  function Without(v: seq<U16>, x: U16): seq<U16> {
    var i := IndexOf(v, x);
    if i < |v| then v[..i] + v[i + 1..] else v
  }

  /** ok: the USB transfer succeeded. */
  function HandleStep(s: State, ok: bool): State
    requires s.thread.Handling?
  {
    var e := s.thread.event;
    s.(thread := Idle, fates := s.fates + [(e, Sent(ok))],
       vecOpen := if !ok || e.Input? then s.vecOpen else if e.Open? then s.vecOpen + [e.hidId] else Without(s.vecOpen, e.hidId))
  }

  function ThreadStep(s: State, deadline: bool, ok: bool): State {
    match s.thread
    case Idle => TakeStep(s)
    case Awaiting(e) => if e.Input? then WaitStep(s, deadline) else s
    case Handling(_) => HandleStep(s, ok)
    case Exited => s
  }

  /** The events taken by the thread, in order. */
  function Taken(s: State): seq<Event> {
    seq(|s.fates|, i requires 0 <= i < |s.fates| => s.fates[i].0)
    + (if s.thread.Awaiting? || s.thread.Handling? then [s.thread.event] else [])
  }

  /** Every event accepted has exactly one fate, or is still to come; events are handled in order. */
  predicate OneFate(s: State) {
    && s.accepted == Taken(s) + s.queue
    && (s.thread.Awaiting? ==> s.thread.event.Input? && s.thread.event.ackToWait != SEQUENCE_INVALID)
    && (s.thread.Handling? && s.thread.event.Input? && s.thread.event.ackToWait != SEQUENCE_INVALID ==>
          s.thread.event.ackToWait <= s.acks.ack)
  }

  lemma PushKeeps(s: State, e: Event)
    requires OneFate(s)
    ensures OneFate(PushStep(s, e))
  {
    assert Taken(PushStep(s, e)) == Taken(s);
  }

  lemma ThreadKeeps(s: State, deadline: bool, ok: bool)
    requires OneFate(s)
    ensures OneFate(ThreadStep(s, deadline, ok))
  {
    hide Without, IndexOf;
    var r := ThreadStep(s, deadline, ok);
    if s.thread.Idle? && !s.stopped && s.queue != [] {
      assert Taken(r) == Taken(s) + [s.queue[0]];
    } else {
      assert Taken(r) == Taken(s);
    }
  }

  // ---------------------------------------------------------------- the end of the thread

  /**
   * The thread ends only when it was stopped, or when its wait for an acknowledgement was interrupted:
   * the event it was waiting for is then the last one taken. A timeout does not end it.
   */
  predicate EndsIfAsked(s: State) {
    && (forall i | 0 <= i < |s.fates| && s.fates[i].1.Aborted? :: i == |s.fates| - 1 && s.thread.Exited? && s.acks.stopped)
    && (s.thread.Exited? ==> s.stopped || (s.fates != [] && Last(s.fates).1.Aborted?))
  }

  lemma WaitKeepsEnd(s: State, deadline: bool)
    requires EndsIfAsked(s) && s.thread.Awaiting? && s.thread.event.Input?
    ensures EndsIfAsked(WaitStep(s, deadline))
  {
  }

  lemma HandleKeepsEnd(s: State, ok: bool)
    requires EndsIfAsked(s) && s.thread.Handling?
    ensures EndsIfAsked(HandleStep(s, ok))
  {
    hide Without;
  }

  lemma ThreadKeepsEnd(s: State, deadline: bool, ok: bool)
    requires EndsIfAsked(s)
    ensures EndsIfAsked(ThreadStep(s, deadline, ok))
  {
    hide WaitStep, HandleStep;
    if s.thread.Awaiting? && s.thread.event.Input? {
      WaitKeepsEnd(s, deadline);
    } else if s.thread.Handling? {
      HandleKeepsEnd(s, ok);
    }
  }

  // ---------------------------------------------------------------- the devices left open

  /** The devices registered: HID ids successfully opened and not successfully closed since. */
  function Registered(fates: seq<(Event, Fate)>): multiset<U16> {
    if fates == [] then multiset{}
    else
      var before := Registered(DropLast(fates));
      var (e, fate) := Last(fates);
      if fate != Sent(true) || e.Input? then before
      else if e.Open? then before + multiset{e.hidId}
      else before - multiset{e.hidId}
  }

  lemma WithoutRemovesOne(v: seq<U16>, x: U16)
    ensures multiset(Without(v, x)) == multiset(v) - multiset{x}
  {
    hide IndexOf;
    var i := IndexOf(v, x);
    if i < |v| {
      RemovedIsMissing(v, v[..i], x, v[i + 1..]);
    } else {
      AbsentIsNotRemoved(v, x);
    }
  }

  lemma RemovedIsMissing(v: seq<U16>, a: seq<U16>, x: U16, b: seq<U16>)
    requires v == a + [x] + b
    ensures multiset(a + b) == multiset(v) - multiset{x}
  {
    assert multiset(v) == multiset(a) + multiset{x} + multiset(b);
  }

  lemma AbsentIsNotRemoved(v: seq<U16>, x: U16)
    requires x !in v
    ensures multiset(v) == multiset(v) - multiset{x}
  {
    assert x !in multiset(v);
  }

  /** vec_open lists exactly the devices that are left registered, and that the thread unregisters when it exits. */
  predicate TracksOpen(s: State) {
    multiset(s.vecOpen) == Registered(s.fates)
  }

  lemma HandleKeepsOpen(s: State, ok: bool)
    requires TracksOpen(s) && s.thread.Handling?
    ensures TracksOpen(HandleStep(s, ok))
  {
    hide Without, Registered;
    var e := s.thread.event;
    if !ok {
      UnsentOpensNothing(s.fates, e, Sent(false));
    } else {
      SentOpens(s.fates, e);
      WithoutRemovesOne(s.vecOpen, e.hidId);
    }
  }

  lemma SentOpens(fates: seq<(Event, Fate)>, e: Event)
    ensures Registered(fates + [(e, Sent(true))])
         == if e.Input? then Registered(fates)
            else if e.Open? then Registered(fates) + multiset{e.hidId}
            else Registered(fates) - multiset{e.hidId}
  {
    assert DropLast(fates + [(e, Sent(true))]) == fates;
  }

  lemma ThreadKeepsOpen(s: State, deadline: bool, ok: bool)
    requires TracksOpen(s)
    ensures TracksOpen(ThreadStep(s, deadline, ok))
  {
    hide HandleStep, Registered;
    if s.thread.Handling? {
      HandleKeepsOpen(s, ok);
    } else if s.thread.Awaiting? {
      UnsentOpensNothing(s.fates, s.thread.event, TimedOut);
      UnsentOpensNothing(s.fates, s.thread.event, Aborted);
    }
  }

  lemma UnsentOpensNothing(fates: seq<(Event, Fate)>, e: Event, fate: Fate)
    requires fate != Sent(true)
    ensures Registered(fates + [(e, fate)]) == Registered(fates)
  {
    assert DropLast(fates + [(e, fate)]) == fates;
  }

  // ---------------------------------------------------------------- the object

  class Aoa {
    var queue: seq<Event>
    var stopped: bool
    var thread: Thread
    var vecOpen: seq<U16>
    const acksync: AckSync
    var waiting: bool    // the thread is blocked on the condition variable of the queue, not signalled
    ghost var accepted: seq<Event>
    ghost var fates: seq<(Event, Fate)>

    ghost function View(): State
      reads this, acksync
    {
      State(queue, stopped, thread, acksync.View(), vecOpen, accepted, fates)
    }

    constructor (acksync: AckSync)
      ensures this.acksync == acksync && View() == Init().(acks := acksync.View()) && !waiting
    {
      this.acksync, waiting := acksync, false;
      queue, stopped, thread, vecOpen, accepted, fates := [], false, Idle, [], [], [];
    }

    /** sc_cond_signal() on the condition variable of the queue */
    method Signal()
      modifies `waiting
      ensures !waiting
    {
      waiting := false;
    }

    /** sc_aoa_push_input_with_ack_to_wait() */
    method PushInput(hidId: U16, ackToWait: nat) returns (pushed: bool)
      modifies this
      ensures View() == PushStep(old(View()), Input(hidId, ackToWait))
      ensures pushed <==> |old(queue)| < QUEUE_LIMIT
      ensures waiting <==> old(waiting) && old(queue) != []
    {
      pushed := false;
      if |queue| < QUEUE_LIMIT {
        var wasEmpty := queue == [];
        queue := queue + [Input(hidId, ackToWait)];
        accepted := accepted + [Input(hidId, ackToWait)];
        pushed := true;
        if wasEmpty {
          Signal();
        }
      }
    }

    /** sc_aoa_push_open() and sc_aoa_push_close(): these events are never dropped. */
    method PushOpenOrClose(event: Event)
      requires !event.Input?
      modifies this
      ensures View() == PushStep(old(View()), event)
      ensures waiting <==> old(waiting) && old(queue) != []
    {
      var wasEmpty := queue == [];
      queue := queue + [event];
      accepted := accepted + [event];
      if wasEmpty {
        Signal();
      }
    }

    /** The critical section of sc_aoa_stop(). */
    method StopThread()
      modifies this
      ensures View() == old(View()).(stopped := true) && !waiting
    {
      stopped := true;
      Signal();
    }

    /** The critical section of the loop of run_aoa_thread(). */
    method TakeEvent()
      requires thread.Idle? && !waiting
      modifies this
      ensures View() == TakeStep(old(View()))
      ensures waiting <==> !stopped && old(queue) == []
    {
      if stopped {
        thread := Exited;
      } else if queue != [] {
        var event := queue[0];
        queue := queue[1..];
        thread := if event.Input? && event.ackToWait != SEQUENCE_INVALID then Awaiting(event) else Handling(event);
      } else {
        waiting := true;
      }
    }

    /** The wait for an acknowledgement in sc_aoa_process_event(): a timed out or interrupted event is not sent. */
    method AwaitAck(wakeups: seq<(Acks, bool)>)
      requires thread.Awaiting? && thread.event.Input?
      requires wakeups != [] && Last(wakeups).1
      modifies this, acksync
      ensures queue == old(queue) && accepted == old(accepted) && vecOpen == old(vecOpen) && stopped == old(stopped)
      // The outcome is that of a step taken in the state in which the wait ended, after the deadline.
      ensures View() == WaitStep(old(View()).(acks := acksync.View()), true)
    {
      var event := thread.event;
      var result := acksync.Wait(event.ackToWait, wakeups);
      match result
      case Timeout =>
        thread := Idle;
        fates := fates + [(event, TimedOut)];
      case Interrupted =>
        thread := Exited;
        fates := fates + [(event, Aborted)];
      case Acked =>
        thread := Handling(event);
    }

    /** The rest of sc_aoa_process_event(). */
    method HandleEvent(ok: bool)
      requires thread.Handling?
      modifies this
      ensures View() == HandleStep(old(View()), ok)
    {
      var event := thread.event;
      match event {
        case Input(_, _) =>
        case Open(hidId) =>
          if ok {
            vecOpen := vecOpen + [hidId];
          }
        case Close(hidId) =>
          if ok {
            var idx := IndexOf(vecOpen, hidId);
            if idx < |vecOpen| {
              vecOpen := vecOpen[..idx] + vecOpen[idx + 1..];
            }
          }
      }
      thread := Idle;
      fates := fates + [(event, Sent(ok))];
    }
  }
}
