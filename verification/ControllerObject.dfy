/**
 * The controller object (app/src/controller.c) and the bytes it sends. Each method is
 * one critical section, or the sending of one message, and does what the step of
 * Controller with the same purpose does.
 */
module ControllerObject {
  import opened Common
  import opened Binary
  import opened Coords
  import opened ControlMsg
  import ControlMsgSerializer
  import opened Controller

  class ControllerState {
    var queue: seq<Msg>
    var resizeWidth: U16
    var resizeHeight: U16
    var stopped: bool
    var thread: Thread
    var serialized: array<Byte>
    var wire: seq<Byte>             // every byte sent on the socket
    ghost var accepted: seq<Msg>
    ghost var requests: seq<Size>
    ghost var sent: seq<Msg>
    ghost var failed: seq<Msg>

    ghost function View(): State
      reads this
    {
      State(queue, Size(resizeWidth, resizeHeight), stopped, thread, accepted, requests, sent, failed)
    }

    /** The messages are well typed, and the socket received the serialization of those sent. */
    ghost predicate Sound()
      reads this
    {
      && serialized.Length == MAX_SIZE
      && (forall m | m in queue :: WellTyped(m))
      && (thread.Sending? ==> WellTyped(thread.msg))
      && (forall m | m in sent :: Valid(m))
      && wire == EncodeAll(sent)
    }

    constructor ()
      ensures View() == Init() && Sound() && fresh(serialized)
    {
      queue, resizeWidth, resizeHeight, stopped, thread := [], 0, 0, false, Checking;
      serialized := new Byte[MAX_SIZE];
      wire := [];
      accepted, requests, sent, failed := [], [], [], [];
    }

    /** sc_cond_signal() */
    method Signal()
      modifies `thread
      ensures thread == Controller.Signal(old(thread))
    {
      if thread.Waiting? {
        thread := Checking;
      }
    }

    method PushMsg(msg: Msg) returns (pushed: bool)
      requires !msg.ResizeDisplay? && WellTyped(msg) && Sound()
      modifies this
      ensures serialized == old(serialized) && wire == old(wire)
      ensures View() == PushStep(old(View()), msg) && Sound()
      ensures pushed <==> Accepts(old(View()), msg)
    {
      pushed := false;
      var size := |queue|;
      if size < QUEUE_LIMIT {
        var wasEmpty := queue == [];
        queue := queue + [msg];
        accepted := accepted + [msg];
        pushed := true;
        if wasEmpty {
          Signal();
        }
      } else if !IsDroppable(msg) {
        queue := queue + [msg];
        accepted := accepted + [msg];
        pushed := true;
      }
    }

    method ResizeDisplayTo(width: U16, height: U16)
      requires width != 0 && height != 0 && Sound()
      modifies this
      ensures serialized == old(serialized) && wire == old(wire)
      ensures View() == ResizeStep(old(View()), width, height) && Sound()
    {
      var wasSet := resizeWidth != 0;
      resizeWidth := width;
      resizeHeight := height;
      requests := requests + [Size(width, height)];
      if !wasSet {
        Signal();
      }
    }

    method StopThread()
      requires Sound()
      modifies this
      ensures serialized == old(serialized) && wire == old(wire)
      ensures View() == Step(old(View()), Stop) && Sound()
    {
      stopped := true;
      Signal();
    }

    /** The critical section of the loop of run_controller(). */
    method Take()
      requires thread.Checking? && Sound()
      modifies this
      ensures serialized == old(serialized) && wire == old(wire)
      ensures View() == TakeStep(old(View())) && Sound()
    {
      if !stopped && resizeWidth == 0 && queue == [] {
        thread := Waiting;
        return;
      }
      if stopped {
        thread := Ended(false);
        return;
      }
      if resizeWidth != 0 {
        thread := Sending(ResizeDisplay(resizeWidth, resizeHeight));
        resizeWidth, resizeHeight := 0, 0;
      } else {
        thread := Sending(queue[0]);
        queue := queue[1..];
      }
    }

    /** process_msg(): ok and eos are the outcome of sending the serialized message. */
    method Send(ok: bool, eos: bool)
      requires thread.Sending? && Sound()
      modifies this, serialized
      ensures serialized == old(serialized)
      ensures View() == SendStep(old(View()), ok, eos) && Sound()
    {
      hide Encode, Serializable;
      var msg := thread.msg;
      var length := ControlMsgSerializer.Serialize(msg, serialized);
      if length.None? {
        failed := [msg];
        thread := Aborted;
        return;
      }
      if ok {
        EncodeAllSnoc(sent, msg);
        wire := wire + serialized[..length.value];
        sent := sent + [msg];
        thread := Checking;
      } else {
        failed := [msg];
        thread := Ended(!eos);
      }
    }

    /** Any critical section, or the sending of a message. */
    method Act(a: Action)
      requires (a.Push? ==> WellTyped(a.msg)) && Sound()
      modifies this, serialized
      ensures serialized == old(serialized)
      ensures View() == Step(old(View()), a) && Sound()
    {
      hide EncodeAll, PushStep, ResizeStep, TakeStep, SendStep;
      match a {
        case Push(m) =>
          if !m.ResizeDisplay? {
            var _ := PushMsg(m);
          }
        case Resize(w, h) =>
          if w != 0 && h != 0 {
            ResizeDisplayTo(w, h);
          }
        case Stop =>
          StopThread();
        case SpuriousWakeup =>
          Signal();
        case ThreadStep(ok, eos) =>
          if thread.Checking? {
            Take();
          } else if thread.Sending? {
            Send(ok, eos);
          }
      }
    }
  }

  lemma {:induction false} EncodeAllSnoc(ms: seq<Msg>, m: Msg)
    requires (forall k | k in ms :: Valid(k)) && Valid(m)
    ensures forall k | k in ms + [m] :: Valid(k)
    ensures EncodeAll(ms + [m]) == EncodeAll(ms) + Encode(m)
  {
    hide Encode, Valid;
    if ms == [] {
      assert [m][1..] == [];
      assert EncodeAll([]) == [];
      assert ms + [m] == [m];
    } else {
      var all := ms + [m];
      assert all[0] == ms[0] && all[1..] == ms[1..] + [m];
      EncodeAllSnoc(ms[1..], m);
      assert EncodeAll(ms) == Encode(ms[0]) + EncodeAll(ms[1..]);
      assert EncodeAll(all) == Encode(ms[0]) + EncodeAll(all[1..]);
      hide EncodeAll;
    }
  }

  /** Executing any interleaving of pushes, requests and thread steps is a run of Controller. */
  method Execute(actions: seq<Action>) returns (c: ControllerState)
    requires forall a | a in actions && a.Push? :: WellTyped(a.msg)
    ensures c.View() == Run(actions)
    // What the device decodes is what was sent, and Controller says what that is.
    ensures (forall m | m in c.sent :: Valid(m)) && DecodeAll(c.wire) == NormalAll(Run(actions).sent)
  {
    hide EncodeAll, DecodeAll, PushStep, ResizeStep, TakeStep, SendStep;
    c := new ControllerState();
    for i := 0 to |actions|
      invariant c.View() == Run(actions[..i]) && c.Sound()
      invariant fresh(c) && fresh(c.serialized)
    {
      c.Act(actions[i]);
      assert DropLast(actions[..i + 1]) == actions[..i];
    }
    assert actions[..|actions|] == actions;
    DecodeAllOfEncodeAll(c.sent);
  }
}
