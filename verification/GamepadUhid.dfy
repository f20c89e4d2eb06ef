/**
 * The gamepads forwarded to the device through the controller (app/src/uhid/gamepad_uhid.c):
 * for each HID id, the messages sent follow the protocol (CREATE INPUT* DESTROY)*.
 */
module GamepadUhid {
  import opened Common
  import opened Binary
  import ControlMsg
  import Controller
  import opened HidGamepad
  import ControllerObject

  type Msg = ControlMsg.Msg

  const VENDOR_ID: U16 := 0x045e
  const PRODUCT_ID: U16 := 0x028e
  // "Microsoft X-Box 360 Pad"
  const NAME: seq<Byte> :=
    [77, 105, 99, 114, 111, 115, 111, 102, 116, 32, 88, 45, 66, 111, 120, 32, 51, 54, 48, 32, 80, 97, 100]

  datatype State = State(slots: seq<Slot>, ctl: Controller.State)

  /** Env: the controller thread, and the messages pushed for other purposes. */
  datatype Action =
    | Added(id: U32)
    | Removed(id: U32)
    | AxisEvent(id: U32, axis: Axis, value: I16)
    | ButtonEvent(id: U32, button: Button, down: bool)
    | Env(c: Controller.Action)

  function Init(): State {
    State(seq(MAX_GAMEPADS, i => InitSlot(ID_INVALID)), Controller.Init())
  }

  predicate ForGamepads(m: Msg) {
    (m.UhidCreate? || m.UhidInput? || m.UhidDestroy?) && HID_ID_FIRST <= m.id < HID_ID_FIRST + MAX_GAMEPADS
  }

  function Create(slot: nat): Msg
    requires slot < MAX_GAMEPADS
  {
    ControlMsg.UhidCreate(HidId(slot), VENDOR_ID, PRODUCT_ID, Some(NAME), REPORT_DESC)
  }

  function Input(slot: nat, s: Slot): Msg
    requires slot < MAX_GAMEPADS
  {
    ControlMsg.UhidInput(HidId(slot), Report(s))
  }

  /** Stores the new content of a slot and pushes a message about it. */
  function Update(s: State, slot: nat, content: Slot, m: Msg): State
    requires slot < |s.slots|
  {
    State(s.slots[slot := content], Controller.PushStep(s.ctl, m))
  }

  function Step(s: State, a: Action): (r: State)
    requires |s.slots| == MAX_GAMEPADS
    ensures |r.slots| == MAX_GAMEPADS
  {
    match a
    case Added(id) =>
      var i := Find(s.slots, ID_INVALID);
      if id == ID_INVALID || i == MAX_GAMEPADS then s else Update(s, i, InitSlot(id), Create(i))
    case Removed(id) =>
      var i := Find(s.slots, id);
      if id == ID_INVALID || i == MAX_GAMEPADS then s
      else Update(s, i, s.slots[i].(gamepadId := ID_INVALID), ControlMsg.UhidDestroy(HidId(i)))
    case AxisEvent(id, axis, value) =>
      var i := Find(s.slots, id);
      if axis.UnknownAxis? || i == MAX_GAMEPADS then s
      else
        var slot := WithAxis(s.slots[i], axis, value);
        Update(s, i, slot, Input(i, slot))
    case ButtonEvent(id, button, down) =>
      var i := Find(s.slots, id);
      if button.UnknownButton? || i == MAX_GAMEPADS then s
      else
        var slot := WithButton(s.slots[i], button, down);
        Update(s, i, slot, Input(i, slot))
    case Env(c) => if c.Push? && ForGamepads(c.msg) then s else s.(ctl := Controller.Step(s.ctl, c))
  }

  // ---------------------------------------------------------------- the protocol

  datatype Phase = Closed | Opened | Broken

  function NextPhase(p: Phase, m: Msg, id: U16): Phase {
    if m.UhidCreate? && m.id == id then (if p == Closed then Opened else Broken)
    else if m.UhidInput? && m.id == id then (if p == Opened then Opened else Broken)
    else if m.UhidDestroy? && m.id == id then (if p == Opened then Closed else Broken)
    else p
  }

  /** Broken unless the messages for this id are a prefix of (CREATE INPUT* DESTROY)*. */
  function Protocol(ms: seq<Msg>, id: U16): Phase {
    if ms == [] then Closed else NextPhase(Protocol(DropLast(ms), id), Last(ms), id)
  }

  predicate Follows(ms: seq<Msg>) {
    forall i | 0 <= i < MAX_GAMEPADS :: Protocol(ms, HidId(i)) != Broken
  }

  lemma ProtocolSnoc(ms: seq<Msg>, m: Msg, id: U16)
    ensures Protocol(ms + [m], id) == NextPhase(Protocol(ms, id), m, id)
  {
    assert DropLast(ms + [m]) == ms;
  }

  lemma {:induction false} ProtocolPrefix(ms: seq<Msg>, more: seq<Msg>, id: U16)
    requires Protocol(ms + more, id) != Broken
    ensures Protocol(ms, id) != Broken
  {
    if more == [] {
      assert ms + more == ms;
    } else {
      assert DropLast(ms + more) == ms + DropLast(more);
      ProtocolPrefix(ms, DropLast(more), id);
    }
  }

  /** Resizes are not part of the protocol. */
  lemma {:induction false} ProtocolOfQueued(ms: seq<Msg>, id: U16)
    ensures Protocol(Controller.Queued(ms), id) == Protocol(ms, id)
  {
    if ms != [] {
      ProtocolOfQueued(DropLast(ms), id);
      if !Last(ms).ResizeDisplay? {
        ProtocolSnoc(Controller.Queued(DropLast(ms)), Last(ms), id);
      } else {
        assert Controller.Queued(DropLast(ms)) + [] == Controller.Queued(DropLast(ms));
      }
    }
  }

  function PhaseOf(s: Slot): Phase {
    if s.gamepadId == ID_INVALID then Closed else Opened
  }

  /** The messages accepted for a slot say whether the slot is in use. */
  predicate SlotInv(s: State) {
    && |s.slots| == MAX_GAMEPADS
    && forall i | 0 <= i < MAX_GAMEPADS :: Protocol(s.ctl.accepted, HidId(i)) == PhaseOf(s.slots[i])
  }

  /** The events for which the property is promised. */
  predicate ValidIds(a: Action) {
    (a.AxisEvent? || a.ButtonEvent?) ==> a.id != ID_INVALID
  }

  lemma UpdateKeeps(s: State, slot: nat, content: Slot, m: Msg)
    requires SlotInv(s) && slot < MAX_GAMEPADS && !m.ResizeDisplay?
    requires ForGamepads(m) && m.id == HidId(slot)
    requires NextPhase(PhaseOf(s.slots[slot]), m, HidId(slot)) == PhaseOf(content)
    requires m.UhidInput? ==> content.gamepadId == s.slots[slot].gamepadId
    ensures SlotInv(Update(s, slot, content, m))
  {
    hide Protocol;
    var r := Update(s, slot, content, m);
    forall i | 0 <= i < MAX_GAMEPADS
      ensures Protocol(r.ctl.accepted, HidId(i)) == PhaseOf(r.slots[i])
    {
      ProtocolSnoc(s.ctl.accepted, m, HidId(i));
    }
  }

  lemma EnvKeeps(s: State, c: Controller.Action)
    requires SlotInv(s) && !(c.Push? && ForGamepads(c.msg))
    ensures SlotInv(s.(ctl := Controller.Step(s.ctl, c)))
  {
    hide Protocol;
    var r := s.(ctl := Controller.Step(s.ctl, c));
    forall i | 0 <= i < MAX_GAMEPADS
      ensures Protocol(r.ctl.accepted, HidId(i)) == PhaseOf(r.slots[i])
    {
      if c.Push? {
        ProtocolSnoc(s.ctl.accepted, c.msg, HidId(i));
      }
    }
  }

  lemma StepKeeps(s: State, a: Action)
    requires |s.slots| == MAX_GAMEPADS && SlotInv(s) && ValidIds(a)
    ensures SlotInv(Step(s, a))
  {
    hide Protocol, SlotInv, Report;
    match a
    case Added(id) =>
      var i := Find(s.slots, ID_INVALID);
      if id != ID_INVALID && i < MAX_GAMEPADS {
        UpdateKeeps(s, i, InitSlot(id), Create(i));
      }
    case Removed(id) =>
      var i := Find(s.slots, id);
      if id != ID_INVALID && i < MAX_GAMEPADS {
        UpdateKeeps(s, i, s.slots[i].(gamepadId := ID_INVALID), ControlMsg.UhidDestroy(HidId(i)));
      }
    case AxisEvent(id, axis, value) =>
      var i := Find(s.slots, id);
      if !axis.UnknownAxis? && i < MAX_GAMEPADS {
        var slot := WithAxis(s.slots[i], axis, value);
        UpdateKeeps(s, i, slot, Input(i, slot));
      }
    case ButtonEvent(id, button, down) =>
      var i := Find(s.slots, id);
      if !button.UnknownButton? && i < MAX_GAMEPADS {
        var slot := WithButton(s.slots[i], button, down);
        UpdateKeeps(s, i, slot, Input(i, slot));
      }
    case Env(c) =>
      if !(c.Push? && ForGamepads(c.msg)) {
        EnvKeeps(s, c);
      }
  }

  function Run(actions: seq<Action>): (s: State)
    ensures |s.slots| == MAX_GAMEPADS
  {
    if actions == [] then Init() else Step(Run(DropLast(actions)), Last(actions))
  }

  lemma {:induction false} RunKeeps(actions: seq<Action>)
    requires forall a | a in actions :: ValidIds(a)
    ensures SlotInv(Run(actions))
  {
    if actions != [] {
      hide Step, SlotInv;
      RunKeeps(DropLast(actions));
      StepKeeps(Run(DropLast(actions)), Last(actions));
    }
  }

  lemma FollowsFromSlots(s: State)
    requires SlotInv(s)
    ensures Follows(s.ctl.accepted)
  {
  }

  /** The controller inside a run of gamepad events is in a state that one of its own runs reaches. */
  lemma {:induction false} ControllerRuns(actions: seq<Action>) returns (inner: seq<Controller.Action>)
    ensures Run(actions).ctl == Controller.Run(inner)
  {
    if actions == [] {
      inner := [];
    } else {
      hide Controller.Step, Find, Report;
      var before := ControllerRuns(DropLast(actions));
      var s, a := Run(DropLast(actions)), Last(actions);
      if Step(s, a).ctl == s.ctl {
        inner := before;
      } else {
        var c := ControllerAction(s, a);
        inner := before + [c];
        assert DropLast(inner) == before;
        ControllerSteps(s, a);
      }
    }
  }

  /** The message that a step pushes, if it pushes one. */
  function ControllerAction(s: State, a: Action): Controller.Action
    requires |s.slots| == MAX_GAMEPADS
  {
    match a
    case Added(_) =>
      var i := Find(s.slots, ID_INVALID);
      Controller.Push(if i < MAX_GAMEPADS then Create(i) else ControlMsg.RotateDevice)
    case Removed(id) =>
      var i := Find(s.slots, id);
      Controller.Push(if i < MAX_GAMEPADS then ControlMsg.UhidDestroy(HidId(i)) else ControlMsg.RotateDevice)
    case AxisEvent(id, axis, value) =>
      var i := Find(s.slots, id);
      Controller.Push(if i < MAX_GAMEPADS then Input(i, WithAxis(s.slots[i], axis, value)) else ControlMsg.RotateDevice)
    case ButtonEvent(id, button, down) =>
      var i := Find(s.slots, id);
      Controller.Push(if i < MAX_GAMEPADS then Input(i, WithButton(s.slots[i], button, down)) else ControlMsg.RotateDevice)
    case Env(c) => c
  }

  lemma ControllerSteps(s: State, a: Action)
    requires |s.slots| == MAX_GAMEPADS && Step(s, a).ctl != s.ctl
    ensures Step(s, a).ctl == Controller.Step(s.ctl, ControllerAction(s, a))
  {
    hide Find, Report, Controller.PushStep, WithAxis, WithButton;
  }

  /**
   * In every run of gamepad events with valid ids, the messages accepted, and so those
   * sent, follow the protocol of every HID id, whatever messages the queue drops.
   */
  lemma {:induction false} SentFollowsProtocol(actions: seq<Action>)
    requires forall a | a in actions :: ValidIds(a)
    ensures Follows(Run(actions).ctl.accepted)
    ensures Follows(Run(actions).ctl.sent)
  {
    hide Run, Protocol, SlotInv;
    var s := Run(actions);
    RunKeeps(actions);
    FollowsFromSlots(s);
    var inner := ControllerRuns(actions);
    Controller.SendsInOrder(inner);
    forall i | 0 <= i < MAX_GAMEPADS
      ensures Protocol(s.ctl.sent, HidId(i)) != Broken
    {
      var queued := Controller.Queued(s.ctl.sent);
      assert s.ctl.accepted == queued + s.ctl.accepted[|queued|..];
      ProtocolPrefix(queued, s.ctl.accepted[|queued|..], HidId(i));
      ProtocolOfQueued(s.ctl.sent, HidId(i));
    }
  }

  /** An input event makes the controller accept an input report for the slot found. */
  predicate PushesInput(s: State, a: Action)
    requires |s.slots| == MAX_GAMEPADS && (a.AxisEvent? || a.ButtonEvent?)
  {
    && !(a.AxisEvent? && a.axis.UnknownAxis?)
    && !(a.ButtonEvent? && a.button.UnknownButton?)
    && Find(s.slots, a.id) < MAX_GAMEPADS
    && |s.ctl.queue| < Controller.QUEUE_LIMIT
  }

  /**
   * An input event that carries the invalid id matches a free slot: it breaks the
   * protocol exactly when it is not ignored or dropped. With a valid id it never does.
   */
  lemma InputFollowsIff(s: State, a: Action)
    requires SlotInv(s) && (a.AxisEvent? || a.ButtonEvent?)
    ensures Follows(Step(s, a).ctl.accepted) <==> !(a.id == ID_INVALID && PushesInput(s, a))
  {
    hide Protocol, Report;
    var i := Find(s.slots, a.id);
    if a.id == ID_INVALID && PushesInput(s, a) {
      var slot := if a.AxisEvent? then WithAxis(s.slots[i], a.axis, a.value) else WithButton(s.slots[i], a.button, a.down);
      ProtocolSnoc(s.ctl.accepted, Input(i, slot), HidId(i));
      assert Protocol(Step(s, a).ctl.accepted, HidId(i)) == Broken;
    } else if a.id == ID_INVALID {
      assert Step(s, a).ctl.accepted == s.ctl.accepted;
    } else {
      StepKeeps(s, a);
    }
  }

  /** An input event with the invalid id, whose report is accepted. */
  predicate Breaks(s: State, a: Action)
    requires |s.slots| == MAX_GAMEPADS
  {
    (a.AxisEvent? || a.ButtonEvent?) && a.id == ID_INVALID && PushesInput(s, a)
  }

  /** One of the events of the run does. */
  predicate RunBreaks(actions: seq<Action>) {
    actions != [] && (RunBreaks(DropLast(actions)) || Breaks(Run(DropLast(actions)), Last(actions)))
  }

  lemma AcceptedGrows(s: State, a: Action)
    requires |s.slots| == MAX_GAMEPADS
    ensures s.ctl.accepted <= Step(s, a).ctl.accepted
  {
    hide Find, Report, WithAxis, WithButton;
  }

  lemma BrokenForGood(ms: seq<Msg>, more: seq<Msg>)
    requires !Follows(ms) && ms <= more
    ensures !Follows(more)
  {
    hide Protocol;
    var i :| 0 <= i < MAX_GAMEPADS && Protocol(ms, HidId(i)) == Broken;
    if Protocol(more, HidId(i)) != Broken {
      assert more == ms + more[|ms|..];
      ProtocolPrefix(ms, more[|ms|..], HidId(i));
    }
  }

  /** Whatever its id, an event that does not break the protocol keeps the slots in agreement with it. */
  lemma HarmlessKeeps(s: State, a: Action)
    requires SlotInv(s) && !Breaks(s, a)
    ensures SlotInv(Step(s, a))
  {
    hide Protocol, Report;
    if ValidIds(a) {
      StepKeeps(s, a);
    } else {
      assert Step(s, a).ctl.accepted == s.ctl.accepted;
    }
  }

  lemma {:induction false} RunKeepsUnlessBroken(actions: seq<Action>)
    requires !RunBreaks(actions)
    ensures SlotInv(Run(actions))
  {
    if actions != [] {
      hide Step, SlotInv, Breaks;
      RunKeepsUnlessBroken(DropLast(actions));
      HarmlessKeeps(Run(DropLast(actions)), Last(actions));
    }
  }

  /**
   * For any ids: the messages accepted in a run follow the protocol of every HID id exactly when no
   * input event with the invalid id had its report accepted.
   */
  lemma {:induction false} RunFollowsIff(actions: seq<Action>)
    ensures Follows(Run(actions).ctl.accepted) <==> !RunBreaks(actions)
  {
    hide Step, SlotInv, Breaks, Follows;
    if !RunBreaks(actions) {
      RunKeepsUnlessBroken(actions);
      FollowsFromSlots(Run(actions));
    } else {
      var before := DropLast(actions);
      if RunBreaks(before) {
        RunFollowsIff(before);
        AcceptedGrows(Run(before), Last(actions));
        BrokenForGood(Run(before).ctl.accepted, Run(actions).ctl.accepted);
      } else {
        RunKeepsUnlessBroken(before);
        BreakingBreaks(Run(before), Last(actions));
      }
    }
  }

  lemma BreakingBreaks(s: State, a: Action)
    requires SlotInv(s) && Breaks(s, a)
    ensures !Follows(Step(s, a).ctl.accepted)
  {
    hide SlotInv, Follows, PushesInput;
    InputFollowsIff(s, a);
  }

  /** The first event of a run is enough. */
  lemma InvalidIdExample()
    ensures !Follows(Run([AxisEvent(ID_INVALID, LeftX, 0)]).ctl.accepted)
  {
    var a := AxisEvent(ID_INVALID, LeftX, 0);
    assert DropLast([a]) == [];
    assert SlotInv(Init());
    InputFollowsIff(Init(), a);
  }

  // ---------------------------------------------------------------- the object

  // ---------------------------------------------------------------- what the reports say

  lemma RunSnoc(actions: seq<Action>, a: Action)
    ensures Run(actions + [a]) == Step(Run(actions), a)
  {
    assert DropLast(actions + [a]) == actions;
  }

  /** In every run, an axis event that is not dropped ends the queue with a report in which the device reads it. */
  lemma AxisEventIsReported(actions: seq<Action>, id: U32, axis: Axis, v: I16)
    requires PushesInput(Run(actions), AxisEvent(id, axis, v))
    ensures var s, m := Run(actions), Last(Run(actions + [AxisEvent(id, axis, v)]).ctl.queue);
            && m.UhidInput? && m.id == HidId(Find(s.slots, id)) && |m.data| == 15
            && ReadUsage(m.data, AxisUsage(axis))
                 == Some(if !axis.LeftTrigger? && !axis.RightTrigger? then v + 32768 else if v > 0 then v else 0)
  {
    hide Run, Report, ReadUsage;
    RunSnoc(actions, AxisEvent(id, axis, v));
    var s := Run(actions);
    AxisEventIsRead(s.slots[Find(s.slots, id)], axis, v, axis);
  }

  /** So does a button event. */
  lemma ButtonEventIsReported(actions: seq<Action>, id: U32, button: Button, down: bool)
    requires PushesInput(Run(actions), ButtonEvent(id, button, down)) && ButtonUsage(button).Some?
    ensures var s, m := Run(actions), Last(Run(actions + [ButtonEvent(id, button, down)]).ctl.queue);
            && m.UhidInput? && m.id == HidId(Find(s.slots, id)) && |m.data| == 15
            && 1 <= ButtonUsage(button).value <= 16
            && (ReadsPressed(m.data, ButtonUsage(button).value) <==> down)
  {
    hide Run, Report, ReadsPressed, ButtonBit;
    RunSnoc(actions, ButtonEvent(id, button, down));
    var s := Run(actions);
    BitOfUsage(button);
    ButtonEventIsRead(s.slots[Find(s.slots, id)], button, down, button);
  }

  /** In every run, what the slots would report is within the range that the descriptor declares. */
  lemma {:induction false} ReportsAreInRange(actions: seq<Action>)
    ensures forall i | 0 <= i < MAX_GAMEPADS :: InRange(Run(actions).slots[i])
  {
    if actions != [] {
      hide InRange, Report;
      ReportsAreInRange(DropLast(actions));
      StepKeepsRange(Run(DropLast(actions)), Last(actions));
    } else {
      assert forall i | 0 <= i < MAX_GAMEPADS :: Init().slots[i] == InitSlot(ID_INVALID);
    }
  }

  lemma StepKeepsRange(s: State, a: Action)
    requires |s.slots| == MAX_GAMEPADS && forall i | 0 <= i < MAX_GAMEPADS :: InRange(s.slots[i])
    ensures forall i | 0 <= i < MAX_GAMEPADS :: InRange(Step(s, a).slots[i])
  {
    hide Report, WithAxis, WithButton;
    if a.AxisEvent? && Find(s.slots, a.id) < MAX_GAMEPADS {
      EventsKeepRange(s.slots[Find(s.slots, a.id)], a.axis, a.value, South, true);
    } else if a.ButtonEvent? && Find(s.slots, a.id) < MAX_GAMEPADS {
      EventsKeepRange(s.slots[Find(s.slots, a.id)], LeftX, 0, a.button, a.down);
    }
  }

  class GamepadProcessor {
    const hid: Gamepads
    const controller: ControllerObject.ControllerState

    ghost predicate Valid()
      reads this, hid, controller
    {
      hid.Valid() && controller.Sound()
    }

    ghost function View(): State
      requires Valid()
      reads this, hid, hid.slots, controller
    {
      State(hid.slots[..], controller.View())
    }

    constructor (controller: ControllerObject.ControllerState)
      requires controller.Sound()
      ensures Valid() && fresh(hid) && fresh(hid.slots) && this.controller == controller
      ensures View() == State(Init().slots, controller.View())
    {
      this.controller := controller;
      hid := new Gamepads();
      new;
      assert hid.slots[..] == Init().slots;
    }

    method ProcessAdded(id: U32)
      requires Valid() && id != ID_INVALID
      modifies hid.slots, controller
      ensures Valid() && View() == Step(old(View()), Added(id))
    {
      hide Find, Controller.PushStep;
      var slot := hid.GenerateOpen(id);
      if slot < MAX_GAMEPADS {
        DescriptorSize();
        var _ := controller.PushMsg(Create(slot));
      }
    }

    method ProcessRemoved(id: U32)
      requires Valid() && id != ID_INVALID
      modifies hid.slots, controller
      ensures Valid() && View() == Step(old(View()), Removed(id))
    {
      hide Find, Controller.PushStep;
      var slot := hid.GenerateClose(id);
      if slot < MAX_GAMEPADS {
        var _ := controller.PushMsg(ControlMsg.UhidDestroy(HidId(slot)));
      }
    }

    method ProcessAxis(id: U32, axis: Axis, value: I16)
      requires Valid()
      modifies hid.slots, controller
      ensures Valid() && View() == Step(old(View()), AxisEvent(id, axis, value))
    {
      hide Find, Controller.PushStep, Report, WithAxis;
      var slot := hid.GenerateFromAxis(id, axis, value);
      if slot < MAX_GAMEPADS {
        var _ := controller.PushMsg(Input(slot, hid.slots[slot]));
      }
    }

    method ProcessButton(id: U32, button: Button, down: bool)
      requires Valid()
      modifies hid.slots, controller
      ensures Valid() && View() == Step(old(View()), ButtonEvent(id, button, down))
    {
      hide Find, Controller.PushStep, Report, WithButton;
      var slot := hid.GenerateFromButton(id, button, down);
      if slot < MAX_GAMEPADS {
        var _ := controller.PushMsg(Input(slot, hid.slots[slot]));
      }
    }
  }
}