/**
 * The input manager object (app/src/input_manager.c): mouse events, the virtual finger and
 * Ctrl+v. Its methods do what the steps of VirtualFinger and ClipboardSync do, on the
 * queues of the controller and of the AOA thread. The mouse and key processors are behind
 * interfaces: the message that they send for an event, if any, is a parameter.
 */
module InputManager {
  import opened Common
  import opened Binary
  import opened Coords
  import opened ControlMsg
  import opened ControllerObject
  import opened VirtualFinger
  import AoaHid
  import ClipboardSync
  import Controller

  const POINTER_ID_VIRTUAL_FINGER: U64 := 0x1_0000_0000_0000_0000 - 3
  const KEYCODE_HOME: U32 := 3
  const KEYCODE_APP_SWITCH: U32 := 187

  // ---------------------------------------------------------------- messages

  function ActionCode(action: TouchAction): Byte {
    match action
    case Down => 0
    case Up => 1
    case Move => 2
  }

  function WrapI32(x: int): I32 {
    I32OfU32(x % 0x1_0000_0000)
  }

  function FingerMsg(f: Finger): Msg {
    InjectTouchEvent(
      ActionCode(f.action), POINTER_ID_VIRTUAL_FINGER,
      Position(WrapI32(f.point.x), WrapI32(f.point.y), f.size.width, f.size.height),
      if f.action.Up? then 0.0 else 1.0, 0, 0)
  }

  predicate IsFinger(m: Msg) {
    m.InjectTouchEvent? && m.pointerId == POINTER_ID_VIRTUAL_FINGER
  }

  /** What a processor may send: not a message of the virtual finger, nor a display resize. */
  predicate IsForwarded(m: Msg) {
    WellTyped(m) && !IsFinger(m) && !m.ResizeDisplay?
  }

  /** The message of the shortcut bound to a mouse button, if any. */
  function BindingMsg(binding: Binding, down: bool, clicks: nat, keyboard: bool): Option<Msg> {
    var action := if down then 0 else 1;
    match binding
    case Back => if keyboard then Some(BackOrScreenOn(action)) else None
    case Home => if keyboard then Some(InjectKeycode(action, KEYCODE_HOME, 0, 0)) else None
    case AppSwitch => if keyboard then Some(InjectKeycode(action, KEYCODE_APP_SWITCH, 0, 0)) else None
    case ExpandPanel =>
      if !down then None else if clicks < 2 then Some(ExpandNotificationPanel) else Some(ExpandSettingsPanel)
    case DisabledBinding => None
    case Click => None
  }

  /**
   * With a keyboard, the shortcuts Back, Home and AppSwitch press and release their keys (4, 3 and 187 on Android) once, without
   * modifiers; the panels are expanded once, on the press; and nothing else is sent.
   */
  lemma ShortcutsAre(binding: Binding, down: bool, clicks: nat, keyboard: bool)
    ensures var m := BindingMsg(binding, down, clicks, keyboard);
            match binding
            case Back => m == if !keyboard then None else if down then Some(BackOrScreenOn(0)) else Some(BackOrScreenOn(1))
            case Home =>
              m == if !keyboard then None else if down then Some(InjectKeycode(0, 3, 0, 0)) else Some(InjectKeycode(1, 3, 0, 0))
            case AppSwitch =>
              m == if !keyboard then None else if down then Some(InjectKeycode(0, 187, 0, 0)) else Some(InjectKeycode(1, 187, 0, 0))
            case ExpandPanel =>
              && (down && clicks <= 1 ==> m == Some(ExpandNotificationPanel))
              && (down && clicks > 1 ==> m == Some(ExpandSettingsPanel))
              && (!down ==> m.None?)
            case _ => m.None?
  {
  }

  function BindingFor(s: State, e: ButtonEvent): Binding {
    BindingOf(if e.shift then s.cfg.secondary else s.cfg.primary, e.button)
  }

  /** What an event pushes: the message of a shortcut or of a processor, then that of the virtual finger. */
  datatype Pushes = Pushes(first: Option<Msg>, finger: Option<Finger>)

  function MotionPushes(s: State, mouse: Point, touch: bool, forwarded: Option<Msg>): Pushes {
    if !HandlesMotion(s, touch) then Pushes(None, None)
    else Pushes(forwarded, if s.fingerDown then Some(MakeFinger(s, Move, mouse)) else None)
  }

  /** The message of the virtual finger that goes down or up. */
  function ChangedFinger(s: State, e: ButtonEvent): Finger {
    if e.down then MakeFinger(s.(invertX := e.ctrl != e.shift, invertY := e.ctrl), Down, e.mouse)
    else MakeFinger(s, Up, e.mouse)
  }

  function ForwardPushes(s: State, e: ButtonEvent, forwarded: Option<Msg>): Pushes {
    Pushes(forwarded, if s.cfg.relative || !ChangesFinger(s, e) then None else Some(ChangedFinger(s, e)))
  }

  function ButtonPushes(s: State, e: ButtonEvent, keyboard: bool, forwarded: Option<Msg>): Pushes {
    if !SeesButton(s, e) then Pushes(None, None)
    else if s.cfg.control && !s.paused && BindingFor(s, e) != Click then
      Pushes(BindingMsg(BindingFor(s, e), e.down, e.clicks, keyboard), None)
    else if !ForwardsButton(s, e) then Pushes(None, None)
    else ForwardPushes(s, e, forwarded)
  }

  /** A motion that is handled pushes the message of the mouse processor, then what VirtualFinger logs when it is accepted. */
  lemma MotionPushesAreLogged(s: State, mouse: Point, touch: bool, forwarded: Option<Msg>)
    ensures var p, r := MotionPushes(s, mouse, touch, forwarded), MotionStep(s, mouse, touch, true);
            && r.log == s.log + (if p.finger.Some? then [p.finger.value] else [])
            && p.first == (if s.cfg.camera || !s.cfg.mouse || s.paused || s.disconnected || touch then None else forwarded)
  {
    hide InversePoint;
  }

  lemma ChangeIsLogged(s: State, e: ButtonEvent)
    ensures VirtualFinger.ChangeFinger(s, e, true).log == s.log + [ChangedFinger(s, e)]
  {
    hide InversePoint;
  }

  lemma ForwardPushesAreLogged(s: State, e: ButtonEvent, forwarded: Option<Msg>)
    ensures var p, r := ForwardPushes(s, e, forwarded), ForwardStep(ReleaseButton(s, e), e, true);
            r.log == s.log + (if p.finger.Some? then [p.finger.value] else [])
  {
    hide VirtualFinger.ChangeFinger, ChangedFinger;
    var buttons := if e.down then s.buttons + {e.button} else s.buttons - {e.button};
    ChangedFingerIgnoresButtons(s, buttons, e);
    ChangeIsLogged(s.(buttons := buttons), e);
  }

  /** So does a button event, for the finger. */
  lemma ButtonPushesAreLogged(s: State, e: ButtonEvent, keyboard: bool, forwarded: Option<Msg>)
    ensures var p, r := ButtonPushes(s, e, keyboard, forwarded), ButtonStep(s, e, true);
            r.log == s.log + (if p.finger.Some? then [p.finger.value] else [])
  {
    hide BindingMsg, BindingOf, ForwardPushes, ForwardStep;
    ForwardPushesAreLogged(s, e, forwarded);
  }

  /**
   * What a right click pushes, as the other buttons with theirs: the shortcut of its binding, which is the secondary one with
   * Shift; if that is a click, the message of the mouse processor; nothing while the screen is paused.
   */
  lemma RightClickPushes(s: State, e: ButtonEvent, keyboard: bool, forwarded: Option<Msg>)
    requires e.button == RightButton && s.cfg.control && SeesButton(s, e)
    ensures var binding := if e.shift then s.cfg.secondary.rightClick else s.cfg.primary.rightClick;
            var p := ButtonPushes(s, e, keyboard, forwarded);
            && p.finger.None?
            && (s.paused ==> p.first.None?)
            && (!s.paused && binding != Click ==> p.first == BindingMsg(binding, e.down, e.clicks, keyboard))
            && (!s.paused && binding == Click && s.cfg.mouse ==> p.first == forwarded)
  {
    hide BindingMsg;
  }

  lemma BindingMsgIsForwarded(binding: Binding, down: bool, clicks: nat, keyboard: bool)
    ensures var m := BindingMsg(binding, down, clicks, keyboard); m.Some? ==> IsForwarded(m.value)
  {
  }

  function PushOption(c: Controller.State, m: Option<Msg>): Controller.State {
    if m.Some? then Controller.PushStep(c, m.value) else c
  }

  function PushBoth(c: Controller.State, p: Pushes): Controller.State {
    PushOption(PushOption(c, p.first), if p.finger.Some? then Some(FingerMsg(p.finger.value)) else None)
  }

  /** Whether the message of the virtual finger is accepted. */
  predicate FingerAccepted(c: Controller.State, p: Pushes) {
    p.finger.Some? && Controller.Accepts(PushOption(c, p.first), FingerMsg(p.finger.value))
  }

  lemma TextIsForwarded(text: seq<Byte>)
    ensures IsForwarded(InjectText(text))
  {
  }

  lemma PushBothWithoutFinger(c: Controller.State, m: Option<Msg>)
    ensures PushBoth(c, Pushes(m, None)) == PushOption(c, m) && !FingerAccepted(c, Pushes(m, None))
    ensures PushOption(c, None) == c
  {
  }

  lemma PushOptionSome(c: Controller.State, m: Msg)
    ensures PushOption(c, Some(m)) == Controller.PushStep(c, m)
  {
  }

  lemma ChangedFingerIgnoresButtons(s: State, buttons: set<Button>, e: ButtonEvent)
    ensures ChangedFinger(s.(buttons := buttons), e) == ChangedFinger(s, e)
  {
  }

  lemma NothingSeenPushesNothing(s: State, e: ButtonEvent, keyboard: bool, forwarded: Option<Msg>)
    ensures !SeesButton(s, e) ==> ButtonPushes(s, e, keyboard, forwarded) == Pushes(None, None)
  {
  }

  lemma PushesIgnoreRelease(s: State, e: ButtonEvent, keyboard: bool, forwarded: Option<Msg>)
    ensures ButtonPushes(ReleaseButton(s, e), e, keyboard, forwarded) == ButtonPushes(s, e, keyboard, forwarded)
  {
    hide BindingMsg;
  }

  /** The virtual finger messages among these, in order. */
  function FingersOf(ms: seq<Msg>): seq<Msg> {
    if ms == [] then []
    else FingersOf(DropLast(ms)) + (if IsFinger(Last(ms)) then [Last(ms)] else [])
  }

  function FingerMsgs(log: seq<Finger>): (ms: seq<Msg>)
    ensures |ms| == |log|
  {
    seq(|log|, i requires 0 <= i < |log| => FingerMsg(log[i]))
  }

  lemma FingersOfSnoc(ms: seq<Msg>, m: Msg)
    ensures FingersOf(ms + [m]) == FingersOf(ms) + (if IsFinger(m) then [m] else [])
  {
    assert DropLast(ms + [m]) == ms;
  }

  lemma FingerMsgsSnoc(log: seq<Finger>, f: Finger)
    ensures FingerMsgs(log + [f]) == FingerMsgs(log) + [FingerMsg(f)]
  {
  }

  lemma FingerMsgIsFinger(f: Finger)
    ensures IsFinger(FingerMsg(f)) && Valid(FingerMsg(f)) && !FingerMsg(f).ResizeDisplay?
  {
  }

  /**
   * What a message of the virtual finger says: the Android actions DOWN, UP and MOVE, full pressure until the finger is
   * up, no mouse button, and the point in the frame, whose coordinates are kept if they fit in 32 bits.
   */
  lemma FingerMsgIs(f: Finger)
    ensures var m := FingerMsg(f);
            && m.InjectTouchEvent?
            && m.action == (if f.action == Down then 0 else if f.action == Up then 1 else 2)
            && m.pressure == (if f.action == Up then 0.0 else 1.0)
            && m.pointerId + 3 == 0x1_0000_0000_0000_0000 && m.actionButton == 0 && m.buttons == 0
            && m.position.width == f.size.width && m.position.height == f.size.height
            && (-0x8000_0000 <= f.point.x < 0x8000_0000 ==> m.position.x == f.point.x)
            && (-0x8000_0000 <= f.point.y < 0x8000_0000 ==> m.position.y == f.point.y)
  {
  }

  // ---------------------------------------------------------------- Ctrl+v

  /**
   * What the key processor does with the key: it may not support it, or it may be a USB or a socket
   * one. A HID keyboard may first send the state of the lock keys, which waits for nothing.
   */
  datatype Key = IgnoredKey | UsbKey(hidId: U16, lockFirst: bool) | SocketKey(lock: Option<Msg>, msg: Msg)

  /** async: the key processor waits for acknowledgements, as the AOA keyboard does. */
  datatype PasteSettings = PasteSettings(autosync: bool, legacy: bool, async: bool)

  predicate Matches(settings: PasteSettings, key: Key) {
    && (key.UsbKey? ==> settings.async)
    && (key.SocketKey? ==> !settings.async && IsKeyMsg(key.msg) && (key.lock.Some? ==> IsKeyMsg(key.lock.value)))
  }

  predicate IsKeyMsg(m: Msg) {
    (m.InjectKeycode? || m.UhidInput?) && WellTyped(m)
  }

  /** What Ctrl+v changes: the next sequence and the two queues. */
  datatype Pasted = Pasted(next: nat, ctl: Controller.State, aoa: AoaHid.State)

  function PressUsbKey(a: AoaHid.State, hidId: U16, lockFirst: bool, ackToWait: nat): AoaHid.State {
    AoaHid.PushStep(
      if lockFirst then AoaHid.PushStep(a, AoaHid.Input(hidId, AoaHid.SEQUENCE_INVALID)) else a,
      AoaHid.Input(hidId, ackToWait))
  }

  function PressKey(p: Pasted, key: Key, ackToWait: nat): Pasted {
    match key
    case IgnoredKey => p
    case UsbKey(hidId, lockFirst) => p.(aoa := PressUsbKey(p.aoa, hidId, lockFirst, ackToWait))
    case SocketKey(lock, msg) => p.(ctl := Controller.PushStep(PushOption(p.ctl, lock), msg))
  }

  /** Ctrl+v, with the text of the computer clipboard if it is available. */
  function CtrlV(settings: PasteSettings, p: Pasted, text: Option<seq<Byte>>, key: Key): Pasted
    requires p.next < 0x1_0000_0000_0000_0000
  {
    if !settings.autosync then PressKey(p, key, AoaHid.SEQUENCE_INVALID)
    else if text.None? then p
    else if settings.legacy then
      if text.value == [] then p else p.(ctl := Controller.PushStep(p.ctl, InjectText(text.value)))
    else
      var sequence := if settings.async then p.next else ClipboardSync.SEQUENCE_INVALID;
      var m := SetClipboard(sequence, false, text.value);
      if !Controller.Accepts(p.ctl, m) then p
      else
        PressKey(p.(next := if settings.async then p.next + 1 else p.next, ctl := Controller.PushStep(p.ctl, m)), key, sequence)
  }

  /** The steps of ClipboardSync that the key takes, and those of Ctrl+v. */
  function PressActions(key: Key, ackToWait: nat): seq<ClipboardSync.Action> {
    match key
    case IgnoredKey => []
    case UsbKey(hidId, lockFirst) =>
      (if lockFirst then [ClipboardSync.PushAoa(AoaHid.Input(hidId, AoaHid.SEQUENCE_INVALID))] else [])
      + [ClipboardSync.PushAoa(AoaHid.Input(hidId, ackToWait))]
    case SocketKey(lock, msg) =>
      (if lock.Some? then [ClipboardSync.Env(Controller.Push(lock.value))] else [])
      + [ClipboardSync.Env(Controller.Push(msg))]
  }

  function CtrlVActions(settings: PasteSettings, p: Pasted, text: Option<seq<Byte>>, key: Key): seq<ClipboardSync.Action>
    requires p.next < 0x1_0000_0000_0000_0000
  {
    if !settings.autosync then PressActions(key, AoaHid.SEQUENCE_INVALID)
    else if text.None? then []
    else if settings.legacy then
      if text.value == [] then [] else [ClipboardSync.Env(Controller.Push(InjectText(text.value)))]
    else
      var sequence := if settings.async then p.next else ClipboardSync.SEQUENCE_INVALID;
      if !Controller.Accepts(p.ctl, SetClipboard(sequence, false, text.value)) then []
      else
        [if settings.async then ClipboardSync.SyncClipboard(text.value) else ClipboardSync.PushClipboard(false, text.value)]
        + PressActions(key, sequence)
  }

  function Steps(s: ClipboardSync.State, actions: seq<ClipboardSync.Action>): ClipboardSync.State
    decreases |actions|
  {
    if actions == [] then s else Steps(ClipboardSync.Step(s, actions[0]), actions[1..])
  }

  function PastedOf(s: ClipboardSync.State): Pasted {
    Pasted(s.next, s.ctl, s.aoa)
  }

  function WithPasted(s: ClipboardSync.State, p: Pasted): ClipboardSync.State {
    s.(next := p.next, ctl := p.ctl, aoa := p.aoa)
  }

  lemma OneStep(s: ClipboardSync.State, a: ClipboardSync.Action)
    ensures Steps(s, [a]) == ClipboardSync.Step(s, a)
  {
    hide ClipboardSync.Step;
    assert [a][1..] == [];
  }

  lemma FirstStep(s: ClipboardSync.State, a: ClipboardSync.Action, more: seq<ClipboardSync.Action>)
    ensures Steps(s, [a] + more) == Steps(ClipboardSync.Step(s, a), more)
  {
    hide ClipboardSync.Step;
    assert ([a] + more)[1..] == more;
  }

  lemma UsbPressIsSteps(s: ClipboardSync.State, hidId: U16, lockFirst: bool, ackToWait: nat)
    requires ackToWait < s.next
    ensures Steps(s, PressActions(UsbKey(hidId, lockFirst), ackToWait))
         == s.(aoa := PressUsbKey(s.aoa, hidId, lockFirst, ackToWait))
  {
    hide Steps, AoaHid.PushStep;
    var lock := ClipboardSync.PushAoa(AoaHid.Input(hidId, AoaHid.SEQUENCE_INVALID));
    var press := ClipboardSync.PushAoa(AoaHid.Input(hidId, ackToWait));
    if lockFirst {
      FirstStep(s, lock, [press]);
      OneStep(ClipboardSync.Step(s, lock), press);
    } else {
      assert [] + [press] == [press];
      OneStep(s, press);
    }
  }

  lemma SocketPressIsSteps(s: ClipboardSync.State, lock: Option<Msg>, msg: Msg, ackToWait: nat)
    requires IsKeyMsg(msg) && (lock.Some? ==> IsKeyMsg(lock.value))
    ensures Steps(s, PressActions(SocketKey(lock, msg), ackToWait))
         == s.(ctl := Controller.PushStep(PushOption(s.ctl, lock), msg))
  {
    hide Steps, Controller.PushStep, WellTyped;
    var press := ClipboardSync.Env(Controller.Push(msg));
    if lock.Some? {
      var first := ClipboardSync.Env(Controller.Push(lock.value));
      FirstStep(s, first, [press]);
      OneStep(ClipboardSync.Step(s, first), press);
    } else {
      assert [] + [press] == [press];
      OneStep(s, press);
    }
  }

  lemma PressIsSteps(s: ClipboardSync.State, key: Key, ackToWait: nat)
    requires ackToWait < s.next
    requires key.SocketKey? ==> IsKeyMsg(key.msg) && (key.lock.Some? ==> IsKeyMsg(key.lock.value))
    ensures Steps(s, PressActions(key, ackToWait)) == WithPasted(s, PressKey(PastedOf(s), key, ackToWait))
  {
    hide Steps, Controller.PushStep, PushOption, PressUsbKey, IsKeyMsg;
    match key
    case IgnoredKey => NoStep(s);
    case UsbKey(hidId, lockFirst) => UsbPressIsSteps(s, hidId, lockFirst, ackToWait);
    case SocketKey(lock, msg) => SocketPressIsSteps(s, lock, msg, ackToWait);
  }

  lemma NoStep(s: ClipboardSync.State)
    ensures Steps(s, []) == s
  {
  }

  /** The request that comes before the key, when the clipboard is synchronized. */
  lemma SyncIsStep(s: ClipboardSync.State, async: bool, text: seq<Byte>)
    requires s.next < 0x1_0000_0000_0000_0000
    requires Controller.Accepts(s.ctl, SetClipboard(if async then s.next else 0, false, text))
    ensures ClipboardSync.Step(s, if async then ClipboardSync.SyncClipboard(text) else ClipboardSync.PushClipboard(false, text))
         == s.(next := if async then s.next + 1 else s.next,
               ctl := Controller.PushStep(s.ctl, SetClipboard(if async then s.next else 0, false, text)))
  {
    hide Controller.PushStep, Controller.Accepts;
  }

  /**
   * In every mode, Ctrl+v amounts to steps of ClipboardSync, so that what is proved there of
   * every run holds of what the input manager does.
   */
  lemma CtrlVIsSteps(settings: PasteSettings, s: ClipboardSync.State, text: Option<seq<Byte>>, key: Key)
    requires 0 < s.next < 0x1_0000_0000_0000_0000 && Matches(settings, key)
    ensures Steps(s, CtrlVActions(settings, PastedOf(s), text, key))
         == WithPasted(s, CtrlV(settings, PastedOf(s), text, key))
  {
    hide Steps, ClipboardSync.Step, PressActions, PressKey, Controller.PushStep, Controller.Accepts, WellTyped;
    NoStep(s);
    if !settings.autosync {
      PressIsSteps(s, key, AoaHid.SEQUENCE_INVALID);
    } else if text.Some? && settings.legacy {
      LegacyPasteIsStep(s, text.value);
    } else if text.Some? {
      var sequence := if settings.async then s.next else ClipboardSync.SEQUENCE_INVALID;
      if Controller.Accepts(s.ctl, SetClipboard(sequence, false, text.value)) {
        var first :=
          if settings.async then ClipboardSync.SyncClipboard(text.value) else ClipboardSync.PushClipboard(false, text.value);
        SyncIsStep(s, settings.async, text.value);
        FirstStep(s, first, PressActions(key, sequence));
        PressIsSteps(ClipboardSync.Step(s, first), key, sequence);
        PressChangesItsPart(s, ClipboardSync.Step(s, first), key, sequence);
      }
    }
  }

  lemma LegacyPasteIsStep(s: ClipboardSync.State, text: seq<Byte>)
    ensures Steps(s, [ClipboardSync.Env(Controller.Push(InjectText(text)))])
         == s.(ctl := Controller.PushStep(s.ctl, InjectText(text)))
  {
    hide Steps, Controller.PushStep;
    OneStep(s, ClipboardSync.Env(Controller.Push(InjectText(text))));
  }

  /** Two states that differ by what Ctrl+v changes do not differ by anything else afterwards. */
  lemma PressChangesItsPart(s: ClipboardSync.State, t: ClipboardSync.State, key: Key, ackToWait: nat)
    requires t == WithPasted(s, PastedOf(t))
    ensures WithPasted(t, PressKey(PastedOf(t), key, ackToWait)) == WithPasted(s, PressKey(PastedOf(t), key, ackToWait))
  {
    hide PressKey;
  }

  /**
   * With a keyboard that waits for acknowledgements, Ctrl+v requests the clipboard with the next sequence, and
   * the key waits for that sequence; if the request is refused, no key is pressed.
   */
  lemma KeyWaitsForItsText(settings: PasteSettings, p: Pasted, text: seq<Byte>, key: Key)
    requires p.next < 0x1_0000_0000_0000_0000 && settings.autosync && !settings.legacy && settings.async && key.UsbKey?
    ensures var r, m := CtrlV(settings, p, Some(text), key), SetClipboard(p.next, false, text);
            var press := AoaHid.Input(key.hidId, p.next);
            if Controller.Accepts(p.ctl, m) then
              && r.next == p.next + 1 && r.ctl == Controller.PushStep(p.ctl, m)
              && (r.aoa.accepted == p.aoa.accepted
                  || r.aoa.accepted == p.aoa.accepted + [press]
                  || r.aoa.accepted == p.aoa.accepted + [AoaHid.Input(key.hidId, 0)]
                  || r.aoa.accepted == p.aoa.accepted + [AoaHid.Input(key.hidId, 0)] + [press])
              && (|p.aoa.queue| + 1 < AoaHid.QUEUE_LIMIT ==> r.aoa.queue != [] && Last(r.aoa.queue) == press)
            else r == p
  {
    hide Controller.PushStep, Controller.Accepts;
  }

  /** With a keyboard over the control socket, the clipboard goes before the key, in the same queue. */
  lemma KeyFollowsItsText(settings: PasteSettings, p: Pasted, text: seq<Byte>, key: Key)
    requires p.next < 0x1_0000_0000_0000_0000 && settings.autosync && !settings.legacy && !settings.async && key.SocketKey?
    requires |p.ctl.queue| + 3 <= Controller.QUEUE_LIMIT
    ensures var r := CtrlV(settings, p, Some(text), key);
            && r.ctl.queue == p.ctl.queue + [SetClipboard(0, false, text)]
                              + (if key.lock.Some? then [key.lock.value] else []) + [key.msg]
            && r.next == p.next && r.aoa == p.aoa
  {
  }

  /** Without synchronization the key is pressed at once; the legacy mode injects the text and no key. */
  lemma OtherPastes(settings: PasteSettings, p: Pasted, text: Option<seq<Byte>>, key: Key)
    requires p.next < 0x1_0000_0000_0000_0000
    ensures var r := CtrlV(settings, p, text, key);
            && (settings.autosync && text.None? ==> r == p)
            && (settings.autosync && settings.legacy && text.Some? ==>
                  && r.aoa == p.aoa && r.next == p.next
                  && (|p.ctl.queue| < Controller.QUEUE_LIMIT ==>
                        r.ctl.queue == p.ctl.queue + (if text.value == [] then [] else [InjectText(text.value)])))
            && (!settings.autosync ==> r.next == p.next)
            && (!settings.autosync && key.UsbKey? ==> r.ctl == p.ctl)
            && (!settings.autosync && key.UsbKey? && |p.aoa.queue| + 1 < AoaHid.QUEUE_LIMIT ==>
                  Last(r.aoa.queue) == AoaHid.Input(key.hidId, 0))
  {
  }

  /**
   * Whatever follows a Ctrl+v, the effect of the sequence that its key waits for is the effect of its text:
   * with ClipboardSync.KeyPastesIff, the key pastes that text if and only if it could be set or was there.
   */
  lemma {:induction false} CtrlVPastesItsText(settings: PasteSettings, before: seq<ClipboardSync.Action>, text: seq<Byte>, key: Key,
                                              more: seq<ClipboardSync.Action>, e: ClipboardSync.Effect)
    requires settings.autosync && !settings.legacy && settings.async && key.UsbKey?
    requires var s := ClipboardSync.Run(before);
             s.next < 0x1_0000_0000_0000_0000 && Controller.Accepts(s.ctl, SetClipboard(s.next, false, text))
    requires var s := ClipboardSync.Run(before);
             e in ClipboardSync.Run(before + CtrlVActions(settings, PastedOf(s), Some(text), key) + more).effects
             && e.sequence == s.next
    ensures e.text == ClipboardSync.ReceivedText(SetClipboard(ClipboardSync.Run(before).next, false, text))
  {
    hide ClipboardSync.Run, Controller.PushStep, Controller.Accepts, ClipboardSync.ReceivedText, PressActions;
    var s := ClipboardSync.Run(before);
    var sync := ClipboardSync.SyncClipboard(text);
    var press := PressActions(key, s.next);
    ClipboardSync.RunSnoc(before, sync);
    assert before + ([sync] + press) + more == before + [sync] + (press + more);
    ClipboardSync.SequenceStandsForText(before, text, press + more, e);
  }

  // ---------------------------------------------------------------- the object

  class Manager {
    const cfg: Config
    const keyboard: bool
    const pasteSettings: PasteSettings
    const controller: ControllerState
    const aoa: AoaHid.Aoa
    var fingerDown: bool
    var invertX: bool
    var invertY: bool
    var mouseButtons: set<Button>
    var nextSequence: nat
    var paused: bool           // paused, disconnected and frameSize are told by the screen
    var disconnected: bool
    var frameSize: Size
    ghost var log: seq<Finger>
    ghost var assertFailed: bool

    ghost function View(): (s: State)
      reads this
      ensures s.cfg == cfg && s.fingerDown == fingerDown && s.paused == paused && s.disconnected == disconnected
    {
      State(cfg, fingerDown, invertX, invertY, mouseButtons, paused, disconnected, frameSize, log, assertFailed)
    }

    ghost function PasteView(): Pasted
      reads this, controller, aoa, aoa.acksync
    {
      Pasted(nextSequence, controller.View(), aoa.View())
    }

    /** The virtual finger messages accepted by the controller are those of the log. */
    ghost predicate Sound()
      reads this`log, controller, controller.serialized
    {
      && controller.Sound()
      && (cfg.mouse ==> cfg.control)
      && FingersOf(controller.accepted) == FingerMsgs(log)
    }

    /** A mouse processor needs the controller. */
    constructor (cfg: Config, keyboard: bool, settings: PasteSettings, size: Size, controller: ControllerState, aoa: AoaHid.Aoa)
      requires cfg.mouse ==> cfg.control
      requires controller.Sound() && FingersOf(controller.accepted) == []
      ensures this.cfg == cfg && this.controller == controller && this.aoa == aoa && this.keyboard == keyboard
      ensures this.pasteSettings == settings
      ensures View() == Init(cfg, size) && nextSequence == 1 && Sound()
    {
      this.cfg, this.keyboard, this.pasteSettings, this.controller, this.aoa := cfg, keyboard, settings, controller, aoa;
      fingerDown, invertX, invertY, mouseButtons := false, false, false, {};
      nextSequence := 1;
      paused, disconnected, frameSize := false, false, size;
      log, assertFailed := [], false;
    }

    method Push(msg: Option<Msg>)
      requires (msg.Some? ==> IsForwarded(msg.value)) && Sound()
      modifies controller
      ensures controller.serialized == old(controller.serialized)
      ensures controller.View() == PushOption(old(controller.View()), msg) && Sound()
    {
      if msg.Some? {
        FingersOfSnoc(controller.accepted, msg.value);
        var _ := controller.PushMsg(msg.value);
      }
    }

    /** simulate_virtual_finger(), at the position of the mouse inverted as the flags say. */
    method SimulateVirtualFinger(action: TouchAction, mouse: Point) returns (pushed: bool)
      requires Sound()
      modifies `log, controller
      ensures controller.serialized == old(controller.serialized)
      ensures var m := FingerMsg(MakeFinger(old(View()), action, mouse));
              && pushed == Controller.Accepts(old(controller.View()), m)
              && controller.View() == Controller.PushStep(old(controller.View()), m)
      ensures View() == VirtualFinger.Send(old(View()), action, mouse, pushed) && Sound()
    {
      hide WrapI32, FingersOf, FingerMsgs, EncodeAll, Serializable;
      var point := InversePoint(mouse, frameSize, invertX, invertY);
      var msg := InjectTouchEvent(
        ActionCode(action), POINTER_ID_VIRTUAL_FINGER,
        Position(WrapI32(point.x), WrapI32(point.y), frameSize.width, frameSize.height),
        if action.Up? then 0.0 else 1.0, 0, 0);
      ghost var finger := MakeFinger(View(), action, mouse);
      assert msg == FingerMsg(finger);
      FingerMsgIsFinger(finger);
      FingersOfSnoc(controller.accepted, msg);
      pushed := controller.PushMsg(msg);
      if pushed {
        FingerMsgsSnoc(log, finger);
        log := log + [finger];
      }
    }

    method ProcessMouseMotion(mouse: Point, touch: bool, forwarded: Option<Msg>) returns (pushed: bool)
      requires Sound() && (forwarded.Some? ==> IsForwarded(forwarded.value))
      modifies this, controller
      ensures controller.serialized == old(controller.serialized) && nextSequence == old(nextSequence)
      ensures View() == MotionStep(old(View()), mouse, touch, pushed) && Sound()
      ensures var pushes := MotionPushes(old(View()), mouse, touch, forwarded);
              && controller.View() == PushBoth(old(controller.View()), pushes)
              && pushed == FingerAccepted(old(controller.View()), pushes)
    {
      hide Manager.Sound, ControllerState.View, FingerMsg, WellTyped, Controller.PushStep, Controller.Accepts;
      pushed := false;
      if cfg.camera || !cfg.mouse || paused || disconnected || touch {
        return;
      }
      Push(forwarded);
      AssertNotRelative();
      if fingerDown {
        pushed := SimulateVirtualFinger(Move, mouse);
      }
    }

    /** The virtual finger goes down or up, if its message is accepted. */
    method ChangeFinger(e: ButtonEvent) returns (pushed: bool)
      requires Sound()
      modifies this, controller
      ensures controller.serialized == old(controller.serialized) && nextSequence == old(nextSequence)
      ensures View() == VirtualFinger.ChangeFinger(old(View()), e, pushed) && Sound()
      ensures var m := FingerMsg(ChangedFinger(old(View()), e));
              && controller.View() == Controller.PushStep(old(controller.View()), m)
              && pushed == Controller.Accepts(old(controller.View()), m)
    {
      hide Manager.Sound, ControllerState.View, FingerMsg, Controller.PushStep, Controller.Accepts;
      if e.down {
        invertX, invertY := e.ctrl != e.shift, e.ctrl;
      }
      pushed := SimulateVirtualFinger(if e.down then Down else Up, e.mouse);
      if pushed {
        fingerDown := e.down;
      }
    }

    method PressButton(button: Button)
      modifies `mouseButtons
      ensures View() == old(View()).(buttons := old(View()).buttons + {button})
    {
      mouseButtons := mouseButtons + {button};
    }

    method ReleaseButton(button: Button)
      modifies `mouseButtons
      ensures View() == old(View()).(buttons := old(View()).buttons - {button})
    {
      mouseButtons := mouseButtons - {button};
    }

    /** The virtual finger must never be used in relative mode. */
    ghost method AssertNotRelative()
      modifies `assertFailed
      ensures View() == old(View()).(assertFailed := old(View()).assertFailed || (cfg.relative && fingerDown))
    {
      assertFailed := assertFailed || (cfg.relative && fingerDown);
    }

    /** The end of the processing of a button event, which is forwarded to the mouse processor. */
    method ForwardClick(e: ButtonEvent, forwarded: Option<Msg>) returns (pushed: bool)
      requires Sound() && (forwarded.Some? ==> IsForwarded(forwarded.value))
      modifies this, controller
      ensures controller.serialized == old(controller.serialized) && nextSequence == old(nextSequence)
      ensures View() == ForwardStep(old(View()), e, pushed) && Sound()
      ensures var pushes := ForwardPushes(old(View()), e, forwarded);
              && controller.View() == PushBoth(old(controller.View()), pushes)
              && pushed == FingerAccepted(old(controller.View()), pushes)
    {
      hide Manager.Sound, Manager.View, ControllerState.View, FingerMsg, IsForwarded, ChangedFinger,
           VirtualFinger.ChangeFinger, Controller.PushStep, Controller.Accepts;
      pushed := false;
      ghost var s := View();
      if e.down {
        PressButton(e.button);
        ChangedFingerIgnoresButtons(s, s.buttons + {e.button}, e);
      }
      Push(forwarded);
      if cfg.relative {
        AssertNotRelative();
      } else if e.button == LeftButton
                && ((e.down && !fingerDown && (e.ctrl || e.shift)) || (!e.down && fingerDown)) {
        pushed := ChangeFinger(e);
      }
    }

    /** The shortcuts, the click on the borders, or the end of the processing. */
    method DispatchButton(e: ButtonEvent, forwarded: Option<Msg>) returns (pushed: bool)
      requires Sound() && (forwarded.Some? ==> IsForwarded(forwarded.value)) && SeesButton(View(), e)
      modifies this, controller
      ensures controller.serialized == old(controller.serialized) && nextSequence == old(nextSequence) && Sound()
      ensures View() == if ForwardsButton(old(View()), e) then ForwardStep(old(View()), e, pushed) else old(View())
      ensures var pushes := ButtonPushes(old(View()), e, keyboard, forwarded);
              && controller.View() == PushBoth(old(controller.View()), pushes)
              && pushed == FingerAccepted(old(controller.View()), pushes)
    {
      hide Manager.Sound, Manager.View, ControllerState.View, IsForwarded, BindingMsg, BindingOf, ForwardStep, ForwardPushes,
           PushBoth, FingerAccepted, PushOption, FingerMsg, Controller.PushStep, Controller.Accepts;
      PushBothWithoutFinger(controller.View(), None);
      pushed := false;
      if cfg.control && !paused {
        var binding := BindingOf(if e.shift then cfg.secondary else cfg.primary, e.button);
        if binding != Click {
          var msg := BindingMsg(binding, e.down, e.clicks, keyboard);
          BindingMsgIsForwarded(binding, e.down, e.clicks, keyboard);
          PushBothWithoutFinger(controller.View(), msg);
          Push(msg);
          return;
        }
      }
      if cfg.video && !(cfg.mouse && cfg.relative) && e.button == LeftButton && e.clicks == 2 && e.outside {
        return; // resized to fit
      }
      if !cfg.mouse || paused {
        return;
      }
      pushed := ForwardClick(e, forwarded);
    }

    method ProcessMouseButton(e: ButtonEvent, forwarded: Option<Msg>) returns (pushed: bool)
      requires Sound() && (forwarded.Some? ==> IsForwarded(forwarded.value))
      modifies this, controller
      ensures controller.serialized == old(controller.serialized) && nextSequence == old(nextSequence)
      ensures View() == ButtonStep(old(View()), e, pushed) && Sound()
      ensures var pushes := ButtonPushes(old(View()), e, keyboard, forwarded);
              && controller.View() == PushBoth(old(controller.View()), pushes)
              && pushed == FingerAccepted(old(controller.View()), pushes)
    {
      hide Manager.Sound, Manager.View, ControllerState.View, IsForwarded, ForwardStep, BindingOf, ButtonPushes,
           ForwardPushes, PushBoth, FingerAccepted, PushOption, FingerMsg, Controller.PushStep, Controller.Accepts;
      PushBothWithoutFinger(controller.View(), None);
      PushesIgnoreRelease(View(), e, keyboard, forwarded);
      NothingSeenPushesNothing(View(), e, keyboard, forwarded);
      pushed := false;
      if cfg.camera || disconnected || e.touch || e.button == UnknownButton {
        return;
      }
      if !e.down {
        ReleaseButton(e.button);
      }
      pushed := DispatchButton(e, forwarded);
    }

    /** Ctrl+v pressed, not repeated, in sc_input_manager_process_key(). */
    method ProcessCtrlV(text: Option<seq<Byte>>, key: Key)
      requires Matches(pasteSettings, key) && Sound() && nextSequence < 0x1_0000_0000_0000_0000 - 1
      modifies `nextSequence, controller, aoa
      ensures controller.serialized == old(controller.serialized)
      ensures Sound() && View() == old(View())
      ensures PasteView() == if keyboard && !paused then CtrlV(pasteSettings, old(PasteView()), text, key) else old(PasteView())
    {
      hide Manager.Sound, ControllerState.View, AoaHid.Aoa.View, Matches, IsForwarded, PressKey,
           Controller.PushStep, Controller.Accepts;
      if !keyboard || paused {
        return;
      }
      var ackToWait := AoaHid.SEQUENCE_INVALID;
      if pasteSettings.autosync {
        if text.None? {
          return;
        }
        if pasteSettings.legacy {
          if text.value != [] {
            TextIsForwarded(text.value);
            Push(Some(InjectText(text.value)));
          }
          return;
        }
        var sequence: U64 := if pasteSettings.async then nextSequence else ClipboardSync.SEQUENCE_INVALID;
        var ok := PushClipboard(sequence, text.value);
        if !ok {
          return;
        }
        if pasteSettings.async {
          ackToWait := sequence;
          nextSequence := nextSequence + 1;
        }
      }
      ProcessKey(key, ackToWait);
    }

    /** set_device_clipboard() */
    method PushClipboard(sequence: U64, text: seq<Byte>) returns (ok: bool)
      requires Sound()
      modifies controller
      ensures controller.serialized == old(controller.serialized) && Sound()
      ensures var m := SetClipboard(sequence, false, text);
              && ok == Controller.Accepts(old(controller.View()), m)
              && controller.View() == if ok then Controller.PushStep(old(controller.View()), m) else old(controller.View())
    {
      hide FingersOf, FingerMsgs, EncodeAll;
      FingersOfSnoc(controller.accepted, SetClipboard(sequence, false, text));
      ok := controller.PushMsg(SetClipboard(sequence, false, text));
    }

    /** The process_key() operation of the key processor. */
    method ProcessKey(key: Key, ackToWait: nat)
      requires Matches(pasteSettings, key) && Sound()
      modifies controller, aoa
      ensures controller.serialized == old(controller.serialized)
      ensures Sound() && PasteView() == PressKey(old(PasteView()), key, ackToWait)
    {
      hide FingersOf, FingerMsgs, EncodeAll, Controller.PushStep, AoaHid.PushStep;
      match key
      case IgnoredKey =>
      case UsbKey(hidId, lockFirst) =>
        if lockFirst {
          var _ := aoa.PushInput(hidId, AoaHid.SEQUENCE_INVALID);
        }
        var _ := aoa.PushInput(hidId, ackToWait);
      case SocketKey(lock, msg) =>
        Push(lock);
        Push(Some(msg));
    }

    /** Anything that the controller does besides: its thread, or a push by another component. */
    method OtherAction(a: Controller.Action)
      requires Sound() && (a.Push? ==> IsForwarded(a.msg))
      modifies controller, controller.serialized
      ensures controller.serialized == old(controller.serialized)
      ensures controller.View() == Controller.Step(old(controller.View()), a) && Sound()
    {
      hide FingerMsgs, EncodeAll, Controller.Step;
      OtherActionPushesNoFinger(controller.View(), a);
      controller.Act(a);
    }
  }

  lemma OtherActionPushesNoFinger(c: Controller.State, a: Controller.Action)
    requires a.Push? ==> IsForwarded(a.msg)
    ensures FingersOf(Controller.Step(c, a).accepted) == FingersOf(c.accepted)
  {
    hide FingersOf;
    if a.Push? {
      FingersOfSnoc(c.accepted, a.msg);
    }
  }

  // ---------------------------------------------------------------- runs

  datatype Event =
    | MouseMotion(mouse: Point, touch: bool, forwarded: Option<Msg>)
    | MouseButton(e: ButtonEvent, forwarded: Option<Msg>)
    | Paused(paused: bool)
    | Disconnected
    | FrameResized(size: Size)
    | Other(a: Controller.Action)

  predicate IsPossible(ev: Event) {
    match ev
    case MouseMotion(_, _, forwarded) => forwarded.Some? ==> IsForwarded(forwarded.value)
    case MouseButton(_, forwarded) => forwarded.Some? ==> IsForwarded(forwarded.value)
    case Other(a) => a.Push? ==> IsForwarded(a.msg)
    case _ => true
  }

  lemma PushBothKeepsOrder(c: Controller.State, p: Pushes)
    requires Controller.InOrder(c) && (p.first.Some? ==> IsForwarded(p.first.value))
    ensures Controller.InOrder(PushBoth(c, p))
  {
    hide Controller.InOrder, Controller.PushStep, FingerMsg;
    if p.first.Some? {
      Controller.StepKeepsOrder(c, Controller.Push(p.first.value));
    }
    if p.finger.Some? {
      FingerMsgIsFinger(p.finger.value);
      Controller.StepKeepsOrder(PushOption(c, p.first), Controller.Push(FingerMsg(p.finger.value)));
    }
  }

  lemma PushesAreForwarded(s: State, keyboard: bool, ev: Event)
    requires IsPossible(ev)
    ensures ev.MouseMotion? ==>
              var p := MotionPushes(s, ev.mouse, ev.touch, ev.forwarded); p.first.Some? ==> IsForwarded(p.first.value)
    ensures ev.MouseButton? ==>
              var p := ButtonPushes(s, ev.e, keyboard, ev.forwarded); p.first.Some? ==> IsForwarded(p.first.value)
  {
  }

  /** The virtual finger messages sent are the first of those accepted. */
  lemma FingersSentInOrder(c: Controller.State)
    requires Controller.InOrder(c)
    ensures FingersOf(c.sent) <= FingersOf(c.accepted)
  {
    hide FingersOf, Controller.Queued;
    var taken := Controller.Taken(c);
    FingersOfAppend(c.sent, taken[|c.sent|..]);
    assert taken == c.sent + taken[|c.sent|..];
    FingersOfQueued(taken);
    FingersOfAppend(Controller.Queued(taken), c.queue);
  }

  lemma {:induction false} FingersOfAppend(a: seq<Msg>, b: seq<Msg>)
    ensures FingersOf(a + b) == FingersOf(a) + FingersOf(b)
  {
    if b == [] {
      assert a + b == a;
    } else {
      FingersOfAppend(a, DropLast(b));
      assert DropLast(a + b) == a + DropLast(b);
    }
  }

  lemma {:induction false} FingersOfQueued(ms: seq<Msg>)
    ensures FingersOf(Controller.Queued(ms)) == FingersOf(ms)
  {
    if ms != [] {
      FingersOfQueued(DropLast(ms));
      if !Last(ms).ResizeDisplay? {
        FingersOfSnoc(Controller.Queued(DropLast(ms)), Last(ms));
      } else {
        assert Controller.Queued(ms) == Controller.Queued(DropLast(ms));
      }
    }
  }

  /** A beginning of well-formed gestures is well formed. */
  lemma {:induction false} GesturesOfPrefix(log: seq<Finger>, n: nat)
    requires n <= |log| && Gestures(log) != Broken
    ensures Gestures(log[..n]) != Broken
  {
    if n < |log| {
      GesturesOfPrefix(DropLast(log), n);
      assert DropLast(log)[..n] == log[..n];
    } else {
      assert log[..n] == log;
    }
  }

  /** What every event keeps. */
  ghost predicate Good(m: Manager)
    reads m, m.controller, m.controller.serialized
  {
    m.Sound() && Controller.InOrder(m.controller.View())
  }

  /** Handling one event is one step of VirtualFinger, or none. */
  method HandleEvent(m: Manager, ev: Event) returns (ghost actions: seq<Action>)
    requires Good(m) && IsPossible(ev)
    modifies m, m.controller, m.controller.serialized
    ensures Good(m) && m.controller.serialized == old(m.controller.serialized)
    ensures |actions| <= 1
    ensures m.View() == if actions == [] then old(m.View()) else Step(old(m.View()), actions[0])
  {
    hide Manager.Sound, ControllerState.View, Controller.InOrder, Controller.Step, MotionStep, ButtonStep,
         MotionPushes, ButtonPushes, IsForwarded, PushBoth;
    actions := [];
    PushesAreForwarded(m.View(), m.keyboard, ev);
    match ev {
      case MouseMotion(mouse, touch, forwarded) =>
        PushBothKeepsOrder(m.controller.View(), MotionPushes(m.View(), mouse, touch, forwarded));
        var pushed := m.ProcessMouseMotion(mouse, touch, forwarded);
        actions := [Motion(mouse, touch, pushed)];
      case MouseButton(e, forwarded) =>
        PushBothKeepsOrder(m.controller.View(), ButtonPushes(m.View(), e, m.keyboard, forwarded));
        var pushed := m.ProcessMouseButton(e, forwarded);
        actions := [Press(e, pushed)];
      case Paused(paused) =>
        m.paused := paused;
        actions := [SetPaused(paused)];
      case Disconnected =>
        m.disconnected := true;
        actions := [Disconnect];
      case FrameResized(size) =>
        m.frameSize := size;
        actions := [ResizeFrame(size)];
      case Other(a) =>
        Controller.StepKeepsOrder(m.controller.View(), a);
        m.OtherAction(a);
    }
  }

  /**
   * Whatever the events, and however the controller takes messages and sends them in between, the
   * virtual finger messages on the wire are gestures, complete but perhaps for the last one.
   */
  method Execute(m: Manager, events: seq<Event>) returns (ghost actions: seq<Action>)
    requires Good(m) && m.View() == Init(m.cfg, m.frameSize)
    requires forall ev | ev in events :: IsPossible(ev)
    modifies m, m.controller, m.controller.serialized
    ensures m.View() == Run(m.cfg, old(m.frameSize), actions) && !m.assertFailed
    ensures var sent := FingersOf(m.controller.sent);
            && |sent| <= |m.log| && sent == FingerMsgs(m.log[..|sent|]) && Gestures(m.log[..|sent|]) != Broken
  {
    hide Good, Gestures, FingersOf, IsPossible, Step, ControllerState.Sound;
    actions := [];
    ghost var size := m.frameSize;
    for i := 0 to |events|
      invariant Good(m) && m.controller.serialized == old(m.controller.serialized)
      invariant m.View() == Run(m.cfg, size, actions)
    {
      ghost var more := HandleEvent(m, events[i]);
      if more == [] {
        assert actions + more == actions;
      } else {
        assert DropLast(actions + more) == actions && Last(actions + more) == more[0];
      }
      actions := actions + more;
    }
    GesturesAreWellFormed(m.cfg, size, actions);
    SentFingers(m);
  }

  lemma SentFingers(m: Manager)
    requires Good(m) && Gestures(m.log) != Broken
    ensures var sent := FingersOf(m.controller.sent);
            && |sent| <= |m.log| && sent == FingerMsgs(m.log[..|sent|]) && Gestures(m.log[..|sent|]) != Broken
  {
    hide FingersOf, Gestures, FingerMsg, EncodeAll;
    FingersSentInOrder(m.controller.View());
    GesturesOfPrefix(m.log, |FingersOf(m.controller.sent)|);
  }
}
