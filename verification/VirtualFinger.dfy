/**
 * The virtual finger that simulates pinch-to-zoom, rotation and tilt with a mouse
 * (app/src/input_manager.c). `accepted` says whether the controller queue took the
 * message that an event generates, if it generates one.
 */
module VirtualFinger {
  import opened Common
  import opened Coords

  datatype TouchAction = Down | Move | Up

  /** A virtual finger message; mouse, invertX and invertY are where its point comes from. */
  datatype Finger = Finger(action: TouchAction, point: Point, size: Size, mouse: Point, invertX: bool, invertY: bool)

  datatype Button = LeftButton | RightButton | MiddleButton | Button4 | Button5 | UnknownButton

  datatype Binding = Click | DisabledBinding | Back | Home | AppSwitch | ExpandPanel

  datatype BindingSet = BindingSet(rightClick: Binding, middleClick: Binding, click4: Binding, click5: Binding)

  /** What does not change during a session. */
  datatype Config = Config(
    camera: bool,
    control: bool,         // there is a controller
    video: bool,
    mouse: bool,           // there is a mouse processor
    relative: bool,        // and it is in relative mode
    primary: BindingSet,
    secondary: BindingSet  // with Shift
  )

  datatype State = State(
    cfg: Config,
    fingerDown: bool,
    invertX: bool,
    invertY: bool,
    buttons: set<Button>,
    paused: bool,
    disconnected: bool,
    size: Size,            // of the frame
    log: seq<Finger>,      // history: virtual finger messages accepted
    assertFailed: bool
  )

  /** touch: generated from a touch event; outside: on the black borders, for a double click. */
  datatype ButtonEvent = ButtonEvent(
    button: Button, down: bool, ctrl: bool, shift: bool, touch: bool, clicks: nat, outside: bool, mouse: Point)

  datatype Action =
    | Motion(mouse: Point, touch: bool, accepted: bool)
    | Press(e: ButtonEvent, accepted: bool)
    | SetPaused(paused: bool)
    | Disconnect
    | ResizeFrame(size: Size)

  function Init(cfg: Config, size: Size): State {
    State(cfg, false, false, false, {}, false, false, size, [], false)
  }

  function InversePoint(p: Point, size: Size, invertX: bool, invertY: bool): Point {
    Point(if invertX then size.width - p.x else p.x, if invertY then size.height - p.y else p.y)
  }

  function MakeFinger(s: State, action: TouchAction, mouse: Point): Finger {
    Finger(action, InversePoint(mouse, s.size, s.invertX, s.invertY), s.size, mouse, s.invertX, s.invertY)
  }

  function Send(s: State, action: TouchAction, mouse: Point, accepted: bool): State {
    if accepted then s.(log := s.log + [MakeFinger(s, action, mouse)]) else s
  }

  predicate HandlesMotion(s: State, touch: bool) {
    !s.cfg.camera && s.cfg.mouse && !s.paused && !s.disconnected && !touch
  }

  function MotionStep(s: State, mouse: Point, touch: bool, accepted: bool): State {
    if !HandlesMotion(s, touch) then s
    else
      var r := s.(assertFailed := s.assertFailed || (s.cfg.relative && s.fingerDown));
      if s.fingerDown then Send(r, Move, mouse, accepted) else r
  }

  function BindingOf(set_: BindingSet, b: Button): Binding {
    match b
    case LeftButton => Click
    case RightButton => set_.rightClick
    case MiddleButton => set_.middleClick
    case Button4 => set_.click4
    case Button5 => set_.click5
    case UnknownButton => DisabledBinding
  }

  /** The event is not filtered out before the shortcuts. */
  predicate SeesButton(s: State, e: ButtonEvent) {
    !s.cfg.camera && !s.disconnected && !e.touch && e.button != UnknownButton
  }

  /** A shortcut or a click on the borders takes the event, or there is nothing to forward it to. */
  predicate ForwardsButton(s: State, e: ButtonEvent) {
    && (s.cfg.control && !s.paused ==>
          BindingOf(if e.shift then s.cfg.secondary else s.cfg.primary, e.button) == Click)
    && !(s.cfg.video && !(s.cfg.mouse && s.cfg.relative) && e.button == LeftButton && e.clicks == 2 && e.outside)
    && s.cfg.mouse && !s.paused
  }

  predicate ChangesFinger(s: State, e: ButtonEvent) {
    && e.button == LeftButton
    && (if e.down then !s.fingerDown && (e.ctrl || e.shift) else s.fingerDown)
  }

  function ReleaseButton(s: State, e: ButtonEvent): State {
    if e.down then s else s.(buttons := s.buttons - {e.button})
  }

  /** The virtual finger goes down, with the inversions of the modifiers, or up. */
  function ChangeFinger(s: State, e: ButtonEvent, accepted: bool): State {
    var r := if e.down then s.(invertX := e.ctrl != e.shift, invertY := e.ctrl) else s;
    var sent := Send(r, if e.down then Down else Up, e.mouse, accepted);
    if accepted then sent.(fingerDown := e.down) else sent
  }

  /** What becomes of an event that is forwarded to the mouse processor. */
  function ForwardStep(s: State, e: ButtonEvent, accepted: bool): State {
    var pressed := if e.down then s.(buttons := s.buttons + {e.button}) else s;
    if s.cfg.relative then pressed.(assertFailed := pressed.assertFailed || s.fingerDown)
    else if !ChangesFinger(s, e) then pressed
    else ChangeFinger(pressed, e, accepted)
  }

  function ButtonStep(s: State, e: ButtonEvent, accepted: bool): State {
    if !SeesButton(s, e) then s
    else if !ForwardsButton(s, e) then ReleaseButton(s, e)
    else ForwardStep(ReleaseButton(s, e), e, accepted)
  }

  function Step(s: State, a: Action): State {
    match a
    case Motion(mouse, touch, accepted) => MotionStep(s, mouse, touch, accepted)
    case Press(e, accepted) => ButtonStep(s, e, accepted)
    case SetPaused(paused) => s.(paused := paused)
    case Disconnect => s.(disconnected := true)
    case ResizeFrame(size) => s.(size := size)
  }

  function Run(cfg: Config, size: Size, actions: seq<Action>): State {
    if actions == [] then Init(cfg, size) else Step(Run(cfg, size, DropLast(actions)), Last(actions))
  }

  // ---------------------------------------------------------------- the protocol

  /** Held: a gesture is in progress, with these inversions. */
  datatype Phase = Released | Held(invertX: bool, invertY: bool) | Broken

  function NextPhase(p: Phase, m: Finger): Phase {
    match m.action
    case Down => if p.Released? then Held(m.invertX, m.invertY) else Broken
    case Move => if p == Held(m.invertX, m.invertY) then p else Broken
    case Up => if p == Held(m.invertX, m.invertY) then Released else Broken
  }

  /** Not broken: a prefix of (DOWN MOVE* UP)*, with the same inversions from each DOWN to its UP. */
  function Gestures(log: seq<Finger>): Phase {
    if log == [] then Released else NextPhase(Gestures(DropLast(log)), Last(log))
  }

  /** The finger is the mirror image of the mouse with respect to the middle of the frame, on each axis that is inverted. */
  predicate PlacedByInversion(m: Finger) {
    && (if m.invertX then m.point.x + m.mouse.x == m.size.width else m.point.x == m.mouse.x)
    && (if m.invertY then m.point.y + m.mouse.y == m.size.height else m.point.y == m.mouse.y)
  }

  predicate Inv(s: State) {
    && !s.assertFailed
    && (s.cfg.relative ==> !s.fingerDown)
    && Gestures(s.log) == (if s.fingerDown then Held(s.invertX, s.invertY) else Released)
    && forall m | m in s.log :: PlacedByInversion(m)
  }

  lemma SendKeeps(s: State, action: TouchAction, mouse: Point)
    requires forall m | m in s.log :: PlacedByInversion(m)
    ensures var r := Send(s, action, mouse, true);
            && Gestures(r.log) == NextPhase(Gestures(s.log), MakeFinger(s, action, mouse))
            && forall m | m in r.log :: PlacedByInversion(m)
  {
    assert DropLast(s.log + [MakeFinger(s, action, mouse)]) == s.log;
  }

  lemma ButtonKeeps(s: State, e: ButtonEvent, accepted: bool)
    requires Inv(s)
    ensures Inv(ButtonStep(s, e, accepted))
  {
    hide Gestures, BindingOf, PlacedByInversion, InversePoint;
    if accepted {
      SendKeeps(s.(invertX := e.ctrl != e.shift, invertY := e.ctrl), Down, e.mouse);
      SendKeeps(s, Up, e.mouse);
    }
  }

  lemma StepKeeps(s: State, a: Action)
    requires Inv(s)
    ensures Inv(Step(s, a))
  {
    hide Gestures, ButtonStep, PlacedByInversion, InversePoint;
    match a
    case Motion(mouse, touch, accepted) =>
      if HandlesMotion(s, touch) && s.fingerDown && accepted {
        SendKeeps(s, Move, mouse);
      }
    case Press(e, accepted) => ButtonKeeps(s, e, accepted);
    case _ =>
  }

  lemma {:induction false} RunKeeps(cfg: Config, size: Size, actions: seq<Action>)
    ensures Inv(Run(cfg, size, actions))
  {
    if actions != [] {
      hide Step, Inv;
      RunKeeps(cfg, size, DropLast(actions));
      StepKeeps(Run(cfg, size, DropLast(actions)), Last(actions));
    }
  }

  /**
   * In every run, the accepted messages of the virtual finger are complete gestures, but
   * perhaps the last; in a gesture every point is the position of the mouse inverted in
   * the same way. The virtual finger is never down in relative mode, which is asserted.
   */
  lemma {:induction false} GesturesAreWellFormed(cfg: Config, size: Size, actions: seq<Action>)
    ensures var s := Run(cfg, size, actions);
            && Gestures(s.log) != Broken
            && (forall m | m in s.log :: PlacedByInversion(m))
            && !s.assertFailed
  {
    hide Run, Gestures;
    RunKeeps(cfg, size, actions);
  }

  /** A point is inverted through the center with Ctrl, across the vertical axis with Shift, across the horizontal one with both. */
  predicate PlacedByModifiers(m: Finger, ctrl: bool, shift: bool) {
    if ctrl && shift then m.point.x == m.mouse.x && m.point.y + m.mouse.y == m.size.height
    else if ctrl then m.point.x + m.mouse.x == m.size.width && m.point.y + m.mouse.y == m.size.height
    else m.point.x + m.mouse.x == m.size.width && m.point.y == m.mouse.y
  }

  lemma RunSnoc(cfg: Config, size: Size, actions: seq<Action>, a: Action)
    ensures Run(cfg, size, actions + [a]) == Step(Run(cfg, size, actions), a)
  {
    assert DropLast(actions + [a]) == actions;
  }

  /** In every run, the press of a button that adds a finger message begins a gesture placed by its modifiers, or ends one. */
  lemma {:induction false} ModifiersPlaceFinger(cfg: Config, size: Size, actions: seq<Action>, e: ButtonEvent)
    requires |Run(cfg, size, actions + [Press(e, true)]).log| > |Run(cfg, size, actions).log|
    ensures var s, r := Run(cfg, size, actions), Run(cfg, size, actions + [Press(e, true)]);
            var m := Last(r.log);
            && r.log == s.log + [m] && m.mouse == e.mouse && m.size == s.size
            && (if e.down then m.action.Down? && (e.ctrl || e.shift) && PlacedByModifiers(m, e.ctrl, e.shift) else m.action.Up?)
  {
    hide Run, ButtonStep, Gestures;
    RunSnoc(cfg, size, actions, Press(e, true));
    PressLogs(Run(cfg, size, actions), e);
  }

  /** The message of a press or of a release. */
  function PressFinger(s: State, e: ButtonEvent): Finger {
    MakeFinger(if e.down then s.(invertX := e.ctrl != e.shift, invertY := e.ctrl) else s, if e.down then Down else Up, e.mouse)
  }

  lemma PressLogs(s: State, e: ButtonEvent)
    ensures var r := ButtonStep(s, e, true);
            r.log == s.log || (r.log == s.log + [PressFinger(s, e)] && (e.down ==> e.ctrl || e.shift))
  {
    hide BindingOf, InversePoint;
  }

  /** The manager is in a state to use the virtual finger at all. */
  predicate Active(s: State) {
    !s.cfg.camera && !s.disconnected && !s.paused && s.cfg.mouse && !s.cfg.relative
  }

  /** A double click outside the picture resizes the window. */
  predicate ResizesWindow(s: State, e: ButtonEvent) {
    s.cfg.video && e.clicks == 2 && e.outside
  }

  /**
   * In every run, when the queue has room: the left button begins a gesture with Ctrl or Shift if none is in progress, and ends
   * the one in progress, unless it resizes the window; no other button adds a message.
   */
  lemma {:induction false} PressAddsIff(cfg: Config, size: Size, actions: seq<Action>, e: ButtonEvent)
    ensures var s, r := Run(cfg, size, actions), Run(cfg, size, actions + [Press(e, true)]);
            var held := Gestures(s.log).Held?;
            r.log != s.log <==>
              && Active(s) && !e.touch && e.button == LeftButton && !ResizesWindow(s, e)
              && (if e.down then !held && (e.ctrl || e.shift) else held)
  {
    hide Run, Gestures;
    RunKeeps(cfg, size, actions);
    RunSnoc(cfg, size, actions, Press(e, true));
  }

  /** So does the motion of the mouse if and only if a gesture is in progress, with the same inversions. */
  lemma {:induction false} MotionAddsIff(cfg: Config, size: Size, actions: seq<Action>, mouse: Point, touch: bool)
    ensures var s, r := Run(cfg, size, actions), Run(cfg, size, actions + [Motion(mouse, touch, true)]);
            && (r.log != s.log <==> Active(s) && !touch && Gestures(s.log).Held?)
            && (r.log != s.log ==> r.log == s.log + [Last(r.log)] && Last(r.log).action.Move? && Last(r.log).mouse == mouse)
  {
    hide Run, Gestures;
    RunKeeps(cfg, size, actions);
    RunSnoc(cfg, size, actions, Motion(mouse, touch, true));
  }

  predicate Quiet(s: State) {
    s.paused || s.disconnected
  }

  lemma QuietStep(s: State, a: Action)
    requires Quiet(s) && (s.disconnected || a != SetPaused(false))
    ensures Quiet(Step(s, a)) && Step(s, a).log == s.log && (s.disconnected ==> Step(s, a).disconnected)
  {
    hide BindingOf;
  }

  lemma AppendsLast(actions: seq<Action>, more: seq<Action>)
    requires more != []
    ensures actions + more == actions + DropLast(more) + [Last(more)]
  {
  }

  /** While the screen is paused, and for ever once the device is disconnected, no message of the finger is sent. */
  lemma {:induction false} QuietAddsNothing(cfg: Config, size: Size, actions: seq<Action>, a: Action, more: seq<Action>)
    requires a == Disconnect || (a == SetPaused(true) && SetPaused(false) !in more)
    ensures var s, r := Run(cfg, size, actions), Run(cfg, size, actions + [a] + more);
            r.log == s.log && Quiet(r) && (a == Disconnect ==> r.disconnected)
  {
    RunSnoc(cfg, size, actions, a);
    hide Run;
    if more == [] {
      assert actions + [a] + more == actions + [a];
    } else {
      hide Step;
      QuietAddsNothing(cfg, size, actions, a, DropLast(more));
      assert more == DropLast(more) + [Last(more)];
      AppendsLast(actions + [a], more);
      RunSnoc(cfg, size, actions + [a] + DropLast(more), Last(more));
      QuietStep(Run(cfg, size, actions + [a] + DropLast(more)), Last(more));
    }
  }

  /** Which buttons are pressed: a press that is forwarded adds its button, a release always removes it. */
  lemma ButtonsFollow(cfg: Config, size: Size, actions: seq<Action>, e: ButtonEvent, accepted: bool)
    ensures var s, r := Run(cfg, size, actions), Run(cfg, size, actions + [Press(e, accepted)]);
            && (forall b | b != e.button :: b in r.buttons <==> b in s.buttons)
            && (SeesButton(s, e) && !e.down ==> e.button !in r.buttons)
            && (SeesButton(s, e) && e.down && ForwardsButton(s, e) ==> e.button in r.buttons)
            && (!SeesButton(s, e) || (e.down && !ForwardsButton(s, e)) ==> r.buttons == s.buttons)
  {
    hide Run, BindingOf;
    RunSnoc(cfg, size, actions, Press(e, accepted));
  }

  /** The left button always clicks; each other button has its own binding, or none. */
  lemma BindingsAre(primary: BindingSet, e: Button)
    ensures var b := BindingOf(primary, e);
            && (e == LeftButton ==> b == Click) && (e == UnknownButton ==> b == DisabledBinding)
            && [BindingOf(primary, RightButton), BindingOf(primary, MiddleButton), BindingOf(primary, Button4), BindingOf(primary, Button5)]
               == [primary.rightClick, primary.middleClick, primary.click4, primary.click5]
  {
  }

  /** The screen tells the size of the frame, and whether it is paused. */
  lemma ScreenTells(cfg: Config, size: Size, actions: seq<Action>, paused: bool, frame: Size)
    ensures var s, r := Run(cfg, size, actions), Run(cfg, size, actions + [SetPaused(paused)]);
            r == s.(paused := paused)
    ensures Run(cfg, size, actions + [ResizeFrame(frame)]).size == frame
  {
    RunSnoc(cfg, size, actions, SetPaused(paused));
    RunSnoc(cfg, size, actions, ResizeFrame(frame));
  }

  /** With a controller, a button is forwarded only if its binding is a click: the secondary one with Shift. */
  lemma ForwardsOnlyClicks(s: State, e: ButtonEvent)
    requires ForwardsButton(s, e) && s.cfg.control
    ensures var bindings := if e.shift then s.cfg.secondary else s.cfg.primary;
            && (e.button == RightButton ==> bindings.rightClick == Click)
            && (e.button == MiddleButton ==> bindings.middleClick == Click)
            && (e.button == Button4 ==> bindings.click4 == Click)
            && (e.button == Button5 ==> bindings.click5 == Click)
            && !s.paused && s.cfg.mouse
  {
  }

  /** The inversion is a symmetry of the frame: it is its own inverse, and keeps points in the frame. */
  lemma InversionIsSymmetry(p: Point, size: Size, invertX: bool, invertY: bool)
    ensures var q := InversePoint(p, size, invertX, invertY);
            && InversePoint(q, size, invertX, invertY) == p
            && (0 <= p.x <= size.width && 0 <= p.y <= size.height ==> 0 <= q.x <= size.width && 0 <= q.y <= size.height)
  {
  }
}
