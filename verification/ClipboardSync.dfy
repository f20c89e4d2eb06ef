/**
 * Pasting with a keyboard simulated over AOA (app/src/input_manager.c, usb/aoa_hid.c,
 * util/acksync.c). Ctrl+v travels over USB while the clipboard travels over the control
 * socket, so the key waits until the device has acknowledged the clipboard.
 *
 * The device (server/src/main/java/com/genymobile/scrcpy/control/Controller.java) handles the
 * messages of the socket in order, and acknowledges a nonzero sequence after having tried to
 * set that clipboard, whether it could or not. The sequence counter does not wrap around.
 */
module ClipboardSync {
  import opened Common
  import opened Binary
  import opened Utf8
  import ControlMsg
  import Controller
  import AoaHid
  import AoaWakeups

  type Msg = ControlMsg.Msg
  type Text = seq<Byte>

  const SEQUENCE_INVALID: U64 := 0

  /**
   * The handling of the index-th message, a clipboard with a sequence: the text received, whether a
   * clipboard manager could set it, and the texts that the clipboard had held before and after.
   */
  datatype Effect = Effect(sequence: nat, index: nat, text: Text, before: seq<Text>, ok: bool, after: seq<Text>)

  /**
   * An input event handed to the USB device, with what the device had done by then: the sequences
   * handled, what became of them, and the texts that its clipboard had held.
   */
  datatype UsbSend = UsbSend(ackToWait: nat, applied: seq<nat>, effects: seq<Effect>, clipboards: seq<Text>)

  datatype State = State(
    next: nat,                // the next sequence
    ctl: Controller.State,
    handled: nat,             // how many of the messages sent the device has handled
    clipboards: seq<Text>,    // the clipboard of the device, after the texts that it held before
    effects: seq<Effect>,     // history: what became of the clipboards with a sequence
    owed: seq<nat>,           // the acknowledgement that the device is about to send
    channel: seq<nat>,        // acknowledgements on their way to the receiver
    aoa: AoaHid.State,
    received: seq<nat>,       // history: acknowledgements received
    usb: seq<UsbSend>,        // history: input events sent over USB
    assertFailed: bool
  )

  datatype Action =
    | SyncClipboard(text: seq<Byte>)     // with an acknowledgement
    | PushAoa(e: AoaHid.Event)           // if it waits, then for a sequence already requested
    | PushClipboard(paste: bool, text: seq<Byte>)   // without acknowledgement
    | Env(c: Controller.Action)
    | DeviceStep(ok: bool)               // ok: a clipboard manager exists, and sets the text
    | DeviceCopy(text: seq<Byte>)        // some text is copied on the device
    | ReceiverStep
    | AoaThread(deadline: bool, ok: bool)
    | StopAoa
    | InterruptAcks

  function Init(): State {
    State(1, Controller.Init(), 0, [], [], [], [], AoaHid.Init(), [], [], false)
  }

  /** The request to set the clipboard of the device; the sequence increases only if it is accepted. */
  function SyncStep(s: State, text: seq<Byte>): State {
    if s.next >= 0x1_0000_0000_0000_0000 then s
    else
      var m := ControlMsg.SetClipboard(s.next, false, text);
      if Controller.Accepts(s.ctl, m) then s.(next := s.next + 1, ctl := Controller.PushStep(s.ctl, m)) else s
  }

  /** The text that the device reads in a clipboard message. */
  function ReceivedText(m: Msg): Text
    requires m.SetClipboard?
  {
    if StopsInside(m.text, ControlMsg.CLIPBOARD_TEXT_MAX_LENGTH) then Truncated(m.text, ControlMsg.CLIPBOARD_TEXT_MAX_LENGTH)
    else m.text
  }

  predicate Holds(clipboards: seq<Text>, text: Text) {
    clipboards != [] && Last(clipboards) == text
  }

  /** A text that is already there is not set again. */
  function ClipboardsAfter(clipboards: seq<Text>, text: Text, ok: bool): seq<Text> {
    if !Holds(clipboards, text) && ok then clipboards + [text] else clipboards
  }

  function EffectsOf(s: State, m: Msg, ok: bool): seq<Effect> {
    if m.SetClipboard? && m.sequence != SEQUENCE_INVALID then
      var text := ReceivedText(m);
      [Effect(m.sequence, s.handled, text, s.clipboards, ok, ClipboardsAfter(s.clipboards, text, ok))]
    else []
  }

  /** Handles a message; the acknowledgement is owed whatever the result. */
  function HandleMessage(s: State, ok: bool): State
    requires s.handled < |s.ctl.sent|
  {
    var m := s.ctl.sent[s.handled];
    s.(handled := s.handled + 1, owed := OneSequence(m), effects := s.effects + EffectsOf(s, m, ok),
       clipboards := if m.SetClipboard? then ClipboardsAfter(s.clipboards, ReceivedText(m), ok) else s.clipboards)
  }

  function DeviceStepOf(s: State, ok: bool): State {
    if s.owed != [] then s.(channel := s.channel + s.owed, owed := [])
    else if s.handled < |s.ctl.sent| then HandleMessage(s, ok)
    else s
  }

  /** sc_acksync_ack(), with its assertion that acknowledgements are monotonic. */
  function ReceiverStepOf(s: State): State {
    if s.channel == [] then s
    else
      var sequence := s.channel[0];
      s.(channel := s.channel[1..], received := s.received + [sequence],
         aoa := s.aoa.(acks := s.aoa.acks.(ack := sequence)),
         assertFailed := s.assertFailed || sequence < s.aoa.acks.ack)
  }

  function AoaThreadStep(s: State, deadline: bool, ok: bool): State {
    var t := s.aoa.thread;
    s.(aoa := AoaHid.ThreadStep(s.aoa, deadline, ok),
       usb := if t.Handling? && t.event.Input? then
                s.usb + [UsbSend(t.event.ackToWait, Applied(s.ctl.sent, s.handled), s.effects, s.clipboards)]
              else s.usb)
  }

  function Step(s: State, a: Action): State {
    match a
    case SyncClipboard(text) => SyncStep(s, text)
    case PushAoa(e) => if e.Input? && e.ackToWait >= s.next then s else s.(aoa := AoaHid.PushStep(s.aoa, e))
    case PushClipboard(paste, text) =>
      s.(ctl := Controller.PushStep(s.ctl, ControlMsg.SetClipboard(SEQUENCE_INVALID, paste, text)))
    case Env(c) => if c.Push? && c.msg.SetClipboard? then s else s.(ctl := Controller.Step(s.ctl, c))
    case DeviceStep(ok) => DeviceStepOf(s, ok)
    case DeviceCopy(text) => s.(clipboards := s.clipboards + [text])
    case ReceiverStep => ReceiverStepOf(s)
    case AoaThread(deadline, ok) => AoaThreadStep(s, deadline, ok)
    case StopAoa => s.(aoa := s.aoa.(stopped := true))
    case InterruptAcks => s.(aoa := s.aoa.(acks := s.aoa.acks.(stopped := true)))
  }

  function Run(actions: seq<Action>): State {
    if actions == [] then Init() else Step(Run(DropLast(actions)), Last(actions))
  }

  // ---------------------------------------------------------------- sequences

  /** The sequences of the clipboard messages that request an acknowledgement. */
  function Sequences(ms: seq<Msg>): seq<nat> {
    if ms == [] then [] else Sequences(DropLast(ms)) + OneSequence(Last(ms))
  }

  function OneSequence(m: Msg): seq<nat> {
    if m.SetClipboard? && m.sequence != SEQUENCE_INVALID then [m.sequence] else []
  }

  /** Those of the clipboards that the device has handled. */
  function Applied(sent: seq<Msg>, handled: nat): seq<nat> {
    Sequences(if handled <= |sent| then sent[..handled] else sent)
  }

  lemma {:induction false} SequencesAppend(a: seq<Msg>, b: seq<Msg>)
    ensures Sequences(a + b) == Sequences(a) + Sequences(b)
  {
    hide OneSequence;
    if b == [] {
      assert a + b == a;
    } else {
      assert DropLast(a + b) == a + DropLast(b) && Last(a + b) == Last(b);
      SequencesAppend(a, DropLast(b));
      assert Sequences(a + b) == Sequences(a + DropLast(b)) + OneSequence(Last(b));
    }
  }

  lemma {:induction false} SequencesOfQueued(ms: seq<Msg>)
    ensures Sequences(Controller.Queued(ms)) == Sequences(ms)
  {
    if ms != [] {
      SequencesOfQueued(DropLast(ms));
      SequencesAppend(Controller.Queued(DropLast(ms)), if Last(ms).ResizeDisplay? then [] else [Last(ms)]);
    }
  }

  predicate Increasing(s: seq<nat>) {
    forall i, j | 0 <= i < j < |s| :: s[i] < s[j]
  }

  /** What the device has applied is the beginning of what was accepted. */
  lemma AppliedIsPrefix(s: State)
    requires Controller.InOrder(s.ctl) && s.handled <= |s.ctl.sent|
    ensures Applied(s.ctl.sent, s.handled) <= Sequences(s.ctl.accepted)
  {
    hide Sequences, Controller.Queued;
    var taken := Controller.Taken(s.ctl);
    SequencesAppend(Controller.Queued(taken), s.ctl.queue);
    SequencesOfQueued(taken);
    SequencesAppend(s.ctl.sent[..s.handled], taken[s.handled..]);
    assert taken == s.ctl.sent[..s.handled] + taken[s.handled..];
  }

  // ---------------------------------------------------------------- invariants

  /** Sequences are pushed in increasing order, below the next one. */
  ghost predicate PushInv(s: State) {
    && s.next >= 1
    && Controller.InOrder(s.ctl)
    && Increasing(Sequences(s.ctl.accepted))
    && (forall n: nat :: n in Sequences(s.ctl.accepted) <==> 0 < n < s.next)
    && (forall e | e in s.aoa.accepted && e.Input? && e.ackToWait != 0 :: e.ackToWait in Sequences(s.ctl.accepted))
  }

  /** Acknowledgements arrive in the order in which the clipboards were set. */
  predicate AckInv(s: State) {
    && !s.assertFailed
    && s.handled <= |s.ctl.sent|
    && s.received + s.channel + s.owed == Applied(s.ctl.sent, s.handled)
    && s.aoa.acks.ack == (if s.received == [] then 0 else Last(s.received))
  }

  ghost predicate UsbInv(s: State) {
    && AoaHid.OneFate(s.aoa)
    && (forall u | u in s.usb :: u.ackToWait != 0 ==> u.ackToWait in u.applied)
  }

  function SequencesOf(effects: seq<Effect>): (r: seq<nat>)
    ensures |r| == |effects|
  {
    seq(|effects|, i requires 0 <= i < |effects| => effects[i].sequence)
  }

  /** The clipboard then held the text of the message exactly if it could be set or was there already. */
  predicate EffectInv(e: Effect, sent: seq<Msg>, clipboards: seq<Text>) {
    && e.index < |sent| && sent[e.index].SetClipboard? && sent[e.index].sequence == e.sequence
    && e.text == ReceivedText(sent[e.index])
    && e.before <= e.after <= clipboards
    && (Holds(e.after, e.text) <==> e.ok || Holds(e.before, e.text))
  }

  predicate EffectsInv(effects: seq<Effect>, sent: seq<Msg>, clipboards: seq<Text>) {
    forall e | e in effects :: EffectInv(e, sent, clipboards)
  }

  ghost predicate DeviceInv(s: State) {
    && SequencesOf(s.effects) == Applied(s.ctl.sent, s.handled)
    && EffectsInv(s.effects, s.ctl.sent, s.clipboards)
    && (forall u | u in s.usb ::
          u.effects <= s.effects && SequencesOf(u.effects) == u.applied && EffectsInv(u.effects, s.ctl.sent, u.clipboards))
  }

  ghost predicate Inv(s: State) {
    PushInv(s) && AckInv(s) && UsbInv(s) && DeviceInv(s)
  }

  lemma EffectsStay(effects: seq<Effect>, sent: seq<Msg>, clipboards: seq<Text>, sent': seq<Msg>, clipboards': seq<Text>)
    requires EffectsInv(effects, sent, clipboards) && sent <= sent' && clipboards <= clipboards'
    ensures EffectsInv(effects, sent', clipboards')
  {
    hide Holds, ReceivedText;
  }

  /** What became of the messages handled stays, whatever is sent or copied afterwards. */
  lemma SendingKeepsDevice(s: State, ctl: Controller.State)
    requires DeviceInv(s) && s.handled <= |s.ctl.sent| && s.ctl.sent <= ctl.sent
    ensures DeviceInv(s.(ctl := ctl))
  {
    hide EffectsInv, Sequences;
    EffectsStay(s.effects, s.ctl.sent, s.clipboards, ctl.sent, s.clipboards);
    forall u | u in s.usb
      ensures EffectsInv(u.effects, ctl.sent, u.clipboards)
    {
      EffectsStay(u.effects, s.ctl.sent, u.clipboards, ctl.sent, u.clipboards);
    }
    assert ctl.sent[..s.handled] == s.ctl.sent[..s.handled];
  }

  lemma CopyingKeepsDevice(s: State, text: Text)
    requires DeviceInv(s)
    ensures DeviceInv(s.(clipboards := s.clipboards + [text]))
  {
    hide EffectsInv, Applied;
    EffectsStay(s.effects, s.ctl.sent, s.clipboards, s.ctl.sent, s.clipboards + [text]);
  }

  lemma AppliedGrows(sent: seq<Msg>, handled: nat)
    requires handled < |sent|
    ensures Applied(sent, handled + 1) == Applied(sent, handled) + OneSequence(sent[handled])
  {
    assert DropLast(sent[..handled + 1]) == sent[..handled];
  }

  lemma NewEffects(s: State, ok: bool)
    requires s.handled < |s.ctl.sent|
    ensures var m := s.ctl.sent[s.handled];
            && SequencesOf(EffectsOf(s, m, ok)) == OneSequence(m)
            && EffectsInv(EffectsOf(s, m, ok), s.ctl.sent, HandleMessage(s, ok).clipboards)
  {
    hide ReceivedText;
  }

  lemma HandlingKeepsDevice(s: State, ok: bool)
    requires DeviceInv(s) && s.handled < |s.ctl.sent|
    ensures DeviceInv(HandleMessage(s, ok))
  {
    hide EffectInv, Applied, ReceivedText, Holds, EffectsOf, OneSequence;
    var r, more := HandleMessage(s, ok), EffectsOf(s, s.ctl.sent[s.handled], ok);
    NewEffects(s, ok);
    AppliedGrows(s.ctl.sent, s.handled);
    EffectsStay(s.effects, s.ctl.sent, s.clipboards, s.ctl.sent, r.clipboards);
    assert SequencesOf(s.effects + more) == SequencesOf(s.effects) + SequencesOf(more);
  }

  lemma PushAccepts(c: Controller.State, m: Msg)
    requires Controller.InOrder(c) && !m.ResizeDisplay?
    ensures var r := Controller.PushStep(c, m);
            && Controller.InOrder(r) && r.sent == c.sent
            && Sequences(r.accepted) ==
                 Sequences(c.accepted) + (if Controller.Accepts(c, m) then Sequences([m]) else [])
  {
    hide Sequences, Controller.Queued;
    Controller.StepKeepsOrder(c, Controller.Push(m));
    SequencesAppend(c.accepted, [m]);
    assert Sequences(c.accepted) + [] == Sequences(c.accepted);
  }

  lemma SequencesOfOne(m: Msg)
    ensures Sequences([m]) == OneSequence(m)
  {
  }

  lemma EnvAccepts(c: Controller.State, a: Controller.Action)
    requires Controller.InOrder(c) && !(a.Push? && a.msg.SetClipboard?)
    ensures var r := Controller.Step(c, a);
            && Controller.InOrder(r) && c.sent <= r.sent
            && Sequences(r.accepted) == Sequences(c.accepted)
  {
    hide Sequences, Controller.Queued;
    Controller.StepKeepsOrder(c, a);
    if a.Push? && !a.msg.ResizeDisplay? {
      PushAccepts(c, a.msg);
      SequencesOfOne(a.msg);
      assert Sequences(c.accepted) + [] == Sequences(c.accepted);
    }
  }

  lemma IncreasingSnoc(s: seq<nat>, n: nat)
    requires Increasing(s) && forall x | x in s :: x < n
    ensures Increasing(s + [n])
  {
    forall i | 0 <= i < |s|
      ensures s[i] < n
    {
      assert s[i] in s;
    }
  }

  lemma PushAcksNothing(a: AoaHid.State, e: AoaHid.Event)
    ensures var r := AoaHid.PushStep(a, e);
            r.acks == a.acks && r.thread == a.thread && (forall x | x in r.accepted :: x in a.accepted || x == e)
  {
  }

  lemma SyncKeeps(s: State, text: seq<Byte>)
    requires Inv(s)
    ensures Inv(SyncStep(s, text))
  {
    hide Sequences, Controller.InOrder, AoaHid.OneFate, Controller.PushStep;
    if s.next < 0x1_0000_0000_0000_0000 {
      var m := ControlMsg.SetClipboard(s.next, false, text);
      PushAccepts(s.ctl, m);
      SequencesOfOne(m);
      if Controller.Accepts(s.ctl, m) {
        assert Sequences(SyncStep(s, text).ctl.accepted) == Sequences(s.ctl.accepted) + [s.next];
        IncreasingSnoc(Sequences(s.ctl.accepted), s.next);
      }
    }
  }

  lemma OtherPushesKeep(s: State, a: Action)
    requires Inv(s) && (a.PushAoa? || a.PushClipboard? || a.Env?)
    ensures Inv(Step(s, a))
  {
    hide Sequences, Controller.InOrder, AoaHid.OneFate, Controller.PushStep, Controller.Step;
    match a
    case PushAoa(e) =>
      AoaHid.PushKeeps(s.aoa, e);
      PushAcksNothing(s.aoa, e);
    case PushClipboard(paste, text) =>
      var m := ControlMsg.SetClipboard(SEQUENCE_INVALID, paste, text);
      PushAccepts(s.ctl, m);
      SequencesOfOne(m);
    case Env(c) =>
      if !(c.Push? && c.msg.SetClipboard?) {
        EnvAccepts(s.ctl, c);
        var sent := Controller.Step(s.ctl, c).sent;
        assert sent[..s.handled] == s.ctl.sent[..s.handled];
      }
  }

  lemma DeviceKeeps(s: State, ok: bool)
    requires Inv(s)
    ensures Inv(DeviceStepOf(s, ok))
  {
    hide Applied, OneSequence, ReceivedText, Controller.InOrder, AoaHid.OneFate, EffectsOf, EffectsInv;
    if s.owed == [] && s.handled < |s.ctl.sent| {
      hide DeviceInv;
      HandlingKeepsDevice(s, ok);
      AppliedGrows(s.ctl.sent, s.handled);
    }
  }

  lemma CopyKeeps(s: State, text: Text)
    requires Inv(s)
    ensures Inv(Step(s, DeviceCopy(text)))
  {
    hide Sequences, Controller.InOrder, AoaHid.OneFate, DeviceInv;
    CopyingKeepsDevice(s, text);
  }

  lemma TakenIgnoresAcks(a: AoaHid.State, acks: AoaHid.Acks)
    ensures AoaHid.Taken(a.(acks := acks)) == AoaHid.Taken(a)
  {
  }

  lemma ReceiverKeeps(s: State)
    requires Inv(s)
    ensures Inv(ReceiverStepOf(s))
  {
    hide Sequences, Controller.InOrder, AoaHid.Taken;
    if s.channel != [] {
      AppliedIsPrefix(s);
      var applied := Applied(s.ctl.sent, s.handled);
      var n := |s.received|;
      assert applied[n] == s.channel[0];
      if n > 0 {
        assert applied[n - 1] == Last(s.received);
      }
      assert s.received + s.channel + s.owed == (s.received + [s.channel[0]]) + s.channel[1..] + s.owed;
      TakenIgnoresAcks(s.aoa, s.aoa.acks.(ack := s.channel[0]));
    }
  }

  /** A sequence at most the last one acknowledged has been applied. */
  lemma AckedIsApplied(s: State, n: nat)
    requires PushInv(s) && AckInv(s)
    requires n in Sequences(s.ctl.accepted) && n <= s.aoa.acks.ack
    ensures n in Applied(s.ctl.sent, s.handled)
  {
    hide Sequences, Controller.InOrder;
    AppliedIsPrefix(s);
    var all, applied := Sequences(s.ctl.accepted), Applied(s.ctl.sent, s.handled);
    var i :| 0 <= i < |all| && all[i] == n;
    var last := |s.received| - 1;
    assert last >= 0 && applied[last] == s.aoa.acks.ack == all[last];
  }

  lemma AoaKeeps(s: State, deadline: bool, ok: bool)
    requires Inv(s)
    ensures Inv(AoaThreadStep(s, deadline, ok))
  {
    hide Sequences, Controller.InOrder, Applied;
    AoaHid.ThreadKeeps(s.aoa, deadline, ok);
    AoaKeepsAcks(s.aoa, deadline, ok);
    var t := s.aoa.thread;
    if t.Handling? && t.event.Input? && t.event.ackToWait != 0 {
      assert t.event in s.aoa.accepted by {
        assert t.event == Last(AoaHid.Taken(s.aoa));
      }
      AckedIsApplied(s, t.event.ackToWait);
    }
  }

  lemma AoaKeepsAcks(a: AoaHid.State, deadline: bool, ok: bool)
    ensures var r := AoaHid.ThreadStep(a, deadline, ok);
            r.acks == a.acks && r.accepted == a.accepted
  {
    hide AoaHid.Without;
  }

  lemma StepKeeps(s: State, a: Action)
    requires Inv(s)
    ensures Inv(Step(s, a))
  {
    hide SyncStep, DeviceStepOf, ReceiverStepOf, AoaThreadStep, Sequences, Controller.InOrder;
    match a
    case SyncClipboard(text) => SyncKeeps(s, text);
    case DeviceStep(ok) => DeviceKeeps(s, ok);
    case DeviceCopy(text) => CopyKeeps(s, text);
    case ReceiverStep => ReceiverKeeps(s);
    case AoaThread(deadline, ok) => AoaKeeps(s, deadline, ok);
    case StopAoa => StopKeeps(s, a);
    case InterruptAcks => StopKeeps(s, a);
    case _ => OtherPushesKeep(s, a);
  }

  lemma StopKeeps(s: State, a: Action)
    requires Inv(s) && (a.StopAoa? || a.InterruptAcks?)
    ensures Inv(Step(s, a))
  {
    hide Sequences, Controller.InOrder;
    assert AoaHid.Taken(Step(s, a).aoa) == AoaHid.Taken(s.aoa);
  }

  lemma {:induction false} RunKeeps(actions: seq<Action>)
    ensures Inv(Run(actions))
  {
    if actions != [] {
      hide Step, Inv;
      RunKeeps(DropLast(actions));
      StepKeeps(Run(DropLast(actions)), Last(actions));
    }
  }

  /** A key that waits for sequence n is sent only once the device has handled the clipboard of sequence n. */
  lemma {:induction false} KeyFollowsClipboard(actions: seq<Action>, i: nat)
    ensures var usb := Run(actions).usb;
            i < |usb| && usb[i].ackToWait != 0 ==> usb[i].ackToWait in usb[i].applied
  {
    hide Run;
    RunKeeps(actions);
  }

  /** Each sequence is handled once. */
  lemma EffectIsUnique(effects: seq<Effect>, e: Effect, f: Effect)
    requires Increasing(SequencesOf(effects))
    requires e in effects && f in effects && e.sequence == f.sequence
    ensures e == f
  {
    var j :| 0 <= j < |effects| && effects[j] == e;
    var k :| 0 <= k < |effects| && effects[k] == f;
    assert SequencesOf(effects)[j] == SequencesOf(effects)[k];
  }

  /**
   * What a key that waits for sequence n pastes. The message of n was handled before, once; its text
   * came to be in the clipboard if and only if a clipboard manager could set it or it was there
   * already. Unless a later text has replaced it, that is the clipboard when the key is sent.
   */
  lemma {:induction false} KeyPastesIff(actions: seq<Action>, i: nat) returns (e: Effect)
    requires i < |Run(actions).usb| && Run(actions).usb[i].ackToWait != 0
    ensures var s, u := Run(actions), Run(actions).usb[i];
            && e in u.effects && e.sequence == u.ackToWait
            && (forall f | f in s.effects && f.sequence == u.ackToWait :: f == e)
            && e.index < |s.ctl.sent| && s.ctl.sent[e.index].SetClipboard?
            && s.ctl.sent[e.index].sequence == u.ackToWait && e.text == ReceivedText(s.ctl.sent[e.index])
            && e.after <= u.clipboards
            && (Holds(e.after, e.text) <==> e.ok || Holds(e.before, e.text))
            && (u.clipboards == e.after ==> (Holds(u.clipboards, e.text) <==> e.ok || Holds(e.before, e.text)))
  {
    hide Run, Sequences, Controller.InOrder, AoaHid.OneFate, ReceivedText, Holds;
    RunKeeps(actions);
    var s := Run(actions);
    var u := s.usb[i];
    var k :| 0 <= k < |u.applied| && u.applied[k] == u.ackToWait;
    e := u.effects[k];
    assert SequencesOf(u.effects)[k] == e.sequence;
    AppliedIsPrefix(s);
    forall f | f in s.effects && f.sequence == u.ackToWait
      ensures f == e
    {
      EffectIsUnique(s.effects, e, f);
    }
  }

  lemma RunSnoc(actions: seq<Action>, a: Action)
    ensures Run(actions + [a]) == Step(Run(actions), a)
  {
    assert DropLast(actions + [a]) == actions;
  }

  // ---------------------------------------------------------------- which text a sequence stands for

  /** Each sequence belongs to one message. */
  lemma {:induction false} OneMessagePerSequence(ms: seq<Msg>, m: Msg, k: Msg)
    requires Increasing(Sequences(ms)) && m in ms && k in ms
    requires m.SetClipboard? && k.SetClipboard? && m.sequence == k.sequence != SEQUENCE_INVALID
    ensures m == k
  {
    var before := DropLast(ms);
    assert ms == before + [Last(ms)];
    if m != k {
      InSequences(before);
      LastIsNew(ms);
      OneMessagePerSequence(before, m, k);
    }
  }

  lemma LastIsNew(ms: seq<Msg>)
    requires Increasing(Sequences(ms)) && ms != []
    ensures Increasing(Sequences(DropLast(ms)))
    ensures Last(ms).SetClipboard? && Last(ms).sequence != SEQUENCE_INVALID ==> Last(ms).sequence !in Sequences(DropLast(ms))
  {
    var all, before := Sequences(ms), Sequences(DropLast(ms));
    assert forall i | 0 <= i < |before| :: all[i] == before[i];
    if Last(ms).SetClipboard? && Last(ms).sequence != SEQUENCE_INVALID {
      assert all[|before|] == Last(ms).sequence;
    }
  }

  lemma {:induction false} InSequences(ms: seq<Msg>)
    ensures forall m | m in ms && m.SetClipboard? && m.sequence != SEQUENCE_INVALID :: m.sequence in Sequences(ms)
  {
    if ms != [] {
      InSequences(DropLast(ms));
      assert ms == DropLast(ms) + [Last(ms)];
    }
  }

  lemma SentIsAccepted(c: Controller.State, i: nat)
    requires Controller.InOrder(c) && i < |c.sent| && !c.sent[i].ResizeDisplay?
    ensures c.sent[i] in c.accepted
  {
    hide Controller.Queued;
    assert Controller.Taken(c)[i] == c.sent[i];
    Controller.QueuedHas(Controller.Taken(c), c.sent[i]);
  }

  lemma StepKeepsAccepted(s: State, a: Action)
    ensures s.ctl.accepted <= Step(s, a).ctl.accepted
  {
    hide AoaHid.ThreadStep, AoaHid.PushStep, EffectsOf, ClipboardsAfter;
  }

  lemma {:induction false} RunKeepsAccepted(actions: seq<Action>, more: seq<Action>)
    ensures Run(actions).ctl.accepted <= Run(actions + more).ctl.accepted
  {
    if more == [] {
      assert actions + more == actions;
    } else {
      hide Step, Run;
      RunKeepsAccepted(actions, DropLast(more));
      assert actions + more == actions + DropLast(more) + [Last(more)];
      RunSnoc(actions + DropLast(more), Last(more));
      StepKeepsAccepted(Run(actions + DropLast(more)), Last(more));
    }
  }

  /** What becomes of sequence n, whatever follows, is what becomes of the text that was synchronized with it. */
  lemma {:induction false} SequenceStandsForText(actions: seq<Action>, text: Text, more: seq<Action>, e: Effect)
    requires Run(actions + [SyncClipboard(text)]).next > Run(actions).next
    requires e in Run(actions + [SyncClipboard(text)] + more).effects && e.sequence == Run(actions).next
    ensures e.text == ReceivedText(ControlMsg.SetClipboard(Run(actions).next, false, text))
  {
    hide Run, Sequences, Controller.InOrder, AoaHid.OneFate, ReceivedText, Holds;
    var synced := actions + [SyncClipboard(text)];
    var n := Run(actions).next;
    RunKeeps(actions);
    RunSnoc(actions, SyncClipboard(text));
    var m := ControlMsg.SetClipboard(n, false, text);
    assert m in Run(synced).ctl.accepted;
    RunKeepsAccepted(synced, more);
    RunKeeps(synced + more);
    var s := Run(synced + more);
    SentIsAccepted(s.ctl, e.index);
    OneMessagePerSequence(s.ctl.accepted, m, s.ctl.sent[e.index]);
  }

  lemma RunOfOne(a: Action)
    ensures Run([a]) == Step(Init(), a)
  {
    assert DropLast([a]) == [];
  }

  lemma RequestSteps(text: Text)
    requires |text| <= ControlMsg.CLIPBOARD_TEXT_MAX_LENGTH
    ensures var m, key := ControlMsg.SetClipboard(1, false, text), AoaHid.Input(1, 1);
            var send := Env(Controller.ThreadStep(true, true));
            Step(Step(Step(Step(Init(), SyncClipboard(text)), PushAoa(key)), send), send) == Init().(
              next := 2,
              ctl := Controller.Init().(accepted := [m], sent := [m]),
              aoa := AoaHid.Init().(queue := [key], accepted := [key]))
  {
    var m, key := ControlMsg.SetClipboard(1, false, text), AoaHid.Input(1, 1);
    var a := Step(Init(), SyncClipboard(text));
    assert a == Init().(next := 2, ctl := Controller.Init().(queue := [m], accepted := [m]));
    var b := Step(a, PushAoa(key));
    assert b == a.(aoa := AoaHid.Init().(queue := [key], accepted := [key]));
  }

  /** The client requests the clipboard, pushes the key that waits for it, and sends the request. */
  lemma RequestExample(text: Text) returns (actions: seq<Action>)
    requires |text| <= ControlMsg.CLIPBOARD_TEXT_MAX_LENGTH
    ensures var m, key := ControlMsg.SetClipboard(1, false, text), AoaHid.Input(1, 1);
            Run(actions) == Init().(
              next := 2,
              ctl := Controller.Init().(accepted := [m], sent := [m]),
              aoa := AoaHid.Init().(queue := [key], accepted := [key]))
  {
    hide Run;
    var key, send := AoaHid.Input(1, 1), Env(Controller.ThreadStep(true, true));
    var request := [SyncClipboard(text)];
    RunOfOne(SyncClipboard(text));
    RunSnoc(request, PushAoa(key));
    RunSnoc(request + [PushAoa(key)], send);
    RunSnoc(request + [PushAoa(key)] + [send], send);
    actions := request + [PushAoa(key)] + [send] + [send];
    RequestSteps(text);
  }

  /** The device has no clipboard manager: it acknowledges the request, and the key is sent, but nothing was set. */
  lemma FailedSettingExample(text: Text) returns (actions: seq<Action>)
    requires |text| <= ControlMsg.CLIPBOARD_TEXT_MAX_LENGTH
    ensures |Run(actions).usb| == 1
    ensures var u := Run(actions).usb[0];
            u.ackToWait == 1 && 1 in u.applied && u.clipboards == []
  {
    actions := RequestExample(text);
    var requested := Run(actions);
    var handled := HandleMessage(requested, false);
    var acked := ReceiverStepOf(DeviceStepOf(handled, false));
    RunSnoc(actions, DeviceStep(false));
    actions := actions + [DeviceStep(false)];
    assert Run(actions) == handled;
    RunSnoc(actions, DeviceStep(false));
    actions := actions + [DeviceStep(false)];
    RunSnoc(actions, ReceiverStep);
    actions := actions + [ReceiverStep];
    assert Run(actions) == acked;
    AckedKeyIsSent(actions, 1, 1);
    actions := actions + [AoaThread(false, true), AoaThread(false, true), AoaThread(false, true)];
  }

  lemma AckedKeyIsSent(actions: seq<Action>, hidId: U16, n: nat)
    requires var s, key := Run(actions), AoaHid.Input(hidId, n);
             n != 0 && s.aoa == AoaHid.Init().(queue := [key], accepted := [key], acks := AoaHid.Acks(n, false))
    ensures var s, step := Run(actions), AoaThread(false, true);
            Run(actions + [step, step, step]).usb
              == s.usb + [UsbSend(n, Applied(s.ctl.sent, s.handled), s.effects, s.clipboards)]
  {
    hide Run, Applied;
    var step := AoaThread(false, true);
    RunSnoc(actions, step);
    RunSnoc(actions + [step], step);
    RunSnoc(actions + [step] + [step], step);
    assert actions + [step, step, step] == actions + [step] + [step] + [step];
  }

  /** The acknowledgements received never decrease, which the receiver asserts. */
  lemma {:induction false} AcksAreMonotonic(actions: seq<Action>)
    ensures var s := Run(actions);
            !s.assertFailed && Increasing(s.received)
  {
    hide Run, Sequences, Controller.InOrder;
    RunKeeps(actions);
    var s := Run(actions);
    AppliedIsPrefix(s);
    assert s.received <= Applied(s.ctl.sent, s.handled);
  }

  /** Every event has one fate at most: an event that timed out or was interrupted is never sent. */
  lemma {:induction false} EveryEventHasOneFate(actions: seq<Action>)
    ensures AoaHid.OneFate(Run(actions).aoa)
  {
    hide Run;
    RunKeeps(actions);
  }

  // ---------------------------------------------------------------- the AOA thread

  /** What a step does to the AOA thread. */
  function AoaAction(s: State, a: Action): seq<AoaWakeups.Action> {
    match a
    case PushAoa(e) => if e.Input? && e.ackToWait >= s.next then [] else [AoaWakeups.Push(e)]
    case ReceiverStep => if s.channel == [] then [] else [AoaWakeups.Acknowledge(s.channel[0])]
    case AoaThread(deadline, ok) => [AoaWakeups.Thread(deadline, ok)]
    case StopAoa => [AoaWakeups.Stop]
    case InterruptAcks => [AoaWakeups.InterruptAcks]
    case _ => []
  }

  function AoaActions(actions: seq<Action>): seq<AoaWakeups.Action> {
    if actions == [] then []
    else AoaActions(DropLast(actions)) + AoaAction(Run(DropLast(actions)), Last(actions))
  }

  lemma StepOfAoa(s: State, a: Action)
    ensures var b := AoaAction(s, a);
            Step(s, a).aoa == if b == [] then s.aoa else AoaWakeups.Step(s.aoa, b[0])
  {
    hide AoaHid.ThreadStep, AoaHid.PushStep, Controller.PushStep, Controller.Step, EffectsOf, ClipboardsAfter;
  }

  lemma AoaGoesOn(before: seq<AoaWakeups.Action>, b: seq<AoaWakeups.Action>)
    requires |b| <= 1
    ensures AoaWakeups.Run(before + b)
         == if b == [] then AoaWakeups.Run(before) else AoaWakeups.Step(AoaWakeups.Run(before), b[0])
  {
    hide AoaWakeups.Run, AoaWakeups.Step;
    if b == [] {
      assert before + b == before;
    } else {
      AoaWakeups.RunSnoc(before, b[0]);
      assert b == [b[0]];
    }
  }

  /** The AOA thread behaves as in AoaWakeups: what is proved there of every run holds here. */
  lemma {:induction false} AoaRuns(actions: seq<Action>)
    ensures Run(actions).aoa == AoaWakeups.Run(AoaActions(actions))
  {
    if actions != [] {
      hide Step, AoaAction, AoaWakeups.Step, AoaWakeups.Run;
      var before := DropLast(actions);
      AoaRuns(before);
      StepOfAoa(Run(before), Last(actions));
      AtMostOne(Run(before), Last(actions));
      AoaGoesOn(AoaActions(before), AoaAction(Run(before), Last(actions)));
    }
  }

  lemma AtMostOne(s: State, a: Action)
    ensures |AoaAction(s, a)| <= 1
  {
  }

  /** In particular, the thread ends only when it is asked to. */
  lemma {:induction false} AoaEndsOnlyIfAsked(actions: seq<Action>)
    ensures AoaHid.EndsIfAsked(Run(actions).aoa)
  {
    hide Run, AoaHid.EndsIfAsked;
    AoaRuns(actions);
    AoaWakeups.EndsOnlyIfAsked(AoaActions(actions));
  }
}
