/** The slots of the virtual gamepads and their HID reports (app/src/hid/hid_gamepad.c). */
module HidGamepad {
  import opened Common
  import opened Binary
  import opened HidDescriptor

  const MAX_GAMEPADS := 8
  const HID_ID_FIRST: U16 := 3
  const ID_INVALID: U32 := 0

  // The items of SC_HID_GAMEPAD_REPORT_DESC

  function CollectionItems(): seq<seq<Byte>> {
    [[0x05, 0x01], [0x09, 0x05], [0xa1, 0x01], [0xa1, 0x00]]
  }

  function StickUsages(): seq<seq<Byte>> {
    [[0x05, 0x01], [0x09, 0x30], [0x09, 0x31], [0x09, 0x33], [0x09, 0x34]]
  }

  function StickFormat(): seq<seq<Byte>> {
    [[0x15, 0x00], [0x27, 0xff, 0xff, 0x00, 0x00], [0x75, 0x10], [0x95, 0x04], [0x81, 0x02]]
  }

  function TriggerUsages(): seq<seq<Byte>> {
    [[0x05, 0x01], [0x09, 0x32], [0x09, 0x35]]
  }

  function TriggerFormat(): seq<seq<Byte>> {
    [[0x15, 0x00], [0x26, 0xff, 0x7f], [0x75, 0x10], [0x95, 0x02], [0x81, 0x02]]
  }

  function ButtonUsages(): seq<seq<Byte>> {
    [[0x05, 0x09], [0x19, 0x01], [0x29, 0x10]]
  }

  function ButtonFormat(): seq<seq<Byte>> {
    [[0x15, 0x00], [0x25, 0x01], [0x95, 0x10], [0x75, 0x01], [0x81, 0x02]]
  }

  function HatUsages(): seq<seq<Byte>> {
    [[0x05, 0x01], [0x09, 0x39]]
  }

  function HatFormat(): seq<seq<Byte>> {
    [[0x15, 0x01], [0x25, 0x08], [0x75, 0x04], [0x95, 0x01], [0x81, 0x42]]
  }

  function EndItems(): seq<seq<Byte>> {
    [[0xc0], [0xc0]]
  }

  function ReportItems(): seq<seq<Byte>> {
    CollectionItems() + (StickUsages() + StickFormat()) + (TriggerUsages() + TriggerFormat())
    + (ButtonUsages() + ButtonFormat()) + (HatUsages() + HatFormat()) + EndItems()
  }

  const REPORT_DESC: seq<Byte> := Flatten(ReportItems())

  datatype Slot = Slot(
    gamepadId: U32,
    buttons: bv32,
    leftX: U16,
    leftY: U16,
    rightX: U16,
    rightY: U16,
    leftTrigger: U16,
    rightTrigger: U16
  )

  datatype Axis = LeftX | LeftY | RightX | RightY | LeftTrigger | RightTrigger | UnknownAxis

  datatype Button =
    | South | East | West | North | Back | Guide | Start | LeftStick | RightStick | LeftShoulder | RightShoulder
    | DpadUp | DpadDown | DpadLeft | DpadRight | UnknownButton

  const DPAD_UP: bv32 := 0x10000
  const DPAD_DOWN: bv32 := 0x20000
  const DPAD_LEFT: bv32 := 0x40000
  const DPAD_RIGHT: bv32 := 0x80000

  function ButtonBit(b: Button): bv32 {
    match b
    case South => 0x0001
    case East => 0x0002
    case West => 0x0008
    case North => 0x0010
    case Back => 0x0400
    case Guide => 0x1000
    case Start => 0x0800
    case LeftStick => 0x2000
    case RightStick => 0x4000
    case LeftShoulder => 0x0040
    case RightShoulder => 0x0080
    case DpadUp => DPAD_UP
    case DpadDown => DPAD_DOWN
    case DpadLeft => DPAD_LEFT
    case DpadRight => DPAD_RIGHT
    case UnknownButton => 0
  }

  /** From [-32768, 32767] to [0, 65535]. */
  function Rescale(v: I16): U16 {
    v + 0x8000
  }

  function InitSlot(id: U32): Slot {
    Slot(id, 0, Rescale(0), Rescale(0), Rescale(0), Rescale(0), 0, 0)
  }

  /** The position of the hat switch: 0 at rest, then clockwise from the top. */
  function DpadValue(buttons: bv32): Byte {
    HatValue(buttons & DPAD_UP != 0, buttons & DPAD_DOWN != 0, buttons & DPAD_LEFT != 0, buttons & DPAD_RIGHT != 0)
  }

  function HatValue(up: bool, down: bool, left: bool, right: bool): Byte {
    if up then (if left then 8 else if right then 2 else 1)
    else if down then (if left then 6 else if right then 4 else 5)
    else if left then 7
    else if right then 3
    else 0
  }

  function Lo(v: U16): Byte {
    v % 0x100
  }

  function Hi(v: U16): Byte {
    v / 0x100
  }

  /** SC_HID_BUTTONS_MASK */
  function Masked(buttons: bv32): bv32 {
    buttons & 0xFFFF
  }

  predicate HasBit(buttons: bv32, bit: bv32) {
    buttons & bit != 0
  }

  /** The buttons that are reported apart from the hat switch. */
  function PlainButtons(buttons: bv32): U16 {
    Masked(buttons) as int
  }

  /** Little-endian integers. */
  function Words(a: U16, b: U16, c: U16, d: U16, e: U16, f: U16, g: U16): (r: seq<Byte>)
    ensures |r| == 14
  {
    [Lo(a), Hi(a), Lo(b), Hi(b), Lo(c), Hi(c), Lo(d), Hi(d), Lo(e), Hi(e), Lo(f), Hi(f), Lo(g), Hi(g)]
  }

  /** The 15 bytes of a report. */
  function Report(s: Slot): (r: seq<Byte>)
    ensures |r| == 15
  {
    Words(s.leftX, s.leftY, s.rightX, s.rightY, s.leftTrigger, s.rightTrigger, PlainButtons(s.buttons))
    + [DpadValue(s.buttons)]
  }

  function WithAxis(s: Slot, axis: Axis, value: I16): Slot {
    match axis
    case LeftX => s.(leftX := Rescale(value))
    case LeftY => s.(leftY := Rescale(value))
    case RightX => s.(rightX := Rescale(value))
    case RightY => s.(rightY := Rescale(value))
    case LeftTrigger => s.(leftTrigger := Max(0, value))
    case RightTrigger => s.(rightTrigger := Max(0, value))
    case UnknownAxis => s
  }

  function WithButton(s: Slot, b: Button, down: bool): Slot {
    s.(buttons := if down then s.buttons | ButtonBit(b) else s.buttons & !ButtonBit(b))
  }

  // ---------------------------------------------------------------- what the report descriptor says

  const STICKS := Block(1, [0x30, 0x31, 0x33, 0x34], 0xffff, 16, 0)
  const TRIGGERS := Block(1, [0x32, 0x35], 0x7fff, 16, 64)
  const BUTTONS := Block(9, Range(1, 16), 1, 1, 96)
  const HAT := Block(1, [0x39], 8, 4, 112)
  const LAYOUT: seq<Block> := [STICKS, TRIGGERS, BUTTONS, HAT]

  /** What has been read after a block, whatever the values of the items for the next one. */
  predicate HasRead(p: Parser, blocks: seq<Block>, offset: nat) {
    p.blocks == blocks && p.offset == offset && p.usages == []
  }

  lemma SticksAre(p: Parser)
    requires HasRead(p, [], 0)
    ensures AreItems(StickUsages() + StickFormat())
    ensures HasRead(InterpretAll(p, StickUsages() + StickFormat()), [STICKS], 64)
  {
    hide IsItem, Interpret, InterpretAll, Range;
    StickUsagesAre(p);
    StickMaximumIs();
    FormatIs(p.(page := 1, usages := STICKS.usages), 0x00, [0x27, 0xff, 0xff, 0x00, 0x00], 0x75, 0x10, 0x95, 0x04, 0x02);
    hide Data;
    InterpretAppend(p, StickUsages(), StickFormat());
  }

  lemma StickMaximumIs()
    ensures IsItem([0x27, 0xff, 0xff, 0x00, 0x00]) && Data([0x27, 0xff, 0xff, 0x00, 0x00]) == 0xffff
  {
  }

  lemma StickUsagesAre(p: Parser)
    requires p.usages == []
    ensures AreItems(StickUsages()) && InterpretAll(p, StickUsages()) == p.(page := 1, usages := STICKS.usages)
  {
    hide IsItem, Interpret;
    var items, more := [[0x05, 0x01], [0x09, 0x30], [0x09, 0x31]], [[0x09, 0x33], [0x09, 0x34]];
    TwoUsages(p, 0x01, 0x30, 0x31);
    var q := p.(page := 1, usages := [0x30, 0x31]);
    Short(q, 0x09, 0x33);
    Short(q.(usages := [0x30, 0x31, 0x33]), 0x09, 0x34);
    assert [0x30, 0x31] + [0x33] == [0x30, 0x31, 0x33] && [0x30, 0x31, 0x33] + [0x34] == STICKS.usages;
    InterpretTwo(q, [0x09, 0x33], [0x09, 0x34]);
    InterpretAppend(p, items, more);
    assert StickUsages() == items + more;
  }

  lemma TriggersAre(p: Parser)
    requires HasRead(p, [STICKS], 64)
    ensures AreItems(TriggerUsages() + TriggerFormat())
    ensures HasRead(InterpretAll(p, TriggerUsages() + TriggerFormat()), [STICKS, TRIGGERS], 96)
  {
    hide IsItem, Interpret, InterpretAll, Range;
    TwoUsages(p, 0x01, 0x32, 0x35);
    TriggerMaximumIs();
    FormatIs(p.(page := 1, usages := TRIGGERS.usages), 0x00, [0x26, 0xff, 0x7f], 0x75, 0x10, 0x95, 0x02, 0x02);
    hide Data;
    InterpretAppend(p, TriggerUsages(), TriggerFormat());
  }

  lemma TriggerMaximumIs()
    ensures IsItem([0x26, 0xff, 0x7f]) && Data([0x26, 0xff, 0x7f]) == 0x7fff
  {
  }

  lemma ButtonsAre(p: Parser)
    requires HasRead(p, [STICKS, TRIGGERS], 96)
    ensures AreItems(ButtonUsages() + ButtonFormat())
    ensures HasRead(InterpretAll(p, ButtonUsages() + ButtonFormat()), [STICKS, TRIGGERS, BUTTONS], 112)
  {
    hide IsItem, Interpret, InterpretAll, Range;
    UsageRange(p, 0x09, 0x01, 0x10);
    ButtonMaximumIs();
    FormatIs(p.(page := 9, first := 1, usages := BUTTONS.usages), 0x00, [0x25, 0x01], 0x95, 0x10, 0x75, 0x01, 0x02);
    hide Data;
    InterpretAppend(p, ButtonUsages(), ButtonFormat());
  }

  lemma ButtonMaximumIs()
    ensures IsItem([0x25, 0x01]) && Data([0x25, 0x01]) == 1
  {
  }

  lemma HatIs(p: Parser)
    requires HasRead(p, [STICKS, TRIGGERS, BUTTONS], 112)
    ensures AreItems(HatUsages() + HatFormat())
    ensures HasRead(InterpretAll(p, HatUsages() + HatFormat()), LAYOUT, 116)
  {
    hide IsItem, Interpret, InterpretAll, Range;
    OneUsage(p, 0x01, 0x39);
    HatMaximumIs();
    FormatIs(p.(page := 1, usages := HAT.usages), 0x01, [0x25, 0x08], 0x75, 0x04, 0x95, 0x01, 0x42);
    hide Data;
    InterpretAppend(p, HatUsages(), HatFormat());
  }

  lemma HatMaximumIs()
    ensures IsItem([0x25, 0x08]) && Data([0x25, 0x08]) == 8
  {
  }

  lemma CollectionIs()
    ensures AreItems(CollectionItems()) && HasRead(InterpretAll(START, CollectionItems()), [], 0)
  {
    hide IsItem, Interpret;
    var items, more := [[0x05, 0x01], [0x09, 0x05]], [[0xa1, 0x01], [0xa1, 0x00]];
    OneUsage(START, 0x01, 0x05);
    var p := START.(page := 1, usages := [5]);
    Short(p, 0xa1, 0x01);
    Short(p.(usages := []), 0xa1, 0x00);
    InterpretTwo(p, [0xa1, 0x01], [0xa1, 0x00]);
    InterpretAppend(START, items, more);
    assert CollectionItems() == items + more;
  }

  /** The descriptor declares four sticks, two triggers, sixteen buttons and a hat switch, in this order. */
  lemma DescriptorIs()
    ensures AreItems(ReportItems()) && InterpretAll(START, ReportItems()).blocks == LAYOUT
  {
    hide InterpretAll, AreItems, CollectionItems, StickUsages, StickFormat, TriggerUsages, TriggerFormat, ButtonUsages,
         ButtonFormat, HatUsages, HatFormat;
    CollectionIs();
    var sticks, triggers := StickUsages() + StickFormat(), TriggerUsages() + TriggerFormat();
    var buttons, hat := ButtonUsages() + ButtonFormat(), HatUsages() + HatFormat();
    var p := InterpretAll(START, CollectionItems());
    SticksAre(p);
    InterpretAppend(START, CollectionItems(), sticks);
    var q := InterpretAll(p, sticks);
    TriggersAre(q);
    InterpretAppend(START, CollectionItems() + sticks, triggers);
    var r := InterpretAll(q, triggers);
    ButtonsAre(r);
    InterpretAppend(START, CollectionItems() + sticks + triggers, buttons);
    var t := InterpretAll(r, buttons);
    HatIs(t);
    InterpretAppend(START, CollectionItems() + sticks + triggers + buttons, hat);
    EndIsNothing(InterpretAll(t, hat));
    InterpretAppend(START, CollectionItems() + sticks + triggers + buttons + hat, EndItems());
  }

  lemma DescriptorSize()
    ensures |REPORT_DESC| < 0x1_0000
  {
    hide InterpretAll, AreItems, Flatten;
    DescriptorIs();
    FlattenSize(ReportItems());
  }

  lemma EndIsNothing(p: Parser)
    ensures AreItems(EndItems()) && InterpretAll(p, EndItems()).blocks == p.blocks
  {
    InterpretTwo(p, [0xc0], [0xc0]);
  }

  datatype Reading = Reading(sticks: seq<U16>, triggers: seq<U16>, buttons: U16, hat: Byte)

  function ReadLe16(lo: Byte, hi: Byte): U16 {
    (hi as int) * 0x100 + lo
  }

  function ReadReport(r: seq<Byte>): Reading
    requires |r| == 15
  {
    Reading([ReadLe16(r[0], r[1]), ReadLe16(r[2], r[3]), ReadLe16(r[4], r[5]), ReadLe16(r[6], r[7])],
            [ReadLe16(r[8], r[9]), ReadLe16(r[10], r[11])], ReadLe16(r[12], r[13]), r[14])
  }

  lemma Le16RoundTrip(v: U16)
    ensures ReadLe16(Lo(v), Hi(v)) == v
  {
  }

  lemma ReadWords(a: U16, b: U16, c: U16, d: U16, e: U16, f: U16, g: U16, hat: Byte)
    ensures ReadReport(Words(a, b, c, d, e, f, g) + [hat]) == Reading([a, b, c, d], [e, f], g, hat)
  {
    hide Lo, Hi, ReadLe16;
    Le16RoundTrip(a);
    Le16RoundTrip(b);
    Le16RoundTrip(c);
    Le16RoundTrip(d);
    Le16RoundTrip(e);
    Le16RoundTrip(f);
    Le16RoundTrip(g);
  }

  /** The horizontal and vertical directions of a hat switch: 1 is right, or down. */
  function HatDirection(hat: Byte): (int, int) {
    match hat
    case 1 => (0, -1)
    case 2 => (1, -1)
    case 3 => (1, 0)
    case 4 => (1, 1)
    case 5 => (0, 1)
    case 6 => (-1, 1)
    case 7 => (-1, 0)
    case 8 => (-1, -1)
    case _ => (0, 0)
  }

  predicate IsPressed(s: Slot, b: Button) {
    HasBit(s.buttons, ButtonBit(b))
  }

  /** The device reads the state of the slot in its report; up wins over down, and left over right. */
  lemma ReportIsRead(s: Slot)
    ensures var r := ReadReport(Report(s));
            && r.sticks == [s.leftX, s.leftY, s.rightX, s.rightY]
            && r.triggers == [s.leftTrigger, s.rightTrigger]
            && r.buttons == PlainButtons(s.buttons)
            && HatDirection(r.hat) == (if IsPressed(s, DpadLeft) then -1 else if IsPressed(s, DpadRight) then 1 else 0,
                                       if IsPressed(s, DpadUp) then -1 else if IsPressed(s, DpadDown) then 1 else 0)
  {
    hide Words, ReadReport, PlainButtons, DpadValue, HatDirection, IsPressed;
    ReadWords(s.leftX, s.leftY, s.rightX, s.rightY, s.leftTrigger, s.rightTrigger, PlainButtons(s.buttons),
              DpadValue(s.buttons));
    DpadIsRead(s);
  }

  lemma DpadIsRead(s: Slot)
    ensures HatDirection(DpadValue(s.buttons))
         == (if IsPressed(s, DpadLeft) then -1 else if IsPressed(s, DpadRight) then 1 else 0,
             if IsPressed(s, DpadUp) then -1 else if IsPressed(s, DpadDown) then 1 else 0)
  {
    hide HatValue, HatDirection;
    HatIsRead(IsPressed(s, DpadUp), IsPressed(s, DpadDown), IsPressed(s, DpadLeft), IsPressed(s, DpadRight));
  }

  lemma HatIsRead(up: bool, down: bool, left: bool, right: bool)
    ensures HatDirection(HatValue(up, down, left, right))
         == (if left then -1 else if right then 1 else 0, if up then -1 else if down then 1 else 0)
  {
  }

  // ---------------------------------------------------------------- what the events change in the report

  const GENERIC_DESKTOP := 0x01
  const BUTTON_PAGE := 0x09

  /** X, Y, Rx, Ry, Z and Rz, as the device understands them. */
  function AxisUsage(axis: Axis): nat
    requires !axis.UnknownAxis?
  {
    match axis
    case LeftX => 0x30
    case LeftY => 0x31
    case RightX => 0x33
    case RightY => 0x34
    case LeftTrigger => 0x32
    case RightTrigger => 0x35
  }

  /** The value of a field of 16 bits, where the descriptor declares it. */
  function ReadUsage(r: seq<Byte>, usage: nat): Option<U16>
    requires |r| == 15
  {
    var offset := OffsetOf(LAYOUT, GENERIC_DESKTOP, usage);
    if offset.None? || offset.value % 8 != 0 || offset.value / 8 + 1 >= 15 then None
    else Some(ReadLe16(r[offset.value / 8], r[offset.value / 8 + 1]))
  }

  lemma AxisOffset(axis: Axis)
    requires !axis.UnknownAxis?
    ensures OffsetOf(LAYOUT, GENERIC_DESKTOP, AxisUsage(axis))
         == Some(match axis
                 case LeftX => 0
                 case LeftY => 16
                 case RightX => 32
                 case RightY => 48
                 case LeftTrigger => 64
                 case RightTrigger => 80)
  {
    assert LAYOUT[1..][0] == TRIGGERS;
  }

  function AxisField(s: Slot, axis: Axis): U16
    requires !axis.UnknownAxis?
  {
    match axis
    case LeftX => s.leftX
    case LeftY => s.leftY
    case RightX => s.rightX
    case RightY => s.rightY
    case LeftTrigger => s.leftTrigger
    case RightTrigger => s.rightTrigger
  }

  lemma AxisIsReported(s: Slot, axis: Axis)
    requires !axis.UnknownAxis?
    ensures ReadUsage(Report(s), AxisUsage(axis)) == Some(AxisField(s, axis))
  {
    hide OffsetOf, Report;
    AxisOffset(axis);
    ReportIsRead(s);
  }

  /**
   * An axis event changes that axis, and no other: the device reads v + 32768 for a stick, and the
   * positive part of v for a trigger, where the descriptor declares them. Buttons and hat switch stay.
   */
  lemma AxisEventIsRead(s: Slot, axis: Axis, v: I16, other: Axis)
    requires !other.UnknownAxis?
    ensures var r := Report(WithAxis(s, axis, v));
            && ReadUsage(r, AxisUsage(other))
                 == (if other != axis then ReadUsage(Report(s), AxisUsage(other))
                     else if axis.LeftTrigger? || axis.RightTrigger? then Some(if v > 0 then v else 0)
                     else Some(v + 32768))
            && ReadReport(r).buttons == ReadReport(Report(s)).buttons
            && ReadReport(r).hat == ReadReport(Report(s)).hat
  {
    hide ReadUsage, Report, DpadValue, PlainButtons;
    AxisIsReported(s, other);
    AxisIsReported(WithAxis(s, axis, v), other);
    ReportIsRead(s);
    ReportIsRead(WithAxis(s, axis, v));
    HatIsReported(s);
    HatIsReported(WithAxis(s, axis, v));
  }

  lemma HatIsReported(s: Slot)
    ensures ReadReport(Report(s)).hat == DpadValue(s.buttons)
  {
    hide ReadReport;
    ReadWords(s.leftX, s.leftY, s.rightX, s.rightY, s.leftTrigger, s.rightTrigger, PlainButtons(s.buttons),
              DpadValue(s.buttons));
  }

  /** A button event changes that button, and no other. */
  lemma WithButtonIsPressed(s: Slot, b: Button, down: bool, other: Button)
    ensures IsPressed(WithButton(s, b, down), other)
       <==> if other == b && b != UnknownButton then down else IsPressed(s, other)
  {
  }

  /** A gamepad that was just opened is at rest: sticks in the middle, triggers, buttons and hat switch released. */
  lemma OpenedIsAtRest(id: U32)
    ensures ReadReport(Report(InitSlot(id))) == Reading([32768, 32768, 32768, 32768], [0, 0], 0, 0)
  {
    hide ReadReport, Words;
    var s := InitSlot(id);
    ReadWords(s.leftX, s.leftY, s.rightX, s.rightY, s.leftTrigger, s.rightTrigger, PlainButtons(s.buttons), DpadValue(s.buttons));
  }

  /** The triggers are within the maximum that the descriptor declares. */
  predicate InRange(s: Slot) {
    s.leftTrigger <= TRIGGERS.max && s.rightTrigger <= TRIGGERS.max
  }

  lemma EventsKeepRange(s: Slot, axis: Axis, v: I16, b: Button, down: bool)
    requires InRange(s)
    ensures InRange(WithAxis(s, axis, v)) && InRange(WithButton(s, b, down))
  {
  }

  /** The number of a button that is not a direction of the hat switch. */
  function ButtonUsage(b: Button): Option<nat> {
    match b
    case South => Some(1)
    case East => Some(2)
    case West => Some(4)
    case North => Some(5)
    case LeftShoulder => Some(7)
    case RightShoulder => Some(8)
    case Back => Some(11)
    case Start => Some(12)
    case Guide => Some(13)
    case LeftStick => Some(14)
    case RightStick => Some(15)
    case _ => None
  }

  function Bits(v: U16): bv32 {
    v as bv32
  }

  function UsageBit(usage: nat): bv32
    requires 1 <= usage <= 16
  {
    (1 as bv32) << (usage - 1)
  }

  /** The device reads that this button is pressed: buttons have one bit each, from the number 1 on. */
  predicate ReadsPressed(r: seq<Byte>, usage: nat)
    requires |r| == 15 && 1 <= usage <= 16
  {
    HasBit(Bits(ReadReport(r).buttons), UsageBit(usage))
  }

  lemma BitOfUsage(b: Button)
    requires ButtonUsage(b).Some?
    ensures 1 <= ButtonUsage(b).value <= 16
    ensures UsageBit(ButtonUsage(b).value) == ButtonBit(b)
    ensures Masked(ButtonBit(b)) == ButtonBit(b)
  {
  }

  lemma SameBit(buttons: bv32, bit: bv32)
    requires Masked(bit) == bit
    ensures HasBit(Masked(buttons), bit) <==> HasBit(buttons, bit)
  {
  }

  lemma ButtonsAreReported(s: Slot)
    ensures ReadReport(Report(s)).buttons == PlainButtons(s.buttons)
  {
    hide HatDirection, IsPressed, PlainButtons;
    ReportIsRead(s);
  }

  lemma BitsOfPlainButtons(buttons: bv32)
    ensures Bits(PlainButtons(buttons)) == Masked(buttons)
  {
    hide Bits, Masked;
    BitsOf(PlainButtons(buttons), Masked(buttons));
  }

  lemma BitsOf(v: U16, x: bv32)
    requires v == x as int
    ensures Bits(v) == x
  {
  }

  lemma ButtonIsReported(s: Slot, b: Button)
    requires ButtonUsage(b).Some?
    ensures 1 <= ButtonUsage(b).value <= 16
    ensures ReadsPressed(Report(s), ButtonUsage(b).value) <==> IsPressed(s, b)
  {
    hide Report, ReadReport, Bits, Masked, HasBit, UsageBit, PlainButtons, ButtonBit, ButtonUsage;
    ButtonsAreReported(s);
    BitOfUsage(b);
    BitsOfPlainButtons(s.buttons);
    SameBit(s.buttons, ButtonBit(b));
  }

  /** A button event changes what the device reads of that button, and of no other; sticks and triggers stay. */
  lemma ButtonEventIsRead(s: Slot, b: Button, down: bool, other: Button)
    requires ButtonUsage(other).Some? && 1 <= ButtonUsage(other).value <= 16
    ensures var usage, r := ButtonUsage(other).value, Report(WithButton(s, b, down));
            && (ReadsPressed(r, usage) <==> if other == b then down else ReadsPressed(Report(s), usage))
            && ReadReport(r).sticks == ReadReport(Report(s)).sticks
            && ReadReport(r).triggers == ReadReport(Report(s)).triggers
  {
    hide Report, ReadsPressed, IsPressed, WithButton, ReadReport;
    var r := WithButton(s, b, down);
    assert r.leftX == s.leftX && r.leftY == s.leftY && r.rightX == s.rightX && r.rightY == s.rightY
        && r.leftTrigger == s.leftTrigger && r.rightTrigger == s.rightTrigger by { OnlyButtons(s, b, down); }
    ButtonIsReported(s, other);
    ButtonIsReported(r, other);
    WithButtonIsPressed(s, b, down, other);
    ReportIsRead(s);
    ReportIsRead(r);
  }

  lemma OnlyButtons(s: Slot, b: Button, down: bool)
    ensures var r := WithButton(s, b, down); r == s.(buttons := r.buttons)
  {
  }

  /** The first slot of a gamepad, or the number of slots if there is none. */
  function Find(slots: seq<Slot>, id: U32): (i: nat)
    ensures i <= |slots|
    ensures i < |slots| ==> slots[i].gamepadId == id
    ensures forall k | 0 <= k < i :: slots[k].gamepadId != id
  {
    if slots == [] then 0 else if slots[0].gamepadId == id then 0 else 1 + Find(slots[1..], id)
  }

  lemma {:induction false} FindIs(slots: seq<Slot>, id: U32, i: nat)
    requires i <= |slots| && (i < |slots| ==> slots[i].gamepadId == id)
    requires forall k | 0 <= k < i :: slots[k].gamepadId != id
    ensures Find(slots, id) == i
  {
    if i > 0 {
      FindIs(slots[1..], id, i - 1);
    }
  }

  function HidId(slot: nat): U16
    requires slot < MAX_GAMEPADS
  {
    HID_ID_FIRST + slot
  }

  class Gamepads {
    var slots: array<Slot>

    ghost predicate Valid()
      reads this
    {
      slots.Length == MAX_GAMEPADS
    }

    constructor ()
      ensures Valid() && fresh(slots)
      ensures forall i | 0 <= i < MAX_GAMEPADS :: slots[i] == InitSlot(ID_INVALID)
    {
      slots := new Slot[MAX_GAMEPADS](i => InitSlot(ID_INVALID));
    }

    /** sc_hid_gamepad_slot_find(), with MAX_GAMEPADS for "not found". */
    method SlotFind(id: U32) returns (i: nat)
      requires Valid()
      ensures i == Find(slots[..], id)
    {
      i := 0;
      while i < MAX_GAMEPADS
        invariant 0 <= i <= MAX_GAMEPADS
        invariant forall k | 0 <= k < i :: slots[k].gamepadId != id
      {
        if slots[i].gamepadId == id {
          FindIs(slots[..], id, i);
          return;
        }
        i := i + 1;
      }
      FindIs(slots[..], id, i);
    }

    method GenerateOpen(id: U32) returns (slot: nat)
      requires Valid() && id != ID_INVALID
      modifies slots
      ensures slot == Find(old(slots[..]), ID_INVALID)
      ensures slots[..] == if slot < MAX_GAMEPADS then old(slots[..])[slot := InitSlot(id)] else old(slots[..])
    {
      slot := SlotFind(ID_INVALID);
      if slot < MAX_GAMEPADS {
        slots[slot] := InitSlot(id);
      }
    }

    method GenerateClose(id: U32) returns (slot: nat)
      requires Valid() && id != ID_INVALID
      modifies slots
      ensures slot == Find(old(slots[..]), id)
      ensures slots[..] == if slot < MAX_GAMEPADS then old(slots[..])[slot := old(slots[..])[slot].(gamepadId := ID_INVALID)]
                           else old(slots[..])
    {
      slot := SlotFind(id);
      if slot < MAX_GAMEPADS {
        slots[slot] := slots[slot].(gamepadId := ID_INVALID);
      }
    }

    /** The slot whose report must be sent, or MAX_GAMEPADS. */
    method GenerateFromAxis(id: U32, axis: Axis, value: I16) returns (slot: nat)
      requires Valid()
      modifies slots
      ensures slot == if axis.UnknownAxis? then MAX_GAMEPADS else Find(old(slots[..]), id)
      ensures slots[..] == if slot < MAX_GAMEPADS then old(slots[..])[slot := WithAxis(old(slots[..])[slot], axis, value)]
                           else old(slots[..])
    {
      slot := SlotFind(id);
      if slot < MAX_GAMEPADS {
        if axis.UnknownAxis? {
          slot := MAX_GAMEPADS;
        } else {
          slots[slot] := WithAxis(slots[slot], axis, value);
        }
      }
    }

    method GenerateFromButton(id: U32, button: Button, down: bool) returns (slot: nat)
      requires Valid()
      modifies slots
      ensures slot == if button.UnknownButton? then MAX_GAMEPADS else Find(old(slots[..]), id)
      ensures slots[..] == if slot < MAX_GAMEPADS then old(slots[..])[slot := WithButton(old(slots[..])[slot], button, down)]
                           else old(slots[..])
    {
      slot := SlotFind(id);
      if slot < MAX_GAMEPADS {
        if button.UnknownButton? {
          slot := MAX_GAMEPADS;
        } else {
          slots[slot] := WithButton(slots[slot], button, down);
        }
      }
    }
  }
}
