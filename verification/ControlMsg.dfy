/**
 * The control messages and their serialization (app/src/control_msg.c). A float is a
 * real; a string is its bytes without the final zero.
 */
module ControlMsg {
  import opened Common
  import opened Memory
  import opened Binary
  import opened FixedPoint
  import opened Utf8

  const MAX_SIZE := 0x4_0000
  const INJECT_TEXT_MAX_LENGTH := 300
  const CLIPBOARD_TEXT_MAX_LENGTH := MAX_SIZE - 14
  const SCAN_FILE_PATH_MAX_LENGTH := 256
  const UHID_NAME_MAX_LENGTH := 127
  const APP_NAME_MAX_LENGTH := 255
  const HID_MAX_SIZE := 15

  type I32 = x: int | -0x8000_0000 <= x < 0x8000_0000 witness 0

  datatype Position = Position(x: I32, y: I32, width: U16, height: U16)

  datatype Msg =
    | InjectKeycode(action: Byte, keycode: U32, repeat: U32, metastate: U32)
    | InjectText(text: seq<Byte>)
    | InjectTouchEvent(action: Byte, pointerId: U64, position: Position, pressure: real, actionButton: U32, buttons: U32)
    | InjectScrollEvent(position: Position, hscroll: real, vscroll: real, buttons: U32)
    | BackOrScreenOn(action: Byte)
    | ExpandNotificationPanel
    | ExpandSettingsPanel
    | CollapsePanels
    | GetClipboard(copyKey: Byte)
    | SetClipboard(sequence: U64, paste: bool, text: seq<Byte>)
    | SetDisplayPower(on: bool)
    | RotateDevice
    | UhidCreate(id: U16, vendorId: U16, productId: U16, name: Option<seq<Byte>>, reportDesc: seq<Byte>)
    | UhidInput(id: U16, data: seq<Byte>)
    | UhidDestroy(id: U16)
    | OpenHardKeyboardSettings
    | StartApp(app: seq<Byte>)
    | ResetVideo
    | CameraSetTorch(on: bool)
    | CameraZoomIn
    | CameraZoomOut
    | ResizeDisplay(width: U16, height: U16)
    | ScanFile(path: seq<Byte>)

  /** Dropping the creation or the destruction of a HID device would make later messages invalid. */
  predicate IsDroppable(m: Msg) {
    !m.UhidCreate? && !m.UhidDestroy?
  }

  /** What the types of the C structure and its size constants impose. */
  predicate WellTyped(m: Msg) {
    && (m.UhidCreate? ==> |m.reportDesc| < 0x1_0000)
    && (m.UhidInput? ==> |m.data| <= HID_MAX_SIZE)
  }

  /** The messages for which no assert of the serializer fails, and no string is read before its start. */
  predicate Serializable(m: Msg) {
    match m
    case InjectText(text) => StopsInside(text, INJECT_TEXT_MAX_LENGTH)
    case InjectTouchEvent(_, _, _, pressure, _, _) => FitsU16(pressure)
    case InjectScrollEvent(_, hscroll, vscroll, _) => ScrollFits(hscroll) && ScrollFits(vscroll)
    case SetClipboard(_, _, text) => StopsInside(text, CLIPBOARD_TEXT_MAX_LENGTH)
    case UhidCreate(_, _, _, name, _) => name.Some? ==> StopsInside(name.value, UHID_NAME_MAX_LENGTH)
    case StartApp(app) => StopsInside(app, APP_NAME_MAX_LENGTH)
    case ScanFile(path) => StopsInside(path, SCAN_FILE_PATH_MAX_LENGTH)
    case _ => true
  }

  predicate Valid(m: Msg) {
    WellTyped(m) && Serializable(m)
  }

  /** The strings of a message are well formed, as those of SDL and of the command line are meant to be. */
  predicate HasUtf8(m: Msg) {
    match m
    case InjectText(text) => IsUtf8(text)
    case SetClipboard(_, _, text) => IsUtf8(text)
    case UhidCreate(_, _, _, name, _) => name.Some? ==> IsUtf8(name.value)
    case StartApp(app) => IsUtf8(app)
    case ScanFile(path) => IsUtf8(path)
    case _ => true
  }

  // ---------------------------------------------------------------- fields

  function U32OfI32(x: I32): U32 {
    if x < 0 then x + 0x1_0000_0000 else x
  }

  function I32OfU32(x: U32): I32 {
    if x >= 0x8000_0000 then x - 0x1_0000_0000 else x
  }

  function U16FixedPoint(f: real): U16
    requires FitsU16(f)
  {
    ToU16(f).value
  }

  function ScrollFixedPoint(scroll: real): I16
    requires ScrollFits(scroll)
  {
    ScrollFitsIff(scroll);
    ScrollToI16(scroll).value
  }

  function U16OfI16(x: I16): U16 {
    if x < 0 then x + 0x1_0000 else x
  }

  function I16OfU16(x: U16): I16 {
    if x >= 0x8000 then x - 0x1_0000 else x
  }

  /** A field of a message: an integer, or bytes preceded by their length on 1, 2 or 4 bytes. */
  datatype Field =
    | F8(byte: Byte)
    | F16(u16: U16)
    | F32(u32: U32)
    | F64(u64: U64)
    | S8(tiny: seq<Byte>)
    | S16(short: seq<Byte>)
    | S32(long: seq<Byte>)

  datatype Kind = K8 | K16 | K32 | K64 | KS8 | KS16 | KS32

  function KindOf(f: Field): Kind {
    match f
    case F8(_) => K8
    case F16(_) => K16
    case F32(_) => K32
    case F64(_) => K64
    case S8(_) => KS8
    case S16(_) => KS16
    case S32(_) => KS32
  }

  predicate FieldValid(f: Field) {
    && (f.S8? ==> |f.tiny| < 0x100)
    && (f.S16? ==> |f.short| < 0x1_0000)
    && (f.S32? ==> |f.long| < 0x1_0000_0000)
  }

  predicate FieldsValid(fs: seq<Field>) {
    forall i | 0 <= i < |fs| :: FieldValid(fs[i])
  }

  function EncodeField(f: Field): seq<Byte>
    requires FieldValid(f)
  {
    match f
    case F8(v) => [v]
    case F16(v) => Be16(v)
    case F32(v) => Be32(v)
    case F64(v) => Be64(v)
    case S8(s) => [|s|] + s
    case S16(s) => Be16(|s|) + s
    case S32(s) => Be32(|s|) + s
  }

  function EncodeFields(fs: seq<Field>): seq<Byte>
    requires FieldsValid(fs)
  {
    if fs == [] then [] else EncodeFields(DropLast(fs)) + EncodeField(Last(fs))
  }

  datatype Decoded<T> = Bad | Good(value: T, rest: seq<Byte>)

  function DecodeBytes(b: seq<Byte>, n: nat): Decoded<seq<Byte>> {
    if |b| < n then Bad else Good(b[..n], b[n..])
  }

  function DecodeField(k: Kind, b: seq<Byte>): Decoded<Field> {
    match k
    case K8 => if |b| < 1 then Bad else Good(F8(b[0]), b[1..])
    case K16 => if |b| < 2 then Bad else Good(F16(Read16(b)), b[2..])
    case K32 => if |b| < 4 then Bad else Good(F32(Read32(b)), b[4..])
    case K64 => if |b| < 8 then Bad else Good(F64(Read64(b)), b[8..])
    case KS8 =>
      if |b| < 1 then Bad
      else (match DecodeBytes(b[1..], b[0]) case Bad => Bad case Good(s, rest) => Good(S8(s), rest))
    case KS16 =>
      if |b| < 2 then Bad
      else (match DecodeBytes(b[2..], Read16(b)) case Bad => Bad case Good(s, rest) => Good(S16(s), rest))
    case KS32 =>
      if |b| < 4 then Bad
      else (match DecodeBytes(b[4..], Read32(b)) case Bad => Bad case Good(s, rest) => Good(S32(s), rest))
  }

  function DecodeFields(ks: seq<Kind>, b: seq<Byte>): Decoded<seq<Field>> {
    if ks == [] then Good([], b)
    else
      match DecodeField(ks[0], b)
      case Bad => Bad
      case Good(f, rest) =>
        match DecodeFields(ks[1..], rest)
        case Bad => Bad
        case Good(fs, rest') => Good([f] + fs, rest')
  }

  function KindsOf(fs: seq<Field>): (ks: seq<Kind>)
    ensures |ks| == |fs|
  {
    seq(|fs|, i requires 0 <= i < |fs| => KindOf(fs[i]))
  }

  lemma StringRoundTrip(s: seq<Byte>, rest: seq<Byte>)
    ensures DecodeBytes(s + rest, |s|) == Good(s, rest)
  {
  }

  lemma FieldRoundTrip(f: Field, rest: seq<Byte>)
    requires FieldValid(f)
    ensures DecodeField(KindOf(f), EncodeField(f) + rest) == Good(f, rest)
  {
    hide Be16, Be32, Be64, Read16, Read32, Read64, DecodeBytes;
    var b := EncodeField(f) + rest;
    match f
    case F8(v) =>
      assert b[1..] == rest;
    case F16(v) =>
      Read16OfBe16(v, rest);
      assert b[2..] == rest;
    case F32(v) =>
      Read32OfBe32(v, rest);
      assert b[4..] == rest;
    case F64(v) =>
      Read64OfBe64(v, rest);
      assert b[8..] == rest;
    case S8(s) =>
      assert b[1..] == s + rest;
      StringRoundTrip(s, rest);
    case S16(s) =>
      assert b == Be16(|s|) + (s + rest);
      Read16OfBe16(|s|, s + rest);
      assert b[2..] == s + rest;
      StringRoundTrip(s, rest);
    case S32(s) =>
      assert b == Be32(|s|) + (s + rest);
      Read32OfBe32(|s|, s + rest);
      assert b[4..] == s + rest;
      StringRoundTrip(s, rest);
  }

  lemma EncodeFieldsSnoc(fs: seq<Field>, f: Field)
    requires FieldValid(f) && FieldsValid(fs)
    ensures EncodeFields(fs + [f]) == EncodeFields(fs) + EncodeField(f)
  {
    assert DropLast(fs + [f]) == fs;
  }

  lemma {:induction false} EncodeFieldsCons(f: Field, fs: seq<Field>)
    requires FieldValid(f) && FieldsValid(fs)
    ensures EncodeFields([f] + fs) == EncodeField(f) + EncodeFields(fs)
  {
    hide EncodeField, FieldValid;
    if fs == [] {
      assert DropLast([f] + fs) == [];
    } else {
      hide EncodeFields;
      var before := DropLast(fs);
      assert fs == before + [Last(fs)] && [f] + fs == ([f] + before) + [Last(fs)];
      EncodeFieldsSnoc([f] + before, Last(fs));
      EncodeFieldsSnoc(before, Last(fs));
      EncodeFieldsCons(f, before);
    }
  }

  lemma NoFieldsRoundTrip(rest: seq<Byte>)
    ensures DecodeFields([], EncodeFields([]) + rest) == Good([], rest)
  {
    assert EncodeFields([]) + rest == rest;
  }

  lemma {:induction false} FieldsRoundTrip(fs: seq<Field>, rest: seq<Byte>)
    requires FieldsValid(fs)
    ensures DecodeFields(KindsOf(fs), EncodeFields(fs) + rest) == Good(fs, rest)
  {
    hide DecodeField, DecodeFields, EncodeField, EncodeFields, FieldValid, KindOf;
    if fs == [] {
      NoFieldsRoundTrip(rest);
    } else {
      var first, others := fs[0], fs[1..];
      assert fs == [first] + others;
      assert KindsOf(fs)[1..] == KindsOf(others);
      EncodeFieldsCons(first, others);
      var middle := EncodeFields(others) + rest;
      assert EncodeFields(fs) + rest == EncodeField(first) + middle;
      FieldRoundTrip(first, middle);
      FieldsRoundTrip(others, rest);
      DecodeFieldsStep(KindsOf(fs), EncodeFields(fs) + rest, first, middle, others, rest);
    }
  }

  lemma DecodeFieldsStep(ks: seq<Kind>, b: seq<Byte>, f: Field, middle: seq<Byte>, fs: seq<Field>, rest: seq<Byte>)
    requires ks != [] && DecodeField(ks[0], b) == Good(f, middle) && DecodeFields(ks[1..], middle) == Good(fs, rest)
    ensures DecodeFields(ks, b) == Good([f] + fs, rest)
  {
    hide DecodeField;
  }

  // ---------------------------------------------------------------- messages

  function TypeOf(m: Msg): Byte {
    match m
    case InjectKeycode(_, _, _, _) => 0
    case InjectText(_) => 1
    case InjectTouchEvent(_, _, _, _, _, _) => 2
    case InjectScrollEvent(_, _, _, _) => 3
    case BackOrScreenOn(_) => 4
    case ExpandNotificationPanel => 5
    case ExpandSettingsPanel => 6
    case CollapsePanels => 7
    case GetClipboard(_) => 8
    case SetClipboard(_, _, _) => 9
    case SetDisplayPower(_) => 10
    case RotateDevice => 11
    case UhidCreate(_, _, _, _, _) => 12
    case UhidInput(_, _) => 13
    case UhidDestroy(_) => 14
    case OpenHardKeyboardSettings => 15
    case StartApp(_) => 16
    case ResetVideo => 17
    case CameraSetTorch(_) => 18
    case CameraZoomIn => 19
    case CameraZoomOut => 20
    case ResizeDisplay(_, _) => 21
    case ScanFile(_) => 22
  }

  function PositionFields(p: Position): (fs: seq<Field>)
    ensures FieldsValid(fs)
  {
    [F32(U32OfI32(p.x)), F32(U32OfI32(p.y)), F16(p.width), F16(p.height)]
  }

  function Bool(b: bool): Byte {
    if b then 1 else 0
  }

  /** The fields written after the type. */
  function Fields(m: Msg): (fs: seq<Field>)
    requires Valid(m)
    ensures FieldsValid(fs)
  {
    match m
    case InjectKeycode(action, keycode, repeat, metastate) => [F8(action), F32(keycode), F32(repeat), F32(metastate)]
    case InjectText(text) => [S32(Truncated(text, INJECT_TEXT_MAX_LENGTH))]
    case InjectTouchEvent(action, pointerId, position, pressure, actionButton, buttons) =>
      [F8(action), F64(pointerId)] + PositionFields(position)
      + [F16(U16FixedPoint(pressure)), F32(actionButton), F32(buttons)]
    case InjectScrollEvent(position, hscroll, vscroll, buttons) =>
      PositionFields(position)
      + [F16(U16OfI16(ScrollFixedPoint(hscroll))), F16(U16OfI16(ScrollFixedPoint(vscroll))), F32(buttons)]
    case BackOrScreenOn(action) => [F8(action)]
    case GetClipboard(copyKey) => [F8(copyKey)]
    case SetClipboard(sequence, paste, text) =>
      [F64(sequence), F8(Bool(paste)), S32(Truncated(text, CLIPBOARD_TEXT_MAX_LENGTH))]
    case SetDisplayPower(on) => [F8(Bool(on))]
    case UhidCreate(id, vendorId, productId, name, reportDesc) =>
      [F16(id), F16(vendorId), F16(productId),
       S8(if name.Some? then Truncated(name.value, UHID_NAME_MAX_LENGTH) else []), S16(reportDesc)]
    case UhidInput(id, data) => [F16(id), S16(data)]
    case UhidDestroy(id) => [F16(id)]
    case StartApp(app) => [S8(Truncated(app, APP_NAME_MAX_LENGTH))]
    case CameraSetTorch(on) => [F8(Bool(on))]
    case ResizeDisplay(width, height) => [F16(width), F16(height)]
    case ScanFile(path) => [S32(Truncated(path, SCAN_FILE_PATH_MAX_LENGTH))]
    case _ => []
  }

  /** sc_control_msg_serialize() */
  function Encode(m: Msg): seq<Byte>
    requires Valid(m)
  {
    [TypeOf(m)] + EncodeFields(Fields(m))
  }

  /** The fields that follow each type. */
  function Layout(t: Byte): Option<seq<Kind>> {
    if t == 0 then Some([K8, K32, K32, K32])
    else if t == 1 || t == 22 then Some([KS32])
    else if t == 2 then Some([K8, K64, K32, K32, K16, K16, K16, K32, K32])
    else if t == 3 then Some([K32, K32, K16, K16, K16, K16, K32])
    else if t in {4, 8, 10, 18} then Some([K8])
    else if t == 9 then Some([K64, K8, KS32])
    else if t == 12 then Some([K16, K16, K16, KS8, KS16])
    else if t == 13 then Some([K16, KS16])
    else if t == 14 then Some([K16])
    else if t == 16 then Some([KS8])
    else if t == 21 then Some([K16, K16])
    else if t in {5, 6, 7, 11, 15, 17, 19, 20} then Some([])
    else None
  }

  function PositionOf(fs: seq<Field>): Position
    requires |fs| == 4 && fs[0].F32? && fs[1].F32? && fs[2].F16? && fs[3].F16?
  {
    Position(I32OfU32(fs[0].u32), I32OfU32(fs[1].u32), fs[2].u16, fs[3].u16)
  }

  function ScrollOf(x: U16): real {
    I16OfU16(x) as real / 2048.0
  }

  /** The message that a device reads from the fields of a type. */
  function FromFields(t: Byte, fs: seq<Field>): Msg
    requires Layout(t) == Some(KindsOf(fs))
  {
    KindsAre(t, fs);
    match t
    case 0 => InjectKeycode(fs[0].byte, fs[1].u32, fs[2].u32, fs[3].u32)
    case 1 => InjectText(fs[0].long)
    case 2 =>
      InjectTouchEvent(fs[0].byte, fs[1].u64, PositionOf(fs[2..6]), fs[6].u16 as real / 65536.0, fs[7].u32, fs[8].u32)
    case 3 => InjectScrollEvent(PositionOf(fs[..4]), ScrollOf(fs[4].u16), ScrollOf(fs[5].u16), fs[6].u32)
    case 4 => BackOrScreenOn(fs[0].byte)
    case 5 => ExpandNotificationPanel
    case 6 => ExpandSettingsPanel
    case 7 => CollapsePanels
    case 8 => GetClipboard(fs[0].byte)
    case 9 => SetClipboard(fs[0].u64, fs[1].byte != 0, fs[2].long)
    case 10 => SetDisplayPower(fs[0].byte != 0)
    case 11 => RotateDevice
    case 12 => UhidCreate(fs[0].u16, fs[1].u16, fs[2].u16, Some(fs[3].tiny), fs[4].short)
    case 13 => UhidInput(fs[0].u16, fs[1].short)
    case 14 => UhidDestroy(fs[0].u16)
    case 15 => OpenHardKeyboardSettings
    case 16 => StartApp(fs[0].tiny)
    case 17 => ResetVideo
    case 18 => CameraSetTorch(fs[0].byte != 0)
    case 19 => CameraZoomIn
    case 20 => CameraZoomOut
    case 21 => ResizeDisplay(fs[0].u16, fs[1].u16)
    case _ => ScanFile(fs[0].long)
  }

  lemma KindsAre(t: Byte, fs: seq<Field>)
    requires Layout(t) == Some(KindsOf(fs))
    ensures t < 23 && |fs| == |Layout(t).value|
    ensures forall i | 0 <= i < |fs| :: KindOf(fs[i]) == Layout(t).value[i]
  {
  }

  /** A decoder written from the layout. */
  function Decode(b: seq<Byte>): (r: Decoded<Msg>)
    ensures r.Good? ==> |r.rest| < |b|
  {
    if b == [] || Layout(b[0]).None? then Bad
    else
      DecodeFieldsShape(Layout(b[0]).value, b[1..]);
      match DecodeFields(Layout(b[0]).value, b[1..])
      case Bad => Bad
      case Good(fs, rest) => Good(FromFields(b[0], fs), rest)
  }

  lemma {:induction false} DecodeFieldsShape(ks: seq<Kind>, b: seq<Byte>)
    ensures var r := DecodeFields(ks, b);
            r.Good? ==> KindsOf(r.value) == ks && |r.rest| <= |b|
  {
    hide DecodeField, KindOf;
    if ks != [] {
      DecodeFieldShape(ks[0], b);
      if DecodeField(ks[0], b).Good? {
        DecodeFieldsShape(ks[1..], DecodeField(ks[0], b).rest);
      }
    }
  }

  lemma DecodeFieldShape(k: Kind, b: seq<Byte>)
    ensures var r := DecodeField(k, b);
            r.Good? ==> KindOf(r.value) == k && |r.rest| <= |b|
  {
  }

  /** What serialization keeps of a message: strings are truncated, numbers rounded, and a missing name is empty. */
  function Normal(m: Msg): Msg
    requires Valid(m)
  {
    match m
    case InjectText(text) => InjectText(Truncated(text, INJECT_TEXT_MAX_LENGTH))
    case InjectTouchEvent(_, _, _, pressure, _, _) => m.(pressure := U16FixedPoint(pressure) as real / 65536.0)
    case InjectScrollEvent(_, hscroll, vscroll, _) =>
      m.(hscroll := ScrollFixedPoint(hscroll) as real / 2048.0, vscroll := ScrollFixedPoint(vscroll) as real / 2048.0)
    case SetClipboard(_, _, text) => m.(text := Truncated(text, CLIPBOARD_TEXT_MAX_LENGTH))
    case UhidCreate(_, _, _, name, _) =>
      m.(name := Some(if name.Some? then Truncated(name.value, UHID_NAME_MAX_LENGTH) else []))
    case StartApp(app) => StartApp(Truncated(app, APP_NAME_MAX_LENGTH))
    case ScanFile(path) => ScanFile(Truncated(path, SCAN_FILE_PATH_MAX_LENGTH))
    case _ => m
  }

  lemma FieldsHaveLayout(m: Msg)
    requires Valid(m)
    ensures Layout(TypeOf(m)) == Some(KindsOf(Fields(m)))
  {
    hide Truncated, U16FixedPoint, ScrollFixedPoint;
    assert KindsOf(Fields(m)) == Layout(TypeOf(m)).value;
  }

  lemma FromFieldsOfFields(m: Msg)
    requires Valid(m) && Layout(TypeOf(m)) == Some(KindsOf(Fields(m)))
    ensures FromFields(TypeOf(m), Fields(m)) == Normal(m)
  {
    hide Truncated, U16FixedPoint, ScrollFixedPoint, KindsOf, Layout;
    if m.InjectTouchEvent? || m.InjectScrollEvent? {
      PointerFieldsRoundTrip(m);
    }
  }

  lemma PointerFieldsRoundTrip(m: Msg)
    requires Valid(m) && Layout(TypeOf(m)) == Some(KindsOf(Fields(m)))
    requires m.InjectTouchEvent? || m.InjectScrollEvent?
    ensures FromFields(TypeOf(m), Fields(m)) == Normal(m)
  {
    hide U16FixedPoint, ScrollFixedPoint, KindsOf, Layout, I32OfU32, U32OfI32;
    var fs := Fields(m);
    I32RoundTrip(m.position.x);
    I32RoundTrip(m.position.y);
    if m.InjectTouchEvent? {
      assert fs[2..6] == PositionFields(m.position);
    } else {
      assert fs[..4] == PositionFields(m.position);
    }
  }

  lemma I32RoundTrip(x: I32)
    ensures I32OfU32(U32OfI32(x)) == x
  {
  }

  /** Whatever follows it, a serialized message is read back, up to truncation and rounding. */
  lemma DecodeOfEncode(m: Msg, rest: seq<Byte>)
    requires Valid(m)
    ensures Decode(Encode(m) + rest) == Good(Normal(m), rest)
  {
    hide Fields, FromFields, Layout, EncodeFields, DecodeFields, TypeOf, Normal;
    FieldsHaveLayout(m);
    FromFieldsOfFields(m);
    FieldsRoundTrip(Fields(m), rest);
    assert (Encode(m) + rest)[1..] == EncodeFields(Fields(m)) + rest;
  }

  function EncodeAll(ms: seq<Msg>): seq<Byte>
    requires forall m | m in ms :: Valid(m)
  {
    if ms == [] then [] else Encode(ms[0]) + EncodeAll(ms[1..])
  }

  function DecodeAll(b: seq<Byte>): seq<Msg>
    decreases |b|
  {
    match Decode(b)
    case Bad => []
    case Good(m, rest) => [m] + DecodeAll(rest)
  }

  function NormalAll(ms: seq<Msg>): seq<Msg>
    requires forall m | m in ms :: Valid(m)
  {
    seq(|ms|, i requires 0 <= i < |ms| => Normal(ms[i]))
  }

  /** The bytes sent on the socket determine the messages: any concatenation is decoded uniquely. */
  lemma {:induction false} DecodeAllOfEncodeAll(ms: seq<Msg>)
    requires forall m | m in ms :: Valid(m)
    ensures DecodeAll(EncodeAll(ms)) == NormalAll(ms)
  {
    hide Decode, Encode, Normal;
    if ms == [] {
      DecodeNothing();
    } else {
      DecodeOfEncode(ms[0], EncodeAll(ms[1..]));
      DecodeAllOfEncodeAll(ms[1..]);
    }
  }

  lemma DecodeNothing()
    ensures Decode([]) == Bad
  {
  }

  /** The rounding of a pressure is below its resolution; that of a scroll amount, once clamped, too. */
  lemma RoundingError(m: Msg)
    requires Valid(m)
    ensures m.InjectTouchEvent? ==> var p := Normal(m).pressure; p <= m.pressure <= p + 1.0 / 65536.0
    ensures m.InjectScrollEvent? ==>
              var h, v := Clamp(m.hscroll, -16.0, 16.0), Clamp(m.vscroll, -16.0, 16.0);
              && Normal(m).hscroll - 1.0 / 2048.0 <= h <= Normal(m).hscroll + 1.0 / 2048.0
              && Normal(m).vscroll - 1.0 / 2048.0 <= v <= Normal(m).vscroll + 1.0 / 2048.0
  {
    if m.InjectScrollEvent? {
      ScrollFitsIff(m.hscroll);
      ScrollFitsIff(m.vscroll);
      ScrollError(m.hscroll);
      ScrollError(m.vscroll);
    }
  }

  /** Well-formed strings are never read before their start, and what is sent of them is well formed. */
  lemma Utf8IsKept(m: Msg)
    requires WellTyped(m) && HasUtf8(m)
    ensures !m.InjectTouchEvent? && !m.InjectScrollEvent? ==> Serializable(m)
    ensures Serializable(m) ==> HasUtf8(Normal(m))
  {
    hide IsUtf8, Truncated, StopsInside;
    match m {
      case InjectText(text) => TruncatedText(text, INJECT_TEXT_MAX_LENGTH);
      case SetClipboard(_, _, text) => TruncatedText(text, CLIPBOARD_TEXT_MAX_LENGTH);
      case UhidCreate(_, _, _, name, _) =>
        if name.Some? {
          TruncatedText(name.value, UHID_NAME_MAX_LENGTH);
        } else {
          NoText();
        }
      case StartApp(app) => TruncatedText(app, APP_NAME_MAX_LENGTH);
      case ScanFile(path) => TruncatedText(path, SCAN_FILE_PATH_MAX_LENGTH);
      case _ =>
    }
  }

  lemma TruncatedText(s: seq<Byte>, max: nat)
    requires IsUtf8(s)
    ensures StopsInside(s, max) && IsUtf8(Truncated(s, max))
  {
    StopsInsideUtf8(s, max);
    TruncatedIsUtf8(s, max);
  }

  lemma NoText()
    ensures IsUtf8([])
  {
  }

  /** A pressure half a unit below 1 cannot be serialized, nor an amount half a unit below 16. */
  lemma NotSerializableExample(m: Msg)
    requires m.InjectTouchEvent? || m.InjectScrollEvent?
    requires m.InjectTouchEvent? ==> m.pressure == 65535.5 / 65536.0
    requires m.InjectScrollEvent? ==> m.vscroll == 16.0 - 1.0 / 4096.0
    ensures WellTyped(m) && !Serializable(m)
  {
  }

  // ---------------------------------------------------------------- size

  function FieldSize(f: Field): nat {
    match f
    case F8(_) => 1
    case F16(_) => 2
    case F32(_) => 4
    case F64(_) => 8
    case S8(s) => 1 + |s|
    case S16(s) => 2 + |s|
    case S32(s) => 4 + |s|
  }

  function FieldsSize(fs: seq<Field>): nat {
    if fs == [] then 0 else FieldSize(fs[0]) + FieldsSize(fs[1..])
  }

  lemma {:induction false} EncodedSize(fs: seq<Field>)
    requires FieldsValid(fs)
    ensures |EncodeFields(fs)| == FieldsSize(fs)
  {
    if fs != [] {
      EncodeFieldsCons(fs[0], fs[1..]);
      assert fs == [fs[0]] + fs[1..];
      EncodedSize(fs[1..]);
    }
  }

  lemma {:induction false} SizeBound(fs: seq<Field>, bound: nat)
    requires forall i | 0 <= i < |fs| :: FieldSize(fs[i]) <= bound
    ensures FieldsSize(fs) <= |fs| * bound
  {
    if fs != [] {
      SizeBound(fs[1..], bound);
    }
  }

  lemma SizeOfThree(a: Field, b: Field, c: Field)
    ensures FieldsSize([a, b, c]) == FieldSize(a) + FieldSize(b) + FieldSize(c)
  {
    assert [a, b, c][1..] == [b, c];
    assert [b, c][1..] == [c];
    assert FieldsSize([c]) == FieldSize(c);
    assert FieldsSize([b, c]) == FieldSize(b) + FieldSize(c);
  }

  lemma SizeOfFive(a: Field, b: Field, c: Field, d: Field, e: Field)
    ensures FieldsSize([a, b, c, d, e]) == FieldSize(a) + FieldSize(b) + FieldSize(c) + FieldSize(d) + FieldSize(e)
  {
    assert [a, b, c, d, e][1..] == [b, c, d, e];
    assert [b, c, d, e][1..] == [c, d, e];
    SizeOfThree(c, d, e);
    assert FieldsSize([b, c, d, e]) == FieldSize(b) + FieldsSize([c, d, e]);
  }

  lemma SizeOfFields(m: Msg)
    requires Valid(m)
    ensures FieldsSize(Fields(m)) < MAX_SIZE
    ensures m.SetClipboard? ==> FieldsSize(Fields(m)) == 13 + |Truncated(m.text, CLIPBOARD_TEXT_MAX_LENGTH)|
  {
    hide Truncated, U16FixedPoint, ScrollFixedPoint;
    var fs := Fields(m);
    if m.SetClipboard? {
      SizeOfThree(fs[0], fs[1], fs[2]);
    } else if m.UhidCreate? {
      SizeOfFive(fs[0], fs[1], fs[2], fs[3], fs[4]);
    } else {
      SizeBound(fs, 304);
    }
  }

  /** Every message fits in the serialization buffer, which a clipboard text of maximal length fills. */
  lemma FitsInBuffer(m: Msg)
    requires Valid(m)
    ensures |Encode(m)| <= MAX_SIZE
    ensures m.SetClipboard? && |m.text| == CLIPBOARD_TEXT_MAX_LENGTH ==> |Encode(m)| == MAX_SIZE
  {
    hide Fields, FieldsSize, EncodeFields, TypeOf;
    EncodedSize(Fields(m));
    SizeOfFields(m);
  }
}
