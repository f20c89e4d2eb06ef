/**
 * sc_control_msg_serialize() (app/src/control_msg.c), which fills a byte buffer in place.
 * A ghost parameter carries the fields written so far. The result is None where an assert
 * fails, or where a string is read before its start.
 */
module ControlMsgSerializer {
  import opened Common
  import opened Memory
  import opened Binary
  import opened ControlMsg
  import opened FixedPoint
  import opened Utf8

  lemma Bytes32(v: U32)
    ensures Be32(v) == [v / 0x100_0000, v / 0x1_0000 % 0x100, v / 0x100 % 0x100, v % 0x100]
  {
    var high, low := v / 0x1_0000, v % 0x1_0000;
    HighByte(v);
    LowBytes(high, low);
    assert v == high * 0x1_0000 + low;
    assert Be32(v) == [high / 0x100, high % 0x100] + [low / 0x100, low % 0x100];
  }

  lemma HighByte(v: U32)
    ensures v / 0x1_0000 / 0x100 == v / 0x100_0000
  {
  }

  lemma LowBytes(high: U16, low: U16)
    ensures var v := high * 0x1_0000 + low;
            v / 0x100 % 0x100 == low / 0x100 && v % 0x100 == low % 0x100
  {
    assert high * 0x1_0000 + low == (high * 0x100 + low / 0x100) * 0x100 + low % 0x100;
    assert high * 0x100 + low / 0x100 == high * 0x100 + low / 0x100 % 0x100;
  }

  method Write16be(buf: array<Byte>, off: nat, v: U16)
    requires off + 2 <= buf.Length
    modifies buf
    ensures buf[..] == Splice(old(buf[..]), off, Be16(v))
  {
    buf[off] := v / 0x100;
    buf[off + 1] := v % 0x100;
  }

  method Write32be(buf: array<Byte>, off: nat, v: U32)
    requires off + 4 <= buf.Length
    modifies buf
    ensures buf[..] == Splice(old(buf[..]), off, Be32(v))
  {
    Bytes32(v);
    buf[off] := v / 0x100_0000;
    buf[off + 1] := v / 0x1_0000 % 0x100;
    buf[off + 2] := v / 0x100 % 0x100;
    buf[off + 3] := v % 0x100;
  }

  method Write64be(buf: array<Byte>, off: nat, v: U64)
    requires off + 8 <= buf.Length
    modifies buf
    ensures buf[..] == Splice(old(buf[..]), off, Be64(v))
  {
    Write32be(buf, off, v / 0x1_0000_0000);
    Write32be(buf, off + 4, v % 0x1_0000_0000);
  }

  method WriteBytes(buf: array<Byte>, off: nat, s: seq<Byte>)
    requires off + |s| <= buf.Length
    modifies buf
    ensures buf[..] == Splice(old(buf[..]), off, s)
  {
    var i := 0;
    SpliceNothing(buf[..], off);
    hide Splice;
    while i < |s|
      invariant 0 <= i <= |s|
      invariant buf[..] == Splice(old(buf[..]), off, s[..i])
    {
      SpliceOneMore(old(buf[..]), off, s[..i], s[i]);
      assert s[..i + 1] == s[..i] + [s[i]];
      buf[off + i] := s[i];
      i := i + 1;
    }
    assert s[..i] == s;
  }

  /** The first `len` bytes of the buffer are these fields. */
  ghost predicate Written(buf: array<Byte>, len: nat, fs: seq<Field>)
    reads buf
  {
    len <= buf.Length && FieldsValid(fs) && buf[..len] == EncodeFields(fs)
  }

  lemma AppendField(before: seq<Byte>, after: seq<Byte>, off: nat, fs: seq<Field>, f: Field)
    requires FieldsValid(fs) && FieldValid(f)
    requires off + |EncodeField(f)| <= |before|
    requires before[..off] == EncodeFields(fs) && after == Splice(before, off, EncodeField(f))
    ensures after[..off + |EncodeField(f)|] == EncodeFields(fs + [f])
  {
    hide EncodeField, EncodeFields;
    EncodeFieldsSnoc(fs, f);
  }

  method Put8(buf: array<Byte>, off: nat, v: Byte, ghost fs: seq<Field>) returns (next: nat, ghost fs': seq<Field>)
    requires off + 1 <= buf.Length && Written(buf, off, fs)
    modifies buf
    ensures fs' == fs + [F8(v)] && next == off + 1 && Written(buf, next, fs')
  {
    hide EncodeFields;
    ghost var before := buf[..];
    buf[off] := v;
    next, fs' := off + 1, fs + [F8(v)];
    AppendField(before, buf[..], off, fs, F8(v));
  }

  method Put16(buf: array<Byte>, off: nat, v: U16, ghost fs: seq<Field>) returns (next: nat, ghost fs': seq<Field>)
    requires off + 2 <= buf.Length && Written(buf, off, fs)
    modifies buf
    ensures fs' == fs + [F16(v)] && next == off + 2 && Written(buf, next, fs')
  {
    hide Splice, EncodeFields, Be16;
    ghost var before := buf[..];
    Write16be(buf, off, v);
    next, fs' := off + 2, fs + [F16(v)];
    AppendField(before, buf[..], off, fs, F16(v));
  }

  method Put32(buf: array<Byte>, off: nat, v: U32, ghost fs: seq<Field>) returns (next: nat, ghost fs': seq<Field>)
    requires off + 4 <= buf.Length && Written(buf, off, fs)
    modifies buf
    ensures fs' == fs + [F32(v)] && next == off + 4 && Written(buf, next, fs')
  {
    hide Splice, EncodeFields, Be32;
    ghost var before := buf[..];
    Write32be(buf, off, v);
    next, fs' := off + 4, fs + [F32(v)];
    AppendField(before, buf[..], off, fs, F32(v));
  }

  method Put64(buf: array<Byte>, off: nat, v: U64, ghost fs: seq<Field>) returns (next: nat, ghost fs': seq<Field>)
    requires off + 8 <= buf.Length && Written(buf, off, fs)
    modifies buf
    ensures fs' == fs + [F64(v)] && next == off + 8 && Written(buf, next, fs')
  {
    hide Splice, EncodeFields, Be64;
    ghost var before := buf[..];
    Write64be(buf, off, v);
    next, fs' := off + 8, fs + [F64(v)];
    AppendField(before, buf[..], off, fs, F64(v));
  }

  lemma SpliceTwo(s: seq<Byte>, off: nat, a: seq<Byte>, b: seq<Byte>)
    requires off + |a| + |b| <= |s|
    ensures Splice(Splice(s, off + |a|, b), off, a) == Splice(s, off, a + b)
  {
  }

  /** write_string_payload(): the number of bytes copied at off. */
  method PutPayload(buf: array<Byte>, off: nat, utf8: Option<seq<Byte>>, maxLen: nat) returns (r: Option<nat>)
    requires off + maxLen <= buf.Length
    modifies buf
    ensures r.Some? <==> (utf8.Some? ==> StopsInside(utf8.value, maxLen))
    ensures r.Some? ==>
              var s := Payload(utf8, maxLen);
              r.value == |s| && buf[..] == Splice(old(buf[..]), off, s)
  {
    hide Splice;
    if utf8.None? {
      SpliceNothing(buf[..], off);
      return Some(0);
    }
    r := FindTruncationIndex(utf8.value, maxLen);
    if r.Some? {
      WriteBytes(buf, off, utf8.value[..r.value]);
    }
  }

  /** What is written of a string, or of a NULL pointer. */
  function Payload(utf8: Option<seq<Byte>>, maxLen: nat): (s: seq<Byte>)
    requires utf8.Some? ==> StopsInside(utf8.value, maxLen)
    ensures |s| <= maxLen
  {
    if utf8.Some? then Truncated(utf8.value, maxLen) else []
  }

  /** write_string(): the payload is copied first, then its length is written before it. */
  method PutString(buf: array<Byte>, off: nat, utf8: Option<seq<Byte>>, maxLen: nat, ghost fs: seq<Field>)
    returns (r: Option<nat>, ghost fs': seq<Field>)
    requires maxLen < MAX_SIZE && off + 4 + maxLen <= buf.Length && Written(buf, off, fs)
    modifies buf
    ensures r.Some? <==> (utf8.Some? ==> StopsInside(utf8.value, maxLen))
    ensures r.Some? ==>
              var s := Payload(utf8, maxLen);
              fs' == fs + [S32(s)] && r.value == off + 4 + |s| && Written(buf, r.value, fs')
  {
    hide Splice, EncodeFields, Be32, Payload;
    ghost var before := buf[..];
    fs' := fs;
    r := PutPayload(buf, off + 4, utf8, maxLen);
    if r.None? {
      return;
    }
    var len := r.value;
    ghost var s := Payload(utf8, maxLen);
    Write32be(buf, off, len);
    SpliceTwo(before, off, Be32(len), s);
    r, fs' := Some(off + 4 + len), fs + [S32(s)];
    AppendField(before, buf[..], off, fs, S32(s));
  }

  /** write_string_tiny() */
  method PutStringTiny(buf: array<Byte>, off: nat, utf8: Option<seq<Byte>>, maxLen: nat, ghost fs: seq<Field>)
    returns (r: Option<nat>, ghost fs': seq<Field>)
    requires maxLen <= 0xFF && off + 1 + maxLen <= buf.Length && Written(buf, off, fs)
    modifies buf
    ensures r.Some? <==> (utf8.Some? ==> StopsInside(utf8.value, maxLen))
    ensures r.Some? ==>
              var s := Payload(utf8, maxLen);
              fs' == fs + [S8(s)] && r.value == off + 1 + |s| && Written(buf, r.value, fs')
  {
    hide Splice, EncodeFields, Payload;
    ghost var before := buf[..];
    fs' := fs;
    r := PutPayload(buf, off + 1, utf8, maxLen);
    if r.None? {
      return;
    }
    var len := r.value;
    ghost var s := Payload(utf8, maxLen);
    ghost var middle := buf[..];
    buf[off] := len;
    SpliceHead(middle, off, len);
    SpliceTwo(before, off, [len], s);
    r, fs' := Some(off + 1 + len), fs + [S8(s)];
    AppendField(before, buf[..], off, fs, S8(s));
  }

  lemma SpliceHead(s: seq<Byte>, off: nat, b: Byte)
    requires off < |s|
    ensures Splice(s, off, [b]) == s[off := b]
  {
  }

  /** A 16-bit length, then the bytes: report descriptors and HID input data. */
  method PutSized(buf: array<Byte>, off: nat, data: seq<Byte>, ghost fs: seq<Field>)
    returns (next: nat, ghost fs': seq<Field>)
    requires |data| < 0x1_0000 && off + 2 + |data| <= buf.Length && Written(buf, off, fs)
    modifies buf
    ensures fs' == fs + [S16(data)] && next == off + 2 + |data| && Written(buf, next, fs')
  {
    hide Splice, EncodeFields, Be16;
    ghost var before := buf[..];
    Write16be(buf, off, |data|);
    ghost var middle := buf[..];
    WriteBytes(buf, off + 2, data);
    SpliceInOrder(before, off, Be16(|data|), data);
    next, fs' := off + 2 + |data|, fs + [S16(data)];
    AppendField(before, buf[..], off, fs, S16(data));
  }

  lemma SpliceInOrder(s: seq<Byte>, off: nat, a: seq<Byte>, b: seq<Byte>)
    requires off + |a| + |b| <= |s|
    ensures Splice(Splice(s, off, a), off + |a|, b) == Splice(s, off, a + b)
  {
  }

  method PutPosition(buf: array<Byte>, off: nat, position: Position, ghost fs: seq<Field>)
    returns (next: nat, ghost fs': seq<Field>)
    requires off + 12 <= buf.Length && Written(buf, off, fs)
    modifies buf
    ensures fs' == fs + PositionFields(position) && next == off + 12 && Written(buf, next, fs')
  {
    hide Written;
    next, fs' := Put32(buf, off, U32OfI32(position.x), fs);
    next, fs' := Put32(buf, next, U32OfI32(position.y), fs');
    next, fs' := Put16(buf, next, position.width, fs');
    next, fs' := Put16(buf, next, position.height, fs');
  }

  method SerializeTouch(msg: Msg, buf: array<Byte>, ghost fs: seq<Field>) returns (r: Option<nat>, ghost fs': seq<Field>)
    requires msg.InjectTouchEvent? && buf.Length >= MAX_SIZE && Written(buf, 1, fs)
    modifies buf
    ensures r.Some? <==> Serializable(msg)
    ensures r.Some? ==> fs' == fs + Fields(msg) && Written(buf, r.value, fs')
  {
    hide Written, FitsU16, PositionFields;
    var next;
    next, fs' := Put8(buf, 1, msg.action, fs);
    next, fs' := Put64(buf, next, msg.pointerId, fs');
    next, fs' := PutPosition(buf, next, msg.position, fs');
    var pressure := ToU16(msg.pressure);
    if pressure.None? {
      return None, fs';
    }
    next, fs' := Put16(buf, next, pressure.value, fs');
    next, fs' := Put32(buf, next, msg.actionButton, fs');
    next, fs' := Put32(buf, next, msg.buttons, fs');
    r := Some(next);
  }

  method SerializeScroll(msg: Msg, buf: array<Byte>, ghost fs: seq<Field>) returns (r: Option<nat>, ghost fs': seq<Field>)
    requires msg.InjectScrollEvent? && buf.Length >= MAX_SIZE && Written(buf, 1, fs)
    modifies buf
    ensures r.Some? <==> Serializable(msg)
    ensures r.Some? ==> fs' == fs + Fields(msg) && Written(buf, r.value, fs')
  {
    hide Written, ScrollFits, ScrollToI16, U16OfI16, PositionFields;
    var next;
    next, fs' := PutPosition(buf, 1, msg.position, fs);
    ScrollFitsIff(msg.hscroll);
    ScrollFitsIff(msg.vscroll);
    var h, v := ScrollToI16(msg.hscroll), ScrollToI16(msg.vscroll);
    if h.None? || v.None? {
      return None, fs';
    }
    next, fs' := Put16(buf, next, U16OfI16(h.value), fs');
    next, fs' := Put16(buf, next, U16OfI16(v.value), fs');
    next, fs' := Put32(buf, next, msg.buttons, fs');
    r := Some(next);
  }

  method SerializeUhidCreate(msg: Msg, buf: array<Byte>, ghost fs: seq<Field>) returns (r: Option<nat>, ghost fs': seq<Field>)
    requires WellTyped(msg) && buf.Length >= MAX_SIZE && Written(buf, 1, fs) && msg.UhidCreate?
    modifies buf
    ensures r.Some? <==> Serializable(msg)
    ensures r.Some? ==> fs' == fs + Fields(msg) && Written(buf, r.value, fs')
  {
    hide Written, Truncated, StopsInside;
    var next;
    next, fs' := Put16(buf, 1, msg.id, fs);
    next, fs' := Put16(buf, next, msg.vendorId, fs');
    next, fs' := Put16(buf, next, msg.productId, fs');
    r, fs' := PutStringTiny(buf, next, msg.name, UHID_NAME_MAX_LENGTH, fs');
    if r.Some? {
      next, fs' := PutSized(buf, r.value, msg.reportDesc, fs');
      r := Some(next);
    }
  }

  /** The messages that contain a string. */
  method SerializeText(msg: Msg, buf: array<Byte>, ghost fs: seq<Field>) returns (r: Option<nat>, ghost fs': seq<Field>)
    requires WellTyped(msg) && buf.Length >= MAX_SIZE && Written(buf, 1, fs)
    requires msg.InjectText? || msg.SetClipboard? || msg.UhidCreate? || msg.StartApp? || msg.ScanFile?
    modifies buf
    ensures r.Some? <==> Serializable(msg)
    ensures r.Some? ==> fs' == fs + Fields(msg) && Written(buf, r.value, fs')
  {
    hide Written, Truncated, StopsInside;
    match msg {
      case InjectText(text) =>
        r, fs' := PutString(buf, 1, Some(text), INJECT_TEXT_MAX_LENGTH, fs);
      case SetClipboard(sequence, paste, text) =>
        var next;
        next, fs' := Put64(buf, 1, sequence, fs);
        next, fs' := Put8(buf, next, Bool(paste), fs');
        r, fs' := PutString(buf, next, Some(text), CLIPBOARD_TEXT_MAX_LENGTH, fs');
      case UhidCreate(_, _, _, _, _) =>
        r, fs' := SerializeUhidCreate(msg, buf, fs);
      case StartApp(app) =>
        r, fs' := PutStringTiny(buf, 1, Some(app), APP_NAME_MAX_LENGTH, fs);
      case ScanFile(path) =>
        r, fs' := PutString(buf, 1, Some(path), SCAN_FILE_PATH_MAX_LENGTH, fs);
    }
  }

  method SerializeFixed(msg: Msg, buf: array<Byte>, ghost fs: seq<Field>) returns (next: nat, ghost fs': seq<Field>)
    requires WellTyped(msg) && buf.Length >= MAX_SIZE && Written(buf, 1, fs)
    requires !msg.InjectTouchEvent? && !msg.InjectScrollEvent?
    requires !msg.InjectText? && !msg.SetClipboard? && !msg.UhidCreate? && !msg.StartApp? && !msg.ScanFile?
    modifies buf
    ensures Serializable(msg) && fs' == fs + Fields(msg) && Written(buf, next, fs')
  {
    hide Written;
    if msg.InjectKeycode? {
      next, fs' := Put8(buf, 1, msg.action, fs);
      next, fs' := Put32(buf, next, msg.keycode, fs');
      next, fs' := Put32(buf, next, msg.repeat, fs');
      next, fs' := Put32(buf, next, msg.metastate, fs');
    } else if msg.BackOrScreenOn? {
      next, fs' := Put8(buf, 1, msg.action, fs);
    } else if msg.GetClipboard? {
      next, fs' := Put8(buf, 1, msg.copyKey, fs);
    } else if msg.SetDisplayPower? || msg.CameraSetTorch? {
      next, fs' := Put8(buf, 1, Bool(msg.on), fs);
    } else if msg.UhidInput? {
      next, fs' := Put16(buf, 1, msg.id, fs);
      next, fs' := PutSized(buf, next, msg.data, fs');
    } else if msg.UhidDestroy? {
      next, fs' := Put16(buf, 1, msg.id, fs);
    } else if msg.ResizeDisplay? {
      next, fs' := Put16(buf, 1, msg.width, fs);
      next, fs' := Put16(buf, next, msg.height, fs');
    } else {
      next, fs' := 1, fs;
    }
  }

  /** sc_control_msg_serialize(): the number of bytes written, whenever no assert fails. */
  method Serialize(msg: Msg, buf: array<Byte>) returns (r: Option<nat>)
    requires WellTyped(msg) && buf.Length >= MAX_SIZE
    modifies buf
    ensures r.Some? <==> Serializable(msg)
    ensures r.Some? ==> 0 < r.value <= MAX_SIZE && buf[..r.value] == Encode(msg)
  {
    hide Fields, EncodeFields, Serializable;
    NothingWritten();
    assert buf[..0] == [];
    ghost var fs: seq<Field>;
    var next;
    next, fs := Put8(buf, 0, TypeOf(msg), []);
    ghost var fs' := fs;
    if msg.InjectTouchEvent? {
      r, fs' := SerializeTouch(msg, buf, fs);
    } else if msg.InjectScrollEvent? {
      r, fs' := SerializeScroll(msg, buf, fs);
    } else if msg.InjectText? || msg.SetClipboard? || msg.UhidCreate? || msg.StartApp? || msg.ScanFile? {
      r, fs' := SerializeText(msg, buf, fs);
    } else {
      next, fs' := SerializeFixed(msg, buf, fs);
      r := Some(next);
    }
    if r.Some? {
      assert fs' == [F8(TypeOf(msg))] + Fields(msg);
      EncodeFieldsCons(F8(TypeOf(msg)), Fields(msg));
      FitsInBuffer(msg);
    }
  }

  lemma NothingWritten()
    ensures EncodeFields([]) == []
  {
  }
}
