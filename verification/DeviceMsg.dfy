/** The messages sent by the device (app/src/device_msg.c). */
module DeviceMsg {
  import opened Common
  import opened Binary

  const MAX_SIZE := 0x4_0000
  const TEXT_MAX_LENGTH := MAX_SIZE - 5

  const TYPE_CLIPBOARD: Byte := 0
  const TYPE_ACK_CLIPBOARD: Byte := 1
  const TYPE_UHID_OUTPUT: Byte := 2

  datatype Msg =
    | Clipboard(text: seq<Byte>)
    | AckClipboard(sequence: U64)
    | UhidOutput(id: U16, data: seq<Byte>)

  /** size is the number of bytes consumed. */
  datatype Parse = Incomplete | Invalid | Complete(msg: Msg, size: nat)

  function Deserialize(buf: seq<Byte>): (r: Parse)
    ensures r.Complete? ==> 0 < r.size <= |buf|
    ensures buf == [] ==> r.Incomplete?
  {
    var len := |buf|;
    if len == 0 then Incomplete
    else if buf[0] == TYPE_CLIPBOARD then
      if len < 5 then Incomplete
      else
        var textLen := Read32(buf[1..]);
        if textLen > len - 5 then Incomplete else Complete(Clipboard(buf[5..5 + textLen]), 5 + textLen)
    else if buf[0] == TYPE_ACK_CLIPBOARD then
      if len < 9 then Incomplete else Complete(AckClipboard(Read64(buf[1..])), 9)
    else if buf[0] == TYPE_UHID_OUTPUT then
      if len < 5 then Incomplete
      else
        var size := Read16(buf[3..]);
        if size > len - 5 then Incomplete else Complete(UhidOutput(Read16(buf[1..]), buf[5..5 + size]), 5 + size)
    else Invalid
  }

  /** A message whose lengths fit in their fields. */
  predicate Encodable(m: Msg) {
    && (m.Clipboard? ==> |m.text| < 0x1_0000_0000)
    && (m.UhidOutput? ==> |m.data| < 0x1_0000)
  }

  /** The layout of the messages, as the device writes them. */
  function Encode(m: Msg): (b: seq<Byte>)
    requires Encodable(m)
    ensures b != []
  {
    match m
    case Clipboard(text) => [TYPE_CLIPBOARD] + Be32(|text|) + text
    case AckClipboard(sequence) => [TYPE_ACK_CLIPBOARD] + Be64(sequence)
    case UhidOutput(id, data) => [TYPE_UHID_OUTPUT] + Be16(id) + Be16(|data|) + data
  }

  /** Whatever follows it, an encoded message is parsed back. */
  lemma DeserializeOfEncode(m: Msg, rest: seq<Byte>)
    requires Encodable(m)
    ensures Deserialize(Encode(m) + rest) == Complete(m, |Encode(m)|)
  {
    match m
    case Clipboard(text) => ClipboardRoundTrip(text, rest);
    case AckClipboard(sequence) => AckRoundTrip(sequence, rest);
    case UhidOutput(id, data) => OutputRoundTrip(id, data, rest);
  }

  lemma ClipboardRoundTrip(text: seq<Byte>, rest: seq<Byte>)
    requires Encodable(Clipboard(text))
    ensures Deserialize(Encode(Clipboard(text)) + rest) == Complete(Clipboard(text), |Encode(Clipboard(text))|)
  {
    hide Be32, Read32, Read64, Read16;
    var b := Encode(Clipboard(text)) + rest;
    Read32OfBe32(|text|, text + rest);
    assert b[1..] == Be32(|text|) + (text + rest);
  }

  lemma AckRoundTrip(sequence: U64, rest: seq<Byte>)
    ensures Deserialize(Encode(AckClipboard(sequence)) + rest)
         == Complete(AckClipboard(sequence), |Encode(AckClipboard(sequence))|)
  {
    hide Be64, Read32, Read64, Read16;
    var b := Encode(AckClipboard(sequence)) + rest;
    Read64OfBe64(sequence, rest);
    assert b[1..] == Be64(sequence) + rest;
  }

  lemma OutputRoundTrip(id: U16, data: seq<Byte>, rest: seq<Byte>)
    requires Encodable(UhidOutput(id, data))
    ensures Deserialize(Encode(UhidOutput(id, data)) + rest)
         == Complete(UhidOutput(id, data), |Encode(UhidOutput(id, data))|)
  {
    hide Be16, Read32, Read64, Read16;
    var b := Encode(UhidOutput(id, data)) + rest;
    Read16OfBe16(id, Be16(|data|) + data + rest);
    Read16OfBe16(|data|, data + rest);
    assert b[1..] == Be16(id) + (Be16(|data|) + data + rest);
    assert b[3..] == Be16(|data|) + (data + rest);
  }

  /** A parsed message was encoded in the bytes consumed. */
  lemma EncodeOfDeserialize(buf: seq<Byte>)
    requires Deserialize(buf).Complete?
    ensures var r := Deserialize(buf);
            Encodable(r.msg) && Encode(r.msg) == buf[..r.size]
  {
    var r := Deserialize(buf);
    hide Be16, Be32, Be64, Read16, Read32, Read64;
    match r.msg
    case Clipboard(text) =>
      Be32OfRead32(buf[1..]);
      assert buf[..r.size] == [buf[0]] + buf[1..][..4] + text;
    case AckClipboard(sequence) =>
      Be64OfRead64(buf[1..]);
      assert buf[..r.size] == [buf[0]] + buf[1..][..8];
    case UhidOutput(id, data) =>
      Be16OfRead16(buf[1..]);
      Be16OfRead16(buf[3..]);
      assert buf[..r.size] == [buf[0]] + buf[1..][..2] + buf[3..][..2] + data;
  }

  /** More bytes change neither a complete message nor an error. */
  lemma DeserializeIsStable(buf: seq<Byte>, more: seq<Byte>)
    requires !Deserialize(buf).Incomplete?
    ensures Deserialize(buf + more) == Deserialize(buf)
  {
    if Deserialize(buf).Complete? {
      var r := Deserialize(buf);
      EncodeOfDeserialize(buf);
      assert buf + more == Encode(r.msg) + (buf[r.size..] + more);
      DeserializeOfEncode(r.msg, buf[r.size..] + more);
    }
  }
}
