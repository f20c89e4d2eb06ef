/** Big-endian integers in byte buffers (app/src/util/binary.h), the widest built from their halves. */
module Binary {
  import opened Common

  type Byte = b: int | 0 <= b < 0x100 witness 0
  type I16 = x: int | -0x8000 <= x < 0x8000 witness 0
  type U16 = x: int | 0 <= x < 0x1_0000 witness 0
  type U32 = x: int | 0 <= x < 0x1_0000_0000 witness 0
  type U64 = x: int | 0 <= x < 0x1_0000_0000_0000_0000 witness 0

  function Be16(v: U16): (b: seq<Byte>)
    ensures |b| == 2
  {
    [v / 0x100, v % 0x100]
  }

  function Be32(v: U32): (b: seq<Byte>)
    ensures |b| == 4
  {
    Be16(v / 0x1_0000) + Be16(v % 0x1_0000)
  }

  function Be64(v: U64): (b: seq<Byte>)
    ensures |b| == 8
  {
    Be32(v / 0x1_0000_0000) + Be32(v % 0x1_0000_0000)
  }

  function Read16(b: seq<Byte>): U16
    requires |b| >= 2
  {
    (b[0] as int) * 0x100 + b[1]
  }

  function Read32(b: seq<Byte>): U32
    requires |b| >= 4
  {
    (Read16(b) as int) * 0x1_0000 + Read16(b[2..])
  }

  function Read64(b: seq<Byte>): U64
    requires |b| >= 8
  {
    (Read32(b) as int) * 0x1_0000_0000 + Read32(b[4..])
  }

  lemma Read16OfBe16(v: U16, rest: seq<Byte>)
    ensures Read16(Be16(v) + rest) == v
  {
  }

  lemma Read32OfBe32(v: U32, rest: seq<Byte>)
    ensures Read32(Be32(v) + rest) == v
  {
    hide Be16, Read16;
    var hi, lo := v / 0x1_0000, v % 0x1_0000;
    Read16OfBe16(hi, Be16(lo) + rest);
    Read16OfBe16(lo, rest);
    assert Be32(v) + rest == Be16(hi) + (Be16(lo) + rest);
    assert (Be32(v) + rest)[2..] == Be16(lo) + rest;
  }

  lemma Read64OfBe64(v: U64, rest: seq<Byte>)
    ensures Read64(Be64(v) + rest) == v
  {
    hide Be32, Read32;
    var hi, lo := v / 0x1_0000_0000, v % 0x1_0000_0000;
    Read32OfBe32(hi, Be32(lo) + rest);
    Read32OfBe32(lo, rest);
    assert Be64(v) + rest == Be32(hi) + (Be32(lo) + rest);
    assert (Be64(v) + rest)[4..] == Be32(lo) + rest;
  }

  lemma Be16OfRead16(b: seq<Byte>)
    requires |b| >= 2
    ensures Be16(Read16(b)) == b[..2]
  {
  }

  lemma Be32OfRead32(b: seq<Byte>)
    requires |b| >= 4
    ensures Be32(Read32(b)) == b[..4]
  {
    hide Be16, Read16;
    Be16OfRead16(b);
    Be16OfRead16(b[2..]);
    assert b[..4] == b[..2] + b[2..][..2];
  }

  lemma Be64OfRead64(b: seq<Byte>)
    requires |b| >= 8
    ensures Be64(Read64(b)) == b[..8]
  {
    hide Be32, Read32;
    Be32OfRead32(b);
    Be32OfRead32(b[4..]);
    assert b[..8] == b[..4] + b[4..][..4];
  }
}
