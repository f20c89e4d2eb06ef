/**
 * What a HID report descriptor says of the bytes of a report (Device Class Definition for HID
 * 1.11, section 6.2.2), for the items used by the descriptor of the gamepads.
 */
module HidDescriptor {
  import opened Common
  import opened Binary

  /** The fields of one Input item: the usage of each, its size in bits and the offset of the first one. */
  datatype Block = Block(page: nat, usages: seq<nat>, max: nat, size: nat, offset: nat)

  /** first: the last usage minimum. */
  datatype Parser = Parser(
    page: nat, usages: seq<nat>, first: nat, max: nat, size: nat, count: nat, offset: nat, blocks: seq<Block>)

  const START := Parser(0, [], 0, 0, 0, 0, 0, [])

  /** A short item: its tag with the size of its data in the two lower bits, then its data. */
  predicate IsItem(item: seq<Byte>) {
    item != [] && |item| == 1 + (if item[0] % 4 == 3 then 4 else item[0] % 4)
  }

  function Data(item: seq<Byte>): nat
    requires IsItem(item)
  {
    Le(item[1..])
  }

  /** Little-endian. */
  function Le(b: seq<Byte>): nat {
    if b == [] then 0 else (b[0] as int) + 0x100 * Le(b[1..])
  }

  function Range(first: nat, last: nat): (r: seq<nat>) {
    if last < first then [] else seq(last - first + 1, i => first + i)
  }

  function Interpret(p: Parser, item: seq<Byte>): Parser
    requires IsItem(item)
  {
    Apply(p, item[0] / 4, Data(item))
  }

  function Apply(p: Parser, tag: nat, v: nat): Parser {
    match tag
    case 0x01 => p.(page := v)                                  // Usage Page
    case 0x02 => p.(usages := p.usages + [v])                   // Usage
    case 0x06 => p.(first := v)                                 // Usage Minimum
    case 0x0a => p.(usages := p.usages + Range(p.first, v))     // Usage Maximum
    case 0x09 => p.(max := v)                                   // Logical Maximum
    case 0x1d => p.(size := v)                                  // Report Size
    case 0x25 => p.(count := v)                                 // Report Count
    case 0x20 =>                                                // Input
      p.(blocks := p.blocks + [Block(p.page, p.usages, p.max, p.size, p.offset)],
         offset := p.offset + p.size * p.count, usages := [])
    case 0x28 => p.(usages := [])                               // Collection
    case _ => p                                                 // Logical Minimum, End Collection
  }

  /** An item with one byte of data. */
  lemma Short(p: Parser, prefix: Byte, v: Byte)
    requires prefix % 4 == 1
    ensures IsItem([prefix, v]) && Interpret(p, [prefix, v]) == Apply(p, prefix / 4, v)
  {
    hide Apply;
    assert [prefix, v][1..] == [v] && [v][1..] == [];
    assert Le([v]) == v + 0x100 * Le([]);
  }

  predicate AreItems(items: seq<seq<Byte>>) {
    forall item | item in items :: IsItem(item)
  }

  function InterpretAll(p: Parser, items: seq<seq<Byte>>): Parser
    requires AreItems(items)
    decreases |items|
  {
    if items == [] then p else InterpretAll(Interpret(p, items[0]), items[1..])
  }

  function Flatten(items: seq<seq<Byte>>): seq<Byte> {
    if items == [] then [] else items[0] + Flatten(items[1..])
  }

  /** The offset in bits of the field of a usage. */
  function OffsetOf(blocks: seq<Block>, page: nat, usage: nat): Option<nat> {
    if blocks == [] then None
    else if blocks[0].page == page && usage in blocks[0].usages then
      Some(blocks[0].offset + blocks[0].size * Index(blocks[0].usages, usage))
    else OffsetOf(blocks[1..], page, usage)
  }

  function Index(s: seq<nat>, x: nat): nat
    requires x in s
  {
    if s[0] == x then 0 else 1 + Index(s[1..], x)
  }

  lemma {:induction false} InterpretAppend(p: Parser, items: seq<seq<Byte>>, more: seq<seq<Byte>>)
    requires AreItems(items) && AreItems(more)
    ensures AreItems(items + more)
    ensures InterpretAll(p, items + more) == InterpretAll(InterpretAll(p, items), more)
    decreases |items|
  {
    hide Interpret, IsItem;
    if items == [] {
      assert items + more == more;
    } else {
      assert (items + more)[1..] == items[1..] + more;
      InterpretAppend(Interpret(p, items[0]), items[1..], more);
    }
  }

  lemma InterpretOne(p: Parser, item: seq<Byte>)
    requires IsItem(item)
    ensures InterpretAll(p, [item]) == Interpret(p, item)
  {
    assert [item][1..] == [];
  }

  lemma InterpretTwo(p: Parser, a: seq<Byte>, b: seq<Byte>)
    requires IsItem(a) && IsItem(b)
    ensures AreItems([a, b]) && InterpretAll(p, [a, b]) == Interpret(Interpret(p, a), b)
  {
    hide Interpret, IsItem;
    InterpretOne(p, a);
    InterpretOne(Interpret(p, a), b);
    InterpretAppend(p, [a], [b]);
    assert [a] + [b] == [a, b];
  }

  lemma InterpretThree(p: Parser, a: seq<Byte>, b: seq<Byte>, c: seq<Byte>)
    requires IsItem(a) && IsItem(b) && IsItem(c)
    ensures AreItems([a, b, c]) && InterpretAll(p, [a, b, c]) == Interpret(Interpret(Interpret(p, a), b), c)
  {
    hide Interpret, IsItem;
    InterpretTwo(p, a, b);
    InterpretOne(Interpret(Interpret(p, a), b), c);
    InterpretAppend(p, [a, b], [c]);
    assert [a, b] + [c] == [a, b, c];
  }

  lemma InterpretFive(p: Parser, a: seq<Byte>, b: seq<Byte>, c: seq<Byte>, d: seq<Byte>, e: seq<Byte>)
    requires IsItem(a) && IsItem(b) && IsItem(c) && IsItem(d) && IsItem(e)
    ensures AreItems([a, b, c, d, e])
    ensures InterpretAll(p, [a, b, c, d, e]) == Interpret(Interpret(Interpret(Interpret(Interpret(p, a), b), c), d), e)
  {
    hide Interpret, IsItem;
    InterpretThree(p, a, b, c);
    InterpretTwo(Interpret(Interpret(Interpret(p, a), b), c), d, e);
    InterpretAppend(p, [a, b, c], [d, e]);
    assert [a, b, c] + [d, e] == [a, b, c, d, e];
  }

  /** The items that give the format of the fields of one or two bytes of maximum, and declare them. */
  lemma FormatIs(p: Parser, min: Byte, max: seq<Byte>, a: Byte, x: Byte, b: Byte, y: Byte, flags: Byte)
    requires IsItem(max) && max[0] / 4 == 0x09
    requires (a == 0x75 && b == 0x95) || (a == 0x95 && b == 0x75)
    ensures var size, count := if a == 0x75 then x else y, if a == 0x75 then y else x;
            var items := [[0x15, min], max, [a, x], [b, y], [0x81, flags]];
            && AreItems(items)
            && InterpretAll(p, items)
                 == p.(max := Data(max), size := size, count := count, usages := [], offset := p.offset + size * count,
                       blocks := p.blocks + [Block(p.page, p.usages, Data(max), size, p.offset)])
  {
    hide IsItem, Data, Interpret;
    Short(p, 0x15, min);
    var q := p.(max := Data(max));
    assert Interpret(p, max) == q by { MaximumIs(p, max); }
    Short(q, a, x);
    Short(Apply(q, a / 4, x), b, y);
    Short(Apply(Apply(q, a / 4, x), b / 4, y), 0x81, flags);
    InterpretFive(p, [0x15, min], max, [a, x], [b, y], [0x81, flags]);
  }

  lemma MaximumIs(p: Parser, max: seq<Byte>)
    requires IsItem(max) && max[0] / 4 == 0x09
    ensures Interpret(p, max) == p.(max := Data(max))
  {
    hide Data;
  }

  /** A usage page with two usages. */
  lemma TwoUsages(p: Parser, page: Byte, u: Byte, v: Byte)
    requires p.usages == []
    ensures AreItems([[0x05, page], [0x09, u], [0x09, v]])
    ensures InterpretAll(p, [[0x05, page], [0x09, u], [0x09, v]]) == p.(page := page, usages := [u, v])
  {
    hide IsItem, Interpret;
    var q := p.(page := page);
    Short(p, 0x05, page);
    Short(q, 0x09, u);
    assert [] + [u] == [u] && [u] + [v] == [u, v];
    Short(q.(usages := [u]), 0x09, v);
    InterpretThree(p, [0x05, page], [0x09, u], [0x09, v]);
  }

  lemma OneUsage(p: Parser, page: Byte, u: Byte)
    requires p.usages == []
    ensures AreItems([[0x05, page], [0x09, u]])
    ensures InterpretAll(p, [[0x05, page], [0x09, u]]) == p.(page := page, usages := [u])
  {
    hide IsItem, Interpret;
    Short(p, 0x05, page);
    Short(p.(page := page), 0x09, u);
    assert [] + [u] == [u];
    InterpretTwo(p, [0x05, page], [0x09, u]);
  }

  lemma UsageRange(p: Parser, page: Byte, u: Byte, v: Byte)
    requires p.usages == []
    ensures AreItems([[0x05, page], [0x19, u], [0x29, v]])
    ensures InterpretAll(p, [[0x05, page], [0x19, u], [0x29, v]]) == p.(page := page, first := u, usages := Range(u, v))
  {
    hide IsItem, Interpret, Range;
    Short(p, 0x05, page);
    Short(p.(page := page), 0x19, u);
    Short(p.(page := page, first := u), 0x29, v);
    assert [] + Range(u, v) == Range(u, v);
    InterpretThree(p, [0x05, page], [0x19, u], [0x29, v]);
  }

  lemma {:induction false} FlattenSize(items: seq<seq<Byte>>)
    requires AreItems(items)
    ensures |Flatten(items)| <= 5 * |items|
  {
    if items != [] {
      assert IsItem(items[0]);
      FlattenSize(items[1..]);
    }
  }
}
