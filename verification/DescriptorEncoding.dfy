/**
 Writing descriptors: the bytes of an item stream by section 6.2.2.2 of the USB Device Class Definition for
 HID 1.11, which the parser's decoding inverts, and what the parser makes of the plainest useful descriptor.
 */
module DescriptorEncoding {
  import opened Values
  import opened DescriptorItems
  import opened StrictParser
  import opened LayoutTracking
  import opened DescriptorParser
  import opened Acceptance
  import opened UsageScan

  /** The n low bytes of a value, the least significant first. */
  function LeBytes(v: nat, n: nat): (s: seq<Byte>)
    ensures |s| == n
  {
    if n == 0 then [] else [v % 0x100] + LeBytes(v / 0x100, n - 1)
  }

  /** An item and the number of data bytes it is written with. */
  datatype Sized = Sized(item: Item, size: nat)

  /** A short item: fields in range, its value fits the bytes, and its prefix is not that of a long item. */
  predicate Encodable(s: Sized) {
    && s.item.kind < 4 && s.item.tag < 16
    && (match s.size
        case 0 => s.item.value == 0
        case 1 => s.item.value < 0x100
        case 2 => s.item.value < 0x1_0000
        case 4 => true
        case _ => false)
    && !(s.item.tag == 15 && s.item.kind == 3 && s.size == 2)
  }

  function EncodeItem(s: Sized): seq<Byte>
    requires Encodable(s)
  {
    [16 * s.item.tag + 4 * s.item.kind + (if s.size == 4 then 3 else s.size)] + LeBytes(s.item.value, s.size)
  }

  function Encode(stream: seq<Sized>): seq<Byte>
    requires forall k :: 0 <= k < |stream| ==> Encodable(stream[k])
  {
    if stream == [] then [] else EncodeItem(stream[0]) + Encode(stream[1..])
  }

  function ItemsOf(stream: seq<Sized>): seq<Item> {
    if stream == [] then [] else [stream[0].item] + ItemsOf(stream[1..])
  }

  lemma LeInverts(v: U32, n: nat)
    requires n in {0, 1, 2, 4} && (n == 0 ==> v == 0) && (n == 1 ==> v < 0x100) && (n == 2 ==> v < 0x1_0000)
    ensures Le(LeBytes(v, n)) == v
  {
    var a, b, c := v / 0x100, v / 0x100 / 0x100, v / 0x100 / 0x100 / 0x100;
    if n == 1 {
      assert LeBytes(v, 1) == [v % 0x100];
    } else if n == 2 {
      assert LeBytes(a, 1) == [a % 0x100] && LeBytes(v, 2) == [v % 0x100, a % 0x100];
    } else if n == 4 {
      assert LeBytes(c, 1) == [c % 0x100] && LeBytes(b, 2) == [b % 0x100, c % 0x100] && LeBytes(a, 3) == [a % 0x100, b % 0x100, c % 0x100];
      assert LeBytes(v, 4) == [v % 0x100, a % 0x100, b % 0x100, c % 0x100];
    }
  }

  lemma NextIsEncoded(s: Sized, rest: seq<Byte>)
    requires Encodable(s)
    ensures NextItem(EncodeItem(s) + rest) == Ok((s.item, 1 + s.size))
  {
    var data := EncodeItem(s) + rest;
    var code := if s.size == 4 then 3 else s.size;
    assert data[0] == 16 * s.item.tag + 4 * s.item.kind + code;
    assert data[1..1 + s.size] == LeBytes(s.item.value, s.size);
    LeInverts(s.item.value, s.size);
    assert DataSize(data[0]) == s.size && (data[0] / 4) % 4 == s.item.kind && data[0] / 16 == s.item.tag && data[0] != 0xfe;
  }

  /** Decoding inverts encoding, whatever sizes the items are written with. */
  lemma {:induction false} DecodeInverts(stream: seq<Sized>)
    requires forall k :: 0 <= k < |stream| ==> Encodable(stream[k])
    ensures Decode(Encode(stream)) == Ok(ItemsOf(stream))
  {
    if stream != [] {
      var rest := Encode(stream[1..]);
      NextIsEncoded(stream[0], rest);
      assert (EncodeItem(stream[0]) + rest)[1 + stream[0].size..] == rest;
      DecodeInverts(stream[1..]);
    }
  }

  // ----- The plainest useful device -----------------------------------------------------------------

  /** One collection of this page and usage, with an Input report and an Output report of so many fields of this size. */
  predicate PlainDevice(items: seq<Item>, page: U32, usage: U32, size: U32, inputs: U32, outputs: U32) {
    && |items| == 9
    && items[0] == Item(1, 0, page) && items[1] == Item(2, 0, usage) && items[2] == Item(0, 10, 1)
    && items[3] == Item(1, 7, size) && items[4] == Item(1, 9, inputs) && items[5].kind == 0 && items[5].tag == 8
    && items[6] == Item(1, 9, outputs) && items[7].kind == 0 && items[7].tag == 9
    && items[8] == Item(0, 12, 0)
  }

  lemma PlainOpens(items: seq<Item>, page: U32, usage: U32, size: U32, inputs: U32, outputs: U32)
    requires PlainDevice(items, page, usage, size, inputs, outputs) && page <= 0xffff
    ensures AllowedAt(items, 0) && AllowedAt(items, 1) && AllowedAt(items, 2)
    ensures LeadsTo(items[..3], InPlain(Globals(page, 0, 0, 0)), Stale(usage), [NamedOpening(page, usage)], [])
  {
    var g, named := Globals(page, 0, 0, 0), Locals(1, Some(usage), false, 0, usage);
    assert items[..0] == [] && LeadsTo([], Outside(0), NO_LOCALS, [], []);
    Plain(items, 0, Outside(0), NO_LOCALS, [], [], Context(g, [], [], 0), NO_LOCALS);
    Plain(items, 1, Context(g, [], [], 0), NO_LOCALS, [], [], Context(g, [], [], 0), named);
    Onward(items, 2, Context(g, [], [], 0), named, [], [], InPlain(g), Stale(usage));
    assert [] + [NamedOpening(page, usage)] == [NamedOpening(page, usage)];
  }

  /** Inside the collection, with these globals. */
  function InPlain(g: Globals): Context {
    Context(g, [], [0], 1)
  }

  function Stale(usage: U32): Locals {
    Locals(0, None, false, 0, usage)
  }

  function NamedOpening(page: U32, usage: U32): Opening {
    Opening(page, Locals(1, Some(usage), false, 0, usage))
  }

  /** A report count and the report item it is for. */
  lemma PlainReport(items: seq<Item>, k: nat, g: Globals, l: Locals, openings: seq<Opening>, fields: seq<Field>, count: U32, dir: Direction, bits: nat)
    requires k + 1 < |items| && items[k] == Item(1, 9, count) && items[k + 1].kind == 0 && items[k + 1].tag == (if dir == Input then 8 else 9)
    requires LeadsTo(items[..k], InPlain(g), l, openings, fields) && l.count == 0 && l.first == None && !l.ranged
    requires bits == g.size * count && bits <= 32768 && g.id == 0
    ensures AllowedAt(items, k) && AllowedAt(items, k + 1)
    ensures LeadsTo(items[..k + 2], InPlain(g.(count := count)), l, openings, fields + [Field(0, dir, 0, bits)])
  {
    var h := g.(count := count);
    Plain(items, k, InPlain(g), l, openings, fields, InPlain(h), l);
    Onward(items, k + 1, InPlain(h), l, openings, fields, InPlain(h), l);
    assert openings + [] == openings;
  }

  lemma PlainSized(items: seq<Item>, page: U32, usage: U32, size: U32, inputs: U32, outputs: U32)
    requires PlainDevice(items, page, usage, size, inputs, outputs) && page <= 0xffff
    ensures AllowedAt(items, 0) && AllowedAt(items, 1) && AllowedAt(items, 2) && AllowedAt(items, 3)
    ensures LeadsTo(items[..4], InPlain(Globals(page, size, 0, 0)), Stale(usage), [NamedOpening(page, usage)], [])
  {
    var g, h := Globals(page, 0, 0, 0), Globals(page, size, 0, 0);
    PlainOpens(items, page, usage, size, inputs, outputs);
    assert Goes(InPlain(g), Stale(usage), items[3], InPlain(h), Stale(usage));
    Plain(items, 3, InPlain(g), Stale(usage), [NamedOpening(page, usage)], [], InPlain(h), Stale(usage));
  }

  lemma PlainInput(items: seq<Item>, page: U32, usage: U32, size: U32, inputs: U32, outputs: U32, input: nat)
    requires PlainDevice(items, page, usage, size, inputs, outputs) && page <= 0xffff && input == size * inputs <= 32768
    ensures forall k :: 0 <= k < 6 ==> AllowedAt(items, k)
    ensures LeadsTo(items[..6], InPlain(Globals(page, size, inputs, 0)), Stale(usage), [NamedOpening(page, usage)], [] + [Field(0, Input, 0, input)])
  {
    PlainSized(items, page, usage, size, inputs, outputs);
    assert items[4] == Item(1, 9, inputs) && items[5].kind == 0 && items[5].tag == 8;
    PlainReport(items, 4, Globals(page, size, 0, 0), Stale(usage), [NamedOpening(page, usage)], [], inputs, Input, input);
  }

  lemma PlainOutput(items: seq<Item>, page: U32, usage: U32, size: U32, inputs: U32, outputs: U32, input: nat, output: nat)
    requires PlainDevice(items, page, usage, size, inputs, outputs) && page <= 0xffff
    requires input == size * inputs <= 32768 && output == size * outputs <= 32768
    ensures forall k :: 0 <= k < 8 ==> AllowedAt(items, k)
    ensures LeadsTo(items[..8], InPlain(Globals(page, size, outputs, 0)), Stale(usage), [NamedOpening(page, usage)],
                    [] + [Field(0, Input, 0, input)] + [Field(0, Output, 0, output)])
  {
    PlainInput(items, page, usage, size, inputs, outputs, input);
    PlainReport(items, 6, Globals(page, size, inputs, 0), Stale(usage), [NamedOpening(page, usage)], [] + [Field(0, Input, 0, input)],
                outputs, Output, output);
  }

  lemma PlainReports(items: seq<Item>, page: U32, usage: U32, size: U32, inputs: U32, outputs: U32, input: nat, output: nat)
    requires PlainDevice(items, page, usage, size, inputs, outputs) && page <= 0xffff
    requires input == size * inputs <= 32768 && output == size * outputs <= 32768
    ensures forall k :: 0 <= k < 9 ==> AllowedAt(items, k)
    ensures LeadsTo(items[..9], Context(Globals(page, size, outputs, 0), [], [], 1), Stale(usage), [NamedOpening(page, usage)],
                    [] + [Field(0, Input, 0, input)] + [Field(0, Output, 0, output)])
  {
    var g := Globals(page, size, outputs, 0);
    PlainOutput(items, page, usage, size, inputs, outputs, input, output);
    assert Goes(InPlain(g), Stale(usage), items[8], Context(g, [], [], 1), Stale(usage));
    Plain(items, 8, InPlain(g), Stale(usage), [NamedOpening(page, usage)], [] + [Field(0, Input, 0, input)] + [Field(0, Output, 0, output)],
          Context(g, [], [], 1), Stale(usage));
  }

  lemma TwoFields(app: int, dir: Direction, id: nat, input: nat, output: nat)
    ensures var fields := [Field(0, Input, 0, input), Field(0, Output, 0, output)];
            && (UsesId(fields, app, dir, id) <==> app == 0 && id == 0)
            && Bits(fields, 0, Input, 0) == input && Bits(fields, 0, Output, 0) == output
            && Bits(fields, app, dir, id) <= input + output && (app != 0 || id != 0 ==> Bits(fields, app, dir, id) == 0)
  {
    var first, second := Field(0, Input, 0, input), Field(0, Output, 0, output);
    var fields := [first, second];
    assert fields[..1] == [first] && [first][..0] == [] && fields[0] == first && fields[1] == second;
    assert Bits([first], app, dir, id) == (if app == 0 && dir == Input && id == 0 then input else 0);
    assert Bits(fields, app, dir, id) == Bits([first], app, dir, id) + (if app == 0 && dir == Output && id == 0 then output else 0);
    assert Bits(fields, 0, Input, 0) == Bits([first], 0, Input, 0) && Bits([first], 0, Input, 0) == input;
    assert Bits(fields, 0, Output, 0) == Bits([first], 0, Output, 0) + output && Bits([first], 0, Output, 0) == 0;
  }

  /** Such a stream is accepted as one supported collection of just this page and usage. */
  lemma PlainIsSupported(data: seq<Byte>, items: seq<Item>, page: U32, usage: U32, size: U32, inputs: U32, outputs: U32, input: nat, output: nat)
    requires 0 < |data| <= 64 * 1024 && Decode(data) == Ok(items) && PlainDevice(items, page, usage, size, inputs, outputs)
    requires page <= 0xffff && usage <= 0xffff && 1 <= input == size * inputs <= 32768 && 1 <= output == size * outputs <= 32768
    ensures ParseItems(data).Ok? && ParseItems(data).value.usagesFound == [Usage(page, usage)] && Scan(data) == Ok([Usage(page, usage)])
    ensures Usable(items, 0)
    ensures ExactLayout(Fields(items), 0, Input, ReportSpec(0, (input + 7) / 8)) && ExactLayout(Fields(items), 0, Output, ReportSpec(0, (output + 7) / 8))
  {
    PlainIsAccepted(data, items, page, usage, size, inputs, outputs, input, output);
    PlainFields(items, page, usage, size, inputs, outputs, input, output);
    PlainIsUsable(items, input, output);
    OneUsage(data, items, page, usage);
  }

  lemma PlainFields(items: seq<Item>, page: U32, usage: U32, size: U32, inputs: U32, outputs: U32, input: nat, output: nat)
    requires PlainDevice(items, page, usage, size, inputs, outputs) && page <= 0xffff
    requires input == size * inputs <= 32768 && output == size * outputs <= 32768
    ensures Fields(items) == [Field(0, Input, 0, input), Field(0, Output, 0, output)] && Openings(items) == [NamedOpening(page, usage)]
    ensures forall k :: 0 <= k < 9 ==> items[k] != Item(1, 8, 0)
  {
    PlainReports(items, page, usage, size, inputs, outputs, input, output);
    assert items[..9] == items;
    assert [] + [Field(0, Input, 0, input)] + [Field(0, Output, 0, output)] == [Field(0, Input, 0, input), Field(0, Output, 0, output)];
  }

  lemma PlainIsAccepted(data: seq<Byte>, items: seq<Item>, page: U32, usage: U32, size: U32, inputs: U32, outputs: U32, input: nat, output: nat)
    requires 0 < |data| <= 64 * 1024 && Decode(data) == Ok(items) && PlainDevice(items, page, usage, size, inputs, outputs)
    requires page <= 0xffff && 1 <= input == size * inputs <= 32768 && 1 <= output == size * outputs <= 32768
    ensures ParseItems(data).Ok?
  {
    assert WithinLimits(items) by {
      PlainFields(items, page, usage, size, inputs, outputs, input, output);
      PlainIsUsable(items, input, output);
    }
    assert Closed(items) && forall k :: 0 <= k < 9 ==> AllowedAt(items, k) by {
      PlainReports(items, page, usage, size, inputs, outputs, input, output);
      assert items[..9] == items;
    }
    assert Acceptable(data);
    ParseAccepts(data);
  }

  lemma OneUsage(data: seq<Byte>, items: seq<Item>, page: U32, usage: U32)
    requires ParseItems(data).Ok? && Decode(data) == Ok(items) && Openings(items) == [NamedOpening(page, usage)]
    requires page <= 0xffff && usage <= 0xffff
    ensures ParseItems(data).value.usagesFound == [Usage(page, usage)] && Scan(data) == Ok([Usage(page, usage)])
  {
    BothRead(data);
    assert ParseItems(data).value.usagesFound == [Usage(page, usage)] && Scan(data).value == [Usage(page, usage)];
  }

  /**
   The descriptor of a device with one collection, however its items are written, gives a supported collection
   with its page and usage and with both report lengths rounded up to bytes.
   */
  lemma PlainDeviceIsSupported(data: seq<Byte>, stream: seq<Sized>, page: U32, usage: U32, size: U32, inputs: U32, outputs: U32, input: nat, output: nat)
    requires (forall k :: 0 <= k < |stream| ==> Encodable(stream[k])) && data == Encode(stream)
    requires |data| <= 64 * 1024 && PlainDevice(ItemsOf(stream), page, usage, size, inputs, outputs)
    requires page <= 0xffff && usage <= 0xffff && 1 <= input == size * inputs <= 32768 && 1 <= output == size * outputs <= 32768
    ensures ParseItems(data).Ok? && ParseItems(data).value.usagesFound == [Usage(page, usage)] && Scan(data) == Ok([Usage(page, usage)])
    ensures Decode(data) == Ok(ItemsOf(stream)) && Usable(ItemsOf(stream), 0)
    ensures ExactLayout(Fields(ItemsOf(stream)), 0, Input, ReportSpec(0, (input + 7) / 8))
    ensures ExactLayout(Fields(ItemsOf(stream)), 0, Output, ReportSpec(0, (output + 7) / 8))
  {
    DecodeInverts(stream);
    assert |data| > 0;
    PlainIsSupported(data, ItemsOf(stream), page, usage, size, inputs, outputs, input, output);
  }

  lemma PlainIsUsable(items: seq<Item>, input: nat, output: nat)
    requires |items| == 9 && Fields(items) == [Field(0, Input, 0, input), Field(0, Output, 0, output)]
    requires forall k :: 0 <= k < 9 ==> items[k] != Item(1, 8, 0)
    requires 1 <= input <= 32768 && 1 <= output <= 32768
    ensures Usable(items, 0) && WithinLimits(items)
    ensures ExactLayout(Fields(items), 0, Input, ReportSpec(0, (input + 7) / 8)) && ExactLayout(Fields(items), 0, Output, ReportSpec(0, (output + 7) / 8))
  {
    var fields := Fields(items);
    forall app, dir, id
      ensures UsesId(fields, app, dir, id) <==> app == 0 && id == 0
      ensures Bits(fields, app, dir, id) <= MAX_REPORT_BITS
      ensures Bits(fields, 0, dir, 0) == if dir == Input then input else output
    {
      TwoFields(app, dir, id, input, output);
      TwoFields(0, dir, 0, input, output);
      if app == 0 && id == 0 {
        assert Bits(fields, app, dir, id) == if dir == Input then input else output;
      }
    }
    assert SoleReport(fields, 0, Input, 0) && SoleReport(fields, 0, Output, 0);
    forall dir: Direction ensures HasSole(fields, 0, dir) && !Mixed(fields, dir) {
      assert SoleReport(fields, 0, dir, 0);
    }
  }
}
