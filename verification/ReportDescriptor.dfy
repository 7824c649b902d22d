/**
 HID report descriptors (pkg/hid/internal/reportdesc/parser.go), in the item encoding of section
 6.2.2 of the USB Device Class Definition for HID 1.11: the item stream, the context each item is
 read in, and the report fields that context gives an Input or Output item.
 */
module DescriptorItems {
  import opened Values

  const MAX_DESCRIPTOR_SIZE := 64 * 1024
  const MAX_REPORT_SIZE := 4096
  const MAX_REPORT_BITS := MAX_REPORT_SIZE * 8
  const MAX_USAGES := 1024
  const MAX_DEPTH := 32
  const MAX_COLLECTIONS := 256

  datatype ParseError =
    | DescriptorSize | LongItem | TruncatedItem | ReservedItem
    | TooManyUsages | UsageRange | Delimiters
    | UsagePageRange | ReportIdRange | GlobalDepth | GlobalUnderflow
    | CollectionDepth | TooManyCollections | CollectionUnderflow
    | ReportTooLong | ReportOutside | Unbalanced

  /** A short item: its type (0 main, 1 global, 2 local, 3 reserved), tag and value. */
  datatype Item = Item(kind: nat, tag: nat, value: U32)

  function Le(bytes: seq<Byte>): (v: U32)
    requires |bytes| <= 4
    ensures |bytes| <= 2 ==> v < 0x1_0000
  {
    if |bytes| == 0 then 0
    else if |bytes| == 1 then bytes[0]
    else if |bytes| == 2 then bytes[0] + 0x100 * (bytes[1] as int)
    else if |bytes| == 3 then bytes[0] + 0x100 * (bytes[1] as int) + 0x1_0000 * (bytes[2] as int)
    else bytes[0] + 0x100 * (bytes[1] as int) + 0x1_0000 * (bytes[2] as int) + 0x100_0000 * (bytes[3] as int)
  }

  function DataSize(prefix: Byte): nat {
    if prefix % 4 == 3 then 4 else prefix % 4
  }

  /** The short item at the front of the data, and how many bytes it takes. */
  function NextItem(data: seq<Byte>): (r: Result<(Item, nat), ParseError>)
    requires data != []
    ensures r.Ok? ==> 0 < r.value.1 <= |data| && r.value.0.kind < 4 && r.value.0.tag < 16
  {
    var prefix := data[0];
    var size := DataSize(prefix);
    if prefix == 0xfe then Err(LongItem)
    else if size > |data| - 1 then Err(TruncatedItem)
    else Ok((Item((prefix / 4) % 4, prefix / 16, Le(data[1..1 + size])), 1 + size))
  }

  /** The whole item stream of a descriptor. */
  function Decode(data: seq<Byte>): Result<seq<Item>, ParseError>
    decreases |data|
  {
    if data == [] then Ok([])
    else
      match NextItem(data)
      case Err(e) => Err(e)
      case Ok((item, n)) =>
        match Decode(data[n..])
        case Err(e) => Err(e)
        case Ok(items) => Ok([item] + items)
  }

  // ----- What an item means in context ------------------------------------------------------

  datatype Globals = Globals(page: nat, size: nat, count: nat, id: nat)

  /** Global items in force, saved global states, and the Application of each open collection. */
  datatype Context = Context(global: Globals, stack: seq<Globals>, open: seq<int>, apps: nat)

  function Outermost(): Context {
    Context(Globals(0, 0, 0, 0), [], [], 0)
  }

  /** The Application collection the context is in, or -1. */
  function Current(ctx: Context): int {
    if ctx.open == [] then -1 else ctx.open[|ctx.open| - 1]
  }

  /** The item opens a top-level Application collection. */
  predicate OpensApplication(ctx: Context, item: Item) {
    item.kind == 0 && item.tag == 10 && ctx.open == [] && item.value == 1
  }

  function Advance(ctx: Context, item: Item): Context {
    if item.kind == 0 then
      if item.tag == 10 then
        if OpensApplication(ctx, item) then ctx.(open := [ctx.apps], apps := ctx.apps + 1)
        else ctx.(open := ctx.open + [Current(ctx)])
      else if item.tag == 12 && ctx.open != [] then ctx.(open := ctx.open[..|ctx.open| - 1])
      else ctx
    else if item.kind == 1 then
      match item.tag
      case 0 => ctx.(global := ctx.global.(page := item.value))
      case 7 => ctx.(global := ctx.global.(size := item.value))
      case 8 => ctx.(global := ctx.global.(id := item.value))
      case 9 => ctx.(global := ctx.global.(count := item.value))
      case 10 => ctx.(stack := ctx.stack + [ctx.global])
      case 11 => if ctx.stack == [] then ctx else ctx.(global := ctx.stack[|ctx.stack| - 1], stack := ctx.stack[..|ctx.stack| - 1])
      case _ => ctx
    else ctx
  }

  function ContextAfter(items: seq<Item>): Context {
    if items == [] then Outermost() else Advance(ContextAfter(items[..|items| - 1]), items[|items| - 1])
  }

  datatype Direction = Input | Output

  /** Bits one main item adds to a report of an Application collection. */
  datatype Field = Field(app: int, dir: Direction, id: nat, bits: nat)

  function FieldsOf(ctx: Context, item: Item): seq<Field> {
    if item.kind == 0 && (item.tag == 8 || item.tag == 9) then
      [Field(Current(ctx), if item.tag == 8 then Input else Output, ctx.global.id, ctx.global.size * ctx.global.count)]
    else []
  }

  /** Every report field of the descriptor, in order. */
  function Fields(items: seq<Item>): seq<Field> {
    if items == [] then []
    else Fields(items[..|items| - 1]) + FieldsOf(ContextAfter(items[..|items| - 1]), items[|items| - 1])
  }

  /** The Report IDs a collection uses in one direction. */
  ghost predicate UsesId(fields: seq<Field>, app: int, dir: Direction, id: nat) {
    exists k :: 0 <= k < |fields| && fields[k].app == app && fields[k].dir == dir && fields[k].id == id
  }

  /** The length in bits of one report of a collection. */
  function Bits(fields: seq<Field>, app: int, dir: Direction, id: nat): nat {
    if fields == [] then 0
    else
      var last := fields[|fields| - 1];
      Bits(fields[..|fields| - 1], app, dir, id) + (if last.app == app && last.dir == dir && last.id == id then last.bits else 0)
  }

  /**
   Local items: how many Usages came since the last main item and the first of them, whether a Usage Minimum
   came since then, and two leftovers that no main item clears, the last Usage Minimum and the last first Usage.
   */
  datatype Locals = Locals(count: nat, first: Option<U32>, ranged: bool, minimum: U32, stale: U32)

  function AdvanceLocals(l: Locals, item: Item): Locals {
    if item.kind == 0 then l.(count := 0, first := None, ranged := false)
    else if item.kind == 2 && item.tag == 0 then
      if l.count == 0 then l.(count := 1, first := Some(item.value), stale := item.value) else l.(count := l.count + 1)
    else if item.kind == 2 && item.tag == 1 then l.(ranged := true, minimum := item.value)
    else l
  }

  function LocalsAfter(items: seq<Item>): Locals {
    if items == [] then Locals(0, None, false, 0, 0) else AdvanceLocals(LocalsAfter(items[..|items| - 1]), items[|items| - 1])
  }

  /** The descriptor sets Report ID 0 explicitly. */
  ghost predicate SetsIdZero(items: seq<Item>) {
    exists k :: 0 <= k < |items| && items[k] == Item(1, 8, 0)
  }
}

/** The strict parser: one state updated item by item, then `finish` decides which collections are usable. */
module StrictParser {
  import opened Values
  import opened DescriptorItems

  datatype Usage = Usage(page: nat, id: nat)

  /** A usage without a page of its own takes the page in force. */
  function Resolve(page: nat, usage: U32): Usage {
    Usage(if usage > 0xffff then usage / 0x1_0000 else page, usage % 0x1_0000)
  }

  datatype Reports = Reports(input: map<nat, nat>, output: map<nat, nat>) {
    function In(dir: Direction): map<nat, nat> {
      if dir == Input then input else output
    }
  }

  datatype PState = PState(
    usagesFound: seq<Usage>,
    reports: seq<Reports>,
    global: Globals,
    stack: seq<Globals>,
    open: seq<int>,
    usages: seq<U32>,
    minimum: U32,
    hasMinimum: bool,
    invalidLayout: bool)

  function Fresh(): PState {
    PState([], [], Globals(0, 0, 0, 0), [], [], [], 0, false, false)
  }

  predicate GlobalsInRange(g: Globals) {
    g.page <= 0xffff && g.size < 0x1_0000_0000 && g.count < 0x1_0000_0000 && g.id <= 255
  }

  predicate WellFormed(p: PState) {
    && |p.reports| == |p.usagesFound| <= MAX_COLLECTIONS
    && GlobalsInRange(p.global) && (forall i :: 0 <= i < |p.stack| ==> GlobalsInRange(p.stack[i]))
    && (forall i :: 0 <= i < |p.open| ==> -1 <= p.open[i] < |p.reports|)
    && |p.stack| <= MAX_DEPTH && |p.open| <= MAX_DEPTH && |p.usages| <= MAX_USAGES
  }

  function GlobalItem(p: PState, tag: nat, value: U32): Result<PState, ParseError> {
    match tag
    case 0 => if value > 0xffff then Err(UsagePageRange) else Ok(p.(global := p.global.(page := value)))
    case 7 => Ok(p.(global := p.global.(size := value)))
    case 8 =>
      if value > 255 then Err(ReportIdRange)
      else Ok(p.(global := p.global.(id := value), invalidLayout := p.invalidLayout || value == 0))
    case 9 => Ok(p.(global := p.global.(count := value)))
    case 10 => if |p.stack| == MAX_DEPTH then Err(GlobalDepth) else Ok(p.(stack := p.stack + [p.global]))
    case 11 =>
      if |p.stack| == 0 then Err(GlobalUnderflow)
      else Ok(p.(global := p.stack[|p.stack| - 1], stack := p.stack[..|p.stack| - 1]))
    case _ => Ok(p)
  }

  function LocalItem(p: PState, tag: nat, value: U32): Result<PState, ParseError> {
    match tag
    case 0 => if |p.usages| >= MAX_USAGES then Err(TooManyUsages) else Ok(p.(usages := p.usages + [value]))
    case 1 => Ok(p.(minimum := value, hasMinimum := true))
    case 2 => if !p.hasMinimum || value < p.minimum then Err(UsageRange) else Ok(p)
    case 10 => Err(Delimiters)
    case _ => Ok(p)
  }

  /** The usage the parser gives a collection that opens now. */
  function NamedUsage(p: PState): Usage {
    Resolve(p.global.page, if p.usages != [] then p.usages[0] else p.minimum)
  }

  function Grown(m: map<nat, nat>, id: nat, bits: nat): Result<map<nat, nat>, ParseError> {
    var before := if id in m then m[id] else 0;
    if before > MAX_REPORT_BITS - bits then Err(ReportTooLong) else Ok(m[id := before + bits])
  }

  /** The product as the parser computes it, in 64 bits. */
  function FieldBits(g: Globals): nat {
    (g.size * g.count) % 0x1_0000_0000_0000_0000
  }

  /** The 64-bit product never wraps on values of the ranges the parser keeps. */
  lemma FieldBitsExact(g: Globals)
    requires GlobalsInRange(g)
    ensures FieldBits(g) == g.size * g.count
  {
    Product(g.size, g.count, 0xffff_ffff);
  }

  lemma Product(a: nat, b: nat, limit: nat)
    requires a <= limit && b <= limit
    ensures 0 <= a * b <= limit * limit
  {
    assert a * b <= limit * b;
    assert limit * b <= limit * limit;
  }

  function MainItem(p: PState, tag: nat, value: U32): Result<PState, ParseError>
    requires WellFormed(p)
  {
    var q := p.(usages := [], hasMinimum := false);
    var current := if p.open == [] then -1 else p.open[|p.open| - 1];
    match tag
    case 10 =>
      if |p.open| == MAX_DEPTH then Err(CollectionDepth)
      else if p.open == [] && value == 1 then
        if |p.usagesFound| == MAX_COLLECTIONS then Err(TooManyCollections)
        else Ok(q.(usagesFound := p.usagesFound + [NamedUsage(p)], reports := p.reports + [Reports(map[], map[])],
                   open := [|p.usagesFound|]))
      else Ok(q.(open := p.open + [current]))
    case 12 => if p.open == [] then Err(CollectionUnderflow) else Ok(q.(open := p.open[..|p.open| - 1]))
    case 8 => AddField(q, current, Input)
    case 9 => AddField(q, current, Output)
    case 11 =>
      if FieldBits(p.global) > MAX_REPORT_BITS then Err(ReportTooLong)
      else if current < 0 then Err(ReportOutside)
      else Ok(q)
    case _ => Ok(q)
  }

  function AddField(p: PState, current: int, dir: Direction): Result<PState, ParseError>
    requires current < |p.reports|
  {
    var bits := FieldBits(p.global);
    if bits > MAX_REPORT_BITS then Err(ReportTooLong)
    else if current < 0 then Err(ReportOutside)
    else
      var r := p.reports[current];
      match Grown(r.In(dir), p.global.id, bits)
      case Err(e) => Err(e)
      case Ok(m) => Ok(p.(reports := p.reports[current := if dir == Input then r.(input := m) else r.(output := m)]))
  }

  function StepItem(p: PState, item: Item): (r: Result<PState, ParseError>)
    requires WellFormed(p)
  {
    match item.kind
    case 0 => MainItem(p, item.tag, item.value)
    case 1 => GlobalItem(p, item.tag, item.value)
    case 2 => LocalItem(p, item.tag, item.value)
    case _ => Err(ReservedItem)
  }

  lemma StepWellFormed(p: PState, item: Item)
    requires WellFormed(p) && StepItem(p, item).Ok?
    ensures WellFormed(StepItem(p, item).value)
  {
    match item.kind
    case 0 => MainWellFormed(p, item.tag, item.value);
    case 1 => GlobalWellFormed(p, item.tag, item.value);
    case _ =>
  }

  lemma MainWellFormed(p: PState, tag: nat, value: U32)
    requires WellFormed(p) && MainItem(p, tag, value).Ok?
    ensures WellFormed(MainItem(p, tag, value).value)
  {
  }

  lemma GlobalWellFormed(p: PState, tag: nat, value: U32)
    requires WellFormed(p) && GlobalItem(p, tag, value).Ok?
    ensures WellFormed(GlobalItem(p, tag, value).value)
  {
  }

  /** The loop of Parse over the remaining bytes. */
  function ParseFrom(p: PState, data: seq<Byte>): (r: Result<PState, ParseError>)
    requires WellFormed(p)
    ensures r.Ok? ==> WellFormed(r.value)
    decreases |data|
  {
    if data == [] then Ok(p)
    else
      match NextItem(data)
      case Err(e) => Err(e)
      case Ok((item, n)) =>
        match StepItem(p, item)
        case Err(e) => Err(e)
        case Ok(q) => StepWellFormed(p, item); ParseFrom(q, data[n..])
  }

  /** Everything Parse does before `finish`. */
  function ParseItems(data: seq<Byte>): (r: Result<PState, ParseError>)
    ensures r.Ok? ==> WellFormed(r.value)
  {
    if |data| == 0 || |data| > MAX_DESCRIPTOR_SIZE then Err(DescriptorSize)
    else
      match ParseFrom(Fresh(), data)
      case Err(e) => Err(e)
      case Ok(p) => if p.open != [] || p.stack != [] then Err(Unbalanced) else Ok(p)
  }
}
