/**
 The tolerant usage scan and the inventory built on it (pkg/hid/internal/reportdesc/inventory.go), against
 the strict parser. Both are measured by what the descriptor itself says at each opening of a top-level
 Application collection, so that agreement can be stated exactly.
 */
module UsageScan {
  import opened Values
  import opened DescriptorItems
  import opened StrictParser
  import opened LayoutTracking
  import opened DescriptorParser
  import opened Acceptance

  // ----- What the descriptor says at an opening ----------------------------------------------

  /** The opening of a top-level Application collection: the page in force and the local items. */
  datatype Opening = Opening(page: nat, locals: Locals)

  function Openings(items: seq<Item>): seq<Opening> {
    if items == [] then []
    else
      var rest, last := items[..|items| - 1], items[|items| - 1];
      Openings(rest) +
      (if OpensApplication(ContextAfter(rest), last) then [Opening(ContextAfter(rest).global.page, LocalsAfter(rest))] else [])
  }

  /** The collection is named by an item of its own. */
  predicate Named(o: Opening) {
    o.locals.first.Some? || o.locals.ranged
  }

  /** The usage the strict parser gives the collection. */
  function StrictReading(o: Opening): Usage {
    Resolve(o.page, if o.locals.first.Some? then o.locals.first.value else o.locals.minimum)
  }

  /** The usage the scan gives it. */
  function ScanReading(o: Opening): Usage {
    Resolve(o.page, if o.locals.first.None? && o.locals.ranged then o.locals.minimum else o.locals.stale)
  }

  // ----- The scan ----------------------------------------------------------------------------

  datatype ScanState = ScanState(found: seq<Usage>, page: U32, stack: seq<U32>, usages: nat, first: U32, minimum: U32, ranged: bool, depth: nat)

  const EMPTY_SCAN := ScanState([], 0, [], 0, 0, 0, false, 0)

  function ScanItem(s: ScanState, item: Item): Result<ScanState, ParseError> {
    match item.kind
    case 0 =>
      var t := s.(usages := 0, ranged := false);
      if item.tag == 10 then
        if s.depth == 0 && item.value == 1 then
          if |s.found| == MAX_COLLECTIONS then Err(TooManyCollections)
          else
            var usage := if s.usages != 0 || !s.ranged then s.first else s.minimum;
            Ok(t.(found := s.found + [Resolve(s.page % 0x1_0000, usage)], depth := 1))
        else Ok(t.(depth := s.depth + 1))
      else if item.tag == 12 && s.depth > 0 then Ok(t.(depth := s.depth - 1))
      else Ok(t)
    case 1 =>
      if item.tag == 0 then Ok(s.(page := item.value))
      else if item.tag == 10 && |s.stack| < MAX_DEPTH then Ok(s.(stack := s.stack + [s.page]))
      else if item.tag == 11 && |s.stack| > 0 then Ok(s.(page := s.stack[|s.stack| - 1], stack := s.stack[..|s.stack| - 1]))
      else Ok(s)
    case 2 =>
      if item.tag == 0 then Ok(s.(first := if s.usages == 0 then item.value else s.first, usages := s.usages + 1))
      else if item.tag == 1 then Ok(s.(minimum := item.value, ranged := true))
      else Ok(s)
    case _ => Ok(s)
  }

  /** What the scan takes next: a short item, or a long one to be skipped whole. */
  function TakeItem(data: seq<Byte>): (r: Result<(Option<Item>, nat), ParseError>)
    requires data != []
    ensures r.Ok? ==> 0 < r.value.1 <= |data|
  {
    if data[0] == 0xfe then
      if |data| < 3 || data[1] > |data| - 3 then Err(TruncatedItem) else Ok((None, 3 + (data[1] as int)))
    else
      match NextItem(data)
      case Err(e) => Err(e)
      case Ok((item, n)) => Ok((Some(item), n))
  }

  function ScanTaken(s: ScanState, taken: Option<Item>): Result<ScanState, ParseError> {
    if taken.None? then Ok(s) else ScanItem(s, taken.value)
  }

  /** The loop of the scan over the remaining bytes. */
  function ScanFrom(s: ScanState, data: seq<Byte>): Result<ScanState, ParseError>
    decreases |data|
  {
    if data == [] then Ok(s)
    else
      match TakeItem(data)
      case Err(e) => Err(e)
      case Ok((taken, n)) =>
        match ScanTaken(s, taken)
        case Err(e) => Err(e)
        case Ok(t) => ScanFrom(t, data[n..])
  }

  function Scan(data: seq<Byte>): Result<seq<Usage>, ParseError> {
    if |data| == 0 || |data| > MAX_DESCRIPTOR_SIZE then Err(DescriptorSize)
    else
      match ScanFrom(EMPTY_SCAN, data)
      case Err(e) => Err(e)
      case Ok(s) => Ok(s.found)
  }

  /** One short item of the scan. */
  method ScanStep(before: ScanState, taken: Option<Item>) returns (s: ScanState, err: Option<ParseError>)
    ensures match ScanTaken(before, taken)
            case Ok(t) => err == None && s == t
            case Err(e) => err == Some(e)
  {
    s, err := before, None;
    if taken.None? {
      return;
    }
    var item := taken.value;
    if item.kind == 0 {
      if item.tag == 10 {
        if s.depth == 0 && item.value == 1 {
          if |s.found| == MAX_COLLECTIONS {
            return s, Some(TooManyCollections);
          }
          var usage := s.minimum;
          if s.usages != 0 || !s.ranged {
            usage := s.first;
          }
          s := s.(found := s.found + [Resolve(s.page % 0x1_0000, usage)]);
        }
        s := s.(depth := s.depth + 1);
      } else if item.tag == 12 {
        if s.depth > 0 {
          s := s.(depth := s.depth - 1);
        }
      }
      s := s.(usages := 0, ranged := false);
    } else if item.kind == 1 {
      if item.tag == 0 {
        s := s.(page := item.value);
      } else if item.tag == 10 {
        if |s.stack| < MAX_DEPTH {
          s := s.(stack := s.stack + [s.page]);
        }
      } else if item.tag == 11 {
        if |s.stack| > 0 {
          s := s.(page := s.stack[|s.stack| - 1], stack := s.stack[..|s.stack| - 1]);
        }
      }
    } else if item.kind == 2 {
      if item.tag == 0 {
        if s.usages == 0 {
          s := s.(first := item.value);
        }
        s := s.(usages := s.usages + 1);
      } else if item.tag == 1 {
        s := s.(minimum := item.value, ranged := true);
      }
    }
  }

  method Take(data: seq<Byte>, pos: nat) returns (r: Result<(Option<Item>, nat), ParseError>)
    requires pos < |data|
    ensures r == TakeItem(data[pos..])
  {
    if data[pos] == 0xfe {
      if |data| - pos < 3 {
        return Err(TruncatedItem);
      }
      var size := data[pos + 1];
      if size > |data| - pos - 3 {
        return Err(TruncatedItem);
      }
      return Ok((None, 3 + size));
    }
    var read := ReadItem(data, pos);
    if read.Err? {
      return Err(read.error);
    }
    r := Ok((Some(read.value.0), read.value.1));
  }

  method ScanUsages(data: seq<Byte>) returns (r: Result<seq<Collection>, ParseError>)
    ensures match Scan(data)
            case Err(e) => r == Err(e)
            case Ok(found) => r.Ok? && r.value == seq(|found|, i requires 0 <= i < |found| => Collection(i, found[i], NO_REPORT, NO_REPORT, false))
  {
    if |data| == 0 || |data| > MAX_DESCRIPTOR_SIZE {
      return Err(DescriptorSize);
    }
    var s, pos := EMPTY_SCAN, 0;
    assert data[0..] == data;
    while pos < |data|
      invariant pos <= |data|
      invariant ScanFrom(EMPTY_SCAN, data) == ScanFrom(s, data[pos..])
      decreases |data| - pos
    {
      ghost var rest := data[pos..];
      var read := Take(data, pos);
      if read.Err? {
        return Err(read.error);
      }
      pos := pos + read.value.1;
      assert rest[read.value.1..] == data[pos..];
      var err;
      s, err := ScanStep(s, read.value.0);
      if err != None {
        return Err(err.value);
      }
    }
    assert data[pos..] == [];
    r := Ok(seq(|s.found|, i requires 0 <= i < |s.found| => Collection(i, s.found[i], NO_REPORT, NO_REPORT, false)));
  }

  /** Parse when it can; otherwise the usages alone, none of them supported; otherwise nothing. */
  method Inventory(data: seq<Byte>) returns (cs: seq<Collection>, layoutErr: Option<ParseError>)
    ensures layoutErr == (if ParseItems(data).Ok? then None else Some(ParseItems(data).error))
    ensures layoutErr == None ==> Decode(data).Ok? && Decides(cs, Decode(data).value)
    ensures layoutErr != None ==>
              |cs| == (if Scan(data).Ok? then |Scan(data).value| else 0)
    ensures forall i :: 0 <= i < |cs| ==> cs[i].index == i
    ensures layoutErr == None ==> |cs| == |ParseItems(data).value.usagesFound| && forall i :: 0 <= i < |cs| ==> cs[i].usage == ParseItems(data).value.usagesFound[i]
    ensures layoutErr != None ==> forall i :: 0 <= i < |cs| ==> !cs[i].supported && cs[i].usage == Scan(data).value[i]
  {
    var strict := ParseDescriptor(data);
    if strict.Ok? {
      return strict.value, None;
    }
    var fallback := ScanUsages(data);
    if fallback.Err? || |fallback.value| == 0 {
      return [], Some(strict.error);
    }
    return fallback.value, Some(strict.error);
  }

  // ----- Agreement -----------------------------------------------------------------------------

  lemma SnocUsage(items: seq<Item>, item: Item)
    ensures LocalsAfter(items + [item]) == AdvanceLocals(LocalsAfter(items), item)
    ensures Openings(items + [item]) == Openings(items) +
            (if OpensApplication(ContextAfter(items), item) then [Opening(ContextAfter(items).global.page, LocalsAfter(items))] else [])
  {
    assert (items + [item])[..|items|] == items;
  }

  /** The strict parser's local state and the usages it recorded, in the descriptor's terms. */
  ghost predicate StrictFollows(p: PState, l: Locals, openings: seq<Opening>) {
    && p.minimum == l.minimum && p.hasMinimum == l.ranged
    && l.count == |p.usages| && l.first == (if p.usages == [] then None else Some(p.usages[0]))
    && |p.usagesFound| == |openings| && (forall i :: 0 <= i < |openings| ==> p.usagesFound[i] == StrictReading(openings[i]))
  }

  /** The scan's state beside the parser's, and the usages it recorded. */
  ghost predicate ScanFollows(s: ScanState, p: PState, l: Locals, openings: seq<Opening>) {
    && s.page == p.global.page && |s.stack| == |p.stack| && (forall k :: 0 <= k < |s.stack| ==> s.stack[k] == p.stack[k].page)
    && s.depth == |p.open|
    && s.minimum == l.minimum && s.ranged == l.ranged && s.first == l.stale && (s.usages != 0 <==> l.first.Some?)
    && (l.first.Some? ==> l.stale == l.first.value)
    && |s.found| == |openings| && (forall i :: 0 <= i < |openings| ==> s.found[i] == ScanReading(openings[i]))
  }

  function OpeningsOf(ctx: Context, l: Locals, item: Item): seq<Opening> {
    if OpensApplication(ctx, item) then [Opening(ctx.global.page, l)] else []
  }

  lemma OpenFollows(s: ScanState, p: PState, ctx: Context, l: Locals, openings: seq<Opening>, item: Item)
    requires WellFormed(p) && TracksContext(p, ctx) && StrictFollows(p, l, openings) && ScanFollows(s, p, l, openings)
    requires OpensApplication(ctx, item) && MainItem(p, item.tag, item.value).Ok?
    ensures ScanItem(s, item).Ok?
    ensures var q, t := MainItem(p, item.tag, item.value).value, ScanItem(s, item).value;
            StrictFollows(q, AdvanceLocals(l, item), openings + [Opening(ctx.global.page, l)]) &&
            ScanFollows(t, q, AdvanceLocals(l, item), openings + [Opening(ctx.global.page, l)])
  {
    assert NamedUsage(p) == StrictReading(Opening(ctx.global.page, l));
  }

  lemma OtherMainFollows(s: ScanState, p: PState, ctx: Context, l: Locals, openings: seq<Opening>, item: Item)
    requires WellFormed(p) && TracksContext(p, ctx) && StrictFollows(p, l, openings) && ScanFollows(s, p, l, openings)
    requires item.kind == 0 && !OpensApplication(ctx, item) && MainItem(p, item.tag, item.value).Ok?
    ensures ScanItem(s, item).Ok?
    ensures var q, t := MainItem(p, item.tag, item.value).value, ScanItem(s, item).value;
            StrictFollows(q, AdvanceLocals(l, item), openings) && ScanFollows(t, q, AdvanceLocals(l, item), openings)
  {
    if item.tag == 10 {
    } else if item.tag == 12 {
    } else {
    }
  }

  lemma MainFollows(s: ScanState, p: PState, ctx: Context, l: Locals, openings: seq<Opening>, item: Item)
    requires WellFormed(p) && TracksContext(p, ctx) && StrictFollows(p, l, openings) && ScanFollows(s, p, l, openings)
    requires item.kind == 0 && MainItem(p, item.tag, item.value).Ok?
    ensures ScanItem(s, item).Ok?
    ensures var q, t := MainItem(p, item.tag, item.value).value, ScanItem(s, item).value;
            var after := openings + OpeningsOf(ctx, l, item);
            StrictFollows(q, AdvanceLocals(l, item), after) && ScanFollows(t, q, AdvanceLocals(l, item), after)
  {
    if OpensApplication(ctx, item) {
      OpenFollows(s, p, ctx, l, openings, item);
    } else {
      assert openings + [] == openings;
      OtherMainFollows(s, p, ctx, l, openings, item);
    }
  }

  lemma GlobalFollows(s: ScanState, p: PState, l: Locals, openings: seq<Opening>, item: Item)
    requires WellFormed(p) && StrictFollows(p, l, openings) && ScanFollows(s, p, l, openings)
    requires item.kind == 1 && GlobalItem(p, item.tag, item.value).Ok?
    ensures ScanItem(s, item).Ok?
    ensures var q, t := GlobalItem(p, item.tag, item.value).value, ScanItem(s, item).value;
            StrictFollows(q, l, openings) && ScanFollows(t, q, l, openings)
  {
    if item.tag == 10 {
    } else if item.tag == 11 {
    } else if item.tag == 0 {
    } else {
    }
  }

  lemma LocalFollows(s: ScanState, p: PState, l: Locals, openings: seq<Opening>, item: Item)
    requires WellFormed(p) && StrictFollows(p, l, openings) && ScanFollows(s, p, l, openings)
    requires item.kind == 2 && LocalItem(p, item.tag, item.value).Ok?
    ensures ScanItem(s, item).Ok?
    ensures var q, t := LocalItem(p, item.tag, item.value).value, ScanItem(s, item).value;
            StrictFollows(q, AdvanceLocals(l, item), openings) && ScanFollows(t, q, AdvanceLocals(l, item), openings)
  {
  }

  ghost predicate BothFollow(s: ScanState, p: PState, items: seq<Item>) {
    StrictFollows(p, LocalsAfter(items), Openings(items)) && ScanFollows(s, p, LocalsAfter(items), Openings(items))
  }

  lemma StepFollows(s: ScanState, p: PState, items: seq<Item>, item: Item)
    requires Tracks(p, items) && BothFollow(s, p, items) && StepItem(p, item).Ok?
    ensures ScanItem(s, item).Ok? && BothFollow(ScanItem(s, item).value, StepItem(p, item).value, items + [item])
  {
    SnocUsage(items, item);
    var ctx, l, openings := ContextAfter(items), LocalsAfter(items), Openings(items);
    assert openings + [] == openings;
    match item.kind
    case 0 => MainFollows(s, p, ctx, l, openings, item);
    case 1 => GlobalFollows(s, p, l, openings, item);
    case 2 => LocalFollows(s, p, l, openings, item);
    case _ =>
  }

  lemma {:induction false} ParseFollows(s: ScanState, p: PState, items: seq<Item>, data: seq<Byte>)
    requires Tracks(p, items) && BothFollow(s, p, items) && ParseFrom(p, data).Ok?
    ensures Decode(data).Ok? && ScanFrom(s, data).Ok?
    ensures BothFollow(ScanFrom(s, data).value, ParseFrom(p, data).value, items + Decode(data).value)
    decreases |data|
  {
    if data == [] {
      assert items + [] == items;
    } else {
      var item, n := NextItem(data).value.0, NextItem(data).value.1;
      var step := StepItem(p, item);
      assert step.Ok?;
      assert Tracks(step.value, items + [item]) by {
        StepTracks(p, items, item);
      }
      var seen := ScanItem(s, item);
      assert seen.Ok? && BothFollow(seen.value, step.value, items + [item]) by {
        StepFollows(s, p, items, item);
      }
      assert ParseFrom(p, data) == ParseFrom(step.value, data[n..]);
      assert ScanFrom(s, data) == ScanFrom(seen.value, data[n..]);
      ParseFollows(seen.value, step.value, items + [item], data[n..]);
      Regroup(items, [item], Decode(data[n..]).value);
    }
  }

  /**
   Every descriptor Parse accepts, the scan accepts with as many collections, one for each opening; the
   parser's usages are the strict readings and the scan's are its own.
   */
  lemma BothRead(data: seq<Byte>)
    requires ParseItems(data).Ok?
    ensures Decode(data).Ok? && Scan(data).Ok?
    ensures var openings := Openings(Decode(data).value);
            && |ParseItems(data).value.usagesFound| == |Scan(data).value| == |openings|
            && forall i :: 0 <= i < |openings| ==> && ParseItems(data).value.usagesFound[i] == StrictReading(openings[i])
                                                   && Scan(data).value[i] == ScanReading(openings[i])
  {
    assert Tracks(Fresh(), []) by {
      assert WellFormed(Fresh()) && TracksFields([], []);
    }
    ParseFollows(EMPTY_SCAN, Fresh(), [], data);
    assert [] + Decode(data).value == Decode(data).value;
  }

  /** A caller's test for agreement at one opening: it is named, or the two leftovers read alike. */
  predicate Agree(o: Opening) {
    Named(o) || Resolve(o.page, o.locals.minimum) == Resolve(o.page, o.locals.stale)
  }

  lemma {:induction false} StaleIsFirst(items: seq<Item>)
    ensures var l := LocalsAfter(items); l.first.Some? ==> l.stale == l.first.value
  {
    if items != [] {
      StaleIsFirst(items[..|items| - 1]);
    }
  }

  lemma {:induction false} OpeningsAreFresh(items: seq<Item>)
    ensures forall i :: 0 <= i < |Openings(items)| ==>
                          var l := Openings(items)[i].locals; l.first.Some? ==> l.stale == l.first.value
  {
    if items != [] {
      OpeningsAreFresh(items[..|items| - 1]);
      StaleIsFirst(items[..|items| - 1]);
    }
  }

  /** The two passes list the same usages exactly when they agree at every opening. */
  lemma ScanAgrees(data: seq<Byte>)
    requires ParseItems(data).Ok?
    ensures Scan(data).Ok? && Decode(data).Ok?
    ensures Scan(data).value == ParseItems(data).value.usagesFound <==>
            forall i :: 0 <= i < |Openings(Decode(data).value)| ==> Agree(Openings(Decode(data).value)[i])
    ensures (forall i :: 0 <= i < |Openings(Decode(data).value)| ==> Named(Openings(Decode(data).value)[i])) ==>
              Scan(data).value == ParseItems(data).value.usagesFound
  {
    BothRead(data);
    var openings := Openings(Decode(data).value);
    OpeningsAreFresh(Decode(data).value);
    assert forall i :: 0 <= i < |openings| ==> (StrictReading(openings[i]) == ScanReading(openings[i]) <==> Agree(openings[i]));
  }

  // ----- What the usages are --------------------------------------------------------------------------

  /** The usage a local value names under a page: a value of more than 16 bits brings its own page in the high half. */
  predicate NamesUsage(usage: Usage, page: nat, value: U32) {
    && usage.id <= 0xffff && usage.page <= 0xffff
    && usage.page * 0x1_0000 + usage.id == if value > 0xffff then value else page * 0x1_0000 + value
  }

  lemma ResolveNames(page: nat, value: U32)
    requires page <= 0xffff
    ensures NamesUsage(Resolve(page, value), page, value)
  {
  }

  /** Every opening of an accepted descriptor has a 16-bit page. */
  lemma {:induction false} PagesInRange(items: seq<Item>)
    requires forall k :: 0 <= k < |items| ==> AllowedAt(items, k)
    ensures ContextAfter(items).global.page <= 0xffff
    ensures forall i :: 0 <= i < |ContextAfter(items).stack| ==> ContextAfter(items).stack[i].page <= 0xffff
    ensures forall i :: 0 <= i < |Openings(items)| ==> Openings(items)[i].page <= 0xffff
  {
    if items != [] {
      var n := |items| - 1;
      forall k | 0 <= k < n ensures AllowedAt(items[..n], k) {
        assert AllowedAt(items, k) && items[..n][..k] == items[..k];
      }
      PagesInRange(items[..n]);
      assert AllowedAt(items, n);
    }
  }

  /**
   Every collection of an accepted descriptor gets, from the parser, the usage of its first Usage or else of the
   last Usage Minimum, and from the scan that of its Usage Minimum if only that names it and else of the last
   first Usage, under the page in force.
   */
  lemma UsagesExact(data: seq<Byte>)
    requires ParseItems(data).Ok?
    ensures Decode(data).Ok? && Scan(data).Ok?
    ensures var openings := Openings(Decode(data).value);
            && |ParseItems(data).value.usagesFound| == |Scan(data).value| == |openings|
            && forall i :: 0 <= i < |openings| ==>
                 var o := openings[i];
                 && NamesUsage(ParseItems(data).value.usagesFound[i], o.page, if o.locals.first.Some? then o.locals.first.value else o.locals.minimum)
                 && NamesUsage(Scan(data).value[i], o.page, if o.locals.first.None? && o.locals.ranged then o.locals.minimum else o.locals.stale)
  {
    BothRead(data);
    ParseAccepts(data);
    PagesInRange(Decode(data).value);
    var openings := Openings(Decode(data).value);
    forall i | 0 <= i < |openings|
      ensures NamesUsage(StrictReading(openings[i]), openings[i].page, if openings[i].locals.first.Some? then openings[i].locals.first.value else openings[i].locals.minimum)
      ensures NamesUsage(ScanReading(openings[i]), openings[i].page,
                         if openings[i].locals.first.None? && openings[i].locals.ranged then openings[i].locals.minimum else openings[i].locals.stale)
    {
      ResolveNames(openings[i].page, if openings[i].locals.first.Some? then openings[i].locals.first.value else openings[i].locals.minimum);
      ResolveNames(openings[i].page, if openings[i].locals.first.None? && openings[i].locals.ranged then openings[i].locals.minimum else openings[i].locals.stale);
    }
  }

  // ----- The scan by itself ------------------------------------------------------------------------------

  /** The short items of a descriptor, long items skipped, if its bytes can be read at all. */
  function ShortItems(data: seq<Byte>): Result<seq<Item>, ParseError>
    decreases |data|
  {
    if data == [] then Ok([])
    else
      match TakeItem(data)
      case Err(e) => Err(e)
      case Ok((taken, n)) =>
        match ShortItems(data[n..])
        case Err(e) => Err(e)
        case Ok(items) => Ok((if taken.Some? then [taken.value] else []) + items)
  }

  /** What the scan keeps of the context: the page in force, at most 32 saved pages, and how deep the collections are. */
  datatype Loose = Loose(page: U32, saved: seq<U32>, depth: nat)

  function Loosen(c: Loose, item: Item): Loose {
    match (item.kind, item.tag)
    case (0, 10) => c.(depth := c.depth + 1)
    case (0, 12) => if c.depth > 0 then c.(depth := c.depth - 1) else c
    case (1, 0) => c.(page := item.value)
    case (1, 10) => if |c.saved| < 32 then c.(saved := c.saved + [c.page]) else c
    case (1, 11) => if c.saved == [] then c else c.(page := c.saved[|c.saved| - 1], saved := c.saved[..|c.saved| - 1])
    case _ => c
  }

  function LooseAfter(items: seq<Item>): Loose {
    if items == [] then Loose(0, [], 0) else Loosen(LooseAfter(items[..|items| - 1]), items[|items| - 1])
  }

  /** The Application collections opened outside all others, however the rest of the descriptor is laid out. */
  function LooseOpenings(items: seq<Item>): seq<Opening> {
    if items == [] then []
    else
      var rest, last := items[..|items| - 1], items[|items| - 1];
      var c := LooseAfter(rest);
      LooseOpenings(rest) +
      (if last.kind == 0 && last.tag == 10 && last.value == 1 && c.depth == 0 then [Opening(c.page % 0x1_0000, LocalsAfter(rest))] else [])
  }

  ghost predicate ScanStands(s: ScanState, c: Loose, l: Locals, openings: seq<Opening>) {
    && s.page == c.page && s.stack == c.saved && s.depth == c.depth
    && s.usages == l.count && s.first == l.stale && s.minimum == l.minimum && s.ranged == l.ranged
    && (l.first.None? <==> l.count == 0)
    && |s.found| == |openings| <= 256 && (forall i :: 0 <= i < |openings| ==> s.found[i] == ScanReading(openings[i]))
  }

  lemma SnocLoose(items: seq<Item>, item: Item)
    ensures LooseAfter(items + [item]) == Loosen(LooseAfter(items), item)
    ensures LocalsAfter(items + [item]) == AdvanceLocals(LocalsAfter(items), item)
    ensures LooseOpenings(items + [item]) == LooseOpenings(items) + LooseOpeningsOf(LooseAfter(items), LocalsAfter(items), item)
  {
    assert (items + [item])[..|items|] == items;
  }

  function LooseOpeningsOf(c: Loose, l: Locals, item: Item): seq<Opening> {
    if item.kind == 0 && item.tag == 10 && item.value == 1 && c.depth == 0 then [Opening(c.page % 0x1_0000, l)] else []
  }

  /** An item is refused only when it opens one collection too many. */
  lemma ScanItemStands(s: ScanState, c: Loose, l: Locals, openings: seq<Opening>, item: Item)
    requires ScanStands(s, c, l, openings)
    ensures ScanItem(s, item).Ok? <==> |openings + LooseOpeningsOf(c, l, item)| <= 256
    ensures ScanItem(s, item).Ok? ==> ScanStands(ScanItem(s, item).value, Loosen(c, item), AdvanceLocals(l, item), openings + LooseOpeningsOf(c, l, item))
  {
    if item.kind == 0 {
    } else if item.kind == 1 {
    } else if item.kind == 2 {
    } else {
    }
  }

  ghost predicate ScanReached(s: ScanState, items: seq<Item>) {
    ScanStands(s, LooseAfter(items), LocalsAfter(items), LooseOpenings(items))
  }

  lemma {:induction false} OpeningsOnlyGrow(items: seq<Item>, more: seq<Item>)
    ensures |LooseOpenings(items)| <= |LooseOpenings(items + more)|
    decreases |more|
  {
    if more == [] {
      assert items + more == items;
    } else {
      var n := |more| - 1;
      OpeningsOnlyGrow(items, more[..n]);
      assert items + more == (items + more[..n]) + [more[n]];
      SnocLoose(items + more[..n], more[n]);
    }
  }

  lemma {:induction false} ScanFromExact(s: ScanState, items: seq<Item>, data: seq<Byte>)
    requires ScanReached(s, items)
    ensures ScanFrom(s, data).Ok? <==> ShortItems(data).Ok? && |LooseOpenings(items + ShortItems(data).value)| <= 256
    ensures ScanFrom(s, data).Ok? ==> ScanReached(ScanFrom(s, data).value, items + ShortItems(data).value)
    decreases |data|
  {
    if data == [] {
      assert items + [] == items;
    } else if TakeItem(data).Ok? {
      var (taken, n) := TakeItem(data).value;
      var step := ScanTaken(s, taken);
      var more := if taken.Some? then [taken.value] else [];
      ScanTakenReaches(s, items, taken);
      if ShortItems(data).Ok? {
        Regroup(items, more, ShortItems(data[n..]).value);
        OpeningsOnlyGrow(items + more, ShortItems(data[n..]).value);
      }
      if step.Ok? {
        assert ScanFrom(s, data) == ScanFrom(step.value, data[n..]);
        ScanFromExact(step.value, items + more, data[n..]);
      }
    }
  }

  lemma ScanTakenReaches(s: ScanState, items: seq<Item>, taken: Option<Item>)
    requires ScanReached(s, items)
    ensures var more := if taken.Some? then [taken.value] else [];
            && (ScanTaken(s, taken).Ok? <==> |LooseOpenings(items + more)| <= 256)
            && (ScanTaken(s, taken).Ok? ==> ScanReached(ScanTaken(s, taken).value, items + more))
  {
    if taken.None? {
      assert items + [] == items;
    } else {
      SnocLoose(items, taken.value);
      ScanItemStands(s, LooseAfter(items), LocalsAfter(items), LooseOpenings(items), taken.value);
    }
  }

  /**
   On every descriptor the scan succeeds if and only if the bytes can be read and at most 256 top-level
   Application collections are opened; it then lists exactly their usages, whatever else is wrong.
   */
  lemma ScanExact(data: seq<Byte>)
    ensures Scan(data).Ok? <==> 0 < |data| <= 64 * 1024 && ShortItems(data).Ok? && |LooseOpenings(ShortItems(data).value)| <= 256
    ensures Scan(data).Ok? ==>
              var openings := LooseOpenings(ShortItems(data).value);
              && |Scan(data).value| == |openings|
              && forall i :: 0 <= i < |openings| ==>
                   var l := openings[i].locals;
                   NamesUsage(Scan(data).value[i], openings[i].page, if l.count == 0 && l.ranged then l.minimum else l.stale)
  {
    ScanFromExact(EMPTY_SCAN, [], data);
    if Scan(data).Ok? {
      var items := ShortItems(data).value;
      assert [] + items == items;
      LoosePages(items);
      forall i | 0 <= i < |LooseOpenings(items)|
        ensures var o := LooseOpenings(items)[i];
                NamesUsage(Scan(data).value[i], o.page, if o.locals.count == 0 && o.locals.ranged then o.locals.minimum else o.locals.stale)
      {
        var o := LooseOpenings(items)[i];
        ResolveNames(o.page, if o.locals.count == 0 && o.locals.ranged then o.locals.minimum else o.locals.stale);
      }
    } else if ShortItems(data).Ok? {
      assert [] + ShortItems(data).value == ShortItems(data).value;
    }
  }

  lemma {:induction false} LocalsCounted(items: seq<Item>)
    ensures LocalsAfter(items).first.None? <==> LocalsAfter(items).count == 0
  {
    if items != [] {
      LocalsCounted(items[..|items| - 1]);
    }
  }

  lemma {:induction false} LoosePages(items: seq<Item>)
    ensures forall i :: 0 <= i < |LooseOpenings(items)| ==>
                          var o := LooseOpenings(items)[i]; o.page <= 0xffff && (o.locals.first.None? <==> o.locals.count == 0)
  {
    if items != [] {
      LoosePages(items[..|items| - 1]);
      LocalsCounted(items[..|items| - 1]);
    }
  }

  // ----- A descriptor on which they disagree ------------------------------------------------------

  const USAGE_6 := Item(2, 0, 6)
  const OPEN_APPLICATION := Item(0, 10, 1)
  const END_COLLECTION := Item(0, 12, 0)

  lemma DecodeFirst(data: seq<Byte>, item: Item, n: nat, rest: seq<Item>, items: seq<Item>)
    requires data != [] && NextItem(data) == Ok((item, n)) && Decode(data[n..]) == Ok(rest) && items == [item] + rest
    ensures Decode(data) == Ok(items)
  {
  }

  /** Usage 6, then two empty Application collections. */
  lemma ExampleDecodes(data: seq<Byte>, items: seq<Item>)
    requires data == [0x09, 0x06, 0xa1, 0x01, 0xc0, 0xa1, 0x01, 0xc0]
    requires items == [USAGE_6, OPEN_APPLICATION, END_COLLECTION, OPEN_APPLICATION, END_COLLECTION]
    ensures Decode(data) == Ok(items)
  {
    var d2, d4, d5, d7 := data[2..], data[4..], data[5..], data[7..];
    assert d2[2..] == d4 && d4[1..] == d5 && d5[2..] == d7 && d7[1..] == [];
    assert data[1..2] == [0x06] && d2[1..2] == [0x01] && d5[1..2] == [0x01];
    DecodeFirst(d7, END_COLLECTION, 1, [], items[4..]);
    DecodeFirst(d5, OPEN_APPLICATION, 2, items[4..], items[3..]);
    DecodeFirst(d4, END_COLLECTION, 1, items[3..], items[2..]);
    DecodeFirst(d2, OPEN_APPLICATION, 2, items[2..], items[1..]);
    DecodeFirst(data, USAGE_6, 2, items[1..], items);
  }

  /** The context, locals, openings and fields these items lead to. */
  ghost predicate LeadsTo(items: seq<Item>, ctx: Context, l: Locals, openings: seq<Opening>, fields: seq<Field>) {
    ContextAfter(items) == ctx && LocalsAfter(items) == l && Openings(items) == openings && Fields(items) == fields
  }

  /** One item further: it is allowed, and leads on to this. */
  ghost predicate Goes(ctx: Context, l: Locals, item: Item, ctx': Context, l': Locals) {
    Allowed(ctx, l, item) && Advance(ctx, item) == ctx' && AdvanceLocals(l, item) == l'
  }

  lemma Onward(items: seq<Item>, k: nat, ctx: Context, l: Locals, openings: seq<Opening>, fields: seq<Field>, ctx': Context, l': Locals)
    requires k < |items| && LeadsTo(items[..k], ctx, l, openings, fields) && Goes(ctx, l, items[k], ctx', l')
    ensures AllowedAt(items, k)
    ensures LeadsTo(items[..k + 1], ctx', l', openings + OpeningsOf(ctx, l, items[k]), fields + FieldsOf(ctx, items[k]))
  {
    assert items[..k + 1] == items[..k] + [items[k]];
    Snoc(items[..k], items[k]);
    SnocUsage(items[..k], items[k]);
  }

  const GLOBALS_0 := Globals(0, 0, 0, 0)
  const NO_LOCALS := Locals(0, None, false, 0, 0)
  const NAMED_6 := Locals(1, Some(6), false, 0, 6)
  const STALE_6 := Locals(0, None, false, 0, 6)

  function Outside(apps: nat): Context {
    Context(GLOBALS_0, [], [], apps)
  }

  /** An item that opens nothing and adds no field. */
  lemma Plain(items: seq<Item>, k: nat, ctx: Context, l: Locals, openings: seq<Opening>, fields: seq<Field>, ctx': Context, l': Locals)
    requires k < |items| && LeadsTo(items[..k], ctx, l, openings, fields) && Goes(ctx, l, items[k], ctx', l')
    requires OpeningsOf(ctx, l, items[k]) == [] && FieldsOf(ctx, items[k]) == []
    ensures AllowedAt(items, k) && LeadsTo(items[..k + 1], ctx', l', openings, fields)
  {
    Onward(items, k, ctx, l, openings, fields, ctx', l');
    assert openings + [] == openings && fields + [] == fields;
  }

  /** An empty Application collection: it opens with these locals and leaves only the stale usage behind. */
  lemma EmptyCollection(items: seq<Item>, k: nat, apps: nat, l: Locals, openings: seq<Opening>)
    requires k + 1 < |items| && items[k] == OPEN_APPLICATION && items[k + 1] == END_COLLECTION && apps < MAX_COLLECTIONS
    requires LeadsTo(items[..k], Outside(apps), l, openings, [])
    ensures AllowedAt(items, k) && AllowedAt(items, k + 1)
    ensures LeadsTo(items[..k + 2], Outside(apps + 1), l.(count := 0, first := None, ranged := false), openings + [Opening(0, l)], [])
  {
    var inside, left := Context(GLOBALS_0, [], [apps], apps + 1), l.(count := 0, first := None, ranged := false);
    assert Goes(Outside(apps), l, items[k], inside, left);
    Onward(items, k, Outside(apps), l, openings, [], inside, left);
    Plain(items, k + 1, inside, left, openings + [Opening(0, l)], [], Outside(apps + 1), left);
  }

  lemma NamedFirst(items: seq<Item>)
    requires items != [] && items[0] == USAGE_6
    ensures AllowedAt(items, 0) && LeadsTo(items[..1], Outside(0), NAMED_6, [], [])
  {
    assert items[..0] == [] && LeadsTo([], Outside(0), NO_LOCALS, [], []);
    Plain(items, 0, Outside(0), NO_LOCALS, [], [], Outside(0), NAMED_6);
  }

  /** The second collection opens with nothing but leftovers: no minimum, and usage 6. */
  lemma ExampleMeans(items: seq<Item>)
    requires |items| == 5 && items[0] == USAGE_6
    requires items[1] == items[3] == OPEN_APPLICATION && items[2] == items[4] == END_COLLECTION
    ensures forall k :: 0 <= k < 5 ==> AllowedAt(items, k)
    ensures LeadsTo(items, Outside(2), STALE_6, [Opening(0, NAMED_6), Opening(0, STALE_6)], [])
  {
    NamedFirst(items);
    EmptyCollection(items, 1, 0, NAMED_6, []);
    EmptyCollection(items, 3, 1, STALE_6, [] + [Opening(0, NAMED_6)]);
    assert items[..5] == items;
    assert [] + [Opening(0, NAMED_6)] + [Opening(0, STALE_6)] == [Opening(0, NAMED_6), Opening(0, STALE_6)];
  }

  lemma ExampleAccepted(data: seq<Byte>, items: seq<Item>)
    requires 0 < |data| <= MAX_DESCRIPTOR_SIZE && Decode(data) == Ok(items)
    requires |items| == 5 && items[0] == USAGE_6
    requires items[1] == items[3] == OPEN_APPLICATION && items[2] == items[4] == END_COLLECTION
    ensures ParseItems(data).Ok?
  {
    ExampleMeans(items);
    assert Acceptable(data);
    ParseAccepts(data);
  }

  /** The parser gives the second collection usage 0, the scan repeats 6. */
  lemma PassesCanDisagree(data: seq<Byte>)
    requires data == [0x09, 0x06, 0xa1, 0x01, 0xc0, 0xa1, 0x01, 0xc0]
    ensures ParseItems(data).Ok? && ParseItems(data).value.usagesFound == [Usage(0, 6), Usage(0, 0)]
    ensures Scan(data) == Ok([Usage(0, 6), Usage(0, 6)])
  {
    var items := [USAGE_6, OPEN_APPLICATION, END_COLLECTION, OPEN_APPLICATION, END_COLLECTION];
    ExampleDecodes(data, items);
    ExampleAccepted(data, items);
    assert Openings(items) == [Opening(0, NAMED_6), Opening(0, STALE_6)] by {
      ExampleMeans(items);
    }
    BothRead(data);
    assert Scan(data).value == [Usage(0, 6), Usage(0, 6)];
  }
}
