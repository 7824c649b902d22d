/**
 Which descriptors the strict parser accepts, said of the descriptor: every item is allowed where it stands,
 every report keeps within the size limit, and all collections and saved global states are closed.
 */
module Acceptance {
  import opened Values
  import opened DescriptorItems
  import opened StrictParser
  import opened LayoutTracking

  /** The item may stand in this context, after these local items. */
  predicate Allowed(ctx: Context, l: Locals, item: Item) {
    match item.kind
    case 0 =>
      (match item.tag
       case 10 => |ctx.open| < 32 && (ctx.open == [] && item.value == 1 ==> ctx.apps < 256)
       case 12 => ctx.open != []
       case 8 => InCollection(ctx)
       case 9 => InCollection(ctx)
       case 11 => InCollection(ctx)
       case _ => true)
    case 1 =>
      (match item.tag
       case 0 => item.value <= 0xffff
       case 8 => item.value <= 255
       case 10 => |ctx.stack| < 32
       case 11 => ctx.stack != []
       case _ => true)
    case 2 =>
      (match item.tag
       case 0 => l.count < 1024
       case 2 => l.ranged && l.minimum <= item.value
       case 10 => false
       case _ => true)
    case _ => false
  }

  /** A report item: inside an Application collection, and not longer than a report may be by itself. */
  predicate InCollection(ctx: Context) {
    Current(ctx) >= 0 && ctx.global.size * ctx.global.count <= 32768
  }

  predicate AllowedAt(items: seq<Item>, k: nat)
    requires k < |items|
  {
    Allowed(ContextAfter(items[..k]), LocalsAfter(items[..k]), items[k])
  }

  /** No report of the descriptor is longer than 4096 bytes. */
  ghost predicate WithinLimits(items: seq<Item>) {
    forall app, dir, id :: Bits(Fields(items), app, dir, id) <= 32768
  }

  predicate Closed(items: seq<Item>) {
    ContextAfter(items).open == [] && ContextAfter(items).stack == []
  }

  // ----- One item ---------------------------------------------------------------------------------

  /** The report the item adds to stays within the limit. */
  ghost predicate Fits(items: seq<Item>, item: Item) {
    forall f :: f in FieldsOf(ContextAfter(items), item) ==> Bits(Fields(items) + [f], f.app, f.dir, f.id) <= MAX_REPORT_BITS
  }

  predicate TracksLocals(p: PState, l: Locals) {
    p.minimum == l.minimum && p.hasMinimum == l.ranged && |p.usages| == l.count
  }

  lemma SnocLocals(items: seq<Item>, item: Item)
    ensures LocalsAfter(items + [item]) == AdvanceLocals(LocalsAfter(items), item)
  {
    assert (items + [item])[..|items|] == items;
  }

  function Held(m: map<nat, nat>, id: nat): nat {
    if id in m then m[id] else 0
  }

  /** A report field is refused for its place, its own length or the length its report would reach. */
  lemma FieldRefusals(p: PState, item: Item)
    requires WellFormed(p) && item.kind == 0 && (item.tag == 8 || item.tag == 9)
    ensures var current, dir := if p.open == [] then -1 else p.open[|p.open| - 1], if item.tag == 8 then Input else Output;
            StepItem(p, item).Ok? <==>
            && current >= 0 && FieldBits(p.global) <= MAX_REPORT_BITS
            && Held(p.reports[current].In(dir), p.global.id) + FieldBits(p.global) <= MAX_REPORT_BITS
  {
  }

  lemma HeldIsBits(reports: seq<Reports>, fields: seq<Field>, app: nat, dir: Direction, id: nat)
    requires TracksFields(reports, fields) && app < |reports|
    ensures Held(reports[app].In(dir), id) == Bits(fields, app, dir, id)
  {
    if id !in reports[app].In(dir) {
      UnusedHasNoBits(fields, app, dir, id);
    }
  }

  lemma FieldAccepted(p: PState, items: seq<Item>, item: Item)
    requires Tracks(p, items) && item.kind == 0 && (item.tag == 8 || item.tag == 9)
    ensures StepItem(p, item).Ok? <==> InCollection(ContextAfter(items)) && Fits(items, item)
  {
    var ctx := ContextAfter(items);
    var f := FieldsOf(ctx, item)[0];
    assert f.app == (if p.open == [] then -1 else p.open[|p.open| - 1]) && f.bits == FieldBits(p.global) by {
      FieldBitsExact(p.global);
    }
    FieldRefusals(p, item);
    assert Fits(items, item) <==> Bits(Fields(items), f.app, f.dir, f.id) + f.bits <= MAX_REPORT_BITS by {
      assert FieldsOf(ctx, item) == [f];
      UsesIdSnoc(Fields(items), f, f.app, f.dir, f.id);
    }
    if f.app >= 0 {
      HeldIsBits(p.reports, Fields(items), f.app, f.dir, f.id);
    }
  }

  lemma CollectionAccepted(p: PState, ctx: Context, l: Locals, item: Item)
    requires WellFormed(p) && TracksContext(p, ctx) && item.kind == 0 && item.tag != 8 && item.tag != 9
    ensures StepItem(p, item).Ok? <==> Allowed(ctx, l, item)
  {
    FieldBitsExact(p.global);
  }

  lemma OtherAccepted(p: PState, ctx: Context, l: Locals, item: Item)
    requires WellFormed(p) && TracksContext(p, ctx) && TracksLocals(p, l) && item.kind != 0
    ensures StepItem(p, item).Ok? <==> Allowed(ctx, l, item)
  {
  }

  lemma LocalsStep(p: PState, l: Locals, item: Item)
    requires WellFormed(p) && TracksLocals(p, l) && StepItem(p, item).Ok?
    ensures TracksLocals(StepItem(p, item).value, AdvanceLocals(l, item))
  {
  }

  /** The parser takes the item exactly if it is allowed here and its report still fits. */
  lemma StepAccepted(p: PState, items: seq<Item>, item: Item)
    requires Tracks(p, items) && TracksLocals(p, LocalsAfter(items))
    ensures StepItem(p, item).Ok? <==> Allowed(ContextAfter(items), LocalsAfter(items), item) && Fits(items, item)
    ensures StepItem(p, item).Ok? ==> TracksLocals(StepItem(p, item).value, LocalsAfter(items + [item]))
  {
    var ctx, l := ContextAfter(items), LocalsAfter(items);
    SnocLocals(items, item);
    if item.kind == 0 && (item.tag == 8 || item.tag == 9) {
      FieldAccepted(p, items, item);
    } else {
      assert FieldsOf(ctx, item) == [];
      if item.kind == 0 {
        CollectionAccepted(p, ctx, l, item);
      } else {
        OtherAccepted(p, ctx, l, item);
      }
    }
    if StepItem(p, item).Ok? {
      LocalsStep(p, l, item);
    }
  }

  // ----- The whole descriptor -----------------------------------------------------------------------

  ghost predicate TakenAt(items: seq<Item>, k: nat)
    requires k < |items|
  {
    AllowedAt(items, k) && Fits(items[..k], items[k])
  }

  ghost predicate TakenFrom(items: seq<Item>, n: nat) {
    forall k :: n <= k < |items| ==> TakenAt(items, k)
  }

  lemma {:induction false} ParseFromAccepted(p: PState, items: seq<Item>, data: seq<Byte>)
    requires Tracks(p, items) && TracksLocals(p, LocalsAfter(items))
    ensures ParseFrom(p, data).Ok? <==> Decode(data).Ok? && TakenFrom(items + Decode(data).value, |items|)
    decreases |data|
  {
    if data == [] {
      assert items + [] == items;
    } else if NextItem(data).Ok? {
      var item, n := NextItem(data).value.0, NextItem(data).value.1;
      var step := StepItem(p, item);
      assert step.Ok? <==> Allowed(ContextAfter(items), LocalsAfter(items), item) && Fits(items, item) by {
        StepAccepted(p, items, item);
      }
      if Decode(data).Ok? {
        ItemIsNext(items, item, Decode(data[n..]).value);
      }
      if step.Ok? {
        assert Tracks(step.value, items + [item]) && TracksLocals(step.value, LocalsAfter(items + [item])) by {
          StepTracks(p, items, item);
          StepAccepted(p, items, item);
        }
        assert ParseFrom(p, data) == ParseFrom(step.value, data[n..]);
        ParseFromAccepted(step.value, items + [item], data[n..]);
      }
    }
  }

  /** The next item of a stream, and the stream after it. */
  lemma ItemIsNext(items: seq<Item>, item: Item, rest: seq<Item>)
    ensures var all := items + ([item] + rest);
            && all == items + [item] + rest
            && (TakenFrom(all, |items|) <==> Allowed(ContextAfter(items), LocalsAfter(items), item) && Fits(items, item) && TakenFrom(all, |items| + 1))
  {
    var all := items + ([item] + rest);
    Regroup(items, [item], rest);
    assert all[..|items|] == items && all[|items|] == item;
    assert TakenAt(all, |items|) <==> Allowed(ContextAfter(items), LocalsAfter(items), item) && Fits(items, item);
  }

  lemma {:induction false} FieldsPrefix(items: seq<Item>, k: nat)
    requires k <= |items|
    ensures Fields(items[..k]) <= Fields(items)
    decreases |items|
  {
    if k == |items| {
      assert items[..k] == items;
    } else {
      var n := |items| - 1;
      assert items[..n][..k] == items[..k];
      FieldsPrefix(items[..n], k);
    }
  }

  lemma {:induction false} BitsGrow(fields: seq<Field>, k: nat, app: int, dir: Direction, id: nat)
    requires k <= |fields|
    ensures Bits(fields[..k], app, dir, id) <= Bits(fields, app, dir, id)
    decreases |fields|
  {
    if k == |fields| {
      assert fields[..k] == fields;
    } else {
      var n := |fields| - 1;
      assert fields[..n][..k] == fields[..k];
      BitsGrow(fields[..n], k, app, dir, id);
    }
  }

  /** Within the limits of the whole descriptor every item's report fits. */
  lemma LimitsMeanFits(items: seq<Item>, k: nat)
    requires WithinLimits(items) && k < |items|
    ensures Fits(items[..k], items[k])
  {
    var before := items[..k];
    assert items[..k + 1] == before + [items[k]];
    Snoc(before, items[k]);
    FieldsPrefix(items, k + 1);
    var upto := Fields(items[..k + 1]);
    forall f | f in FieldsOf(ContextAfter(before), items[k])
      ensures Bits(Fields(before) + [f], f.app, f.dir, f.id) <= MAX_REPORT_BITS
    {
      assert Fields(before) + [f] == upto == Fields(items)[..|upto|];
      BitsGrow(Fields(items), |upto|, f.app, f.dir, f.id);
    }
  }

  /** The maps of an accepted descriptor bound every report. */
  lemma TrackedWithinLimits(p: PState, items: seq<Item>)
    requires Tracks(p, items)
    ensures WithinLimits(items)
  {
    forall app, dir, id ensures Bits(Fields(items), app, dir, id) <= MAX_REPORT_BITS {
      if UsesId(Fields(items), app, dir, id) {
        assert 0 <= app < |p.reports| && id in p.reports[app].In(dir);
      } else {
        UnusedHasNoBits(Fields(items), app, dir, id);
      }
    }
  }

  /** The descriptor is a stream of items, each allowed where it stands, within the limits and closed at the end. */
  ghost predicate Acceptable(data: seq<Byte>) {
    && 0 < |data| <= 65536 && Decode(data).Ok?
    && var items := Decode(data).value;
       (forall k :: 0 <= k < |items| ==> AllowedAt(items, k)) && WithinLimits(items) && Closed(items)
  }

  lemma ParseTakes(data: seq<Byte>)
    ensures ParseFrom(Fresh(), data).Ok? <==> Decode(data).Ok? && TakenFrom(Decode(data).value, 0)
  {
    assert Tracks(Fresh(), []) by {
      assert WellFormed(Fresh()) && TracksFields([], []);
    }
    ParseFromAccepted(Fresh(), [], data);
    if Decode(data).Ok? {
      assert [] + Decode(data).value == Decode(data).value;
    }
  }

  /** Within the limits, what decides is whether every item is allowed. */
  lemma TakenExact(items: seq<Item>)
    ensures TakenFrom(items, 0) ==> forall k :: 0 <= k < |items| ==> AllowedAt(items, k)
    ensures WithinLimits(items) && (forall k :: 0 <= k < |items| ==> AllowedAt(items, k)) ==> TakenFrom(items, 0)
  {
    if WithinLimits(items) {
      forall k | 0 <= k < |items| ensures Fits(items[..k], items[k]) {
        LimitsMeanFits(items, k);
      }
    }
    if TakenFrom(items, 0) {
      forall k: nat | k < |items| ensures AllowedAt(items, k) {
        assert TakenAt(items, k);
      }
    }
  }

  lemma AcceptedIsAcceptable(data: seq<Byte>)
    requires ParseItems(data).Ok?
    ensures Acceptable(data)
  {
    ParsedMeans(data);
    ParseTakes(data);
    var items := Decode(data).value;
    TakenExact(items);
    assert WithinLimits(items) && Closed(items) by {
      TrackedWithinLimits(ParseItems(data).value, items);
    }
  }

  lemma AcceptableIsAccepted(data: seq<Byte>)
    requires Acceptable(data)
    ensures ParseItems(data).Ok?
  {
    var items := Decode(data).value;
    assert TakenFrom(items, 0) by {
      TakenExact(items);
    }
    ParseTakes(data);
    assert TracksContext(ParseFrom(Fresh(), data).value, ContextAfter(items)) by {
      ParseFromMeans(data);
    }
  }

  lemma ParseFromMeans(data: seq<Byte>)
    requires ParseFrom(Fresh(), data).Ok?
    ensures Decode(data).Ok? && TracksContext(ParseFrom(Fresh(), data).value, ContextAfter(Decode(data).value))
  {
    assert Tracks(Fresh(), []) by {
      assert WellFormed(Fresh()) && TracksFields([], []);
    }
    ParseFromTracks(Fresh(), [], data);
    assert [] + Decode(data).value == Decode(data).value;
  }

  /** Parse accepts exactly the acceptable descriptors. */
  lemma ParseAccepts(data: seq<Byte>)
    ensures ParseItems(data).Ok? <==> Acceptable(data)
  {
    if ParseItems(data).Ok? {
      AcceptedIsAcceptable(data);
    } else if Acceptable(data) {
      AcceptableIsAccepted(data);
    }
  }
}
