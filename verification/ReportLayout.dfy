/**
 What the strict parser's state means: after any accepted items it is the context those items define,
 and its maps hold exactly the report IDs and bit lengths of the fields seen. This is the bridge from
 the parser's data to the descriptor, so that layout decisions can be stated about the descriptor.
 */
module LayoutTracking {
  import opened Values
  import opened DescriptorItems
  import opened StrictParser

  ghost predicate TracksContext(p: PState, ctx: Context) {
    p.global == ctx.global && p.stack == ctx.stack && p.open == ctx.open && |p.reports| == ctx.apps
  }

  /** The maps of a collection hold the IDs it uses, each with the exact length of its report. */
  ghost predicate TracksFields(reports: seq<Reports>, fields: seq<Field>) {
    && (forall i, dir, id :: 0 <= i < |reports| ==> (id in reports[i].In(dir) <==> UsesId(fields, i, dir, id)))
    && (forall i, dir, id :: 0 <= i < |reports| && id in reports[i].In(dir) ==>
      reports[i].In(dir)[id] == Bits(fields, i, dir, id) <= MAX_REPORT_BITS)
    && (forall k :: 0 <= k < |fields| ==> 0 <= fields[k].app < |reports|)
  }

  ghost predicate Tracks(p: PState, items: seq<Item>) {
    && WellFormed(p)
    && TracksContext(p, ContextAfter(items))
    && TracksFields(p.reports, Fields(items))
    && (p.invalidLayout <==> SetsIdZero(items))
  }

  lemma Snoc(items: seq<Item>, item: Item)
    ensures ContextAfter(items + [item]) == Advance(ContextAfter(items), item)
    ensures Fields(items + [item]) == Fields(items) + FieldsOf(ContextAfter(items), item)
  {
    assert (items + [item])[..|items|] == items;
  }

  lemma SetsIdZeroSnoc(items: seq<Item>, item: Item)
    ensures SetsIdZero(items + [item]) <==> SetsIdZero(items) || item == Item(1, 8, 0)
  {
    if SetsIdZero(items) {
      var k :| 0 <= k < |items| && items[k] == Item(1, 8, 0);
      assert (items + [item])[k] == Item(1, 8, 0);
    } else if item == Item(1, 8, 0) {
      assert (items + [item])[|items|] == item;
    }
  }

  lemma UsesIdSnoc(fields: seq<Field>, f: Field, app: int, dir: Direction, id: nat)
    ensures UsesId(fields + [f], app, dir, id) <==> UsesId(fields, app, dir, id) || (f.app == app && f.dir == dir && f.id == id)
    ensures Bits(fields + [f], app, dir, id) ==
            Bits(fields, app, dir, id) + (if f.app == app && f.dir == dir && f.id == id then f.bits else 0)
  {
    assert (fields + [f])[..|fields|] == fields;
    if UsesId(fields, app, dir, id) {
      var k :| 0 <= k < |fields| && fields[k].app == app && fields[k].dir == dir && fields[k].id == id;
      assert (fields + [f])[k] == fields[k];
    } else if f.app == app && f.dir == dir && f.id == id {
      assert (fields + [f])[|fields|] == f;
    }
  }

  lemma UnusedHasNoBits(fields: seq<Field>, app: int, dir: Direction, id: nat)
    requires !UsesId(fields, app, dir, id)
    ensures Bits(fields, app, dir, id) == 0
  {
    if fields != [] {
      var rest, last := fields[..|fields| - 1], fields[|fields| - 1];
      assert fields == rest + [last];
      UsesIdSnoc(rest, last, app, dir, id);
      UnusedHasNoBits(rest, app, dir, id);
    }
  }

  /** Growing one map by one field keeps the correspondence. */
  lemma GrowTracks(reports: seq<Reports>, fields: seq<Field>, f: Field, after: seq<Reports>)
    requires TracksFields(reports, fields) && 0 <= f.app < |reports| && f.bits <= MAX_REPORT_BITS
    requires Grown(reports[f.app].In(f.dir), f.id, f.bits).Ok?
    requires |after| == |reports| && forall j :: 0 <= j < |reports| && j != f.app ==> after[j] == reports[j]
    requires forall dir :: after[f.app].In(dir) ==
                           if dir == f.dir then Grown(reports[f.app].In(f.dir), f.id, f.bits).value else reports[f.app].In(dir)
    ensures TracksFields(after, fields + [f])
  {
    forall i, dir, id | 0 <= i < |after|
      ensures id in after[i].In(dir) <==> UsesId(fields + [f], i, dir, id)
      ensures id in after[i].In(dir) ==> after[i].In(dir)[id] == Bits(fields + [f], i, dir, id) <= MAX_REPORT_BITS
    {
      UsesIdSnoc(fields, f, i, dir, id);
      if id !in reports[i].In(dir) {
        UnusedHasNoBits(fields, i, dir, id);
      }
    }
  }

  lemma FieldTracks(p: PState, items: seq<Item>, dir: Direction, value: U32)
    requires Tracks(p, items) && MainItem(p, if dir == Input then 8 else 9, value).Ok?
    ensures var item := Item(0, if dir == Input then 8 else 9, value);
            Tracks(StepItem(p, item).value, items + [item])
  {
    var item := Item(0, if dir == Input then 8 else 9, value);
    var q := StepItem(p, item).value;
    StepWellFormed(p, item);
    Snoc(items, item);
    SetsIdZeroSnoc(items, item);
    FieldBitsExact(p.global);
    var f := FieldsOf(ContextAfter(items), item)[0];
    GrowTracks(p.reports, Fields(items), f, q.reports);
  }

  lemma OpenTracks(reports: seq<Reports>, fields: seq<Field>)
    requires TracksFields(reports, fields)
    ensures TracksFields(reports + [Reports(map[], map[])], fields)
  {
  }

  lemma CollectionTracks(p: PState, items: seq<Item>, item: Item)
    requires Tracks(p, items) && item.kind == 0 && item.tag != 8 && item.tag != 9 && StepItem(p, item).Ok?
    ensures Tracks(StepItem(p, item).value, items + [item])
  {
    StepWellFormed(p, item);
    Unchanged(items, item);
    OpenTracks(p.reports, Fields(items));
  }

  lemma GlobalAdvances(p: PState, ctx: Context, tag: nat, value: U32)
    requires TracksContext(p, ctx) && GlobalItem(p, tag, value).Ok?
    ensures var q := GlobalItem(p, tag, value).value;
            && TracksContext(q, Advance(ctx, Item(1, tag, value))) && q.reports == p.reports
            && (q.invalidLayout <==> p.invalidLayout || (tag == 8 && value == 0))
  {
  }

  lemma OtherTracks(p: PState, items: seq<Item>, item: Item)
    requires Tracks(p, items) && item.kind != 0 && StepItem(p, item).Ok?
    ensures Tracks(StepItem(p, item).value, items + [item])
  {
    var q, ctx := StepItem(p, item).value, ContextAfter(items);
    assert TracksContext(q, Advance(ctx, item)) && q.reports == p.reports && (q.invalidLayout <==> p.invalidLayout || item == Item(1, 8, 0)) by {
      if item.kind == 1 {
        GlobalAdvances(p, ctx, item.tag, item.value);
      }
    }
    assert WellFormed(q) by {
      StepWellFormed(p, item);
    }
    Unchanged(items, item);
  }

  /** An item that is neither Input nor Output adds no field. */
  lemma Unchanged(items: seq<Item>, item: Item)
    requires item.kind != 0 || (item.tag != 8 && item.tag != 9)
    ensures ContextAfter(items + [item]) == Advance(ContextAfter(items), item)
    ensures Fields(items + [item]) == Fields(items)
    ensures SetsIdZero(items + [item]) <==> SetsIdZero(items) || item == Item(1, 8, 0)
  {
    Snoc(items, item);
    SetsIdZeroSnoc(items, item);
    assert Fields(items) + [] == Fields(items);
  }

  lemma StepTracks(p: PState, items: seq<Item>, item: Item)
    requires Tracks(p, items) && StepItem(p, item).Ok?
    ensures Tracks(StepItem(p, item).value, items + [item])
  {
    if item.kind != 0 {
      OtherTracks(p, items, item);
    } else if item.tag == 8 || item.tag == 9 {
      FieldTracks(p, items, if item.tag == 8 then Input else Output, item.value);
    } else {
      CollectionTracks(p, items, item);
    }
  }

  lemma {:induction false} ParseFromTracks(p: PState, items: seq<Item>, data: seq<Byte>)
    requires Tracks(p, items) && ParseFrom(p, data).Ok?
    ensures Decode(data).Ok? && Tracks(ParseFrom(p, data).value, items + Decode(data).value)
    decreases |data|
  {
    if data == [] {
      assert items + [] == items;
    } else {
      var item, n := NextItem(data).value.0, NextItem(data).value.1;
      var step := StepItem(p, item);
      assert step.Ok?;
      assert Tracks(step.value, items + [item]) by {
        StepTracks(p, items, item);
      }
      assert ParseFrom(p, data) == ParseFrom(step.value, data[n..]);
      ParseFromTracks(step.value, items + [item], data[n..]);
      Regroup(items, [item], Decode(data[n..]).value);
    }
  }

  /** An accepted descriptor is a well-formed item stream, and the state is what that stream means. */
  lemma ParsedMeans(data: seq<Byte>)
    requires ParseItems(data).Ok?
    ensures Decode(data).Ok? && Tracks(ParseItems(data).value, Decode(data).value)
  {
    assert Tracks(Fresh(), []) by {
      assert WellFormed(Fresh()) && TracksFields([], []);
    }
    ParseFromTracks(Fresh(), [], data);
    assert [] + Decode(data).value == Decode(data).value;
  }
}
