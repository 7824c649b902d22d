/**
 What the items of section 6.2.2 of the USB Device Class Definition for HID 1.11 do to the context, as laws:
 each global item sets one value, Pop undoes everything since its Push, End Collection returns to the
 collection around, and only a collection opened outside all others starts a new Application.
 */
module ContextLaws {
  import opened Values
  import opened DescriptorItems
  import opened LayoutTracking

  /** Usage Page, Report Size, Report ID and Report Count set just that value. */
  lemma GlobalsSet(items: seq<Item>, v: U32)
    ensures var c := ContextAfter(items);
            && ContextAfter(items + [Item(1, 0, v)]) == c.(global := Globals(v, c.global.size, c.global.count, c.global.id))
            && ContextAfter(items + [Item(1, 7, v)]) == c.(global := Globals(c.global.page, v, c.global.count, c.global.id))
            && ContextAfter(items + [Item(1, 8, v)]) == c.(global := Globals(c.global.page, c.global.size, c.global.count, v))
            && ContextAfter(items + [Item(1, 9, v)]) == c.(global := Globals(c.global.page, c.global.size, v, c.global.id))
  {
    Snoc(items, Item(1, 0, v));
    Snoc(items, Item(1, 7, v));
    Snoc(items, Item(1, 8, v));
    Snoc(items, Item(1, 9, v));
  }

  /** One item's effect on how many states are saved and how many collections are open; None when it has none to close. */
  function DepthStep(saved: nat, open: nat, item: Item): Option<(nat, nat)> {
    match (item.kind, item.tag)
    case (1, 10) => Some((saved + 1, open))
    case (1, 11) => if saved > 0 then Some((saved - 1, open)) else None
    case (0, 10) => Some((saved, open + 1))
    case (0, 12) => if open > 0 then Some((saved, open - 1)) else None
    case _ => Some((saved, open))
  }

  function Depths(items: seq<Item>): Option<(nat, nat)> {
    if items == [] then Some((0, 0))
    else
      match Depths(items[..|items| - 1])
      case None => None
      case Some((saved, open)) => DepthStep(saved, open, items[|items| - 1])
  }

  lemma DepthsSnoc(items: seq<Item>, item: Item)
    ensures Depths(items + [item]) == match Depths(items) case None => None case Some((saved, open)) => DepthStep(saved, open, item)
  {
    assert (items + [item])[..|items|] == items;
  }

  /** So many states saved and collections opened on top of those of `base`, which are all still there. */
  predicate OnTop(base: Context, c: Context, saved: nat, open: nat) {
    |c.stack| == |base.stack| + saved && base.stack <= c.stack && |c.open| == |base.open| + open && base.open <= c.open
  }

  lemma StaysOnTop(base: Context, c: Context, saved: nat, open: nat, item: Item)
    requires OnTop(base, c, saved, open) && DepthStep(saved, open, item).Some?
    ensures var (saved', open') := DepthStep(saved, open, item).value; OnTop(base, Advance(c, item), saved', open')
  {
    if item.kind == 0 && item.tag == 10 && OpensApplication(c, item) {
      assert base.open == [] && c.open == [];
    }
  }

  /** Items that close what they open leave what was saved and open before them alone. */
  lemma {:induction false} Nested(items: seq<Item>, mid: seq<Item>)
    requires Depths(mid).Some?
    ensures OnTop(ContextAfter(items), ContextAfter(items + mid), Depths(mid).value.0, Depths(mid).value.1)
    decreases |mid|
  {
    if mid == [] {
      assert items + mid == items;
    } else {
      var init, last := mid[..|mid| - 1], mid[|mid| - 1];
      assert mid == init + [last] && items + mid == (items + init) + [last];
      DepthsSnoc(init, last);
      Nested(items, init);
      Snoc(items + init, last);
      StaysOnTop(ContextAfter(items), ContextAfter(items + init), Depths(init).value.0, Depths(init).value.1, last);
    }
  }

  /** Pop restores the global state of its Push, whatever balanced items stand between. */
  lemma PopRestores(items: seq<Item>, mid: seq<Item>)
    requires Depths(mid).Some? && Depths(mid).value.0 == 0
    ensures var before, after := ContextAfter(items), ContextAfter(items + [Item(1, 10, 0)] + mid + [Item(1, 11, 0)]);
            after.global == before.global && after.stack == before.stack
  {
    var pushed := items + [Item(1, 10, 0)];
    Snoc(items, Item(1, 10, 0));
    Nested(pushed, mid);
    Snoc(pushed + mid, Item(1, 11, 0));
    var before, between := ContextAfter(items), ContextAfter(pushed + mid);
    assert between.stack == ContextAfter(pushed).stack == before.stack + [before.global];
  }

  /** A collection and its End leave the collections as they were; a new Application is started exactly outside all others. */
  lemma EndReturns(items: seq<Item>, mid: seq<Item>, v: U32, w: U32)
    requires Depths(mid).Some? && Depths(mid).value.1 == 0
    ensures var before, inside := ContextAfter(items), ContextAfter(items + [Item(0, 10, v)]);
            && inside.apps == before.apps + (if v == 1 && before.open == [] then 1 else 0)
            && Current(inside) == (if v == 1 && before.open == [] then before.apps else Current(before))
            && ContextAfter(items + [Item(0, 10, v)] + mid + [Item(0, 12, w)]).open == before.open
  {
    var opened' := items + [Item(0, 10, v)];
    Snoc(items, Item(0, 10, v));
    Nested(opened', mid);
    Snoc(opened' + mid, Item(0, 12, w));
    var before, between := ContextAfter(items), ContextAfter(opened' + mid);
    assert between.open == ContextAfter(opened').open;
    assert between.open[..|between.open| - 1] == before.open;
  }

  /** An Input or Output item adds its field to the collection it stands in, under the ID, size and count in force. */
  lemma FieldAdded(items: seq<Item>, output: bool, v: U32)
    ensures var c := ContextAfter(items);
            Fields(items + [Item(0, if output then 9 else 8, v)]) ==
            Fields(items) + [Field(Current(c), if output then Output else Input, c.global.id, c.global.size * c.global.count)]
  {
    Snoc(items, Item(0, if output then 9 else 8, v));
  }
}
