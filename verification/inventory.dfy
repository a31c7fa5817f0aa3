/** The player's item list (models/Inventory.java): created empty, once, and
    only ever appended to. The Java class is a process-wide singleton; here
    the holder of that single instance is an explicit value. */
module Inventories {
  import opened Wrappers
  import opened Models

  type ItemObject = o: GameObject | o.Item? witness Item(Pos(0, 0), "")

  datatype Inventory = Inventory(items: seq<ItemObject>)

  /** The private constructor. */
  function NewInventory(): (inv: Inventory)
    ensures |inv.items| == 0
  {
    Inventory([])
  }

  function AddItem(inv: Inventory, item: ItemObject): (r: Inventory)
    ensures |r.items| == |inv.items| + 1
    ensures r.items[|inv.items|] == item
    ensures r.items[..|inv.items|] == inv.items
  {
    Inventory(inv.items + [item])
  }

  /** The static `instance` field: absent until first requested. */
  datatype Holder = Holder(instance: Option<Inventory>)

  /** What `getInventory` returns and the holder after the call. */
  datatype Got = Got(inv: Inventory, holder: Holder)

  function GetInventory(h: Holder): (g: Got)
    ensures h.instance.Some? ==> g == Got(h.instance.value, h)
    ensures h.instance.None? ==> |g.inv.items| == 0
    ensures g.holder.instance == Some(g.inv)
  {
    match h.instance
    case Some(inv) => Got(inv, h)
    case None =>
      var inv := NewInventory();
      Got(inv, Holder(Some(inv)))
  }

  /** `Inventory.getInventory().addItem(item)`. */
  function PickUp(h: Holder, item: ItemObject): Holder {
    var g := GetInventory(h);
    Holder(Some(AddItem(g.inv, item)))
  }

  /** Picking up each of `items` in turn. */
  function PickUpAll(h: Holder, items: seq<ItemObject>): Holder
    decreases |items|
  {
    if |items| == 0 then h
    else PickUpAll(PickUp(h, items[0]), items[1..])
  }

  /** The items held before any sequence of pickups. */
  function Held(h: Holder): seq<ItemObject> {
    match h.instance
    case None => []
    case Some(inv) => inv.items
  }

  /** Requesting the instance again never loses an item: after any sequence
      of pickups, the instance holds the earlier items followed by the picked
      ones, in pickup order. */
  lemma {:induction false} PickUpsAccumulate(h: Holder, items: seq<ItemObject>)
    ensures GetInventory(PickUpAll(h, items)).inv.items == Held(h) + items
    decreases |items|
  {
    if |items| == 0 {
      assert Held(h) + items == Held(h);
    } else {
      var h' := PickUp(h, items[0]);
      assert Held(h') == Held(h) + [items[0]];
      PickUpsAccumulate(h', items[1..]);
      assert items == [items[0]] + items[1..];
      assert Held(h) + items == Held(h) + [items[0]] + items[1..];
    }
  }
}
