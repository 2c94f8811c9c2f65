/** Slot-counted inventories (items/inventory.py). */
module ItemInventory {
  import opened Wrappers
  import opened Components
  import opened Ecs
  import opened SetSums

  /** e is an item in owner's inventory: it has Item and InInventory(owner). */
  predicate Carries(tables: Tables, owner: Entity, e: Entity) {
    Get(tables, e, ItemType).Some? && Get(tables, e, InInventoryType) == Some(InInventory(owner))
  }

  /** get_inventory_items, as the set of entities the list enumerates. */
  function InventoryItems(tables: Tables, owner: Entity): (r: set<Entity>)
    ensures forall e :: e in r <==> Carries(tables, owner, e)
  {
    set e | e in Holders(tables, InInventoryType) && Carries(tables, owner, e)
  }

  /** The slot_size of e's Item, 0 for an entity with none. */
  function SlotSize(tables: Tables, e: Entity): int {
    var item := Get(tables, e, ItemType);
    if item.Some? && item.value.Item? then item.value.slotSize else 0
  }

  function Sizes(tables: Tables): Entity -> int {
    e => SlotSize(tables, e)
  }

  /** get_used_slots: the slot sizes of owner's items, summed. */
  ghost function UsedSlots(tables: Tables, owner: Entity): int {
    Sum(InventoryItems(tables, owner), Sizes(tables))
  }

  predicate HasInventory(tables: Tables, owner: Entity) {
    Get(tables, owner, InventoryType).Some? && Get(tables, owner, InventoryType).value.Inventory?
  }

  /** get_free_slots: max_slots less the used slots (negative when over capacity). */
  ghost function FreeSlots(tables: Tables, owner: Entity): int
    requires HasInventory(tables, owner)
  {
    Get(tables, owner, InventoryType).value.maxSlots - UsedSlots(tables, owner)
  }

  /** can_pickup */
  ghost predicate Fits(tables: Tables, owner: Entity, item: Entity)
    requires HasInventory(tables, owner)
  {
    FreeSlots(tables, owner) >= SlotSize(tables, item)
  }

  /** The store after a pickup: OnGround and Position give way to InInventory(owner). */
  function PickedUp(tables: Tables, owner: Entity, item: Entity): Tables {
    Put(Remove(Remove(tables, item, OnGroundType), item, PositionType), item, InInventory(owner))
  }

  /** The store after a drop: InInventory gives way to OnGround and Position(x, y). */
  function Dropped(tables: Tables, item: Entity, x: int, y: int): Tables {
    Put(Put(Remove(tables, item, InInventoryType), item, OnGround), item, Position(x, y))
  }

  /** What PickedUp does to each component. */
  lemma PickedUpGet(tables: Tables, owner: Entity, item: Entity, e: Entity, t: ComponentType)
    ensures Get(PickedUp(tables, owner, item), e, t) ==
      if e == item && t == InInventoryType then Some(InInventory(owner))
      else if e == item && (t == OnGroundType || t == PositionType) then None
      else Get(tables, e, t)
  {
    assert TypeOf(InInventory(owner)) == InInventoryType;
  }

  /** What Dropped does to each component. */
  lemma DroppedGet(tables: Tables, item: Entity, x: int, y: int, e: Entity, t: ComponentType)
    ensures Get(Dropped(tables, item, x, y), e, t) ==
      if e == item && t == PositionType then Some(Position(x, y))
      else if e == item && t == OnGroundType then Some(OnGround)
      else if e == item && t == InInventoryType then None
      else Get(tables, e, t)
  {
    assert TypeOf(OnGround) == OnGroundType && TypeOf(Position(x, y)) == PositionType;
  }

  /** get_used_slots: the accumulating loop over owner's items. */
  method GetUsedSlots(w: World, owner: Entity) returns (total: int)
    requires w.Valid()
    ensures total == UsedSlots(w.components, owner)
  {
    var items := InventoryItems(w.components, owner);
    var todo := items;
    total := 0;
    while todo != {}
      invariant todo <= items
      invariant total + Sum(todo, Sizes(w.components)) == Sum(items, Sizes(w.components))
      decreases todo
    {
      var e :| e in todo;
      var item := w.ComponentFor(e, ItemType);
      SumRemove(todo, Sizes(w.components), e);
      total := total + item.slotSize;
      todo := todo - {e};
    }
  }

  method GetFreeSlots(w: World, owner: Entity) returns (free: int)
    requires w.Valid() && Get(w.components, owner, InventoryType).Some?
    ensures HasInventory(w.components, owner) && free == FreeSlots(w.components, owner)
  {
    var inventory := w.ComponentFor(owner, InventoryType);
    var used := GetUsedSlots(w, owner);
    free := inventory.maxSlots - used;
  }

  method CanPickup(w: World, owner: Entity, item: Entity) returns (b: bool)
    requires w.Valid() && Get(w.components, item, ItemType).Some? && Get(w.components, owner, InventoryType).Some?
    ensures HasInventory(w.components, owner) && (b <==> Fits(w.components, owner, item))
  {
    var it := w.ComponentFor(item, ItemType);
    var free := GetFreeSlots(w, owner);
    b := free >= it.slotSize;
  }

  /** pickup_item: nothing changes when the item does not fit. */
  method PickupItem(w: World, owner: Entity, item: Entity) returns (ok: bool)
    requires w.Valid() && Get(w.components, item, ItemType).Some? && Get(w.components, owner, InventoryType).Some?
    modifies w`components
    ensures w.Valid()
    ensures HasInventory(old(w.components), owner) && (ok <==> Fits(old(w.components), owner, item))
    ensures w.components == if ok then PickedUp(old(w.components), owner, item) else old(w.components)
  {
    ok := CanPickup(w, owner, item);
    if !ok {
      return;
    }
    w.RemoveComponent(item, OnGroundType);
    w.RemoveComponent(item, PositionType);
    w.AddComponent(item, InInventory(owner));
  }

  /** get_items_at_position: the loop collecting the ground items on (x, y). */
  method GetItemsAtPosition(w: World, x: int, y: int) returns (r: seq<Entity>)
    requires w.Valid()
    ensures forall e :: e in r <==>
      Get(w.components, e, OnGroundType).Some? && Get(w.components, e, ItemType).Some?
      && Get(w.components, e, PositionType) == Some(Position(x, y))
    ensures forall i, j | 0 <= i < j < |r| :: r[i] != r[j]
  {
    var items := w.GetEntitiesWith([OnGroundType, PositionType, ItemType]);
    var todo := items;
    r := [];
    while todo != {}
      invariant todo <= items
      invariant forall e :: e in r <==> e in items && e !in todo && Get(w.components, e, PositionType) == Some(Position(x, y))
      invariant forall i, j | 0 <= i < j < |r| :: r[i] != r[j]
      decreases todo
    {
      var e :| e in todo;
      var pos := w.ComponentFor(e, PositionType);
      if pos.x == x && pos.y == y {
        r := r + [e];
      }
      todo := todo - {e};
    }
  }

  /** drop_item: refused with no change when the item is in another owner's inventory. */
  method DropItem(w: World, owner: Entity, item: Entity, x: int, y: int) returns (ok: bool)
    requires w.Valid() && Get(w.components, item, InInventoryType).Some?
    modifies w`components
    ensures w.Valid()
    ensures ok <==> Get(old(w.components), item, InInventoryType) == Some(InInventory(owner))
    ensures w.components == if ok then Dropped(old(w.components), item, x, y) else old(w.components)
  {
    var inInventory := w.ComponentFor(item, InInventoryType);
    if inInventory.owner != owner {
      return false;
    }
    w.RemoveComponent(item, InInventoryType);
    w.AddComponent(item, OnGround);
    w.AddComponent(item, Position(x, y));
    ok := true;
  }

  /** An item entering owner's inventory, with no Item record changing, adds its slots. */
  lemma UsedSlotsEnter(t1: Tables, t2: Tables, owner: Entity, item: Entity)
    requires !Carries(t1, owner, item) && Carries(t2, owner, item)
    requires forall e :: Get(t2, e, ItemType) == Get(t1, e, ItemType)
    requires forall e | e != item :: Get(t2, e, InInventoryType) == Get(t1, e, InInventoryType)
    ensures UsedSlots(t2, owner) == UsedSlots(t1, owner) + SlotSize(t1, item)
  {
    assert InventoryItems(t2, owner) == InventoryItems(t1, owner) + {item};
    SumSame(InventoryItems(t1, owner), Sizes(t2), Sizes(t1));
    SumAdd(InventoryItems(t1, owner), Sizes(t2), item);
  }

  /** An item leaving owner's inventory, with no Item record changing, frees its slots. */
  lemma UsedSlotsLeave(t1: Tables, t2: Tables, owner: Entity, item: Entity)
    requires Carries(t1, owner, item) && !Carries(t2, owner, item)
    requires forall e :: Get(t2, e, ItemType) == Get(t1, e, ItemType)
    requires forall e | e != item :: Get(t2, e, InInventoryType) == Get(t1, e, InInventoryType)
    ensures UsedSlots(t2, owner) == UsedSlots(t1, owner) - SlotSize(t1, item)
  {
    assert InventoryItems(t2, owner) == InventoryItems(t1, owner) - {item};
    SumRemove(InventoryItems(t1, owner), Sizes(t1), item);
    SumSame(InventoryItems(t2, owner), Sizes(t2), Sizes(t1));
  }

  /** A successful pickup of an item not already held raises the used slots by its size. */
  lemma PickupUsesSlots(tables: Tables, owner: Entity, item: Entity)
    requires Get(tables, item, ItemType).Some? && !Carries(tables, owner, item)
    ensures UsedSlots(PickedUp(tables, owner, item), owner) == UsedSlots(tables, owner) + SlotSize(tables, item)
  {
    assert TypeOf(InInventory(owner)) == InInventoryType;
    UsedSlotsEnter(tables, PickedUp(tables, owner, item), owner, item);
  }

  /** Dropping a held item frees its slots. */
  lemma DropFreesSlots(tables: Tables, owner: Entity, item: Entity, x: int, y: int)
    requires Carries(tables, owner, item)
    ensures UsedSlots(Dropped(tables, item, x, y), owner) == UsedSlots(tables, owner) - SlotSize(tables, item)
  {
    assert TypeOf(OnGround) == OnGroundType && TypeOf(Position(x, y)) == PositionType;
    UsedSlotsLeave(tables, Dropped(tables, item, x, y), owner, item);
  }

  /** A held item dropped by an owner who was not over capacity fits back in. */
  lemma DropThenFits(tables: Tables, owner: Entity, item: Entity, x: int, y: int)
    requires Carries(tables, owner, item) && HasInventory(tables, owner) && FreeSlots(tables, owner) >= 0
    ensures HasInventory(Dropped(tables, item, x, y), owner) && Fits(Dropped(tables, item, x, y), owner, item)
  {
    DropFreesSlots(tables, owner, item, x, y);
    DroppedGet(tables, item, x, y, owner, InventoryType);
    DroppedGet(tables, item, x, y, item, ItemType);
  }

  /** Dropping a held item that was not on the map and picking it up again restores every component. */
  lemma DropPickupRoundTrip(tables: Tables, owner: Entity, item: Entity, x: int, y: int, e: Entity, t: ComponentType)
    requires Get(tables, item, InInventoryType) == Some(InInventory(owner))
    requires Get(tables, item, OnGroundType).None? && Get(tables, item, PositionType).None?
    ensures Get(PickedUp(Dropped(tables, item, x, y), owner, item), e, t) == Get(tables, e, t)
  {
    DroppedGet(tables, item, x, y, e, t);
    PickedUpGet(Dropped(tables, item, x, y), owner, item, e, t);
  }
}
