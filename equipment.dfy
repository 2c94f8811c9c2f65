/** Equipment slots, ring-slot search, swap and bonuses (items/equipment.py). */
module ItemEquipment {
  import opened Wrappers
  import opened Components
  import opened Ecs
  import opened SetSums
  import opened ItemInventory

  type Slots = map<string, Option<Entity>>

  /** The four ring slots, searched in this order. */
  const RingSlots: seq<string> := ["ring_1", "ring_2", "ring_3", "ring_4"]

  /** `slots.get(slot)`: the occupant, None when the key is absent or the slot is empty. */
  function Occupant(slots: Slots, slot: string): Option<Entity> {
    if slot in slots then slots[slot] else None
  }

  predicate HasSlots(tables: Tables, owner: Entity) {
    Get(tables, owner, EquipmentSlotsType).Some? && Get(tables, owner, EquipmentSlotsType).value.EquipmentSlots?
  }

  function SlotsOf(tables: Tables, owner: Entity): Slots
    requires HasSlots(tables, owner)
  {
    Get(tables, owner, EquipmentSlotsType).value.slots
  }

  predicate IsEquipment(tables: Tables, item: Entity) {
    Get(tables, item, EquipmentType).Some? && Get(tables, item, EquipmentType).value.Equipment?
  }

  /** The first empty slot among `rings`, in order. */
  function FirstFree(slots: Slots, rings: seq<string>): (r: Option<string>)
  {
    if rings == [] then None
    else if Occupant(slots, rings[0]).None? then Some(rings[0])
    else FirstFree(slots, rings[1..])
  }

  /** FirstFree finds the earliest empty slot, and None means every slot is taken. */
  lemma {:induction false} FirstFreeIsFirst(slots: Slots, rings: seq<string>)
    ensures var r := FirstFree(slots, rings);
      (r.None? <==> forall i | 0 <= i < |rings| :: Occupant(slots, rings[i]).Some?)
      && (r.Some? ==> exists k | 0 <= k < |rings| :: rings[k] == r.value && Occupant(slots, rings[k]).None?
                        && forall i | 0 <= i < k :: Occupant(slots, rings[i]).Some?)
  {
    if rings != [] && Occupant(slots, rings[0]).Some? {
      FirstFreeIsFirst(slots, rings[1..]);
      var r := FirstFree(slots, rings[1..]);
      if r.Some? {
        var k :| 0 <= k < |rings[1..]| && rings[1..][k] == r.value && Occupant(slots, rings[1..][k]).None?
          && forall i | 0 <= i < k :: Occupant(slots, rings[1..][i]).Some?;
        assert rings[k + 1] == r.value && forall i | 0 <= i < k + 1 :: Occupant(slots, rings[i]).Some?;
      } else {
        assert forall i | 0 <= i < |rings| :: i == 0 || rings[i] == rings[1..][i - 1];
      }
    }
  }

  /** find_available_slot on the records: a ring takes the first empty ring slot or ring_1; anything else its own slot. */
  function SlotFor(slots: Slots, equipment: Component): string
    requires equipment.Equipment?
  {
    if equipment.slot == "ring" then
      var free := FirstFree(slots, RingSlots);
      if free.Some? then free.value else "ring_1"
    else equipment.slot
  }

  /** find_available_slot: the loop over the ring slots with its early return. */
  method FindAvailableSlot(w: World, owner: Entity, item: Entity) returns (r: Option<string>)
    requires w.Valid() && Get(w.components, item, EquipmentType).Some? && Get(w.components, owner, EquipmentSlotsType).Some?
    ensures HasSlots(w.components, owner) && IsEquipment(w.components, item)
    ensures r == Some(SlotFor(SlotsOf(w.components, owner), Get(w.components, item, EquipmentType).value))
  {
    var equipment := w.ComponentFor(item, EquipmentType);
    var equipSlots := w.ComponentFor(owner, EquipmentSlotsType);
    if equipment.slot == "ring" {
      for i := 0 to |RingSlots|
        invariant FirstFree(equipSlots.slots, RingSlots) == FirstFree(equipSlots.slots, RingSlots[i..])
      {
        if Occupant(equipSlots.slots, RingSlots[i]).None? {
          return Some(RingSlots[i]);
        }
        assert RingSlots[i..][1..] == RingSlots[i + 1..];
      }
      return Some("ring_1");
    }
    return Some(equipment.slot);
  }

  /** can_equip: a ring always can; anything else needs its slot among the owner's slot keys. */
  function CanEquip(tables: Tables, owner: Entity, item: Entity): (r: (bool, string))
    requires HasSlots(tables, owner) && IsEquipment(tables, item)
    ensures r.0 <==> SlotFor(SlotsOf(tables, owner), Get(tables, item, EquipmentType).value) in SlotsOf(tables, owner)
                     || Get(tables, item, EquipmentType).value.slot == "ring"
    ensures r.0 == (r.1 == "")
  {
    var slot := Get(tables, item, EquipmentType).value.slot;
    if slot == "ring" then (true, "")
    else if slot !in SlotsOf(tables, owner) then (false, "No slot for " + slot)
    else (true, "")
  }

  /** The precondition unequip_to_inventory's component_for calls impose on an occupied slot. */
  predicate CanMeasure(tables: Tables, owner: Entity, slot: string) {
    HasSlots(tables, owner)
    && (Occupant(SlotsOf(tables, owner), slot).Some? ==>
          Get(tables, Occupant(SlotsOf(tables, owner), slot).value, ItemType).Some? && HasInventory(tables, owner))
  }

  /** unequip_to_inventory on the store: the occupant moves to the inventory when it fits, else nothing changes. */
  ghost function Unequipped(tables: Tables, owner: Entity, slot: string): (r: Tables)
    requires CanMeasure(tables, owner, slot)
    ensures HasSlots(r, owner)
  {
    var slots := SlotsOf(tables, owner);
    var occupant := Occupant(slots, slot);
    if occupant.None? || FreeSlots(tables, owner) < SlotSize(tables, occupant.value) then tables
    else
      assert TypeOf(EquipmentSlots(slots[slot := None])) == EquipmentSlotsType;
      Returned(tables, owner, occupant.value, slots[slot := None])
  }

  /** The writes of a successful unequip: Equipped gives way to InInventory(owner), and the owner gets the new slot map. */
  function Returned(tables: Tables, owner: Entity, item: Entity, slots: Slots): Tables {
    Put(Put(Remove(tables, item, EquippedType), item, InInventory(owner)), owner, EquipmentSlots(slots))
  }

  /** What Returned does to each component. */
  lemma ReturnedGet(tables: Tables, owner: Entity, item: Entity, slots: Slots, e: Entity, t: ComponentType)
    requires item != owner
    ensures Get(Returned(tables, owner, item, slots), e, t)
         == if e == owner && t == EquipmentSlotsType then Some(EquipmentSlots(slots))
            else if e == item && t == InInventoryType then Some(InInventory(owner))
            else if e == item && t == EquippedType then None
            else Get(tables, e, t)
  {
    var inInventory, bare := InInventory(owner), EquipmentSlots(slots);
    assert TypeOf(inInventory) == InInventoryType && TypeOf(bare) == EquipmentSlotsType;
    var d := Remove(tables, item, EquippedType);
    var f := Put(d, item, inInventory);
    var g := Put(f, owner, bare);
    if e == owner && t == EquipmentSlotsType {
      assert Get(g, e, t) == Some(bare);
    } else if e == item && t == InInventoryType {
      assert Get(g, e, t) == Get(f, e, t) == Some(inInventory);
    } else if e == item && t == EquippedType {
      assert Get(g, e, t) == Get(f, e, t) == Get(d, e, t) == None;
    } else {
      assert Get(g, e, t) == Get(f, e, t) == Get(d, e, t) == Get(tables, e, t);
    }
  }

  /** The writes that finish equip_item: the item leaves the inventory, is marked Equipped and fills the slot. */
  function Worn(tables: Tables, owner: Entity, item: Entity, slot: string, slots: Slots): Tables {
    Put(Put(Remove(tables, item, InInventoryType), item, Equipped(owner, slot)), owner, EquipmentSlots(slots[slot := Some(item)]))
  }

  /** What Worn does to each component. */
  lemma WornGet(tables: Tables, owner: Entity, item: Entity, slot: string, slots: Slots, e: Entity, t: ComponentType)
    requires item != owner
    ensures Get(Worn(tables, owner, item, slot, slots), e, t)
         == if e == owner && t == EquipmentSlotsType then Some(EquipmentSlots(slots[slot := Some(item)]))
            else if e == item && t == EquippedType then Some(Equipped(owner, slot))
            else if e == item && t == InInventoryType then None
            else Get(tables, e, t)
  {
    var equipped, worn := Equipped(owner, slot), EquipmentSlots(slots[slot := Some(item)]);
    assert TypeOf(equipped) == EquippedType && TypeOf(worn) == EquipmentSlotsType;
    var a := Remove(tables, item, InInventoryType);
    var b := Put(a, item, equipped);
    var c := Put(b, owner, worn);
    if e == owner && t == EquipmentSlotsType {
      assert Get(c, e, t) == Some(worn);
    } else if e == item && t == EquippedType {
      assert Get(c, e, t) == Get(b, e, t) == Some(equipped);
    } else if e == item && t == InInventoryType {
      assert Get(c, e, t) == Get(b, e, t) == Get(a, e, t) == None;
    } else {
      assert Get(c, e, t) == Get(b, e, t) == Get(a, e, t) == Get(tables, e, t);
    }
  }

  /** The item unequip_to_inventory returns. */
  ghost function UnequipResult(tables: Tables, owner: Entity, slot: string): Option<Entity>
    requires CanMeasure(tables, owner, slot)
  {
    var occupant := Occupant(SlotsOf(tables, owner), slot);
    if occupant.None? || FreeSlots(tables, owner) < SlotSize(tables, occupant.value) then None else occupant
  }

  method UnequipToInventory(w: World, owner: Entity, slot: string) returns (r: Option<Entity>)
    requires w.Valid() && CanMeasure(w.components, owner, slot)
    modifies w`components
    ensures w.Valid()
    ensures w.components == Unequipped(old(w.components), owner, slot)
    ensures r == UnequipResult(old(w.components), owner, slot)
  {
    ghost var before := w.components;
    var equipSlots := w.ComponentFor(owner, EquipmentSlotsType);
    var occupant := Occupant(equipSlots.slots, slot);
    if occupant.None? {
      return None;
    }
    var item := w.ComponentFor(occupant.value, ItemType);
    assert item.slotSize == SlotSize(before, occupant.value);
    var free := GetFreeSlots(w, owner);
    if free < item.slotSize {
      return None;
    }
    MoveToInventory(w, owner, occupant.value, equipSlots.slots[slot := None]);
    r := occupant;
  }

  /** Performs the writes of Returned. */
  method MoveToInventory(w: World, owner: Entity, item: Entity, slots: Slots)
    requires w.Valid()
    modifies w`components
    ensures w.Valid()
    ensures w.components == Returned(old(w.components), owner, item, slots)
  {
    w.RemoveComponent(item, EquippedType);
    w.AddComponent(item, InInventory(owner));
    w.AddComponent(owner, EquipmentSlots(slots));
  }

  /** The slot equip_item settles on: a non-empty target, else find_available_slot's answer. */
  function ResolvedSlot(tables: Tables, owner: Entity, item: Entity, target: Option<string>): string
    requires HasSlots(tables, owner) && ((target.None? || target.value == "") ==> IsEquipment(tables, item))
  {
    if target.Some? && target.value != "" then target.value
    else SlotFor(SlotsOf(tables, owner), Get(tables, item, EquipmentType).value)
  }

  /** What equip_item's component_for calls demand of the store. */
  predicate EquipReady(tables: Tables, owner: Entity, item: Entity, target: Option<string>) {
    HasSlots(tables, owner) && ((target.None? || target.value == "") ==> IsEquipment(tables, item))
    && CanMeasure(tables, owner, ResolvedSlot(tables, owner, item, target))
  }

  /**
   * equip_item on the store, once the slot is known: move any occupant to
   * the inventory (which may fail and is then ignored), take the item out
   * of the inventory, mark it Equipped and put it in the slot.
   */
  ghost function EquippedInto(tables: Tables, owner: Entity, item: Entity, slot: string): Tables
    requires CanMeasure(tables, owner, slot)
  {
    var cleared := if Occupant(SlotsOf(tables, owner), slot).Some? then Unequipped(tables, owner, slot) else tables;
    Worn(cleared, owner, item, slot, SlotsOf(cleared, owner))
  }

  method EquipItem(w: World, owner: Entity, item: Entity, target: Option<string>) returns (prev: Option<Entity>)
    requires w.Valid() && EquipReady(w.components, owner, item, target)
    modifies w`components
    ensures w.Valid()
    ensures var slot := ResolvedSlot(old(w.components), owner, item, target);
      if slot == "" then prev == None && w.components == old(w.components)
      else (prev == Occupant(SlotsOf(old(w.components), owner), slot)
            && w.components == EquippedInto(old(w.components), owner, item, slot))
  {
    var equipSlots := w.ComponentFor(owner, EquipmentSlotsType);
    var slot: string;
    if target.Some? && target.value != "" {
      slot := target.value;
    } else {
      var found := FindAvailableSlot(w, owner, item);
      slot := found.value;
    }
    if slot == "" {
      return None;
    }
    prev := Occupant(equipSlots.slots, slot);
    if prev.Some? {
      var moved := UnequipToInventory(w, owner, slot);
    }
    PlaceInSlot(w, owner, item, slot);
  }

  /** Performs the writes of Worn; the slot map is read again, as the unequip may have cleared the slot. */
  method PlaceInSlot(w: World, owner: Entity, item: Entity, slot: string)
    requires w.Valid() && HasSlots(w.components, owner)
    modifies w`components
    ensures w.Valid()
    ensures w.components == Worn(old(w.components), owner, item, slot, SlotsOf(old(w.components), owner))
  {
    var equipSlots := w.ComponentFor(owner, EquipmentSlotsType);
    w.RemoveComponent(item, InInventoryType);
    w.AddComponent(item, Equipped(owner, slot));
    w.AddComponent(owner, EquipmentSlots(equipSlots.slots[slot := Some(item)]));
  }

  /**
   * After equipping, the slot holds the item, the item is Equipped there
   * and out of the inventory, and every other slot entry is unchanged.
   */
  lemma EquipPlaces(tables: Tables, owner: Entity, item: Entity, slot: string, other: string)
    requires CanMeasure(tables, owner, slot) && other != slot
    ensures var after := EquippedInto(tables, owner, item, slot);
      HasSlots(after, owner)
      && Occupant(SlotsOf(after, owner), slot) == Some(item)
      && Occupant(SlotsOf(after, owner), other) == Occupant(SlotsOf(tables, owner), other)
      && Get(after, item, EquippedType) == Some(Equipped(owner, slot))
      && Get(after, item, InInventoryType) == None
  {
    assert TypeOf(Equipped(owner, slot)) == EquippedType;
    if Occupant(SlotsOf(tables, owner), slot).Some? {
      var cleared := Unequipped(tables, owner, slot);
      assert Occupant(SlotsOf(cleared, owner), other) == Occupant(SlotsOf(tables, owner), other);
    }
  }

  /**
   * Equipping a held item into an empty slot and unequipping that slot
   * restores every component, provided the owner was not over capacity:
   * the item's own slots are free again once it has left the inventory.
   */
  lemma EquipUnequipRoundTrip(tables: Tables, owner: Entity, item: Entity, slot: string, e: Entity, t: ComponentType)
    requires HasSlots(tables, owner) && HasInventory(tables, owner) && item != owner
    requires Carries(tables, owner, item) && Get(tables, item, EquippedType).None?
    requires slot in SlotsOf(tables, owner) && SlotsOf(tables, owner)[slot].None?
    requires FreeSlots(tables, owner) >= 0
    ensures CanMeasure(EquippedInto(tables, owner, item, slot), owner, slot)
    ensures Get(Unequipped(EquippedInto(tables, owner, item, slot), owner, slot), e, t) == Get(tables, e, t)
  {
    var slots := SlotsOf(tables, owner);
    var after := Worn(tables, owner, item, slot, slots);
    EquipIntoEmpty(tables, owner, item, slot);
    EquipKeepsOwner(tables, owner, item, slot);
    EquipFreesSlots(tables, owner, item, slot);
    WornGet(tables, owner, item, slot, slots, owner, EquipmentSlotsType);
    FillThenClear(slots, slot, item);
    UnequipFits(after, owner, slot, item);
    ReturnedGet(after, owner, item, slots, e, t);
    WornGet(tables, owner, item, slot, slots, e, t);
  }

  /** Equipping into an empty slot skips the unequip. */
  lemma EquipIntoEmpty(tables: Tables, owner: Entity, item: Entity, slot: string)
    requires CanMeasure(tables, owner, slot) && Occupant(SlotsOf(tables, owner), slot).None?
    ensures EquippedInto(tables, owner, item, slot) == Worn(tables, owner, item, slot, SlotsOf(tables, owner))
  {
  }

  /** Filling an empty slot and clearing it again gives back the slot map. */
  lemma FillThenClear(slots: Slots, slot: string, item: Entity)
    requires slot in slots && slots[slot].None?
    ensures slots[slot := Some(item)][slot := None] == slots
  {
  }

  /** An unequip whose occupant fits moves it back to the inventory. */
  lemma UnequipFits(tables: Tables, owner: Entity, slot: string, item: Entity)
    requires CanMeasure(tables, owner, slot) && Occupant(SlotsOf(tables, owner), slot) == Some(item)
    requires FreeSlots(tables, owner) >= SlotSize(tables, item)
    ensures Unequipped(tables, owner, slot) == Returned(tables, owner, item, SlotsOf(tables, owner)[slot := None])
  {
  }

  /** Equipping a held item frees its slots. */
  lemma EquipFreesSlots(tables: Tables, owner: Entity, item: Entity, slot: string)
    requires HasSlots(tables, owner) && HasInventory(tables, owner) && item != owner && Carries(tables, owner, item)
    ensures var after := Worn(tables, owner, item, slot, SlotsOf(tables, owner));
      HasInventory(after, owner) && FreeSlots(after, owner) == FreeSlots(tables, owner) + SlotSize(tables, item)
  {
    var slots := SlotsOf(tables, owner);
    var after := Worn(tables, owner, item, slot, slots);
    forall e' ensures Get(after, e', ItemType) == Get(tables, e', ItemType)
      && (e' != item ==> Get(after, e', InInventoryType) == Get(tables, e', InInventoryType)) {
      WornGet(tables, owner, item, slot, slots, e', ItemType);
      WornGet(tables, owner, item, slot, slots, e', InInventoryType);
    }
    WornGet(tables, owner, item, slot, slots, owner, InventoryType);
    WornGet(tables, owner, item, slot, slots, item, InInventoryType);
    UsedSlotsLeave(tables, after, owner, item);
  }

  /** Equipping keeps the owner's Inventory and slot map and the item's size. */
  lemma EquipKeepsOwner(tables: Tables, owner: Entity, item: Entity, slot: string)
    requires HasSlots(tables, owner) && HasInventory(tables, owner) && item != owner && Get(tables, item, ItemType).Some?
    ensures var after := Worn(tables, owner, item, slot, SlotsOf(tables, owner));
      HasInventory(after, owner) && HasSlots(after, owner) && SlotSize(after, item) == SlotSize(tables, item)
  {
    var slots := SlotsOf(tables, owner);
    WornGet(tables, owner, item, slot, slots, owner, InventoryType);
    WornGet(tables, owner, item, slot, slots, owner, EquipmentSlotsType);
    WornGet(tables, owner, item, slot, slots, item, ItemType);
  }

  /**
   * equip_item ignores a failed unequip: when the occupant does not fit in
   * the inventory (the free-space check still counts the incoming item),
   * it is returned as displaced but keeps its Equipped record, does not
   * enter the inventory, and its slot now holds the new item.
   */
  lemma EquipStrandsOccupant(tables: Tables, owner: Entity, item: Entity, slot: string)
    requires CanMeasure(tables, owner, slot)
    requires Occupant(SlotsOf(tables, owner), slot).Some?
    requires var p := Occupant(SlotsOf(tables, owner), slot).value;
      p != item && FreeSlots(tables, owner) < SlotSize(tables, p)
    ensures var p := Occupant(SlotsOf(tables, owner), slot).value;
      var after := EquippedInto(tables, owner, item, slot);
      HasSlots(after, owner)
      && Get(after, p, EquippedType) == Get(tables, p, EquippedType)
      && Get(after, p, InInventoryType) == Get(tables, p, InInventoryType)
      && Occupant(SlotsOf(after, owner), slot) == Some(item)
  {
    assert TypeOf(Equipped(owner, slot)) == EquippedType;
    assert TypeOf(EquipmentSlots(map[])) == EquipmentSlotsType;
  }

  /** The two stats get_equipment_bonuses reports. */
  const BonusStats: set<string> := {"damage", "defense"}

  /** What the item in one slot adds to a stat: base_damage for "damage", base_defense otherwise, 0 for an empty slot. */
  function SlotBonus(tables: Tables, slots: Slots, stat: string): string -> int {
    s =>
      var occupant := Occupant(slots, s);
      if occupant.None? || !IsEquipment(tables, occupant.value) then 0
      else if stat == "damage" then Get(tables, occupant.value, EquipmentType).value.baseDamage
      else Get(tables, occupant.value, EquipmentType).value.baseDefense
  }

  /** A stat's total over every slot of the map; an item in two slots counts twice, as in the loop. */
  ghost function Bonus(tables: Tables, slots: Slots, stat: string): int {
    Sum(slots.Keys, SlotBonus(tables, slots, stat))
  }

  /** Every occupied slot holds an Equipment entity: what component_for demands in the loop. */
  predicate WornAreEquipment(tables: Tables, slots: Slots) {
    forall s | s in slots && slots[s].Some? :: IsEquipment(tables, slots[s].value)
  }

  /**
   * get_equipment_bonuses: both keys are always present, and each holds the
   * sum of that stat over the occupied slots, in whatever order the slot
   * map is walked.
   */
  method GetEquipmentBonuses(w: World, owner: Entity) returns (r: map<string, int>)
    requires w.Valid() && HasSlots(w.components, owner) && WornAreEquipment(w.components, SlotsOf(w.components, owner))
    ensures r.Keys == BonusStats
    ensures forall stat | stat in BonusStats :: r[stat] == Bonus(w.components, SlotsOf(w.components, owner), stat)
  {
    var equipSlots := w.ComponentFor(owner, EquipmentSlotsType);
    var slots := equipSlots.slots;
    ghost var damages, defenses := SlotBonus(w.components, slots, "damage"), SlotBonus(w.components, slots, "defense");
    var damage, defense := 0, 0;
    var todo := slots.Keys;
    while todo != {}
      invariant todo <= slots.Keys
      invariant damage + Sum(todo, damages) == Sum(slots.Keys, damages)
      invariant defense + Sum(todo, defenses) == Sum(slots.Keys, defenses)
      decreases |todo|
    {
      var s :| s in todo;
      SumRemove(todo, damages, s);
      SumRemove(todo, defenses, s);
      var itemId := slots[s];
      if itemId.Some? {
        var equipment := w.ComponentFor(itemId.value, EquipmentType);
        damage := damage + equipment.baseDamage;
        defense := defense + equipment.baseDefense;
      }
      todo := todo - {s};
    }
    r := map["damage" := damage, "defense" := defense];
  }

  /**
   * Equipping an Equipment item into an empty slot raises each bonus by
   * exactly that item's base value.
   */
  lemma EquipAddsBonus(tables: Tables, owner: Entity, item: Entity, slot: string, stat: string)
    requires CanMeasure(tables, owner, slot) && item != owner && IsEquipment(tables, item)
    requires slot in SlotsOf(tables, owner) && SlotsOf(tables, owner)[slot].None?
    ensures var after := EquippedInto(tables, owner, item, slot);
      var equipment := Get(tables, item, EquipmentType).value;
      HasSlots(after, owner)
      && Bonus(after, SlotsOf(after, owner), stat)
         == Bonus(tables, SlotsOf(tables, owner), stat) + (if stat == "damage" then equipment.baseDamage else equipment.baseDefense)
  {
    var slots := SlotsOf(tables, owner);
    var after := Worn(tables, owner, item, slot, slots);
    EquipIntoEmpty(tables, owner, item, slot);
    WornGet(tables, owner, item, slot, slots, owner, EquipmentSlotsType);
    var worn := slots[slot := Some(item)];
    assert worn.Keys == slots.Keys;
    forall x ensures Get(after, x, EquipmentType) == Get(tables, x, EquipmentType) {
      WornGet(tables, owner, item, slot, slots, x, EquipmentType);
    }
    var f, g := SlotBonus(tables, slots, stat), SlotBonus(after, worn, stat);
    forall s | s in slots.Keys && s != slot ensures f(s) == g(s) {
      assert Occupant(worn, s) == Occupant(slots, s);
    }
    SumChange(slots.Keys, f, g, slot);
  }
}
