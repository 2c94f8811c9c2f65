/** Throwing items (items/throw_actions.py). */
module ThrowActions {
  import opened Wrappers
  import opened EffectTypes
  import opened Components
  import opened Ecs
  import opened Apply
  import opened Pools
  import opened EffectSystems
  import ConsumableActions

  const BaseRange: int := 5
  const MinRange: int := 2

  /** The range a thrower of the given strength reaches: 5 plus (strength - 10) floor-div 2, but never under 2. */
  function RangeFor(strength: int): (r: int)
    ensures r >= MinRange
    ensures strength <= 5 ==> r == MinRange
    ensures strength >= 4 ==> r == BaseRange + (strength - 10) / 2
  {
    Max(MinRange, BaseRange + (strength - 10) / 2)
  }

  /** get_throw_range: RangeFor the thrower's strength, or the base range without Stats. */
  function GetThrowRange(tables: Tables, thrower: Entity): (r: int)
    ensures r >= MinRange
    ensures Get(tables, thrower, StatsType).None? ==> r == BaseRange
  {
    var stats := Get(tables, thrower, StatsType);
    if stats.Some? && stats.value.Stats? then RangeFor(stats.value.strength) else BaseRange
  }

  /** A stronger thrower never throws less far. */
  lemma RangeMonotone(s1: int, s2: int)
    requires s1 <= s2
    ensures RangeFor(s1) <= RangeFor(s2)
  {
    assert (s1 - 10) / 2 <= (s2 - 10) / 2;
  }

  /** From strength 4 on, every two points of strength add one tile of range. */
  lemma RangeStep(strength: int)
    requires strength >= 4
    ensures RangeFor(strength + 2) == RangeFor(strength) + 1
  {
    assert (strength + 2 - 10) / 2 == (strength - 10) / 2 + 1;
  }

  /** There is an actor (IsActor, Position, Health) on tile (x, y). */
  ghost predicate HasActorAt(tables: Tables, x: int, y: int) {
    exists a :: ActorAt(tables, a, x, y)
  }

  /**
   * _get_entity_at: walk the entities with IsActor, Position and Health and
   * return the first on the tile; None exactly when no actor stands there.
   */
  method GetEntityAt(w: World, x: int, y: int) returns (r: Option<Entity>)
    requires w.Valid()
    ensures r.Some? ==> ActorAt(w.components, r.value, x, y)
    ensures r.None? <==> !HasActorAt(w.components, x, y)
  {
    var candidates := w.GetEntitiesWith([IsActorType, PositionType, HealthType]);
    var todo := candidates;
    while todo != {}
      invariant todo <= candidates
      invariant forall e | e in candidates - todo :: !ActorAt(w.components, e, x, y)
      decreases todo
    {
      var e :| e in todo;
      var pos := w.ComponentFor(e, PositionType);
      assert Get(w.components, e, [IsActorType, PositionType, HealthType][0]).Some?;
      assert Get(w.components, e, [IsActorType, PositionType, HealthType][2]).Some?;
      if pos.x == x && pos.y == y {
        assert pos == Position(x, y) && ActorAt(w.components, e, x, y);
        return Some(e);
      }
      todo := todo - {e};
    }
    assert forall e | ActorAt(w.components, e, x, y) :: e in candidates;
    return None;
  }

  /** _is_breakable: an Item whose item_type is "consumable"; a missing Item never breaks. */
  predicate IsBreakable(item: Option<Component>) {
    item.Some? && item.value.Item? && item.value.itemType == "consumable"
  }

  /** The report of throw_item. */
  datatype ThrowResult =
    | NotInInventory
    | HitActor(name: string, target: Entity, targetName: string, outcome: Outcome)
    | Shattered(name: string)
    | Landed(name: string)

  /** The branch throw_item takes once the item has left the inventory. */
  datatype Branch = Hit | MakesPool | Breaks | Lands

  ghost function ThrowBranch(tables: Tables, item: Entity, x: int, y: int): Branch {
    var consumable := Get(tables, item, ConsumableType);
    if consumable.Some? && HasActorAt(tables, x, y) then Hit
    else if consumable.Some? && consumable.value.Consumable? && consumable.value.createsPool then MakesPool
    else if consumable.Some? && IsBreakable(Get(tables, item, ItemType)) then Breaks
    else Lands
  }

  /** What throw_item's component_for call demands: a held item has a Drawable. */
  predicate ThrowReady(tables: Tables, thrower: Entity, item: Entity) {
    Get(tables, item, InInventoryType) == Some(InInventory(thrower)) ==>
      Get(tables, item, DrawableType).Some? && Get(tables, item, DrawableType).value.Drawable?
  }

  /**
   * How a thrown item ends, from the store `before` (item already out of
   * the inventory) to the store `after`, with the id counter going from
   * `next` to `next'`: a consumable hitting an actor is applied to it and
   * destroyed; a pool-making consumable leaves a pool of its kind (when
   * the kind string parses) and is destroyed; a breakable consumable is
   * destroyed; anything else lands on the tile, on the ground.
   */
  ghost predicate Thrown(before: Tables, after: Tables, rules: Rules, thrower: Entity, item: Entity, x: int, y: int,
                         r: ThrowResult, next: int, next': int)
    requires ThrowBranch(before, item, x, y) in {Hit, MakesPool} ==>
      Get(before, item, ConsumableType).value.Consumable? && Get(before, item, DrawableType).Some?
      && Get(before, item, DrawableType).value.Drawable?
  {
    var branch := ThrowBranch(before, item, x, y);
    var consumable := Get(before, item, ConsumableType);
    (r.HitActor? <==> branch == Hit)
    && (r.Shattered? <==> branch == MakesPool || branch == Breaks)
    && (r.Landed? <==> branch == Lands)
    && Get(after, item, InInventoryType) == None
    && (r.HitActor? ==>
          var effect := ConsumableActions.EffectFromConsumable(consumable.value, Get(before, item, DrawableType).value.name);
          ActorAt(before, r.target, x, y)
          && (after, r.outcome) == (Strip(ApplyEffect(before, rules, r.target, effect).0, item), ApplyEffect(before, rules, r.target, effect).1))
    && (branch == Breaks || (branch == MakesPool && FromValue(consumable.value.effectTypeName).None?) ==>
          after == Strip(before, item) && next' == next)
    && (branch == MakesPool && FromValue(consumable.value.effectTypeName).Some? && item != next ==>
          var kind := FromValue(consumable.value.effectTypeName).value;
          next' == next + 1
          && Get(after, next, GroundPoolType) == Some(GroundPool(kind, consumable.value.effectPower, PoolDuration, PoolName(kind), Some(thrower)))
          && Get(after, next, PositionType) == Some(Position(x, y))
          && Get(after, next, DrawableType) == Some(PoolDrawable(kind, Some(Get(before, item, DrawableType).value.color)))
          && (forall t :: Get(after, item, t) == None)
          && (forall e', t | e' != next && e' != item && !IsPoolAt(before, e', x, y) :: Get(after, e', t) == Get(before, e', t))
          && (OnePoolPerTile(before) ==> forall p, t | IsPoolAt(before, p, x, y) && p != next :: Get(after, p, t) == None))
    && (r.Landed? ==> after == Put(Put(before, item, Position(x, y)), item, OnGround) && next' == next)
  }

  /** Thrown, counted from the store in which the item is still in the thrower's inventory. */
  ghost predicate ThrownFromInventory(before: Tables, after: Tables, rules: Rules, thrower: Entity, item: Entity, x: int, y: int,
                                      r: ThrowResult, next: int, next': int)
    requires WellTyped(before) && ThrowReady(before, thrower, item)
    requires Get(before, item, InInventoryType) == Some(InInventory(thrower))
  {
    Thrown(Remove(before, item, InInventoryType), after, rules, thrower, item, x, y, r, next, next')
  }

  /**
   * throw_item: refuse, changing nothing, an item outside the thrower's
   * inventory; otherwise take it out of the inventory and let it end as
   * Thrown says.
   */
  method ThrowItem(w: World, rules: Rules, thrower: Entity, item: Entity, x: int, y: int) returns (r: ThrowResult)
    requires w.Valid() && ThrowReady(w.components, thrower, item)
    modifies w`components, w`nextEntityId, w`entities
    ensures w.Valid()
    ensures r.NotInInventory? <==> Get(old(w.components), item, InInventoryType) != Some(InInventory(thrower))
    ensures r.NotInInventory? ==> w.components == old(w.components) && w.nextEntityId == old(w.nextEntityId)
    ensures !r.NotInInventory? ==>
      ThrownFromInventory(old(w.components), w.components, rules, thrower, item, x, y, r, old(w.nextEntityId), w.nextEntityId)
  {
    var inInv := w.GetComponent(item, InInventoryType);
    if inInv.None? || inInv.value.owner != thrower {
      return NotInInventory;
    }
    var drawable := w.ComponentFor(item, DrawableType);
    w.RemoveComponent(item, InInventoryType);
    r := Release(w, rules, thrower, item, x, y, drawable);
  }

  /** The part of throw_item after the item has left the inventory. */
  method Release(w: World, rules: Rules, thrower: Entity, item: Entity, x: int, y: int, drawable: Component) returns (r: ThrowResult)
    requires w.Valid() && drawable.Drawable? && Get(w.components, item, DrawableType) == Some(drawable)
    requires Get(w.components, item, InInventoryType) == None
    modifies w`components, w`nextEntityId, w`entities
    ensures w.Valid() && !r.NotInInventory?
    ensures Thrown(old(w.components), w.components, rules, thrower, item, x, y, r, old(w.nextEntityId), w.nextEntityId)
  {
    ghost var branch := ThrowBranch(w.components, item, x, y);
    var itemRecord := w.GetComponent(item, ItemType);
    var consumable := w.GetComponent(item, ConsumableType);
    var target := GetEntityAt(w, x, y);
    if consumable.Some? && target.Some? {
      assert branch == Hit;
      r := HitTarget(w, rules, item, target.value, consumable.value, drawable.name);
    } else if consumable.Some? && consumable.value.createsPool {
      assert branch == MakesPool;
      Spill(w, thrower, item, x, y, consumable.value, drawable.color);
      r := Shattered(drawable.name);
    } else if consumable.Some? && IsBreakable(itemRecord) {
      assert branch == Breaks;
      DestroyEntity(w, item);
      r := Shattered(drawable.name);
    } else {
      assert branch == Lands;
      Land(w, item, x, y);
      r := Landed(drawable.name);
    }
  }

  /** Taking an item out of an inventory moves no actor. */
  lemma ActorsIgnoreInventory(tables: Tables, item: Entity, x: int, y: int)
    ensures HasActorAt(Remove(tables, item, InInventoryType), x, y) <==> HasActorAt(tables, x, y)
  {
    var removed := Remove(tables, item, InInventoryType);
    forall a ensures ActorAt(removed, a, x, y) <==> ActorAt(tables, a, x, y) {
    }
  }

  /** A consumable that hits an actor applies its effect to it and is destroyed. */
  method HitTarget(w: World, rules: Rules, item: Entity, target: Entity, consumable: Component, name: string)
    returns (r: ThrowResult)
    requires w.Valid() && consumable.Consumable?
    modifies w`components
    ensures w.Valid()
    ensures var effect := ConsumableActions.EffectFromConsumable(consumable, name);
      r.HitActor? && r.name == name && r.target == target
      && (forall t :: Get(w.components, item, t) == None)
      && (w.components, r.outcome)
         == (Strip(ApplyEffect(old(w.components), rules, target, effect).0, item), ApplyEffect(old(w.components), rules, target, effect).1)
  {
    var targetDrawable := w.GetComponent(target, DrawableType);
    var targetName := if targetDrawable.Some? then targetDrawable.value.name else "something";
    var effect := ConsumableActions.EffectFromConsumable(consumable, name);
    var outcome := ApplyToEntity(w, rules, target, effect);
    DestroyEntity(w, item);
    r := HitActor(name, target, targetName, outcome);
  }

  /**
   * A pool-making consumable on an empty tile: a pool of its kind, made by
   * the thrower and coloured like the item, when the kind string parses;
   * the item is destroyed either way.
   */
  method Spill(w: World, thrower: Entity, item: Entity, x: int, y: int, consumable: Component, color: string)
    requires w.Valid() && consumable.Consumable?
    modifies w`components, w`nextEntityId, w`entities
    ensures w.Valid()
    ensures forall t :: Get(w.components, item, t) == None
    ensures FromValue(consumable.effectTypeName).None? ==>
      w.components == Strip(old(w.components), item) && w.nextEntityId == old(w.nextEntityId)
    ensures FromValue(consumable.effectTypeName).Some? && item != old(w.nextEntityId) ==>
      var kind := FromValue(consumable.effectTypeName).value;
      w.nextEntityId == old(w.nextEntityId) + 1
      && Get(w.components, old(w.nextEntityId), GroundPoolType)
         == Some(GroundPool(kind, consumable.effectPower, PoolDuration, PoolName(kind), Some(thrower)))
      && Get(w.components, old(w.nextEntityId), PositionType) == Some(Position(x, y))
      && Get(w.components, old(w.nextEntityId), DrawableType) == Some(PoolDrawable(kind, Some(color)))
      && (forall e', t | e' != old(w.nextEntityId) && e' != item && !IsPoolAt(old(w.components), e', x, y) ::
            Get(w.components, e', t) == Get(old(w.components), e', t))
      && (OnePoolPerTile(old(w.components)) ==>
            forall p, t | IsPoolAt(old(w.components), p, x, y) && p != old(w.nextEntityId) :: Get(w.components, p, t) == None)
  {
    var kind := FromValue(consumable.effectTypeName);
    if kind.Some? {
      var pool := CreatePool(w, x, y, kind.value, consumable.effectPower, sourceEntity := Some(thrower), color := Some(color));
    }
    DestroyEntity(w, item);
  }

  /** Anything else lands on the target tile, on the ground. */
  method Land(w: World, item: Entity, x: int, y: int)
    requires w.Valid()
    modifies w`components
    ensures w.Valid()
    ensures w.components == Put(Put(old(w.components), item, Position(x, y)), item, OnGround)
    ensures Get(w.components, item, InInventoryType) == Get(old(w.components), item, InInventoryType)
  {
    assert TypeOf(Position(x, y)) == PositionType && TypeOf(OnGround) == OnGroundType;
    w.AddComponent(item, Position(x, y));
    w.AddComponent(item, OnGround);
  }
}
