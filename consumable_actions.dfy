/** Using up consumables (items/consumable_actions.py). */
module ConsumableActions {
  import opened Wrappers
  import opened EffectTypes
  import opened Components
  import opened Ecs
  import opened Apply

  /** The report of consume_item: the two refusals, or the item's name, the effect's report and the uses left. */
  datatype ConsumeResult =
    | NotConsumable
    | NotInInventory
    | Used(name: string, outcome: Outcome, usesLeft: int)

  /**
   * create_effect_from_consumable: a known kind string gives its kind and
   * anything else falls back to heal; name, power, duration and the stat
   * modifiers are copied, the rest takes the Effect defaults.
   */
  function EffectFromConsumable(consumable: Component, itemName: string): (r: Effect)
    requires consumable.Consumable?
    ensures (exists t :: Value(t) == consumable.effectTypeName) ==> Value(r.effectType) == consumable.effectTypeName
    ensures (forall t :: Value(t) != consumable.effectTypeName) ==> r.effectType == Heal
    ensures r.name == itemName && r.power == consumable.effectPower && r.duration == consumable.effectDuration
    ensures r.statModifiers == consumable.statModifiers && r.radius == 0 && r.sourceEntity == None
  {
    var parsed := FromValue(consumable.effectTypeName);
    Effect(itemName, if parsed.Some? then parsed.value else Heal, consumable.effectPower,
           consumable.statModifiers, consumable.effectDuration, 0, None)
  }

  /** Every kind survives the trip through its string: a consumable of kind t makes an effect of kind t. */
  lemma EffectKindRoundTrip(consumable: Component, itemName: string, t: EffectType)
    requires consumable.Consumable? && consumable.effectTypeName == Value(t)
    ensures EffectFromConsumable(consumable, itemName).effectType == t
  {
    FromValueRoundTrip(t);
  }

  /** The consumable with one use fewer, every other field unchanged. */
  function Spent(consumable: Component): (r: Component)
    requires consumable.Consumable?
    ensures r.Consumable? && TypeOf(r) == ConsumableType && r.usesRemaining == consumable.usesRemaining - 1
    ensures r.effectTypeName == consumable.effectTypeName && r.effectPower == consumable.effectPower
    ensures r.createsPool == consumable.createsPool && r.radius == consumable.radius && r.poolName == consumable.poolName
    ensures r.effectDuration == consumable.effectDuration && r.statModifiers == consumable.statModifiers
  {
    Consumable(consumable.effectTypeName, consumable.effectPower, consumable.usesRemaining - 1, consumable.createsPool,
               consumable.radius, consumable.poolName, consumable.effectDuration, consumable.statModifiers)
  }

  /** What consume_item's component_for call demands: a usable item has a Drawable. */
  predicate ConsumeReady(tables: Tables, user: Entity, item: Entity) {
    var consumable := Get(tables, item, ConsumableType);
    consumable.Some? ==>
      (consumable.value.Consumable?
       && (Get(tables, item, InInventoryType) == Some(InInventory(user)) ==>
             Get(tables, item, DrawableType).Some? && Get(tables, item, DrawableType).value.Drawable?))
  }

  /**
   * consume_item on the store: refuse a non-consumable or an item outside
   * the user's inventory; otherwise apply the effect to the user, take one
   * use off and destroy the item once no use is left.
   */
  ghost function Consumed(tables: Tables, rules: Rules, user: Entity, item: Entity): (Tables, ConsumeResult)
    requires ConsumeReady(tables, user, item)
  {
    var consumable := Get(tables, item, ConsumableType);
    if consumable.None? then (tables, NotConsumable)
    else if Get(tables, item, InInventoryType) != Some(InInventory(user)) then (tables, NotInInventory)
    else
      var name := Get(tables, item, DrawableType).value.name;
      var (applied, outcome) := ApplyEffect(tables, rules, user, EffectFromConsumable(consumable.value, name));
      var spent := Spent(consumable.value);
      var updated := Put(applied, item, spent);
      (if spent.usesRemaining <= 0 then Strip(updated, item) else updated, Used(name, outcome, spent.usesRemaining))
  }

  method ConsumeItem(w: World, rules: Rules, user: Entity, item: Entity) returns (r: ConsumeResult)
    requires w.Valid() && ConsumeReady(w.components, user, item)
    modifies w`components
    ensures w.Valid()
    ensures (w.components, r) == Consumed(old(w.components), rules, user, item)
  {
    var consumable := w.GetComponent(item, ConsumableType);
    if consumable.None? {
      return NotConsumable;
    }
    var inInv := w.GetComponent(item, InInventoryType);
    if inInv.None? || inInv.value.owner != user {
      return NotInInventory;
    }
    var drawable := w.ComponentFor(item, DrawableType);
    var effect := EffectFromConsumable(consumable.value, drawable.name);
    var outcome := ApplyToEntity(w, rules, user, effect);
    var spent := Spent(consumable.value);
    w.AddComponent(item, spent);
    if spent.usesRemaining <= 0 {
      DestroyEntity(w, item);
    }
    r := Used(drawable.name, outcome, spent.usesRemaining);
  }

  /**
   * consume_item refuses exactly a missing Consumable, then exactly an item
   * outside the user's inventory, and a refusal changes nothing.
   */
  lemma ConsumeRefusals(tables: Tables, rules: Rules, user: Entity, item: Entity)
    requires WellTyped(tables) && ConsumeReady(tables, user, item)
    ensures var (after, r) := Consumed(tables, rules, user, item);
      (r.NotConsumable? <==> Get(tables, item, ConsumableType).None?)
      && (r.NotInInventory? <==> Get(tables, item, ConsumableType).Some?
                                 && (Get(tables, item, InInventoryType).None?
                                     || Get(tables, item, InInventoryType).value.owner != user))
      && (!r.Used? ==> after == tables)
  {
    var inv := Get(tables, item, InInventoryType);
    if inv.Some? {
      assert OfType(inv.value, InInventoryType);
    }
  }

  /**
   * A successful use reports the outcome of applying the consumable's
   * effect to the user and one use fewer; the item is destroyed exactly
   * when no use is left, and otherwise keeps everything but its count.
   */
  lemma ConsumeSpendsOneUse(tables: Tables, rules: Rules, user: Entity, item: Entity, t: ComponentType)
    requires ConsumeReady(tables, user, item)
    requires Get(tables, item, ConsumableType).Some? && Get(tables, item, InInventoryType) == Some(InInventory(user))
    ensures var consumable := Get(tables, item, ConsumableType).value;
      var name := Get(tables, item, DrawableType).value.name;
      var (applied, outcome) := ApplyEffect(tables, rules, user, EffectFromConsumable(consumable, name));
      var (after, r) := Consumed(tables, rules, user, item);
      r == Used(name, outcome, consumable.usesRemaining - 1)
      && (if consumable.usesRemaining - 1 <= 0 then Get(after, item, t) == None
          else Get(after, item, t) == (if t == ConsumableType then Some(Spent(consumable)) else Get(applied, item, t)))
  {
  }

  /** Every entity but the item ends as applying the effect to the user leaves it. */
  lemma ConsumeTouchesUserOnly(tables: Tables, rules: Rules, user: Entity, item: Entity, e: Entity, t: ComponentType)
    requires ConsumeReady(tables, user, item) && e != item
    requires Get(tables, item, ConsumableType).Some? && Get(tables, item, InInventoryType) == Some(InInventory(user))
    ensures var name := Get(tables, item, DrawableType).value.name;
      var effect := EffectFromConsumable(Get(tables, item, ConsumableType).value, name);
      Get(Consumed(tables, rules, user, item).0, e, t) == Get(ApplyEffect(tables, rules, user, effect).0, e, t)
  {
  }
}
