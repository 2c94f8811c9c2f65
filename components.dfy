/**
 * The component records of the game (ecs/components.py, items/components.py,
 * effects/components.py, items/affixes.py) as one closed tagged union, and
 * the type tags the entity store keys its tables by.
 */
module Components {
  import opened Wrappers
  import opened EffectTypes

  /** An entity is an opaque integer id. */
  type Entity = int

  /** A prefix or suffix modifier of an item (items/affixes.py:11-18). */
  datatype Affix = Affix(name: string, affixType: string, statModifiers: map<string, int>, rarityWeight: int)

  datatype Component =
    | IsPlayer
    | IsActor
    | TurnConsumed
    | Position(x: int, y: int)
    | Drawable(glyph: string, color: string, name: string)
    | MoveIntent(dx: int, dy: int, consumesTurn: bool)
    | Description(text: string)
    | Health(currentHp: int, baseMaxHp: int)
    | Mana(currentMp: int, baseMaxMp: int)
    | Stats(strength: int, dexterity: int, constitution: int, intelligence: int, wisdom: int, charisma: int)
    | Experience(level: int, currentXp: int)
    | Inventory(maxSlots: int)
    | EquipmentSlots(slots: map<string, Option<Entity>>)
    | ActiveEffects(effects: seq<Effect>)
    | GroundPool(effectType: EffectType, power: int, duration: int, name: string, sourceEntity: Option<Entity>)
    | Item(itemType: string, baseValue: int, slotSize: int, identified: bool, cursed: bool)
    | Consumable(
        effectTypeName: string,
        effectPower: int,
        usesRemaining: int,
        createsPool: bool,
        radius: int,
        poolName: Option<string>,
        effectDuration: int,
        statModifiers: map<string, int>)
    | Equipment(slot: string, baseDamage: int, baseDefense: int)
    | Treasure(treasureType: string)
    | OnGround
    | InInventory(owner: Entity)
    | Equipped(owner: Entity, slot: string)
    | ItemAffixes(prefix: Option<Affix>, suffix: Option<Affix>)

  /** `type(component)`: the key of the table a component is stored in. */
  datatype ComponentType =
    | IsPlayerType | IsActorType | TurnConsumedType | PositionType | DrawableType
    | MoveIntentType | DescriptionType | HealthType | ManaType | StatsType
    | ExperienceType | InventoryType | EquipmentSlotsType | ActiveEffectsType
    | GroundPoolType | ItemType | ConsumableType | EquipmentType | TreasureType
    | OnGroundType | InInventoryType | EquippedType | ItemAffixesType

  function TypeOf(c: Component): ComponentType {
    match c
    case IsPlayer => IsPlayerType
    case IsActor => IsActorType
    case TurnConsumed => TurnConsumedType
    case Position(_, _) => PositionType
    case Drawable(_, _, _) => DrawableType
    case MoveIntent(_, _, _) => MoveIntentType
    case Description(_) => DescriptionType
    case Health(_, _) => HealthType
    case Mana(_, _) => ManaType
    case Stats(_, _, _, _, _, _) => StatsType
    case Experience(_, _) => ExperienceType
    case Inventory(_) => InventoryType
    case EquipmentSlots(_) => EquipmentSlotsType
    case ActiveEffects(_) => ActiveEffectsType
    case GroundPool(_, _, _, _, _) => GroundPoolType
    case Item(_, _, _, _, _) => ItemType
    case Consumable(_, _, _, _, _, _, _, _) => ConsumableType
    case Equipment(_, _, _) => EquipmentType
    case Treasure(_) => TreasureType
    case OnGround => OnGroundType
    case InInventory(_) => InInventoryType
    case Equipped(_, _) => EquippedType
    case ItemAffixes(_, _) => ItemAffixesType
  }

  /** c is a record of the kind the tag t names: the inverse reading of TypeOf. */
  predicate OfType(c: Component, t: ComponentType) {
    match t
    case IsPlayerType => c.IsPlayer?
    case IsActorType => c.IsActor?
    case TurnConsumedType => c.TurnConsumed?
    case PositionType => c.Position?
    case DrawableType => c.Drawable?
    case MoveIntentType => c.MoveIntent?
    case DescriptionType => c.Description?
    case HealthType => c.Health?
    case ManaType => c.Mana?
    case StatsType => c.Stats?
    case ExperienceType => c.Experience?
    case InventoryType => c.Inventory?
    case EquipmentSlotsType => c.EquipmentSlots?
    case ActiveEffectsType => c.ActiveEffects?
    case GroundPoolType => c.GroundPool?
    case ItemType => c.Item?
    case ConsumableType => c.Consumable?
    case EquipmentType => c.Equipment?
    case TreasureType => c.Treasure?
    case OnGroundType => c.OnGround?
    case InInventoryType => c.InInventory?
    case EquippedType => c.Equipped?
    case ItemAffixesType => c.ItemAffixes?
  }

  /** Every record is of the kind of its own tag, and of no other. */
  lemma OfTypeOf(c: Component, t: ComponentType)
    ensures OfType(c, t) <==> TypeOf(c) == t
  {
  }

  /**
   * `Health.max_hp(stats, level)` and `Mana.max_mp(stats, level)` belong to
   * classes that are not part of this model; they are carried as
   * uninterpreted functions of (health or mana record, stats record, level).
   */
  datatype Rules = Rules(maxHp: (Component, Component, int) -> int, maxMp: (Component, Component, int) -> int)

  /** Singleton resources are keyed by their class. */
  datatype ResourceType = TerminalResource | MapResource | UIResource

  /** `Resource.instance: Any`, held as an opaque handle. */
  datatype Resource = Resource(kind: ResourceType, instance: nat)
}
