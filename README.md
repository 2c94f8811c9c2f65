# glaive core, modelled in Dafny

glaive is a turn-based roguelike built on an entity/component store. This
project models the part of the game that is rules rather than drawing, and
proves what those rules promise:

- **Entity/component store** (`world.dfy`, module `Ecs`): the `World` class with its
  per-type component tables, id counter and resource map, plus the
  `remove_component` its callers rely on. Components are values of one
  tagged union (`components.dfy`). Updating a component in place is
  modelled as storing the updated record again.
- **Scheduler and movement** (`systems.dfy`): the six ordered phases and
  the move-intent rule that marks a spent turn with `TurnConsumed`.
- **Targeting** (`targeting.dfy`): Chebyshev range, the integer Bresenham
  line, the square radius and line of sight.
- **Effects** (`effect_types.dfy`, `effect_components.dfy`, `apply.dfy`,
  `effect_systems.dfy`): instant and duration effects, the per-turn tick
  of active effects, and the ground-pool system.
- **Ground pools** (`pools.dfy`): lookup, removal and one-pool-per-tile
  creation.
- **Items**: the slot-counted inventory (`inventory.dfy`), equipment slots
  (`equipment.dfy`), consuming (`consumable_actions.dfy`), throwing
  (`throw_actions.dfy`) and affixes (`affixes.dfy`).
- **Small arithmetic**: stat bonuses and levelling (`stats_util.dfy`), the
  tile map (`game_map.dfy`), the arena generator (`generators.dfy`), the
  camera (`camera.dfy`) and rectangle geometry (`rect.dfy`).
- **UI data structures**: the bounded, scrollable message log
  (`log.dfy`), the popup stack (`popup.dfy`), menu hotkey assignment
  (`menu.dfy`), the never-empty input-handler stack (`input.dfy`) and the
  actor descriptions (`descriptions.dfy`).

The functions `max_hp(stats, level)`, `max_mp(stats, level)` and
`xp_for_next_level()` belong to classes that are not part of this model.
They are parameters: the `Rules` record carries the first two, and
`CheckLevelUp` takes the third as an argument. Random rolls and coin
flips are parameters too.

## Model

| member | source | states |
|---|---|---|
| `Ecs.Holders` | ecs/world.py:47 | the key set of one type table: `e` is in it exactly when `e` has a component of that type |
| `Ecs.Put` | ecs/world.py:23-28 | after `add_component`, `(e, type(c))` holds `c` and every other entry is unchanged |
| `Ecs.PutTwice` | ecs/world.py:28 | a second add of the same type on the same entity replaces the first |
| `Ecs.Remove` | ecs/systems.py:63 | `remove_component` empties exactly the one entry and keeps the set of type tables |
| `Ecs.Strip` | effects/pools.py:120-124 | deleting `e` from every type table leaves `e` with no component and every other entity untouched |
| `Ecs.EntitiesWith` | ecs/world.py:46-50 | the intersection of the per-type key sets: exactly the entities holding every listed type |
| `Ecs.EntitiesWithUnknownType` | ecs/world.py:47 | a type that was never added (`.get(ct, {})`) makes any query naming it empty |
| `Ecs.World.constructor` | ecs/world.py:11-15 | a fresh world: counter 0, no entities, no components, no resources |
| `Ecs.World.CreateEntity` | ecs/world.py:17-21 | returns the old counter, bumps it by one, and the new id was not in use before |
| `Ecs.World.AddComponent` | ecs/world.py:23-28 | the store becomes `Put(old, e, c)`, so tables stay well typed |
| `Ecs.World.RemoveComponent` | ecs/systems.py:63 | the store becomes `Remove(old, e, t)` |
| `Ecs.World.GetComponent` | ecs/world.py:30-32 | a found component has the requested type |
| `Ecs.World.ComponentFor` | ecs/world.py:34-40 | the existing component, of the requested type; its absence is the caller's broken precondition |
| `Ecs.World.GetEntitiesWith` | ecs/world.py:42-50 | no types gives every created entity; otherwise exactly those holding every listed type |
| `Ecs.World.AddResource` | ecs/world.py:52-53 | the resource is stored under its own type, replacing any earlier one; that type then has it |
| `Ecs.World.GetResource` | ecs/world.py:55-56 | `Some(instance)` exactly when a resource of that type is registered |
| `Ecs.World.ResourceFor` | ecs/world.py:58-62 | the registered resource, which `GetResource` also returns |
| `Ecs.World.HasResource` | ecs/world.py:64-65 | true exactly when `get_resource` finds a resource of that type, which `add_resource` guarantees for the type it registers |
| `Ecs.DestroyEntity` | effects/pools.py:120-124 | the loop over all type tables leaves the store equal to `Strip(old, e)` |
| `Systems.ScheduleSplit` | ecs/systems.py:27-30 | the call order splits around any phase: earlier phases, that phase's systems, later phases |
| `Systems.ScheduleFrame` | ecs/systems.py:27-30 | the call order depends only on the phases it lists |
| `Systems.SystemScheduler.constructor` | ecs/systems.py:14-22 | exactly the six phases, each empty |
| `Systems.SystemScheduler.AddSystem` | ecs/systems.py:24-25 | appends to the named phase only; an unknown phase (a KeyError) is excluded |
| `Systems.SystemScheduler.Update` | ecs/systems.py:27-30 | the nested loop calls every system once, phase by phase in the fixed order, registration order within a phase |
| `Systems.AddSystemSchedule` | ecs/systems.py:24-30 | a newly added system runs after its phase's earlier systems and before every later phase; the rest of the order is kept |
| `Systems.MovedGetRule` | ecs/systems.py:47-63 | under the corrected blocking rule, an unblocked move shifts the position by exactly (dx, dy), a blocked one keeps it; TurnConsumed appears iff the move succeeded and the intent consumes a turn (or it was already there); the intent is always removed |
| `Systems.MovedGetLocal` | ecs/systems.py:49-63 | one entity's move reads only that entity's components |
| `Systems.WriteMove` | ecs/systems.py:56-63 | the writes of one iteration: the position and TurnConsumed on success, then the intent removed |
| `Systems.MoveTablesAt` | ecs/systems.py:56-63 | those writes change only the moved entity's Position, TurnConsumed and MoveIntent |
| `Systems.MoveTablesGet` | ecs/systems.py:53-63 | the writes made for the map's verdict are the movement rule for that entity, and leave every other entity alone |
| `Systems.MovementSystem.constructor` | ecs/systems.py:65-70 | no target has been accepted yet |
| `Systems.MovementSystem.TryMove` | ecs/systems.py:65-72 | accepts exactly the targets that do not block movement under the corrected rule, and remembers the last accepted one |
| `Systems.MovementSystem.MoveOne` | ecs/systems.py:50-63 | one loop iteration applies the movement rule to that entity and changes no other |
| `Systems.MovementSystem.MoveNext` | ecs/systems.py:49-63 | moving one pending entity keeps the loop invariant: pending entities untouched, handled ones moved |
| `Systems.MovementSystem.Update` | ecs/systems.py:47-63 | after the update every component is what the movement rule gives for the old store |
| `GameMaps.Properties` | map/map.py:23-29 | only walls block sight; walls, deep water and abyss block movement |
| `GameMaps.GameMap.constructor` | map/map.py:33-39 | a width x height grid, all floor |
| `GameMaps.GameMap.SetTile` | map/map.py:44-45 | overwrites exactly one tile |
| `GameMaps.GameMap.BlocksMovementAsWritten` | map/map.py:47-52 | as written: never blocks off the map, and agrees with the corrected rule on the map |
| `GameMaps.GameMap.BlocksMovement` | map/map.py:47-52 | corrected rule: a tile lets you pass exactly when it is on the map and is floor or shallow water |
| `GameMaps.GameMap.BlocksSight` | map/map.py:54-55 | on the map, only a wall blocks sight |
| `GameMaps.OffMapNotBlockedAsWritten` | map/map.py:49-50 | as written, a step off the map (-1, 0) is never blocked |
| `GameMaps.UnblockedIsInBounds` | map/map.py:47-52 | under the corrected rule an unblocked target is always on the map, and the written rule agrees there |
| `Generators.PillarInsideBorder` | map/generators.py:29-34 | every pillar cell lies strictly inside the border ring, so no pillar write leaves the map |
| `Generators.RingPass` | map/generators.py:20-25 | the first pass leaves walls on the border ring and floor everywhere inside |
| `Generators.PlacePillar` | map/generators.py:32-34 | one 2x2 block of wall at the pillar origin, every other tile kept |
| `Generators.Generate` | map/generators.py:16-36 | a fresh width x height map whose tiles are walls exactly on the border and in the 2x2 pillars at positive multiples of 8 below width - 2 and height - 2, floor elsewhere |
| `CameraView.Clamp` | camera/camera.py:38-43 | the value pulled into [lo, hi], unchanged inside it; when lo > hi the lower bound wins |
| `CameraView.FollowInMap` | camera/camera.py:12-17 | the camera edge chosen by update stays in [0, max(0, map - viewport)] |
| `CameraView.FollowCentres` | camera/camera.py:12-17 | away from the map edges the target sits size // 2 cells from the viewport edge |
| `CameraView.FollowKeepsTargetInView` | camera/camera.py:12-17 | on a map no smaller than the viewport, a target on the map is in view after an update |
| `CameraView.Camera.constructor` | camera/camera.py:2-10 | keeps the sizes given and starts at (0, 0) |
| `CameraView.Camera.Update` | camera/camera.py:12-17 | each axis becomes the centred, clamped edge, within the map |
| `CameraView.Camera.ScreenWorldInverse` | camera/camera.py:19-23 | world_to_screen and screen_to_world undo each other in both orders |
| `CameraView.Camera.VisibleOnScreen` | camera/camera.py:25-29 | is_visible holds exactly when the point maps into [0, width) x [0, height) on screen |
| `CameraView.Camera.VisibleBounds` | camera/camera.py:31-36 | the bounds start at the camera and end at the viewport edge or the map edge, whichever is nearer |
| `CameraView.Camera.BoundsAfterFollow` | camera/camera.py:12-36 | after an update on a large enough map the bounds are the full viewport, and a cell is inside them exactly when it is visible |
| `Geometry.Rect.Inner` | ui/rect.py:24-31 | the rectangle shrunk by one cell on every side |
| `Geometry.Rect.Center` | ui/rect.py:33-38 | the centre lies inside a non-empty rectangle, and on each axis its two margins differ by at most one |
| `Geometry.Centered` | ui/rect.py:46-55 | keeps the popup size, balances the margins to within one cell, and fits on screen when the popup is no larger than the screen |
| `Geometry.InnerInside` | ui/rect.py:24-44 | the interior lies inside the rectangle and holds none of its border cells |
| `EffectComponents.AddEffect` | effects/components.py:18-20 | appends the effect and keeps every existing one, same kind or not, so effects stack |
| `EffectComponents.DecrementedAt` | effects/components.py:30-31 | each effect, position by position, has its duration lowered by one |
| `EffectComponents.RunningMember` | effects/components.py:32-35 | the kept list holds exactly the effects whose duration is above zero |
| `EffectComponents.EndedMember` | effects/components.py:32-33 | the expired list holds exactly the effects whose duration is at or below zero |
| `EffectComponents.RunningAppend` | effects/components.py:30-35 | keeping running effects preserves list order: it distributes over concatenation |
| `EffectComponents.EndedAppend` | effects/components.py:30-33 | collecting expired effects preserves list order likewise |
| `EffectComponents.TickPartition` | effects/components.py:30-37 | kept and expired together are the whole list, each effect exactly once (as multisets) |
| `EffectComponents.TickEffects` | effects/components.py:22-38 | the new list is the running part and the result the expired part of the decremented effects, both in list order |
| `EffectComponents.TickKeepsRunning` | effects/components.py:30-37 | an effect left after a tick has at least one turn to go and came from an effect one turn longer |
| `EffectComponents.ModifiedStats` | effects/components.py:43-45 | a stat is listed exactly when some effect modifies it |
| `EffectComponents.StatTotalUnmodified` | effects/components.py:40-46 | a stat no effect lists totals zero |
| `EffectComponents.AddModifiers` | effects/components.py:44-45 | the inner loop: keys are the union, each value the old total plus this effect's modifier (`get(stat, 0)`) |
| `EffectComponents.GetStatModifiers` | effects/components.py:40-46 | exactly the modified stats, each mapped to the sum of its modifiers over all effects |
| `EffectComponents.StatTotalAppend` | effects/components.py:40-46 | the totals of two effect lists add up stat by stat |
| `EffectComponents.EffectsByType` | effects/components.py:52-54 | exactly the effects whose kind has the given value, never more than the list |
| `EffectComponents.HasEffectType` | effects/components.py:48-54 | true exactly when `get_effects_by_type` finds an effect of that kind |
| `EffectTypes.FromValue` | effects/effect_types.py:5-15 | `EffectType(s)`: the member whose value is `s`, and None exactly when no member has that value (Python's ValueError) |
| `EffectTypes.FromValueRoundTrip` | effects/effect_types.py:5-15 | parsing a kind's own value gives the kind back |
| `Apply.InstantFrame` | effects/apply.py:33-117 | an instant effect writes at most the target's Health (hp kinds) or Mana (mp kinds), nothing for stat kinds, and keeps the tables well typed |
| `Apply.InstantHpFrame` | effects/apply.py:41-62 | the hp kinds write at most the target's Health |
| `Apply.InstantMpFrame` | effects/apply.py:64-87 | the mp kinds write at most the target's Mana |
| `Apply.InstantHpRule` | effects/apply.py:41-62 | heal and regen set hp to min(hp + power, cap); heal reports the gain or "already at full health"; damage and poison subtract the power with no floor |
| `Apply.HpCapRule` | effects/apply.py:39-47 | without Stats the cap is base_max_hp; with Stats and no Experience it is max_hp at level 1 |
| `Apply.InstantMpRule` | effects/apply.py:64-87 | restore sets mp to min(mp + power, cap); drain sets it to max(mp - power, 0), reports the difference, which lies in [0, power] |
| `Apply.InstantMissing` | effects/apply.py:42-43 | a target without Health (hp kinds) or Mana (mp kinds) is reported and left alone; stat kinds change nothing |
| `Apply.DurationQueues` | effects/apply.py:23-30 | a non-zero duration appends the effect to the target's list (a new list when it had none), changes nothing else and reports the turns |
| `Apply.ApplyInstantHp` | effects/apply.py:41-62 | the world steps exactly as the hp rules say, with the same report |
| `Apply.ApplyInstantMp` | effects/apply.py:64-87 | the world steps exactly as the mp rules say, with the same report |
| `Apply.ApplyInstant` | effects/apply.py:33-117 | `_apply_instant_effect` on the world equals the instant rule |
| `Apply.ApplyToEntity` | effects/apply.py:11-30 | `apply_effect_to_entity` on the world equals the application rule: instant at duration 0, queued otherwise |
| `EffectSystems.TickOnce` | effects/systems.py:59-86 | one tick keeps a Health record: poison and damage subtract the power, regen heals up to max_hp only when Stats are present, other kinds do nothing |
| `EffectSystems.TickAll` | effects/systems.py:41-42 | every effect of the list ticks the same Health record in turn, keeping a Health record |
| `EffectSystems.TickDamage` | effects/systems.py:41-86 | without regeneration a tick takes exactly the summed power of the poison and damage effects |
| `EffectSystems.StackedDamage` | effects/systems.py:41-42 | N stacked damage effects of power p take N * p: stacks are not merged |
| `EffectSystems.TickedGetLocal` | effects/systems.py:33-42 | the tick of one entity reads nothing but that entity's components |
| `EffectSystems.ApplyTick` | effects/systems.py:59-86 | `_apply_tick` rewrites only the entity's Health, with the one-tick rule |
| `EffectSystems.TickHealth` | effects/systems.py:41-42 | the tick loop leaves the entity's Health as TickAll says and changes nothing else |
| `EffectSystems.TickEntity` | effects/systems.py:34-53 | one entity's Health ticks, its effects lose a turn and the finished ones go; it is marked for clean-up exactly when none are left |
| `EffectSystems.TickEntities` | effects/systems.py:33-53 | after the first loop every component is as the per-entity tick says; the clean-up list holds exactly the entities left with no effects |
| `EffectSystems.RemoveActiveEffects` | effects/systems.py:56-57 | the listed entities lose ActiveEffects and nothing else changes |
| `EffectSystems.EffectTick` | effects/systems.py:25-57 | `EffectTickSystem.update`: nothing changes without TurnConsumed; otherwise each component ends as the tick, decrement and clean-up say |
| `EffectSystems.PoolChange` | effects/systems.py:153-204 | a pool effect rewrites at most one record: the Health (heal, regen need Stats; damage, poison) or the Mana (restore needs Stats; drain) the entity holds |
| `EffectSystems.PoolEffectLocal` | effects/systems.py:153-204 | a pool effect writes nothing but e's Health or Mana, and reads nothing but e's Health, Mana, Stats and Experience |
| `EffectSystems.PoolEffectKeepsHealth` | effects/systems.py:153-204 | a pool effect never adds or removes Health |
| `EffectSystems.ApplyPoolEffect` | effects/systems.py:153-204 | `_apply_pool_effect` on the world equals the pool-effect rule |
| `EffectSystems.SoakOne` | effects/systems.py:139-141 | an actor is soaked exactly when it stands on the pool's tile |
| `EffectSystems.SoakActors` | effects/systems.py:138-141 | every actor with Position and Health on the pool's tile takes the pool's effect once; nothing else changes |
| `EffectSystems.Older` | effects/systems.py:144 | a pool one turn older: duration one lower, all else kept |
| `EffectSystems.PoolUnder` | effects/systems.py:133-140 | the pool an actor stands in, if any, lies on the actor's tile |
| `EffectSystems.UnderPool` | effects/systems.py:133-140 | with one pool per tile, an actor on a pool's tile has exactly that pool under it |
| `EffectSystems.VisitPool` | effects/systems.py:134-146 | one pass of the pool loop soaks the actors on that pool, ages it, and reports it for removal exactly when its duration reaches 0 |
| `EffectSystems.PoolPass` | effects/systems.py:131-146 | after the pool loop every actor is soaked by the pool under it, every pool is one turn older, and the expired list holds exactly the pools whose aged duration is at most 0 |
| `EffectSystems.DestroyPools` | effects/systems.py:149-151 | expired pools lose every component; nothing else changes |
| `EffectSystems.GroundPoolTick` | effects/systems.py:122-151 | `GroundPoolSystem.update`: nothing changes without TurnConsumed; otherwise each component ends as soak, ageing and removal say |
| `EffectSystems.SoakedOnce` | effects/systems.py:138-141 | an actor standing on a pool ends the update with exactly that pool's effect applied once |
| `EffectSystems.DryUntouched` | effects/systems.py:138-141 | an entity on no pool's tile keeps every component |
| `EffectSystems.PoolAges` | effects/systems.py:144-146 | a pool loses one turn per update and is destroyed, with every component, once its duration reaches 0 |
| `EffectSystems.GroundTickKeepsOnePool` | effects/systems.py:122-151 | the update keeps at most one pool per tile |
| `Pools.GetPoolAt` | effects/pools.py:41-51 | returns a pool standing on the tile, and None exactly when no pool stands there |
| `Pools.UniquePool` | effects/pools.py:94-95 | with one pool per tile, the pool found on a tile is the only one there |
| `Pools.RemovePoolAt` | effects/pools.py:54-64 | reports True exactly when a pool stood on the tile, and then that pool has lost every component; otherwise nothing changes |
| `Pools.StripPool` | effects/pools.py:120-124 | destroying the one pool on a tile leaves no pool there and keeps one pool per tile |
| `Pools.PlacePool` | effects/pools.py:103-115 | a new pool on an empty tile is the only pool there, and the invariant holds |
| `Pools.ClearedTile` | effects/pools.py:94-95 | after remove_pool_at no pool stands on the tile |
| `Pools.SpawnPool` | effects/pools.py:103-115 | a fresh entity id carrying Position, Drawable and GroundPool, and nothing else changes |
| `Pools.CreatePool` | effects/pools.py:67-117 | the new pool has the given kind, power, duration and source, the table's name, the given colour or the kind's default, the "~" glyph; it replaces any pool on the tile (the whole new store is stated), every other entity keeps every component, the replaced pool keeps none, and one pool per tile is kept |
| `Pools.ReplacedFrame` | effects/pools.py:94-115 | a replacement leaves every entity but the new one and the pools on the tile unchanged, and with one pool per tile strips the old pool completely |
| `Pools.PoolDrawable` | effects/pools.py:98-112 | a pool's look: the given colour, else its kind's default, named after its liquid |
| `ItemInventory.InventoryItems` | items/inventory.py:10-16 | exactly the entities with Item and InInventory naming the owner |
| `ItemInventory.GetUsedSlots` | items/inventory.py:30-36 | the loop's total is the slot sizes of the owner's items, summed |
| `ItemInventory.GetFreeSlots` | items/inventory.py:39-41 | max_slots less the used slots |
| `ItemInventory.CanPickup` | items/inventory.py:44-46 | true exactly when the free slots cover the item's slot size |
| `ItemInventory.PickupItem` | items/inventory.py:49-58 | succeeds exactly when the item fits; then OnGround and Position give way to InInventory(owner), otherwise nothing changes |
| `ItemInventory.GetItemsAtPosition` | items/inventory.py:19-27 | exactly the ground items (OnGround, Position, Item) on the tile, each once |
| `ItemInventory.DropItem` | items/inventory.py:61-72 | succeeds exactly when the item is in this owner's inventory; then it is on the ground at (x, y), otherwise nothing changes |
| `ItemInventory.UsedSlotsEnter` | items/inventory.py:30-36 | an item entering the inventory adds its slot size to the used slots |
| `ItemInventory.UsedSlotsLeave` | items/inventory.py:30-36 | an item leaving the inventory frees its slot size |
| `ItemInventory.PickupUsesSlots` | items/inventory.py:49-58 | a pickup raises the used slots by the item's size |
| `ItemInventory.DropFreesSlots` | items/inventory.py:61-72 | a drop lowers the used slots by the item's size |
| `ItemInventory.DropThenFits` | items/inventory.py:44-72 | an item dropped by an owner within capacity can be picked up again |
| `ItemInventory.DropPickupRoundTrip` | items/inventory.py:49-72 | dropping a held item and picking it up again restores every component |
| `ItemInventory.PickedUpGet` | items/inventory.py:53-58 | a pickup drops the item's OnGround and Position, adds InInventory(owner), and changes nothing else |
| `ItemInventory.DroppedGet` | items/inventory.py:66-71 | a drop removes InInventory, adds OnGround and Position(x, y), and changes nothing else |
| `ItemEquipment.FirstFreeIsFirst` | items/equipment.py:104-108 | the ring search returns the earliest empty ring slot, and finds none exactly when all four are taken |
| `ItemEquipment.FindAvailableSlot` | items/equipment.py:88-110 | a ring goes to the first empty ring slot, or ring_1 when all are full; any other item goes to its own slot |
| `ItemEquipment.CanEquip` | items/equipment.py:58-85 | true exactly when the chosen slot is one of the owner's slot keys (always, for a ring); the message is empty exactly on success |
| `ItemEquipment.Unequipped` | items/equipment.py:147-176 | the owner keeps its slot map, whatever the outcome |
| `ItemEquipment.ReturnedGet` | items/equipment.py:167-174 | a successful unequip drops Equipped, adds InInventory(owner), clears the slot, and changes nothing else |
| `ItemEquipment.UnequipToInventory` | items/equipment.py:147-176 | the world steps as the unequip rule says; the result is the former occupant when it fits in the inventory, else None |
| `ItemEquipment.MoveToInventory` | items/equipment.py:167-174 | performs exactly the writes of a successful unequip |
| `ItemEquipment.UnequipFits` | items/equipment.py:162-176 | an occupant that fits goes back to the inventory and its slot is cleared |
| `ItemEquipment.WornGet` | items/equipment.py:135-142 | equipping drops InInventory, adds Equipped(owner, slot), fills the slot, and changes nothing else |
| `ItemEquipment.EquipItem` | items/equipment.py:113-144 | with no slot found nothing changes and None is returned; otherwise the former occupant is returned and the world steps as the equip rule says |
| `ItemEquipment.PlaceInSlot` | items/equipment.py:135-142 | performs exactly the writes of the equip step |
| `ItemEquipment.EquipPlaces` | items/equipment.py:113-144 | after equipping the slot holds the item, which is Equipped there and out of the inventory; other slots are unchanged |
| `ItemEquipment.EquipUnequipRoundTrip` | items/equipment.py:113-176 | equipping a held item into an empty slot and unequipping that slot restores every component |
| `ItemEquipment.EquipIntoEmpty` | items/equipment.py:131-133 | an empty slot skips the unequip |
| `ItemEquipment.FillThenClear` | items/equipment.py:142-174 | filling an empty slot and clearing it gives the slot map back |
| `ItemEquipment.EquipFreesSlots` | items/equipment.py:135-136 | equipping a held item frees its inventory slots |
| `ItemEquipment.EquipKeepsOwner` | items/equipment.py:135-142 | equipping keeps the owner's Inventory and slot map and the item's size |
| `ItemEquipment.EquipStrandsOccupant` | items/equipment.py:129-144 | an occupant that does not fit is reported as displaced but stays Equipped and out of the inventory while its slot takes the new item |
| `ItemEquipment.GetEquipmentBonuses` | items/equipment.py:179-199 | both keys are present and each holds the stat's sum over the occupied slots |
| `ItemEquipment.EquipAddsBonus` | items/equipment.py:179-199 | equipping into an empty slot raises each bonus by the item's base value |
| `Affixes.WeaponTablesWellFormed` | items/affixes.py:21-41 | the weapon tables are non-empty, hold only affixes of their kind, and every weight is positive |
| `Affixes.ArmorTablesWellFormed` | items/affixes.py:43-64 | the same for the armor tables |
| `Affixes.TablesDistinct` | items/affixes.py:21-64 | no weapon table equals an armor table |
| `Affixes.AddModifiers` | items/affixes.py:79-80 | the inner loop adds every modifier into the totals: keys are the union, values the sums with absent keys read as 0 |
| `Affixes.GetTotalModifiers` | items/affixes.py:74-81 | the keys are the stats either affix modifies, each mapped to the prefix's plus the suffix's contribution |
| `Affixes.DisplayName` | items/affixes.py:83-90 | the name is the prefix name and a space (when present), the base name, then a space and the suffix name (when present) |
| `Affixes.PlainName` | items/affixes.py:83-90 | with neither affix the display name is the base name |
| `Affixes.PickFrom` | items/affixes.py:98-104 | the loop's choice from position i: the first affix whose running weight reaches the roll, else pool[0] |
| `Affixes.RollAffix` | items/affixes.py:93-104 | the weighted selection loop returns the selection PickFrom describes for the given roll |
| `Affixes.ReachGrows` | items/affixes.py:98-100 | with positive weights the running weight strictly grows |
| `Affixes.EveryAffixRollable` | items/affixes.py:95-102 | every affix of a positively weighted pool is selected by some roll in [1, total] |
| `Affixes.RollInRangeReaches` | items/affixes.py:96-104 | a roll in [1, total] never reaches the pool[0] fallback |
| `Affixes.PickInPool` | items/affixes.py:93-104 | whatever the roll, the result is a member of the pool |
| `Affixes.PoolMembers` | items/affixes.py:21-64 | a member of a well-formed pool has the pool's kind and a positive weight |
| `Affixes.GetAffixPool` | items/affixes.py:107-114 | the weapon tables exactly for main_hand, off_hand and two_hand; prefix tables for "prefix", suffix tables for anything else |
| `Affixes.ApplyAffixesForRarity` | items/affixes.py:117-141 | the item gains the rolled ItemAffixes record when one is rolled, and nothing changes otherwise |
| `Affixes.RarityDecidesAffixes` | items/affixes.py:121-141 | common and unknown rarities get nothing; uncommon gets exactly one affix, the prefix on heads; rare, epic and legendary get both, each of its kind and from the slot's table |
| `ConsumableActions.EffectFromConsumable` | items/consumable_actions.py:45-67 | the effect takes the kind whose value is the consumable's string, falling back to heal for an unknown string; name, power, duration and stat modifiers are copied |
| `ConsumableActions.EffectKindRoundTrip` | items/consumable_actions.py:48-59 | every kind survives the trip through its string |
| `ConsumableActions.Spent` | items/consumable_actions.py:35 | the consumable with one use fewer and every other field unchanged |
| `ConsumableActions.ConsumeItem` | items/consumable_actions.py:12-42 | the world and the report are exactly as the consume rule says |
| `ConsumableActions.ConsumeRefusals` | items/consumable_actions.py:18-24 | refuses exactly a missing Consumable, then exactly an item outside the user's inventory; a refusal changes nothing |
| `ConsumableActions.ConsumeSpendsOneUse` | items/consumable_actions.py:26-75 | a use reports the effect's outcome and the uses left; the item is destroyed exactly when none is left, and otherwise only its count changes |
| `ConsumableActions.ConsumeTouchesUserOnly` | items/consumable_actions.py:29-32 | every entity but the item ends as applying the effect to the user leaves it |
| `ThrowActions.RangeFor` | items/throw_actions.py:23-29 | never under 2; exactly 2 up to strength 5; 5 + (strength - 10) floor-div 2 from strength 4 on |
| `ThrowActions.GetThrowRange` | items/throw_actions.py:16-31 | never under 2, and the base range 5 without Stats |
| `ThrowActions.RangeMonotone` | items/throw_actions.py:28-29 | a stronger thrower never throws less far |
| `ThrowActions.RangeStep` | items/throw_actions.py:28-29 | from strength 4 on, two more points of strength add exactly one tile |
| `ThrowActions.GetEntityAt` | items/throw_actions.py:105-116 | returns an actor (IsActor, Position, Health) on the tile, and None exactly when there is none |
| `ThrowActions.ThrowItem` | items/throw_actions.py:34-102 | refuses, changing nothing, exactly an item outside the thrower's inventory; otherwise the item leaves the inventory and hits an actor, spills a pool, shatters or lands, as Thrown describes, with what each branch leaves unchanged (a spill changes only the item, the new pool and the pool it replaces) |
| `ThrowActions.Release` | items/throw_actions.py:60-102 | the four branches, in the source's order, each with its effect on the store and the id counter, including the frame of a spill |
| `ThrowActions.ActorsIgnoreInventory` | items/throw_actions.py:58-61 | taking the item out of the inventory does not change which tiles hold an actor |
| `ThrowActions.HitTarget` | items/throw_actions.py:64-73 | the consumable's effect is applied to the actor hit, with that outcome reported, and the item is destroyed |
| `ThrowActions.Spill` | items/throw_actions.py:75-124 | a pool of the parsed kind with the item's power, made by the thrower and coloured like the item, appears on the tile when the kind string parses, replacing any pool there; every other entity keeps every component; the item is destroyed either way |
| `ThrowActions.Land` | items/throw_actions.py:98-102 | anything else gets Position on the tile and OnGround, and nothing else changes |
| `StatsUtil.StatField` | ecs/stats_util.py:7-24 | a Stats attribute is found exactly for the six stat names; any other name is an attribute error |
| `StatsUtil.HalfAboveTen` | ecs/stats_util.py:8-20 | `(v - 10) // 2` is the floor of half of v - 10 |
| `StatsUtil.AboveTen` | ecs/stats_util.py:16-24 | `max(0, v - 10)`: non-negative, at least v - 10, and one of the two |
| `StatsUtil.DamageBonusAsWritten` | ecs/stats_util.py:7-8 | the damage bonus as written raises (None) exactly when the attribute it reads is missing from a Stats record |
| `StatsUtil.DamageBonusAsWrittenRaises` | ecs/stats_util.py:7-8 | for every Stats record the as-written bonus raises and never gives the intended value |
| `StatsUtil.DamageBonus` | ecs/stats_util.py:7-8 | the intended damage bonus: the floor of half of strength - 10 |
| `StatsUtil.AccuracyBonus` | ecs/stats_util.py:11-12 | the floor of half of dexterity - 10 |
| `StatsUtil.DodgeChance` | ecs/stats_util.py:15-16 | dexterity above 10, never negative |
| `StatsUtil.MagicPower` | ecs/stats_util.py:19-20 | the floor of half of intelligence - 10 |
| `StatsUtil.MagicResist` | ecs/stats_util.py:23-24 | wisdom above 10, never negative |
| `StatsUtil.HalfAboveTenMonotone` | ecs/stats_util.py:8-20 | the floor-div bonuses never fall as the stat rises |
| `StatsUtil.AboveTenMonotone` | ecs/stats_util.py:16-24 | the max(0, ...) chances never fall as the stat rises |
| `StatsUtil.LevelUpMonotone` | ecs/stats_util.py:27-28 | readiness to level up only grows with experience points for the same threshold, and holds exactly at the threshold |
| `StatsUtil.ApplyLevelUp` | ecs/stats_util.py:31-37 | the level goes up by one, nothing else changes, and one message names the new level |
| `StatsUtil.LevelUpRaisesLevel` | ecs/stats_util.py:36 | after a level-up the level is one higher and the experience points and Stats are untouched |
| `Targeting.Chebyshev` | effects/targeting.py:12-17 | the larger of \|dx\| and \|dy\|: at least each, equal to one, and 0 exactly for the same point |
| `Targeting.ChebyshevSymmetric` | effects/targeting.py:12-17 | the distance does not depend on the order of the points |
| `Targeting.IsInRange` | effects/targeting.py:20-24 | in range exactly when both \|dx\| and \|dy\| are at most max_range |
| `Targeting.LineWalk` | effects/targeting.py:34-49 | the walk runs along x when \|dx\| > \|dy\|, along y otherwise, with signed steps towards the target |
| `Targeting.AfterPosition` | effects/targeting.py:42-57 | after n iterations the cursor is n steps along the major axis and Moves steps along the minor one |
| `Targeting.AfterErrBounds` | effects/targeting.py:44-56 | the loop keeps the doubled error in [0, 2 * d_major) |
| `Targeting.AfterErr` | effects/targeting.py:44-56 | each iteration takes 2 * d_minor off the error and each minor move adds 2 * d_major back |
| `Targeting.FullWalkMoves` | effects/targeting.py:41-57 | a full walk seeded with the halved extent ends exactly d_minor minor steps away |
| `Targeting.GetLine` | effects/targeting.py:27-60 | the Bresenham loop returns exactly the walk's points followed by the end point |
| `Targeting.WalkAlongX` | effects/targeting.py:40-48 | the x-major loop appends exactly the first d_major points of the walk |
| `Targeting.WalkAlongY` | effects/targeting.py:49-57 | the y-major loop appends exactly the first d_major points of the walk |
| `Targeting.LineAt` | effects/targeting.py:27-60 | the line has d_major + 1 points, the i-th being the cursor after i iterations |
| `Targeting.LineEnds` | effects/targeting.py:27-60 | the line has max(\|dx\|, \|dy\|) + 1 points, starts at (x1, y1) and ends at (x2, y2) |
| `Targeting.LineSteps` | effects/targeting.py:42-57 | consecutive points are one step apart towards the target along the major axis and at most one along the other |
| `Targeting.LineInBox` | effects/targeting.py:27-60 | every point lies in the box spanned by the end points |
| `Targeting.HasLineOfSight` | effects/targeting.py:82-94 | clear exactly when no interior cell of the line blocks sight; the end points are not checked |
| `Targeting.ShortLineIsClear` | effects/targeting.py:89-94 | a line between adjacent cells has no interior cell and is always clear |
| `Targeting.TilesInRadius` | effects/targeting.py:63-79 | exactly the on-map cells with \|dx\|, \|dy\| <= radius, in row-major order (hence without duplicates) |
| `Descriptions.Join` | ui/descriptions.py:50-131 | `" ".join`: empty for no parts, the part itself for one, and always starting with the first part |
| `Descriptions.JoinAppend` | ui/descriptions.py:50-131 | joining one more part adds a space and that part at the end |
| `Descriptions.DescribeHealth` | ui/descriptions.py:53-71 | None exactly for a non-positive maximum; "dead" exactly at 0 hp or less; "perfect health" exactly at full hp or more |
| `Descriptions.HealthBandsMonotone` | ui/descriptions.py:58-71 | more hit points never read as worse health |
| `Descriptions.DescribeMana` | ui/descriptions.py:74-89 | None exactly for a non-positive maximum or below a quarter; "crackles" exactly from three quarters up |
| `Descriptions.Remark` | ui/descriptions.py:102-124 | a stat earns its high remark from 14 up, else its low remark (if it has one) at 7 or less, else nothing |
| `Descriptions.CollectObservations` | ui/descriptions.py:94-124 | the checks collect every remark the six stats earn, in the order strength, dexterity, constitution, intelligence, wisdom, charisma |
| `Descriptions.DescribeStats` | ui/descriptions.py:92-132 | None exactly when no stat earns a remark; otherwise the first two remarks' sentences joined |
| `Descriptions.StatsAtMostTwo` | ui/descriptions.py:127-131 | with two remarks or more, the text is the first two sentences joined by a space |
| `Descriptions.OnlyThreeLowRemarks` | ui/descriptions.py:112-124 | a low constitution, wisdom or charisma says nothing |
| `Descriptions.AverageStatsSayNothing` | ui/descriptions.py:102-124 | stats between 8 and 13 give no remark |
| `Descriptions.GenerateActorDescription` | ui/descriptions.py:10-50 | the text is the opening, then the stats sentence, the mana sentence and the health sentence (each only when present), joined by spaces |
| `Descriptions.DescriptionShape` | ui/descriptions.py:10-50 | the text opens with the Description text or "A {name}."; an actor with Stats and Health and a positive hp maximum ends with its health sentence |
| `MessageLogs.Newest` | ui/log.py:20-22 | what a deque bounded by n keeps: the newest min(\|s\|, n) elements |
| `MessageLogs.NewestAppend` | ui/log.py:24-28 | appending below the bound drops nothing; appending to a full log drops exactly the oldest; the appended message is the newest kept |
| `MessageLogs.SliceBound` | ui/log.py:62 | a Python slice bound lands in [0, n], negative bounds counting from the end |
| `MessageLogs.Pairs` | ui/log.py:62 | the (text, colour) pairs of the messages, in order |
| `MessageLogs.VisibleRange` | ui/log.py:54-62 | the slice ends offset messages before the newest and holds at most lines messages |
| `MessageLogs.ScrollUpInRange` | ui/log.py:64-68 | a non-negative scroll up keeps the offset in [0, max(0, n - 1)] and never moves down |
| `MessageLogs.ScrollDownInRange` | ui/log.py:70-72 | a non-negative scroll down never goes below 0 nor moves up |
| `MessageLogs.MessageLog.constructor` | ui/log.py:20-22 | an empty log at the bottom with the given bound (200 by default) |
| `MessageLogs.MessageLog.Add` | ui/log.py:24-28 | the message is appended at the newest end, the oldest dropped when full, and the view jumps to the bottom |
| `MessageLogs.MessageLog.GetVisibleMessages` | ui/log.py:46-62 | nothing for an empty log; otherwise the (text, colour) pairs of the visible slice, at most lines of them |
| `MessageLogs.MessageLog.BottomShowsNewest` | ui/log.py:46-62 | at the bottom the newest message is the last shown |
| `MessageLogs.MessageLog.TopShowsOldest` | ui/log.py:46-80 | scrolled to the top only the oldest message is shown |
| `MessageLogs.MessageLog.ScrollUp` | ui/log.py:64-68 | the offset grows by the amount, capped at the oldest message |
| `MessageLogs.MessageLog.ScrollDown` | ui/log.py:70-72 | the offset shrinks by the amount, floored at 0 |
| `MessageLogs.MessageLog.ScrollToBottom` | ui/log.py:74-76 | the offset is 0 and the log is at the bottom |
| `MessageLogs.MessageLog.ScrollToTop` | ui/log.py:78-80 | the offset is max(0, n - 1) and no further scroll up is possible |
| `MessageLogs.MessageLog.CanScrollMeansMoves` | ui/log.py:82-93 | can_scroll_up and can_scroll_down hold exactly when a one-step scroll would move; at the bottom exactly when down cannot move |
| `Popups.Popup.GetRect` | ui/popup.py:34-36 | the popup centred on the screen with its own size, on screen whenever it fits |
| `Popups.PopupStack.constructor` | ui/popup.py:88-91 | an empty stack for the given screen |
| `Popups.PopupStack.Push` | ui/popup.py:93-95 | the popup goes on top; the depth grows by one |
| `Popups.PopupStack.Pop` | ui/popup.py:97-101 | None and no change on an empty stack; otherwise the top popup, removed |
| `Popups.PopupStack.Peek` | ui/popup.py:103-107 | the top popup, None exactly when the stack is empty |
| `Popups.PopupStack.Clear` | ui/popup.py:112-113 | the stack is emptied |
| `Popups.PopupStack.EmptyIsDepthZero` | ui/popup.py:109-117 | is_empty holds exactly when the depth is 0 |
| `Popups.PopupStack.Render` | ui/popup.py:119-123 | every popup from the bottom up, centred, the i-th on layer 4 + i, so later popups lie above earlier ones |
| `Popups.PushThenPop` | ui/popup.py:93-101 | pushing then popping hands back the pushed popup and restores the stack |
| `InputHandling.NoOpKeepsStack` | input/input.py:15-17 | processing this result leaves the handler stack and its hooks as they were and spends no turn |
| `InputHandling.TurnPassedKeepsStack` | input/input.py:19-21 | processing this result spends the turn and leaves the handler stack as it was |
| `InputHandling.PushMakesCurrent` | input/input.py:23-25 | processing this result makes the handler current, one level deeper, with the exit and enter hooks, and spends no turn |
| `InputHandling.PopHandlerPops` | input/input.py:27-29 | processing this result pops the current handler unless it is the bottom one, and spends no turn |
| `InputHandling.TurnAndPushMakesCurrent` | input/input.py:31-33 | processing this result spends the turn and makes the handler current, one level deeper |
| `InputHandling.TurnAndPopPops` | input/input.py:35-37 | processing this result spends the turn and pops the current handler unless it is the bottom one |
| `InputHandling.HandleKey` | input/input.py:53-61 | a bound key gives its action's result; an unbound key changes nothing |
| `InputHandling.Pushed` | input/input.py:83-86 | the handler goes on top; the old top is told it is left, then the new one that it is entered |
| `InputHandling.Popped` | input/input.py:88-94 | above the bottom the top goes, is told it is left, and the revealed one is entered; the bottom handler is never popped |
| `InputHandling.Processed` | input/input.py:96-105 | the stack is never emptied by a key |
| `InputHandling.PushThenPopRestores` | input/input.py:83-94 | pushing and then popping restores the handler stack |
| `InputHandling.ProcessedDepth` | input/input.py:96-105 | the depth falls by one for a pop above the bottom and rises by one for a push; a pop and a push together replace the top handler |
| `InputHandling.InputManager.constructor` | input/input.py:76-78 | the stack holds the initial handler, which has been entered |
| `InputHandling.InputManager.CurrentHandler` | input/input.py:80-81 | the top of the stack |
| `InputHandling.InputManager.PushHandler` | input/input.py:83-86 | the stack and hooks step as push_handler says; the new handler is current |
| `InputHandling.InputManager.PopHandler` | input/input.py:88-94 | the stack and hooks step as pop_handler says; a pop happens exactly above the bottom handler |
| `InputHandling.InputManager.ProcessKey` | input/input.py:96-105 | the current handler's result is applied to the stack, pop before push, and its consumed_turn is returned |
| `Menus.MenuKeys` | ui/menu.py:36-63 | the 26 letter keys, a to z, at consecutive codes from TK_A |
| `Menus.Unreserved` | ui/menu.py:119 | exactly the keys not reserved, in their original order |
| `Menus.AvailableKeysAsWritten` | ui/menu.py:119 | as written: the letters not reserved, in a..z order, override keys included |
| `Menus.AvailableKeys` | ui/menu.py:119 | corrected rule: the keys handed out automatically are the letters neither reserved nor asked for by an override, in a..z order |
| `Menus.BindShape` | ui/menu.py:121-135 | the loop binds each index exactly to its own key (override unless reserved, else the next free key while keys remain); a key leads to the last item given it; the counter is the number of automatic items, capped by the number of keys |
| `Menus.AutoCountGrows` | ui/menu.py:131-135 | a later automatic item has counted every earlier one |
| `Menus.BindRespectsReserved` | ui/menu.py:115-135 | no reserved key, Escape included, is bound, and every bound key shows on the item it selects |
| `Menus.BindAssignsInOrder` | ui/menu.py:123-135 | automatic items take the free keys in order and stay unbound once they run out; an unreserved override is used as given, a reserved one leaves the item unbound |
| `Menus.KeysDistinct` | ui/menu.py:123-135 | with distinct overrides no two items get the same key |
| `Menus.HotkeySelectsItem` | ui/menu.py:123-155 | with distinct overrides, the key an item shows selects that item |
| `Menus.OverrideCollisionAsWritten` | ui/menu.py:119-135 | as written, an override 'a' followed by an item without override gives both 'a', and 'a' selects the second |
| `Menus.KeyChar` | ui/menu.py:142 | a letter key's character is its letter |
| `Menus.Menu.constructor` | ui/menu.py:65-92 | the menu holds the title and items, Escape is added to the reserved keys, and the maps are rebuilt |
| `Menus.Menu.AddItem` | ui/menu.py:94-105 | the item is appended and the maps rebuilt; title and reserved keys stay |
| `Menus.Menu.SetReservedKeys` | ui/menu.py:107-111 | the reserved keys become the given ones plus Escape and the maps are rebuilt |
| `Menus.Menu.RebuildKeybinds` | ui/menu.py:113-135 | the loop leaves exactly the bindings the items and reserved keys call for, every bound index naming an item |
| `Menus.Menu.GetHotkeyChar` | ui/menu.py:137-143 | "?" for an unbound item; the bound letter otherwise |
| `Menus.Menu.HandleKey` | ui/menu.py:145-155 | an action result exactly when the key is bound to an enabled item, and then that item's |
| `Menus.Menu.AutoItemsShowLetters` | ui/menu.py:119-143 | an automatic item shows its free letter in a..z order, or "?" once the letters run out |
| `Menus.CreateMenuPopup` | ui/menu.py:255-289 | the popup has the given width; its height is the given one or border, title lines and one row per item plus padding; its title is the given one or the menu's |
| `Menus.DefaultPopupHoldsItems` | ui/menu.py:270-273 | the default height leaves the popup's interior a row for every item below the title |

## Left out

- Drawing: `RenderSystem` (ecs/systems.py:33-43), `Menu.render` (ui/menu.py:157-184), the drawing calls of `Popup.render` and `PopupStack.render`, and the content renderers. They only place glyphs on the terminal. `PopupStack.Render` keeps the popup order, placement and layer of each draw.
- `MenuHandler` (ui/menu.py:187-252) is popup and handler-stack glue around `Menu`. It is not part of this model.
- The terminal wrapper, field of view, the main loop, the key handlers of the input package, the item factory and the panels are not part of this model. They are foreign I/O, a library call or presentation.
- Log messages: the `_log_*` helpers of the effect and pool systems and the `add_info`/`add_warning`/`add_error`/`add_success` conveniences of the message log only format text. Outcomes are datatypes (`Apply.Outcome`, `ConsumableActions.ConsumeResult`, `ThrowActions.ThrowResult`) rather than strings.
- Randomness: the affix rolls and the coin of `apply_affixes_for_rarity` are parameters. The rarity roll of the item factory is not modelled.
- `max_hp`, `max_mp` and `xp_for_next_level` are parameters (the `Rules` record and an argument of `StatsUtil.CheckLevelUp`), because the classes that define them are not part of this model.
- `component_for`'s `MissingDependency` error becomes a precondition on its callers, because a missing required component is a wiring mistake, not a game outcome.
- Python object identity: components, popups, handlers and menu items are values. Two names never alias one record, so a change through one name is modelled as storing the changed record again.
- A menu item's or key binding's action is a callable in the source. The model keeps only the `ActionResult` it returns.
- Dictionary iteration order: where the source returns the first match of a dict walk (`get_pool_at`, `_get_entity_at`), the model returns some match. With one pool or actor on a tile the two agree.
- `get_distance` (effects/targeting.py:7-9) is a floating-point square root. It is not modelled.
- Percent bands in the descriptions compare `100 * current` with `k * max` as integers, instead of a float percentage. The two agree for positive maxima.
- `ecs/world.py` initialises `_entities` as a dict and leaves `_components` and `_resources` unset. `get_resource` dereferences a missing entry. The model gives these their evident meaning: empty tables, an empty resource map, and `None` for a missing resource.
- `remove_component` does not exist in `ecs/world.py`, although three callers use it. The model gives it map-deletion semantics (`Ecs.World.RemoveComponent`).
- The comment in `GameMap.__init__` (map/map.py:33-39) says walls, but the code fills the map with floor. The model follows the code.
- The display-name tables of the equipment slots (items/equipment.py:10-39) and the colour of a pool only affect presentation. They are kept only as constants.
- `get_equipped_item` and `get_all_equipped_items` (items/equipment.py:42-55) are read straight from the slot map (`ItemEquipment.Occupant`, `ItemEquipment.SlotsOf`).
- `Menus.KeyChar` returns "?" only where `ord('a') + (key - TK_A)` is not a character code. It does not model Python's `chr` range error.
- `EffectSystems.GroundPoolTick` requires at most one pool per tile. That is the invariant `create_pool` keeps (`Pools.CreatePool`). A world where some other writer stacks two pools on one tile is not modelled.
- `Targeting.HasLineOfSight` requires both end points on the map. Python indexing off the grid (negative indices wrap) is not modelled.
- `GameMaps.GameMap.BlocksSight` requires an on-map position, for the same reason.
- `MessageLogs.MessageLog.GetVisibleMessages` bounds the length of the result only when the scroll offset is at most the message count. Scrolling keeps the offset in that range.
- `ItemInventory.InventoryItems` returns the set of inventory items, not a list, because the order of the source's list is the table's iteration order.
- `Systems.MovedGetRule` follows the corrected `GameMaps.GameMap.BlocksMovement` of the Findings table, so a move off the map is refused. As written (ecs/systems.py:65-72 with map/map.py:49-50), Position (0, 0) with MoveIntent (-1, 0) moves to (-1, 0).
- `Systems.MovementSystem.TryMove` accepts by the same corrected rule and refuses the off-map targets the source accepts.
- `Systems.MovementSystem.Update` applies the corrected movement rule to every entity, and so do `Systems.MovementSystem.MoveOne`, `Systems.MovementSystem.MoveNext` and `Systems.MoveTablesGet`.
- `Systems.SystemScheduler.AddSystem` requires a known phase name. The source raises a KeyError for any other name.
- `Menus.AvailableKeys` is the corrected key list of the Findings table. It also skips keys that some item asks for as its override, which ui/menu.py:119 does not.
- `Menus.Menu.RebuildKeybinds` hands out automatic keys from the corrected `Menus.AvailableKeys`, so an automatic key never collides with an override. `Menus.Menu.constructor`, `Menus.Menu.AddItem`, `Menus.Menu.SetReservedKeys`, `Menus.Menu.GetHotkeyChar` and `Menus.Menu.HandleKey` all rebuild or read these bindings.
- `Menus.Menu.AutoItemsShowLetters` counts its letters in the corrected list, which lacks the override keys. `Menus.KeysDistinct` is likewise stated for the corrected list.

## Findings

| source | as written | input that shows it | evidently intended | confidence | as-written member | corrected member |
|---|---|---|---|---|---|---|
| ecs/stats_util.py:7-8 | `get_damage_bonus` reads `stats.strentgh`, which no Stats record has, so every call raises | any Stats record | `(strength - 10) // 2` | high, not executed | `StatsUtil.DamageBonusAsWrittenRaises` | `StatsUtil.DamageBonus` |
| map/map.py:47-52 | `blocks_movement` returns False outside the map, although its comment says out of bounds blocks, so a move can leave the map | position (-1, 0) on any map | positions off the map block movement | high, not executed | `GameMaps.OffMapNotBlockedAsWritten` | `GameMaps.UnblockedIsInBounds` |
| ui/menu.py:119-135 | automatic hotkeys skip reserved keys but not other items' override keys, so two items can show the same key | items [override TK_A, no override], reserved {TK_ESCAPE}: both show 'a', and 'a' selects the second | an automatic key never reuses an override key | medium, not executed | `Menus.OverrideCollisionAsWritten` | `Menus.HotkeySelectsItem` |
