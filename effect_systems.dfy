/**
 * The two turn-gated resolution systems (effects/systems.py): the tick of
 * duration effects and the ground pools. Their log messages are left out.
 */
module EffectSystems {
  import opened Wrappers
  import opened EffectTypes
  import opened Components
  import opened Ecs
  import opened EffectComponents
  import opened Apply
  import opened Pools

  /** Some entity holds TurnConsumed: a turn has passed. */
  predicate TurnPassed(tables: Tables) {
    Holders(tables, TurnConsumedType) != {}
  }

  /** _apply_tick on a Health record: poison and damage subtract, regen heals up to max_hp when Stats are present. */
  function TickOnce(health: Component, effect: Effect, stats: Option<Component>, level: int, rules: Rules): (r: Component)
    requires health.Health?
    ensures r.Health? && r.baseMaxHp == health.baseMaxHp
  {
    if effect.effectType == Poison then Health(health.currentHp - effect.power, health.baseMaxHp)
    else if effect.effectType == Regen && stats.Some? then
      Health(Min(health.currentHp + effect.power, rules.maxHp(health, stats.value, level)), health.baseMaxHp)
    else if effect.effectType == Damage then Health(health.currentHp - effect.power, health.baseMaxHp)
    else health
  }

  /** The Health record after every effect of the list has ticked once, in list order. */
  function TickAll(health: Component, effects: seq<Effect>, stats: Option<Component>, level: int, rules: Rules): (r: Component)
    requires health.Health?
    ensures r.Health? && r.baseMaxHp == health.baseMaxHp
  {
    if effects == [] then health
    else TickOnce(TickAll(health, effects[..|effects| - 1], stats, level, rules), Last(effects), stats, level, rules)
  }

  /** The power of the poison and damage effects of a list, added up. */
  function DamageTotal(effects: seq<Effect>): int {
    if effects == [] then 0
    else DamageTotal(effects[..|effects| - 1]) + (if Last(effects).effectType in {Poison, Damage} then Last(effects).power else 0)
  }

  /**
   * Damage needs nothing but Health and stacks: without regeneration, a tick
   * takes exactly the summed power of the poison and damage effects.
   */
  lemma {:induction false} TickDamage(health: Component, effects: seq<Effect>, stats: Option<Component>, level: int, rules: Rules)
    requires health.Health?
    requires stats.None? || forall i | 0 <= i < |effects| :: effects[i].effectType != Regen
    ensures TickAll(health, effects, stats, level, rules).currentHp == health.currentHp - DamageTotal(effects)
  {
    if effects != [] {
      TickDamage(health, effects[..|effects| - 1], stats, level, rules);
    }
  }

  /** N stacked poison or damage effects of power p take N * p, and are not merged. */
  lemma {:induction false} StackedDamage(effects: seq<Effect>, p: int)
    requires forall i | 0 <= i < |effects| :: effects[i].effectType in {Poison, Damage} && effects[i].power == p
    ensures DamageTotal(effects) == |effects| * p
  {
    if effects != [] {
      StackedDamage(effects[..|effects| - 1], p);
      calc {
        DamageTotal(effects);
        (|effects| - 1) * p + p;
        { assert (|effects| - 1) * p + p == |effects| * p; }
        |effects| * p;
      }
    }
  }

  /** The effects an entity keeps after this tick: durations one lower, the finished ones dropped. */
  function Kept(effects: seq<Effect>): seq<Effect> {
    Running(Decremented(effects))
  }

  /** The list the entity holds, when it holds ActiveEffects. */
  function EffectsOf(tables: Tables, e: Entity): Option<seq<Effect>> {
    var active := Get(tables, e, ActiveEffectsType);
    if active.Some? && active.value.ActiveEffects? then Some(active.value.effects) else None
  }

  /**
   * The first loop of EffectTickSystem.update for the component of type t of
   * entity e: Health after every effect ticked once, and the kept effects
   * (still stored when none are left; the clean-up pass removes that).
   */
  function TickedGet(tables: Tables, rules: Rules, e: Entity, t: ComponentType): Option<Component> {
    match EffectsOf(tables, e)
    case Some(effects) =>
      if t == ActiveEffectsType then Some(ActiveEffects(Kept(effects)))
      else if t == HealthType && Get(tables, e, HealthType).Some? && Get(tables, e, HealthType).value.Health? then
        Some(TickAll(Get(tables, e, HealthType).value, effects, Get(tables, e, StatsType), Level(tables, e), rules))
      else Get(tables, e, t)
    case None => Get(tables, e, t)
  }

  /**
   * EffectTickSystem.update, component by component: nothing changes unless
   * a turn has passed; then every entity with ActiveEffects takes each
   * effect's tick, its durations drop by one, the finished effects go, and
   * an entity left with none loses ActiveEffects.
   */
  function EffectTickGet(tables: Tables, rules: Rules, e: Entity, t: ComponentType): Option<Component> {
    if !TurnPassed(tables) then Get(tables, e, t)
    else if t == ActiveEffectsType && EffectsOf(tables, e).Some? && Kept(EffectsOf(tables, e).value) == [] then None
    else TickedGet(tables, rules, e, t)
  }

  /** Two tables that agree on every component of e. */
  predicate SameRow(t1: Tables, t2: Tables, e: Entity) {
    forall t :: Get(t1, e, t) == Get(t2, e, t)
  }

  /** The tick of one entity looks at nothing but that entity's components. */
  lemma TickedGetLocal(t1: Tables, t2: Tables, rules: Rules, e: Entity)
    requires SameRow(t1, t2, e)
    ensures EffectsOf(t1, e) == EffectsOf(t2, e) && Level(t1, e) == Level(t2, e)
    ensures forall t :: TickedGet(t1, rules, e, t) == TickedGet(t2, rules, e, t)
  {
    assert Get(t1, e, ActiveEffectsType) == Get(t2, e, ActiveEffectsType);
    assert Get(t1, e, ExperienceType) == Get(t2, e, ExperienceType);
    assert Get(t1, e, StatsType) == Get(t2, e, StatsType);
    assert Get(t1, e, HealthType) == Get(t2, e, HealthType);
  }

  /** TickedGet for an entity holding ActiveEffects, by component type. */
  lemma TickedGetRule(tables: Tables, rules: Rules, e: Entity, t: ComponentType)
    requires EffectsOf(tables, e).Some?
    ensures TickedGet(tables, rules, e, t) == (
      if t == ActiveEffectsType then Some(ActiveEffects(Kept(EffectsOf(tables, e).value)))
      else if t == HealthType && Get(tables, e, HealthType).Some? && Get(tables, e, HealthType).value.Health? then
        Some(TickAll(Get(tables, e, HealthType).value, EffectsOf(tables, e).value, Get(tables, e, StatsType), Level(tables, e), rules))
      else Get(tables, e, t))
  {
  }

  /** _apply_tick on the world: reads the entity's current Health and writes the ticked one back. */
  method ApplyTick(w: World, rules: Rules, e: Entity, effect: Effect, stats: Option<Component>, level: int)
    requires w.Valid()
    modifies w`components
    ensures w.Valid()
    ensures forall e', t ::
      Get(w.components, e', t) == (
        if e' == e && t == HealthType && Get(old(w.components), e, HealthType).Some?
        then Some(TickOnce(Get(old(w.components), e, HealthType).value, effect, stats, level, rules))
        else Get(old(w.components), e', t))
  {
    var health := w.GetComponent(e, HealthType);
    if health.Some? {
      var h := TickOnce(health.value, effect, stats, level, rules);
      if h != health.value {
        w.AddComponent(e, h);
      }
    }
  }

  /** The inner loop of update: every effect of the list ticks the entity's Health once, in list order. */
  method TickHealth(w: World, rules: Rules, e: Entity, effects: seq<Effect>, stats: Option<Component>, level: int)
    requires w.Valid()
    modifies w`components
    ensures w.Valid()
    ensures forall e', t ::
      Get(w.components, e', t) == (
        if e' == e && t == HealthType && Get(old(w.components), e, HealthType).Some? && Get(old(w.components), e, HealthType).value.Health?
        then Some(TickAll(Get(old(w.components), e, HealthType).value, effects, stats, level, rules))
        else Get(old(w.components), e', t))
  {
    ghost var before := w.components;
    ghost var health := Get(before, e, HealthType);
    assert health.Some? ==> health.value.Health?;
    for i := 0 to |effects|
      invariant w.Valid()
      invariant forall e', t ::
        Get(w.components, e', t) == (
          if e' == e && t == HealthType && health.Some?
          then Some(TickAll(health.value, effects[..i], stats, level, rules))
          else Get(before, e', t))
    {
      assert effects[..i + 1][..i] == effects[..i];
      ApplyTick(w, rules, e, effects[i], stats, level);
    }
    assert effects[..|effects|] == effects;
  }

  /** The body of the first loop of update for one entity with ActiveEffects. */
  method TickEntity(w: World, rules: Rules, e: Entity) returns (empty: bool)
    requires w.Valid() && EffectsOf(w.components, e).Some?
    modifies w`components
    ensures w.Valid()
    ensures empty <==> Kept(EffectsOf(old(w.components), e).value) == []
    ensures forall e', t ::
      Get(w.components, e', t) == (if e' == e then TickedGet(old(w.components), rules, e, t) else Get(old(w.components), e', t))
  {
    ghost var before := w.components;
    var active := w.ComponentFor(e, ActiveEffectsType);
    var stats := w.GetComponent(e, StatsType);
    var exp := w.GetComponent(e, ExperienceType);
    var level := if exp.Some? then exp.value.level else 1;
    assert level == Level(before, e) && stats == Get(before, e, StatsType);
    var effects := active.effects;
    assert EffectsOf(before, e) == Some(effects);
    TickHealth(w, rules, e, effects, stats, level);
    var remaining, expired := TickEffects(effects);
    ghost var mid := w.components;
    w.AddComponent(e, ActiveEffects(remaining));
    empty := remaining == [];
    forall e', t
      ensures Get(w.components, e', t) == (if e' == e then TickedGet(before, rules, e, t) else Get(before, e', t))
    {
      TickedRow(before, mid, rules, e, e', t);
    }
  }

  /** Writing the kept effects over the ticked Health completes the tick of e, component by component. */
  lemma TickedRow(before: Tables, mid: Tables, rules: Rules, e: Entity, e': Entity, t: ComponentType)
    requires EffectsOf(before, e).Some?
    requires Get(mid, e', t) == (
        if e' == e && t == HealthType && Get(before, e, HealthType).Some? && Get(before, e, HealthType).value.Health?
        then Some(TickAll(Get(before, e, HealthType).value, EffectsOf(before, e).value, Get(before, e, StatsType), Level(before, e), rules))
        else Get(before, e', t))
    ensures Get(Put(mid, e, ActiveEffects(Kept(EffectsOf(before, e).value))), e', t) ==
      (if e' == e then TickedGet(before, rules, e, t) else Get(before, e', t))
  {
    var kept := ActiveEffects(Kept(EffectsOf(before, e).value));
    var after := Put(mid, e, kept);
    assert TypeOf(kept) == ActiveEffectsType;
    if e' != e {
      assert Get(after, e', t) == Get(mid, e', t);
    } else if t == ActiveEffectsType {
      assert Get(after, e', t) == Some(kept);
      assert TickedGet(before, rules, e, t) == Some(kept) by {
        TickedGetRule(before, rules, e, t);
      }
    } else {
      assert Get(after, e', t) == Get(mid, e', t);
      TickedGetRule(before, rules, e, t);
    }
  }

  /** The first loop of update: tick every entity with ActiveEffects, listing those left with none. */
  method TickEntities(w: World, rules: Rules) returns (toClean: seq<Entity>)
    requires w.Valid()
    modifies w`components
    ensures w.Valid()
    ensures forall e :: e in toClean <==> EffectsOf(old(w.components), e).Some? && Kept(EffectsOf(old(w.components), e).value) == []
    ensures forall e, t :: Get(w.components, e, t) == TickedGet(old(w.components), rules, e, t)
  {
    ghost var before := w.components;
    var todo := w.GetEntitiesWith([ActiveEffectsType]);
    toClean := [];
    while todo != {}
      invariant w.Valid()
      invariant forall e | e in todo :: EffectsOf(before, e).Some?
      invariant forall e :: e in toClean <==> e !in todo && EffectsOf(before, e).Some? && Kept(EffectsOf(before, e).value) == []
      invariant forall e, t :: Get(w.components, e, t) == if e in todo then Get(before, e, t) else TickedGet(before, rules, e, t)
      decreases todo
    {
      var e :| e in todo;
      TickedGetLocal(w.components, before, rules, e);
      var empty := TickEntity(w, rules, e);
      if empty {
        toClean := toClean + [e];
      }
      todo := todo - {e};
    }
  }

  /** The second loop of update: drop ActiveEffects from the listed entities. */
  method RemoveActiveEffects(w: World, toClean: seq<Entity>)
    requires w.Valid()
    modifies w`components
    ensures w.Valid()
    ensures forall e, t ::
      Get(w.components, e, t) == (if t == ActiveEffectsType && e in toClean then None else Get(old(w.components), e, t))
  {
    for i := 0 to |toClean|
      invariant w.Valid()
      invariant forall e, t ::
        Get(w.components, e, t) == (if t == ActiveEffectsType && e in toClean[..i] then None else Get(old(w.components), e, t))
    {
      assert toClean[..i + 1] == toClean[..i] + [toClean[i]];
      w.RemoveComponent(toClean[i], ActiveEffectsType);
    }
    assert toClean[..|toClean|] == toClean;
  }

  /** EffectTickSystem.update */
  method EffectTick(w: World, rules: Rules)
    requires w.Valid()
    modifies w`components
    ensures w.Valid()
    ensures forall e, t :: Get(w.components, e, t) == EffectTickGet(old(w.components), rules, e, t)
  {
    var turnConsumed := w.GetEntitiesWith([TurnConsumedType]) != {};
    if !turnConsumed {
      return;
    }
    var toClean := TickEntities(w, rules);
    RemoveActiveEffects(w, toClean);
  }

  /** e is an actor (IsActor, Health) standing on (x, y). */
  predicate ActorAt(tables: Tables, e: Entity, x: int, y: int) {
    Get(tables, e, IsActorType).Some? && Get(tables, e, HealthType).Some?
    && Get(tables, e, PositionType) == Some(Position(x, y))
  }

  /**
   * _apply_pool_effect on the tables: heal and regen clamp to max_hp and
   * need Stats; damage and poison subtract with no floor; restore_mana
   * clamps to max_mp and needs Mana and Stats; drain_mana floors at zero;
   * the stat kinds do nothing.
   */
  function PoolEffectOn(tables: Tables, rules: Rules, e: Entity, pool: Component): Tables {
    var r := PoolChange(Get(tables, e, HealthType), Get(tables, e, ManaType), Get(tables, e, StatsType), Level(tables, e), rules, pool);
    if r.Some? then Put(tables, e, r.value) else tables
  }

  /** The one record a pool effect rewrites, if any: the new Health or the new Mana. */
  function PoolChange(health: Option<Component>, mana: Option<Component>, stats: Option<Component>, level: int,
                      rules: Rules, pool: Component): (r: Option<Component>)
    ensures r.Some? ==> (r.value.Health? && health.Some?) || (r.value.Mana? && mana.Some?)
  {
    if !pool.GroundPool? || !health.Some? || !health.value.Health? then None
    else
      var h, kind, power := health.value, pool.effectType, pool.power;
      if kind == Heal && stats.Some? then
        Some(Health(Min(h.currentHp + power, rules.maxHp(h, stats.value, level)), h.baseMaxHp))
      else if kind == Damage || kind == Poison then
        Some(Health(h.currentHp - power, h.baseMaxHp))
      else if kind == Regen && stats.Some? then
        Some(Health(Min(h.currentHp + power, rules.maxHp(h, stats.value, level)), h.baseMaxHp))
      else if kind == RestoreMana && stats.Some? && mana.Some? && mana.value.Mana? then
        Some(Mana(Min(mana.value.currentMp + power, rules.maxMp(mana.value, stats.value, level)), mana.value.baseMaxMp))
      else if kind == DrainMana && mana.Some? && mana.value.Mana? then
        Some(Mana(Max(0, mana.value.currentMp - power), mana.value.baseMaxMp))
      else None
  }

  /** The component of type t of e once a pool's effect has been applied to it. */
  function PoolEffectGet(tables: Tables, rules: Rules, e: Entity, pool: Component, t: ComponentType): Option<Component> {
    Get(PoolEffectOn(tables, rules, e, pool), e, t)
  }

  /** Two tables agree on what a pool effect reads and writes of e. */
  predicate SameVitals(t1: Tables, t2: Tables, e: Entity) {
    Get(t1, e, HealthType) == Get(t2, e, HealthType) && Get(t1, e, ManaType) == Get(t2, e, ManaType)
    && Get(t1, e, StatsType) == Get(t2, e, StatsType) && Get(t1, e, ExperienceType) == Get(t2, e, ExperienceType)
  }

  /**
   * A pool effect writes nothing but e's Health or Mana, and what it writes
   * depends on nothing but e's Health, Mana, Stats and Experience.
   */
  lemma PoolEffectLocal(t1: Tables, t2: Tables, rules: Rules, e: Entity, pool: Component, e': Entity, t: ComponentType)
    requires SameVitals(t1, t2, e)
    ensures Get(PoolEffectOn(t1, rules, e, pool), e', t) ==
      (if e' == e && (t == HealthType || t == ManaType) then PoolEffectGet(t2, rules, e, pool, t) else Get(t1, e', t))
  {
    assert Level(t1, e) == Level(t2, e);
    var r1 := PoolChange(Get(t1, e, HealthType), Get(t1, e, ManaType), Get(t1, e, StatsType), Level(t1, e), rules, pool);
    var r2 := PoolChange(Get(t2, e, HealthType), Get(t2, e, ManaType), Get(t2, e, StatsType), Level(t2, e), rules, pool);
    assert r1 == r2;
    if r1.Some? {
      assert TypeOf(r1.value) == HealthType || TypeOf(r1.value) == ManaType;
    }
  }

  /** _apply_pool_effect on the world; the actor's Health must exist. */
  method ApplyPoolEffect(w: World, rules: Rules, e: Entity, pool: Component)
    requires w.Valid() && Get(w.components, e, HealthType).Some?
    modifies w`components
    ensures w.Valid()
    ensures w.components == PoolEffectOn(old(w.components), rules, e, pool)
  {
    var health := w.ComponentFor(e, HealthType);
    var mana := w.GetComponent(e, ManaType);
    var stats := w.GetComponent(e, StatsType);
    var exp := w.GetComponent(e, ExperienceType);
    var level := if exp.Some? then exp.value.level else 1;
    var change: Option<Component> := None;
    if !pool.GroundPool? {
    } else if pool.effectType == Heal && stats.Some? {
      var maxHp := rules.maxHp(health, stats.value, level);
      change := Some(Health(Min(health.currentHp + pool.power, maxHp), health.baseMaxHp));
    } else if pool.effectType == Damage || pool.effectType == Poison {
      change := Some(Health(health.currentHp - pool.power, health.baseMaxHp));
    } else if pool.effectType == Regen && stats.Some? {
      var maxHp := rules.maxHp(health, stats.value, level);
      change := Some(Health(Min(health.currentHp + pool.power, maxHp), health.baseMaxHp));
    } else if pool.effectType == RestoreMana && mana.Some? && stats.Some? {
      var maxMp := rules.maxMp(mana.value, stats.value, level);
      change := Some(Mana(Min(mana.value.currentMp + pool.power, maxMp), mana.value.baseMaxMp));
    } else if pool.effectType == DrainMana && mana.Some? {
      change := Some(Mana(Max(0, mana.value.currentMp - pool.power), mana.value.baseMaxMp));
    }
    assert change == PoolChange(Get(w.components, e, HealthType), mana, stats, Level(w.components, e), rules, pool);
    if change.Some? {
      w.AddComponent(e, change.value);
    }
  }

  /** The inner loop of GroundPoolSystem.update: the pool's effect, once, on every actor on its tile. */
  method SoakActors(w: World, rules: Rules, pool: Component, x: int, y: int)
    requires w.Valid()
    modifies w`components
    ensures w.Valid()
    ensures forall e, t ::
      Get(w.components, e, t) == (if ActorAt(old(w.components), e, x, y) then PoolEffectGet(old(w.components), rules, e, pool, t) else Get(old(w.components), e, t))
  {
    ghost var before := w.components;
    var todo := w.GetEntitiesWith([IsActorType, PositionType, HealthType]);
    while todo != {}
      invariant w.Valid()
      invariant forall e | e in todo ::
        Get(before, e, IsActorType).Some? && Get(before, e, PositionType).Some? && Get(before, e, HealthType).Some?
      invariant forall e, t :: Get(w.components, e, t) == SoakGet(before, rules, pool, x, y, todo, e, t)
      decreases todo
    {
      var e :| e in todo;
      ghost var cur := w.components;
      assert SameVitals(cur, before, e) && Get(cur, e, PositionType) == Get(before, e, PositionType);
      SoakOne(w, rules, pool, x, y, e);
      forall e', t ensures Get(w.components, e', t) == SoakGet(before, rules, pool, x, y, todo - {e}, e', t) {
        SoakStep(before, cur, rules, pool, x, y, todo, e, Get(before, e, PositionType) == Some(Position(x, y)), e', t);
      }
      todo := todo - {e};
    }
  }

  /** One iteration of the inner loop: the pool's effect on e if e stands on (x, y). */
  method SoakOne(w: World, rules: Rules, pool: Component, x: int, y: int, e: Entity)
    requires w.Valid() && Get(w.components, e, PositionType).Some? && Get(w.components, e, HealthType).Some?
    modifies w`components
    ensures w.Valid()
    ensures w.components == if Get(old(w.components), e, PositionType) == Some(Position(x, y))
      then PoolEffectOn(old(w.components), rules, e, pool) else old(w.components)
  {
    var pos := w.ComponentFor(e, PositionType);
    if pos.x == x && pos.y == y {
      ApplyPoolEffect(w, rules, e, pool);
    }
  }

  /**
   * A component while the actors on (x, y) are being soaked: the actors
   * already visited (not in todo) carry the pool's effect, the rest are as before.
   */
  ghost function SoakGet(before: Tables, rules: Rules, pool: Component, x: int, y: int, todo: set<Entity>, e: Entity, t: ComponentType): Option<Component> {
    if ActorAt(before, e, x, y) && e !in todo then PoolEffectGet(before, rules, e, pool, t) else Get(before, e, t)
  }

  /** Visiting one more actor: only its own row changes, and only when it stands on the tile. */
  lemma SoakStep(before: Tables, cur: Tables, rules: Rules, pool: Component, x: int, y: int, todo: set<Entity>,
                 e: Entity, at: bool, e': Entity, t: ComponentType)
    requires e in todo && SameVitals(cur, before, e)
    requires Get(before, e, IsActorType).Some? && Get(before, e, HealthType).Some? && Get(before, e, PositionType).Some?
    requires at <==> Get(before, e, PositionType) == Some(Position(x, y))
    requires Get(cur, e', t) == SoakGet(before, rules, pool, x, y, todo, e', t)
    ensures Get(if at then PoolEffectOn(cur, rules, e, pool) else cur, e', t) == SoakGet(before, rules, pool, x, y, todo - {e}, e', t)
  {
    if at {
      PoolEffectLocal(cur, before, rules, e, pool, e', t);
      PoolEffectLocal(before, before, rules, e, pool, e', t);
    }
  }

  /** e is a pool entity: it holds GroundPool and Position. */
  predicate IsPool(tables: Tables, e: Entity) {
    Get(tables, e, GroundPoolType).Some? && Get(tables, e, GroundPoolType).value.GroundPool?
    && Get(tables, e, PositionType).Some? && Get(tables, e, PositionType).value.Position?
  }

  /** `pool.duration -= 1`: the same pool, one turn shorter. */
  function Older(pool: Component): (r: Component)
    requires pool.GroundPool?
    ensures r.GroundPool? && TypeOf(r) == GroundPoolType && r.duration == pool.duration - 1
    ensures r.effectType == pool.effectType && r.power == pool.power && r.name == pool.name && r.sourceEntity == pool.sourceEntity
  {
    GroundPool(pool.effectType, pool.power, pool.duration - 1, pool.name, pool.sourceEntity)
  }

  /** The record of pool p one turn older. */
  function Aged(tables: Tables, p: Entity): Component
    requires IsPool(tables, p)
  {
    Older(Get(tables, p, GroundPoolType).value)
  }

  /** The pool under an actor (IsActor, Health, Position), if a pool shares its tile. */
  ghost function PoolUnder(tables: Tables, e: Entity): (r: Option<Entity>)
    ensures r.Some? ==> Get(tables, e, PositionType).Some? && Get(tables, e, PositionType).value.Position?
    ensures r.Some? ==> ActorAt(tables, e, Get(tables, e, PositionType).value.x, Get(tables, e, PositionType).value.y)
    ensures r.Some? ==> IsPoolAt(tables, r.value, Get(tables, e, PositionType).value.x, Get(tables, e, PositionType).value.y)
  {
    var pos := Get(tables, e, PositionType);
    if pos.Some? && pos.value.Position? && ActorAt(tables, e, pos.value.x, pos.value.y)
       && exists p :: IsPoolAt(tables, p, pos.value.x, pos.value.y)
    then Some(var p :| IsPoolAt(tables, p, pos.value.x, pos.value.y); p)
    else None
  }

  /**
   * The first loop of GroundPoolSystem.update part way through: the pools
   * already visited (not in todo) are one turn older, and the actors
   * standing on them have taken their effect once.
   */
  ghost function PassGet(tables: Tables, rules: Rules, todo: set<Entity>, e: Entity, t: ComponentType): Option<Component> {
    if t == GroundPoolType then
      if IsPool(tables, e) && e !in todo then Some(Aged(tables, e)) else Get(tables, e, t)
    else if (t == HealthType || t == ManaType) && PoolUnder(tables, e).Some? && PoolUnder(tables, e).value !in todo then
      PoolEffectGet(tables, rules, e, Get(tables, PoolUnder(tables, e).value, GroundPoolType).value, t)
    else Get(tables, e, t)
  }

  /**
   * GroundPoolSystem.update, component by component: nothing changes unless
   * a turn has passed; then every actor standing on a pool takes that pool's
   * effect once, every pool is one turn older, and a pool whose duration
   * reaches zero is destroyed with all its components.
   */
  ghost function GroundTickGet(tables: Tables, rules: Rules, e: Entity, t: ComponentType): Option<Component> {
    if !TurnPassed(tables) then Get(tables, e, t)
    else if IsPool(tables, e) && Aged(tables, e).duration <= 0 then None
    else PassGet(tables, rules, {}, e, t)
  }

  /** A pool effect never adds or removes a Health record. */
  lemma PoolEffectKeepsHealth(tables: Tables, rules: Rules, e: Entity, pool: Component)
    ensures Get(PoolEffectOn(tables, rules, e, pool), e, HealthType).Some? == Get(tables, e, HealthType).Some?
  {
    var r := PoolChange(Get(tables, e, HealthType), Get(tables, e, ManaType), Get(tables, e, StatsType), Level(tables, e), rules, pool);
    if r.Some? {
      assert TypeOf(r.value) == HealthType || TypeOf(r.value) == ManaType;
    }
  }

  /** Under one pool per tile, the actors on a pool's tile are exactly those whose PoolUnder is that pool. */
  lemma UnderPool(tables: Tables, p: Entity, x: int, y: int, e: Entity)
    requires OnePoolPerTile(tables) && IsPoolAt(tables, p, x, y)
    ensures ActorAt(tables, e, x, y) <==> PoolUnder(tables, e) == Some(p)
  {
    UniquePool(tables, p, x, y);
  }

  /**
   * Visiting pool p on (pos.x, pos.y): soaking the actors on its tile and
   * ageing p moves every component one step along PassGet.
   */
  lemma PassStep(before: Tables, cur: Tables, soaked: Tables, rules: Rules, todo: set<Entity>,
                 p: Entity, pool: Component, pos: Component, e: Entity, t: ComponentType)
    requires p in todo && pool.GroundPool? && pos.Position?
    requires Get(before, p, GroundPoolType) == Some(pool) && Get(before, p, PositionType) == Some(pos)
    requires ActorAt(before, e, pos.x, pos.y) <==> PoolUnder(before, e) == Some(p)
    requires Get(cur, e, t) == PassGet(before, rules, todo, e, t)
    requires Get(cur, e, HealthType) == PassGet(before, rules, todo, e, HealthType)
    requires Get(cur, e, ManaType) == PassGet(before, rules, todo, e, ManaType)
    requires Get(cur, e, StatsType) == PassGet(before, rules, todo, e, StatsType)
    requires Get(cur, e, ExperienceType) == PassGet(before, rules, todo, e, ExperienceType)
    requires Get(cur, e, IsActorType) == PassGet(before, rules, todo, e, IsActorType)
    requires Get(cur, e, PositionType) == PassGet(before, rules, todo, e, PositionType)
    requires Get(soaked, e, t) ==
      (if ActorAt(cur, e, pos.x, pos.y) then PoolEffectGet(cur, rules, e, pool, t) else Get(cur, e, t))
    ensures Get(Put(soaked, p, Older(pool)), e, t) == PassGet(before, rules, todo - {p}, e, t)
  {
    if e == p && t == GroundPoolType {
      assert IsPool(before, p);
    } else if t == HealthType || t == ManaType {
      VitalStep(before, cur, soaked, rules, todo, p, pool, pos, e, t);
    } else {
      OtherStep(before, cur, soaked, rules, todo, p, pool, pos, e, t);
    }
  }

  /** PassStep for e's Health and Mana: they take the pool's effect when e stands on p. */
  lemma VitalStep(before: Tables, cur: Tables, soaked: Tables, rules: Rules, todo: set<Entity>,
                  p: Entity, pool: Component, pos: Component, e: Entity, t: ComponentType)
    requires p in todo && (t == HealthType || t == ManaType) && pos.Position?
    requires Get(before, p, GroundPoolType) == Some(pool)
    requires ActorAt(before, e, pos.x, pos.y) <==> PoolUnder(before, e) == Some(p)
    requires Get(cur, e, HealthType) == PassGet(before, rules, todo, e, HealthType)
    requires Get(cur, e, ManaType) == PassGet(before, rules, todo, e, ManaType)
    requires Get(cur, e, StatsType) == PassGet(before, rules, todo, e, StatsType)
    requires Get(cur, e, ExperienceType) == PassGet(before, rules, todo, e, ExperienceType)
    requires Get(cur, e, IsActorType) == PassGet(before, rules, todo, e, IsActorType)
    requires Get(cur, e, PositionType) == PassGet(before, rules, todo, e, PositionType)
    requires Get(soaked, e, t) ==
      (if ActorAt(cur, e, pos.x, pos.y) then PoolEffectGet(cur, rules, e, pool, t) else Get(cur, e, t))
    ensures Get(soaked, e, t) == PassGet(before, rules, todo - {p}, e, t)
  {
    if ActorAt(before, e, pos.x, pos.y) {
      assert SameVitals(cur, before, e);
      PoolEffectLocal(cur, before, rules, e, pool, e, t);
    } else {
      var under := PoolUnder(before, e);
      if under.Some? {
        PoolEffectKeepsHealth(before, rules, e, Get(before, under.value, GroundPoolType).value);
      }
      assert !ActorAt(cur, e, pos.x, pos.y);
    }
  }

  /** PassStep for every other component: soaking leaves it alone, and only p's GroundPool ages. */
  lemma OtherStep(before: Tables, cur: Tables, soaked: Tables, rules: Rules, todo: set<Entity>,
                  p: Entity, pool: Component, pos: Component, e: Entity, t: ComponentType)
    requires t != HealthType && t != ManaType && (t == GroundPoolType ==> e != p) && pos.Position?
    requires Get(cur, e, t) == PassGet(before, rules, todo, e, t)
    requires Get(soaked, e, t) ==
      (if ActorAt(cur, e, pos.x, pos.y) then PoolEffectGet(cur, rules, e, pool, t) else Get(cur, e, t))
    ensures Get(soaked, e, t) == PassGet(before, rules, todo - {p}, e, t)
  {
    PoolEffectLocal(cur, cur, rules, e, pool, e, t);
  }

  /**
   * The first loop of GroundPoolSystem.update: every pool soaks the actors
   * on its tile and ages by one turn; the pools whose duration reaches
   * zero are collected for removal.
   */
  /**
   * One pass of the first loop of GroundPoolSystem.update: soak the actors on
   * pool p's tile and age p, which moves every component one step along PassGet.
   */
  method VisitPool(w: World, rules: Rules, ghost before: Tables, ghost todo: set<Entity>, p: Entity)
    returns (expires: bool)
    requires w.Valid() && OnePoolPerTile(before) && p in todo
    requires Get(before, p, GroundPoolType).Some? && Get(before, p, PositionType).Some?
    requires forall e, t :: Get(w.components, e, t) == PassGet(before, rules, todo, e, t)
    modifies w`components
    ensures w.Valid()
    ensures forall e, t :: Get(w.components, e, t) == PassGet(before, rules, todo - {p}, e, t)
    ensures IsPool(before, p) && (expires <==> Aged(before, p).duration <= 0)
  {
    ghost var cur := w.components;
    var pool := w.ComponentFor(p, GroundPoolType);
    var pos := w.ComponentFor(p, PositionType);
    assert Get(before, p, GroundPoolType) == Some(pool) && Get(before, p, PositionType) == Some(pos);
    SoakActors(w, rules, pool, pos.x, pos.y);
    ghost var soaked := w.components;
    var aged := Older(pool);
    w.AddComponent(p, aged);
    expires := aged.duration <= 0;
    assert IsPoolAt(before, p, pos.x, pos.y);
    forall e, t ensures Get(w.components, e, t) == PassGet(before, rules, todo - {p}, e, t) {
      UnderPool(before, p, pos.x, pos.y, e);
      PassStep(before, cur, soaked, rules, todo, p, pool, pos, e, t);
    }
  }

  method PoolPass(w: World, rules: Rules) returns (expired: seq<Entity>)
    requires w.Valid() && OnePoolPerTile(w.components)
    modifies w`components
    ensures w.Valid()
    ensures forall e, t :: Get(w.components, e, t) == PassGet(old(w.components), rules, {}, e, t)
    ensures forall p :: p in expired <==> IsPool(old(w.components), p) && Aged(old(w.components), p).duration <= 0
  {
    ghost var before := w.components;
    var todo := w.GetEntitiesWith([GroundPoolType, PositionType]);
    expired := [];
    while todo != {}
      invariant w.Valid()
      invariant forall p | p in todo :: Get(before, p, GroundPoolType).Some? && Get(before, p, PositionType).Some?
      invariant forall e, t :: Get(w.components, e, t) == PassGet(before, rules, todo, e, t)
      invariant forall p :: p in expired <==> IsPool(before, p) && p !in todo && Aged(before, p).duration <= 0
      decreases todo
    {
      var p :| p in todo;
      var expires := VisitPool(w, rules, before, todo, p);
      if expires {
        expired := expired + [p];
      }
      todo := todo - {p};
    }
  }

  /** The second loop of GroundPoolSystem.update: _destroy_pool on every expired pool. */
  method DestroyPools(w: World, expired: seq<Entity>)
    requires w.Valid()
    modifies w`components
    ensures w.Valid()
    ensures forall e, t :: Get(w.components, e, t) == (if e in expired then None else Get(old(w.components), e, t))
  {
    for i := 0 to |expired|
      invariant w.Valid()
      invariant forall e, t :: Get(w.components, e, t) == (if e in expired[..i] then None else Get(old(w.components), e, t))
    {
      assert expired[..i + 1] == expired[..i] + [expired[i]];
      DestroyEntity(w, expired[i]);
    }
    assert expired[..|expired|] == expired;
  }

  /** GroundPoolSystem.update */
  method GroundPoolTick(w: World, rules: Rules)
    requires w.Valid() && OnePoolPerTile(w.components)
    modifies w`components
    ensures w.Valid()
    ensures forall e, t :: Get(w.components, e, t) == GroundTickGet(old(w.components), rules, e, t)
  {
    var turnConsumed := w.GetEntitiesWith([TurnConsumedType]) != {};
    if !turnConsumed {
      return;
    }
    var expired := PoolPass(w, rules);
    DestroyPools(w, expired);
  }

  /**
   * An actor standing on a pool, when a turn has passed, ends the update
   * with exactly that pool's effect applied once to its Health and Mana.
   */
  lemma SoakedOnce(tables: Tables, rules: Rules, e: Entity, p: Entity, x: int, y: int, t: ComponentType)
    requires OnePoolPerTile(tables) && TurnPassed(tables) && !IsPool(tables, e)
    requires ActorAt(tables, e, x, y) && IsPoolAt(tables, p, x, y) && (t == HealthType || t == ManaType)
    ensures GroundTickGet(tables, rules, e, t) == PoolEffectGet(tables, rules, e, Get(tables, p, GroundPoolType).value, t)
  {
    UnderPool(tables, p, x, y, e);
  }

  /** An entity on no pool's tile keeps every component but an aged or removed GroundPool of its own. */
  lemma DryUntouched(tables: Tables, rules: Rules, e: Entity, t: ComponentType)
    requires t != GroundPoolType && !IsPool(tables, e)
    requires forall p :: Get(tables, e, PositionType).Some? && Get(tables, e, PositionType).value.Position? ==>
      !IsPoolAt(tables, p, Get(tables, e, PositionType).value.x, Get(tables, e, PositionType).value.y)
    ensures GroundTickGet(tables, rules, e, t) == Get(tables, e, t)
  {
  }

  /**
   * A pool loses one turn of duration per update and is destroyed, with
   * all its components, once that reaches zero.
   */
  lemma PoolAges(tables: Tables, rules: Rules, p: Entity, t: ComponentType)
    requires TurnPassed(tables) && IsPool(tables, p)
    ensures var d := Get(tables, p, GroundPoolType).value.duration;
      GroundTickGet(tables, rules, p, GroundPoolType) == if d <= 1 then None else Some(Older(Get(tables, p, GroundPoolType).value))
    ensures Get(tables, p, GroundPoolType).value.duration <= 1 ==> GroundTickGet(tables, rules, p, t) == None
  {
  }

  /** GroundPoolSystem.update keeps the invariant create_pool maintains: at most one pool per tile. */
  lemma GroundTickKeepsOnePool(tables: Tables, rules: Rules, after: Tables)
    requires OnePoolPerTile(tables)
    requires forall e, t :: Get(after, e, t) == GroundTickGet(tables, rules, e, t)
    ensures OnePoolPerTile(after)
  {
    forall p, x, y | IsPoolAt(after, p, x, y) ensures IsPoolAt(tables, p, x, y) {
      assert Get(after, p, GroundPoolType) == GroundTickGet(tables, rules, p, GroundPoolType);
      assert Get(after, p, PositionType) == GroundTickGet(tables, rules, p, PositionType);
    }
  }
}
