/** Applying one effect to one entity (effects/apply.py). */
module Apply {
  import opened Wrappers
  import opened EffectTypes
  import opened Components
  import opened Ecs
  import opened EffectComponents

  /** The report of an application, one constructor per message the source returns. */
  datatype Outcome =
    | NoHealth
    | NoMana
    | RestoredHp(healed: int)
    | AlreadyFullHealth
    | Dealt(damage: int)
    | RestoredMp(restored: int)
    | AlreadyFullMana
    | Drained(drained: int)
    | PoisonDealt(damage: int)
    | Regenerated(healed: int)
    | ModifiedStats(mods: map<string, int>)
    | NoStatModifiers
    | AppliedFor(name: string, turns: int)

  /** `exp.level if exp else 1` */
  function Level(tables: Tables, e: Entity): int {
    var exp := Get(tables, e, ExperienceType);
    if exp.Some? && exp.value.Experience? then exp.value.level else 1
  }

  /** The hp ceiling: base_max_hp without Stats, else max_hp(stats, level). */
  function HpCap(tables: Tables, rules: Rules, e: Entity, health: Component): int {
    match Get(tables, e, StatsType)
    case Some(stats) => rules.maxHp(health, stats, Level(tables, e))
    case None => if health.Health? then health.baseMaxHp else 0
  }

  /** The mp ceiling: base_max_mp without Stats, else max_mp(stats, level). */
  function MpCap(tables: Tables, rules: Rules, e: Entity, mana: Component): int {
    match Get(tables, e, StatsType)
    case Some(stats) => rules.maxMp(mana, stats, Level(tables, e))
    case None => if mana.Mana? then mana.baseMaxMp else 0
  }

  /** The hp kinds (heal, regen, damage, poison) of _apply_instant_effect. */
  function InstantHp(tables: Tables, rules: Rules, target: Entity, effect: Effect): (Tables, Outcome)
    requires effect.effectType in {Heal, Regen, Damage, Poison}
  {
    var health := Get(tables, target, HealthType);
    if health.None? || !health.value.Health? then (tables, NoHealth)
    else
      var hp, base := health.value.currentHp, health.value.baseMaxHp;
      if effect.effectType in {Heal, Regen} then
        var newHp := Min(hp + effect.power, HpCap(tables, rules, target, Health(hp, base)));
        var healed := newHp - hp;
        (Put(tables, target, Health(newHp, base)),
         if effect.effectType == Regen then Regenerated(healed)
         else if healed > 0 then RestoredHp(healed) else AlreadyFullHealth)
      else
        (Put(tables, target, Health(hp - effect.power, base)),
         if effect.effectType == Damage then Dealt(effect.power) else PoisonDealt(effect.power))
  }

  /** The mp kinds (restore, drain) of _apply_instant_effect. */
  function InstantMp(tables: Tables, rules: Rules, target: Entity, effect: Effect): (Tables, Outcome)
    requires effect.effectType in {RestoreMana, DrainMana}
  {
    var mana := Get(tables, target, ManaType);
    if mana.None? || !mana.value.Mana? then (tables, NoMana)
    else
      var mp, base := mana.value.currentMp, mana.value.baseMaxMp;
      if effect.effectType == RestoreMana then
        var newMp := Min(mp + effect.power, MpCap(tables, rules, target, Mana(mp, base)));
        var restored := newMp - mp;
        (Put(tables, target, Mana(newMp, base)), if restored > 0 then RestoredMp(restored) else AlreadyFullMana)
      else
        var newMp := Max(mp - effect.power, 0);
        (Put(tables, target, Mana(newMp, base)), Drained(mp - newMp))
  }

  /**
   * _apply_instant_effect: the new tables and the report. Healing clamps to
   * the cap, damage and poison subtract with no floor, mana drain floors at
   * zero, and stat changes touch no component.
   */
  function Instant(tables: Tables, rules: Rules, target: Entity, effect: Effect): (Tables, Outcome) {
    if effect.effectType in {Heal, Regen, Damage, Poison} then InstantHp(tables, rules, target, effect)
    else if effect.effectType in {RestoreMana, DrainMana} then InstantMp(tables, rules, target, effect)
    else (tables, if effect.statModifiers != map[] then ModifiedStats(effect.statModifiers) else NoStatModifiers)
  }

  /** apply_effect_to_entity: duration 0 is instant, any other duration queues the effect. */
  function ApplyEffect(tables: Tables, rules: Rules, target: Entity, effect: Effect): (Tables, Outcome) {
    if effect.duration == 0 then Instant(tables, rules, target, effect)
    else
      var active := Get(tables, target, ActiveEffectsType);
      var effects := if active.Some? && active.value.ActiveEffects? then active.value.effects else [];
      (Put(tables, target, ActiveEffects(AddEffect(effects, effect))), AppliedFor(effect.name, effect.duration))
  }

  /**
   * An instant effect writes at most the target's Health or Mana: Health
   * for the hp kinds, Mana for the mp kinds, nothing for the stat kinds.
   */
  lemma InstantFrame(tables: Tables, rules: Rules, target: Entity, effect: Effect, e: Entity, t: ComponentType)
    requires WellTyped(tables)
    ensures var (r, _) := Instant(tables, rules, target, effect);
      WellTyped(r)
      && (Get(r, e, t) != Get(tables, e, t) ==>
            e == target
            && (t == HealthType ==> effect.effectType in {Heal, Regen, Damage, Poison})
            && (t == ManaType ==> effect.effectType in {RestoreMana, DrainMana})
            && t in {HealthType, ManaType})
  {
    if effect.effectType in {Heal, Regen, Damage, Poison} {
      assert Instant(tables, rules, target, effect) == InstantHp(tables, rules, target, effect);
      InstantHpFrame(tables, rules, target, effect, e, t);
    } else if effect.effectType in {RestoreMana, DrainMana} {
      assert Instant(tables, rules, target, effect) == InstantMp(tables, rules, target, effect);
      InstantMpFrame(tables, rules, target, effect, e, t);
    }
  }

  /** The hp kinds write at most the target's Health. */
  lemma InstantHpFrame(tables: Tables, rules: Rules, target: Entity, effect: Effect, e: Entity, t: ComponentType)
    requires WellTyped(tables) && effect.effectType in {Heal, Regen, Damage, Poison}
    ensures var r := InstantHp(tables, rules, target, effect).0;
      WellTyped(r) && (Get(r, e, t) != Get(tables, e, t) ==> e == target && t == HealthType)
  {
    var health := Get(tables, target, HealthType);
    if health.Some? && health.value.Health? {
      var hp, base := health.value.currentHp, health.value.baseMaxHp;
      var newHp := if effect.effectType in {Heal, Regen} then Min(hp + effect.power, HpCap(tables, rules, target, Health(hp, base)))
                   else hp - effect.power;
      assert InstantHp(tables, rules, target, effect).0 == Put(tables, target, Health(newHp, base));
      PutWellTyped(tables, target, Health(newHp, base));
    }
  }

  /** The mp kinds write at most the target's Mana. */
  lemma InstantMpFrame(tables: Tables, rules: Rules, target: Entity, effect: Effect, e: Entity, t: ComponentType)
    requires WellTyped(tables) && effect.effectType in {RestoreMana, DrainMana}
    ensures var r := InstantMp(tables, rules, target, effect).0;
      WellTyped(r) && (Get(r, e, t) != Get(tables, e, t) ==> e == target && t == ManaType)
  {
    var mana := Get(tables, target, ManaType);
    if mana.Some? && mana.value.Mana? {
      var mp, base := mana.value.currentMp, mana.value.baseMaxMp;
      var newMp := if effect.effectType == RestoreMana then Min(mp + effect.power, MpCap(tables, rules, target, Mana(mp, base)))
                   else Max(mp - effect.power, 0);
      assert InstantMp(tables, rules, target, effect).0 == Put(tables, target, Mana(newMp, base));
      PutWellTyped(tables, target, Mana(newMp, base));
    }
  }

  /**
   * The hp rules: heal and regen set hp to min(hp + power, cap); damage and
   * poison subtract the power with no floor; heal reports the gain when it
   * is positive and "already at full health" otherwise.
   */
  lemma InstantHpRule(tables: Tables, rules: Rules, target: Entity, effect: Effect, hp: int, base: int)
    requires WellTyped(tables) && Get(tables, target, HealthType) == Some(Health(hp, base))
    ensures var (r, out) := Instant(tables, rules, target, effect);
      var cap := HpCap(tables, rules, target, Health(hp, base));
      (effect.effectType in {Heal, Regen} ==> Get(r, target, HealthType) == Some(Health(Min(hp + effect.power, cap), base)))
      && (effect.effectType == Heal ==>
            out == if Min(hp + effect.power, cap) > hp then RestoredHp(Min(hp + effect.power, cap) - hp) else AlreadyFullHealth)
      && (effect.effectType in {Damage, Poison} ==> Get(r, target, HealthType) == Some(Health(hp - effect.power, base)))
  {
  }

  /** Without Stats the heal cap is base_max_hp; with Stats it is max_hp(stats, level), level 1 without Experience. */
  lemma HpCapRule(tables: Tables, rules: Rules, e: Entity, hp: int, base: int)
    requires WellTyped(tables)
    ensures Get(tables, e, StatsType).None? ==> HpCap(tables, rules, e, Health(hp, base)) == base
    ensures Get(tables, e, StatsType).Some? && Get(tables, e, ExperienceType).None? ==>
      HpCap(tables, rules, e, Health(hp, base)) == rules.maxHp(Health(hp, base), Get(tables, e, StatsType).value, 1)
  {
  }

  /**
   * The mp rules: restore sets mp to min(mp + power, cap); drain sets it to
   * max(mp - power, 0) and reports the difference, which is never negative
   * when the power is not.
   */
  lemma InstantMpRule(tables: Tables, rules: Rules, target: Entity, effect: Effect, mp: int, base: int)
    requires WellTyped(tables) && Get(tables, target, ManaType) == Some(Mana(mp, base))
    ensures var (r, out) := Instant(tables, rules, target, effect);
      (effect.effectType == RestoreMana ==>
         Get(r, target, ManaType) == Some(Mana(Min(mp + effect.power, MpCap(tables, rules, target, Mana(mp, base))), base)))
      && (effect.effectType == DrainMana ==>
            var newMp := Max(mp - effect.power, 0);
            Get(r, target, ManaType) == Some(Mana(newMp, base)) && out == Drained(mp - newMp)
            && newMp >= 0 && (effect.power >= 0 && mp >= 0 ==> 0 <= mp - newMp <= effect.power))
  {
  }

  /** A target without the needed component is reported and left alone. */
  lemma InstantMissing(tables: Tables, rules: Rules, target: Entity, effect: Effect)
    requires WellTyped(tables)
    ensures var (r, out) := Instant(tables, rules, target, effect);
      (Get(tables, target, HealthType).None? && effect.effectType in {Heal, Regen, Damage, Poison} ==> r == tables && out == NoHealth)
      && (Get(tables, target, ManaType).None? && effect.effectType in {RestoreMana, DrainMana} ==> r == tables && out == NoMana)
      && (effect.effectType in {StatBuff, StatDebuff} ==> r == tables)
  {
  }

  /**
   * A non-zero duration queues the effect at the end of the target's list
   * (a new list when it had none) and changes nothing else, hp and mp included.
   */
  lemma DurationQueues(tables: Tables, rules: Rules, target: Entity, effect: Effect)
    requires WellTyped(tables) && effect.duration != 0
    ensures var (r, out) := ApplyEffect(tables, rules, target, effect);
      var before := if Get(tables, target, ActiveEffectsType).Some? then Get(tables, target, ActiveEffectsType).value.effects else [];
      Get(r, target, ActiveEffectsType) == Some(ActiveEffects(before + [effect]))
      && (forall e, t | e != target || t != ActiveEffectsType :: Get(r, e, t) == Get(tables, e, t))
      && out == AppliedFor(effect.name, effect.duration)
  {
  }

  /** The hp branches of _apply_instant_effect on the world. */
  method ApplyInstantHp(w: World, rules: Rules, target: Entity, effect: Effect) returns (out: Outcome)
    requires w.Valid() && effect.effectType in {Heal, Regen, Damage, Poison}
    modifies w`components
    ensures w.Valid()
    ensures (w.components, out) == InstantHp(old(w.components), rules, target, effect)
  {
    var health := w.GetComponent(target, HealthType);
    if health.None? {
      return NoHealth;
    }
    var oldHp := health.value.currentHp;
    if effect.effectType in {Heal, Regen} {
      var cap := HpCap(w.components, rules, target, health.value);
      var newHp := Min(oldHp + effect.power, cap);
      w.AddComponent(target, Health(newHp, health.value.baseMaxHp));
      var healed := newHp - oldHp;
      if effect.effectType == Regen {
        out := Regenerated(healed);
      } else if healed > 0 {
        out := RestoredHp(healed);
      } else {
        out := AlreadyFullHealth;
      }
    } else {
      w.AddComponent(target, Health(oldHp - effect.power, health.value.baseMaxHp));
      out := if effect.effectType == Damage then Dealt(effect.power) else PoisonDealt(effect.power);
    }
  }

  /** The mp branches of _apply_instant_effect on the world. */
  method ApplyInstantMp(w: World, rules: Rules, target: Entity, effect: Effect) returns (out: Outcome)
    requires w.Valid() && effect.effectType in {RestoreMana, DrainMana}
    modifies w`components
    ensures w.Valid()
    ensures (w.components, out) == InstantMp(old(w.components), rules, target, effect)
  {
    var mana := w.GetComponent(target, ManaType);
    if mana.None? {
      return NoMana;
    }
    var oldMp := mana.value.currentMp;
    if effect.effectType == RestoreMana {
      var cap := MpCap(w.components, rules, target, mana.value);
      var newMp := Min(oldMp + effect.power, cap);
      w.AddComponent(target, Mana(newMp, mana.value.baseMaxMp));
      var restored := newMp - oldMp;
      out := if restored > 0 then RestoredMp(restored) else AlreadyFullMana;
    } else {
      var newMp := Max(oldMp - effect.power, 0);
      w.AddComponent(target, Mana(newMp, mana.value.baseMaxMp));
      out := Drained(oldMp - newMp);
    }
  }

  /** The instant path, as _apply_instant_effect runs it on the world. */
  method ApplyInstant(w: World, rules: Rules, target: Entity, effect: Effect) returns (out: Outcome)
    requires w.Valid()
    modifies w`components
    ensures w.Valid()
    ensures (w.components, out) == Instant(old(w.components), rules, target, effect)
  {
    if effect.effectType in {Heal, Regen, Damage, Poison} {
      out := ApplyInstantHp(w, rules, target, effect);
    } else if effect.effectType in {RestoreMana, DrainMana} {
      out := ApplyInstantMp(w, rules, target, effect);
    } else {
      out := if effect.statModifiers != map[] then ModifiedStats(effect.statModifiers) else NoStatModifiers;
    }
  }

  /** apply_effect_to_entity on the world. */
  method ApplyToEntity(w: World, rules: Rules, target: Entity, effect: Effect) returns (out: Outcome)
    requires w.Valid()
    modifies w`components
    ensures w.Valid()
    ensures (w.components, out) == ApplyEffect(old(w.components), rules, target, effect)
  {
    if effect.duration == 0 {
      out := ApplyInstant(w, rules, target, effect);
      return;
    }
    var active := w.GetComponent(target, ActiveEffectsType);
    if active.None? {
      w.AddComponent(target, ActiveEffects([]));
      active := Some(ActiveEffects([]));
    }
    PutTwice(old(w.components), target, ActiveEffects([]), ActiveEffects(AddEffect(active.value.effects, effect)));
    w.AddComponent(target, ActiveEffects(AddEffect(active.value.effects, effect)));
    out := AppliedFor(effect.name, effect.duration);
  }
}
