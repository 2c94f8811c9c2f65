/** Derived combat numbers and levelling (ecs/stats_util.py). */
module StatsUtil {
  import opened Wrappers
  import opened Components
  import opened Ecs

  /** Attribute lookup by name on a Stats record; an unknown name is Python's AttributeError (None). */
  function StatField(stats: Component, name: string): (r: Option<int>)
    requires stats.Stats?
    ensures r.Some? <==> name in {"strength", "dexterity", "constitution", "intelligence", "wisdom", "charisma"}
  {
    if name == "strength" then Some(stats.strength)
    else if name == "dexterity" then Some(stats.dexterity)
    else if name == "constitution" then Some(stats.constitution)
    else if name == "intelligence" then Some(stats.intelligence)
    else if name == "wisdom" then Some(stats.wisdom)
    else if name == "charisma" then Some(stats.charisma)
    else None
  }

  /** `(v - 10) // 2`: Python's floor division by 2, which Dafny's `/` matches for a positive divisor. */
  function HalfAboveTen(v: int): (r: int)
    ensures 2 * r <= v - 10 < 2 * r + 2
  {
    (v - 10) / 2
  }

  /** `max(0, v - 10)` */
  function AboveTen(v: int): (r: int)
    ensures r >= 0 && r >= v - 10 && (r == 0 || r == v - 10)
  {
    if v - 10 > 0 then v - 10 else 0
  }

  /** get_damage_bonus as written: it reads `strentgh`, which a Stats record lacks, so it always raises. */
  function DamageBonusAsWritten(stats: Component): (r: Option<int>)
    requires stats.Stats?
    ensures r.None? <==> StatField(stats, "strentgh").None?
  {
    var v := StatField(stats, "strentgh");
    if v.Some? then Some(HalfAboveTen(v.value)) else None
  }

  /** get_damage_bonus as intended: (strength - 10) floor-div 2. */
  function DamageBonus(stats: Component): (r: int)
    requires stats.Stats?
    ensures StatField(stats, "strength") == Some(stats.strength)
    ensures 2 * r <= stats.strength - 10 < 2 * r + 2
  {
    HalfAboveTen(stats.strength)
  }

  /** Finding: for every Stats record the as-written damage bonus raises instead of returning the intended value. */
  lemma DamageBonusAsWrittenRaises(stats: Component)
    requires stats.Stats?
    ensures DamageBonusAsWritten(stats).None? && DamageBonusAsWritten(stats) != Some(DamageBonus(stats))
  {
  }

  /** get_accuracy_bonus: (dexterity - 10) floor-div 2. */
  function AccuracyBonus(stats: Component): (r: int)
    requires stats.Stats?
    ensures 2 * r <= stats.dexterity - 10 < 2 * r + 2
  {
    HalfAboveTen(stats.dexterity)
  }

  /** get_dodge_chance: max(0, dexterity - 10). */
  function DodgeChance(stats: Component): (r: int)
    requires stats.Stats?
    ensures r >= 0 && r >= stats.dexterity - 10 && (r == 0 || r == stats.dexterity - 10)
  {
    AboveTen(stats.dexterity)
  }

  /** get_magic_power: (intelligence - 10) floor-div 2. */
  function MagicPower(stats: Component): (r: int)
    requires stats.Stats?
    ensures 2 * r <= stats.intelligence - 10 < 2 * r + 2
  {
    HalfAboveTen(stats.intelligence)
  }

  /** get_magic_resist: max(0, wisdom - 10). */
  function MagicResist(stats: Component): (r: int)
    requires stats.Stats?
    ensures r >= 0 && r >= stats.wisdom - 10 && (r == 0 || r == stats.wisdom - 10)
  {
    AboveTen(stats.wisdom)
  }

  /** The floor-div bonuses never fall as the stat rises. */
  lemma HalfAboveTenMonotone(a: int, b: int)
    requires a <= b
    ensures HalfAboveTen(a) <= HalfAboveTen(b)
  {
  }

  /** The max(0, ...) chances never fall as the stat rises. */
  lemma AboveTenMonotone(a: int, b: int)
    requires a <= b
    ensures AboveTen(a) <= AboveTen(b)
  {
  }

  /**
   * check_level_up. `Experience.xp_for_next_level` belongs to a class that
   * is not part of this model and is passed in as a function of the record.
   */
  function CheckLevelUp(exp: Component, xpForNextLevel: Component -> int): (r: bool)
    requires exp.Experience?
    ensures r <==> exp.currentXp >= xpForNextLevel(exp)
  {
    exp.currentXp >= xpForNextLevel(exp)
  }

  /**
   * Readiness only grows with experience: of two records the threshold
   * function treats alike, the one with more points is ready whenever the
   * other is, and a record exactly at its threshold is ready.
   */
  lemma LevelUpMonotone(exp1: Component, exp2: Component, xpForNextLevel: Component -> int)
    requires exp1.Experience? && exp2.Experience? && xpForNextLevel(exp1) == xpForNextLevel(exp2)
    requires exp1.currentXp <= exp2.currentXp
    ensures CheckLevelUp(exp1, xpForNextLevel) ==> CheckLevelUp(exp2, xpForNextLevel)
    ensures exp1.currentXp == xpForNextLevel(exp1) ==> CheckLevelUp(exp1, xpForNextLevel)
    ensures exp2.currentXp < xpForNextLevel(exp2) ==> !CheckLevelUp(exp1, xpForNextLevel)
  {
  }

  /** The one message apply_level_up returns: the new level. */
  datatype LevelMessage = GainedLevel(level: int)

  /**
   * apply_level_up on the entity's Experience record: the level goes up by
   * exactly one, the experience points and every other component (Stats
   * included) stay, and a single message names the new level.
   */
  method ApplyLevelUp(w: World, e: Entity) returns (messages: seq<LevelMessage>)
    requires w.Valid() && Get(w.components, e, ExperienceType).Some?
    modifies w`components
    ensures w.Valid()
    ensures var exp := Get(old(w.components), e, ExperienceType).value;
      w.components == Put(old(w.components), e, Experience(exp.level + 1, exp.currentXp))
      && messages == [GainedLevel(exp.level + 1)]
  {
    var exp := w.ComponentFor(e, ExperienceType);
    w.AddComponent(e, Experience(exp.level + 1, exp.currentXp));
    messages := [GainedLevel(exp.level + 1)];
  }

  /** After a level-up the entity's level is one higher, its experience and Stats are untouched. */
  lemma LevelUpRaisesLevel(tables: Tables, e: Entity)
    requires Get(tables, e, ExperienceType).Some? && Get(tables, e, ExperienceType).value.Experience?
    ensures var exp := Get(tables, e, ExperienceType).value;
      var after := Put(tables, e, Experience(exp.level + 1, exp.currentXp));
      Get(after, e, ExperienceType).value.level == exp.level + 1
      && Get(after, e, ExperienceType).value.currentXp == exp.currentXp
      && Get(after, e, StatsType) == Get(tables, e, StatsType)
  {
    assert TypeOf(Experience(0, 0)) == ExperienceType;
  }
}
