/** Effect kinds and the effect record (effects/effect_types.py). */
module EffectTypes {
  import opened Wrappers

  /** The eight kinds of effect. */
  datatype EffectType = Heal | Damage | Poison | Regen | RestoreMana | DrainMana | StatBuff | StatDebuff

  /** The string value each enum member carries. */
  function Value(t: EffectType): string {
    match t
    case Heal => "heal"
    case Damage => "damage"
    case Poison => "poison"
    case Regen => "regen"
    case RestoreMana => "restore_mana"
    case DrainMana => "drain_mana"
    case StatBuff => "stat_buff"
    case StatDebuff => "stat_debuff"
  }

  /** `EffectType(s)`: the member whose value is `s`, or None where Python raises ValueError. */
  function FromValue(s: string): (r: Option<EffectType>)
    ensures r.Some? ==> Value(r.value) == s
    ensures r.None? ==> forall t: EffectType :: Value(t) != s
  {
    if s == "heal" then Some(Heal)
    else if s == "damage" then Some(Damage)
    else if s == "poison" then Some(Poison)
    else if s == "regen" then Some(Regen)
    else if s == "restore_mana" then Some(RestoreMana)
    else if s == "drain_mana" then Some(DrainMana)
    else if s == "stat_buff" then Some(StatBuff)
    else if s == "stat_debuff" then Some(StatDebuff)
    else None
  }

  /** Parsing a kind's own value gives the kind back. */
  lemma FromValueRoundTrip(t: EffectType)
    ensures FromValue(Value(t)) == Some(t)
  {
    match t
    case Heal =>
    case Damage =>
    case Poison =>
    case Regen =>
    case RestoreMana =>
    case DrainMana =>
    case StatBuff =>
    case StatDebuff =>
  }

  /**
   * One effect instance. `duration` 0 means instant; a positive duration is
   * the number of turns left. `radius` is carried but not used by the core.
   */
  datatype Effect = Effect(
    name: string,
    effectType: EffectType,
    power: int,
    statModifiers: map<string, int>,
    duration: int,
    radius: int,
    sourceEntity: Option<int>)
}
