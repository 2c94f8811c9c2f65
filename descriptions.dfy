/** Narrative descriptions of actors from their state (ui/descriptions.py). */
module Descriptions {
  import opened Wrappers
  import opened Components
  import opened Ecs
  import opened Apply

  const HighThreshold := 14
  const LowThreshold := 7

  /** " ".join(parts) */
  function Join(parts: seq<string>): (r: string)
    ensures |parts| >= 1 ==> |r| >= |parts[0]| && r[..|parts[0]|] == parts[0]
    ensures |parts| == 1 ==> r == parts[0]
    ensures |parts| == 0 ==> r == ""
  {
    if |parts| == 0 then ""
    else if |parts| == 1 then parts[0]
    else parts[0] + " " + Join(parts[1..])
  }

  /** Joining a list with one more part puts a space and that part at the end. */
  lemma {:induction false} JoinAppend(parts: seq<string>, last: string)
    requires |parts| >= 1
    ensures Join(parts + [last]) == Join(parts) + " " + last
  {
    if |parts| > 1 {
      assert (parts + [last])[1..] == parts[1..] + [last];
      JoinAppend(parts[1..], last);
    } else {
      assert (parts + [last])[1..] == [last];
    }
  }

  /**
   * _describe_health: None for a non-positive maximum, else the band of
   * current/max as a percentage; the percentage is compared exactly, as
   * 100 * current against threshold * max.
   */
  function DescribeHealth(currentHp: int, maxHp: int): (r: Option<string>)
    ensures r.None? <==> maxHp <= 0
    ensures maxHp > 0 ==> (r == Some("It appears to be dead.") <==> currentHp <= 0)
    ensures maxHp > 0 ==> (r == Some("It appears to be in perfect health.") <==> currentHp >= maxHp)
  {
    if maxHp <= 0 then None
    else if 100 * currentHp >= 100 * maxHp then Some("It appears to be in perfect health.")
    else if 100 * currentHp >= 75 * maxHp then Some("It has a few minor wounds.")
    else if 100 * currentHp >= 50 * maxHp then Some("It appears to be wounded.")
    else if 100 * currentHp >= 25 * maxHp then Some("It is badly wounded.")
    else if currentHp > 0 then Some("It looks close to death.")
    else Some("It appears to be dead.")
  }

  /** How healthy a health sentence says the actor is: 5 for perfect down to 0 for dead. */
  function HealthRank(d: Option<string>): int {
    match d
    case Some("It appears to be in perfect health.") => 5
    case Some("It has a few minor wounds.") => 4
    case Some("It appears to be wounded.") => 3
    case Some("It is badly wounded.") => 2
    case Some("It looks close to death.") => 1
    case _ => 0
  }

  /** More hit points never read as worse health. */
  lemma HealthBandsMonotone(hp1: int, hp2: int, maxHp: int)
    requires maxHp > 0 && hp1 <= hp2
    ensures HealthRank(DescribeHealth(hp1, maxHp)) <= HealthRank(DescribeHealth(hp2, maxHp))
  {
  }

  /** _describe_mana: None for a non-positive maximum or below a quarter; three bands above. */
  function DescribeMana(currentMp: int, maxMp: int): (r: Option<string>)
    ensures r.None? <==> maxMp <= 0 || 100 * currentMp < 25 * maxMp
    ensures maxMp > 0 ==> (r == Some("Magical energy crackles around it.") <==> 100 * currentMp >= 75 * maxMp)
  {
    if maxMp <= 0 then None
    else if 100 * currentMp >= 75 * maxMp then Some("Magical energy crackles around it.")
    else if 100 * currentMp >= 50 * maxMp then Some("A faint magical aura surrounds it.")
    else if 100 * currentMp >= 25 * maxMp then Some("Its magical presence feels diminished.")
    else None
  }

  /** The remarks _describe_stats can make. */
  datatype Observation =
    | VeryStrong | PhysicallyWeak | FluidGrace | Clumsy | Hardy
    | IntelligentGleam | DullVacant | KnowingEyes | CommandingPresence

  /** The sentence each remark is written as. */
  function Sentence(o: Observation): string {
    match o
    case VeryStrong => "It looks very strong."
    case PhysicallyWeak => "It looks physically weak."
    case FluidGrace => "It moves with fluid grace."
    case Clumsy => "It appears clumsy."
    case Hardy => "It looks hardy and resilient."
    case IntelligentGleam => "It has an intelligent gleam in its eyes."
    case DullVacant => "It has a dull, vacant look."
    case KnowingEyes => "It watches you with knowing eyes."
    case CommandingPresence => "It has a commanding presence."
  }

  function Sentences(obs: seq<Observation>): (r: seq<string>)
    ensures |r| == |obs| && forall i | 0 <= i < |obs| :: r[i] == Sentence(obs[i])
  {
    seq(|obs|, i requires 0 <= i < |obs| => Sentence(obs[i]))
  }

  /** The remark one stat earns: the high one from 14 up, else the low one (if it has one) at 7 or less. */
  function Remark(value: int, high: Observation, low: Option<Observation>): (r: seq<Observation>)
    ensures |r| <= 1
    ensures value >= HighThreshold ==> r == [high]
    ensures value < HighThreshold && value <= LowThreshold && low.Some? ==> r == [low.value]
    ensures LowThreshold < value < HighThreshold || (value < HighThreshold && low.None?) ==> r == []
  {
    if value >= HighThreshold then [high]
    else if value <= LowThreshold && low.Some? then [low.value]
    else []
  }

  /** The remarks on the first n stats, in the order strength, dexterity, constitution, intelligence, wisdom, charisma. */
  function ObservationsUpTo(stats: Component, n: nat): seq<Observation>
    requires stats.Stats? && n <= 6
  {
    if n == 0 then [] else
    ObservationsUpTo(stats, n - 1) +
      (if n == 1 then Remark(stats.strength, VeryStrong, Some(PhysicallyWeak))
       else if n == 2 then Remark(stats.dexterity, FluidGrace, Some(Clumsy))
       else if n == 3 then Remark(stats.constitution, Hardy, None)
       else if n == 4 then Remark(stats.intelligence, IntelligentGleam, Some(DullVacant))
       else if n == 5 then Remark(stats.wisdom, KnowingEyes, None)
       else Remark(stats.charisma, CommandingPresence, None))
  }

  /** Every observation the stats call for. */
  function Observations(stats: Component): seq<Observation>
    requires stats.Stats?
  {
    ObservationsUpTo(stats, 6)
  }

  /** The checks of _describe_stats, stat by stat, each adding its remark at the end. */
  method CollectObservations(stats: Component) returns (observations: seq<Observation>)
    requires stats.Stats?
    ensures observations == Observations(stats)
  {
    observations := [];
    if stats.strength >= HighThreshold {
      observations := observations + [VeryStrong];
    } else if stats.strength <= LowThreshold {
      observations := observations + [PhysicallyWeak];
    }
    assert observations == ObservationsUpTo(stats, 1);
    if stats.dexterity >= HighThreshold {
      observations := observations + [FluidGrace];
    } else if stats.dexterity <= LowThreshold {
      observations := observations + [Clumsy];
    }
    assert observations == ObservationsUpTo(stats, 2);
    if stats.constitution >= HighThreshold {
      observations := observations + [Hardy];
    }
    assert observations == ObservationsUpTo(stats, 3);
    if stats.intelligence >= HighThreshold {
      observations := observations + [IntelligentGleam];
    } else if stats.intelligence <= LowThreshold {
      observations := observations + [DullVacant];
    }
    assert observations == ObservationsUpTo(stats, 4);
    if stats.wisdom >= HighThreshold {
      observations := observations + [KnowingEyes];
    }
    assert observations == ObservationsUpTo(stats, 5);
    if stats.charisma >= HighThreshold {
      observations := observations + [CommandingPresence];
    }
  }

  /** _describe_stats: the first two observations' sentences joined, None when there is none. */
  method DescribeStats(stats: Component) returns (r: Option<string>)
    requires stats.Stats?
    ensures r.None? <==> Observations(stats) == []
    ensures r.Some? ==> r.value == Join(Sentences(Observations(stats)[..Min(2, |Observations(stats)|)]))
  {
    var observations := CollectObservations(stats);
    if |observations| > 2 {
      observations := observations[..2];
    }
    if |observations| > 0 {
      return Some(Join(Sentences(observations)));
    }
    return None;
  }

  /** At most two observations are kept: the remark is one sentence, or the first two joined by a space. */
  lemma StatsAtMostTwo(stats: Component)
    requires stats.Stats?
    ensures var obs := Observations(stats);
      |obs| >= 2 ==> Join(Sentences(obs[..Min(2, |obs|)])) == Sentence(obs[0]) + " " + Sentence(obs[1])
  {
    var obs := Observations(stats);
    if |obs| >= 2 {
      assert Sentences(obs[..2])[1..] == [Sentence(obs[1])];
    }
  }

  /** Only strength, dexterity and intelligence have a low remark: a low constitution, wisdom or charisma says nothing. */
  lemma OnlyThreeLowRemarks(stats: Component)
    requires stats.Stats?
    requires stats.constitution < HighThreshold && stats.wisdom < HighThreshold && stats.charisma < HighThreshold
    ensures Observations(stats) ==
      Observations(stats.(constitution := LowThreshold + 1, wisdom := LowThreshold + 1, charisma := LowThreshold + 1))
  {
    var average := stats.(constitution := LowThreshold + 1, wisdom := LowThreshold + 1, charisma := LowThreshold + 1);
    assert ObservationsUpTo(stats, 1) == ObservationsUpTo(average, 1);
    assert ObservationsUpTo(stats, 2) == ObservationsUpTo(average, 2);
    assert ObservationsUpTo(stats, 3) == ObservationsUpTo(average, 3);
    assert ObservationsUpTo(stats, 4) == ObservationsUpTo(average, 4);
    assert ObservationsUpTo(stats, 5) == ObservationsUpTo(average, 5);
  }

  /** Unremarkable stats (8 to 13) give no observation at all. */
  lemma AverageStatsSayNothing(stats: Component)
    requires stats.Stats?
    requires LowThreshold < stats.strength < HighThreshold && LowThreshold < stats.dexterity < HighThreshold
    requires stats.constitution < HighThreshold && LowThreshold < stats.intelligence < HighThreshold
    requires stats.wisdom < HighThreshold && stats.charisma < HighThreshold
    ensures Observations(stats) == []
  {
    assert ObservationsUpTo(stats, 1) == [];
    assert ObservationsUpTo(stats, 2) == [];
    assert ObservationsUpTo(stats, 3) == [];
    assert ObservationsUpTo(stats, 4) == [];
    assert ObservationsUpTo(stats, 5) == [];
  }

  /** What generate_actor_description demands: the entity is drawable. */
  predicate Describable(tables: Tables, e: Entity) {
    Get(tables, e, DrawableType).Some? && Get(tables, e, DrawableType).value.Drawable?
  }

  /** The opening sentence: the Description text, or "A {name}." */
  function Opening(tables: Tables, e: Entity): string
    requires Describable(tables, e)
  {
    var description := Get(tables, e, DescriptionType);
    if description.Some? && description.value.Description? then description.value.text
    else "A " + Get(tables, e, DrawableType).value.name + "."
  }

  /** The optional sentence as a list of zero or one sentences. */
  function Listed(s: Option<string>): seq<string> {
    if s.Some? then [s.value] else []
  }

  /** The stats sentence: present for an actor with Stats that earns a remark. */
  function StatLine(tables: Tables, e: Entity): Option<string> {
    var stats := Get(tables, e, StatsType);
    if stats.None? || !stats.value.Stats? then None
    else
      var obs := Observations(stats.value);
      if obs == [] then None else Some(Join(Sentences(obs[..Min(2, |obs|)])))
  }

  /** The mana sentence: only for an actor with Mana and Stats, against max_mp(stats, level). */
  function ManaLine(tables: Tables, rules: Rules, e: Entity): Option<string> {
    var stats := Get(tables, e, StatsType);
    var mana := Get(tables, e, ManaType);
    if stats.None? || mana.None? || !mana.value.Mana? then None
    else DescribeMana(mana.value.currentMp, rules.maxMp(mana.value, stats.value, Level(tables, e)))
  }

  /** The health sentence: only for an actor with Health and Stats, against max_hp(stats, level). */
  function HealthLine(tables: Tables, rules: Rules, e: Entity): Option<string> {
    var stats := Get(tables, e, StatsType);
    var health := Get(tables, e, HealthType);
    if stats.None? || health.None? || !health.value.Health? then None
    else DescribeHealth(health.value.currentHp, rules.maxHp(health.value, stats.value, Level(tables, e)))
  }

  /**
   * The sentences of generate_actor_description: the opening, then the stat
   * observations, the mana sentence and the health sentence.
   */
  function ActorSentences(tables: Tables, rules: Rules, e: Entity): seq<string>
    requires Describable(tables, e)
  {
    [Opening(tables, e)] + Listed(StatLine(tables, e)) + Listed(ManaLine(tables, rules, e)) + Listed(HealthLine(tables, rules, e))
  }

  method GenerateActorDescription(w: World, rules: Rules, e: Entity) returns (text: string)
    requires w.Valid() && Describable(w.components, e)
    ensures text == Join(ActorSentences(w.components, rules, e))
  {
    var description := w.GetComponent(e, DescriptionType);
    var drawable := w.ComponentFor(e, DrawableType);
    var sentences: seq<string>;
    if description.Some? {
      sentences := [description.value.text];
    } else {
      sentences := ["A " + drawable.name + "."];
    }
    ghost var opening := Opening(w.components, e);
    assert sentences == [opening];
    var health := w.GetComponent(e, HealthType);
    var mana := w.GetComponent(e, ManaType);
    var stats := w.GetComponent(e, StatsType);
    assert health.Some? ==> health.value.Health?;
    assert mana.Some? ==> mana.value.Mana?;
    assert stats.Some? ==> stats.value.Stats?;
    var level := Level(w.components, e);
    ghost var statLine, manaLine, healthLine :=
      StatLine(w.components, e), ManaLine(w.components, rules, e), HealthLine(w.components, rules, e);
    if stats.Some? {
      var statDesc := DescribeStats(stats.value);
      if statDesc.Some? {
        sentences := sentences + [statDesc.value];
      }
    }
    assert sentences == [opening] + Listed(statLine);
    if mana.Some? && stats.Some? {
      var manaDesc := DescribeMana(mana.value.currentMp, rules.maxMp(mana.value, stats.value, level));
      if manaDesc.Some? {
        sentences := sentences + [manaDesc.value];
      }
    }
    assert sentences == [opening] + Listed(statLine) + Listed(manaLine);
    if health.Some? && stats.Some? {
      var healthDesc := DescribeHealth(health.value.currentHp, rules.maxHp(health.value, stats.value, level));
      if healthDesc.Some? {
        sentences := sentences + [healthDesc.value];
      }
    }
    assert sentences == [opening] + Listed(statLine) + Listed(manaLine) + Listed(healthLine);
    text := Join(sentences);
  }

  /**
   * The description opens with the Description text or "A {name}.", and an
   * actor with Stats, Health and a positive hp maximum ends with its health sentence.
   */
  lemma DescriptionShape(tables: Tables, rules: Rules, e: Entity)
    requires Describable(tables, e)
    ensures var text := Join(ActorSentences(tables, rules, e));
      |text| >= |Opening(tables, e)| && text[..|Opening(tables, e)|] == Opening(tables, e)
    ensures var stats := Get(tables, e, StatsType);
      var health := Get(tables, e, HealthType);
      var sentences := ActorSentences(tables, rules, e);
      stats.Some? && health.Some? && health.value.Health?
      && rules.maxHp(health.value, stats.value, Level(tables, e)) > 0
      ==> sentences[|sentences| - 1]
          == DescribeHealth(health.value.currentHp, rules.maxHp(health.value, stats.value, Level(tables, e))).value
  {
  }
}
