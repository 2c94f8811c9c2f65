/** Item prefixes and suffixes: stat totals, display names and weighted rolls (items/affixes.py). */
module Affixes {
  import opened Wrappers
  import opened Components
  import opened Ecs

  const WeaponPrefixes: seq<Affix> := [
    Affix("Sharp", "prefix", map["damage" := 2], 100),
    Affix("Keen", "prefix", map["damage" := 3], 75),
    Affix("Mighty", "prefix", map["strength" := 2], 80),
    Affix("Swift", "prefix", map["dexterity" := 2], 80),
    Affix("Brutal", "prefix", map["damage" := 4, "defense" := -1], 50),
    Affix("Vicious", "prefix", map["damage" := 3, "strength" := 1], 40),
    Affix("Fine", "prefix", map["damage" := 1, "dexterity" := 1], 90)
  ]

  const WeaponSuffixes: seq<Affix> := [
    Affix("of Power", "suffix", map["strength" := 1, "damage" := 1], 100),
    Affix("of the Bear", "suffix", map["strength" := 3], 70),
    Affix("of the Fox", "suffix", map["dexterity" := 3], 70),
    Affix("of Precision", "suffix", map["dexterity" := 2, "damage" := 1], 60),
    Affix("of the Giant", "suffix", map["strength" := 4, "constitution" := 1], 30),
    Affix("of Fury", "suffix", map["damage" := 2, "strength" := 2], 40),
    Affix("of Skill", "suffix", map["dexterity" := 2], 90)
  ]

  const ArmorPrefixes: seq<Affix> := [
    Affix("Sturdy", "prefix", map["defense" := 2], 100),
    Affix("Reinforced", "prefix", map["defense" := 3], 75),
    Affix("Hardy", "prefix", map["constitution" := 2], 80),
    Affix("Protective", "prefix", map["defense" := 2, "max_hp" := 5], 50),
    Affix("Thick", "prefix", map["defense" := 1, "constitution" := 1], 90),
    Affix("Rugged", "prefix", map["defense" := 2, "constitution" := 1], 60),
    Affix("Enchanted", "prefix", map["defense" := 1, "intelligence" := 2], 40)
  ]

  const ArmorSuffixes: seq<Affix> := [
    Affix("of the Ox", "suffix", map["constitution" := 3], 70),
    Affix("of Fortitude", "suffix", map["constitution" := 2, "defense" := 2], 50),
    Affix("of the Sage", "suffix", map["intelligence" := 3], 70),
    Affix("of Warding", "suffix", map["defense" := 3], 75),
    Affix("of the Owl", "suffix", map["wisdom" := 3], 70),
    Affix("of Vitality", "suffix", map["max_hp" := 10, "constitution" := 1], 40),
    Affix("of the Turtle", "suffix", map["defense" := 2, "max_hp" := 5], 60),
    Affix("of Grace", "suffix", map["dexterity" := 2, "charisma" := 1], 80)
  ]

  /** The stats an optional affix modifies. */
  function StatsOf(affix: Option<Affix>): set<string> {
    if affix.Some? then affix.value.statModifiers.Keys else {}
  }

  /** What an optional affix adds to one stat; nothing when absent. */
  function Contribution(affix: Option<Affix>, stat: string): int {
    if affix.Some? && stat in affix.value.statModifiers then affix.value.statModifiers[stat] else 0
  }

  /** `totals.get(stat, 0)` */
  function Lookup(totals: map<string, int>, stat: string): int {
    if stat in totals then totals[stat] else 0
  }

  /** The inner loop of get_total_modifiers: add every modifier of one affix into the running totals. */
  method AddModifiers(totals: map<string, int>, modifiers: map<string, int>) returns (r: map<string, int>)
    ensures r.Keys == totals.Keys + modifiers.Keys
    ensures forall stat | stat in r :: r[stat] == Lookup(totals, stat) + Lookup(modifiers, stat)
  {
    r := totals;
    var todo := modifiers.Keys;
    while todo != {}
      invariant todo <= modifiers.Keys
      invariant r.Keys == totals.Keys + (modifiers.Keys - todo)
      invariant forall stat | stat in r :: r[stat] == Lookup(totals, stat) + (if stat in todo then 0 else Lookup(modifiers, stat))
      decreases todo
    {
      var stat :| stat in todo;
      r := r[stat := Lookup(r, stat) + modifiers[stat]];
      todo := todo - {stat};
    }
  }

  /**
   * ItemAffixes.get_total_modifiers: each stat named by the prefix or the
   * suffix maps to the sum of what the two add to it; no other stat appears.
   */
  method GetTotalModifiers(affixes: Component) returns (totals: map<string, int>)
    requires affixes.ItemAffixes?
    ensures totals.Keys == StatsOf(affixes.prefix) + StatsOf(affixes.suffix)
    ensures forall stat | stat in totals :: totals[stat] == Contribution(affixes.prefix, stat) + Contribution(affixes.suffix, stat)
  {
    totals := map[];
    var parts := [affixes.prefix, affixes.suffix];
    for i := 0 to 2
      invariant totals.Keys == (if i >= 1 then StatsOf(affixes.prefix) else {}) + (if i >= 2 then StatsOf(affixes.suffix) else {})
      invariant forall stat | stat in totals ::
        totals[stat] == (if i >= 1 then Contribution(affixes.prefix, stat) else 0)
                        + (if i >= 2 then Contribution(affixes.suffix, stat) else 0)
    {
      if parts[i].Some? {
        totals := AddModifiers(totals, parts[i].value.statModifiers);
      }
    }
  }

  /** get_display_name: "prefix base suffix", each affix's name only when present. */
  function DisplayName(affixes: Component, baseName: string): (r: string)
    requires affixes.ItemAffixes?
    ensures var front := if affixes.prefix.Some? then affixes.prefix.value.name + " " else "";
      var back := if affixes.suffix.Some? then " " + affixes.suffix.value.name else "";
      |r| == |front| + |baseName| + |back|
      && r[..|front|] == front && r[|front|..|front| + |baseName|] == baseName && r[|front| + |baseName|..] == back
  {
    var name := if affixes.prefix.Some? then affixes.prefix.value.name + " " + baseName else baseName;
    if affixes.suffix.Some? then name + " " + affixes.suffix.value.name else name
  }

  /** With neither affix the display name is the base name. */
  lemma PlainName(baseName: string)
    ensures DisplayName(ItemAffixes(None, None), baseName) == baseName
  {
  }

  /** The weight of the first k affixes of a pool. */
  function Cum(pool: seq<Affix>, k: nat): int
    requires k <= |pool|
  {
    if k == 0 then 0 else Cum(pool, k - 1) + pool[k - 1].rarityWeight
  }

  /** The running weight once affix k has been counted. */
  function Reach(pool: seq<Affix>, k: nat): int
    requires k < |pool|
  {
    Cum(pool, k + 1)
  }

  /**
   * The selection the loop of roll_affix makes from position i on: the
   * first affix whose running weight reaches the roll, and pool[0] when
   * none does.
   */
  function PickFrom(pool: seq<Affix>, roll: int, i: nat): (r: Affix)
    requires 0 < |pool| && i <= |pool|
    ensures (exists k | i <= k < |pool| :: roll <= Reach(pool, k)) ==>
      exists k | i <= k < |pool| :: r == pool[k] && roll <= Reach(pool, k) && forall j | i <= j < k :: roll > Reach(pool, j)
    ensures (forall k | i <= k < |pool| :: roll > Reach(pool, k)) ==> r == pool[0]
    decreases |pool| - i
  {
    if i == |pool| then pool[0]
    else if roll <= Reach(pool, i) then pool[i]
    else PickFrom(pool, roll, i + 1)
  }

  /** roll_affix's choice for a given roll. */
  function Pick(pool: seq<Affix>, roll: int): Affix
    requires 0 < |pool|
  {
    PickFrom(pool, roll, 0)
  }

  /** roll_affix with the random roll as a parameter. */
  method RollAffix(pool: seq<Affix>, roll: int) returns (r: Affix)
    requires 0 < |pool|
    ensures r == Pick(pool, roll)
  {
    var current := 0;
    for i := 0 to |pool|
      invariant current == Cum(pool, i)
      invariant PickFrom(pool, roll, i) == Pick(pool, roll)
    {
      current := current + pool[i].rarityWeight;
      if roll <= current {
        return pool[i];
      }
    }
    return pool[0];
  }

  /** With positive weights the running weight strictly grows. */
  lemma {:induction false} ReachGrows(pool: seq<Affix>, j: nat, k: nat)
    requires forall a | a in pool :: a.rarityWeight > 0
    requires j < k < |pool|
    ensures Reach(pool, j) < Reach(pool, k)
    decreases k - j
  {
    assert pool[k] in pool;
    if j + 1 < k {
      ReachGrows(pool, j, k - 1);
    }
  }

  /**
   * Every affix of a positively weighted pool can be rolled: the roll equal
   * to its running weight selects it, and that roll lies in [1, total].
   */
  lemma EveryAffixRollable(pool: seq<Affix>, k: nat)
    requires forall a | a in pool :: a.rarityWeight > 0
    requires k < |pool|
    ensures 1 <= Reach(pool, k) <= Cum(pool, |pool|)
    ensures Pick(pool, Reach(pool, k)) == pool[k]
  {
    if k > 0 {
      ReachGrows(pool, 0, k);
    }
    assert pool[0] in pool && Reach(pool, 0) == Cum(pool, 0) + pool[0].rarityWeight;
    if k < |pool| - 1 {
      ReachGrows(pool, k, |pool| - 1);
    }
    forall j | 0 <= j < k ensures Reach(pool, j) < Reach(pool, k) {
      ReachGrows(pool, j, k);
    }
    var r := Pick(pool, Reach(pool, k));
    var k' :| 0 <= k' < |pool| && r == pool[k'] && Reach(pool, k) <= Reach(pool, k')
      && forall j | 0 <= j < k' :: Reach(pool, k) > Reach(pool, j);
    assert k' == k;
  }

  /** A roll in [1, total] never falls through to the pool[0] fallback. */
  lemma RollInRangeReaches(pool: seq<Affix>, roll: int)
    requires 0 < |pool| && roll <= Cum(pool, |pool|)
    ensures exists k | 0 <= k < |pool| :: Pick(pool, roll) == pool[k] && roll <= Reach(pool, k)
  {
    assert roll <= Reach(pool, |pool| - 1);
  }

  predicate IsWeaponSlot(slot: string) {
    slot == "main_hand" || slot == "off_hand" || slot == "two_hand"
  }

  /** Every affix of the pool is of the given kind and has a positive weight. */
  predicate PoolOf(pool: seq<Affix>, kind: string) {
    0 < |pool| && forall i | 0 <= i < |pool| :: pool[i].rarityWeight > 0 && pool[i].affixType == kind
  }

  lemma WeaponTablesWellFormed()
    ensures PoolOf(WeaponPrefixes, "prefix") && PoolOf(WeaponSuffixes, "suffix")
  {
  }

  lemma ArmorTablesWellFormed()
    ensures PoolOf(ArmorPrefixes, "prefix") && PoolOf(ArmorSuffixes, "suffix")
  {
  }

  /** No weapon table is an armor table. */
  lemma TablesDistinct()
    ensures WeaponPrefixes != ArmorPrefixes && WeaponPrefixes != ArmorSuffixes
    ensures WeaponSuffixes != ArmorPrefixes && WeaponSuffixes != ArmorSuffixes
  {
    assert WeaponPrefixes[0] != ArmorPrefixes[0] && WeaponPrefixes[0] != ArmorSuffixes[0];
    assert WeaponSuffixes[0] != ArmorPrefixes[0] && WeaponSuffixes[0] != ArmorSuffixes[0];
  }

  /**
   * get_affix_pool: the weapon tables exactly for the three hand slots; the
   * prefix tables for "prefix" and the suffix tables for anything else.
   */
  function GetAffixPool(slot: string, affixType: string): (r: seq<Affix>)
    ensures PoolOf(r, if affixType == "prefix" then "prefix" else "suffix")
    ensures (r == WeaponPrefixes || r == WeaponSuffixes) <==> IsWeaponSlot(slot)
  {
    WeaponTablesWellFormed();
    ArmorTablesWellFormed();
    TablesDistinct();
    if affixType == "prefix" then (if IsWeaponSlot(slot) then WeaponPrefixes else ArmorPrefixes)
    else (if IsWeaponSlot(slot) then WeaponSuffixes else ArmorSuffixes)
  }

  /**
   * The ItemAffixes record apply_affixes_for_rarity attaches, if any, given
   * the coin (`random.random() < 0.5`) and the two rolls.
   */
  function RolledAffixes(rarity: string, slot: string, heads: bool, prefixRoll: int, suffixRoll: int): Option<Component> {
    if rarity == "uncommon" then
      if heads then Some(ItemAffixes(Some(Pick(GetAffixPool(slot, "prefix"), prefixRoll)), None))
      else Some(ItemAffixes(None, Some(Pick(GetAffixPool(slot, "suffix"), suffixRoll))))
    else if rarity in {"rare", "epic", "legendary"} then
      Some(ItemAffixes(Some(Pick(GetAffixPool(slot, "prefix"), prefixRoll)), Some(Pick(GetAffixPool(slot, "suffix"), suffixRoll))))
    else None
  }

  /** apply_affixes_for_rarity with the coin and the rolls as parameters. */
  method ApplyAffixesForRarity(w: World, item: Entity, rarity: string, slot: string, heads: bool, prefixRoll: int, suffixRoll: int)
    requires w.Valid()
    modifies w`components
    ensures w.Valid()
    ensures var rolled := RolledAffixes(rarity, slot, heads, prefixRoll, suffixRoll);
      w.components == if rolled.Some? then Put(old(w.components), item, rolled.value) else old(w.components)
  {
    if rarity == "common" {
      return;
    }
    var prefix: Option<Affix> := None;
    var suffix: Option<Affix> := None;
    if rarity == "uncommon" {
      if heads {
        var a := RollAffix(GetAffixPool(slot, "prefix"), prefixRoll);
        prefix := Some(a);
      } else {
        var a := RollAffix(GetAffixPool(slot, "suffix"), suffixRoll);
        suffix := Some(a);
      }
    } else if rarity == "rare" || rarity == "epic" || rarity == "legendary" {
      var a := RollAffix(GetAffixPool(slot, "prefix"), prefixRoll);
      var b := RollAffix(GetAffixPool(slot, "suffix"), suffixRoll);
      prefix, suffix := Some(a), Some(b);
    }
    if prefix.Some? || suffix.Some? {
      w.AddComponent(item, ItemAffixes(prefix, suffix));
    }
  }

  /**
   * Common and unknown rarities get no affixes; uncommon gets exactly one,
   * the prefix on heads; rare, epic and legendary get both; a rolled prefix
   * is a prefix and a rolled suffix a suffix, from the slot's tables.
   */
  lemma RarityDecidesAffixes(rarity: string, slot: string, heads: bool, prefixRoll: int, suffixRoll: int)
    ensures var rolled := RolledAffixes(rarity, slot, heads, prefixRoll, suffixRoll);
      (rolled.None? <==> rarity !in {"uncommon", "rare", "epic", "legendary"})
      && (rolled.Some? ==> rolled.value.ItemAffixes?)
      && (rarity == "uncommon" ==> (rolled.value.prefix.Some? <==> heads) && (rolled.value.suffix.Some? <==> !heads))
      && (rarity in {"rare", "epic", "legendary"} ==> rolled.value.prefix.Some? && rolled.value.suffix.Some?)
      && (rolled.Some? && rolled.value.prefix.Some? ==>
            rolled.value.prefix.value.affixType == "prefix" && rolled.value.prefix.value in GetAffixPool(slot, "prefix"))
      && (rolled.Some? && rolled.value.suffix.Some? ==>
            rolled.value.suffix.value.affixType == "suffix" && rolled.value.suffix.value in GetAffixPool(slot, "suffix"))
  {
    var prefixes, suffixes := GetAffixPool(slot, "prefix"), GetAffixPool(slot, "suffix");
    PickInPool(prefixes, prefixRoll);
    PickInPool(suffixes, suffixRoll);
    PoolMembers(prefixes, "prefix", Pick(prefixes, prefixRoll));
    PoolMembers(suffixes, "suffix", Pick(suffixes, suffixRoll));
  }

  /** Whatever the roll, roll_affix returns a member of the pool. */
  lemma PickInPool(pool: seq<Affix>, roll: int)
    requires 0 < |pool|
    ensures Pick(pool, roll) in pool
  {
    if exists k | 0 <= k < |pool| :: roll <= Reach(pool, k) {
      var k :| 0 <= k < |pool| && Pick(pool, roll) == pool[k];
    }
  }

  /** A member of a pool of some kind is of that kind. */
  lemma PoolMembers(pool: seq<Affix>, kind: string, a: Affix)
    requires PoolOf(pool, kind) && a in pool
    ensures a.affixType == kind && a.rarityWeight > 0
  {
    var i :| 0 <= i < |pool| && pool[i] == a;
  }
}
