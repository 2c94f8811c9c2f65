/**
 * The operations of the ActiveEffects component (effects/components.py) on
 * its list of effects. The component is a value in this model: an operation
 * that reassigns `self.effects` returns the new list.
 */
module EffectComponents {
  import opened Wrappers
  import opened EffectTypes

  /** add_effect: append, leaving every existing effect, same kind or not, as it was. */
  function AddEffect(effects: seq<Effect>, effect: Effect): (r: seq<Effect>)
    ensures |r| == |effects| + 1 && r[..|effects|] == effects && r[|effects|] == effect
  {
    effects + [effect]
  }

  /** Every effect with its duration one lower. */
  function Decremented(effects: seq<Effect>): (r: seq<Effect>)
    ensures |r| == |effects|
  {
    if effects == [] then [] else Decremented(effects[..|effects| - 1]) + [Last(effects).(duration := Last(effects).duration - 1)]
  }

  /** Decrementing works position by position: the i-th effect, one turn shorter. */
  lemma {:induction false} DecrementedAt(effects: seq<Effect>, i: nat)
    requires i < |effects|
    ensures Decremented(effects)[i] == effects[i].(duration := effects[i].duration - 1)
  {
    if i < |effects| - 1 {
      DecrementedAt(effects[..|effects| - 1], i);
    }
  }

  function Last(effects: seq<Effect>): Effect
    requires effects != []
  {
    effects[|effects| - 1]
  }

  /** The effects still running: duration above zero, in list order. */
  function Running(effects: seq<Effect>): (r: seq<Effect>)
    ensures |r| <= |effects|
  {
    if effects == [] then []
    else Running(effects[..|effects| - 1]) + (if Last(effects).duration > 0 then [Last(effects)] else [])
  }

  /** Running keeps exactly the effects with duration above zero. */
  lemma {:induction false} RunningMember(effects: seq<Effect>, e: Effect)
    ensures e in Running(effects) <==> e in effects && e.duration > 0
  {
    if effects != [] {
      RunningMember(effects[..|effects| - 1], e);
      assert effects == effects[..|effects| - 1] + [Last(effects)];
    }
  }

  /** The effects that ran out: duration at or below zero, in list order. */
  function Ended(effects: seq<Effect>): (r: seq<Effect>)
    ensures |r| <= |effects|
  {
    if effects == [] then []
    else Ended(effects[..|effects| - 1]) + (if Last(effects).duration <= 0 then [Last(effects)] else [])
  }

  /** Ended keeps exactly the effects with duration at or below zero. */
  lemma {:induction false} EndedMember(effects: seq<Effect>, e: Effect)
    ensures e in Ended(effects) <==> e in effects && e.duration <= 0
  {
    if effects != [] {
      EndedMember(effects[..|effects| - 1], e);
      assert effects == effects[..|effects| - 1] + [Last(effects)];
    }
  }

  /** Filtering keeps list order: it distributes over concatenation. */
  lemma {:induction false} RunningAppend(a: seq<Effect>, b: seq<Effect>)
    ensures Running(a + b) == Running(a) + Running(b)
    decreases |b|
  {
    if b == [] {
      assert a + b == a;
    } else {
      var b' := b[..|b| - 1];
      assert (a + b)[..|a + b| - 1] == a + b';
      assert Last(a + b) == Last(b);
      RunningAppend(a, b');
    }
  }

  /** Likewise for the expired effects. */
  lemma {:induction false} EndedAppend(a: seq<Effect>, b: seq<Effect>)
    ensures Ended(a + b) == Ended(a) + Ended(b)
    decreases |b|
  {
    if b == [] {
      assert a + b == a;
    } else {
      var b' := b[..|b| - 1];
      assert (a + b)[..|a + b| - 1] == a + b';
      assert Last(a + b) == Last(b);
      EndedAppend(a, b');
    }
  }

  /** What the tick keeps and what it drops together are the whole list, each effect once. */
  lemma {:induction false} TickPartition(effects: seq<Effect>)
    ensures |Running(effects)| + |Ended(effects)| == |effects|
    ensures multiset(Running(effects)) + multiset(Ended(effects)) == multiset(effects)
  {
    if effects != [] {
      TickPartition(effects[..|effects| - 1]);
      assert effects == effects[..|effects| - 1] + [Last(effects)];
    }
  }

  /**
   * tick_effects: lower every duration by one, keep the effects still above
   * zero as the new list and return the rest as expired, both in list order.
   */
  method TickEffects(effects: seq<Effect>) returns (remaining: seq<Effect>, expired: seq<Effect>)
    ensures remaining == Running(Decremented(effects))
    ensures expired == Ended(Decremented(effects))
  {
    expired := [];
    remaining := [];
    for i := 0 to |effects|
      invariant remaining == Running(Decremented(effects)[..i])
      invariant expired == Ended(Decremented(effects)[..i])
    {
      var effect := effects[i].(duration := effects[i].duration - 1);
      DecrementedAt(effects, i);
      assert Decremented(effects)[..i + 1][..i] == Decremented(effects)[..i];
      if effect.duration <= 0 {
        expired := expired + [effect];
      } else {
        remaining := remaining + [effect];
      }
    }
    assert Decremented(effects)[..|effects|] == Decremented(effects);
  }

  /** Every effect left after a tick has one turn less than before and at least one to go. */
  lemma TickKeepsRunning(effects: seq<Effect>, e: Effect)
    requires e in Running(Decremented(effects))
    ensures e.duration >= 1
    ensures e.(duration := e.duration + 1) in effects
  {
    var d := Decremented(effects);
    RunningMember(d, e);
    var i :| 0 <= i < |d| && d[i] == e;
    DecrementedAt(effects, i);
    assert effects[i] == e.(duration := e.duration + 1);
  }

  /** The value a stat modifier map gives a stat it does not list. */
  function ModifierOf(mods: map<string, int>, stat: string): int {
    if stat in mods then mods[stat] else 0
  }

  /** The stats some effect in the list modifies. */
  function ModifiedStats(effects: seq<Effect>): (r: set<string>)
    ensures forall s :: s in r <==> exists i | 0 <= i < |effects| :: s in effects[i].statModifiers
  {
    if effects == [] then {}
    else
      var r := ModifiedStats(effects[..|effects| - 1]) + Last(effects).statModifiers.Keys;
      assert forall i | 0 <= i < |effects| - 1 :: effects[..|effects| - 1][i] == effects[i];
      r
  }

  /** The sum of one stat's modifiers over the list. */
  function StatTotal(effects: seq<Effect>, stat: string): int {
    if effects == [] then 0
    else StatTotal(effects[..|effects| - 1], stat) + ModifierOf(Last(effects).statModifiers, stat)
  }

  /** A stat no effect lists totals zero. */
  lemma {:induction false} StatTotalUnmodified(effects: seq<Effect>, stat: string)
    requires stat !in ModifiedStats(effects)
    ensures StatTotal(effects, stat) == 0
  {
    if effects != [] {
      StatTotalUnmodified(effects[..|effects| - 1], stat);
    }
  }

  /** The inner loop of get_stat_modifiers: add one effect's modifiers into the running totals. */
  method AddModifiers(totals: map<string, int>, mods: map<string, int>) returns (r: map<string, int>)
    ensures r.Keys == totals.Keys + mods.Keys
    ensures forall s | s in r :: r[s] == ModifierOf(totals, s) + ModifierOf(mods, s)
  {
    r := totals;
    var pending := mods.Keys;
    while pending != {}
      invariant pending <= mods.Keys
      invariant r.Keys == totals.Keys + (mods.Keys - pending)
      invariant forall s | s in r :: r[s] == ModifierOf(totals, s) + (if s in mods && s !in pending then mods[s] else 0)
      decreases pending
    {
      var stat :| stat in pending;
      r := r[stat := (if stat in r then r[stat] else 0) + mods[stat]];
      pending := pending - {stat};
    }
  }

  /**
   * get_stat_modifiers: each stat some effect modifies, mapped to the sum of
   * that stat's modifiers over all effects; a stat no effect lists is absent.
   */
  method GetStatModifiers(effects: seq<Effect>) returns (totals: map<string, int>)
    ensures totals.Keys == ModifiedStats(effects)
    ensures forall s | s in totals :: totals[s] == StatTotal(effects, s)
  {
    totals := map[];
    for i := 0 to |effects|
      invariant totals.Keys == ModifiedStats(effects[..i])
      invariant forall s | s in totals :: totals[s] == StatTotal(effects[..i], s)
    {
      assert effects[..i + 1][..i] == effects[..i];
      assert Last(effects[..i + 1]) == effects[i];
      ghost var before := totals;
      totals := AddModifiers(totals, effects[i].statModifiers);
      forall s | s in totals ensures totals[s] == StatTotal(effects[..i + 1], s) {
        if s !in before {
          StatTotalUnmodified(effects[..i], s);
        }
      }
    }
    assert effects[..|effects|] == effects;
  }

  /** An empty list has no modifiers; the modifiers of two lists add up stat by stat. */
  lemma {:induction false} StatTotalAppend(a: seq<Effect>, b: seq<Effect>, stat: string)
    ensures StatTotal(a + b, stat) == StatTotal(a, stat) + StatTotal(b, stat)
    decreases |b|
  {
    if b == [] {
      assert a + b == a;
    } else {
      assert (a + b)[..|a + b| - 1] == a + b[..|b| - 1];
      StatTotalAppend(a, b[..|b| - 1], stat);
    }
  }

  /** get_effects_by_type: the effects whose kind has the given value, in list order. */
  function EffectsByType(effects: seq<Effect>, effectType: string): (r: seq<Effect>)
    ensures forall e :: e in r <==> e in effects && Value(e.effectType) == effectType
    ensures |r| <= |effects|
  {
    if effects == [] then []
    else
      var kept := if Value(Last(effects).effectType) == effectType then [Last(effects)] else [];
      EffectsByType(effects[..|effects| - 1], effectType) + kept
  }

  /**
   * has_effect_type: some effect's kind has the given value, which is the
   * case exactly when get_effects_by_type finds something.
   */
  function HasEffectType(effects: seq<Effect>, effectType: string): (b: bool)
    ensures b <==> EffectsByType(effects, effectType) != []
  {
    var found := exists i | 0 <= i < |effects| :: Value(effects[i].effectType) == effectType;
    assert found ==> EffectsByType(effects, effectType) != [] by {
      if found {
        var i :| 0 <= i < |effects| && Value(effects[i].effectType) == effectType;
        assert effects[i] in EffectsByType(effects, effectType);
      }
    }
    assert EffectsByType(effects, effectType) != [] ==> found by {
      var r := EffectsByType(effects, effectType);
      if r != [] {
        assert r[0] in r;
        var i :| 0 <= i < |effects| && effects[i] == r[0];
      }
    }
    found
  }
}
