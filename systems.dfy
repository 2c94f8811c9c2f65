/** The system scheduler and the movement rule (ecs/systems.py). */
module Systems {
  import opened Wrappers
  import opened Components
  import opened Ecs
  import opened GameMaps

  /**
   * A registered system. Systems are objects the scheduler only calls, so a
   * handle stands for each; what a system does to the world is its own.
   */
  type SystemRef = nat

  /** The six phases, in the order the scheduler's dict lists them. */
  const PhaseOrder: seq<string> := ["input", "ai", "action", "resolution", "cleanup", "render"]

  /** The systems of the given phases, phase by phase, registration order within each. */
  function Schedule(order: seq<string>, phases: map<string, seq<SystemRef>>): (r: seq<SystemRef>)
    requires forall p | p in order :: p in phases
  {
    if order == [] then [] else phases[order[0]] + Schedule(order[1..], phases)
  }

  /** The schedule splits around any one phase. */
  lemma {:induction false} ScheduleSplit(order: seq<string>, phases: map<string, seq<SystemRef>>, i: nat)
    requires forall p | p in order :: p in phases
    requires i < |order|
    ensures Schedule(order, phases) == Schedule(order[..i], phases) + phases[order[i]] + Schedule(order[i + 1..], phases)
  {
    if i > 0 {
      ScheduleSplit(order[1..], phases, i - 1);
      assert order[1..][..i - 1] == order[1..i];
      assert order[..i] == [order[0]] + order[1..i];
      assert order[1..][i - 1 + 1..] == order[i + 1..];
    } else {
      assert order[1..] == order[i + 1..];
    }
  }

  /** The schedule reads only the phases it lists. */
  lemma {:induction false} ScheduleFrame(order: seq<string>, phases: map<string, seq<SystemRef>>, p: string, s: seq<SystemRef>)
    requires forall q | q in order :: q in phases
    requires p !in order
    ensures Schedule(order, phases[p := s]) == Schedule(order, phases)
  {
    if order != [] {
      ScheduleFrame(order[1..], phases, p, s);
    }
  }

  class SystemScheduler {
    var phases: map<string, seq<SystemRef>>

    ghost predicate Valid()
      reads this
    {
      phases.Keys == set p | p in PhaseOrder
    }

    /** Exactly the six phases, all empty. */
    constructor ()
      ensures Valid()
      ensures forall p | p in PhaseOrder :: phases[p] == []
    {
      phases := map["input" := [], "ai" := [], "action" := [], "resolution" := [], "cleanup" := [], "render" := []];
    }

    /** Append to the end of the named phase only; an unknown phase is a KeyError. */
    method AddSystem(system: SystemRef, phase: string)
      requires Valid() && phase in PhaseOrder
      modifies this
      ensures Valid()
      ensures phases == old(phases)[phase := old(phases)[phase] + [system]]
    {
      phases := phases[phase := phases[phase] + [system]];
    }

    /** The systems of the current phases, in the order update calls them. */
    function Calls(): (r: seq<SystemRef>)
      reads this
      requires Valid()
    {
      Schedule(PhaseOrder, phases)
    }

    /**
     * update: call every system once, phase by phase in the fixed order and
     * in registration order within a phase. The sequence of calls is the result.
     */
    method Update() returns (calls: seq<SystemRef>)
      requires Valid()
      ensures calls == Calls()
    {
      calls := [];
      var i := 0;
      while i < |PhaseOrder|
        invariant 0 <= i <= |PhaseOrder|
        invariant calls == Schedule(PhaseOrder[..i], phases)
      {
        var phaseSystems := phases[PhaseOrder[i]];
        var j := 0;
        while j < |phaseSystems|
          invariant 0 <= j <= |phaseSystems|
          invariant calls == Schedule(PhaseOrder[..i], phases) + phaseSystems[..j]
        {
          calls := calls + [phaseSystems[j]];
          j := j + 1;
        }
        assert phaseSystems[..j] == phaseSystems;
        ScheduleSplit(PhaseOrder[..i + 1], phases, i);
        assert PhaseOrder[..i + 1][..i] == PhaseOrder[..i];
        assert PhaseOrder[..i + 1][i + 1..] == [];
        i := i + 1;
      }
      assert PhaseOrder[..i] == PhaseOrder;
    }
  }

  /**
   * Adding a system to phase `order[i]` runs it right after that phase's
   * earlier systems and before every later phase; the rest of the schedule is kept.
   */
  lemma AddSystemSchedule(phases: map<string, seq<SystemRef>>, i: nat, system: SystemRef)
    requires forall p | p in PhaseOrder :: p in phases
    requires i < |PhaseOrder|
    ensures var p := PhaseOrder[i];
      Schedule(PhaseOrder, phases[p := phases[p] + [system]])
      == Schedule(PhaseOrder[..i], phases) + phases[p] + [system] + Schedule(PhaseOrder[i + 1..], phases)
  {
    var p := PhaseOrder[i];
    var phases' := phases[p := phases[p] + [system]];
    ScheduleSplit(PhaseOrder, phases', i);
    assert p !in PhaseOrder[..i] && p !in PhaseOrder[i + 1..];
    ScheduleFrame(PhaseOrder[..i], phases, p, phases[p] + [system]);
    ScheduleFrame(PhaseOrder[i + 1..], phases, p, phases[p] + [system]);
  }

  /** The one-entity effect of MovementSystem.update on the component of type t. */
  function MovedGet(tables: Tables, m: GameMap, e: Entity, t: ComponentType): (r: Option<Component>)
    reads m
    requires m.Valid() && WellTyped(tables)
  {
    var intent, pos := Get(tables, e, MoveIntentType), Get(tables, e, PositionType);
    if intent.Some? && intent.value.MoveIntent? && pos.Some? && pos.value.Position? then
      var moved := !m.BlocksMovement(pos.value.x + intent.value.dx, pos.value.y + intent.value.dy);
      if t == MoveIntentType then None
      else if t == PositionType && moved then Some(Position(pos.value.x + intent.value.dx, pos.value.y + intent.value.dy))
      else if t == TurnConsumedType && moved && intent.value.consumesTurn then Some(TurnConsumed)
      else Get(tables, e, t)
    else Get(tables, e, t)
  }

  /**
   * The movement rule for one entity: a move to an unblocked tile shifts the
   * position by exactly (dx, dy), a blocked one leaves it and adds no
   * TurnConsumed; TurnConsumed appears iff the move succeeded and the intent
   * consumes a turn (or it was there already); the intent is always removed,
   * and an entity without both MoveIntent and Position keeps everything.
   */
  lemma MovedGetRule(tables: Tables, m: GameMap, e: Entity, x: int, y: int, dx: int, dy: int, consumesTurn: bool)
    requires m.Valid() && WellTyped(tables)
    requires Get(tables, e, MoveIntentType) == Some(MoveIntent(dx, dy, consumesTurn))
    requires Get(tables, e, PositionType) == Some(Position(x, y))
    ensures MovedGet(tables, m, e, MoveIntentType) == None
    ensures !m.BlocksMovement(x + dx, y + dy) ==> MovedGet(tables, m, e, PositionType) == Some(Position(x + dx, y + dy))
    ensures m.BlocksMovement(x + dx, y + dy) ==> MovedGet(tables, m, e, PositionType) == Some(Position(x, y))
    ensures MovedGet(tables, m, e, TurnConsumedType).Some?
      <==> (!m.BlocksMovement(x + dx, y + dy) && consumesTurn) || Get(tables, e, TurnConsumedType).Some?
  {
  }

  /** MovedGet looks at nothing but the entity's own components. */
  lemma MovedGetLocal(t1: Tables, t2: Tables, m: GameMap, e: Entity)
    requires m.Valid() && WellTyped(t1) && WellTyped(t2)
    requires forall t :: Get(t1, e, t) == Get(t2, e, t)
    ensures forall t :: MovedGet(t1, m, e, t) == MovedGet(t2, m, e, t)
  {
  }

  /** The tables after one entity's move, the adds and the removal in the order the loop body makes them. */
  function MoveTables(tables: Tables, e: Entity, intent: Component, pos: Component, moved: bool): Tables
    requires intent.MoveIntent? && pos.Position?
  {
    var shifted := if moved then Put(tables, e, Position(pos.x + intent.dx, pos.y + intent.dy)) else tables;
    var turned := if moved && intent.consumesTurn then Put(shifted, e, TurnConsumed) else shifted;
    Remove(turned, e, MoveIntentType)
  }

  /** The writes of one iteration: the new position and TurnConsumed on success, then the intent removed. */
  method WriteMove(w: World, e: Entity, intent: Component, pos: Component, moved: bool)
    requires w.Valid() && intent.MoveIntent? && pos.Position?
    modifies w`components
    ensures w.Valid() && w.components == MoveTables(old(w.components), e, intent, pos, moved)
  {
    if moved {
      w.AddComponent(e, Position(pos.x + intent.dx, pos.y + intent.dy));
      if intent.consumesTurn {
        w.AddComponent(e, TurnConsumed);
      }
    }
    w.RemoveComponent(e, MoveIntentType);
  }

  /** Those adds and that removal are the movement rule. */
  lemma MoveTablesGet(tables: Tables, m: GameMap, e: Entity, e': Entity, t: ComponentType)
    requires m.Valid() && WellTyped(tables)
    requires Get(tables, e, MoveIntentType).Some? && Get(tables, e, PositionType).Some?
    ensures Get(tables, e, MoveIntentType).value.MoveIntent? && Get(tables, e, PositionType).value.Position?
    ensures var intent, pos := Get(tables, e, MoveIntentType).value, Get(tables, e, PositionType).value;
      Get(MoveTables(tables, e, intent, pos, !m.BlocksMovement(pos.x + intent.dx, pos.y + intent.dy)), e', t)
      == (if e' == e then MovedGet(tables, m, e, t) else Get(tables, e', t))
  {
    var intent, pos := Get(tables, e, MoveIntentType).value, Get(tables, e, PositionType).value;
    assert intent.MoveIntent? && pos.Position?;
    MoveTablesAt(tables, e, intent, pos, !m.BlocksMovement(pos.x + intent.dx, pos.y + intent.dy), e', t);
  }

  /** What MoveTables does to each component. */
  lemma MoveTablesAt(tables: Tables, e: Entity, intent: Component, pos: Component, moved: bool, e': Entity, t: ComponentType)
    requires intent.MoveIntent? && pos.Position?
    ensures Get(MoveTables(tables, e, intent, pos, moved), e', t) ==
      if e' == e && t == MoveIntentType then None
      else if e' == e && t == PositionType && moved then Some(Position(pos.x + intent.dx, pos.y + intent.dy))
      else if e' == e && t == TurnConsumedType && moved && intent.consumesTurn then Some(TurnConsumed)
      else Get(tables, e', t)
  {
    var target := Position(pos.x + intent.dx, pos.y + intent.dy);
    var shifted := if moved then Put(tables, e, target) else tables;
    assert Get(shifted, e', t) == if moved && e' == e && t == PositionType then Some(target) else Get(tables, e', t);
    var turned := if moved && intent.consumesTurn then Put(shifted, e, TurnConsumed) else shifted;
    assert Get(turned, e', t) == if moved && intent.consumesTurn && e' == e && t == TurnConsumedType then Some(TurnConsumed) else Get(shifted, e', t);
  }

  class MovementSystem {
    /** `self.x`, `self.y`: the last target try_move accepted, absent before the first. */
    var lastTarget: Option<(int, int)>

    constructor ()
      ensures lastTarget == None
    {
      lastTarget := None;
    }

    /** Accept the target iff it does not block movement, and remember it. */
    method TryMove(newX: int, newY: int, m: GameMap) returns (ok: bool)
      requires m.Valid()
      modifies this
      ensures ok <==> !m.BlocksMovement(newX, newY)
      ensures lastTarget == if ok then Some((newX, newY)) else old(lastTarget)
    {
      if !m.BlocksMovement(newX, newY) {
        lastTarget := Some((newX, newY));
        return true;
      }
      return false;
    }

    /** One iteration of update's loop, for an entity holding MoveIntent and Position. */
    method MoveOne(w: World, m: GameMap, e: Entity)
      requires w.Valid() && m.Valid()
      requires Get(w.components, e, MoveIntentType).Some? && Get(w.components, e, PositionType).Some?
      modifies this, w`components
      ensures w.Valid()
      ensures forall e', t ::
        Get(w.components, e', t) == (if e' == e then MovedGet(old(w.components), m, e, t) else Get(old(w.components), e', t))
    {
      ghost var before := w.components;
      var intent := w.ComponentFor(e, MoveIntentType);
      var pos := w.ComponentFor(e, PositionType);
      var newX, newY := pos.x + intent.dx, pos.y + intent.dy;
      var ok := TryMove(newX, newY, m);
      WriteMove(w, e, intent, pos, ok);
      assert ok == !m.BlocksMovement(pos.x + intent.dx, pos.y + intent.dy);
      forall e', t
        ensures Get(w.components, e', t) == (if e' == e then MovedGet(before, m, e, t) else Get(before, e', t))
      {
        MoveTablesGet(before, m, e, e', t);
      }
    }

    /**
     * update: every entity holding MoveIntent and Position tries its move;
     * the map is the one the world's MapResource holds.
     */
    method Update(w: World, m: GameMap)
      requires w.Valid() && m.Valid()
      modifies this, w`components
      ensures w.Valid()
      ensures forall e, t :: Get(w.components, e, t) == MovedGet(old(w.components), m, e, t)
    {
      ghost var before := w.components;
      var todo := w.GetEntitiesWith([MoveIntentType, PositionType]);
      while todo != {}
        invariant w.Valid()
        invariant forall e | e in todo :: Get(before, e, MoveIntentType).Some? && Get(before, e, PositionType).Some?
        invariant forall e, t ::
          Get(w.components, e, t) == (if e in todo then Get(before, e, t) else MovedGet(before, m, e, t))
        decreases todo
      {
        var e :| e in todo;
        MoveNext(w, m, before, todo, e);
        todo := todo - {e};
      }
    }

    /** update's loop body: moving entity e takes it from the pending set to the moved ones. */
    method MoveNext(w: World, m: GameMap, ghost before: Tables, ghost todo: set<Entity>, e: Entity)
      requires w.Valid() && m.Valid() && WellTyped(before) && e in todo
      requires Get(before, e, MoveIntentType).Some? && Get(before, e, PositionType).Some?
      requires forall e', t :: Get(w.components, e', t) == (if e' in todo then Get(before, e', t) else MovedGet(before, m, e', t))
      modifies this, w`components
      ensures w.Valid()
      ensures forall e', t :: Get(w.components, e', t) == (if e' in todo - {e} then Get(before, e', t) else MovedGet(before, m, e', t))
    {
      ghost var current := w.components;
      MovedGetLocal(current, before, m, e);
      MoveOne(w, m, e);
    }
  }
}
