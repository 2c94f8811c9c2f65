/**
 * The entity/component store (ecs/world.py): per-type tables
 * `type tag -> (entity -> component)`, an id counter and a resource map.
 *
 * The Python constructor leaves `_components` and `_resources` unassigned
 * and initialises `_entities` with a dict; the model gives all three their
 * evident meaning (empty tables, empty map, empty set), gives
 * `get_resource` a None for a missing entry, and adds the
 * `remove_component` the callers rely on, with map-deletion semantics.
 */
module Ecs {
  import opened Wrappers
  import opened Components

  /** The raw table map `_components`. */
  type Tables = map<ComponentType, map<Entity, Component>>

  /** Every component sits in the table of its own type. */
  ghost predicate WellTyped(tables: Tables) {
    forall t | t in tables :: forall e | e in tables[t] :: OfType(tables[t][e], t)
  }

  /** `_components.get(t, {}).get(e)` */
  function Get(tables: Tables, e: Entity, t: ComponentType): Option<Component> {
    if t in tables && e in tables[t] then Some(tables[t][e]) else None
  }

  /** The keys of one type table, empty when the type was never added. */
  function Holders(tables: Tables, t: ComponentType): (r: set<Entity>)
    ensures forall e :: e in r <==> Get(tables, e, t).Some?
  {
    if t in tables then tables[t].Keys else {}
  }

  /** add_component: create the type table when missing, then store under the entity. */
  function Put(tables: Tables, e: Entity, c: Component): (r: Tables)
    ensures forall e', t :: Get(r, e', t) == if e' == e && t == TypeOf(c) then Some(c) else Get(tables, e', t)
  {
    var t := TypeOf(c);
    tables[t := (if t in tables then tables[t] else map[])[e := c]]
  }

  /** Storing a component under its own type keeps every table well typed. */
  lemma PutWellTyped(tables: Tables, e: Entity, c: Component)
    requires WellTyped(tables)
    ensures WellTyped(Put(tables, e, c))
  {
    OfTypeOf(c, TypeOf(c));
  }

  /** A second add of the same type on the same entity replaces the first. */
  lemma PutTwice(tables: Tables, e: Entity, c1: Component, c2: Component)
    requires TypeOf(c1) == TypeOf(c2)
    ensures Put(Put(tables, e, c1), e, c2) == Put(tables, e, c2)
  {
    var t := TypeOf(c1);
    var row := if t in tables then tables[t] else map[];
    assert row[e := c1][e := c2] == row[e := c2];
  }

  /** remove_component: delete the entry, a no-op when absent; type tables are kept. */
  function Remove(tables: Tables, e: Entity, t: ComponentType): (r: Tables)
    ensures r.Keys == tables.Keys
    ensures forall e', t' :: Get(r, e', t') == if e' == e && t' == t then None else Get(tables, e', t')
  {
    if t in tables then tables[t := tables[t] - {e}] else tables
  }

  /** The store once every component of `e` has been removed. */
  function Strip(tables: Tables, e: Entity): (r: Tables)
    ensures r.Keys == tables.Keys
    ensures forall e', t :: Get(r, e', t) == if e' == e then None else Get(tables, e', t)
  {
    map t | t in tables :: tables[t] - {e}
  }

  /** get_entities_with(T1, ..., Tn) for n >= 1: the intersection of the per-type key sets. */
  function EntitiesWith(tables: Tables, types: seq<ComponentType>): (r: set<Entity>)
    requires |types| >= 1
    ensures forall e :: e in r <==> forall i | 0 <= i < |types| :: Get(tables, e, types[i]).Some?
    decreases |types|
  {
    if |types| == 1 then Holders(tables, types[0])
    else
      var rest := EntitiesWith(tables, types[1..]);
      assert forall e :: e in rest <==> forall i | 1 <= i < |types| :: Get(tables, e, types[i]).Some? by {
        forall e ensures e in rest <==> forall i | 1 <= i < |types| :: Get(tables, e, types[i]).Some? {
          if e in rest {
            forall i | 1 <= i < |types| ensures Get(tables, e, types[i]).Some? {
              assert types[i] == types[1..][i - 1];
            }
          }
        }
      }
      Holders(tables, types[0]) * rest
  }

  /** A type that no component was ever added under has no holders, so any query naming it is empty. */
  lemma {:induction false} EntitiesWithUnknownType(tables: Tables, types: seq<ComponentType>, k: nat)
    requires k < |types| && types[k] !in tables
    ensures EntitiesWith(tables, types) == {}
  {
  }

  class World {
    var nextEntityId: nat
    var entities: set<Entity>
    var components: Tables
    var resources: map<ResourceType, Resource>

    ghost predicate Valid()
      reads this
    {
      WellTyped(components)
      && (forall e | e in entities :: 0 <= e < nextEntityId)
      && (forall k | k in resources :: resources[k].kind == k)
    }

    constructor ()
      ensures Valid()
      ensures nextEntityId == 0 && entities == {} && components == map[] && resources == map[]
    {
      nextEntityId := 0;
      entities := {};
      components := map[];
      resources := map[];
    }

    /** Hand out the counter and bump it: ids strictly increase and are never reused. */
    method CreateEntity() returns (id: Entity)
      requires Valid()
      modifies this`nextEntityId, this`entities
      ensures Valid()
      ensures id == old(nextEntityId) && nextEntityId == old(nextEntityId) + 1
      ensures id !in old(entities) && entities == old(entities) + {id}
    {
      id := nextEntityId;
      nextEntityId := nextEntityId + 1;
      entities := entities + {id};
    }

    method AddComponent(e: Entity, c: Component)
      requires Valid()
      modifies this`components
      ensures Valid()
      ensures components == Put(old(components), e, c)
    {
      var t := TypeOf(c);
      OfTypeOf(c, t);
      if t !in components {
        components := components[t := map[]];
      }
      components := components[t := components[t][e := c]];
    }

    method RemoveComponent(e: Entity, t: ComponentType)
      requires Valid()
      modifies this`components
      ensures Valid()
      ensures components == Remove(old(components), e, t)
    {
      if t in components {
        components := components[t := components[t] - {e}];
      }
    }

    /** The component of type `t` on `e`, None when the table or the entry is absent. */
    function GetComponent(e: Entity, t: ComponentType): (r: Option<Component>)
      reads this
      requires Valid()
      ensures r.Some? ==> OfType(r.value, t)
    {
      Get(components, e, t)
    }

    /** The component that must exist: the source's assertion becomes the precondition. */
    function ComponentFor(e: Entity, t: ComponentType): (c: Component)
      reads this
      requires Valid() && Get(components, e, t).Some?
      ensures OfType(c, t) && Get(components, e, t) == Some(c)
    {
      Get(components, e, t).value
    }

    /** With no types, every created entity; otherwise those holding every listed type. */
    function GetEntitiesWith(types: seq<ComponentType>): (r: set<Entity>)
      reads this
      ensures types == [] ==> r == entities
      ensures types != [] ==> forall e :: e in r <==> forall i | 0 <= i < |types| :: Get(components, e, types[i]).Some?
    {
      if types == [] then entities else EntitiesWith(components, types)
    }

    /** Register a resource under its own type, replacing any earlier one. */
    method AddResource(r: Resource)
      requires Valid()
      modifies this`resources
      ensures Valid()
      ensures resources == old(resources)[r.kind := r]
      ensures HasResource(r.kind) && GetResource(r.kind) == Some(r.instance)
    {
      resources := resources[r.kind := r];
    }

    function GetResource(k: ResourceType): (r: Option<nat>)
      reads this
      ensures r.Some? <==> k in resources
      ensures r.Some? ==> r.value == resources[k].instance
    {
      if k in resources then Some(resources[k].instance) else None
    }

    function ResourceFor(k: ResourceType): (r: nat)
      reads this
      requires HasResource(k)
      ensures GetResource(k) == Some(r)
    {
      resources[k].instance
    }

    /** has_resource: exactly the types get_resource finds something under. */
    function HasResource(k: ResourceType): (b: bool)
      reads this
      ensures b <==> GetResource(k).Some?
    {
      k in resources
    }
  }

  /**
   * Remove every component of `e`, one type table at a time. The source
   * writes this loop out three times: `_destroy_pool`, `destroy_item` and
   * `_destroy_item`.
   */
  method DestroyEntity(w: World, e: Entity)
    requires w.Valid()
    modifies w`components
    ensures w.Valid()
    ensures w.components == Strip(old(w.components), e)
  {
    var pending := w.components.Keys;
    while pending != {}
      invariant w.Valid()
      invariant pending <= w.components.Keys == old(w.components).Keys
      invariant forall t | t in w.components ::
        w.components[t] == if t in pending then old(w.components)[t] else old(w.components)[t] - {e}
      decreases pending
    {
      var t :| t in pending;
      if e in w.components[t] {
        w.RemoveComponent(e, t);
      }
      pending := pending - {t};
    }
  }
}
