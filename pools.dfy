/** Ground pools: lookup, replacement and creation (effects/pools.py). */
module Pools {
  import opened Wrappers
  import opened EffectTypes
  import opened Components
  import opened Ecs

  /** How many turns a pool lasts unless told otherwise. */
  const PoolDuration: int := 5

  /**
   * POOL_COLORS, the default colour of a pool by kind. The table covers all
   * eight kinds, so the lookup's "white" fallback never applies.
   */
  function DefaultColor(t: EffectType): string {
    match t
    case Heal => "light green"
    case Damage => "red"
    case Poison => "purple"
    case Regen => "green"
    case RestoreMana => "light blue"
    case DrainMana => "dark blue"
    case StatBuff => "yellow"
    case StatDebuff => "orange"
  }

  /**
   * POOL_NAMES, the liquid a pool is named after. The table covers all
   * eight kinds, so the lookup's "strange liquid" fallback never applies.
   */
  function PoolName(t: EffectType): string {
    match t
    case Heal => "healing liquid"
    case Damage => "harmful liquid"
    case Poison => "poisonous liquid"
    case Regen => "regenerative liquid"
    case RestoreMana => "mana-restoring liquid"
    case DrainMana => "mana-draining liquid"
    case StatBuff => "empowering liquid"
    case StatDebuff => "weakening liquid"
  }

  /** p is a pool standing on (x, y). */
  predicate IsPoolAt(tables: Tables, p: Entity, x: int, y: int) {
    Get(tables, p, GroundPoolType).Some? && Get(tables, p, PositionType) == Some(Position(x, y))
  }

  /** At most one pool per tile: the invariant create_pool keeps. */
  ghost predicate OnePoolPerTile(tables: Tables) {
    forall p, q, x, y | IsPoolAt(tables, p, x, y) && IsPoolAt(tables, q, x, y) :: p == q
  }

  /** get_pool_at: a pool on (x, y), or None iff there is none. */
  method GetPoolAt(w: World, x: int, y: int) returns (r: Option<Entity>)
    requires w.Valid()
    ensures r.Some? ==> IsPoolAt(w.components, r.value, x, y)
    ensures r.None? <==> forall p :: !IsPoolAt(w.components, p, x, y)
  {
    var candidates := w.GetEntitiesWith([GroundPoolType, PositionType]);
    while candidates != {}
      invariant forall p | IsPoolAt(w.components, p, x, y) :: p in candidates
      invariant forall p | p in candidates :: Get(w.components, p, PositionType).Some? && Get(w.components, p, GroundPoolType).Some?
      decreases candidates
    {
      var p :| p in candidates;
      var pos := w.ComponentFor(p, PositionType);
      if pos.x == x && pos.y == y {
        assert IsPoolAt(w.components, p, x, y);
        return Some(p);
      }
      candidates := candidates - {p};
    }
    return None;
  }

  /** The one pool on a tile, when pools never share a tile. */
  lemma UniquePool(tables: Tables, p: Entity, x: int, y: int)
    requires OnePoolPerTile(tables) && IsPoolAt(tables, p, x, y)
    ensures forall q :: IsPoolAt(tables, q, x, y) <==> q == p
  {
  }

  /** remove_pool_at: destroy a pool on (x, y) if there is one, and say whether there was. */
  method RemovePoolAt(w: World, x: int, y: int) returns (removed: bool)
    requires w.Valid()
    modifies w`components
    ensures w.Valid()
    ensures removed <==> exists p :: IsPoolAt(old(w.components), p, x, y)
    ensures removed ==> exists p :: IsPoolAt(old(w.components), p, x, y) && w.components == Strip(old(w.components), p)
    ensures !removed ==> w.components == old(w.components)
  {
    var pool := GetPoolAt(w, x, y);
    if pool.Some? {
      DestroyEntity(w, pool.value);
      return true;
    }
    return false;
  }

  /** The store with entity e given a Position on (x, y), a Drawable and a GroundPool. */
  function Placed(tables: Tables, e: Entity, x: int, y: int, drawable: Component, pool: Component): Tables {
    Put(Put(Put(tables, e, Position(x, y)), e, drawable), e, pool)
  }

  /**
   * The store create_pool leaves behind: the pool that stood on (x, y), if
   * any, destroyed, and the new entity e placed there.
   */
  ghost predicate Replaced(before: Tables, after: Tables, e: Entity, x: int, y: int, drawable: Component, pool: Component) {
    if exists p :: IsPoolAt(before, p, x, y) then
      exists p :: IsPoolAt(before, p, x, y) && after == Placed(Strip(before, p), e, x, y, drawable, pool)
    else after == Placed(before, e, x, y, drawable, pool)
  }

  /**
   * What a replacement leaves alone and what it clears: every entity but
   * the new one and the pools on (x, y) keeps every component, and with
   * one pool per tile the replaced pool keeps none.
   */
  lemma ReplacedFrame(before: Tables, after: Tables, e: Entity, x: int, y: int, drawable: Component, pool: Component)
    requires Replaced(before, after, e, x, y, drawable, pool)
    ensures forall e', t | e' != e && !IsPoolAt(before, e', x, y) :: Get(after, e', t) == Get(before, e', t)
    ensures OnePoolPerTile(before) ==> forall p, t | IsPoolAt(before, p, x, y) && p != e :: Get(after, p, t) == None
  {
    if exists p :: IsPoolAt(before, p, x, y) {
      var p :| IsPoolAt(before, p, x, y) && after == Placed(Strip(before, p), e, x, y, drawable, pool);
      if OnePoolPerTile(before) {
        UniquePool(before, p, x, y);
      }
    }
  }

  /** Destroying the one pool on a tile leaves the tile without pools and the invariant intact. */
  lemma StripPool(tables: Tables, p: Entity, x: int, y: int)
    requires OnePoolPerTile(tables) && IsPoolAt(tables, p, x, y)
    ensures OnePoolPerTile(Strip(tables, p))
    ensures forall q :: !IsPoolAt(Strip(tables, p), q, x, y)
  {
    var r := Strip(tables, p);
    forall q, x', y' | IsPoolAt(r, q, x', y')
      ensures q != p && IsPoolAt(tables, q, x', y')
    {
      assert Get(r, q, GroundPoolType) == if q == p then None else Get(tables, q, GroundPoolType);
      assert Get(r, q, PositionType) == Get(tables, q, PositionType);
    }
  }

  /**
   * Placing a new pool entity on a tile that has none keeps at most one
   * pool per tile and makes it the only pool there.
   */
  lemma PlacePool(tables: Tables, e: Entity, x: int, y: int, drawable: Component, pool: Component)
    requires OnePoolPerTile(tables) && forall q :: !IsPoolAt(tables, q, x, y)
    requires pool.GroundPool? && drawable.Drawable?
    ensures var r := Placed(tables, e, x, y, drawable, pool);
      OnePoolPerTile(r) && forall q :: IsPoolAt(r, q, x, y) <==> q == e
  {
    var r := Placed(tables, e, x, y, drawable, pool);
    forall q, x', y' ensures IsPoolAt(r, q, x', y') <==> (if q == e then x' == x && y' == y else IsPoolAt(tables, q, x', y')) {
      assert Get(r, q, GroundPoolType) == if q == e then Some(pool) else Get(tables, q, GroundPoolType);
      assert Get(r, q, PositionType) == if q == e then Some(Position(x, y)) else Get(tables, q, PositionType);
    }
  }

  /** The entity create_pool builds: a fresh id with Position, Drawable and GroundPool. */
  method SpawnPool(w: World, x: int, y: int, drawable: Component, pool: Component) returns (e: Entity)
    requires w.Valid() && drawable.Drawable? && pool.GroundPool?
    modifies w`components, w`nextEntityId, w`entities
    ensures w.Valid()
    ensures e == old(w.nextEntityId) && w.nextEntityId == old(w.nextEntityId) + 1
    ensures w.components == Placed(old(w.components), e, x, y, drawable, pool)
    ensures Get(w.components, e, PositionType) == Some(Position(x, y))
    ensures Get(w.components, e, DrawableType) == Some(drawable)
    ensures Get(w.components, e, GroundPoolType) == Some(pool)
  {
    e := w.CreateEntity();
    w.AddComponent(e, Position(x, y));
    w.AddComponent(e, drawable);
    w.AddComponent(e, pool);
  }

  /** After remove_pool_at on (x, y), a world with one pool per tile has none there. */
  lemma ClearedTile(before: Tables, cleared: Tables, removed: bool, x: int, y: int)
    requires OnePoolPerTile(before)
    requires removed <==> exists p :: IsPoolAt(before, p, x, y)
    requires removed ==> exists p :: IsPoolAt(before, p, x, y) && cleared == Strip(before, p)
    requires !removed ==> cleared == before
    ensures OnePoolPerTile(cleared) && forall q :: !IsPoolAt(cleared, q, x, y)
  {
    if removed {
      var p :| IsPoolAt(before, p, x, y) && cleared == Strip(before, p);
      StripPool(before, p, x, y);
    }
  }

  /** The look of a new pool: the given colour, or its kind's default, and a name after its liquid. */
  function PoolDrawable(effectType: EffectType, color: Option<string>): (r: Component)
    ensures r.Drawable? && r.name == "pool of " + PoolName(effectType)
    ensures r.color == if color.Some? then color.value else DefaultColor(effectType)
  {
    Drawable("~", if color.Some? then color.value else DefaultColor(effectType), "pool of " + PoolName(effectType))
  }

  /**
   * create_pool: replace any pool on (x, y) with a new entity carrying
   * Position, Drawable and GroundPool; the colour defaults by kind and the
   * name comes from the table.
   */
  method CreatePool(w: World, x: int, y: int, effectType: EffectType, power: int,
                    sourceEntity: Option<Entity> := None, duration: int := PoolDuration,
                    color: Option<string> := None)
    returns (e: Entity)
    requires w.Valid()
    modifies w`components, w`nextEntityId, w`entities
    ensures w.Valid()
    ensures e == old(w.nextEntityId) && w.nextEntityId == old(w.nextEntityId) + 1
    ensures Get(w.components, e, GroundPoolType) == Some(GroundPool(effectType, power, duration, PoolName(effectType), sourceEntity))
    ensures Get(w.components, e, PositionType) == Some(Position(x, y))
    ensures Get(w.components, e, DrawableType) == Some(PoolDrawable(effectType, color))
    ensures Replaced(old(w.components), w.components, e, x, y,
                     PoolDrawable(effectType, color), GroundPool(effectType, power, duration, PoolName(effectType), sourceEntity))
    ensures forall e', t | e' != e && !IsPoolAt(old(w.components), e', x, y) :: Get(w.components, e', t) == Get(old(w.components), e', t)
    ensures OnePoolPerTile(old(w.components)) ==>
      forall p, t | IsPoolAt(old(w.components), p, x, y) && p != e :: Get(w.components, p, t) == None
    ensures OnePoolPerTile(old(w.components)) ==>
      OnePoolPerTile(w.components) && forall q :: IsPoolAt(w.components, q, x, y) <==> q == e
  {
    ghost var before := w.components;
    var removed := RemovePoolAt(w, x, y);
    ghost var cleared := w.components;
    if OnePoolPerTile(before) {
      ClearedTile(before, cleared, removed, x, y);
    }
    var drawable := PoolDrawable(effectType, color);
    var pool := GroundPool(effectType, power, duration, PoolName(effectType), sourceEntity);
    e := SpawnPool(w, x, y, drawable, pool);
    if OnePoolPerTile(before) {
      PlacePool(cleared, e, x, y, drawable, pool);
    }
    ReplacedFrame(before, w.components, e, x, y, drawable, pool);
  }
}
