/** The tile grid (map/map.py). */
module GameMaps {
  datatype TileType = Floor | Wall | ShallowWater | DeepWater | Abyss

  /** A row of `TILE_PROPERTIES`; the glyph column is presentation and is left out. */
  datatype TileProperties = TileProperties(blocksMovement: bool, blocksSight: bool, movementCost: int)

  function Properties(t: TileType): (p: TileProperties)
    ensures p.blocksSight <==> t == Wall
    ensures p.blocksMovement <==> t == Wall || t == DeepWater || t == Abyss
  {
    match t
    case Floor => TileProperties(false, false, 1)
    case Wall => TileProperties(true, true, 0)
    case ShallowWater => TileProperties(false, false, 2)
    case DeepWater => TileProperties(true, false, 3)
    case Abyss => TileProperties(true, false, 0)
  }

  class GameMap {
    const width: nat
    const height: nat
    /** `tiles[y][x]`, one row per y. */
    var tiles: seq<seq<TileType>>

    ghost predicate Valid()
      reads this
    {
      |tiles| == height && forall y | 0 <= y < height :: |tiles[y]| == width
    }

    /** A width x height grid of floor. */
    constructor (width: nat, height: nat)
      ensures Valid() && this.width == width && this.height == height
      ensures forall x, y | InBounds(x, y) :: GetTile(x, y) == Floor
    {
      this.width := width;
      this.height := height;
      tiles := seq(height, _ => seq(width, _ => Floor));
    }

    predicate InBounds(x: int, y: int) {
      0 <= x < width && 0 <= y < height
    }

    function GetTile(x: int, y: int): TileType
      reads this
      requires Valid() && InBounds(x, y)
    {
      tiles[y][x]
    }

    /** Overwrite one tile and no other. */
    method SetTile(x: int, y: int, t: TileType)
      requires Valid() && InBounds(x, y)
      modifies this
      ensures Valid()
      ensures tiles == old(tiles)[y := old(tiles)[y][x := t]]
      ensures GetTile(x, y) == t
      ensures forall x', y' | InBounds(x', y') && (x' != x || y' != y) :: GetTile(x', y') == old(GetTile(x', y'))
    {
      tiles := tiles[y := tiles[y][x := t]];
    }

    /** blocks_movement as written: false outside the map, although its comment says it should block. */
    function BlocksMovementAsWritten(x: int, y: int): (b: bool)
      reads this
      requires Valid()
      ensures !InBounds(x, y) ==> !b
      ensures InBounds(x, y) ==> b == BlocksMovement(x, y)
    {
      if !InBounds(x, y) then false else Properties(GetTile(x, y)).blocksMovement
    }

    /** blocks_movement as its comment intends: everything outside the map blocks. */
    function BlocksMovement(x: int, y: int): (b: bool)
      reads this
      requires Valid()
      ensures !b <==> InBounds(x, y) && GetTile(x, y) in {Floor, ShallowWater}
    {
      if !InBounds(x, y) then true else Properties(GetTile(x, y)).blocksMovement
    }

    /** Only walls block sight. Python indexing outside the grid is not modelled. */
    function BlocksSight(x: int, y: int): (b: bool)
      reads this
      requires Valid() && InBounds(x, y)
      ensures b <==> GetTile(x, y) == Wall
    {
      Properties(GetTile(x, y)).blocksSight
    }
  }

  /** Finding: as written, a step off the map is never blocked, whatever the map holds. */
  lemma OffMapNotBlockedAsWritten(m: GameMap)
    requires m.Valid()
    ensures !m.InBounds(-1, 0) && !m.BlocksMovementAsWritten(-1, 0)
  {
  }

  /** The corrected rule never lets a position leave the map. */
  lemma UnblockedIsInBounds(m: GameMap, x: int, y: int)
    requires m.Valid() && !m.BlocksMovement(x, y)
    ensures m.InBounds(x, y) && !m.BlocksMovementAsWritten(x, y)
  {
  }
}
