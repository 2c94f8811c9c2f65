/** The arena map generator (map/generators.py). */
module Generators {
  import opened GameMaps

  /** Distance between pillar origins. */
  const PillarSpacing: int := 8

  /** A tile on the outer ring of a width x height map. */
  predicate OnBorder(width: nat, height: nat, x: int, y: int) {
    x == 0 || y == 0 || x == width - 1 || y == height - 1
  }

  /**
   * A tile covered by one of the 2x2 pillars: its origin (px, py) is a
   * positive multiple of the spacing with px < width - 2 and py < height - 2.
   */
  predicate InPillar(width: nat, height: nat, x: int, y: int) {
    x >= PillarSpacing && y >= PillarSpacing
    && x % PillarSpacing <= 1 && y % PillarSpacing <= 1
    && x - x % PillarSpacing < width - 2 && y - y % PillarSpacing < height - 2
  }

  /** The finished arena: walls on the border and in the pillars, floor elsewhere. */
  function ArenaTile(width: nat, height: nat, x: int, y: int): TileType {
    if OnBorder(width, height, x, y) || InPillar(width, height, x, y) then Wall else Floor
  }

  /** Pillars never touch the border ring, so every pillar write is on the map. */
  lemma PillarInsideBorder(width: nat, height: nat, x: int, y: int)
    requires InPillar(width, height, x, y)
    ensures 0 < x < width - 1 && 0 < y < height - 1
  {
  }

  /** After the first pass: the border ring and floor in the interior. */
  function RingTile(width: nat, height: nat, x: int, y: int): TileType {
    if OnBorder(width, height, x, y) then Wall else Floor
  }

  /**
   * The pillar cell (x, y) has been written once the two outer loops have
   * passed its pillar's origin (loop order: rows of pillars, then columns).
   */
  predicate PillarDone(width: nat, height: nat, x: int, y: int, py: int, px: int) {
    InPillar(width, height, x, y)
    && var oy, ox := y - y % PillarSpacing, x - x % PillarSpacing;
       oy < py || (oy == py && ox < px)
  }

  /** The cells of the 2x2 pillar with origin (px, py). */
  predicate InBlock(x: int, y: int, px: int, py: int) {
    px <= x <= px + 1 && py <= y <= py + 1
  }

  /** Two multiples of the spacing less than one spacing apart are equal. */
  lemma {:induction false} MultiplesApart(a: int, b: int)
    requires a % PillarSpacing == 0 && b % PillarSpacing == 0 && b - PillarSpacing < a < b + PillarSpacing
    ensures a == b
  {
    var i, j := a / PillarSpacing, b / PillarSpacing;
    assert a == PillarSpacing * i && b == PillarSpacing * j;
    assert -1 < i - j < 1;
  }

  /** The pillar origin of a cell is a multiple of the spacing at most one below it. */
  lemma {:induction false} Origin(x: int, px: int)
    requires px % PillarSpacing == 0
    ensures px <= x <= px + 1 ==> x % PillarSpacing == x - px
    ensures x % PillarSpacing <= 1 && x - x % PillarSpacing == px ==> px <= x <= px + 1
    ensures (x - x % PillarSpacing) % PillarSpacing == 0
  {
    if px <= x <= px + 1 {
      var k := px / PillarSpacing;
      assert x == PillarSpacing * k + (x - px);
    }
  }

  /** Placing the pillar at (px, py) extends the written set by exactly its block. */
  lemma AdvanceColumn(width: nat, height: nat, x: int, y: int, py: int, px: int)
    requires px % PillarSpacing == 0 && py % PillarSpacing == 0
    requires PillarSpacing <= px < width - 2 && PillarSpacing <= py < height - 2
    ensures PillarDone(width, height, x, y, py, px + PillarSpacing)
      <==> PillarDone(width, height, x, y, py, px) || InBlock(x, y, px, py)
  {
    Origin(x, px);
    Origin(y, py);
    var oy, ox := y - y % PillarSpacing, x - x % PillarSpacing;
    if InPillar(width, height, x, y) && oy == py && px <= ox < px + PillarSpacing {
      MultiplesApart(ox, px);
    }
  }

  /** Past the last column of a row of pillars, the whole row is written. */
  lemma AdvanceRow(width: nat, height: nat, x: int, y: int, py: int, px: int)
    requires px % PillarSpacing == 0 && py % PillarSpacing == 0 && px >= width - 2
    ensures PillarDone(width, height, x, y, py, px)
      <==> PillarDone(width, height, x, y, py + PillarSpacing, PillarSpacing)
  {
    Origin(x, 0);
    Origin(y, 0);
    var oy := y - y % PillarSpacing;
    if InPillar(width, height, x, y) && py < oy < py + PillarSpacing {
      MultiplesApart(oy, py + PillarSpacing);
    }
  }

  /** Nothing is written before the first pillar; everything after the last row. */
  lemma PillarBounds(width: nat, height: nat, x: int, y: int, py: int)
    ensures !PillarDone(width, height, x, y, PillarSpacing, PillarSpacing)
    ensures py >= height - 2 ==> (PillarDone(width, height, x, y, py, PillarSpacing) <==> InPillar(width, height, x, y))
  {
  }

  /** The first pass: the border ring of walls, floor inside. */
  method RingPass(m: GameMap)
    requires m.Valid() && forall x, y | m.InBounds(x, y) :: m.GetTile(x, y) == Floor
    modifies m
    ensures m.Valid()
    ensures forall x, y | m.InBounds(x, y) :: m.GetTile(x, y) == RingTile(m.width, m.height, x, y)
  {
    var y := 0;
    while y < m.height
      invariant 0 <= y <= m.height && m.Valid()
      invariant forall x', y' | m.InBounds(x', y') ::
        m.GetTile(x', y') == if y' < y then RingTile(m.width, m.height, x', y') else Floor
    {
      var x := 0;
      while x < m.width
        invariant 0 <= x <= m.width && m.Valid()
        invariant forall x', y' | m.InBounds(x', y') ::
          m.GetTile(x', y') == if y' < y || (y' == y && x' < x) then RingTile(m.width, m.height, x', y') else Floor
      {
        if x == 0 || y == 0 || x == m.width - 1 || y == m.height - 1 {
          m.SetTile(x, y, Wall);
        } else {
          m.SetTile(x, y, Floor);
        }
        x := x + 1;
      }
      y := y + 1;
    }
  }

  /** One 2x2 pillar of wall with origin (px, py); every other tile is kept. */
  method PlacePillar(m: GameMap, px: int, py: int)
    requires m.Valid() && m.InBounds(px, py) && m.InBounds(px + 1, py + 1)
    modifies m
    ensures m.Valid()
    ensures forall x, y | m.InBounds(x, y) ::
      m.GetTile(x, y) == if InBlock(x, y, px, py) then Wall else old(m.GetTile(x, y))
  {
    for dy := 0 to 2
      invariant m.Valid()
      invariant forall x, y | m.InBounds(x, y) ::
        m.GetTile(x, y) == if px <= x <= px + 1 && py <= y < py + dy then Wall else old(m.GetTile(x, y))
    {
      for dx := 0 to 2
        invariant m.Valid()
        invariant forall x, y | m.InBounds(x, y) ::
          m.GetTile(x, y) == if (px <= x <= px + 1 && py <= y < py + dy) || (py + dy == y && px <= x < px + dx)
                             then Wall else old(m.GetTile(x, y))
      {
        m.SetTile(px + dx, py + dy, Wall);
      }
    }
  }

  /**
   * ArenaGenerator.generate: a border of walls round a floor, then a 2x2
   * wall pillar at every (8i, 8j) strictly inside the border.
   */
  method Generate(width: nat, height: nat) returns (m: GameMap)
    ensures fresh(m) && m.Valid() && m.width == width && m.height == height
    ensures forall x, y | m.InBounds(x, y) :: m.GetTile(x, y) == ArenaTile(width, height, x, y)
  {
    m := new GameMap(width, height);
    RingPass(m);
    var py := PillarSpacing;
    forall x, y ensures !PillarDone(width, height, x, y, py, PillarSpacing) {
      PillarBounds(width, height, x, y, py);
    }
    while py < height - 2
      invariant py >= PillarSpacing && py % PillarSpacing == 0
      invariant m.Valid() && m.width == width && m.height == height
      invariant forall x, y | m.InBounds(x, y) ::
        m.GetTile(x, y) == if OnBorder(width, height, x, y) || PillarDone(width, height, x, y, py, PillarSpacing) then Wall else Floor
    {
      var px := PillarSpacing;
      while px < width - 2
        invariant px >= PillarSpacing && px % PillarSpacing == 0
        invariant m.Valid() && m.width == width && m.height == height
        invariant forall x, y | m.InBounds(x, y) ::
          m.GetTile(x, y) == if OnBorder(width, height, x, y) || PillarDone(width, height, x, y, py, px) then Wall else Floor
      {
        PlacePillar(m, px, py);
        forall x, y ensures PillarDone(width, height, x, y, py, px + PillarSpacing)
            <==> PillarDone(width, height, x, y, py, px) || InBlock(x, y, px, py) {
          AdvanceColumn(width, height, x, y, py, px);
        }
        px := px + PillarSpacing;
      }
      forall x, y ensures PillarDone(width, height, x, y, py, px)
          <==> PillarDone(width, height, x, y, py + PillarSpacing, PillarSpacing) {
        AdvanceRow(width, height, x, y, py, px);
      }
      py := py + PillarSpacing;
    }
    forall x, y ensures PillarDone(width, height, x, y, py, PillarSpacing) <==> InPillar(width, height, x, y) {
      PillarBounds(width, height, x, y, py);
    }
  }
}
