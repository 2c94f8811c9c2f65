/** The viewport that follows the player over the map (camera/camera.py). */
module CameraView {
  import opened Wrappers

  /** _clamp: the value pulled into [lo, hi]; when lo > hi the lower bound wins. */
  function Clamp(value: int, lo: int, hi: int): (r: int)
    ensures lo <= hi ==> lo <= r <= hi
    ensures lo <= value <= hi ==> r == value
    ensures value < lo ==> r == lo
    ensures lo <= hi < value ==> r == hi
    ensures hi < lo ==> r == lo
  {
    Max(lo, Min(value, hi))
  }

  /**
   * The left (or top) edge update chooses for a target on one axis: the
   * target centred in a viewport of `size` cells, kept within a map of
   * `mapSize` cells.
   */
  function Follow(target: int, size: int, mapSize: int): int {
    Clamp(target - size / 2, 0, Max(0, mapSize - size))
  }

  /** The camera never leaves the map: its edge stays in [0, max(0, mapSize - size)]. */
  lemma FollowInMap(target: int, size: int, mapSize: int)
    ensures 0 <= Follow(target, size, mapSize) <= Max(0, mapSize - size)
  {
  }

  /** Away from the map edges the target sits at the viewport's centre cell (size floor-div 2 from the edge). */
  lemma FollowCentres(target: int, size: int, mapSize: int)
    requires 0 <= target - size / 2 <= mapSize - size
    ensures Follow(target, size, mapSize) == target - size / 2
  {
  }

  /** A target on a map at least as large as the viewport is always in view after an update. */
  lemma FollowKeepsTargetInView(target: int, size: int, mapSize: int)
    requires 1 <= size <= mapSize && 0 <= target < mapSize
    ensures 0 <= target - Follow(target, size, mapSize) < size
  {
  }

  class Camera {
    var width: int
    var height: int
    var mapWidth: int
    var mapHeight: int
    /** The top-left corner of the viewport, in world cells. */
    var x: int
    var y: int

    constructor(width: int, height: int, mapWidth: int, mapHeight: int)
      ensures this.width == width && this.height == height
      ensures this.mapWidth == mapWidth && this.mapHeight == mapHeight
      ensures x == 0 && y == 0
    {
      this.width, this.height := width, height;
      this.mapWidth, this.mapHeight := mapWidth, mapHeight;
      x, y := 0, 0;
    }

    /** update: centre the viewport on the target, clamped to the map on each axis. */
    method Update(targetX: int, targetY: int)
      modifies this`x, this`y
      ensures x == Follow(targetX, width, mapWidth) && y == Follow(targetY, height, mapHeight)
      ensures 0 <= x <= Max(0, mapWidth - width) && 0 <= y <= Max(0, mapHeight - height)
    {
      var targetCameraX := targetX - width / 2;
      var targetCameraY := targetY - height / 2;
      x := Clamp(targetCameraX, 0, Max(0, mapWidth - width));
      y := Clamp(targetCameraY, 0, Max(0, mapHeight - height));
    }

    function WorldToScreen(worldX: int, worldY: int): (int, int)
      reads this
    {
      (worldX - x, worldY - y)
    }

    function ScreenToWorld(screenX: int, screenY: int): (int, int)
      reads this
    {
      (screenX + x, screenY + y)
    }

    /** world_to_screen and screen_to_world undo each other, in both orders. */
    lemma ScreenWorldInverse(wx: int, wy: int, sx: int, sy: int)
      ensures ScreenToWorld(WorldToScreen(wx, wy).0, WorldToScreen(wx, wy).1) == (wx, wy)
      ensures WorldToScreen(ScreenToWorld(sx, sy).0, ScreenToWorld(sx, sy).1) == (sx, sy)
      ensures WorldToScreen(wx, wy) == (sx, sy) <==> ScreenToWorld(sx, sy) == (wx, wy)
    {
    }

    predicate IsVisible(worldX: int, worldY: int)
      reads this
    {
      x <= worldX < x + width && y <= worldY < y + height
    }

    /** is_visible holds exactly when the point lands on the screen grid [0, width) x [0, height). */
    lemma VisibleOnScreen(wx: int, wy: int)
      ensures IsVisible(wx, wy) <==>
        (0 <= WorldToScreen(wx, wy).0 < width && 0 <= WorldToScreen(wx, wy).1 < height)
    {
    }

    /** get_visible_bounds: (start_x, start_y, end_x, end_y), the ends exclusive. */
    function VisibleBounds(): (r: (int, int, int, int))
      reads this
      ensures r.0 == x && r.1 == y
      ensures r.2 <= mapWidth && r.2 <= x + width && (r.2 == mapWidth || r.2 == x + width)
      ensures r.3 <= mapHeight && r.3 <= y + height && (r.3 == mapHeight || r.3 == y + height)
    {
      (x, y, Min(x + width, mapWidth), Min(y + height, mapHeight))
    }

    /**
     * After an update on a map no smaller than the viewport, the bounds
     * cover the whole viewport and every cell inside them is visible.
     */
    lemma BoundsAfterFollow(tx: int, ty: int, wx: int, wy: int)
      requires 0 <= width <= mapWidth && 0 <= height <= mapHeight
      requires x == Follow(tx, width, mapWidth) && y == Follow(ty, height, mapHeight)
      ensures VisibleBounds() == (x, y, x + width, y + height)
      ensures (VisibleBounds().0 <= wx < VisibleBounds().2 && VisibleBounds().1 <= wy < VisibleBounds().3)
              <==> IsVisible(wx, wy)
    {
      FollowInMap(tx, width, mapWidth);
      FollowInMap(ty, height, mapHeight);
    }
  }
}
