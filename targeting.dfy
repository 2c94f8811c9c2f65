/** Range, line and area geometry (effects/targeting.py). */
module Targeting {
  import opened Wrappers
  import opened GameMaps

  datatype Point = Point(x: int, y: int)

  function Abs(n: int): nat {
    if n < 0 then -n else n
  }

  /** max(|dx|, |dy|): the distance when a diagonal step costs 1. */
  function Chebyshev(x1: int, y1: int, x2: int, y2: int): (d: nat)
    ensures Abs(x2 - x1) <= d && Abs(y2 - y1) <= d
    ensures d == Abs(x2 - x1) || d == Abs(y2 - y1)
    ensures d == 0 <==> x1 == x2 && y1 == y2
  {
    Max(Abs(x2 - x1), Abs(y2 - y1))
  }

  lemma ChebyshevSymmetric(x1: int, y1: int, x2: int, y2: int)
    ensures Chebyshev(x1, y1, x2, y2) == Chebyshev(x2, y2, x1, y1)
  {
  }

  /** In range iff the target lies in the square of half-side max_range around the origin. */
  function IsInRange(originX: int, originY: int, targetX: int, targetY: int, maxRange: int): (b: bool)
    ensures b <==> Abs(targetX - originX) <= maxRange && Abs(targetY - originY) <= maxRange
  {
    Chebyshev(originX, originY, targetX, targetY) <= maxRange
  }

  /*
   * Bresenham's loop seeds its error term with `d / 2` as a float. Doubling
   * every error term (seed d, subtract 2 * d', add 2 * d) keeps the sign of
   * the error at every comparison, so the integer walk below visits the same
   * cells. A walk runs along a major axis (x when |dx| > |dy|, y otherwise).
   */

  /** The fixed data of one walk: directions, extents and which axis is major. */
  datatype Walk = Walk(sMajor: int, sMinor: int, dMajor: nat, dMinor: nat, xMajor: bool)

  ghost predicate WellFormed(w: Walk) {
    (w.sMajor == 1 || w.sMajor == -1) && (w.sMinor == 1 || w.sMinor == -1) && w.dMinor <= w.dMajor
  }

  /** The loop variables: position on the major and minor axis and the doubled error. */
  datatype Cursor = Cursor(major: int, minor: int, err: int)

  /** One loop iteration after the point has been appended. */
  function Step(c: Cursor, w: Walk): Cursor {
    var e := c.err - 2 * w.dMinor;
    if e < 0 then Cursor(c.major + w.sMajor, c.minor + w.sMinor, e + 2 * w.dMajor)
    else Cursor(c.major + w.sMajor, c.minor, e)
  }

  function PointOf(c: Cursor, w: Walk): Point {
    if w.xMajor then Point(c.major, c.minor) else Point(c.minor, c.major)
  }

  /** The points the loop appends in `n` iterations from `c`. */
  function Trace(c: Cursor, n: nat, w: Walk): seq<Point>
    decreases n
  {
    if n == 0 then [] else [PointOf(c, w)] + Trace(Step(c, w), n - 1, w)
  }

  /** The loop variables after `n` iterations. */
  function After(c: Cursor, n: nat, w: Walk): Cursor
    decreases n
  {
    if n == 0 then c else After(Step(c, w), n - 1, w)
  }

  /** How many of the first `n` iterations moved along the minor axis. */
  function Moves(c: Cursor, n: nat, w: Walk): nat
    decreases n
  {
    if n == 0 then 0 else (if c.err - 2 * w.dMinor < 0 then 1 else 0) + Moves(Step(c, w), n - 1, w)
  }

  /** The walk get_line runs: along x when |dx| > |dy|, along y otherwise, towards the target. */
  function LineWalk(x1: int, y1: int, x2: int, y2: int): (w: Walk)
    ensures WellFormed(w)
  {
    var dx, dy := Abs(x2 - x1), Abs(y2 - y1);
    var sx, sy := (if x1 < x2 then 1 else -1), (if y1 < y2 then 1 else -1);
    if dx > dy then Walk(sx, sy, dx, dy, true) else Walk(sy, sx, dy, dx, false)
  }

  /** The loop variables before the first iteration; the error is seeded with d_major. */
  function LineStart(x1: int, y1: int, x2: int, y2: int): Cursor {
    var dx, dy := Abs(x2 - x1), Abs(y2 - y1);
    if dx > dy then Cursor(x1, y1, dx) else Cursor(y1, x1, dy)
  }

  /** get_line: the cells from (x1, y1) to (x2, y2), both included. */
  function Line(x1: int, y1: int, x2: int, y2: int): seq<Point> {
    var w := LineWalk(x1, y1, x2, y2);
    Trace(LineStart(x1, y1, x2, y2), w.dMajor, w) + [Point(x2, y2)]
  }

  /** k steps in direction s (+1 or -1); `other` for any other s. */
  function Signed(s: int, k: nat, other: int): int {
    if s == 1 then k else if s == -1 then -(k as int) else other
  }

  /** Where the cursor is after n iterations: n steps along the major axis, Moves steps along the minor one. */
  lemma {:induction false} AfterPosition(c: Cursor, n: nat, w: Walk)
    ensures var a := After(c, n, w);
      a.major == c.major + Signed(w.sMajor, n, a.major - c.major)
      && a.minor == c.minor + Signed(w.sMinor, Moves(c, n, w), a.minor - c.minor)
      && Moves(c, n, w) <= n
    decreases n
  {
    if n > 0 {
      AfterPosition(Step(c, w), n - 1, w);
    }
  }

  /** The loop keeps the doubled error in [0, 2 * d_major). */
  lemma {:induction false} AfterErrBounds(c: Cursor, n: nat, w: Walk)
    requires WellFormed(w) && 0 <= c.err < 2 * w.dMajor
    ensures 0 <= After(c, n, w).err < 2 * w.dMajor
    decreases n
  {
    if n > 0 {
      AfterErrBounds(Step(c, w), n - 1, w);
    }
  }

  /** Each iteration takes 2 * d_minor off the error and each minor move adds 2 * d_major back. */
  lemma {:induction false} AfterErr(c: Cursor, n: nat, w: Walk)
    ensures After(c, n, w).err + 2 * n * w.dMinor == c.err + 2 * w.dMajor * Moves(c, n, w)
    decreases n
  {
    if n > 0 {
      var s := Step(c, w);
      AfterErr(s, n - 1, w);
      var m := Moves(s, n - 1, w);
      assert 2 * n * w.dMinor == 2 * w.dMinor + 2 * (n - 1) * w.dMinor;
      assert 2 * w.dMajor * (m + 1) == 2 * w.dMajor + 2 * w.dMajor * m;
    }
  }

  /** One more iteration is one more Step at the end. */
  lemma {:induction false} AfterSucc(c: Cursor, j: nat, w: Walk)
    ensures After(c, j + 1, w) == Step(After(c, j, w), w)
    ensures Moves(c, j + 1, w) == Moves(c, j, w) + (if After(c, j, w).err - 2 * w.dMinor < 0 then 1 else 0)
    decreases j
  {
    if j > 0 {
      AfterSucc(Step(c, w), j - 1, w);
    }
  }

  /** The j-th appended point is the cursor after j iterations. */
  lemma {:induction false} TraceAt(c: Cursor, n: nat, w: Walk, j: nat)
    requires j < n
    ensures |Trace(c, n, w)| == n
    ensures Trace(c, n, w)[j] == PointOf(After(c, j, w), w)
    decreases n
  {
    if j > 0 {
      TraceAt(Step(c, w), n - 1, w, j - 1);
    } else {
      TraceLength(c, n, w);
    }
  }

  lemma {:induction false} TraceLength(c: Cursor, n: nat, w: Walk)
    ensures |Trace(c, n, w)| == n
    decreases n
  {
    if n > 0 {
      TraceLength(Step(c, w), n - 1, w);
    }
  }

  /** The loop's trace grows by the current cursor's point. */
  lemma {:induction false} TraceSnoc(c: Cursor, n: nat, w: Walk)
    ensures Trace(c, n + 1, w) == Trace(c, n, w) + [PointOf(After(c, n, w), w)]
    decreases n
  {
    if n > 0 {
      TraceSnoc(Step(c, w), n - 1, w);
    }
  }

  /** If -a <= 2*a*m < a with a > 0 then m == 0. */
  lemma CentredMultiple(a: int, m: int)
    requires a > 0 && -a <= 2 * a * m < a
    ensures m == 0
  {
  }

  lemma WalkArithmetic(d: int, d': int, m: int, e: int)
    requires d > 0 && 0 <= e < 2 * d && e + 2 * d * d' == d + 2 * d * m
    ensures m == d'
  {
    var k := m - d';
    assert 2 * d * k == e - d;
    CentredMultiple(d, k);
  }

  /** A full walk seeded with err = d_major ends exactly d_minor minor steps away. */
  lemma FullWalkMoves(c: Cursor, w: Walk)
    requires WellFormed(w) && w.dMajor > 0 && c.err == w.dMajor
    ensures Moves(c, w.dMajor, w) == w.dMinor
  {
    AfterErrBounds(c, w.dMajor, w);
    AfterErr(c, w.dMajor, w);
    WalkArithmetic(w.dMajor, w.dMinor, Moves(c, w.dMajor, w), After(c, w.dMajor, w).err);
  }

  lemma {:induction false} MovesMonotone(c: Cursor, j: nat, n: nat, w: Walk)
    requires j <= n
    ensures Moves(c, j, w) <= Moves(c, n, w)
    decreases n - j
  {
    if j < n {
      AfterSucc(c, j, w);
      MovesMonotone(c, j + 1, n, w);
    }
  }

  /** Every point of the line, the appended end point included, is the cursor after that many iterations. */
  lemma LineAt(x1: int, y1: int, x2: int, y2: int, i: nat)
    requires i <= LineWalk(x1, y1, x2, y2).dMajor
    ensures |Line(x1, y1, x2, y2)| == LineWalk(x1, y1, x2, y2).dMajor + 1
    ensures Line(x1, y1, x2, y2)[i] == PointOf(After(LineStart(x1, y1, x2, y2), i, LineWalk(x1, y1, x2, y2)), LineWalk(x1, y1, x2, y2))
  {
    var w, c := LineWalk(x1, y1, x2, y2), LineStart(x1, y1, x2, y2);
    TraceLength(c, w.dMajor, w);
    if i < w.dMajor {
      TraceAt(c, w.dMajor, w, i);
    } else if w.dMajor > 0 {
      FullWalkMoves(c, w);
      AfterPosition(c, w.dMajor, w);
    }
  }

  /** get_line has max(|dx|, |dy|) + 1 points and runs from (x1, y1) to (x2, y2). */
  lemma LineEnds(x1: int, y1: int, x2: int, y2: int)
    ensures var line := Line(x1, y1, x2, y2);
      |line| == Max(Abs(x2 - x1), Abs(y2 - y1)) + 1
      && line[0] == Point(x1, y1)
      && line[|line| - 1] == Point(x2, y2)
  {
    LineAt(x1, y1, x2, y2, 0);
  }

  /**
   * Consecutive points of get_line: one step towards the target along the
   * major axis and at most one step along the other.
   */
  lemma LineSteps(x1: int, y1: int, x2: int, y2: int, i: nat)
    requires i + 1 < |Line(x1, y1, x2, y2)|
    ensures var line := Line(x1, y1, x2, y2);
      Abs(line[i + 1].x - line[i].x) <= 1 && Abs(line[i + 1].y - line[i].y) <= 1
      && if Abs(x2 - x1) > Abs(y2 - y1) then line[i + 1].x - line[i].x == (if x1 < x2 then 1 else -1)
         else line[i + 1].y - line[i].y == (if y1 < y2 then 1 else -1)
  {
    var w, c := LineWalk(x1, y1, x2, y2), LineStart(x1, y1, x2, y2);
    LineAt(x1, y1, x2, y2, 0);
    LineAt(x1, y1, x2, y2, i);
    LineAt(x1, y1, x2, y2, i + 1);
    AfterSucc(c, i, w);
  }

  /** Every point of get_line lies in the box spanned by its end points. */
  lemma LineInBox(x1: int, y1: int, x2: int, y2: int, i: nat)
    requires i < |Line(x1, y1, x2, y2)|
    ensures InBox(Line(x1, y1, x2, y2)[i], x1, y1, x2, y2)
  {
    var w, c := LineWalk(x1, y1, x2, y2), LineStart(x1, y1, x2, y2);
    LineAt(x1, y1, x2, y2, 0);
    LineAt(x1, y1, x2, y2, i);
    AfterPosition(c, i, w);
    MovesMonotone(c, i, w.dMajor, w);
    if w.dMajor > 0 {
      FullWalkMoves(c, w);
    }
  }

  /** p lies in the box spanned by (x1, y1) and (x2, y2). */
  predicate InBox(p: Point, x1: int, y1: int, x2: int, y2: int) {
    (x1 <= p.x <= x2 || x2 <= p.x <= x1) && (y1 <= p.y <= y2 || y2 <= p.y <= y1)
  }

  /** Bresenham's loop, as get_line runs it, with the error doubled. */
  method GetLine(x1: int, y1: int, x2: int, y2: int) returns (points: seq<Point>)
    ensures points == Line(x1, y1, x2, y2)
  {
    if Abs(x2 - x1) > Abs(y2 - y1) {
      points := WalkAlongX(x1, y1, x2, y2);
    } else {
      points := WalkAlongY(x1, y1, x2, y2);
    }
    points := points + [Point(x2, y2)];
  }

  /** get_line's loop when x is the major axis: every point before the end point. */
  method WalkAlongX(x1: int, y1: int, x2: int, y2: int) returns (points: seq<Point>)
    requires Abs(x2 - x1) > Abs(y2 - y1)
    ensures points == Trace(LineStart(x1, y1, x2, y2), LineWalk(x1, y1, x2, y2).dMajor, LineWalk(x1, y1, x2, y2))
  {
    points := [];
    var dx, dy := Abs(x2 - x1), Abs(y2 - y1);
    var x, y := x1, y1;
    var sx := if x1 < x2 then 1 else -1;
    var sy := if y1 < y2 then 1 else -1;
    ghost var w, c := LineWalk(x1, y1, x2, y2), LineStart(x1, y1, x2, y2);
    ghost var i: nat := 0;
    var err := dx;
    while x != x2
      invariant i <= dx
      invariant Cursor(x, y, err) == After(c, i, w)
      invariant points == Trace(c, i, w)
      decreases dx - i
    {
      AfterPosition(c, i, w);
      TraceSnoc(c, i, w);
      AfterSucc(c, i, w);
      points := points + [Point(x, y)];
      err := err - 2 * dy;
      if err < 0 {
        y := y + sy;
        err := err + 2 * dx;
      }
      x := x + sx;
      i := i + 1;
    }
    AfterPosition(c, i, w);
  }

  /** get_line's loop when y is the major axis: every point before the end point. */
  method WalkAlongY(x1: int, y1: int, x2: int, y2: int) returns (points: seq<Point>)
    requires Abs(x2 - x1) <= Abs(y2 - y1)
    ensures points == Trace(LineStart(x1, y1, x2, y2), LineWalk(x1, y1, x2, y2).dMajor, LineWalk(x1, y1, x2, y2))
  {
    points := [];
    var dx, dy := Abs(x2 - x1), Abs(y2 - y1);
    var x, y := x1, y1;
    var sx := if x1 < x2 then 1 else -1;
    var sy := if y1 < y2 then 1 else -1;
    ghost var w, c := LineWalk(x1, y1, x2, y2), LineStart(x1, y1, x2, y2);
    ghost var i: nat := 0;
    var err := dy;
    while y != y2
      invariant i <= dy
      invariant Cursor(y, x, err) == After(c, i, w)
      invariant points == Trace(c, i, w)
      decreases dy - i
    {
      AfterPosition(c, i, w);
      TraceSnoc(c, i, w);
      AfterSucc(c, i, w);
      points := points + [Point(x, y)];
      err := err - 2 * dx;
      if err < 0 {
        x := x + sx;
        err := err + 2 * dy;
      }
      y := y + sy;
      i := i + 1;
    }
    AfterPosition(c, i, w);
  }

  /** A cell that blocks sight. */
  predicate Blocks(m: GameMap, p: Point)
    reads m
    requires m.Valid()
  {
    m.InBounds(p.x, p.y) && m.BlocksSight(p.x, p.y)
  }

  /**
   * has_line_of_sight: walk the line without its two end points and stop at
   * the first cell that blocks sight. End points on the map keep every
   * interior cell on it.
   */
  method HasLineOfSight(x1: int, y1: int, x2: int, y2: int, m: GameMap) returns (clear: bool)
    requires m.Valid() && m.InBounds(x1, y1) && m.InBounds(x2, y2)
    ensures var line := Line(x1, y1, x2, y2);
      clear <==> forall i | 1 <= i < |line| - 1 :: !Blocks(m, line[i])
  {
    var line := GetLine(x1, y1, x2, y2);
    var i := 1;
    while i < |line| - 1
      invariant 1 <= i
      invariant forall k | 1 <= k < i && k < |line| - 1 :: !Blocks(m, line[k])
    {
      LineInBox(x1, y1, x2, y2, i);
      if m.BlocksSight(line[i].x, line[i].y) {
        return false;
      }
      i := i + 1;
    }
    return true;
  }

  /** A line of at most two points has no interior cell, so nothing can block it. */
  lemma ShortLineIsClear(x1: int, y1: int, x2: int, y2: int, m: GameMap)
    requires m.Valid() && Abs(x2 - x1) <= 1 && Abs(y2 - y1) <= 1
    ensures var line := Line(x1, y1, x2, y2);
      |line| <= 2 && forall i | 1 <= i < |line| - 1 :: !Blocks(m, line[i])
  {
    LineEnds(x1, y1, x2, y2);
  }

  /** (p.y, p.x) comes before (q.y, q.x) in row-major order. */
  predicate RowMajorBefore(p: Point, q: Point) {
    p.y < q.y || (p.y == q.y && p.x < q.x)
  }

  /**
   * get_tiles_in_radius: the square |dx|, |dy| <= radius around the centre,
   * cut to the map, row by row; a negative radius gives no tiles.
   */
  method TilesInRadius(centerX: int, centerY: int, radius: int, m: GameMap) returns (tiles: seq<Point>)
    ensures forall p :: p in tiles <==>
      m.InBounds(p.x, p.y) && Abs(p.x - centerX) <= radius && Abs(p.y - centerY) <= radius
    ensures forall i, j | 0 <= i < j < |tiles| :: RowMajorBefore(tiles[i], tiles[j])
  {
    tiles := [];
    var dy := -radius;
    while dy < radius + 1
      invariant -radius <= dy && (dy <= radius + 1 || dy == -radius)
      invariant forall p :: p in tiles <==>
        m.InBounds(p.x, p.y) && Abs(p.x - centerX) <= radius && -radius <= p.y - centerY < dy
      invariant forall i, j | 0 <= i < j < |tiles| :: RowMajorBefore(tiles[i], tiles[j])
      invariant forall i | 0 <= i < |tiles| :: tiles[i].y < centerY + dy
    {
      var dx := -radius;
      while dx < radius + 1
        invariant -radius <= dx <= radius + 1
        invariant forall p :: p in tiles <==>
          m.InBounds(p.x, p.y) && Abs(p.x - centerX) <= radius
          && (-radius <= p.y - centerY < dy || (p.y - centerY == dy && p.x - centerX < dx))
        invariant forall i, j | 0 <= i < j < |tiles| :: RowMajorBefore(tiles[i], tiles[j])
        invariant forall i | 0 <= i < |tiles| :: RowMajorBefore(tiles[i], Point(centerX + dx, centerY + dy))
      {
        if Chebyshev(0, 0, dx, dy) <= radius {
          var tx, ty := centerX + dx, centerY + dy;
          if m.InBounds(tx, ty) {
            tiles := tiles + [Point(tx, ty)];
          }
        }
        dx := dx + 1;
      }
      dy := dy + 1;
    }
  }
}
