/** Screen rectangles for panels and popups (ui/rect.py). */
module Geometry {
  /** A rectangle of cells; the far edges X2 and Y2 are exclusive. */
  datatype Rect = Rect(x: int, y: int, width: int, height: int) {
    function X2(): int { x + width }
    function Y2(): int { y + height }

    /** inner: the rectangle without its one-cell border. */
    function Inner(): (r: Rect)
      ensures r.x == x + 1 && r.y == y + 1 && r.width == width - 2 && r.height == height - 2
      ensures r.X2() == X2() - 1 && r.Y2() == Y2() - 1
    {
      Rect(x + 1, y + 1, width - 2, height - 2)
    }

    /** contains: half-open on both axes. */
    predicate Contains(px: int, py: int) {
      x <= px < X2() && y <= py < Y2()
    }

    /** center: half the width and half the height (floor) in from the top-left corner. */
    function Center(): (r: (int, int))
      ensures width >= 1 && height >= 1 ==> Contains(r.0, r.1)
      ensures 0 <= (r.0 - x) - (X2() - 1 - r.0) <= 1
      ensures 0 <= (r.1 - y) - (Y2() - 1 - r.1) <= 1
    {
      (x + width / 2, y + height / 2)
    }
  }

  /** centered: a popup-sized rectangle placed in the middle of the screen (floor division). */
  function Centered(screenWidth: int, screenHeight: int, popupWidth: int, popupHeight: int): (r: Rect)
    ensures r.width == popupWidth && r.height == popupHeight
    ensures 0 <= (screenWidth - r.X2()) - r.x <= 1 && 0 <= (screenHeight - r.Y2()) - r.y <= 1
    ensures popupWidth <= screenWidth && popupHeight <= screenHeight ==>
              0 <= r.x && r.X2() <= screenWidth && 0 <= r.y && r.Y2() <= screenHeight
  {
    Rect((screenWidth - popupWidth) / 2, (screenHeight - popupHeight) / 2, popupWidth, popupHeight)
  }

  /** The interior is inside the rectangle, and no cell of the border is in the interior. */
  lemma InnerInside(r: Rect, px: int, py: int)
    ensures r.Inner().Contains(px, py) ==> r.Contains(px, py)
    ensures r.Contains(px, py) && (px == r.x || px == r.X2() - 1 || py == r.y || py == r.Y2() - 1)
            ==> !r.Inner().Contains(px, py)
  {
  }
}
