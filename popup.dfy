/** Floating popup windows and the stack they are drawn from (ui/popup.py). */
module Popups {
  import opened Wrappers
  import opened Geometry

  /** A popup's size and title; its border style, colours and content renderer only affect drawing. */
  datatype Popup = Popup(width: int, height: int, title: Option<string>) {
    /** get_rect: the popup centred on the screen, with its own size. */
    function GetRect(screenWidth: int, screenHeight: int): (r: Rect)
      ensures r == Centered(screenWidth, screenHeight, width, height)
      ensures r.width == width && r.height == height
      ensures width <= screenWidth && height <= screenHeight ==>
                0 <= r.x && r.X2() <= screenWidth && 0 <= r.y && r.Y2() <= screenHeight
    {
      Centered(screenWidth, screenHeight, width, height)
    }
  }

  /** The terminal layer of the bottom popup; each popup above it gets the next layer. */
  const BaseLayer := 4

  /** One draw of PopupStack.render: the popup, where it goes and on which layer. */
  datatype Draw = Draw(popup: Popup, rect: Rect, layer: int)

  class PopupStack {
    const screenWidth: int
    const screenHeight: int
    /** Bottom first, top last. */
    var stack: seq<Popup>

    constructor(screenWidth: int, screenHeight: int)
      ensures this.screenWidth == screenWidth && this.screenHeight == screenHeight
      ensures stack == [] && IsEmpty()
    {
      this.screenWidth, this.screenHeight := screenWidth, screenHeight;
      stack := [];
    }

    method Push(popup: Popup)
      modifies this`stack
      ensures stack == old(stack) + [popup]
      ensures Peek() == Some(popup) && Depth() == old(Depth()) + 1
    {
      stack := stack + [popup];
    }

    /** pop: remove and return the top popup, or None on an empty stack. */
    method Pop() returns (r: Option<Popup>)
      modifies this`stack
      ensures old(stack) == [] ==> r == None && stack == []
      ensures old(stack) != [] ==> r == old(Peek()) && stack == old(stack)[..|old(stack)| - 1]
    {
      if |stack| > 0 {
        r := Some(stack[|stack| - 1]);
        stack := stack[..|stack| - 1];
      } else {
        r := None;
      }
    }

    /** peek: the top popup, None exactly when the stack is empty. */
    function Peek(): (r: Option<Popup>)
      reads this
      ensures r.None? <==> IsEmpty()
      ensures r.Some? ==> r.value == stack[Depth() - 1] && r.value in stack
    {
      if |stack| > 0 then Some(stack[|stack| - 1]) else None
    }

    predicate IsEmpty()
      reads this
    {
      |stack| == 0
    }

    method Clear()
      modifies this`stack
      ensures stack == [] && IsEmpty() && Peek() == None
    {
      stack := [];
    }

    function Depth(): nat
      reads this
    {
      |stack|
    }

    /** is_empty holds exactly when the depth is 0. */
    lemma EmptyIsDepthZero()
      ensures IsEmpty() <==> Depth() == 0
    {
    }

    /**
     * render: every popup from the bottom up, the i-th one centred on the
     * screen at layer BaseLayer + i, so a popup always lies above the ones
     * pushed before it.
     */
    method Render() returns (draws: seq<Draw>)
      ensures |draws| == |stack|
      ensures forall i | 0 <= i < |stack| ::
        draws[i] == Draw(stack[i], stack[i].GetRect(screenWidth, screenHeight), BaseLayer + i)
      ensures forall i, j | 0 <= i < j < |draws| :: draws[i].layer < draws[j].layer
    {
      draws := [];
      for i := 0 to |stack|
        invariant |draws| == i
        invariant forall k | 0 <= k < i ::
          draws[k] == Draw(stack[k], stack[k].GetRect(screenWidth, screenHeight), BaseLayer + k)
      {
        var layer := BaseLayer + i;
        draws := draws + [Draw(stack[i], stack[i].GetRect(screenWidth, screenHeight), layer)];
      }
    }
  }

  /** Pushing then popping hands back the pushed popup and restores the stack. */
  method PushThenPop(s: PopupStack, popup: Popup) returns (r: Option<Popup>)
    modifies s
    ensures r == Some(popup) && s.stack == old(s.stack)
  {
    s.Push(popup);
    r := s.Pop();
    assert s.stack == (old(s.stack) + [popup])[..|old(s.stack)|];
  }
}
