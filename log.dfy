/** The bounded, scrollable message log (ui/log.py). */
module MessageLogs {
  import opened Wrappers

  datatype Message = Message(text: string, color: string)

  /** What a deque with maxlen n keeps of s: its newest n elements. */
  function Newest<T>(s: seq<T>, n: nat): (r: seq<T>)
    ensures |r| == Min(|s|, n)
    ensures r == s[|s| - |r|..]
  {
    if |s| > n then s[|s| - n..] else s
  }

  /**
   * Appending to a full deque drops the oldest element; below the bound
   * nothing is dropped; and the appended element is the newest one kept.
   */
  lemma NewestAppend<T>(s: seq<T>, m: T, n: nat)
    requires |s| <= n
    ensures |s| < n ==> Newest(s + [m], n) == s + [m]
    ensures |s| == n >= 1 ==> Newest(s + [m], n) == s[1..] + [m]
    ensures n >= 1 ==> Newest(s + [m], n)[|Newest(s + [m], n)| - 1] == m
    ensures n == 0 ==> Newest(s + [m], n) == []
  {
    if |s| == n >= 1 {
      assert (s + [m])[1..] == s[1..] + [m];
    }
  }

  /** Where a Python slice bound i falls in a list of length n (negative bounds count from the end). */
  function SliceBound(i: int, n: nat): (r: nat)
    ensures r <= n
    ensures 0 <= i <= n ==> r == i
  {
    if i < 0 then Max(0, n + i) else Min(i, n)
  }

  /** The (text, color) pairs of a run of messages, in order. */
  function Pairs(ms: seq<Message>): (r: seq<(string, string)>)
    ensures |r| == |ms| && forall i | 0 <= i < |ms| :: r[i] == (ms[i].text, ms[i].color)
  {
    seq(|ms|, i requires 0 <= i < |ms| => (ms[i].text, ms[i].color))
  }

  /**
   * The slice get_visible_messages takes from a log of `total` messages:
   * it ends `offset` messages before the newest and holds at most `lines`.
   */
  function VisibleRange(total: nat, offset: int, lines: int): (r: (nat, nat))
    ensures r.0 <= r.1 <= total
    ensures offset <= total ==> r.1 - r.0 <= Max(0, lines)
    ensures 0 <= offset <= total ==> r.1 == total - offset
    ensures 0 <= offset <= total && lines >= 0 ==> r.1 - r.0 == Min(lines, total - offset)
  {
    var endIdx := total - offset;
    var startIdx := Max(0, endIdx - lines);
    var a, b := SliceBound(startIdx, total), SliceBound(endIdx, total);
    (Min(a, b), b)
  }

  /** Scrolling up by amount: the offset grows, but never past the oldest message. */
  function ScrolledUp(offset: int, total: nat, amount: int): int {
    Min(offset + amount, Max(0, total - 1))
  }

  /** Scrolling down by amount: the offset shrinks, but never below the newest message. */
  function ScrolledDown(offset: int, amount: int): int {
    Max(0, offset - amount)
  }

  /** A non-negative scroll up keeps a valid offset in [0, max(0, total - 1)]. */
  lemma ScrollUpInRange(offset: int, total: nat, amount: int)
    requires 0 <= offset <= Max(0, total - 1) && amount >= 0
    ensures offset <= ScrolledUp(offset, total, amount) <= Max(0, total - 1)
  {
  }

  /** A non-negative scroll down never goes below 0 nor moves up. */
  lemma ScrollDownInRange(offset: int, amount: int)
    requires amount >= 0
    ensures 0 <= ScrolledDown(offset, amount) && (offset >= 0 ==> ScrolledDown(offset, amount) <= offset)
  {
  }

  class MessageLog {
    const maxMessages: nat
    var messages: seq<Message>
    /** How many of the newest messages are scrolled past; 0 shows the newest. */
    var scrollOffset: int

    /** The deque's bound holds. */
    ghost predicate Valid()
      reads this
    {
      |messages| <= maxMessages
    }

    constructor(maxMessages: nat := 200)
      ensures Valid() && this.maxMessages == maxMessages
      ensures messages == [] && scrollOffset == 0
    {
      this.maxMessages := maxMessages;
      messages := [];
      scrollOffset := 0;
    }

    /** add: append at the newest end, dropping the oldest when full, and jump back to the bottom. */
    method Add(text: string, color: string := "white")
      requires Valid()
      modifies this`messages, this`scrollOffset
      ensures Valid()
      ensures messages == Newest(old(messages) + [Message(text, color)], maxMessages)
      ensures scrollOffset == 0
    {
      messages := Newest(messages + [Message(text, color)], maxMessages);
      scrollOffset := 0;
    }

    /** get_visible_messages: a run of at most `lines` messages, oldest first. */
    function GetVisibleMessages(lines: int): (r: seq<(string, string)>)
      reads this
      ensures |messages| == 0 ==> r == []
      ensures scrollOffset <= |messages| ==> |r| <= Max(0, lines)
      ensures var (a, b) := VisibleRange(|messages|, scrollOffset, lines);
        |messages| > 0 ==> r == Pairs(messages[a..b])
    {
      if |messages| == 0 then []
      else
        var (a, b) := VisibleRange(|messages|, scrollOffset, lines);
        Pairs(messages[a..b])
    }

    /** At the bottom the newest message is the last one shown. */
    lemma BottomShowsNewest(lines: int)
      requires IsAtBottom() && |messages| > 0 && lines >= 1
      ensures var r := GetVisibleMessages(lines);
        |r| == Min(lines, |messages|) && r[|r| - 1] == (messages[|messages| - 1].text, messages[|messages| - 1].color)
    {
    }

    /** Scrolled to the top, only the oldest message is shown. */
    lemma TopShowsOldest(lines: int)
      requires scrollOffset == Max(0, |messages| - 1) && |messages| > 0 && lines >= 1
      ensures GetVisibleMessages(lines) == [(messages[0].text, messages[0].color)]
    {
    }

    method ScrollUp(amount: int := 1)
      modifies this`scrollOffset
      ensures scrollOffset == ScrolledUp(old(scrollOffset), |messages|, amount)
    {
      var maxScroll := Max(0, |messages| - 1);
      scrollOffset := Min(scrollOffset + amount, maxScroll);
    }

    method ScrollDown(amount: int := 1)
      modifies this`scrollOffset
      ensures scrollOffset == ScrolledDown(old(scrollOffset), amount)
    {
      scrollOffset := Max(0, scrollOffset - amount);
    }

    method ScrollToBottom()
      modifies this`scrollOffset
      ensures scrollOffset == 0 && IsAtBottom()
    {
      scrollOffset := 0;
    }

    method ScrollToTop()
      modifies this`scrollOffset
      ensures scrollOffset == Max(0, |messages| - 1) && !CanScrollUp()
    {
      scrollOffset := Max(0, |messages| - 1);
    }

    predicate CanScrollUp()
      reads this
    {
      scrollOffset < |messages| - 1
    }

    predicate CanScrollDown()
      reads this
    {
      scrollOffset > 0
    }

    predicate IsAtBottom()
      reads this
    {
      scrollOffset == 0
    }

    /**
     * From an offset within the log, can_scroll_up holds exactly when scrolling
     * up one step moves, and can_scroll_down exactly when scrolling down one
     * step moves; is_at_bottom is the case where down cannot move.
     */
    lemma CanScrollMeansMoves()
      requires 0 <= scrollOffset <= Max(0, |messages| - 1)
      ensures CanScrollUp() <==> ScrolledUp(scrollOffset, |messages|, 1) != scrollOffset
      ensures CanScrollDown() <==> ScrolledDown(scrollOffset, 1) != scrollOffset
      ensures IsAtBottom() <==> !CanScrollDown()
    {
    }
  }
}
