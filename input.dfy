/** Key handling: action results, handlers and the handler stack (input/input.py). */
module InputHandling {
  import opened Wrappers

  /**
   * What an action asks of the input manager: whether the player's turn is
   * spent, a handler to push, and whether to pop the current one.
   */
  datatype ActionResult = ActionResult(consumedTurn: bool, pushHandler: Option<InputHandler>, pop: bool)

  /**
   * A set of keybinds. A bound action is modelled by the result it returns;
   * what running it does to the game is not part of this model.
   */
  datatype InputHandler = InputHandler(name: string, keybinds: map<int, ActionResult>)

  function NoOp(): (r: ActionResult)
    ensures !r.consumedTurn && r.pushHandler.None? && !r.pop
  {
    ActionResult(false, None, false)
  }

  function TurnPassed(): (r: ActionResult)
    ensures r.consumedTurn && r.pushHandler.None? && !r.pop
  {
    ActionResult(true, None, false)
  }

  function Push(handler: InputHandler): (r: ActionResult)
    ensures !r.consumedTurn && r.pushHandler == Some(handler) && !r.pop
  {
    ActionResult(false, Some(handler), false)
  }

  function PopHandler(): (r: ActionResult)
    ensures !r.consumedTurn && r.pushHandler.None? && r.pop
  {
    ActionResult(false, None, true)
  }

  function TurnAndPush(handler: InputHandler): (r: ActionResult)
    ensures r.consumedTurn && r.pushHandler == Some(handler) && !r.pop
  {
    ActionResult(true, Some(handler), false)
  }

  function TurnAndPop(): (r: ActionResult)
    ensures r.consumedTurn && r.pushHandler.None? && r.pop
  {
    ActionResult(true, None, true)
  }

  /** InputHandler.handle_key: the bound action's result, or handle_unbound_key's no-op. */
  function HandleKey(handler: InputHandler, key: int): (r: ActionResult)
    ensures key in handler.keybinds ==> r == handler.keybinds[key]
    ensures key !in handler.keybinds ==> !r.consumedTurn && r.pushHandler.None? && !r.pop
  {
    if key in handler.keybinds then handler.keybinds[key] else NoOp()
  }

  /** A call of a handler's on_enter or on_exit hook, in the order the manager makes them. */
  datatype Hook = Enter(handler: InputHandler) | Exit(handler: InputHandler)

  /** A handler stack and the hooks called so far. */
  datatype Stack = Stack(handlers: seq<InputHandler>, hooks: seq<Hook>)

  /** push_handler: the current handler is told it is left, then the new one that it is entered. */
  function Pushed(s: Stack, handler: InputHandler): (r: Stack)
    requires |s.handlers| >= 1
    ensures r.handlers == s.handlers + [handler] && r.handlers[|r.handlers| - 1] == handler
    ensures r.hooks == s.hooks + [Exit(s.handlers[|s.handlers| - 1]), Enter(handler)]
  {
    Stack(s.handlers + [handler], s.hooks + [Exit(s.handlers[|s.handlers| - 1]), Enter(handler)])
  }

  /** pop_handler: only above the bottom handler; the popped one is left, then the revealed one entered. */
  function Popped(s: Stack): (r: Stack)
    requires |s.handlers| >= 1
    ensures |r.handlers| >= 1
    ensures |s.handlers| > 1 ==> r.handlers == s.handlers[..|s.handlers| - 1]
    ensures |s.handlers| > 1 ==>
      r.hooks == s.hooks + [Exit(s.handlers[|s.handlers| - 1]), Enter(s.handlers[|s.handlers| - 2])]
    ensures |s.handlers| == 1 ==> r == s
  {
    if |s.handlers| > 1 then
      var rest := s.handlers[..|s.handlers| - 1];
      Stack(rest, s.hooks + [Exit(s.handlers[|s.handlers| - 1]), Enter(rest[|rest| - 1])])
    else s
  }

  /** process_key's effect on the stack: a requested pop first, then a requested push. */
  function Processed(s: Stack, result: ActionResult): (r: Stack)
    requires |s.handlers| >= 1
    ensures |r.handlers| >= 1
  {
    var afterPop := if result.pop then Popped(s) else s;
    if result.pushHandler.Some? then Pushed(afterPop, result.pushHandler.value) else afterPop
  }

  /** A no-op result leaves the handler stack and its hooks alone and spends no turn. */
  lemma NoOpKeepsStack(s: Stack)
    requires |s.handlers| >= 1
    ensures Processed(s, NoOp()) == s && !NoOp().consumedTurn
  {
  }

  /** A turn_passed result spends the turn and leaves the handler stack alone. */
  lemma TurnPassedKeepsStack(s: Stack)
    requires |s.handlers| >= 1
    ensures Processed(s, TurnPassed()) == s && TurnPassed().consumedTurn
  {
  }

  /** A push result makes its handler current, one deeper, without spending the turn. */
  lemma PushMakesCurrent(s: Stack, handler: InputHandler)
    requires |s.handlers| >= 1
    ensures Processed(s, Push(handler)) == Pushed(s, handler) && !Push(handler).consumedTurn
    ensures var r := Processed(s, Push(handler)).handlers; r[|r| - 1] == handler && |r| == |s.handlers| + 1
  {
  }

  /** A pop result pops above the bottom handler, without spending the turn. */
  lemma PopHandlerPops(s: Stack)
    requires |s.handlers| >= 1
    ensures Processed(s, PopHandler()) == Popped(s) && !PopHandler().consumedTurn
    ensures |s.handlers| > 1 ==> Processed(s, PopHandler()).handlers == s.handlers[..|s.handlers| - 1]
  {
  }

  /** A turn_and_push result spends the turn and makes its handler current. */
  lemma TurnAndPushMakesCurrent(s: Stack, handler: InputHandler)
    requires |s.handlers| >= 1
    ensures Processed(s, TurnAndPush(handler)) == Pushed(s, handler) && TurnAndPush(handler).consumedTurn
    ensures var r := Processed(s, TurnAndPush(handler)).handlers; r[|r| - 1] == handler && |r| == |s.handlers| + 1
  {
  }

  /** A turn_and_pop result spends the turn and pops above the bottom handler. */
  lemma TurnAndPopPops(s: Stack)
    requires |s.handlers| >= 1
    ensures Processed(s, TurnAndPop()) == Popped(s) && TurnAndPop().consumedTurn
    ensures |s.handlers| > 1 ==> Processed(s, TurnAndPop()).handlers == s.handlers[..|s.handlers| - 1]
  {
  }

  /** Pushing and then popping restores the stack (the hooks record both moves). */
  lemma PushThenPopRestores(s: Stack, handler: InputHandler)
    requires |s.handlers| >= 1
    ensures Popped(Pushed(s, handler)).handlers == s.handlers
  {
    assert (s.handlers + [handler])[..|s.handlers|] == s.handlers;
  }

  /**
   * The depth after process_key: down one for a pop above the bottom, up
   * one for a push; a result asking for both replaces the top handler.
   */
  lemma ProcessedDepth(s: Stack, result: ActionResult)
    requires |s.handlers| >= 1
    ensures |Processed(s, result).handlers| ==
      |s.handlers| - (if result.pop && |s.handlers| > 1 then 1 else 0) + (if result.pushHandler.Some? then 1 else 0)
    ensures result.pop && result.pushHandler.Some? && |s.handlers| > 1 ==>
      Processed(s, result).handlers == s.handlers[..|s.handlers| - 1] + [result.pushHandler.value]
    ensures !result.pop && result.pushHandler.None? ==> Processed(s, result) == s
  {
  }

  class InputManager {
    var handlerStack: seq<InputHandler>
    /** The on_enter / on_exit calls made so far, oldest first. */
    var hooks: seq<Hook>

    /** The stack is never empty. */
    ghost predicate Valid()
      reads this
    {
      |handlerStack| >= 1
    }

    function State(): Stack
      reads this
    {
      Stack(handlerStack, hooks)
    }

    constructor(initial: InputHandler)
      ensures Valid() && handlerStack == [initial] && hooks == [Enter(initial)]
    {
      handlerStack := [initial];
      hooks := [Enter(initial)];
    }

    function CurrentHandler(): (r: InputHandler)
      requires Valid()
      reads this
      ensures r == handlerStack[|handlerStack| - 1]
    {
      handlerStack[|handlerStack| - 1]
    }

    method PushHandler(handler: InputHandler)
      requires Valid()
      modifies this
      ensures Valid() && State() == Pushed(old(State()), handler)
      ensures CurrentHandler() == handler && |handlerStack| == old(|handlerStack|) + 1
    {
      hooks := hooks + [Exit(CurrentHandler())];
      handlerStack := handlerStack + [handler];
      hooks := hooks + [Enter(handler)];
    }

    method PopHandler() returns (popped: bool)
      requires Valid()
      modifies this
      ensures Valid() && State() == Popped(old(State()))
      ensures popped <==> old(|handlerStack|) > 1
    {
      if |handlerStack| > 1 {
        var top := handlerStack[|handlerStack| - 1];
        handlerStack := handlerStack[..|handlerStack| - 1];
        hooks := hooks + [Exit(top)];
        hooks := hooks + [Enter(CurrentHandler())];
        return true;
      }
      return false;
    }

    /** process_key: hand the key to the current handler, apply its result, report whether a turn passed. */
    method ProcessKey(key: int) returns (consumedTurn: bool)
      requires Valid()
      modifies this
      ensures Valid()
      ensures State() == Processed(old(State()), HandleKey(old(CurrentHandler()), key))
      ensures consumedTurn == HandleKey(old(CurrentHandler()), key).consumedTurn
    {
      var result := HandleKey(CurrentHandler(), key);
      if result.pop {
        var _ := PopHandler();
      }
      if result.pushHandler.Some? {
        PushHandler(result.pushHandler.value);
      }
      return result.consumedTurn;
    }
  }
}
