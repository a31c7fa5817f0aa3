/** The table from input events to the one operation each of them triggers
    (lib/GameStateChanger.java). The operations themselves belong to
    GameState and Inventory, whose bodies are not part of this model: each is
    represented by the action value naming it and its arguments. */
module GameStateChanger {
  import opened Wrappers
  import opened Models

  /** The event types the dispatch names, and any other type, which it
      treats alike. */
  datatype EventType =
    | PlayerMoveUp | PlayerMoveDown | PlayerMoveLeft | PlayerMoveRight
    | PlayerSelectItem | PlayerUnselectItem
    | PlayerSelectNextItem | PlayerSelectPreviousItem
    | PlayerEquipItem
    | GameExit
    | Unlisted(name: string)

  datatype Action =
    /** `GameState.updateGameState(dx, dy)`. */
    | UpdateGameState(dx: int, dy: int)
    /** `Inventory.setSelectedStatus(selected)`. */
    | SetSelectedStatus(selected: bool)
    /** `Inventory.selectNext()`. */
    | SelectNext
    /** `Inventory.selectPrevious()`. */
    | SelectPrevious
    /** `Inventory.selectedItemChangeEquipStatus(player)`. */
    | ChangeEquipStatus(player: Player)
    /** Shut the game down; nothing else happens. */
    | Exit
    /** Log a warning about the event; nothing else happens. */
    | Warn(event: EventType)

  /** Whether an action may change the game or the inventory. */
  predicate Mutates(a: Action) {
    !(a.Exit? || a.Warn?)
  }

  function Abs(n: int): nat {
    if n < 0 then -n else n
  }

  /** The action for `event`; `player` is the game state's current player. */
  function Call(player: Player, event: EventType): (a: Action)
    ensures event == PlayerMoveUp <==> a == UpdateGameState(0, -1)
    ensures event == PlayerMoveDown <==> a == UpdateGameState(0, 1)
    ensures event == PlayerMoveLeft <==> a == UpdateGameState(-1, 0)
    ensures event == PlayerMoveRight <==> a == UpdateGameState(1, 0)
    ensures a.UpdateGameState? ==> Abs(a.dx) + Abs(a.dy) == 1
    ensures event == PlayerSelectItem <==> a == SetSelectedStatus(true)
    ensures event == PlayerUnselectItem <==> a == SetSelectedStatus(false)
    ensures event == PlayerSelectNextItem <==> a == SelectNext
    ensures event == PlayerSelectPreviousItem <==> a == SelectPrevious
    ensures event == PlayerEquipItem <==> a == ChangeEquipStatus(player)
    ensures event == GameExit <==> a == Exit
    ensures event.Unlisted? <==> a == Warn(event)
    ensures Mutates(a) <==> !(event == GameExit || event.Unlisted?)
  {
    match event
    case PlayerMoveUp => UpdateGameState(0, -1)
    case PlayerMoveDown => UpdateGameState(0, 1)
    case PlayerMoveLeft => UpdateGameState(-1, 0)
    case PlayerMoveRight => UpdateGameState(1, 0)
    case PlayerSelectItem => SetSelectedStatus(true)
    case PlayerUnselectItem => SetSelectedStatus(false)
    case PlayerSelectNextItem => SelectNext
    case PlayerSelectPreviousItem => SelectPrevious
    case PlayerEquipItem => ChangeEquipStatus(player)
    case GameExit => Exit
    case Unlisted(_) => Warn(event)
  }

  /** The move event, if any, whose delta is (dx, dy). */
  function MoveEventFor(dx: int, dy: int): Option<EventType> {
    if (dx, dy) == (0, -1) then Some(PlayerMoveUp)
    else if (dx, dy) == (0, 1) then Some(PlayerMoveDown)
    else if (dx, dy) == (-1, 0) then Some(PlayerMoveLeft)
    else if (dx, dy) == (1, 0) then Some(PlayerMoveRight)
    else None
  }

  /** The four move events and the four unit steps correspond one to one:
      every move event's delta leads back to it, and every unit step is the
      delta of exactly the event `MoveEventFor` names. */
  lemma MoveEventsAreUnitSteps(player: Player, event: EventType, dx: int, dy: int)
    ensures var a := Call(player, event);
            a.UpdateGameState? ==> MoveEventFor(a.dx, a.dy) == Some(event)
    ensures Abs(dx) + Abs(dy) == 1 <==> MoveEventFor(dx, dy).Some?
    ensures MoveEventFor(dx, dy).Some? ==>
              Call(player, MoveEventFor(dx, dy).value) == UpdateGameState(dx, dy)
  {
  }

  /** Different events never trigger the same action for a given player. */
  lemma CallIsInjective(player: Player, e1: EventType, e2: EventType)
    ensures Call(player, e1) == Call(player, e2) ==> e1 == e2
  {
  }
}
