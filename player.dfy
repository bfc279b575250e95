/** The player (src/redoxbombs/game_element/player.rs): it walks one cell per
    move input unless a wall or a live bomb is in the way, and it drops bombs
    from a stock that refills one bomb at a time up to its cap. */
module PlayerElement {
  import opened Wrappers
  import opened Coords
  import opened MazeMap
  import opened Elements
  import opened Events

  /** Bombs a new player may have down at once. */
  const INITIAL_MAX_BOMBS: nat := 3

  /** Milliseconds after dropping a bomb until the stock gains it back. */
  const INITIAL_BOMB_RECOVERY_MILLIS: nat := 4000

  /** Where a move from `from` in direction `d` ends: the neighbour if that
      cell is neither blocked by the maze nor holds a live bomb, and `from`
      otherwise (`move_player`). */
  function MoveTarget(maze: Maze, liveBombs: seq<Option<Bomb>>, from: Coordinates, d: Direction): (r: Coordinates)
    requires CanStep(from, d)
    ensures r == from || r == Neighbour(from, d)
    ensures r == Neighbour(from, d) <==>
      !IsBlocked(maze, Neighbour(from, d))
      && !exists i :: 0 <= i < |liveBombs| && liveBombs[i] == Some(Bomb(Neighbour(from, d)))
  {
    var next := Neighbour(from, d);
    if !IsBlocked(maze, next) && !AnyGameElementAt(liveBombs, next) then next else from
  }

  /** The bomb stock after a game event (`update`): one more on
      `PlayerRecoverBomb` while below the cap, unchanged otherwise. */
  function Recovered(bombs: nat, maxBombs: nat, event: GameEvent): (r: nat)
    requires bombs <= maxBombs
    ensures r <= maxBombs
    ensures r == bombs + 1 <==> event.PlayerRecoverBomb? && bombs < maxBombs
    ensures r != bombs + 1 ==> r == bombs
  {
    match event
    case PlayerRecoverBomb => if bombs < maxBombs then bombs + 1 else bombs
    case _ => bombs
  }

  class Player {
    var position: Coordinates
    var maxBombs: nat
    var bombs: nat
    var bombRecoveryMillis: nat

    /** The stock never exceeds the cap. */
    ghost predicate Valid()
      reads this
    {
      bombs <= maxBombs
    }

    /** `Player::new`: a full stock of `INITIAL_MAX_BOMBS` at `(x, y)`. */
    constructor (x: nat, y: nat)
      ensures Valid()
      ensures position == Coordinates(x, y)
      ensures maxBombs == INITIAL_MAX_BOMBS && bombs == INITIAL_MAX_BOMBS
      ensures bombRecoveryMillis == INITIAL_BOMB_RECOVERY_MILLIS
    {
      position := Coordinates(x, y);
      maxBombs := INITIAL_MAX_BOMBS;
      bombs := INITIAL_MAX_BOMBS;
      bombRecoveryMillis := INITIAL_BOMB_RECOVERY_MILLIS;
    }

    /** `put_bomb`: a bomb on the player's cell. */
    function PutBomb(): (b: Bomb)
      reads this
      ensures b.position == position
      ensures AnyGameElementAt([Some(b)], position)
    {
      Bomb(position)
    }

    /** `move_player`: step to the neighbour in `d` when it is free. */
    method MovePlayer(maze: Maze, liveBombs: seq<Option<Bomb>>, d: Direction)
      requires CanStep(position, d)
      modifies this
      ensures position == MoveTarget(maze, liveBombs, old(position), d)
      ensures maxBombs == old(maxBombs) && bombs == old(bombs)
      ensures bombRecoveryMillis == old(bombRecoveryMillis)
    {
      var next := Neighbour(position, d);
      var blockedByBombs := AnyGameElementAt(liveBombs, next);
      if !IsBlocked(maze, next) && !blockedByBombs {
        position := next;
      }
    }

    /** `update_from_input_event`: a move input moves the player and reports
        an update; a bomb input with bombs in stock drops a bomb on the
        player's cell, takes it from the stock and schedules its recovery;
        every other input changes nothing. */
    method UpdateFromInputEvent(liveBombs: seq<Option<Bomb>>, maze: Maze, event: InputEvent, results: ResultQueue)
      requires Valid()
      requires event.PlayerMove? ==> CanStep(position, event.dir)
      modifies this, results
      ensures Valid()
      ensures maxBombs == old(maxBombs) && bombRecoveryMillis == old(bombRecoveryMillis)
      ensures event.PlayerMove? ==>
        && position == MoveTarget(maze, liveBombs, old(position), event.dir)
        && bombs == old(bombs)
        && results.events == old(results.events) + [GameUpdated]
      ensures event.PlayerCreateBomb? && old(bombs) > 0 ==>
        && position == old(position)
        && bombs == old(bombs) - 1
        && results.events == old(results.events)
          + [BombNew(Bomb(position)), GameScheduleEvent(bombRecoveryMillis, PlayerRecoverBomb)]
      ensures (event.PlayerCreateBomb? && old(bombs) == 0) || event.GamePause? || event.GameQuit? ==>
        && position == old(position)
        && bombs == old(bombs)
        && results.events == old(results.events)
    {
      match event
      case PlayerMove(d) =>
        MovePlayer(maze, liveBombs, d);
        results.PushBack(GameUpdated);
      case PlayerCreateBomb =>
        if bombs > 0 {
          var bomb := PutBomb();
          results.PushBack(BombNew(bomb));
          bombs := bombs - 1;
          results.PushBack(GameScheduleEvent(bombRecoveryMillis, PlayerRecoverBomb));
        }
      case _ =>
    }

    /** `update`: a game event can only refill the stock. */
    method Update(event: GameEvent)
      requires Valid()
      modifies this
      ensures Valid()
      ensures position == old(position) && maxBombs == old(maxBombs)
      ensures bombRecoveryMillis == old(bombRecoveryMillis)
      ensures bombs == Recovered(old(bombs), maxBombs, event)
    {
      match event
      case PlayerRecoverBomb =>
        if bombs < maxBombs {
          bombs := bombs + 1;
        }
      case _ =>
    }
  }

  /** A recovery undoes a drop: taking a bomb from a non-empty stock and then
      recovering it restores the stock, since the stock was below the cap. */
  lemma DropThenRecover(bombs: nat, maxBombs: nat)
    requires 0 < bombs <= maxBombs
    ensures Recovered(bombs - 1, maxBombs, PlayerRecoverBomb) == bombs
  {
  }
}
