/** The events exchanged between the game loop and the game elements, with the
    variants the element modules construct and match on, and the outgoing
    queue that each element appends its result events to. */
module Events {
  import opened Coords
  import opened Elements

  /** An event produced by a user input. */
  datatype InputEvent = PlayerMove(dir: Direction) | PlayerCreateBomb | GamePause | GameQuit

  /** An event the game schedules so that each element gets its turn; `id` is
      the element's index in its slot vector. */
  datatype GameEvent =
    | BombInit(id: nat)
    | BombExplode(id: nat)
    | PlayerRecoverBomb
    | EnemyRelease(id: nat)
    | EnemyCheckCollision(id: nat)
    | FireInit(id: nat)
    | FireCheckCollision(id: nat)
    | FirePutOut(id: nat)
    | StairsRelease

  /** An event produced by a game element as the consequence of an input or a
      game event. */
  datatype ResultEvent =
    | DoNothing
    | GameUpdated
    | PlayerDied
    | NextLevel
    | StairsBlock
    | GameScheduleEvent(millis: nat, event: GameEvent)
    | GameSetEvent(event: GameEvent)
    | BombNew(bomb: Bomb)
    | BombDelete(id: nat)
    | FireNew(fire: Fire)
    | FireDelete(id: nat)
    | EnemyBlock(id: nat)
    | EnemyCheckCollision(id: nat)
    | EnemyDelete(id: nat)

  /** The `VecDeque<ResultEvent>` the elements push their results onto. */
  class ResultQueue {
    var events: seq<ResultEvent>

    constructor ()
      ensures events == []
    {
      events := [];
    }

    /** `push_back`: the event goes after every queued one. */
    method PushBack(e: ResultEvent)
      modifies this
      ensures events == old(events) + [e]
    {
      events := events + [e];
    }

    /** `extend`: the events go after every queued one, in order. */
    method Extend(es: seq<ResultEvent>)
      modifies this
      ensures events == old(events) + es
    {
      events := events + es;
    }
  }
}
