/** The stairs (src/redoxbombs/game_element/stairs.rs): on their turn they end
    the level when the player stands on them, and otherwise wait. */
module StairsElement {
  import opened Coords
  import opened MazeMap
  import opened Events
  import opened PlayerElement

  /** The stairs never move, so they are a value. */
  datatype Stairs = Stairs(position: Coordinates)

  /** `take_turn`: `NextLevel` exactly when released with the player on the
      stairs' cell, `StairsBlock` in every other case. */
  function TakeTurn(stairs: Stairs, player: Player, maze: Maze, event: GameEvent): (r: ResultEvent)
    reads player
    ensures r == NextLevel <==> event.StairsRelease? && player.position == stairs.position
    ensures r == NextLevel || r == StairsBlock
  {
    match event
    case StairsRelease => if player.position == stairs.position then NextLevel else StairsBlock
    case _ => StairsBlock
  }

  /** The maze plays no part in the stairs' decision. */
  lemma TakeTurnIgnoresMaze(stairs: Stairs, player: Player, m1: Maze, m2: Maze, event: GameEvent)
    ensures TakeTurn(stairs, player, m1, event) == TakeTurn(stairs, player, m2, event)
  {
  }
}
