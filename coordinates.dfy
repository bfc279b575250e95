/** Grid geometry of the game: a cell position with unsigned axes, its four
    neighbours, the Manhattan distance and the one-step moves toward a target
    (src/redoxbombs/game_element/coordinates.rs). */
module Coords {

  /** The four directions a player can be moved in (`Direction` of events.rs). */
  datatype Direction = Up | Down | Left | Right

  /** A cell of the maze. Both axes are `usize`, so never negative. */
  datatype Coordinates = Coordinates(x: nat, y: nat) {

    /** The cell above; `y - 1` on a `usize`, which panics when `y == 0`. */
    function Up(): (r: Coordinates)
      requires y >= 1
      ensures r.x == x && r.y < y
      ensures ManhattanDistance(this, r) == 1
    {
      Coordinates(x, y - 1)
    }

    /** The cell below. */
    function Down(): (r: Coordinates)
      ensures r.x == x && r.y > y
      ensures ManhattanDistance(this, r) == 1
    {
      Coordinates(x, y + 1)
    }

    /** The cell to the left; `x - 1` on a `usize`, which panics when `x == 0`. */
    function Left(): (r: Coordinates)
      requires x >= 1
      ensures r.y == y && r.x < x
      ensures ManhattanDistance(this, r) == 1
    {
      Coordinates(x - 1, y)
    }

    /** The cell to the right. */
    function Right(): (r: Coordinates)
      ensures r.y == y && r.x > x
      ensures ManhattanDistance(this, r) == 1
    {
      Coordinates(x + 1, y)
    }
  }

  /** `abs_sub`: the distance between two unsigned numbers, computed by
      subtracting the smaller from the larger so that it never underflows. */
  function AbsSub(a: nat, b: nat): (r: nat)
    ensures a >= b ==> b + r == a
    ensures b >= a ==> a + r == b
  {
    if a > b then a - b else b - a
  }

  /** `manhattan_distance`: |a.x - b.x| + |a.y - b.y|. */
  function ManhattanDistance(a: Coordinates, b: Coordinates): (r: nat)
    ensures r == 0 <==> a == b
    ensures r == AbsSub(b.x, a.x) + AbsSub(b.y, a.y)
  {
    AbsSub(a.x, b.x) + AbsSub(a.y, b.y)
  }

  /** `next_to`: one unit closer to `target`, or `current` itself when equal. */
  function NextTo(current: nat, target: nat): (r: nat)
    ensures current == target ==> r == current
    ensures current != target ==> AbsSub(r, target) + 1 == AbsSub(current, target)
    ensures AbsSub(r, current) <= 1
    ensures current <= r <= target || target <= r <= current
  {
    if current > target then current - 1
    else if current < target then current + 1
    else current
  }

  /** `target_to`: one step closer to `target` on both axes at once. */
  function TargetTo(c: Coordinates, target: Coordinates): (r: Coordinates)
    ensures c == target ==> r == c
    ensures c != target ==> ManhattanDistance(r, target) < ManhattanDistance(c, target)
    ensures ManhattanDistance(r, target) + (if c.x != target.x then 1 else 0)
            + (if c.y != target.y then 1 else 0) == ManhattanDistance(c, target)
  {
    Coordinates(NextTo(c.x, target.x), NextTo(c.y, target.y))
  }

  /** `target_x_to`: one step closer to `target` along the x axis only. */
  function TargetXTo(c: Coordinates, target: Coordinates): (r: Coordinates)
    ensures r.y == c.y
    ensures c.x != target.x ==> ManhattanDistance(r, target) + 1 == ManhattanDistance(c, target)
    ensures c.x == target.x ==> r == c
  {
    Coordinates(NextTo(c.x, target.x), c.y)
  }

  /** `target_y_to`: one step closer to `target` along the y axis only. */
  function TargetYTo(c: Coordinates, target: Coordinates): (r: Coordinates)
    ensures r.x == c.x
    ensures c.y != target.y ==> ManhattanDistance(r, target) + 1 == ManhattanDistance(c, target)
    ensures c.y == target.y ==> r == c
  {
    Coordinates(c.x, NextTo(c.y, target.y))
  }

  /** Whether the neighbour of `c` in direction `d` exists without a `usize`
      underflow. */
  predicate CanStep(c: Coordinates, d: Direction) {
    match d
    case Up => c.y >= 1
    case Left => c.x >= 1
    case Down => true
    case Right => true
  }

  /** The neighbour of `c` in direction `d` (the `match dir` of `move_player`). */
  function Neighbour(c: Coordinates, d: Direction): (r: Coordinates)
    requires CanStep(c, d)
    ensures ManhattanDistance(c, r) == 1
    ensures InDirection(c, r, d)
  {
    match d
    case Up => c.Up()
    case Down => c.Down()
    case Left => c.Left()
    case Right => c.Right()
  }

  /** `r` lies strictly on the ray leaving `c` in direction `d`. */
  predicate InDirection(c: Coordinates, r: Coordinates, d: Direction) {
    match d
    case Up => r.x == c.x && r.y < c.y
    case Down => r.x == c.x && r.y > c.y
    case Left => r.y == c.y && r.x < c.x
    case Right => r.y == c.y && r.x > c.x
  }

  /** Up and down, left and right undo each other. */
  lemma NeighboursInverse(c: Coordinates)
    ensures c.y >= 1 ==> c.Up().Down() == c
    ensures c.Down().Up() == c
    ensures c.x >= 1 ==> c.Left().Right() == c
    ensures c.Right().Left() == c
  {
  }
}
