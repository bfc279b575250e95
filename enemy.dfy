/** An enemy (src/redoxbombs/game_element/enemy.rs): on its turn it steps to
    the open cell around it, itself included, that is closest to the player,
    and it kills the player when the two share a cell. */
module EnemyElement {
  import opened Wrappers
  import opened Coords
  import opened MazeMap
  import opened Events
  import opened PlayerElement

  /** The five cells an enemy at `c` may end its turn on: up, down, left,
      right and staying put, in the order of the source's `vec!`. Computing
      them subtracts from both axes, so neither may be zero. */
  function Candidates(c: Coordinates): (r: seq<Coordinates>)
    requires c.x >= 1 && c.y >= 1
    ensures |r| == 5 && r[4] == c
    ensures forall i :: 0 <= i < 5 ==> ManhattanDistance(c, r[i]) <= 1
  {
    [c.Up(), c.Down(), c.Left(), c.Right(), c]
  }

  /** `order` is a permutation of the five candidate indices: the effect of
      the shuffle. */
  predicate IsShuffle(order: seq<nat>) {
    multiset(order) == multiset{0, 1, 2, 3, 4}
  }

  /** The candidates rearranged by the shuffle `order`. */
  function Shuffled<T>(s: seq<T>, order: seq<nat>): (r: seq<T>)
    requires |s| == 5 && IsShuffle(order)
    ensures |r| == 5 && |order| == 5
    ensures forall i :: 0 <= i < 5 ==> order[i] < 5 && r[i] == s[order[i]]
  {
    assert |order| == |multiset(order)| == 5;
    assert forall i :: 0 <= i < 5 ==> order[i] in multiset(order);
    seq(5, i requires 0 <= i < 5 => s[order[i]])
  }

  /** The `filter`/`map`/`min_by` chain: the index of the first open cell of
      `cells` whose distance to `target` is smallest, or `None` when every
      cell is blocked. `min_by` keeps the earlier of two equal elements. */
  function FirstClosest(maze: Maze, cells: seq<Coordinates>, target: Coordinates): (r: Option<nat>)
    ensures r.None? <==> forall i :: 0 <= i < |cells| ==> IsBlocked(maze, cells[i])
    ensures r.Some? ==> r.value < |cells| && !IsBlocked(maze, cells[r.value])
    ensures r.Some? ==> forall i :: 0 <= i < |cells| && !IsBlocked(maze, cells[i]) ==>
      ManhattanDistance(cells[r.value], target) <= ManhattanDistance(cells[i], target)
    ensures r.Some? ==> forall i :: 0 <= i < r.value && !IsBlocked(maze, cells[i]) ==>
      ManhattanDistance(cells[r.value], target) < ManhattanDistance(cells[i], target)
  {
    if cells == [] then None
    else
      var n := |cells| - 1;
      var prev := FirstClosest(maze, cells[..n], target);
      assert forall i :: 0 <= i < n ==> cells[..n][i] == cells[i];
      if IsBlocked(maze, cells[n]) then prev
      else if prev.None? then Some(n)
      else if ManhattanDistance(cells[n], target) < ManhattanDistance(cells[prev.value], target) then Some(n)
      else prev
  }

  /** `to` is a step an enemy at `from` may take toward `target`: one of the
      five candidates, open, and no farther from the target than any other
      open candidate. */
  predicate ClosestStep(maze: Maze, from: Coordinates, to: Coordinates, target: Coordinates)
    requires from.x >= 1 && from.y >= 1
  {
    && to in Candidates(from)
    && !IsBlocked(maze, to)
    && forall c :: c in Candidates(from) && !IsBlocked(maze, c) ==>
      ManhattanDistance(to, target) <= ManhattanDistance(c, target)
  }

  /** Some cell the enemy may end its turn on is open, so the `unwrap` of the
      chosen cell succeeds. */
  predicate CanMove(maze: Maze, c: Coordinates) {
    c.x >= 1 && c.y >= 1 && exists i :: 0 <= i < 5 && !IsBlocked(maze, Candidates(c)[i])
  }

  class Enemy {
    var position: Coordinates

    /** `Enemy::new`. */
    constructor (x: nat, y: nat)
      ensures position == Coordinates(x, y)
    {
      position := Coordinates(x, y);
    }

    /** `move_towards`: shuffle the five candidates by `order`, then take the
        first open one closest to the player. */
    method MoveTowards(player: Player, maze: Maze, order: seq<nat>)
      requires CanMove(maze, position) && IsShuffle(order)
      modifies this
      ensures ClosestStep(maze, old(position), position, player.position)
    {
      var directions := Candidates(position);
      var shuffled := Shuffled(directions, order);
      var next := FirstClosest(maze, shuffled, player.position);
      ShuffledChoiceIsClosest(maze, position, order, player.position);
      position := shuffled[next.value];
    }

    /** `take_turn`: on `EnemyRelease` the enemy moves and blocks itself until
        released again; every other event does nothing. */
    method TakeTurn(player: Player, maze: Maze, event: GameEvent, order: seq<nat>) returns (r: ResultEvent)
      requires event.EnemyRelease? ==> CanMove(maze, position) && IsShuffle(order)
      modifies this
      ensures event.EnemyRelease? ==>
        r == ResultEvent.EnemyBlock(event.id) && ClosestStep(maze, old(position), position, player.position)
      ensures !event.EnemyRelease? ==> r == DoNothing && position == old(position)
    {
      match event
      case EnemyRelease(id) =>
        MoveTowards(player, maze, order);
        r := ResultEvent.EnemyBlock(id);
      case _ =>
        return DoNothing;
    }

    /** `check_collision`: on its collision check the enemy kills the player
        when they share a cell and otherwise asks to be checked again; it
        ignores every other event and never moves. */
    function CheckCollision(player: Player, event: GameEvent): (r: ResultEvent)
      reads this, player
      ensures r == PlayerDied <==> event.EnemyCheckCollision? && position == player.position
      ensures event.EnemyCheckCollision? && position != player.position ==>
        r == ResultEvent.EnemyCheckCollision(event.id)
      ensures !event.EnemyCheckCollision? ==> r == DoNothing
    {
      match event
      case EnemyCheckCollision(id) =>
        if position == player.position then PlayerDied else ResultEvent.EnemyCheckCollision(id)
      case _ => DoNothing
    }
  }

  /** However the candidates are shuffled, some shuffled cell is open and the
      one the chain picks is a closest step. */
  lemma ShuffledChoiceIsClosest(maze: Maze, from: Coordinates, order: seq<nat>, target: Coordinates)
    requires CanMove(maze, from) && IsShuffle(order)
    ensures var s := Shuffled(Candidates(from), order);
      var r := FirstClosest(maze, s, target);
      r.Some? && ClosestStep(maze, from, s[r.value], target)
  {
    var cands := Candidates(from);
    var s := Shuffled(cands, order);
    var k :| 0 <= k < 5 && !IsBlocked(maze, cands[k]);
    ShuffleHits(order, k);
    var r := FirstClosest(maze, s, target);
    forall c | c in cands && !IsBlocked(maze, c)
      ensures ManhattanDistance(s[r.value], target) <= ManhattanDistance(c, target)
    {
      var m :| 0 <= m < 5 && cands[m] == c;
      ShuffleHits(order, m);
    }
  }

  /** Every candidate index appears somewhere in a shuffle. */
  lemma ShuffleHits(order: seq<nat>, k: nat)
    requires IsShuffle(order) && k < 5
    ensures exists j :: 0 <= j < |order| && order[j] == k
  {
    assert k in multiset(order);
  }

  /** An enemy standing on an open cell never moves away from the player, and
      never moves more than one cell. */
  lemma EnemyNeverRetreats(maze: Maze, from: Coordinates, to: Coordinates, target: Coordinates)
    requires from.x >= 1 && from.y >= 1 && !IsBlocked(maze, from)
    requires ClosestStep(maze, from, to, target)
    ensures ManhattanDistance(to, target) <= ManhattanDistance(from, target)
    ensures ManhattanDistance(from, to) <= 1
  {
    assert from == Candidates(from)[4];
    var i :| 0 <= i < 5 && Candidates(from)[i] == to;
  }

  /** With every candidate open, an enemy at (5, 5) chasing a player at
      (5, 2) has exactly one closest step: up, to (5, 4). */
  lemma ChasesStraightUp(maze: Maze, to: Coordinates)
    requires forall i :: 0 <= i < 5 ==> !IsBlocked(maze, Candidates(Coordinates(5, 5))[i])
    requires ClosestStep(maze, Coordinates(5, 5), to, Coordinates(5, 2))
    ensures to == Coordinates(5, 4)
  {
    var cs := Candidates(Coordinates(5, 5));
    assert cs[0] == Coordinates(5, 4);
    assert !IsBlocked(maze, cs[0]);
    var i :| 0 <= i < 5 && cs[i] == to;
  }
}
