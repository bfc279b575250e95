/** A bomb's reactions (src/redoxbombs/game_element/bomb.rs): it schedules its
    own explosion, and when it explodes it sets fire to a cross of cells
    around it whose arms stop at the first blocked cell. */
module BombElement {
  import opened Wrappers
  import opened Coords
  import opened MazeMap
  import opened Elements
  import opened Events

  /** Milliseconds from a bomb's creation to its explosion. */
  const TIME_TO_EXPLODE: nat := 3000

  /** Milliseconds the fires of an explosion burn. */
  const FIRE_DURATION: nat := 200

  /** Walking the arms from `p` never subtracts below zero: `p` is off the top
      and left edges, and when it is on the first row or column the cell
      beyond it is blocked, so that arm stops before stepping past the edge. */
  predicate ArmsStayOnGrid(maze: Maze, p: Coordinates) {
    && p.x >= 1 && p.y >= 1
    && (p.y == 1 ==> IsBlocked(maze, p.Up()))
    && (p.x == 1 ==> IsBlocked(maze, p.Left()))
  }

  /** One step of an arm (the `map`/`filter` of the insertion macro): a live
      arm moves to its neighbour and dies if that cell is blocked. */
  function Advance(maze: Maze, arm: Option<Coordinates>, d: Direction): (r: Option<Coordinates>)
    requires arm.Some? ==> CanStep(arm.value, d)
    ensures arm.None? ==> r.None?
    ensures arm.Some? ==> (r.Some? <==> !IsBlocked(maze, Neighbour(arm.value, d)))
    ensures r.Some? ==> r.value == Neighbour(arm.value, d) && !IsBlocked(maze, r.value)
  {
    match arm
    case None => None
    case Some(c) =>
      var n := Neighbour(c, d);
      if IsBlocked(maze, n) then None else Some(n)
  }

  /** The arm in direction `d` after `k` rounds of the loop. */
  function Reach(maze: Maze, p: Coordinates, d: Direction, k: nat): (r: Option<Coordinates>)
    requires ArmsStayOnGrid(maze, p) && k <= 2
    ensures k == 0 ==> r == Some(p)
    ensures k >= 1 && r.Some? ==>
      !IsBlocked(maze, r.value) && InDirection(p, r.value, d) && ManhattanDistance(p, r.value) == k
    ensures k == 1 && r.Some? ==> r.value.x >= 1 && r.value.y >= 1
    ensures k == 2 && r.Some? ==> Reach(maze, p, d, 1).Some?
  {
    if k == 0 then Some(p)
    else Advance(maze, Reach(maze, p, d, k - 1), d)
  }

  /** The cell of an arm, if it is still alive. */
  function Cells(arm: Option<Coordinates>): seq<Coordinates> {
    if arm.Some? then [arm.value] else []
  }

  /** The arm a cell on the bomb's row or column lies on. */
  function ArmOf(p: Coordinates, c: Coordinates): Direction {
    if c.x == p.x then (if c.y < p.y then Up else Down)
    else if c.x < p.x then Left else Right
  }

  /** `c` burns within `k` rounds: it is open, one to `k` cells from the bomb
      on its row or column, and the arm toward it walked all the way there. */
  predicate Burns(maze: Maze, p: Coordinates, c: Coordinates, k: nat)
    requires ArmsStayOnGrid(maze, p) && k <= 2
  {
    && (c.x == p.x || c.y == p.y)
    && 1 <= ManhattanDistance(p, c) <= k
    && !IsBlocked(maze, c)
    && Reach(maze, p, ArmOf(p, c), ManhattanDistance(p, c)) == Some(c)
  }

  /** The coordinates pushed after `k` rounds: the bomb's cell, then the live
      arms of each round in the order up, down, left, right. */
  function Rounds(maze: Maze, p: Coordinates, k: nat): (r: seq<Coordinates>)
    requires ArmsStayOnGrid(maze, p) && k <= 2
    ensures 1 <= |r| <= 1 + 4 * k && r[0] == p
    ensures forall i :: 1 <= i < |r| ==> Burns(maze, p, r[i], k)
  {
    if k == 0 then [p]
    else
      var before := Rounds(maze, p, k - 1);
      BurnsLater(maze, p, before, k - 1);
      var up, down, left, right :=
        Reach(maze, p, Up, k), Reach(maze, p, Down, k), Reach(maze, p, Left, k), Reach(maze, p, Right, k);
      ArmCellBurns(maze, p, Up, k);
      ArmCellBurns(maze, p, Down, k);
      ArmCellBurns(maze, p, Left, k);
      ArmCellBurns(maze, p, Right, k);
      AppendBurns(maze, p, before, up, k);
      AppendBurns(maze, p, before + Cells(up), down, k);
      AppendBurns(maze, p, before + Cells(up) + Cells(down), left, k);
      AppendBurns(maze, p, before + Cells(up) + Cells(down) + Cells(left), right, k);
      before + Cells(up) + Cells(down) + Cells(left) + Cells(right)
  }

  /** The cells an explosion at `p` sets on fire. */
  function FireCoordinates(maze: Maze, p: Coordinates): seq<Coordinates>
    requires ArmsStayOnGrid(maze, p)
  {
    Rounds(maze, p, 2)
  }

  /** The `insert_next_coordinate_if_not_blocked!` macro: advance one arm and
      push its new cell if it is still alive. */
  method InsertNextIfNotBlocked(maze: Maze, coords: seq<Coordinates>, arm: Option<Coordinates>, d: Direction)
    returns (coords': seq<Coordinates>, arm': Option<Coordinates>)
    requires arm.Some? ==> CanStep(arm.value, d)
    ensures arm' == Advance(maze, arm, d)
    ensures coords' == coords + Cells(arm')
  {
    arm' := Advance(maze, arm, d);
    coords' := coords;
    if arm'.Some? {
      coords' := coords' + [arm'.value];
    }
  }

  /** `compute_fire_coordinates`: two rounds over the four arms, each round
      moving every live arm one cell and recording it if it is open. */
  method ComputeFireCoordinates(bomb: Bomb, maze: Maze) returns (coords: seq<Coordinates>)
    requires ArmsStayOnGrid(maze, bomb.position)
    ensures coords == FireCoordinates(maze, bomb.position)
  {
    var p := bomb.position;
    coords := [p];
    var up, down, left, right := Some(p), Some(p), Some(p), Some(p);
    for round := 0 to 2
      invariant up == Reach(maze, p, Up, round) && down == Reach(maze, p, Down, round)
      invariant left == Reach(maze, p, Left, round) && right == Reach(maze, p, Right, round)
      invariant coords == Rounds(maze, p, round)
    {
      coords, up := InsertNextIfNotBlocked(maze, coords, up, Up);
      coords, down := InsertNextIfNotBlocked(maze, coords, down, Down);
      coords, left := InsertNextIfNotBlocked(maze, coords, left, Left);
      coords, right := InsertNextIfNotBlocked(maze, coords, right, Right);
    }
  }

  /** One `FireNew` event per coordinate, in order, each lasting `FIRE_DURATION`. */
  function FireEvents(coords: seq<Coordinates>): (r: seq<ResultEvent>)
    ensures |r| == |coords|
    ensures forall i :: 0 <= i < |r| ==>
      r[i].FireNew? && r[i].fire.position == coords[i] && r[i].fire.duration == FIRE_DURATION
  {
    seq(|coords|, i requires 0 <= i < |coords| => FireNew(Fire(coords[i], FIRE_DURATION)))
  }

  /** `set_fire`: a `FireNew` event for every fire coordinate. */
  method SetFire(bomb: Bomb, maze: Maze) returns (events: seq<ResultEvent>)
    requires ArmsStayOnGrid(maze, bomb.position)
    ensures events == FireEvents(FireCoordinates(maze, bomb.position))
  {
    var coords := ComputeFireCoordinates(bomb, maze);
    events := FireEvents(coords);
  }

  /** `update`: `BombInit` schedules the explosion, `BombExplode` emits the
      fires and then deletes the bomb; every other event is ignored. */
  method Update(bomb: Bomb, maze: Maze, event: GameEvent, results: ResultQueue)
    requires event.BombExplode? ==> ArmsStayOnGrid(maze, bomb.position)
    modifies results
    ensures event.BombInit? ==>
      results.events == old(results.events)
        + [GameScheduleEvent(TIME_TO_EXPLODE, BombExplode(event.id)), GameUpdated]
    ensures event.BombExplode? ==>
      results.events == old(results.events) + FireEvents(FireCoordinates(maze, bomb.position))
        + [BombDelete(event.id), GameUpdated]
    ensures !event.BombInit? && !event.BombExplode? ==> results.events == old(results.events)
  {
    match event
    case BombInit(id) =>
      results.PushBack(GameScheduleEvent(TIME_TO_EXPLODE, BombExplode(id)));
      results.PushBack(GameUpdated);
    case BombExplode(id) =>
      var fireEvents := SetFire(bomb, maze);
      results.Extend(fireEvents);
      results.PushBack(BombDelete(id));
      results.PushBack(GameUpdated);
    case _ =>
  }

  // ---------------------------------------------------------------------
  // The shape of the blast.

  /** The cell an arm reaches in round `k`, if any, burns. */
  lemma ArmCellBurns(maze: Maze, p: Coordinates, d: Direction, k: nat)
    requires ArmsStayOnGrid(maze, p) && 1 <= k <= 2
    ensures Reach(maze, p, d, k).Some? ==> Burns(maze, p, Reach(maze, p, d, k).value, k)
  {
  }

  /** A cell that burns by round `k` still burns in the next round. */
  lemma BurnsLater(maze: Maze, p: Coordinates, s: seq<Coordinates>, k: nat)
    requires ArmsStayOnGrid(maze, p) && k < 2
    requires forall i :: 1 <= i < |s| ==> Burns(maze, p, s[i], k)
    ensures forall i :: 1 <= i < |s| ==> Burns(maze, p, s[i], k + 1)
  {
  }

  /** Appending the cell of a live arm keeps every cell after the first burning. */
  lemma AppendBurns(maze: Maze, p: Coordinates, s: seq<Coordinates>, arm: Option<Coordinates>, k: nat)
    requires ArmsStayOnGrid(maze, p) && k <= 2 && |s| >= 1
    requires forall i :: 1 <= i < |s| ==> Burns(maze, p, s[i], k)
    requires arm.Some? ==> Burns(maze, p, arm.value, k)
    ensures forall i :: 1 <= i < |s + Cells(arm)| ==> Burns(maze, p, (s + Cells(arm))[i], k)
  {
  }

  /** The centre comes first whether or not it is blocked; every other cell is
      open, one or two cells from the bomb along one axis; there are at most
      nine cells. */
  lemma FireCoordinatesShape(maze: Maze, p: Coordinates)
    requires ArmsStayOnGrid(maze, p)
    ensures var fire := FireCoordinates(maze, p);
      1 <= |fire| <= 9 && fire[0] == p
      && forall i :: 1 <= i < |fire| ==>
        !IsBlocked(maze, fire[i]) && (fire[i].x == p.x || fire[i].y == p.y)
        && 1 <= ManhattanDistance(p, fire[i]) <= 2
  {
  }

  /** Nothing but the bomb's cell and the cells the arms walk to burns. */
  lemma FireCoordinatesSound(maze: Maze, p: Coordinates, c: Coordinates)
    requires ArmsStayOnGrid(maze, p)
    requires c in FireCoordinates(maze, p)
    ensures c == p || Burns(maze, p, c, 2)
  {
    var fire := FireCoordinates(maze, p);
    var i :| 0 <= i < |fire| && fire[i] == c;
  }

  /** Every cell an arm walks to burns. */
  lemma FireCoordinatesComplete(maze: Maze, p: Coordinates, d: Direction, k: nat)
    requires ArmsStayOnGrid(maze, p) && 1 <= k <= 2
    requires Reach(maze, p, d, k).Some?
    ensures Reach(maze, p, d, k).value in FireCoordinates(maze, p)
  {
    var c := Reach(maze, p, d, k).value;
    assert c in Cells(Reach(maze, p, d, k));
    assert c in Rounds(maze, p, k);
    if k == 1 {
      assert Rounds(maze, p, 2) == Rounds(maze, p, 1) + Cells(Reach(maze, p, Up, 2))
        + Cells(Reach(maze, p, Down, 2)) + Cells(Reach(maze, p, Left, 2)) + Cells(Reach(maze, p, Right, 2));
    }
  }

  /** The blast is exactly the bomb's cell and the cells the arms walk to:
      nothing the arms reach is missing, and nothing else is set on fire. */
  lemma FireCoordinatesExactly(maze: Maze, p: Coordinates, c: Coordinates)
    requires ArmsStayOnGrid(maze, p)
    ensures c in FireCoordinates(maze, p) <==> c == p || Burns(maze, p, c, 2)
  {
    if c in FireCoordinates(maze, p) {
      FireCoordinatesSound(maze, p, c);
    }
    if Burns(maze, p, c, 2) {
      FireCoordinatesComplete(maze, p, ArmOf(p, c), ManhattanDistance(p, c));
    }
  }

  /** An arm stops at its first blocked cell: when the neighbour in direction
      `d` is blocked, no cell in that direction burns, however open the cells
      beyond it are. */
  lemma ArmStopsAtBlockedCell(maze: Maze, p: Coordinates, d: Direction)
    requires ArmsStayOnGrid(maze, p)
    requires IsBlocked(maze, Neighbour(p, d))
    ensures forall c :: c in FireCoordinates(maze, p) ==> !InDirection(p, c, d)
  {
    forall c | c in FireCoordinates(maze, p)
      ensures !InDirection(p, c, d)
    {
      FireCoordinatesSound(maze, p, c);
    }
  }

  /** In the open, the blast is the full cross of nine cells, in the order
      centre, the four neighbours, then the four cells two steps away. */
  lemma OpenCross(maze: Maze, p: Coordinates)
    requires p.x >= 2 && p.y >= 2
    requires forall d :: !IsBlocked(maze, Neighbour(p, d))
    requires forall d :: !IsBlocked(maze, Neighbour(Neighbour(p, d), d))
    ensures ArmsStayOnGrid(maze, p)
    ensures FireCoordinates(maze, p) == [
      p, p.Up(), p.Down(), p.Left(), p.Right(),
      p.Up().Up(), p.Down().Down(), p.Left().Left(), p.Right().Right()]
  {
    assert !IsBlocked(maze, Neighbour(p, Up)) && !IsBlocked(maze, Neighbour(p, Left));
    assert Reach(maze, p, Up, 1) == Some(p.Up());
    assert Reach(maze, p, Down, 1) == Some(p.Down());
    assert Reach(maze, p, Left, 1) == Some(p.Left());
    assert Reach(maze, p, Right, 1) == Some(p.Right());
    assert Rounds(maze, p, 1) == [p, p.Up(), p.Down(), p.Left(), p.Right()];
    assert !IsBlocked(maze, Neighbour(Neighbour(p, Up), Up));
    assert !IsBlocked(maze, Neighbour(Neighbour(p, Down), Down));
    assert !IsBlocked(maze, Neighbour(Neighbour(p, Left), Left));
    assert !IsBlocked(maze, Neighbour(Neighbour(p, Right), Right));
    assert Reach(maze, p, Up, 2) == Some(p.Up().Up());
    assert Reach(maze, p, Down, 2) == Some(p.Down().Down());
    assert Reach(maze, p, Left, 2) == Some(p.Left().Left());
    assert Reach(maze, p, Right, 2) == Some(p.Right().Right());
  }

  /** A maze whose top row and left column are blocked. */
  ghost predicate WalledTopLeft(maze: Maze) {
    forall c: Coordinates :: c.x == 0 || c.y == 0 ==> IsBlocked(maze, c)
  }

  /** In a maze walled along its top and left edges, a bomb on an open cell
      never walks an arm past the edge. */
  lemma WalledMazeArmsStayOnGrid(maze: Maze, p: Coordinates)
    requires WalledTopLeft(maze) && !IsBlocked(maze, p)
    ensures ArmsStayOnGrid(maze, p)
  {
    if p.y == 1 {
      assert IsBlocked(maze, p.Up());
    }
    if p.x == 1 {
      assert IsBlocked(maze, p.Left());
    }
  }
}
