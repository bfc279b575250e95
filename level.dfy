/** A level (src/redoxbombs/level.rs): the maze and the game elements read
    from one of the game's raw levels, and the bomb and fire vectors that
    grow while the level is played. */
module Levels {
  import opened Wrappers
  import opened Coords
  import opened MazeMap
  import opened Elements
  import opened PlayerElement
  import opened EnemyElement
  import opened StairsElement
  import opened FireElement
  import opened Parser

  /** A raw level: the text map of the maze and the game element text. */
  datatype RawLevel = RawLevel(mazeText: seq<Byte>, gameElements: string)

  /** Every generator a level calls succeeds on the raw level's game element
      text; when one fails the source panics. */
  predicate Loads(raw: RawLevel) {
    var loader := LoaderOf(raw.gameElements);
    && PlayerPosition(loader).Success?
    && GenerateStairs(loader).Success?
    && EnemyPositions(loader).Success?
    && GenerateBombs(loader).Success?
  }

  /** The `map(Some).collect()` of a generated vector: every slot taken, in
      order. */
  function Occupied<T>(s: seq<T>): (r: seq<Option<T>>)
    ensures |r| == |s|
    ensures forall i :: 0 <= i < |s| ==> r[i] == Some(s[i])
  {
    if s == [] then [] else Occupied(s[..|s| - 1]) + [Some(s[|s| - 1])]
  }

  /** One live enemy per position, in order, each a distinct object. */
  ghost predicate EnemiesLoaded(enemies: seq<Option<Enemy>>, positions: seq<Coordinates>)
    reads EnemyObjects(enemies)
  {
    && |enemies| == |positions|
    && (forall i :: 0 <= i < |enemies| ==>
          enemies[i].Some? && enemies[i].value.position == positions[i])
    && (forall i, j :: 0 <= i < j < |enemies| && enemies[i].Some? && enemies[j].Some? ==>
          enemies[i].value != enemies[j].value)
  }

  /** Distinct elements stay distinct once put into slots. */
  lemma OccupiedDistinct<T>(s: seq<T>)
    requires forall i, j :: 0 <= i < j < |s| ==> s[i] != s[j]
    ensures var r := Occupied(s);
      forall i, j :: 0 <= i < j < |r| && r[i].Some? && r[j].Some? ==> r[i].value != r[j].value
  {
  }

  /** The parts of a level are the ones `raw` describes: the maze of its
      text map, a full-stock player and the stairs at the positions of their
      first lines, one live enemy per `Enemy` line and one live bomb per
      `Bomb` line in order, each enemy a distinct object. */
  ghost predicate PartsLoaded(raw: RawLevel, maze: Maze, player: Player, enemies: seq<Option<Enemy>>,
                              stairs: Stairs, bombs: seq<Option<Bomb>>)
    reads player, EnemyObjects(enemies)
  {
    var loader := LoaderOf(raw.gameElements);
    && Loads(raw)
    && maze == Maze(TilesOf(raw.mazeText), Width(raw.mazeText))
    && player.Valid()
    && player.position == PlayerPosition(loader).value
    && player.bombs == player.maxBombs == INITIAL_MAX_BOMBS
    && player.bombRecoveryMillis == INITIAL_BOMB_RECOVERY_MILLIS
    && stairs == Stairs(GenerateStairs(loader).value)
    && EnemiesLoaded(enemies, EnemyPositions(loader).value)
    && bombs == Occupied(GenerateBombs(loader).value)
  }

  /** The generation steps of `with_index`: the maze, then the game elements
      of the loader built from the raw level's text, each as a new object. */
  method LoadParts(raw: RawLevel)
    returns (maze: Maze, player: Player, enemies: seq<Option<Enemy>>, stairs: Stairs, bombs: seq<Option<Bomb>>)
    requires Loads(raw)
    ensures fresh(player)
    ensures forall i :: 0 <= i < |enemies| && enemies[i].Some? ==> fresh(enemies[i].value)
    ensures PartsLoaded(raw, maze, player, enemies, stairs, bombs)
  {
    maze := FromBytes(raw.mazeText);
    var loader := NewLoader(raw.gameElements);
    var p := GeneratePlayer(loader);
    var st := GenerateStairs(loader);
    var es := GenerateEnemies(loader);
    var bs := GenerateBombs(loader);
    OccupiedDistinct(es.value);
    player, enemies, stairs, bombs := p.value, Occupied(es.value), Stairs(st.value), Occupied(bs.value);
  }

  class Level {
    /** The sequence number of the level. */
    const index: nat
    var maze: Maze
    var player: Player
    var enemies: seq<Option<Enemy>>
    var stairs: Stairs
    var bombs: seq<Option<Bomb>>
    var fires: seq<Option<Fire>>

    /** The level is the one `raw` describes, untouched by play: its parts
        are those `raw` describes and there is no fire yet. */
    ghost predicate LoadedFrom(raw: RawLevel)
      reads this, player, EnemyObjects(enemies)
    {
      && PartsLoaded(raw, maze, player, enemies, stairs, bombs)
      && fires == []
    }

    constructor (index: nat, maze: Maze, player: Player, enemies: seq<Option<Enemy>>,
                 stairs: Stairs, bombs: seq<Option<Bomb>>, fires: seq<Option<Fire>>)
      ensures this.index == index && this.maze == maze && this.player == player
      ensures this.enemies == enemies && this.stairs == stairs
      ensures this.bombs == bombs && this.fires == fires
    {
      this.index := index;
      this.maze := maze;
      this.player := player;
      this.enemies := enemies;
      this.stairs := stairs;
      this.bombs := bombs;
      this.fires := fires;
    }

    /** `with_index`: no level past the last raw level; otherwise a new level
        loaded from the raw level at `index`, whose player and enemies are new
        objects. */
    static method WithIndex(rawLevels: seq<RawLevel>, index: nat) returns (r: Option<Level>)
      requires index < |rawLevels| ==> Loads(rawLevels[index])
      ensures r.None? <==> index >= |rawLevels|
      ensures r.Some? ==>
        && fresh(r.value) && fresh(r.value.player)
        && (forall i :: 0 <= i < |r.value.enemies| && r.value.enemies[i].Some? ==> fresh(r.value.enemies[i].value))
        && r.value.index == index
        && r.value.LoadedFrom(rawLevels[index])
    {
      if index >= |rawLevels| {
        return None;
      }
      var maze, player, enemies, stairs, bombs := LoadParts(rawLevels[index]);
      var level := new Level(index, maze, player, enemies, stairs, bombs, []);
      r := Some(level);
    }

    /** `new`: the first level; the source panics when there is none. */
    static method New(rawLevels: seq<RawLevel>) returns (level: Level)
      requires |rawLevels| > 0 && Loads(rawLevels[0])
      ensures fresh(level) && fresh(level.player)
      ensures level.index == 0 && level.LoadedFrom(rawLevels[0])
    {
      var r := WithIndex(rawLevels, 0);
      level := r.value;
    }

    /** `next`: the level after this one, or none after the last. */
    method Next(rawLevels: seq<RawLevel>) returns (r: Option<Level>)
      requires index + 1 < |rawLevels| ==> Loads(rawLevels[index + 1])
      ensures r.None? <==> index + 1 >= |rawLevels|
      ensures r.Some? ==>
        && fresh(r.value) && fresh(r.value.player)
        && r.value.index == index + 1
        && r.value.LoadedFrom(rawLevels[index + 1])
    {
      r := WithIndex(rawLevels, index + 1);
    }

    /** `get_index`. */
    function GetIndex(): (r: nat)
      ensures r == index
    {
      index
    }

    /** `add_bomb`: the bomb goes into a new slot at the end, whose index is
        the bomb's id; nothing else changes. */
    method AddBomb(bomb: Bomb) returns (id: nat)
      modifies this
      ensures bombs == old(bombs) + [Some(bomb)]
      ensures id == |old(bombs)| && bombs[id] == Some(bomb)
      ensures maze == old(maze) && player == old(player) && enemies == old(enemies)
      ensures stairs == old(stairs) && fires == old(fires)
    {
      bombs := bombs + [Some(bomb)];
      id := |bombs| - 1;
    }

    /** `add_fire`: the fire goes into a new slot at the end, whose index is
        the fire's id; nothing else changes. */
    method AddFire(fire: Fire) returns (id: nat)
      modifies this
      ensures fires == old(fires) + [Some(fire)]
      ensures id == |old(fires)| && fires[id] == Some(fire)
      ensures maze == old(maze) && player == old(player) && enemies == old(enemies)
      ensures stairs == old(stairs) && bombs == old(bombs)
    {
      fires := fires + [Some(fire)];
      id := |fires| - 1;
    }
  }
}
