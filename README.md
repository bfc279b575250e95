# Redox bombs — a verified model of the game logic

Redox bombs is a terminal bomber game. A level is a maze read from a text
map, plus game elements read from a small element text: the player, the
enemies, bombs, fires and the stairs. The game runs by events. A user input
or a scheduled game event goes to one element. The element answers with
result events, and some of those schedule further game events in a timer
queue.

This project models that logic in Dafny and proves what each piece promises:

- **`Coords`** (`coordinates.dfy`): grid geometry. It holds the four
  neighbours, `abs_sub`, the Manhattan distance and the one-step moves
  toward a target.
- **`MazeMap`** (`maze.dfy`): the maze text codec. Reading a byte map into
  a row-major tile vector (`Maze::from`) and printing it back
  (`Display`) are loops proved against specification functions. A lemma
  shows that a rectangular map prints back as itself.
- **`Utils`** (`utils.dfy`): `insert_at_empty`, the first-fit store of a
  `Vec<Option<T>>`. It is a class whose slot sequence is updated in place.
- **`TimeControl`** (`time.dfy`): timeouts and the `TimeController`
  scheduler. The clock is an explicit `now`. The binary heap is a sequence
  whose multiset is what counts.
- **`Elements`, `Events`** (`elements.dfy`, `events.dfy`): the bomb and
  fire values, and the event vocabulary. `ResultQueue` is the results deque
  that the bomb, the player's input handler and the fire append to. The
  enemy and the stairs return a single result event instead, and the
  player's game-event handler returns nothing.
- **`BombElement`, `PlayerElement`, `EnemyElement`, `FireElement`,
  `StairsElement`**: each element's reaction to events. This covers:
  - the bomb's blast cross, whose arms stop at the first blocked cell;
  - the player's move and bomb stock;
  - the enemy's choice of a closest open cell;
  - the fire's collision checks;
  - the stairs.
- **`Parser`** (`parser.dfy`): the element-text loader and its generators.
  The loader trims lines, skips blank and `#` lines, splits on whitespace
  and groups argument lists by name. The generators parse unsigned integer
  arguments. Every panic of the source becomes a `LoadError`.
- **`Levels`** (`level.dfy`): a `Level` class. It is loaded from a raw
  level and holds the bomb and fire vectors that `add_bomb`/`add_fire`
  grow.
- **`Seqs`**, **`Wrappers`**: generic sequence facts, and `Option`/`Result`.

Some behaviours of the code are easy to get wrong. The model states them
as the code has them:

- `Level::add_bomb` and `add_fire` append to their vectors and never reuse
  a free slot. `Levels.Level.AddBomb` states exactly that. First-fit reuse
  belongs only to `insert_at_empty`.
- The stairs answer `StairsBlock` whenever they do not answer `NextLevel`.
- A player's move is blocked by a live bomb as well as by the maze.
- The scheduler promises no first-in-first-out order between timeouts due
  at the same instant. `Ord` on timeouts looks only at the expiration time.
- `char::is_whitespace` is the full Unicode White_Space set, and trimming
  and splitting use it. `Parser.IsWhitespace` lists that set, not only
  ASCII whitespace.

## Model

| member | source | states |
|---|---|---|
| Coords.Coordinates.Up | src/redoxbombs/game_element/coordinates.rs:69-74 | defined only for `y >= 1` (the `usize` subtraction); same column, a smaller row, at Manhattan distance 1 |
| Coords.Coordinates.Down | src/redoxbombs/game_element/coordinates.rs:77-82 | same column, a larger row, at Manhattan distance 1 |
| Coords.Coordinates.Left | src/redoxbombs/game_element/coordinates.rs:85-90 | defined only for `x >= 1`; same row, a smaller column, at Manhattan distance 1 |
| Coords.Coordinates.Right | src/redoxbombs/game_element/coordinates.rs:93-98 | same row, a larger column, at Manhattan distance 1 |
| Coords.AbsSub | src/redoxbombs/game_element/coordinates.rs:103-112 | never underflows: added to the smaller operand it gives the larger |
| Coords.ManhattanDistance | src/redoxbombs/game_element/coordinates.rs:27-32 | zero exactly when the cells are equal; equals the sum of the axis distances taken the other way round (symmetry) |
| Coords.NextTo | src/redoxbombs/game_element/coordinates.rs:58-66 | unchanged at the target; otherwise exactly one unit closer to it, never past it, and at most one unit from the start |
| Coords.TargetTo | src/redoxbombs/game_element/coordinates.rs:36-41 | unchanged at the target; otherwise strictly closer; the distance drops by one for each axis that differed |
| Coords.TargetXTo | src/redoxbombs/game_element/coordinates.rs:44-48 | keeps `y`; one unit closer when `x` differs, unchanged otherwise |
| Coords.TargetYTo | src/redoxbombs/game_element/coordinates.rs:51-55 | keeps `x`; one unit closer when `y` differs, unchanged otherwise |
| Coords.Neighbour | src/redoxbombs/game_element/player.rs:121-126 | the neighbour chosen by a direction is at distance 1 and lies in that direction |
| Coords.NeighboursInverse | src/redoxbombs/game_element/coordinates.rs:69-98 | up and down, left and right undo each other wherever defined |
| MazeMap.TileOf | src/redoxbombs/maze.rs:37-41 | a byte is a wall exactly when it is `#`, a breakable wall exactly when it is `=`, open floor otherwise |
| MazeMap.TileChar | src/redoxbombs/maze.rs:10-19 | a tile prints as an ASCII character that reads back as the same tile |
| MazeMap.Width | src/redoxbombs/maze.rs:34 | the width is the number of bytes before the first newline, or the whole length when there is none |
| MazeMap.TilesOf | src/redoxbombs/maze.rs:36-43 | there is one tile per byte that is not a newline |
| MazeMap.BlockedTiles | src/redoxbombs/game_element/player.rs:132 | `is_blocked`: a cell lets nothing through exactly when its tile is a wall or a breakable wall, or when it lies outside the tile vector |
| MazeMap.FromBytes | src/redoxbombs/maze.rs:31-49 | the loop yields the first-line width and the tiles of the bytes in order |
| MazeMap.Render | src/redoxbombs/maze.rs:53-64 | the printing loop writes each tile's character, with a newline before every non-zero index that is a multiple of the width; requires a positive width when there are tiles |
| MazeMap.TilesOfAppend | src/redoxbombs/maze.rs:36-43 | tile order follows byte order: the tiles of a concatenation are the tiles of each part in turn |
| MazeMap.RowRoundTrip | src/redoxbombs/maze.rs:36-43 | a row over `#`, `=` and space gives one tile per byte, and those tiles print back as the row |
| MazeMap.RenderedFirstRow | src/redoxbombs/maze.rs:55-61 | no newline is printed inside the first row |
| MazeMap.RenderedNextRow | src/redoxbombs/maze.rs:55-61 | after whole rows, the next row prints as a newline followed by its tiles |
| MazeMap.JoinLinesWidth | src/redoxbombs/maze.rs:34 | a map of equal-length rows joined by newlines has the common row length as its width |
| MazeMap.JoinLinesRoundTrip | src/redoxbombs/maze.rs:31-64 | reading such a map gives whole rows of tiles that print back as the map |
| MazeMap.MapRoundTrip | src/redoxbombs/maze.rs:31-64 | `Maze::from(map).to_string() == map` for every rectangular map over `#`, `=` and space without a trailing newline |
| Utils.FirstEmpty | src/redoxbombs/utils.rs:27 | returns the lowest free slot, or none exactly when every slot is taken |
| Utils.Slots.InsertAtEmpty | src/redoxbombs/utils.rs:25-42 | the item fills the lowest free slot and the length is unchanged; if no slot is free, the item is appended at the old length; every other slot is unchanged |
| TimeControl.NewTimeout | src/redoxbombs/controllers/time.rs:25-31 | the deadline is `now + millis` and is representable; the timeout is expired at once exactly when `millis` is 0 |
| TimeControl.Expired | src/redoxbombs/controllers/time.rs:35-37 | needs only a creation time not after `now`; for a representable deadline, expired exactly when the deadline is at or before `now` (reaching it counts) |
| TimeControl.ExpirationTime | src/redoxbombs/controllers/time.rs:43-45 | the deadline is not before the creation time and is a representable instant |
| TimeControl.TimeoutEqIsEquivalence | src/redoxbombs/controllers/time.rs:50-53 | `eq` is reflexive, symmetric and transitive, and ignores the wrapped event |
| TimeControl.Cmp | src/redoxbombs/controllers/time.rs:50-69 | the earlier deadline is the greater timeout, and `Equal` coincides with `eq` |
| TimeControl.CmpIsTotalOrder | src/redoxbombs/controllers/time.rs:50-69 | the order is antisymmetric and transitive, and it ignores the wrapped event, so equal deadlines tie |
| TimeControl.Top | src/redoxbombs/controllers/time.rs:113-118 | the heap's top is a maximum under the reversed order, that is, a soonest timeout |
| TimeControl.TimeController.constructor | src/redoxbombs/controllers/time.rs:84-88 | nothing is scheduled |
| TimeControl.TimeController.ScheduleEventIn | src/redoxbombs/controllers/time.rs:91-94 | adds exactly one timeout, due at `now + millis`, to the pending multiset |
| TimeControl.TimeController.HasAnyExpiredTimeout | src/redoxbombs/controllers/time.rs:113-118 | true exactly when some pending deadline has passed |
| TimeControl.TimeController.PopEvent | src/redoxbombs/controllers/time.rs:98-105 | if nothing is due, returns `None` and keeps the queue; otherwise removes exactly one due timeout, whose deadline is no later than any remaining one, and returns its event |
| TimeControl.TimeController.Clear | src/redoxbombs/controllers/time.rs:108-110 | no timeout is left pending |
| TimeControl.PopTop | src/redoxbombs/controllers/time.rs:103-104 | removing the top takes exactly one copy of it out of the multiset, and it is due no later than every remaining timeout |
| BombElement.Reach | src/redoxbombs/game_element/bomb.rs:104-110 | after `k` rounds a live arm is on an open cell `k` steps from the bomb in its direction; a round-2 arm was alive in round 1 |
| BombElement.Rounds | src/redoxbombs/game_element/bomb.rs:116-129 | after `k` rounds the bomb's cell comes first, at most four cells are added per round, and every added cell burns |
| BombElement.Advance | src/redoxbombs/game_element/bomb.rs:104-106 | a dead arm stays dead; a live arm survives exactly when its neighbour in its direction is open, and then stands on that neighbour |
| BombElement.InsertNextIfNotBlocked | src/redoxbombs/game_element/bomb.rs:101-113 | the arm advances one step and dies on a blocked cell; its new cell is pushed only while it lives |
| BombElement.ComputeFireCoordinates | src/redoxbombs/game_element/bomb.rs:91-132 | the two-round loop over the four arms computes exactly the fire coordinates of the blast |
| BombElement.FireEvents | src/redoxbombs/game_element/bomb.rs:76-82 | one event per coordinate, in order, each a `FireNew` on that coordinate lasting `FIRE_DURATION` (200 ms) |
| BombElement.SetFire | src/redoxbombs/game_element/bomb.rs:71-83 | one `FireNew` of duration 200 per fire coordinate, in order |
| BombElement.Update | src/redoxbombs/game_element/bomb.rs:37-67 | `BombInit` appends the explosion due in 3000 ms, then `GameUpdated`; `BombExplode` appends the fires, then `BombDelete`, then `GameUpdated`; other events append nothing |
| BombElement.FireCoordinatesShape | src/redoxbombs/game_element/bomb.rs:93-129 | the bomb's own cell comes first even if blocked; the other cells are open and 1 or 2 cells away along one axis; at most 9 cells |
| BombElement.FireCoordinatesSound | src/redoxbombs/game_element/bomb.rs:104-129 | every fire cell is the bomb's cell or a cell an arm walked to |
| BombElement.FireCoordinatesComplete | src/redoxbombs/game_element/bomb.rs:104-129 | every cell an arm walks to is on fire |
| BombElement.FireCoordinatesExactly | src/redoxbombs/game_element/bomb.rs:104-129 | a cell burns if and only if it is the bomb's cell or an arm reaches it |
| BombElement.ArmStopsAtBlockedCell | src/redoxbombs/game_element/bomb.rs:104-106 | when the first cell of an arm is blocked, nothing in that direction burns, however open the cells beyond it are |
| BombElement.OpenCross | src/redoxbombs/game_element/bomb.rs:116-129 | in the open the blast is the nine cells centre, up1, down1, left1, right1, up2, down2, left2, right2 |
| BombElement.WalledMazeArmsStayOnGrid | src/redoxbombs/game_element/bomb.rs:104-106 | in a maze walled along its top and left edges, the arms of a bomb on an open cell never step below zero |
| Elements.AnyGameElementAt | src/redoxbombs/game_element/player.rs:129 | some live slot holds a bomb at the cell; empty slots never count |
| PlayerElement.MoveTarget | src/redoxbombs/game_element/player.rs:119-135 | the move goes to the neighbour if and only if that cell is open and holds no live bomb; otherwise the player stays |
| PlayerElement.Recovered | src/redoxbombs/game_element/player.rs:105-116 | the stock grows by one if and only if the event is `PlayerRecoverBomb` and the stock is below the cap; it never exceeds the cap |
| PlayerElement.Player.constructor | src/redoxbombs/game_element/player.rs:40-61 | a full stock of 3 bombs with a cap of 3, and a 4000 ms recovery time |
| PlayerElement.Player.MovePlayer | src/redoxbombs/game_element/player.rs:119-135 | the new position is the move target; the stock is unchanged |
| PlayerElement.Player.PutBomb | src/redoxbombs/game_element/player.rs:139-144 | the bomb stands on the player's cell, so it blocks that cell as a live bomb |
| PlayerElement.Player.UpdateFromInputEvent | src/redoxbombs/game_element/player.rs:65-102 | a move appends `GameUpdated`; a bomb input with stock appends `BombNew` at the player's cell and the recovery event, and takes one bomb; other inputs change nothing; the stock stays within the cap |
| PlayerElement.Player.Update | src/redoxbombs/game_element/player.rs:105-116 | only the stock changes, as `Recovered` says, and it stays within the cap |
| PlayerElement.DropThenRecover | src/redoxbombs/game_element/player.rs:81-112 | dropping a bomb and recovering it restores the stock |
| EnemyElement.Candidates | src/redoxbombs/game_element/enemy.rs:55-61 | five cells, the last one being the enemy's own, all within distance 1 |
| EnemyElement.Shuffled | src/redoxbombs/game_element/enemy.rs:64 | the candidates rearranged by a permutation of their indices |
| EnemyElement.FirstClosest | src/redoxbombs/game_element/enemy.rs:67-83 | none exactly when every cell is blocked; otherwise an open cell that is closest to the target among the open cells, and strictly closer than every open cell before it (`min_by` keeps the first minimum) |
| EnemyElement.Enemy.constructor | src/redoxbombs/game_element/enemy.rs:23-27 | the enemy stands at `(x, y)` |
| EnemyElement.Enemy.MoveTowards | src/redoxbombs/game_element/enemy.rs:53-88 | whatever the shuffle, the enemy ends on an open candidate that is as close to the player as any open candidate |
| EnemyElement.Enemy.TakeTurn | src/redoxbombs/game_element/enemy.rs:30-40 | on `EnemyRelease` it takes a closest step and answers `EnemyBlock` with the same id; otherwise it answers `DoNothing` and stays put |
| EnemyElement.Enemy.CheckCollision | src/redoxbombs/game_element/enemy.rs:43-50 | `PlayerDied` if and only if the check finds the player on the enemy's cell; the check again otherwise; `DoNothing` for other events |
| EnemyElement.ShuffledChoiceIsClosest | src/redoxbombs/game_element/enemy.rs:64-83 | for every permutation, some cell survives the filter, so the `unwrap` succeeds, and the chosen cell is a closest step |
| EnemyElement.EnemyNeverRetreats | src/redoxbombs/game_element/enemy.rs:55-83 | from an open cell, the enemy's step never increases its distance to the player and covers at most one cell |
| EnemyElement.ChasesStraightUp | src/redoxbombs/game_element/enemy.rs:53-88 | in the open, at (5, 5) chasing a player at (5, 2), the only closest step is (5, 4) |
| FireElement.CreateKillEnemyEvents | src/redoxbombs/game_element/fire.rs:93-111 | one `EnemyDelete` for each slot whose enemy stands on the fire, and for no other slot, in ascending index order |
| FireElement.DeletedExactlyWhenColliding | src/redoxbombs/game_element/fire.rs:104-111 | a slot's enemy is deleted exactly when `enemy_collides` holds for it; an empty slot never is |
| FireElement.Update | src/redoxbombs/game_element/fire.rs:35-90 | `FireInit` schedules the put-out, sets the check and reports an update; a check kills the player on the cell and does nothing else, or else deletes the enemies there and re-polls itself; `FirePutOut` deletes the fire and reports an update; other events append nothing |
| FireElement.KillEventsDistinct | src/redoxbombs/game_element/fire.rs:93-111 | no enemy is deleted twice in one check, and empty slots never produce a deletion |
| StairsElement.TakeTurn | src/redoxbombs/game_element/stairs.rs:31-37 | `NextLevel` if and only if released with the player on the stairs' cell; `StairsBlock` otherwise |
| StairsElement.TakeTurnIgnoresMaze | src/redoxbombs/game_element/stairs.rs:31-37 | the answer does not depend on the maze |
| Parser.Lines | src/redoxbombs/game_element/parser.rs:114-115 | at least one line, none of which contains a line feed |
| Parser.LinesRoundTrip | src/redoxbombs/game_element/parser.rs:114-115 | joining the lines with line feeds gives the text back |
| Parser.Trim | src/redoxbombs/game_element/parser.rs:116 | the stretch between the first and the last non-whitespace character, with only whitespace around it; empty exactly when the line is blank |
| Parser.TrimIdempotent | src/redoxbombs/game_element/parser.rs:116 | trimming twice is trimming once |
| Parser.SplitEmpty | src/redoxbombs/game_element/parser.rs:121-123 | the split is empty exactly when the text is blank, so a trimmed non-empty line always has a name |
| Parser.SplitTokens | src/redoxbombs/game_element/parser.rs:121 | every piece of the split is non-empty and free of whitespace |
| Parser.SplitSpacedRoundTrip | src/redoxbombs/game_element/parser.rs:121-125 | tokens laid out with any whitespace runs split back into exactly those tokens: runs collapse |
| Parser.SplitLeadingBlank | src/redoxbombs/game_element/parser.rs:116-121 | leading whitespace does not change the split |
| Parser.SplitTrailingBlank | src/redoxbombs/game_element/parser.rs:116-121 | trailing whitespace does not change the split |
| Parser.TrimKeepsTokens | src/redoxbombs/game_element/parser.rs:116-121 | trimming never changes the tokens of a line |
| Parser.EntryOf | src/redoxbombs/game_element/parser.rs:114-125 | a line declares nothing if and only if it is blank or a `#` line once trimmed; otherwise its first token is the name and the remaining tokens are the arguments |
| Parser.FilterMapAppend | src/redoxbombs/game_element/parser.rs:114-118 | the filtered entries of two stretches of lines are those of each stretch in turn |
| Parser.Entries | src/redoxbombs/game_element/parser.rs:114-118 | at most one entry per line |
| Parser.SkippedLineIgnored | src/redoxbombs/game_element/parser.rs:114-118 | a blank or comment line anywhere in the text changes nothing |
| Parser.LineEntry | src/redoxbombs/game_element/parser.rs:114-125 | a line `Name a1 a2 …`, however it is spaced, declares `Name` with the arguments `a1 a2 …` |
| Parser.Group | src/redoxbombs/game_element/parser.rs:120-135 | every name in the map has at least one argument list |
| Parser.ArgsNamed | src/redoxbombs/game_element/parser.rs:120-135 | non-empty exactly when some entry has the name |
| Parser.GroupByName | src/redoxbombs/game_element/parser.rs:120-135 | a name is a key if and only if some entry has it, and its lists are those entries' arguments in input order |
| Parser.LoaderOf | src/redoxbombs/game_element/parser.rs:109-139 | every name the loader knows has at least one argument list |
| Parser.NewLoader | src/redoxbombs/game_element/parser.rs:109-139 | the `entry().or_insert().push()` loop builds the grouping of the text's entries |
| Parser.ParseUsize | src/redoxbombs/game_element/parser.rs:236 | succeeds if and only if the text, less one leading `+`, is a non-empty run of decimal digits whose value fits a `usize`, and then gives that decimal value; a parsed text has no minus sign |
| Parser.ParseRejectsNonDigit | src/redoxbombs/game_element/parser.rs:236 | any character that is not a digit, other than one leading `+`, makes the parse fail |
| Parser.LeadingZerosIgnored | src/redoxbombs/game_element/parser.rs:236 | leading zeros do not change a parsed value |
| Parser.DecimalValue | src/redoxbombs/game_element/parser.rs:236 | reading the decimal digits of a number gives the number back |
| Parser.ParseDecimal | src/redoxbombs/game_element/parser.rs:236 | every `usize` parses back from its digits, with or without `+`, and the first value past the range does not |
| Parser.ExtractArg | src/redoxbombs/game_element/parser.rs:229-242 | succeeds if and only if the argument exists and parses; fails with a missing argument exactly when the list is too short, and with a non-integer otherwise |
| Parser.ExtractX | src/redoxbombs/game_element/parser.rs:251-253 | the value of argument 0; fails as a missing `X Coordinate` exactly when there is no argument, and as a non-integer otherwise |
| Parser.ExtractY | src/redoxbombs/game_element/parser.rs:262-264 | the value of argument 1; fails as a missing `Y Coordinate` exactly when there are fewer than two arguments, and as a non-integer otherwise |
| Parser.ExtractDuration | src/redoxbombs/game_element/parser.rs:273-275 | the value of argument 2; fails as a missing `Duration` exactly when there are fewer than three arguments, and as a non-integer otherwise |
| Parser.PositionOf | src/redoxbombs/game_element/parser.rs:89-94 | succeeds if and only if both `x` and `y` extract, giving the coordinates of arguments 0 and 1; an `x` failure is reported first, and otherwise a `y` failure is reported as is |
| Parser.PositionIgnoresExtraArgs | src/redoxbombs/game_element/parser.rs:89-94 | arguments after the first two do not change the position |
| Parser.GenerateGameElement | src/redoxbombs/game_element/parser.rs:25-42 | fails with a missing element if and only if the name is absent; otherwise it uses the first argument list |
| Parser.GenerateEach | src/redoxbombs/game_element/parser.rs:87-96 | succeeds if and only if every argument list does, with one element per list in order; otherwise it reports the failure of the first list that fails |
| Parser.GenerateGameElements | src/redoxbombs/game_element/parser.rs:75-97 | no elements when the name is absent, one per argument list otherwise |
| Parser.GeneratePlayer | src/redoxbombs/game_element/parser.rs:153-155 | a new player with a full stock and a 4000 ms bomb recovery time at the first `Player` line's position, or that line's failure |
| Parser.GenerateEnemies | src/redoxbombs/game_element/parser.rs:169-171 | a distinct new enemy per `Enemy` line, in order, at the line's position, or the first failure |
| Parser.NewEnemies | src/redoxbombs/game_element/parser.rs:76-78 | one distinct new enemy per position, in order |
| Parser.GenerateBombs | src/redoxbombs/game_element/parser.rs:185-187 | no bombs without a `Bomb` line, and otherwise one per line (positions in `BombsFollowLines`) |
| Parser.BombsFollowLines | src/redoxbombs/game_element/parser.rs:185-187 | one bomb per `Bomb` line, in order, at the position of its first two arguments |
| Parser.GenerateFires | src/redoxbombs/game_element/parser.rs:202-208 | no fires without a `Fire` line, and otherwise one per line (positions and durations in `FiresFollowLines`) |
| Parser.FiresFollowLines | src/redoxbombs/game_element/parser.rs:202-208 | a fire takes its position from arguments 0 and 1 and its duration from argument 2 |
| Parser.GenerateStairs | src/redoxbombs/game_element/parser.rs:222-224 | fails with a missing `Stairs` exactly when there is no `Stairs` line; otherwise the position of the first one |
| Levels.Occupied | src/redoxbombs/level.rs:100-101 | every generated element sits in its own taken slot, in order |
| Levels.LoadParts | src/redoxbombs/level.rs:93-101 | the maze of the raw level's map, then a new full-stock player, the stairs, new and pairwise distinct enemies and the bombs, each generated from the raw level's game elements |
| Levels.Level.WithIndex | src/redoxbombs/level.rs:90-115 | `None` if and only if the index is past the last raw level; otherwise a new level built from that raw level, with its maze, a full-stock player with a 4000 ms bomb recovery time, its stairs, one live enemy (each a distinct object) and one live bomb per line in order, and no fire |
| Levels.Level.New | src/redoxbombs/level.rs:67-70 | the level at index 0, loaded from the first raw level |
| Levels.Level.Next | src/redoxbombs/level.rs:78-81 | the level at the next index, or `None` after the last |
| Levels.Level.GetIndex | src/redoxbombs/level.rs:118-120 | the level's index |
| Levels.Level.AddBomb | src/redoxbombs/level.rs:123-131 | appends `Some(bomb)` without reusing free slots, returns the old length as the id, and changes nothing else |
| Levels.Level.AddFire | src/redoxbombs/level.rs:134-142 | appends `Some(fire)`, returns the old length as the id, and changes nothing else |

## Left out

- Terminal output and keyboard input (`output.rs`, `input.rs` and the
  controllers beside `time.rs`) are pure I/O and are not modelled.
- `game_element.rs` and `main.rs` are an older snapshot of the game, with a
  render loop that reads standard input. They are not part of this model.
  Neither is the game's dispatch loop, which appears in no file modelled
  here.
- `events.rs` is out of date with the variants the elements build. The
  event datatypes in `events.dfy` are built from the variants the element
  files use.
- `Coordinates::euclidean_distance` uses floating-point `sqrt` and is not
  modelled.
- The random shuffle of the enemy's candidates is not modelled. It becomes
  a parameter `order`, which may be any permutation of the five indices.
- `Instant` and `Duration` are not modelled. The clock is a parameter
  `now`, in milliseconds, that is never earlier than any pending creation
  time. An `Instant` is taken to be a 64-bit millisecond count
  (`MAX_INSTANT`). The only addition on instants is in `expiration_time`,
  which runs when the heap compares timeouts. `NewTimeout` and
  `ScheduleEventIn` require `now + millis <= MAX_INSTANT`. That
  precondition is a modelling assumption, checked when an event is
  scheduled, so that every later comparison has a representable deadline.
- The internals of `BinaryHeap` are not modelled. The heap is a sequence
  whose multiset is its content, and `pop` removes a soonest timeout.
- `TimeControl.TimeController.PopEvent`: which of several timeouts due at
  the same instant is removed is left open, as the source leaves it to
  the heap.
- The `include_bytes!`/`include_str!` assets and `RAW_LEVELS` are not
  modelled. The raw levels are a parameter `rawLevels`.
- `Maze::is_blocked` and `any_game_element_at` are defined in no file
  modelled here. They are modelled from their use:
  - `is_blocked`: the tile at `y * width + x` is missing or not open floor;
  - `any_game_element_at`: some live slot holds a bomb at the cell.
- `str::lines` is modelled as a cut at every line feed. The carriage
  return it also strips and the empty final line it drops are both erased
  afterwards, by the trim and by the blank-line filter.
- `usize` is taken as 64 bits (`USIZE_MAX`) only where arguments are
  parsed. Fire durations go through `as u64`, which loses nothing at that
  width.
- Coordinate arithmetic is unbounded: `Coordinates` holds `nat`s. The
  `y + 1` of `Down` and the `x + 1` of `Right` do not model the `usize`
  overflow at `usize::MAX`. The subtractions of `Up` and `Left` are
  guarded, as said below.
- The source's panics are handled as follows:
  - `Level::new` and `with_index` panic when a generator fails. There,
    `Levels.Level.WithIndex` and `Levels.Level.New` require `Loads`, and
    `New` also requires at least one raw level.
  - Every other generator failure is a `LoadError`.
- `Coordinates::up` and `left` underflow at zero. So they, and the moves
  built on them, require a positive coordinate (`CanStep`). The bomb's arms
  require `ArmsStayOnGrid`, which `WalledMazeArmsStayOnGrid` derives from a
  maze walled along its top and left edges.
- `EnemyElement.Enemy.MoveTowards`: requires that some candidate is open,
  which is what the `unwrap` needs, and that the enemy is off the top and
  left edges. It states that the step is a closest one. It does not say
  which of several equally close cells the shuffle picks.
- `Display` implementations write to a formatter. They are modelled as
  producing the string that is written.
