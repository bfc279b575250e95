/** The maze: a row-major vector of tiles read from a text map whose width is
    the length of its first line, and printed back out row by row
    (src/redoxbombs/maze.rs). */
module MazeMap {
  import opened Coords
  import opened Seqs

  /** A byte of the text map (`u8`). */
  newtype Byte = b: int | 0 <= b < 256

  const NEWLINE: Byte := 10
  const SPACE: Byte := 32
  const HASH: Byte := 35
  const EQUALS: Byte := 61

  datatype Tile = Empty | Wall | BreakableWall

  /** `tiles` is the map without its newlines, row after row. */
  datatype Maze = Maze(tiles: seq<Tile>, width: nat)

  /** The tile a non-newline byte of the map stands for: '#' a wall, '=' a
      breakable wall, anything else open floor. */
  function TileOf(b: Byte): (t: Tile)
    ensures t == Wall <==> b == HASH
    ensures t == BreakableWall <==> b == EQUALS
  {
    if b == HASH then Wall
    else if b == EQUALS then BreakableWall
    else Empty
  }

  /** `Display for Tile`: the character a tile is printed as. Printing and
      reading back give the same tile. */
  function TileChar(t: Tile): (c: char)
    ensures c as int < 128 && TileOf(c as int as Byte) == t
  {
    match t
    case Empty => ' '
    case Wall => '#'
    case BreakableWall => '='
  }

  /** The bytes of the map read as (ASCII) characters. */
  function AsChars(text: seq<Byte>): (s: string)
    ensures |s| == |text|
  {
    seq(|text|, i requires 0 <= i < |text| => text[i] as int as char)
  }

  /** The printed characters of a row of tiles, without any separator. */
  function TileChars(tiles: seq<Tile>): (s: string)
    ensures |s| == |tiles|
  {
    seq(|tiles|, i requires 0 <= i < |tiles| => TileChar(tiles[i]))
  }

  /** The width of a map: the number of bytes before its first newline, or
      its whole length when it has none. */
  function Width(text: seq<Byte>): (w: nat)
    ensures w <= |text|
    ensures forall i :: 0 <= i < w ==> text[i] != NEWLINE
    ensures w < |text| ==> text[w] == NEWLINE
  {
    if text == [] || text[0] == NEWLINE then 0 else 1 + Width(text[1..])
  }

  /** The tiles of a map, in byte order; newlines produce no tile. */
  function TilesOf(text: seq<Byte>): (tiles: seq<Tile>)
    ensures |tiles| == |text| - multiset(text)[NEWLINE]
  {
    if text == [] then []
    else
      var n := |text| - 1;
      assert text == text[..n] + [text[n]];
      TilesOf(text[..n]) + (if text[n] == NEWLINE then [] else [TileOf(text[n])])
  }

  /** `Maze::from`: the width is taken from the first line and every
      non-newline byte is pushed as a tile, in order. */
  method FromBytes(text: seq<Byte>) returns (maze: Maze)
    ensures maze.width == Width(text)
    ensures maze.tiles == TilesOf(text)
  {
    var tiles: seq<Tile> := [];
    var width := Width(text);
    for i := 0 to |text|
      invariant tiles == TilesOf(text[..i])
    {
      assert text[..i + 1][..i] == text[..i];
      var b := text[i];
      if b == NEWLINE {
      } else if b == HASH {
        tiles := tiles + [Wall];
      } else if b == EQUALS {
        tiles := tiles + [BreakableWall];
      } else {
        tiles := tiles + [Empty];
      }
    }
    assert text[..|text|] == text;
    maze := Maze(tiles, width);
  }

  /** The text `Display for Maze` writes for the first `|tiles|` tiles: a
      newline before every tile whose index is a non-zero multiple of the
      width, then the tile's character. */
  function Rendered(tiles: seq<Tile>, width: nat): string
    requires |tiles| == 0 || width > 0
  {
    if tiles == [] then []
    else
      var n := |tiles| - 1;
      Rendered(tiles[..n], width) + (if n % width == 0 && n != 0 then "\n" else "")
        + [TileChar(tiles[n])]
  }

  /** `Display for Maze`. The width is only divided by when there is a tile,
      so an empty maze of width 0 prints, and a non-empty one would panic. */
  method Render(maze: Maze) returns (s: string)
    requires |maze.tiles| == 0 || maze.width > 0
    ensures s == Rendered(maze.tiles, maze.width)
  {
    s := [];
    for idx := 0 to |maze.tiles|
      invariant s == Rendered(maze.tiles[..idx], maze.width)
    {
      assert maze.tiles[..idx + 1][..idx] == maze.tiles[..idx];
      if idx % maze.width == 0 && idx != 0 {
        s := s + "\n";
      }
      s := s + [TileChar(maze.tiles[idx])];
    }
    assert maze.tiles[..|maze.tiles|] == maze.tiles;
  }

  /** Whether a cell blocks movement and fire: the tile at `y * width + x` is
      not open floor. A cell past the end of the tile vector counts as
      blocked. */
  predicate IsBlocked(maze: Maze, c: Coordinates) {
    var idx := c.y * maze.width + c.x;
    idx >= |maze.tiles| || maze.tiles[idx] != Empty
  }

  /** Only open floor lets anything through: a wall and a breakable wall
      both block, and so does a cell outside the tile vector. */
  lemma BlockedTiles(maze: Maze, c: Coordinates)
    ensures c.y * maze.width + c.x >= |maze.tiles| ==> IsBlocked(maze, c)
    ensures c.y * maze.width + c.x < |maze.tiles| ==>
      (IsBlocked(maze, c) <==> maze.tiles[c.y * maze.width + c.x] in {Wall, BreakableWall})
  {
  }

  // ---------------------------------------------------------------------
  // Reading: tile order follows byte order.

  /** Reading a concatenation reads each part in turn. */
  lemma {:induction false} TilesOfAppend(a: seq<Byte>, b: seq<Byte>)
    ensures TilesOf(a + b) == TilesOf(a) + TilesOf(b)
    decreases |b|
  {
    if b == [] {
      assert a + b == a;
    } else {
      var n := |b| - 1;
      assert (a + b)[..|a + b| - 1] == a + b[..n];
      TilesOfAppend(a, b[..n]);
    }
  }

  /** A single byte yields its tile, a newline yields nothing. */
  lemma TilesOfByte(b: Byte)
    ensures TilesOf([b]) == if b == NEWLINE then [] else [TileOf(b)]
  {
    assert [b][..0] == [];
  }

  // ---------------------------------------------------------------------
  // Printing: rows of `width` tiles separated by newlines.

  lemma ModUnique(x: int, q: int, r: int, w: int)
    requires w > 0 && 0 <= r < w && x == q * w + r
    ensures x % w == r
  {
    var q', r' := x / w, x % w;
    assert (q - q') * w == r' - r;
    if q > q' {
      MulAtLeast(q - q', w);
    } else if q < q' {
      assert (q' - q) * w == r - r';
      MulAtLeast(q' - q, w);
    }
  }

  lemma MulAtLeast(a: int, w: int)
    requires a >= 1 && w > 0
    ensures a * w >= w
  {
    if a > 1 {
      MulAtLeast(a - 1, w);
      assert a * w == (a - 1) * w + w;
    }
  }

  /** Euclidean division splits a number into whole widths and a rest. */
  lemma DivMod(x: nat, w: nat)
    requires w > 0
    ensures x == (x / w) * w + x % w
  {
  }

  /** The characters of a row end with those of its last tile. */
  lemma TileCharsSnoc(row: seq<Tile>)
    requires |row| > 0
    ensures TileChars(row) == TileChars(row[..|row| - 1]) + [TileChar(row[|row| - 1])]
  {
    var k := |row| - 1;
    var a, b := TileChars(row), TileChars(row[..k]) + [TileChar(row[k])];
    forall i | 0 <= i < |a|
      ensures a[i] == b[i]
    {
      if i < k {
        assert row[..k][i] == row[i];
      }
    }
  }

  /** The first row prints without any newline. */
  lemma {:induction false} RenderedFirstRow(tiles: seq<Tile>, width: nat)
    requires 0 < width && |tiles| <= width
    ensures Rendered(tiles, width) == TileChars(tiles)
    decreases |tiles|
  {
    if tiles != [] {
      var n := |tiles| - 1;
      RenderedFirstRow(tiles[..n], width);
      ModUnique(n, 0, n, width);
      assert TileChars(tiles) == TileChars(tiles[..n]) + [TileChar(tiles[n])];
    }
  }

  /** After whole rows, a further row prints as a newline followed by its
      tiles. */
  lemma {:induction false} RenderedNextRow(tiles: seq<Tile>, row: seq<Tile>, width: nat)
    requires 0 < width && 0 < |tiles| && |tiles| % width == 0
    requires 0 < |row| <= width
    ensures Rendered(tiles + row, width) == Rendered(tiles, width) + "\n" + TileChars(row)
    decreases |row|
  {
    var k := |row| - 1;
    if k == 0 {
      assert (tiles + row)[..|tiles|] == tiles;
      assert TileChars(row) == [TileChar((tiles + row)[|tiles|])];
    } else {
      RenderedNextRow(tiles, row[..k], width);
      RowContinues(tiles, row, width);
    }
  }

  /** Past whole rows, an offset within the next row is not a row start. */
  lemma InsideRow(t: nat, k: nat, width: nat)
    requires 0 < k < width && t % width == 0
    ensures (t + k) % width == k
  {
    DivMod(t, width);
    ModUnique(t + k, t / width, k, width);
  }

  /** A tile that does not start a row prints right after the tiles before
      it. */
  lemma {:induction false} RenderedWithinRow(tiles: seq<Tile>, width: nat)
    requires 0 < width && 0 < |tiles| && (|tiles| - 1) % width != 0
    ensures Rendered(tiles, width) == Rendered(tiles[..|tiles| - 1], width) + [TileChar(tiles[|tiles| - 1])]
  {
    var before := Rendered(tiles[..|tiles| - 1], width);
    assert before + "" == before;
  }

  /** The same, for a row appended to earlier tiles. */
  lemma {:induction false} LastOfRow(tiles: seq<Tile>, row: seq<Tile>, width: nat)
    requires 0 < width && 0 < |row| && (|tiles| + |row| - 1) % width != 0
    ensures Rendered(tiles + row, width) == Rendered(tiles + row[..|row| - 1], width) + [TileChar(row[|row| - 1])]
  {
    DropLastOfConcat(tiles, row);
    RenderedWithinRow(tiles + row, width);
  }

  /** A tile after the first of a row prints right after the tile before it. */
  lemma {:induction false} RowContinues(tiles: seq<Tile>, row: seq<Tile>, width: nat)
    requires 0 < width && |tiles| % width == 0 && 1 < |row| <= width
    requires var k := |row| - 1;
      Rendered(tiles + row[..k], width) == Rendered(tiles, width) + "\n" + TileChars(row[..k])
    ensures Rendered(tiles + row, width) == Rendered(tiles, width) + "\n" + TileChars(row)
  {
    var k := |row| - 1;
    InsideRow(|tiles|, k, width);
    LastOfRow(tiles, row, width);
    SnocAfter(Rendered(tiles + row[..k], width), Rendered(tiles, width) + "\n", TileChars(row[..k]), TileChar(row[k]));
    TileCharsSnoc(row);
  }

  // ---------------------------------------------------------------------
  // Round trip: a rectangular map prints back as itself.

  /** A row of a well-formed map: `width` bytes, each a wall, a breakable
      wall or open floor. */
  predicate MapRow(row: seq<Byte>, width: nat) {
    |row| == width && forall i :: 0 <= i < |row| ==> row[i] == HASH || row[i] == EQUALS || row[i] == SPACE
  }

  /** Rows joined by newlines, with no trailing newline. */
  function JoinLines(rows: seq<seq<Byte>>): seq<Byte>
    requires |rows| > 0
  {
    if |rows| == 1 then rows[0]
    else JoinLines(rows[..|rows| - 1]) + [NEWLINE] + rows[|rows| - 1]
  }

  /** A row reads into tiles that print back as the row's characters. */
  lemma {:induction false} RowRoundTrip(row: seq<Byte>, width: nat)
    requires MapRow(row, width)
    ensures |TilesOf(row)| == width
    ensures TileChars(TilesOf(row)) == AsChars(row)
    decreases |row|
  {
    if row != [] {
      var n := |row| - 1;
      assert MapRow(row[..n], n);
      RowRoundTrip(row[..n], n);
      assert TileChars(TilesOf(row)) == TileChars(TilesOf(row[..n])) + [TileChar(TileOf(row[n]))];
      assert AsChars(row) == AsChars(row[..n]) + [row[n] as int as char];
    }
  }

  /** A joined map starts with its first row, followed by a newline when
      there are more rows. */
  lemma {:induction false} JoinLinesStart(rows: seq<seq<Byte>>, width: nat)
    requires |rows| > 0 && forall k :: 0 <= k < |rows| ==> MapRow(rows[k], width)
    ensures |JoinLines(rows)| >= width && JoinLines(rows)[..width] == rows[0]
    ensures |rows| > 1 ==> |JoinLines(rows)| > width && JoinLines(rows)[width] == NEWLINE
    decreases |rows|
  {
    if |rows| > 1 {
      var init := rows[..|rows| - 1];
      JoinLinesStart(init, width);
      if |init| == 1 {
        assert JoinLines(init) == rows[0];
      }
    }
  }

  /** The width is the index of the first newline, or the whole length. */
  lemma WidthIs(text: seq<Byte>, width: nat)
    requires width <= |text|
    requires forall i :: 0 <= i < width ==> text[i] != NEWLINE
    requires width < |text| ==> text[width] == NEWLINE
    ensures Width(text) == width
  {
  }

  /** The width of a joined map is the common row length. */
  lemma JoinLinesWidth(rows: seq<seq<Byte>>, width: nat)
    requires |rows| > 0 && forall k :: 0 <= k < |rows| ==> MapRow(rows[k], width)
    ensures Width(JoinLines(rows)) == width
  {
    var text := JoinLines(rows);
    JoinLinesStart(rows, width);
    if |rows| == 1 {
      assert text == rows[0];
    }
    assert MapRow(rows[0], width);
    forall i | 0 <= i < width
      ensures text[i] != NEWLINE
    {
      assert text[..width][i] == text[i];
    }
    WidthIs(text, width);
  }

  /** Reading bytes as characters commutes with concatenation. */
  lemma AsCharsAppend(a: seq<Byte>, b: seq<Byte>)
    ensures AsChars(a + b) == AsChars(a) + AsChars(b)
  {
    var l, r := AsChars(a + b), AsChars(a) + AsChars(b);
    assert |l| == |r|;
    forall i | 0 <= i < |l| ensures l[i] == r[i] {
      if i < |a| {
        assert (a + b)[i] == a[i];
      } else {
        assert (a + b)[i] == b[i - |a|];
      }
    }
  }

  /** Two maps joined by a newline read into the tiles of the first followed
      by those of the second, and print the same way. */
  lemma {:induction false} JoinSplit(prefix: seq<Byte>, last: seq<Byte>)
    ensures TilesOf(prefix + [NEWLINE] + last) == TilesOf(prefix) + TilesOf(last)
    ensures AsChars(prefix + [NEWLINE] + last) == AsChars(prefix) + "\n" + AsChars(last)
  {
    TilesOfAppend(prefix + [NEWLINE], last);
    TilesOfAppend(prefix, [NEWLINE]);
    TilesOfByte(NEWLINE);
    AsCharsAppend(prefix + [NEWLINE], last);
    AsCharsAppend(prefix, [NEWLINE]);
    assert AsChars([NEWLINE]) == "\n";
  }

  /** Reading a joined map gives `width` tiles per row, and they print back as
      the map itself. */
  lemma {:induction false} JoinLinesRoundTrip(rows: seq<seq<Byte>>, width: nat)
    requires width > 0
    requires |rows| > 0 && forall k :: 0 <= k < |rows| ==> MapRow(rows[k], width)
    ensures |TilesOf(JoinLines(rows))| > 0 && |TilesOf(JoinLines(rows))| % width == 0
    ensures Rendered(TilesOf(JoinLines(rows)), width) == AsChars(JoinLines(rows))
    decreases |rows|
  {
    if |rows| == 1 {
      OneRowRoundTrip(rows[0], width);
    } else {
      var init, last := rows[..|rows| - 1], rows[|rows| - 1];
      assert forall k :: 0 <= k < |init| ==> init[k] == rows[k];
      JoinLinesRoundTrip(init, width);
      RowRoundTrip(last, width);
      assert JoinLines(rows) == JoinLines(init) + [NEWLINE] + last;
      AppendRowRoundTrip(JoinLines(init), last, width);
    }
  }

  /** A one-row map prints back as itself. */
  lemma {:induction false} OneRowRoundTrip(row: seq<Byte>, width: nat)
    requires width > 0 && MapRow(row, width)
    ensures |TilesOf(row)| > 0 && |TilesOf(row)| % width == 0
    ensures Rendered(TilesOf(row), width) == AsChars(row)
  {
    RowRoundTrip(row, width);
    RenderedFirstRow(TilesOf(row), width);
    ModUnique(width, 1, 0, width);
  }

  /** A further row after whole rows that print back as their text prints
      back as itself. */
  lemma {:induction false} AppendRowRoundTrip(prefix: seq<Byte>, last: seq<Byte>, width: nat)
    requires width > 0
    requires |TilesOf(prefix)| > 0 && |TilesOf(prefix)| % width == 0
    requires Rendered(TilesOf(prefix), width) == AsChars(prefix)
    requires |TilesOf(last)| == width && TileChars(TilesOf(last)) == AsChars(last)
    ensures var text := prefix + [NEWLINE] + last;
      && |TilesOf(text)| > 0 && |TilesOf(text)| % width == 0
      && Rendered(TilesOf(text), width) == AsChars(text)
  {
    var tiles, row := TilesOf(prefix), TilesOf(last);
    JoinSplit(prefix, last);
    RenderedNextRow(tiles, row, width);
    WholeRowsGrow(|tiles|, width);
    assert |tiles + row| == |tiles| + width;
  }

  /** Adding a row to whole rows gives whole rows. */
  lemma WholeRowsGrow(n: nat, width: nat)
    requires width > 0 && n % width == 0
    ensures (n + width) % width == 0
  {
    ModUnique(n + width, n / width + 1, 0, width);
  }

  /** `Maze::from(map).to_string() == map` for a map of equal-length lines
      over '#', '=' and ' ', joined by newlines without a trailing one. */
  lemma MapRoundTrip(rows: seq<seq<Byte>>, width: nat)
    requires width > 0
    requires |rows| > 0 && forall k :: 0 <= k < |rows| ==> MapRow(rows[k], width)
    ensures var text := JoinLines(rows);
      Width(text) == width && Rendered(TilesOf(text), Width(text)) == AsChars(text)
  {
    JoinLinesWidth(rows, width);
    JoinLinesRoundTrip(rows, width);
  }
}
