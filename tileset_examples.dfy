/** The tiles and texts of the `tile_simple` test of core/src/tile/tileset.rs:
    TILE1, TILE2 and TILE3 on their own and under `@name` lines, as
    `str::lines` splits them. */
module TilesetExamples {
  import opened Wrappers
  import opened Tokens
  import opened MazingCore
  import opened GridCoord
  import opened Escalator
  import opened Cell
  import opened Wall
  import opened Tile
  import opened TileRows
  import opened Tileset

  /** TILE1: a bottom entrance, no escalators. */
  const Tile1: Tile := Tile(
    [[Empty, Warp(Green), Empty, Camera(Available)],
     [Empty, Empty, TimerFlip(Available), Empty],
     [Empty, Empty, Empty, Empty],
     [FinalExit(Orange), Empty, Empty, Empty]],
    [[Blocked, Blocked, Explore(Yellow), Blocked],
     [Open, Blocked, Blocked, Open],
     [Blocked, Open, Open, Blocked],
     [Open, Blocked, Blocked, Open],
     [Open, Entrance, Open, Open]],
    [[Blocked, Open, Open, Open, Blocked],
     [Blocked, Open, Blocked, Open, Blocked],
     [Blocked, Open, Blocked, Open, Blocked],
     [Blocked, Blocked, Open, Open, Blocked]],
    [])

  const Tile1Body: seq<Line> := [
    "+-+-+7+-+",
    "|  1   c|",
    "+ +-+-+ +",
    "|   |t  |",
    "+-+ + +-+",
    "|   |   |",
    "+ +-+-+ +",
    "|O|     |",
    "+ +^+ + +"]

  /** TILE2: four explore walls, no escalators. */
  const Tile2: Tile := Tile(
    [[TimerFlip(Available), Empty, Empty, Warp(Purple)],
     [Empty, Empty, Empty, Warp(Yellow)],
     [Warp(Orange), Empty, Empty, Empty],
     [Warp(Green), Empty, Empty, Empty]],
    [[Blocked, Blocked, Explore(Orange), Blocked],
     [Blocked, Open, Open, Blocked],
     [Blocked, Open, Open, Blocked],
     [Blocked, Open, Open, Blocked],
     [Blocked, Explore(Yellow), Blocked, Blocked]],
    [[Blocked, Open, Open, Open, Blocked],
     [Explore(Purple), Open, Open, Open, Blocked],
     [Blocked, Open, Open, Blocked, Explore(Green)],
     [Blocked, Open, Open, Blocked, Blocked]],
    [])

  const Tile2Body: seq<Line> := [
    "+-+-+6+-+",
    "|t     4|",
    "+-+ + +-+",
    "8      3|",
    "+-+ + +-+",
    "|2    | 5",
    "+-+ + +-+",
    "|1    | |",
    "+-+7+-+-+"]

  /** TILE3: TILE2 with the three escalators of its `E:` line. */
  const Tile3: Tile := Tile2.(escalators := [
    Make(TileGridCoord(0, 1), TileGridCoord(2, 3)),
    Make(TileGridCoord(0, 0), TileGridCoord(3, 3)),
    Make(TileGridCoord(3, 3), TileGridCoord(0, 2))])

  const Tile3Escalators: Line := "E: 01-23, 00-33, 33-02"

  /** The body rows of a tile, one by one. */
  lemma BodyLines(t: Tile, body: seq<Line>)
    requires Renderable(t) && |body| == 9
    requires BodyLine(t, 0) == body[0] && BodyLine(t, 1) == body[1] && BodyLine(t, 2) == body[2]
    requires BodyLine(t, 3) == body[3] && BodyLine(t, 4) == body[4] && BodyLine(t, 5) == body[5]
    requires BodyLine(t, 6) == body[6] && BodyLine(t, 7) == body[7] && BodyLine(t, 8) == body[8]
    ensures TileText(t)[..9] == body
  {
  }

  lemma Tile1Renderable()
    ensures Renderable(Tile1)
  {
  }

  lemma Tile1Text()
    ensures Renderable(Tile1) && TileText(Tile1)[..9] == Tile1Body
  {
    Tile1Renderable();
    Tile1WallRows();
    Tile1CellRows();
    BodyLines(Tile1, Tile1Body);
  }

  lemma Tile1WallRows()
    ensures Renderable(Tile1)
    ensures BodyLine(Tile1, 0) == Tile1Body[0] && BodyLine(Tile1, 2) == Tile1Body[2] && BodyLine(Tile1, 4) == Tile1Body[4]
    ensures BodyLine(Tile1, 6) == Tile1Body[6] && BodyLine(Tile1, 8) == Tile1Body[8]
  {
    Tile1Renderable();
    WallLine4(Tile1.horzWalls[0]);
    assert BodyLine(Tile1, 0) == Tile1Body[0];
    WallLine4(Tile1.horzWalls[1]);
    assert BodyLine(Tile1, 2) == Tile1Body[2];
    WallLine4(Tile1.horzWalls[2]);
    assert BodyLine(Tile1, 4) == Tile1Body[4];
    WallLine4(Tile1.horzWalls[3]);
    assert BodyLine(Tile1, 6) == Tile1Body[6];
    WallLine4(Tile1.horzWalls[4]);
    assert BodyLine(Tile1, 8) == Tile1Body[8];
  }

  lemma Tile1CellRows()
    ensures Renderable(Tile1)
    ensures BodyLine(Tile1, 1) == Tile1Body[1] && BodyLine(Tile1, 3) == Tile1Body[3]
    ensures BodyLine(Tile1, 5) == Tile1Body[5] && BodyLine(Tile1, 7) == Tile1Body[7]
  {
    Tile1Renderable();
    CellLine4(Tile1.vertWalls[0], CellChars(Tile1.cells[0]));
    assert BodyLine(Tile1, 1) == Tile1Body[1];
    CellLine4(Tile1.vertWalls[1], CellChars(Tile1.cells[1]));
    assert BodyLine(Tile1, 3) == Tile1Body[3];
    CellLine4(Tile1.vertWalls[2], CellChars(Tile1.cells[2]));
    assert BodyLine(Tile1, 5) == Tile1Body[5];
    CellLine4(Tile1.vertWalls[3], CellChars(Tile1.cells[3]));
    assert BodyLine(Tile1, 7) == Tile1Body[7];
  }

  lemma Tile2Renderable()
    ensures Renderable(Tile2)
  {
  }

  lemma Tile2Text()
    ensures Renderable(Tile2) && TileText(Tile2)[..9] == Tile2Body
  {
    Tile2Renderable();
    Tile2WallRows();
    Tile2CellRows();
    BodyLines(Tile2, Tile2Body);
  }

  lemma Tile2WallRows()
    ensures Renderable(Tile2)
    ensures BodyLine(Tile2, 0) == Tile2Body[0] && BodyLine(Tile2, 2) == Tile2Body[2] && BodyLine(Tile2, 4) == Tile2Body[4]
    ensures BodyLine(Tile2, 6) == Tile2Body[6] && BodyLine(Tile2, 8) == Tile2Body[8]
  {
    Tile2Renderable();
    WallLine4(Tile2.horzWalls[0]);
    assert BodyLine(Tile2, 0) == Tile2Body[0];
    WallLine4(Tile2.horzWalls[1]);
    assert BodyLine(Tile2, 2) == Tile2Body[2];
    WallLine4(Tile2.horzWalls[2]);
    assert BodyLine(Tile2, 4) == Tile2Body[4];
    WallLine4(Tile2.horzWalls[3]);
    assert BodyLine(Tile2, 6) == Tile2Body[6];
    WallLine4(Tile2.horzWalls[4]);
    assert BodyLine(Tile2, 8) == Tile2Body[8];
  }

  lemma Tile2CellRows()
    ensures Renderable(Tile2)
    ensures BodyLine(Tile2, 1) == Tile2Body[1] && BodyLine(Tile2, 3) == Tile2Body[3]
    ensures BodyLine(Tile2, 5) == Tile2Body[5] && BodyLine(Tile2, 7) == Tile2Body[7]
  {
    Tile2Renderable();
    CellLine4(Tile2.vertWalls[0], CellChars(Tile2.cells[0]));
    assert BodyLine(Tile2, 1) == Tile2Body[1];
    CellLine4(Tile2.vertWalls[1], CellChars(Tile2.cells[1]));
    assert BodyLine(Tile2, 3) == Tile2Body[3];
    CellLine4(Tile2.vertWalls[2], CellChars(Tile2.cells[2]));
    assert BodyLine(Tile2, 5) == Tile2Body[5];
    CellLine4(Tile2.vertWalls[3], CellChars(Tile2.cells[3]));
    assert BodyLine(Tile2, 7) == Tile2Body[7];
  }

  lemma Tile3Text()
    ensures Renderable(Tile3) && TileText(Tile3)[..9] == Tile2Body
  {
    Tile2Text();
    assert TileText(Tile3)[..9] == TileText(Tile2)[..9];
  }

  /** `TILE1_STR.parse::<Tile>()`: the text starts with an empty line and
      ends after the bottom wall row. */
  lemma ExampleTile1()
    ensures TileFrom([""] + Tile1Body, 0) == Ok((Tile1, 10))
  {
    Tile1Text();
    assert ([""] + Tile1Body)[1..] == Tile1Body;
    BlankThenTileAtEnd([""] + Tile1Body, 0, Tile1);
  }

  lemma ExampleTile2()
    ensures TileFrom([""] + Tile2Body, 0) == Ok((Tile2, 10))
  {
    Tile2Text();
    assert ([""] + Tile2Body)[1..] == Tile2Body;
    BlankThenTileAtEnd([""] + Tile2Body, 0, Tile2);
  }

  /** `TILE1_STR.trim()` and then an escalator line that does not read: the
      tile fails with `InvalidEscalator`, the error of that line, line 10. */
  lemma Tile1BadEscalator(el: Line, e: EscalatorError)
    requires Elevators(ParseContext(el, 10), el, []) == Err(e)
    ensures TileFrom(Tile1Body + [el], 0) == Err(InvalidEscalator(e))
  {
    var lines := Tile1Body + [el];
    Tile1Text();
    assert lines[0..9] == Tile1Body && lines[9] == el;
    TileAtBadEscalator(lines, 0, Tile1, 0, e);
  }

  /** The `fail_elevators` test: each of its five lines after the body of
      TILE1 makes the tile fail with `InvalidEscalator`. */
  lemma FailElevatorsPrefix()
    ensures TileFrom(Tile1Body + ["foo:"], 0) == Err(InvalidEscalator(EscalatorError(10, "foo:", "Invalid prefix")))
  {
    FailPrefix(ParseContext("foo:", 10));
    Tile1BadEscalator("foo:", EscalatorError(10, "foo:", "Invalid prefix"));
  }

  lemma FailElevatorsEmptyHunk()
    ensures TileFrom(Tile1Body + ["E::"], 0) == Err(InvalidEscalator(EscalatorError(10, "E::", "invalid escalator hunk")))
  {
    FailEmptyHunk(ParseContext("E::", 10));
    Tile1BadEscalator("E::", EscalatorError(10, "E::", "invalid escalator hunk"));
  }

  lemma FailElevatorsLongHunk()
    ensures TileFrom(Tile1Body + ["E: 01-23, 00-33z"], 0)
         == Err(InvalidEscalator(EscalatorError(10, "E: 01-23, 00-33z", "invalid escalator hunk")))
  {
    FailLongHunk(ParseContext("E: 01-23, 00-33z", 10));
    Tile1BadEscalator("E: 01-23, 00-33z", EscalatorError(10, "E: 01-23, 00-33z", "invalid escalator hunk"));
  }

  lemma FailElevatorsCoordinates()
    ensures TileFrom(Tile1Body + ["E: 01-23, 00-34"], 0)
         == Err(InvalidEscalator(EscalatorError(10, "E: 01-23, 00-34", "Invalid tile coordinates")))
  {
    FailCoordinates(ParseContext("E: 01-23, 00-34", 10));
    Tile1BadEscalator("E: 01-23, 00-34", EscalatorError(10, "E: 01-23, 00-34", "Invalid tile coordinates"));
  }

  lemma FailElevatorsDigit()
    ensures TileFrom(Tile1Body + ["E: 01-23, 00-3s"], 0)
         == Err(InvalidEscalator(EscalatorError(10, "E: 01-23, 00-3s", "Unable to parse digit")))
  {
    FailDigit(ParseContext("E: 01-23, 00-3s", 10));
    Tile1BadEscalator("E: 01-23, 00-3s", EscalatorError(10, "E: 01-23, 00-3s", "Unable to parse digit"));
  }

  /** The text of a tile that a blank line follows: its escalator line is empty. */
  lemma BlankEscalatorLine(lines: seq<Line>, i: nat)
    requires i < |lines| && lines[i] == ""
    ensures Elevators(ParseContext(lines[i], i + 1), lines[i], []) == Ok([])
  {
    EscalatorLineRoundTrip(ParseContext(lines[i], i + 1), []);
  }

  /** A tile after one blank line, at the end of the text. */
  lemma BlankThenTileAtEnd(lines: seq<Line>, i: nat, t: Tile)
    requires Renderable(t) && t.escalators == [] && i + 10 == |lines|
    requires lines[i] == "" && lines[i + 1..] == TileText(t)[..9]
    ensures TileFrom(lines, i) == Ok((t, |lines|))
  {
    LoopStep(lines, i, WallRow(0), true, DefaultTile(), 0, WallRow(0), true, DefaultTile());
    TileAtEnd(lines, i + 1, t, i + 1);
  }

  /** A named tile whose text ends the tileset. */
  lemma NamedTileAtEnd(lines: seq<Line>, i: nat, name: Line, t: Tile, acc: seq<(Line, Tile)>)
    requires Renderable(t) && t.escalators == [] && i + 11 == |lines|
    requires lines[i] == ['@'] + name && IsAscii(name)
    requires lines[i + 1] == "" && lines[i + 2..] == TileText(t)[..9]
    ensures TilesetLoop(lines, i, acc) == Ok(acc + [(name, t)])
  {
    BlankThenTileAtEnd(lines, i + 1, t);
    NamedTileStep(lines, i, name, t, |lines|, acc);
  }

  /** `"@tile1\n" + TILE1_STR`: one named tile. */
  lemma ExampleTileset1()
    ensures TilesetLoop(["@tile1", ""] + Tile1Body, 0, []) == Ok([("tile1", Tile1)])
  {
    Tile1Text();
    NamedTileAtEnd(["@tile1", ""] + Tile1Body, 0, "tile1", Tile1, []);
  }

  /** A tile after one blank line, its escalator line followed by more lines. */
  lemma BlankThenTileAt(lines: seq<Line>, i: nat, t: Tile)
    requires Renderable(t) && i + 11 <= |lines|
    requires lines[i] == "" && lines[i + 1..i + 10] == TileText(t)[..9]
    requires Elevators(ParseContext(lines[i + 10], i + 11), lines[i + 10], []) == Ok(t.escalators)
    ensures TileFrom(lines, i) == Ok((t, i + 11))
  {
    LoopStep(lines, i, WallRow(0), true, DefaultTile(), 0, WallRow(0), true, DefaultTile());
    TileAt(lines, i + 1, t, i + 1);
  }

  /** The tileset loop passes over skippable lines. */
  lemma {:induction false} SkipTo(lines: seq<Line>, i: nat, j: nat, acc: seq<(Line, Tile)>)
    requires i <= j <= |lines| && forall k :: i <= k < j ==> Skippable(lines[k])
    ensures TilesetLoop(lines, i, acc) == TilesetLoop(lines, j, acc)
    decreases j - i
  {
    if i < j {
      SkipTo(lines, i + 1, j, acc);
    }
  }

  const Tileset12: seq<Line> := ["@tile1", ""] + Tile1Body + ["", "@tile2", ""] + Tile2Body

  /** The lines of `tileset_12`, one by one. */
  lemma Tileset12Lines()
    ensures |Tileset12| == 23 && Tileset12[0] == ['@'] + "tile1" && Tileset12[1] == ""
    ensures Tileset12[2..11] == Tile1Body && Tileset12[11] == ""
    ensures Tileset12[12] == ['@'] + "tile2" && Tileset12[13] == "" && Tileset12[14..] == Tile2Body
  {
  }

  lemma Tileset12First()
    ensures TileFrom(Tileset12, 1) == Ok((Tile1, 12))
  {
    Tileset12Lines();
    Tile1Text();
    BlankEscalatorLine(Tileset12, 11);
    BlankThenTileAt(Tileset12, 1, Tile1);
  }

  lemma Tileset12Second()
    ensures TileFrom(Tileset12, 13) == Ok((Tile2, 23))
  {
    Tileset12Lines();
    Tile2Text();
    BlankThenTileAtEnd(Tileset12, 13, Tile2);
  }

  /** `"@tile1\n" + TILE1_STR + "\n@tile2\n" + TILE2_STR`: two named
      tiles, in order; the blank line after TILE1 is its escalator line. */
  lemma ExampleTileset12()
    ensures TilesetLoop(Tileset12, 0, []) == Ok([("tile1", Tile1), ("tile2", Tile2)])
  {
    Tileset12Lines();
    Tileset12First();
    Tileset12Second();
    NamedTileStep(Tileset12, 0, "tile1", Tile1, 12, []);
    NamedTileStep(Tileset12, 12, "tile2", Tile2, 23, [] + [("tile1", Tile1)]);
    assert TilesetLoop(Tileset12, 23, [] + [("tile1", Tile1)] + [("tile2", Tile2)])
        == Ok([] + [("tile1", Tile1)] + [("tile2", Tile2)]);
    assert [] + [("tile1", Tile1)] + [("tile2", Tile2)] == [("tile1", Tile1), ("tile2", Tile2)];
  }

  const Tileset31: seq<Line> := ["@tile3", ""] + Tile2Body + [Tile3Escalators, "", "@tile1", ""] + Tile1Body

  /** The lines of `tileset_31`, one by one. */
  lemma Tileset31Lines()
    ensures |Tileset31| == 24 && Tileset31[0] == ['@'] + "tile3" && Tileset31[1] == ""
    ensures Tileset31[2..11] == Tile2Body && Tileset31[11] == "E:" + " 01-23" + "," + " 00-33" + "," + " 33-02"
    ensures Tileset31[12] == "" && Tileset31[13] == ['@'] + "tile1" && Tileset31[14] == "" && Tileset31[15..] == Tile1Body
  {
  }

  lemma Tileset31First()
    ensures TileFrom(Tileset31, 1) == Ok((Tile3, 12))
  {
    Tileset31Lines();
    Tile3Text();
    Tile3EscalatorLine(ParseContext(Tileset31[11], 12), Tileset31[11]);
    BlankThenTileAt(Tileset31, 1, Tile3);
  }

  lemma Tileset31Second()
    ensures TileFrom(Tileset31, 14) == Ok((Tile1, 24))
  {
    Tileset31Lines();
    Tile1Text();
    BlankThenTileAtEnd(Tileset31, 14, Tile1);
  }

  /** `"@tile3\n" + TILE3_STR + "\n@tile1\n" + TILE1_STR`: a tile with
      escalators, then a blank line the tileset loop skips, then TILE1. */
  lemma ExampleTileset31()
    ensures TilesetLoop(Tileset31, 0, []) == Ok([("tile3", Tile3), ("tile1", Tile1)])
  {
    Tileset31Head();
    Tileset31Lines();
    Tileset31Second();
    NamedTileStep(Tileset31, 13, "tile1", Tile1, 24, [] + [("tile3", Tile3)]);
    assert TilesetLoop(Tileset31, 24, [] + [("tile3", Tile3)] + [("tile1", Tile1)])
        == Ok([] + [("tile3", Tile3)] + [("tile1", Tile1)]);
    assert [] + [("tile3", Tile3)] + [("tile1", Tile1)] == [("tile3", Tile3), ("tile1", Tile1)];
  }

  /** TILE3 read, then the blank line after it skipped. */
  lemma Tileset31Head()
    ensures TilesetLoop(Tileset31, 0, []) == TilesetLoop(Tileset31, 13, [] + [("tile3", Tile3)])
  {
    Tileset31Lines();
    Tileset31First();
    NamedTileStep(Tileset31, 0, "tile3", Tile3, 12, []);
    SkipTo(Tileset31, 12, 13, [] + [("tile3", Tile3)]);
  }
}
