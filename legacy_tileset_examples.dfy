/** The `tile_simple` test of src/tile/tileset.rs: TILE_SIMPLE1, trimmed, is
    one named tile whose cells are read by the legacy table. */
module LegacyTilesetExamples {
  import opened Wrappers
  import opened Tokens
  import opened MazingCore
  import opened Wall
  import opened Cell
  import opened LegacyTile
  import opened TileRows
  import opened LegacyTileset

  /** The tile the test expects, in the legacy cell alphabet. */
  const Simple1: LegacyTileRecord := LegacyTileRecord(
    [[LegacyCell.Empty, LegacyCell.Warp(Green), LegacyCell.Empty, LegacyCell.Camera(Available)],
     [LegacyCell.Empty, LegacyCell.Empty, LegacyCell.TimerFlip(Available), LegacyCell.Empty],
     [LegacyCell.Empty, LegacyCell.Empty, LegacyCell.Empty, LegacyCell.Empty],
     [LegacyCell.FinalExit(Orange), LegacyCell.Empty, LegacyCell.Empty, LegacyCell.Empty]],
    [[Blocked, Blocked, Explore(Yellow), Blocked],
     [Open, Blocked, Blocked, Open],
     [Blocked, Open, Open, Blocked],
     [Open, Blocked, Blocked, Open],
     [Open, Entrance, Open, Open]],
    [[Blocked, Open, Open, Open, Blocked],
     [Blocked, Open, Blocked, Open, Blocked],
     [Blocked, Open, Blocked, Open, Blocked],
     [Blocked, Blocked, Open, Open, Blocked]],
    [])

  /** `TILE_SIMPLE1.trim()`, split into lines. */
  const Simple1Text: seq<Line> := [
    "@1",
    "+-+-+7+-+",
    "|  1   c|",
    "+ +-+-+ +",
    "|   |t  |",
    "+-+ + +-+",
    "|   |   |",
    "+ +-+-+ +",
    "|O|     |",
    "+ +^+ + +"]

  lemma Simple1Renderable()
    ensures LegacyRenderable(Simple1)
  {
  }

  /** The body rows of a tile, one by one. */
  lemma BodyLines(t: LegacyTileRecord, body: seq<Line>)
    requires LegacyRenderable(t) && |body| == 9
    requires LegacyBodyLine(t, 0) == body[0] && LegacyBodyLine(t, 1) == body[1] && LegacyBodyLine(t, 2) == body[2]
    requires LegacyBodyLine(t, 3) == body[3] && LegacyBodyLine(t, 4) == body[4] && LegacyBodyLine(t, 5) == body[5]
    requires LegacyBodyLine(t, 6) == body[6] && LegacyBodyLine(t, 7) == body[7] && LegacyBodyLine(t, 8) == body[8]
    ensures LegacyTileText(t) == body
  {
  }

  lemma Simple1Body()
    ensures LegacyRenderable(Simple1) && LegacyTileText(Simple1) == Simple1Text[1..]
  {
    Simple1Renderable();
    Simple1WallRows();
    Simple1CellRows();
    BodyLines(Simple1, Simple1Text[1..]);
  }

  lemma Simple1WallRows()
    ensures LegacyRenderable(Simple1)
    ensures LegacyBodyLine(Simple1, 0) == Simple1Text[1] && LegacyBodyLine(Simple1, 2) == Simple1Text[3]
    ensures LegacyBodyLine(Simple1, 4) == Simple1Text[5] && LegacyBodyLine(Simple1, 6) == Simple1Text[7]
    ensures LegacyBodyLine(Simple1, 8) == Simple1Text[9]
  {
    Simple1Renderable();
    WallLine4(Simple1.horzWalls[0]);
    assert LegacyBodyLine(Simple1, 0) == Simple1Text[1];
    WallLine4(Simple1.horzWalls[1]);
    assert LegacyBodyLine(Simple1, 2) == Simple1Text[3];
    WallLine4(Simple1.horzWalls[2]);
    assert LegacyBodyLine(Simple1, 4) == Simple1Text[5];
    WallLine4(Simple1.horzWalls[3]);
    assert LegacyBodyLine(Simple1, 6) == Simple1Text[7];
    WallLine4(Simple1.horzWalls[4]);
    assert LegacyBodyLine(Simple1, 8) == Simple1Text[9];
  }

  lemma Simple1CellRows()
    ensures LegacyRenderable(Simple1)
    ensures LegacyBodyLine(Simple1, 1) == Simple1Text[2] && LegacyBodyLine(Simple1, 3) == Simple1Text[4]
    ensures LegacyBodyLine(Simple1, 5) == Simple1Text[6] && LegacyBodyLine(Simple1, 7) == Simple1Text[8]
  {
    Simple1Renderable();
    CellLine4(Simple1.vertWalls[0], LegacyCellChars(Simple1.cells[0]));
    assert LegacyBodyLine(Simple1, 1) == Simple1Text[2];
    CellLine4(Simple1.vertWalls[1], LegacyCellChars(Simple1.cells[1]));
    assert LegacyBodyLine(Simple1, 3) == Simple1Text[4];
    CellLine4(Simple1.vertWalls[2], LegacyCellChars(Simple1.cells[2]));
    assert LegacyBodyLine(Simple1, 5) == Simple1Text[6];
    CellLine4(Simple1.vertWalls[3], LegacyCellChars(Simple1.cells[3]));
    assert LegacyBodyLine(Simple1, 7) == Simple1Text[8];
  }

  /** A text holding one named tile reads back as that tile. */
  lemma OneNamedTile(lines: seq<Line>, name: Line, t: LegacyTileRecord)
    requires LegacyRenderable(t) && IsAscii(name) && lines == NamedTileText(name, t)
    ensures LegacyTileset.LegacyTileset(lines) == Ok([t])
  {
    var ts := [(name, t)];
    assert ts[1..] == [];
    assert LegacyTilesetText(ts) == NamedTileText(name, t) + LegacyTilesetText([]);
    assert LegacyTilesetText(ts) == lines;
    TilesetRoundTrip(ts);
    assert Tiles(ts) == [t];
  }

  /** `tileset_from_str(TILE_SIMPLE1.trim())` is the one expected tile. */
  lemma ExampleSimple1()
    ensures LegacyTileset.LegacyTileset(Simple1Text) == Ok([Simple1])
  {
    Simple1Body();
    assert Simple1Text[0] == ['@'] + "1";
    assert Simple1Text == [Simple1Text[0]] + Simple1Text[1..];
    OneNamedTile(Simple1Text, "1", Simple1);
  }
}
