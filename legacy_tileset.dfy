/** The legacy tileset parser of src/tile/tileset.rs: one loop over the lines
    that reads an `@name` line, then the nine rows of a tile body, pushing the
    tile after its bottom wall row. Blank and `#` lines are skipped everywhere;
    there is no escalator line. */
module LegacyTileset {
  import opened Wrappers
  import opened Tokens
  import opened GridCoord
  import opened Wall
  import opened LegacyTile
  import opened TileRows

  /** `TileParsingError` of src/tile/tileset.rs. */
  datatype LegacyParsingError =
    | InvalidNameLeader(lineNumber: nat, line: Line)
    | IncompleteTile(lineNumber: nat, tileName: Option<Line>)
    | InvalidTileName(lineNumber: nat, name: string)
    | WrongNumberOfRows(lineNumber: nat, numRows: nat)
    | RowHasExtra(lineNumber: nat, colNumber: nat, line: Line)
    | IncompleteLine(lineNumber: nat, line: Line)
    | ItemParse(lineNumber: nat, colNumber: nat, line: Line, ch: Byte, name: string, allowed: string)

  function FromRowError(e: RowError): (r: LegacyParsingError)
    ensures e.IncompleteLine? ==> r == LegacyParsingError.IncompleteLine(e.lineNumber, e.line)
    ensures e.ItemParse? ==> r == LegacyParsingError.ItemParse(e.lineNumber, e.colNumber, e.line, e.ch, e.name, e.allowed)
    ensures e.RowHasExtra? ==> r == LegacyParsingError.RowHasExtra(e.lineNumber, e.colNumber, e.line)
  {
    match e
    case IncompleteLine(ln, l) => LegacyParsingError.IncompleteLine(ln, l)
    case ItemParse(ln, col, l, c, n, a) => LegacyParsingError.ItemParse(ln, col, l, c, n, a)
    case RowHasExtra(ln, col, l) => LegacyParsingError.RowHasExtra(ln, col, l)
  }

  datatype ParsingState = TileName | WallRow(rowNum: nat) | CellRow(rowNum: nat)

  /** The loop's local state: where it is, the tile being filled, the last
      name read and the tiles finished so far. */
  datatype Parser = Parser(state: ParsingState, tile: LegacyTileRecord, tileName: Option<Line>, tileset: seq<LegacyTileRecord>)
  {
    ghost predicate Valid() {
      tile.Valid() && forall k :: 0 <= k < |tileset| ==> tileset[k].Valid()
    }
  }

  const InitialParser: Parser := Parser(TileName, DefaultLegacyTile(), None, [])

  /** What the loop body does with one line. A name line starts a fresh tile;
      a wall row sets its horizontal walls, and the bottom one (row 4) pushes
      the tile and waits for the next name; a cell row sets its vertical walls
      and cells. Rows are then checked for extra bytes. */
  function LegacyStep(ctx: ParseContext, p: Parser): (r: Result<Parser, LegacyParsingError>)
    requires p.Valid()
    ensures r.Ok? ==> r.value.Valid() && p.tileset <= r.value.tileset
    ensures Skippable(ctx.line) ==> r == Ok(p)
  {
    var line := ctx.line;
    var ln := ctx.lineNumber;
    if Skippable(line) then
      Ok(p)
    else
      match p.state
      case TileName =>
        if line[0] != '@' then Err(InvalidNameLeader(ln, line))
        else if !IsAscii(line[1..]) then Err(InvalidTileName(ln, line[1..]))
        else Ok(Parser(WallRow(0), DefaultLegacyTile(), Some(line[1..]), p.tileset))
      case WallRow(r) =>
        if r > GridWidth then Err(WrongNumberOfRows(ln, r + 1)) else WallRowStep(ctx, p, r)
      case CellRow(r) =>
        if r >= GridWidth then Err(WrongNumberOfRows(ln, r + 1)) else CellRowStep(ctx, p, r)
  }

  /** A wall row: it sets horizontal row `r`; the bottom one pushes the tile.
      The extra-bytes check follows on every row, the bottom one included. */
  function WallRowStep(ctx: ParseContext, p: Parser, r: nat): (res: Result<Parser, LegacyParsingError>)
    requires p.Valid() && r <= GridWidth
    ensures res.Ok? ==> res.value.Valid() && p.tileset <= res.value.tileset
  {
    match ParseWallRow(ctx)
    case Err(e) => Err(FromRowError(e))
    case Ok((walls, cursor)) =>
      var tile := p.tile.(horzWalls := p.tile.horzWalls[r := walls]);
      var p' :=
        if r == GridWidth then p.(state := TileName, tile := tile, tileset := p.tileset + [tile])
        else p.(state := CellRow(r), tile := tile);
      if cursor < |ctx.line| then Err(LegacyParsingError.RowHasExtra(ctx.lineNumber, cursor, ctx.line)) else Ok(p')
  }

  /** A cell row: it sets vertical row `r` and cell row `r`. */
  function CellRowStep(ctx: ParseContext, p: Parser, r: nat): (res: Result<Parser, LegacyParsingError>)
    requires p.Valid() && r < GridWidth
    ensures res.Ok? ==> res.value.Valid() && p.tileset == res.value.tileset
  {
    match ParseCellRow(LegacyCellToken, ctx)
    case Err(e) => Err(FromRowError(e))
    case Ok((walls, cells, cursor)) =>
      var tile := p.tile.(vertWalls := p.tile.vertWalls[r := walls], cells := p.tile.cells[r := cells]);
      if cursor < |ctx.line| then Err(LegacyParsingError.RowHasExtra(ctx.lineNumber, cursor, ctx.line))
      else Ok(p.(state := WallRow(r + 1), tile := tile))
  }

  /** The rest of `tileset_from_lines` from line index `i` (line number
      `i + 1`). At the end of the input the parser must be between tiles;
      otherwise the error names the line count and the last tile name. */
  function LegacyLoop(lines: seq<Line>, i: nat, p: Parser): (r: Result<seq<LegacyTileRecord>, LegacyParsingError>)
    requires i <= |lines| && p.Valid()
    ensures r.Ok? ==> p.tileset <= r.value && forall k :: 0 <= k < |r.value| ==> r.value[k].Valid()
    decreases |lines| - i
  {
    if i == |lines| then
      if p.state.TileName? then Ok(p.tileset) else Err(IncompleteTile(|lines|, p.tileName))
    else
      match LegacyStep(ParseContext(lines[i], i + 1), p)
      case Err(e) => Err(e)
      case Ok(p') => LegacyLoop(lines, i + 1, p')
  }

  /** `tileset_from_lines` of src/tile/tileset.rs. */
  function LegacyTileset(lines: seq<Line>): (r: Result<seq<LegacyTileRecord>, LegacyParsingError>)
    ensures r.Ok? ==> forall k :: 0 <= k < |r.value| ==> r.value[k].Valid()
  {
    LegacyLoop(lines, 0, InitialParser)
  }

  /** The loop body of `tileset_from_lines`. */
  method StepLine(ctx: ParseContext, p: Parser) returns (r: Result<Parser, LegacyParsingError>)
    requires p.Valid()
    ensures r == LegacyStep(ctx, p)
  {
    var line := ctx.line;
    var lineNumber := ctx.lineNumber;
    if Skippable(line) {
      return Ok(p);
    }
    match p.state {
      case TileName =>
        var leader, tail := line[0], line[1..];
        if leader != '@' {
          return Err(InvalidNameLeader(lineNumber, line));
        }
        if !IsAscii(tail) {
          return Err(InvalidTileName(lineNumber, tail));
        }
        r := Ok(Parser(WallRow(0), DefaultLegacyTile(), Some(tail), p.tileset));
      case WallRow(row) =>
        if row > GridWidth {
          return Err(WrongNumberOfRows(lineNumber, row + 1));
        }
        r := EatWallLine(ctx, p, row);
      case CellRow(row) =>
        if row >= GridWidth {
          return Err(WrongNumberOfRows(lineNumber, row + 1));
        }
        r := EatCellLine(ctx, p, row);
    }
  }

  /** The wall-row arm of the loop body, with its extra-bytes check. */
  method EatWallLine(ctx: ParseContext, p: Parser, row: nat) returns (r: Result<Parser, LegacyParsingError>)
    requires p.Valid() && row <= GridWidth
    ensures r == WallRowStep(ctx, p, row)
  {
    var parsed := EatWallRow(ctx);
    if parsed.Err? {
      return Err(FromRowError(parsed.error));
    }
    var (walls, cursor) := parsed.value;
    var tile := p.tile.(horzWalls := p.tile.horzWalls[row := walls]);
    var p';
    if row == GridWidth {
      p' := p.(state := TileName, tile := tile, tileset := p.tileset + [tile]);
    } else {
      p' := p.(state := CellRow(row), tile := tile);
    }
    var extra := ExtraCheck(ctx, cursor);
    if extra.Some? {
      return Err(FromRowError(extra.value));
    }
    r := Ok(p');
  }

  /** The cell-row arm of the loop body, with its extra-bytes check. */
  method EatCellLine(ctx: ParseContext, p: Parser, row: nat) returns (r: Result<Parser, LegacyParsingError>)
    requires p.Valid() && row < GridWidth
    ensures r == CellRowStep(ctx, p, row)
  {
    var parsed := EatCellRow(LegacyCellToken, ctx);
    if parsed.Err? {
      return Err(FromRowError(parsed.error));
    }
    var (walls, cells, cursor) := parsed.value;
    var tile := p.tile.(vertWalls := p.tile.vertWalls[row := walls], cells := p.tile.cells[row := cells]);
    var extra := ExtraCheck(ctx, cursor);
    if extra.Some? {
      return Err(FromRowError(extra.value));
    }
    r := Ok(p.(state := WallRow(row + 1), tile := tile));
  }

  /** `tileset_from_lines`: one pass over the lines with the parser state as
      local variables. */
  method TilesetFromLines(lines: seq<Line>) returns (r: Result<seq<LegacyTileRecord>, LegacyParsingError>)
    ensures r == LegacyTileset(lines)
  {
    var lineNumber: nat := 0;
    var p := InitialParser;
    while lineNumber < |lines|
      invariant lineNumber <= |lines| && p.Valid()
      invariant LegacyLoop(lines, lineNumber, p) == LegacyTileset(lines)
      decreases |lines| - lineNumber
    {
      var line := lines[lineNumber];
      lineNumber := lineNumber + 1;
      var step := StepLine(ParseContext(line, lineNumber), p);
      if step.Err? {
        return Err(step.error);
      }
      p := step.value;
    }
    if p.state.TileName? {
      r := Ok(p.tileset);
    } else {
      r := Err(IncompleteTile(lineNumber, p.tileName));
    }
  }

  // Rendering: the text a tile set reads back from.

  /** Tiles the text format can write: every timer and camera still available,
      and no escalators (the legacy format has no escalator line). */
  ghost predicate LegacyRenderable(t: LegacyTileRecord) {
    t.Valid() && t.escalators == [] && forall r, c :: 0 <= r < 4 && 0 <= c < 4 ==> IsWritable(t.cells[r][c])
  }

  function LegacyCellChars(row: seq<LegacyCell>): (chars: seq<Byte>)
    requires forall k :: 0 <= k < |row| ==> IsWritable(row[k])
    ensures |chars| == |row| && forall k :: 0 <= k < |row| ==> chars[k] == LegacyCellChar(row[k])
  {
    if row == [] then [] else [LegacyCellChar(row[0])] + LegacyCellChars(row[1..])
  }

  /** Line `k` of a tile body: even lines are wall rows, odd lines cell rows. */
  function LegacyBodyLine(t: LegacyTileRecord, k: nat): Line
    requires LegacyRenderable(t) && k < 9
  {
    if k % 2 == 0 then WallLine(t.horzWalls[k / 2])
    else CellLine(t.vertWalls[k / 2], LegacyCellChars(t.cells[k / 2]))
  }

  /** The nine body lines of a tile. */
  function LegacyTileText(t: LegacyTileRecord): (lines: seq<Line>)
    requires LegacyRenderable(t)
    ensures |lines| == 9
  {
    [LegacyBodyLine(t, 0), LegacyBodyLine(t, 1), LegacyBodyLine(t, 2), LegacyBodyLine(t, 3), LegacyBodyLine(t, 4),
     LegacyBodyLine(t, 5), LegacyBodyLine(t, 6), LegacyBodyLine(t, 7), LegacyBodyLine(t, 8)]
  }

  /** The text of a named tile set: each tile's `@name` line, then its body. */
  function LegacyTilesetText(ts: seq<(Line, LegacyTileRecord)>): (lines: seq<Line>)
    requires forall k :: 0 <= k < |ts| ==> LegacyRenderable(ts[k].1)
    ensures |lines| == 10 * |ts|
  {
    if ts == [] then [] else NamedTileText(ts[0].0, ts[0].1) + LegacyTilesetText(ts[1..])
  }

  /** A tile's `@name` line and its body. */
  function NamedTileText(name: Line, t: LegacyTileRecord): (lines: seq<Line>)
    requires LegacyRenderable(t)
    ensures |lines| == 10
  {
    [['@'] + name] + LegacyTileText(t)
  }

  /** The tiles of a named tile set, names dropped (`tileset_from_str` keeps
      only the tiles). */
  function Tiles(ts: seq<(Line, LegacyTileRecord)>): (tiles: seq<LegacyTileRecord>)
    ensures |tiles| == |ts| && forall k :: 0 <= k < |ts| ==> tiles[k] == ts[k].1
  {
    if ts == [] then [] else [ts[0].1] + Tiles(ts[1..])
  }

  /** A tile built row by row agrees with `t` on its first `h` horizontal
      wall rows and its first `v` cell rows. */
  ghost predicate RowsAgree(tile: LegacyTileRecord, t: LegacyTileRecord, h: nat, v: nat) {
    tile.Valid() && t.Valid() && h <= 5 && v <= 4 && tile.escalators == t.escalators &&
    (forall j :: 0 <= j < h ==> tile.horzWalls[j] == t.horzWalls[j]) &&
    (forall j :: 0 <= j < v ==> tile.vertWalls[j] == t.vertWalls[j] && tile.cells[j] == t.cells[j])
  }

  lemma TileExtensionality(tile: LegacyTileRecord, t: LegacyTileRecord)
    requires RowsAgree(tile, t, 5, 4)
    ensures tile == t
  {
    assert tile.horzWalls == t.horzWalls;
    assert tile.vertWalls == t.vertWalls;
    assert tile.cells == t.cells;
  }

  lemma BodyLineNotSkippable(t: LegacyTileRecord, k: nat)
    requires LegacyRenderable(t) && k < 9
    ensures !Skippable(LegacyBodyLine(t, k))
  {
    if k % 2 == 0 {
      WallLineAt(t.horzWalls[k / 2], 0);
    } else {
      CellLineAt(t.vertWalls[k / 2], LegacyCellChars(t.cells[k / 2]), 0);
      var w := t.vertWalls[k / 2][0];
      assert WallChar(w, '|') != '#';
    }
  }

  /** A rendered wall row `r` sets that row; the bottom one pushes the tile. */
  lemma WallRowRender(t: LegacyTileRecord, r: nat, p: Parser, ln: nat)
    requires LegacyRenderable(t) && p.Valid() && r <= 4 && p.state == WallRow(r)
    ensures var tile := p.tile.(horzWalls := p.tile.horzWalls[r := t.horzWalls[r]]);
      LegacyStep(ParseContext(LegacyBodyLine(t, 2 * r), ln), p)
      == Ok(if r == 4 then p.(state := TileName, tile := tile, tileset := p.tileset + [tile])
            else p.(state := CellRow(r), tile := tile))
  {
    var line := LegacyBodyLine(t, 2 * r);
    assert line == WallLine(t.horzWalls[r]);
    BodyLineNotSkippable(t, 2 * r);
    WallRowRoundTrip(t.horzWalls[r], ln);
  }

  /** A rendered cell row `r` sets that row and moves on to wall row `r + 1`. */
  lemma CellRowRender(t: LegacyTileRecord, r: nat, p: Parser, ln: nat)
    requires LegacyRenderable(t) && p.Valid() && r < 4 && p.state == CellRow(r)
    ensures LegacyStep(ParseContext(LegacyBodyLine(t, 2 * r + 1), ln), p)
      == Ok(p.(state := WallRow(r + 1),
               tile := p.tile.(vertWalls := p.tile.vertWalls[r := t.vertWalls[r]], cells := p.tile.cells[r := t.cells[r]])))
  {
    var chars := LegacyCellChars(t.cells[r]);
    var ctx := ParseContext(LegacyBodyLine(t, 2 * r + 1), ln);
    assert ctx == ParseContext(CellLine(t.vertWalls[r], chars), ln);
    BodyLineNotSkippable(t, 2 * r + 1);
    CellCharsParse(t.cells[r]);
    CellRowRoundTrip(LegacyCellToken, t.vertWalls[r], chars, t.cells[r], ln);
    CellRowStepParsed(ctx, p, r, t.vertWalls[r], t.cells[r]);
  }

  /** A cell row that parses to its end moves on to wall row `r + 1`. */
  lemma CellRowStepParsed(ctx: ParseContext, p: Parser, r: nat, walls: seq<WallState>, cells: seq<LegacyCell>)
    requires p.Valid() && r < GridWidth
    requires ParseCellRow(LegacyCellToken, ctx) == Ok((walls, cells, |ctx.line|))
    ensures CellRowStep(ctx, p, r)
      == Ok(p.(state := WallRow(r + 1), tile := p.tile.(vertWalls := p.tile.vertWalls[r := walls], cells := p.tile.cells[r := cells])))
  {
  }

  /** The token reads each written cell back. */
  lemma CellCharsParse(row: seq<LegacyCell>)
    requires forall k :: 0 <= k < |row| ==> IsWritable(row[k])
    ensures forall j :: 0 <= j < |row| ==> LegacyCellToken.parse(LegacyCellChars(row)[j]) == Some(row[j])
  {
    forall j | 0 <= j < |row|
      ensures LegacyCellToken.parse(LegacyCellChars(row)[j]) == Some(row[j])
    {
      ParseLegacyCellChar(row[j]);
    }
  }

  lemma LoopStep(lines: seq<Line>, i: nat, p: Parser, p': Parser)
    requires i < |lines| && p.Valid() && LegacyStep(ParseContext(lines[i], i + 1), p) == Ok(p')
    ensures LegacyLoop(lines, i, p) == LegacyLoop(lines, i + 1, p')
  {
  }

  /** The tile with horizontal wall row `r`, vertical wall row `r` and cell
      row `r` taken from `t`. */
  function CopyRows(tile: LegacyTileRecord, t: LegacyTileRecord, r: nat): (tile': LegacyTileRecord)
    requires tile.Valid() && t.Valid() && r < 4
    ensures tile'.Valid() && tile'.escalators == tile.escalators
  {
    tile.(horzWalls := tile.horzWalls[r := t.horzWalls[r]],
          vertWalls := tile.vertWalls[r := t.vertWalls[r]],
          cells := tile.cells[r := t.cells[r]])
  }

  /** A rendered wall row `r < 4` and the cell row below it. */
  lemma TwoRowsRender(lines: seq<Line>, i: nat, t: LegacyTileRecord, r: nat, p: Parser)
    requires LegacyRenderable(t) && r < 4 && p.Valid() && p.state == WallRow(r)
    requires i + 2 <= |lines| && lines[i] == LegacyBodyLine(t, 2 * r) && lines[i + 1] == LegacyBodyLine(t, 2 * r + 1)
    ensures LegacyLoop(lines, i, p) == LegacyLoop(lines, i + 2, p.(state := WallRow(r + 1), tile := CopyRows(p.tile, t, r)))
  {
    WallRowRender(t, r, p, i + 1);
    var tile1 := p.tile.(horzWalls := p.tile.horzWalls[r := t.horzWalls[r]]);
    var p1 := p.(state := CellRow(r), tile := tile1);
    LoopStep(lines, i, p, p1);
    CellRowRender(t, r, p1, i + 2);
    var tile2 := tile1.(vertWalls := tile1.vertWalls[r := t.vertWalls[r]], cells := tile1.cells[r := t.cells[r]]);
    assert tile2 == CopyRows(p.tile, t, r);
    LoopStep(lines, i + 1, p1, p1.(state := WallRow(r + 1), tile := tile2));
  }

  /** The bottom wall row pushes the finished tile. */
  lemma BottomRowRender(lines: seq<Line>, i: nat, t: LegacyTileRecord, p: Parser)
    requires LegacyRenderable(t) && p.Valid() && p.state == WallRow(4) && RowsAgree(p.tile, t, 4, 4)
    requires i < |lines| && lines[i] == LegacyBodyLine(t, 8)
    ensures LegacyLoop(lines, i, p) == LegacyLoop(lines, i + 1, p.(state := TileName, tile := t, tileset := p.tileset + [t]))
  {
    WallRowRender(t, 4, p, i + 1);
    var tile1 := p.tile.(horzWalls := p.tile.horzWalls[4 := t.horzWalls[4]]);
    assert RowsAgree(tile1, t, 5, 4);
    TileExtensionality(tile1, t);
    LoopStep(lines, i, p, p.(state := TileName, tile := t, tileset := p.tileset + [t]));
  }

  /** Lines `i` to `end` holding the body rows from wall row `r` on move the
      loop from wall row `r` to the next name line, the tile pushed. */
  lemma {:induction false} BodyRender(lines: seq<Line>, i: nat, end: nat, t: LegacyTileRecord, r: nat, p: Parser)
    requires LegacyRenderable(t) && r <= 4 && p.Valid() && p.state == WallRow(r) && RowsAgree(p.tile, t, r, r)
    requires end == i + 9 - 2 * r && end <= |lines| && lines[i..end] == LegacyTileText(t)[2 * r..]
    ensures LegacyLoop(lines, i, p) == LegacyLoop(lines, end, p.(state := TileName, tile := t, tileset := p.tileset + [t]))
    decreases 4 - r
  {
    BodyRowsAt(lines, i, end, t, r);
    if r == 4 {
      BottomRowRender(lines, i, t, p);
    } else {
      TwoRowsRender(lines, i, t, r, p);
      var p2 := p.(state := WallRow(r + 1), tile := CopyRows(p.tile, t, r));
      CopyRowsAgree(p.tile, t, r);
      BodyRender(lines, i + 2, end, t, r + 1, p2);
      assert p2.(state := TileName, tile := t, tileset := p2.tileset + [t])
          == p.(state := TileName, tile := t, tileset := p.tileset + [t]);
    }
  }

  lemma BodyRowsAt(lines: seq<Line>, i: nat, end: nat, t: LegacyTileRecord, r: nat)
    requires LegacyRenderable(t) && r <= 4
    requires end == i + 9 - 2 * r && end <= |lines| && lines[i..end] == LegacyTileText(t)[2 * r..]
    ensures lines[i] == LegacyBodyLine(t, 2 * r)
    ensures r < 4 ==> lines[i + 1] == LegacyBodyLine(t, 2 * r + 1) && lines[i + 2..end] == LegacyTileText(t)[2 * (r + 1)..]
  {
    assert lines[i] == lines[i..end][0];
    if r < 4 {
      assert lines[i + 1] == lines[i..end][1];
      assert lines[i + 2..end] == lines[i..end][2..];
    }
  }

  lemma CopyRowsAgree(tile: LegacyTileRecord, t: LegacyTileRecord, r: nat)
    requires tile.Valid() && t.Valid() && RowsAgree(tile, t, r, r) && r < 4
    ensures RowsAgree(CopyRows(tile, t, r), t, r + 1, r + 1)
  {
  }

  /** An `@name` line with an ASCII name starts a fresh tile under that name. */
  lemma NameLineStep(lines: seq<Line>, i: nat, name: Line, p: Parser)
    requires i < |lines| && lines[i] == ['@'] + name && IsAscii(name) && p.Valid() && p.state.TileName?
    ensures LegacyLoop(lines, i, p) == LegacyLoop(lines, i + 1, Parser(WallRow(0), DefaultLegacyTile(), Some(name), p.tileset))
  {
    assert lines[i][1..] == name;
  }

  /** A name line and the body of a tile move the loop past that tile, pushed. */
  lemma NamedTileRender(lines: seq<Line>, i: nat, name: Line, t: LegacyTileRecord, p: Parser)
    requires LegacyRenderable(t) && IsAscii(name) && p.Valid() && p.state.TileName?
    requires i + 10 <= |lines| && lines[i..i + 10] == NamedTileText(name, t)
    ensures LegacyLoop(lines, i, p) == LegacyLoop(lines, i + 10, Parser(TileName, t, Some(name), p.tileset + [t]))
  {
    assert lines[i] == lines[i..i + 10][0];
    assert lines[i + 1..i + 10] == lines[i..i + 10][1..];
    NameLineStep(lines, i, name, p);
    var p0 := Parser(WallRow(0), DefaultLegacyTile(), Some(name), p.tileset);
    assert LegacyTileText(t)[0..] == LegacyTileText(t);
    BodyRender(lines, i + 1, i + 10, t, 0, p0);
  }

  lemma TilesetTextCons(ts: seq<(Line, LegacyTileRecord)>)
    requires ts != [] && forall k :: 0 <= k < |ts| ==> LegacyRenderable(ts[k].1)
    ensures LegacyTilesetText(ts) == NamedTileText(ts[0].0, ts[0].1) + LegacyTilesetText(ts[1..])
  {
  }

  /** The text of tiles `ts` from line `i` to the end moves the loop, between
      tiles, to the end with those tiles pushed. */
  lemma {:induction false} TilesetRender(lines: seq<Line>, i: nat, ts: seq<(Line, LegacyTileRecord)>, p: Parser)
    requires forall k :: 0 <= k < |ts| ==> LegacyRenderable(ts[k].1) && IsAscii(ts[k].0)
    requires p.Valid() && p.state.TileName?
    requires i <= |lines| && lines[i..] == LegacyTilesetText(ts)
    ensures LegacyLoop(lines, i, p) == Ok(p.tileset + Tiles(ts))
    decreases |ts|
  {
    if ts == [] {
      assert |lines[i..]| == 0;
      assert p.tileset + Tiles(ts) == p.tileset;
    } else {
      var p1 := NextTileRender(lines, i, ts, p);
      TailWritable(ts);
      TilesetRender(lines, i + 10, ts[1..], p1);
      TilesCons(p.tileset, ts);
    }
  }

  lemma TailWritable(ts: seq<(Line, LegacyTileRecord)>)
    requires ts != [] && forall k :: 0 <= k < |ts| ==> LegacyRenderable(ts[k].1) && IsAscii(ts[k].0)
    ensures forall k :: 0 <= k < |ts[1..]| ==> LegacyRenderable(ts[1..][k].1) && IsAscii(ts[1..][k].0)
  {
    assert forall k :: 0 <= k < |ts[1..]| ==> ts[1..][k] == ts[k + 1];
  }

  lemma TilesCons(acc: seq<LegacyTileRecord>, ts: seq<(Line, LegacyTileRecord)>)
    requires ts != []
    ensures acc + Tiles(ts) == (acc + [ts[0].1]) + Tiles(ts[1..])
  {
    assert Tiles(ts) == [ts[0].1] + Tiles(ts[1..]);
  }

  /** The first tile of `ts`, read from line `i`: the parser state after it. */
  lemma NextTileRender(lines: seq<Line>, i: nat, ts: seq<(Line, LegacyTileRecord)>, p: Parser) returns (p1: Parser)
    requires ts != [] && forall k :: 0 <= k < |ts| ==> LegacyRenderable(ts[k].1) && IsAscii(ts[k].0)
    requires p.Valid() && p.state.TileName?
    requires i <= |lines| && lines[i..] == LegacyTilesetText(ts)
    ensures p1.Valid() && p1.state.TileName? && p1.tileset == p.tileset + [ts[0].1]
    ensures i + 10 <= |lines| && lines[i + 10..] == LegacyTilesetText(ts[1..])
    ensures LegacyLoop(lines, i, p) == LegacyLoop(lines, i + 10, p1)
  {
    var (name, t) := ts[0];
    TilesetTextCons(ts);
    LinesSplit(lines, i, LegacyTilesetText(ts), NamedTileText(name, t), LegacyTilesetText(ts[1..]), 10);
    NamedTileRender(lines, i, name, t, p);
    p1 := Parser(TileName, t, Some(name), p.tileset + [t]);
    PushedValid(p, t, p1);
  }

  lemma PushedValid(p: Parser, t: LegacyTileRecord, p1: Parser)
    requires p.Valid() && t.Valid() && p1.tile == t && p1.tileset == p.tileset + [t]
    ensures p1.Valid()
  {
    assert forall k :: 0 <= k < |p1.tileset| ==> p1.tileset[k] == (if k < |p.tileset| then p.tileset[k] else t);
  }

  /** Every tile set of writable, escalator-free tiles with ASCII names reads
      back from its text as its tiles, in order. */
  lemma TilesetRoundTrip(ts: seq<(Line, LegacyTileRecord)>)
    requires forall k :: 0 <= k < |ts| ==> LegacyRenderable(ts[k].1) && IsAscii(ts[k].0)
    ensures LegacyTileset(LegacyTilesetText(ts)) == Ok(Tiles(ts))
  {
    var lines := LegacyTilesetText(ts);
    assert lines[0..] == lines;
    TilesetRender(lines, 0, ts, InitialParser);
  }

  // Error paths and invariants of the loop.

  /** What holds of every parser state the loop reaches: the row counters stay
      on the grid, a tile name has been read whenever a tile is open, and no
      tile has escalators. */
  ghost predicate Reachable(p: Parser) {
    && p.Valid()
    && (match p.state
        case TileName => true
        case WallRow(r) => r <= GridWidth
        case CellRow(r) => r < GridWidth)
    && (!p.state.TileName? ==> p.tileName.Some?)
    && p.tile.escalators == []
    && forall k :: 0 <= k < |p.tileset| ==> p.tileset[k].escalators == []
  }

  lemma StepReachable(ctx: ParseContext, p: Parser)
    requires Reachable(p)
    ensures LegacyStep(ctx, p).Ok? ==> Reachable(LegacyStep(ctx, p).value)
    ensures LegacyStep(ctx, p).Err? ==>
      !LegacyStep(ctx, p).error.WrongNumberOfRows? && !LegacyStep(ctx, p).error.IncompleteTile?
  {
  }

  lemma {:induction false} LoopReachable(lines: seq<Line>, i: nat, p: Parser)
    requires i <= |lines| && Reachable(p)
    ensures var r := LegacyLoop(lines, i, p);
      && (r.Err? ==> !r.error.WrongNumberOfRows?)
      && (r.Err? && r.error.IncompleteTile? ==> r.error.tileName.Some? && r.error.lineNumber == |lines|)
      && (r.Ok? ==> forall k :: 0 <= k < |r.value| ==> r.value[k].escalators == [])
    decreases |lines| - i
  {
    if i < |lines| {
      var ctx := ParseContext(lines[i], i + 1);
      StepReachable(ctx, p);
      if LegacyStep(ctx, p).Ok? {
        LoopReachable(lines, i + 1, LegacyStep(ctx, p).value);
      }
    }
  }

  /** `WrongNumberOfRows` is never returned, an `IncompleteTile` error always
      carries the name of the open tile and the number of the last line, and
      the parsed tiles never have escalators. */
  lemma LegacyTilesetErrors(lines: seq<Line>)
    ensures var r := LegacyTileset(lines);
      && (r.Err? ==> !r.error.WrongNumberOfRows?)
      && (r.Err? && r.error.IncompleteTile? ==> r.error.tileName.Some? && r.error.lineNumber == |lines|)
      && (r.Ok? ==> forall k :: 0 <= k < |r.value| ==> r.value[k].escalators == [])
  {
    LoopReachable(lines, 0, InitialParser);
  }

  /** Bytes after a wall row are rejected on every row, the bottom row (row
      4) included: the check runs after the tile is pushed. */
  lemma WallRowExtraBytes(ws: seq<WallState>, extra: Line, r: nat, p: Parser, ln: nat)
    requires |ws| == 4 && r <= GridWidth && p.Valid() && p.state == WallRow(r) && extra != []
    ensures var line := WallLine(ws) + extra;
      LegacyStep(ParseContext(line, ln), p) == Err(LegacyParsingError.RowHasExtra(ln, 9, line))
  {
    var line := WallLine(ws) + extra;
    var ctx := ParseContext(line, ln);
    WallLineAt(ws, 0);
    assert line[0] == '+' && line[..|WallLine(ws)|] == WallLine(ws);
    WallRowPrefix(ctx, ws);
  }

  lemma {:induction false} SkippedLines(lines: seq<Line>, i: nat, p: Parser)
    requires i <= |lines| && p.Valid() && forall k :: i <= k < |lines| ==> Skippable(lines[k])
    ensures LegacyLoop(lines, i, p) == LegacyLoop(lines, |lines|, p)
    decreases |lines| - i
  {
    if i < |lines| {
      SkippedLines(lines, i + 1, p);
    }
  }

  /** Input of nothing but blank and comment lines, the empty input among
      them, is the empty tile set. */
  lemma OnlySkippableLines(lines: seq<Line>)
    requires forall k :: 0 <= k < |lines| ==> Skippable(lines[k])
    ensures LegacyTileset(lines) == Ok([])
  {
    SkippedLines(lines, 0, InitialParser);
  }

  /** The first line that is neither blank nor a comment must start with `@`;
      otherwise it is reported, with its own line number. */
  lemma MissingNameLeader(lines: seq<Line>, j: nat)
    requires j < |lines| && forall k :: 0 <= k < j ==> Skippable(lines[k])
    requires !Skippable(lines[j]) && lines[j][0] != '@'
    ensures LegacyTileset(lines) == Err(InvalidNameLeader(j + 1, lines[j]))
  {
    SkippedPrefix(lines, 0, j);
  }

  lemma {:induction false} SkippedPrefix(lines: seq<Line>, i: nat, j: nat)
    requires i <= j < |lines| && forall k :: i <= k < j ==> Skippable(lines[k])
    ensures LegacyLoop(lines, i, InitialParser) == LegacyLoop(lines, j, InitialParser)
    decreases j - i
  {
    if i < j {
      SkippedPrefix(lines, i + 1, j);
    }
  }

  /** A name line with nothing after it: the tile is incomplete, and the
      error carries its name. */
  lemma NameWithoutBody(lines: seq<Line>, name: Line)
    requires lines == [['@'] + name] && IsAscii(name)
    ensures LegacyTileset(lines) == Err(IncompleteTile(1, Some(name)))
  {
    assert lines[0][0] == '@' && lines[0][1..] == name;
    var p' := Parser(WallRow(0), DefaultLegacyTile(), Some(name), []);
    assert LegacyStep(ParseContext(lines[0], 1), InitialParser) == Ok(p');
    assert LegacyLoop(lines, 1, p') == Err(IncompleteTile(1, Some(name)));
  }
}
