/** The row grammar both tileset parsers share (core/src/tile/tileset.rs and
    src/tile/tileset.rs): the `+` placeholder token, `eat_thing`, the wall row
    `+W+W+W+W+` and the cell row `WCWCWCWCW`, and the errors they raise. */
module TileRows {
  import opened Wrappers
  import opened Tokens
  import opened Wall

  /** The `+` between walls. */
  datatype Placeholder = Placeholder

  function ParsePlaceholder(b: Byte): (r: Option<Placeholder>)
    ensures r.Some? <==> b == '+'
  {
    if b == '+' then Some(Placeholder) else None
  }

  const PlaceholderToken: TokenParser<Placeholder> := TokenParser("Placeholder", "+", ParsePlaceholder)

  /** The line being parsed and its 1-based number. */
  datatype ParseContext = ParseContext(line: Line, lineNumber: nat)

  /** The errors a row can raise; each parser has a variant of the same name
      and fields for each. */
  datatype RowError =
    | IncompleteLine(lineNumber: nat, line: Line)
    | ItemParse(lineNumber: nat, colNumber: nat, line: Line, ch: Byte, name: string, allowed: string)
    | RowHasExtra(lineNumber: nat, colNumber: nat, line: Line)

  /** What `eat_thing` does with the cursor at column `col`: no byte left is
      `IncompleteLine`; a byte the token rejects is `ItemParse`, whose line
      number is one more than the context's; otherwise the value, and the
      cursor moves one column. */
  function Eat<T>(tok: TokenParser<T>, ctx: ParseContext, col: nat): (r: Result<(T, nat), RowError>)
    ensures r.Ok? <==> col < |ctx.line| && tok.parse(ctx.line[col]).Some?
    ensures r.Ok? ==> r.value == (tok.parse(ctx.line[col]).value, col + 1)
    ensures col >= |ctx.line| ==> r == Err(IncompleteLine(ctx.lineNumber, ctx.line))
    ensures col < |ctx.line| && r.Err? ==>
      r.error == ItemParse(ctx.lineNumber + 1, col, ctx.line, ctx.line[col], tok.name, tok.allowed)
  {
    if col >= |ctx.line| then
      Err(IncompleteLine(ctx.lineNumber, ctx.line))
    else
      match tok.parse(ctx.line[col])
      case None => Err(ItemParse(ctx.lineNumber + 1, col, ctx.line, ctx.line[col], tok.name, tok.allowed))
      case Some(v) => Ok((v, col + 1))
  }

  /** `eat_thing`, with the cursor as a column index that it advances. */
  method EatThing<T>(tok: TokenParser<T>, ctx: ParseContext, cursor: nat) returns (r: Result<T, RowError>, cursor': nat)
    ensures Eat(tok, ctx, cursor).Ok? ==> r == Ok(Eat(tok, ctx, cursor).value.0) && cursor' == Eat(tok, ctx, cursor).value.1
    ensures Eat(tok, ctx, cursor).Err? ==> r == Err(Eat(tok, ctx, cursor).error)
  {
    cursor' := cursor;
    if cursor' >= |ctx.line| {
      return Err(IncompleteLine(ctx.lineNumber, ctx.line)), cursor';
    }
    var c := ctx.line[cursor'];
    var col := cursor';
    cursor' := cursor' + 1;
    match tok.parse(c)
    case None =>
      r := Err(ItemParse(ctx.lineNumber + 1, col, ctx.line, c, tok.name, tok.allowed));
    case Some(v) =>
      r := Ok(v);
  }

  // ---------------------------------------------------------------------
  // Wall rows: `+` then four times a wall and a `+`.

  /** The rest of a wall row: `k` more wall/`+` pairs from column `col`, the
      walls read so far in `acc`. */
  function WallPairs(ctx: ParseContext, col: nat, k: nat, acc: seq<WallState>): (r: Result<(seq<WallState>, nat), RowError>)
    ensures r.Ok? ==> |r.value.0| == |acc| + k && r.value.1 == col + 2 * k
    decreases k
  {
    if k == 0 then Ok((acc, col))
    else
      match Eat(WallToken, ctx, col)
      case Err(e) => Err(e)
      case Ok((w, c1)) =>
        match Eat(PlaceholderToken, ctx, c1)
        case Err(e) => Err(e)
        case Ok((_, c2)) => WallPairs(ctx, c2, k - 1, acc + [w])
  }

  /** A wall row of a tile body: the four walls and the cursor after them.
      The caller checks for extra bytes. */
  function ParseWallRow(ctx: ParseContext): (r: Result<(seq<WallState>, nat), RowError>)
    ensures r.Ok? ==> |r.value.0| == 4 && r.value.1 == 9
  {
    match Eat(PlaceholderToken, ctx, 0)
    case Err(e) => Err(e)
    case Ok((_, c)) => WallPairs(ctx, c, 4, [])
  }

  /** The `WallRow` arm: one placeholder, then for each of the four walls the
      wall and a placeholder. */
  method EatWallRow(ctx: ParseContext) returns (r: Result<(seq<WallState>, nat), RowError>)
    ensures r == ParseWallRow(ctx)
  {
    var cursor := 0;
    var lead, c := EatThing(PlaceholderToken, ctx, cursor);
    if lead.Err? {
      return Err(lead.error);
    }
    cursor := c;
    var walls: seq<WallState> := [];
    for i := 0 to 4
      invariant |walls| == i && cursor == 1 + 2 * i
      invariant WallPairs(ctx, cursor, 4 - i, walls) == ParseWallRow(ctx)
    {
      var wall, c1 := EatThing(WallToken, ctx, cursor);
      if wall.Err? {
        return Err(wall.error);
      }
      var plus, c2 := EatThing(PlaceholderToken, ctx, c1);
      if plus.Err? {
        return Err(plus.error);
      }
      walls := walls + [wall.value];
      cursor := c2;
    }
    r := Ok((walls, cursor));
  }

  // ---------------------------------------------------------------------
  // Cell rows: a wall, then four times a cell and a wall.

  function CellPairs<C>(tok: TokenParser<C>, ctx: ParseContext, col: nat, k: nat, walls: seq<WallState>, cells: seq<C>)
    : (r: Result<(seq<WallState>, seq<C>, nat), RowError>)
    ensures r.Ok? ==> |r.value.0| == |walls| + k && |r.value.1| == |cells| + k && r.value.2 == col + 2 * k
    decreases k
  {
    if k == 0 then Ok((walls, cells, col))
    else
      match Eat(tok, ctx, col)
      case Err(e) => Err(e)
      case Ok((c, c1)) =>
        match Eat(WallToken, ctx, c1)
        case Err(e) => Err(e)
        case Ok((w, c2)) => CellPairs(tok, ctx, c2, k - 1, walls + [w], cells + [c])
  }

  /** A cell row of a tile body: the five vertical walls, the four cells and
      the cursor after them. */
  function ParseCellRow<C>(tok: TokenParser<C>, ctx: ParseContext): (r: Result<(seq<WallState>, seq<C>, nat), RowError>)
    ensures r.Ok? ==> |r.value.0| == 5 && |r.value.1| == 4 && r.value.2 == 9
  {
    match Eat(WallToken, ctx, 0)
    case Err(e) => Err(e)
    case Ok((w, c)) => CellPairs(tok, ctx, c, 4, [w], [])
  }

  /** The `CellRow` arm: the first wall, then each cell with the wall to its
      right. */
  method EatCellRow<C>(tok: TokenParser<C>, ctx: ParseContext) returns (r: Result<(seq<WallState>, seq<C>, nat), RowError>)
    ensures r == ParseCellRow(tok, ctx)
  {
    var cursor := 0;
    var first, c := EatThing(WallToken, ctx, cursor);
    if first.Err? {
      return Err(first.error);
    }
    cursor := c;
    var walls: seq<WallState> := [first.value];
    var cells: seq<C> := [];
    for i := 0 to 4
      invariant |walls| == i + 1 && |cells| == i && cursor == 1 + 2 * i
      invariant CellPairs(tok, ctx, cursor, 4 - i, walls, cells) == ParseCellRow(tok, ctx)
    {
      var cell, c1 := EatThing(tok, ctx, cursor);
      if cell.Err? {
        return Err(cell.error);
      }
      var wall, c2 := EatThing(WallToken, ctx, c1);
      if wall.Err? {
        return Err(wall.error);
      }
      cells := cells + [cell.value];
      walls := walls + [wall.value];
      cursor := c2;
    }
    r := Ok((walls, cells, cursor));
  }

  /** The extra-bytes check after a row: the first column past the cursor. */
  function ExtraCheck(ctx: ParseContext, cursor: nat): (r: Option<RowError>)
    ensures r.None? <==> cursor >= |ctx.line|
    ensures r.Some? ==> r.value == RowHasExtra(ctx.lineNumber, cursor, ctx.line)
  {
    if cursor < |ctx.line| then Some(RowHasExtra(ctx.lineNumber, cursor, ctx.line)) else None
  }

  /** `skip_tile_line`: empty lines and `#` comments. */
  predicate Skippable(line: Line) {
    |line| == 0 || line[0] == '#'
  }

  // ---------------------------------------------------------------------
  // Rendering, the inverse of the row grammar.

  /** The text of a wall row, `Blocked` written as `-`. */
  function WallLine(ws: seq<WallState>): (l: Line)
    ensures |l| == 2 * |ws| + 1
  {
    if ws == [] then "+" else WallLine(ws[..|ws| - 1]) + [WallChar(ws[|ws| - 1], '-'), '+']
  }

  /** The text of a cell row from its walls and the characters of its cells,
      `Blocked` written as `|`. */
  function CellLine(walls: seq<WallState>, chars: seq<Byte>): (l: Line)
    requires |walls| == |chars| + 1
    ensures |l| == 2 * |chars| + 1
  {
    if chars == [] then [WallChar(walls[0], '|')]
    else
      CellLine(walls[..|walls| - 1], chars[..|chars| - 1])
      + [chars[|chars| - 1], WallChar(walls[|walls| - 1], '|')]
  }

  /** A wall row of four walls, written out. */
  lemma WallLine4(ws: seq<WallState>)
    requires |ws| == 4
    ensures WallLine(ws) == ['+', WallChar(ws[0], '-'), '+', WallChar(ws[1], '-'), '+',
                             WallChar(ws[2], '-'), '+', WallChar(ws[3], '-'), '+']
  {
    assert ws[..1][..0] == [];
    assert WallLine(ws[..1]) == ['+', WallChar(ws[0], '-'), '+'];
    assert ws[..2][..1] == ws[..1];
    assert WallLine(ws[..2]) == WallLine(ws[..1]) + [WallChar(ws[1], '-'), '+'];
    assert ws[..3][..2] == ws[..2];
    assert WallLine(ws[..3]) == WallLine(ws[..2]) + [WallChar(ws[2], '-'), '+'];
    assert ws[..3] == ws[..|ws| - 1];
  }

  /** A cell row of four cells, written out. */
  lemma CellLine4(walls: seq<WallState>, chars: seq<Byte>)
    requires |walls| == 5 && |chars| == 4
    ensures CellLine(walls, chars) == [WallChar(walls[0], '|'), chars[0], WallChar(walls[1], '|'),
                                       chars[1], WallChar(walls[2], '|'), chars[2], WallChar(walls[3], '|'),
                                       chars[3], WallChar(walls[4], '|')]
  {
    assert chars[..1][..0] == [] && walls[..2][..1] == walls[..1];
    assert CellLine(walls[..1], chars[..0]) == [WallChar(walls[0], '|')];
    assert CellLine(walls[..2], chars[..1]) == CellLine(walls[..1], chars[..0]) + [chars[0], WallChar(walls[1], '|')];
    assert walls[..3][..2] == walls[..2] && chars[..2][..1] == chars[..1];
    assert CellLine(walls[..3], chars[..2]) == CellLine(walls[..2], chars[..1]) + [chars[1], WallChar(walls[2], '|')];
    assert walls[..4][..3] == walls[..3] && chars[..3][..2] == chars[..2];
    assert CellLine(walls[..4], chars[..3]) == CellLine(walls[..3], chars[..2]) + [chars[2], WallChar(walls[3], '|')];
    assert walls[..4] == walls[..|walls| - 1] && chars[..3] == chars[..|chars| - 1];
  }

  lemma {:induction false} WallLineAt(ws: seq<WallState>, j: nat)
    requires j < |ws|
    ensures WallLine(ws)[0] == '+'
    ensures WallLine(ws)[2 * j + 1] == WallChar(ws[j], '-') && WallLine(ws)[2 * j + 2] == '+'
  {
    var init := ws[..|ws| - 1];
    assert WallLine(ws) == WallLine(init) + [WallChar(ws[|ws| - 1], '-'), '+'];
    if j < |init| {
      WallLineAt(init, j);
    } else if init != [] {
      WallLineAt(init, 0);
    }
  }

  lemma {:induction false} CellLineAt(walls: seq<WallState>, chars: seq<Byte>, j: nat)
    requires |walls| == |chars| + 1
    ensures CellLine(walls, chars)[0] == WallChar(walls[0], '|')
    ensures j < |chars| ==>
      CellLine(walls, chars)[2 * j + 1] == chars[j] &&
      CellLine(walls, chars)[2 * j + 2] == WallChar(walls[j + 1], '|')
    decreases |chars|
  {
    if chars != [] {
      var iw, ic := walls[..|walls| - 1], chars[..|chars| - 1];
      CellLineAt(iw, ic, j);
      assert CellLine(walls, chars) == CellLine(iw, ic) + [chars[|chars| - 1], WallChar(walls[|walls| - 1], '|')];
    }
  }

  /** `line` holds, column by column, the wall row of `ws` (and possibly
      more bytes after it). */
  ghost predicate WallRowAt(line: Line, ws: seq<WallState>) {
    2 * |ws| + 1 <= |line| && line[0] == '+' &&
    forall k :: 0 <= k < |ws| ==> WallPairAt(line, ws, k)
  }

  /** Pair `k` of a wall row: the wall, then a `+`. */
  ghost predicate WallPairAt(line: Line, ws: seq<WallState>, k: nat) {
    2 * k + 2 < |line| && k < |ws| && line[2 * k + 1] == WallChar(ws[k], '-') && line[2 * k + 2] == '+'
  }

  lemma WallLineIsWallRow(line: Line, ws: seq<WallState>)
    requires |WallLine(ws)| <= |line| && line[..|WallLine(ws)|] == WallLine(ws)
    ensures WallRowAt(line, ws)
  {
    var w := WallLine(ws);
    assert line[0] == w[0];
    if ws != [] {
      WallLineAt(ws, 0);
    } else {
      assert w == "+";
    }
    forall k | 0 <= k < |ws|
      ensures WallPairAt(line, ws, k)
    {
      WallLineAt(ws, k);
      assert line[2 * k + 1] == w[2 * k + 1] && line[2 * k + 2] == w[2 * k + 2];
    }
  }

  /** The wall and `+` at pair `j` of a rendered wall row, the pair starting
      at column `col` with `k` pairs to go. */
  lemma WallPairStep(ctx: ParseContext, ws: seq<WallState>, j: nat, col: nat, k: nat)
    requires WallPairAt(ctx.line, ws, j) && col == 2 * j + 1 && k == |ws| - j
    requires WallPairs(ctx, col + 2, k - 1, ws[..j + 1]) == Ok((ws, 2 * |ws| + 1))
    ensures WallPairs(ctx, col, k, ws[..j]) == Ok((ws, 2 * |ws| + 1))
  {
    ParseWallChar(ws[j], '-', ' ');
    assert Eat(WallToken, ctx, col) == Ok((ws[j], col + 1));
    assert Eat(PlaceholderToken, ctx, col + 1) == Ok((Placeholder, col + 2));
    AppendSlice(ws, j);
  }

  lemma {:induction false} WallPairsRender(ctx: ParseContext, ws: seq<WallState>, j: nat, col: nat, k: nat)
    requires WallRowAt(ctx.line, ws) && j <= |ws| && col == 2 * j + 1 && k == |ws| - j
    ensures WallPairs(ctx, col, k, ws[..j]) == Ok((ws, 2 * |ws| + 1))
    decreases k
  {
    if j < |ws| {
      WallPairsRender(ctx, ws, j + 1, col + 2, k - 1);
      assert WallPairAt(ctx.line, ws, j);
      WallPairStep(ctx, ws, j, col, k);
    } else {
      assert ws[..j] == ws;
    }
  }

  /** A line that starts with a rendered wall row parses as its walls, the
      cursor stopping at the end of the row. */
  lemma WallRowPrefix(ctx: ParseContext, ws: seq<WallState>)
    requires |ws| == 4 && |WallLine(ws)| <= |ctx.line| && ctx.line[..|WallLine(ws)|] == WallLine(ws)
    ensures ParseWallRow(ctx) == Ok((ws, |WallLine(ws)|))
  {
    WallLineIsWallRow(ctx.line, ws);
    assert Eat(PlaceholderToken, ctx, 0) == Ok((Placeholder, 1));
    WallPairsRender(ctx, ws, 0, 1, 4);
    assert ws[..0] == [];
  }

  /** Parsing a rendered wall row gives back its walls and stops at its end,
      so the extra check passes. */
  lemma WallRowRoundTrip(ws: seq<WallState>, lineNumber: nat)
    requires |ws| == 4
    ensures ParseWallRow(ParseContext(WallLine(ws), lineNumber)) == Ok((ws, |WallLine(ws)|))
  {
    var ctx := ParseContext(WallLine(ws), lineNumber);
    assert ctx.line[..|WallLine(ws)|] == WallLine(ws);
    WallRowPrefix(ctx, ws);
  }

  /** `line` holds, column by column, the cell row of `walls` and `chars`. */
  ghost predicate CellRowAt(line: Line, walls: seq<WallState>, chars: seq<Byte>) {
    |walls| == |chars| + 1 && |line| == 2 * |chars| + 1 && line[0] == WallChar(walls[0], '|') &&
    forall k :: 0 <= k < |chars| ==> CellPairAt(line, walls, chars, k)
  }

  /** Pair `k` of a cell row: the cell's character, then the wall to its right. */
  ghost predicate CellPairAt(line: Line, walls: seq<WallState>, chars: seq<Byte>, k: nat) {
    2 * k + 2 < |line| && k + 1 < |walls| && k < |chars| &&
    line[2 * k + 1] == chars[k] && line[2 * k + 2] == WallChar(walls[k + 1], '|')
  }

  /** The token reads cell `k` back from its character. */
  ghost predicate ReadsBack<C>(tok: TokenParser<C>, chars: seq<Byte>, cells: seq<C>, k: nat) {
    k < |chars| && k < |cells| && tok.parse(chars[k]) == Some(cells[k])
  }

  lemma CellLineIsCellRow(walls: seq<WallState>, chars: seq<Byte>)
    requires |walls| == |chars| + 1
    ensures CellRowAt(CellLine(walls, chars), walls, chars)
  {
    CellLineAt(walls, chars, 0);
    forall k | 0 <= k < |chars|
      ensures CellPairAt(CellLine(walls, chars), walls, chars, k)
    {
      CellLineAt(walls, chars, k);
    }
  }

  /** The cell and wall at pair `j` of a rendered cell row, the pair starting
      at column `col` with `k` pairs to go. */
  lemma CellPairStep<C>(tok: TokenParser<C>, ctx: ParseContext,
                        walls: seq<WallState>, chars: seq<Byte>, cells: seq<C>, j: nat, col: nat, k: nat)
    requires CellPairAt(ctx.line, walls, chars, j) && |walls| == |cells| + 1 && |chars| == |cells| && j < |cells|
    requires ReadsBack(tok, chars, cells, j) && col == 2 * j + 1 && k == |cells| - j
    requires CellPairs(tok, ctx, col + 2, k - 1, walls[..j + 2], cells[..j + 1]) == Ok((walls, cells, 2 * |cells| + 1))
    ensures CellPairs(tok, ctx, col, k, walls[..j + 1], cells[..j]) == Ok((walls, cells, 2 * |cells| + 1))
  {
    ParseWallChar(walls[j + 1], '|', ' ');
    assert Eat(tok, ctx, col) == Ok((cells[j], col + 1));
    assert Eat(WallToken, ctx, col + 1) == Ok((walls[j + 1], col + 2));
    AppendSlice(walls, j + 1);
    AppendSlice(cells, j);
  }

  lemma {:induction false} CellPairsRender<C>(tok: TokenParser<C>, ctx: ParseContext,
                                              walls: seq<WallState>, chars: seq<Byte>, cells: seq<C>, j: nat, col: nat, k: nat)
    requires CellRowAt(ctx.line, walls, chars) && |chars| == |cells| && j <= |cells|
    requires forall k :: 0 <= k < |cells| ==> ReadsBack(tok, chars, cells, k)
    requires col == 2 * j + 1 && k == |cells| - j
    ensures CellPairs(tok, ctx, col, k, walls[..j + 1], cells[..j]) == Ok((walls, cells, 2 * |cells| + 1))
    decreases k
  {
    if j < |cells| {
      CellPairsRender(tok, ctx, walls, chars, cells, j + 1, col + 2, k - 1);
      assert CellPairAt(ctx.line, walls, chars, j) && ReadsBack(tok, chars, cells, j);
      assert walls[..(j + 1) + 1] == walls[..j + 2];
      CellPairStep(tok, ctx, walls, chars, cells, j, col, k);
    } else {
      assert walls[..j + 1] == walls && cells[..j] == cells;
    }
  }

  /** A line holding a rendered cell row parses as its walls and cells. */
  lemma CellRowPrefix<C>(tok: TokenParser<C>, ctx: ParseContext, walls: seq<WallState>, chars: seq<Byte>, cells: seq<C>)
    requires CellRowAt(ctx.line, walls, chars) && |chars| == 4 && |cells| == 4
    requires forall j :: 0 <= j < 4 ==> tok.parse(chars[j]) == Some(cells[j])
    ensures ParseCellRow(tok, ctx) == Ok((walls, cells, 9))
  {
    ParseWallChar(walls[0], '|', ' ');
    assert Eat(WallToken, ctx, 0) == Ok((walls[0], 1));
    assert forall k :: 0 <= k < |cells| ==> ReadsBack(tok, chars, cells, k);
    CellPairsRender(tok, ctx, walls, chars, cells, 0, 1, 4);
    assert walls[..1] == [walls[0]] && cells[..0] == [];
  }

  /** Parsing a rendered cell row gives back its walls and cells, provided the
      token reads each cell back from its character. */
  lemma CellRowRoundTrip<C>(tok: TokenParser<C>, walls: seq<WallState>, chars: seq<Byte>, cells: seq<C>, lineNumber: nat)
    requires |walls| == 5 && |chars| == 4 && |cells| == 4
    requires forall j :: 0 <= j < 4 ==> tok.parse(chars[j]) == Some(cells[j])
    ensures ParseCellRow(tok, ParseContext(CellLine(walls, chars), lineNumber))
         == Ok((walls, cells, |CellLine(walls, chars)|))
  {
    CellLineIsCellRow(walls, chars);
    CellRowPrefix(tok, ParseContext(CellLine(walls, chars), lineNumber), walls, chars, cells);
  }

  lemma AppendSlice<T>(s: seq<T>, j: nat)
    requires j < |s|
    ensures s[..j] + [s[j]] == s[..j + 1]
  {
  }

  /** A suffix of the input made of two pieces, the first `n` lines long. */
  lemma LinesSplit<T>(s: seq<T>, i: nat, whole: seq<T>, a: seq<T>, b: seq<T>, n: nat)
    requires i <= |s| && s[i..] == whole && whole == a + b && |a| == n
    ensures i + n <= |s| && s[i..i + n] == a && s[i + n..] == b
  {
    assert s[i..i + n] == s[i..][..n];
    assert s[i + n..] == s[i..][n..];
  }

  lemma AppendCons<T>(acc: seq<T>, ts: seq<T>)
    requires ts != []
    ensures (acc + [ts[0]]) + ts[1..] == acc + ts
  {
    assert ts == [ts[0]] + ts[1..];
  }
}
