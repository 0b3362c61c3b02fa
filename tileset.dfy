/** The tileset parser of core/src/tile/tileset.rs: a tileset is a sequence of
    `@name` lines, each followed by a tile body of nine rows (wall rows and
    cell rows alternating) and an optional escalator line. */
module Tileset {
  import opened Wrappers
  import opened Tokens
  import opened Text
  import opened GridCoord
  import opened Escalator
  import opened Cell
  import opened Wall
  import opened TileV1
  import opened TileRows
  import opened Tile

  /** `InvalidEscalator`: the line and what is wrong with it. */
  datatype EscalatorError = EscalatorError(lineNumber: nat, line: Line, msg: string)

  /** `TileParsingError`. */
  datatype TileParsingError =
    | InvalidNameLeader(lineNumber: nat, line: Line)
    | IncompleteTile(lineNumber: nat)
    | InvalidTileName(lineNumber: nat, name: string)
    | WrongNumberOfRows(lineNumber: nat, numRows: nat)
    | RowHasExtra(lineNumber: nat, colNumber: nat, line: Line)
    | IncompleteLine(lineNumber: nat, line: Line)
    | ItemParse(lineNumber: nat, colNumber: nat, line: Line, ch: Byte, name: string, allowed: string)
    | InvalidEscalator(cause: EscalatorError)
    | NoMoreTiles

  /** A row error as this parser's error of the same name. */
  function FromRowError(e: RowError): (r: TileParsingError)
    ensures e.IncompleteLine? ==> r == TileParsingError.IncompleteLine(e.lineNumber, e.line)
    ensures e.ItemParse? ==> r == TileParsingError.ItemParse(e.lineNumber, e.colNumber, e.line, e.ch, e.name, e.allowed)
    ensures e.RowHasExtra? ==> r == TileParsingError.RowHasExtra(e.lineNumber, e.colNumber, e.line)
  {
    match e
    case IncompleteLine(ln, l) => TileParsingError.IncompleteLine(ln, l)
    case ItemParse(ln, col, l, c, n, a) => TileParsingError.ItemParse(ln, col, l, c, n, a)
    case RowHasExtra(ln, col, l) => TileParsingError.RowHasExtra(ln, col, l)
  }

  // ---------------------------------------------------------------------
  // The escalator line: empty, or `E:` and comma-separated `xy-xy` hunks.

  /** One hunk: trimmed, it must be five bytes `a b - c d`; each of the four
      must be a decimal digit, and each point must lie on the grid. */
  function ParseHunk(err: EscalatorError, hunk: Line): (r: Result<Escalator, EscalatorError>)
    ensures r.Ok? ==>
      var h := Trim(hunk);
      |h| == 5 && h[2] == '-' &&
      Digit(h[0]) == Some(r.value.ends[0].x) && Digit(h[1]) == Some(r.value.ends[0].y) &&
      Digit(h[3]) == Some(r.value.ends[1].x) && Digit(h[4]) == Some(r.value.ends[1].y)
    ensures r.Err? ==> r.error == err.(msg := r.error.msg)
  {
    var h := Trim(hunk);
    if |h| == 5 && h[2] == '-' then
      match (Digit(h[0]), Digit(h[1]), Digit(h[3]), Digit(h[4]))
      case (Some(a), Some(b), Some(c), Some(d)) =>
        (match (New(a, b), New(c, d))
         case (Some(p1), Some(p2)) => Ok(Make(p1, p2))
         case _ => Err(err.(msg := "Invalid tile coordinates")))
      case _ => Err(err.(msg := "Unable to parse digit"))
    else
      Err(err.(msg := "invalid escalator hunk"))
  }

  /** The hunks in order, each escalator pushed onto `escs`; a fifth one does
      not fit. */
  function ParseHunks(err: EscalatorError, hunks: seq<Line>, escs: seq<Escalator>): (r: Result<seq<Escalator>, EscalatorError>)
    requires |escs| <= MaxEscalatorsPerTile
    ensures r.Ok? ==> |r.value| <= MaxEscalatorsPerTile && |r.value| == |escs| + |hunks| && r.value[..|escs|] == escs
    ensures r.Err? ==> r.error == err.(msg := r.error.msg)
    decreases |hunks|
  {
    if hunks == [] then Ok(escs)
    else
      match ParseHunk(err, hunks[0])
      case Err(e) => Err(e)
      case Ok(e) =>
        if |escs| >= MaxEscalatorsPerTile then Err(err.(msg := "Exceeded max escalators"))
        else
          var r := ParseHunks(err, hunks[1..], escs + [e]);
          assert r.Ok? ==> r.value[..|escs|] == (escs + [e])[..|escs|];
          r
  }

  /** What `elevators_from_line` does to the tile's escalators: an empty line
      adds none, a line starting `E:` adds one per hunk, anything else is an
      invalid prefix. Every error carries the line and its number. */
  function Elevators(ctx: ParseContext, line: Line, escs: seq<Escalator>): (r: Result<seq<Escalator>, EscalatorError>)
    requires |escs| <= MaxEscalatorsPerTile
    ensures line == [] ==> r == Ok(escs)
    ensures r.Ok? ==> |escs| <= |r.value| <= MaxEscalatorsPerTile && r.value[..|escs|] == escs
    ensures r.Err? ==> r.error.lineNumber == ctx.lineNumber && r.error.line == line
    ensures line != [] && !(|line| >= 2 && line[0] == 'E' && line[1] == ':') ==>
      r == Err(EscalatorError(ctx.lineNumber, line, "Invalid prefix"))
  {
    var err := EscalatorError(ctx.lineNumber, line, "");
    if |line| >= 2 && line[0] == 'E' && line[1] == ':' then
      ParseHunks(err, Split(line[2..], ','), escs)
    else if line == [] then
      Ok(escs)
    else
      Err(err.(msg := "Invalid prefix"))
  }

  /** `elevators_from_line`: returns the tile's new escalator list. */
  method ElevatorsFromLine(ctx: ParseContext, line: Line, escalators: seq<Escalator>) returns (r: Result<seq<Escalator>, EscalatorError>)
    requires |escalators| <= MaxEscalatorsPerTile
    ensures r == Elevators(ctx, line, escalators)
  {
    var err := EscalatorError(ctx.lineNumber, line, "");
    if line == [] {
      return Ok(escalators);
    }
    if !(|line| >= 2 && line[0] == 'E' && line[1] == ':') {
      return Err(err.(msg := "Invalid prefix"));
    }
    var hunks := Split(line[2..], ',');
    var escs := escalators;
    for i := 0 to |hunks|
      invariant |escs| <= MaxEscalatorsPerTile
      invariant ParseHunks(err, hunks[i..], escs) == Elevators(ctx, line, escalators)
    {
      assert hunks[i..][1..] == hunks[i + 1..];
      var e := ParseHunk(err, hunks[i]);
      if e.Err? {
        return Err(e.error);
      }
      if |escs| >= MaxEscalatorsPerTile {
        return Err(err.(msg := "Exceeded max escalators"));
      }
      escs := escs + [e.value];
    }
    r := Ok(escs);
  }

  /** The text of one escalator: `xy-xy`. */
  function HunkText(e: Escalator): (h: Line)
    ensures |h| == 5
  {
    [DigitChar(e.ends[0].x), DigitChar(e.ends[0].y), '-', DigitChar(e.ends[1].x), DigitChar(e.ends[1].y)]
  }

  function HunkTexts(escs: seq<Escalator>): (hs: seq<Line>)
    ensures |hs| == |escs| && forall k :: 0 <= k < |escs| ==> hs[k] == HunkText(escs[k])
  {
    if escs == [] then [] else [HunkText(escs[0])] + HunkTexts(escs[1..])
  }

  /** The escalator line of a tile: empty when it has none. */
  function EscalatorLine(escs: seq<Escalator>): Line {
    if escs == [] then [] else "E:" + Join(HunkTexts(escs), ',')
  }

  lemma ParseHunkText(err: EscalatorError, e: Escalator)
    ensures ParseHunk(err, HunkText(e)) == Ok(e)
  {
    var h := HunkText(e);
    TrimKeeps(h);
    assert Make(e.ends[0], e.ends[1]) == e;
  }

  lemma ParseHunksCons(err: EscalatorError, hunks: seq<Line>, acc: seq<Escalator>, e: Escalator)
    requires |acc| < MaxEscalatorsPerTile && hunks != [] && ParseHunk(err, hunks[0]) == Ok(e)
    ensures ParseHunks(err, hunks, acc) == ParseHunks(err, hunks[1..], acc + [e])
  {
  }

  lemma ParseHunksText(err: EscalatorError, acc: seq<Escalator>, escs: seq<Escalator>)
    requires |acc| + |escs| <= MaxEscalatorsPerTile
    ensures ParseHunks(err, HunkTexts(escs), acc) == Ok(acc + escs)
  {
    var hs := HunkTexts(escs);
    forall k | 0 <= k < |hs| ensures ParseHunk(err, hs[k]) == Ok(escs[k]) {
      ParseHunkText(err, escs[k]);
    }
    ParseHunksAll(err, hs, acc, escs);
  }

  lemma ElevatorsPrefixed(ctx: ParseContext, line: Line)
    requires |line| >= 2 && line[0] == 'E' && line[1] == ':'
    ensures Elevators(ctx, line, []) == ParseHunks(EscalatorError(ctx.lineNumber, line, ""), Split(line[2..], ','), [])
  {
  }

  /** The escalator line of at most four escalators reads back as them. */
  lemma EscalatorLineRoundTrip(ctx: ParseContext, escs: seq<Escalator>)
    requires |escs| <= MaxEscalatorsPerTile
    ensures Elevators(ctx, EscalatorLine(escs), []) == Ok(escs)
  {
    if escs != [] {
      var line := EscalatorLine(escs);
      var hs := HunkTexts(escs);
      assert line[2..] == Join(hs, ',');
      forall k | 0 <= k < |hs|
        ensures Unseparated(hs[k], ',')
      {
        assert hs[k] == HunkText(escs[k]);
      }
      SplitJoin(hs, ',');
      ElevatorsPrefixed(ctx, line);
      ParseHunksText(EscalatorError(ctx.lineNumber, line, ""), [], escs);
      assert [] + escs == escs;
    }
  }

  lemma SameTrimSameHunk(err: EscalatorError, h1: Line, h2: Line)
    requires Trim(h1) == Trim(h2)
    ensures ParseHunk(err, h1) == ParseHunk(err, h2)
  {
  }

  lemma ParseHunksFails(err: EscalatorError, hunks: seq<Line>, acc: seq<Escalator>)
    requires |acc| <= MaxEscalatorsPerTile && hunks != [] && ParseHunk(err, hunks[0]).Err?
    ensures ParseHunks(err, hunks, acc) == Err(ParseHunk(err, hunks[0]).error)
  {
  }

  /** Hunk texts hold digits and `-`, never the separator. */
  lemma HunkTextUnseparated(e: Escalator)
    ensures Unseparated(HunkText(e), ',') && Unseparated([' '] + HunkText(e), ',')
  {
    var h := HunkText(e);
    forall i | 0 <= i < |[' '] + h| ensures ([' '] + h)[i] != ',' {
      if i > 0 {
        assert ([' '] + h)[i] == h[i - 1];
      }
    }
  }

  /** A hunk written with one leading space. */
  lemma SpacedHunk(err: EscalatorError, e: Escalator)
    ensures ParseHunk(err, [' '] + HunkText(e)) == Ok(e)
  {
    TrimDropsLeadingSpace(' ', HunkText(e));
    TrimKeeps(HunkText(e));
    SameTrimSameHunk(err, [' '] + HunkText(e), HunkText(e));
    ParseHunkText(err, e);
  }

  /** A leading space makes no difference to a hunk. */
  lemma SpacedBadHunk(err: EscalatorError, h: Line)
    ensures ParseHunk(err, [' '] + h) == ParseHunk(err, h)
  {
    TrimDropsLeadingSpace(' ', h);
    SameTrimSameHunk(err, [' '] + h, h);
  }

  lemma {:induction false} ParseHunksAll(err: EscalatorError, hunks: seq<Line>, acc: seq<Escalator>, escs: seq<Escalator>)
    requires |hunks| == |escs| && |acc| + |escs| <= MaxEscalatorsPerTile
    requires forall k :: 0 <= k < |hunks| ==> ParseHunk(err, hunks[k]) == Ok(escs[k])
    ensures ParseHunks(err, hunks, acc) == Ok(acc + escs)
    decreases |hunks|
  {
    if hunks == [] {
      assert acc + escs == acc;
    } else {
      ParseHunksCons(err, hunks, acc, escs[0]);
      assert forall k :: 0 <= k < |hunks[1..]| ==> hunks[1..][k] == hunks[k + 1] && escs[1..][k] == escs[k + 1];
      ParseHunksAll(err, hunks[1..], acc + [escs[0]], escs[1..]);
      AppendCons(acc, escs);
    }
  }

  /** A line `E:` and hunks each of which reads as an escalator gives those
      escalators, if there are at most four. */
  lemma ElevatorsOfHunks(ctx: ParseContext, line: Line, hunks: seq<Line>, escs: seq<Escalator>)
    requires |hunks| >= 1 && |hunks| == |escs| <= MaxEscalatorsPerTile
    requires forall k :: 0 <= k < |hunks| ==> Unseparated(hunks[k], ',')
    requires line == "E:" + Join(hunks, ',')
    requires forall k :: 0 <= k < |hunks| ==> ParseHunk(EscalatorError(ctx.lineNumber, line, ""), hunks[k]) == Ok(escs[k])
    ensures Elevators(ctx, line, []) == Ok(escs)
  {
    assert line[2..] == Join(hunks, ',');
    SplitJoin(hunks, ',');
    ElevatorsPrefixed(ctx, line);
    ParseHunksAll(EscalatorError(ctx.lineNumber, line, ""), hunks, [], escs);
    assert [] + escs == escs;
  }

  /** More well-formed hunks than the tile has room for: the push of the
      fifth escalator fails. */
  lemma {:induction false} TooManyHunks(err: EscalatorError, hunks: seq<Line>, acc: seq<Escalator>)
    requires |acc| <= MaxEscalatorsPerTile < |acc| + |hunks|
    requires forall k :: 0 <= k < |hunks| ==> ParseHunk(err, hunks[k]).Ok?
    ensures ParseHunks(err, hunks, acc) == Err(err.(msg := "Exceeded max escalators"))
    decreases |hunks|
  {
    if |acc| < MaxEscalatorsPerTile {
      var e := ParseHunk(err, hunks[0]).value;
      ParseHunksCons(err, hunks, acc, e);
      assert forall k :: 0 <= k < |hunks[1..]| ==> hunks[1..][k] == hunks[k + 1];
      TooManyHunks(err, hunks[1..], acc + [e]);
    }
  }

  /** A line `E:` with five or more well-formed hunks is rejected. */
  lemma FifthEscalator(ctx: ParseContext, line: Line, hunks: seq<Line>)
    requires |hunks| > MaxEscalatorsPerTile
    requires forall k :: 0 <= k < |hunks| ==> Unseparated(hunks[k], ',')
    requires line == "E:" + Join(hunks, ',')
    requires forall k :: 0 <= k < |hunks| ==> ParseHunk(EscalatorError(ctx.lineNumber, line, ""), hunks[k]).Ok?
    ensures Elevators(ctx, line, []) == Err(EscalatorError(ctx.lineNumber, line, "Exceeded max escalators"))
  {
    assert line[2..] == Join(hunks, ',');
    SplitJoin(hunks, ',');
    ElevatorsPrefixed(ctx, line);
    TooManyHunks(EscalatorError(ctx.lineNumber, line, ""), hunks, []);
  }

  /** The escalator line of the TILE3 test. */
  lemma Tile3EscalatorLine(ctx: ParseContext, line: Line)
    requires line == "E:" + " 01-23" + "," + " 00-33" + "," + " 33-02"
    ensures Elevators(ctx, line, []) == Ok([
      Make(TileGridCoord(0, 1), TileGridCoord(2, 3)),
      Make(TileGridCoord(0, 0), TileGridCoord(3, 3)),
      Make(TileGridCoord(3, 3), TileGridCoord(0, 2))])
  {
    var e0, e1, e2 := Make(TileGridCoord(0, 1), TileGridCoord(2, 3)),
      Make(TileGridCoord(0, 0), TileGridCoord(3, 3)), Make(TileGridCoord(3, 3), TileGridCoord(0, 2));
    var h0: Line, h1: Line, h2: Line := " 01-23", " 00-33", " 33-02";
    Tile3Hunks();
    Tile3Join(line);
    SpacedHunksLine(ctx, line, [h0, h1, h2], [e0, e1, e2]);
  }

  lemma Tile3Hunks()
    ensures " 01-23" == [' '] + HunkText(Make(TileGridCoord(0, 1), TileGridCoord(2, 3)))
    ensures " 00-33" == [' '] + HunkText(Make(TileGridCoord(0, 0), TileGridCoord(3, 3)))
    ensures " 33-02" == [' '] + HunkText(Make(TileGridCoord(3, 3), TileGridCoord(0, 2)))
  {
  }

  lemma Tile3Join(line: Line)
    requires line == "E:" + " 01-23" + "," + " 00-33" + "," + " 33-02"
    ensures line == "E:" + Join([" 01-23", " 00-33", " 33-02"], ',')
  {
    var h0: Line, h1: Line, h2: Line, head: Line := " 01-23", " 00-33", " 33-02", "E:";
    JoinTriple(h0, h1, h2, ',');
    assert line == head + (h0 + [','] + h1 + [','] + h2);
  }

  /** A line of hunks, each a space and the text of an escalator, reads as
      those escalators. */
  lemma SpacedHunksLine(ctx: ParseContext, line: Line, hunks: seq<Line>, escs: seq<Escalator>)
    requires 1 <= |escs| <= MaxEscalatorsPerTile && |hunks| == |escs|
    requires forall k :: 0 <= k < |escs| ==> hunks[k] == [' '] + HunkText(escs[k])
    requires line == "E:" + Join(hunks, ',')
    ensures Elevators(ctx, line, []) == Ok(escs)
  {
    var err := EscalatorError(ctx.lineNumber, line, "");
    forall k | 0 <= k < |escs|
      ensures ParseHunk(err, hunks[k]) == Ok(escs[k]) && Unseparated(hunks[k], ',')
    {
      SpacedHunk(err, escs[k]);
      HunkTextUnseparated(escs[k]);
    }
    ElevatorsOfHunks(ctx, line, hunks, escs);
  }

  /** The five lines the `fail_elevators` test rejects, each with its message. */
  lemma FailPrefix(ctx: ParseContext)
    ensures Elevators(ctx, "foo:", []) == Err(EscalatorError(ctx.lineNumber, "foo:", "Invalid prefix"))
  {
  }

  lemma FailEmptyHunk(ctx: ParseContext)
    ensures Elevators(ctx, "E::", []) == Err(EscalatorError(ctx.lineNumber, "E::", "invalid escalator hunk"))
  {
    var line: Line := "E::";
    ElevatorsPrefixed(ctx, line);
    SplitJoin([":"], ',');
    assert line[2..] == Join([":"], ',');
  }

  /** The first hunk of each failing line of the test, `01-23`, is fine; the
      second one fails with `msg`. */
  lemma FailSecondHunk(ctx: ParseContext, line: Line, bad: Line, msg: string)
    requires bad != [] && !IsAsciiWhitespace(bad[0]) && !IsAsciiWhitespace(bad[|bad| - 1]) && ',' !in bad
    requires line == "E: 01-23, " + bad
    requires ParseHunk(EscalatorError(ctx.lineNumber, line, ""), bad) == Err(EscalatorError(ctx.lineNumber, line, msg))
    ensures Elevators(ctx, line, []) == Err(EscalatorError(ctx.lineNumber, line, msg))
  {
    var err := EscalatorError(ctx.lineNumber, line, "");
    var e0 := Make(TileGridCoord(0, 1), TileGridCoord(2, 3));
    var h0: Line := [' '] + HunkText(e0);
    var h1: Line := [' '] + bad;
    var head: Line := "E:";
    assert h0 == " 01-23";
    assert line == head + (h0 + [','] + h1);
    assert line[2..] == h0 + [','] + h1;
    HunkTextUnseparated(e0);
    assert Unseparated(h1, ',') by {
      forall i | 0 <= i < |h1| ensures h1[i] != ',' {
        if i > 0 {
          assert h1[i] == bad[i - 1];
        }
      }
    }
    SpacedHunk(err, e0);
    SpacedBadHunk(err, bad);
    SecondHunkFails(ctx, line, h0, e0, h1);
  }

  /** A line `E:` and two hunks, the first an escalator and the second not,
      fails with the second one's error. */
  lemma SecondHunkFails(ctx: ParseContext, line: Line, h0: Line, e0: Escalator, h1: Line)
    requires |line| >= 2 && line[0] == 'E' && line[1] == ':' && line[2..] == h0 + [','] + h1
    requires Unseparated(h0, ',') && Unseparated(h1, ',')
    requires ParseHunk(EscalatorError(ctx.lineNumber, line, ""), h0) == Ok(e0)
    requires ParseHunk(EscalatorError(ctx.lineNumber, line, ""), h1).Err?
    ensures Elevators(ctx, line, []) == Err(ParseHunk(EscalatorError(ctx.lineNumber, line, ""), h1).error)
  {
    var err := EscalatorError(ctx.lineNumber, line, "");
    var hunks := [h0, h1];
    JoinPair(h0, h1, ',');
    SplitJoin(hunks, ',');
    ElevatorsPrefixed(ctx, line);
    ParseHunksCons(err, hunks, [], e0);
    assert hunks[1..] == [h1];
    ParseHunksFails(err, hunks[1..], [e0]);
  }

  lemma JoinTriple(a: Line, b: Line, c: Line, sep: Byte)
    ensures Join([a, b, c], sep) == a + [sep] + b + [sep] + c
  {
    assert [a, b, c][1..] == [b, c];
    JoinPair(b, c, sep);
  }

  lemma JoinPair(a: Line, b: Line, sep: Byte)
    ensures Join([a, b], sep) == a + [sep] + b
  {
    assert [a, b][1..] == [b];
  }

  lemma FailLongHunk(ctx: ParseContext)
    ensures Elevators(ctx, "E: 01-23, 00-33z", []) == Err(EscalatorError(ctx.lineNumber, "E: 01-23, 00-33z", "invalid escalator hunk"))
  {
    var line: Line, bad: Line := "E: 01-23, 00-33z", "00-33z";
    LongHunk(EscalatorError(ctx.lineNumber, line, ""), bad);
    FailSecondHunk(ctx, line, bad, "invalid escalator hunk");
  }

  lemma LongHunk(err: EscalatorError, bad: Line)
    requires bad == "00-33z"
    ensures ParseHunk(err, bad) == Err(err.(msg := "invalid escalator hunk"))
    ensures !IsAsciiWhitespace(bad[0]) && !IsAsciiWhitespace(bad[|bad| - 1]) && ',' !in bad
  {
    TrimKeeps(bad);
  }

  lemma FailCoordinates(ctx: ParseContext)
    ensures Elevators(ctx, "E: 01-23, 00-34", []) == Err(EscalatorError(ctx.lineNumber, "E: 01-23, 00-34", "Invalid tile coordinates"))
  {
    var line: Line, bad: Line := "E: 01-23, 00-34", "00-34";
    OffGridHunk(EscalatorError(ctx.lineNumber, line, ""), bad);
    FailSecondHunk(ctx, line, bad, "Invalid tile coordinates");
  }

  lemma OffGridHunk(err: EscalatorError, bad: Line)
    requires bad == "00-34"
    ensures ParseHunk(err, bad) == Err(err.(msg := "Invalid tile coordinates"))
    ensures !IsAsciiWhitespace(bad[0]) && !IsAsciiWhitespace(bad[|bad| - 1]) && ',' !in bad
  {
    TrimKeeps(bad);
  }

  lemma FailDigit(ctx: ParseContext)
    ensures Elevators(ctx, "E: 01-23, 00-3s", []) == Err(EscalatorError(ctx.lineNumber, "E: 01-23, 00-3s", "Unable to parse digit"))
  {
    var line: Line, bad: Line := "E: 01-23, 00-3s", "00-3s";
    NonDigitHunk(EscalatorError(ctx.lineNumber, line, ""), bad);
    FailSecondHunk(ctx, line, bad, "Unable to parse digit");
  }

  lemma NonDigitHunk(err: EscalatorError, bad: Line)
    requires bad == "00-3s"
    ensures ParseHunk(err, bad) == Err(err.(msg := "Unable to parse digit"))
    ensures !IsAsciiWhitespace(bad[0]) && !IsAsciiWhitespace(bad[|bad| - 1]) && ',' !in bad
  {
    TrimKeeps(bad);
  }

  // ---------------------------------------------------------------------
  // One tile body: `tile_from_lines`.

  /** Where `tile_from_lines` is: before wall row `rowNum`, before cell row
      `rowNum`, or before the escalator line. */
  datatype ParsingState = WallRow(rowNum: nat) | CellRow(rowNum: nat) | Elevator

  /** The outcome of one line of `tile_from_lines`: go on to the next line in
      a new state, or stop with the tile or an error. */
  datatype Step = Continue(state: ParsingState, skips: bool, tile: Tile) | Done(result: Result<Tile, TileParsingError>)

  /** What the loop body of `tile_from_lines` does with one line: a skipped
      line changes nothing; a wall row sets its horizontal walls and the
      bottom one (row 4) moves on to the escalator line, where skipping stops
      and the extra-bytes check is not made; a cell row sets its vertical
      walls and cells; the escalator line ends the tile. */
  function TileStep(ctx: ParseContext, state: ParsingState, skips: bool, tile: Tile): (s: Step)
    requires tile.Valid()
    ensures s.Continue? ==> s.tile.Valid()
    ensures s.Done? && s.result.Ok? ==> s.result.value.Valid()
    ensures s.Done? && s.result.Ok? ==> state.Elevator?
    ensures skips && Skippable(ctx.line) ==> s == Continue(state, skips, tile)
  {
    var line := ctx.line;
    var ln := ctx.lineNumber;
    if skips && Skippable(line) then
      Continue(state, skips, tile)
    else
      match state
      case WallRow(r) =>
        if r > GridWidth then Done(Err(WrongNumberOfRows(ln, r + 1))) else WallRowArm(ctx, r, skips, tile)
      case CellRow(r) =>
        if r >= GridWidth then Done(Err(WrongNumberOfRows(ln, r + 1))) else CellRowArm(ctx, r, skips, tile)
      case Elevator =>
        ElevatorArm(ctx, tile)
  }

  /** A wall row sets horizontal wall row `r`; after the bottom one (row 4)
      comes the escalator line, with no extra-bytes check and no more
      skipping. */
  function WallRowArm(ctx: ParseContext, r: nat, skips: bool, tile: Tile): (s: Step)
    requires tile.Valid() && r <= GridWidth
    ensures s.Continue? ==> s.tile.Valid()
    ensures s.Done? ==> s.result.Err?
  {
    match ParseWallRow(ctx)
    case Err(e) => Done(Err(FromRowError(e)))
    case Ok((walls, cursor)) =>
      var tile' := tile.(horzWalls := tile.horzWalls[r := walls]);
      if r == GridWidth then Continue(Elevator, false, tile')
      else if cursor < |ctx.line| then Done(Err(TileParsingError.RowHasExtra(ctx.lineNumber, cursor, ctx.line)))
      else Continue(CellRow(r), skips, tile')
  }

  /** A cell row sets vertical wall row `r` and cell row `r`. */
  function CellRowArm(ctx: ParseContext, r: nat, skips: bool, tile: Tile): (s: Step)
    requires tile.Valid() && r < GridWidth
    ensures s.Continue? ==> s.tile.Valid()
    ensures s.Done? ==> s.result.Err?
  {
    match ParseCellRow(CellTokenV1, ctx)
    case Err(e) => Done(Err(FromRowError(e)))
    case Ok((walls, cells, cursor)) =>
      var tile' := tile.(vertWalls := tile.vertWalls[r := walls], cells := tile.cells[r := cells]);
      if cursor < |ctx.line| then Done(Err(TileParsingError.RowHasExtra(ctx.lineNumber, cursor, ctx.line)))
      else Continue(WallRow(r + 1), skips, tile')
  }

  /** The escalator line ends the tile. */
  function ElevatorArm(ctx: ParseContext, tile: Tile): (s: Step)
    requires tile.Valid()
    ensures s.Done? && (s.result.Ok? ==> s.result.value.Valid())
  {
    match Elevators(ctx, ctx.line, tile.escalators)
    case Err(e) => Done(Err(InvalidEscalator(e)))
    case Ok(escs) => Done(Ok(tile.(escalators := escs)))
  }

  /** The rest of `tile_from_lines` from line index `i` (line number `i + 1`),
      with the state, the skip flag, the tile built so far and the number of
      the last line read. On success, the tile and the index of the first line
      not consumed. At the end of the input only the escalator state is a
      whole tile. */
  function TileLoop(lines: seq<Line>, i: nat, state: ParsingState, skips: bool, tile: Tile, lineNumber: nat)
    : (r: Result<(Tile, nat), TileParsingError>)
    requires i <= |lines| && tile.Valid()
    ensures r.Ok? ==> r.value.0.Valid() && i <= r.value.1 <= |lines|
    decreases |lines| - i
  {
    if i == |lines| then
      if state.Elevator? then Ok((tile, i)) else Err(IncompleteTile(lineNumber))
    else
      match TileStep(ParseContext(lines[i], i + 1), state, skips, tile)
      case Continue(state', skips', tile') => TileLoop(lines, i + 1, state', skips', tile', i + 1)
      case Done(Err(e)) => Err(e)
      case Done(Ok(t)) => Ok((t, i + 1))
  }

  /** `tile_from_lines` on the lines from index `start`. */
  function TileFrom(lines: seq<Line>, start: nat): (r: Result<(Tile, nat), TileParsingError>)
    requires start <= |lines|
    ensures r.Ok? ==> r.value.0.Valid() && start <= r.value.1 <= |lines|
  {
    TileLoop(lines, start, WallRow(0), true, DefaultTile(), 0)
  }

  /** The loop body of `tile_from_lines`. */
  method StepLine(ctx: ParseContext, state: ParsingState, allowLineSkips: bool, tile: Tile) returns (s: Step)
    requires tile.Valid()
    ensures s == TileStep(ctx, state, allowLineSkips, tile)
  {
    var line := ctx.line;
    var lineNumber := ctx.lineNumber;
    if allowLineSkips && Skippable(line) {
      return Continue(state, allowLineSkips, tile);
    }
    match state {
      case WallRow(r) =>
        if r > GridWidth {
          return Done(Err(WrongNumberOfRows(lineNumber, r + 1)));
        }
        s := EatWallLine(ctx, r, allowLineSkips, tile);
      case CellRow(r) =>
        if r >= GridWidth {
          return Done(Err(WrongNumberOfRows(lineNumber, r + 1)));
        }
        s := EatCellLine(ctx, r, allowLineSkips, tile);
      case Elevator =>
        var escs := ElevatorsFromLine(ctx, line, tile.escalators);
        if escs.Err? {
          return Done(Err(InvalidEscalator(escs.error)));
        }
        return Done(Ok(tile.(escalators := escs.value)));
    }
  }

  /** The `WallRow` arm of the loop body, with the extra-bytes check. */
  method EatWallLine(ctx: ParseContext, r: nat, allowLineSkips: bool, tile: Tile) returns (s: Step)
    requires tile.Valid() && r <= GridWidth
    ensures s == WallRowArm(ctx, r, allowLineSkips, tile)
  {
    var row := EatWallRow(ctx);
    if row.Err? {
      return Done(Err(FromRowError(row.error)));
    }
    var tile' := tile.(horzWalls := tile.horzWalls[r := row.value.0]);
    if r == GridWidth {
      return Continue(Elevator, false, tile');
    }
    var extra := ExtraCheck(ctx, row.value.1);
    if extra.Some? {
      return Done(Err(FromRowError(extra.value)));
    }
    s := Continue(CellRow(r), allowLineSkips, tile');
  }

  /** The `CellRow` arm of the loop body, with the extra-bytes check. */
  method EatCellLine(ctx: ParseContext, r: nat, allowLineSkips: bool, tile: Tile) returns (s: Step)
    requires tile.Valid() && r < GridWidth
    ensures s == CellRowArm(ctx, r, allowLineSkips, tile)
  {
    var row := EatCellRow(CellTokenV1, ctx);
    if row.Err? {
      return Done(Err(FromRowError(row.error)));
    }
    var tile' := tile.(vertWalls := tile.vertWalls[r := row.value.0], cells := tile.cells[r := row.value.1]);
    var extra := ExtraCheck(ctx, row.value.2);
    if extra.Some? {
      return Done(Err(FromRowError(extra.value)));
    }
    s := Continue(WallRow(r + 1), allowLineSkips, tile');
  }

  /** `tile_from_lines`: the loop over the remaining lines, with the parsing
      state, the skip flag and the tile as local state. */
  method TileFromLines(lines: seq<Line>, start: nat) returns (r: Result<(Tile, nat), TileParsingError>)
    requires start <= |lines|
    ensures r == TileFrom(lines, start)
  {
    var allowLineSkips := true;
    var lineNumber: nat := 0;
    var state := WallRow(0);
    var tile := DefaultTile();
    var i := start;
    while i < |lines|
      invariant start <= i <= |lines| && tile.Valid()
      invariant TileLoop(lines, i, state, allowLineSkips, tile, lineNumber) == TileFrom(lines, start)
      decreases |lines| - i
    {
      lineNumber := i + 1;
      var step := StepLine(ParseContext(lines[i], lineNumber), state, allowLineSkips, tile);
      i := i + 1;
      match step {
        case Continue(state', skips', tile') =>
          state, allowLineSkips, tile := state', skips', tile';
        case Done(res) =>
          if res.Err? {
            return Err(res.error);
          }
          return Ok((res.value, i));
      }
    }
    if state.Elevator? {
      r := Ok((tile, i));
    } else {
      r := Err(IncompleteTile(lineNumber));
    }
  }

  /** `tile_from_str`: a single tile, numbered from the first line. */
  method TileFromStr(lines: seq<Line>) returns (r: Result<Tile, TileParsingError>)
    ensures r.Ok? <==> TileFrom(lines, 0).Ok?
    ensures r.Ok? ==> r.value == TileFrom(lines, 0).value.0 && r.value.Valid()
    ensures r.Err? ==> r.error == TileFrom(lines, 0).error
  {
    var res := TileFromLines(lines, 0);
    if res.Err? {
      return Err(res.error);
    }
    r := Ok(res.value.0);
  }

  // ---------------------------------------------------------------------
  // The tileset: `tileset_from_lines`.

  /** The rest of `tileset_from_lines` from line index `i`, the named tiles
      read so far in `acc`. */
  function TilesetLoop(lines: seq<Line>, i: nat, acc: seq<(Line, Tile)>): (r: Result<seq<(Line, Tile)>, TileParsingError>)
    requires i <= |lines|
    ensures r.Ok? ==> |r.value| >= |acc| && r.value[..|acc|] == acc
    ensures r.Ok? ==> forall k :: 0 <= k < |r.value| ==> k < |acc| || (r.value[k].1.Valid() && IsAscii(r.value[k].0))
    decreases |lines| - i
  {
    if i == |lines| then Ok(acc)
    else
      var line := lines[i];
      var ln := i + 1;
      if Skippable(line) then TilesetLoop(lines, i + 1, acc)
      else if line[0] != '@' then Err(InvalidNameLeader(ln, line))
      else if !IsAscii(line[1..]) then Err(InvalidTileName(ln, line[1..]))
      else
        match TileFrom(lines, i + 1)
        case Err(e) => Err(e)
        case Ok((tile, j)) =>
          var r := TilesetLoop(lines, j, acc + [(line[1..], tile)]);
          assert r.Ok? ==> r.value[..|acc|] == (acc + [(line[1..], tile)])[..|acc|];
          r
  }

  /** `tileset_from_lines`: the tiles in input order, each with its name. */
  method TilesetFromLines(lines: seq<Line>) returns (r: Result<seq<(Line, Tile)>, TileParsingError>)
    ensures r == TilesetLoop(lines, 0, [])
  {
    var tileset: seq<(Line, Tile)> := [];
    var i := 0;
    while i < |lines|
      invariant i <= |lines|
      invariant TilesetLoop(lines, i, tileset) == TilesetLoop(lines, 0, [])
      decreases |lines| - i
    {
      var line := lines[i];
      var lineNumber := i + 1;
      if Skippable(line) {
        i := i + 1;
        continue;
      }
      if line[0] != '@' {
        return Err(InvalidNameLeader(lineNumber, line));
      }
      var tail := line[1..];
      if !IsAscii(tail) {
        return Err(InvalidTileName(lineNumber, tail));
      }
      var tile := TileFromLines(lines, i + 1);
      if tile.Err? {
        return Err(tile.error);
      }
      tileset := tileset + [(tail, tile.value.0)];
      i := tile.value.1;
    }
    r := Ok(tileset);
  }

  // ---------------------------------------------------------------------
  // Rendering, and the properties of the parser.

  /** A tile this table can write: well formed, every cell a `TileCell` the
      core/src/tile.rs table reads. */
  ghost predicate Renderable(t: Tile) {
    t.Valid() && forall r, c :: 0 <= r < 4 && 0 <= c < 4 ==> !IsUsed(t.cells[r][c]) && !t.cells[r][c].CrystalBall?
  }

  function CellChars(row: seq<TileCell>): (chars: seq<Byte>)
    requires forall k :: 0 <= k < |row| ==> !IsUsed(row[k])
    ensures |chars| == |row| && forall k :: 0 <= k < |row| ==> chars[k] == CellChar(row[k])
  {
    if row == [] then [] else [CellChar(row[0])] + CellChars(row[1..])
  }

  /** Line `k` of a tile body: even lines are wall rows, odd lines cell rows. */
  function BodyLine(t: Tile, k: nat): Line
    requires Renderable(t) && k < 9
  {
    if k % 2 == 0 then WallLine(t.horzWalls[k / 2])
    else CellLine(t.vertWalls[k / 2], CellChars(t.cells[k / 2]))
  }

  /** The ten lines of a tile: nine body rows and the escalator line. */
  function TileText(t: Tile): (lines: seq<Line>)
    requires Renderable(t)
    ensures |lines| == 10 && lines[9] == EscalatorLine(t.escalators)
    ensures forall k :: 0 <= k < 9 ==> lines[k] == BodyLine(t, k)
  {
    [BodyLine(t, 0), BodyLine(t, 1), BodyLine(t, 2), BodyLine(t, 3), BodyLine(t, 4),
     BodyLine(t, 5), BodyLine(t, 6), BodyLine(t, 7), BodyLine(t, 8), EscalatorLine(t.escalators)]
  }

  /** A tile built row by row agrees with `t` on its first `h` horizontal
      wall rows and its first `v` cell rows. */
  ghost predicate RowsAgree(tile: Tile, t: Tile, h: nat, v: nat) {
    tile.Valid() && t.Valid() && h <= 5 && v <= 4 &&
    (forall j :: 0 <= j < h ==> tile.horzWalls[j] == t.horzWalls[j]) &&
    (forall j :: 0 <= j < v ==> tile.vertWalls[j] == t.vertWalls[j] && tile.cells[j] == t.cells[j])
  }

  lemma TileExtensionality(tile: Tile, t: Tile)
    requires RowsAgree(tile, t, 5, 4) && tile.escalators == t.escalators
    ensures tile == t
  {
    assert tile.horzWalls == t.horzWalls;
    assert tile.vertWalls == t.vertWalls;
    assert tile.cells == t.cells;
  }

  lemma BodyLineNotSkippable(t: Tile, k: nat)
    requires Renderable(t) && k < 9
    ensures !Skippable(BodyLine(t, k))
  {
    if k % 2 == 0 {
      WallLineAt(t.horzWalls[k / 2], 0);
    } else {
      CellLineAt(t.vertWalls[k / 2], CellChars(t.cells[k / 2]), 0);
      var w := t.vertWalls[k / 2][0];
      assert WallChar(w, '|') != '#';
    }
  }

  /** A rendered wall row `r` moves the loop on, setting that row. */
  lemma WallRowStep(t: Tile, r: nat, tile: Tile, skips: bool, ln: nat)
    requires Renderable(t) && tile.Valid() && r <= 4
    ensures TileStep(ParseContext(BodyLine(t, 2 * r), ln), WallRow(r), skips, tile)
         == (if r == 4 then Continue(Elevator, false, tile.(horzWalls := tile.horzWalls[r := t.horzWalls[r]]))
             else Continue(CellRow(r), skips, tile.(horzWalls := tile.horzWalls[r := t.horzWalls[r]])))
  {
    var line := BodyLine(t, 2 * r);
    assert line == WallLine(t.horzWalls[r]);
    BodyLineNotSkippable(t, 2 * r);
    WallRowRoundTrip(t.horzWalls[r], ln);
  }

  /** A rendered cell row `r` moves the loop on, setting that row. */
  lemma CellRowStep(t: Tile, r: nat, tile: Tile, skips: bool, ln: nat)
    requires Renderable(t) && tile.Valid() && r < 4
    ensures TileStep(ParseContext(BodyLine(t, 2 * r + 1), ln), CellRow(r), skips, tile)
         == Continue(WallRow(r + 1), skips,
                     tile.(vertWalls := tile.vertWalls[r := t.vertWalls[r]], cells := tile.cells[r := t.cells[r]]))
  {
    var chars := CellChars(t.cells[r]);
    var ctx := ParseContext(BodyLine(t, 2 * r + 1), ln);
    assert ctx == ParseContext(CellLine(t.vertWalls[r], chars), ln);
    BodyLineNotSkippable(t, 2 * r + 1);
    CellCharsParse(t.cells[r]);
    CellRowRoundTrip(CellTokenV1, t.vertWalls[r], chars, t.cells[r], ln);
    CellRowArmParsed(ctx, r, skips, tile, t.vertWalls[r], t.cells[r]);
  }

  /** A cell row that parses to its end moves on to wall row `r + 1`. */
  lemma CellRowArmParsed(ctx: ParseContext, r: nat, skips: bool, tile: Tile, walls: seq<WallState>, cells: seq<TileCell>)
    requires tile.Valid() && r < GridWidth
    requires ParseCellRow(CellTokenV1, ctx) == Ok((walls, cells, |ctx.line|))
    ensures CellRowArm(ctx, r, skips, tile)
      == Continue(WallRow(r + 1), skips, tile.(vertWalls := tile.vertWalls[r := walls], cells := tile.cells[r := cells]))
  {
  }

  /** The older table reads each written cell back. */
  lemma CellCharsParse(row: seq<TileCell>)
    requires forall k :: 0 <= k < |row| ==> !IsUsed(row[k]) && !row[k].CrystalBall?
    ensures forall j :: 0 <= j < |row| ==> CellTokenV1.parse(CellChars(row)[j]) == Some(row[j])
  {
    forall j | 0 <= j < |row|
      ensures CellTokenV1.parse(CellChars(row)[j]) == Some(row[j])
    {
      V1TableIsNewerWithoutB(' ', row[j]);
    }
  }

  lemma LoopStep(lines: seq<Line>, i: nat, state: ParsingState, skips: bool, tile: Tile, ln: nat,
                 state': ParsingState, skips': bool, tile': Tile)
    requires i < |lines| && tile.Valid()
    requires TileStep(ParseContext(lines[i], i + 1), state, skips, tile) == Continue(state', skips', tile')
    ensures TileLoop(lines, i, state, skips, tile, ln) == TileLoop(lines, i + 1, state', skips', tile', i + 1)
  {
  }

  /** The tile with horizontal wall row `r`, vertical wall row `r` and cell
      row `r` taken from `t`. */
  function CopyRows(tile: Tile, t: Tile, r: nat): (tile': Tile)
    requires tile.Valid() && t.Valid() && r < 4
    ensures tile'.Valid() && tile'.escalators == tile.escalators
  {
    tile.(horzWalls := tile.horzWalls[r := t.horzWalls[r]],
          vertWalls := tile.vertWalls[r := t.vertWalls[r]],
          cells := tile.cells[r := t.cells[r]])
  }

  /** A rendered wall row `r < 4` and the cell row below it. */
  lemma TwoRowsRender(lines: seq<Line>, i: nat, t: Tile, r: nat, tile: Tile, ln: nat)
    requires Renderable(t) && r < 4 && tile.Valid()
    requires i + 2 <= |lines| && lines[i] == BodyLine(t, 2 * r) && lines[i + 1] == BodyLine(t, 2 * r + 1)
    ensures TileLoop(lines, i, WallRow(r), true, tile, ln)
         == TileLoop(lines, i + 2, WallRow(r + 1), true, CopyRows(tile, t, r), i + 2)
  {
    WallRowStep(t, r, tile, true, i + 1);
    var tile1 := tile.(horzWalls := tile.horzWalls[r := t.horzWalls[r]]);
    LoopStep(lines, i, WallRow(r), true, tile, ln, CellRow(r), true, tile1);
    CellRowStep(t, r, tile1, true, i + 2);
    var tile2 := tile1.(vertWalls := tile1.vertWalls[r := t.vertWalls[r]], cells := tile1.cells[r := t.cells[r]]);
    assert tile2 == CopyRows(tile, t, r);
    LoopStep(lines, i + 1, CellRow(r), true, tile1, i + 1, WallRow(r + 1), true, tile2);
  }

  lemma CopyRowsAgree(tile: Tile, t: Tile, r: nat)
    requires RowsAgree(tile, t, r, r) && r < 4
    ensures RowsAgree(CopyRows(tile, t, r), t, r + 1, r + 1)
  {
  }

  /** Wall rows `r` to 3 and the cell rows under them, on lines `i` to
      `end`, copy those rows of `t` into the tile and bring the parser to
      the bottom wall row. */
  lemma {:induction false} RowsRender(lines: seq<Line>, i: nat, end: nat, t: Tile, r: nat, tile: Tile, ln: nat)
    returns (tile': Tile)
    requires Renderable(t) && r < 4 && RowsAgree(tile, t, r, r) && tile.escalators == []
    requires end == i + 8 - 2 * r && end <= |lines| && lines[i..end] == TileText(t)[2 * r..8]
    ensures RowsAgree(tile', t, 4, 4) && tile'.escalators == []
    ensures TileLoop(lines, i, WallRow(r), true, tile, ln) == TileLoop(lines, end, WallRow(4), true, tile', end)
    decreases 4 - r
  {
    RowsAt(lines, i, end, t, r);
    TwoRowsRender(lines, i, t, r, tile, ln);
    CopyRowsAgree(tile, t, r);
    if r == 3 {
      tile' := CopyRows(tile, t, r);
      assert end == i + 2;
    } else {
      tile' := RowsRender(lines, i + 2, end, t, r + 1, CopyRows(tile, t, r), i + 2);
    }
  }

  /** The first two of the remaining rows, and the rest after them. */
  lemma RowsAt(lines: seq<Line>, i: nat, end: nat, t: Tile, r: nat)
    requires Renderable(t) && r < 4
    requires end == i + 8 - 2 * r && end <= |lines| && lines[i..end] == TileText(t)[2 * r..8]
    ensures lines[i] == BodyLine(t, 2 * r) && lines[i + 1] == BodyLine(t, 2 * r + 1)
    ensures r < 3 ==> lines[i + 2..end] == TileText(t)[2 * (r + 1)..8]
  {
    assert lines[i] == lines[i..end][0];
    assert lines[i + 1] == lines[i..end][1];
    assert lines[i + 2..end] == lines[i..end][2..];
  }

  /** The bottom wall row, then a line that reads as the tile's escalators,
      finish the tile. */
  lemma BottomRowRender(lines: seq<Line>, i: nat, t: Tile, tile: Tile, ln: nat)
    requires Renderable(t) && RowsAgree(tile, t, 4, 4) && tile.escalators == []
    requires i + 2 <= |lines| && lines[i] == BodyLine(t, 8)
    requires Elevators(ParseContext(lines[i + 1], i + 2), lines[i + 1], []) == Ok(t.escalators)
    ensures TileLoop(lines, i, WallRow(4), true, tile, ln) == Ok((t, i + 2))
  {
    WallRowStep(t, 4, tile, true, i + 1);
    var tile1 := tile.(horzWalls := tile.horzWalls[4 := t.horzWalls[4]]);
    assert RowsAgree(tile1, t, 5, 4);
    LoopStep(lines, i, WallRow(4), true, tile, ln, Elevator, false, tile1);
    var ctx := ParseContext(lines[i + 1], i + 2);
    TileExtensionality(tile1.(escalators := t.escalators), t);
    assert TileStep(ctx, Elevator, false, tile1) == Done(Ok(t));
  }

  /** The nine body rows of `t` followed by any line that reads as its
      escalators parse as `t`, consuming those ten lines. */
  lemma TileAt(lines: seq<Line>, i: nat, t: Tile, ln: nat)
    requires Renderable(t) && i + 10 <= |lines| && lines[i..i + 9] == TileText(t)[..9]
    requires Elevators(ParseContext(lines[i + 9], i + 10), lines[i + 9], []) == Ok(t.escalators)
    ensures TileLoop(lines, i, WallRow(0), true, DefaultTile(), ln) == Ok((t, i + 10))
  {
    BodyAt(lines, i, t);
    var tile' := RowsRender(lines, i, i + 8, t, 0, DefaultTile(), ln);
    BottomRowRender(lines, i + 8, t, tile', i + 8);
  }

  /** The bottom wall row, then an escalator line that does not read, end
      the tile with that line's error. */
  lemma BottomRowBadEscalator(lines: seq<Line>, i: nat, t: Tile, tile: Tile, ln: nat, e: EscalatorError)
    requires Renderable(t) && RowsAgree(tile, t, 4, 4) && tile.escalators == []
    requires i + 2 <= |lines| && lines[i] == BodyLine(t, 8)
    requires Elevators(ParseContext(lines[i + 1], i + 2), lines[i + 1], []) == Err(e)
    ensures TileLoop(lines, i, WallRow(4), true, tile, ln) == Err(InvalidEscalator(e))
  {
    WallRowStep(t, 4, tile, true, i + 1);
    var tile1 := tile.(horzWalls := tile.horzWalls[4 := t.horzWalls[4]]);
    LoopStep(lines, i, WallRow(4), true, tile, ln, Elevator, false, tile1);
    assert TileStep(ParseContext(lines[i + 1], i + 2), Elevator, false, tile1) == Done(Err(InvalidEscalator(e)));
  }

  /** The nine body rows of a tile followed by an escalator line that does
      not read fail with `InvalidEscalator` and that line's error. */
  lemma TileAtBadEscalator(lines: seq<Line>, i: nat, t: Tile, ln: nat, e: EscalatorError)
    requires Renderable(t) && i + 10 <= |lines| && lines[i..i + 9] == TileText(t)[..9]
    requires Elevators(ParseContext(lines[i + 9], i + 10), lines[i + 9], []) == Err(e)
    ensures TileLoop(lines, i, WallRow(0), true, DefaultTile(), ln) == Err(InvalidEscalator(e))
  {
    BodyAt(lines, i, t);
    var tile' := RowsRender(lines, i, i + 8, t, 0, DefaultTile(), ln);
    BottomRowBadEscalator(lines, i + 8, t, tile', i + 8, e);
  }

  /** The rows above the bottom wall row, and the bottom wall row. */
  lemma BodyAt(lines: seq<Line>, i: nat, t: Tile)
    requires Renderable(t) && i + 9 <= |lines| && lines[i..i + 9] == TileText(t)[..9]
    ensures lines[i..i + 8] == TileText(t)[2 * 0..8] && lines[i + 8] == BodyLine(t, 8)
  {
    var body := lines[i..i + 9];
    assert lines[i..i + 8] == body[..8] && lines[i + 8] == body[8];
  }

  /** The nine body rows of an escalator-free `t` at the very end of the
      input parse as `t`: the escalator line may be missing. */
  lemma TileAtEnd(lines: seq<Line>, i: nat, t: Tile, ln: nat)
    requires Renderable(t) && t.escalators == [] && i + 9 == |lines| && lines[i..] == TileText(t)[..9]
    ensures TileLoop(lines, i, WallRow(0), true, DefaultTile(), ln) == Ok((t, |lines|))
  {
    assert lines[i..i + 9] == lines[i..];
    BodyAt(lines, i, t);
    var tile' := RowsRender(lines, i, i + 8, t, 0, DefaultTile(), ln);
    EndsAfterBottomRow(lines, t.horzWalls[4], tile', true, i + 8);
    TileExtensionality(tile'.(horzWalls := tile'.horzWalls[4 := t.horzWalls[4]]), t);
  }

  /** The text of a tile, wherever it stands in the input, parses back as that
      tile and consumes exactly its ten lines. */
  lemma TileRoundTrip(lines: seq<Line>, i: nat, t: Tile)
    requires Renderable(t) && i + 10 <= |lines| && lines[i..i + 10] == TileText(t)
    ensures TileFrom(lines, i) == Ok((t, i + 10))
  {
    TextAt(lines, i, t);
    EscalatorLineRoundTrip(ParseContext(lines[i + 9], i + 10), t.escalators);
    TileAt(lines, i, t, 0);
  }

  lemma TextAt(lines: seq<Line>, i: nat, t: Tile)
    requires Renderable(t) && i + 10 <= |lines| && lines[i..i + 10] == TileText(t)
    ensures lines[i..i + 9] == TileText(t)[..9] && lines[i + 9] == EscalatorLine(t.escalators)
  {
    var text := lines[i..i + 10];
    assert lines[i..i + 9] == text[..9] && lines[i + 9] == text[9];
  }

  /** A tile's `@name` line and its ten lines. */
  function NamedTileText(name: Line, t: Tile): (lines: seq<Line>)
    requires Renderable(t)
    ensures |lines| == 11
  {
    [['@'] + name] + TileText(t)
  }

  /** The text of a tileset: each tile under its name. */
  function TilesetText(ts: seq<(Line, Tile)>): (lines: seq<Line>)
    requires forall k :: 0 <= k < |ts| ==> Renderable(ts[k].1)
    ensures |lines| == 11 * |ts|
  {
    if ts == [] then [] else NamedTileText(ts[0].0, ts[0].1) + TilesetText(ts[1..])
  }

  lemma TilesetTextCons(ts: seq<(Line, Tile)>)
    requires ts != [] && forall k :: 0 <= k < |ts| ==> Renderable(ts[k].1)
    ensures TilesetText(ts) == NamedTileText(ts[0].0, ts[0].1) + TilesetText(ts[1..])
  {
  }

  lemma TailRenderable(ts: seq<(Line, Tile)>)
    requires ts != [] && forall k :: 0 <= k < |ts| ==> Renderable(ts[k].1) && IsAscii(ts[k].0)
    ensures forall k :: 0 <= k < |ts[1..]| ==> Renderable(ts[1..][k].1) && IsAscii(ts[1..][k].0)
  {
    assert forall k :: 0 <= k < |ts[1..]| ==> ts[1..][k] == ts[k + 1];
  }

  lemma NamedTileStep(lines: seq<Line>, i: nat, name: Line, t: Tile, j: nat, acc: seq<(Line, Tile)>)
    requires i < |lines| && lines[i] == ['@'] + name && IsAscii(name)
    requires i + 1 <= j <= |lines| && TileFrom(lines, i + 1) == Ok((t, j))
    ensures TilesetLoop(lines, i, acc) == TilesetLoop(lines, j, acc + [(name, t)])
  {
    assert lines[i][1..] == name;
  }

  /** A named tile's text from line `i` moves the loop past it, the tile kept. */
  lemma NamedTileRender(lines: seq<Line>, i: nat, name: Line, t: Tile, acc: seq<(Line, Tile)>)
    requires Renderable(t) && IsAscii(name)
    requires i + 11 <= |lines| && lines[i..i + 11] == NamedTileText(name, t)
    ensures TilesetLoop(lines, i, acc) == TilesetLoop(lines, i + 11, acc + [(name, t)])
  {
    assert lines[i] == lines[i..i + 11][0];
    assert lines[i + 1..i + 11] == lines[i..i + 11][1..];
    TileRoundTrip(lines, i + 1, t);
    NamedTileStep(lines, i, name, t, i + 11, acc);
  }

  /** The text of tiles `ts` from line `i` to the end reads back as `ts`. */
  lemma {:induction false} TilesetRender(lines: seq<Line>, i: nat, ts: seq<(Line, Tile)>, acc: seq<(Line, Tile)>)
    requires forall k :: 0 <= k < |ts| ==> Renderable(ts[k].1) && IsAscii(ts[k].0)
    requires i <= |lines| && lines[i..] == TilesetText(ts)
    ensures TilesetLoop(lines, i, acc) == Ok(acc + ts)
    decreases |ts|
  {
    if ts == [] {
      assert |lines[i..]| == 0;
      assert acc + ts == acc;
    } else {
      NextTileRender(lines, i, ts, acc);
      TailRenderable(ts);
      TilesetRender(lines, i + 11, ts[1..], acc + [ts[0]]);
      AppendCons(acc, ts);
    }
  }

  /** The first tile of `ts`, read from line `i`. */
  lemma NextTileRender(lines: seq<Line>, i: nat, ts: seq<(Line, Tile)>, acc: seq<(Line, Tile)>)
    requires ts != [] && forall k :: 0 <= k < |ts| ==> Renderable(ts[k].1) && IsAscii(ts[k].0)
    requires i <= |lines| && lines[i..] == TilesetText(ts)
    ensures i + 11 <= |lines| && lines[i + 11..] == TilesetText(ts[1..])
    ensures TilesetLoop(lines, i, acc) == TilesetLoop(lines, i + 11, acc + [ts[0]])
  {
    var (name, t) := ts[0];
    TilesetTextCons(ts);
    LinesSplit(lines, i, TilesetText(ts), NamedTileText(name, t), TilesetText(ts[1..]), 11);
    NamedTileRender(lines, i, name, t, acc);
  }

  /** Every tileset of writable tiles with ASCII names reads back from its
      text, in order. */
  lemma TilesetRoundTrip(ts: seq<(Line, Tile)>)
    requires forall k :: 0 <= k < |ts| ==> Renderable(ts[k].1) && IsAscii(ts[k].0)
    ensures TilesetLoop(TilesetText(ts), 0, []) == Ok(ts)
  {
    var lines := TilesetText(ts);
    assert lines[0..] == lines;
    TilesetRender(lines, 0, ts, []);
    assert [] + ts == ts;
  }

  /** The states the loop can reach: wall rows 0 to 4, cell rows 0 to 3 and
      the escalator line. */
  predicate ReachableState(state: ParsingState) {
    match state
    case WallRow(r) => r <= GridWidth
    case CellRow(r) => r < GridWidth
    case Elevator => true
  }

  lemma StepStaysInRange(ctx: ParseContext, state: ParsingState, skips: bool, tile: Tile)
    requires ReachableState(state) && tile.Valid()
    ensures TileStep(ctx, state, skips, tile).Continue? ==> ReachableState(TileStep(ctx, state, skips, tile).state)
    ensures TileStep(ctx, state, skips, tile).Done? && TileStep(ctx, state, skips, tile).result.Err? ==>
      !TileStep(ctx, state, skips, tile).result.error.WrongNumberOfRows? &&
      !TileStep(ctx, state, skips, tile).result.error.NoMoreTiles?
  {
  }

  lemma {:induction false} LoopNeverWrongRows(lines: seq<Line>, i: nat, state: ParsingState, skips: bool, tile: Tile, ln: nat)
    requires i <= |lines| && tile.Valid() && ReachableState(state)
    ensures TileLoop(lines, i, state, skips, tile, ln).Err? ==>
      !TileLoop(lines, i, state, skips, tile, ln).error.WrongNumberOfRows? &&
      !TileLoop(lines, i, state, skips, tile, ln).error.NoMoreTiles?
    decreases |lines| - i
  {
    if i < |lines| {
      var ctx := ParseContext(lines[i], i + 1);
      StepStaysInRange(ctx, state, skips, tile);
      match TileStep(ctx, state, skips, tile)
      case Continue(state', skips', tile') =>
        LoopNeverWrongRows(lines, i + 1, state', skips', tile', i + 1);
      case Done(_) =>
    }
  }

  lemma {:induction false} TilesetNeverWrongRows(lines: seq<Line>, i: nat, acc: seq<(Line, Tile)>)
    requires i <= |lines|
    ensures TilesetLoop(lines, i, acc).Err? ==>
      !TilesetLoop(lines, i, acc).error.WrongNumberOfRows? && !TilesetLoop(lines, i, acc).error.NoMoreTiles?
    decreases |lines| - i
  {
    if i < |lines| {
      var line := lines[i];
      if Skippable(line) {
        TilesetNeverWrongRows(lines, i + 1, acc);
      } else if line[0] == '@' && IsAscii(line[1..]) {
        LoopNeverWrongRows(lines, i + 1, WallRow(0), true, DefaultTile(), 0);
        match TileFrom(lines, i + 1)
        case Ok((tile, j)) => TilesetNeverWrongRows(lines, j, acc + [(line[1..], tile)]);
        case Err(_) =>
      }
    }
  }

  /** `WrongNumberOfRows` and `NoMoreTiles` are never returned: the row
      counter cannot leave the grid, and no branch builds `NoMoreTiles`. */
  lemma NeverWrongNumberOfRows(lines: seq<Line>)
    ensures TilesetLoop(lines, 0, []).Err? ==>
      !TilesetLoop(lines, 0, []).error.WrongNumberOfRows? && !TilesetLoop(lines, 0, []).error.NoMoreTiles?
    ensures TileFrom(lines, 0).Err? ==>
      !TileFrom(lines, 0).error.WrongNumberOfRows? && !TileFrom(lines, 0).error.NoMoreTiles?
  {
    TilesetNeverWrongRows(lines, 0, []);
    LoopNeverWrongRows(lines, 0, WallRow(0), true, DefaultTile(), 0);
  }

  /** Bytes after a wall row: rows 0 to 3 are rejected with `RowHasExtra` at
      column 9, but the bottom row (row 4) moves on to the escalator line
      without the check, so its extra bytes are accepted. */
  lemma WallRowExtraBytes(ws: seq<WallState>, extra: Line, r: nat, tile: Tile, skips: bool, ln: nat)
    requires |ws| == 4 && r <= GridWidth && tile.Valid() && extra != []
    ensures var line := WallLine(ws) + extra;
      var s := TileStep(ParseContext(line, ln), WallRow(r), skips, tile);
      (r == GridWidth ==> s == Continue(Elevator, false, tile.(horzWalls := tile.horzWalls[r := ws]))) &&
      (r < GridWidth ==> s == Done(Err(TileParsingError.RowHasExtra(ln, 9, line))))
  {
    var line := WallLine(ws) + extra;
    var ctx := ParseContext(line, ln);
    WallLineAt(ws, 0);
    assert line[0] == '+' && line[..|WallLine(ws)|] == WallLine(ws);
    WallRowPrefix(ctx, ws);
  }

  /** Input that ends right after the bottom wall row gives the tile with
      the escalators it had, here none. */
  lemma EndsAfterBottomRow(lines: seq<Line>, ws: seq<WallState>, tile: Tile, skips: bool, ln: nat)
    requires |ws| == 4 && tile.Valid() && lines != [] && lines[|lines| - 1] == WallLine(ws)
    ensures TileLoop(lines, |lines| - 1, WallRow(GridWidth), skips, tile, ln)
      == Ok((tile.(horzWalls := tile.horzWalls[GridWidth := ws]), |lines|))
  {
    var i := |lines| - 1;
    WallRowRoundTrip(ws, i + 1);
    WallLineAt(ws, 0);
    assert !Skippable(lines[i]);
  }

  /** Input that ends before the bottom wall row is an incomplete tile,
      reported at the last line read. */
  lemma EndsInsideBody(lines: seq<Line>, state: ParsingState, skips: bool, tile: Tile, ln: nat)
    requires tile.Valid() && !state.Elevator?
    ensures TileLoop(lines, |lines|, state, skips, tile, ln) == Err(IncompleteTile(ln))
  {
  }

  /** A name line whose name is not ASCII is rejected, naming that name. */
  lemma NonAsciiName(lines: seq<Line>, i: nat, acc: seq<(Line, Tile)>)
    requires i < |lines| && |lines[i]| >= 1 && lines[i][0] == '@' && !IsAscii(lines[i][1..])
    ensures TilesetLoop(lines, i, acc) == Err(InvalidTileName(i + 1, lines[i][1..]))
  {
  }

  lemma {:induction false} SkippedLines(lines: seq<Line>, i: nat, acc: seq<(Line, Tile)>)
    requires i <= |lines| && forall k :: i <= k < |lines| ==> Skippable(lines[k])
    ensures TilesetLoop(lines, i, acc) == Ok(acc)
    decreases |lines| - i
  {
    if i < |lines| {
      SkippedLines(lines, i + 1, acc);
    }
  }

  /** Input of nothing but blank and comment lines (the empty input among
      them) is the empty tileset. */
  lemma OnlySkippableLines(lines: seq<Line>)
    requires forall k :: 0 <= k < |lines| ==> Skippable(lines[k])
    ensures TilesetLoop(lines, 0, []) == Ok([])
  {
    SkippedLines(lines, 0, []);
  }

  lemma {:induction false} LeaderMissingFrom(lines: seq<Line>, i: nat, j: nat)
    requires i <= j < |lines| && forall k :: i <= k < j ==> Skippable(lines[k])
    requires !Skippable(lines[j]) && lines[j][0] != '@'
    ensures TilesetLoop(lines, i, []) == Err(InvalidNameLeader(j + 1, lines[j]))
    decreases j - i
  {
    if i < j {
      LeaderMissingFrom(lines, i + 1, j);
    }
  }

  /** A tile body without its `@name` line (the TILE_MISSING_NAME test): the
      first line that is not skipped must name a tile. */
  lemma MissingNameLeader(lines: seq<Line>, j: nat)
    requires j < |lines| && forall k :: 0 <= k < j ==> Skippable(lines[k])
    requires !Skippable(lines[j]) && lines[j][0] != '@'
    ensures TilesetLoop(lines, 0, []) == Err(InvalidNameLeader(j + 1, lines[j]))
  {
    LeaderMissingFrom(lines, 0, j);
  }
}
