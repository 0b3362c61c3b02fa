# m-mazing board tiles in Dafny

This project models the board-tile library of m-mazing. The game is a cooperative maze game built from 4×4 tiles. The model covers:

- the single-byte token tables for cells, walls and the `+` placeholder;
- the validated grid coordinate `TileGridCoord` and its 90° rotation;
- escalator endpoints;
- the `Tile` record and its geometry queries: outer edges, wall lookup, neighbours, entrances, exit direction, rotation and the worklist reachability search;
- both generations of the ASCII tileset parser;
- the player-role table and the command-line log-level clamp.

All of these are proved against the following properties:

- **Round trips.** Rendering a tile or tileset as text and parsing it back gives the same value.
- **Rotation.** All rotation lemmas hold.
- **Reachability.** The search marks exactly the cells reachable from the usable entrances.
- **Source tests.** The expected values of the repository's own tests (`TILE_1A`, `TILE_2`, `tile_simple`, `fail_elevators`) are restated as lemmas about the model. For `fail_elevators` this is done twice: once for the escalator line alone, and once for the whole tile text, the body of `TILE1` followed by that line, which fails with `InvalidEscalator`.

## Layout

One module per file. Each module follows a source file.

| module | models |
|---|---|
| `Wrappers`, `Tokens` | `Option`/`Result`, bytes, lines, the token-parser record |
| `Direction` | core/src/tile/direction.rs |
| `MazingCore` | crates/m-mazing-core/src/lib.rs (pawns, `GameState`, `log_level`) |
| `Role` | core/src/role.rs |
| `Wall`, `Cell` | core/src/tile/wall.rs, core/src/tile/cell.rs |
| `TileV1` | the cell table of core/src/tile.rs, which the newer parser uses |
| `LegacyTile` | src/tile.rs: the oldest cell table, with `X` for `Inaccessible` |
| `GridCoord`, `Escalator` | crates/m-mazing-core/src/tile/grid_coord.rs, core/src/tile/escalator.rs |
| `Tile`, `TileReach` | core/src/tile/mod.rs |
| `Text` | ASCII trim, split and digits, as the escalator grammar uses them |
| `TileRows` | `eat_thing` and the wall-row/cell-row grammar shared by both parsers |
| `Tileset` | core/src/tile/tileset.rs |
| `LegacyTileset` | src/tile/tileset.rs |
| `TileExamples`, `TilesetExamples`, `LegacyTilesetExamples` | the tests of core/src/tile/mod.rs, core/src/tile/tileset.rs and src/tile/tileset.rs |

### How state changes are modelled

All of the source's tile-level types are plain values (`Copy`/`Clone`), and the source updates them in place through `&mut self`. The model turns each such update into a method that returns the new value:

- `GridCoord.Rotate`
- `Escalator.Rotate`
- `Cell.SetAvailability`
- `Tile.Rotate`

### Where loops became methods

Where the source loops, the model has a `method` with a loop, proved equal to a specification function. The functions then carry the lemmas. These methods are:

- `Tile.CellOuterEdgeDirections`
- `Tile.Rotate2DArray` (nested loops)
- `TileReach.MarkReachable` (the `while let … pop()` worklist)
- `Tileset.TileFromLines` and `Tileset.TilesetFromLines`
- `Tileset.ElevatorsFromLine`
- `TileRows.EatWallRow` and `TileRows.EatCellRow`
- `LegacyTileset.TilesetFromLines`

### Vintages

The newer parser writes `tile.cells` and builds `TilePoint`s. So it is modelled with the cell table of core/src/tile.rs (`ParseCellV1`, which has no `b`). `TilePoint` and `TileGridCoord` are one type, `cells` and `cell_grid` are one field, and `Direction` is `CartesianDirection`.

## Model

| member | source | states |
|---|---|---|
| Direction.NeighborTransform | core/src/tile/direction.rs:14-21 | each offset is a unit step along exactly one axis: Right is +x, Left −x, Up −y, Down +y, each in both directions of the iff |
| Direction.AllDirectionsComplete | core/src/tile/direction.rs:10-11 | `ALL_DIRECTIONS` has four entries, holds every direction and repeats none |
| Direction.OppositeTransformsCancel | core/src/tile/direction.rs:14-21 | opposite directions are distinct, `Opposite` is an involution, and their offsets sum to (0, 0) |
| Wall.Parse | core/src/tile/wall.rs:17-28 | a byte parses iff it is one of space, dash, bar, caret and `5`..`8`; exactly the dash and the bar give `Blocked` |
| Wall.ParseWallChar | core/src/tile/wall.rs:17-28 | every wall state is written by a byte that parses back to it; two bytes that parse to the same state are equal unless the state is `Blocked` |
| Cell.Parse | core/src/tile/cell.rs:56-86 | a byte parses iff it is in `" 1234GOYPgoypctb"`, and no freshly parsed cell is used |
| Cell.ParseCellChar | core/src/tile/cell.rs:58-86 | for every unused cell, exactly one byte parses to it |
| Cell.CharOfParse | core/src/tile/cell.rs:58-86 | each accepted byte is the canonical character of the cell it parses to |
| Cell.IsUsed | core/src/tile/cell.rs:35-40 | a cell is used exactly when it is a TimerFlip, Camera or CrystalBall whose availability is Used; `SetAvailability` and `WithAvailabilityIdempotent` state how setting the availability changes it |
| Cell.SetAvailability | core/src/tile/cell.rs:42-51 | only TimerFlip, Camera and CrystalBall get the new availability, and with it `is_used() == (a == Used)`; every other cell is unchanged, and the variant always stays the same |
| Cell.WithAvailabilityIdempotent | core/src/tile/cell.rs:35-51 | setting the availability twice equals setting it once with the last value; a cell is used after the update iff it carries an availability and the new one is `Used` |
| TileV1.ParseCellV1 | core/src/tile.rs:43-75 | a byte parses iff it is in `" 1234GOYPgoypct"`; a parsed cell is unused and never a crystal ball, and agrees with the newer table |
| TileV1.V1TableIsNewerWithoutB | core/src/tile.rs:43-75 | the older table is the newer one with `b` removed, and reads back every cell the newer table writes |
| LegacyTile.ParseLegacyCell | src/tile.rs:46-79 | a byte parses iff it is in `" 1234GOYPgoypcXt"`; `X` is exactly `Inaccessible`; TimerFlip and Camera are read as Available |
| LegacyTile.ParseLegacyCellChar | src/tile.rs:46-79 | every cell of the legacy alphabet is written by a byte that parses back to it |
| LegacyTile.DefaultLegacyTile | src/tile.rs:122-128 | the default legacy tile has valid grid shapes, no escalators, all cells Empty and every horizontal and vertical wall Open |
| GridCoord.New | crates/m-mazing-core/src/tile/grid_coord.rs:14-20 | `Some` iff both x and y are below 4, and then it holds exactly (x, y) |
| GridCoord.Added | crates/m-mazing-core/src/tile/grid_coord.rs:22-26 | `Some` iff both sums lie in 0..3, and then it holds the sums |
| GridCoord.AsRotated | crates/m-mazing-core/src/tile/grid_coord.rs:42-53 | clockwise maps (x, y) to (3 − y, x), counter-clockwise to (y, 3 − x) |
| GridCoord.Rotate | crates/m-mazing-core/src/tile/grid_coord.rs:38-40 | the new coordinate is the rotated one, and rotating it back restores the old one |
| GridCoord.RotateReverse | crates/m-mazing-core/src/tile/grid_coord.rs:42-53 | a rotation followed by the opposite rotation is the identity |
| GridCoord.RotateFour | crates/m-mazing-core/src/tile/grid_coord.rs:42-53 | four rotations in one direction are the identity, and two clockwise equal two counter-clockwise |
| GridCoord.Rank | crates/m-mazing-core/src/tile/grid_coord.rs:7-11 | the position of a coordinate in the derived order is below 16 and identifies it |
| GridCoord.LessIsRankOrder | crates/m-mazing-core/src/tile/grid_coord.rs:7-11 | the derived order, lexicographic on x then y, is the order of ranks, and is total and asymmetric |
| GridCoord.AllCoords | crates/m-mazing-core/src/tile/grid_coord.rs:7-11 | the 16 coordinates, listed in rank order |
| GridCoord.AllCoordsAscending | crates/m-mazing-core/src/tile/grid_coord.rs:7-11 | the list of all coordinates is strictly ascending and holds each coordinate at its rank |
| Escalator.Make | core/src/tile/escalator.rs:4 | an escalator keeps its two endpoints in the given order |
| Escalator.CoordNeighbor | core/src/tile/escalator.rs:15-23 | `None` iff the coordinate is neither endpoint; the first endpoint leads to the second and the second to the first |
| Escalator.NeighborSymmetric | core/src/tile/escalator.rs:15-23 | with distinct endpoints, if c leads to d then d leads to c |
| Escalator.Rotate | core/src/tile/escalator.rs:7-11 | the loop rotates both endpoints and keeps their order |
| Escalator.RotatedRoundTrip | core/src/tile/escalator.rs:7-11 | a rotation followed by the opposite one restores the escalator, and so do four in one direction |
| Escalator.RotatedNeighbor | core/src/tile/escalator.rs:7-23 | rotation commutes with lookup: the neighbour of a rotated coordinate is the rotated neighbour |
| Role.GameRoles | core/src/role.rs:3-8 | `Some` iff the player count is non-zero and inside the table, and then it is that table entry |
| Role.SoloRoles | core/src/role.rs:10-27 | one player gets exactly two roles, zero and two players get none, and every board action belongs to exactly one solo role |
| MazingCore.Verbosity | crates/m-mazing-core/src/lib.rs:63-77 | the index of a level in `[ERROR, WARN, INFO, DEBUG, TRACE]` |
| MazingCore.Clamp | crates/m-mazing-core/src/lib.rs:71-74 | the result lies in the range, equals the value when it is already inside, and is the nearer bound otherwise |
| MazingCore.LogLevel | crates/m-mazing-core/src/lib.rs:63-77 | the level chosen is the one whose index is 2 + verbose − quiet, clamped to 0..4 |
| MazingCore.LogLevelMonotone | crates/m-mazing-core/src/lib.rs:63-77 | for any i32 inputs whose sums do not overflow: no flags give INFO; the level never falls as `verbose` grows or `quiet` shrinks; it saturates at TRACE and at ERROR |
| MazingCore.NewGameState | crates/m-mazing-core/src/lib.rs:40-46 | a game exists iff the role table has an entry for the player count, and it then stores that count and those roles |
| MazingCore.NumPlayers | crates/m-mazing-core/src/lib.rs:48-50 | the stored player count; `OnlySoloGames` states it is 1 for every game that can be made |
| MazingCore.OnlySoloGames | crates/m-mazing-core/src/lib.rs:40-50 | only one-player games can be created, and `num_players` then returns 1 |
| Text.TrimStart | core/src/tile/tileset.rs:346 | the result is a suffix, everything dropped is ASCII whitespace, and the result does not start with whitespace |
| Text.TrimEnd | core/src/tile/tileset.rs:346 | the result is a prefix, everything dropped is ASCII whitespace, and the result does not end with whitespace |
| Text.Trim | core/src/tile/tileset.rs:346 | the result is the slice left after dropping leading and trailing whitespace, with no whitespace at either end |
| Text.TrimKeeps | core/src/tile/tileset.rs:346 | trimming leaves a string without whitespace at either end unchanged |
| Text.TrimDropsLeadingSpace | core/src/tile/tileset.rs:346 | a leading whitespace byte does not change the trimmed result |
| Text.SplitFrom | core/src/tile/tileset.rs:344 | the pieces, joined with the separator, give back the input, and none contains the separator |
| Text.Split | core/src/tile/tileset.rs:344 | `split(',')` yields at least one piece; the pieces join back to the input and contain no separator |
| Text.SplitFromPiece | core/src/tile/tileset.rs:344 | a run without separators is carried into the current piece |
| Text.SplitFromJoin | core/src/tile/tileset.rs:344 | splitting a join of separator-free pieces gives the pieces back |
| Text.SplitJoin | core/src/tile/tileset.rs:344 | `Split` is the inverse of `Join` on separator-free pieces |
| Text.Digit | core/src/tile/tileset.rs:347-361 | a byte is a digit iff it is in `'0'..'9'`, and its value is its distance from `'0'` |
| Text.DigitChar | core/src/tile/tileset.rs:347-361 | every value below 10 is the value of some digit byte |
| Tile.DefaultTile | core/src/tile/mod.rs:21-31 | the default tile has the record's grid shapes, no escalators and every cell and wall at its default |
| Tile.FilterOuterEdges | core/src/tile/mod.rs:36-53 | keeps exactly the listed directions that point off the grid from the cell |
| Tile.OuterEdges | core/src/tile/mod.rs:36-53 | holds exactly the directions that point off the grid from the cell |
| Tile.OuterEdgesExplicit | core/src/tile/mod.rs:36-53 | the outer edges come in the order Left (x = 0), Right (x = 3), Up (y = 0), Down (y = 3) |
| Tile.CellOuterEdgeDirections | core/src/tile/mod.rs:36-53 | the pushing loop yields the outer edges in that order; interior cells yield none |
| Tile.CellCardinalNeighborCoords | core/src/tile/mod.rs:60-66 | `None` iff the direction points off the grid; otherwise the coordinate moved by the direction's offset |
| Tile.NeighborCount | core/src/tile/mod.rs:36-66 | a cell has no outer edge iff it has a neighbour in every direction, and at most two outer edges |
| Tile.CellValue | core/src/tile/mod.rs:55-57 | the cell at row `y`, column `x`; `CellCardinalNeighbor` and `RotatedGeometry` use it to state neighbour values and rotation |
| Tile.CellCardinalNeighbor | core/src/tile/mod.rs:69-76 | `Some` iff the direction stays on the grid, and then it is the neighbour's cell value |
| Tile.NeighborBack | core/src/tile/mod.rs:60-66 | stepping to a neighbour and back in the opposite direction returns to the cell |
| Tile.CellWall | core/src/tile/mod.rs:148-157 | Up is horizontal wall row `y`, Down row `y + 1`, Left vertical wall column `x`, Right column `x + 1`; `SharedWall`, `HorzWallBetween` and `VertWallBetween` state that neighbours see the same wall |
| Tile.SharedWall | core/src/tile/mod.rs:148-157 | the wall a cell sees in a direction is the wall its neighbour there sees in the opposite direction |
| Tile.HorzWallBetween | core/src/tile/mod.rs:148-157 | vertically adjacent cells share one horizontal wall (Down of the upper is Up of the lower) |
| Tile.VertWallBetween | core/src/tile/mod.rs:148-157 | horizontally adjacent cells share one vertical wall (Right of the left is Left of the right) |
| Tile.CardinalNeighbors | core/src/tile/mod.rs:80-98 | the cardinal candidates are exactly the on-grid neighbours whose wall is `Open` |
| Tile.EscalatorNeighbors | core/src/tile/mod.rs:80-98 | the escalator candidates are exactly the partners of the cell over the tile's escalators |
| Tile.KeepMembers | core/src/tile/mod.rs:80-98 | keeps exactly the elements of the reference list that occur in the candidates |
| Tile.KeepMembersAscending | core/src/tile/mod.rs:80-98 | filtering a strictly ascending list keeps it strictly ascending |
| Tile.SortedDedup | core/src/tile/mod.rs:80-98 | `sort_unstable` then `dedup` gives a strictly ascending list with the same members |
| Tile.AscendingUnique | core/src/tile/mod.rs:80-98 | two strictly ascending lists with the same members are equal, so the sorted result is unique |
| Tile.CellImmediateNeighborCoords | core/src/tile/mod.rs:80-98 | strictly ascending, holding exactly the open cardinal neighbours and the escalator partners |
| Tile.EntrancesHaveOneEdge | core/src/tile/mod.rs:100-116 | each of the four entrance cells has exactly one outer edge (Left, Down, Up, Right), so the panic cannot happen; the list is ascending |
| Tile.FilterEntrances | core/src/tile/mod.rs:107-124 | keeps exactly the listed entrances whose outer wall is not `Blocked`, in order |
| Tile.ReachableCoordsStarting | core/src/tile/mod.rs:107-124 | the start set is exactly the usable entrances, in entrance order |
| Tile.FilterOpen | core/src/tile/mod.rs:159-178 | keeps exactly the listed directions whose wall is `Open` |
| Tile.FilterOuterEdgesDistinct | core/src/tile/mod.rs:36-53 | filtering a repetition-free direction list keeps it repetition-free |
| Tile.FilterOpenDistinct | core/src/tile/mod.rs:159-178 | filtering for open walls keeps a direction list repetition-free |
| Tile.OpenExitDirections | core/src/tile/mod.rs:159-178 | exactly the outer edges of the cell whose wall is `Open`, without repeats |
| Tile.OnlyOpenExitCases | core/src/tile/mod.rs:159-178 | a single open exit is the unique one; with zero or several there is no unique exit |
| Tile.CellExitDirection | core/src/tile/mod.rs:159-178 | the unique open outer direction when one exists, and `Right` otherwise |
| Tile.RotatedGrid | core/src/tile/mod.rs:228-242 | a W×H grid whose slots are `out[c][H−1−r] = arr[r][c]` (clockwise) or `out[W−1−c][r] = arr[r][c]` (counter-clockwise) |
| Tile.Rotate2DArray | core/src/tile/mod.rs:228-242 | the nested loops overwrite every slot of `out` and give the rotated grid, whatever `out` held |
| Tile.RotatedEscalators | core/src/tile/mod.rs:212-225 | every escalator is rotated, keeping count and order |
| Tile.RotatedTile | core/src/tile/mod.rs:212-225 | the rotated tile has valid shapes (horizontal and vertical walls swap roles) and the same number of escalators |
| Tile.Rotate | core/src/tile/mod.rs:212-225 | the method builds the rotated tile |
| Tile.RotatedGridReverse | core/src/tile/mod.rs:228-242 | rotating a grid and then rotating it back restores it |
| Tile.RotatedGridHalfTurn | core/src/tile/mod.rs:228-242 | two clockwise grid rotations equal two counter-clockwise ones |
| Tile.RotatedEscalatorsReverse | core/src/tile/mod.rs:212-225 | rotating the escalators and back restores them; two turns either way agree |
| Tile.RotateRoundTrip | core/src/tile/mod.rs:212-225 | clockwise then counter-clockwise, or the reverse, restores the tile |
| Tile.RotateHalfTurn | core/src/tile/mod.rs:212-225 | two clockwise rotations equal two counter-clockwise ones |
| Tile.RotateFourTimes | core/src/tile/mod.rs:212-225 | four rotations in one direction restore the tile |
| Tile.RotatedGeometry | core/src/tile/mod.rs:212-225 | after rotation, a rotated cell holds the old cell's value and sees the old wall in the rotated direction |
| TileReach.Neighbors | core/src/tile/mod.rs:126-146 | the neighbour function used by the search lists exactly the immediate neighbours |
| TileReach.StartReachable | core/src/tile/mod.rs:126-146 | every start coordinate is reachable |
| TileReach.StepReachable | core/src/tile/mod.rs:126-146 | a neighbour of a reachable coordinate is reachable |
| TileReach.ClosedHoldsWalks | core/src/tile/mod.rs:126-146 | a set holding the starts and closed under the neighbour relation contains the end of every walk |
| TileReach.PushUnseen | core/src/tile/mod.rs:138-142 | the inner loop appends only neighbours neither visited nor already waiting, keeps the old stack as a prefix, and keeps it free of repeats |
| TileReach.Mark | core/src/tile/mod.rs:136 | marking sets exactly one entry of the 4×4 matrix |
| TileReach.WorklistStep | core/src/tile/mod.rs:134-143 | one pop-and-push round keeps the worklist invariant: visited and waiting are disjoint and reachable, the stack has no repeats, and the neighbours of every visited cell are visited or waiting |
| TileReach.WorklistDone | core/src/tile/mod.rs:134-143 | when the stack is empty, the visited set is exactly the reachable set |
| TileReach.MarkReachable | core/src/tile/mod.rs:129-145 | the worklist loop ends, and `is_reachable[y][x]` holds iff (x, y) is reachable from the starts |
| TileReach.ReachableCoords | core/src/tile/mod.rs:126-146 | `reachable_coords()[y][x]` holds iff (x, y) is reachable from the usable entrances through immediate neighbours |
| TileReach.AscendingDistinct | core/src/tile/mod.rs:80-98 | a strictly ascending list has no repeats, so pushing each neighbour once keeps the stack repeat-free |
| TileRows.ParsePlaceholder | core/src/tile/tileset.rs:14-28 | a byte parses as the `+` placeholder iff it is `+` |
| TileRows.Eat | core/src/tile/tileset.rs:107-130 | `Ok` iff the cursor is inside the line and its byte parses; past the end `IncompleteLine`; a bad byte `ItemParse` with the column, byte, token name and allowed set, and the line number plus one |
| TileRows.EatThing | core/src/tile/tileset.rs:107-130 | the cursor method returns exactly the token and next cursor, or the error that `Eat` describes |
| TileRows.WallPairs | core/src/tile/tileset.rs:233-256 | k wall/placeholder pairs read k walls and consume 2k bytes |
| TileRows.ParseWallRow | core/src/tile/tileset.rs:233-256 | a wall row reads four walls and ends at column 9 |
| TileRows.EatWallRow | core/src/tile/tileset.rs:233-256 | the cursor loop over a wall row equals `ParseWallRow` |
| TileRows.CellPairs | core/src/tile/tileset.rs:257-285 | k cell/wall pairs read k walls and k cells and consume 2k bytes |
| TileRows.ParseCellRow | core/src/tile/tileset.rs:257-285 | a cell row reads five walls and four cells and ends at column 9 |
| TileRows.EatCellRow | core/src/tile/tileset.rs:257-285 | the cursor loop over a cell row equals `ParseCellRow` |
| TileRows.ExtraCheck | core/src/tile/tileset.rs:292-299 | no error iff the row was consumed to its end; otherwise `RowHasExtra` at the first extra column |
| TileRows.WallRowPrefix | core/src/tile/tileset.rs:233-256 | a line that starts with a rendered wall row reads back those walls |
| TileRows.WallRowRoundTrip | core/src/tile/tileset.rs:233-256 | rendering four walls and parsing the row gives them back, consuming the whole line |
| TileRows.CellRowPrefix | core/src/tile/tileset.rs:257-285 | a line that starts with a rendered cell row reads back those walls and cells |
| TileRows.CellRowRoundTrip | core/src/tile/tileset.rs:257-285 | rendering five walls and four cells and parsing the row gives them back |
| Tileset.FromRowError | core/src/tile/tileset.rs:30-69 | row errors become the parser's errors with the same line, column and payload |
| Tileset.ParseHunk | core/src/tile/tileset.rs:344-371 | an accepted hunk trims to exactly `d d - d d`, and its digits are the endpoint coordinates in order; a rejection keeps the line's location |
| Tileset.ParseHunks | core/src/tile/tileset.rs:344-371 | success appends one escalator per hunk in order and never exceeds four |
| Tileset.Elevators | core/src/tile/tileset.rs:312-377 | an empty line adds nothing; a non-empty line without the `E:` prefix is "Invalid prefix"; a result never exceeds four escalators and keeps the existing ones first |
| Tileset.ElevatorsFromLine | core/src/tile/tileset.rs:312-377 | the hunk loop equals `Elevators` |
| Tileset.ParseHunkText | core/src/tile/tileset.rs:344-371 | a rendered hunk parses back to its escalator |
| Tileset.EscalatorLineRoundTrip | core/src/tile/tileset.rs:312-377 | rendering up to four escalators as an `E:` line and parsing it gives them back in order |
| Tileset.SameTrimSameHunk | core/src/tile/tileset.rs:346 | hunks that trim to the same bytes parse alike |
| Tileset.ParseHunksAll | core/src/tile/tileset.rs:344-371 | hunks each parsing to an escalator, at most four in all, give those escalators in order |
| Tileset.ElevatorsOfHunks | core/src/tile/tileset.rs:312-377 | an `E:` line whose comma-separated hunks each parse gives their escalators |
| Tileset.TooManyHunks | core/src/tile/tileset.rs:363-371 | valid hunks beyond four give "Exceeded max escalators" |
| Tileset.FifthEscalator | core/src/tile/tileset.rs:363-371 | a line with five valid hunks is rejected with "Exceeded max escalators" |
| Tileset.Tile3EscalatorLine | core/src/tile/tileset.rs:457-498 | `E: 01-23, 00-33, 33-02` gives (0,1)-(2,3), (0,0)-(3,3), (3,3)-(0,2) |
| Tileset.FailPrefix | core/src/tile/tileset.rs:556-577 | `foo:` is rejected as an invalid prefix |
| Tileset.FailEmptyHunk | core/src/tile/tileset.rs:556-577 | `E::` is rejected as an invalid hunk |
| Tileset.FailSecondHunk | core/src/tile/tileset.rs:556-577 | after a good first hunk, a bad second hunk's rejection is the line's result |
| Tileset.FailLongHunk | core/src/tile/tileset.rs:556-577 | a six-byte hunk is rejected as an invalid hunk |
| Tileset.FailCoordinates | core/src/tile/tileset.rs:556-577 | a digit 4 is rejected as invalid tile coordinates |
| Tileset.FailDigit | core/src/tile/tileset.rs:556-577 | a non-digit is rejected with "Unable to parse digit" |
| Tileset.BottomRowBadEscalator | core/src/tile/tileset.rs:233-289 | after the bottom wall row, an escalator line that does not read ends the tile with `InvalidEscalator` and that line's error |
| Tileset.TileAtBadEscalator | core/src/tile/tileset.rs:193-310 | the nine rendered body rows of any tile followed by an escalator line that does not read fail with `InvalidEscalator` and that line's error |
| Tileset.TileStep | core/src/tile/tileset.rs:193-310 | one line keeps the tile valid; a skippable line is ignored while skipping is allowed; a finished tile comes only from the Elevator state; what the steps add up to is stated by `TileRoundTrip`, `TilesetRoundTrip` and `NeverWrongNumberOfRows` |
| Tileset.WallRowArm | core/src/tile/tileset.rs:233-256 | a wall-row line either continues with a valid tile or fails; a rendered row is read back by `TileRoundTrip`, and extra bytes are rejected above the bottom row only by `WallRowExtraBytes` |
| Tileset.CellRowArm | core/src/tile/tileset.rs:257-285 | a cell-row line either continues with a valid tile or fails; a rendered row is read back by `TileRoundTrip` |
| Tileset.ElevatorArm | core/src/tile/tileset.rs:286-289 | the escalator line always ends the tile, and a success is valid |
| Tileset.TileLoop | core/src/tile/tileset.rs:193-310 | a parsed tile is valid and the returned position lies between the start and the end of input; `TileRoundTrip` reads a rendered tile back, `EndsInsideBody` gives `IncompleteTile` at an early end, `NeverWrongNumberOfRows` rules that error out |
| Tileset.TileFrom | core/src/tile/tileset.rs:193-310 | reading a tile from a position gives a valid tile and the position after it |
| Tileset.StepLine | core/src/tile/tileset.rs:227-290 | the loop body equals `TileStep` |
| Tileset.EatWallLine | core/src/tile/tileset.rs:233-256 | the wall-row arm equals `WallRowArm` |
| Tileset.EatCellLine | core/src/tile/tileset.rs:257-285 | the cell-row arm equals `CellRowArm` |
| Tileset.TileFromLines | core/src/tile/tileset.rs:193-310 | the `for` loop over lines equals `TileFrom` |
| Tileset.TileFromStr | core/src/tile/tileset.rs:182-185 | parsing one tile from text succeeds exactly when `TileFrom` does from line 0, with the same tile or error |
| Tileset.TilesetLoop | core/src/tile/tileset.rs:132-180 | a successful parse keeps the tiles already read first; every new pair has an ASCII name and a valid tile; `TilesetRoundTrip` reads a rendered tileset back |
| Tileset.TilesetFromLines | core/src/tile/tileset.rs:132-180 | the tileset loop equals `TilesetLoop` from line 0 |
| Tileset.TileRoundTrip | core/src/tile/tileset.rs:193-310 | parsing a rendered tile gives the same tile, ten lines on |
| Tileset.NamedTileRender | core/src/tile/tileset.rs:132-180 | a rendered `@name` block adds that (name, tile) pair and moves 11 lines on |
| Tileset.TilesetRoundTrip | core/src/tile/tileset.rs:132-180 | any list of named tiles, rendered and parsed, comes back in order |
| Tileset.StepStaysInRange | core/src/tile/tileset.rs:233-290 | a step never leaves the reachable states, and never raises `WrongNumberOfRows` or `NoMoreTiles` |
| Tileset.NeverWrongNumberOfRows | core/src/tile/tileset.rs:301-309 | neither `tile_from_str` nor `tileset_from_str` ever fails with `WrongNumberOfRows` or `NoMoreTiles` |
| Tileset.WallRowExtraBytes | core/src/tile/tileset.rs:249-252 | extra bytes after a wall row give `RowHasExtra` at column 9, except after the fifth wall row, where they are ignored |
| Tileset.EndsAfterBottomRow | core/src/tile/tileset.rs:301-309 | input that ends right after the fifth wall row gives the tile with no escalators |
| Tileset.EndsInsideBody | core/src/tile/tileset.rs:301-309 | input that ends inside the body gives `IncompleteTile` |
| Tileset.NonAsciiName | core/src/tile/tileset.rs:165-170 | a non-ASCII name gives `InvalidTileName` |
| Tileset.SkippedLines | core/src/tile/tileset.rs:187-189 | empty and `#` lines between tiles are passed over |
| Tileset.OnlySkippableLines | core/src/tile/tileset.rs:132-180 | input made only of empty and `#` lines, the empty input among them, gives no tiles |
| Tileset.MissingNameLeader | core/src/tile/tileset.rs:154-164 | the first line that is not skippable and does not start with `@` gives `InvalidNameLeader` |
| TilesetExamples.ExampleTile1 | core/src/tile/tileset.rs:385-421 | the body of `TILE1_STR` parses as `TILE1` |
| TilesetExamples.ExampleTile2 | core/src/tile/tileset.rs:423-455 | the body of `TILE2_STR` parses as `TILE2` |
| TilesetExamples.Tile1BadEscalator | core/src/tile/tileset.rs:567-576 | the trimmed `TILE1_STR` and then any escalator line that does not read fail with `InvalidEscalator` and that line's error, line 10 |
| TilesetExamples.FailElevatorsPrefix | core/src/tile/tileset.rs:556-577 | the tile text ending in `foo:` fails with `InvalidEscalator` ("Invalid prefix") |
| TilesetExamples.FailElevatorsEmptyHunk | core/src/tile/tileset.rs:556-577 | the tile text ending in `E::` fails with `InvalidEscalator` ("invalid escalator hunk") |
| TilesetExamples.FailElevatorsLongHunk | core/src/tile/tileset.rs:556-577 | the tile text ending in `E: 01-23, 00-33z` fails with `InvalidEscalator` ("invalid escalator hunk") |
| TilesetExamples.FailElevatorsCoordinates | core/src/tile/tileset.rs:556-577 | the tile text ending in `E: 01-23, 00-34` fails with `InvalidEscalator` ("Invalid tile coordinates") |
| TilesetExamples.FailElevatorsDigit | core/src/tile/tileset.rs:556-577 | the tile text ending in `E: 01-23, 00-3s` fails with `InvalidEscalator` ("Unable to parse digit") |
| TilesetExamples.ExampleTileset1 | core/src/tile/tileset.rs:512-542 | `@tile1` followed by its body gives one pair, `tile1` and `TILE1` |
| TilesetExamples.ExampleTileset12 | core/src/tile/tileset.rs:512-542 | the tileset of `tile1` then `tile2` gives both pairs in order |
| TilesetExamples.ExampleTileset31 | core/src/tile/tileset.rs:457-498 | the tileset of `tile3`, which has an escalator line, then `tile1` gives both pairs, with tile3's three escalators |
| LegacyTileset.FromRowError | src/tile/tileset.rs:35-71 | row errors become the legacy parser's errors with the same payload |
| LegacyTileset.LegacyStep | src/tile/tileset.rs:138-228 | one line keeps the parser valid and only appends tiles; empty and `#` lines are ignored in every state; the errors of the steps are stated by `LegacyTilesetErrors` |
| LegacyTileset.WallRowStep | src/tile/tileset.rs:166-190 | a wall-row line keeps the parser valid, and the fifth one pushes the tile |
| LegacyTileset.CellRowStep | src/tile/tileset.rs:191-219 | a cell-row line keeps the parser valid and pushes nothing |
| LegacyTileset.LegacyLoop | src/tile/tileset.rs:111-240 | a success keeps the tiles already pushed first, and every tile is valid; `LegacyTileset.TilesetRoundTrip` reads a rendered tileset back and `LegacyTilesetErrors` states its errors |
| LegacyTileset.LegacyTileset | src/tile/tileset.rs:75-78 | every tile parsed from text has valid shapes |
| LegacyTileset.StepLine | src/tile/tileset.rs:138-228 | the loop body equals `LegacyStep` |
| LegacyTileset.EatWallLine | src/tile/tileset.rs:166-190 | the wall-row arm equals `WallRowStep` |
| LegacyTileset.EatCellLine | src/tile/tileset.rs:191-219 | the cell-row arm equals `CellRowStep` |
| LegacyTileset.TilesetFromLines | src/tile/tileset.rs:111-240 | the `for` loop equals `LegacyTileset` |
| LegacyTileset.WallRowRender | src/tile/tileset.rs:166-190 | a rendered wall row fills that row; the fifth pushes the tile and returns to TileName |
| LegacyTileset.CellRowRender | src/tile/tileset.rs:191-219 | a rendered cell row fills that row's walls and cells and moves to the next wall row |
| LegacyTileset.NamedTileRender | src/tile/tileset.rs:145-165 | a rendered `@name` block resets the tile, parses it and pushes it |
| LegacyTileset.TilesetRoundTrip | src/tile/tileset.rs:111-240 | any list of named legacy tiles, rendered and parsed, gives the tiles in order, without names |
| LegacyTileset.LoopReachable | src/tile/tileset.rs:111-240 | from a reachable state the loop never fails with `WrongNumberOfRows`, an `IncompleteTile` carries the last name at the end of input, and no tile has escalators |
| LegacyTileset.LegacyTilesetErrors | src/tile/tileset.rs:231-239 | the same three facts for the whole parser |
| LegacyTileset.StepReachable | src/tile/tileset.rs:138-228 | a step keeps the state reachable and never fails with `WrongNumberOfRows` or `IncompleteTile` |
| LegacyTileset.WallRowExtraBytes | src/tile/tileset.rs:222-228 | extra bytes after any wall row, including the fifth, give `RowHasExtra` at column 9 |
| LegacyTileset.SkippedLines | src/tile/tileset.rs:138-141 | empty and `#` lines are passed over in every state |
| LegacyTileset.OnlySkippableLines | src/tile/tileset.rs:231-239 | input made only of skippable lines gives no tiles |
| LegacyTileset.MissingNameLeader | src/tile/tileset.rs:138-152 | the first non-skippable line not starting with `@` gives `InvalidNameLeader` |
| LegacyTileset.NameWithoutBody | src/tile/tileset.rs:231-239 | a name line followed by nothing gives `IncompleteTile` on line 1, carrying that name |
| LegacyTilesetExamples.OneNamedTile | src/tile/tileset.rs:111-240 | a single rendered named tile parses to exactly that tile |
| LegacyTilesetExamples.ExampleSimple1 | src/tile/tileset.rs:250-290 | `TILE_SIMPLE1`, trimmed, parses to the one expected tile |
| TileExamples.ExampleStartCoords | core/src/tile/mod.rs:521-532 | `TILE_1A` starts from all four entrances; `TILE_2` starts from (1,3) and (3,2) |
| TileExamples.EntranceWalls | core/src/tile/mod.rs:100-124 | each entrance is usable iff its one outer wall is not `Blocked` |
| TileExamples.AllEntrancesOpen | core/src/tile/mod.rs:107-124 | with all four entrance walls unblocked, the start set is all four entrances |
| TileExamples.SecondAndFourthEntrancesOpen | core/src/tile/mod.rs:107-124 | with only the second and fourth unblocked, the start set is those two |
| TileExamples.ExampleNeighbors | core/src/tile/mod.rs:489-519 | the neighbour lists of `TILE_1A` at the tested cells, including the escalator ends |
| TileExamples.ReachAllButCorner | core/src/tile/mod.rs:534-555 | a tile with `TILE_1A`'s walls and entrances reaches everything but (3,3) |
| TileExamples.NothingLeadsToCorner | core/src/tile/mod.rs:534-555 | no cell of `TILE_1A` has (3,3) as a neighbour |
| TileExamples.ExampleReachable1A | core/src/tile/mod.rs:534-555 | in `TILE_1A`, a cell is reachable iff it is not (3,3) |
| TileExamples.Tile2WalledIn | core/src/tile/mod.rs:290-317 | no neighbour step leaves `TILE_2`'s reachable region |
| TileExamples.Tile2Bounded | core/src/tile/mod.rs:290-317 | every walk in `TILE_2` stays inside that region |
| TileExamples.ExampleReachable2 | core/src/tile/mod.rs:290-317 | in `TILE_2`, a cell is reachable iff it is in the listed region |

## Left out

- **Update in place.** Tiles, coordinates, escalators and cells are values. Each `&mut self` update is a method that returns the new value, so aliasing is not modelled.
- **Text decoding.** Input arrives as a sequence of lines, already split. What is left out:
  - `str::lines`;
  - the lossy and strict UTF-8 conversions;
  - the `from_utf8` check on the escalator line, which cannot fail on a `&str`.

  Each line is a sequence of bytes, written as chars below 256.
- **Trim and digits.** `str::trim` is modelled as trimming ASCII whitespace only (bytes 9–13 and 32). `char::to_digit(10)` accepts exactly `'0'..'9'`, and so does the model. Non-ASCII whitespace is not modelled.
- MazingCore.LogLevel: requires `2 + verbose` and `2 + verbose − quiet` not to overflow `i32`. A debug build panics there and a release build wraps, and neither is modelled.
- GridCoord.Added: requires `x + dx` and `y + dy` to stay below 128. A larger sum overflows `i8`, which panics in debug builds.
- **Logging.** `init_logging` and every `warn!`/`debug!` call are left out, since they only have side effects. `CellExitDirection` keeps the `Right` fallback.
- **`CartesianDirection::as_angle`.** Left out because it returns `f32` radians.
- **Rendering, clients and tile-util.** The rendering code (render_tile, theme, camera, shape), the client binaries and the tile-util tools are not modelled. They are floating-point geometry, an ECS, file watchers and UI.
- **Containers.** `HashSet` becomes a Dafny `set` and `ArrayVec<_, 4>` becomes a sequence of at most four. `try_push` overflow is the explicit "Exceeded max escalators" error.
- **Error messages.** `Display`/`Debug` text and error payload strings beyond their line, column, character, token name and allowed set are not modelled.
- **Line numbers.** `ItemParse` reports the context line number plus one, while `IncompleteLine` and `RowHasExtra` carry it unchanged. Both parsers are modelled as written.
- **The fifth wall row.** In core/src/tile/tileset.rs the fifth wall row `continue`s before the extra-bytes check, so trailing bytes there are ignored. This is modelled as written (`Tileset.WallRowExtraBytes`).
- **`FromStr for Tile` in src/tile.rs.** It calls a `tile_from_lines` that that file does not define, so it is not modelled. The legacy `tileset_from_str` and its loop are.
- **The legacy `tileset_from_str`.** It returns tiles without their names, and the model does the same.
- **The rotate test literals.** `core/src/tile/mod.rs:319-487` spells out rotated tiles. Its claim, that rotating one way and then back restores the tile, is proved for all tiles (`Tile.RotateRoundTrip`, `Tile.RotateFourTimes`). The literal intermediate tiles are not written out.
- **`TilePoint::new`.** core/src/tile.rs:153-161 is the same check as `TileGridCoord::new`, which `GridCoord.New` models.
- **Duplicates.** Neither src/role.rs nor the `GameState` copies in src/lib.rs and core/src/lib.rs are modelled separately, because they repeat the modelled tables.
- **Data-only files.** action.rs and scenario.rs hold only declarations. Their `BoardAction` and `Pawn` enums appear as datatypes.
- **`WallState::OrangeOnly`.** Left out, since only the rendering code uses it.
