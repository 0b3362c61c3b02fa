/** The `Tile` record and its geometry queries and rotation
    (core/src/tile/mod.rs; the same record as `Tile` in core/src/tile.rs,
    whose `cells` field is `cell_grid` here). */
module Tile {
  import opened Wrappers
  import opened Direction
  import opened GridCoord
  import opened Escalator
  import Esc = Escalator
  import opened Cell
  import opened Wall

  /** `MAX_ESCALATORS_PER_TILE`. */
  const MaxEscalatorsPerTile: nat := 4

  /** A `height` by `width` matrix stored row by row. */
  ghost predicate IsGrid<T>(g: seq<seq<T>>, height: nat, width: nat) {
    |g| == height && forall r :: 0 <= r < height ==> |g[r]| == width
  }

  /** The 4x4 cells, the 5x4 horizontal walls (`horzWalls[y]` lies above cell
      row `y`), the 4x5 vertical walls (`vertWalls[y][x]` lies left of cell
      column `x`) and at most four escalators, in order. */
  datatype Tile = Tile(
    cells: seq<seq<TileCell>>,
    horzWalls: seq<seq<WallState>>,
    vertWalls: seq<seq<WallState>>,
    escalators: seq<Escalator>)
  {
    ghost predicate Valid() {
      && IsGrid(cells, GridWidth, GridWidth)
      && IsGrid(horzWalls, GridWidth + 1, GridWidth)
      && IsGrid(vertWalls, GridWidth, GridWidth + 1)
      && |escalators| <= MaxEscalatorsPerTile
    }
  }

  function Filled<T>(height: nat, width: nat, v: T): (g: seq<seq<T>>)
    ensures IsGrid(g, height, width)
    ensures forall r, c :: 0 <= r < height && 0 <= c < width ==> g[r][c] == v
  {
    seq(height, _ => seq(width, _ => v))
  }

  /** `Tile::default()`: every cell empty, every wall open, no escalators. */
  function DefaultTile(): (t: Tile)
    ensures t.Valid() && t.escalators == []
    ensures forall r, c :: 0 <= r < 4 && 0 <= c < 4 ==> t.cells[r][c] == DefaultCell
    ensures forall r, c :: 0 <= r < 5 && 0 <= c < 4 ==> t.horzWalls[r][c] == DefaultWall
    ensures forall r, c :: 0 <= r < 4 && 0 <= c < 5 ==> t.vertWalls[r][c] == DefaultWall
  {
    Tile(Filled(4, 4, Empty), Filled(5, 4, Open), Filled(4, 5, Open), [])
  }

  // ---------------------------------------------------------------------
  // Edges and walls

  /** `c` lies on the border of the grid that faces `d`. */
  predicate IsOuterEdge(c: TileGridCoord, d: CartesianDirection) {
    match d
    case Left => c.x == 0
    case Right => c.x == GridWidth - 1
    case Up => c.y == 0
    case Down => c.y == GridWidth - 1
  }

  /** The order in which `cell_outer_edge_directions` tests the edges. */
  const EdgeOrder: seq<CartesianDirection> := [Left, Right, Up, Down]

  function FilterOuterEdges(ds: seq<CartesianDirection>, c: TileGridCoord): (r: seq<CartesianDirection>)
    ensures forall d :: d in r <==> d in ds && IsOuterEdge(c, d)
    ensures |r| <= |ds|
  {
    if ds == [] then []
    else (if IsOuterEdge(c, ds[0]) then [ds[0]] else []) + FilterOuterEdges(ds[1..], c)
  }

  /** The directions, in the order Left, Right, Up, Down, whose step leaves
      the grid: the value `cell_outer_edge_directions` returns. */
  function OuterEdges(c: TileGridCoord): (r: seq<CartesianDirection>)
    ensures forall d :: d in r <==> IsOuterEdge(c, d)
  {
    FilterOuterEdges(EdgeOrder, c)
  }

  lemma OuterEdgesExplicit(c: TileGridCoord)
    ensures OuterEdges(c) ==
      EdgeIf(c.x == 0, Left) + (EdgeIf(c.x == GridWidth - 1, Right) + (EdgeIf(c.y == 0, Up) + EdgeIf(c.y == GridWidth - 1, Down)))
  {
    var e0: seq<CartesianDirection>, e1: seq<CartesianDirection> := [Left, Right, Up, Down], [Right, Up, Down];
    var e2: seq<CartesianDirection>, e3: seq<CartesianDirection> := [Up, Down], [Down];
    FilterCons(e0, c);
    assert e0[1..] == e1;
    FilterCons(e1, c);
    assert e1[1..] == e2;
    FilterCons(e2, c);
    assert e2[1..] == e3;
    FilterCons(e3, c);
    assert e3[1..] == [];
  }

  lemma FilterCons(ds: seq<CartesianDirection>, c: TileGridCoord)
    requires ds != []
    ensures FilterOuterEdges(ds, c) == EdgeIf(IsOuterEdge(c, ds[0]), ds[0]) + FilterOuterEdges(ds[1..], c)
  {
  }

  /** `cell_outer_edge_directions`: pushes Left when `x == 0`, Right when
      `x == 3`, Up when `y == 0` and Down when `y == 3`. */
  method CellOuterEdgeDirections(coord: TileGridCoord) returns (dirs: seq<CartesianDirection>)
    ensures dirs == OuterEdges(coord)
    ensures forall d :: d in dirs <==> IsOuterEdge(coord, d)
    ensures coord.x != 0 && coord.x != 3 && coord.y != 0 && coord.y != 3 ==> dirs == []
  {
    var maxIdx := GridWidth - 1;
    dirs := [];
    ghost var left, right, up, down := EdgeIf(coord.x == 0, Left), EdgeIf(coord.x == maxIdx, Right),
                                       EdgeIf(coord.y == 0, Up), EdgeIf(coord.y == maxIdx, Down);
    if coord.x == 0 {
      dirs := dirs + [Left];
    }
    assert dirs == left;
    if coord.x == maxIdx {
      dirs := dirs + [Right];
    }
    assert dirs == left + right;
    if coord.y == 0 {
      dirs := dirs + [Up];
    }
    assert dirs == left + right + up;
    if coord.y == maxIdx {
      dirs := dirs + [Down];
    }
    assert dirs == left + right + up + down;
    assert left + right + up + down == left + (right + (up + down));
    OuterEdgesExplicit(coord);
  }

  /** `[d]` when `b` holds, otherwise nothing. */
  function EdgeIf(b: bool, d: CartesianDirection): seq<CartesianDirection> {
    if b then [d] else []
  }

  /** `cell_value`. */
  function CellValue(t: Tile, c: TileGridCoord): (r: TileCell)
    requires t.Valid()
    ensures r == t.cells[c.y][c.x]
  {
    t.cells[c.y][c.x]
  }

  /** `cell_wall`: the wall on side `d` of cell `c`. */
  function CellWall(t: Tile, c: TileGridCoord, d: CartesianDirection): (r: WallState)
    requires t.Valid()
    ensures d == Up ==> r == t.horzWalls[c.y][c.x]
    ensures d == Down ==> r == t.horzWalls[c.y + 1][c.x]
    ensures d == Left ==> r == t.vertWalls[c.y][c.x]
    ensures d == Right ==> r == t.vertWalls[c.y][c.x + 1]
  {
    match d
    case Up => t.horzWalls[c.y][c.x]
    case Down => t.horzWalls[c.y + 1][c.x]
    case Left => t.vertWalls[c.y][c.x]
    case Right => t.vertWalls[c.y][c.x + 1]
  }

  /** `cell_cardinal_neighbor_coords`: one step in direction `d`, if it stays
      on the grid. */
  function CellCardinalNeighborCoords(c: TileGridCoord, d: CartesianDirection): (r: Option<TileGridCoord>)
    ensures r.None? <==> IsOuterEdge(c, d)
    ensures r.Some? ==> r.value.x == c.x + NeighborTransform(d).0 && r.value.y == c.y + NeighborTransform(d).1
  {
    Added(c, NeighborTransform(d).0, NeighborTransform(d).1)
  }

  /** Every cell other than on the border has all four cardinal neighbours,
      and a border cell lacks exactly the ones towards its borders. */
  lemma NeighborCount(c: TileGridCoord)
    ensures |OuterEdges(c)| == 0 <==> forall d :: CellCardinalNeighborCoords(c, d).Some?
    ensures |OuterEdges(c)| <= 2
  {
    OuterEdgesExplicit(c);
    if |OuterEdges(c)| != 0 {
      assert OuterEdges(c)[0] in OuterEdges(c);
      assert CellCardinalNeighborCoords(c, OuterEdges(c)[0]).None?;
    }
  }

  /** `cell_cardinal_neighbor`. */
  function CellCardinalNeighbor(t: Tile, c: TileGridCoord, d: CartesianDirection): (r: Option<TileCell>)
    requires t.Valid()
    ensures r.Some? <==> !IsOuterEdge(c, d)
    ensures r.Some? ==> r.value == CellValue(t, CellCardinalNeighborCoords(c, d).value)
  {
    match CellCardinalNeighborCoords(c, d)
    case None => None
    case Some(n) => Some(CellValue(t, n))
  }

  /** Two neighbouring cells see the same wall between them. */
  lemma SharedWall(t: Tile, c: TileGridCoord, d: CartesianDirection)
    requires t.Valid()
    requires CellCardinalNeighborCoords(c, d).Some?
    ensures CellCardinalNeighborCoords(CellCardinalNeighborCoords(c, d).value, Opposite(d)) == Some(c)
    ensures CellWall(t, CellCardinalNeighborCoords(c, d).value, Opposite(d)) == CellWall(t, c, d)
  {
    NeighborBack(c, d);
    var n := CellCardinalNeighborCoords(c, d).value;
    match d
    case Up => HorzWallBetween(t, n, c);
    case Down => HorzWallBetween(t, c, n);
    case Left => VertWallBetween(t, n, c);
    case Right => VertWallBetween(t, c, n);
  }

  /** `b` directly below `a` shares the wall under `a`. */
  lemma HorzWallBetween(t: Tile, a: TileGridCoord, b: TileGridCoord)
    requires t.Valid() && a.x == b.x && a.y + 1 == b.y
    ensures CellWall(t, a, Down) == CellWall(t, b, Up)
  {
  }

  /** `b` directly right of `a` shares the wall right of `a`. */
  lemma VertWallBetween(t: Tile, a: TileGridCoord, b: TileGridCoord)
    requires t.Valid() && a.y == b.y && a.x + 1 == b.x
    ensures CellWall(t, a, Right) == CellWall(t, b, Left)
  {
  }

  /** The step back from a neighbour returns to the cell. */
  lemma NeighborBack(c: TileGridCoord, d: CartesianDirection)
    requires CellCardinalNeighborCoords(c, d).Some?
    ensures CellCardinalNeighborCoords(CellCardinalNeighborCoords(c, d).value, Opposite(d)) == Some(c)
  {
  }

  // ---------------------------------------------------------------------
  // Immediate neighbours

  /** `n` is one step from `c`: through an `Open` wall, or along an escalator. */
  ghost predicate IsImmediateNeighbor(t: Tile, c: TileGridCoord, n: TileGridCoord)
    requires t.Valid()
  {
    || (exists d :: CellCardinalNeighborCoords(c, d) == Some(n) && CellWall(t, c, d) == Open)
    || (exists e :: e in t.escalators && CoordNeighbor(e, c) == Some(n))
  }

  /** The `filter_map` over `ALL_DIRECTIONS`. */
  function CardinalNeighbors(t: Tile, c: TileGridCoord, ds: seq<CartesianDirection>): (r: seq<TileGridCoord>)
    requires t.Valid()
    ensures forall n :: n in r <==>
      exists d :: d in ds && CellCardinalNeighborCoords(c, d) == Some(n) && CellWall(t, c, d) == Open
  {
    if ds == [] then []
    else
      var next := CellCardinalNeighborCoords(c, ds[0]);
      (if next.Some? && CellWall(t, c, ds[0]) == Open then [next.value] else [])
        + CardinalNeighbors(t, c, ds[1..])
  }

  /** The `filter_map` over the escalators. */
  function EscalatorNeighbors(escs: seq<Escalator>, c: TileGridCoord): (r: seq<TileGridCoord>)
    ensures forall n :: n in r <==> exists e :: e in escs && CoordNeighbor(e, c) == Some(n)
  {
    if escs == [] then []
    else
      var other := CoordNeighbor(escs[0], c);
      (if other.Some? then [other.value] else []) + EscalatorNeighbors(escs[1..], c)
  }

  predicate StrictlyAscending(s: seq<TileGridCoord>) {
    forall i, j :: 0 <= i < j < |s| ==> Less(s[i], s[j])
  }

  /** The members of `s`, in the order of `all`. */
  function KeepMembers(all: seq<TileGridCoord>, s: seq<TileGridCoord>): (r: seq<TileGridCoord>)
    ensures forall x :: x in r <==> x in all && x in s
  {
    if all == [] then []
    else (if all[0] in s then [all[0]] else []) + KeepMembers(all[1..], s)
  }

  lemma {:induction false} KeepMembersAscending(all: seq<TileGridCoord>, s: seq<TileGridCoord>)
    requires StrictlyAscending(all)
    ensures StrictlyAscending(KeepMembers(all, s))
  {
    if all != [] {
      assert StrictlyAscending(all[1..]) by {
        forall i, j | 0 <= i < j < |all[1..]| ensures Less(all[1..][i], all[1..][j]) {
          assert all[1..][i] == all[i + 1] && all[1..][j] == all[j + 1];
        }
      }
      KeepMembersAscending(all[1..], s);
      var rest := KeepMembers(all[1..], s);
      forall x | x in rest ensures Less(all[0], x) {
        var k :| 0 <= k < |all[1..]| && all[1..][k] == x;
        assert all[k + 1] == x;
      }
    }
  }

  /** What `sort_unstable` followed by `dedup` leaves of `s`: its distinct
      elements in ascending order. */
  function SortedDedup(s: seq<TileGridCoord>): (r: seq<TileGridCoord>)
    ensures StrictlyAscending(r)
    ensures forall x :: x in r <==> x in s
  {
    EveryCoordListed();
    KeepMembersAscending(AllCoords(), s);
    KeepMembers(AllCoords(), s)
  }

  lemma EveryCoordListed()
    ensures StrictlyAscending(AllCoords())
    ensures forall c: TileGridCoord :: c in AllCoords()
  {
    AllCoordsAscending();
    forall c: TileGridCoord ensures c in AllCoords() {
      assert AllCoords()[Rank(c)] == c;
    }
  }

  /** A strictly ascending sequence is fixed by its elements, so the result of
      sorting and de-duplicating does not depend on the input order. */
  lemma {:induction false} AscendingUnique(a: seq<TileGridCoord>, b: seq<TileGridCoord>)
    requires StrictlyAscending(a) && StrictlyAscending(b)
    requires forall x :: x in a <==> x in b
    ensures a == b
  {
    HeadIsMember(a);
    HeadIsMember(b);
    if a != [] && b != [] {
      AscendingSplit(a);
      AscendingSplit(b);
      SameHead(a, b);
      SameTail(a, b);
      AscendingUnique(a[1..], b[1..]);
      assert a == [a[0]] + a[1..] && b == [b[0]] + b[1..];
    }
  }

  lemma SameHead(a: seq<TileGridCoord>, b: seq<TileGridCoord>)
    requires StrictlyAscending(a) && StrictlyAscending(b) && a != [] && b != []
    requires forall x :: x in a <==> x in b
    ensures a[0] == b[0]
  {
    AscendingSplit(a);
    AscendingSplit(b);
    HeadIsMember(a);
    HeadIsMember(b);
    LessIsRankOrder(a[0], b[0]);
  }

  lemma SameTail(a: seq<TileGridCoord>, b: seq<TileGridCoord>)
    requires StrictlyAscending(a) && StrictlyAscending(b) && a != [] && b != [] && a[0] == b[0]
    requires forall x :: x in a <==> x in b
    ensures forall x :: x in a[1..] <==> x in b[1..]
  {
    AscendingSplit(a);
    AscendingSplit(b);
  }

  lemma HeadIsMember<T>(s: seq<T>)
    ensures s != [] ==> s[0] in s
  {
  }

  /** The tail of an ascending sequence is ascending and holds everything
      except the head, all of it above the head. */
  lemma AscendingSplit(a: seq<TileGridCoord>)
    requires StrictlyAscending(a) && a != []
    ensures StrictlyAscending(a[1..])
    ensures forall x :: x in a[1..] ==> Less(a[0], x)
    ensures forall x :: x in a[1..] <==> x in a && x != a[0]
  {
    forall x | x in a[1..] ensures Less(a[0], x) && x != a[0] {
      var k :| 0 <= k < |a[1..]| && a[1..][k] == x;
      assert a[k + 1] == x;
      LessIsRankOrder(a[0], x);
    }
    forall x | x in a && x != a[0] ensures x in a[1..] {
      var k :| 0 <= k < |a| && a[k] == x;
      assert a[1..][k - 1] == x;
    }
  }

  /** `cell_immediate_neighbor_coords`: the cardinal neighbours behind an
      `Open` wall and the escalator partners, ascending and without duplicates. */
  function CellImmediateNeighborCoords(t: Tile, c: TileGridCoord): (r: seq<TileGridCoord>)
    requires t.Valid()
    ensures StrictlyAscending(r)
    ensures forall n :: n in r <==> IsImmediateNeighbor(t, c, n)
  {
    EveryDirectionListed();
    SortedDedup(CardinalNeighbors(t, c, AllDirections) + EscalatorNeighbors(t.escalators, c))
  }

  lemma EveryDirectionListed()
    ensures forall d: CartesianDirection :: d in AllDirections
  {
    forall d: CartesianDirection ensures d in AllDirections {
      AllDirectionsComplete(d);
    }
  }

  // ---------------------------------------------------------------------
  // Entrances

  /** `POSSIBLE_ENTRANCE_COORDS`. */
  const PossibleEntranceCoords: seq<TileGridCoord> :=
    [TileGridCoord(0, 1), TileGridCoord(1, 3), TileGridCoord(2, 0), TileGridCoord(3, 2)]

  /** Every entrance cell lies on exactly one edge of the grid, so the panic in
      `reachable_coords_starting` cannot happen. */
  lemma EntrancesHaveOneEdge()
    ensures forall i :: 0 <= i < 4 ==> |OuterEdges(PossibleEntranceCoords[i])| == 1
    ensures OuterEdges(PossibleEntranceCoords[0]) == [Left]
    ensures OuterEdges(PossibleEntranceCoords[1]) == [Down]
    ensures OuterEdges(PossibleEntranceCoords[2]) == [Up]
    ensures OuterEdges(PossibleEntranceCoords[3]) == [Right]
    ensures StrictlyAscending(PossibleEntranceCoords)
  {
    forall i | 0 <= i < 4 ensures |OuterEdges(PossibleEntranceCoords[i])| == 1 {
      EntranceEdge(i);
    }
    EntranceEdge(0);
    EntranceEdge(1);
    EntranceEdge(2);
    EntranceEdge(3);
    EntrancesAscending();
  }

  /** The one outer edge of entrance `i`. */
  lemma EntranceEdge(i: nat)
    requires i < 4
    ensures |OuterEdges(PossibleEntranceCoords[i])| == 1
    ensures i == 0 ==> OuterEdges(PossibleEntranceCoords[i]) == [Left]
    ensures i == 1 ==> OuterEdges(PossibleEntranceCoords[i]) == [Down]
    ensures i == 2 ==> OuterEdges(PossibleEntranceCoords[i]) == [Up]
    ensures i == 3 ==> OuterEdges(PossibleEntranceCoords[i]) == [Right]
  {
    OuterEdgesExplicit(PossibleEntranceCoords[i]);
  }

  lemma EntrancesAscending()
    ensures StrictlyAscending(PossibleEntranceCoords)
  {
    var es := PossibleEntranceCoords;
    assert forall i :: 0 <= i < 4 ==> Rank(es[i]) == [1, 7, 8, 14][i];
    forall i, j | 0 <= i < j < 4 ensures Less(es[i], es[j]) {
      LessIsRankOrder(es[i], es[j]);
    }
  }

  /** The entrance cell has one outer edge, and the wall on that side lets a
      pawn in. */
  predicate EntranceUsable(t: Tile, c: TileGridCoord)
    requires t.Valid()
  {
    |OuterEdges(c)| == 1 &&
    match CellWall(t, c, OuterEdges(c)[0])
    case Entrance => true
    case Explore(_) => true
    case Open => true
    case Blocked => false
  }

  function FilterEntrances(t: Tile, es: seq<TileGridCoord>): (r: seq<TileGridCoord>)
    requires t.Valid()
    requires forall i :: 0 <= i < |es| ==> |OuterEdges(es[i])| == 1
    requires StrictlyAscending(es)
    ensures forall c :: c in r <==> c in es && EntranceUsable(t, c)
    ensures StrictlyAscending(r)
  {
    if es == [] then []
    else
      AscendingSplit(es);
      var rest := FilterEntrances(t, es[1..]);
      if EntranceUsable(t, es[0]) then [es[0]] + rest else rest
  }

  /** `reachable_coords_starting`: the entrance cells, in entrance order, whose
      outer wall is not `Blocked`. */
  function ReachableCoordsStarting(t: Tile): (r: seq<TileGridCoord>)
    requires t.Valid()
    ensures forall c :: c in r <==> c in PossibleEntranceCoords && EntranceUsable(t, c)
    ensures StrictlyAscending(r)
  {
    EntrancesHaveOneEdge();
    FilterEntrances(t, PossibleEntranceCoords)
  }

  // ---------------------------------------------------------------------
  // Exit direction

  /** `d` is an outer edge of `c` and its wall is `Open`. */
  predicate IsOpenExit(t: Tile, c: TileGridCoord, d: CartesianDirection)
    requires t.Valid()
  {
    IsOuterEdge(c, d) && CellWall(t, c, d) == Open
  }

  function FilterOpen(t: Tile, c: TileGridCoord, ds: seq<CartesianDirection>): (r: seq<CartesianDirection>)
    requires t.Valid()
    ensures forall d :: d in r <==> d in ds && CellWall(t, c, d) == Open
    ensures |r| <= |ds|
  {
    if ds == [] then []
    else (if CellWall(t, c, ds[0]) == Open then [ds[0]] else []) + FilterOpen(t, c, ds[1..])
  }

  predicate Distinct(ds: seq<CartesianDirection>) {
    forall i, j :: 0 <= i < j < |ds| ==> ds[i] != ds[j]
  }

  lemma {:induction false} FilterOuterEdgesDistinct(ds: seq<CartesianDirection>, c: TileGridCoord)
    requires Distinct(ds)
    ensures Distinct(FilterOuterEdges(ds, c))
  {
    if ds != [] {
      assert Distinct(ds[1..]) by {
        forall i, j | 0 <= i < j < |ds[1..]| ensures ds[1..][i] != ds[1..][j] {
          assert ds[1..][i] == ds[i + 1] && ds[1..][j] == ds[j + 1];
        }
      }
      FilterOuterEdgesDistinct(ds[1..], c);
      assert ds[0] !in ds[1..];
    }
  }

  lemma {:induction false} FilterOpenDistinct(t: Tile, c: TileGridCoord, ds: seq<CartesianDirection>)
    requires t.Valid()
    requires Distinct(ds)
    ensures Distinct(FilterOpen(t, c, ds))
  {
    if ds != [] {
      assert Distinct(ds[1..]) by {
        forall i, j | 0 <= i < j < |ds[1..]| ensures ds[1..][i] != ds[1..][j] {
          assert ds[1..][i] == ds[i + 1] && ds[1..][j] == ds[j + 1];
        }
      }
      FilterOpenDistinct(t, c, ds[1..]);
      assert ds[0] !in ds[1..];
    }
  }

  /** `d` is the one and only open outer direction of `c`. */
  predicate IsOnlyOpenExit(t: Tile, c: TileGridCoord, d: CartesianDirection)
    requires t.Valid()
  {
    IsOpenExit(t, c, d) && forall d' :: IsOpenExit(t, c, d') ==> d' == d
  }

  /** The open outer directions of `c`, in the order Left, Right, Up, Down. */
  function OpenExitDirections(t: Tile, c: TileGridCoord): (r: seq<CartesianDirection>)
    requires t.Valid()
    ensures forall d :: d in r <==> IsOpenExit(t, c, d)
    ensures Distinct(r)
  {
    assert Distinct(EdgeOrder);
    FilterOuterEdgesDistinct(EdgeOrder, c);
    FilterOpenDistinct(t, c, OuterEdges(c));
    FilterOpen(t, c, OuterEdges(c))
  }

  /** There is an only open exit exactly when the list of open exits has one
      element, and then it is that element. */
  lemma OnlyOpenExitCases(t: Tile, c: TileGridCoord)
    requires t.Valid()
    ensures |OpenExitDirections(t, c)| == 1 ==> IsOnlyOpenExit(t, c, OpenExitDirections(t, c)[0])
    ensures |OpenExitDirections(t, c)| != 1 ==> forall d :: !IsOnlyOpenExit(t, c, d)
  {
    var dirs := OpenExitDirections(t, c);
    if |dirs| >= 2 {
      assert dirs[0] in dirs && dirs[1] in dirs;
      assert IsOpenExit(t, c, dirs[0]) && IsOpenExit(t, c, dirs[1]);
    }
  }

  /** `cell_exit_direction`: the only open outer direction when there is
      exactly one, and `Right` when there are none or several. */
  function CellExitDirection(t: Tile, c: TileGridCoord): (r: CartesianDirection)
    requires t.Valid()
    ensures (exists d :: IsOnlyOpenExit(t, c, d)) ==> IsOnlyOpenExit(t, c, r)
    ensures !(exists d :: IsOnlyOpenExit(t, c, d)) ==> r == Right
  {
    var openExitDirs := OpenExitDirections(t, c);
    OnlyOpenExitCases(t, c);
    if |openExitDirs| == 1 then openExitDirs[0] else Right
  }

  // ---------------------------------------------------------------------
  // Rotation

  /** A `height` x `width` grid turned a quarter: the `width` x `height` grid
      with `out[col][height-1-row] = arr[row][col]` (Clockwise) or
      `out[width-1-col][row] = arr[row][col]` (CounterClockwise). */
  function RotatedGrid<T>(arr: seq<seq<T>>, height: nat, width: nat, spin: SpinDirection): (out: seq<seq<T>>)
    requires IsGrid(arr, height, width)
    ensures IsGrid(out, width, height)
    ensures forall row, col :: 0 <= row < height && 0 <= col < width ==>
      (spin == Clockwise ==> out[col][height - 1 - row] == arr[row][col]) &&
      (spin == CounterClockwise ==> out[width - 1 - col][row] == arr[row][col])
  {
    seq(width, a requires 0 <= a < width =>
      seq(height, b requires 0 <= b < height =>
        match spin
        case Clockwise => arr[height - 1 - b][a]
        case CounterClockwise => arr[b][width - 1 - a]))
  }

  /** Where `rotate_2d_array` writes the element at (`row`, `col`). */
  function Target(height: nat, width: nat, spin: SpinDirection, row: nat, col: nat): (nat, nat)
    requires row < height && col < width
  {
    match spin
    case Clockwise => (col, height - 1 - row)
    case CounterClockwise => (width - 1 - col, row)
  }

  /** The source row of output slot (`a`, `b`). */
  function SourceRow(height: nat, width: nat, spin: SpinDirection, a: nat, b: nat): nat
    requires a < width && b < height
  {
    match spin
    case Clockwise => height - 1 - b
    case CounterClockwise => b
  }

  function SourceCol(height: nat, width: nat, spin: SpinDirection, a: nat, b: nat): nat
    requires a < width && b < height
  {
    match spin
    case Clockwise => a
    case CounterClockwise => width - 1 - a
  }

  /** Slot (`a`, `b`) has been written once the loops have passed its source. */
  predicate Written(height: nat, width: nat, spin: SpinDirection, a: nat, b: nat, row: nat, col: nat)
    requires a < width && b < height
  {
    SourceRow(height, width, spin, a, b) < row
    || (SourceRow(height, width, spin, a, b) == row && SourceCol(height, width, spin, a, b) < col)
  }

  /** `rotate_2d_array`: walks `arr` row by row and writes each element into
      its rotated slot of `out`. Every slot of `out` is written exactly once,
      so the result does not depend on what `out` held. */
  method Rotate2DArray<T>(arr: seq<seq<T>>, out: seq<seq<T>>, height: nat, width: nat, spin: SpinDirection)
    returns (out': seq<seq<T>>)
    requires IsGrid(arr, height, width) && IsGrid(out, width, height)
    ensures out' == RotatedGrid(arr, height, width, spin)
  {
    out' := out;
    for row := 0 to height
      invariant IsGrid(out', width, height)
      invariant forall a, b :: 0 <= a < width && 0 <= b < height ==>
        out'[a][b] == if Written(height, width, spin, a, b, row, 0)
          then arr[SourceRow(height, width, spin, a, b)][SourceCol(height, width, spin, a, b)]
          else out[a][b]
    {
      for col := 0 to width
        invariant IsGrid(out', width, height)
        invariant forall a, b :: 0 <= a < width && 0 <= b < height ==>
          out'[a][b] == if Written(height, width, spin, a, b, row, col)
            then arr[SourceRow(height, width, spin, a, b)][SourceCol(height, width, spin, a, b)]
            else out[a][b]
      {
        var cell := arr[row][col];
        var (a, b) := Target(height, width, spin, row, col);
        out' := out'[a := out'[a][b := cell]];
      }
    }
    var expected := RotatedGrid(arr, height, width, spin);
    assert forall a :: 0 <= a < width ==> out'[a] == expected[a];
  }

  /** The escalator list as `rotate` leaves it. */
  function RotatedEscalators(escs: seq<Escalator>, spin: SpinDirection): (r: seq<Escalator>)
    ensures |r| == |escs|
    ensures forall i :: 0 <= i < |escs| ==> r[i] == Rotated(escs[i], spin)
  {
    seq(|escs|, i requires 0 <= i < |escs| => Rotated(escs[i], spin))
  }

  /** The tile `rotate(spin)` leaves behind: the cell grid turned, the
      horizontal walls turned into the vertical walls and back, and every
      escalator turned in place. */
  function RotatedTile(t: Tile, spin: SpinDirection): (r: Tile)
    requires t.Valid()
    ensures r.Valid()
    ensures |r.escalators| == |t.escalators|
  {
    Tile(
      RotatedGrid(t.cells, 4, 4, spin),
      RotatedGrid(t.vertWalls, 4, 5, spin),
      RotatedGrid(t.horzWalls, 5, 4, spin),
      RotatedEscalators(t.escalators, spin))
  }

  /** `Tile::rotate`: builds a default tile carrying the escalators, rotates
      the three grids into it, turns each escalator, and replaces the tile. */
  method Rotate(t: Tile, spin: SpinDirection) returns (t': Tile)
    requires t.Valid()
    ensures t'.Valid()
    ensures t' == RotatedTile(t, spin)
  {
    var newTile := DefaultTile().(escalators := t.escalators);
    var cells := Rotate2DArray(t.cells, newTile.cells, 4, 4, spin);
    var vert := Rotate2DArray(t.horzWalls, newTile.vertWalls, 5, 4, spin);
    var horz := Rotate2DArray(t.vertWalls, newTile.horzWalls, 4, 5, spin);
    newTile := newTile.(cells := cells, vertWalls := vert, horzWalls := horz);
    var escs := newTile.escalators;
    for i := 0 to |escs|
      invariant |escs| == |t.escalators|
      invariant forall k :: 0 <= k < i ==> escs[k] == Rotated(t.escalators[k], spin)
      invariant forall k :: i <= k < |escs| ==> escs[k] == t.escalators[k]
    {
      var e := Esc.Rotate(escs[i], spin);
      escs := escs[i := e];
    }
    newTile := newTile.(escalators := escs);
    t' := newTile;
  }

  lemma RotatedGridReverse<T>(arr: seq<seq<T>>, height: nat, width: nat, spin: SpinDirection)
    requires IsGrid(arr, height, width)
    ensures RotatedGrid(RotatedGrid(arr, height, width, spin), width, height, Reverse(spin)) == arr
  {
    var back := RotatedGrid(RotatedGrid(arr, height, width, spin), width, height, Reverse(spin));
    assert forall r :: 0 <= r < height ==> back[r] == arr[r];
  }

  lemma RotatedGridHalfTurn<T>(arr: seq<seq<T>>, height: nat, width: nat)
    requires IsGrid(arr, height, width)
    ensures RotatedGrid(RotatedGrid(arr, height, width, Clockwise), width, height, Clockwise)
         == RotatedGrid(RotatedGrid(arr, height, width, CounterClockwise), width, height, CounterClockwise)
  {
    var cw := RotatedGrid(RotatedGrid(arr, height, width, Clockwise), width, height, Clockwise);
    var ccw := RotatedGrid(RotatedGrid(arr, height, width, CounterClockwise), width, height, CounterClockwise);
    assert forall r :: 0 <= r < height ==> cw[r] == ccw[r];
  }

  lemma RotatedEscalatorsReverse(escs: seq<Escalator>, spin: SpinDirection)
    ensures RotatedEscalators(RotatedEscalators(escs, spin), Reverse(spin)) == escs
    ensures RotatedEscalators(RotatedEscalators(escs, Clockwise), Clockwise)
         == RotatedEscalators(RotatedEscalators(escs, CounterClockwise), CounterClockwise)
  {
    forall i | 0 <= i < |escs|
      ensures Rotated(Rotated(escs[i], spin), Reverse(spin)) == escs[i]
      ensures Rotated(Rotated(escs[i], Clockwise), Clockwise) == Rotated(Rotated(escs[i], CounterClockwise), CounterClockwise)
    {
      RotatedRoundTrip(escs[i], spin);
      var e := escs[i];
      RotateFour(e.ends[0], Clockwise);
      RotateFour(e.ends[1], Clockwise);
      assert Rotated(Rotated(e, Clockwise), Clockwise).ends == Rotated(Rotated(e, CounterClockwise), CounterClockwise).ends;
    }
  }

  /** A turn followed by the opposite turn restores the tile. */
  lemma RotateRoundTrip(t: Tile, spin: SpinDirection)
    requires t.Valid()
    ensures RotatedTile(RotatedTile(t, spin), Reverse(spin)) == t
  {
    RotatedGridReverse(t.cells, 4, 4, spin);
    RotatedGridReverse(t.horzWalls, 5, 4, spin);
    RotatedGridReverse(t.vertWalls, 4, 5, spin);
    RotatedEscalatorsReverse(t.escalators, spin);
  }

  /** Two clockwise turns equal two counter-clockwise turns. */
  lemma RotateHalfTurn(t: Tile)
    requires t.Valid()
    ensures RotatedTile(RotatedTile(t, Clockwise), Clockwise)
         == RotatedTile(RotatedTile(t, CounterClockwise), CounterClockwise)
  {
    RotatedGridHalfTurn(t.cells, 4, 4);
    RotatedGridHalfTurn(t.horzWalls, 5, 4);
    RotatedGridHalfTurn(t.vertWalls, 4, 5);
    RotatedEscalatorsReverse(t.escalators, Clockwise);
  }

  /** Four turns the same way restore the tile. */
  lemma RotateFourTimes(t: Tile, spin: SpinDirection)
    requires t.Valid()
    ensures RotatedTile(RotatedTile(RotatedTile(RotatedTile(t, spin), spin), spin), spin) == t
  {
    var t2 := RotatedTile(RotatedTile(t, spin), spin);
    RotateHalfTurn(t);
    // Two turns one way are two turns the other way, so four turns one way
    // are two turns each way, which cancel pairwise.
    var back := Reverse(spin);
    assert t2 == RotatedTile(RotatedTile(t, back), back) by {
      assert spin == Clockwise || spin == CounterClockwise;
    }
    RotateRoundTrip(RotatedTile(t, back), spin);
    RotateRoundTrip(t, back);
    assert Reverse(back) == spin;
    calc {
      RotatedTile(RotatedTile(t2, spin), spin);
      RotatedTile(RotatedTile(RotatedTile(RotatedTile(t, back), back), spin), spin);
      { RotateRoundTrip(RotatedTile(t, back), back); }
      RotatedTile(RotatedTile(t, back), spin);
      t;
    }
  }

  /** Rotation is a rigid turn of the board: the cell at `c` moves to the
      turned coordinate, and the wall on side `d` becomes the wall on the
      turned side. */
  lemma RotatedGeometry(t: Tile, spin: SpinDirection, c: TileGridCoord, d: CartesianDirection)
    requires t.Valid()
    ensures CellValue(RotatedTile(t, spin), AsRotated(c, spin)) == CellValue(t, c)
    ensures CellWall(RotatedTile(t, spin), AsRotated(c, spin), RotatedDirection(d, spin)) == CellWall(t, c, d)
  {
  }
}
