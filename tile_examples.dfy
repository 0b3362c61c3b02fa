/** The two tiles of the tests of core/src/tile/mod.rs, TILE_1A and TILE_2,
    with the start cells, neighbour lists and reachable cells the tests
    expect of them. */
module TileExamples {
  import opened Wrappers
  import opened Direction
  import opened MazingCore
  import opened GridCoord
  import opened Escalator
  import opened Cell
  import opened Wall
  import opened Tile
  import opened TileReach

  function C(x: GridIndex, y: GridIndex): TileGridCoord {
    TileGridCoord(x, y)
  }

  /** TILE_1A: warps in three corners, one escalator between (2,3) and (3,2). */
  const Tile1A: Tile := Tile(
    [[TimerFlip(Available), Empty, Empty, Warp(Purple)],
     [Empty, Empty, Empty, Warp(Yellow)],
     [Warp(Orange), Empty, Empty, Empty],
     [Warp(Green), Empty, Empty, Empty]],
    [[Blocked, Blocked, Explore(Orange), Blocked],
     [Blocked, Open, Open, Blocked],
     [Blocked, Open, Open, Blocked],
     [Blocked, Open, Open, Blocked],
     [Blocked, Explore(Yellow), Blocked, Blocked]],
    [[Blocked, Open, Open, Open, Blocked],
     [Explore(Purple), Open, Open, Open, Blocked],
     [Blocked, Open, Open, Blocked, Explore(Green)],
     [Blocked, Open, Open, Blocked, Blocked]],
    [Make(TileGridCoord(2, 3), TileGridCoord(3, 2))])

  /** TILE_2: one entrance, one escalator between (0,1) and (1,3). */
  const Tile2: Tile := Tile(
    [[FinalExit(Purple), Empty, Empty, Empty],
     [Empty, Empty, Empty, Warp(Purple)],
     [Empty, Empty, Empty, Empty],
     [Empty, Empty, Empty, Warp(Green)]],
    [[Open, Blocked, Blocked, Blocked],
     [Open, Open, Open, Blocked],
     [Blocked, Open, Blocked, Open],
     [Open, Blocked, Open, Blocked],
     [Blocked, Explore(Orange), Blocked, Blocked]],
    [[Blocked, Blocked, Open, Open, Blocked],
     [Blocked, Blocked, Open, Blocked, Blocked],
     [Blocked, Blocked, Blocked, Open, Entrance],
     [Blocked, Blocked, Open, Open, Blocked]],
    [Make(TileGridCoord(0, 1), TileGridCoord(1, 3))])

  lemma ExamplesValid()
    ensures Tile1A.Valid() && Tile2.Valid()
  {
  }

  /** The `start_coords` test: every entrance of TILE_1A is usable; TILE_2
      can only be entered at (1,3) and (3,2). */
  lemma ExampleStartCoords()
    ensures Tile1A.Valid() && Tile2.Valid()
    ensures ReachableCoordsStarting(Tile1A) == PossibleEntranceCoords
    ensures ReachableCoordsStarting(Tile2) == [C(1, 3), C(3, 2)]
  {
    StartCoords1A();
    StartCoords2();
  }

  /** Each entrance is usable exactly when its one outer wall is not blocked. */
  lemma EntranceWalls(t: Tile)
    requires t.Valid()
    ensures EntranceUsable(t, PossibleEntranceCoords[0]) <==> t.vertWalls[1][0] != Blocked
    ensures EntranceUsable(t, PossibleEntranceCoords[1]) <==> t.horzWalls[4][1] != Blocked
    ensures EntranceUsable(t, PossibleEntranceCoords[2]) <==> t.horzWalls[0][2] != Blocked
    ensures EntranceUsable(t, PossibleEntranceCoords[3]) <==> t.vertWalls[2][4] != Blocked
  {
    LeftEntrance(t);
    BottomEntrance(t);
    TopEntrance(t);
    RightEntrance(t);
  }

  lemma LeftEntrance(t: Tile)
    requires t.Valid()
    ensures EntranceUsable(t, PossibleEntranceCoords[0]) <==> t.vertWalls[1][0] != Blocked
  {
    EntranceEdge(0);
    UsableAt(t, PossibleEntranceCoords[0], Left);
  }

  lemma BottomEntrance(t: Tile)
    requires t.Valid()
    ensures EntranceUsable(t, PossibleEntranceCoords[1]) <==> t.horzWalls[4][1] != Blocked
  {
    EntranceEdge(1);
    UsableAt(t, PossibleEntranceCoords[1], Down);
  }

  lemma TopEntrance(t: Tile)
    requires t.Valid()
    ensures EntranceUsable(t, PossibleEntranceCoords[2]) <==> t.horzWalls[0][2] != Blocked
  {
    EntranceEdge(2);
    UsableAt(t, PossibleEntranceCoords[2], Up);
  }

  lemma RightEntrance(t: Tile)
    requires t.Valid()
    ensures EntranceUsable(t, PossibleEntranceCoords[3]) <==> t.vertWalls[2][4] != Blocked
  {
    EntranceEdge(3);
    UsableAt(t, PossibleEntranceCoords[3], Right);
  }

  lemma UsableAt(t: Tile, c: TileGridCoord, d: CartesianDirection)
    requires t.Valid() && OuterEdges(c) == [d]
    ensures EntranceUsable(t, c) <==> CellWall(t, c, d) != Blocked
  {
  }

  /** A tile whose four entrance walls are all passable starts at every entrance. */
  lemma AllEntrancesOpen(t: Tile)
    requires t.Valid()
    requires t.vertWalls[1][0] != Blocked && t.horzWalls[4][1] != Blocked
    requires t.horzWalls[0][2] != Blocked && t.vertWalls[2][4] != Blocked
    ensures ReachableCoordsStarting(t) == PossibleEntranceCoords
  {
    StartMembers(t);
    AllFourListed(ReachableCoordsStarting(t));
  }

  /** A tile passable only at the entrances (1,3) and (3,2) starts at those two. */
  lemma SecondAndFourthEntrancesOpen(t: Tile)
    requires t.Valid()
    requires t.vertWalls[1][0] == Blocked && t.horzWalls[4][1] != Blocked
    requires t.horzWalls[0][2] == Blocked && t.vertWalls[2][4] != Blocked
    ensures ReachableCoordsStarting(t) == [C(1, 3), C(3, 2)]
  {
    StartMembers(t);
    SecondAndFourthListed(ReachableCoordsStarting(t));
  }

  lemma AllFourListed(r: seq<TileGridCoord>)
    requires StrictlyAscending(r) && forall c :: c in r ==> c in PossibleEntranceCoords
    requires var es := PossibleEntranceCoords; es[0] in r && es[1] in r && es[2] in r && es[3] in r
    ensures r == PossibleEntranceCoords
  {
    var es := PossibleEntranceCoords;
    EntrancesAscending();
    forall c | c in es ensures c in r {
      assert c == es[0] || c == es[1] || c == es[2] || c == es[3];
    }
    AscendingUnique(r, es);
  }

  lemma SecondAndFourthListed(r: seq<TileGridCoord>)
    requires StrictlyAscending(r) && forall c :: c in r ==> c in PossibleEntranceCoords
    requires var es := PossibleEntranceCoords; es[0] !in r && es[1] in r && es[2] !in r && es[3] in r
    ensures r == [C(1, 3), C(3, 2)]
  {
    var es := PossibleEntranceCoords;
    var want := [C(1, 3), C(3, 2)];
    forall c ensures c in r <==> c in want {
      if c in r {
        assert c == es[0] || c == es[1] || c == es[2] || c == es[3];
      }
    }
    AscendingUnique(r, want);
  }

  /** Which entrances a tile starts at: those whose outer wall is not blocked. */
  lemma StartMembers(t: Tile)
    requires t.Valid()
    ensures var r, es := ReachableCoordsStarting(t), PossibleEntranceCoords;
      && (forall c :: c in r ==> c in es)
      && (es[0] in r <==> t.vertWalls[1][0] != Blocked)
      && (es[1] in r <==> t.horzWalls[4][1] != Blocked)
      && (es[2] in r <==> t.horzWalls[0][2] != Blocked)
      && (es[3] in r <==> t.vertWalls[2][4] != Blocked)
  {
    EntranceWalls(t);
  }

  lemma StartCoords1A()
    ensures Tile1A.Valid()
    ensures ReachableCoordsStarting(Tile1A) == PossibleEntranceCoords
  {
    ExamplesValid();
    AllEntrancesOpen(Tile1A);
  }

  lemma StartCoords2()
    ensures Tile2.Valid()
    ensures ReachableCoordsStarting(Tile2) == [C(1, 3), C(3, 2)]
  {
    ExamplesValid();
    SecondAndFourthEntrancesOpen(Tile2);
  }

  // ---------------------------------------------------------------------
  // The `neighbor` test

  /** `n` is the cell next to `c` in direction `d`, and the wall between is `Open`. */
  ghost predicate Via(t: Tile, c: TileGridCoord, n: TileGridCoord, d: CartesianDirection)
    requires t.Valid()
  {
    CellCardinalNeighborCoords(c, d) == Some(n) && CellWall(t, c, d) == Open
  }

  /** On a tile with a single escalator, the immediate neighbours of `c` are
      the adjacent cells behind an `Open` wall and the escalator partner. */
  lemma ImmediateNeighborCases(t: Tile, c: TileGridCoord, n: TileGridCoord)
    requires t.Valid() && |t.escalators| == 1
    ensures IsImmediateNeighbor(t, c, n) <==>
      Via(t, c, n, Right) || Via(t, c, n, Left) || Via(t, c, n, Up) || Via(t, c, n, Down) ||
      CoordNeighbor(t.escalators[0], c) == Some(n)
  {
    CardinalCases(t, c, n);
    EscalatorCase(t.escalators, c, n);
  }

  lemma EscalatorCase(escs: seq<Escalator>, c: TileGridCoord, n: TileGridCoord)
    requires |escs| == 1
    ensures (exists e :: e in escs && CoordNeighbor(e, c) == Some(n)) <==> CoordNeighbor(escs[0], c) == Some(n)
  {
    if exists e :: e in escs && CoordNeighbor(e, c) == Some(n) {
      var e :| e in escs && CoordNeighbor(e, c) == Some(n);
      assert e == escs[0];
    }
  }

  lemma CardinalCases(t: Tile, c: TileGridCoord, n: TileGridCoord)
    requires t.Valid()
    ensures (exists d :: CellCardinalNeighborCoords(c, d) == Some(n) && CellWall(t, c, d) == Open) <==>
      Via(t, c, n, Right) || Via(t, c, n, Left) || Via(t, c, n, Up) || Via(t, c, n, Down)
  {
    if exists d :: CellCardinalNeighborCoords(c, d) == Some(n) && CellWall(t, c, d) == Open {
      var d :| CellCardinalNeighborCoords(c, d) == Some(n) && CellWall(t, c, d) == Open;
      assert Via(t, c, n, d);
    }
  }

  /** A list that is ascending and holds exactly the immediate neighbours is
      the neighbour list. */
  lemma NeighborListIs(t: Tile, c: TileGridCoord, want: seq<TileGridCoord>)
    requires t.Valid() && StrictlyAscending(want)
    requires forall n :: IsImmediateNeighbor(t, c, n) <==> n in want
    ensures CellImmediateNeighborCoords(t, c) == want
  {
    AscendingUnique(CellImmediateNeighborCoords(t, c), want);
  }

  /** The first case of the `neighbor` test: (0,0) of TILE_1A opens only to the right. */
  lemma Neighbors1AOrigin()
    ensures Tile1A.Valid() && CellImmediateNeighborCoords(Tile1A, C(0, 0)) == [C(1, 0)]
  {
    ExamplesValid();
    var t, c := Tile1A, C(0, 0);
    assert CellCardinalNeighborCoords(c, Right) == Some(C(1, 0)) && CellWall(t, c, Right) == Open;
    assert CellCardinalNeighborCoords(c, Left) == None && CellCardinalNeighborCoords(c, Up) == None;
    assert CellWall(t, c, Down) == Blocked;
    assert CoordNeighbor(t.escalators[0], c) == None;
    forall n ensures IsImmediateNeighbor(t, c, n) <==> n in [C(1, 0)] {
      ImmediateNeighborCases(t, c, n);
    }
    NeighborListIs(t, c, [C(1, 0)]);
  }

  lemma Neighbors1ATop()
    ensures Tile1A.Valid() && CellImmediateNeighborCoords(Tile1A, C(1, 0)) == [C(0, 0), C(1, 1), C(2, 0)]
  {
    ExamplesValid();
    var t, c := Tile1A, C(1, 0);
    assert CellCardinalNeighborCoords(c, Right) == Some(C(2, 0)) && CellWall(t, c, Right) == Open;
    assert CellCardinalNeighborCoords(c, Left) == Some(C(0, 0)) && CellWall(t, c, Left) == Open;
    assert CellCardinalNeighborCoords(c, Down) == Some(C(1, 1)) && CellWall(t, c, Down) == Open;
    assert CellCardinalNeighborCoords(c, Up) == None;
    assert CoordNeighbor(t.escalators[0], c) == None;
    var want := [C(0, 0), C(1, 1), C(2, 0)];
    forall n ensures IsImmediateNeighbor(t, c, n) <==> n in want {
      ImmediateNeighborCases(t, c, n);
    }
    NeighborListIs(t, c, want);
  }

  /** (3,3) of TILE_1A is walled in and is no escalator end. */
  lemma Neighbors1ACorner()
    ensures Tile1A.Valid() && CellImmediateNeighborCoords(Tile1A, C(3, 3)) == []
  {
    ExamplesValid();
    var t, c := Tile1A, C(3, 3);
    assert CellCardinalNeighborCoords(c, Right) == None && CellCardinalNeighborCoords(c, Down) == None;
    assert CellWall(t, c, Left) == Blocked && CellWall(t, c, Up) == Blocked;
    assert CoordNeighbor(t.escalators[0], c) == None;
    forall n ensures IsImmediateNeighbor(t, c, n) <==> n in [] {
      ImmediateNeighborCases(t, c, n);
    }
    NeighborListIs(t, c, []);
  }

  /** (2,3) of TILE_1A: two open walls and the escalator to (3,2). */
  lemma Neighbors1AEscalatorFoot()
    ensures Tile1A.Valid() && CellImmediateNeighborCoords(Tile1A, C(2, 3)) == [C(1, 3), C(2, 2), C(3, 2)]
  {
    ExamplesValid();
    var t, c := Tile1A, C(2, 3);
    assert CellCardinalNeighborCoords(c, Left) == Some(C(1, 3)) && CellWall(t, c, Left) == Open;
    assert CellCardinalNeighborCoords(c, Up) == Some(C(2, 2)) && CellWall(t, c, Up) == Open;
    assert CellWall(t, c, Right) == Blocked && CellCardinalNeighborCoords(c, Down) == None;
    assert CoordNeighbor(t.escalators[0], c) == Some(C(3, 2));
    var want := [C(1, 3), C(2, 2), C(3, 2)];
    forall n ensures IsImmediateNeighbor(t, c, n) <==> n in want {
      ImmediateNeighborCases(t, c, n);
    }
    NeighborListIs(t, c, want);
  }

  /** (3,2) of TILE_1A: walled in, but the escalator leads to (2,3). */
  lemma Neighbors1AEscalatorHead()
    ensures Tile1A.Valid() && CellImmediateNeighborCoords(Tile1A, C(3, 2)) == [C(2, 3)]
  {
    ExamplesValid();
    var t, c := Tile1A, C(3, 2);
    assert CellCardinalNeighborCoords(c, Right) == None;
    assert CellWall(t, c, Left) == Blocked && CellWall(t, c, Up) == Blocked && CellWall(t, c, Down) == Blocked;
    assert CoordNeighbor(t.escalators[0], c) == Some(C(2, 3));
    forall n ensures IsImmediateNeighbor(t, c, n) <==> n in [C(2, 3)] {
      ImmediateNeighborCases(t, c, n);
    }
    NeighborListIs(t, c, [C(2, 3)]);
  }

  /** The whole `neighbor` test. */
  lemma ExampleNeighbors()
    ensures Tile1A.Valid()
    ensures CellImmediateNeighborCoords(Tile1A, C(0, 0)) == [C(1, 0)]
    ensures CellImmediateNeighborCoords(Tile1A, C(1, 0)) == [C(0, 0), C(1, 1), C(2, 0)]
    ensures CellImmediateNeighborCoords(Tile1A, C(3, 3)) == []
    ensures CellImmediateNeighborCoords(Tile1A, C(2, 3)) == [C(1, 3), C(2, 2), C(3, 2)]
    ensures CellImmediateNeighborCoords(Tile1A, C(3, 2)) == [C(2, 3)]
  {
    Neighbors1AOrigin();
    Neighbors1ATop();
    Neighbors1ACorner();
    Neighbors1AEscalatorFoot();
    Neighbors1AEscalatorHead();
  }

  // ---------------------------------------------------------------------
  // The `reachable_coords` test for TILE_1A

  /** `next` holds every step through an open wall of `t`. */
  ghost predicate OpenStepsIn(t: Tile, next: TileGridCoord -> seq<TileGridCoord>)
    requires t.Valid()
  {
    forall c, n, d :: Via(t, c, n, d) ==> n in next(c)
  }

  lemma NeighborsHaveOpenSteps(t: Tile)
    requires t.Valid()
    ensures OpenStepsIn(t, Neighbors(t))
  {
    forall c, n, d | Via(t, c, n, d) ensures n in Neighbors(t)(c) {
      assert IsImmediateNeighbor(t, c, n);
    }
  }

  /** The walks through the top two rows, from the entrances at (2,0) and (0,1). */
  lemma WalksTop(t: Tile, starts: seq<TileGridCoord>, next: TileGridCoord -> seq<TileGridCoord>)
    requires t.Valid() && OpenStepsIn(t, next)
    requires C(2, 0) in starts && C(0, 1) in starts
    requires t.vertWalls[0][2] == Open && t.vertWalls[0][3] == Open && t.vertWalls[0][1] == Open && t.vertWalls[1][1] == Open
    requires t.vertWalls[1][2] == Open && t.vertWalls[1][3] == Open
    ensures forall x: GridIndex, y: GridIndex :: y <= 1 ==> WalkReaches(starts, next, C(x, y))
  {
    StartReachable(starts, next, C(2, 0));
    StartReachable(starts, next, C(0, 1));
    assert Via(t, C(2, 0), C(1, 0), Left);
    StepReachable(starts, next, C(2, 0), C(1, 0));
    assert Via(t, C(2, 0), C(3, 0), Right);
    StepReachable(starts, next, C(2, 0), C(3, 0));
    assert Via(t, C(1, 0), C(0, 0), Left);
    StepReachable(starts, next, C(1, 0), C(0, 0));
    assert Via(t, C(0, 1), C(1, 1), Right);
    StepReachable(starts, next, C(0, 1), C(1, 1));
    assert Via(t, C(1, 1), C(2, 1), Right);
    StepReachable(starts, next, C(1, 1), C(2, 1));
    assert Via(t, C(2, 1), C(3, 1), Right);
    StepReachable(starts, next, C(2, 1), C(3, 1));
  }

  /** The walks on through (1,1) and from the entrances at (1,3) and (3,2). */
  lemma WalksBottom(t: Tile, starts: seq<TileGridCoord>, next: TileGridCoord -> seq<TileGridCoord>)
    requires t.Valid() && OpenStepsIn(t, next)
    requires WalkReaches(starts, next, C(1, 1)) && C(1, 3) in starts && C(3, 2) in starts
    requires t.horzWalls[2][1] == Open && t.vertWalls[2][1] == Open && t.vertWalls[2][2] == Open && t.vertWalls[3][1] == Open
    requires t.vertWalls[3][2] == Open
    ensures forall x: GridIndex, y: GridIndex :: y >= 2 && !(x == 3 && y == 3) ==> WalkReaches(starts, next, C(x, y))
  {
    StartReachable(starts, next, C(1, 3));
    StartReachable(starts, next, C(3, 2));
    assert Via(t, C(1, 1), C(1, 2), Down);
    StepReachable(starts, next, C(1, 1), C(1, 2));
    assert Via(t, C(1, 2), C(0, 2), Left);
    StepReachable(starts, next, C(1, 2), C(0, 2));
    assert Via(t, C(1, 2), C(2, 2), Right);
    StepReachable(starts, next, C(1, 2), C(2, 2));
    assert Via(t, C(1, 3), C(0, 3), Left);
    StepReachable(starts, next, C(1, 3), C(0, 3));
    assert Via(t, C(1, 3), C(2, 3), Right);
    StepReachable(starts, next, C(1, 3), C(2, 3));
  }

  /** A cell that is no start and no successor of anything is out of reach. */
  lemma Isolated(starts: seq<TileGridCoord>, next: TileGridCoord -> seq<TileGridCoord>, k: TileGridCoord)
    requires k !in starts
    requires forall c :: k !in next(c)
    ensures !WalkReaches(starts, next, k)
  {
    var s := CoordSet() - {k};
    if p :| IsWalk(starts, next, p) && p[|p| - 1] == k {
      ClosedHoldsWalks(starts, next, s, p);
    }
  }

  /** The walls of TILE_1A that the walks go through are open in `t`. */
  ghost predicate OpenWalls1A(t: Tile)
    requires t.Valid()
  {
    && t.vertWalls[0][2] == Open && t.vertWalls[0][3] == Open && t.vertWalls[0][1] == Open && t.vertWalls[1][1] == Open
    && t.vertWalls[1][2] == Open && t.vertWalls[1][3] == Open && t.horzWalls[2][1] == Open && t.vertWalls[2][1] == Open
    && t.vertWalls[2][2] == Open && t.vertWalls[3][1] == Open && t.vertWalls[3][2] == Open
  }

  /** `t` can be entered at (2,0), (0,1), (1,3) and (3,2), and not at (3,3). */
  ghost predicate Entrances1A(t: Tile)
    requires t.Valid()
  {
    && C(2, 0) in ReachableCoordsStarting(t) && C(0, 1) in ReachableCoordsStarting(t)
    && C(1, 3) in ReachableCoordsStarting(t) && C(3, 2) in ReachableCoordsStarting(t)
    && C(3, 3) !in ReachableCoordsStarting(t)
  }

  /** No cell of `t` leads to the corner (3,3). */
  ghost predicate WalledCorner(t: Tile)
    requires t.Valid()
  {
    && forall c :: !IsImmediateNeighbor(t, c, C(3, 3))
  }

  /** `t` has the open walls, the entrances and the walled-in corner of TILE_1A. */
  ghost predicate ShapedLike1A(t: Tile)
    requires t.Valid()
  {
    OpenWalls1A(t) && Entrances1A(t) && WalledCorner(t)
  }

  /** A valid tile shaped like TILE_1A reaches every cell but the corner. */
  lemma ReachAllButCorner(t: Tile)
    requires t.Valid() && ShapedLike1A(t)
    ensures forall x: GridIndex, y: GridIndex :: Reachable(t, C(x, y)) <==> !(x == 3 && y == 3)
  {
    var starts, next := ReachableCoordsStarting(t), Neighbors(t);
    NeighborsHaveOpenSteps(t);
    WalksTop(t, starts, next);
    WalksBottom(t, starts, next);
    Isolated(starts, next, C(3, 3));
  }

  /** The walls of TILE_1A that those walks go through are open. */
  lemma Walls1A()
    ensures Tile1A.Valid() && OpenWalls1A(Tile1A)
  {
    ExamplesValid();
  }

  /** No cell is an immediate neighbour of the walled-in corner (3,3). */
  lemma NothingLeadsToCorner(c: TileGridCoord)
    ensures Tile1A.Valid() && !IsImmediateNeighbor(Tile1A, c, C(3, 3))
  {
    ExamplesValid();
    var t, k := Tile1A, C(3, 3);
    assert CellWall(t, k, Left) == Blocked && CellWall(t, k, Up) == Blocked;
    forall d | CellCardinalNeighborCoords(c, d) == Some(k) ensures CellWall(t, c, d) != Open {
      SharedWall(t, c, d);
    }
    assert forall e :: e in t.escalators <==> e == t.escalators[0];
  }

  lemma CornerWalledIn()
    ensures Tile1A.Valid() && WalledCorner(Tile1A)
  {
    ExamplesValid();
    forall c ensures !IsImmediateNeighbor(Tile1A, c, C(3, 3)) {
      NothingLeadsToCorner(c);
    }
  }

  lemma Starts1A()
    ensures Tile1A.Valid() && Entrances1A(Tile1A)
  {
    StartCoords1A();
    AllEntrancesListed(ReachableCoordsStarting(Tile1A));
  }

  lemma AllEntrancesListed(r: seq<TileGridCoord>)
    requires r == PossibleEntranceCoords
    ensures C(2, 0) in r && C(0, 1) in r && C(1, 3) in r && C(3, 2) in r && C(3, 3) !in r
  {
  }

  lemma Tile1AShape()
    ensures Tile1A.Valid() && ShapedLike1A(Tile1A)
  {
    Starts1A();
    Walls1A();
    CornerWalledIn();
  }

  /** The first half of the `reachable_coords` test: every cell of TILE_1A
      but (3,3) is reachable. */
  lemma ExampleReachable1A()
    ensures Tile1A.Valid()
    ensures forall x: GridIndex, y: GridIndex :: Reachable(Tile1A, C(x, y)) <==> !(x == 3 && y == 3)
  {
    Tile1AShape();
    ReachAllButCorner(Tile1A);
  }

  // ---------------------------------------------------------------------
  // The `reachable_coords` test for TILE_2

  /** The cells of TILE_2 the test expects to be reachable. */
  const Tile2Reach: set<TileGridCoord> :=
    {C(0, 0), C(0, 1), C(3, 1), C(2, 2), C(3, 2), C(1, 3), C(2, 3), C(3, 3)}

  /** `next` holds every escalator ride of `t`. */
  ghost predicate EscalatorStepsIn(t: Tile, next: TileGridCoord -> seq<TileGridCoord>)
    requires t.Valid()
  {
    forall e, c, n :: e in t.escalators && CoordNeighbor(e, c) == Some(n) ==> n in next(c)
  }

  lemma NeighborsHaveEscalatorSteps(t: Tile)
    requires t.Valid()
    ensures EscalatorStepsIn(t, Neighbors(t))
  {
    forall e, c, n | e in t.escalators && CoordNeighbor(e, c) == Some(n) ensures n in Neighbors(t)(c) {
      assert IsImmediateNeighbor(t, c, n);
    }
  }

  /** Every walk stays inside a set that holds the starts and is closed under
      steps. */
  lemma WalksStayIn(starts: seq<TileGridCoord>, next: TileGridCoord -> seq<TileGridCoord>, s: set<TileGridCoord>)
    requires forall c :: c in starts ==> c in s
    requires forall c, n :: c in s && n in next(c) ==> n in s
    ensures forall c :: WalkReaches(starts, next, c) ==> c in s
  {
    forall c | WalkReaches(starts, next, c) ensures c in s {
      var p :| IsWalk(starts, next, p) && p[|p| - 1] == c;
      ClosedHoldsWalks(starts, next, s, p);
    }
  }

  /** The walls of TILE_2 that the walks from its entrances go through are
      open, and the escalator joins (0,1) and (1,3). */
  ghost predicate OpenWalls2(t: Tile)
    requires t.Valid()
  {
    && t.vertWalls[2][3] == Open && t.horzWalls[2][3] == Open && t.vertWalls[3][2] == Open
    && t.vertWalls[3][3] == Open && t.horzWalls[1][0] == Open
    && Make(C(0, 1), C(1, 3)) in t.escalators
  }

  /** The walks from the entrances at (1,3) and (3,2) of a tile with those
      walls and that escalator. */
  lemma Walks2(t: Tile, starts: seq<TileGridCoord>, next: TileGridCoord -> seq<TileGridCoord>)
    requires t.Valid() && OpenStepsIn(t, next) && EscalatorStepsIn(t, next) && OpenWalls2(t)
    requires C(1, 3) in starts && C(3, 2) in starts
    ensures forall c :: c in Tile2Reach ==> WalkReaches(starts, next, c)
  {
    StartReachable(starts, next, C(1, 3));
    StartReachable(starts, next, C(3, 2));
    assert Via(t, C(3, 2), C(2, 2), Left);
    StepReachable(starts, next, C(3, 2), C(2, 2));
    assert Via(t, C(3, 2), C(3, 1), Up);
    StepReachable(starts, next, C(3, 2), C(3, 1));
    assert Via(t, C(1, 3), C(2, 3), Right);
    StepReachable(starts, next, C(1, 3), C(2, 3));
    assert Via(t, C(2, 3), C(3, 3), Right);
    StepReachable(starts, next, C(2, 3), C(3, 3));
    assert CoordNeighbor(Make(C(0, 1), C(1, 3)), C(1, 3)) == Some(C(0, 1));
    StepReachable(starts, next, C(1, 3), C(0, 1));
    assert Via(t, C(0, 1), C(0, 0), Up);
    StepReachable(starts, next, C(0, 1), C(0, 0));
  }

  /** No immediate neighbour of a cell of `Tile2Reach` lies outside it. */
  ghost predicate WalledIn2(t: Tile)
    requires t.Valid()
  {
    forall c, n :: c in Tile2Reach && IsImmediateNeighbor(t, c, n) ==> n in Tile2Reach
  }

  lemma NeighborsStayIn2(t: Tile)
    requires t.Valid() && WalledIn2(t)
    ensures forall c, n :: c in Tile2Reach && n in Neighbors(t)(c) ==> n in Tile2Reach
  {
    forall c, n | c in Tile2Reach && n in Neighbors(t)(c) ensures n in Tile2Reach {
      assert IsImmediateNeighbor(t, c, n);
    }
  }

  lemma Tile2Closed00(n: TileGridCoord)
    ensures Tile2.Valid() && (IsImmediateNeighbor(Tile2, C(0, 0), n) ==> n in Tile2Reach)
  {
    ExamplesValid();
    var t, c := Tile2, C(0, 0);
    if IsImmediateNeighbor(t, c, n) {
      assert CellWall(t, c, Right) == Blocked;
      assert CellCardinalNeighborCoords(c, Left) == None;
      assert CellCardinalNeighborCoords(c, Up) == None;
      assert CellCardinalNeighborCoords(c, Down) == Some(C(0, 1));
      assert CoordNeighbor(t.escalators[0], c) == None;
      ImmediateNeighborCases(t, c, n);
      assert n == C(0, 1);
    }
  }

  lemma Tile2Closed01(n: TileGridCoord)
    ensures Tile2.Valid() && (IsImmediateNeighbor(Tile2, C(0, 1), n) ==> n in Tile2Reach)
  {
    ExamplesValid();
    var t, c := Tile2, C(0, 1);
    if IsImmediateNeighbor(t, c, n) {
      assert CellWall(t, c, Right) == Blocked;
      assert CellCardinalNeighborCoords(c, Left) == None;
      assert CellCardinalNeighborCoords(c, Up) == Some(C(0, 0));
      assert CellWall(t, c, Down) == Blocked;
      assert CoordNeighbor(t.escalators[0], c) == Some(C(1, 3));
      ImmediateNeighborCases(t, c, n);
      assert n == C(0, 0) || n == C(1, 3);
    }
  }

  lemma Tile2Closed31(n: TileGridCoord)
    ensures Tile2.Valid() && (IsImmediateNeighbor(Tile2, C(3, 1), n) ==> n in Tile2Reach)
  {
    ExamplesValid();
    var t, c := Tile2, C(3, 1);
    if IsImmediateNeighbor(t, c, n) {
      assert CellCardinalNeighborCoords(c, Right) == None;
      assert CellWall(t, c, Left) == Blocked;
      assert CellWall(t, c, Up) == Blocked;
      assert CellCardinalNeighborCoords(c, Down) == Some(C(3, 2));
      assert CoordNeighbor(t.escalators[0], c) == None;
      ImmediateNeighborCases(t, c, n);
      assert n == C(3, 2);
    }
  }

  lemma Tile2Closed22(n: TileGridCoord)
    ensures Tile2.Valid() && (IsImmediateNeighbor(Tile2, C(2, 2), n) ==> n in Tile2Reach)
  {
    ExamplesValid();
    var t, c := Tile2, C(2, 2);
    if IsImmediateNeighbor(t, c, n) {
      assert CellCardinalNeighborCoords(c, Right) == Some(C(3, 2));
      assert CellWall(t, c, Left) == Blocked;
      assert CellWall(t, c, Up) == Blocked;
      assert CellCardinalNeighborCoords(c, Down) == Some(C(2, 3));
      assert CoordNeighbor(t.escalators[0], c) == None;
      ImmediateNeighborCases(t, c, n);
      assert n == C(3, 2) || n == C(2, 3);
    }
  }

  lemma Tile2Closed32(n: TileGridCoord)
    ensures Tile2.Valid() && (IsImmediateNeighbor(Tile2, C(3, 2), n) ==> n in Tile2Reach)
  {
    ExamplesValid();
    var t, c := Tile2, C(3, 2);
    if IsImmediateNeighbor(t, c, n) {
      assert CellCardinalNeighborCoords(c, Right) == None;
      assert CellCardinalNeighborCoords(c, Left) == Some(C(2, 2));
      assert CellCardinalNeighborCoords(c, Up) == Some(C(3, 1));
      assert CellWall(t, c, Down) == Blocked;
      assert CoordNeighbor(t.escalators[0], c) == None;
      ImmediateNeighborCases(t, c, n);
      assert n == C(2, 2) || n == C(3, 1);
    }
  }

  lemma Tile2Closed13(n: TileGridCoord)
    ensures Tile2.Valid() && (IsImmediateNeighbor(Tile2, C(1, 3), n) ==> n in Tile2Reach)
  {
    ExamplesValid();
    var t, c := Tile2, C(1, 3);
    if IsImmediateNeighbor(t, c, n) {
      assert CellCardinalNeighborCoords(c, Right) == Some(C(2, 3));
      assert CellWall(t, c, Left) == Blocked;
      assert CellWall(t, c, Up) == Blocked;
      assert CellCardinalNeighborCoords(c, Down) == None;
      assert CoordNeighbor(t.escalators[0], c) == Some(C(0, 1));
      ImmediateNeighborCases(t, c, n);
      assert n == C(2, 3) || n == C(0, 1);
    }
  }

  lemma Tile2Closed23(n: TileGridCoord)
    ensures Tile2.Valid() && (IsImmediateNeighbor(Tile2, C(2, 3), n) ==> n in Tile2Reach)
  {
    ExamplesValid();
    var t, c := Tile2, C(2, 3);
    if IsImmediateNeighbor(t, c, n) {
      assert CellCardinalNeighborCoords(c, Right) == Some(C(3, 3));
      assert CellCardinalNeighborCoords(c, Left) == Some(C(1, 3));
      assert CellCardinalNeighborCoords(c, Up) == Some(C(2, 2));
      assert CellCardinalNeighborCoords(c, Down) == None;
      assert CoordNeighbor(t.escalators[0], c) == None;
      ImmediateNeighborCases(t, c, n);
      assert n == C(3, 3) || n == C(1, 3) || n == C(2, 2);
    }
  }

  lemma Tile2Closed33(n: TileGridCoord)
    ensures Tile2.Valid() && (IsImmediateNeighbor(Tile2, C(3, 3), n) ==> n in Tile2Reach)
  {
    ExamplesValid();
    var t, c := Tile2, C(3, 3);
    if IsImmediateNeighbor(t, c, n) {
      assert CellCardinalNeighborCoords(c, Right) == None;
      assert CellCardinalNeighborCoords(c, Left) == Some(C(2, 3));
      assert CellWall(t, c, Up) == Blocked;
      assert CellCardinalNeighborCoords(c, Down) == None;
      assert CoordNeighbor(t.escalators[0], c) == None;
      ImmediateNeighborCases(t, c, n);
      assert n == C(2, 3);
    }
  }

  lemma Tile2WalledIn()
    ensures Tile2.Valid() && WalledIn2(Tile2)
  {
    ExamplesValid();
    forall c, n | c in Tile2Reach && IsImmediateNeighbor(Tile2, c, n) ensures n in Tile2Reach {
      if c == C(0, 0) {
        Tile2Closed00(n);
      } else if c == C(0, 1) {
        Tile2Closed01(n);
      } else if c == C(3, 1) {
        Tile2Closed31(n);
      } else if c == C(2, 2) {
        Tile2Closed22(n);
      } else if c == C(3, 2) {
        Tile2Closed32(n);
      } else if c == C(1, 3) {
        Tile2Closed13(n);
      } else if c == C(2, 3) {
        Tile2Closed23(n);
      } else {
        Tile2Closed33(n);
      }
    }
  }

  lemma TwoEntrancesListed(r: seq<TileGridCoord>)
    requires r == [C(1, 3), C(3, 2)]
    ensures C(1, 3) in r && C(3, 2) in r && forall c :: c in r ==> c in Tile2Reach
  {
  }

  /** Every cell of `Tile2Reach` is reachable on TILE_2. */
  lemma Tile2ReachesAll()
    ensures Tile2.Valid()
    ensures forall c :: c in Tile2Reach ==> WalkReaches(ReachableCoordsStarting(Tile2), Neighbors(Tile2), c)
  {
    ExamplesValid();
    assert OpenWalls2(Tile2);
    StartCoords2();
    TwoEntrancesListed(ReachableCoordsStarting(Tile2));
    NeighborsHaveOpenSteps(Tile2);
    NeighborsHaveEscalatorSteps(Tile2);
    Walks2(Tile2, ReachableCoordsStarting(Tile2), Neighbors(Tile2));
  }

  /** TILE_2 starts inside `Tile2Reach`, and its steps do not leave it. */
  lemma Tile2StaysInside()
    ensures Tile2.Valid()
    ensures forall c :: c in ReachableCoordsStarting(Tile2) ==> c in Tile2Reach
    ensures forall c, n :: c in Tile2Reach && n in Neighbors(Tile2)(c) ==> n in Tile2Reach
  {
    StartCoords2();
    TwoEntrancesListed(ReachableCoordsStarting(Tile2));
    Tile2WalledIn();
    NeighborsStayIn2(Tile2);
  }

  /** Every walk on TILE_2 stays inside `Tile2Reach`. */
  lemma Tile2Bounded()
    ensures Tile2.Valid()
    ensures forall c :: WalkReaches(ReachableCoordsStarting(Tile2), Neighbors(Tile2), c) ==> c in Tile2Reach
  {
    Tile2StaysInside();
    WalksStayIn(ReachableCoordsStarting(Tile2), Neighbors(Tile2), Tile2Reach);
  }

  /** The second half of the `reachable_coords` test: TILE_2 reaches the
      cells of `Tile2Reach` and no others. */
  lemma ExampleReachable2()
    ensures Tile2.Valid()
    ensures forall c :: Reachable(Tile2, c) <==> c in Tile2Reach
  {
    Tile2ReachesAll();
    Tile2Bounded();
  }
}
