/** Reachability of the cells of a tile from its entrances
    (`reachable_coords` in core/src/tile/mod.rs). */
module TileReach {
  import opened Wrappers
  import opened GridCoord
  import opened Tile

  /** A walk through a graph given by its start cells and its successor
      lists: it begins at a start and each step goes to a listed successor. */
  ghost predicate IsWalk(starts: seq<TileGridCoord>, next: TileGridCoord -> seq<TileGridCoord>, p: seq<TileGridCoord>) {
    && |p| > 0
    && p[0] in starts
    && forall i :: 0 <= i < |p| - 1 ==> p[i + 1] in next(p[i])
  }

  ghost predicate WalkReaches(starts: seq<TileGridCoord>, next: TileGridCoord -> seq<TileGridCoord>, c: TileGridCoord) {
    exists p :: IsWalk(starts, next, p) && p[|p| - 1] == c
  }

  /** The successor lists of a tile: `cell_immediate_neighbor_coords`. */
  function Neighbors(t: Tile): (next: TileGridCoord -> seq<TileGridCoord>)
    requires t.Valid()
    ensures forall c, n :: n in next(c) <==> IsImmediateNeighbor(t, c, n)
  {
    c => CellImmediateNeighborCoords(t, c)
  }

  /** Some walk from a usable entrance through immediate neighbours ends at `c`. */
  ghost predicate Reachable(t: Tile, c: TileGridCoord)
    requires t.Valid()
  {
    WalkReaches(ReachableCoordsStarting(t), Neighbors(t), c)
  }

  lemma StartReachable(starts: seq<TileGridCoord>, next: TileGridCoord -> seq<TileGridCoord>, c: TileGridCoord)
    requires c in starts
    ensures WalkReaches(starts, next, c)
  {
    assert IsWalk(starts, next, [c]);
  }

  lemma StepReachable(starts: seq<TileGridCoord>, next: TileGridCoord -> seq<TileGridCoord>, c: TileGridCoord, n: TileGridCoord)
    requires WalkReaches(starts, next, c)
    requires n in next(c)
    ensures WalkReaches(starts, next, n)
  {
    var p :| IsWalk(starts, next, p) && p[|p| - 1] == c;
    var q := p + [n];
    forall i | 0 <= i < |q| - 1 ensures q[i + 1] in next(q[i]) {
      if i < |p| - 1 {
        assert q[i] == p[i] && q[i + 1] == p[i + 1];
      } else {
        assert q[i] == c && q[i + 1] == n;
      }
    }
    assert IsWalk(starts, next, q);
  }

  /** A set that holds every start and every successor of its members holds
      every cell a walk reaches. */
  lemma {:induction false} ClosedHoldsWalks(starts: seq<TileGridCoord>, next: TileGridCoord -> seq<TileGridCoord>,
                                           s: set<TileGridCoord>, p: seq<TileGridCoord>)
    requires forall c :: c in starts ==> c in s
    requires forall c, n :: c in s && n in next(c) ==> n in s
    requires IsWalk(starts, next, p)
    ensures p[|p| - 1] in s
  {
    if |p| > 1 {
      var q := p[..|p| - 1];
      forall i | 0 <= i < |q| - 1 ensures q[i + 1] in next(q[i]) {
        assert q[i] == p[i] && q[i + 1] == p[i + 1];
      }
      assert IsWalk(starts, next, q);
      ClosedHoldsWalks(starts, next, s, q);
      assert p[|p| - 1] in next(p[|p| - 2]);
    }
  }

  /** The sixteen coordinates as a finite set, to bound the worklist. */
  function CoordSet(): (s: set<TileGridCoord>)
    ensures forall c: TileGridCoord :: c in s
  {
    var s := set k | 0 <= k < 16 :: CoordOfRank(k);
    forall c: TileGridCoord ensures c in s {
      assert c == CoordOfRank(Rank(c));
    }
    s
  }

  /** The inner loop of `reachable_coords`: appends, in order, each neighbour
      that is neither visited nor already waiting. */
  method PushUnseen(explore: seq<TileGridCoord>, visited: set<TileGridCoord>, neighbors: seq<TileGridCoord>)
    returns (explore': seq<TileGridCoord>)
    requires forall i, j :: 0 <= i < j < |explore| ==> explore[i] != explore[j]
    ensures |explore| <= |explore'| && explore'[..|explore|] == explore
    ensures forall c :: c in explore' <==> c in explore || (c in neighbors && c !in visited)
    ensures forall i, j :: 0 <= i < j < |explore'| ==> explore'[i] != explore'[j]
  {
    explore' := explore;
    for i := 0 to |neighbors|
      invariant |explore| <= |explore'| && explore'[..|explore|] == explore
      invariant forall c :: c in explore' <==> c in explore || (c in neighbors[..i] && c !in visited)
      invariant forall i, j :: 0 <= i < j < |explore'| ==> explore'[i] != explore'[j]
    {
      var neighbor := neighbors[i];
      assert neighbors[..i + 1] == neighbors[..i] + [neighbor];
      if !(neighbor in visited || neighbor in explore') {
        explore' := explore' + [neighbor];
      }
    }
    assert neighbors[..|neighbors|] == neighbors;
  }

  /** `is_reachable_coord[y][x] = true`. */
  function Mark(g: seq<seq<bool>>, c: TileGridCoord): (g': seq<seq<bool>>)
    requires IsGrid(g, GridWidth, GridWidth)
    ensures IsGrid(g', GridWidth, GridWidth)
    ensures forall x: GridIndex, y: GridIndex :: g'[y][x] == (g[y][x] || TileGridCoord(x, y) == c)
  {
    g[c.y := g[c.y][c.x := true]]
  }

  /** What the worklist loop keeps: the waiting list has no repeats and
      nothing visited; every start has been seen; everything seen is
      reachable; and every successor of a visited cell has been seen. */
  ghost predicate WorklistInvariant(starts: seq<TileGridCoord>, next: TileGridCoord -> seq<TileGridCoord>,
                                    explore: seq<TileGridCoord>, visited: set<TileGridCoord>)
  {
    && (forall i, j :: 0 <= i < j < |explore| ==> explore[i] != explore[j])
    && (forall c :: c in explore ==> c !in visited)
    && (forall c :: c in starts ==> c in visited || c in explore)
    && (forall c :: c in visited || c in explore ==> WalkReaches(starts, next, c))
    && (forall c, n :: c in visited && n in next(c) ==> n in visited || n in explore)
  }

  /** One round of the loop keeps the invariant and visits a new cell. */
  lemma WorklistStep(starts: seq<TileGridCoord>, next: TileGridCoord -> seq<TileGridCoord>,
                     explore: seq<TileGridCoord>, visited: set<TileGridCoord>, explore': seq<TileGridCoord>)
    requires WorklistInvariant(starts, next, explore, visited) && |explore| > 0
    requires var waiting := explore[..|explore| - 1];
      var coord := explore[|explore| - 1];
      && |waiting| <= |explore'| && explore'[..|waiting|] == waiting
      && (forall c :: c in explore' <==> c in waiting || (c in next(coord) && c !in visited + {coord}))
      && (forall i, j :: 0 <= i < j < |explore'| ==> explore'[i] != explore'[j])
    ensures explore[|explore| - 1] !in visited
    ensures WorklistInvariant(starts, next, explore', visited + {explore[|explore| - 1]})
  {
    var coord := explore[|explore| - 1];
    var waiting := explore[..|explore| - 1];
    assert forall c :: c in explore <==> c in waiting || c == coord;
    assert coord !in waiting by {
      forall k | 0 <= k < |waiting| ensures waiting[k] != coord {
        assert waiting[k] == explore[k];
      }
    }
    forall n | n in next(coord) ensures WalkReaches(starts, next, n) {
      StepReachable(starts, next, coord, n);
    }
  }

  /** The loop of `reachable_coords`, over any start list and successor
      lists: a depth-first worklist. Each popped coordinate is marked visited
      and reachable, and each of its successors that is neither visited nor
      already waiting is pushed. The marked cells are exactly those a walk
      reaches. */
  method MarkReachable(starts: seq<TileGridCoord>, next: TileGridCoord -> seq<TileGridCoord>)
    returns (isReachable: seq<seq<bool>>)
    requires forall i, j :: 0 <= i < j < |starts| ==> starts[i] != starts[j]
    ensures IsGrid(isReachable, GridWidth, GridWidth)
    ensures forall x: GridIndex, y: GridIndex ::
      isReachable[y][x] <==> WalkReaches(starts, next, TileGridCoord(x, y))
  {
    var explore := starts;
    var visited: set<TileGridCoord> := {};
    isReachable := Filled(4, 4, false);
    forall c | c in explore ensures WalkReaches(starts, next, c) {
      StartReachable(starts, next, c);
    }
    while |explore| > 0
      invariant IsGrid(isReachable, 4, 4)
      invariant forall x: GridIndex, y: GridIndex ::
        isReachable[y][x] <==> TileGridCoord(x, y) in visited
      invariant WorklistInvariant(starts, next, explore, visited)
      decreases CoordSet() - visited
    {
      var coord := explore[|explore| - 1];
      var waiting := explore[..|explore| - 1];
      var explore' := PushUnseen(waiting, visited + {coord}, next(coord));
      WorklistStep(starts, next, explore, visited, explore');
      visited := visited + {coord};
      isReachable := Mark(isReachable, coord);
      explore := explore';
    }
    assert explore == [];
    WorklistDone(starts, next, visited);
  }

  /** Once nothing waits, the visited cells are exactly the reachable ones. */
  lemma WorklistDone(starts: seq<TileGridCoord>, next: TileGridCoord -> seq<TileGridCoord>, visited: set<TileGridCoord>)
    requires WorklistInvariant(starts, next, [], visited)
    ensures forall c :: c in visited <==> WalkReaches(starts, next, c)
  {
    forall c | WalkReaches(starts, next, c) ensures c in visited {
      var p :| IsWalk(starts, next, p) && p[|p| - 1] == c;
      ClosedHoldsWalks(starts, next, visited, p);
    }
  }

  /** `reachable_coords`: the cells a walk from a usable entrance through
      immediate neighbours reaches. */
  method ReachableCoords(t: Tile) returns (isReachable: seq<seq<bool>>)
    requires t.Valid()
    ensures IsGrid(isReachable, GridWidth, GridWidth)
    ensures forall x: GridIndex, y: GridIndex ::
      isReachable[y][x] <==> Reachable(t, TileGridCoord(x, y))
  {
    var starts := ReachableCoordsStarting(t);
    AscendingDistinct(starts);
    isReachable := MarkReachable(starts, Neighbors(t));
  }

  lemma AscendingDistinct(s: seq<TileGridCoord>)
    requires StrictlyAscending(s)
    ensures forall i, j :: 0 <= i < j < |s| ==> s[i] != s[j]
  {
    forall i, j | 0 <= i < j < |s| ensures s[i] != s[j] {
      LessIsRankOrder(s[i], s[j]);
    }
  }
}
