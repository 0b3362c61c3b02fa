/** Cardinal directions on the tile grid and the two quarter-turn spins
    (core/src/tile/direction.rs). */
module Direction {

  /** `CartesianDirection`; `y` grows downward, so `Up` steps to `y - 1`. */
  datatype CartesianDirection = Right | Up | Left | Down

  datatype SpinDirection = Clockwise | CounterClockwise

  /** `ALL_DIRECTIONS`, in declaration order. */
  const AllDirections: seq<CartesianDirection> := [Right, Up, Left, Down]

  /** What to add to a point to get the neighbour in direction `d`. */
  function NeighborTransform(d: CartesianDirection): (r: (int, int))
    ensures -1 <= r.0 <= 1 && -1 <= r.1 <= 1
    ensures (r.0 == 0) != (r.1 == 0)
    ensures r.0 == 1 <==> d == Right
    ensures r.0 == -1 <==> d == Left
    ensures r.1 == -1 <==> d == Up
    ensures r.1 == 1 <==> d == Down
  {
    match d
    case Right => (1, 0)
    case Up => (0, -1)
    case Left => (-1, 0)
    case Down => (0, 1)
  }

  function Opposite(d: CartesianDirection): CartesianDirection {
    match d
    case Right => Left
    case Up => Down
    case Left => Right
    case Down => Up
  }

  /** The direction `d` points to after the tile turns a quarter in `spin`. */
  function RotatedDirection(d: CartesianDirection, spin: SpinDirection): CartesianDirection {
    match spin
    case Clockwise => (match d case Up => Right case Right => Down case Down => Left case Left => Up)
    case CounterClockwise => (match d case Up => Left case Left => Down case Down => Right case Right => Up)
  }

  /** `ALL_DIRECTIONS` lists every direction exactly once. */
  lemma AllDirectionsComplete(d: CartesianDirection)
    ensures |AllDirections| == 4
    ensures d in AllDirections
    ensures forall i, j :: 0 <= i < j < |AllDirections| ==> AllDirections[i] != AllDirections[j]
  {
  }

  /** Opposite directions step back to the starting point. */
  lemma OppositeTransformsCancel(d: CartesianDirection)
    ensures Opposite(d) != d && Opposite(Opposite(d)) == d
    ensures NeighborTransform(d).0 + NeighborTransform(Opposite(d)).0 == 0
    ensures NeighborTransform(d).1 + NeighborTransform(Opposite(d)).1 == 0
  {
  }
}
