/** Which board actions each player holds, by player count (core/src/role.rs). */
module Role {
  import opened Wrappers
  import opened Direction

  type U8 = i: int | 0 <= i < 256

  /** `BoardAction` (core/src/action.rs). */
  datatype BoardAction = Escalator | Explore | Slide(dir: CartesianDirection) | Warp

  /** `ALLOWED_ACTIONS`, indexed by the number of players. */
  const AllowedActions: seq<seq<seq<BoardAction>>> := [
    [],
    [
      [Escalator, Explore, Slide(Down), Slide(Left)],
      [Warp, Slide(Up), Slide(Right)]
    ]
  ]

  /** `game_roles`: no roles for zero players, otherwise the table entry if any. */
  function GameRoles(numPlayers: U8): (r: Option<seq<seq<BoardAction>>>)
    ensures r.Some? <==> 0 < numPlayers < |AllowedActions|
    ensures r.Some? ==> r.value == AllowedActions[numPlayers]
  {
    if numPlayers == 0 then None
    else if numPlayers < |AllowedActions| then Some(AllowedActions[numPlayers])
    else None
  }

  /** How many times action `a` occurs in the role list. */
  function Occurrences(roles: seq<seq<BoardAction>>, a: BoardAction): nat {
    if roles == [] then 0
    else multiset(roles[0])[a] + Occurrences(roles[1..], a)
  }

  /** The solo game splits the actions into two roles, and every action is held
      exactly once: each of the four slide directions, the escalator, explore
      and warp. */
  lemma SoloRoles(a: BoardAction)
    ensures GameRoles(1).Some? && |GameRoles(1).value| == 2
    ensures GameRoles(0).None? && GameRoles(2).None?
    ensures Occurrences(GameRoles(1).value, a) == 1
  {
    var roles := AllowedActions[1];
    assert roles[1..][1..] == [];
    assert Occurrences(roles[1..][1..], a) == 0;
    assert Occurrences(roles[1..], a) == multiset(roles[1])[a];
    assert Occurrences(roles, a) == multiset(roles[0])[a] + multiset(roles[1])[a];
    match a
    case Slide(d) => assert d == Up || d == Down || d == Left || d == Right;
    case _ =>
  }
}
