/** The pure decisions behind P1's clicks: which clicks are basic attacks,
    which moves and builds are accepted, what the three placement
    indicators show, the mana-input buttons and the enemy patrol step. */
module Rules {
  import opened Board

  /** Screen cells of the skill bar that are not skill slots. */
  const ScoutButton := Cell(0, 9)
  const BuildButton := Cell(0, 10)
  const ManaDownButton := Cell(9, 9)
  const ManaUpButton := Cell(11, 9)

  /** Largest value the mana-input box can show. */
  const ManaInputCap := 99

  /** The attack stat of P1, the number of shots in a basic attack. */
  const P1Attack := 1

  /** A left click on a wall, or on the other unit's cell, that is a king
      move away from P1 (the zero-length aim on P1's own cell excluded). */
  predicate IsAttackTarget(t: Cell, p1: Cell, p2: Cell, walls: seq<Cell>)
  {
    (t in walls || (t == p2 && t != p1)) && Chebyshev(t, p1) <= MovementRadius && t != p1
  }

  /** A basic-attack target is always one of P1's eight neighbours. */
  lemma AttackTargetIsNeighbour(t: Cell, p1: Cell, p2: Cell, walls: seq<Cell>)
    requires IsAttackTarget(t, p1, p2, walls)
    ensures Chebyshev(t, p1) == 1
  {
  }

  /** The guard chain of the move branch of `handle_input`. */
  predicate MoveAccepted(t: Cell, p1: Cell, p2: Cell, walls: seq<Cell>)
  {
    InBounds(t) && t !in walls && !(t == p2 && t != p1) &&
    Chebyshev(t, p1) <= MovementRadius && t != p1
  }

  /** A step along a row or a column, which refunds one mana. */
  predicate Orthogonal(a: Cell, b: Cell)
  {
    a.x == b.x || a.y == b.y
  }

  datatype Color = White | Red | Black

  /** `draw_movement_indicator`: black outside the map or out of reach,
      red on a wall or the other unit, white otherwise. */
  function MovementIndicator(t: Cell, p1: Cell, p2: Cell, walls: seq<Cell>): Color
  {
    if !InBounds(t) then Black
    else if Chebyshev(t, p1) > MovementRadius || t == p1 then Black
    else if t in walls || (t == p2 && t != p1) then Red
    else White
  }

  /** The movement indicator is white exactly on the cells a move click
      accepts. */
  lemma MovementIndicatorWhiteIffAccepted(t: Cell, p1: Cell, p2: Cell, walls: seq<Cell>)
    ensures MovementIndicator(t, p1, p2, walls) == White <==> MoveAccepted(t, p1, p2, walls)
  {
  }

  /** A cell the movement indicator paints red is never reached by the move
      branch: a click on it is taken as a basic attack first. */
  lemma RedMoveCellIsAttack(t: Cell, p1: Cell, p2: Cell, walls: seq<Cell>)
    ensures MovementIndicator(t, p1, p2, walls) == Red <==>
            InBounds(t) && IsAttackTarget(t, p1, p2, walls)
  {
  }

  /** The guard chain of the build branch that leads to a new wall. */
  predicate BuildAccepted(t: Cell, p1: Cell, p2: Cell, walls: seq<Cell>, input: int, mana: int)
  {
    InBounds(t) && t !in walls && t != p1 && t != p2 &&
    Chebyshev(t, p1) <= input && mana >= input
  }

  /** `draw_build_indicator`: white when the input is positive, the cell is
      within that many steps but not P1's own, on the map and not a wall. */
  predicate BuildIndicatorValid(t: Cell, p1: Cell, walls: seq<Cell>, input: int)
  {
    !(input <= 0 || Chebyshev(t, p1) > input || t == p1) && InBounds(t) && t !in walls
  }

  /** A build succeeds exactly on a white indicator cell that is not P2's
      and when mana covers the input: the indicator does not test P2. */
  lemma BuildAcceptedIffIndicator(t: Cell, p1: Cell, p2: Cell, walls: seq<Cell>, input: int, mana: int)
    ensures BuildAccepted(t, p1, p2, walls, input, mana) <==>
            BuildIndicatorValid(t, p1, walls, input) && t != p2 && mana >= input
  {
  }

  /** A wall the build branch creates has at least one point of health. */
  lemma BuiltWallHasHealth(t: Cell, p1: Cell, p2: Cell, walls: seq<Cell>, input: int, mana: int)
    requires BuildAccepted(t, p1, p2, walls, input, mana)
    ensures input >= 1 && mana - input >= 0
  {
  }

  /** `draw_teleport_indicator`: within `input` steps, not P1's own cell,
      on the map and not a wall. */
  predicate TeleportIndicatorValid(t: Cell, p1: Cell, walls: seq<Cell>, input: int)
  {
    !(Chebyshev(t, p1) > input || t == p1) && InBounds(t) && t !in walls
  }

  /** The only test of the teleport branch: a positive input that mana covers. */
  predicate TeleportAccepted(input: int, mana: int)
  {
    input > 0 && mana >= input
  }

  /** The skill slot under a cell of the skill bar, if any. */
  function SkillSlotAt(t: Cell): (slot: Option<int>)
    ensures slot.Some? ==> 1 <= slot.value <= 4 && t.y == 9 && t.x == 2 * slot.value
    ensures slot.None? ==> t !in {Cell(2, 9), Cell(4, 9), Cell(6, 9), Cell(8, 9)}
  {
    if t == Cell(2, 9) then Some(1)
    else if t == Cell(4, 9) then Some(2)
    else if t == Cell(6, 9) then Some(3)
    else if t == Cell(8, 9) then Some(4)
    else None
  }

  /** The "decrease mana" button: one less, never below zero. */
  function DecreasedInput(input: int): (r: int)
    ensures r >= 0
    ensures input >= 1 ==> r == input - 1
    ensures input <= 1 ==> r == 0
  {
    if input - 1 > 0 then input - 1 else 0
  }

  /** The "increase mana" button: one more, capped by current mana and 99. */
  function IncreasedInput(input: int, mana: int): (r: int)
    ensures r <= ManaInputCap && r <= mana && r <= input + 1
    ensures r == input + 1 || r == mana || r == ManaInputCap
    ensures input >= 0 && mana >= 0 ==> r >= 0
  {
    var cap := if mana < ManaInputCap then mana else ManaInputCap;
    if cap < input + 1 then cap else input + 1
  }

  /** The counter stays within [0, 99] under both buttons, whatever the mana. */
  lemma ManaInputStaysInRange(input: int, mana: int)
    requires 0 <= input <= ManaInputCap && mana >= 0
    ensures 0 <= DecreasedInput(input) <= ManaInputCap
    ensures 0 <= IncreasedInput(input, mana) <= ManaInputCap
  {
  }

  /** One step of the enemy patrol: the row after the move and the
      direction kept for next time. */
  function PatrolStep(y: int, direction: int): (r: (int, int))
    ensures r.0 == y + r.1
    ensures r.1 == direction || r.1 == -direction
    ensures direction != 0 ==> (r.1 == -direction <==> (y + direction < 0 || y + direction >= MapHeight))
    ensures 0 <= y < MapHeight && (direction == 1 || direction == -1) ==>
              0 <= r.0 < MapHeight && (r.1 == 1 || r.1 == -1)
  {
    var d := if y + direction < 0 || y + direction >= MapHeight then -direction else direction;
    (y + d, d)
  }
}
