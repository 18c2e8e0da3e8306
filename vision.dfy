/** P1's field of view: the Chebyshev visibility test, the vision boost
    bought with skill 3 and the fog drawn over every cell P1 cannot see. */
module Visibility {
  import opened Board

  /** P1's vision radius when no boost is active. */
  const BaseVisionRadius := 1

  /** `is_cell_visible`: within `radius` in both axes. */
  function IsCellVisible(cell: Cell, center: Cell, radius: int): (r: bool)
    ensures r <==> Abs(cell.x - center.x) <= radius && Abs(cell.y - center.y) <= radius
  {
    Chebyshev(cell, center) <= radius
  }

  lemma VisibleAtCenter(c: Cell, radius: int)
    requires radius >= 0
    ensures IsCellVisible(c, c, radius)
  {
  }

  lemma VisibleSymmetric(cell: Cell, center: Cell, radius: int)
    ensures IsCellVisible(cell, center, radius) == IsCellVisible(center, cell, radius)
  {
  }

  lemma VisibleMonotone(cell: Cell, center: Cell, r1: int, r2: int)
    requires r1 <= r2 && IsCellVisible(cell, center, r1)
    ensures IsCellVisible(cell, center, r2)
  {
  }

  /** The `vision_boost` record: turns left and the radius it grants. */
  datatype Boost = Boost(remaining: int, radius: int)

  /** What happens to the boost each time control returns to P1:
      one turn less, and gone once nothing is left. */
  function DecayBoost(b: Option<Boost>): (r: Option<Boost>)
    ensures r.Some? <==> b.Some? && b.value.remaining >= 2
    ensures r.Some? ==> r.value == Boost(b.value.remaining - 1, b.value.radius)
  {
    match b
    case None => None
    case Some(boost) =>
      var left := boost.remaining - 1;
      if left <= 0 then None else Some(boost.(remaining := left))
  }

  /** The boost after `k` returns of control to P1. */
  function DecayTimes(b: Option<Boost>, k: nat): Option<Boost>
    decreases k
  {
    if k == 0 then b else DecayTimes(DecayBoost(b), k - 1)
  }

  lemma {:induction false} DecayTimesNone(k: nat)
    ensures DecayTimes(None, k) == None
  {
    if k > 0 {
      DecayTimesNone(k - 1);
    }
  }

  /** A boost bought with n mana survives exactly n - 1 returns of control
      to P1, with its radius intact, and is gone after the n-th. */
  lemma {:induction false} BoostLastsRemainingCycles(n: int, radius: int, k: nat)
    requires n >= 1
    ensures DecayTimes(Some(Boost(n, radius)), k) ==
            if k < n then Some(Boost(n - k, radius)) else None
  {
    if k > 0 {
      if n == 1 {
        DecayTimesNone(k - 1);
      } else {
        BoostLastsRemainingCycles(n - 1, radius, k - 1);
      }
    }
  }

  /** The radius `draw_mist` uses for P1. */
  function VisionRadius(boost: Option<Boost>): int
  {
    if boost.Some? then boost.value.radius else BaseVisionRadius
  }

  /** The fog rule of `draw_mist`: a cell is covered unless it is the
      scouted cell or P1 can see it. */
  function Fogged(cell: Cell, viewer: Cell, boost: Option<Boost>, recon: Option<Cell>): (r: bool)
    ensures r <==> recon != Some(cell) &&
                   (Abs(cell.x - viewer.x) > VisionRadius(boost) || Abs(cell.y - viewer.y) > VisionRadius(boost))
  {
    if recon.Some? && cell == recon.value then false
    else !IsCellVisible(cell, viewer, VisionRadius(boost))
  }

  /** P1's own cell is never fogged while the radius is not negative. */
  lemma OwnCellNeverFogged(viewer: Cell, boost: Option<Boost>, recon: Option<Cell>)
    requires VisionRadius(boost) >= 0
    ensures !Fogged(viewer, viewer, boost, recon)
  {
  }

  /** A larger radius never adds fog. */
  lemma FogShrinksWithRadius(cell: Cell, viewer: Cell, b1: Option<Boost>, b2: Option<Boost>, recon: Option<Cell>)
    requires VisionRadius(b1) <= VisionRadius(b2)
    ensures Fogged(cell, viewer, b2, recon) ==> Fogged(cell, viewer, b1, recon)
  {
  }

  /** Row-major drawing order of `draw_mist`. */
  predicate DrawnBefore(a: Cell, b: Cell)
  {
    a.y < b.y || (a.y == b.y && a.x < b.x)
  }

  /** The loop of `draw_mist`: the cells a mist tile is drawn on, in the
      order they are drawn. */
  method MistCells(viewer: Cell, boost: Option<Boost>, recon: Option<Cell>) returns (cells: seq<Cell>)
    ensures forall c :: c in cells <==> InBounds(c) && Fogged(c, viewer, boost, recon)
    ensures forall i, j :: 0 <= i < j < |cells| ==> DrawnBefore(cells[i], cells[j])
  {
    var radius := VisionRadius(boost);
    cells := [];
    var y := 0;
    while y < MapHeight
      invariant 0 <= y <= MapHeight
      invariant forall c :: c in cells <==> InBounds(c) && c.y < y && Fogged(c, viewer, boost, recon)
      invariant forall i, j :: 0 <= i < j < |cells| ==> DrawnBefore(cells[i], cells[j])
      invariant forall k :: 0 <= k < |cells| ==> cells[k].y < y
    {
      var x := 0;
      while x < MapWidth
        invariant 0 <= x <= MapWidth
        invariant forall c :: c in cells <==>
          InBounds(c) && (c.y < y || (c.y == y && c.x < x)) && Fogged(c, viewer, boost, recon)
        invariant forall i, j :: 0 <= i < j < |cells| ==> DrawnBefore(cells[i], cells[j])
        invariant forall k :: 0 <= k < |cells| ==> DrawnBefore(cells[k], Cell(x, y))
      {
        var cell := Cell(x, y);
        if recon.Some? && cell == recon.value {
          // the scouted cell is skipped
        } else if !IsCellVisible(cell, viewer, radius) {
          cells := cells + [cell];
        }
        x := x + 1;
      }
      y := y + 1;
    }
  }
}
