/** The playing field: a 12 x 9 grid of cells, the two player slots and
    the distance every range check of the game is written in. */
module Board {

  /** Map size in cells and the pixel size of one cell. */
  const MapWidth := 12
  const MapHeight := 9
  const GridSize := 64

  /** How far a unit may step, and how far a basic attack reaches. */
  const MovementRadius := 1

  datatype Option<T> = None | Some(value: T)

  /** P1 is the manual player, P2 the automated patrol. */
  datatype Player = P1 | P2

  datatype Cell = Cell(x: int, y: int)

  function Opponent(p: Player): (q: Player)
    ensures q != p
  {
    if p == P1 then P2 else P1
  }

  function Abs(n: int): (r: nat)
    ensures r == n || r == -n
  {
    if n < 0 then -n else n
  }

  /** Chebyshev distance max(|dx|, |dy|). */
  function Chebyshev(a: Cell, b: Cell): (d: nat)
    ensures Abs(a.x - b.x) <= d && Abs(a.y - b.y) <= d
    ensures d == Abs(a.x - b.x) || d == Abs(a.y - b.y)
    ensures d == 0 <==> a == b
  {
    var dx := Abs(a.x - b.x);
    var dy := Abs(a.y - b.y);
    if dx >= dy then dx else dy
  }

  lemma ChebyshevSymmetric(a: Cell, b: Cell)
    ensures Chebyshev(a, b) == Chebyshev(b, a)
  {
  }

  predicate InBounds(c: Cell)
  {
    0 <= c.x < MapWidth && 0 <= c.y < MapHeight
  }

  /** The cell under a mouse position: floor division by the cell size. */
  function CellAt(px: int, py: int): (c: Cell)
    ensures c.x * GridSize <= px < c.x * GridSize + GridSize
    ensures c.y * GridSize <= py < c.y * GridSize + GridSize
  {
    Cell(px / GridSize, py / GridSize)
  }

  /** The pixel at the centre of a cell, where shots start. */
  function CenterPixel(c: Cell): (int, int)
  {
    (c.x * GridSize + GridSize / 2, c.y * GridSize + GridSize / 2)
  }

  /** A click on the centre pixel of a unit lands in that unit's cell, so a
      zero-length aim can only come from a click on the unit's own cell. */
  lemma CenterPixelInCell(c: Cell)
    ensures CellAt(CenterPixel(c).0, CenterPixel(c).1) == c
  {
    var p := CenterPixel(c);
    var d := CellAt(p.0, p.1);
    assert d.x == c.x by {
      assert d.x * GridSize <= c.x * GridSize + 32 < d.x * GridSize + GridSize;
    }
    assert d.y == c.y by {
      assert d.y * GridSize <= c.y * GridSize + 32 < d.y * GridSize + GridSize;
    }
  }
}
