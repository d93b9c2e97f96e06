/**
  The fixed maze, the five movement directions, grid cells and the
  pixel/tile geometry shared by the player and the ghosts.

  Tiles are TileSize pixels wide; an agent's pixel position is a real
  number and its grid cell is the banker's rounding of pixel / TileSize,
  as Python's round() gives it.
 */
module Grid {

  datatype Option<T> = None | Some(value: T)

  const TileSize: int := 24
  /** ROWS of the game window. The maze itself has only |Map| == 18 rows;
      ROWS is used for the ghosts' scatter corners and random targets. */
  const Rows: int := 21
  const Cols: int := 20
  const Fps: int := 60

  /** One character per cell: '1' wall, '0' pellet, 'E' energizer,
      'P' portal, 'H' ghost pen. */
  const Map: seq<string> := [
    "11111111111111111111",
    "100000000011000000E1",
    "10111011101101110101",
    "10000000000000000001",
    "10111110111110111101",
    "10000010000E10000001",
    "11110111101111011111",
    "P000010000000000000P",
    "11110101111110101111",
    "10000000001000000001",
    "10111111101111111101",
    "10000000000000000001",
    "10111110111110110101",
    "10000E100000000000E1",
    "11111111111HH1111111",
    "111111111HHHHHH11111",
    "111111111HHHHHH11111",
    "11111111111111111111"
  ]

  datatype Dir = Stop | Right | Left | Down | Up

  function DX(d: Dir): int
  {
    match d
    case Right => 1
    case Left => -1
    case _ => 0
  }

  function DY(d: Dir): int
  {
    match d
    case Down => 1
    case Up => -1
    case _ => 0
  }

  /** The negated vector; the zero vector is its own negation. */
  function Opposite(d: Dir): (r: Dir)
    ensures DX(r) == -DX(d) && DY(r) == -DY(d)
  {
    match d
    case Stop => Stop
    case Right => Left
    case Left => Right
    case Down => Up
    case Up => Down
  }

  datatype Cell = Cell(x: int, y: int)

  function Step(c: Cell, d: Dir): Cell
  {
    Cell(c.x + DX(d), c.y + DY(d))
  }

  /** Bounds as the source tests them: rows from len(MAP), columns from len(MAP[0]). */
  predicate InMap(c: Cell)
  {
    0 <= c.y < |Map| && 0 <= c.x < |Map[0]|
  }

  function TileAt(c: Cell): char
    requires InMap(c)
  {
    MapIsRectangular(c.y);
    Map[c.y][c.x]
  }

  /** The walkability test of Player.can_move. */
  predicate CanMove(c: Cell, d: Dir)
  {
    d != Stop && InMap(Step(c, d)) && TileAt(Step(c, d)) != '1'
  }

  function SqDist(a: Cell, b: Cell): int
  {
    (a.x - b.x) * (a.x - b.x) + (a.y - b.y) * (a.y - b.y)
  }

  function Abs(r: real): real
  {
    if r < 0.0 then -r else r
  }

  /** Python's round(): to the nearest integer, ties to the even one. */
  function RoundHalfEven(q: real): (r: int)
    ensures q - 0.5 <= r as real <= q + 0.5
    ensures (r as real == q - 0.5 || r as real == q + 0.5) ==> r % 2 == 0
  {
    var f := q.Floor;
    var frac := q - f as real;
    if frac < 0.5 then f
    else if frac > 0.5 then f + 1
    else if f % 2 == 0 then f
    else f + 1
  }

  /** The grid coordinate round(pix / TILE_SIZE). The tile size is written
      out as a literal here and in PixelOf, which keeps the arithmetic linear. */
  function TileOf(pix: real): int
  {
    RoundHalfEven(pix / 24.0)
  }

  function PixelOf(k: int): real
  {
    (k * 24) as real
  }

  /** The 2-pixel centring test shared by Player.update, Ghost.at_decision_point
      and Ghost.handle_portals. */
  predicate AtCentre(pixX: real, pixY: real, c: Cell)
  {
    Abs(pixX - PixelOf(c.x)) < 2.0 && Abs(pixY - PixelOf(c.y)) < 2.0
  }

  // ---------------------------------------------------------------
  // Lemmas about the maze and the movement rule
  // ---------------------------------------------------------------

  /** Every row is as wide as the first, so len(MAP[0]) bounds every row. */
  lemma MapIsRectangular(y: int)
    requires 0 <= y < |Map|
    ensures |Map[y]| == |Map[0]| == Cols
  {
  }

  /** A pixel position that is a whole number of tiles lies on its own tile. */
  lemma TileOfPixel(k: int)
    ensures TileOf(PixelOf(k)) == k
    ensures AtCentre(PixelOf(k), PixelOf(k), Cell(k, k))
  {
  }

  /** Any legal move can be undone: stepping back from the target cell lands
      on the open cell the move started from. */
  lemma CanMoveReversible(c: Cell, d: Dir)
    requires InMap(c) && TileAt(c) != '1'
    requires CanMove(c, d)
    ensures CanMove(Step(c, d), Opposite(d))
  {
  }

  /** The only portal cells of the maze are the two ends of row 7. */
  lemma PortalCells(c: Cell)
    requires InMap(c) && TileAt(c) == 'P'
    ensures c == Cell(0, 7) || c == Cell(Cols - 1, 7)
  {
    var row := Map[c.y];
    assert row[c.x] == 'P';
    assert 'P' in row && row in Map;
    if c.y == 7 {
      assert row == "P000010000000000000P";
    } else {
      assert false;
    }
  }

  /** The two portal cells are dead ends for the walkability rule: the outward
      move leaves the map, so the portal code has to move the agent instead. */
  lemma PortalsBlockOutwardMoves(y: int)
    requires 0 <= y < |Map|
    ensures InMap(Cell(0, y)) && InMap(Cell(Cols - 1, y))
    ensures !CanMove(Cell(0, y), Left) && !CanMove(Cell(Cols - 1, y), Right)
  {
  }
}
