/**
  Level setup and pickup geometry: one coin per '0' cell and one bonus per
  'B' or 'E' cell, in row-major order, and the rectangle and distance
  tests the main loop uses for contacts and pickups.
 */
module Level {
  import opened Grid

  /** A bonus: its cell (its centre is half a tile inside), whether it is an
      energizer, and whether it is still on the board. */
  datatype Bonus = Bonus(cell: Cell, energizer: bool, active: bool)

  /** A pygame.Rect: left, top, width, height. */
  datatype Rect = Rect(left: real, top: real, width: real, height: real)

  const CoinPoints: int := 10
  const GhostPoints: int := 200
  const EnergizerPoints: int := 100
  const BonusPoints: int := 50

  /** The points a bonus is worth when taken. */
  function BonusValue(b: Bonus): int
  {
    if b.energizer then EnergizerPoints else BonusPoints
  }

  // ---------------------------------------------------------------
  // Setup
  // ---------------------------------------------------------------

  /** The coin cells among the first n columns of row y of a maze, left to right. */
  function RowCoins(rows: seq<string>, y: int, n: int): seq<Cell>
    requires 0 <= y < |rows| && 0 <= n <= |rows[y]|
    decreases n
  {
    if n == 0 then []
    else RowCoins(rows, y, n - 1) + (if rows[y][n - 1] == '0' then [Cell(n - 1, y)] else [])
  }

  /** The coin cells of the first m rows, row by row. */
  function CoinsOfRows(rows: seq<string>, m: int): seq<Cell>
    requires 0 <= m <= |rows|
    decreases m
  {
    if m == 0 then [] else CoinsOfRows(rows, m - 1) + RowCoins(rows, m - 1, |rows[m - 1]|)
  }

  /** The bonuses among the first n columns of row y: a plain bonus per 'B',
      an energizer per 'E', all active. */
  function RowBonuses(rows: seq<string>, y: int, n: int): seq<Bonus>
    requires 0 <= y < |rows| && 0 <= n <= |rows[y]|
    decreases n
  {
    if n == 0 then []
    else
      var t := rows[y][n - 1];
      RowBonuses(rows, y, n - 1) + (if t == 'B' || t == 'E' then [Bonus(Cell(n - 1, y), t == 'E', true)] else [])
  }

  function BonusesOfRows(rows: seq<string>, m: int): seq<Bonus>
    requires 0 <= m <= |rows|
    decreases m
  {
    if m == 0 then [] else BonusesOfRows(rows, m - 1) + RowBonuses(rows, m - 1, |rows[m - 1]|)
  }

  function LevelCoins(): seq<Cell>
  {
    CoinsOfRows(Map, |Map|)
  }

  function LevelBonuses(): seq<Bonus>
  {
    BonusesOfRows(Map, |Map|)
  }

  /** The nested loops of init_game that lay out the coins and bonuses of
      a maze (the game passes MAP). */
  method LayOut(rows: seq<string>) returns (coins: seq<Cell>, bonuses: seq<Bonus>)
    ensures coins == CoinsOfRows(rows, |rows|) && bonuses == BonusesOfRows(rows, |rows|)
  {
    coins, bonuses := [], [];
    for y := 0 to |rows|
      invariant coins == CoinsOfRows(rows, y) && bonuses == BonusesOfRows(rows, y)
    {
      var row := rows[y];
      for x := 0 to |row|
        invariant coins == CoinsOfRows(rows, y) + RowCoins(rows, y, x)
        invariant bonuses == BonusesOfRows(rows, y) + RowBonuses(rows, y, x)
      {
        var tile := row[x];
        if tile == '0' {
          coins := coins + [Cell(x, y)];
        } else if tile == 'B' {
          bonuses := bonuses + [Bonus(Cell(x, y), false, true)];
        } else if tile == 'E' {
          bonuses := bonuses + [Bonus(Cell(x, y), true, true)];
        }
      }
    }
  }

  // ---------------------------------------------------------------
  // Contact geometry
  // ---------------------------------------------------------------

  /** Rect.colliderect for rectangles of positive size: the open
      rectangles overlap. */
  predicate Collide(a: Rect, b: Rect)
  {
    a.left < b.left + b.width && b.left < a.left + a.width &&
    a.top < b.top + b.height && b.top < a.top + a.height
  }

  /** The 16x16 box of the player or of a ghost, 4 pixels inside its tile. */
  function AgentRect(pixX: real, pixY: real): Rect
  {
    Rect(pixX + 4.0, pixY + 4.0, (TileSize - 8) as real, (TileSize - 8) as real)
  }

  /** The 8x8 box of a coin, centred in its tile. */
  function CoinRect(c: Cell): Rect
  {
    Rect((c.x * TileSize + 8) as real, (c.y * TileSize + 8) as real, 8.0, 8.0)
  }

  /** The player's centre is within TILE_SIZE // 2 == 12 pixels of the
      bonus's centre, compared on squares. */
  predicate InBonusReach(pixX: real, pixY: real, b: Bonus)
  {
    var dx := (pixX + (TileSize / 2) as real) - (b.cell.x * TileSize + TileSize / 2) as real;
    var dy := (pixY + (TileSize / 2) as real) - (b.cell.y * TileSize + TileSize / 2) as real;
    dx * dx + dy * dy < ((TileSize / 2) * (TileSize / 2)) as real
  }

  // ---------------------------------------------------------------
  // Lemmas
  // ---------------------------------------------------------------

  predicate RowMajorBefore(a: Cell, b: Cell)
  {
    a.y < b.y || (a.y == b.y && a.x < b.x)
  }

  lemma {:induction false} RowCoinsSpec(rows: seq<string>, y: int, n: int)
    requires 0 <= y < |rows| && 0 <= n <= |rows[y]|
    ensures forall c :: c in RowCoins(rows, y, n) <==> c.y == y && 0 <= c.x < n && rows[y][c.x] == '0'
    ensures forall i, j :: 0 <= i < j < |RowCoins(rows, y, n)| ==>
              RowCoins(rows, y, n)[i].y == RowCoins(rows, y, n)[j].y == y &&
              RowCoins(rows, y, n)[i].x < RowCoins(rows, y, n)[j].x
    ensures forall i :: 0 <= i < |RowCoins(rows, y, n)| ==> RowCoins(rows, y, n)[i].y == y
    decreases n
  {
    if n > 0 {
      RowCoinsSpec(rows, y, n - 1);
      var a := RowCoins(rows, y, n - 1);
      var b: seq<Cell> := if rows[y][n - 1] == '0' then [Cell(n - 1, y)] else [];
      assert RowCoins(rows, y, n) == a + b;
      forall i, j | 0 <= i < j < |a + b| ensures (a + b)[i].y == (a + b)[j].y == y && (a + b)[i].x < (a + b)[j].x {
        if j >= |a| {
          assert (a + b)[j] == Cell(n - 1, y);
          if i < |a| {
            assert (a + b)[i] == a[i] && a[i] in a;
          }
        }
      }
      forall c ensures c in a + b <==> c.y == y && 0 <= c.x < n && rows[y][c.x] == '0' {
      }
      forall i | 0 <= i < |a + b| ensures (a + b)[i].y == y {
        if i < |a| {
          assert (a + b)[i] == a[i];
        }
      }
    }
  }

  lemma {:induction false} CoinsOfRowsSpec(rows: seq<string>, m: int)
    requires 0 <= m <= |rows|
    ensures forall c :: c in CoinsOfRows(rows, m) <==>
              0 <= c.y < m && 0 <= c.x < |rows[c.y]| && rows[c.y][c.x] == '0'
    ensures forall i, j :: 0 <= i < j < |CoinsOfRows(rows, m)| ==>
              RowMajorBefore(CoinsOfRows(rows, m)[i], CoinsOfRows(rows, m)[j])
    ensures forall i :: 0 <= i < |CoinsOfRows(rows, m)| ==> CoinsOfRows(rows, m)[i].y < m
    decreases m
  {
    if m > 0 {
      CoinsOfRowsSpec(rows, m - 1);
      RowCoinsSpec(rows, m - 1, |rows[m - 1]|);
      var a, b := CoinsOfRows(rows, m - 1), RowCoins(rows, m - 1, |rows[m - 1]|);
      assert CoinsOfRows(rows, m) == a + b;
      forall i, j | 0 <= i < j < |a + b| ensures RowMajorBefore((a + b)[i], (a + b)[j]) {
        if j < |a| {
          assert (a + b)[i] == a[i] && (a + b)[j] == a[j];
        } else if i < |a| {
          assert (a + b)[i] == a[i] && (a + b)[j] == b[j - |a|];
        } else {
          assert (a + b)[i] == b[i - |a|] && (a + b)[j] == b[j - |a|];
        }
      }
      forall i | 0 <= i < |a + b| ensures (a + b)[i].y < m {
        if i < |a| {
          assert (a + b)[i] == a[i];
        } else {
          assert (a + b)[i] == b[i - |a|];
        }
      }
    }
  }

  /** init_game puts exactly one coin on every '0' cell and nowhere else, in
      reading order, so no two coins share a cell. */
  lemma LevelCoinsSpec()
    ensures forall c :: c in LevelCoins() <==> InMap(c) && TileAt(c) == '0'
    ensures forall i, j :: 0 <= i < j < |LevelCoins()| ==> RowMajorBefore(LevelCoins()[i], LevelCoins()[j])
    ensures forall i, j :: 0 <= i < j < |LevelCoins()| ==> LevelCoins()[i] != LevelCoins()[j]
  {
    CoinsOfRowsSpec(Map, |Map|);
    forall c ensures c in LevelCoins() <==> InMap(c) && TileAt(c) == '0' {
      if 0 <= c.y < |Map| {
        MapIsRectangular(c.y);
      }
    }
  }

  lemma {:induction false} RowBonusesSpec(rows: seq<string>, y: int, n: int)
    requires 0 <= y < |rows| && 0 <= n <= |rows[y]|
    ensures forall b :: b in RowBonuses(rows, y, n) <==>
              b.cell.y == y && 0 <= b.cell.x < n && b.active &&
              (rows[y][b.cell.x] == 'B' || rows[y][b.cell.x] == 'E') &&
              (b.energizer <==> rows[y][b.cell.x] == 'E')
    decreases n
  {
    if n > 0 {
      RowBonusesSpec(rows, y, n - 1);
    }
  }

  lemma {:induction false} BonusesOfRowsSpec(rows: seq<string>, m: int)
    requires 0 <= m <= |rows|
    ensures forall b :: b in BonusesOfRows(rows, m) <==>
              0 <= b.cell.y < m && 0 <= b.cell.x < |rows[b.cell.y]| && b.active &&
              (rows[b.cell.y][b.cell.x] == 'B' || rows[b.cell.y][b.cell.x] == 'E') &&
              (b.energizer <==> rows[b.cell.y][b.cell.x] == 'E')
    decreases m
  {
    if m > 0 {
      BonusesOfRowsSpec(rows, m - 1);
      RowBonusesSpec(rows, m - 1, |rows[m - 1]|);
    }
  }

  /** init_game puts an active bonus on every 'B' and 'E' cell and nowhere
      else; exactly those on 'E' cells are energizers. */
  lemma LevelBonusesSpec()
    ensures forall b :: b in LevelBonuses() <==>
              InMap(b.cell) && b.active &&
              (TileAt(b.cell) == 'B' || TileAt(b.cell) == 'E') &&
              (b.energizer <==> TileAt(b.cell) == 'E')
  {
    BonusesOfRowsSpec(Map, |Map|);
    forall b ensures b in LevelBonuses() <==>
              InMap(b.cell) && b.active &&
              (TileAt(b.cell) == 'B' || TileAt(b.cell) == 'E') &&
              (b.energizer <==> TileAt(b.cell) == 'E') {
      if 0 <= b.cell.y < |Map| {
        MapIsRectangular(b.cell.y);
      }
    }
  }

  /** Two agents touch exactly when their tile origins are less than 16
      pixels apart on both axes. */
  lemma AgentContact(px: real, py: real, gx: real, gy: real)
    ensures Collide(AgentRect(px, py), AgentRect(gx, gy)) <==>
            Abs(px - gx) < 16.0 && Abs(py - gy) < 16.0
  {
  }

  /** The player takes a coin exactly when its tile origin is less than 12
      pixels from the coin's tile origin on both axes. */
  lemma CoinContact(px: real, py: real, c: Cell)
    ensures Collide(AgentRect(px, py), CoinRect(c)) <==>
            Abs(px - PixelOf(c.x)) < 12.0 && Abs(py - PixelOf(c.y)) < 12.0
  {
  }

  /** A player standing exactly on a coin's or bonus's cell takes it. */
  lemma CentredPlayerTakesPickup(c: Cell, b: Bonus)
    requires b.cell == c
    ensures Collide(AgentRect(PixelOf(c.x), PixelOf(c.y)), CoinRect(c))
    ensures InBonusReach(PixelOf(c.x), PixelOf(c.y), b)
  {
  }
}
