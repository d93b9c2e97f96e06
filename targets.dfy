/**
  Ghost personalities and the pure target-selection rules:
  the personality table, the four pursuit heuristics and the random
  target of the frightened state.
 */
module Targeting {
  import opened Grid

  /** The colours the core logic compares: the four personality colours,
      the common frightened colour and the colour of an eaten ghost. */
  datatype Colour = Red | Pink | Cyan | Orange | Blue | White

  datatype Personality = Blinky | Pinky | Inky | Clyde

  datatype ChaseMode = Direct | Ambush | Mirror | Random

  /** The personality table is keyed by colour; dict.get gives None for the
      frightened and eaten colours. */
  function PersonalityOf(c: Colour): Option<Personality>
  {
    match c
    case Red => Some(Blinky)
    case Pink => Some(Pinky)
    case Cyan => Some(Inky)
    case Orange => Some(Clyde)
    case _ => None
  }

  /** The colour restored from the personality's name when fright ends. */
  function NormalColour(p: Personality): Colour
  {
    match p
    case Blinky => Red
    case Pinky => Pink
    case Inky => Cyan
    case Clyde => Orange
  }

  /** Scatter corners; the last two lie below the 18-row maze because they
      are computed from ROWS == 21. */
  function ScatterPos(p: Personality): Cell
  {
    match p
    case Blinky => Cell(Cols - 2, 1)
    case Pinky => Cell(1, 1)
    case Inky => Cell(Cols - 2, Rows - 2)
    case Clyde => Cell(1, Rows - 2)
  }

  function Mode(p: Personality): ChaseMode
  {
    match p
    case Blinky => Direct
    case Pinky => Ambush
    case Inky => Mirror
    case Clyde => Random
  }

  /** Phase lengths in seconds. */
  function ScatterDuration(p: Personality): int
  {
    match p
    case Blinky => 7
    case Pinky => 7
    case Inky => 5
    case Clyde => 5
  }

  function ChaseDuration(p: Personality): int
  {
    20
  }

  function SpeedBoost(p: Personality): real
  {
    match p
    case Blinky => 1.05
    case Pinky => 1.0
    case Inky => 0.95
    case Clyde => 0.9
  }

  /** What a ghost needs to know about the player: its cell and its facing. */
  datatype PlayerView = PlayerView(cell: Cell, dir: Dir)

  /** What the mirror heuristic reads of every ghost: its colour and its cell. */
  datatype GhostView = GhostView(colour: Colour, cell: Cell)

  /** The first ghost of the list with the given colour, as next(...) finds it. */
  function FirstWithColour(gs: seq<GhostView>, c: Colour): (r: Option<nat>)
    ensures r.Some? ==> r.value < |gs| && gs[r.value].colour == c
    ensures r.Some? ==> forall j :: 0 <= j < r.value ==> gs[j].colour != c
    ensures r.None? ==> forall j :: 0 <= j < |gs| ==> gs[j].colour != c
  {
    if |gs| == 0 then None
    else if gs[0].colour == c then Some(0)
    else
      match FirstWithColour(gs[1..], c)
      case Some(i) => Some(i + 1)
      case None => None
  }

  /** get_chase_target: the cell a ghost with personality p standing on self
      heads for in the chase state. */
  function ChaseTarget(p: Personality, self: Cell, player: PlayerView, ghosts: seq<GhostView>): Cell
  {
    match Mode(p)
    case Direct => player.cell
    case Ambush => Cell(player.cell.x + 4 * DX(player.dir), player.cell.y + 4 * DY(player.dir))
    case Mirror =>
      (match FirstWithColour(ghosts, Red)
       case Some(i) =>
         var b := ghosts[i].cell;
         Cell(player.cell.x + (player.cell.x - b.x), player.cell.y + (player.cell.y - b.y))
       case None => player.cell)
    case Random =>
      // math.dist(...) < 8 compared on squares, exact for integer cells
      if SqDist(self, player.cell) < 64 then ScatterPos(p) else player.cell
  }

  /** The range random.randint draws the frightened target from. */
  predicate InRandomTargetRange(t: Cell)
  {
    2 <= t.x <= Cols - 3 && 2 <= t.y <= Rows - 3
  }

  /** get_random_target: some cell of the interior, excluding a 2-cell border. */
  method RandomTarget() returns (t: Cell)
    ensures 2 <= t.x <= Cols - 3
    ensures 2 <= t.y <= Rows - 3
  {
    assert InRandomTargetRange(Cell(2, 2));
    t :| 2 <= t.x <= Cols - 3 && 2 <= t.y <= Rows - 3;
  }

  // ---------------------------------------------------------------
  // Lemmas
  // ---------------------------------------------------------------

  /** The colour-keyed table and the name-keyed colour restore agree. */
  lemma PersonalityColourRoundTrip(p: Personality, c: Colour)
    ensures PersonalityOf(NormalColour(p)) == Some(p)
    ensures PersonalityOf(c) == Some(p) ==> NormalColour(p) == c
  {
  }

  /** Inky's target is the reflection of the first RED ghost through the
      player's cell: the player's cell is the midpoint of the two. */
  lemma MirrorReflectsThroughPlayer(self: Cell, player: PlayerView, ghosts: seq<GhostView>, i: nat)
    requires i < |ghosts| && ghosts[i].colour == Red
    requires forall j :: 0 <= j < i ==> ghosts[j].colour != Red
    ensures var t := ChaseTarget(Inky, self, player, ghosts);
            t.x + ghosts[i].cell.x == 2 * player.cell.x &&
            t.y + ghosts[i].cell.y == 2 * player.cell.y
  {
  }

  /** Blinky is found by colour, so while it is frightened (BLUE) or eaten
      (WHITE) no ghost is RED and Inky falls back to the player's cell. */
  lemma MirrorFallsBackWithoutRed(self: Cell, player: PlayerView, ghosts: seq<GhostView>)
    requires forall j :: 0 <= j < |ghosts| ==> ghosts[j].colour != Red
    ensures ChaseTarget(Inky, self, player, ghosts) == player.cell
  {
  }

  /** Pinky aims four tiles ahead of the player along the player's facing. */
  lemma AmbushLeadsPlayer(self: Cell, player: PlayerView, ghosts: seq<GhostView>)
    ensures var t := ChaseTarget(Pinky, self, player, ghosts);
            SqDist(t, player.cell) == (if player.dir == Stop then 0 else 16) &&
            t == Step(Step(Step(Step(player.cell, player.dir), player.dir), player.dir), player.dir)
  {
  }

  /** Clyde chases only from 8 tiles or more; closer in it retreats to its
      corner, and its target never depends on the other ghosts. */
  lemma OpportunistKeepsDistance(self: Cell, player: PlayerView, ghosts: seq<GhostView>, others: seq<GhostView>)
    ensures ChaseTarget(Clyde, self, player, ghosts) == ChaseTarget(Clyde, self, player, others)
    ensures ChaseTarget(Clyde, self, player, ghosts) == player.cell <==>
            (SqDist(self, player.cell) >= 64 || player.cell == Cell(1, Rows - 2))
  {
  }

  /** Blinky's and Pinky's targets are the player's cell when the player stands still. */
  lemma StillPlayerIsTarget(self: Cell, cell: Cell, ghosts: seq<GhostView>)
    ensures ChaseTarget(Blinky, self, PlayerView(cell, Stop), ghosts) == cell
    ensures ChaseTarget(Pinky, self, PlayerView(cell, Stop), ghosts) == cell
  {
  }

  /** Inky's and Clyde's scatter corners are not cells of the maze. */
  lemma LowerCornersOffMap()
    ensures !InMap(ScatterPos(Inky)) && !InMap(ScatterPos(Clyde))
    ensures InMap(ScatterPos(Blinky)) && InMap(ScatterPos(Pinky))
  {
  }
}
