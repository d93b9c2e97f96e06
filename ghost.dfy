/**
  A ghost: its behavioural state machine (scatter, chase, frightened,
  eaten, respawning), its decision at intersections, its movement, its
  portal handling and its eaten/respawn sequence.

  Each step of the class Ghost is specified by a function from the ghost's
  state before the step (a GhostData value) to its state after; the random
  choices of the source are named by ghost out-parameters and constrained
  by a predicate stating which choices the source can make.
 */
module Ghosts {
  import opened Grid
  import opened Targeting
  import opened Decision

  datatype GhostState = Scatter | Chase | Frightened | Eaten | Respawning

  /** last_portal: None, 'left' or 'right'. */
  datatype PortalSide = NoPortal | LeftPortal | RightPortal

  /** FPS * 3 frames in the pen before a reset. */
  const RespawnFrames: int := 180
  const GhostPortalCooldown: int := 15
  /** set_frightened(5) from an energizer. */
  const EnergizerSeconds: int := 5

  /** The mutable fields of a ghost that the core reads or writes. */
  datatype GhostData = GhostData(
    pixX: real, pixY: real, gridX: int, gridY: int,
    colour: Colour, dir: Dir, state: GhostState,
    stateTimer: int, frightenedTimer: int,
    portalCooldown: int, lastPortal: PortalSide,
    respawnTimer: int, isActive: bool)
  {
    function At(): Cell
    {
      Cell(gridX, gridY)
    }

    predicate Centred()
    {
      AtCentre(pixX, pixY, At())
    }
  }

  /** What a ghost is created with and never changes: its personality
      (looked up from its colour), its base speed and its start cell. */
  datatype GhostConfig = GhostConfig(personality: Personality, baseSpeed: real, start: Cell)

  // ---------------------------------------------------------------
  // The steps of a ghost, as functions of its state
  // ---------------------------------------------------------------

  /** The number of frames after which a scatter or chase phase ends. */
  function PhaseFrames(s: GhostState, p: Personality): int
  {
    if s == Scatter then ScatterDuration(p) * Fps else ChaseDuration(p) * Fps
  }

  /** update_state: count fright down, or count the phase up and switch
      phase once the count strictly exceeds its length. */
  function AfterUpdateState(g: GhostData, p: Personality): GhostData
  {
    if g.state == Frightened then
      var t := g.frightenedTimer - 1;
      if t <= 0 then g.(frightenedTimer := t, state := Chase, stateTimer := 0, colour := NormalColour(p))
      else g.(frightenedTimer := t)
    else
      var t := g.stateTimer + 1;
      if g.state == Scatter && t > ScatterDuration(p) * Fps then g.(state := Chase, stateTimer := 0)
      else if g.state == Chase && t > ChaseDuration(p) * Fps then g.(state := Scatter, stateTimer := 0)
      else g.(stateTimer := t)
  }

  /** set_frightened: no effect on an eaten ghost; otherwise frightened for
      duration seconds, blue, and possibly turned round. */
  function AfterSetFrightened(g: GhostData, duration: int, flip: bool): GhostData
  {
    if g.state == Eaten then g
    else g.(state := Frightened, frightenedTimer := duration * Fps, colour := Blue,
            dir := if flip then Opposite(g.dir) else g.dir)
  }

  /** handle_eaten. */
  function AfterEaten(g: GhostData): GhostData
  {
    g.(state := Eaten, colour := White, isActive := false, respawnTimer := 0)
  }

  /** The directions make_decision may pick from. */
  function DecisionCandidates(g: GhostData): seq<Dir>
  {
    Candidates(PossibleDirections(g.state == Eaten, g.At()), g.dir)
  }

  /** The target of make_decision outside the frightened state. */
  function DecisionTarget(g: GhostData, cfg: GhostConfig, player: PlayerView, ghosts: seq<GhostView>): Cell
  {
    if g.state == Scatter then ScatterPos(cfg.personality)
    else ChaseTarget(cfg.personality, g.At(), player, ghosts)
  }

  /** The choices make_decision can make: any candidate when frightened,
      otherwise a candidate whose neighbour cell is closest to the target. */
  predicate DecisionChoiceOk(g: GhostData, cfg: GhostConfig, player: PlayerView, ghosts: seq<GhostView>, d: Dir)
  {
    var cands := DecisionCandidates(g);
    |cands| == 0 ||
    (if g.state == Frightened then d in cands
     else IsClosest(d, cands, g.At(), DecisionTarget(g, cfg, player, ghosts)))
  }

  /** make_decision: the direction is left alone when nothing is open. */
  function AfterDecision(g: GhostData, d: Dir): GhostData
  {
    if |DecisionCandidates(g)| == 0 then g else g.(dir := d)
  }

  function GhostSpeed(g: GhostData, cfg: GhostConfig): real
  {
    var speed := cfg.baseSpeed * SpeedBoost(cfg.personality);
    if g.state == Frightened then speed * 0.5 else speed
  }

  /** move: one step along the direction; the grid cell is not recomputed. */
  function AfterMove(g: GhostData, cfg: GhostConfig): GhostData
  {
    var speed := GhostSpeed(g, cfg);
    g.(pixX := g.pixX + DX(g.dir) as real * speed, pixY := g.pixY + DY(g.dir) as real * speed)
  }

  /** handle_portals. */
  function AfterPortals(g: GhostData): GhostData
  {
    if g.portalCooldown > 0 then g.(portalCooldown := g.portalCooldown - 1)
    else if !g.Centred() then g
    else if InMap(g.At()) && TileAt(g.At()) == 'P' then
      var current := if g.gridX == 0 then LeftPortal else if g.gridX == Cols - 1 then RightPortal else NoPortal;
      if current != NoPortal && current != g.lastPortal then
        if g.gridX == 0 && DX(g.dir) < 0 then
          g.(pixX := PixelOf(Cols - 2), gridX := Cols - 2, lastPortal := RightPortal, portalCooldown := GhostPortalCooldown)
        else if g.gridX == Cols - 1 && DX(g.dir) > 0 then
          g.(pixX := PixelOf(1), gridX := 1, lastPortal := LeftPortal, portalCooldown := GhostPortalCooldown)
        else g
      else g.(lastPortal := NoPortal)
    else g
  }

  /** The length max(1, dist) return_to_home divides by. */
  function HomingLength(dist: real): (len: real)
    ensures len >= 1.0 && (dist >= 1.0 ==> len == dist)
  {
    if dist < 1.0 then 1.0 else dist
  }

  /** One coordinate of the homing move: the cell offset to home, divided
      by the distance, times the homing speed. */
  function HomingStep(pix: real, from: int, home: int, len: real, speed: real): real
    requires len >= 1.0
  {
    pix + (home - from) as real / len * speed
  }

  /** return_to_home: at the start cell the ghost starts respawning; elsewhere
      it moves at twice its base speed straight at the start cell, through
      walls. dist is sqrt(dx*dx + dy*dy) of the cell offset. */
  function AfterReturnHome(g: GhostData, cfg: GhostConfig, dist: real): GhostData
  {
    if g.At() == cfg.start then g.(state := Respawning, respawnTimer := RespawnFrames)
    else
      var len := HomingLength(dist);
      var speed := cfg.baseSpeed * 2.0;
      var px := HomingStep(g.pixX, g.gridX, cfg.start.x, len, speed);
      var py := HomingStep(g.pixY, g.gridY, cfg.start.y, len, speed);
      g.(pixX := px, pixY := py, gridX := TileOf(px), gridY := TileOf(py))
  }

  /** The directions reset may pick from (the state is scatter by then). */
  predicate ResetChoiceOk(cfg: GhostConfig, d: Dir)
  {
    var ds := PossibleDirections(false, cfg.start);
    |ds| == 0 || d in ds
  }

  /** reset: back to the start cell, scatter, normal colour, active, with a
      random open direction (or none). */
  function AfterReset(g: GhostData, cfg: GhostConfig, d: Dir): GhostData
  {
    g.(gridX := cfg.start.x, gridY := cfg.start.y,
       pixX := PixelOf(cfg.start.x), pixY := PixelOf(cfg.start.y),
       state := Scatter, colour := NormalColour(cfg.personality), isActive := true,
       dir := if |PossibleDirections(false, cfg.start)| == 0 then Stop else d)
  }

  /** The respawning branch of update. */
  function AfterRespawnTick(g: GhostData, cfg: GhostConfig, d: Dir): GhostData
  {
    var t := g.respawnTimer - 1;
    if t <= 0 then AfterReset(g.(respawnTimer := t), cfg, d) else g.(respawnTimer := t)
  }

  /** The state just before the decision of a normal update: update_state,
      then the grid cell recomputed from the pixels. */
  function Prepared(g: GhostData, cfg: GhostConfig): GhostData
  {
    var s := AfterUpdateState(g, cfg.personality);
    s.(gridX := TileOf(s.pixX), gridY := TileOf(s.pixY))
  }

  /** The active branch of update. */
  function AfterNormalTick(g: GhostData, cfg: GhostConfig, d: Dir): GhostData
  {
    var r := Prepared(g, cfg);
    var decided := if r.Centred() then AfterDecision(r, d) else r;
    AfterPortals(AfterMove(decided, cfg))
  }

  /** update: one frame of a ghost. */
  function AfterTick(g: GhostData, cfg: GhostConfig, dist: real, d: Dir): GhostData
  {
    if g.state == Eaten then AfterReturnHome(g, cfg, dist)
    else if g.state == Respawning then AfterRespawnTick(g, cfg, d)
    else if !g.isActive then g
    else AfterNormalTick(g, cfg, d)
  }

  /** The choices one update can make. */
  predicate TickChoiceOk(g: GhostData, cfg: GhostConfig, player: PlayerView, ghosts: seq<GhostView>, d: Dir)
  {
    if g.state == Eaten then true
    else if g.state == Respawning then (g.respawnTimer - 1 <= 0 ==> ResetChoiceOk(cfg, d))
    else if !g.isActive then true
    else
      var r := Prepared(g, cfg);
      r.Centred() ==> DecisionChoiceOk(r, cfg, player, ghosts, d)
  }

  function InitialGhost(x: int, y: int, colour: Colour): GhostData
  {
    GhostData(PixelOf(x), PixelOf(y), x, y, colour, Stop, Scatter, 0, 0, 0, NoPortal, 0, true)
  }

  /** The first direction of a new ghost: one of the open directions of its
      cell, or none when it is walled in. */
  predicate FacesOpen(g: GhostData)
  {
    var ds := PossibleDirections(false, g.At());
    if |ds| == 0 then g.dir == Stop else g.dir in ds
  }

  // ---------------------------------------------------------------
  // The class
  // ---------------------------------------------------------------

  class Ghost {
    var pixX: real
    var pixY: real
    var gridX: int
    var gridY: int
    var colour: Colour
    var dir: Dir
    var state: GhostState
    var stateTimer: int
    var frightenedTimer: int
    var portalCooldown: int
    var lastPortal: PortalSide
    var respawnTimer: int
    var isActive: bool
    const config: GhostConfig

    function View(): GhostData
      reads this
    {
      GhostData(pixX, pixY, gridX, gridY, colour, dir, state, stateTimer, frightenedTimer,
                portalCooldown, lastPortal, respawnTimer, isActive)
    }

    /** A ghost in the pen with its personality looked up from its colour and
        a random open first direction. */
    constructor (x: int, y: int, c: Colour, speed: real)
      requires PersonalityOf(c).Some?
      ensures config == GhostConfig(PersonalityOf(c).value, speed, Cell(x, y))
      ensures View().(dir := Stop) == InitialGhost(x, y, c)
      ensures FacesOpen(View())
    {
      pixX, pixY := PixelOf(x), PixelOf(y);
      gridX, gridY := x, y;
      colour := c;
      dir := Stop;
      state := Scatter;
      stateTimer, frightenedTimer := 0, 0;
      portalCooldown, lastPortal := 0, NoPortal;
      respawnTimer := 0;
      isActive := true;
      config := GhostConfig(PersonalityOf(c).value, speed, Cell(x, y));
      new;
      var ds := GetPossibleDirections();
      if |ds| > 0 {
        assert ds[0] in ds;
        var first :| first in ds;
        dir := first;
      }
    }

    predicate CanMove(d: Dir)
      reads this
    {
      GhostCanMove(state == Eaten, Cell(gridX, gridY), d)
    }

    predicate AtDecisionPoint()
      reads this
    {
      AtCentre(pixX, pixY, Cell(gridX, gridY))
    }

    /** get_possible_directions: the open cardinals, in the order tried. */
    method GetPossibleDirections() returns (dirs: seq<Dir>)
      ensures dirs == PossibleDirections(state == Eaten, Cell(gridX, gridY))
    {
      dirs := OpenAmong(state == Eaten, Cell(gridX, gridY), Cardinals);
    }

    method Reset() returns (ghost d: Dir)
      modifies this
      ensures ResetChoiceOk(config, d)
      ensures View() == AfterReset(old(View()), config, d)
    {
      Restart();
      var ds := GetPossibleDirections();
      if |ds| > 0 {
        assert ds[0] in ds;
        var choice :| choice in ds;
        dir, d := choice, choice;
      } else {
        dir, d := Stop, Stop;
      }
    }

    /** The part of reset before the direction is drawn. */
    method Restart()
      modifies this
      ensures View() == old(View()).(gridX := config.start.x, gridY := config.start.y,
                pixX := PixelOf(config.start.x), pixY := PixelOf(config.start.y),
                state := Scatter, colour := NormalColour(config.personality), isActive := true)
    {
      gridX, gridY := config.start.x, config.start.y;
      pixX, pixY := PixelOf(gridX), PixelOf(gridY);
      state := Scatter;
      colour := NormalColour(config.personality);
      isActive := true;
    }

    method UpdateState()
      modifies this
      ensures View() == AfterUpdateState(old(View()), config.personality)
    {
      if state == Frightened {
        frightenedTimer := frightenedTimer - 1;
        if frightenedTimer <= 0 {
          state := Chase;
          stateTimer := 0;
          colour := NormalColour(config.personality);
        }
      } else {
        stateTimer := stateTimer + 1;
        if state == Scatter && stateTimer > ScatterDuration(config.personality) * Fps {
          state := Chase;
          stateTimer := 0;
        } else if state == Chase && stateTimer > ChaseDuration(config.personality) * Fps {
          state := Scatter;
          stateTimer := 0;
        }
      }
    }

    method SetFrightened(duration: int) returns (ghost flip: bool)
      modifies this
      ensures View() == AfterSetFrightened(old(View()), duration, flip)
    {
      flip := false;
      if state != Eaten {
        state := Frightened;
        frightenedTimer := duration * Fps;
        colour := Blue;
        var turn: bool :| true;
        if turn {
          dir := Opposite(dir);
        }
        flip := turn;
      }
    }

    method MakeDecision(player: PlayerView, ghosts: seq<GhostView>) returns (ghost d: Dir)
      modifies this
      ensures DecisionChoiceOk(old(View()), config, player, ghosts, d)
      ensures View() == AfterDecision(old(View()), d)
    {
      d := dir;
      var possible := GetPossibleDirections();
      if |possible| == 0 {
        return;
      }
      var opposite := Opposite(dir);
      if |possible| > 1 && opposite in possible {
        possible := RemoveFirst(possible, opposite);
      }
      var target: Cell;
      if state == Scatter {
        target := ScatterPos(config.personality);
      } else if state == Frightened {
        target := RandomTarget();
      } else {
        target := ChaseTarget(config.personality, Cell(gridX, gridY), player, ghosts);
      }
      assert possible == DecisionCandidates(View());
      CandidatesSpec(state == Eaten, Cell(gridX, gridY), dir);
      var choice: Dir;
      if state == Frightened {
        assert possible[0] in possible;
        choice :| choice in possible;
      } else {
        var best := ClosestDirections(possible, Cell(gridX, gridY), target);
        assert best[0] in best;
        choice :| choice in best;
      }
      dir, d := choice, choice;
    }

    method Move()
      modifies this
      ensures View() == AfterMove(old(View()), config)
    {
      var speed := config.baseSpeed * SpeedBoost(config.personality);
      if state == Frightened {
        speed := speed * 0.5;
      }
      pixX := pixX + DX(dir) as real * speed;
      pixY := pixY + DY(dir) as real * speed;
    }

    method HandlePortals()
      modifies this
      ensures View() == AfterPortals(old(View()))
    {
      if portalCooldown > 0 {
        portalCooldown := portalCooldown - 1;
        return;
      }
      if !AtCentre(pixX, pixY, Cell(gridX, gridY)) {
        return;
      }
      if InMap(Cell(gridX, gridY)) && TileAt(Cell(gridX, gridY)) == 'P' {
        var current := if gridX == 0 then LeftPortal else if gridX == Cols - 1 then RightPortal else NoPortal;
        if current != NoPortal && current != lastPortal {
          if gridX == 0 && DX(dir) < 0 {
            pixX := PixelOf(Cols - 2);
            gridX := Cols - 2;
            lastPortal := RightPortal;
            portalCooldown := GhostPortalCooldown;
          } else if gridX == Cols - 1 && DX(dir) > 0 {
            pixX := PixelOf(1);
            gridX := 1;
            lastPortal := LeftPortal;
            portalCooldown := GhostPortalCooldown;
          }
        } else {
          lastPortal := NoPortal;
        }
      }
    }

    method HandleEaten()
      modifies this
      ensures View() == AfterEaten(old(View()))
    {
      state := Eaten;
      colour := White;
      isActive := false;
      respawnTimer := 0;
    }

    method ReturnToHome(dist: real)
      modifies this
      ensures View() == AfterReturnHome(old(View()), config, dist)
    {
      if Cell(gridX, gridY) == config.start {
        state := Respawning;
        respawnTimer := RespawnFrames;
        return;
      }
      var len := HomingLength(dist);
      var speed := config.baseSpeed * 2.0;
      pixX := HomingStep(pixX, gridX, config.start.x, len, speed);
      pixY := HomingStep(pixY, gridY, config.start.y, len, speed);
      gridX := TileOf(pixX);
      gridY := TileOf(pixY);
    }

    /** update: one frame. player and ghosts are what the chase heuristics
        read of the player and of every ghost; dist is the homing distance
        of an eaten ghost. */
    method Update(player: PlayerView, ghosts: seq<GhostView>, dist: real) returns (ghost d: Dir)
      modifies this
      ensures TickChoiceOk(old(View()), config, player, ghosts, d)
      ensures View() == AfterTick(old(View()), config, dist, d)
    {
      d := dir;
      if state == Eaten {
        ReturnToHome(dist);
        return;
      }
      if state == Respawning {
        respawnTimer := respawnTimer - 1;
        if respawnTimer <= 0 {
          d := Reset();
        }
        return;
      }
      if !isActive {
        return;
      }
      UpdateState();
      gridX := TileOf(pixX);
      gridY := TileOf(pixY);
      if AtDecisionPoint() {
        d := MakeDecision(player, ghosts);
      }
      Move();
      HandlePortals();
    }
  }
}
