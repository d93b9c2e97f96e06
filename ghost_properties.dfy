/**
  Properties of the ghost state machine over many frames: the timing of
  the scatter/chase cycle and of fright, the eaten/respawn sequence, the
  behaviour of a ghost frightened while it waits in the pen, and the
  guarantees of the intersection decision and of the portals.
 */
module GhostProperties {
  import opened Grid
  import opened Targeting
  import opened Decision
  import opened Ghosts

  /** n calls of update_state. */
  function UpdateStateN(g: GhostData, p: Personality, n: nat): GhostData
    decreases n
  {
    if n == 0 then g else UpdateStateN(AfterUpdateState(g, p), p, n - 1)
  }

  /** What one frame gives an update beyond the ghost itself: the homing
      distance and the random or closest-direction choice. */
  datatype Frame = Frame(dist: real, choice: Dir)

  /** Successive frames of update. */
  function Ticks(g: GhostData, cfg: GhostConfig, frames: seq<Frame>): GhostData
    decreases |frames|
  {
    if frames == [] then g
    else Ticks(AfterTick(g, cfg, frames[0].dist, frames[0].choice), cfg, frames[1..])
  }

  /** The behavioural part of a ghost: everything update_state reads or writes. */
  predicate SameMood(a: GhostData, b: GhostData)
  {
    a.state == b.state && a.stateTimer == b.stateTimer &&
    a.frightenedTimer == b.frightenedTimer && a.colour == b.colour
  }

  predicate Roaming(g: GhostData)
  {
    g.isActive && (g.state == Scatter || g.state == Chase || g.state == Frightened)
  }

  // ---------------------------------------------------------------
  // The scatter/chase cycle and fright, on update_state
  // ---------------------------------------------------------------

  lemma {:induction false} UpdateStateNSnoc(g: GhostData, p: Personality, n: nat)
    ensures UpdateStateN(g, p, n + 1) == AfterUpdateState(UpdateStateN(g, p, n), p)
    decreases n
  {
    if n > 0 {
      UpdateStateNSnoc(AfterUpdateState(g, p), p, n - 1);
    }
  }

  lemma {:induction false} UpdateStateNAdd(g: GhostData, p: Personality, a: nat, b: nat)
    ensures UpdateStateN(g, p, a + b) == UpdateStateN(UpdateStateN(g, p, a), p, b)
    decreases a
  {
    if a > 0 {
      UpdateStateNAdd(AfterUpdateState(g, p), p, a - 1, b);
    }
  }

  /** Inside a scatter or chase phase the timer only counts up. */
  lemma {:induction false} PhaseCountsUp(g: GhostData, p: Personality, n: nat)
    requires g.state == Scatter || g.state == Chase
    requires g.stateTimer + n <= PhaseFrames(g.state, p)
    ensures UpdateStateN(g, p, n) == g.(stateTimer := g.stateTimer + n)
    decreases n
  {
    if n > 0 {
      var next := AfterUpdateState(g, p);
      assert next == g.(stateTimer := g.stateTimer + 1);
      PhaseCountsUp(next, p, n - 1);
    }
  }

  /** A phase entered with its timer at 0 lasts PhaseFrames + 1 updates: the
      comparison is strict, so a 7-second scatter switches to chase on
      update 421, not 420. The switch resets the timer. */
  lemma PhaseSwitch(g: GhostData, p: Personality)
    requires g.state == Scatter || g.state == Chase
    requires g.stateTimer == 0
    ensures UpdateStateN(g, p, PhaseFrames(g.state, p)).state == g.state
    ensures UpdateStateN(g, p, PhaseFrames(g.state, p) + 1) ==
            g.(state := if g.state == Scatter then Chase else Scatter, stateTimer := 0)
  {
    var f := PhaseFrames(g.state, p);
    PhaseCountsUp(g, p, f);
    UpdateStateNSnoc(g, p, f);
  }

  /** The scatter/chase cycle is periodic with period
      (scatter seconds * 60 + 1) + (20 * 60 + 1) updates. */
  lemma ScatterChaseCycle(g: GhostData, p: Personality)
    requires g.state == Scatter && g.stateTimer == 0
    ensures UpdateStateN(g, p, ScatterDuration(p) * Fps + 1) == g.(state := Chase)
    ensures UpdateStateN(g, p, ScatterDuration(p) * Fps + 1 + ChaseDuration(p) * Fps + 1) == g
  {
    var s := ScatterDuration(p) * Fps + 1;
    PhaseSwitch(g, p);
    PhaseSwitch(g.(state := Chase), p);
    UpdateStateNAdd(g, p, s, ChaseDuration(p) * Fps + 1);
  }

  /** While fright lasts only its timer moves. */
  lemma {:induction false} FrightCountsDown(g: GhostData, p: Personality, n: nat)
    requires g.state == Frightened && g.frightenedTimer - n >= 1
    ensures UpdateStateN(g, p, n) == g.(frightenedTimer := g.frightenedTimer - n)
    decreases n
  {
    if n > 0 {
      var next := AfterUpdateState(g, p);
      assert next == g.(frightenedTimer := g.frightenedTimer - 1);
      FrightCountsDown(next, p, n - 1);
    }
  }

  /** Fright ends after exactly frightenedTimer updates, always into chase
      with a fresh phase timer and the personality's colour. */
  lemma FrightEnds(g: GhostData, p: Personality)
    requires g.state == Frightened && g.frightenedTimer >= 1
    ensures UpdateStateN(g, p, g.frightenedTimer) ==
            g.(state := Chase, stateTimer := 0, frightenedTimer := 0, colour := NormalColour(p))
  {
    var n := g.frightenedTimer - 1;
    FrightCountsDown(g, p, n);
    UpdateStateNSnoc(g, p, n);
  }

  /** An energizer frightens any ghost that is not eaten for exactly 300
      updates: blue and frightened for the first 299, chasing in its own
      colour after the 300th. */
  lemma EnergizerFright(g: GhostData, p: Personality, flip: bool)
    requires g.state != Eaten
    ensures var f := AfterSetFrightened(g, EnergizerSeconds, flip);
            (forall n: nat :: n < EnergizerSeconds * Fps ==>
               UpdateStateN(f, p, n).state == Frightened && UpdateStateN(f, p, n).colour == Blue) &&
            UpdateStateN(f, p, EnergizerSeconds * Fps).state == Chase &&
            UpdateStateN(f, p, EnergizerSeconds * Fps).colour == NormalColour(p)
  {
    var f := AfterSetFrightened(g, EnergizerSeconds, flip);
    forall n: nat | n < EnergizerSeconds * Fps
      ensures UpdateStateN(f, p, n).state == Frightened && UpdateStateN(f, p, n).colour == Blue
    {
      FrightCountsDown(f, p, n);
    }
    FrightEnds(f, p);
  }

  /** set_frightened never touches an eaten ghost. */
  lemma EatenIgnoresFright(g: GhostData, duration: int, flip: bool)
    requires g.state == Eaten
    ensures AfterSetFrightened(g, duration, flip) == g
  {
  }

  // ---------------------------------------------------------------
  // Whole frames
  // ---------------------------------------------------------------

  /** In a frame of an active ghost, its behavioural state changes exactly
      as update_state changes it; the decision, the move and the portals
      leave it alone. */
  lemma TickFollowsUpdateState(g: GhostData, cfg: GhostConfig, dist: real, d: Dir)
    requires Roaming(g)
    ensures SameMood(AfterTick(g, cfg, dist, d), AfterUpdateState(g, cfg.personality))
    ensures Roaming(AfterTick(g, cfg, dist, d))
  {
    var r := Prepared(g, cfg);
    assert SameMood(r, AfterUpdateState(g, cfg.personality)) && Roaming(r);
    var decided := if r.Centred() then AfterDecision(r, d) else r;
    assert SameMood(decided, r) && decided.isActive;
    var moved := AfterMove(decided, cfg);
    assert SameMood(moved, r) && moved.isActive;
    PortalsKeepMood(moved);
  }

  lemma PortalsKeepMood(g: GhostData)
    ensures SameMood(AfterPortals(g), g) && AfterPortals(g).isActive == g.isActive
  {
  }

  /** Over any number of frames an active ghost's behavioural state is that
      of the same number of update_state calls, so the phase and fright
      timings above hold frame by frame. */
  lemma {:induction false} TicksFollowUpdateState(g: GhostData, cfg: GhostConfig, frames: seq<Frame>)
    requires Roaming(g)
    ensures SameMood(Ticks(g, cfg, frames), UpdateStateN(g, cfg.personality, |frames|))
    ensures Roaming(Ticks(g, cfg, frames))
    decreases |frames|
  {
    if frames != [] {
      var next := AfterTick(g, cfg, frames[0].dist, frames[0].choice);
      TickFollowsUpdateState(g, cfg, frames[0].dist, frames[0].choice);
      TicksFollowUpdateState(next, cfg, frames[1..]);
      MoodDeterminesUpdateStateN(next, AfterUpdateState(g, cfg.personality), cfg.personality, |frames| - 1);
    }
  }

  lemma {:induction false} MoodDeterminesUpdateStateN(a: GhostData, b: GhostData, p: Personality, n: nat)
    requires SameMood(a, b)
    ensures SameMood(UpdateStateN(a, p, n), UpdateStateN(b, p, n))
    decreases n
  {
    if n > 0 {
      MoodDeterminesUpdateStateN(AfterUpdateState(a, p), AfterUpdateState(b, p), p, n - 1);
    }
  }

  /** The ghost invariant: an eaten or respawning ghost is inactive. */
  predicate Coherent(g: GhostData)
  {
    (g.state == Eaten || g.state == Respawning) ==> !g.isActive
  }

  /** Every operation of the class keeps the invariant. */
  lemma CoherentPreserved(g: GhostData, cfg: GhostConfig, dist: real, d: Dir, duration: int, flip: bool)
    requires Coherent(g)
    ensures Coherent(AfterTick(g, cfg, dist, d))
    ensures Coherent(AfterSetFrightened(g, duration, flip))
    ensures Coherent(AfterEaten(g))
    ensures Coherent(InitialGhost(g.gridX, g.gridY, g.colour))
  {
    TickKeepsCoherent(g, cfg, dist, d);
  }

  lemma TickKeepsCoherent(g: GhostData, cfg: GhostConfig, dist: real, d: Dir)
    requires Coherent(g)
    ensures Coherent(AfterTick(g, cfg, dist, d))
  {
    if g.state == Eaten {
      assert AfterTick(g, cfg, dist, d) == AfterReturnHome(g, cfg, dist);
    } else if g.state == Respawning {
      assert AfterTick(g, cfg, dist, d) == AfterRespawnTick(g, cfg, d);
    } else if g.isActive {
      assert AfterTick(g, cfg, dist, d) == AfterNormalTick(g, cfg, d);
    }
  }

  // ---------------------------------------------------------------
  // Eaten, home, respawn
  // ---------------------------------------------------------------

  /** A respawning ghost waits respawnTimer frames in the pen, then is reset
      to its start cell, in scatter, active and in its own colour. */
  lemma {:induction false} RespawnCountdown(g: GhostData, cfg: GhostConfig, frames: seq<Frame>)
    requires g.state == Respawning && 1 <= |frames| <= g.respawnTimer
    ensures var r := Ticks(g, cfg, frames);
            if |frames| < g.respawnTimer then
              r == g.(respawnTimer := g.respawnTimer - |frames|)
            else
              r.state == Scatter && r.At() == cfg.start && r.isActive &&
              r.colour == NormalColour(cfg.personality) &&
              r.pixX == PixelOf(cfg.start.x) && r.pixY == PixelOf(cfg.start.y)
    decreases |frames|
  {
    var next := AfterTick(g, cfg, frames[0].dist, frames[0].choice);
    if |frames| == 1 {
      assert Ticks(g, cfg, frames) == Ticks(next, cfg, []);
    } else {
      assert next == g.(respawnTimer := g.respawnTimer - 1);
      RespawnCountdown(next, cfg, frames[1..]);
    }
  }

  /** An eaten ghost that has reached its start cell is back in play,
      active in scatter at its start cell, 181 frames later. */
  lemma EatenGhostReturns(g: GhostData, cfg: GhostConfig, frames: seq<Frame>)
    requires g.state == Eaten && g.At() == cfg.start
    requires |frames| == 1 + RespawnFrames
    ensures var r := Ticks(g, cfg, frames);
            r.state == Scatter && r.At() == cfg.start && r.isActive &&
            r.colour == NormalColour(cfg.personality)
  {
    var home := AfterTick(g, cfg, frames[0].dist, frames[0].choice);
    assert home.state == Respawning && home.respawnTimer == RespawnFrames;
    RespawnCountdown(home, cfg, frames[1..]);
  }

  /** set_frightened also frightens a ghost waiting in the pen. That ghost is
      inactive and no longer respawning, so no ghost update changes it; only
      the player walking into the pen and eating it releases it. */
  lemma PenFrightFreezes(g: GhostData, cfg: GhostConfig, duration: int, flip: bool, frames: seq<Frame>)
    requires g.state == Respawning && Coherent(g)
    ensures var f := AfterSetFrightened(g, duration, flip);
            f.state == Frightened && !f.isActive && Ticks(f, cfg, frames) == f
  {
    InactiveStays(AfterSetFrightened(g, duration, flip), cfg, frames);
  }

  lemma {:induction false} InactiveStays(g: GhostData, cfg: GhostConfig, frames: seq<Frame>)
    requires !g.isActive && g.state != Eaten && g.state != Respawning
    ensures Ticks(g, cfg, frames) == g
    decreases |frames|
  {
    if frames != [] {
      InactiveStays(g, cfg, frames[1..]);
    }
  }

  // ---------------------------------------------------------------
  // Decisions and portals
  // ---------------------------------------------------------------

  /** After make_decision the ghost heads in an open direction whenever
      there is one, turns back only from a dead end, and outside fright
      heads for a neighbour cell nearest its target. */
  lemma DecisionGuarantees(g: GhostData, cfg: GhostConfig, player: PlayerView, ghosts: seq<GhostView>, d: Dir)
    requires DecisionChoiceOk(g, cfg, player, ghosts, d)
    ensures var r := AfterDecision(g, d);
            var open := PossibleDirections(g.state == Eaten, g.At());
            (|open| == 0 ==> r == g) &&
            (|open| > 0 ==> r.dir in open && (r.dir == Opposite(g.dir) ==> open == [r.dir])) &&
            (|open| > 0 && g.state != Frightened ==>
               forall e :: e in open && e != Opposite(g.dir) ==>
                 SqDist(Step(g.At(), r.dir), DecisionTarget(g, cfg, player, ghosts)) <=
                 SqDist(Step(g.At(), e), DecisionTarget(g, cfg, player, ghosts)))
  {
    CandidatesSpec(g.state == Eaten, g.At(), g.dir);
  }

  /** A ghost moved by a portal lands one cell inside the opposite end, on
      a pellet cell (so not on a portal and not in a wall), remembers which
      side it came out of and is shielded for 15 frames. */
  lemma GhostPortalLanding(g: GhostData)
    requires AfterPortals(g).gridX != g.gridX
    ensures var r := AfterPortals(g);
            InMap(r.At()) && TileAt(r.At()) == '0' &&
            r.portalCooldown == GhostPortalCooldown &&
            ((g.gridX == 0 && r.gridX == Cols - 2 && r.lastPortal == RightPortal) ||
             (g.gridX == Cols - 1 && r.gridX == 1 && r.lastPortal == LeftPortal))
  {
    PortalCells(g.At());
  }
}
