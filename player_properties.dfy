/**
  Properties of the player controller over one and many frames.
 */
module PlayerProperties {
  import opened Grid
  import opened Players

  /** n frames of Player.update. */
  function UpdatesN(p: PlayerData, n: nat): PlayerData
    decreases n
  {
    if n == 0 then p else UpdatesN(AfterUpdate(p), n - 1)
  }

  lemma {:induction false} UpdatesNSnoc(p: PlayerData, n: nat)
    ensures UpdatesN(p, n + 1) == AfterUpdate(UpdatesN(p, n))
    decreases n
  {
    if n > 0 {
      UpdatesNSnoc(AfterUpdate(p), n - 1);
    }
  }

  // ---------------------------------------------------------------
  // Turning and the stuck rule
  // ---------------------------------------------------------------

  /** A walkable requested turn at a cell centre is taken at once and the
      request is cleared. */
  lemma RequestedTurnTaken(p: PlayerData)
    requires p.isAlive && p.Centred() && CanMove(p.At(), p.nextDir)
    ensures AfterUpdate(p).dir == p.nextDir && AfterUpdate(p).nextDir == Stop
  {
  }

  /** Off a centre, or while it is not walkable, a request is kept for a
      later frame. */
  lemma RequestedTurnWaits(p: PlayerData)
    requires !p.Centred() || !CanMove(p.At(), p.nextDir)
    ensures AfterUpdate(p).nextDir == p.nextDir
  {
  }

  /** After a frame the player either stands still or faces a direction that
      was walkable from the cell it started the step on. */
  lemma HeadingIsWalkable(p: PlayerData)
    requires p.isAlive
    ensures var s := Steer(Countdown(p));
            var r := AfterUpdate(p);
            r.dir == s.dir || r.dir == Stop
    ensures var s := Steer(Countdown(p));
            AfterUpdate(p).dir == Stop || CanMove(s.At(), AfterUpdate(p).dir)
  {
  }

  /** A blocked player is snapped onto its cell: it stays on the same cell,
      exactly centred, unless that cell is a portal. */
  lemma StuckPlayerSnaps(p: PlayerData)
    requires p.isAlive
    requires !CanMove(p.At(), Steer(Countdown(p)).dir)
    ensures var r := AfterUpdate(p);
            r.dir == Stop &&
            ((r.At() == p.At() && r.pixX == PixelOf(p.gridX) && r.pixY == PixelOf(p.gridY)) ||
             (InMap(p.At()) && TileAt(p.At()) == 'P'))
  {
    TileOfPixel(p.gridX);
    TileOfPixel(p.gridY);
  }

  /** buffer_direction is never set, so it stays the zero vector for good
      and never steers the player. */
  lemma {:induction false} BufferStaysEmpty(p: PlayerData, n: nat)
    requires p.bufferDir == Stop
    ensures UpdatesN(p, n).bufferDir == Stop
    decreases n
  {
    if n > 0 {
      BufferStaysEmpty(AfterUpdate(p), n - 1);
    }
  }

  // ---------------------------------------------------------------
  // Death, respawn, immunity
  // ---------------------------------------------------------------

  lemma {:induction false} DeathCountsUp(p: PlayerData, n: nat)
    requires !p.isAlive && p.deathFrame + DeathStep * n <= DeathFrames
    ensures UpdatesN(p, n) == p.(deathFrame := p.deathFrame + DeathStep * n)
    decreases n
  {
    if n > 0 {
      DeathCountsUp(AfterUpdate(p), n - 1);
    }
  }

  /** A player killed with death_frame 0 stays dead for 30 frames and comes
      back on the 31st, at (1,1), still and immune for 180 frames. */
  lemma DeathLasts31Frames(p: PlayerData)
    requires !p.isAlive && p.deathFrame == 0
    ensures !UpdatesN(p, 30).isAlive
    ensures var r := UpdatesN(p, 31);
            r.isAlive && r.At() == PlayerStart && r.dir == Stop &&
            r.immuneTimer == RespawnImmunity && r.deathFrame == 0 &&
            r.pixX == PixelOf(1) && r.pixY == PixelOf(1)
  {
    DeathCountsUp(p, 30);
    UpdatesNSnoc(p, 30);
  }

  /** One frame of a live player keeps it alive and counts its immunity down. */
  lemma AliveFrame(p: PlayerData)
    requires p.isAlive
    ensures AfterUpdate(p).isAlive
    ensures AfterUpdate(p).immuneTimer == if p.immuneTimer > 0 then p.immuneTimer - 1 else p.immuneTimer
  {
    var q := Advance(Steer(Countdown(p)));
    assert q.isAlive && q.immuneTimer == Countdown(p).immuneTimer;
  }

  /** While alive, immunity drops by one per frame. */
  lemma {:induction false} ImmunityCountsDown(p: PlayerData, n: nat)
    requires p.isAlive && n <= p.immuneTimer
    ensures UpdatesN(p, n).isAlive && UpdatesN(p, n).immuneTimer == p.immuneTimer - n
    decreases n
  {
    if n > 0 {
      AliveFrame(p);
      ImmunityCountsDown(AfterUpdate(p), n - 1);
    }
  }

  /** The frames of Player.update alone never kill the player; only a ghost
      contact does. */
  lemma {:induction false} UpdateNeverKills(p: PlayerData, n: nat)
    requires p.isAlive
    ensures UpdatesN(p, n).isAlive
    decreases n
  {
    if n > 0 {
      AliveFrame(p);
      UpdateNeverKills(AfterUpdate(p), n - 1);
    }
  }

  // ---------------------------------------------------------------
  // Portals
  // ---------------------------------------------------------------

  /** The player's portal swaps the two ends of row 7, landing on the other
      portal cell, and then blocks the portal for 10 frames. */
  lemma PlayerPortalSwapsEnds(p: PlayerData)
    requires p.portalCooldown == 0 && InMap(p.At()) && TileAt(p.At()) == 'P'
    ensures var r := Teleport(p);
            r.gridY == p.gridY == 7 && r.portalCooldown == PlayerPortalCooldown &&
            InMap(r.At()) && TileAt(r.At()) == 'P' &&
            (p.gridX == 0 <==> r.gridX == Cols - 1) &&
            r.pixX == PixelOf(r.gridX)
  {
    PortalCells(p.At());
  }

  /** A live player standing still on a portal cell with nothing requested. */
  predicate ParkedOnPortal(p: PlayerData)
  {
    p.isAlive && p.dir == Stop && p.nextDir == Stop && p.bufferDir == Stop &&
    (p.At() == Cell(0, 7) || p.At() == Cell(Cols - 1, 7)) &&
    p.pixX == PixelOf(p.gridX) && p.pixY == PixelOf(p.gridY)
  }

  function OtherEnd(c: Cell): Cell
  {
    if c.x == 0 then Cell(Cols - 1, 7) else Cell(0, 7)
  }

  lemma ParkedFrame(p: PlayerData)
    requires ParkedOnPortal(p) && 0 <= p.portalCooldown
    ensures var r := AfterUpdate(p);
            ParkedOnPortal(r) &&
            (p.portalCooldown <= 1 ==> r.At() == OtherEnd(p.At()) && r.portalCooldown == PlayerPortalCooldown) &&
            (p.portalCooldown > 1 ==> r.At() == p.At() && r.portalCooldown == p.portalCooldown - 1)
  {
    TileOfPixel(p.gridX);
    TileOfPixel(7);
  }

  lemma {:induction false} ParkedWaits(p: PlayerData, n: nat)
    requires ParkedOnPortal(p) && n < p.portalCooldown
    ensures ParkedOnPortal(UpdatesN(p, n)) && UpdatesN(p, n).At() == p.At()
    ensures UpdatesN(p, n).portalCooldown == p.portalCooldown - n
    decreases n
  {
    if n > 0 {
      ParkedFrame(p);
      ParkedWaits(AfterUpdate(p), n - 1);
    }
  }

  /** A player parked on a portal with cooldown k crosses to the other end
      on the k-th frame (at once when k is 0), with the cooldown back at 10. */
  lemma ParkedCrosses(p: PlayerData)
    requires ParkedOnPortal(p) && 1 <= p.portalCooldown
    ensures var r := UpdatesN(p, p.portalCooldown);
            ParkedOnPortal(r) && r.At() == OtherEnd(p.At()) &&
            r.portalCooldown == PlayerPortalCooldown
  {
    var k := p.portalCooldown - 1;
    ParkedWaits(p, k);
    ParkedFrame(UpdatesN(p, k));
    UpdatesNSnoc(p, k);
  }

  /** A player that stands still on a portal never settles: after its
      cooldown it is thrown to the other end of the row, and 10 frames
      later back to where it stood. */
  lemma ParkedPlayerShuttles(p: PlayerData)
    requires ParkedOnPortal(p) && 1 <= p.portalCooldown
    ensures var there := UpdatesN(p, p.portalCooldown);
            var back := UpdatesN(there, PlayerPortalCooldown);
            there.At() != p.At() && ParkedOnPortal(back) && back.At() == p.At() &&
            back.portalCooldown == PlayerPortalCooldown
  {
    var there := UpdatesN(p, p.portalCooldown);
    ParkedCrosses(p);
    ParkedCrosses(there);
  }
}
