/**
  The player: buffered turning at cell centres, the stuck rule, the
  death countdown and respawn, the immunity counter and the portal wrap.

  Player.Update is specified by AfterUpdate, a function of the player's
  state before the frame.
 */
module Players {
  import opened Grid

  const PlayerSpeed: real := 1.5
  /** Length of the death animation and how fast it advances. */
  const DeathFrames: int := 60
  const DeathStep: int := 2
  const SpawnImmunity: int := 120
  const RespawnImmunity: int := 180
  const PlayerPortalCooldown: int := 10
  const PlayerStart: Cell := Cell(1, 1)

  datatype PlayerData = PlayerData(
    pixX: real, pixY: real, gridX: int, gridY: int,
    dir: Dir, nextDir: Dir, bufferDir: Dir,
    isAlive: bool, deathFrame: int, immuneTimer: int, portalCooldown: int)
  {
    function At(): Cell
    {
      Cell(gridX, gridY)
    }

    predicate Centred()
    {
      AtCentre(pixX, pixY, At())
    }
  }

  function InitialPlayer(x: int, y: int): PlayerData
  {
    PlayerData(PixelOf(x), PixelOf(y), x, y, Stop, Stop, Stop, true, 0, SpawnImmunity, 0)
  }

  /** A dead player only advances the death animation; past its end the
      player is back at (1,1), alive, still and immune for three seconds. */
  function AfterDeathFrame(p: PlayerData): PlayerData
  {
    var f := p.deathFrame + DeathStep;
    if f > DeathFrames then
      p.(isAlive := true, deathFrame := 0, immuneTimer := RespawnImmunity,
         gridX := PlayerStart.x, gridY := PlayerStart.y,
         pixX := PixelOf(PlayerStart.x), pixY := PixelOf(PlayerStart.y), dir := Stop)
    else p.(deathFrame := f)
  }

  function Countdown(p: PlayerData): PlayerData
  {
    p.(immuneTimer := if p.immuneTimer > 0 then p.immuneTimer - 1 else p.immuneTimer,
       portalCooldown := if p.portalCooldown > 0 then p.portalCooldown - 1 else p.portalCooldown)
  }

  /** At a cell centre a walkable requested turn is taken (and the request
      cleared), failing that a walkable buffered turn. */
  function Steer(p: PlayerData): PlayerData
  {
    if !p.Centred() then p
    else if CanMove(p.At(), p.nextDir) then p.(dir := p.nextDir, nextDir := Stop)
    else if CanMove(p.At(), p.bufferDir) then p.(dir := p.bufferDir, bufferDir := Stop)
    else p
  }

  /** The stuck rule, or one step of 1.5 pixels. */
  function Advance(p: PlayerData): PlayerData
  {
    if !CanMove(p.At(), p.dir) then p.(dir := Stop, pixX := PixelOf(p.gridX), pixY := PixelOf(p.gridY))
    else p.(pixX := p.pixX + DX(p.dir) as real * PlayerSpeed, pixY := p.pixY + DY(p.dir) as real * PlayerSpeed)
  }

  function Regrid(p: PlayerData): PlayerData
  {
    p.(gridX := TileOf(p.pixX), gridY := TileOf(p.pixY))
  }

  /** The player's portal: from column 0 to the last column and back. */
  function Teleport(p: PlayerData): PlayerData
  {
    if p.portalCooldown == 0 && InMap(p.At()) && TileAt(p.At()) == 'P' then
      if p.gridX == 0 then p.(pixX := PixelOf(Cols - 1), gridX := Cols - 1, portalCooldown := PlayerPortalCooldown)
      else if p.gridX == Cols - 1 then p.(pixX := 0.0, gridX := 0, portalCooldown := PlayerPortalCooldown)
      else p
    else p
  }

  /** Player.update without the mouth animation. */
  function AfterUpdate(p: PlayerData): PlayerData
  {
    if !p.isAlive then AfterDeathFrame(p)
    else Teleport(Regrid(Advance(Steer(Countdown(p)))))
  }

  class Player {
    var pixX: real
    var pixY: real
    var gridX: int
    var gridY: int
    var dir: Dir
    var nextDir: Dir
    var bufferDir: Dir
    var isAlive: bool
    var deathFrame: int
    var immuneTimer: int
    var portalCooldown: int

    function View(): PlayerData
      reads this
    {
      PlayerData(pixX, pixY, gridX, gridY, dir, nextDir, bufferDir, isAlive, deathFrame, immuneTimer, portalCooldown)
    }

    constructor (x: int, y: int)
      ensures View() == InitialPlayer(x, y)
    {
      pixX, pixY := PixelOf(x), PixelOf(y);
      gridX, gridY := x, y;
      dir, nextDir, bufferDir := Stop, Stop, Stop;
      isAlive := true;
      deathFrame := 0;
      immuneTimer := SpawnImmunity;
      portalCooldown := 0;
    }

    predicate CanMove(d: Dir)
      reads this
    {
      Grid.CanMove(Cell(gridX, gridY), d)
    }

    /** Player.update: the death countdown, or the timers, the turn at a
        centre, the step, the new cell and the portal, in that order. */
    method Update()
      modifies this
      ensures View() == AfterUpdate(old(View()))
    {
      if !isAlive {
        deathFrame := deathFrame + DeathStep;
        if deathFrame > DeathFrames {
          isAlive := true;
          deathFrame := 0;
          immuneTimer := RespawnImmunity;
          gridX, gridY := PlayerStart.x, PlayerStart.y;
          pixX, pixY := PixelOf(gridX), PixelOf(gridY);
          dir := Stop;
        }
        return;
      }
      if immuneTimer > 0 {
        immuneTimer := immuneTimer - 1;
      }
      if portalCooldown > 0 {
        portalCooldown := portalCooldown - 1;
      }
      ghost var counted := View();
      assert counted == Countdown(old(View()));
      Turn();
      Step();
      gridX := TileOf(pixX);
      gridY := TileOf(pixY);
      assert View() == Regrid(Advance(Steer(counted)));
      UsePortal();
    }

    /** The buffered turn at a cell centre. */
    method Turn()
      modifies this
      ensures View() == Steer(old(View()))
    {
      if AtCentre(pixX, pixY, Cell(gridX, gridY)) {
        if CanMove(nextDir) {
          dir := nextDir;
          nextDir := Stop;
        } else if CanMove(bufferDir) {
          dir := bufferDir;
          bufferDir := Stop;
        }
      }
    }

    /** The stuck rule, or one step. */
    method Step()
      modifies this
      ensures View() == Advance(old(View()))
    {
      if !CanMove(dir) {
        dir := Stop;
        pixX := PixelOf(gridX);
        pixY := PixelOf(gridY);
      } else {
        pixX := pixX + DX(dir) as real * PlayerSpeed;
        pixY := pixY + DY(dir) as real * PlayerSpeed;
      }
    }

    /** The teleport block. */
    method UsePortal()
      modifies this
      ensures View() == Teleport(old(View()))
    {
      if portalCooldown == 0 && InMap(Cell(gridX, gridY)) && TileAt(Cell(gridX, gridY)) == 'P' {
        if gridX == 0 {
          pixX := PixelOf(Cols - 1);
          gridX := Cols - 1;
          portalCooldown := PlayerPortalCooldown;
        } else if gridX == Cols - 1 {
          pixX := 0.0;
          gridX := 0;
          portalCooldown := PlayerPortalCooldown;
        }
      }
    }
  }
}
