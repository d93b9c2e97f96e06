/**
  The game: its global state (phase, scores, lives, the player, the four
  ghosts, coins and bonuses), init_game, the event handling of the main
  loop and the per-frame update and resolution while playing.
 */
module Games {
  import opened Grid
  import opened Targeting
  import opened Decision
  import opened Ghosts
  import opened Players
  import opened Level
  import opened Menus
  import opened Resolution
  import opened ResolutionProperties

  /** ghost_speeds for difficulties 1..3. */
  function GhostSpeedFor(difficulty: int): (speed: real)
    requires 1 <= difficulty <= 3
    ensures 0.0 < speed
  {
    [0.6, 1.0, 1.4][difficulty - 1]
  }

  /** The start cells and colours of the four ghosts, in list order. */
  const GhostStarts: seq<Cell> := [Cell(12, 15), Cell(12, 16), Cell(13, 16), Cell(13, 15)]
  const GhostColours: seq<Colour> := [Red, Pink, Cyan, Orange]

  function ViewsOf(gs: seq<Ghost>): (r: seq<GhostData>)
    reads set g | g in gs
    ensures |r| == |gs| && forall i :: 0 <= i < |gs| ==> r[i] == gs[i].View()
  {
    if gs == [] then [] else [gs[0].View()] + ViewsOf(gs[1..])
  }

  function ConfigsOf(gs: seq<Ghost>): (r: seq<GhostConfig>)
    ensures |r| == |gs| && forall i :: 0 <= i < |gs| ==> r[i] == gs[i].config
  {
    if gs == [] then [] else [gs[0].config] + ConfigsOf(gs[1..])
  }

  /** The ghosts' current states are vs, one for one. */
  predicate Shows(gs: seq<Ghost>, vs: seq<GhostData>)
    reads set g | g in gs
  {
    |gs| == |vs| && forall k :: 0 <= k < |gs| ==> gs[k].View() == vs[k]
  }

  lemma ShowsViews(gs: seq<Ghost>, vs: seq<GhostData>)
    requires Shows(gs, vs)
    ensures ViewsOf(gs) == vs
  {
  }

  predicate DistinctGhosts(gs: seq<Ghost>)
  {
    forall i, j :: 0 <= i < j < |gs| ==> gs[i] != gs[j]
  }

  /** A ghost as the constructor creates it at a start cell with a colour:
      the personality of its colour and the difficulty's speed; its first
      direction is left to the constructor's own contract. */
  predicate SpawnedAs(g: GhostData, cfg: GhostConfig, start: Cell, colour: Colour, speed: real)
    requires PersonalityOf(colour).Some?
  {
    cfg == GhostConfig(PersonalityOf(colour).value, speed, start) &&
    g.(dir := Stop) == InitialGhost(start.x, start.y, colour)
  }

  class Game {
    var phase: Phase
    /** The score shown and recorded; never reset. */
    var currentScore: int
    /** The variable init_game resets; nothing else reads it. */
    var score: int
    var highScore: int
    /** The content of the high-score file. */
    var stored: int
    var lives: int
    var ghostSpeed: real
    var player: Player
    var ghosts: seq<Ghost>
    var coins: seq<Cell>
    var bonuses: seq<Bonus>
    var running: bool
    const menu: Menu

    predicate Valid()
      reads this, menu
    {
      |ghosts| == 4 && DistinctGhosts(ghosts) && Distinct(coins) && menu.Valid()
    }

    function State(): World
      reads this, player, set g | g in ghosts
    {
      World(phase, currentScore, lives, highScore, stored, player.View(), ViewsOf(ghosts), coins, bonuses)
    }

    /** What init_game leaves behind for a difficulty. */
    predicate FreshLevel(difficulty: int)
      requires 1 <= difficulty <= 3
      reads this, player, set g | g in ghosts
    {
      lives == 3 && phase == Playing && highScore == stored &&
      coins == LevelCoins() && bonuses == LevelBonuses() &&
      player.View() == InitialPlayer(PlayerStart.x, PlayerStart.y) &&
      ghostSpeed == GhostSpeedFor(difficulty) &&
      |ghosts| == 4 && DistinctGhosts(ghosts) &&
      forall i :: 0 <= i < 4 ==>
        SpawnedAs(ghosts[i].View(), ghosts[i].config, GhostStarts[i], GhostColours[i], ghostSpeed)
    }

    /** Start-up: the menu, the high score read from the file (absent file:
        0), a level laid out for the menu's difficulty, then the menu phase. */
    constructor (file: int)
      ensures Valid() && fresh(menu) && menu.View() == MenuData(0, 1)
      ensures phase == InMenu && running && score == 0 && currentScore == 0
      ensures stored == file && highScore == file && lives == 3
      ensures coins == LevelCoins() && bonuses == LevelBonuses()
    {
      menu := new Menu();
      phase := InMenu;
      currentScore, score, highScore, stored := 0, 0, file, file;
      running := true;
      // the global player is None until init_game creates one
      player := new Player(PlayerStart.x, PlayerStart.y);
      ghosts := [];
      coins, bonuses := [], [];
      lives, ghostSpeed := 3, 0.0;
      new;
      InitGame(menu.difficulty);
      phase := InMenu;
    }

    /** init_game. */
    method InitGame(difficulty: int)
      requires 1 <= difficulty <= 3 && menu.Valid()
      modifies this`score, this`ghostSpeed, this`coins, this`bonuses, this`player, this`ghosts
      modifies this`highScore, this`lives, this`phase
      ensures FreshLevel(difficulty) && Valid()
      ensures fresh(player) && forall i :: 0 <= i < |ghosts| ==> fresh(ghosts[i])
      ensures score == (if old(phase) != Won then 0 else old(score))
    {
      if phase != Won {
        score := 0;
      }
      ghostSpeed := GhostSpeedFor(difficulty);
      LayOutLevel();
      player := new Player(PlayerStart.x, PlayerStart.y);
      ghosts := SpawnGhosts(GhostStarts, GhostColours, ghostSpeed);
      highScore := stored;
      lives := 3;
      phase := Playing;
    }

    /** The coins and bonuses of init_game, laid out from MAP. */
    method LayOutLevel()
      modifies this`coins, this`bonuses
      ensures coins == LevelCoins() && bonuses == LevelBonuses() && Distinct(coins)
    {
      coins, bonuses := LayOut(Map);
      LevelCoinsSpec();
    }

    /** The four ghosts of init_game, from their start cells and colours
        in list order. */
    static method SpawnGhosts(starts: seq<Cell>, colours: seq<Colour>, speed: real) returns (gs: seq<Ghost>)
      requires |starts| == 4 && |colours| == 4
      requires forall i :: 0 <= i < 4 ==> PersonalityOf(colours[i]).Some?
      ensures |gs| == 4 && DistinctGhosts(gs)
      ensures forall i :: 0 <= i < 4 ==>
                fresh(gs[i]) && SpawnedAs(gs[i].View(), gs[i].config, starts[i], colours[i], speed)
    {
      var blinky := new Ghost(starts[0].x, starts[0].y, colours[0], speed);
      var pinky := new Ghost(starts[1].x, starts[1].y, colours[1], speed);
      var inky := new Ghost(starts[2].x, starts[2].y, colours[2], speed);
      var clyde := new Ghost(starts[3].x, starts[3].y, colours[3], speed);
      gs := [blinky, pinky, inky, clyde];
    }

    /** One event of the main loop's event handling. */
    method HandleEvent(e: Event)
      requires Valid()
      modifies this, menu, player
      ensures Valid()
      ensures currentScore == old(currentScore) && stored == old(stored)
      ensures running == (old(running) && e != Quit &&
                          !(old(phase) == InMenu && AfterInput(old(menu.View()), e).1 == Some(ExitGame)))
      ensures old(phase) == InMenu ==>
                var (m, action) := AfterInput(old(menu.View()), e);
                menu.View() == m &&
                if action == Some(StartGame) then FreshLevel(m.difficulty) && score == 0
                else phase == InMenu && player == old(player) && player.View() == old(player.View())
      ensures old(phase) == Playing ==>
                menu.View() == old(menu.View()) && player == old(player) &&
                if e.KeyDown? && KeyDirection(e.key) != Stop then
                  phase == Playing && player.View() == old(player.View()).(nextDir := KeyDirection(e.key))
                else
                  phase == (if e == KeyDown(EscapeKey) then InMenu else Playing) && player.View() == old(player.View())
      ensures (old(phase) == Won || old(phase) == GameOver) ==>
                menu.View() == old(menu.View()) &&
                if e == KeyDown(ReturnKey) && old(phase) == Won then FreshLevel(menu.difficulty) && score == old(score)
                else phase == (if e == KeyDown(EscapeKey) then InMenu else old(phase)) &&
                     player == old(player) && player.View() == old(player.View())
      ensures !((old(phase) == InMenu && AfterInput(old(menu.View()), e).1 == Some(StartGame)) ||
                (old(phase) == Won && e == KeyDown(ReturnKey))) ==>
                lives == old(lives) && coins == old(coins) && bonuses == old(bonuses) &&
                ghosts == old(ghosts) && highScore == old(highScore) && score == old(score) &&
                ghostSpeed == old(ghostSpeed)
    {
      if e == Quit {
        running := false;
      }
      if phase == InMenu {
        var action := menu.HandleInput(e);
        if action == Some(StartGame) {
          InitGame(menu.difficulty);
          phase := Playing;
        } else if action == Some(ExitGame) {
          running := false;
        }
      } else if phase == Playing {
        if e.KeyDown? {
          var d := KeyDirection(e.key);
          if d != Stop {
            player.nextDir := d;
          } else if e.key == EscapeKey {
            phase := InMenu;
          }
        }
      } else {
        if e == KeyDown(ReturnKey) && phase == Won {
          InitGame(menu.difficulty);
          phase := Playing;
        } else if e == KeyDown(EscapeKey) {
          phase := InMenu;
        }
      }
    }

    /** One frame while playing: the player's update, each ghost's update in
        list order, then contacts, coins, bonuses and the win check. homing
        holds, for each ghost, the distance return_to_home divides by. */
    method Frame(homing: seq<real>) returns (ghost choices: seq<Dir>, ghost flips: seq<seq<bool>>)
      requires Valid() && |homing| == |ghosts|
      modifies this`lives, this`currentScore, this`phase, this`coins, this`bonuses, this`highScore, this`stored
      modifies player, set g | g in ghosts
      ensures Valid()
      ensures FrameInputsFit(old(State()), ConfigsOf(ghosts), homing, choices, flips)
      ensures FrameChoicesOk(old(State()), ConfigsOf(ghosts), homing, choices)
      ensures State() == AfterFrame(old(State()), ConfigsOf(ghosts), homing, choices, flips)
    {
      choices := MoveAll(homing);
      flips := ResolveAll();
    }

    /** The movement half of a frame. */
    method MoveAll(homing: seq<real>) returns (ghost choices: seq<Dir>)
      requires DistinctGhosts(ghosts) && |homing| == |ghosts|
      modifies player, set g | g in ghosts
      ensures |choices| == |ghosts|
      ensures FrameChoicesOk(old(State()), ConfigsOf(ghosts), homing, choices)
      ensures State() == AfterMoves(old(State()), ConfigsOf(ghosts), homing, choices)
    {
      ghost var w := State();
      player.Update();
      choices := UpdateGhosts(homing);
      ShowsViews(ghosts, AtTurn(w.ghosts, ConfigsOf(ghosts), homing, choices, |ghosts|));
    }

    /** The resolution half of a frame. */
    method ResolveAll() returns (ghost flips: seq<seq<bool>>)
      requires DistinctGhosts(ghosts) && Distinct(coins)
      modifies this`lives, this`currentScore, this`phase, this`coins, this`bonuses, this`highScore, this`stored
      modifies player`isAlive, set g | g in ghosts
      ensures Distinct(coins)
      ensures |flips| == |old(bonuses)| && FlipsFit(flips, |ghosts|)
      ensures State() == AfterResolve(old(State()), flips)
    {
      ResolveContacts();
      CollectCoins();
      flips := CollectBonuses();
      CheckWin();
    }

    /** The ghost loop: each ghost updated in turn, seeing the player after
        its update and the ghosts before it already updated. */
    method UpdateGhosts(homing: seq<real>) returns (ghost choices: seq<Dir>)
      requires DistinctGhosts(ghosts) && |homing| == |ghosts|
      modifies set g | g in ghosts
      ensures |choices| == |ghosts|
      ensures var pv := Sighting(player.View());
              GhostChoicesOk(old(ViewsOf(ghosts)), ConfigsOf(ghosts), pv, homing, choices, |ghosts|) &&
              Shows(ghosts, AtTurn(old(ViewsOf(ghosts)), ConfigsOf(ghosts), homing, choices, |ghosts|))
    {
      var pv := PlayerView(Cell(player.gridX, player.gridY), player.dir);
      ghost var start := ViewsOf(ghosts);
      ghost var cfgs := ConfigsOf(ghosts);
      choices := [];
      for i := 0 to |ghosts|
        invariant |choices| == i
        invariant Shows(ghosts, AtTurn(start, cfgs, homing, choices, i))
        invariant GhostChoicesOk(start, cfgs, pv, homing, choices, i)
      {
        ghost var before := AtTurn(start, cfgs, homing, choices, i);
        ghost var d := UpdateGhost(i, pv, homing, before);
        GhostStep(start, cfgs, homing, choices, d, i);
        GhostChoiceStep(start, cfgs, pv, homing, choices, d, i);
        choices := choices + [d];
      }
    }

    /** One iteration of the ghost loop: ghost i updated, seeing the ghosts
        as they are. */
    method UpdateGhost(i: nat, pv: PlayerView, homing: seq<real>, ghost before: seq<GhostData>) returns (ghost d: Dir)
      requires DistinctGhosts(ghosts) && i < |ghosts| == |before| && |homing| == |ghosts|
      requires Shows(ghosts, before)
      modifies ghosts[i]
      ensures TickChoiceOk(before[i], ghosts[i].config, pv, Sightings(before), d)
      ensures Shows(ghosts, before[i := AfterTick(before[i], ghosts[i].config, homing[i], d)])
    {
      ShowsViews(ghosts, before);
      d := ghosts[i].Update(pv, Sightings(ViewsOf(ghosts)), homing[i]);
      forall k | 0 <= k < |ghosts| && k != i
        ensures ghosts[k].View() == before[k]
      {
        assert ghosts[k] != ghosts[i];
      }
    }

    /** The ghost contact loop. */
    method ResolveContacts()
      requires DistinctGhosts(ghosts)
      modifies this`lives, this`currentScore, this`phase, player`isAlive, set g | g in ghosts
      ensures State() == AfterContacts(old(State()))
    {
      ghost var w := State();
      ghost var t0 := Tally(player.isAlive, lives, currentScore, false);
      var box := AgentRect(player.pixX, player.pixY);
      for i := 0 to |ghosts|
        invariant var c := ContactsUpTo(t0, w.player, w.ghosts, i);
                  player.View() == w.player.(isAlive := c.tally.alive) &&
                  lives == c.tally.lives && currentScore == c.tally.score && Shows(ghosts, c.ghosts) &&
                  phase == (if c.tally.gameOver then GameOver else w.phase)
      {
        ghost var c := ContactsUpTo(t0, w.player, w.ghosts, i);
        ContactGhost(i, box, w.player, c.tally, w.phase, c.ghosts);
      }
      ShowsViews(ghosts, ContactsUpTo(t0, w.player, w.ghosts, |ghosts|).ghosts);
    }

    /** One ghost of the contact loop: the player p, with the tally t so
        far, meets ghost i. */
    method ContactGhost(i: nat, box: Rect, ghost p: PlayerData, ghost t: Tally, ghost base: Phase, ghost vs: seq<GhostData>)
      requires DistinctGhosts(ghosts) && i < |ghosts| && Shows(ghosts, vs)
      requires box == AgentRect(p.pixX, p.pixY) && player.View() == p.(isAlive := t.alive)
      requires lives == t.lives && currentScore == t.score && phase == (if t.gameOver then GameOver else base)
      modifies this`lives, this`currentScore, this`phase, player`isAlive, ghosts[i]
      ensures var s := ContactStep(t, p, vs[i]);
              player.View() == p.(isAlive := s.tally.alive) && lives == s.tally.lives &&
              currentScore == s.tally.score && phase == (if s.tally.gameOver then GameOver else base) &&
              Shows(ghosts, vs[i := s.ghosts[0]])
    {
      var g := ghosts[i];
      if Collide(box, AgentRect(g.pixX, g.pixY)) && player.isAlive {
        if g.state == Frightened {
          g.HandleEaten();
          currentScore := currentScore + GhostPoints;
        } else if g.state != Eaten && player.immuneTimer <= 0 {
          lives := lives - 1;
          player.isAlive := false;
          if lives <= 0 {
            phase := GameOver;
          }
        }
      }
      forall k | 0 <= k < |ghosts| && k != i
        ensures ghosts[k].View() == vs[k]
      {
        assert ghosts[k] != g;
      }
    }

    /** The coin loop: over a copy of the list, each touched coin is removed
        from the live list for 10 points. */
    method CollectCoins()
      requires Distinct(coins)
      modifies this`coins, this`currentScore
      ensures State() == AfterCoins(old(State())) && Distinct(coins)
    {
      ghost var w := State();
      TakeCoins();
      assert ViewsOf(ghosts) == w.ghosts && player.View() == w.player;
      assert State() == w.(coins := coins, currentScore := currentScore);
    }

    /** The loop itself, on the coin list and the score. */
    method TakeCoins()
      requires Distinct(coins)
      modifies this`coins, this`currentScore
      ensures coins == KeptCoins(old(coins), player.View()) && Distinct(coins)
      ensures currentScore == old(currentScore) + CoinPoints * (|old(coins)| - |coins|)
    {
      var copy := coins;
      var box := AgentRect(player.pixX, player.pixY);
      for i := 0 to |copy|
        invariant coins == KeptCoins(copy[..i], player.View()) + copy[i..]
        invariant currentScore == old(currentScore) + CoinPoints * (i - |KeptCoins(copy[..i], player.View())|)
      {
        VisitCoin(copy, i, box);
      }
      assert copy[..|copy|] == copy;
      assert Distinct(coins) by {
        KeptCoinsSpec(copy, player.View());
      }
    }

    /** One coin of the coin loop: coin i of the copy is removed from the
        live list, for 10 points, when the player touches it. */
    method VisitCoin(copy: seq<Cell>, i: nat, box: Rect)
      requires Distinct(copy) && i < |copy| && box == AgentRect(player.pixX, player.pixY)
      requires coins == KeptCoins(copy[..i], player.View()) + copy[i..]
      modifies this`coins, this`currentScore
      ensures coins == KeptCoins(copy[..i + 1], player.View()) + copy[i + 1..]
      ensures currentScore - old(currentScore) ==
              CoinPoints * (1 + |KeptCoins(copy[..i], player.View())| - |KeptCoins(copy[..i + 1], player.View())|)
    {
      KeptCoinsSnoc(copy[..i], copy[i], player.View());
      assert copy[..i + 1] == copy[..i] + [copy[i]];
      RemoveVisitedCoin(copy, player.View(), i);
      if Collide(box, CoinRect(copy[i])) {
        coins := RemoveCoin(coins, copy[i]);
        currentScore := currentScore + CoinPoints;
      }
    }

    /** The bonus loop, with the energizer fan-out. */
    method CollectBonuses() returns (ghost flips: seq<seq<bool>>)
      requires DistinctGhosts(ghosts)
      modifies this`bonuses, this`currentScore, set g | g in ghosts
      ensures |flips| == |old(bonuses)| && FlipsFit(flips, |ghosts|)
      ensures State() == AfterBonuses(old(State()), flips)
    {
      ghost var start := Pickups(bonuses, currentScore, ViewsOf(ghosts));
      ghost var p := player.View();
      flips := [];
      for i := 0 to |bonuses|
        invariant |flips| == i && FlipsFit(flips, |ghosts|) && |bonuses| == |start.bonuses|
        invariant var r := BonusesUpTo(start, p, flips, i);
                  bonuses == r.bonuses && currentScore == r.score && Shows(ghosts, r.ghosts)
      {
        ghost var turns := PickBonus(i, BonusesUpTo(start, p, flips, i));
        BonusesUpToStep(start, p, flips, turns, i);
        flips := flips + [turns];
      }
      ShowsViews(ghosts, BonusesUpTo(start, p, flips, |bonuses|).ghosts);
    }

    /** One bonus of the bonus loop, with r the pickups so far: an active
        bonus in reach is taken for its value, and an energizer frightens
        every ghost that is not eaten. */
    method PickBonus(i: nat, ghost r: Pickups) returns (ghost turns: seq<bool>)
      requires DistinctGhosts(ghosts) && i < |bonuses|
      requires bonuses == r.bonuses && currentScore == r.score && Shows(ghosts, r.ghosts)
      modifies this`bonuses, this`currentScore, set g | g in ghosts
      ensures |turns| == |ghosts|
      ensures var n := PickupStep(r, player.View(), i, turns);
              bonuses == n.bonuses && currentScore == n.score && Shows(ghosts, n.ghosts)
    {
      var b := bonuses[i];
      turns := seq(|ghosts|, _ => false);
      if b.active && InBonusReach(player.pixX, player.pixY, b) {
        bonuses := bonuses[i := b.(active := false)];
        currentScore := currentScore + BonusValue(b);
        if b.energizer {
          turns := FrightenGhosts(r.ghosts);
        }
      }
    }

    /** set_frightened(5) on every ghost that is not eaten. */
    method FrightenGhosts(ghost vs: seq<GhostData>) returns (ghost flips: seq<bool>)
      requires DistinctGhosts(ghosts) && Shows(ghosts, vs)
      modifies set g | g in ghosts
      ensures |flips| == |ghosts| && Shows(ghosts, FrightenAll(vs, flips))
    {
      flips := [];
      for j := 0 to |ghosts|
        invariant |flips| == j
        invariant forall k :: 0 <= k < j ==>
                    ghosts[k].View() == if vs[k].state != Eaten
                                        then AfterSetFrightened(vs[k], EnergizerSeconds, flips[k])
                                        else vs[k]
        invariant forall k :: j <= k < |ghosts| ==> ghosts[k].View() == vs[k]
      {
        assert forall k :: 0 <= k < |ghosts| && k != j ==> ghosts[k] != ghosts[j];
        ghost var turned := false;
        if ghosts[j].state != Eaten {
          turned := ghosts[j].SetFrightened(EnergizerSeconds);
        }
        flips := flips + [turned];
      }
    }

    /** The win check. */
    method CheckWin()
      modifies this`phase, this`highScore, this`stored
      ensures State() == AfterWinCheck(old(State()))
    {
      if |coins| == 0 && !AnyActive(bonuses) {
        phase := Won;
        if currentScore > highScore {
          highScore := currentScore;
          stored := highScore;
        }
      }
    }
  }

  /** One ghost of the ghost loop: the update of ghost i, from its state
      before the loop, extends the list of updated ghosts by one. */
  lemma GhostStep(gs: seq<GhostData>, cfgs: seq<GhostConfig>,
                  homing: seq<real>, choices: seq<Dir>, d: Dir, i: nat)
    requires i < |gs| == |cfgs| && |gs| <= |homing| && |choices| == i
    ensures AtTurn(gs, cfgs, homing, choices + [d], i + 1) ==
            AtTurn(gs, cfgs, homing, choices, i)[i := AfterTick(gs[i], cfgs[i], homing[i], d)]
  {
    var c2 := choices + [d];
    forall k | 0 <= k < i
      ensures c2[k] == choices[k]
    {
    }
  }

  /** ... and a choice ghost i can make extends the admissible choices. */
  lemma GhostChoiceStep(gs: seq<GhostData>, cfgs: seq<GhostConfig>, pv: PlayerView,
                        homing: seq<real>, choices: seq<Dir>, d: Dir, i: nat)
    requires i < |gs| == |cfgs| && |gs| <= |homing| && |choices| == i
    requires GhostChoicesOk(gs, cfgs, pv, homing, choices, i)
    requires TickChoiceOk(gs[i], cfgs[i], pv, Sightings(AtTurn(gs, cfgs, homing, choices, i)), d)
    ensures GhostChoicesOk(gs, cfgs, pv, homing, choices + [d], i + 1)
  {
    var c2 := choices + [d];
    forall k | 0 <= k < i + 1
      ensures TickChoiceOk(gs[k], cfgs[k], pv, Sightings(AtTurn(gs, cfgs, homing, c2, k)), c2[k])
    {
      AtTurnPrefix(gs, cfgs, homing, choices, c2, k);
    }
  }

  /** The ghosts at a turn depend only on the choices made before it. */
  lemma AtTurnPrefix(gs: seq<GhostData>, cfgs: seq<GhostConfig>,
                     homing: seq<real>, c1: seq<Dir>, c2: seq<Dir>, n: nat)
    requires n <= |gs| == |cfgs| && n <= |homing| && n <= |c1| && n <= |c2|
    requires forall k :: 0 <= k < n ==> c1[k] == c2[k]
    ensures AtTurn(gs, cfgs, homing, c1, n) == AtTurn(gs, cfgs, homing, c2, n)
  {
  }

  /** The direction an arrow key requests; Stop for the other keys. */
  function KeyDirection(k: Key): (d: Dir)
    ensures d != Stop <==> k in {LeftKey, RightKey, UpKey, DownKey}
  {
    match k
    case LeftKey => Left
    case RightKey => Right
    case UpKey => Up
    case DownKey => Down
    case _ => Stop
  }

  /** One bonus of the bonus loop extends the pickups by one step. */
  lemma BonusesUpToStep(s: Pickups, p: PlayerData, flips: seq<seq<bool>>, turns: seq<bool>, i: nat)
    requires i < |s.bonuses| && |flips| == i && FlipsFit(flips, |s.ghosts|) && |turns| == |s.ghosts|
    ensures FlipsFit(flips + [turns], |s.ghosts|)
    ensures BonusesUpTo(s, p, flips + [turns], i + 1) == PickupStep(BonusesUpTo(s, p, flips, i), p, i, turns)
  {
    var f2 := flips + [turns];
    assert flips[..i] == f2[..i];
    BonusesUpToPrefix(s, p, flips, f2, i);
  }

  lemma {:induction false} BonusesUpToPrefix(s: Pickups, p: PlayerData, f1: seq<seq<bool>>, f2: seq<seq<bool>>, n: nat)
    requires n <= |s.bonuses| && n <= |f1| && n <= |f2| && f1[..n] == f2[..n]
    requires FlipsFit(f1, |s.ghosts|) && FlipsFit(f2, |s.ghosts|)
    ensures BonusesUpTo(s, p, f1, n) == BonusesUpTo(s, p, f2, n)
    decreases n
  {
    if n > 0 {
      assert f1[..n - 1] == f2[..n - 1] && f1[n - 1] == f2[n - 1] by {
        assert f1[..n - 1] == f1[..n][..n - 1] && f2[..n - 1] == f2[..n][..n - 1];
        assert f1[n - 1] == f1[..n][n - 1] && f2[n - 1] == f2[..n][n - 1];
      }
      BonusesUpToPrefix(s, p, f1, f2, n - 1);
    }
  }
}
