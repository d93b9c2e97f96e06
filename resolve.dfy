/**
  The per-frame resolution of the main loop while a game is being played,
  as functions of the game's state: the ghosts' updates in list order, the
  ghost contacts, the coin and bonus pickups with the energizer fan-out,
  and the win check.
 */
module Resolution {
  import opened Grid
  import opened Targeting
  import opened Ghosts
  import opened Players
  import opened Level

  /** game_state. */
  datatype Phase = InMenu | Playing | Won | GameOver

  /** The part of the ghosts the chase heuristics read. */
  function Sightings(gs: seq<GhostData>): (r: seq<GhostView>)
    ensures |r| == |gs|
    ensures forall i :: 0 <= i < |gs| ==> r[i] == GhostView(gs[i].colour, gs[i].At())
  {
    if gs == [] then [] else [GhostView(gs[0].colour, gs[0].At())] + Sightings(gs[1..])
  }

  function Sighting(p: PlayerData): PlayerView
  {
    PlayerView(p.At(), p.dir)
  }

  // ---------------------------------------------------------------
  // The ghosts' updates, in list order
  // ---------------------------------------------------------------

  /** The ghosts as ghost n's turn comes. A ghost's update changes only
      that ghost, so each of the first n has been updated from its own state
      before the loop, and the others are as they were. */
  function AtTurn(gs: seq<GhostData>, cfgs: seq<GhostConfig>, homing: seq<real>,
                  choices: seq<Dir>, n: nat): (r: seq<GhostData>)
    requires n <= |gs| == |cfgs| && n <= |homing| && n <= |choices|
    ensures |r| == |gs|
    ensures forall k :: 0 <= k < |gs| ==>
              r[k] == if k < n then AfterTick(gs[k], cfgs[k], homing[k], choices[k]) else gs[k]
  {
    seq(|gs|, k requires 0 <= k < |gs| =>
      if k < n then AfterTick(gs[k], cfgs[k], homing[k], choices[k]) else gs[k])
  }

  /** The random or closest-direction choices each ghost can make in turn,
      seeing the ghosts before it already updated and those after it not yet. */
  predicate GhostChoicesOk(gs: seq<GhostData>, cfgs: seq<GhostConfig>, pv: PlayerView,
                           homing: seq<real>, choices: seq<Dir>, n: nat)
    requires n <= |gs| == |cfgs| && n <= |homing| && n <= |choices|
  {
    forall i :: 0 <= i < n ==>
      TickChoiceOk(gs[i], cfgs[i], pv, Sightings(AtTurn(gs, cfgs, homing, choices, i)), choices[i])
  }

  // ---------------------------------------------------------------
  // Ghost contacts
  // ---------------------------------------------------------------

  /** What the contact loop carries from ghost to ghost. */
  datatype Tally = Tally(alive: bool, lives: int, score: int, gameOver: bool)

  datatype Contacts = Contacts(tally: Tally, ghosts: seq<GhostData>)

  predicate Touching(p: PlayerData, g: GhostData)
  {
    Collide(AgentRect(p.pixX, p.pixY), AgentRect(g.pixX, g.pixY))
  }

  /** One ghost of the contact loop: a live player eats a frightened ghost,
      or loses a life to a ghost that is neither frightened nor eaten
      unless immune. */
  function ContactStep(t: Tally, p: PlayerData, g: GhostData): Contacts
  {
    if Touching(p, g) && t.alive then
      if g.state == Frightened then Contacts(t.(score := t.score + GhostPoints), [AfterEaten(g)])
      else if g.state != Eaten && p.immuneTimer <= 0 then
        Contacts(t.(lives := t.lives - 1, alive := false, gameOver := t.gameOver || t.lives - 1 <= 0), [g])
      else Contacts(t, [g])
    else Contacts(t, [g])
  }

  /** The contact loop over the first n ghosts. */
  function ContactsUpTo(t: Tally, p: PlayerData, gs: seq<GhostData>, n: nat): (r: Contacts)
    requires n <= |gs|
    ensures |r.ghosts| == |gs| && r.ghosts[n..] == gs[n..]
    decreases n
  {
    if n == 0 then Contacts(t, gs)
    else
      var prev := ContactsUpTo(t, p, gs, n - 1);
      var step := ContactStep(prev.tally, p, prev.ghosts[n - 1]);
      var r := Contacts(step.tally, prev.ghosts[n - 1 := step.ghosts[0]]);
      assert r.ghosts[n..] == gs[n..] by {
        forall j | n <= j < |gs| ensures r.ghosts[j] == gs[j] {
          assert prev.ghosts[j] == prev.ghosts[n - 1..][j - n + 1];
        }
      }
      r
  }

  /** The number of positions below n where two ghost lists differ. */
  function Differences(a: seq<GhostData>, b: seq<GhostData>, n: nat): (k: nat)
    requires n <= |a| && n <= |b|
    ensures k <= n
  {
    if n == 0 then 0
    else Differences(a, b, n - 1) + (if a[n - 1] != b[n - 1] then 1 else 0)
  }

  // ---------------------------------------------------------------
  // Coins
  // ---------------------------------------------------------------

  predicate TakesCoin(p: PlayerData, c: Cell)
  {
    Collide(AgentRect(p.pixX, p.pixY), CoinRect(c))
  }

  /** The coins of a list the player does not touch, in order. */
  function KeptCoins(coins: seq<Cell>, p: PlayerData): (r: seq<Cell>)
    ensures |r| <= |coins|
    decreases |coins|
  {
    if coins == [] then []
    else
      var last := coins[|coins| - 1];
      KeptCoins(coins[..|coins| - 1], p) + (if TakesCoin(p, last) then [] else [last])
  }

  /** list.remove on the coin list. */
  function RemoveCoin(s: seq<Cell>, x: Cell): seq<Cell>
  {
    if s == [] then []
    else if s[0] == x then s[1..]
    else [s[0]] + RemoveCoin(s[1..], x)
  }

  predicate Distinct(s: seq<Cell>)
  {
    forall i, j :: 0 <= i < j < |s| ==> s[i] != s[j]
  }

  // ---------------------------------------------------------------
  // Bonuses
  // ---------------------------------------------------------------

  predicate Reaches(p: PlayerData, b: Bonus)
  {
    b.active && InBonusReach(p.pixX, p.pixY, b)
  }

  /** set_frightened(5) on every ghost that is not eaten. */
  function FrightenAll(gs: seq<GhostData>, flips: seq<bool>): (r: seq<GhostData>)
    requires |flips| == |gs|
    ensures |r| == |gs|
    ensures forall i :: 0 <= i < |gs| ==>
              r[i] == (if gs[i].state != Eaten then AfterSetFrightened(gs[i], EnergizerSeconds, flips[i]) else gs[i])
  {
    if gs == [] then []
    else
      [if gs[0].state != Eaten then AfterSetFrightened(gs[0], EnergizerSeconds, flips[0]) else gs[0]]
      + FrightenAll(gs[1..], flips[1..])
  }

  datatype Pickups = Pickups(bonuses: seq<Bonus>, score: int, ghosts: seq<GhostData>)

  predicate FlipsFit(flips: seq<seq<bool>>, nGhosts: nat)
  {
    forall i :: 0 <= i < |flips| ==> |flips[i]| == nGhosts
  }

  /** One bonus of the bonus loop: an active bonus in reach is switched off
      for its points; an energizer frightens every ghost that is not eaten,
      with turns the random turn-around of each. */
  function PickupStep(r: Pickups, p: PlayerData, i: nat, turns: seq<bool>): (n: Pickups)
    requires i < |r.bonuses| && |turns| == |r.ghosts|
    ensures |n.bonuses| == |r.bonuses| && |n.ghosts| == |r.ghosts|
    ensures forall j :: 0 <= j < |r.bonuses| && j != i ==> n.bonuses[j] == r.bonuses[j]
  {
    var b := r.bonuses[i];
    if Reaches(p, b) then
      Pickups(r.bonuses[i := b.(active := false)], r.score + BonusValue(b),
              if b.energizer then FrightenAll(r.ghosts, turns) else r.ghosts)
    else r
  }

  /** The bonus loop over the first n bonuses; flips[i] are the random turns
      of the ghosts if bonus i is an energizer the player takes. */
  function BonusesUpTo(s: Pickups, p: PlayerData, flips: seq<seq<bool>>, n: nat): (r: Pickups)
    requires n <= |s.bonuses| && n <= |flips| && FlipsFit(flips, |s.ghosts|)
    ensures |r.bonuses| == |s.bonuses| && r.bonuses[n..] == s.bonuses[n..] && |r.ghosts| == |s.ghosts|
    decreases n
  {
    if n == 0 then s
    else
      var prev := BonusesUpTo(s, p, flips, n - 1);
      var r := PickupStep(prev, p, n - 1, flips[n - 1]);
      assert r.bonuses[n..] == s.bonuses[n..] by {
        forall j | n <= j < |s.bonuses| ensures r.bonuses[j] == s.bonuses[j] {
          assert prev.bonuses[j] == prev.bonuses[n - 1..][j - n + 1];
        }
      }
      r
  }

  predicate AnyActive(bs: seq<Bonus>)
  {
    exists i :: 0 <= i < |bs| && bs[i].active
  }

  // ---------------------------------------------------------------
  // The frame
  // ---------------------------------------------------------------

  /** The game state the main loop reads and writes. stored is the content
      of the high-score file. */
  datatype World = World(
    phase: Phase, currentScore: int, lives: int, highScore: int, stored: int,
    player: PlayerData, ghosts: seq<GhostData>, coins: seq<Cell>, bonuses: seq<Bonus>)

  /** The win check: no coin left and no bonus active. A better score is
      recorded and saved. */
  function AfterWinCheck(w: World): World
  {
    if |w.coins| == 0 && !AnyActive(w.bonuses) then
      var best := if w.currentScore > w.highScore then w.currentScore else w.highScore;
      w.(phase := Won, highScore := best, stored := if w.currentScore > w.highScore then best else w.stored)
    else w
  }

  predicate FrameInputsFit(w: World, cfgs: seq<GhostConfig>, homing: seq<real>, choices: seq<Dir>, flips: seq<seq<bool>>)
  {
    |cfgs| == |w.ghosts| && |homing| == |w.ghosts| && |choices| == |w.ghosts| &&
    |flips| == |w.bonuses| && FlipsFit(flips, |w.ghosts|)
  }

  /** The contacts of a frame, after the player's and the ghosts' updates. */
  function AfterContacts(w: World): World
  {
    var c := ContactsUpTo(Tally(w.player.isAlive, w.lives, w.currentScore, false), w.player, w.ghosts, |w.ghosts|);
    w.(lives := c.tally.lives, currentScore := c.tally.score, ghosts := c.ghosts,
       player := w.player.(isAlive := c.tally.alive),
       phase := if c.tally.gameOver then GameOver else w.phase)
  }

  function AfterCoins(w: World): World
  {
    var kept := KeptCoins(w.coins, w.player);
    w.(coins := kept, currentScore := w.currentScore + CoinPoints * (|w.coins| - |kept|))
  }

  function AfterBonuses(w: World, flips: seq<seq<bool>>): World
    requires |flips| == |w.bonuses| && FlipsFit(flips, |w.ghosts|)
  {
    var r := BonusesUpTo(Pickups(w.bonuses, w.currentScore, w.ghosts), w.player, flips, |w.bonuses|);
    w.(bonuses := r.bonuses, currentScore := r.score, ghosts := r.ghosts)
  }

  /** The movement half of a frame: the player's update, then each ghost's
      in list order, seeing the player after its update. */
  function AfterMoves(w: World, cfgs: seq<GhostConfig>, homing: seq<real>, choices: seq<Dir>): World
    requires |cfgs| == |w.ghosts| && |homing| == |w.ghosts| && |choices| == |w.ghosts|
  {
    w.(player := AfterUpdate(w.player), ghosts := AtTurn(w.ghosts, cfgs, homing, choices, |w.ghosts|))
  }

  /** The resolution half of a frame: contacts, coins, bonuses, the win check. */
  function AfterResolve(w: World, flips: seq<seq<bool>>): World
    requires |flips| == |w.bonuses| && FlipsFit(flips, |w.ghosts|)
  {
    AfterWinCheck(AfterBonuses(AfterCoins(AfterContacts(w)), flips))
  }

  /** One frame of the playing state. */
  function AfterFrame(w: World, cfgs: seq<GhostConfig>, homing: seq<real>,
                      choices: seq<Dir>, flips: seq<seq<bool>>): World
    requires FrameInputsFit(w, cfgs, homing, choices, flips)
  {
    AfterResolve(AfterMoves(w, cfgs, homing, choices), flips)
  }

  predicate FrameChoicesOk(w: World, cfgs: seq<GhostConfig>, homing: seq<real>, choices: seq<Dir>)
    requires |cfgs| == |w.ghosts| && |homing| == |w.ghosts| && |choices| == |w.ghosts|
  {
    GhostChoicesOk(w.ghosts, cfgs, Sighting(AfterUpdate(w.player)), homing, choices, |w.ghosts|)
  }
}
