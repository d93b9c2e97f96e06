/**
  Properties of the per-frame resolution: what a ghost contact can do to
  the player, the lives and the score; that pickups remove exactly the
  touched coins and deactivate exactly the reached bonuses; the energizer
  fan-out; and the phase a frame ends in.
 */
module ResolutionProperties {
  import opened Grid
  import opened Targeting
  import opened Ghosts
  import opened Players
  import opened Level
  import opened Resolution

  // ---------------------------------------------------------------
  // Contacts
  // ---------------------------------------------------------------

  /** A ghost is changed by the contact loop only by being eaten, only when
      frightened and touched, and every eaten ghost is worth 200 points. */
  lemma {:induction false} ContactsEatOnlyFrightened(t: Tally, p: PlayerData, gs: seq<GhostData>, n: nat)
    requires n <= |gs|
    ensures var r := ContactsUpTo(t, p, gs, n);
            (forall i :: 0 <= i < n ==>
               r.ghosts[i] == gs[i] ||
               (gs[i].state == Frightened && Touching(p, gs[i]) && r.ghosts[i] == AfterEaten(gs[i]))) &&
            r.tally.score == t.score + GhostPoints * Differences(gs, r.ghosts, n)
    decreases n
  {
    if n > 0 {
      ContactsEatOnlyFrightened(t, p, gs, n - 1);
      var prev := ContactsUpTo(t, p, gs, n - 1);
      var r := ContactsUpTo(t, p, gs, n);
      assert prev.ghosts[n - 1] == gs[n - 1];
      DifferencesFrame(gs, prev.ghosts, r.ghosts, n - 1);
    }
  }

  /** A life is lost at most once, exactly when the player dies, never while
      the player is immune or already dead, and the game is over exactly
      when that loss leaves no life. */
  lemma {:induction false} ContactsLives(t: Tally, p: PlayerData, gs: seq<GhostData>, n: nat)
    requires n <= |gs|
    ensures var r := ContactsUpTo(t, p, gs, n);
            (r.tally.alive ==> t.alive) &&
            (r.tally.lives == t.lives - 1 <==> t.alive && !r.tally.alive) &&
            (r.tally.lives == t.lives || r.tally.lives == t.lives - 1) &&
            (r.tally.gameOver <==> t.gameOver || (r.tally.lives == t.lives - 1 && r.tally.lives <= 0)) &&
            (p.immuneTimer > 0 ==> r.tally.alive == t.alive)
    decreases n
  {
    if n > 0 {
      ContactsLives(t, p, gs, n - 1);
    }
  }

  /** A dead player touches nothing. */
  lemma {:induction false} ContactsIgnoreDeadPlayer(t: Tally, p: PlayerData, gs: seq<GhostData>, n: nat)
    requires n <= |gs| && !t.alive
    ensures ContactsUpTo(t, p, gs, n) == Contacts(t, gs)
    decreases n
  {
    if n > 0 {
      ContactsIgnoreDeadPlayer(t, p, gs, n - 1);
    }
  }

  lemma {:induction false} DifferencesFrame(a: seq<GhostData>, b: seq<GhostData>, c: seq<GhostData>, n: nat)
    requires n < |a| && |a| == |b| == |c|
    requires forall i :: 0 <= i < n ==> b[i] == c[i]
    ensures Differences(a, c, n) == Differences(a, b, n)
    decreases n
  {
    if n > 0 {
      DifferencesFrame(a, b, c, n - 1);
    }
  }

  /** If the player comes through the contact loop alive, every frightened
      ghost it touched has been eaten; if the player was alive and not
      immune and touched a ghost that was neither frightened nor eaten, it
      did not come through alive. */
  lemma {:induction false} ContactsComplete(t: Tally, p: PlayerData, gs: seq<GhostData>, n: nat)
    requires n <= |gs| && t.alive
    ensures var r := ContactsUpTo(t, p, gs, n);
            (r.tally.alive ==> forall i :: 0 <= i < n && Touching(p, gs[i]) && gs[i].state == Frightened ==>
                                 r.ghosts[i] == AfterEaten(gs[i])) &&
            ((p.immuneTimer <= 0 &&
              exists i :: 0 <= i < n && Touching(p, gs[i]) && gs[i].state != Frightened && gs[i].state != Eaten)
             ==> !r.tally.alive)
    decreases n
  {
    if n > 0 {
      ContactsComplete(t, p, gs, n - 1);
      ContactsLives(t, p, gs, n - 1);
      ContactsLives(t, p, gs, n);
      var prev := ContactsUpTo(t, p, gs, n - 1);
      assert prev.ghosts[n - 1] == gs[n - 1];
    }
  }

  // ---------------------------------------------------------------
  // Coins
  // ---------------------------------------------------------------

  /** The kept coins are exactly the untouched ones, still distinct. */
  lemma {:induction false} KeptCoinsSpec(coins: seq<Cell>, p: PlayerData)
    ensures forall c :: c in KeptCoins(coins, p) <==> c in coins && !TakesCoin(p, c)
    ensures Distinct(coins) ==> Distinct(KeptCoins(coins, p))
    decreases |coins|
  {
    if coins != [] {
      var init, last := coins[..|coins| - 1], coins[|coins| - 1];
      KeptCoinsSpec(init, p);
      assert coins == init + [last];
      var k := KeptCoins(init, p);
      if Distinct(coins) {
        assert Distinct(init) by {
          forall i, j | 0 <= i < j < |init| ensures init[i] != init[j] {
            assert init[i] == coins[i] && init[j] == coins[j];
          }
        }
        assert last !in init;
        var r := KeptCoins(coins, p);
        if !TakesCoin(p, last) {
          assert r == k + [last];
          forall i, j | 0 <= i < j < |r| ensures r[i] != r[j] {
            if j == |k| {
              assert r[i] == k[i] && k[i] in k;
            } else {
              assert r[i] == k[i] && r[j] == k[j];
            }
          }
        }
      }
    }
  }

  /** Removing, in order, each touched coin of the list with list.remove
      leaves the untouched coins: the live list during the loop is the
      kept part of the visited coins followed by the unvisited ones. */
  lemma RemoveVisitedCoin(coins: seq<Cell>, p: PlayerData, i: nat)
    requires Distinct(coins) && i < |coins|
    ensures TakesCoin(p, coins[i]) ==>
              RemoveCoin(KeptCoins(coins[..i], p) + coins[i..], coins[i]) == KeptCoins(coins[..i + 1], p) + coins[i + 1..]
    ensures !TakesCoin(p, coins[i]) ==>
              KeptCoins(coins[..i], p) + coins[i..] == KeptCoins(coins[..i + 1], p) + coins[i + 1..]
  {
    var pre, x, rest := coins[..i], coins[i], coins[i + 1..];
    var k := KeptCoins(pre, p);
    assert coins[..i + 1] == pre + [x];
    KeptCoinsSnoc(pre, x, p);
    assert coins[i..] == [x] + rest;
    if TakesCoin(p, x) {
      assert forall j :: 0 <= j < i ==> pre[j] == coins[j] != x;
      KeptCoinsSpec(pre, p);
      assert k + coins[i..] == k + [x] + rest;
      RemoveAfter(k, x, rest);
    } else {
      assert k + coins[i..] == (k + [x]) + rest;
    }
  }

  lemma KeptCoinsSnoc(s: seq<Cell>, x: Cell, p: PlayerData)
    ensures KeptCoins(s + [x], p) == KeptCoins(s, p) + (if TakesCoin(p, x) then [] else [x])
  {
    assert (s + [x])[..|s|] == s;
  }

  lemma {:induction false} RemoveAfter(a: seq<Cell>, x: Cell, b: seq<Cell>)
    requires x !in a
    ensures RemoveCoin(a + [x] + b, x) == a + b
    decreases |a|
  {
    if a == [] {
      assert a + [x] + b == [x] + b;
    } else {
      assert (a + [x] + b)[1..] == a[1..] + [x] + b;
      RemoveAfter(a[1..], x, b);
      assert a == [a[0]] + a[1..];
    }
  }

  // ---------------------------------------------------------------
  // Bonuses
  // ---------------------------------------------------------------

  /** The points of the bonuses below n that the player reaches. */
  function ReachedValue(bs: seq<Bonus>, p: PlayerData, n: nat): int
    requires n <= |bs|
  {
    if n == 0 then 0
    else ReachedValue(bs, p, n - 1) + (if Reaches(p, bs[n - 1]) then BonusValue(bs[n - 1]) else 0)
  }

  predicate TakesEnergizerBelow(bs: seq<Bonus>, p: PlayerData, n: nat)
    requires n <= |bs|
  {
    exists i :: 0 <= i < n && Reaches(p, bs[i]) && bs[i].energizer
  }

  /** Exactly the active bonuses in reach are switched off, for their
      points; the ghosts change only if an energizer is taken, and then
      every ghost that is not eaten is frightened for 300 frames. */
  lemma {:induction false} BonusesSpec(s: Pickups, p: PlayerData, flips: seq<seq<bool>>, n: nat)
    requires n <= |s.bonuses| && n <= |flips| && FlipsFit(flips, |s.ghosts|)
    ensures var r := BonusesUpTo(s, p, flips, n);
            (forall i :: 0 <= i < n ==>
               r.bonuses[i] == if Reaches(p, s.bonuses[i]) then s.bonuses[i].(active := false) else s.bonuses[i]) &&
            r.score == s.score + ReachedValue(s.bonuses, p, n) &&
            (!TakesEnergizerBelow(s.bonuses, p, n) ==> r.ghosts == s.ghosts) &&
            (TakesEnergizerBelow(s.bonuses, p, n) ==>
               forall j :: 0 <= j < |s.ghosts| ==>
                 if s.ghosts[j].state == Eaten then r.ghosts[j] == s.ghosts[j]
                 else r.ghosts[j].state == Frightened && r.ghosts[j].frightenedTimer == EnergizerSeconds * Fps &&
                      r.ghosts[j].colour == Blue)
    decreases n
  {
    if n > 0 {
      BonusesSpec(s, p, flips, n - 1);
      var prev := BonusesUpTo(s, p, flips, n - 1);
      assert prev.bonuses[n - 1] == s.bonuses[n - 1];
      if !TakesEnergizerBelow(s.bonuses, p, n - 1) && TakesEnergizerBelow(s.bonuses, p, n) {
        assert Reaches(p, s.bonuses[n - 1]) && s.bonuses[n - 1].energizer;
      }
    }
  }

  /** A bonus never comes back once taken. */
  lemma BonusesNeverReactivate(s: Pickups, p: PlayerData, flips: seq<seq<bool>>)
    requires |flips| == |s.bonuses| && FlipsFit(flips, |s.ghosts|)
    ensures var r := BonusesUpTo(s, p, flips, |s.bonuses|);
            forall i :: 0 <= i < |s.bonuses| && r.bonuses[i].active ==> s.bonuses[i].active
  {
    BonusesSpec(s, p, flips, |s.bonuses|);
  }

  // ---------------------------------------------------------------
  // The frame
  // ---------------------------------------------------------------

  lemma {:induction false} ReachedValueNonNegative(bs: seq<Bonus>, p: PlayerData, n: nat)
    requires n <= |bs|
    ensures ReachedValue(bs, p, n) >= 0
    decreases n
  {
    if n > 0 {
      ReachedValueNonNegative(bs, p, n - 1);
    }
  }

  /** The score never goes down in a frame and the lives drop by at most one. */
  lemma FrameScoreAndLives(w: World, cfgs: seq<GhostConfig>, homing: seq<real>, choices: seq<Dir>, flips: seq<seq<bool>>)
    requires FrameInputsFit(w, cfgs, homing, choices, flips)
    ensures var r := AfterFrame(w, cfgs, homing, choices, flips);
            r.currentScore >= w.currentScore &&
            (r.lives == w.lives || r.lives == w.lives - 1) &&
            r.highScore >= w.highScore
  {
    var p := AfterUpdate(w.player);
    var gs := AtTurn(w.ghosts, cfgs, homing, choices, |w.ghosts|);
    var moved := w.(player := p, ghosts := gs);
    var t := Tally(p.isAlive, w.lives, w.currentScore, false);
    ContactsEatOnlyFrightened(t, p, gs, |gs|);
    ContactsLives(t, p, gs, |gs|);
    var c := AfterContacts(moved);
    var k := AfterCoins(c);
    ReachedValueNonNegative(k.bonuses, k.player, |k.bonuses|);
    BonusesSpec(Pickups(k.bonuses, k.currentScore, k.ghosts), k.player, flips, |k.bonuses|);
  }

  /** The phase a playing frame ends in: won exactly when the board is
      cleared (even if the last life was lost in the same frame), otherwise
      game over exactly when the last life was lost, otherwise still
      playing. The high score is the better of the old one and the score
      when the game is won, and is saved only when beaten. */
  lemma FramePhase(w: World, cfgs: seq<GhostConfig>, homing: seq<real>, choices: seq<Dir>, flips: seq<seq<bool>>)
    requires FrameInputsFit(w, cfgs, homing, choices, flips)
    requires w.phase == Playing
    ensures var r := AfterFrame(w, cfgs, homing, choices, flips);
            var cleared := |r.coins| == 0 && !AnyActive(r.bonuses);
            var lastLife := r.lives == w.lives - 1 && r.lives <= 0;
            r.phase == (if cleared then Won else if lastLife then GameOver else Playing) &&
            r.highScore == (if cleared && r.currentScore > w.highScore then r.currentScore else w.highScore) &&
            r.stored == (if cleared && r.currentScore > w.highScore then r.currentScore else w.stored)
  {
    var p := AfterUpdate(w.player);
    var gs := AtTurn(w.ghosts, cfgs, homing, choices, |w.ghosts|);
    ContactsLives(Tally(p.isAlive, w.lives, w.currentScore, false), p, gs, |gs|);
  }

  /** A coin or bonus is taken even while the player is dead: pickups do
      not look at is_alive. */
  lemma DeadPlayerStillCollects(w: World)
    requires !w.player.isAlive
    ensures AfterContacts(w).ghosts == w.ghosts && AfterContacts(w).lives == w.lives
    ensures AfterCoins(w).coins == KeptCoins(w.coins, w.player)
  {
    ContactsIgnoreDeadPlayer(Tally(false, w.lives, w.currentScore, false), w.player, w.ghosts, |w.ghosts|);
  }
}
