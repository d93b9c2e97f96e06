# Pac-Man game logic in Dafny

This project models the game logic of a single-file Pac-Man clone (`pac-man.py`, written with
pygame) and proves properties of that model. The model covers:

- the fixed 20x18 maze and its walkability rule;
- the player controller: buffered turning at cell centres, the stuck rule, the death countdown
  and respawn at (1,1), the immunity counter and the portal wrap;
- the ghosts: their personalities, their state machine (scatter, chase, frightened, eaten,
  respawning), their intersection decision and chase targets, their own portal rule, and their
  return to the pen and respawn;
- the start menu: three buttons and a difficulty;
- `init_game`: the coin and bonus layout, and the player and four ghosts;
- the event handling of the main loop;
- the per-frame resolution while a game is played: ghost contacts, coin and bonus pickups with
  the energizer fan-out, and the win and game-over transitions.

Pixel positions are exact `real`s and grid cells are `int`s. Python's `round` is modelled as
banker's rounding. Integers in Python are unbounded, so `int` models them exactly.

The code works by updating objects in place. The player, the ghosts, the menu and the game are
therefore classes whose methods change their fields. Each such method is proved against a pure
function of the object's earlier state: `Player.Update` against `AfterUpdate`, `Ghost.Update`
against `AfterTick`, and `Game.Frame` against `AfterFrame`. The properties are lemmas about those
functions. Random choices (`random.choice`, `random.random`, `random.randint`) become ghost
out-parameters. A predicate (`DecisionChoiceOk`, `ResetChoiceOk`, `TickChoiceOk`,
`FrameChoicesOk`) says which choices the code can make.

Files and modules:

| file | module | models |
|---|---|---|
| `grid.dfy` | `Grid` | `MAP`, directions, cells, `can_move`, rounding, centring |
| `targets.dfy` | `Targeting` | `set_personality`, `get_chase_target`, `get_random_target` |
| `decision.dfy` | `Decision` | `get_possible_directions`, the reversal ban and the distance loop of `make_decision` |
| `ghost.dfy` | `Ghosts` | class `Ghost` and one function per step |
| `ghost_properties.dfy` | `GhostProperties` | multi-frame properties of a ghost |
| `player.dfy` | `Players` | class `Player` and `AfterUpdate` |
| `player_properties.dfy` | `PlayerProperties` | multi-frame properties of the player |
| `level.dfy` | `Level` | the coin and bonus layout of `init_game`, the contact rectangles |
| `menu.dfy` | `Menus` | class `Menu`, events |
| `resolve.dfy` | `Resolution` | one playing frame as a function of the game state |
| `resolve_properties.dfy` | `ResolutionProperties` | contacts, pickups, the phase after a frame |
| `game.dfy` | `Games` | class `Game`: `init_game`, event handling, the playing frame |

Quirks of the code that the model keeps:

- A 7-second scatter phase switches to chase on update 421, not 420, because the timer must
  strictly exceed `7 * 60` (`GhostProperties.PhaseSwitch`).
- The frightened colour and the eaten colour are not RED. While Blinky is frightened or eaten,
  Inky cannot find it and targets the player's cell.
- `set_frightened` excludes only eaten ghosts, so a ghost waiting in the pen is frightened too.
  That ghost is inactive and no longer respawning, so no ghost update changes it
  (`GhostProperties.PenFrightFreezes`). Only the player can release it: the pen cells are
  walkable for the player, and a contact eats the frightened ghost, which then returns home and
  respawns (`ResolutionProperties.ContactsComplete`).
- `init_game` resets `score`, which nothing reads. The displayed `current_score` carries over
  between levels and games.
- The scatter corners of Inky and Clyde lie below the 18-row maze (`ROWS` is 21); they are
  targets only.
- A frame that clears the board ends in the won state even if the last life was lost earlier
  in the same frame.

## Model

| member | source | states |
|---|---|---|
| Grid.Opposite | pac-man.py:440 | the reverse direction negates both components of the vector; the zero vector is its own reverse |
| Grid.RoundHalfEven | pac-man.py:183-184 | Python's `round`: the result is within one half of its argument, and an exact tie goes to the even integer |
| Grid.MapIsRectangular | pac-man.py:76-95 | every row of `MAP` is as long as the first, so the `len(MAP[0])` bound of `can_move` is the bound of every row |
| Grid.TileOfPixel | pac-man.py:183-184 | a pixel position that is a whole number of tiles rounds back to that tile and counts as centred on it |
| Grid.CanMoveReversible | pac-man.py:211-216 | any legal move from an open cell can be undone by the reverse move |
| Grid.PortalCells | pac-man.py:76-95 | the only portal cells of the maze are the two ends of row 7 |
| Grid.PortalsBlockOutwardMoves | pac-man.py:211-216 | `can_move` refuses the outward move from both ends of every row, so agents on the edge can leave only through the portal code |
| Targeting.FirstWithColour | pac-man.py:480 | the index of the first ghost with the colour, none earlier has it; `None` exactly when no ghost has it |
| Targeting.RandomTarget | pac-man.py:494-497 | the frightened target lies in columns 2..COLS-3 and rows 2..ROWS-3 |
| Targeting.PersonalityColourRoundTrip | pac-man.py:404-412 | the colour restored when fright ends maps back to the same personality, and is the colour the ghost was created with |
| Targeting.MirrorReflectsThroughPlayer | pac-man.py:479-485 | Inky's target and the first RED ghost's cell have the player's cell as their midpoint |
| Targeting.MirrorFallsBackWithoutRed | pac-man.py:479-485 | with no RED ghost in the list, Inky targets the player's cell |
| Targeting.AmbushLeadsPlayer | pac-man.py:474-477 | Pinky's target is four steps ahead of the player along its facing (distance 4, or the player's cell when it stands still) |
| Targeting.OpportunistKeepsDistance | pac-man.py:487-492 | Clyde's target ignores the other ghosts, and is the player's cell exactly when the player is at least 8 tiles away or stands on Clyde's corner |
| Targeting.StillPlayerIsTarget | pac-man.py:471-477 | Blinky and Pinky both target a player that stands still |
| Targeting.LowerCornersOffMap | pac-man.py:349-363 | Inky's and Clyde's scatter corners are outside the maze; Blinky's and Pinky's are inside |
| Decision.OpenAmong | pac-man.py:499-505 | the loop keeps exactly the directions of the list that pass the ghost's `can_move`, in order |
| Decision.FilterMovableSpec | pac-man.py:499-505 | a direction is kept exactly when it is in the list and passes `can_move`; the result is no longer than the list |
| Decision.PossibleDirectionsSpec | pac-man.py:499-505 | the open directions are exactly the non-zero directions that pass `can_move`; for an eaten ghost they are all four, in the order right, left, down, up; otherwise exactly the player's walkability rule |
| Decision.FilterKeepsAllWhenEaten | pac-man.py:643-645 | an eaten ghost's `can_move` lets every direction through |
| Decision.FilterKeepsDistinct | pac-man.py:499-505 | filtering a duplicate-free list gives a duplicate-free list |
| Decision.PossibleDirectionsDistinct | pac-man.py:499-505 | the open directions never repeat |
| Decision.RemoveFirstSpec | pac-man.py:441-442 | `list.remove` on a duplicate-free list drops exactly the given direction, shortens the list by one when it is present, and keeps the list duplicate-free |
| Decision.CandidatesSpec | pac-man.py:436-442 | the candidates are non-empty exactly when some direction is open; they are open directions; every open direction except the reverse is among them; the reverse is among them only when it is the single open direction |
| Decision.NoReversalWithAlternative | pac-man.py:439-442 | a ghost never turns back while another direction is open |
| Decision.ClosestDirections | pac-man.py:456-464 | the result is non-empty, and a direction is in it exactly when it is a candidate whose neighbour cell is at minimal distance from the target |
| Ghosts.HomingLength | pac-man.py:701 | the divisor of the homing step is at least 1, and is the distance itself when that is at least 1 |
| Ghosts.Ghost.constructor | pac-man.py:272-306 | a new ghost stands centred on its start cell, in scatter, active, in its colour, with the personality of that colour; its first direction is open, or none when no direction is open |
| Ghosts.Ghost.GetPossibleDirections | pac-man.py:499-505 | the directions returned are those of `PossibleDirections` for the ghost's cell and state |
| Ghosts.Ghost.Reset | pac-man.py:308-320 | back at the start cell, centred, in scatter, active, in the personality's colour, facing an open direction chosen at random, or none when none is open |
| Ghosts.Ghost.Restart | pac-man.py:309-314 | the first half of `reset`: back on the start cell, centred, in scatter, active, in the personality's colour; nothing else changes |
| Ghosts.Ghost.UpdateState | pac-man.py:397-420 | fright counts down and ends in chase with the timer at 0 and the personality's colour; otherwise the phase timer counts up and the phase switches, with the timer at 0, once it exceeds the phase length |
| Ghosts.Ghost.SetFrightened | pac-man.py:422-428 | no effect on an eaten ghost; otherwise frightened for `duration * 60` frames, blue, and either turned round or not |
| Ghosts.Ghost.MakeDecision | pac-man.py:434-465 | the direction is unchanged when nothing is open; otherwise it is a candidate, any candidate when frightened, else one whose neighbour cell is nearest the target |
| Ghosts.Ghost.Move | pac-man.py:507-514 | one step along the direction at the base speed times the personality's boost, halved when frightened; the grid cell is not recomputed |
| Ghosts.Ghost.HandlePortals | pac-man.py:516-551 | the cooldown counts down; a centred ghost on a portal it did not just come out of, moving outward, lands one cell inside the other end; on the portal it came out of, `last_portal` is cleared |
| Ghosts.Ghost.HandleEaten | pac-man.py:682-687 | eaten, white, inactive, respawn timer 0 |
| Ghosts.Ghost.ReturnToHome | pac-man.py:689-715 | at the start cell the ghost starts respawning for 180 frames; elsewhere it moves at twice its base speed straight towards the start cell and its grid cell is recomputed |
| Ghosts.Ghost.Update | pac-man.py:368-395 | one frame: the eaten ghost heads home, the respawning ghost counts down and resets, an inactive ghost does nothing, an active ghost updates its state, decides at a centre, moves and takes portals |
| GhostProperties.PhaseCountsUp | pac-man.py:413-420 | inside a scatter or chase phase only the phase timer moves, by one per update |
| GhostProperties.PhaseSwitch | pac-man.py:413-420 | a phase entered with timer 0 still holds after `duration * 60` updates and switches, with the timer back at 0, on the next one |
| GhostProperties.ScatterChaseCycle | pac-man.py:413-420 | scatter then chase repeats with period `(scatter * 60 + 1) + (20 * 60 + 1)` updates |
| GhostProperties.FrightCountsDown | pac-man.py:399-400 | while fright lasts, only its timer moves, by one per update |
| GhostProperties.FrightEnds | pac-man.py:399-412 | fright ends after exactly `frightened_timer` updates, into chase with the timer at 0 and the personality's colour |
| GhostProperties.EnergizerFright | pac-man.py:422-428 | after an energizer a ghost that is not eaten stays frightened and blue for 299 updates and chases in its own colour after the 300th |
| GhostProperties.EatenIgnoresFright | pac-man.py:422-423 | `set_frightened` leaves an eaten ghost unchanged |
| GhostProperties.TickFollowsUpdateState | pac-man.py:385-395 | in a frame of an active, roaming ghost the state, timers and colour change exactly as `update_state` changes them, and the ghost stays roaming |
| GhostProperties.PortalsKeepMood | pac-man.py:516-551 | the portal code changes neither the state, the timers, the colour nor activity |
| GhostProperties.TicksFollowUpdateState | pac-man.py:368-395 | over any number of frames a roaming ghost's state, timers and colour are those of the same number of `update_state` calls |
| GhostProperties.CoherentPreserved | pac-man.py:368-395 | every step keeps the invariant that an eaten or respawning ghost is inactive |
| GhostProperties.TickKeepsCoherent | pac-man.py:368-395 | one frame keeps that invariant |
| GhostProperties.RespawnCountdown | pac-man.py:374-379 | a respawning ghost waits `respawn_timer` frames, then stands on its start cell, in scatter, active and in its personality's colour |
| GhostProperties.EatenGhostReturns | pac-man.py:689-694 | an eaten ghost on its start cell is back in play, in scatter on that cell, 181 frames later |
| GhostProperties.PenFrightFreezes | pac-man.py:422-428 | a respawning ghost that is frightened becomes frightened and inactive, and no ghost update changes it; only being eaten by the player can release it |
| GhostProperties.InactiveStays | pac-man.py:381-383 | an inactive ghost that is neither eaten nor respawning is never changed by update |
| GhostProperties.DecisionGuarantees | pac-man.py:434-465 | after a decision the ghost is unchanged when nothing is open; otherwise it faces an open direction, turns back only from a dead end, and outside fright faces a neighbour cell at least as near the target as any other non-reverse open direction |
| GhostProperties.GhostPortalLanding | pac-man.py:536-549 | a ghost moved by a portal lands on a pellet cell one inside the other end, remembers the side it came out of and is shielded for 15 frames |
| Players.Player.constructor | pac-man.py:122-140 | the new player is centred on its cell, alive, still, with no request and 120 frames of immunity |
| Players.Player.Update | pac-man.py:142-196 | one frame: the death countdown, or the timers, the turn, the step, the new cell and the portal, in that order |
| Players.Player.Turn | pac-man.py:167-173 | at a cell centre a walkable requested turn is taken and cleared, otherwise a walkable buffered one |
| Players.Player.Step | pac-man.py:175-181 | a blocked direction becomes zero and the player is snapped to its cell; otherwise it moves 1.5 pixels |
| Players.Player.UsePortal | pac-man.py:186-196 | on a portal cell with cooldown 0 the player moves from column 0 to 19 or from 19 to 0, and the cooldown becomes 10 |
| PlayerProperties.RequestedTurnTaken | pac-man.py:167-170 | a walkable requested turn at a centre is taken at once and the request cleared |
| PlayerProperties.RequestedTurnWaits | pac-man.py:167-173 | off a centre, or while not walkable, the request is kept |
| PlayerProperties.HeadingIsWalkable | pac-man.py:167-181 | after a frame the player stands still or faces the direction chosen at the turn, walkable from its cell |
| PlayerProperties.StuckPlayerSnaps | pac-man.py:175-184 | a blocked player stops exactly centred on the same cell, unless that cell is a portal |
| PlayerProperties.BufferStaysEmpty | pac-man.py:167-173 | `buffer_direction` is never set, so it stays zero for every number of frames |
| PlayerProperties.DeathCountsUp | pac-man.py:143-145 | a dead player only advances `death_frame`, by 2 per frame |
| PlayerProperties.DeathLasts31Frames | pac-man.py:143-153 | a player killed with `death_frame` 0 is dead for 30 frames and on the 31st is alive at (1,1), centred, still, with 180 frames of immunity |
| PlayerProperties.AliveFrame | pac-man.py:155-157 | a frame of a live player keeps it alive and counts immunity down by one while positive |
| PlayerProperties.ImmunityCountsDown | pac-man.py:155-157 | while alive, immunity drops by exactly one per frame |
| PlayerProperties.UpdateNeverKills | pac-man.py:142-196 | no number of player updates kills a live player |
| PlayerProperties.PlayerPortalSwapsEnds | pac-man.py:186-196 | the portal takes the player from one end of row 7 to the other portal cell, with the pixel column matching, and blocks it for 10 frames |
| PlayerProperties.ParkedFrame | pac-man.py:186-196 | a player parked on a portal stays parked; it crosses when the cooldown reaches 0 in that frame and otherwise waits one frame |
| PlayerProperties.ParkedWaits | pac-man.py:186-196 | a parked player waits while its cooldown counts down |
| PlayerProperties.ParkedCrosses | pac-man.py:186-196 | a player parked on a portal with cooldown k is thrown to the other end after k frames, with cooldown 10 |
| PlayerProperties.ParkedPlayerShuttles | pac-man.py:186-196 | a player parked on a portal never settles: it is thrown to the other end and, 10 frames later, back to where it stood |
| Level.LayOut | pac-man.py:837-845 | the nested loops lay out one coin per `'0'` and one bonus per `'B'` or `'E'` of the rows, in reading order |
| Level.RowCoinsSpec | pac-man.py:838-841 | the coins of a row are exactly its `'0'` cells, left to right |
| Level.CoinsOfRowsSpec | pac-man.py:837-841 | the coins of the first rows are exactly their `'0'` cells, in reading order |
| Level.LevelCoinsSpec | pac-man.py:837-841 | the level has a coin on exactly the `'0'` cells of the maze, in reading order, no two on one cell |
| Level.RowBonusesSpec | pac-man.py:838-845 | the bonuses of a row are exactly its `'B'` and `'E'` cells, active, energizers exactly on `'E'` |
| Level.BonusesOfRowsSpec | pac-man.py:837-845 | the same for the first rows |
| Level.LevelBonusesSpec | pac-man.py:837-845 | the level has an active bonus on exactly the `'B'` and `'E'` cells of the maze, energizers exactly on `'E'` |
| Level.AgentContact | pac-man.py:914-917 | the player and a ghost touch exactly when their tile origins are less than 16 pixels apart on both axes |
| Level.CoinContact | pac-man.py:931-932 | the player takes a coin exactly when its tile origin is less than 12 pixels from the coin's tile on both axes |
| Level.CentredPlayerTakesPickup | pac-man.py:931-940 | a player standing exactly on a coin's or bonus's cell takes it |
| Menus.Menu.constructor | pac-man.py:760-767 | the first button is selected and the difficulty is 1 |
| Menus.Menu.HandleInput | pac-man.py:784-796 | Up and Down move the selection round the three buttons, Return reports the selected action, Left and Right change the difficulty within 1..3 on the difficulty button; the menu stays valid |
| Menus.InputKeepsMenuValid | pac-man.py:784-796 | every input keeps the selection on a button and the difficulty in 1..3 |
| Menus.SelectionWraps | pac-man.py:786-789 | Up wraps from the first button to the last, Down from the last to the first, and each undoes the other |
| Menus.ReturnReportsSelection | pac-man.py:790-791 | exactly Return reports an action, the selected one, and changes nothing |
| Menus.DifficultyClamped | pac-man.py:792-795 | Left and Right move the difficulty by one within 1..3 only on the difficulty button; nothing else changes it |
| Resolution.Sightings | pac-man.py:480 | what Inky reads of each ghost, one for one: its colour and its cell |
| Resolution.AtTurn | pac-man.py:910-911 | when ghost n's turn comes, each earlier ghost has had its update and each later one is as it was |
| Resolution.ContactsUpTo | pac-man.py:915-928 | the contact loop so far leaves the ghosts it has not reached unchanged |
| Resolution.FrightenAll | pac-man.py:945-948 | every ghost that is not eaten is frightened for 5 seconds; eaten ghosts are unchanged |
| Resolution.PickupStep | pac-man.py:938-948 | one bonus of the loop changes no other bonus |
| Resolution.BonusesUpTo | pac-man.py:938-948 | the bonus loop so far leaves the bonuses it has not reached unchanged |
| ResolutionProperties.ContactsEatOnlyFrightened | pac-man.py:915-920 | a ghost is changed by contacts only by being eaten, only when frightened and touched, and each eaten ghost adds 200 points |
| ResolutionProperties.ContactsLives | pac-man.py:917-927 | a life is lost at most once, exactly when a live player dies, never while immune; the game is over exactly when that loss leaves no life |
| ResolutionProperties.ContactsIgnoreDeadPlayer | pac-man.py:917 | a dead player touches nothing |
| ResolutionProperties.ContactsComplete | pac-man.py:915-927 | a player that comes through alive has eaten every frightened ghost it touched; a live player without immunity that touches a ghost neither frightened nor eaten dies |
| ResolutionProperties.KeptCoinsSpec | pac-man.py:931-934 | the coins kept are exactly those the player does not touch, and stay distinct |
| ResolutionProperties.RemoveVisitedCoin | pac-man.py:931-934 | removing each touched coin from the live list in order keeps the live list equal to the kept visited coins followed by the unvisited ones |
| ResolutionProperties.BonusesSpec | pac-man.py:938-948 | exactly the active bonuses in reach are switched off, for 100 or 50 points; ghosts change only when an energizer is taken, and then every ghost that is not eaten is frightened for 300 frames and blue |
| ResolutionProperties.BonusesNeverReactivate | pac-man.py:938-941 | no bonus becomes active again |
| ResolutionProperties.FrameScoreAndLives | pac-man.py:907-957 | in a frame the score never goes down, the lives drop by at most one and the high score never goes down |
| ResolutionProperties.FramePhase | pac-man.py:913-957 | a playing frame ends won exactly when the board is cleared, else game over exactly when the last life was lost, else still playing; the high score is replaced and saved only when a win beats it |
| ResolutionProperties.DeadPlayerStillCollects | pac-man.py:917-934 | a dead player changes no ghost and loses no life, but still takes the coins it touches |
| Games.GhostSpeedFor | pac-man.py:806 | every difficulty gives the ghosts a positive base speed |
| Games.KeyDirection | pac-man.py:882-890 | exactly the four arrow keys request a direction |
| Games.Game.constructor | pac-man.py:849-852 | start-up: the menu phase, the high score from the file, a level laid out for difficulty 1, the selection on the first button |
| Games.Game.InitGame | pac-man.py:800-845 | the level of `MAP` is laid out, the player is new at (1,1), four new ghosts stand on their start cells with their colours and the difficulty's speed; three lives, playing, the high score reloaded; `score` is reset unless the game was won |
| Games.Game.LayOutLevel | pac-man.py:835-845 | the coins and bonuses of `MAP`, with the coins distinct |
| Games.Game.SpawnGhosts | pac-man.py:822-827 | four distinct new ghosts, each on its start cell with its colour, its colour's personality and the given speed |
| Games.Game.HandleEvent | pac-man.py:858-901 | Quit stops the loop; in the menu the menu handles the event, and Start begins a fresh level and Exit stops the loop; while playing an arrow key sets the requested direction and Escape returns to the menu; after a win Return starts a fresh level keeping `score`; after a win or game over Escape returns to the menu; the current score is untouched, and every event that does not start a level leaves the lives, coins, bonuses, ghosts, high score, score and ghost speed as they were |
| Games.Game.Frame | pac-man.py:907-957 | one playing frame is `AfterFrame` of the state before it, with ghost choices the code can make |
| Games.Game.MoveAll | pac-man.py:909-911 | the player's update, then each ghost's in list order, seeing the updated player and the ghosts before it already updated |
| Games.Game.ResolveAll | pac-man.py:913-957 | contacts, coins, bonuses and the win check, in that order; the coins stay distinct |
| Games.Game.UpdateGhosts | pac-man.py:910-911 | the ghost loop: ghost i is updated from its state before the loop with a choice it can make, seeing ghosts 0..i-1 already updated |
| Games.Game.UpdateGhost | pac-man.py:911 | one ghost's update changes that ghost only |
| Games.Game.ResolveContacts | pac-man.py:914-928 | the contact loop over all ghosts |
| Games.Game.ContactGhost | pac-man.py:916-928 | one ghost of the contact loop, changing that ghost only |
| Games.Game.CollectCoins | pac-man.py:930-935 | the touched coins are removed for 10 points each; nothing else changes |
| Games.Game.TakeCoins | pac-man.py:931-934 | the loop over a copy of the list leaves exactly the kept coins, distinct, and adds 10 points per coin removed |
| Games.Game.VisitCoin | pac-man.py:932-934 | one coin of the loop, removed with `list.remove` when touched, for 10 points |
| Games.Game.CollectBonuses | pac-man.py:937-948 | the bonus loop with the energizer fan-out |
| Games.Game.PickBonus | pac-man.py:939-948 | one bonus of the loop: an active bonus in reach is switched off for its points, and an energizer frightens every ghost that is not eaten |
| Games.Game.FrightenGhosts | pac-man.py:945-948 | `set_frightened(5)` on every ghost that is not eaten |
| Games.Game.CheckWin | pac-man.py:950-957 | with no coin and no active bonus left the game is won, and a better score replaces the high score and is saved |

## Left out

- Drawing, animation, fonts and screen handling are presentation, not game logic. This covers `Player.draw` and the mouth animation, `Ghost.draw` and `wave_offset`, `Bonus.draw`, `Menu.draw`, the status text, F11 full screen and window resizing.
- Sound and `pygame.time.wait` are foreign side effects.
- The high-score file is the field `stored`. The game's constructor takes the file's content as a parameter, which is 0 when the file is missing or unreadable. Errors while writing the file are not modelled.
- Floating point: pixel positions and speeds are exact reals, so floating-point rounding is not modelled.
- `pygame.Rect` truncates its float coordinates to integers. The contact tests compare the exact real rectangles instead.
- Ghosts.Ghost.ReturnToHome: the distance `sqrt(dx*dx + dy*dy)` is a parameter rather than computed, and no contract ties it to the square root, so the model does not prove that a homing step moves twice the base speed towards the start cell. `return_to_home` also stores the unit homing vector as the ghost's direction. The model does not keep that vector, because a direction here is one of the five grid vectors, and `reset` overwrites it before anything reads it.
- Randomness is not modelled as a distribution. The choices become ghost out-parameters, constrained by the predicates named above.
- The frightened target of `make_decision` is drawn but never used, as in the code.
- Code that is never called is left out: `handle_eaten_state`, `update_respawn`, `reset_to_start`.
- Fields that nothing reads are left out: `target`, `last_decision_point`, `home_position`, `home_exit_pos`, `is_in_house`, `respawn_position`, `is_returning_home`, `respawn_alpha`, `respawn_delay`, `respawn_blink_speed`.
- `init_game` lays out coins and energizers twice, and the first result is discarded before it is read. The model lays out the level once, with the second loop.
- Games.Game.constructor: before the first `init_game` the global player does not exist. The constructor creates a placeholder player that `init_game` replaces at once.
- Games.Game.InitGame: `FreshLevel` does not restate each new ghost's first direction. The ghost constructor's contract (`FacesOpen`) states it.
- Games.Game.SpawnGhosts: like `InitGame`, it leaves each ghost's first direction to the ghost constructor's contract.
- Games.Game.UpdateGhosts: each ghost is specified as updated from its own state before the loop. This equals the code's in-place loop because a ghost's update changes no other ghost. The ghosts are distinct objects, which the invariant `DistinctGhosts` keeps.
- pygame events are reduced to key presses, Quit and other events. The keys the game does not read are one value.
