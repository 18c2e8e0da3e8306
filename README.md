# Voyage1969 combat and turn kernel in Dafny

A model of the game logic of `test/Voyage1969.py`, a two-player skirmish on
a 12 x 9 grid. P1 (Reimu) is played with the mouse. P2 (Marisa) is an
automated patrol. With drawing stripped away, what remains is a sequential
integer state machine:

- the turn controller (`switch_turn` and the announcement buffer);
- the enemy patrol (`auto_enemy_action`);
- the click handler (`handle_input`): basic attack, move, build, scout, and
  skills 1 (needles), 2 (piercing amulet), 3 (vision boost) and 4 (teleport);
- the projectile step (`update_bullets`);
- the vision and fog rule (`is_cell_visible`, `draw_mist`);
- the three placement indicators.

## Layout

| file | module | contents |
|---|---|---|
| `board.dfy` | `Board` | Map constants, cells, players, Chebyshev distance, pixel to cell. |
| `vision.dfy` | `Visibility` | `is_cell_visible`, the vision boost and its decay, the fog rule, and the `draw_mist` loop as a method. |
| `rules.dfy` | `Rules` | The pure guards of the click branches, the three indicator predicates, the mana-input buttons and the patrol step. |
| `turns.dfy` | `Turns` | Action kinds, history entries, the announcement templates and decimal `str` on naturals. |
| `projectiles.dfy` | `Projectiles` | Bullets, one bullet's advance (`StepBullet`) and one loop over the active bullets (`Pass`). |
| `state.dfy` | `State` | The whole game state as a value (`World`), its invariant `ValidState`, `switch_turn` (`EndTurn`) and one half of `update_bullets` (`BulletPassSpec`). |
| `actions.dfy` | `Actions` | Every branch of `handle_input` and the patrol as a function from the state before to the state after, with lemmas about each. |
| `game.dfy` | `Game` | Class `GameState`: one field per global table, and one method per operation that changes it in place. |

Each method of `Game.GameState` is proved to leave exactly the state that its
function in `Actions` or `State` describes (`ensures View() == OnX(old(View()), ...)`).
Every method that handles an event also requires and keeps the class invariant
`Valid()`: sound walls, mana never negative, the counter within [0, 99], every
bullet's flight ending off the map, and P2 on the map. The properties of the
game are then proved about those functions. Four of the
methods carry proof work of their own:

- `StepBullets` holds the loop over the active bullets, with its invariant.
- `AdvanceBullet` applies one bullet's collision to the tables in place.
- `SpawnShot` pops the head of the queue.
- `UpdateBullets` runs the two halves.

## Behaviour of the source the model keeps

- `update_bullets` runs twice per call. The second docstring (line 475) is
  only a string expression, so the body continues into a second spawn and
  advance. In the second half, only needles stop at what they hit: a basic
  attack shot is not stopped by a wall or P2 on a second-half advance
  (`Projectiles.StepBullet`, `normalSingleHit`). At 0.8 pixel per advance
  (line 732) it is still in that cell at the next first-half advance, and is
  stopped then, unless the wall is gone or P2 has moved.
- A build click does not return. After the build ends P1's turn, the same
  click goes on into the skill-bar section, now during P2's turn. A click on
  the scout button in build mode therefore ends two turns, and its scout mark
  is forgotten at once (`Actions.BuildClickFallsThroughToScout`).
- Teleport checks only mana. It has no range, bounds or wall check, so a
  click on cell (5, 10), below the map, puts P1 off the map, on a cell its
  own indicator does not paint white (`Actions.TeleportCanLeaveTheMap`).
- A vision boost bought with n mana survives n - 1 returns of control to P1
  (`Visibility.BoostLastsRemainingCycles`).
- The scouted cell is forgotten when P2's turn ends.
- The patrol ignores walls and P1.
- An amulet entering a wall that is also P2's cell damages only the wall.
  The enemy check finds that cell already in the amulet's hit set.
- `list.remove` removes the first equal element (`Projectiles.RemoveFirst`).
- The zero-length aim guard at line 845 cannot fire. A click on P1's own
  cell has already returned at line 837 (`Board.CenterPixelInCell`).

## Model

| member | source | states |
|---|---|---|
| Board.Chebyshev | test/Voyage1969.py:390-392 | The distance is max(\|dx\|, \|dy\|) and is zero exactly when the cells coincide. |
| Board.ChebyshevSymmetric | test/Voyage1969.py:390-392 | The distance does not depend on the order of the cells. |
| Board.CellAt | test/Voyage1969.py:705-708 | The clicked cell is the one whose 64-pixel square contains the mouse position (floor division). |
| Board.CenterPixelInCell | test/Voyage1969.py:834-846 | The centre pixel of a cell lies in that cell, so a zero-length aim can only be a click on P1's own cell. That click has already returned. |
| Visibility.IsCellVisible | test/Voyage1969.py:376-392 | Visible iff both \|dx\| and \|dy\| are at most the radius. |
| Visibility.VisibleAtCenter | test/Voyage1969.py:376-392 | The centre is visible for every radius >= 0. |
| Visibility.VisibleSymmetric | test/Voyage1969.py:376-392 | Swapping cell and centre does not change visibility. |
| Visibility.VisibleMonotone | test/Voyage1969.py:376-392 | A cell visible at some radius is visible at every larger one. |
| Visibility.DecayBoost | test/Voyage1969.py:143-146 | The boost survives iff it had at least 2 turns left, and then it has one turn less and the same radius. |
| Visibility.BoostLastsRemainingCycles | test/Voyage1969.py:143-146 | A boost of n turns is still there, with its radius, after k < n decays, and gone after n. |
| Visibility.Fogged | test/Voyage1969.py:401-408 | Fog iff the cell is not the scouted cell and lies outside the boost radius (base radius 1 without a boost) of P1's cell. |
| Visibility.OwnCellNeverFogged | test/Voyage1969.py:401-408 | P1's own cell is never fogged. |
| Visibility.FogShrinksWithRadius | test/Voyage1969.py:401-408 | A larger radius never adds fog. |
| Visibility.MistCells | test/Voyage1969.py:402-409 | The mist is drawn on exactly the on-map fogged cells, in row-major order. |
| Rules.AttackTargetIsNeighbour | test/Voyage1969.py:714-719 | A basic-attack target is at Chebyshev distance exactly 1 from P1. |
| Rules.MovementIndicatorWhiteIffAccepted | test/Voyage1969.py:925-935 | The movement indicator is white exactly on the cells the move branch (lines 747-754) accepts. |
| Rules.RedMoveCellIsAttack | test/Voyage1969.py:925-935 | The indicator is red exactly on in-map cells that a click would take as a basic attack. |
| Rules.BuildAcceptedIffIndicator | test/Voyage1969.py:647-654 | A build succeeds iff the build indicator is white, the cell is not P2's, and mana covers the input. |
| Rules.BuiltWallHasHealth | test/Voyage1969.py:777-783 | An accepted build spends at least 1 mana and leaves mana non-negative. |
| Rules.IsAttackTarget | test/Voyage1969.py:714-719 | The basic-attack guard: a wall, or P2 when not on P1's cell, within movement radius 1 and not P1's own cell (its consequence is in `Rules.AttackTargetIsNeighbour`). |
| Rules.MoveAccepted | test/Voyage1969.py:747-754 | The move guard chain: on the map, not a wall, not P2, within radius 1 and not P1's own cell. |
| Rules.BuildAccepted | test/Voyage1969.py:771-778 | The build guard chain: on the map, not a wall, neither unit's cell, within the input's distance of P1, and mana covering the input. |
| Rules.MovementIndicator | test/Voyage1969.py:925-935 | Black off the map, beyond radius 1 or on P1; red on a wall or P2; white otherwise (tied to the guards in `Rules.MovementIndicatorWhiteIffAccepted`). |
| Rules.BuildIndicatorValid | test/Voyage1969.py:647-654 | White when the input is positive, the cell within that distance, not P1's own, on the map and not a wall. |
| Rules.TeleportIndicatorValid | test/Voyage1969.py:599-604 | White when the cell is within the input's distance, not P1's own, on the map and not a wall. |
| Rules.TeleportAccepted | test/Voyage1969.py:875-876 | The only test of the teleport branch: a positive input that mana covers. |
| Rules.SkillSlotAt | test/Voyage1969.py:793-797 | Slots 1 to 4 sit at (2,9), (4,9), (6,9) and (8,9), and every other cell hovers nothing. |
| Rules.DecreasedInput | test/Voyage1969.py:897-898 | One less, floored at 0. |
| Rules.IncreasedInput | test/Voyage1969.py:899-901 | One more, capped by current mana and by 99. |
| Rules.ManaInputStaysInRange | test/Voyage1969.py:897-901 | Both buttons keep the counter within [0, 99]. |
| Rules.PatrolStep | test/Voyage1969.py:177-182 | The direction flips exactly when y + direction would leave [0, 9). The move is then one row, and y stays in bounds. |
| Turns.TurnMessage | test/Voyage1969.py:114-133 | The template table of `switch_turn`. Its own contract only says that every template is longer than the actor's name and that the plain ones open with it; that the templates tell the kinds apart is `Turns.MessagesDistinguishKinds`. |
| Turns.MessagesDistinguishKinds | test/Voyage1969.py:116-133 | Different action kinds produce different announcements. |
| Turns.NatToString | test/Voyage1969.py:809 | `str(n)` is non-empty decimal digits with no leading zero. |
| Turns.NatToStringRoundTrip | test/Voyage1969.py:809 | The digits read back as n. |
| Projectiles.Copies | test/Voyage1969.py:853-858 | n copies of the bullet, as the list comprehension builds them. |
| Projectiles.AddWallSound | test/Voyage1969.py:781-783 | Appending a new wall with health = total = n >= 1 keeps every wall at 1 <= health <= total with no repeats. |
| Projectiles.RemoveFirst | test/Voyage1969.py:449 | `list.remove`: one element fewer when present, otherwise unchanged, and all other elements kept. |
| Projectiles.FirstIndex | test/Voyage1969.py:449 | The position of the first occurrence: it holds the element and no earlier position does. |
| Projectiles.RemoveFirstKeepsOrder | test/Voyage1969.py:449 | `list.remove` deletes exactly the first occurrence: what stands before it and after it is kept, in order. |
| Projectiles.RemoveFirstNoDup | test/Voyage1969.py:448-449 | On a list without repeats, the removed wall is gone entirely. |
| Projectiles.DamageWall | test/Voyage1969.py:447-449 | Health drops by 1, and the wall leaves the list exactly when its health falls below 1. Soundness is kept. |
| Projectiles.HitEnemy | test/Voyage1969.py:461-472 | P2 is struck iff the bullet enters P2's cell and is single-hit or an amulet that has not hit that cell. A strike costs 1 hp; an amulet's strike refunds 1 mana and the amulet flies on, a single-hit bullet is spent. Walls are untouched. |
| Projectiles.StepBullet | test/Voyage1969.py:436-472 | Off-map: dropped. Single-hit bullets: damage the wall or P2 and are spent. Amulets: strike each cell not yet hit and fly on; a P2 hit refunds 1 mana. A basic shot is not stopped on a second-half advance. Walls stay sound. |
| Projectiles.Pass | test/Voyage1969.py:428-472 | One loop over the active bullets keeps walls sound. Mana grows and hp shrinks by at most one per bullet. |
| Projectiles.AmuletStrikesEachCellOnce | test/Voyage1969.py:453-471 | Over a whole flight, an amulet damages each cell at most once and never one already in its hit set. |
| State.Announce | test/Voyage1969.py:157-159 | `add_announcement`: the pending buffer becomes just the new message (definition; `State.PendingAnnouncementDiscarded` relates it to `switch_turn`). |
| State.Finalize | test/Voyage1969.py:161-164 | `finalize_turn_announcements`: the pending messages become the log and the buffer empties (definition). |
| State.EndTurn | test/Voyage1969.py:95-150 | `switch_turn` as a function of the state (definition; its properties are `State.EndTurnHandsOver` and `State.EndTurnFrame`). |
| State.EndTurnHandsOver | test/Voyage1969.py:95-150 | One history entry with the pre-switch turn and player. Control passes over and the log is that action's template. From P1: the turn number is kept and the timer armed. From P2: the number +1, the boost decays, recon is cleared. |
| State.EndTurnFrame | test/Voyage1969.py:95-150 | Nothing else changes, and the invariant is kept. |
| State.PendingAnnouncementDiscarded | test/Voyage1969.py:134-135 | A pending announcement never reaches the log. `switch_turn` overwrites it. |
| State.TurnNumberAfterSwitches | test/Voyage1969.py:137-150 | After k endings, the turn number grows once per P2 turn. The active player alternates, the history grows by k, and the boost decays once per return to P1. |
| State.TwoManaBoostLastsOneRound | test/Voyage1969.py:143-146 | A 2-mana boost is still there on P1's next turn and gone on the one after. |
| State.Armed | test/Voyage1969.py:421-423 | A shot leaving the queue keeps its kind, owner and flight; an amulet starts with an empty hit set. |
| State.Spawn | test/Voyage1969.py:418-425 | A shot fires iff the queue is non-empty and more than 100 ms have passed since the last one. Then the head leaves the queue, is appended armed to the active bullets, the shot time is now, and nothing else changes. Otherwise nothing changes. The invariant is kept. |
| State.BulletPassSpec | test/Voyage1969.py:416-472 | One half of `update_bullets` keeps the invariant. It touches only the walls, hp, mana and the bullet lists, and hp and mana change within bounds. |
| State.Frame | test/Voyage1969.py:416-532 | One frame's two halves of `update_bullets` keep the invariant, leave both units, the timer and all turn state in place, never lower mana and never raise P2's hp. |
| State.AtMostOneSpawnPerFrame | test/Voyage1969.py:416-484 | With both halves within the shot interval, at most one bullet leaves the queue per frame. |
| Actions.OnEnemyAction | test/Voyage1969.py:173-190 | P2 takes one patrol step with x unchanged, and the turn ends as "enemy_move" with the generic message. Stats and walls are untouched. |
| Actions.OnEnemyTimer | test/Voyage1969.py:137-140 | The patrol runs once per arming. On P2's turn it gives control back to P1 with the next turn number. |
| Actions.OnCancel | test/Voyage1969.py:697-703 | Right click clears all modes, the selection and the hover, and nothing else. |
| Actions.OnBasicAttack | test/Voyage1969.py:714-740 | One "normal" shot owned by the active player joins the end of the queue, and the turn ends as "normal". |
| Actions.OnMoveClick | test/Voyage1969.py:743-763 | An accepted move places P1 on the target and leaves the walls and their tables alone, adds 1 mana on an orthogonal step, leaves move mode and ends the turn. A rejected click changes nothing. |
| Actions.OnBuildClick | test/Voyage1969.py:766-786 | Any click in build mode leaves build mode and ends the turn as "build". A rejected cell leaves walls, health and mana untouched. |
| Actions.BuildAddsWall | test/Voyage1969.py:777-783 | An accepted build appends the cell with health = total = input >= 1, leaves every other wall's health and total as they were, and spends the input. |
| Actions.OnCastVision | test/Voyage1969.py:800-811 | With a positive, affordable input: the input is spent, the boost (n, n) is bought and the turn ends with n recorded; the layout and wall tables are untouched. Unaffordable: only the selection is cleared. Input <= 0: nothing changes. |
| Actions.VisionRecordsSpentMana | test/Voyage1969.py:804-809 | The history entry's extra text reads back as the mana spent. |
| Actions.OnScout | test/Voyage1969.py:824-832 | One mana marks P2's cell and ends the turn, with the layout and wall tables untouched; without mana, nothing changes. |
| Actions.OnFireNeedle | test/Voyage1969.py:850-861 | n needles replace the queue, n mana is spent, the counter resets to 0 and the turn ends, with the layout and wall tables untouched. Unaffordable: nothing changes. |
| Actions.OnFireAmulet | test/Voyage1969.py:863-873 | One mana appends one amulet to the queue and ends the turn, with the layout and wall tables untouched. Otherwise nothing changes. |
| Actions.OnTeleport | test/Voyage1969.py:875-881 | When affordable, P1 lands on the clicked cell unconditionally, the wall tables are untouched, mana is spent and the turn ends with n recorded. Otherwise nothing changes. |
| Actions.OnAimedClick | test/Voyage1969.py:840-883 | The selected skill fires when its guard holds, and aiming and the selection end either way. |
| Actions.OnChooseSkill | test/Voyage1969.py:885-896 | Slots 1 and 4 are selected only with a positive input, and slot 2 always. Nothing else changes. |
| Actions.OnHover | test/Voyage1969.py:790-797 | Outside aim mode, the hovered slot follows the cursor. |
| Actions.OnManaButton | test/Voyage1969.py:897-901 | Only the counter changes, and the invariant is kept. |
| Actions.OnSkillBarClick | test/Voyage1969.py:798-901 | The build button enters build mode, and a click on P1's cell enters move mode. |
| Actions.OnInput | test/Voyage1969.py:686-901 | Input is ignored unless P1 is to act. Right click cancels, and mouse motion hovers unless in move mode, where it changes nothing. A click on a neighbouring wall or P2 is a basic attack. In move mode any other click is a move click on the clicked cell. |
| Actions.TeleportLandsOnClickedCell | test/Voyage1969.py:686-901 | Through `handle_input`: with teleport aimed and affordable, a left click on any cell that is not an attack target, a button or P1's cell puts P1 there, spends the input and ends the turn as a teleport. |
| Actions.TeleportCanLeaveTheMap | test/Voyage1969.py:875-881 | Through `handle_input`: from any on-map position, a click on (5, 10) teleports P1 off the map, onto a cell the teleport indicator does not paint white. |
| Actions.EnemyActionKeepsValid | test/Voyage1969.py:173-190 | The patrol keeps the invariant and always moves P2 exactly one row. |
| Actions.EnemyTimerKeepsValid | test/Voyage1969.py:957-958 | The timer event keeps the invariant. |
| Actions.BasicAttackKeepsValid | test/Voyage1969.py:714-740 | The basic attack keeps the invariant. |
| Actions.MoveKeepsValid | test/Voyage1969.py:743-763 | The move branch keeps the invariant. |
| Actions.BuildKeepsValid | test/Voyage1969.py:766-786 | The build branch keeps the walls sound and mana non-negative. |
| Actions.CastVisionKeepsValid | test/Voyage1969.py:800-811 | Skill 3 keeps the invariant. |
| Actions.ScoutKeepsValid | test/Voyage1969.py:824-832 | The scout keeps the invariant. |
| Actions.NeedleKeepsValid | test/Voyage1969.py:850-861 | Skill 1 keeps the invariant. |
| Actions.AmuletKeepsValid | test/Voyage1969.py:863-873 | Skill 2 keeps the invariant. |
| Actions.TeleportKeepsValid | test/Voyage1969.py:875-881 | Skill 4 keeps the invariant. |
| Actions.AimedClickKeepsValid | test/Voyage1969.py:840-883 | A click while aiming keeps the invariant. |
| Actions.SkillBarClickKeepsValid | test/Voyage1969.py:798-901 | Every skill-bar click keeps the invariant. |
| Actions.InputKeepsValid | test/Voyage1969.py:686-901 | Every input keeps mana >= 0, the counter within [0, 99], the walls sound and P2 on the map. |
| Actions.TurnEndedAppendsOne | test/Voyage1969.py:112 | A turn ending keeps the history as a prefix and adds one entry. |
| Actions.AimedClickAppends | test/Voyage1969.py:840-883 | A click while aiming adds one history entry exactly when the skill fires. |
| Actions.SkillBarClickAppends | test/Voyage1969.py:798-901 | A skill-bar click ends at most one turn and never rewrites the history. |
| Actions.InputAppendsAtMostTwo | test/Voyage1969.py:686-901 | One input never rewrites the history and ends at most two turns. |
| Actions.BuildClickFallsThroughToScout | test/Voyage1969.py:766-832 | In build mode, a click on the scout button records a build by P1 and then a scout by P2. P1 is to act again with the next turn number, mana is down by 1, and no mark is left. |
| Game.GameState.constructor | test/Voyage1969.py:37-60 | Start-up state: turn 1 with P1 to act, 20 mana, 20 enemy hp, the opening log, and every wall at the map's starting health. |
| Game.GameState.AddAnnouncement | test/Voyage1969.py:157-159 | The pending buffer becomes just the new message. `Valid()` is required and kept. |
| Game.GameState.FinalizeTurnAnnouncements | test/Voyage1969.py:161-164 | The pending messages become the log, and the buffer empties. `Valid()` is required and kept. |
| Game.GameState.SwitchTurn | test/Voyage1969.py:95-150 | The new state is `EndTurn` of the old one (properties in `State.EndTurnHandsOver`). `Valid()` is kept when it held. |
| Game.GameState.AutoEnemyAction | test/Voyage1969.py:173-190 | The new state is `Actions.OnEnemyAction` of the old one. `Valid()` is required and kept. |
| Game.GameState.EnemyTimerFires | test/Voyage1969.py:957-958 | The new state is `Actions.OnEnemyTimer` of the old one. `Valid()` is required and kept. |
| Game.GameState.Cancel | test/Voyage1969.py:697-703 | The new state is `Actions.OnCancel` of the old one. `Valid()` is required and kept. |
| Game.GameState.BasicAttack | test/Voyage1969.py:714-740 | The new state is `Actions.OnBasicAttack` of the old one. `Valid()` is required and kept. |
| Game.GameState.MoveClick | test/Voyage1969.py:743-763 | The new state is `Actions.OnMoveClick` of the old one. `Valid()` is required and kept. |
| Game.GameState.BuildClick | test/Voyage1969.py:766-786 | The new state is `Actions.OnBuildClick` of the old one. `Valid()` is required and kept. |
| Game.GameState.CastVision | test/Voyage1969.py:800-811 | The new state is `Actions.OnCastVision` of the old one. `Valid()` is required and kept. |
| Game.GameState.PayForVision | test/Voyage1969.py:801-810 | The affordable branch of skill 3 in place: the new state is `Actions.OnCastVision` of the old one. |
| Game.GameState.ScoutEnemy | test/Voyage1969.py:824-832 | The new state is `Actions.OnScout` of the old one. `Valid()` is required and kept. |
| Game.GameState.FireNeedle | test/Voyage1969.py:850-861 | The new state is `Actions.OnFireNeedle` of the old one. `Valid()` is required and kept. |
| Game.GameState.FireAmulet | test/Voyage1969.py:863-873 | The new state is `Actions.OnFireAmulet` of the old one. `Valid()` is required and kept. |
| Game.GameState.TeleportTo | test/Voyage1969.py:875-881 | The new state is `Actions.OnTeleport` of the old one. `Valid()` is required and kept. |
| Game.GameState.AimedClick | test/Voyage1969.py:840-883 | The new state is `Actions.OnAimedClick` of the old one. `Valid()` is required and kept. |
| Game.GameState.ChooseSkill | test/Voyage1969.py:885-896 | The new state is `Actions.OnChooseSkill` of the old one. `Valid()` is required and kept. |
| Game.GameState.Hover | test/Voyage1969.py:790-797 | The new state is `Actions.OnHover` of the old one. `Valid()` is required and kept. |
| Game.GameState.PressManaButton | test/Voyage1969.py:897-901 | The new state is `Actions.OnManaButton` of the old one. `Valid()` is required and kept. |
| Game.GameState.SkillBarClick | test/Voyage1969.py:798-901 | The new state is `Actions.OnSkillBarClick` of the old one. `Valid()` is required and kept. |
| Game.GameState.HandleInput | test/Voyage1969.py:686-901 | The new state is `Actions.OnInput` of the old one. `Valid()` is required and kept. |
| Game.GameState.AdvanceBullet | test/Voyage1969.py:429-472 | The in-place collision handling leaves the tables as `Projectiles.StepBullet` says, and returns the bullet still flying. |
| Game.GameState.SpawnShot | test/Voyage1969.py:418-425 | The new state is `State.Spawn` of the old one. |
| Game.GameState.StepBullets | test/Voyage1969.py:428-472 | The loop over a copy of the bullet list leaves the arena and the survivors that `Projectiles.Pass` gives. |
| Game.GameState.BulletPass | test/Voyage1969.py:416-472 | The new state is `State.BulletPassSpec` of the old one. `Valid()` is required and kept. |
| Game.GameState.UpdateBullets | test/Voyage1969.py:416-532 | Both halves run in order, the first with basic shots single-hit and the second without, and the invariant is kept. |

## Left out

- Drawing, fonts, images, the window and the main loop. These are rendering and I/O. The fog rule and the three indicator predicates are kept as pure functions.
- Loading the map from JSON. The constructor takes the spawn cells, the wall cells and one starting wall health instead.
- Game.GameState.constructor: requires P2's spawn on the map, no wall listed twice, and a starting health of at least 1. These are facts about the map file, which is not part of this model.
- Grass, the `game_state["players"]` ledger (used only for the announcement names, which are kept as constants), gold, P1's hp and P2's mana. The core never changes them.
- `pygame.time.set_timer` and the event dispatch. The one-shot enemy timer is the flag `enemyTimerArmed`, which `switch_turn` sets and `EnemyTimerFires` consumes. The one-second delay is not modelled.
- `time.time()`. The clock reading of each half of `update_bullets` is an integer millisecond parameter. The 0.1 s test becomes "more than 100 ms". History timestamps are dropped.
- Float pixel motion, `math.sqrt` normalisation and bullet speeds. Each bullet instead carries its trail: the grid cells it enters on successive advances, ending with the first cell off the map. A slow shot that needs several advances to cross a cell lists that cell once per advance.
- `update_vision_boost`. It is never called.
- The hover text of `draw_info_panel`. It is rendering.
- `test/mapmaker.py`. It only composes images.
- Game.GameState.SwitchTurn and the click methods: they update the announcement buffer inline rather than by calling `AddAnnouncement` and `FinalizeTurnAnnouncements`. The effect is the same, as `State.PendingAnnouncementDiscarded` shows.
