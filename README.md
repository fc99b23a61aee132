# Frigate2: a verified model of the game core

Frigate2 is a small top-down naval arcade game written on pygame. The player's
boat turns and moves under the keyboard and fires shells at the mouse
cursor. Enemy boats drift down the screen and fire at the player when in
range. A shell that lands inside an opposing hull bursts into shrapnel and
costs the boat 10 health. A sunk enemy leaves a shrinking sink spot and is
worth 5 points. The map scrolls as the player advances, and one more island
appears once the progress reaches 100.

This project models the simulation core of `game.py` in Dafny:

- the geometry helpers;
- every sprite's per-frame move and lifetime;
- the boats' damage, firing, reloading and controls;
- the `Game` object's input handlers, map scroll, shell resolution and frame update;
- `order_all_sprites`.

The modules follow the program's layers:

| file | module | what it holds |
|---|---|---|
| `geometry.dfy` | `Geometry` | points, hulls, the average-of-points centre, `move_polygon`, `normalize_vector` |
| `sprites.dfy` | `Sprites` | the sprite classes as one `Entity` datatype, each sprite's `move`, lifetimes over many frames, boats and their controls |
| `group.dfy` | `SpriteGroup` | the pygame sprite group as a sequence in insertion order, and `order_all_sprites` |
| `logic.dfy` | `GameLogic` | the whole world (group plus `Game` fields) as a value, every handler and pass as a function, and the invariants they keep |
| `world.dfy` | `GameLoop` | the `Game` object as a class whose methods run the source's loops. Each method is proved to produce exactly the state the matching `GameLogic` function describes |

Modelling choices:

- **Sprites are values.** Every sprite has an identity number standing for its object identity. An in-place field update replaces the sprite with the same identity. `Group.remove` drops it.
- **Loops walk a snapshot.** A `for sprite in all_sprites` loop walks a snapshot of the group's identities, as pygame's group iteration does, and looks each sprite up in the live group.
- **Host collaborators.** shapely's `within`, `math.sqrt`, sine and cosine of degrees, `random.randint(5, 7)` and `random.random()` are parameters: the fields of a `Host` value. The random generator is indexed by a draw counter that the world carries; `Fair` states the ranges Python promises.
- **Closed rings.** Shapely polygons are stored without the closing vertex. `get_list_from_polygon` returns the closed ring, so the "centre" of a hull is the mean of six points with the bow vertex counted twice. `CreateHullCenter` proves that this puts the centre 4 units towards the bow.
- **Exact reals.** Floating point numbers are modelled as exact reals.
- **Rounding.** `round(length) < 300` in `auto_fire` is modelled as the squared distance being below 299.5². Python rounds half to even, so 299.5 rounds to 300. `InRangeDistance` ties this to the length.

Behaviour worth noting:

- **Turn release.** An 'a' or 'd' release ends any turn under way, a turn the other way included; only 'w'/'s' releases check the direction. `KeyUpTurn` states this.
- **Forward speed.** Moving forwards displaces the boat one unit per frame (`2 * sin / 2`), backwards half a unit.
- **Shell floor.** A shell leaves when its speed falls to 4 or less (`speed <= 4`), that is on its 60th move. The edge test uses the position before the move.
- **Sink spot position.** A sink spot sits at the mean of the closed ring of the hull, not at the hull's area centroid.

## Model

| member | source | states |
|---|---|---|
| Geometry.GetPolygonCenter | game.py:39-44 | the accumulating loop returns the arithmetic mean of the points (coordinate sums over the count) |
| Geometry.MovePolygon | game.py:54-58 | the result has every point offset by the movement, in the same order |
| Geometry.CentroidTranslate | game.py:39-58 | translating a point list moves its mean by exactly the offset |
| Geometry.CentroidInBox | game.py:39-44 | the mean lies inside every box that holds all the points |
| Geometry.Normalize | game.py:63-68 | a zero length hands the vector back unchanged; otherwise each result component times the length gives the input component back |
| Geometry.NormalizeParallel | game.py:63-68 | on the nonzero branch the result is parallel to the input (zero cross product) |
| Geometry.NormalizeThreeFour | game.py:63-68 | (3, 4) with length 5 normalises to (0.6, 0.8) |
| Sprites.ShellSpeed | game.py:205-208 | the speed is at most 4 exactly from the 60th move on, and between 4 and 5 up to it |
| Sprites.SpawnShell | game.py:196-200 | the shell starts at the turret end with count 0 and the given side; its direction times the offset's length is the offset to the target, or the raw offset when that length is 0 |
| Sprites.ShellMove | game.py:205-213 | the shell leaves exactly when its move count reaches 60 or it was already on or past a screen edge; otherwise it counts the move and advances by direction times speed, with a speed in (4, 5] |
| Sprites.ShellRun | game.py:205-210 | over n frames a live shell has counted n moves, and it is gone once its count reaches 60 |
| Sprites.ShellGoneBy60 | game.py:205-210 | a freshly fired shell is out of the group after 60 frames at the latest |
| Sprites.Fragments | game.py:137-144 | n fragments, all at the start point; fragment i takes its direction from draws k+2i and k+2i+1, each component of the opposite sign to the shell's |
| Sprites.BurstShape | game.py:137-144 | with a fair generator a burst has 5 to 7 fragments, all at the impact point, each direction component in [0, 1) where the shell's is negative and in (-1, 0] otherwise |
| Sprites.SpawnFragments | game.py:137-144 | the spawn loop builds exactly the burst that `Burst` describes |
| Sprites.Advance | game.py:150-155 | the same number of fragments, each one step further along its unchanged direction |
| Sprites.AdvanceFragments | game.py:150-155 | the loop that builds the new contents computes `Advance` |
| Sprites.AdvanceNAt | game.py:149-156 | after n moves each fragment sits n times its direction from where it started |
| Sprites.ShrapnelMove | game.py:149-158 | shrapnel leaves exactly when its count is above 10; otherwise every fragment advances and the count rises by one |
| Sprites.ShrapnelRun | game.py:149-158 | a burst stays in the group as long as its count stays at most 11, every fragment advanced once per frame |
| Sprites.ShrapnelLifetime | game.py:149-158 | a fresh burst survives 11 moves and leaves on the 12th |
| Sprites.SinkMove | game.py:175-179 | the radius falls by 0.1 above 10 and by 0.2 at or below, and the spot leaves exactly when the new radius is not positive |
| Sprites.SinkShrinkFast | game.py:175-179 | above 10 the radius falls by a tenth every frame |
| Sprites.SinkShrinkSlow | game.py:175-179 | at 10 or below it falls by a fifth every frame and the spot leaves when it reaches 0 |
| Sprites.SinkLifetime | game.py:172-179 | a new sink spot (radius 15) is still there after 99 frames with radius 0.2 and leaves on its 100th move |
| Sprites.CreateHull | game.py:260-273 | five vertices inside the 15 by 50 box around the centre, the bow vertex 25 above it facing 1 and 25 below it facing -1 |
| Sprites.RingTranslate | game.py:25-37 | the closed ring of a translated hull is the translated closed ring |
| Sprites.MoveHull | game.py:308-310 | every vertex is offset by the movement, and the hull's centre moves by exactly the movement |
| Sprites.CreateHullCenter | game.py:260-273 | the centre of a fresh hull is 4 units towards the bow from the requested centre |
| Sprites.NewBoat | game.py:228-234 | a new boat has the created hull, the given health, no turn, no motion and is not reloading |
| Sprites.TakeDamage | game.py:275-277 | health falls by exactly 10 and nothing else changes; the hit is fatal exactly when health was at most 10 |
| Sprites.DamagedHealth | game.py:275-277 | after n hits only the health has changed, by 10n, and hit n+1 is fatal exactly when 10(n+1) reaches the starting health |
| Sprites.FifthHitKillsEnemy | game.py:275-277 | an enemy with 50 health survives four hits and dies on the fifth |
| Sprites.FifteenthHitKillsUser | game.py:275-277 | the user, created with 150 health (game.py:337), survives fourteen hits and dies on the fifteenth |
| Sprites.Fire | game.py:245-249 | the boat starts reloading, and the new shell leaves the turret end for the target on the boat's side |
| Sprites.StopReload | game.py:256-258 | the boat is no longer reloading and nothing else changes |
| Sprites.Drift | game.py:308-310 | the enemy hull moves a quarter unit down the screen, its centre with it |
| Sprites.InRangeDistance | game.py:324-328 | for the length d of the offset, the range test holds exactly when d < 299.5, which is when Python's round gives less than 300 |
| Sprites.StartMove | game.py:351-352 | the direction of motion becomes the pressed one and nothing else changes |
| Sprites.EndMove | game.py:354-356 | a release of the current direction stops the boat; any other release leaves it as it was |
| Sprites.StartTurn | game.py:345-346 | the turn rate becomes the pressed one and nothing else changes |
| Sprites.EndTurn | game.py:348-349 | the turn rate becomes 0 whatever it was, and nothing else changes |
| Sprites.EndMoveOnlyOnMatch | game.py:351-356 | a release leaves the boat still exactly when it matched the motion or the boat was already still; only the motion changes; a later press always wins |
| Sprites.NextHeading | game.py:360-361 | no turn keeps the heading; a turn adds the full rate when moving forwards and half of it otherwise |
| Sprites.DisplacementByDirection | game.py:362-363 | forwards moves (sin, -cos) of the heading, backwards (-sin/2, cos/2), standing still not at all |
| Sprites.UserMove | game.py:358-365 | the heading is updated first, then the hull moves along the new heading, its centre by exactly the displacement; nothing else changes |
| Sprites.TranslateOrigin | game.py:54-58 | moving by the zero offset changes nothing, so a still user only turns |
| Sprites.Move | game.py:488-490 | a sprite's move keeps its identity, class and side, and a boat never leaves the group |
| Sprites.Frame | game.py:488-490 | islands are skipped, a removed sprite stays removed, a surviving sprite keeps identity and class |
| Sprites.RunKeeps | game.py:488-490 | over n frames a surviving sprite keeps its identity and class |
| Sprites.RunSplit | game.py:488-490 | running a + b frames is running a frames and then b more |
| Sprites.RunRemoved | game.py:488-490 | a sprite that left the group never comes back |
| SpriteGroup.Find | game.py:453-455 | the model's stand-in for object identity, on which the snapshot loops of handle_shells (and of update, game.py:488) rely to reach each sprite in the live group: a lookup by identity returns only a sprite with that identity |
| SpriteGroup.FindNone | game.py:488-490 | the update loop looks each identity of its snapshot up in the live group; such a lookup fails exactly when no member has the identity |
| SpriteGroup.Add | game.py:217 | a sprite not yet in the group is appended; adding a member changes nothing |
| SpriteGroup.Remove | game.py:202-203 | removal never grows the group, and removing a non-member changes nothing |
| SpriteGroup.RemoveMembers | game.py:202-203 | exactly the sprites with another identity remain |
| SpriteGroup.OfKindMembers | game.py:500-503 | selecting one class keeps exactly that class's members |
| SpriteGroup.OrderAllSprites | game.py:497-504 | the nested loops rebuild the group class by class in draw order, each class in its old order |
| SpriteGroup.OrderAllPermutes | game.py:497-504 | the reordered group holds every sprite exactly as often as before |
| SpriteGroup.OrderAllStable | game.py:500-503 | each class keeps its members in their old relative order |
| SpriteGroup.OrderAllSorted | game.py:498-503 | no sprite is placed after one of a later class in the order Island, Sink_Spot, User, Enemy, Shell, Shrapnel |
| SpriteGroup.PermKeeps | game.py:567 | a rearranged group with distinct identities keeps them distinct and below the fresh identity |
| SpriteGroup.PermFind | game.py:567 | lookups by identity do not see the order of the group |
| GameLogic.SpawnFacts | game.py:217 | adding a sprite with the fresh identity keeps the group well formed and counts it in its class |
| GameLogic.DespawnFacts | game.py:146-148 | removing a member other than the user keeps the group well formed, drops the identity and uncounts it |
| GameLogic.SetSpriteFacts | game.py:459 | an in-place update of a member keeps the group well formed, puts the new sprite under its identity, and keeps the island and enemy counts |
| GameLogic.KeyDownFacts | game.py:406-417 | a key press keeps the group well formed, the user's identity, the islands, the enemies and the score, and lowers dy by at most one |
| GameLogic.KeyDownEffect | game.py:406-417 | 'w' and 's' set the user's direction of motion to 1 and -1, 'a' and 'd' its turn to -1 and 1, and any other key changes nothing; dy falls by one exactly on a 'w' press with the user's centre above half the screen height; every other sprite is unchanged |
| GameLogic.KeyUpFacts | game.py:419-429 | a key release keeps the group well formed, the user's identity, dy, the islands, the enemies and the score |
| GameLogic.KeyUpEffect | game.py:419-429 | 'w' and 's' end that direction of motion, 'a' and 'd' end any turn (and change nothing when none is under way), any other key changes nothing; dy and every other sprite are untouched |
| GameLogic.KeyUpMove | game.py:420-425 | releasing 'w' or 's' stops the user exactly when it was moving that way or already still, and changes nothing else |
| GameLogic.KeyUpTurn | game.py:426-429 | releasing 'a' or 'd' ends any turn under way, a turn the other way included, and changes nothing else |
| GameLogic.StaleReleaseKeepsReversing | game.py:406-425 | pressing 'w', then 's', then releasing 'w' leaves the user reversing |
| GameLogic.MouseFireFacts | game.py:342-343 | a click adds one friendly shell from the turret end towards the mouse under the fresh identity, sets the user reloading, and changes nothing else that a frame keeps |
| GameLogic.ReloadEach | game.py:558-562 | every enemy whose id field matches the event stops reloading; every other sprite stays as it was |
| GameLogic.EnemyReloadFacts | game.py:558-562 | after the reload event no enemy with that id field is reloading, every other sprite is untouched, and the invariant holds |
| GameLogic.SetTurretEndFacts | game.py:236-243 | recording a turret end keeps what a frame keeps and the score |
| GameLogic.ScrollIslands | game.py:473-475 | every island moves by -dy and every other sprite stays as it was |
| GameLogic.SameShape | game.py:473-475 | a pass that keeps every identity and class keeps the group well formed and the counts |
| GameLogic.ScrollMapFacts | game.py:470-479 | progress moves by -dy and so never falls; the new group is the old one with every island moved by -dy (when dy is not 0), followed by an island at (0, 0) under the next identity exactly when the level goes from 0 to 1; the enemies, dy and the score stay |
| GameLogic.HitTargetFacts | game.py:215-219 | a hit puts a burst under the next identity (at the shell's position, on the shell's side, with the fragments spawned from the shell's direction) and advances it by one, and takes the shell out; no enemy is touched and the score stays |
| GameLogic.HitTargetFind | game.py:215-219 | a hit leaves every other sprite where it was |
| GameLogic.HitEnemyFacts | game.py:456-462 | only a friendly shell hits an enemy; the group stays well formed, the user is untouched, and the score rises by 5 exactly when the enemy leaves |
| GameLogic.HitEnemyOutcome | game.py:456-462 | a shell that is not friendly or not inside the hull changes nothing; otherwise the shell goes and its burst takes the next identity, and then an enemy with 10 health or less leaves, with a sink spot at its centre under the identity after, one enemy fewer and 5 points more, while a healthier enemy stays with 10 health less and the score unchanged |
| GameLogic.EnemySunk | game.py:458-462 | a friendly shell inside the hull of an enemy with 10 health or less: the burst under the next identity, the sink spot at the enemy's centre under the one after, the enemy and the shell gone, one enemy fewer, 5 points more, the user untouched |
| GameLogic.EnemyDamaged | game.py:456-459 | a friendly shell inside the hull of an enemy with more than 10 health: the burst under the next identity, the shell gone, the enemy in place with 10 health less, the score and the user untouched |
| GameLogic.SinkFacts | game.py:279-285 | the sunk enemy leaves and a sink spot at the given centre with the sink radius takes the next identity; one enemy fewer, exactly 5 points more, the user unchanged |
| GameLogic.HitUserFacts | game.py:463-466 | a friendly shell, or one outside the hull, changes nothing; a hostile shell inside the hull is removed, its burst takes the next identity, and the user stays in place with 10 health less; no enemy and not the score is touched |
| GameLogic.ResolveFacts | game.py:455-466 | one shell-against-sprite step keeps what a frame keeps; a friendly shell never touches the user, a hostile one never touches an enemy or the score |
| GameLogic.ShellAgainstFacts | game.py:455-466 | the same over a whole inner loop |
| GameLogic.ShellAgainstNoNewShells | game.py:455-466 | the inner loop creates no shell: every shell afterwards was there before |
| GameLogic.ShellStepFacts | game.py:453-466 | one round of the outer loop keeps what a frame keeps and the side of every shell |
| GameLogic.ShellsFromFacts | game.py:453-466 | the same over any sequence of rounds |
| GameLogic.HandleShellsFacts | game.py:452-466 | handle_shells keeps the group well formed and the user in it, and raises the score by exactly 5 per enemy that left; with only friendly shells the user is untouched, with only hostile ones every enemy and the score are |
| GameLogic.EnemyUpdateFacts | game.py:320-328 | an enemy's update keeps what a frame keeps, the score and the number of enemies |
| GameLogic.EnemyUpdateFires | game.py:320-328 | the enemy's target becomes the user's current centre; the number of shells rises by one exactly when that centre is in range and the enemy is not reloading, and otherwise stays; when it fires, a hostile shell from its turret end towards the target takes the next identity and the enemy starts reloading; no other sprite changes |
| GameLogic.MoveOnlyFacts | game.py:488-490 | one sprite's move keeps what a frame keeps and never removes an enemy or the user |
| GameLogic.MoveStepFacts | game.py:488-493 | one pass of the move loop keeps what a frame keeps, the score and the enemy count |
| GameLogic.MovesFromFacts | game.py:488-493 | the same over any sequence of passes |
| GameLogic.MovePassFacts | game.py:488-493 | the move loop keeps the group well formed and the user in it; it neither scores nor removes an enemy |
| GameLogic.Reverse | game.py:484-485 | the first step of update lowers dy by at most one and changes nothing else |
| GameLogic.ReorderFacts | game.py:567 | reordering for drawing keeps every sprite once, every lookup by identity, the score, and what a frame keeps |
| GameLogic.Init | game.py:536-541 | the game starts with score, progress, level and dy all 0 |
| GameLogic.InitInv | game.py:536-541 | the initial world (the user facing up with 150 health, one island) satisfies the invariant and has no enemy |
| GameLogic.UpdateFacts | game.py:482-493 | a frame keeps the invariant and the user; progress never falls; the score never falls and rises by exactly 5 per enemy sunk |
| GameLogic.InputInv | game.py:543-562 | every event handler keeps the invariant |
| GameLogic.TickFacts | game.py:564-567 | update followed by the reorder keeps the invariant and the user, and scores 5 per enemy sunk |
| GameLoop.MoveSprite | game.py:149-158 | running the move loops of a sprite gives exactly the sprite's move |
| GameLoop.MoveBoatHull | game.py:308-310 | moving the closed ring and rebuilding the polygon gives exactly the translated hull |
| GameLoop.HullCenter | game.py:367-368 | the centre computed by the loop is the centre of the closed ring |
| GameLoop.Game.constructor | game.py:534-541 | the new game holds exactly the initial world and satisfies the invariant |
| GameLoop.Game.HandleKeyDown | game.py:406-417 | the new state is exactly the key-press function of the old one, and the invariant is kept |
| GameLoop.Game.HandleKeyUp | game.py:419-429 | the new state is exactly the key-release function of the old one, and the invariant is kept |
| GameLoop.Game.MouseFire | game.py:342-343 | the new state is exactly the mouse-fire function of the old one, and the invariant is kept |
| GameLoop.Game.SetTurretEnd | game.py:236-243 | the turret end is recorded as the function says, and the invariant is kept |
| GameLoop.Game.EnemyReload | game.py:558-562 | the reload loop leaves exactly the reloaded group, and the invariant is kept |
| GameLoop.ScrollIslands | game.py:472-475 | the loop leaves every island moved by -dy and every other sprite in place |
| GameLoop.Game.ScrollMap | game.py:470-479 | the new state is exactly the scrolled world, and the invariant is kept |
| GameLoop.Game.HitTarget | game.py:215-219 | the burst is spawned and filled and the shell removed, exactly as the function says |
| GameLoop.Game.Sink | game.py:279-285 | a sink spot at the hull's centre is added, the boat removed and 5 points scored |
| GameLoop.Game.Resolve | game.py:455-466 | the body of the inner loop leaves exactly the resolved world |
| GameLoop.Game.HitEnemy | game.py:456-462 | a hit on an enemy leaves exactly the world the function describes |
| GameLoop.Game.ShellRound | game.py:453-466 | the inner loop over a fresh snapshot leaves exactly one outer round's world |
| GameLoop.Game.HandleShells | game.py:452-466 | the nested loops leave exactly the world of handle_shells, and the invariant is kept |
| GameLoop.Game.EnemyUpdate | game.py:320-328 | the new state is exactly the enemy-update function of the old one, whose aiming and firing rule EnemyUpdateFires states |
| GameLoop.Game.MoveAll | game.py:488-493 | the move loop leaves exactly the moved world, and the invariant is kept |
| GameLoop.Game.Update | game.py:482-493 | a frame leaves exactly the updated world, and the invariant is kept |
| GameLoop.Game.Reorder | game.py:567 | the group is replaced by its draw-ordered copy, and the invariant is kept |
| GameLoop.Game.Tick | game.py:564-567 | update and then the reorder, with the invariant kept |

## Left out

- Rendering: every `draw`, `draw_hull`, `draw_turret`, `draw_health_bar`, `draw_waves`, `Menu`, `Dashboard` (including the copy of the user's health it takes in `update`) and `disp_icon` only paint the screen.
- `rotate_polygon`: it only feeds drawing (collision uses the unrotated hull), and `affinity.rotate` is a shapely call.
- `set_tur_end_pos`' trigonometry (atan with the quadrant corrections, cos and sin): the turret end is an input to `SetTurretEnd`, as `draw_turret` computes it while painting.
- `Boat.start_reload`'s and `stop_reload`'s pygame timers: the 3000 ms timer is not modelled, and a reload event arrives as an explicit call to `EnemyReload` carrying the event's id. Only the `is_reloading` flag is kept. `USER_RELOAD` is never handled by the source, so the user stays reloading once it fires. `mouse_fire` does not check the flag, and the model follows that.
- The main loop's event polling, `pygame.QUIT`, the menu state, the game-over screen and the frame clock: the model offers the handlers and `Tick`, and does not fix the order of events within a frame.
- Enemy creation: the source never creates an enemy (the line is commented out), so the initial world has none. Every pass still handles enemies.
- `take_damage`'s return value for the user: it is ignored in the source and in the model, so the user's health can go below zero without a game over.
- Floating point: coordinates, radii and speeds are exact reals, so no rounding error is modelled.
- Foreign collaborators: shapely's `within`, `math.sqrt`, sine and cosine of degrees and the random generator are parameters of the model, with only the ranges in `Fair` assumed of the generator.
- Geometry.Normalize: unit length of the result is not stated, because the length is a parameter. The model states only that scaling back by the length recovers the input and that the result is parallel to it.
- Sprites.InRangeDistance: relates the range test to a length supplied with its square, because `math.sqrt` is a parameter.
- `Island.move` appears only through the scroll (islands are skipped by the move loop); an island's rectangle is modelled by its top-left corner.
- pygame's group is modelled as a sequence in insertion order. Object identity is an identity number, and an in-place update replaces the sprite with the same number.
