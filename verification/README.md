# Platformer frame simulation in Dafny

This project models the per-frame simulation of a two-player pygame
platformer (`tutorial.py`). Each frame does the following:

- The round timer is checked.
- The queued events are handled: jump keys, escape, quit, and the win and
  loss checks.
- The fall-out check runs.
- Both players run their `loop`: gravity ramp, move, hit countdown and
  sprite selection.
- Four scans run over the level's object list. The first player collects
  fruits. A mob either player touches hurts while the buff is in the list.
  The second player kills mobs once the buff is gone, and eats the buff.
- `handle_move` runs: each player stops, probes ten pixels to each side,
  and steers by the held keys.
- `handle_vertical_collision` snaps each player onto or under the objects
  it overlaps.
- The camera scrolls.

The background's tile grid (`get_background`) is modelled as well.

The model is laid out as follows:

- **Geometry**: boxes, tagged entities, and the abstract mask test.
- **Actor**: the player as a value `ActorState` with one `After*` function
  per method. The class `Player` holds the same fields, and each of its
  methods is proved to move `State()` exactly as its `After*` function says.
- **Animation**: sheet and frame selection.
- **Collision**: `collide` and `handle_vertical_collision`.
- **Controls**: `handle_move`.
- **Screen**: the camera and the background.
- **Lists**: sequence facts for Python's snapshot-and-remove loops.
- **Level**: a whole frame, both as the function `Frame` over
  `RoundState` and as the class `Round` whose `Step` is proved equal to
  it.
- **ActorProperties** and **LevelProperties**: what those functions
  guarantee over many calls.

The two player classes differ only in their animation delay (3 and 2) and
in one line of sheet selection. They are one actor with a `Config`. The
three levels differ only in the mobs a win needs, the fall-out height, and
where the win and loss checks sit. These are captured by `Rules`.

## Model

| member | source | states |
|---|---|---|
| Actor.GravityStep | tutorial.py:153-154 | The gravity added by one `loop` lies in [0, 1] and is exactly 1 once the airborne count reaches `fps`. |
| Actor.GravityStepIsMin | tutorial.py:154 | The step equals `min(1, (fall_count / fps) * GRAVITY)` as the source writes it. |
| Actor.StepOnRamp | tutorial.py:154 | Below the cap, `fps` times the step is the airborne count. |
| Actor.Player.constructor | tutorial.py:112-124 | A new player is at rest, faces left, has zero counters, is not hit, has no sprite yet, and is consistent. |
| Actor.Player.Jump | tutorial.py:126-131 | The new state is `AfterJump` of the old one: velocity `-GRAVITY*8`, the animation restarts, the jump is counted, and the fall ramp resets on the first jump only. |
| Actor.Player.Move | tutorial.py:133-135 | Only the box moves, by `(dx, dy)`. |
| Actor.Player.MakeHit | tutorial.py:137-139 | The hit flag is set and the hit counter reset; nothing else changes. |
| Actor.Player.MoveLeft | tutorial.py:141-145 | The velocity becomes `-vel` and the actor faces left; the animation restarts only on a turn. |
| Actor.Player.MoveRight | tutorial.py:147-151 | The mirror of `MoveLeft`. |
| Actor.Player.Loop | tutorial.py:153-164 | The new state is `AfterLoop` of the old one: gravity step, move by the velocity, hit countdown, one more airborne frame, new sprite. |
| Actor.Player.TickHit | tutorial.py:157-161 | The hit counter runs while hit. Past `2*fps` the hit ends and the counter resets. |
| Actor.Player.Landed | tutorial.py:166-169 | The vertical velocity, the airborne count and the jump count all return to zero. |
| Actor.Player.HitHead | tutorial.py:171-173 | The vertical velocity is negated; nothing else changes. |
| Actor.Player.UpdateSprite | tutorial.py:175-195 | The sheet chosen by the actor's selection rule and the frame `(count // delay) % frames` are shown, the counter advances, and the box takes the frame's size. |
| Actor.Player.Update | tutorial.py:197-199 | The box takes the shown frame's size and keeps its top-left corner. |
| ActorProperties.JumpEffect | tutorial.py:126-131 | Gives the effect of `jump` field by field, including the first-jump-only ramp reset. |
| ActorProperties.MoveLeftEffect | tutorial.py:141-145 | Only the velocity and direction change. The animation restarts exactly on a turn. A repeated call changes nothing. |
| ActorProperties.MoveRightEffect | tutorial.py:147-151 | The mirror of `MoveLeftEffect`. |
| ActorProperties.TransitionsKeepConsistent | tutorial.py:126-199 | Every actor method keeps the field relations: the hit counter is zero unless hit, and a shown frame lies in its sheet and sizes the box. |
| ActorProperties.LoopEffect | tutorial.py:153-164 | One loop raises the vertical velocity by a step in [0, 1]. The box moves by the old horizontal and new vertical velocity. The airborne and animation counters advance. The horizontal velocity, facing and jump count are kept. |
| ActorProperties.LoopsVelocity | tutorial.py:153-164 | After `n` uninterrupted loops the vertical velocity has grown by the sum of the steps of the frames passed. The airborne count grew by `n`, and the horizontal state is kept. |
| ActorProperties.RampGain | tutorial.py:154 | Along the ramp, `fps` times the gain over `n` frames from rest is `0+1+…+(n-1)`. |
| ActorProperties.RampEnd | tutorial.py:154 | The first `fps` frames from rest gain `(fps-1)/2`. |
| ActorProperties.TerminalGain | tutorial.py:154 | After the ramp each frame adds exactly 1, with no terminal velocity. |
| ActorProperties.FallGain | tutorial.py:154 | The frame-by-frame gain from rest equals the closed form `n(n-1)/(2 fps)` on the ramp and grows linearly beyond it. |
| ActorProperties.FallFromRest | tutorial.py:153-164 | A fall from airborne count 0 has the closed-form vertical velocity after `n` loops. |
| ActorProperties.HitWindow | tutorial.py:137-139 | After `make_hit`, the next `2*fps` loops keep the actor hit and showing the "hit" sheet, with the counter equal to the loops passed. Loop `2*fps+1` clears it. |
| ActorProperties.HitStaysCleared | tutorial.py:157-161 | An actor that is not hit stays not hit with a zero counter through any number of loops. |
| ActorProperties.UpdateKeepsShownSprite | tutorial.py:197-199 | Once a sprite is shown, `update` is the identity. |
| ActorProperties.PlayersFallSheets | tutorial.py:96-304 | As configured, the first player (delay 3, tutorial.py:110) shows "fall" exactly on a fast fall while not hit. The second player (delay 2, tutorial.py:219) never shows it. |
| ActorProperties.SheetNameInjective | tutorial.py:190 | Different sheets of one facing have different names. |
| Animation.SelectSheet | tutorial.py:175-187 | For each sheet, the exact condition under which it is chosen, in both directions: hit first, then rising (jump or double jump), then falling faster than `2*GRAVITY`, then running, else idle. |
| Animation.AsWrittenNeverFalls | tutorial.py:284-296 | The second player's selection as written never shows "fall". It differs from the intended one exactly when the actor falls fast and is not hit, and then it shows "idle". |
| Animation.AsWrittenCounterexample | tutorial.py:293-294 | At `y_vel = 3`, not hit, the intended rule shows "fall" and the written one "idle". |
| Animation.FrameIndex | tutorial.py:192 | The frame index is always within the sheet. |
| Animation.FrameHeld | tutorial.py:192 | Each frame is held for `ANIMATION_DELAY` consecutive counts. |
| Animation.FramePeriodic | tutorial.py:192 | The animation repeats after `delay * frames` counts. |
| Animation.FrameAdvance | tutorial.py:192-194 | From one count to the next, the frame stays or moves on by one, cyclically. |
| Collision.FirstOverlap | tutorial.py:588-592 | Nothing is found exactly when no object overlaps. Otherwise the first overlapping object in list order is found. |
| Collision.Collide | tutorial.py:569-596 | The probe leaves the player's state as it was and returns the first object overlapping the player shifted by `dx`. |
| Collision.SnapTo | tutorial.py:557-562 | When falling, the bottom goes to the object's top and the player lands. When rising, the top goes to the object's bottom and it bounces. At `dy = 0` nothing moves. |
| Collision.HandleVerticalCollision | tutorial.py:536-566 | The final player state and the returned list are those of `VerticalResolve`. Each object is tested against the player as already snapped by the earlier ones. |
| Collision.ResolveInOrder | tutorial.py:554-566 | The returned objects form a subsequence of the level's objects. |
| Collision.ResolveNothing | tutorial.py:554-566 | Nothing is returned exactly when nothing overlaps the player as it stands, and then the player is unchanged. |
| Collision.ResolveAtRest | tutorial.py:554-566 | With `dy = 0` the player is unchanged and the result is exactly the overlapping objects, in order. |
| Collision.ResolveFalling | tutorial.py:557-559 | When falling, the player ends landed on the last object it overlapped. |
| Collision.ResolveRising | tutorial.py:560-562 | When rising, the player's top ends at the last overlapped object's bottom. Its vertical velocity is negated once per overlapped object. |
| Collision.ResolveKeepsHorizontal | tutorial.py:554-566 | Vertical resolution leaves the box's x and the horizontal velocity alone and never raises the jump count. |
| Controls.StopAndProbe | tutorial.py:603-609 | The player is stopped and otherwise unchanged. The two probe results say whether each side is blocked. |
| Controls.SteerFirstPlayer | tutorial.py:611-614 | The first player's two independent key tests, as `SteerFirst`. |
| Controls.SteerSecondPlayer | tutorial.py:615-618 | The second player's `if`/`elif` key tests, as `SteerSecond`. |
| Controls.HandleMove | tutorial.py:599-618 | Each player's new state is `MoveFirst` or `MoveSecond` of its old state. |
| Controls.MoveFirstEffect | tutorial.py:603-614 | For the first player: rightwards if `d` is held and the right is free, else leftwards if `a` is held and the left is free, else still. The animation restarts on a turn, or when both moves are made. Nothing else changes. |
| Controls.MoveSecondEffect | tutorial.py:607-618 | For the second player, a free left move wins over the right one. The animation restarts exactly on a turn. Nothing but velocity, facing and the animation count changes. |
| Controls.BlockedSideStaysShut | tutorial.py:611-618 | A blocked side never receives velocity towards it, for either player. |
| Controls.BlockedMeansOverlap | tutorial.py:604-609 | A side is blocked exactly when some object overlaps the player shifted by `PLAYER_VEL * 2` that way. |
| Screen.ScrollRule | tutorial.py:749-751 | The offset moves exactly when the player heads towards a window edge within the scroll area. It then moves by exactly the player's velocity, in its direction. |
| Screen.TileAt | tutorial.py:490-492 | The tile laid at column `i`, row `j` is at `(i*width, j*height)`. |
| Screen.Background | tutorial.py:487-495 | Lays `(WIDTH//w + 1) * (HEIGHT//h + 1)` tiles, column by column, each at its grid position. |
| Screen.TilesCoverWindow | tutorial.py:490-493 | Every window pixel lies in one of the tiles laid. |
| Screen.HundredPixelTiles | tutorial_test.py:162-163 | A 100×100 image gives 77 tiles in the expected order. |
| Level.SweepOne | tutorial.py:725-728 | One object of a snapshot pass removes it from the live list if it matches, and counts it. |
| Level.RemoveMatching | tutorial.py:725-728 | The pass over `objects[:]` leaves exactly the non-matching objects, in order, and returns how many matched. |
| Level.KillOne | tutorial.py:734-737 | One object of the kill pass is removed only if stomped while the buff is absent from the live list. |
| Level.KillMobs | tutorial.py:734-737 | The kill pass removes and counts all stomped mobs when the buff is gone, else nothing. |
| Level.Round.constructor | tutorial.py:640-690 | A round starts with both players at rest, counters zero, running and no banner. |
| Level.Round.ShowAndStop | tutorial.py:697-699 | A banner is recorded and `run` becomes false. |
| Level.Round.CheckTimer | tutorial.py:695-699 | Once `round_time` seconds have passed, the loss banner is shown and the round stops. |
| Level.Round.CheckOutcome | tutorial.py:713-718 | The win banner is shown on 3 fruits and the level's dead-mob count. The loss banner is shown on any mob contact. |
| Level.Round.PressKey | tutorial.py:706-712 | `w` and space jump the players while their jump count is below 2. Escape stops the round. |
| Level.Round.HandleEvents | tutorial.py:701-718 | Each event is handled in turn until a quit. The checks run per event (levels 1 and 3) or per key press (level 2, tutorial.py:842-847). |
| Level.Round.CheckFall | tutorial.py:719-721 | A player whose bottom is below the level's limit loses (630, or 645 at tutorial.py:975). |
| Level.Round.Sweep | tutorial.py:725-728 | The live list loses exactly the matching objects, and their number is returned. |
| Level.Round.ScanFruits | tutorial.py:725-728 | Touched fruits are removed and added to `fruits_collected`. |
| Level.Round.ScanMobHits | tutorial.py:730-732 | While the buff is in the list, each touched mob is counted into `coll_mobs`, and nothing is removed. |
| Level.Round.ScanMobKills | tutorial.py:734-737 | Once the buff is gone, stomped mobs are removed and counted into `dead_mobs`. |
| Level.Round.ScanBuffs | tutorial.py:739-742 | Touched buffs are removed and counted into `eat_buff`. |
| Level.Round.Motion | tutorial.py:744-751 | Applies `handle_move`, both vertical collisions along each player's own velocity, then the scroll. |
| Level.Round.Step | tutorial.py:692-751 | One iteration of the frame loop moves the round's state exactly as `Frame`. |
| LevelProperties.KeyOnlyStopsOrJumps | tutorial.py:706-712 | A key press shows no banner and leaves the list, counters and camera alone. |
| LevelProperties.ChecksOnlyStop | tutorial.py:713-718 | The checks only append banners and stop. A win banner needs the winning counters. |
| LevelProperties.OneEventOnlyStopsOrJumps | tutorial.py:701-718 | The same holds for one whole event. |
| LevelProperties.EventsOnlyStopOrJumpAll | tutorial.py:701-718 | The same holds for the whole event loop. |
| LevelProperties.OnlyStopOrJumpChains | tutorial.py:701-721 | These guarantees compose along a frame. |
| LevelProperties.OutcomeOnlyStopsOrJumps | tutorial.py:695-721 | The timer, the events and the fall check together only append banners and stop the round. |
| LevelProperties.FrameKeepsOutcome | tutorial.py:692-751 | The frame's banners and `run` flag are those the checks leave. Its list and counters are those the scans leave. |
| LevelProperties.MotionKeepsRound | tutorial.py:744-751 | Motion changes only the players and the camera. |
| LevelProperties.ScansKeepRound | tutorial.py:725-742 | The scans only remove objects and raise counters; players, camera and banners are untouched. |
| LevelProperties.FrameNeverRestarts | tutorial.py:692-751 | Banners are only appended and a stopped round stays stopped. |
| LevelProperties.TimeUpLoses | tutorial.py:695-699 | When time is up, the frame's first new banner is the loss and the round is over. |
| LevelProperties.WinNeedsEverything | tutorial.py:713-715 | A win banner implies 3 fruits and the level's dead mobs, counted before this frame's scans. |
| LevelProperties.ContactLoses | tutorial.py:716-718 | With mob contact counted, the first event that reaches the checks shows the loss and stops the round. |
| LevelProperties.WinShown | tutorial.py:713-715 | With 3 fruits and the level's dead mobs counted, the first event that reaches the checks shows the win banner and stops the round. |
| LevelProperties.KeyKeepsJumpLimit | tutorial.py:706-712 | A key press moves no box and changes no horizontal velocity. A jump count of at most 2 stays at most 2, and a player that has jumped twice is left unchanged. |
| LevelProperties.EventsKeepBodies | tutorial.py:701-718 | The event loop keeps both boxes and horizontal velocities, and the jump limit of 2. |
| LevelProperties.OutcomeKeepsBodies | tutorial.py:695-721 | The same holds for the timer, the events and the fall check together. |
| LevelProperties.FallLoses | tutorial.py:719-721 | A player below the level's limit at the start of the frame makes the frame's last banner the loss and ends the round. |
| LevelProperties.FrameKeepsJumpLimit | tutorial.py:707-710 | No frame takes either player's jump count past 2. |
| LevelProperties.FrameScroll | tutorial.py:723-751 | Over a frame the player moves by the velocity it had at the frame's start, and the camera follows the velocity `handle_move` gives it. When the camera moves, the on-screen position shifts by the difference of the two velocities, and stays put while the velocity is held. |
| LevelProperties.LevelRulesAsWritten | tutorial.py:692-1007 | The three levels' rules as written. The checks run on every non-quit event in levels 1 and 3 and on key presses only in level 2. Wins need 1, 2 and 3 dead mobs. Level 3's fall limit is 15 pixels lower (tutorial.py:975). |
| LevelProperties.LevelTwoNeedsKeyToWin | tutorial.py:842-844 | With winning counters, a non-key event shows no win in level 2, while a key press does. In level 1 any such event does (tutorial.py:713-715). |
| LevelProperties.NoEventNoWin | tutorial.py:701-721 | A frame whose events never reach the checks shows no win, only possible losses. |
| LevelProperties.UngatedEventsShowNothing | tutorial.py:701-718 | Events that reach neither the checks nor a quit add no banner. |
| LevelProperties.MobOutcomesExclusive | tutorial.py:730-742 | In one frame a mob may hurt or be killed, never both, depending on whether the buff is in the list. |
| LevelProperties.FrameConserves | tutorial.py:725-742 | For fruits, mobs and buffs, the counter plus the objects of that kind in the list stays constant over a frame, and no object is added. |
| LevelProperties.FruitScanConserves | tutorial.py:725-728 | The fruit scan conserves every kind's counter plus its list count. |
| LevelProperties.MobKillScanConserves | tutorial.py:734-737 | The same, for the mob-kill scan. |
| LevelProperties.BuffScanConserves | tutorial.py:739-742 | The same, for the buff scan. |
| LevelProperties.ScansConserve | tutorial.py:725-742 | The same, for the four scans in order. |
| LevelProperties.FruitScanIdempotent | tutorial.py:725-728 | A second fruit scan with the player in place changes nothing. |
| LevelProperties.BuffScanIdempotent | tutorial.py:739-742 | A second buff scan with the player in place changes nothing. |
| LevelProperties.TouchedBuffIsEaten | tutorial.py:739-742 | A touched buff leaves the list, after which mob contact is no longer counted. |

## Left out

- **Pixel-level geometry.** Positions and velocities are exact reals, so pygame `Rect`'s integer truncation of coordinates is not modelled.
- **The mask test.** `pygame.sprite.collide_mask` is an abstract parameter `overlaps`. It is applied to the actor's box and its current sheet and frame; no pixel masks are modelled.
- **Outside the frame logic.** Drawing, the `show_*` screens and their delays, the menu and `Button`, skin choice, and asset loading are not modelled. Sheet sizes enter only through `Config`.
- **Clock and input.** The clock, `get_ticks`, the event queue and `get_pressed` become the parameters `seconds`, `events` and `keys`.
- **Level layout.** The literal block, fruit, mob and buff positions of each level are not modelled. The objects, start positions and initial offset are constructor parameters of `Round`.
- **The `while run` loop.** `Step` models one iteration; the unbounded loop around it is not modelled.
- **The extra `self.count = 0`.** `hit_head` also assigns an attribute no other code reads (tutorial.py:172 and 281), so it is not modelled.
- **`eat_buff`.** The model keeps this counter (`RoundState.eatBuff`) although the source never reads it. No outcome depends on it.
- **The return value of `handle_vertical_collision`.** `HandleVerticalCollision` returns the overlapped objects, but `Step` discards them, as the source's frame does.
- **Player validity.** Player methods require the actor to be consistent. `Collide` and `HandleMove` also require a sprite already shown, as the source's mask test does.
- **Distinct objects.** The scans require the object list to hold distinct objects. Each level builds its list from distinct objects (tutorial.py:685-687), and the scans only remove from it.
- **The other unit tests.** `tutorial_test.py` tests functions that the source does not define (`check_fruit_collision` and the like), so those tests are not modelled.
- Actor.GravityStep: written with `GRAVITY = 1` folded in. `GravityStepIsMin` proves it equal to the source's `min(1, (fall_count / fps) * GRAVITY)`.
- LevelProperties.WinNeedsEverything: stated on `Outcome`, the part of the frame that shows banners. `FrameKeepsOutcome` carries it to the whole `Frame`.
- LevelProperties.WinShown: likewise stated on `Outcome`, as is `ContactLoses`. `FrameKeepsOutcome` carries both to the whole `Frame`.

## Findings

| source | as written | input that shows it | evidently intended | confidence | as-written member | corrected member |
|---|---|---|---|---|---|---|
| tutorial.py:294 | `sprite_sheet == "fall"` compares instead of assigning, so the second player falling fast shows "idle" | `hit = False`, `y_vel = 3`, `x_vel = 0`, `jump_count = 0` | `sprite_sheet = "fall"`, as in the first player's class at tutorial.py:185 | high; not executed | Animation.AsWrittenCounterexample | Animation.SelectSheet |
