# Falling-rain arcade game: a verified model of the game state

The game is a single-page browser arcade game. The player moves left and right and jumps, dodging falling lava
blocks and catching falling cats. Each cat gives a speed boost that lasts 8 seconds. The game ends at the first
lava block that touches the player, and the time survived may become the new best time. All of the game's
logic lives in `src/main.js`. This project models the part of that file that updates the game state:

- pause-aware timekeeping (`setPaused`, and the session transitions `startGame`, `resetGame`, `gameOver`, the
  window blur/focus handlers and the pause button);
- the spawn scheduler (spawn check, delay decay towards a 150 ms floor, new entities at height 16);
- the collision test between an entity and the player;
- the cat boost bookkeeping (filtering expired boosts, the speed multiplier, a new expiry per caught cat);
- one animation frame (`loop`, lines 217-283): horizontal movement, jump and gravity with the ground clamp,
  the spawn check, the reverse sweep over the falling entities (with `splice`, `break` and `continue`) and
  the clamp of the player's x.

Modules:

- `World` (world.dfy): the constants, the entity record `Drop`, the collision test `Collides`, and `ClampX`.
- `Spawning` (spawning.dfy): `NextDelay`, the delay after `n` spawns, and the new entity built from the two
  random draws.
- `Boosts` (boosts.dfy): `Unexpired`, the filter over boost expiries, and `SpeedMultiplier`.
- `Physics` (physics.dfy): `MoveX` for horizontal movement and `VerticalStep` for jump, gravity and the
  ground clamp.
- `Timekeeping` (timekeeping.dfy): the four timestamps that pausing touches, as a value `Clock`, and
  `SetPaused` as a function on it.
- `RainSweep` (rainsweep.dfy): what the frame's sweep does to each entity (`FateOf`), and the sweep as a
  function (`Sweep`, last-spawned entity first). It also has its closed form: `Survivors`, `Collected` and
  `LastHit`. The sweep's definitions take the classifier as a parameter (`Drop -> Fate`), so that the
  lemmas about order and removal hold for any classifier; `Fates` is the one a frame uses.
- `Records` (records.dfy): the best-time comparison as the script evaluates it, where the stored best
  becomes a text after the first record (see "## Findings").
- `Session` (session.dfy): the class `Game`. Its fields are the module-level variables of `src/main.js`. Its
  methods are the handlers and the parts of a frame, and each is proved against the functions above.
  - The sweep is a `for i := |rain| downto 0` loop that splices in place.
  - The loop is proved to produce exactly `Sweep(old(rain), …)`.
  - `Valid()` is kept by every handler and every frame. It says:
    - the spawn delay is the decayed delay of the spawns so far, between 150 and 1200;
    - the player is on or above the ground and at rest when grounded;
    - every entity is inside the playfield's column;
    - the player's x is within [-8, 8] between frames;
    - only a running game is paused.

Inputs that the browser supplies are parameters: a frame gets them as method arguments.
- `time`: the animation-frame timestamp. It is compared with boost expiries and the spawn timer.
- `now`: the wall clock, `performance.now()`. Every call to it within one handler or one frame reads the same
  `now`.
- `frameScale >= 0`.
- The held keys, as booleans.
- The two random draws `rx` and `rk`, each in [0, 1). The new x is `-8 + 16·rx`; the entity is a cat iff
  `rk < 0.1`.

Facts about the game that the model keeps:
- New entities appear at height 16 (src/main.js:182, 193).
- The game state is the two booleans `playing` and `paused`.
- Horizontal movement is frame-rate independent (`Physics.MoveXSplit`). The vertical step is semi-implicit
  and is not: `Physics.VerticalNotSplitInvariant` exhibits a jump that ends at different heights after one
  frame of scale 2 and after two frames of scale 1.

## Model

| member | source | states |
|---|---|---|
| World.Collides | src/main.js:202-206 | an entity collides exactly when it is strictly within 0.7 of the player horizontally and strictly within 1.3 vertically |
| World.CollidesAtPlayer | src/main.js:202-206 | an entity at the player's position collides |
| World.NoCollisionAtOrBeyondExtent | src/main.js:202-206 | at a distance of 0.7 or more horizontally, or 1.3 or more vertically, there is no collision |
| World.ClampX | src/main.js:280-283 | the clamped x is within [-8, 8], equals x when x already is, and is the nearer bound otherwise |
| Spawning.NextDelay | src/main.js:199 | the next delay is at least 150; it is 0.985 times the old one whenever that is at least 150, and 150 otherwise; it never exceeds an old delay of at least 150, and is strictly smaller while above 150 |
| Spawning.SpawnDue | src/main.js:241 | a spawn is due exactly when the time has reached the last spawn time plus the delay |
| Spawning.DelayAfterSpawns | src/main.js:171-199 | the delay after n spawns, starting from 1200 and applying `NextDelay` once per spawn, is never below 150 and is strictly below 1200 after the first spawn |
| Spawning.DelayAfterSpawnsBounds | src/main.js:172-175 | starting from 1200, the delay after any number of spawns stays within [150, 1200] |
| Spawning.DelayNonIncreasing | src/main.js:199 | more spawns never give a larger delay |
| Spawning.DelayStaysAtFloor | src/main.js:199 | once the delay reaches 150 it stays at 150 |
| Spawning.SpawnX | src/main.js:178 | a draw in [0, 1) gives an x in [-8, 8) |
| Spawning.SpawnKind | src/main.js:180-196 | the new entity is a cat exactly when the kind draw is below 0.1, and lava exactly when it is not |
| Spawning.NewDrop | src/main.js:177-197 | a new entity is at height 16 with x in [-8, 8), and it is a cat exactly when the kind draw is below 0.1 |
| Boosts.Unexpired | src/main.js:218 | the filtered boosts are no more than before, all expire after `time`, every boost that expires after `time` is kept, and none is invented |
| Boosts.UnexpiredSubMultiset | src/main.js:218 | filtering never duplicates a boost: each expiry is kept at most as many times as it occurred |
| Boosts.SpeedMultiplier | src/main.js:219 | the multiplier is at least 1, and it is exactly 1 when no boost is active |
| Boosts.SpeedMultiplierIncreasing | src/main.js:219 | more active boosts give a strictly larger multiplier |
| Boosts.UnexpiredKeepsActive | src/main.js:218 | filtering boosts that are all still active returns them unchanged |
| Boosts.UnexpiredIdempotent | src/main.js:218 | filtering twice at the same time gives the same list as filtering once |
| Boosts.UnexpiredAppend | src/main.js:218 | filtering distributes over appending, so a boost pushed at the end stays behind the older ones |
| Boosts.ThreeOverlappingBoosts | src/main.js:218-219 | with three overlapping cats the multiplier is 1.6, and it drops to 1.4 once the first has expired |
| Physics.MoveX | src/main.js:221-225 | the displacement is the net held direction (right minus left) times 0.12, the multiplier and the frame scale |
| Physics.MoveXSplit | src/main.js:221-225 | two frames of horizontal movement equal one frame with the summed frame scale |
| Physics.MoveXDirection | src/main.js:221-225 | holding left alone moves left, holding right alone moves right, and both or neither leave x unchanged |
| Physics.VerticalStep | src/main.js:227-239 | after a frame the player is at or above 1.3; an airborne player is strictly above it; the player is at 1.3 exactly when grounded with zero velocity; standing at rest is preserved; an airborne player either lands or does not gain velocity |
| Physics.Integrate | src/main.js:227-239 | the jump, the gravity step and the ground clamp, applied one after another, give exactly `VerticalStep` |
| Physics.StaysOnGround | src/main.js:232-239 | without a jump, a player at rest on the ground stays there |
| Physics.JumpTakesOff | src/main.js:227-233 | a held jump from the ground leaves the ground with velocity 0.31 minus one frame of gravity |
| Physics.NoJumpInAir | src/main.js:227-230 | in the air the jump key has no effect |
| Physics.VerticalNotSplitInvariant | src/main.js:232-233 | one frame of scale 2 and two frames of scale 1 end a jump at different heights |
| Timekeeping.SetPaused | src/main.js:370-381 | setting the flag to its current value changes nothing; pausing records the start of the pause; resuming shifts the session start and the last spawn time by the same amount, the pause's length |
| Timekeeping.SinceLastSpawn | src/main.js:241 | the spawn timer's reading added to the last spawn time gives `now`; it is non-negative exactly when `now` is not before the last spawn |
| Timekeeping.SurvivedSeconds | src/main.js:306-307 | the survival time in seconds, times 1000, is the time since the session start; it is non-negative exactly when `now` is not before the session start |
| Timekeeping.PauseResume | src/main.js:370-381 | a pause at P and a resume at R shift both timestamps by R - P, so the survival time and the spawn timer read at R what they read at P |
| Timekeeping.PauseExcludedFromLaterReadings | src/main.js:370-381 | after a pause of length D, every later reading of the survival time and the spawn timer is the one D ms earlier without the pause |
| Timekeeping.BlurThenFocus | src/main.js:353-367 | a blur and then a focus restore the paused flag; an already paused clock comes back unchanged, and a running one comes back as after a pause and resume |
| RainSweep.Fall | src/main.js:248 | falling keeps the entity's kind and x and lowers its y by exactly `fall`, so never raises it when `fall` is non-negative |
| RainSweep.FateOf | src/main.js:247-277 | only lava is a hit and only a cat is collected, and an entity is either of the two exactly when it touches the player after falling |
| RainSweep.FateMeaning | src/main.js:248-277 | after falling, lava is a hit exactly when it touches the player, a cat is collected exactly when it touches the player, and any other entity is removed exactly when it is below -5 |
| RainSweep.Survivors | src/main.js:246-278 | what a sweep without a hit keeps is no longer than the entities it started with; with `SurvivorsStay`, `SurvivorsAppend` and `SurvivorAt` it is exactly the fallen entities whose fate is to stay, in order |
| RainSweep.SurvivorsStay | src/main.js:269-277 | every survivor is the fallen copy of an entity whose fate is to stay |
| RainSweep.Collected | src/main.js:262-266 | no more cats are collected than there are entities, and any collected cat comes from an entity the sweep collects |
| RainSweep.LastHit | src/main.js:246-254 | it finds the highest index whose entity is a lava hit, with no hit above it, or reports that there is none |
| RainSweep.Sweep | src/main.js:246-278 | the sweep leaves no more entities and no more cats than it started with, and it reports a hit exactly when some entity is a hit |
| RainSweep.SweepByLastHit | src/main.js:246-278 | without a hit, the sweep keeps exactly the survivors in their order and collects every touched cat; with one, it stops at the highest-index hit, and only that entity and those above it have moved or been removed |
| RainSweep.SweepWithoutHit | src/main.js:246-278 | a sweep that meets no hit yields the survivors in order, their collected cats, and no game over |
| RainSweep.SweepWithHit | src/main.js:250-254 | a sweep whose highest-index hit is at j leaves entities 0..j-1 untouched, leaves j fallen in place, and handles the entities above j as a full sweep would |
| RainSweep.SurvivorsClear | src/main.js:262-277 | no survivor of a frame's sweep touches the player, and each is at or above -5 |
| RainSweep.SurvivorsAppend | src/main.js:269-276 | which entities are kept is decided one entity at a time, so the survivors of a concatenation concatenate |
| RainSweep.SurvivorAt | src/main.js:269-276 | removing or keeping entity k keeps the survivors before it and after it in place and in order |
| RainSweep.LavaMissKept | src/main.js:274-277 | lava that misses the player and stays at or above -5 is kept, fallen, in its place |
| RainSweep.SurvivorsInColumn | src/main.js:248 | falling keeps entities within the playfield's column |
| Records.TextLess | src/main.js:309 | JavaScript's `<` on two strings: nothing is smaller than the empty text, and a proper prefix is smaller than the text it starts |
| Records.TextLessIrreflexive | src/main.js:309 | no text is smaller than itself |
| Records.BeatsAsWritten | src/main.js:309 | against a numeric best the comparison is numeric, on the value the rounded text stands for; the text of the current best never beats it |
| Records.SavedAsWritten | src/main.js:309-312 | after a record the stored best is the record's text; otherwise it is unchanged |
| Records.ShorterRunReplacesRecord | src/main.js:309-312 | after a 12.3 s record, a 9.5 s run counts as a new record, and the stored best goes down to "9.5" |
| Records.LongerRunMissesRecord | src/main.js:309-312 | after a 99.0 s record, a 100.0 s run does not count as a record |
| Records.FirstRecordIsNumeric | src/main.js:309-312 | the first comparison after loading is numeric, so a longer run than the loaded best is recorded as its text |
| Session.Game.constructor | src/main.js:150-173 | the page starts with no game running, no entities or boosts, a multiplier of 1, a 1200 ms delay, the player at x 0 at height 1.3 with the grounded flag still false, and the stored best time; the remembered paused flag starts false and the pause start at 0 (lines 353 and 369) |
| Session.Game.SetPaused | src/main.js:370-381 | the game's timestamps change exactly as `Timekeeping.SetPaused` says |
| Session.Game.GameOver | src/main.js:302-312 | the game stops and is unpaused; the survival time is read after the unpause; it is a new record exactly when it beats the old best time, and the best time becomes the larger of the two |
| Session.Game.ResetGame | src/main.js:326-338 | entities and boosts are cleared, no cats are counted, the multiplier is 1, the player is back at x 0 on the ground at rest, the delay is 1200, and the game invariant holds |
| Session.Game.StartGame | src/main.js:340-351 | the game runs unpaused from a reset state, and the session start and the last spawn time are both `now` |
| Session.Game.Blur | src/main.js:353-360 | a running game remembers its paused flag and pauses; otherwise nothing changes |
| Session.Game.Focus | src/main.js:362-367 | a running game gets the remembered paused flag back; otherwise nothing changes |
| Session.Game.PauseButton | src/main.js:395-399 | a running game toggles its paused flag; otherwise nothing changes |
| Session.Game.SpawnRain | src/main.js:177-200 | one new entity is appended and the delay decays as `NextDelay` says |
| Session.Game.SpawnStep | src/main.js:241-244 | a spawn happens exactly when the delay has passed since the last one, and then the spawn time is `time`; otherwise the entities, the delay and the spawn time are unchanged |
| Session.Game.UpdateBoosts | src/main.js:218-219 | the boosts become the unexpired ones, all later than `time`, and the multiplier is 1 + 0.2 per remaining boost |
| Session.Game.MoveHorizontal | src/main.js:221-225 | the player's x moves as `MoveX` says, with the current multiplier |
| Session.Game.MoveVertical | src/main.js:227-239 | the player's height, velocity and grounded flag become `VerticalStep` of the old ones, computed by `Integrate` |
| Session.Game.SweepEntity | src/main.js:247-277 | the entity falls; a lava hit stops the sweep with the entity fallen in place; a touched cat is removed, adds one cat and pushes one expiry `now + 8000`; an entity below -5 is removed; anything else stays fallen in place |
| Session.Game.SweepEntities | src/main.js:246-278 | the reverse splicing loop leaves exactly what `Sweep` leaves, with the cats and boosts it collects, and says whether it stopped at a hit |
| Session.Game.LavaHit | src/main.js:252 | a hit in a running game ends it, leaves the clock as it was, and keeps the better of the old best time and the time survived |
| Session.Game.SweepRain | src/main.js:246-278 | the sweep's entities, cats and boosts are those of `Sweep`; the game stops exactly on a hit, and only then may the best time change |
| Session.Game.ClampPlayer | src/main.js:280-283 | the player's x becomes `ClampX` of the old x |
| Session.Game.BeforeSweep | src/main.js:217-244 | the boosts become the unexpired ones and the multiplier follows their number; x moves as `MoveX` with the new multiplier; height, velocity and grounded flag become `VerticalStep` of the old ones; a spawn happens exactly when it is due, with the new entity, the decayed delay and the spawn time `time`, and nothing spawns otherwise; the invariant holds and the delay never rises |
| Session.Game.Advance | src/main.js:217-283 | a running frame keeps the invariant (so x ends within [-8, 8]), never raises the spawn delay, and leaves only boosts still active or just granted |
| Session.Game.Frame | src/main.js:209-283 | every frame keeps the invariant, and a frame of a stopped or paused game changes nothing |

## Left out

- Rendering, meshes, lights, textures, asset loading and the camera's exponential smoothing. These only affect
  the picture.
- The cats' rotation. It is visual only.
- Audio and its ignored promise rejections. These are side effects with no game state.
- The DOM: dialogs, the GUI text, touch controls and key listeners. The held keys are frame inputs.
- localStorage persistence of settings and the best time. The constructor takes the stored best time as a
  parameter.
- `requestAnimationFrame` scheduling and the derivation of `frameScale` from consecutive timestamps.
  `frameScale >= 0` is a frame input.
- JavaScript doubles. Positions and times are exact reals, so no rounding is modelled.
- Session.Game.GameOver: keeps the best time as a number and compares numerically, which is the intended
  behaviour. The script rounds the survival time to a one-decimal text with `toFixed(1)`, and after the first
  record it stores that text as the best time. From then on the comparison is between two texts, so the best
  time can go down. `Records` models this as written (see "## Findings"). `toFixed(1)` rounding itself is not
  modelled: the survival time is the exact real `(now - gameStartTime) / 1000`, and `Records` takes the text
  as a given input.
- Session.Game.Advance: does not restate the whole new state of a frame. The methods it calls (`UpdateBoosts`,
  `MoveHorizontal`, `MoveVertical`, `SpawnStep`, `SweepRain`, `ClampPlayer`) each state theirs exactly.
- Session.Game.Frame: states the invariant and the no-op case only, for the same reason.
- Session.Game.SweepEntities: the game over that the source calls just before `break` is made by `SweepRain`
  right after the loop returns. Nothing happens between the two.
- A jump's whole arc over many frames (rising, then falling back to 1.3) is not proved. The frame-by-frame
  facts are: `JumpTakesOff`, the velocity loss in `VerticalStep`, and the ground clamp.
- `resetGame` resets neither `onGround` nor `lastSpawnTime`, and the model keeps that. `startGame` sets the
  spawn time right after the reset.

## Findings

| source | as written | input that shows it | evidently intended | confidence | as-written member | corrected member |
|---|---|---|---|---|---|---|
| src/main.js:306-312 | after the first record `bestTime` holds the `toFixed(1)` text, and `survivedSeconds > bestTime` then compares two texts code unit by code unit | a 12.3 s record followed by a 9.5 s run: "12.3" < "9.5" as texts, so the 9.5 s run is a "new record" and the best time goes down; after a 99.0 s record a 100.0 s run is not a record | compare the survival time with the best time as numbers, so that the best time never decreases | not executed | Records.BeatsAsWritten, Records.ShorterRunReplacesRecord, Records.LongerRunMissesRecord | Session.Game.GameOver |
