# CyberRunner engine in Dafny

A model of the simulation engine of CyberRunner, a browser endless-runner
game written as one JavaScript class (`script.js`). A player under constant
gravity jumps over obstacles that spawn at the right edge of the canvas and
slide left; every obstacle that leaves the field scores 10 points, every
hundred points speed the obstacles up, and the spawn interval shrinks with
every spawn down to a floor. An axis-aligned test between an inset player
hitbox and each obstacle ends the game and updates the high score.

Four modules follow the engine's parts:

- `Physics` (`physics.dfy`): the player body (`Body`), one tick of gravity
  and ground clamp (`Fall`), the guarded jump impulse (`Jumped`), and
  multi-tick flight (`Steps`, with the closed forms `FlightY` and
  `FlightVelocity`).
- `Obstacles` (`obstacles.dfy`): the three-variant geometry table
  (`NewObstacle`, `Catalogued`), the spawn test (`SpawnFires`), the interval
  ramp (`NextInterval`, `IntervalAfter`), translation (`Advance`), pruning
  (`Survivors`, `Passed`) and the speed that belongs to a score (`SpeedFor`).
- `Collision` (`collision.dfy`): the inset hitbox (`Hitbox`), the strict
  overlap test (`Hits`) and its lift to all live obstacles (`CollidesAny`).
- `Runner` (`runner.dfy`): the classes `Player` and `CyberRunner`, whose
  methods mutate their fields as the JavaScript does, the state machine
  `GameState`, the input dispatch rule (`Dispatch`) and the high score
  (`RecordHighScore`, `BestAfter`).

Numbers are `real`, so 0.6, 0.8 and -12 are exact; the score and the tick
counter are `int`. The canvas width and height come from the page and are
constructor parameters. The object invariant `CyberRunner.Valid` states that
the score is a non-negative multiple of 10, that `gameSpeed ==
SpeedFor(score)` (6 + 0.8 per hundred points), that the interval is the
point `IntervalAfter(spawns)` of the ramp (a ghost count of spawns since
the session began), that the tick counter is below the interval, and that
every live obstacle has its variant's shape. The constructor and every
operation of the session (`StartGame`, `RestartGame`, `SpawnObstacle`,
`UpdateObstacles`, `Update`, `HandleInput`) establish or keep it.
`MoveObstacles` and `PruneObstacles` are steps inside `UpdateObstacles`:
they promise only the parts of it they touch (the prune step keeps the
score and speed clauses), and `UpdateObstacles` restores the whole.
The classes' methods (`StartGame` … `HandleInput`) state their new state in
terms of the old one (`old`, `fresh`); what they guarantee beyond that is
the invariant `Valid` they keep and the lemmas about the functions their
contracts use.

Quirks of the code that the model keeps:

- `startGame` places the player at `y = 300` whatever the ground level
  (script.js:32); only the constructor puts it on the ground (script.js:71).
  So the ground bound `y <= groundY - height` is not part of `Valid`; it is
  guaranteed after every tick (`Update`).
- `startGame` has no guard: it resets the session even while playing
  (script.js:96-104). A "no-op while playing" rule would be stricter than
  the code, so the model follows the code.
- A jump is applied at once from the input handler. Nothing is queued for
  the next tick (script.js:81-82, 90-91).
- Obstacles are scored by the prune step before the collision test of the
  same tick (script.js:613-618), whether or not that tick ends the game.
- Collision uses the drone's fixed `y`; the bob offset only moves the
  drawing (script.js:555).
- The player's `y >= 0` is not enforced anywhere in the code. A jump from
  the ground rises at most 114 pixels (`JumpApex`).

## Model

| member | source | states |
|---|---|---|
| Physics.Fall | script.js:117-127 | after a tick the player is never below `groundY - height`; it is on the ground exactly when the free step reaches it, and then has velocity 0 and is not jumping; otherwise velocity grew by exactly 0.6, `y` by the new velocity, and `isJumping` is unchanged |
| Physics.Jumped | script.js:110-115 | a jump leaves the player jumping at the same height; it sets velocity -12 only when the player was not jumping, and otherwise changes nothing |
| Physics.JumpIsIdempotent | script.js:110-115 | requesting a jump twice is the same as requesting it once (no double jump) |
| Physics.RestingStaysOnGround | script.js:117-127 | a player resting on the ground stays exactly there, at rest |
| Physics.FreeFlight | script.js:117-121 | as long as the ground is not reached, n ticks give velocity `v0 + 0.6 n` and height `y0 + n v0 + 0.6 (1 + ... + n)` |
| Physics.JumpStaysAirborne | script.js:110-127 | during ticks 1 to 38 of a jump from the ground the free-flight height is above the ground |
| Physics.JumpAirtime | script.js:110-127 | a jump from rest on the ground stays airborne for 38 ticks and lands exactly on the ground, at rest, on tick 39 |
| Physics.JumpFlightAboveApex | script.js:110-127 | the free-flight height of a jump never rises more than 114 pixels above the ground |
| Physics.JumpApex | script.js:110-127 | the highest point of a jump is 114 pixels above the ground, reached at ticks 19 and 20 |
| Obstacles.NewObstacle | script.js:153-194 | a spawned obstacle starts at `x == canvas.width` with its variant's shape; spikes (30x60) and laser (8x80) stand on the ground, the drone (40x25) has its top at `groundY - 120` |
| Obstacles.SpawnFires | script.js:149-152 | the counter is incremented before the test, and as it is whole a spawn fires exactly when it reaches the interval rounded up (80 for 80, 80 for 79.2) |
| Obstacles.WithSpawn | script.js:196 | when the spawn fires exactly one obstacle is appended after the existing ones; otherwise the obstacles are unchanged |
| Obstacles.NextInterval | script.js:199-202 | a spawn never lengthens the interval; it shortens it, by exactly 0.8, exactly when it is above 40 |
| Obstacles.IntervalAfterClosedForm | script.js:199-202 | after k spawns of a session the interval is `80 - 0.8 k` for k up to 50 and exactly 40 afterwards |
| Obstacles.IntervalBounds | script.js:199-202 | the interval stays within [40, 80] and never increases |
| Obstacles.Advance | script.js:206-207 | each obstacle's `x` decreases by exactly the speed; `y`, width, height and variant are unchanged; none is added or lost |
| Obstacles.OffScreen | script.js:218 | an obstacle of non-negative width is removed exactly when no column of it, edges included, is at or right of the field's left edge |
| Obstacles.Passed | script.js:217-219 | no more obstacles are credited than are live |
| Obstacles.Survivors | script.js:217-229 | the kept obstacles and the credited ones together are all the obstacles |
| Obstacles.FilterStep | script.js:217-229 | the filter's callback decides each obstacle on its own: the i-th one is either kept, after the ones kept before it, or credited once |
| Obstacles.SurvivorsMembers | script.js:217-229 | pruning keeps exactly the obstacles with `x + width >= 0` |
| Obstacles.SurvivorsAppend | script.js:217-229 | pruning distributes over concatenation, so kept obstacles stay in their original order |
| Obstacles.PassedAppend | script.js:217-229 | the credited count distributes over concatenation |
| Obstacles.CatalogueKept | script.js:148-229 | spawning, moving and pruning keep every live obstacle at its variant's vertical position and size |
| Obstacles.MilestoneStep | script.js:219-225 | crediting 10 points to a multiple of 10 raises the speed by 0.8 exactly when the new score is a multiple of 100, which keeps `gameSpeed == 6 + 0.8 * (score div 100)` |
| Obstacles.SpeedFor | script.js:219-225 | the speed belonging to a score: 6 below the first hundred points, never below 6, and at most 6 + 0.8 per hundred points |
| Obstacles.SpeedForMonotone | script.js:223-225 | a higher score never means slower obstacles |
| Collision.Hitbox | script.js:267-272 | the player's box is shrunk by 5 pixels on every side |
| Collision.Hits | script.js:275-278 | the strict overlap test: boxes of positive size hit exactly when they share an interior point, the centre of their overlap |
| Collision.CollidesAny | script.js:274-282 | the loop's outcome: some live obstacle hits the hitbox, and an empty field never does |
| Collision.SeparatedNeverCollides | script.js:274-282 | boxes apart or only touching on either axis never collide |
| Collision.CollidesAnyAppend | script.js:274-282 | the obstacles collide with the hitbox exactly when one of them does, wherever it stands in the list |
| Runner.Dispatch | script.js:75-93 | an input jumps exactly when playing and it is Space or a canvas click; it starts exactly when it is the start button or Space in the menu; it restarts exactly when it is the restart button; anything else is ignored |
| Runner.RecordHighScore | script.js:289-293 | the new high score is the maximum of the old one and the final score |
| Runner.BestAfterIsMaximum | script.js:285-293 | after any series of games the high score is the largest of the stored value and all final scores |
| Runner.BestAfterNonDecreasing | script.js:289-293 | one more game never lowers the high score |
| Runner.GroundedPlayerVsObstacle | script.js:266-278 | a player on the ground passes under a drone, and is hit by spikes or a laser exactly when they overlap horizontally |
| Runner.HighPlayerClearsGroundObstacles | script.js:266-278 | a player at least 115 pixels above the ground line clears spikes and lasers wherever they stand |
| Runner.FreshSpawnIsClear | script.js:613-618 | an obstacle spawned in a tick has moved once when collision is tested; on a field wide enough for that move it cannot hit the player |
| Runner.Player.constructor | script.js:29-42 | a new player is at `y = 300`, at rest, not jumping |
| Runner.CyberRunner.constructor | script.js:2-71 | the game starts in the menu with score 0, speed 6, no obstacles, interval 80, the stored high score, and a new player on the ground |
| Runner.CyberRunner.StartGame | script.js:96-104 | from any state: playing, score 0, speed 6, a new player at `y = 300`, no obstacles, timer 0, interval 80, high score kept |
| Runner.CyberRunner.RestartGame | script.js:106-108 | the same reset as a start |
| Runner.CyberRunner.Jump | script.js:110-115 | the player's state becomes `Jumped` of its old state |
| Runner.CyberRunner.UpdatePlayer | script.js:117-127 | the player's state becomes `Fall` of its old state, with the floor at `groundY - height` |
| Runner.CyberRunner.SpawnObstacle | script.js:149-203 | the counter is incremented; when it reaches the interval one obstacle of the chosen variant is appended, the counter resets to 0 and the interval takes its next step; the invariant is kept |
| Runner.CyberRunner.MoveObstacles | script.js:206-214 | the obstacles become `Advance` of the old ones at the current speed |
| Runner.CyberRunner.PruneObstacles | script.js:217-229 | the obstacles become the survivors in order, the score grows by 10 per removed obstacle, and the speed stays tied to the score |
| Runner.CyberRunner.UpdateObstacles | script.js:148-230 | spawn, then move (the new obstacle too) at the speed the tick began with, then prune; obstacles, score, counter and interval are stated as functions of the old state; the invariant is kept |
| Runner.CyberRunner.GameOver | script.js:285-297 | the state becomes game over and the high score the maximum of itself and the score |
| Runner.CyberRunner.CheckCollisions | script.js:266-283 | the game ends (with the high score update) exactly when some obstacle strictly overlaps the inset hitbox; otherwise state and high score are unchanged |
| Runner.CyberRunner.Update | script.js:613-620 | outside playing nothing changes; while playing: physics, then obstacles (the counter incremented or reset on a spawn, the interval taking its next step on a spawn), then collision against the moved obstacles; the player ends on or above the ground, the interval never grows, the speed and the high score never drop, and the invariant is kept |
| Runner.CyberRunner.HandleInput | script.js:74-94 | each input performs the action `Dispatch` picks for the current state: a jump changes only the player, a start or restart resets the session, anything else changes nothing |

## Left out

- Drawing (`draw*`, `render`): canvas pixel output with no effect on the simulation.
- `updateBackground`, stars, particles, the player trail and the animation counters (`animationFrame`, `runAnimation`, `scarfFlow`, `bobOffset`): cosmetic, driven by `Math.random`.
- DOM updates (`textContent`, `classList`, `style.display`) and the listener wiring itself; only the rule of which input triggers which action is modelled (`Dispatch`, `HandleInput`).
- `localStorage`: the stored high score is a constructor parameter (0 when absent), and the write at game over is the update of the `highScore` field. The string coercion of the stored value is not modelled.
- `gameLoop` and `requestAnimationFrame`: host scheduling. `Update` is the tick, called by whatever drives the game.
- `Math.random` for the variant: the variant is a parameter of `Update` and `UpdateObstacles`, used only when a spawn fires.
- IEEE-754 rounding of 0.6, 0.8 and -12: the model uses exact reals. With floating point, 80 minus 0.8 takes 51 steps instead of 50 and ends at about 39.2 instead of exactly 40. The whole-number points of the ramp (76, 72, …, 40) each come out a hair above the integer, so with `SpawnFires`' rounding up, every fifth gap between spawns is one tick longer than with exact reals (77 ticks instead of 76). The airtime and apex results (`JumpAirtime`, `JumpApex`) also hold for exact reals only: in doubles the accumulated rounding can leave the player a hair above the floor after 39 ticks, so for many ground levels it lands on tick 40.
- Obstacles are values in a sequence, not shared objects; the code never aliases them, so this loses nothing the simulation observes.
- The player's `x`, `width` and `height` are constants, as the code never assigns them.
- A whole session run to game over (many ticks with spawns and no jumps) is not stated as a lemma; the model states each tick exactly, and the multi-tick results cover the player's physics only.
