# Player controller of a 2D platformer, in Dafny

This project models the player character of a Phaser platformer
(`src/gameobjects/player.js`) and proves properties of it. The controller is
driven once per frame by `update`, which reads the keyboard and the arcade
physics body. Enemies call `hit`, and prize pick-ups call `applyPrize`. The
animation system calls `animationComplete` when an animation ends. The
scene's timer runs the callbacks that `hit` and `die` hand to `delayedCall`.

There are three modules:

- `PlayerSpec` (`player_spec.dfy`) is the specification on values.
  - `PlayerState` holds the sprite's fields, grouped into vitals, motion, powers and the physics body.
  - `Input` holds one frame's key edges and levels, the body's `blocked.down` flag and its vertical velocity.
  - Every request to the engine becomes an `Effect`: an animation, a sound cue, a smoke burst, a brick or blow spawn, a tween, a coin update or a scene restart.
  - Each `delayedCall` becomes a `Task` in the player's `pending` queue. `FireTask` runs a pending callback.
  - Each source operation is a function that returns the new state and the requested effects.
- `PlayerRuns` (`player_runs.dfy`) runs any sequence of those calls and proves the properties that only appear across several calls.
- `PlayerSprite` (`player.dfy`) is the object as the game holds it.
  - A `Player` class has the source's fields and an owned `Body` class, and methods that update them in place.
  - Every method is proved to reach exactly the state and effects that the `PlayerSpec` function describes.

Where the code does something other than one would expect of it, the model follows the code:

- Dying does not clear `building`. Neither `hit` nor `die` touches it, and a dead player's `update` returns early. One would expect `building` to be false once dead, but it is not. `PlayerRuns.BuildingSurvivesDeath` shows this.
- The brick is raised by 128 when `jumpVelocity != -400`, that is, when the boots ARE active (`src/gameobjects/player.js:232`).
- A non-fatal hit plays the `"playerdead"` animation.
- A death requests `"playerdead"` twice: once from `die` (`src/gameobjects/player.js:318`), and once more from the next frame, because only `update` sets `deadAnimationPlayed` (`src/gameobjects/player.js:126-129`). The guard in `update` evidently means the animation to start once. Both requests pass `ignoreIfPlaying`, so the second one has no visible effect while the first is still playing. `PlayerRuns.DeathAnimationTwice` shows this.
- The left branch does not reset `jumpCount` on the ground; only the right branch does. The grounded reset at the end of `update` makes this invisible at the end of the frame (`PlayerSpec.TickJumpCount`).
- The 1000 ms invincibility callback is never cancelled. It clears `invincible` and re-enables the body even after death.
- A jump from the ground sets `jumpCount` to 1, but the same frame's grounded reset puts it back to 0. With `maxJumps == 1`, the player can therefore jump once from the ground and once more in the air (`PlayerRuns.GroundJumpThenAirJump`).

## Model

| member | source | states |
|---|---|---|
| PlayerSpec.Initial | src/gameobjects/player.js:6-41 | The constructed player: at the given position, alive, health as given (1 by default), facing right, not jumping, falling or building, not invincible, no jump used, `maxJumps` 1, walk 200, jump -400, a body at rest with gravity 100 that is enabled, moving and not immovable, no callbacks pending; satisfies the invariant |
| PlayerSpec.BrickOffset | src/gameobjects/player.js:231-232 | The brick goes 64 towards the facing side; it is raised by 128 exactly when the jump velocity is not -400 |
| PlayerSpec.BlowShape | src/gameobjects/player.js:257-258 | The blow goes 32 towards the facing side; its size is 128 exactly with mjolnir, otherwise 32 |
| PlayerSpec.BuildBlock | src/gameobjects/player.js:227-237 | Sets `building` and changes nothing else; requests the build animation, the build cue, the smoke at the brick's column, and exactly one brick spawn at the brick offset |
| PlayerSpec.HammerBlow | src/gameobjects/player.js:254-262 | Sets `building` and changes nothing else; requests the hammer animation and exactly one blow spawn of the right offset and size |
| PlayerSpec.Fall | src/gameobjects/player.js:134-140 | A jumping player whose body no longer rises is marked falling and gets gravity 700; otherwise nothing changes. Nothing but `falling` and the gravity ever changes |
| PlayerSpec.Jump | src/gameobjects/player.js:143-157 | The jump phase of a frame; its contract is stated by `PlayerSpec.JumpFacts` |
| PlayerSpec.Move | src/gameobjects/player.js:159-190 | The horizontal phase of a frame; its contract is stated by `PlayerSpec.MoveFacts` |
| PlayerSpec.JumpFacts | src/gameobjects/player.js:143-157 | Without a jump edge or with the budget used up, nothing happens. A jump sets `jumping`, clears `building`, and writes the jump velocity and gravity 400. `jumpCount` becomes 1 on the ground and +1 in the air, which keeps it within `[0, maxJumps]`. Exactly one jump cue is played. Nothing outside motion and the body's vertical velocity and gravity changes |
| PlayerSpec.MoveFacts | src/gameobjects/player.js:159-190 | Right faces right at `+walkVelocity`, left faces left at `-walkVelocity`, neither stops. Only right resets `jumpCount` on the ground, and both clear `building`. Standing on the ground clears `jumping` and `falling`. The land cue plays exactly when standing on the ground after a jump. The walk animation is requested iff a horizontal key is held on the ground; the idle animation iff standing still on the ground while not building. Nothing outside motion and the body's horizontal velocity changes |
| PlayerSpec.Tools | src/gameobjects/player.js:192-198 | The hammer and build edges set `building` if either is pressed and otherwise leave the player unchanged |
| PlayerSpec.ToolsCues | src/gameobjects/player.js:192-198 | The hammer and build edges play no jump cue, land cue or death animation, and request no restart |
| PlayerSpec.ToolsSpawns | src/gameobjects/player.js:192-198 | The hammer and build edges spawn the blow first, then the brick, on the player's facing side |
| PlayerSpec.AliveTick | src/gameobjects/player.js:134-203 | A living player's frame changes only motion and body fields |
| PlayerSpec.Tick | src/gameobjects/player.js:123-204 | A dead player's frame only marks the death animation as played, and requests it only if it was not played before. No frame changes `dead`, `health`, `invincible`, the powers, the pending callbacks or the position |
| PlayerSpec.TickJumpCount | src/gameobjects/player.js:143-203 | Grounded reset: a living player's frame on the ground ends with `jumpCount == 0`. In the air it adds 1 exactly when a jump starts. `maxJumps` never changes, a dead frame leaves motion alone, and the invariant is preserved |
| PlayerSpec.TickCues | src/gameobjects/player.js:124-157 | A frame plays the jump cue once if a jump starts and otherwise not at all. It requests the death animation once if the player is dead and it has not been played, otherwise never. It never requests a restart |
| PlayerSpec.AliveTickJumpCue | src/gameobjects/player.js:143-157 | A living player's frame plays the jump cue exactly once when a jump starts, otherwise never |
| PlayerSpec.AliveTickQuiet | src/gameobjects/player.js:133-204 | A living player's frame requests neither the death animation nor a restart |
| PlayerSpec.TickVertical | src/gameobjects/player.js:134-157 | After a frame, vertical velocity and gravity are those of a jump if one started. Otherwise gravity is 700 when a jumping player stopped rising, and unchanged otherwise |
| PlayerSpec.TickJumping | src/gameobjects/player.js:143-190 | A living player is jumping after a frame iff it was jumping or a jump started, and the frame did not stand still on the ground |
| PlayerSpec.TickFacing | src/gameobjects/player.js:159-190 | Facing and horizontal velocity after a frame are decided by exactly one of the right, left and neither branches |
| PlayerSpec.TickFalling | src/gameobjects/player.js:134-190 | A living player is falling after a frame iff it was falling or was jumping with a non-rising body, and the frame did not stand still on the ground |
| PlayerSpec.TickWalk | src/gameobjects/player.js:159-175 | A living player's frame requests the walk animation iff a horizontal key is held on the ground |
| PlayerSpec.TickIdle | src/gameobjects/player.js:143-190 | A living player's frame requests the idle animation iff it stands still on the ground and is not building, where a jump in the same frame has ended building |
| PlayerSpec.TickBodyFlags | src/gameobjects/player.js:123-204 | No frame changes the body's `enable`, `moves` and `immovable` flags |
| PlayerSpec.TickLanding | src/gameobjects/player.js:177-190 | Standing still on the ground ends jumping and falling. The land cue plays iff standing still on the ground while jumping, including a jump started in the same frame |
| PlayerSpec.TickBuilding | src/gameobjects/player.js:143-198 | `building` after a frame is set iff there is a hammer or build edge, or it was set and neither a jump nor a horizontal key cleared it |
| PlayerSpec.TickSpawns | src/gameobjects/player.js:192-198 | A dead player spawns nothing. A living player spawns a blow on a hammer edge and then a brick on a build edge, on the side it faces after the horizontal branch |
| PlayerSpec.Die | src/gameobjects/player.js:312-325 | Always leaves the player dead. On a dead player it changes nothing and requests nothing. Otherwise the new state is the old one with `dead` set, the body made immovable and not moving, and exactly one restart callback queued; it requests the death animation. Everything else is unchanged, and the invariant is kept |
| PlayerSpec.Hit | src/gameobjects/player.js:288-307 | No-op when dead or invincible. Otherwise health drops by exactly 1, and the player is dead iff health is now <= 0. A fatal hit's new state is the old one with health lowered, `dead` set, the body frozen (immovable, not moving) and the restart queued; `invincible` stays false. A non-fatal hit's new state is the old one with health lowered, `invincible` set, the body disabled and exactly one invincibility-clear callback queued. Nothing else changes; both play "playerdead". The invariant is kept |
| PlayerSpec.FireTask | src/gameobjects/player.js:302-324 | Running the callback at an index outside the queue does nothing. Otherwise it removes exactly that callback from the queue, keeping the order of the rest. A clear callback only resets `invincible` and re-enables the body, even after death. A restart callback only requests the restart. The invariant is kept |
| PlayerSpec.ApplyPrize | src/gameobjects/player.js:331-360 | "speed" sets walk 330, "boots" sets jump -600, "hammer" sets mjolnir, "star" sets invincible and queues no callback. Nothing else changes, and coin or unknown names change nothing. Effects: flash for the three powers, pulse for the star, coin update for the coin, none otherwise. The invariant is kept |
| PlayerSpec.AnimationComplete | src/gameobjects/player.js:274-283 | At the end of the hammer or build animation, `building` is cleared and the jump or idle animation is requested depending on `jumping`. "playerground" requests idle. Every other key does nothing. The invariant is kept |
| PlayerSpec.Turn | src/gameobjects/player.js:267-269 | Flips the facing and nothing else, keeping the invariant |
| PlayerRuns.Run | src/gameobjects/player.js:5-373 | Over any sequence of calls the invariant is kept, `dead` never reverts, health never rises and `maxJumps` never changes |
| PlayerRuns.StepMonotone | src/gameobjects/player.js:5-373 | The same four facts for any single call |
| PlayerRuns.StepRestartBalance | src/gameobjects/player.js:288-325 | For one call: restarts requested + restarts pending afterwards + (1 if dead before) = restarts pending before + (1 if dead afterwards) |
| PlayerRuns.HitRestartBalance | src/gameobjects/player.js:288-307 | The restart balance for `hit` |
| PlayerRuns.PrizeRestartBalance | src/gameobjects/player.js:331-360 | The restart balance for `applyPrize` |
| PlayerRuns.FireRestartBalance | src/gameobjects/player.js:302-324 | The restart balance for running a timer callback |
| PlayerRuns.RunRestartBalance | src/gameobjects/player.js:312-325 | The restart balance over any sequence of calls |
| PlayerRuns.RunRestartsOnce | src/gameobjects/player.js:312-325 | Over any calls from a valid state, at most one scene restart is requested. From a living player, one is requested exactly when the player ends dead with no restart still pending |
| PlayerRuns.StepDeathAnimation | src/gameobjects/player.js:124-132 | For a dead player, or for a frame: death animations requested + owed afterwards = owed before |
| PlayerRuns.RunDeathAnimation | src/gameobjects/player.js:124-132 | The same over a run from a dead player, or over a run of frames only |
| PlayerRuns.DeathAnimationAtMostOnce | src/gameobjects/player.js:124-132 | Once dead, the calls request "playerdead" from frames at most once, and never if a frame already played it (`deadAnimationPlayed`); a run of frames alone requests it at most once |
| PlayerRuns.StepJumpCues | src/gameobjects/player.js:143-157 | Any call other than a grounded frame raises `jumpCount` by exactly the number of jump cues it plays |
| PlayerRuns.RunJumpCues | src/gameobjects/player.js:143-157 | The same over a run that never touches the ground |
| PlayerRuns.AirborneJumpBound | src/gameobjects/player.js:143-157 | While in the air, the calls play at most `maxJumps - jumpCount` jump cues |
| PlayerRuns.GroundJumpThenAirJump | src/gameobjects/player.js:143-203 | From the constructed player with `maxJumps == 1`, a ground jump is followed by a second jump in the air |
| PlayerRuns.DeathAnimationTwice | src/gameobjects/player.js:124-132 | `die` on the constructed player requests "playerdead" without marking it played, and the next frame requests it again |
| PlayerRuns.DieIdempotent | src/gameobjects/player.js:312-314 | A second `die` changes nothing and requests nothing |
| PlayerRuns.RepeatedDie | src/gameobjects/player.js:312-325 | Any number (at least 1) of `die` calls on a living player queues exactly one restart and requests the death animation once |
| PlayerRuns.DeadRepeatedDie | src/gameobjects/player.js:312-314 | Any number of `die` calls on a dead player does nothing |
| PlayerRuns.HitTwice | src/gameobjects/player.js:288-307 | A second hit before the clear callback runs is ignored |
| PlayerRuns.PrizeIdempotent | src/gameobjects/player.js:331-360 | Applying the same prize twice leaves the same state as applying it once |
| PlayerRuns.TurnTwice | src/gameobjects/player.js:267-269 | Turning twice restores the state |
| PlayerRuns.BuildingSurvivesDeath | src/gameobjects/player.js:288-325 | A player killed while building is dead with `building` still set after the next frame |
| PlayerSprite.Body.constructor | src/gameobjects/player.js:11 | A new physics body is at rest, enabled, moving and not immovable |
| PlayerSprite.Player.constructor | src/gameobjects/player.js:6-41 | The new object's state is `PlayerSpec.Initial`, with health 1 by default, and it satisfies the invariant |
| PlayerSprite.Player.Update | src/gameobjects/player.js:123-204 | Updates the fields in place to `PlayerSpec.Tick` of the old state, and returns its effects |
| PlayerSprite.Player.FallStep | src/gameobjects/player.js:134-140 | The falling check, in place, proved equal to `PlayerSpec.Fall`: a jumping player whose body no longer rises is marked falling and gets gravity 700 |
| PlayerSprite.Player.JumpStep | src/gameobjects/player.js:143-157 | The jump, in place, with its effects |
| PlayerSprite.Player.MoveStep | src/gameobjects/player.js:159-190 | The horizontal branch, in place, with its effects |
| PlayerSprite.Player.ToolsStep | src/gameobjects/player.js:192-198 | The hammer and build edges, in place, with their effects |
| PlayerSprite.Player.BuildBlock | src/gameobjects/player.js:227-237 | `PlayerSpec.BuildBlock`, in place |
| PlayerSprite.Player.HammerBlow | src/gameobjects/player.js:254-262 | `PlayerSpec.HammerBlow`, in place |
| PlayerSprite.Player.Turn | src/gameobjects/player.js:267-269 | `PlayerSpec.Turn`, in place |
| PlayerSprite.Player.AnimationComplete | src/gameobjects/player.js:274-283 | `PlayerSpec.AnimationComplete`, in place |
| PlayerSprite.Player.Hit | src/gameobjects/player.js:288-307 | `PlayerSpec.Hit`, in place; calls `Die` on a fatal hit |
| PlayerSprite.Player.Die | src/gameobjects/player.js:312-325 | `PlayerSpec.Die`, in place |
| PlayerSprite.Player.ApplyPrize | src/gameobjects/player.js:331-360 | `PlayerSpec.ApplyPrize`, in place |
| PlayerSprite.Player.FireTask | src/gameobjects/player.js:302-324 | The timer runs the pending callback at an index, in place |

## Left out

- Particles: the number of smoke particles and their random scatter (`jumpSmoke`, `buildSmoke`) are not modelled. Each burst is one `JumpSmoke` or `BuildSmoke` effect at the burst's centre.
- Tweens: the prize flash and the star pulse are the `Flash` and `Pulse` effects. Their durations and repetitions are not modelled.
- Audio playback, animation playback and the animation definitions in `init` (frames, rates, the initial "startidle") are left out. Requests are effects; the animation-complete event is an explicit call.
- Keyboard polling: key objects are replaced by the `Input` snapshot of edges and levels.
- Physics integration: the engine moves the sprite, so the model never writes `x` and `y`. The engine's current vertical velocity is an input, and the body's velocity fields hold what the player last wrote.
- `flipX` and `setOrigin`/`setSize` affect only rendering and collision geometry, and are left out.
- Wall-clock time: the 1000 ms and 1500 ms delays are not modelled, and callbacks are not ordered by time. Any pending callback may run next.
- `console.log` calls are left out.
- Numbers: positions and the body's vertical velocity are JavaScript floating-point numbers, and the model makes them `int`. Positions pass through unchanged, and only the sign of the vertical velocity is read.
- `Blow`, `Brick`, `JumpSmoke` and the scene are not part of this model. The player only requests them.
