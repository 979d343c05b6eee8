# Aquarium: fish motion and frame scheduling

A model of the animation core of a small aquarium widget. A tank holds a
list of fishes; each fish swims sideways between the tank walls, bobs up and
down in a ten-pixel band, and every hundred swim steps picks a new random
sub-behaviour (drift upward, drift downward, or go straight). Each fish runs
two drift-corrected frame schedulers: the swim scheduler fires every 10 ms,
the float scheduler every 100 ms. Clicking a fish pauses or resumes its swim
scheduler only.

Three modules:

- `Scheduler` (scheduler.dfy, from `animation.js`): the scheduler's tick as
  pure functions (`AnimateStep`, `ToggleStep`, `Run`) and the class
  `Animation`, whose methods update `then`, `now`, `elapsed` and `stop` in
  place. A ghost counter `pending` tracks the frame callbacks registered with
  the host.
- `FishMotion` (fish_motion.dfy, from `aquarium.js`): the fish's motion
  state machine as pure functions over a snapshot of the fields a fish
  updates (move primitives, float, swim, the sub-behaviour counter,
  placement), and the lemmas about them.
- `Aquarium` (aquarium.dfy, from `aquarium.js`): the classes `Fish` and
  `Tank`. Each `Fish` method updates fields in place and is specified by
  the matching `FishMotion` function.

Host calls are parameters. A clock reading (`Date.now()`) is `reading` or
`now`, in milliseconds. A draw of `Math.random()` is a real `u` or `v` in
[0, 1), and the model keeps the source's `Math.floor` arithmetic on it.
Measured element sizes (`getBoundingClientRect`) are whole pixels.
`requestAnimationFrame` becomes the `OnFrame` method, run once per frame
the host delivers.

Facts about the code that the model keeps:
- x is kept in `[0, tank.width)`; the fish's width is not subtracted.
- y is kept in `[topOfWater, 300)`; the limit 300 is hard-coded, not the tank height.
- The scheduler fires only when strictly more than one interval has elapsed.
- The sub-behaviour counter counts up from 0 to 100, skipping 1 within a call.

## Model

| member | source | states |
|---|---|---|
| Scheduler.Realign | animation.js:29-34 | after a firing tick the reference time is less than one interval behind `now`, never past it, and a positive whole number of intervals after the old reference time |
| Scheduler.AnimateStep | animation.js:21-38 | a stopped scheduler changes nothing and does not fire; a running one fires exactly when `now - then > fpsInterval` (strict), and otherwise leaves `then` alone; a firing realigns `then` as `Realign` says; `stop` is never changed |
| Scheduler.ToggleStep | animation.js:43-50 | toggling flips `stop`; stopping never fires and leaves `then` alone; a restart runs `animate` at once, so it fires exactly when `now - then > fpsInterval` and then realigns `then` as a running tick would |
| Scheduler.ToggleTwice | animation.js:43-50 | two toggles restore the original `stop` value |
| Scheduler.FiringsPerInterval | animation.js:28-37 | over any sequence of ticks the reference time never decreases and never passes the latest reading, and firings times the interval is at most the clock time covered: at most one firing per elapsed interval |
| Scheduler.Animation.constructor | animation.js:8-15 | `fpsInterval` is the given duration (10 by default), `stop` is false, `then` and `startTime` are the construction time, and the first frame is registered |
| Scheduler.Animation.Animate | animation.js:21-38 | the new `then`/`stop` and the fired flag are those of `AnimateStep`; a running scheduler records `now` and `elapsed` and registers one more frame; a stopped one changes nothing |
| Scheduler.Animation.OnFrame | animation.js:21-25 | delivering a frame runs `animate`; a running scheduler re-registers (pending frames unchanged), a stopped one ends its loop (one fewer pending frame) |
| Scheduler.Animation.ToggleAnimation | animation.js:43-50 | the new state and fired flag are those of `ToggleStep`; a restart registers one more frame even if the frame from before the stop is still pending |
| FishMotion.Up | aquarium.js:202-207 | only `y` may change; it moves up by `pixels` exactly when the result is strictly below the water line, otherwise nothing changes |
| FishMotion.Down | aquarium.js:213-218 | only `y` may change; it moves down by `pixels` exactly when the result is below 300, otherwise nothing changes |
| FishMotion.Left | aquarium.js:224-229 | only `x` may change; it moves left by `pixels` exactly when the result is non-negative, otherwise nothing changes |
| FishMotion.Right | aquarium.js:235-240 | only `x` may change; it moves right by `pixels` exactly when the result is below the tank width, otherwise nothing changes |
| FishMotion.MovesStayInside | aquarium.js:202-240 | for a fixed tank, no move by a non-negative amount takes a fish out of `[0, width) x [topOfWater, 300)` |
| FishMotion.StartX | aquarium.js:31 | the random start column lies in `[0, tank.width)` for a tank of positive width |
| FishMotion.StartY | aquarium.js:32 | the random start row lies in `[topOfWater, 300)` whenever the water line is above 300 |
| FishMotion.Spawned | aquarium.js:19-40 | a new fish sits at the random start position and is inside the tank (positive width, water line above 300); it is unmirrored and swims right, the float counter is at 0 and rising, and the sub-behaviour counter is idle with `straight` named |
| FishMotion.FloatStep | aquarium.js:88-104 | `floatPos` changes by exactly one on every call, even when the pixel move is refused, downward when reversing and upward otherwise; it stays in 0..10; `floatReverse` is set at 10 or more, cleared at 0 or less and kept in between; the fish moves up one pixel when reversing and down otherwise; nothing else changes |
| FishMotion.FloatStepOnWave | aquarium.js:88-104 | one float step moves the counter one place along the 20-step triangle wave |
| FishMotion.FloatOscillates | aquarium.js:88-104 | from `floatPos` 0 the counter follows a triangle wave 0..10..0 of period 20, falling exactly in the second half of each period |
| FishMotion.FloatPreserves | aquarium.js:88-104 | floating keeps a fish inside a fixed tank and keeps the float counter in its band |
| FishMotion.TurnAtWalls | aquarium.js:111-117 | at `x >= tank.width - width` the fish reverses and `scaleX` becomes `-abs(scaleX)`; at `x <= 3` below that threshold it stops reversing and `scaleX` becomes `abs(scaleX)`; strictly between, nothing changes; `abs(scaleX)` is always kept |
| FishMotion.Cruise | aquarium.js:109-124 | after the wall check, a reversing fish moves 2 pixels left unless that goes below 0, any other fish 2 pixels right unless that reaches the tank width; only x and the wall check's fields change |
| FishMotion.ChoiceIndex | aquarium.js:128 | `floor(random * 3)` is a valid index of the three behaviour choices |
| FishMotion.Select | aquarium.js:126-130 | a counter at 0 starts a cycle at turn 1 with the drawn behaviour; a running cycle keeps its counter and behaviour; afterwards the counter is non-zero and, for a consistent counter, a behaviour is named |
| FishMotion.Act | aquarium.js:158-180 | `upward` tries a one-pixel move up, `downward` one down, `straight` nothing; only y ever changes |
| FishMotion.Behave | aquarium.js:148-156 | strictly between 0 and `duration` (100 by default) the counter goes up by one and the action runs; otherwise the counter is reset to 0 with no behaviour named and the fish does not move |
| FishMotion.NextBehaviors | aquarium.js:127-156 | per swim call the counter goes 0 to 2 with a freshly drawn behaviour, k to k + 1 for 0 < k < 100, and 100 back to 0 with no behaviour chosen; afterwards it is always 0 or in 2..100, and a non-zero counter always has a behaviour |
| FishMotion.SwimStep | aquarium.js:109-133 | one swim call: the counter moves as `NextBehaviors` says; x, the direction and `scaleX` follow the wall check and the 2-pixel stride; the chosen behaviour's vertical action runs exactly when the counter was below 100, otherwise y is unchanged; the float state is kept |
| FishMotion.SwimPreserves | aquarium.js:109-133 | swimming keeps a fish inside a fixed tank, keeps the counter in its cycle and keeps `scaleX` matched to the swim direction |
| FishMotion.TurnAtRightWall | aquarium.js:111-124 | tank width 500, fish width 20, x = 495: the fish reverses, `scaleX` becomes -1 and x becomes 493 |
| FishMotion.Sustain | aquarium.js:148-156 | from turn k in 2..100 with a chosen behaviour, the rest of the cycle runs that behaviour's action 100 - k times and then ends the cycle |
| FishMotion.CycleOf100 | aquarium.js:127-181 | from an idle counter, 100 swim calls run the behaviour drawn on the first call exactly 99 times in a row, and the last call runs nothing and leaves the counter at 0 with no behaviour chosen |
| FishMotion.SwimRunCounter | aquarium.js:109-133 | over any run of swim calls the fish's counter evolves as the counter alone does, whatever the walls and moves do |
| Aquarium.WaterLine | aquarium.js:288 | `floor(height * 0.10)` is the tenth of the height rounded down, and it lies below a positive height |
| Aquarium.Fish.constructor | aquarium.js:13-25 | a new fish belongs to the given tank, carries the settings' name, is placed as `Spawned` says, and starts a 10 ms swim scheduler and a 100 ms float scheduler, both running |
| Aquarium.Fish.InitiateDimensions | aquarium.js:30-40 | sets the random start position, the measured size and unit scales |
| Aquarium.Fish.TeleportTo | aquarium.js:188-192 | sets `x` and `y` to the given values |
| Aquarium.Fish.MoveUp | aquarium.js:202-207 | the new fish state is `Up` of the old one against the tank's water line |
| Aquarium.Fish.MoveDown | aquarium.js:213-218 | the new fish state is `Down` of the old one |
| Aquarium.Fish.MoveLeft | aquarium.js:224-229 | the new fish state is `Left` of the old one |
| Aquarium.Fish.MoveRight | aquarium.js:235-240 | the new fish state is `Right` of the old one against the tank width |
| Aquarium.Fish.Float | aquarium.js:88-104 | the new fish state is `FloatStep` of the old one; the invariant and containment in a fixed tank are kept |
| Aquarium.Fish.Swim | aquarium.js:109-133 | the new fish state is `SwimStep` of the old one with the drawn choice; the invariant and containment in a fixed tank are kept |
| Aquarium.Fish.CruiseSideways | aquarium.js:109-124 | the wall check and the stride update x, the direction and `scaleX` in place exactly as `FishMotion.Cruise` says |
| Aquarium.Fish.PickBehavior | aquarium.js:126-130 | a counter at 0 draws a behaviour and starts the cycle in place, as `FishMotion.Select` says; otherwise nothing changes |
| Aquarium.Fish.Behave | aquarium.js:148-156 | the new fish state is `FishMotion.Behave` of the old one for the given action and duration |
| Aquarium.Fish.SwimUpward | aquarium.js:161-164 | runs `behave` with a one-pixel upward move |
| Aquarium.Fish.SwimDownward | aquarium.js:169-172 | runs `behave` with a one-pixel downward move |
| Aquarium.Fish.SwimStraight | aquarium.js:177-180 | runs `behave` with no move |
| Aquarium.Fish.SwimFrame | aquarium.js:21 | a frame of the swim scheduler ticks it as `AnimateStep` says and swims exactly when it fires; the float scheduler is untouched |
| Aquarium.Fish.FloatFrame | aquarium.js:24 | a frame of the float scheduler ticks it as `AnimateStep` says and floats exactly when it fires; the swim scheduler is untouched |
| Aquarium.Fish.HandleOnClick | aquarium.js:68-83 | a click toggles only the swim scheduler (as `ToggleStep` says, swimming once if the restart fires), flips the bubble's visibility and leaves the float scheduler unchanged |
| Aquarium.Tank.constructor | aquarium.js:267-275 | the tank takes the measured size and its water line, then holds exactly one new fish per settings entry, in input order, each placed as `Spawned` says and inside the tank when the width is positive and the water line is above 300; the fishes are pairwise distinct objects |
| Aquarium.Tank.AddFish | aquarium.js:277-279 | appends one new fish and keeps the existing ones in place |
| Aquarium.Tank.HandleResize | aquarium.js:284-290 | stores the new width and height, sets the water line to a tenth of the height rounded down, and leaves the fish list alone |

## Left out

- DOM work is not modelled: creating the fish element, the style writes of `update`, and the speech bubble's text, z-index and placement. The bubble is a boolean `bubbleShown`. The click and resize listeners and `console.log` are also left out. All of these are presentation only.
- `requestAnimationFrame`, `Date.now`, `Math.random` and `getBoundingClientRect` are parameters, as described above.
- Pixel sizes are whole numbers; floating point is not modelled, so `Math.floor(height * 0.10)` is `height / 10`.
- `canEscape` is never assigned anywhere, so it is always falsy; the move guards leave it out.
- Scheduler.Animation.constructor: the immediate `animate()` call is taken to read the same instant as the construction, so it never fires.
- Aquarium.Fish.constructor: both schedulers take the same clock reading.
- The scheduler's `behavior` callback is not stored. Each tick returns whether the behaviour was due, and `SwimFrame`, `FloatFrame` and `HandleOnClick` run `Swim` or `Float` when it was.
- `startTime` is set but never read by the source; it is kept as a field only.
- Aquarium.Fish.Swim: requires that a non-zero counter has a behaviour chosen. Otherwise the source would call a missing entry of the behaviour table and throw. That state is unreachable: `Consistent` holds from construction on and every step keeps it.
- Containment holds only for a tank whose dimensions stay fixed: `HandleResize` does not move the fishes.
- Scheduler.Animation.ToggleAnimation: a stop and restart within one frame leaves two frame loops running. The model counts the pending frames but does not model two loops interleaving.
- aquarium-view.jsx (the view that builds the tank from a fixed list of names and loads the stylesheet) is not part of this model.
