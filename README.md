# Baby-catching game: a Dafny model

This project models the game logic of a small browser arcade game. The player
moves a basket along the bottom of a play area and catches falling items.
Babies are worth 10 points, and catching three wins the game. Poop and barf
cost 5 points, and the score never drops below zero. A 30-second countdown
loses the game when it runs out. A win adds 5 points per second left. A
win screen shows a confetti burst, and a firework launcher fires randomly
shaped bursts and tracks them until they are cleaned up.

Each random draw (`Math.random()`) and each page measurement (element sizes,
bounding boxes) is a parameter, so the model is deterministic. Animation
frames, countdown ticks, spawn ticks, firework launches and the firework
cleanup timeout are explicit method calls.

Modules:

- `Wrappers` (wrappers.dfy), `Draws` (draws.dfy): an `Option` type, the unit-interval predicate for
  random draws, and `Math.floor(r * n)` as an index.
- `Items`: falling items, the basket's catch test, what one frame does to one
  item, spawning, and the two ways the basket moves (keyboard and touch drag).
- `Scoring`: the scoring state machine on values (`Session`): a catch, the end
  of the game, a countdown tick. It also holds the specification of a whole
  frame (`Survivors`, `CaughtKinds`, `CatchAll`) and the lemmas about them.
- `Game`: class `Game` with the page's variables `score`, `caughtBabies`,
  `timeLeft`, `isGameActive`, `basketPosition` and the list of falling items.
  Its handlers are methods proved against the `Scoring` functions. The frame
  handler is a loop over the item list.
- `Clock`: the `m:ss` countdown text, and reading it back.
- `Confetti`: the 150-piece confetti burst.
- `FireworkShow`: class `Fireworks` (start, stop, launch, cleanup) and the
  particle parameters of one burst.

The source's `handleItemCatch` does not check whether the game is still
running. One frame handles every item in the list, so a second baby caught in
the frame that wins the game also scores. It raises the count to 4 and ends
the game again, so the time bonus is added a second time. The model keeps
this behaviour (`Scoring.DoubleBonus`).
Whether the game is over is checked only on entry to a frame, a countdown tick and a spawn (script.js:145, 623, 226).

## Model

| member | source | states |
|---|---|---|
| `Draws.PickIndex` | fireworks.js:38 | `Math.floor(r * n)` for a draw in [0,1) is an index in [0, n) |
| `Items.NewTop` | script.js:160-162 | the new top is the parsed top plus the parsed speed; an unparsable top counts as 0, and an unparsable or zero speed counts as 2 |
| `Items.KindOf` | script.js:235-246 | a kind draw below 0.6 gives a baby, one in [0.6, 0.8) gives poop, and anything from 0.8 up gives barf |
| `Items.IsColliding` | script.js:180-190 | never a catch when the item lies fully left of the basket's left edge + 20, fully right of its right edge − 20, or above or below the basket; exactly touching edges count as a catch |
| `Items.CollidingIffNarrowedOverlap` | script.js:184-189 | for proper boxes and a basket at least 40 wide, a catch happens exactly when the item's box meets the basket's box narrowed by 20 on each side |
| `Items.Classify` | script.js:165-174 | the catch test on the moved item comes first; an item is dropped only when it was not caught and its new top is greater than the area height; otherwise it stays |
| `Items.SpeedOf` | script.js:235-247 | a baby falls at a speed in [2,4); poop and barf fall at a speed in [3,5) |
| `Items.SpawnLeft` | script.js:254 | a new item starts at a left offset in [0, areaWidth − 40) |
| `Items.NewItem` | script.js:232-256 | a draw below 0.6 gives a baby, one in [0.6, 0.8) gives poop, and anything else gives barf; the speed band depends on the kind; the item starts at top −40 and its first frame moves it by its own speed |
| `Items.MoveBasket` | script.js:147-153 | no keys: the basket does not move; left only: `pos − 2` when that is not negative, else 0; right only: `pos + 2` up to the limit `100 − 80/areaWidth·100`, else the limit; both keys: the left move then the right move, `min(limit, max(0, pos − 2) + 2)`; right held: never past the limit |
| `Items.BasketStaysInside` | script.js:148-153 | a keyboard-moved basket inside [0, 100 − basket width %] stays inside, whatever keys are held |
| `Items.DragPosition` | script.js:83-89 | the touch-drag position is clamped to [0, 100] only: it equals the raw finger position when that is in range, 100 when the raw position is above 100 and 0 when it is below 0; when the area is exactly as wide as the basket, the infinite quotient clamps to 100 for a finger right of the basket's half-width mark and to 0 left of it |
| `Items.DragCanPassRightLimit` | script.js:85-88 | a drag can put the basket at 100%, past the keyboard limit of 80% in a 400-pixel area |
| `Scoring.End` | script.js:438-446 | the game stops; a win adds 5 × timeLeft to the score and a loss adds nothing; counts and time do not change; a non-negative session ends consistent |
| `Scoring.Catch` | script.js:192-207 | a baby adds exactly 1 baby and 10 points, and at 3 or more babies also ends the game with the time bonus; poop or barf sets the score to max(0, score − 5) and changes nothing else; consistency is kept |
| `Scoring.Tick` | script.js:622-631 | no change once the game is over; otherwise one second less, and the game stays active exactly while time is left, with no bonus |
| `Scoring.CatchAll` | script.js:159-169 | handling a run of catches in order raises the baby count by exactly the babies among them, even past a win, and never moves the clock |
| `Scoring.CaughtKinds` | script.js:159-169 | the kinds a frame scores, in list order, at most one per item, each the kind of an item that touched the basket |
| `Scoring.Survivors` | script.js:159-175 | the items a frame keeps, in list order, at most one per item, each the moved form of an item that was neither caught nor dropped |
| `Scoring.FramePartition` | script.js:159-175 | every item in a frame is counted exactly once: caught, dropped or kept |
| `Scoring.SurvivorsAreLive` | script.js:165-174 | the items a frame keeps are exactly the moved forms of the items that were neither caught nor dropped |
| `Scoring.CaughtKindsAppend` | script.js:159-169 | the kinds caught in two runs of items laid end to end are those of the first run followed by those of the second |
| `Scoring.SurvivorsAppend` | script.js:159-175 | the items kept from two runs laid end to end are those kept from the first followed by those kept from the second |
| `Scoring.MissedItemCostsNothing` | script.js:165-174 | an item that does not touch the basket, wherever it is in the list, does not change what the frame scores; a dropped one does not change what it keeps either |
| `Scoring.MissesCostNothing` | script.js:171-174 | a frame that catches nothing leaves the score, the counts and the active flag unchanged |
| `Scoring.ScoreNeverNegative` | script.js:203-206 | from a non-negative score and clock, no run of catches makes the score negative |
| `Scoring.CatchAllConsistent` | script.js:192-207 | a run of catches keeps a consistent session consistent |
| `Scoring.BabiesScoreTen` | script.js:195-198 | below the win count, N caught babies add exactly 10·N points and the game keeps running |
| `Scoring.ThreeBabiesWin` | script.js:195-202 | three babies with 25 seconds left end the game as a win with 30 + 25·5 = 155 points |
| `Scoring.DoubleBonus` | script.js:159-169 | two babies caught in the frame that reaches the win count both score, and the time bonus is added twice |
| `Scoring.LastSecondLoses` | script.js:625-630 | a tick at one second left ends the game as a loss, with no bonus |
| `Game.Game.constructor` | script.js:11-17 | the page starts with score 0, 0 babies, 30 seconds, the game active, the basket at 50% and no items |
| `Game.Game.ResetGame` | script.js:594-607 | from any state: score 0, 0 babies, 30 seconds, active, basket at 50%, no items |
| `Game.Game.EndGame` | script.js:438-446 | the game variables become `Scoring.End` of the old ones; basket and items do not change |
| `Game.Game.HandleItemCatch` | script.js:192-207 | the game variables become `Scoring.Catch` of the old ones, whether or not the game is still active |
| `Game.Game.CountdownTick` | script.js:622-631 | the game variables become `Scoring.Tick` of the old ones; the object invariant is kept |
| `Game.Game.SpawnItem` | script.js:225-261 | when the game is over nothing changes; otherwise exactly one new item (`Items.NewItem`) is added at the end of the list |
| `Game.Game.DragBasket` | script.js:82-90 | the basket jumps to the drag position, even after the game is over |
| `Game.Game.UpdateGame` | script.js:144-178 | when the game is over nothing changes; otherwise the basket moves by `MoveBasket`, the list becomes `Survivors` of the old list, and the score becomes `CatchAll` of the kinds caught in list order |
| `Clock.JsRem` | script.js:267 | JavaScript's `%`: agrees with the mathematical remainder for a non-negative time; for a negative one it is the truncated remainder, 0 when the divisor divides the time and otherwise the mathematical remainder minus the divisor, so it lies in (−b, 0] |
| `Clock.PaddedSeconds` | script.js:268 | a seconds value in [0, 60) with its `0` padding is exactly two digits, tens then units |
| `Clock.TimerText` | script.js:265-269 | for a time of 0 or more, the text is the minutes, a colon and exactly two digits of seconds; a negative time's text starts with a minus sign |
| `Clock.TimerRoundTrip` | script.js:265-269 | reading the clock text back gives minutes·60 + seconds = the time it shows |
| `Clock.TimerExamples` | script.js:266-268 | 30 seconds shows as `0:30` and 5 seconds as `0:05` |
| `Confetti.MakeConfetto` | script.js:389-414 | each piece has a size in [5,15), a left offset inside the window, a colour index in [0,7], a duration in [2,5), a delay in [0,5), a rotation in [0,360) and is circular exactly when its shape draw is above 0.5; it is removed after (duration + delay)·1000 ms, which is in [2000, 10000) |
| `Confetti.CreateConfetti` | script.js:381-416 | exactly 150 pieces, piece i made from draw i, each with a colour index in [0,7] and a removal time of (duration + delay)·1000 |
| `FireworkShow.ParticleCount` | fireworks.js:47 | a burst has 30 + floor(20r) particles, between 30 and 49 |
| `FireworkShow.MakeParticle` | fireworks.js:49-61 | particle i of n points at angle fraction i/n in [0,1); its distance is in [10,30), its vertical jitter in [−5,5), its delay in [0,0.5) and its duration in [1,3) |
| `FireworkShow.PatternEvenlySpaced` | fireworks.js:50 | consecutive particle directions are exactly 1/n of a turn apart |
| `FireworkShow.Launched` | fireworks.js:33-64 | a burst starts at x in [10,90) and y = 60, has a colour index in [0,7] and 30 to 49 particles; particle i points at fraction i/n of a turn, with distance in [10,30), jitter in [−5,5), delay in [0,0.5) and duration in [1,3) |
| `FireworkShow.BuildPattern` | fireworks.js:49-64 | the loop builds exactly the specified particle list, particle i from draw i |
| `FireworkShow.Without` | fireworks.js:74 | the cleanup filter keeps a burst exactly when its identity differs from the one cleaned up |
| `FireworkShow.WithoutAbsent` | fireworks.js:74 | cleaning up a burst that is no longer tracked changes nothing |
| `FireworkShow.WithoutAppend` | fireworks.js:74 | the filter works part by part and keeps the order of the bursts |
| `FireworkShow.RemovesExactlyOne` | fireworks.js:70-75 | with distinct identities, cleanup removes exactly the given burst and keeps the others in order |
| `FireworkShow.WithoutDistinct` | fireworks.js:74 | filtering keeps identities distinct |
| `FireworkShow.Fireworks.constructor` | fireworks.js:2-7 | a new launcher is inactive and tracks nothing |
| `FireworkShow.Fireworks.Launch` | fireworks.js:27-78 | while inactive nothing changes; otherwise exactly one new burst (`Launched`) is appended to the tracked list |
| `FireworkShow.Fireworks.Start` | fireworks.js:9-14 | when already active nothing changes; otherwise the launcher becomes active and the tracked list grows by exactly one burst |
| `FireworkShow.Fireworks.Stop` | fireworks.js:16-25 | whatever the state: inactive, interval cleared, nothing tracked, so stopping twice is the same as stopping once |
| `FireworkShow.Fireworks.Expire` | fireworks.js:70-75 | the tracked list becomes `Without` the given burst; the active flag does not change |

## Left out

- DOM creation and styling are not modelled, because they are presentation. This covers the touch hint and injected styles (script.js:111-138, 644-712), the win and loss overlays and their buttons (script.js:448-589), the catch-effect text (script.js:209-220) and the spin animation's random duration (script.js:259).
- Audio playback is not modelled.
- Input listeners (script.js:32-108) are not modelled; frames take the two direction flags as parameters. `touchstart` sets the flags from the basket's centre. `touchmove` has a 10-pixel threshold and a `touchMoved` flag. These are input wiring. `Game.Game.DragBasket` models only the resulting basket jump.
- Bounding boxes are not read from the page. An item's box is its 40×40 box at its `left` and new `top`, in play-area pixels. The rotation animation, which enlarges a rotated element's bounding box, is not modelled. The basket's box is a parameter in the same coordinates.
- `setInterval`, `setTimeout` and `requestAnimationFrame` are not modelled. Each tick, frame and expiry is a method call. The doubled frame loop after a reset while a loop is running (script.js:637) is scheduling, not state.
- Game.Game.UpdateGame: requires a play area wider than 0 pixels in frames where the right key is held. With a zero width the source's right limit `100 − 80/0·100` is −Infinity, which `real` cannot represent. Frames without the right key handle any width.
- Items.MoveBasket: requires a play area wider than 0 pixels when moving right, for the same reason.
- Items.DragPosition: excludes only a finger exactly at the basket's half-width mark when the area is as wide as the basket. There the source computes 0/0, which is NaN. Game.Game.DragBasket has the same requirement.
- Game.Game.UpdateGame, Game.Game.HandleItemCatch, Game.Game.CountdownTick: require the object invariant `Valid()`. It holds from construction and after every handler.
- Numbers are exact `real`s and unbounded `int`s. Floating-point rounding is not modelled. `Math.floor(timeLeft * 5)` is `timeLeft * 5`, because `timeLeft` is always a whole number.
- Firework particle offsets use `Math.cos` and `Math.sin` (fireworks.js:52-53), which are floating-point trigonometry. A particle keeps its angle as a fraction of a turn, its distance and the random part of its vertical offset.
- Dead code is not modelled. This covers `handleSpecialBalloon`, `popBalloon` and `revealGender` (script.js:273-435), which use undefined variables and have no caller.
- `initFireworks` and its `MutationObserver` (fireworks.js:82-104) are not modelled.
- The DOM detachment in `stop` and in the cleanup timeout is not modelled. Only the tracked list and the flags are state. Element identity is a number handed out by the launcher.
- Confetti elements are not held in the game state. The call of `createConfetti` on the win path (script.js:517) is not connected to `EndGame`. The removal of confetti and effects by `resetGame` (script.js:608) is not modelled either.
- An item leaves the play area when its new `top`, not its bottom edge, exceeds the area height (script.js:172).
- The `⏱️ ` prefix of the clock text (script.js:268) is presentation; `Clock.TimerText` models the `m:ss` part.
