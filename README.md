# Breakout, modelled in Dafny

A browser Breakout game: a ball bounces between the walls of a canvas, a
paddle the player steers with the arrow keys or a finger, and a 5 × 5 grid
of bricks that take one to three hits each and reveal a character once
broken. Two near-identical copies of the game exist, `src/game.js` and
`game.js`. This project models the per-frame simulation of both and proves
the invariants the game relies on.

The two copies become one model parameterised by `Layout.Variant`
(`Src` for `src/game.js`, `Root` for `game.js`). The variant fixes the
brick-height divisor (20 or 13), the ball-speed divisor (60 or 150), the
paddle speed (8 or 6) and how a brick gets its character: a fixed table,
or a letter popped off a shuffled pool of the 26 capitals. It also says
whether breaking a brick runs the win check, which only `src/game.js` does.

The project has four modules:

- `Layout` (layout.dfy): the grid constants, the variant, the character
  table and the dimensions derived from the canvas size.
- `Physics` (physics.dfy): the ball, paddle and brick records, and the rules
  of one tick as functions on values. These are integration, wall and paddle
  reflection, the loss test, the paddle clamp and the brick scan.
- `Rules` (rules.dfy): the whole game state as a value (`World`). It gives
  one function per source operation (`InitRule`, `MoveBallRule`,
  `MovePaddleRule`, `UpdateRule`, `StartRule`, the input rules) and the
  lemmas about them. `WorldOk` is the invariant of every reachable state:
  the speed magnitudes, the paddle inside the canvas with its velocity in
  {−speed, 0, +speed}, every brick on its grid cell with `hits ≥ 0` and
  `hits = 0 ⇔ broken`, and the characters as dealt.
- `Breakout` (game.dfy): the class `Game`. Its fields are the source's
  module-level state. Its methods update them field by field, with the
  source's nested loops and the `forEach` scan. The constructor and the
  methods for the source's operations (`InitGame`, `MoveBall`,
  `MovePaddle`, `Update`, `StartGame`, `OnStartClick`, `OnKeyDown`,
  `OnKeyUp`, `OnTouchMove`) are proved to perform the matching `Rules`
  transition on `State()` and to keep `Valid()`. The helpers they call
  are specified field by field instead. `BuildBricks` builds exactly the
  fresh grid. `StepBall` produces the bounced ball. `ScanBrick` performs
  one `forEach` callback. `CheckWin` clears the running flag when every
  brick is broken. `CollideBricks` performs the brick scan of
  `Rules.CollideRule` on `State()`.

`Math.random()` and `shuffle` enter as a `Rules.Draws` parameter. It holds
25 rolls in [0, 1), one per brick in build order, and the shuffled pool,
which must be a permutation of A–Z. The canvas size is fixed when a `Game`
is created. Coordinates are `real`.

## Model

| member | source | states |
|---|---|---|
| Layout.DeriveConfig | src/game.js:40-43 | Five bricks span the canvas width exactly; the paddle is at most the canvas width; every dimension is non-negative, and positive when the canvas has positive width and height |
| Rules.RollHits | src/game.js:75 | A brick's rolled hit count is 1, 2 or 3 for every roll in [0, 1) |
| Rules.GridBricks | src/game.js:73-85 | Exactly 25 bricks, all unbroken with 1–3 hits and consistent; brick r·5+c sits at (c·brickWidth, r·brickHeight); with the fixed table it shows charMatrix[r][c]; with the shuffled pool each shows one capital letter and no two show the same one |
| Rules.GridPrefixPush | game.js:67-79 | One pass of the inner loop body (roll, pop or look up the character, push) extends the built prefix by exactly the brick of cell (row, col) |
| Rules.GridDistinct | game.js:65-70 | Letters popped off a permutation of A–Z are pairwise distinct across the 25 bricks |
| Rules.FreshWorld | game.js:36-79 | `initGame` leaves the game stopped and the state valid; the ball is at (W/2, H−50) with dx = speed, dy = −speed and speed = W / divisor; the paddle is centred and still; the bricks are the fresh grid; one pool letter is left over |
| Physics.Advance | src/game.js:233-234 | The ball moves by exactly its velocity; radius and velocity are kept |
| Physics.BounceWalls | src/game.js:236-239 | dx is negated exactly when the ball is past a side wall, and dy exactly when it is past the top; the two tests are independent; position and the magnitudes of dx and dy are kept |
| Physics.BouncePaddle | src/game.js:241-248 | Only dy changes: it is negated exactly when the ball is on the paddle, so its magnitude is kept |
| Physics.Bounced | src/game.js:232-248 | Integration plus both reflections keep the radius and the magnitudes of dx and dy |
| Physics.Clamp | src/game.js:276-282 | When the paddle fits, the clamped x lies in [0, W − width]; an x already inside is kept; an x past the left edge becomes 0; one past the right edge becomes W − width |
| Physics.Struck | src/game.js:265-270 | A hit takes exactly one off `hits` and breaks the brick once none is left; position and character are kept; a consistent unbroken brick stays consistent |
| Physics.CollideAll | src/game.js:256-273 | The scan keeps the number of bricks and every brick's x, y and character; it leaves broken and non-overlapped bricks unchanged and keeps consistency; a brick ends broken exactly when it was broken or this scan shattered it |
| Physics.HitCountZero | src/game.js:257-265 | The scan hits no brick exactly when no unbroken brick overlaps the ball |
| Physics.ScanStep | src/game.js:257-273 | One more `forEach` step: the scanned prefix, the hit count and the win-check outcome each advance by exactly one brick |
| Physics.LastBrickShattered | src/game.js:267-269 | A scan that leaves every brick broken, when one was unbroken before, breaks a brick itself, so the win check runs after it |
| Physics.BrokenStaysBroken | src/game.js:258 | The scan never touches broken bricks, so a grid that is all broken stays as it is |
| Rules.CollideKeepsOk | src/game.js:256-273 | The brick scan keeps the state invariant and never moves a brick or changes its character |
| Rules.CollideKeepsBricks | game.js:137-152 | The scan keeps every brick on its grid cell, consistent, with the characters as dealt (distinct letters stay distinct) |
| Rules.MoveBallKeepsOk | src/game.js:232-274 | `moveBall` keeps the state invariant, through the loss branch too |
| Rules.MovePaddleKeepsOk | src/game.js:276-282 | `movePaddle` keeps the state invariant: the paddle stays inside the canvas |
| Rules.UpdateKeepsOk | src/game.js:301-307 | Every `update` keeps the state invariant |
| Rules.UpdateKeepsSpeed | src/game.js:233-273 | With the canvas size unchanged, a tick keeps the magnitudes of dx and dy, through reflections, brick hits and a loss |
| Rules.UpdateKeepsPaddleAndBricks | game.js:113-161 | After a tick 0 ≤ paddle.x ≤ W − paddle.width, there are 25 bricks, and every brick has hits ≥ 0 and hits = 0 exactly when it is broken |
| Rules.WinStopsGame | src/game.js:291-299 | In `src/game.js` a tick that breaks the last unbroken brick leaves the game stopped |
| Rules.NoWinWhileBricksLeft | src/game.js:292-294 | Short of a loss, a tick after which some brick is unbroken leaves the game running |
| Rules.RootNeverStopsOnWin | game.js:145-149 | `game.js` has no win check: short of a loss the game keeps running, even with every brick broken |
| Rules.LossStopsGame | src/game.js:250-254 | A tick whose ball passes the bottom edge re-initialises: the game is stopped, valid, the ball is at its start, the paddle at its starting place, there are 25 bricks, and the next `update` changes nothing |
| Rules.InitRule | src/game.js:36-88 | `initGame` keeps the variant and canvas size and starts everything else afresh: the game is stopped and valid, the ball is at (W/2, H−50), and the bricks are the fresh grid |
| Rules.CollideRule | src/game.js:256-273 | The brick scan, with `checkWin` folded in. Only the ball's dy, the bricks and the running flag change. dy keeps its magnitude and is negated exactly when an odd number of bricks are hit. The bricks become `CollideAll` of the old ones. If nothing is struck, ball and bricks are unchanged. The scan never restarts a stopped game. In `game.js` it never stops one. In `src/game.js`, on a running game with an unbroken brick, the game stays running exactly when some brick is still unbroken afterwards |
| Rules.MoveBallRule | src/game.js:232-274 | Steps in the source's order: integrate, reflect, test for a loss, then scan. Without a loss, the paddle, config and pool are kept. The ball is the bounced ball, with only dy's sign changed by the scan. The bricks are the scan of the old bricks against the bounced ball. After a loss, the scan runs on the re-initialised ball and bricks, and the game is stopped |
| Rules.MovePaddleRule | src/game.js:276-282 | Only paddle.x changes. When the paddle fits, it ends in [0, W − width]. A move that stays inside the canvas is taken unclamped |
| Rules.UpdateRule | src/game.js:301-307 | `update` changes nothing while stopped. A tick never starts a stopped game, and a losing tick stops it. A tick that does not lose scans the old bricks against the bounced ball |
| Rules.StartRule | src/game.js:309-314 | Starting a stopped game whose first tick loses leaves it stopped. In `game.js`, a start whose first tick does not lose leaves the game running |
| Rules.KeyDownRule | src/game.js:322-325 | Only paddle.dx changes: ArrowRight sets it to +speed and ArrowLeft to −speed. Other keys change nothing |
| Rules.KeyUpRule | src/game.js:327-329 | Only paddle.dx changes: releasing either arrow sets it to 0. Other keys change nothing |
| Rules.TouchRule | src/game.js:332-341 | Only paddle.x changes. When the paddle fits, it ends inside the canvas. A touch far enough from both edges centres the paddle exactly under it |
| Physics.Collide | src/game.js:258-272 | One brick of the scan. A broken or non-overlapped brick is left alone. A struck brick loses exactly one hit and ends broken exactly when it was broken or has no hits left. Position and character are kept, and so is consistency |
| Physics.Lost | src/game.js:251 | The loss test: the ball's bottom edge is below the canvas height |
| Physics.HitCount | src/game.js:257-265 | The number of bricks the scan strikes, counted in scan order; at most the number of bricks. It is the reference count for the parity of dy |
| Physics.HitCountIsStrikeCount | src/game.js:258-264 | HitCount is the number of bricks that are unbroken and overlap the ball |
| Rules.StartIsIdempotent | src/game.js:309-314 | `startGame` changes nothing while the game runs. On a stopped game it sets the running flag and runs exactly one `update` |
| Rules.InputKeepsOk | src/game.js:322-341 | The key handlers keep paddle.dx in {−speed, 0, +speed}, and the touch handler keeps the paddle inside the canvas |
| Breakout.Game.constructor | src/game.js:343-344 | The game on page load is the fresh state of `initGame`, and it is valid |
| Breakout.Game.InitGame | src/game.js:36-88 | Performs `initGame` in place: the new state is the fresh state, and it is valid |
| Breakout.Game.BuildBricks | game.js:64-79 | The nested loops push exactly the fresh grid; with the shuffled pool, 25 pops leave one letter |
| Breakout.Game.CheckWin | src/game.js:291-299 | Stops the game exactly when every brick is broken, and otherwise leaves the running flag as it was |
| Breakout.Game.ScanBrick | src/game.js:258-271 | One `forEach` callback: dy is negated exactly when the brick is struck; the brick becomes its collided value; the game stops only if this brick broke and all bricks are broken (`src/game.js`) |
| Breakout.Game.CollideBricks | src/game.js:256-273 | The in-place scan produces the brick scan of the value model: dy ends negated exactly when an odd number of bricks were hit |
| Breakout.Game.StepBall | game.js:113-128 | Field-by-field integration and reflection equal the value-level `Bounced` ball |
| Breakout.Game.MoveBall | game.js:113-153 | Performs `moveBall` in place and keeps the state valid |
| Breakout.Game.MovePaddle | src/game.js:276-282 | Performs `movePaddle`; afterwards 0 ≤ paddle.x ≤ W − paddle.width |
| Breakout.Game.Update | src/game.js:301-307 | Performs one tick while running and changes nothing while stopped; keeps the state valid |
| Breakout.Game.StartGame | src/game.js:309-314 | Runs and ticks once if stopped; changes nothing if already running |
| Breakout.Game.OnStartClick | src/game.js:316-319 | The start button performs `initGame`, then `startGame`; since `initGame` clears the running flag, a click always re-initialises and starts a tick, even during play |
| Breakout.Game.OnKeyDown | src/game.js:322-325 | ArrowRight sets paddle.dx to +speed, ArrowLeft to −speed; the state stays valid |
| Breakout.Game.OnKeyUp | game.js:196-198 | Releasing either arrow sets paddle.dx to 0; the state stays valid |
| Breakout.Game.OnTouchMove | src/game.js:332-341 | Centres the paddle under the touch, then clamps; afterwards 0 ≤ paddle.x ≤ W − paddle.width |

## Left out

- Drawing (`draw`, `drawBricks`, `drawBall`, `drawPaddle`): rendering through the canvas library, with no effect on the game state.
- The win modal (`createWinModal`, `showWinModal`, `closeWinModal`) and its CSS and HTML: page UI.
- `alert("Game Over!")`, the `setTimeout` in `checkWin` (its body is commented out), `requestAnimationFrame` and the `addEventListener` wiring: host I/O and timers. A tick is a call of `Update`, and each handler is a method.
- The resize listener and `resizeCanvas`: the canvas size is fixed for the life of a `Game`. A resize amounts to a new `Game`, since the listener calls `initGame`.
- `Math.random` and `shuffle`: they are the `Draws` parameter. The model assumes what they promise: rolls in [0, 1), and the pool a permutation of A–Z. `Array.sort` with a random comparator need not give a uniform permutation; the model does not depend on uniformity.
- The touch event's coordinate translation (`clientX` minus the canvas's left edge): the handler takes the translated x.
- IEEE-754 arithmetic: coordinates are exact reals. The clamp, the reflections and the speed properties are about comparisons and negation.
- Aliasing of brick objects: bricks are values in a sequence field, and the scan replaces brick i in place in that sequence. Nothing else in the source holds a reference to a brick.
- The unused `shuffle` and `charPool` of `src/game.js`: that copy never assigns `charPool`. The model keeps whatever the field held, which is the empty sequence from construction.
- The `|| ""` fallback in `src/game.js` when looking up a character: every table entry is a non-empty string, so the fallback never applies.
- `pop` on an empty pool: unreachable, because 25 pops draw from 26 letters.
- Rules.StartIsIdempotent: it says nothing about frame scheduling. `startGame` is a no-op only while the flag is set, and the start button never finds it set: it calls `initGame` first, which clears `isRunning`. Every tick queues its next `update` with `requestAnimationFrame`, and queued callbacks are not merged. So a click while the game runs, or within a frame of a stop, adds one more self-rescheduling loop. The model does not capture that.
- Breakout.Game.OnStartClick: it models one click as `initGame` then `startGame` on the state. It does not model the frame callback the running game has already queued. So it does not show that a click during play leaves two loops running, each moving the ball once per frame.
