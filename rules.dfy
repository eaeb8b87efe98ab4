/** The game as a whole, as a value: what `initGame`, `moveBall`,
    `movePaddle`, `checkWin`, `update`, `startGame` and the input handlers
    do to it, and the invariants every one of them keeps. The class in
    game.dfy performs the same steps in place and is proved against these
    functions. */
module Rules {
  import opened Layout
  import opened Physics

  /** The state of one game: the variant and canvas size it runs on, the
      derived dimensions, the ball, the paddle, the bricks in row-major
      order, the letters left in the shuffled pool and the running flag. */
  datatype World = World(
    variant: Variant,
    width: nat,
    height: nat,
    config: Config,
    ball: Ball,
    paddle: Paddle,
    bricks: seq<Brick>,
    charPool: seq<char>,
    isRunning: bool)

  /** The randomness one `initGame` consumes: one `Math.random()` value per
      brick, in the order the bricks are built, and the shuffled letter
      pool (used by game.js only). */
  datatype Draws = Draws(rolls: seq<real>, pool: seq<char>)

  /** What `Math.random` and `shuffle` promise: every roll in [0, 1), and
      the pool a permutation of the 26 capital letters. */
  predicate DrawsOk(policy: CharPolicy, d: Draws)
  {
    |d.rolls| == BrickCount &&
    (forall i :: 0 <= i < |d.rolls| ==> 0.0 <= d.rolls[i] < 1.0) &&
    (policy == ShuffledPool ==> IsShuffledAlphabet(d.pool))
  }

  // ------------------------------------------------------- initialisation

  /** `Math.floor(Math.random() * 3) + 1`: a brick takes 1 to 3 hits. */
  function RollHits(roll: real): (h: int)
    requires 0.0 <= roll < 1.0
    ensures 1 <= h <= 3
  {
    (roll * 3.0).Floor + 1
  }

  /** The character of brick k: the table entry at its row and column, or
      the letter `pop` takes off the pool when k bricks were built before. */
  function BrickChar(policy: CharPolicy, pool: seq<char>, k: nat): string
    requires k < BrickCount
    requires policy == ShuffledPool ==> |pool| == 26
  {
    match policy
    case FixedTable => CharMatrix[k / Cols][k % Cols]
    case ShuffledPool => [pool[|pool| - 1 - k]]
  }

  function GridBrick(policy: CharPolicy, cfg: Config, d: Draws, k: nat): Brick
    requires k < BrickCount && DrawsOk(policy, d)
  {
    Brick((k % Cols) as real * cfg.brickWidth, (k / Cols) as real * cfg.brickHeight,
          RollHits(d.rolls[k]), false, BrickChar(policy, d.pool, k))
  }

  /** The brick built at (row, col) by the nested loops of `initGame`. */
  lemma GridBrickAt(policy: CharPolicy, cfg: Config, d: Draws, row: nat, col: nat)
    requires row < Rows && col < Cols && DrawsOk(policy, d)
    ensures GridIndex(row, col) < BrickCount
    ensures GridBrick(policy, cfg, d, GridIndex(row, col)) ==
      Brick(col as real * cfg.brickWidth, row as real * cfg.brickHeight,
            RollHits(d.rolls[GridIndex(row, col)]), false,
            if policy == ShuffledPool then [d.pool[|d.pool| - 1 - GridIndex(row, col)]] else CharMatrix[row][col])
  {
    GridIndexInverse(row, col);
  }

  /** The first n bricks `initGame` builds. */
  function GridPrefix(policy: CharPolicy, cfg: Config, d: Draws, n: nat): (r: seq<Brick>)
    requires n <= BrickCount && DrawsOk(policy, d)
    ensures |r| == n
  {
    seq(n, k requires 0 <= k < n => GridBrick(policy, cfg, d, k))
  }

  /** Pushing the brick at (row, col) extends the prefix by one. */
  lemma GridPrefixPush(policy: CharPolicy, cfg: Config, d: Draws, row: nat, col: nat, glyph: string)
    requires row < Rows && col < Cols && DrawsOk(policy, d)
    requires glyph == if policy == ShuffledPool then [d.pool[|d.pool| - 1 - GridIndex(row, col)]] else CharMatrix[row][col]
    ensures GridIndex(row, col) < BrickCount
    ensures GridPrefix(policy, cfg, d, GridIndex(row, col)) +
      [Brick(col as real * cfg.brickWidth, row as real * cfg.brickHeight, RollHits(d.rolls[GridIndex(row, col)]), false, glyph)]
      == GridPrefix(policy, cfg, d, GridIndex(row, col) + 1)
  {
    GridBrickAt(policy, cfg, d, row, col);
  }

  /** The freshly built grid: 25 unbroken bricks taking 1 to 3 hits, the
      one at (row, col) at (col·brickWidth, row·brickHeight); with the
      fixed table it shows CharMatrix[row][col], with the shuffled pool
      every brick shows one capital letter and no two show the same. */
  function GridBricks(policy: CharPolicy, cfg: Config, d: Draws): (r: seq<Brick>)
    requires DrawsOk(policy, d)
    ensures |r| == BrickCount
    ensures forall k :: 0 <= k < |r| ==> !r[k].broken && 1 <= r[k].hits <= 3 && Consistent(r[k])
    ensures forall row, col :: 0 <= row < Rows && 0 <= col < Cols ==>
      r[GridIndex(row, col)].x == col as real * cfg.brickWidth &&
      r[GridIndex(row, col)].y == row as real * cfg.brickHeight &&
      (policy == FixedTable ==> r[GridIndex(row, col)].glyph == CharMatrix[row][col])
    ensures policy == ShuffledPool ==>
      (forall k :: 0 <= k < |r| ==> |r[k].glyph| == 1 && IsCapital(r[k].glyph[0])) &&
      (forall i, j :: 0 <= i < j < |r| ==> r[i].glyph != r[j].glyph)
    ensures BricksOk(r, cfg) && GlyphsOk(r, policy)
  {
    var r := seq(BrickCount, k requires 0 <= k < BrickCount => GridBrick(policy, cfg, d, k));
    GridPlacement(policy, cfg, d, r);
    r
  }

  lemma GridPlacement(policy: CharPolicy, cfg: Config, d: Draws, r: seq<Brick>)
    requires DrawsOk(policy, d)
    requires |r| == BrickCount && forall k :: 0 <= k < BrickCount ==> r[k] == GridBrick(policy, cfg, d, k)
    ensures forall row, col :: 0 <= row < Rows && 0 <= col < Cols ==>
      r[GridIndex(row, col)].x == col as real * cfg.brickWidth &&
      r[GridIndex(row, col)].y == row as real * cfg.brickHeight &&
      (policy == FixedTable ==> r[GridIndex(row, col)].glyph == CharMatrix[row][col])
    ensures policy == ShuffledPool ==>
      forall i, j :: 0 <= i < j < |r| ==> r[i].glyph != r[j].glyph
    ensures BricksOk(r, cfg) && GlyphsOk(r, policy)
  {
    forall row, col | 0 <= row < Rows && 0 <= col < Cols
      ensures r[GridIndex(row, col)].x == col as real * cfg.brickWidth
      ensures r[GridIndex(row, col)].y == row as real * cfg.brickHeight
      ensures policy == FixedTable ==> r[GridIndex(row, col)].glyph == CharMatrix[row][col]
    {
      GridIndexInverse(row, col);
    }
    GridBricksOk(policy, cfg, d, r);
    if policy == ShuffledPool {
      GridDistinct(cfg, d, r);
    }
  }

  lemma GridBricksOk(policy: CharPolicy, cfg: Config, d: Draws, r: seq<Brick>)
    requires DrawsOk(policy, d)
    requires |r| == BrickCount && forall k :: 0 <= k < BrickCount ==> r[k] == GridBrick(policy, cfg, d, k)
    ensures BricksOk(r, cfg)
    ensures policy == FixedTable ==> GlyphsOk(r, policy)
  {
  }

  lemma GridDistinct(cfg: Config, d: Draws, r: seq<Brick>)
    requires DrawsOk(ShuffledPool, d)
    requires |r| == BrickCount && forall k :: 0 <= k < BrickCount ==> r[k] == GridBrick(ShuffledPool, cfg, d, k)
    ensures GlyphsOk(r, ShuffledPool)
  {
    forall i, j | 0 <= i < j < |r| ensures r[i].glyph != r[j].glyph {
      assert r[i].glyph[0] == d.pool[|d.pool| - 1 - i];
      assert r[j].glyph[0] == d.pool[|d.pool| - 1 - j];
    }
  }

  /** Bricks lie on the grid and keep the invariant hits >= 0 and
      hits == 0 <==> broken. */
  predicate BricksOk(bricks: seq<Brick>, cfg: Config)
  {
    |bricks| == BrickCount &&
    forall k :: 0 <= k < |bricks| ==>
      Consistent(bricks[k]) &&
      bricks[k].x == (k % Cols) as real * cfg.brickWidth &&
      bricks[k].y == (k / Cols) as real * cfg.brickHeight
  }

  /** Characters as dealt: the table entry, or pairwise distinct letters. */
  predicate GlyphsOk(bricks: seq<Brick>, policy: CharPolicy)
  {
    |bricks| == BrickCount &&
    match policy
    case FixedTable =>
      forall k :: 0 <= k < |bricks| ==> bricks[k].glyph == CharMatrix[k / Cols][k % Cols]
    case ShuffledPool =>
      (forall k :: 0 <= k < |bricks| ==> |bricks[k].glyph| == 1 && IsCapital(bricks[k].glyph[0])) &&
      (forall i, j :: 0 <= i < j < |bricks| ==> bricks[i].glyph != bricks[j].glyph)
  }

  /** The ball keeps its radius and the configured speed on both axes. */
  predicate BallOk(b: Ball, width: nat, cfg: Config)
  {
    b.radius == width as real / 50.0 &&
    Abs(b.dx) == cfg.ballSpeed && Abs(b.dy) == cfg.ballSpeed
  }

  /** The paddle keeps its size and row, its velocity is one of -speed, 0
      and +speed, and it lies inside the canvas. */
  predicate PaddleOk(p: Paddle, v: Variant, width: nat, height: nat, cfg: Config)
  {
    p.y == height as real - 20.0 && p.width == cfg.paddleWidth && p.height == PaddleHeight &&
    (p.dx == 0.0 || p.dx == v.PaddleSpeed() || p.dx == -v.PaddleSpeed()) &&
    0.0 <= p.x <= width as real - p.width
  }

  /** The invariant of every reachable game state. */
  predicate WorldOk(w: World)
  {
    w.config == DeriveConfig(w.variant, w.width, w.height) &&
    BallOk(w.ball, w.width, w.config) &&
    PaddleOk(w.paddle, w.variant, w.width, w.height, w.config) &&
    BricksOk(w.bricks, w.config) &&
    GlyphsOk(w.bricks, w.variant.Policy())
  }

  /** `initGame`: stopped, the ball at (W/2, H - 50) moving right and up
      at the configured speed, the paddle centred and still, a fresh grid;
      with the shuffled pool one letter is left over. */
  function FreshWorld(v: Variant, width: nat, height: nat, pool0: seq<char>, d: Draws): (w: World)
    requires DrawsOk(v.Policy(), d)
    ensures WorldOk(w) && !w.isRunning
    ensures w.variant == v && w.width == width && w.height == height
    ensures w.ball.x == width as real / 2.0 && w.ball.y == height as real - 50.0
    ensures w.ball.dx == w.config.ballSpeed && w.ball.dy == -w.config.ballSpeed
    ensures w.config.ballSpeed == width as real / v.BallSpeedDivisor()
    ensures w.paddle.dx == 0.0 && w.paddle.x + w.paddle.width / 2.0 == width as real / 2.0
    ensures w.bricks == GridBricks(v.Policy(), w.config, d)
    ensures v.Policy() == ShuffledPool ==> w.charPool == d.pool[..1]
    ensures v.Policy() == FixedTable ==> w.charPool == pool0
  {
    var cfg := DeriveConfig(v, width, height);
    var W, H := width as real, height as real;
    var w := World(
      v, width, height, cfg,
      Ball(W / 2.0, H - 50.0, W / 50.0, cfg.ballSpeed, -cfg.ballSpeed),
      Paddle((W - cfg.paddleWidth) / 2.0, H - 20.0, cfg.paddleWidth, PaddleHeight, 0.0),
      GridBricks(v.Policy(), cfg, d),
      if v.Policy() == ShuffledPool then d.pool[..1] else pool0,
      false);
    w
  }

  /** `initGame` on a running or stopped game: the canvas and variant are
      kept and everything else is started afresh. */
  function InitRule(w: World, d: Draws): (r: World)
    requires DrawsOk(w.variant.Policy(), d)
    ensures WorldOk(r) && !r.isRunning
    ensures r.variant == w.variant && r.width == w.width && r.height == w.height
    ensures r.ball.x == w.width as real / 2.0 && r.ball.y == w.height as real - 50.0
    ensures r.bricks == GridBricks(w.variant.Policy(), r.config, d)
  {
    FreshWorld(w.variant, w.width, w.height, w.charPool, d)
  }

  // ------------------------------------------------------------ one tick

  /** The ball of `moveBall` after integration and reflection. */
  function TickBall(w: World): Ball
  {
    Bounced(w.ball, w.paddle, w.width as real)
  }

  /** The tick's ball has passed the bottom edge. */
  predicate LostOnTick(w: World)
  {
    Lost(TickBall(w), w.height as real)
  }

  /** The brick scan of `moveBall`: each hit negates dy, so dy ends
      negated exactly when an odd number of bricks were hit; checkWin
      (src/game.js only) stops the game if a brick broke and all bricks
      are then broken. */
  function CollideRule(w: World): (r: World)
    ensures r.(ball := w.ball, bricks := w.bricks, isRunning := w.isRunning) == w
    ensures r.ball.(dy := w.ball.dy) == w.ball && Abs(r.ball.dy) == Abs(w.ball.dy)
    ensures r.ball.dy == if |StruckIndices(w.ball, w.config, w.bricks)| % 2 == 0 then w.ball.dy else -w.ball.dy
    ensures r.bricks == CollideAll(w.ball, w.config, w.bricks)
    ensures (forall k :: 0 <= k < |w.bricks| ==> !Strikes(w.ball, w.config, w.bricks[k])) ==>
      r.ball == w.ball && r.bricks == w.bricks
    ensures r.isRunning ==> w.isRunning
    ensures !w.variant.ChecksWin() ==> r.isRunning == w.isRunning
    ensures w.variant.ChecksWin() && w.isRunning && !AllBroken(w.bricks) ==>
      (r.isRunning <==> !AllBroken(r.bricks))
  {
    var bricks := CollideAll(w.ball, w.config, w.bricks);
    var hits := HitCount(w.ball, w.config, w.bricks);
    HitCountZero(w.ball, w.config, w.bricks);
    HitCountIsStrikeCount(w.ball, w.config, w.bricks);
    w.(ball := w.ball.(dy := if hits % 2 == 0 then w.ball.dy else -w.ball.dy),
       bricks := bricks,
       isRunning := w.isRunning &&
         !(w.variant.ChecksWin() && ShattersAny(w.ball, w.config, w.bricks) && AllBroken(bricks)))
  }

  /** `moveBall`: integrate and reflect; past the bottom edge, start over
      with `initGame`; then scan the bricks. After a loss the scan runs on
      the re-initialised ball and bricks, and the game stays stopped. */
  function MoveBallRule(w: World, d: Draws): (r: World)
    requires DrawsOk(w.variant.Policy(), d)
    ensures r.variant == w.variant && r.width == w.width && r.height == w.height
    ensures r.isRunning ==> w.isRunning && !LostOnTick(w)
    ensures !LostOnTick(w) ==>
      r.config == w.config && r.paddle == w.paddle && r.charPool == w.charPool &&
      r.ball.(dy := TickBall(w).dy) == TickBall(w) && Abs(r.ball.dy) == Abs(w.ball.dy) &&
      r.bricks == CollideAll(TickBall(w), w.config, w.bricks)
    ensures LostOnTick(w) ==>
      r.ball.x == w.width as real / 2.0 && r.ball.y == w.height as real - 50.0 &&
      r.paddle == InitRule(w, d).paddle &&
      r.bricks == CollideAll(InitRule(w, d).ball, InitRule(w, d).config, InitRule(w, d).bricks)
  {
    var b := TickBall(w);
    CollideRule(if Lost(b, w.height as real) then InitRule(w, d) else w.(ball := b))
  }

  /** `movePaddle`: move by dx, then clamp into the canvas. */
  function MovePaddleRule(w: World): (r: World)
    ensures r.(paddle := w.paddle) == w && r.paddle.(x := w.paddle.x) == w.paddle
    ensures w.paddle.width <= w.width as real ==> 0.0 <= r.paddle.x <= w.width as real - w.paddle.width
    ensures 0.0 <= w.paddle.x + w.paddle.dx && w.paddle.x + w.paddle.dx + w.paddle.width <= w.width as real ==>
      r.paddle.x == w.paddle.x + w.paddle.dx
  {
    w.(paddle := w.paddle.(x := Clamp(w.paddle.x + w.paddle.dx, w.paddle.width, w.width as real)))
  }

  /** `update`: nothing while stopped, otherwise one tick. */
  function UpdateRule(w: World, d: Draws): (r: World)
    requires DrawsOk(w.variant.Policy(), d)
    ensures !w.isRunning ==> r == w
    ensures r.variant == w.variant && r.width == w.width && r.height == w.height
    ensures r.isRunning ==> w.isRunning && !LostOnTick(w)
    ensures w.isRunning && !LostOnTick(w) ==> r.bricks == CollideAll(TickBall(w), w.config, w.bricks)
  {
    if !w.isRunning then w else MovePaddleRule(MoveBallRule(w, d))
  }

  /** `startGame`: nothing while running, otherwise run and tick once. */
  function StartRule(w: World, d: Draws): (r: World)
    requires DrawsOk(w.variant.Policy(), d)
    ensures r.variant == w.variant && r.width == w.width && r.height == w.height
    ensures !w.isRunning && LostOnTick(w) ==> !r.isRunning
    ensures !w.isRunning && !LostOnTick(w) && !w.variant.ChecksWin() ==> r.isRunning
  {
    if w.isRunning then w else UpdateRule(w.(isRunning := true), d)
  }

  // -------------------------------------------------------------- input

  /** keydown: only paddle.dx changes, and only for the two arrows. */
  function KeyDownRule(w: World, key: string): (r: World)
    ensures r.(paddle := w.paddle) == w && r.paddle.(dx := w.paddle.dx) == w.paddle
    ensures key == "ArrowRight" ==> r.paddle.dx == w.variant.PaddleSpeed()
    ensures key == "ArrowLeft" ==> r.paddle.dx == -w.variant.PaddleSpeed()
    ensures key != "ArrowRight" && key != "ArrowLeft" ==> r == w
  {
    var p := if key == "ArrowRight" then w.paddle.(dx := w.variant.PaddleSpeed()) else w.paddle;
    w.(paddle := if key == "ArrowLeft" then p.(dx := -w.variant.PaddleSpeed()) else p)
  }

  /** keyup: releasing an arrow stops the paddle; other keys do nothing. */
  function KeyUpRule(w: World, key: string): (r: World)
    ensures r.(paddle := w.paddle) == w && r.paddle.(dx := w.paddle.dx) == w.paddle
    ensures key == "ArrowRight" || key == "ArrowLeft" ==> r.paddle.dx == 0.0
    ensures key != "ArrowRight" && key != "ArrowLeft" ==> r == w
  {
    if key == "ArrowRight" || key == "ArrowLeft" then w.(paddle := w.paddle.(dx := 0.0)) else w
  }

  /** `touchmove`: centre the paddle under the touch, then clamp. */
  function TouchRule(w: World, touchX: real): (r: World)
    ensures r.(paddle := w.paddle) == w && r.paddle.(x := w.paddle.x) == w.paddle
    ensures w.paddle.width <= w.width as real ==> 0.0 <= r.paddle.x <= w.width as real - w.paddle.width
    ensures 0.0 <= touchX - w.paddle.width / 2.0 && touchX + w.paddle.width / 2.0 <= w.width as real ==>
      r.paddle.x + w.paddle.width / 2.0 == touchX
  {
    var p := w.paddle;
    w.(paddle := p.(x := Clamp(touchX - p.width / 2.0, p.width, w.width as real)))
  }

  // ------------------------------------------------------------ lemmas

  /** The brick scan keeps the invariant, and no brick moves or changes
      its character. */
  lemma CollideKeepsOk(w: World)
    requires WorldOk(w)
    ensures WorldOk(CollideRule(w))
    ensures forall k :: 0 <= k < |w.bricks| ==>
      CollideRule(w).bricks[k].x == w.bricks[k].x &&
      CollideRule(w).bricks[k].y == w.bricks[k].y &&
      CollideRule(w).bricks[k].glyph == w.bricks[k].glyph
  {
    CollideKeepsBricks(w.ball, w.config, w.bricks, w.variant.Policy());
  }

  lemma CollideKeepsBricks(ball: Ball, cfg: Config, bs: seq<Brick>, policy: CharPolicy)
    requires BricksOk(bs, cfg) && GlyphsOk(bs, policy)
    ensures BricksOk(CollideAll(ball, cfg, bs), cfg) && GlyphsOk(CollideAll(ball, cfg, bs), policy)
  {
    var r := CollideAll(ball, cfg, bs);
    if policy == ShuffledPool {
      forall i, j | 0 <= i < j < |r| ensures r[i].glyph != r[j].glyph {
        assert r[i].glyph == bs[i].glyph && r[j].glyph == bs[j].glyph;
      }
    }
  }

  lemma MoveBallKeepsOk(w: World, d: Draws)
    requires WorldOk(w) && DrawsOk(w.variant.Policy(), d)
    ensures WorldOk(MoveBallRule(w, d))
  {
    var b := TickBall(w);
    if Lost(b, w.height as real) {
      CollideKeepsOk(InitRule(w, d));
    } else {
      CollideKeepsOk(w.(ball := b));
    }
  }

  lemma MovePaddleKeepsOk(w: World)
    requires WorldOk(w)
    ensures WorldOk(MovePaddleRule(w))
  {
  }

  /** Every tick keeps the invariant: speeds, paddle inside the canvas,
      paddle velocity in {-speed, 0, +speed}, brick consistency, layout. */
  lemma UpdateKeepsOk(w: World, d: Draws)
    requires WorldOk(w) && DrawsOk(w.variant.Policy(), d)
    ensures WorldOk(UpdateRule(w, d))
  {
    if w.isRunning {
      MoveBallKeepsOk(w, d);
      MovePaddleKeepsOk(MoveBallRule(w, d));
    }
  }

  /** With the canvas size unchanged a tick keeps |dx| and |dy|: every
      change is a negation, and a loss re-creates the ball at the same
      speed. */
  lemma UpdateKeepsSpeed(w: World, d: Draws)
    requires WorldOk(w) && DrawsOk(w.variant.Policy(), d)
    ensures Abs(UpdateRule(w, d).ball.dx) == Abs(w.ball.dx)
    ensures Abs(UpdateRule(w, d).ball.dy) == Abs(w.ball.dy)
  {
    UpdateKeepsOk(w, d);
  }

  /** After a tick the paddle lies in [0, W - paddle.width] and every brick
      has hits >= 0 and hits == 0 exactly when broken. */
  lemma UpdateKeepsPaddleAndBricks(w: World, d: Draws)
    requires WorldOk(w) && DrawsOk(w.variant.Policy(), d)
    ensures var r := UpdateRule(w, d);
      0.0 <= r.paddle.x <= r.width as real - r.paddle.width &&
      |r.bricks| == BrickCount &&
      forall k :: 0 <= k < |r.bricks| ==> r.bricks[k].hits >= 0 && (r.bricks[k].hits == 0 <==> r.bricks[k].broken)
  {
    UpdateKeepsOk(w, d);
  }

  /** src/game.js: a tick that breaks the last unbroken brick stops the
      game. */
  lemma WinStopsGame(w: World, d: Draws)
    requires WorldOk(w) && DrawsOk(w.variant.Policy(), d)
    requires w.variant == Src && w.isRunning && !AllBroken(w.bricks)
    requires AllBroken(UpdateRule(w, d).bricks)
    ensures !UpdateRule(w, d).isRunning
  {
    if !LostOnTick(w) {
      var w1 := w.(ball := TickBall(w));
      assert UpdateRule(w, d).bricks == CollideAll(w1.ball, w1.config, w1.bricks);
      LastBrickShattered(w1.ball, w1.config, w1.bricks);
    }
  }

  /** checkWin leaves the game running while any brick is unbroken. */
  lemma NoWinWhileBricksLeft(w: World, d: Draws)
    requires DrawsOk(w.variant.Policy(), d)
    requires w.isRunning && !LostOnTick(w) && !AllBroken(UpdateRule(w, d).bricks)
    ensures UpdateRule(w, d).isRunning
  {
  }

  /** game.js has no win detection: short of a loss the game keeps running,
      even once every brick is broken. */
  lemma RootNeverStopsOnWin(w: World, d: Draws)
    requires DrawsOk(w.variant.Policy(), d)
    requires w.variant == Root && w.isRunning && !LostOnTick(w)
    ensures UpdateRule(w, d).isRunning
  {
  }

  /** A tick whose ball passes the bottom edge re-initialises the game:
      it is stopped, the ball is back at its start and the paddle at its
      starting place, and the next `update` changes nothing. */
  lemma LossStopsGame(w: World, d: Draws, d2: Draws)
    requires DrawsOk(w.variant.Policy(), d) && DrawsOk(w.variant.Policy(), d2)
    requires w.isRunning && LostOnTick(w)
    ensures var r := UpdateRule(w, d);
      !r.isRunning && WorldOk(r) &&
      r.ball.x == w.width as real / 2.0 && r.ball.y == w.height as real - 50.0 &&
      r.paddle == InitRule(w, d).paddle &&
      |r.bricks| == BrickCount &&
      UpdateRule(r, d2) == r
  {
    var f := InitRule(w, d);
    CollideKeepsOk(f);
    MovePaddleKeepsOk(CollideRule(f));
  }

  /** `startGame` does nothing while the game runs; on a stopped game it
      sets the flag and runs exactly one `update`. */
  lemma StartIsIdempotent(w: World, d: Draws)
    requires DrawsOk(w.variant.Policy(), d)
    ensures w.isRunning ==> StartRule(w, d) == w
    ensures !w.isRunning ==> StartRule(w, d) == UpdateRule(w.(isRunning := true), d)
  {
  }

  /** The arrow keys only ever set paddle.dx to -speed, 0 or +speed, and the
      touch handler leaves the paddle inside the canvas. */
  lemma InputKeepsOk(w: World, key: string, touchX: real)
    requires WorldOk(w)
    ensures WorldOk(KeyDownRule(w, key)) && WorldOk(KeyUpRule(w, key)) && WorldOk(TouchRule(w, touchX))
  {
  }
}
