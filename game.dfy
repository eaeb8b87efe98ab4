/** The game as the source runs it: one object holding the module-level
    state (`config`, `ball`, `paddle`, `bricks`, `charPool`, `isRunning`)
    whose methods update it field by field, each proved to perform the
    matching transition of module Rules. The canvas size and the variant
    are fixed for the life of the object. */
module Breakout {
  import opened Layout
  import opened Physics
  import opened Rules

  class Game {
    const variant: Variant
    const width: nat
    const height: nat
    var config: Config
    var ball: Ball
    var paddle: Paddle
    var bricks: seq<Brick>
    var charPool: seq<char>
    var isRunning: bool

    /** The state as a value. */
    ghost function State(): World
      reads this
    {
      World(variant, width, height, config, ball, paddle, bricks, charPool, isRunning)
    }

    ghost predicate Valid()
      reads this
    {
      WorldOk(State())
    }

    /** Page load: size the canvas, then `initGame`. */
    constructor (variant: Variant, width: nat, height: nat, d: Draws)
      requires DrawsOk(variant.Policy(), d)
      ensures Valid()
      ensures State() == FreshWorld(variant, width, height, [], d)
    {
      this.variant := variant;
      this.width := width;
      this.height := height;
      config := Config(0.0, 0.0, 0.0, 0.0);
      ball := Ball(0.0, 0.0, 0.0, 0.0, 0.0);
      paddle := Paddle(0.0, 0.0, 0.0, 0.0, 0.0);
      bricks := [];
      charPool := [];
      isRunning := false;
      new;
      InitGame(d);
    }

    /** `initGame`: stop, derive the dimensions, place the ball and the
        paddle, and build the grid row by row. */
    method InitGame(d: Draws)
      requires DrawsOk(variant.Policy(), d)
      modifies this
      ensures Valid()
      ensures State() == InitRule(old(State()), d)
    {
      isRunning := false;
      config := DeriveConfig(variant, width, height);
      var W, H := width as real, height as real;
      ball := Ball(W / 2.0, H - 50.0, W / 50.0, config.ballSpeed, -config.ballSpeed);
      paddle := Paddle((W - config.paddleWidth) / 2.0, H - 20.0, config.paddleWidth, PaddleHeight, 0.0);
      bricks := [];
      if variant.Policy() == ShuffledPool {
        charPool := d.pool;
      }
      BuildBricks(d);
    }

    /** The nested loops of `initGame`: push the bricks row by row, each
        with a hit count rolled from its draw and its character taken from
        the table or popped off the pool. */
    method BuildBricks(d: Draws)
      requires DrawsOk(variant.Policy(), d) && bricks == []
      requires variant.Policy() == ShuffledPool ==> charPool == d.pool
      modifies this`bricks, this`charPool
      ensures bricks == GridBricks(variant.Policy(), config, d)
      ensures variant.Policy() == ShuffledPool ==> charPool == d.pool[..1]
      ensures variant.Policy() == FixedTable ==> charPool == old(charPool)
    {
      var policy, cfg := variant.Policy(), config;
      var r := 0;
      while r < Rows
        invariant 0 <= r <= Rows && |bricks| == GridIndex(r, 0)
        invariant bricks == GridPrefix(policy, cfg, d, |bricks|)
        invariant policy == ShuffledPool ==> charPool == d.pool[..|d.pool| - |bricks|]
        invariant policy == FixedTable ==> charPool == old(charPool)
      {
        var c := 0;
        while c < Cols
          invariant 0 <= c <= Cols && |bricks| == GridIndex(r, c)
          invariant bricks == GridPrefix(policy, cfg, d, |bricks|)
          invariant policy == ShuffledPool ==> charPool == d.pool[..|d.pool| - |bricks|]
          invariant policy == FixedTable ==> charPool == old(charPool)
        {
          GridIndexBound(r, c);
          var hits := RollHits(d.rolls[GridIndex(r, c)]);
          var glyph: string;
          if policy == ShuffledPool {
            glyph := [charPool[|charPool| - 1]];
            charPool := charPool[..|charPool| - 1];
          } else {
            glyph := CharMatrix[r][c];
          }
          GridPrefixPush(policy, cfg, d, r, c, glyph);
          bricks := bricks + [Brick(c as real * cfg.brickWidth, r as real * cfg.brickHeight, hits, false, glyph)];
          c := c + 1;
        }
        GridRowDone(r);
        r := r + 1;
      }
      assert bricks == GridBricks(policy, cfg, d);
    }

    /** `checkWin`: stop the game once every brick is broken. */
    method CheckWin()
      modifies this`isRunning
      ensures isRunning == (old(isRunning) && !AllBroken(bricks))
    {
      if AllBroken(bricks) {
        isRunning := false;
      }
    }

    /** The `forEach` callback of the brick scan: if brick i is unbroken
        and the ball overlaps it, negate dy, take one hit off and, once
        none is left, break it and (src/game.js) run checkWin. */
    method ScanBrick(i: nat)
      requires i < |bricks|
      modifies this
      ensures ball == old(ball).(dy := if Strikes(old(ball), config, old(bricks[i])) then -old(ball.dy) else old(ball.dy))
      ensures bricks == old(bricks)[i := Collide(old(ball), config, old(bricks[i]))]
      ensures isRunning == (old(isRunning) &&
        !(variant.ChecksWin() && Shatters(old(ball), config, old(bricks[i])) && AllBroken(bricks)))
      ensures config == old(config) && paddle == old(paddle) && charPool == old(charPool)
    {
      var brick := bricks[i];
      if !brick.broken {
        if ball.x > brick.x && ball.x < brick.x + config.brickWidth &&
           ball.y - ball.radius < brick.y + config.brickHeight &&
           ball.y + ball.radius > brick.y
        {
          ball := ball.(dy := ball.dy * -1.0);
          brick := brick.(hits := brick.hits - 1);
          bricks := bricks[i := brick];
          if brick.hits <= 0 {
            brick := brick.(broken := true);
            bricks := bricks[i := brick];
            if variant.ChecksWin() {
              CheckWin();
            }
          }
        }
      }
    }

    /** The brick scan of `moveBall`: every brick in order. dy ends negated
        exactly when an odd number of bricks were hit, and checkWin has
        stopped the game exactly when a brick broke and all are broken. */
    method CollideBricks()
      modifies this
      ensures State() == CollideRule(old(State()))
    {
      ghost var ball0, bricks0, running0 := ball, bricks, isRunning;
      var i := 0;
      while i < |bricks|
        invariant ScannedUpTo(ball0, config, bricks0, i, bricks)
        invariant ball == ball0.(dy := if HitCount(ball0, config, bricks0[..i]) % 2 == 0 then ball0.dy else -ball0.dy)
        invariant isRunning == (running0 &&
          !(variant.ChecksWin() && ShattersAny(ball0, config, bricks0[..i]) && AllBroken(bricks)))
        invariant config == old(config) && paddle == old(paddle) && charPool == old(charPool)
      {
        ScanStep(ball0, config, bricks0, i, bricks, variant.ChecksWin(), running0, isRunning);
        ScanBrick(i);
        i := i + 1;
      }
      assert bricks0[..i] == bricks0;
      assert bricks == CollideAll(ball0, config, bricks0);
    }

    /** The first half of `moveBall`: integrate, then reflect off the side
        and top walls and off the paddle. */
    method StepBall()
      modifies this`ball
      ensures ball == Bounced(old(ball), paddle, width as real)
    {
      ball := ball.(x := ball.x + ball.dx, y := ball.y + ball.dy);
      if ball.x + ball.radius > width as real || ball.x - ball.radius < 0.0 {
        ball := ball.(dx := ball.dx * -1.0);
      }
      if ball.y - ball.radius < 0.0 {
        ball := ball.(dy := ball.dy * -1.0);
      }
      if ball.y + ball.radius > paddle.y && ball.x > paddle.x && ball.x < paddle.x + paddle.width {
        ball := ball.(dy := ball.dy * -1.0);
      }
    }

    /** `moveBall`: integrate and reflect, start over past the bottom
        edge, then scan the bricks. */
    method MoveBall(d: Draws)
      requires Valid() && DrawsOk(variant.Policy(), d)
      modifies this
      ensures Valid()
      ensures State() == MoveBallRule(old(State()), d)
    {
      ghost var w0 := State();
      StepBall();
      if ball.y + ball.radius > height as real {
        InitGame(d);
      }
      assert State() == if LostOnTick(w0) then InitRule(w0, d) else w0.(ball := TickBall(w0));
      CollideBricks();
      MoveBallKeepsOk(w0, d);
    }

    /** `movePaddle`: move by dx, then clamp into the canvas. */
    method MovePaddle()
      requires Valid()
      modifies this
      ensures Valid()
      ensures State() == MovePaddleRule(old(State()))
      ensures 0.0 <= paddle.x <= width as real - paddle.width
    {
      paddle := paddle.(x := paddle.x + paddle.dx);
      if paddle.x < 0.0 {
        paddle := paddle.(x := 0.0);
      }
      if paddle.x + paddle.width > width as real {
        paddle := paddle.(x := width as real - paddle.width);
      }
    }

    /** `update`: one tick while running; drawing and rescheduling are the
        host's. */
    method Update(d: Draws)
      requires Valid() && DrawsOk(variant.Policy(), d)
      modifies this
      ensures Valid()
      ensures State() == UpdateRule(old(State()), d)
      ensures !old(isRunning) ==> State() == old(State())
    {
      if !isRunning {
        return;
      }
      MoveBall(d);
      MovePaddle();
    }

    /** `startGame`: if not yet running, run and tick once. */
    method StartGame(d: Draws)
      requires Valid() && DrawsOk(variant.Policy(), d)
      modifies this
      ensures Valid()
      ensures State() == StartRule(old(State()), d)
      ensures old(isRunning) ==> State() == old(State())
    {
      if !isRunning {
        isRunning := true;
        Update(d);
      }
    }

    /** The start button: `initGame`, then `startGame`. */
    method OnStartClick(d: Draws, d2: Draws)
      requires Valid() && DrawsOk(variant.Policy(), d) && DrawsOk(variant.Policy(), d2)
      modifies this
      ensures Valid()
      ensures State() == StartRule(InitRule(old(State()), d), d2)
    {
      InitGame(d);
      StartGame(d2);
    }

    /** keydown: the right arrow sets dx to +speed, the left arrow to -speed. */
    method OnKeyDown(key: string)
      requires Valid()
      modifies this
      ensures Valid()
      ensures State() == KeyDownRule(old(State()), key)
    {
      if key == "ArrowRight" {
        paddle := paddle.(dx := variant.PaddleSpeed());
      }
      if key == "ArrowLeft" {
        paddle := paddle.(dx := -variant.PaddleSpeed());
      }
    }

    /** keyup: releasing either arrow stops the paddle. */
    method OnKeyUp(key: string)
      requires Valid()
      modifies this
      ensures Valid()
      ensures State() == KeyUpRule(old(State()), key)
    {
      if key == "ArrowRight" || key == "ArrowLeft" {
        paddle := paddle.(dx := 0.0);
      }
    }

    /** touchmove: centre the paddle under the touch (its x relative to the
        canvas), then clamp. */
    method OnTouchMove(touchX: real)
      requires Valid()
      modifies this
      ensures Valid()
      ensures State() == TouchRule(old(State()), touchX)
      ensures 0.0 <= paddle.x <= width as real - paddle.width
    {
      paddle := paddle.(x := touchX - paddle.width / 2.0);
      if paddle.x < 0.0 {
        paddle := paddle.(x := 0.0);
      }
      if paddle.x + paddle.width > width as real {
        paddle := paddle.(x := width as real - paddle.width);
      }
    }
  }
}
