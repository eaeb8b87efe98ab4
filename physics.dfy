/** The entities of one game and the per-tick motion and collision rules,
    as functions on values: ball integration, wall and paddle reflection,
    the loss test, the paddle clamp and the brick scan. */
module Physics {
  import opened Layout

  datatype Ball = Ball(x: real, y: real, radius: real, dx: real, dy: real)

  datatype Paddle = Paddle(x: real, y: real, width: real, height: real, dx: real)

  /** A brick: its top-left corner, the hits it still takes, whether it is
      broken and the character it reveals once broken. */
  datatype Brick = Brick(x: real, y: real, hits: int, broken: bool, glyph: string)

  function Abs(a: real): real
  {
    if a < 0.0 then -a else a
  }

  // ---------------------------------------------------------------- ball

  /** One step of motion: the ball moves by its velocity. */
  function Advance(b: Ball): (r: Ball)
    ensures r.radius == b.radius && r.dx == b.dx && r.dy == b.dy
    ensures r.x - b.x == b.dx && r.y - b.y == b.dy
  {
    b.(x := b.x + b.dx, y := b.y + b.dy)
  }

  /** The ball pokes out of the left or the right edge of the canvas. */
  predicate PastSide(b: Ball, width: real)
  {
    b.x + b.radius > width || b.x - b.radius < 0.0
  }

  /** The ball pokes out of the top edge of the canvas. */
  predicate PastTop(b: Ball)
  {
    b.y - b.radius < 0.0
  }

  /** Wall reflection: dx is negated exactly when the ball is past a side
      wall and dy exactly when it is past the top wall, independently of
      each other (a corner flips both); position and speed are kept. */
  function BounceWalls(b: Ball, width: real): (r: Ball)
    ensures r.x == b.x && r.y == b.y && r.radius == b.radius
    ensures PastSide(b, width) ==> r.dx == -b.dx
    ensures !PastSide(b, width) ==> r.dx == b.dx
    ensures PastTop(b) ==> r.dy == -b.dy
    ensures !PastTop(b) ==> r.dy == b.dy
    ensures Abs(r.dx) == Abs(b.dx) && Abs(r.dy) == Abs(b.dy)
  {
    var b1 := if PastSide(b, width) then b.(dx := b.dx * -1.0) else b;
    if PastTop(b1) then b1.(dy := b1.dy * -1.0) else b1
  }

  /** The ball's bottom edge is below the paddle's top edge and its centre
      is strictly between the paddle's ends. The test does not look at
      where the ball came from, so a ball can bounce from below. */
  predicate OnPaddle(b: Ball, p: Paddle)
  {
    b.y + b.radius > p.y && b.x > p.x && b.x < p.x + p.width
  }

  /** Paddle reflection: only dy changes, and only its sign. */
  function BouncePaddle(b: Ball, p: Paddle): (r: Ball)
    ensures r.(dy := b.dy) == b
    ensures OnPaddle(b, p) ==> r.dy == -b.dy
    ensures !OnPaddle(b, p) ==> r.dy == b.dy
    ensures Abs(r.dy) == Abs(b.dy)
  {
    if OnPaddle(b, p) then b.(dy := b.dy * -1.0) else b
  }

  /** The ball after integration and the wall and paddle reflections of
      one tick, before the loss test and the brick scan. */
  function Bounced(b: Ball, p: Paddle, width: real): (r: Ball)
    ensures r.radius == b.radius
    ensures Abs(r.dx) == Abs(b.dx) && Abs(r.dy) == Abs(b.dy)
  {
    BouncePaddle(BounceWalls(Advance(b), width), p)
  }

  /** The ball's bottom edge is below the bottom of the canvas. */
  predicate Lost(b: Ball, height: real)
  {
    b.y + b.radius > height
  }

  // -------------------------------------------------------------- paddle

  /** The clamp of movePaddle and of the touch handler: first the left
      edge is pulled back to 0, then the right edge to the canvas width.
      When the paddle fits, the result lies in [0, canvasWidth - width],
      and a position already there is kept. */
  function Clamp(x: real, width: real, canvasWidth: real): (r: real)
    ensures width <= canvasWidth ==> 0.0 <= r <= canvasWidth - width
    ensures 0.0 <= x && x + width <= canvasWidth ==> r == x
    ensures x < 0.0 && width <= canvasWidth ==> r == 0.0
    ensures x + width > canvasWidth ==> r == canvasWidth - width
  {
    var x1 := if x < 0.0 then 0.0 else x;
    if x1 + width > canvasWidth then canvasWidth - width else x1
  }

  // -------------------------------------------------------------- bricks

  /** The brick invariant: hits never negative, and no hits left exactly
      when the brick is broken. */
  predicate Consistent(b: Brick)
  {
    b.hits >= 0 && (b.hits == 0 <==> b.broken)
  }

  /** The overlap test of the brick scan: the ball's centre is strictly
      inside the brick's columns and its vertical extent overlaps the
      brick's rows. */
  predicate Overlaps(ball: Ball, cfg: Config, brick: Brick)
  {
    ball.x > brick.x && ball.x < brick.x + cfg.brickWidth &&
    ball.y - ball.radius < brick.y + cfg.brickHeight &&
    ball.y + ball.radius > brick.y
  }

  /** Only unbroken bricks are tested. */
  predicate Strikes(ball: Ball, cfg: Config, brick: Brick)
  {
    !brick.broken && Overlaps(ball, cfg, brick)
  }

  /** A struck brick that has no hits left afterwards. */
  predicate Shatters(ball: Ball, cfg: Config, brick: Brick)
  {
    Strikes(ball, cfg, brick) && brick.hits - 1 <= 0
  }

  /** A hit takes exactly one hit off and breaks the brick once none is
      left; an unbroken consistent brick stays consistent. */
  function Struck(b: Brick): (r: Brick)
    ensures r.x == b.x && r.y == b.y && r.glyph == b.glyph
    ensures r.hits == b.hits - 1
    ensures r.broken <==> b.broken || b.hits <= 1
    ensures Consistent(b) && !b.broken ==> Consistent(r)
  {
    var hit := b.(hits := b.hits - 1);
    if hit.hits <= 0 then hit.(broken := true) else hit
  }

  /** What the scan does to one brick: a broken or non-overlapped brick is
      left alone; a struck one loses one hit and breaks once none is left.
      Position and character never change, and consistency is kept. */
  function Collide(ball: Ball, cfg: Config, b: Brick): (r: Brick)
    ensures r.x == b.x && r.y == b.y && r.glyph == b.glyph
    ensures !Strikes(ball, cfg, b) ==> r == b
    ensures Strikes(ball, cfg, b) ==> r.hits == b.hits - 1
    ensures r.broken <==> b.broken || Shatters(ball, cfg, b)
    ensures Consistent(b) ==> Consistent(r)
  {
    if Strikes(ball, cfg, b) then Struck(b) else b
  }

  /** The brick list after the scan. Positions and characters never
      change; broken bricks and bricks the ball does not overlap are left
      as they are; consistency is kept; a brick ends broken exactly when
      it was broken or this scan shattered it. */
  function CollideAll(ball: Ball, cfg: Config, bs: seq<Brick>): (r: seq<Brick>)
    ensures |r| == |bs|
    ensures forall k :: 0 <= k < |bs| ==>
      r[k].x == bs[k].x && r[k].y == bs[k].y && r[k].glyph == bs[k].glyph
    ensures forall k :: 0 <= k < |bs| && !Strikes(ball, cfg, bs[k]) ==> r[k] == bs[k]
    ensures forall k :: 0 <= k < |bs| && Consistent(bs[k]) ==> Consistent(r[k])
    ensures forall k :: 0 <= k < |bs| ==>
      (r[k].broken <==> bs[k].broken || Shatters(ball, cfg, bs[k]))
  {
    seq(|bs|, k requires 0 <= k < |bs| => Collide(ball, cfg, bs[k]))
  }

  /** The number of bricks the scan hits, counted brick by brick in scan
      order: the reference count against which the in-place scan's dy
      parity is proved (HitCountIsStrikeCount says what it counts). */
  function HitCount(ball: Ball, cfg: Config, bs: seq<Brick>): (n: nat)
    ensures n <= |bs|
    decreases |bs|
  {
    if bs == [] then 0
    else HitCount(ball, cfg, bs[..|bs| - 1]) + (if Strikes(ball, cfg, bs[|bs| - 1]) then 1 else 0)
  }

  /** The indices of the bricks the scan strikes. */
  function StruckIndices(ball: Ball, cfg: Config, bs: seq<Brick>): set<int>
  {
    set k | 0 <= k < |bs| && Strikes(ball, cfg, bs[k])
  }

  /** HitCount is the number of unbroken bricks the ball overlaps. */
  lemma {:induction false} HitCountIsStrikeCount(ball: Ball, cfg: Config, bs: seq<Brick>)
    ensures HitCount(ball, cfg, bs) == |StruckIndices(ball, cfg, bs)|
    decreases |bs|
  {
    if bs != [] {
      var front := bs[..|bs| - 1];
      HitCountIsStrikeCount(ball, cfg, front);
      var last := |bs| - 1;
      assert forall k :: 0 <= k < |front| ==> front[k] == bs[k];
      if Strikes(ball, cfg, bs[last]) {
        assert StruckIndices(ball, cfg, bs) == StruckIndices(ball, cfg, front) + {last};
        assert last !in StruckIndices(ball, cfg, front);
      } else {
        assert StruckIndices(ball, cfg, bs) == StruckIndices(ball, cfg, front);
      }
    }
  }

  /** The scan breaks at least one brick. */
  predicate ShattersAny(ball: Ball, cfg: Config, bs: seq<Brick>)
  {
    exists k :: 0 <= k < |bs| && Shatters(ball, cfg, bs[k])
  }

  /** The win condition: every brick is broken. */
  predicate AllBroken(bs: seq<Brick>)
  {
    forall k :: 0 <= k < |bs| ==> bs[k].broken
  }

  /** The first i bricks of bs0 have been scanned, the rest are as they
      were: the state of the list part-way through the `forEach`. */
  predicate ScannedUpTo(ball: Ball, cfg: Config, bs0: seq<Brick>, i: nat, bs: seq<Brick>)
  {
    i <= |bs0| == |bs| &&
    (forall k :: 0 <= k < i ==> bs[k] == Collide(ball, cfg, bs0[k])) &&
    (forall k :: i <= k < |bs| ==> bs[k] == bs0[k])
  }

  /** One more brick of the `forEach`: the list, the hit count, the
      "a brick broke" flag and the win test all advance by one brick. */
  lemma {:induction false} ScanStep(ball: Ball, cfg: Config, bs0: seq<Brick>, i: nat, bs: seq<Brick>, checksWin: bool, running0: bool, running: bool)
    requires ScannedUpTo(ball, cfg, bs0, i, bs) && i < |bs0|
    requires running == (running0 && !(checksWin && ShattersAny(ball, cfg, bs0[..i]) && AllBroken(bs)))
    ensures ScannedUpTo(ball, cfg, bs0, i + 1, bs[i := Collide(ball, cfg, bs0[i])])
    ensures HitCount(ball, cfg, bs0[..i + 1]) ==
      HitCount(ball, cfg, bs0[..i]) + (if Strikes(ball, cfg, bs0[i]) then 1 else 0)
    ensures var after := bs[i := Collide(ball, cfg, bs0[i])];
      (running && !(checksWin && Shatters(ball, cfg, bs0[i]) && AllBroken(after))) ==
      (running0 && !(checksWin && ShattersAny(ball, cfg, bs0[..i + 1]) && AllBroken(after)))
  {
    var after := bs[i := Collide(ball, cfg, bs0[i])];
    assert bs0[..i + 1][..i] == bs0[..i];
    assert bs[i] == bs0[i];
    if Shatters(ball, cfg, bs0[i]) {
      assert bs0[..i + 1][i] == bs0[i];
      assert !AllBroken(bs);
    } else {
      assert forall k :: 0 <= k < |bs| ==> after[k].broken == bs[k].broken;
      assert AllBroken(after) == AllBroken(bs);
      if ShattersAny(ball, cfg, bs0[..i + 1]) {
        var k :| 0 <= k < i + 1 && Shatters(ball, cfg, bs0[..i + 1][k]);
        assert k < i && bs0[..i][k] == bs0[k];
      }
    }
    if ShattersAny(ball, cfg, bs0[..i]) {
      var k :| 0 <= k < i && Shatters(ball, cfg, bs0[..i][k]);
      assert bs0[..i + 1][k] == bs0[k];
    }
  }

  /** The scan hits nothing exactly when no brick is unbroken and
      overlapped, in which case dy keeps its sign. */
  lemma {:induction false} HitCountZero(ball: Ball, cfg: Config, bs: seq<Brick>)
    ensures HitCount(ball, cfg, bs) == 0 <==> forall k :: 0 <= k < |bs| ==> !Strikes(ball, cfg, bs[k])
    decreases |bs|
  {
    if bs != [] {
      var front := bs[..|bs| - 1];
      HitCountZero(ball, cfg, front);
      assert forall k :: 0 <= k < |front| ==> front[k] == bs[k];
    }
  }

  /** A scan that leaves every brick broken while one was unbroken before
      it must have broken a brick itself, so checkWin ran after it. */
  lemma LastBrickShattered(ball: Ball, cfg: Config, bs: seq<Brick>)
    requires !AllBroken(bs) && AllBroken(CollideAll(ball, cfg, bs))
    ensures ShattersAny(ball, cfg, bs)
  {
    var k :| 0 <= k < |bs| && !bs[k].broken;
    assert CollideAll(ball, cfg, bs)[k].broken;
  }

  /** The scan never unbreaks a brick, so a grid that was won stays won. */
  lemma BrokenStaysBroken(ball: Ball, cfg: Config, bs: seq<Brick>)
    requires AllBroken(bs)
    ensures CollideAll(ball, cfg, bs) == bs
  {
  }
}
