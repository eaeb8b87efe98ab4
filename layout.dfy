/** Geometry and configuration of the Breakout game: the constants that
    tell the two copies of the game apart, the brick grid, the fixed
    character table and the dimensions derived from the canvas size. */
module Layout {

  /** The brick grid is Rows × Cols in both copies. */
  const Rows: nat := 5
  const Cols: nat := 5
  const BrickCount: nat := Rows * Cols
  const PaddleHeight: real := 10.0

  /** How a brick gets the character it reveals once broken: looked up in
      a fixed table by row and column, or popped from a shuffled pool of
      the 26 capital letters. */
  datatype CharPolicy = FixedTable | ShuffledPool

  /** The two copies of the game: `Src` is src/game.js, `Root` is game.js.
      They differ only in the constants below and in whether breaking a
      brick checks for a win. */
  datatype Variant = Src | Root {

    /** Divisor of the canvas height that gives the brick height. */
    function BrickHeightDivisor(): (d: real)
      ensures d >= 13.0
    {
      if Src? then 20.0 else 13.0
    }

    /** Divisor of the canvas width that gives the ball speed. */
    function BallSpeedDivisor(): (d: real)
      ensures d >= 60.0
    {
      if Src? then 60.0 else 150.0
    }

    /** Paddle speed set by the arrow keys. */
    function PaddleSpeed(): (s: real)
      ensures s > 0.0
    {
      if Src? then 8.0 else 6.0
    }

    function Policy(): CharPolicy
    {
      if Src? then FixedTable else ShuffledPool
    }

    /** Only src/game.js calls checkWin when a brick breaks. */
    predicate ChecksWin()
    {
      Src?
    }
  }

  /** The dimensions `initGame` writes into `config`. */
  datatype Config = Config(brickWidth: real, brickHeight: real, paddleWidth: real, ballSpeed: real)

  /** Cols bricks fill the canvas width, the paddle fits in it, and every
      derived dimension is non-negative, and positive on a canvas of
      positive size. */
  function DeriveConfig(v: Variant, width: nat, height: nat): (c: Config)
    ensures c.brickWidth * Cols as real == width as real
    ensures 0.0 <= c.paddleWidth <= width as real
    ensures 0.0 <= c.brickHeight && 0.0 <= c.ballSpeed
    ensures width > 0 && height > 0 ==>
      c.brickWidth > 0.0 && c.brickHeight > 0.0 && c.paddleWidth > 0.0 && c.ballSpeed > 0.0
  {
    Config(width as real / Cols as real,
           height as real / v.BrickHeightDivisor(),
           width as real / 5.0,
           width as real / v.BallSpeedDivisor())
  }

  /** The characters src/game.js reveals, indexed by row and column. */
  const CharMatrix: seq<seq<string>> := [
    ["CAC", "SCU", "MJK", "HUD", "AAN"],
    ["CUW", "THU", "WCJ", "HIE", "ENJ"],
    ["NHI", "EEM", "JVU", "JSO", "OS1"],
    ["XAA", "YDU", "WNG", "JVI", "DEO"],
    ["GIO", "WIST", "HIEE", "UJDD", "OOIJ"]
  ]

  predicate IsCapital(ch: char)
  {
    'A' <= ch <= 'Z'
  }

  /** What shuffling "ABCDEFGHIJKLMNOPQRSTUVWXYZ" yields: 26 pairwise
      distinct capital letters, hence a permutation of the alphabet. */
  predicate IsShuffledAlphabet(pool: seq<char>)
  {
    |pool| == 26 &&
    (forall i :: 0 <= i < |pool| ==> IsCapital(pool[i])) &&
    (forall i, j :: 0 <= i < j < |pool| ==> pool[i] != pool[j])
  }

  /** Index of the brick at (row, col) in the row-major brick list. */
  function GridIndex(row: nat, col: nat): nat
  {
    row * Cols + col
  }

  lemma GridIndexBound(row: nat, col: nat)
    requires row < Rows && col < Cols
    ensures GridIndex(row, col) < BrickCount
  {
  }

  lemma GridIndexInverse(row: nat, col: nat)
    requires row < Rows && col < Cols
    ensures GridIndex(row, col) < BrickCount
    ensures GridIndex(row, col) / Cols == row && GridIndex(row, col) % Cols == col
  {
  }

  /** The index after a full row is the start of the next row. */
  lemma GridRowDone(row: nat)
    ensures GridIndex(row, Cols) == GridIndex(row + 1, 0)
  {
  }
}
