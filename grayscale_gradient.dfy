/**
 * The grayscale gradient producer of src/GrayScaleGradient.cpp: a square
 * surface of `dims` rows whose row i gets a gray background that grows by
 * 255 / dims per row, saturating at white. Its update does nothing, so the
 * picture is static.
 *
 * `dims` stands for the `DIMENSIONS` macro, whose definition is not part of
 * this model; it is taken to be a positive integer, so `255 / DIMENSIONS` is
 * integer division.
 */
module Gradient {
  import opened Colors
  import opened Symbols
  import opened Terminal
  import opened Loop

  /** The per-row brightness step: 255 / DIMENSIONS, in integer arithmetic. */
  function Increment(dims: nat): (inc: nat)
    requires dims > 0
    ensures inc <= 255
    ensures inc * dims <= 255 < (inc + 1) * dims
  {
    255 / dims
  }

  /** The gray with all three channels equal to `v`. */
  function Gray(v: nat): Rgb {
    Rgb(v as real, v as real, v as real)
  }

  /**
   * Reference brightness of row i: i steps of `inc` from black, capped at
   * white.
   */
  function Level(i: nat, inc: nat): nat {
    if i * inc < 255 then i * inc else 255
  }

  /** The value the accumulator holds at row i + 1 follows from row i by one clamped adjustment. */
  lemma LevelStep(i: nat, inc: nat)
    ensures Clamp(Level(i, inc) as real + inc as real) == Level(i + 1, inc) as real
  {
    assert (i + 1) * inc == i * inc + inc;
  }

  /** Row brightness never exceeds white and never decreases down the grid. */
  lemma {:induction false} LevelMonotone(i: nat, k: nat, inc: nat)
    requires i <= k
    ensures Level(i, inc) <= Level(k, inc) <= 255
  {
    if i < k {
      LevelMonotone(i, k - 1, inc);
      assert k * inc == (k - 1) * inc + inc;
    }
  }

  /** The cell the fill writes in row i: the default cell with a gray background. */
  function GradientCell(blank: OneSymbol, i: nat, dims: nat): OneSymbol
    requires dims > 0
  {
    blank.(background := Gray(Level(i, Increment(dims))))
  }

  /** The picture the constructor leaves on the surface. */
  predicate IsGradient(grid: Grid, dims: nat, blank: OneSymbol)
    requires dims > 0
  {
    |grid| == dims &&
    (forall i :: 0 <= i < dims ==> |grid[i]| == dims) &&
    (forall i, j :: 0 <= i < dims && 0 <= j < dims ==> grid[i][j] == GradientCell(blank, i, dims))
  }

  /**
   * What the gradient promises: each row is one colour, every background
   * is an in-range gray, row 0 is black, brightness does not decrease from
   * row to row, and only background colours differ from the default cell.
   */
  lemma GradientProperties(grid: Grid, dims: nat, blank: OneSymbol, i: nat, j: nat, k: nat, l: nat)
    requires dims > 0 && IsGradient(grid, dims, blank)
    requires i < dims && j < dims && k < dims && l < dims
    ensures grid[i][j] == grid[i][l]
    ensures grid[i][j].background.r == grid[i][j].background.g == grid[i][j].background.b
    ensures grid[i][j].background.Valid()
    ensures grid[0][j].background == Rgb(0.0, 0.0, 0.0)
    ensures i <= k ==> grid[i][j].background.r <= grid[k][l].background.r
    ensures grid[i][j].symbol == blank.symbol && grid[i][j].foreground == blank.foreground
  {
    LevelMonotone(i, i, Increment(dims));
    if i <= k {
      LevelMonotone(i, k, Increment(dims));
    }
  }

  /** `GrayScaleGradient`: a render loop whose surface holds the gradient. */
  class GrayScaleGradient {
    const loop: TerminalLoop

    /** Builds a dims x dims surface and fills row i with the background of brightness Level(i). */
    constructor (FrameRate: real, ScaleRatio: bool, dims: nat, blank: OneSymbol, dev: Device)
      requires FrameRate != 0.0 && dims > 0
      modifies dev
      ensures fresh(loop) && fresh(loop.terminal)
      ensures loop.terminal.dev == dev && loop.terminal.blank == blank
      ensures IsGradient(loop.terminal.activeGrid, dims, blank)
      ensures loop.terminal.scaledGrid == []
      ensures loop.scaleRatio == ScaleRatio && loop.frameDuration * FrameRate == 1000.0
      ensures dev.output == old(dev.output) + CursorHide
      ensures dev.lflag == WithoutEcho(old(dev.lflag))
    {
      loop := new TerminalLoop(dims, dims, FrameRate, ScaleRatio, blank, dev);
      new;
      var grid := loop.terminal.activeGrid;
      var increment := Increment(dims) as real;
      var tmp := new Color(0.0, 0.0, 0.0);
      for i := 0 to dims
        modifies tmp
        invariant |grid| == dims
        invariant forall r :: 0 <= r < dims ==> |grid[r]| == dims
        invariant tmp.Value() == Gray(Level(i, Increment(dims)))
        invariant forall r, j :: 0 <= r < i && 0 <= j < dims ==> grid[r][j] == GradientCell(blank, r, dims)
        invariant forall r, j :: i <= r < dims && 0 <= j < dims ==> grid[r][j] == blank
      {
        var row := grid[i];
        for ii := 0 to dims
          invariant |row| == dims
          invariant forall j :: 0 <= j < ii ==> row[j] == GradientCell(blank, i, dims)
          invariant forall j :: ii <= j < dims ==> row[j] == blank
        {
          row := row[ii := row[ii].(background := tmp.Value().Truncated())];
        }
        grid := grid[i := row];
        var step := new Color(increment, increment, increment);
        tmp.AdjustColorBy(step);
        LevelStep(i, Increment(dims));
      }
      loop.terminal.activeGrid := grid;
    }

    /** update(): does nothing, so every frame shows the same surface. */
    method Update()
      ensures loop.terminal.activeGrid == old(loop.terminal.activeGrid)
    {
    }
  }
}
