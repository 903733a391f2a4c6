/**
 * Grid-wide effects of src/TerminalEffects.cpp. Each walks every row and
 * every cell of the grid and overwrites or adjusts one part of each cell;
 * the grid the source updates through its reference parameter is returned
 * here as the method's result.
 */
module Effects {
  import opened Colors
  import opened Symbols

  /** Same number of rows, and each row keeps its length. */
  predicate SameShape(a: Grid, b: Grid) {
    |a| == |b| && forall i :: 0 <= i < |a| ==> |a[i]| == |b[i]|
  }

  /** Every colour of every cell lies in [0, 255]. */
  predicate ColorsValid(g: Grid) {
    forall i, j :: 0 <= i < |g| && 0 <= j < |g[i]| ==> g[i][j].Valid()
  }

  /** `after` is `before` with every cell inverted (OneSymbol::invertColor). */
  predicate IsInverted(before: Grid, after: Grid) {
    SameShape(before, after) &&
    forall i, j :: 0 <= i < |before| && 0 <= j < |before[i]| ==> after[i][j] == before[i][j].Inverted()
  }

  /** changeBackgroundColorEffect: every background becomes the integer view of `newColor`. */
  method ChangeBackgroundColorEffect(grid: Grid, newColor: Rgb) returns (result: Grid)
    ensures SameShape(grid, result)
    ensures forall i, j :: 0 <= i < |grid| && 0 <= j < |grid[i]| ==>
              result[i][j] == grid[i][j].(background := newColor.Truncated())
  {
    var c := newColor.Truncated();
    result := grid;
    for i := 0 to |grid|
      invariant SameShape(grid, result)
      invariant forall k, j :: 0 <= k < i && 0 <= j < |grid[k]| ==> result[k][j] == grid[k][j].(background := c)
      invariant forall k :: i <= k < |grid| ==> result[k] == grid[k]
    {
      var row := result[i];
      for j := 0 to |row|
        invariant |row| == |grid[i]|
        invariant forall m :: 0 <= m < j ==> row[m] == grid[i][m].(background := c)
        invariant forall m :: j <= m < |row| ==> row[m] == grid[i][m]
      {
        row := row[j := row[j].(background := c)];
      }
      result := result[i := row];
    }
  }

  /** changeForegroundColorEffect: every foreground becomes the integer view of `newColor`. */
  method ChangeForegroundColorEffect(grid: Grid, newColor: Rgb) returns (result: Grid)
    ensures SameShape(grid, result)
    ensures forall i, j :: 0 <= i < |grid| && 0 <= j < |grid[i]| ==>
              result[i][j] == grid[i][j].(foreground := newColor.Truncated())
  {
    var c := newColor.Truncated();
    result := grid;
    for i := 0 to |grid|
      invariant SameShape(grid, result)
      invariant forall k, j :: 0 <= k < i && 0 <= j < |grid[k]| ==> result[k][j] == grid[k][j].(foreground := c)
      invariant forall k :: i <= k < |grid| ==> result[k] == grid[k]
    {
      var row := result[i];
      for j := 0 to |row|
        invariant |row| == |grid[i]|
        invariant forall m :: 0 <= m < j ==> row[m] == grid[i][m].(foreground := c)
        invariant forall m :: j <= m < |row| ==> row[m] == grid[i][m]
      {
        row := row[j := row[j].(foreground := c)];
      }
      result := result[i := row];
    }
  }

  /** changeSymbolEffect: every character becomes `newSymbol`. */
  method ChangeSymbolEffect(grid: Grid, newSymbol: char) returns (result: Grid)
    ensures SameShape(grid, result)
    ensures forall i, j :: 0 <= i < |grid| && 0 <= j < |grid[i]| ==>
              result[i][j] == grid[i][j].(symbol := newSymbol)
  {
    result := grid;
    for i := 0 to |grid|
      invariant SameShape(grid, result)
      invariant forall k, j :: 0 <= k < i && 0 <= j < |grid[k]| ==> result[k][j] == grid[k][j].(symbol := newSymbol)
      invariant forall k :: i <= k < |grid| ==> result[k] == grid[k]
    {
      var row := result[i];
      for j := 0 to |row|
        invariant |row| == |grid[i]|
        invariant forall m :: 0 <= m < j ==> row[m] == grid[i][m].(symbol := newSymbol)
        invariant forall m :: j <= m < |row| ==> row[m] == grid[i][m]
      {
        row := row[j := row[j].(symbol := newSymbol)];
      }
      result := result[i := row];
    }
  }

  /** changeTerminalToEffect: every cell becomes exactly the given character and colours. */
  method ChangeTerminalToEffect(grid: Grid, newSymbol: char, newForeground: Rgb, newBackground: Rgb)
    returns (result: Grid)
    ensures SameShape(grid, result)
    ensures forall i, j :: 0 <= i < |grid| && 0 <= j < |grid[i]| ==>
              result[i][j] == OneSymbol(newSymbol, newForeground.Truncated(), newBackground.Truncated())
  {
    var cell := OneSymbol(newSymbol, newForeground.Truncated(), newBackground.Truncated());
    result := grid;
    for i := 0 to |grid|
      invariant SameShape(grid, result)
      invariant forall k, j :: 0 <= k < i && 0 <= j < |grid[k]| ==> result[k][j] == cell
      invariant forall k :: i <= k < |grid| ==> result[k] == grid[k]
    {
      var row := result[i];
      for j := 0 to |row|
        invariant |row| == |grid[i]|
        invariant forall m :: 0 <= m < j ==> row[m] == cell
      {
        var s := row[j];
        s := s.(foreground := newForeground.Truncated());
        s := s.(background := newBackground.Truncated());
        s := s.(symbol := newSymbol);
        row := row[j := s];
      }
      result := result[i := row];
    }
  }

  /** invertColorEffect: every cell's two colours inverted. */
  method InvertColorEffect(grid: Grid) returns (result: Grid)
    ensures IsInverted(grid, result)
  {
    result := grid;
    for i := 0 to |grid|
      invariant SameShape(grid, result)
      invariant forall k, j :: 0 <= k < i && 0 <= j < |grid[k]| ==> result[k][j] == grid[k][j].Inverted()
      invariant forall k :: i <= k < |grid| ==> result[k] == grid[k]
    {
      var row := result[i];
      for j := 0 to |row|
        invariant |row| == |grid[i]|
        invariant forall m :: 0 <= m < j ==> row[m] == grid[i][m].Inverted()
        invariant forall m :: j <= m < |row| ==> row[m] == grid[i][m]
      {
        row := row[j := row[j].Inverted()];
      }
      result := result[i := row];
    }
  }

  /** adjustBrightnessByIncrementEffect: the increment added, clamped, to all channels of both colours. */
  method AdjustBrightnessByIncrementEffect(grid: Grid, increment: real) returns (result: Grid)
    ensures SameShape(grid, result)
    ensures ColorsValid(result)
    ensures forall i, j :: 0 <= i < |grid| && 0 <= j < |grid[i]| ==>
              result[i][j] == grid[i][j].(background := grid[i][j].background.Adjusted(increment),
                                          foreground := grid[i][j].foreground.Adjusted(increment))
  {
    result := grid;
    for i := 0 to |grid|
      invariant SameShape(grid, result)
      invariant forall k, j :: 0 <= k < i && 0 <= j < |grid[k]| ==>
                  result[k][j] == grid[k][j].(background := grid[k][j].background.Adjusted(increment),
                                              foreground := grid[k][j].foreground.Adjusted(increment))
      invariant forall k :: i <= k < |grid| ==> result[k] == grid[k]
    {
      var row := result[i];
      for j := 0 to |row|
        invariant |row| == |grid[i]|
        invariant forall m :: 0 <= m < j ==>
                    row[m] == grid[i][m].(background := grid[i][m].background.Adjusted(increment),
                                          foreground := grid[i][m].foreground.Adjusted(increment))
        invariant forall m :: j <= m < |row| ==> row[m] == grid[i][m]
      {
        var s := row[j];
        s := s.(background := s.background.Adjusted(increment));
        s := s.(foreground := s.foreground.Adjusted(increment));
        row := row[j := s];
      }
      result := result[i := row];
    }
  }

  /** incrementColorEffect: per channel, the foreground increment added to the foreground and the background increment to the background. */
  method IncrementColorEffect(grid: Grid, foregroundIncrement: Rgb, backgroundIncrement: Rgb) returns (result: Grid)
    ensures SameShape(grid, result)
    ensures ColorsValid(result)
    ensures forall i, j :: 0 <= i < |grid| && 0 <= j < |grid[i]| ==>
              result[i][j] == grid[i][j].(foreground := grid[i][j].foreground.AdjustedBy(foregroundIncrement),
                                          background := grid[i][j].background.AdjustedBy(backgroundIncrement))
  {
    result := grid;
    for i := 0 to |grid|
      invariant SameShape(grid, result)
      invariant forall k, j :: 0 <= k < i && 0 <= j < |grid[k]| ==>
                  result[k][j] == grid[k][j].(foreground := grid[k][j].foreground.AdjustedBy(foregroundIncrement),
                                              background := grid[k][j].background.AdjustedBy(backgroundIncrement))
      invariant forall k :: i <= k < |grid| ==> result[k] == grid[k]
    {
      var row := result[i];
      for j := 0 to |row|
        invariant |row| == |grid[i]|
        invariant forall m :: 0 <= m < j ==>
                    row[m] == grid[i][m].(foreground := grid[i][m].foreground.AdjustedBy(foregroundIncrement),
                                          background := grid[i][m].background.AdjustedBy(backgroundIncrement))
        invariant forall m :: j <= m < |row| ==> row[m] == grid[i][m]
      {
        var s := row[j];
        s := s.(foreground := s.foreground.AdjustedBy(foregroundIncrement));
        s := s.(background := s.background.AdjustedBy(backgroundIncrement));
        row := row[j := s];
      }
      result := result[i := row];
    }
  }

  /** Inverting a grid with in-range colours twice restores it, characters included. */
  lemma InvertEffectTwice(a: Grid, b: Grid, c: Grid)
    requires ColorsValid(a)
    requires IsInverted(a, b) && IsInverted(b, c)
    ensures c == a
  {
    forall i | 0 <= i < |a|
      ensures c[i] == a[i]
    {
      forall j | 0 <= j < |a[i]|
        ensures c[i][j] == a[i][j]
      {
        InvertCellTwice(a[i][j]);
      }
    }
  }

  /** After inversion every colour is in range, so a further inversion is undone by the next. */
  lemma InvertedIsValid(a: Grid, b: Grid)
    requires IsInverted(a, b)
    ensures ColorsValid(b)
  {
  }
}
