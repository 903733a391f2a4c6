/**
 * The terminal surface of src/TerminalControl.cpp: it owns the active grid
 * (content resolution) and the scaled grid (terminal resolution), puts the
 * terminal into its drawing mode on construction and takes it out again on
 * teardown, queries the window size and writes frames.
 *
 * The controlling terminal is a `Device`: the local-mode flags that
 * tcgetattr/tcsetattr read and write, and the text written to standard
 * output. The window-size query is a success flag with a column/row pair.
 */
module Terminal {
  import opened Symbols

  /** The controlling terminal as the program sees it. */
  class Device {
    /** `c_lflag` of the terminal's termios settings. */
    var lflag: bv32
    /** Everything written to standard output so far. */
    var output: string
  }

  /** The ECHO bit of `c_lflag` (octal 0000010 on Linux). */
  const Echo: bv32 := 0x8

  /** `c_lflag &= ~ECHO`. */
  function WithoutEcho(flags: bv32): (r: bv32)
    ensures r & Echo == 0
    ensures r & !Echo == flags & !Echo
  {
    flags & !Echo
  }

  /** `c_lflag |= ECHO`. */
  function WithEcho(flags: bv32): (r: bv32)
    ensures r & Echo == Echo
    ensures r & !Echo == flags & !Echo
  {
    flags | Echo
  }

  /**
   * Teardown restores the flags the program started with exactly when echo
   * was on at the start: it sets ECHO rather than restoring a saved value.
   */
  lemma EchoRestoredOnlyIfInitiallyOn(flags: bv32)
    ensures WithEcho(WithoutEcho(flags)) == flags <==> flags & Echo == Echo
  {
  }

  const Csi: string := [Esc] + "["
  /** DEC private mode 25 reset: hide the cursor. */
  const CursorHide: string := Csi + "?25l"
  /** DEC private mode 25 set: show the cursor. */
  const CursorShow: string := Csi + "?25h"
  /** CUP with no parameters (section 8.3.21 of ECMA-48): cursor to the home position. */
  const CursorHome: string := Csi + "H"

  /** `std::vector::resize(n, fill)`: keeps the first n elements and pads with `fill`. */
  function Resize<T>(s: seq<T>, n: nat, fill: T): (r: seq<T>)
    ensures |r| == n
    ensures forall i :: 0 <= i < n && i < |s| ==> r[i] == s[i]
    ensures forall i :: |s| <= i < n ==> r[i] == fill
  {
    if n <= |s| then s[..n] else s + seq(n - |s|, _ => fill)
  }

  /** The serialisations of a sequence of cells, in order. */
  function CellsText(cells: seq<OneSymbol>): string {
    if |cells| == 0 then [] else CellsText(cells[..|cells| - 1]) + Serialize(cells[|cells| - 1])
  }

  /** Every row holds at least `width` cells. */
  predicate Wide(rows: Grid, width: nat) {
    forall i :: 0 <= i < |rows| ==> width <= |rows[i]|
  }

  lemma Associative<T>(a: seq<T>, b: seq<T>, c: seq<T>)
    ensures (a + b) + c == a + (b + c)
  {
  }

  /** The first `width` cells of every row, row after row. */
  function RowsText(rows: Grid, width: nat): string
    requires Wide(rows, width)
  {
    if |rows| == 0 then [] else RowsText(rows[..|rows| - 1], width) + CellsText(rows[|rows| - 1][..width])
  }

  /** What printTerminal writes: every row cut to the first row's length; nothing for an empty grid. */
  function FrameText(grid: Grid): string
    requires |grid| == 0 || Wide(grid, |grid[0]|)
  {
    if |grid| == 0 then [] else RowsText(grid, |grid[0]|)
  }

  /** All cells of a grid, row-major. */
  function Flatten(grid: Grid): seq<OneSymbol> {
    if |grid| == 0 then [] else Flatten(grid[..|grid| - 1]) + grid[|grid| - 1]
  }

  /** Every row has the same length. */
  predicate Rectangular(grid: Grid) {
    forall i :: 0 <= i < |grid| ==> |grid[i]| == |grid[0]|
  }

  lemma {:induction false} CellsTextAppend(a: seq<OneSymbol>, b: seq<OneSymbol>)
    ensures CellsText(a + b) == CellsText(a) + CellsText(b)
  {
    if |b| > 0 {
      var last := b[|b| - 1];
      assert (a + b)[..|a + b| - 1] == a + b[..|b| - 1];
      CellsTextAppend(a, b[..|b| - 1]);
    } else {
      assert a + b == a;
    }
  }

  lemma {:induction false} RowsTextFlatten(rows: Grid, width: nat)
    requires forall i :: 0 <= i < |rows| ==> |rows[i]| == width
    ensures Wide(rows, width)
    ensures RowsText(rows, width) == CellsText(Flatten(rows))
  {
    if |rows| > 0 {
      var init := rows[..|rows| - 1];
      var last := rows[|rows| - 1];
      RowsTextFlatten(init, width);
      assert last[..width] == last;
      CellsTextAppend(Flatten(init), last);
    }
  }

  /**
   * For a rectangular grid the frame is the serialisation of every cell,
   * row-major; an empty grid writes nothing.
   */
  lemma FrameIsRowMajor(grid: Grid)
    requires Rectangular(grid)
    ensures FrameText(grid) == CellsText(Flatten(grid))
  {
    if |grid| > 0 {
      RowsTextFlatten(grid, |grid[0]|);
    }
  }

  /** One more cell of a row extends the row's text by that cell's serialisation. */
  lemma CellsTextStep(cells: seq<OneSymbol>, k: nat)
    requires k < |cells|
    ensures CellsText(cells[..k + 1]) == CellsText(cells[..k]) + Serialize(cells[k])
  {
    assert cells[..k + 1][..k] == cells[..k];
  }

  /** One more row extends the frame by that row's text. */
  lemma RowsTextStep(rows: Grid, k: nat, width: nat)
    requires k < |rows|
    requires Wide(rows, width)
    ensures Wide(rows[..k], width) && Wide(rows[..k + 1], width)
    ensures RowsText(rows[..k + 1], width) == RowsText(rows[..k], width) + CellsText(rows[k][..width])
  {
    assert rows[..k + 1][..k] == rows[..k];
  }

  class TerminalControl {
    /** Terminal width in columns, as last queried. */
    var width: nat
    /** Terminal height in rows, as last queried. */
    var height: nat
    /** The content-resolution grid the producers write into. */
    var activeGrid: Grid
    /** The terminal-resolution grid that is printed. */
    var scaledGrid: Grid
    /** The cell a default-constructed `OneSymbol()` holds. */
    const blank: OneSymbol
    /** The controlling terminal. */
    const dev: Device

    /**
     * Allocates `Height` rows of `Width` default cells, hides the cursor and
     * clears the ECHO bit of the terminal's local modes.
     */
    constructor (Height: nat, Width: nat, blank: OneSymbol, dev: Device)
      modifies dev
      ensures this.blank == blank && this.dev == dev
      ensures |activeGrid| == Height
      ensures forall i :: 0 <= i < Height ==> |activeGrid[i]| == Width
      ensures forall i, j :: 0 <= i < Height && 0 <= j < Width ==> activeGrid[i][j] == blank
      ensures scaledGrid == []
      ensures dev.output == old(dev.output) + CursorHide
      ensures dev.lflag == WithoutEcho(old(dev.lflag))
    {
      this.blank := blank;
      this.dev := dev;
      activeGrid := [];
      scaledGrid := [];
      new;
      activeGrid := Resize(activeGrid, Height, []);
      for i := 0 to Height
        invariant |activeGrid| == Height
        invariant forall k :: 0 <= k < i ==> |activeGrid[k]| == Width
        invariant forall k, j :: 0 <= k < i && 0 <= j < Width ==> activeGrid[k][j] == blank
        invariant forall k :: i <= k < Height ==> activeGrid[k] == []
        invariant scaledGrid == [] && dev.output == old(dev.output) && dev.lflag == old(dev.lflag)
      {
        activeGrid := activeGrid[i := Resize(activeGrid[i], Width, blank)];
      }
      dev.output := dev.output + CursorHide;
      dev.lflag := WithoutEcho(dev.lflag);
    }

    /** The destructor: shows the cursor and sets the ECHO bit, whatever it was before construction. */
    method Close()
      modifies dev
      ensures dev.output == old(dev.output) + CursorShow
      ensures dev.lflag == WithEcho(old(dev.lflag))
    {
      dev.output := dev.output + CursorShow;
      dev.lflag := WithEcho(dev.lflag);
    }

    /** getTerminalSize: a successful query sets the size, a failed one leaves it as it was. */
    method GetTerminalSize(querySucceeded: bool, columns: nat, rows: nat)
      requires columns < 0x1_0000 && rows < 0x1_0000
      modifies this`width, this`height
      ensures querySucceeded ==> width == columns && height == rows
      ensures !querySucceeded ==> width == old(width) && height == old(height)
    {
      if querySucceeded {
        width := columns;
        height := rows;
      }
    }

    /** clearTerminal: writes CUP to home and nothing else. */
    method ClearTerminal()
      modifies dev
      ensures dev.output == old(dev.output) + CursorHome
    {
      dev.output := dev.output + CursorHome;
    }

    /**
     * setTerminalSize: the scaled grid becomes `height` rows of `width`
     * cells; cells inside the old and new overlap are kept, new ones are
     * default cells.
     */
    method SetTerminalSize()
      modifies this`scaledGrid
      ensures |scaledGrid| == height
      ensures forall i :: 0 <= i < height ==> |scaledGrid[i]| == width
      ensures forall i, j :: 0 <= i < height && 0 <= j < width ==>
                scaledGrid[i][j] ==
                  if i < |old(scaledGrid)| && j < |old(scaledGrid)[i]| then old(scaledGrid)[i][j] else blank
    {
      ghost var before := scaledGrid;
      scaledGrid := Resize(scaledGrid, height, []);
      for i := 0 to height
        invariant |scaledGrid| == height
        invariant forall k :: 0 <= k < i ==> |scaledGrid[k]| == width
        invariant forall k, j :: 0 <= k < i && 0 <= j < width ==>
                    scaledGrid[k][j] == if k < |before| && j < |before[k]| then before[k][j] else blank
        invariant forall k :: i <= k < height ==> scaledGrid[k] == if k < |before| then before[k] else []
      {
        scaledGrid := scaledGrid[i := Resize(scaledGrid[i], width, blank)];
      }
    }

    /**
     * printTerminal: writes the first-row-length prefix of every row of the
     * scaled grid, row-major. A row shorter than the first would be read
     * out of bounds, so callers must not leave one.
     */
    method PrintTerminal()
      requires |scaledGrid| == 0 || Wide(scaledGrid, |scaledGrid[0]|)
      modifies dev
      ensures dev.output == old(dev.output) + FrameText(scaledGrid)
    {
      ghost var start := dev.output;
      ghost var g := scaledGrid;
      if |scaledGrid| == 0 {
        return;
      }
      var w := |scaledGrid[0]|;
      for i := 0 to |scaledGrid|
        invariant scaledGrid == g
        invariant Wide(g[..i], w)
        invariant dev.output == start + RowsText(g[..i], w)
      {
        ghost var rowStart := dev.output;
        for ii := 0 to w
          invariant dev.output == rowStart + CellsText(g[i][..ii])
        {
          var text := Serialize(scaledGrid[i][ii]);
          Associative(rowStart, CellsText(g[i][..ii]), text);
          CellsTextStep(g[i], ii);
          dev.output := dev.output + text;
        }
        RowsTextStep(g, i, w);
        Associative(start, RowsText(g[..i], w), CellsText(g[i][..w]));
      }
      assert g[..|g|] == g;
    }
  }
}
