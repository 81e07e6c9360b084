/**
 * The two screen-space helpers of tutorial.py: the camera-scroll rule at the
 * end of each level frame (lines 749-751) and the background tile grid of
 * `get_background` (lines 487-495).
 */
module Screen {
  import opened Geometry
  import Arith

  /** `WIDTH, HEIGHT`: the window size in pixels. */
  const Width: int := 1000
  const Height: int := 650

  /** `scroll_area_width`: how close to a window edge the player may come before the camera follows. */
  const ScrollAreaWidth: real := 500.0

  /**
   * The camera rule: the horizontal offset follows the first player's
   * velocity when the player moves right with its right edge within the
   * scroll area of the window's right side, or moves left with its left
   * edge within the scroll area of the window's left side.
   */
  function ScrollOffset(offset: real, rect: Box, xVel: real): real {
    if (rect.Right() - offset >= Width as real - ScrollAreaWidth && xVel > 0.0)
       || (rect.Left() - offset <= ScrollAreaWidth && xVel < 0.0)
    then offset + xVel
    else offset
  }

  /**
   * The camera moves exactly when the player heads towards a window edge it
   * is already near, and then by exactly the player's velocity, in the
   * player's direction; a player standing still never moves it.
   */
  lemma ScrollRule(offset: real, rect: Box, xVel: real)
    ensures var r := ScrollOffset(offset, rect, xVel);
      && (r != offset <==>
            (xVel > 0.0 && rect.Right() - offset >= Width as real - ScrollAreaWidth)
            || (xVel < 0.0 && rect.Left() - offset <= ScrollAreaWidth))
      && (r == offset || r == offset + xVel)
      && (r > offset ==> xVel > 0.0) && (r < offset ==> xVel < 0.0)
  {
  }

  /** How many rows and columns of tiles `get_background` lays: one more than fit whole. */
  function Columns(width: int): nat
    requires width > 0
  {
    Width / width + 1
  }

  function Rows(height: int): nat
    requires height > 0
  {
    Height / height + 1
  }

  /** The position of the `k`-th tile in the order they are laid: column by column, top to bottom. */
  function Tile(k: nat, width: int, height: int): (int, int)
    requires width > 0 && height > 0
  {
    var rows := Rows(height);
    ((k / rows) * width, (k % rows) * height)
  }

  /** The tile laid at column `i`, row `j` is the one at `(i * width, j * height)`. */
  lemma TileAt(i: nat, j: nat, width: int, height: int)
    requires width > 0 && height > 0 && j < Rows(height)
    ensures Tile(i * Rows(height) + j, width, height) == (i * width, j * height)
  {
    Arith.DivModUnique(i * Rows(height) + j, Rows(height), i, j);
  }

  /**
   * `get_background`'s tile list for an image of the given size: the outer
   * loop over columns, the inner over rows, one position appended per tile.
   */
  method Background(width: int, height: int) returns (tiles: seq<(int, int)>)
    requires width > 0 && height > 0
    ensures |tiles| == Columns(width) * Rows(height)
    ensures forall k :: 0 <= k < |tiles| ==> tiles[k] == Tile(k, width, height)
  {
    var columns, rows := Width / width + 1, Height / height + 1;
    tiles := [];
    var i := 0;
    while i < columns
      invariant 0 <= i <= columns
      invariant |tiles| == i * rows
      invariant forall k :: 0 <= k < |tiles| ==> tiles[k] == Tile(k, width, height)
    {
      var j := 0;
      while j < rows
        invariant 0 <= j <= rows
        invariant |tiles| == i * rows + j
        invariant forall k :: 0 <= k < |tiles| ==> tiles[k] == Tile(k, width, height)
      {
        TileAt(i, j, width, height);
        tiles := tiles + [(i * width, j * height)];
        j := j + 1;
      }
      i := i + 1;
    }
  }

  /**
   * The tiles cover the window: every pixel lies in the tile of its column
   * and row, and that tile is one of those laid.
   */
  lemma TilesCoverWindow(width: int, height: int, x: int, y: int)
    requires width > 0 && height > 0
    requires 0 <= x < Width && 0 <= y < Height
    ensures exists k: nat ::
              && k < Columns(width) * Rows(height)
              && Tile(k, width, height).0 <= x < Tile(k, width, height).0 + width
              && Tile(k, width, height).1 <= y < Tile(k, width, height).1 + height
  {
    var i, j := x / width, y / height;
    DivMonotone(y, Height, height);
    DivMonotone(x, Width, width);
    WithinCell(x, width);
    WithinCell(y, height);
    TileWitness(x, y, width, height, i, j);
  }

  /** The tile of column `i` and row `j` is laid and holds every pixel of its cell. */
  lemma TileWitness(x: int, y: int, width: int, height: int, i: int, j: int)
    requires width > 0 && height > 0
    requires 0 <= i < Columns(width) && 0 <= j < Rows(height)
    requires i * width <= x < i * width + width && j * height <= y < j * height + height
    ensures exists k: nat ::
              && k < Columns(width) * Rows(height)
              && Tile(k, width, height).0 <= x < Tile(k, width, height).0 + width
              && Tile(k, width, height).1 <= y < Tile(k, width, height).1 + height
  {
    TileAt(i, j, width, height);
    GridIndexBound(i, j, Columns(width), Rows(height));
    var k: nat := i * Rows(height) + j;
    assert Tile(k, width, height) == (i * width, j * height);
  }

  /** A coordinate lies in the cell its quotient names. */
  lemma WithinCell(x: int, d: int)
    requires x >= 0 && d > 0
    ensures (x / d) * d <= x < (x / d) * d + d
  {
  }

  /** Column-major index of cell `(i, j)` lies within the grid. */
  lemma GridIndexBound(i: int, j: int, columns: int, rows: int)
    requires 0 <= i < columns && 0 <= j < rows
    ensures i * rows + j < columns * rows
  {
    MulMonotone(i + 1, columns, rows);
    assert (i + 1) * rows == i * rows + rows;
  }

  lemma DivMonotone(a: int, b: int, d: int)
    requires 0 <= a <= b && d > 0
    ensures a / d <= b / d
  {
    var qa, qb := a / d, b / d;
    assert (qa - qb) * d == (a - a % d) - (b - b % d);
    if qa - qb >= 1 {
      Arith.MulAtLeast(qa - qb, d);
    }
  }

  lemma MulMonotone(a: int, b: int, c: int)
    requires 0 <= a <= b && c >= 0
    ensures a * c <= b * c
  {
    assert b * c - a * c == (b - a) * c;
  }

  /** An image of 100 by 100 pixels takes 11 columns of 7 tiles. */
  lemma HundredPixelTiles()
    ensures Columns(100) * Rows(100) == 77
    ensures Tile(0, 100, 100) == (0, 0) && Tile(6, 100, 100) == (0, 600) && Tile(7, 100, 100) == (100, 0)
    ensures Tile(76, 100, 100) == (1000, 600)
  {
  }
}
