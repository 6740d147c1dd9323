/**
 * The geometry shared by the finder and data renderers: the quiet-zone
 * margin, the finder's size in modules, the bit matrix handed over by the
 * encoder, the per-module cell size and the canvas position of a module.
 */
module QrGeometry {
  import opened Canvas

  /** Blank border, in canvas units, left around the symbol on every side. */
  const QrMarginPx: real := 16.0

  /** A finder pattern is a 7 x 7 block of modules. */
  const FinderPatternRowCount: int := 7

  /** How a symbol is painted: every mark uses the foreground colour. */
  datatype QrCodeProperties = QrCodeProperties(foreground: Color, background: Color)

  /**
   * The encoder's byte matrix, one sequence per row; `bytes[x, y]` (column
   * x, row y) is `m[y][x]`. On-modules hold 1, off-modules 0.
   */
  type ByteMatrix = seq<seq<int>>

  /** A module position: column x, row y. */
  datatype Cell = Cell(x: int, y: int)

  function Height(m: ByteMatrix): nat
  {
    |m|
  }

  function Width(m: ByteMatrix): nat
  {
    if m == [] then 0 else |m[0]|
  }

  predicate IsSquare(m: ByteMatrix)
  {
    forall y :: 0 <= y < |m| ==> |m[y]| == |m|
  }

  /** Whether module (x, y) exists and holds exactly the byte 1. */
  predicate IsOn(m: ByteMatrix, x: int, y: int)
  {
    0 <= y < |m| && 0 <= x < |m[y]| && m[y][x] == 1
  }

  /**
   * Column width and row height: the side length less both margins, divided
   * among the columns and among the rows. Both derive from the same side
   * length, since the canvas is square.
   */
  function CellSize(sideLength: real, columns: nat, rows: nat): Size
    requires columns > 0 && rows > 0
  {
    Size(width := (sideLength - QrMarginPx * 2.0) / columns as real,
         height := (sideLength - QrMarginPx * 2.0) / rows as real)
  }

  /**
   * The columns (rows) of cells exactly fill the side length between the
   * margins, a square matrix gets square cells, and cells have positive
   * size exactly when the canvas is wider than both margins.
   */
  lemma CellSizeFills(sideLength: real, columns: nat, rows: nat)
    requires columns > 0 && rows > 0
    ensures var cell := CellSize(sideLength, columns, rows);
      QrMarginPx * 2.0 + columns as real * cell.width == sideLength &&
      QrMarginPx * 2.0 + rows as real * cell.height == sideLength &&
      (columns == rows ==> cell.width == cell.height) &&
      (cell.width > 0.0 <==> sideLength > QrMarginPx * 2.0) &&
      (cell.height > 0.0 <==> sideLength > QrMarginPx * 2.0)
  {
  }

  /** A finder pattern spans seven cells on each axis. */
  function FinderPatternSize(cell: Size): Size
  {
    cell.Times(FinderPatternRowCount as real)
  }

  /** Canvas position of the top-left corner of module (x, y). */
  function ModuleOrigin(x: int, y: int, cell: Size): Offset
  {
    Offset(QrMarginPx + x as real * cell.width, QrMarginPx + y as real * cell.height)
  }

  /** The square of canvas a module occupies. */
  function ModuleRect(x: int, y: int, cell: Size): Rect
  {
    Rect(ModuleOrigin(x, y, cell), cell)
  }

  predicate InGrid(n: int, x: int, y: int)
  {
    0 <= x < n && 0 <= y < n
  }

  /**
   * Whether module (x, y) of an n x n symbol lies in one of the three 7 x 7
   * finder corners: top-left, top-right or bottom-left.
   */
  predicate InFinderCorner(n: int, x: int, y: int)
  {
    InGrid(n, x, y) &&
    ((x < FinderPatternRowCount && y < FinderPatternRowCount) ||
     (n - FinderPatternRowCount <= x && y < FinderPatternRowCount) ||
     (x < FinderPatternRowCount && n - FinderPatternRowCount <= y))
  }

  /** Positive cell sizes keep the order of module indices. */
  lemma ScaledOrder(a: int, b: int, w: real)
    requires w > 0.0 && a as real * w < b as real * w
    ensures a < b
  {
    assert (b - a) as real * w > 0.0;
  }

  /** Along one axis, a coordinate lies in exactly one module's band. */
  lemma ModuleBandUnique(a: int, b: int, w: real, v: real)
    requires w > 0.0
    requires a as real * w <= v < a as real * w + w
    requires b as real * w <= v < b as real * w + w
    ensures a == b
  {
    calc {
      a as real * w;
    <=
      v;
    <
      b as real * w + w;
    ==
      (b + 1) as real * w;
    }
    calc {
      b as real * w;
    <=
      v;
    <
      a as real * w + w;
    ==
      (a + 1) as real * w;
    }
    ScaledOrder(a, b + 1, w);
    ScaledOrder(b, a + 1, w);
  }

  /** With cells of positive size, no point lies in two different modules. */
  lemma ModuleRectsDisjoint(x1: int, y1: int, x2: int, y2: int, cell: Size, p: Offset)
    requires cell.width > 0.0 && cell.height > 0.0
    requires ModuleRect(x1, y1, cell).Contains(p) && ModuleRect(x2, y2, cell).Contains(p)
    ensures x1 == x2 && y1 == y2
  {
    ModuleBandUnique(x1, x2, cell.width, p.x - QrMarginPx);
    ModuleBandUnique(y1, y2, cell.height, p.y - QrMarginPx);
  }
}
