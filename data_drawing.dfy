/**
 * The data modules: the part of the grid outside the three finder corners
 * is split into three rectangular sections, and every module there whose
 * byte is 1 is drawn as one cell-sized square.
 */
module DataDrawing {
  import opened Canvas
  import opened Sets
  import opened QrGeometry

  /** Columns start.x until end.x and rows start.y until end.y (both ends exclusive). */
  datatype Section = Section(start: Cell, end: Cell)
  {
    predicate Holds(c: Cell)
    {
      start.x <= c.x < end.x && start.y <= c.y < end.y
    }
  }

  /**
   * The three data sections of a width x height matrix, in the order they
   * are listed: between the two top finders, the full-width middle rows,
   * and right of the bottom-left finder.
   */
  function Sections(width: int, height: int): seq<Section>
  {
    [Section(Cell(FinderPatternRowCount, 0), Cell(width - FinderPatternRowCount, FinderPatternRowCount)),
     Section(Cell(0, FinderPatternRowCount), Cell(width, height - FinderPatternRowCount)),
     Section(Cell(FinderPatternRowCount, height - FinderPatternRowCount), Cell(width, height))]
  }

  /** Cells (x0, y) up to but excluding (x, y), left to right. */
  function RowCells(y: int, x0: int, x: int): seq<Cell>
    decreases x - x0
  {
    if x <= x0 then [] else RowCells(y, x0, x - 1) + [Cell(x - 1, y)]
  }

  /** The cells of section `s` in its rows before row `y`, row by row. */
  function SectionRows(s: Section, y: int): seq<Cell>
    decreases y - s.start.y
  {
    if y <= s.start.y then [] else SectionRows(s, y - 1) + RowCells(y - 1, s.start.x, s.end.x)
  }

  /** The order in which a section's cells are visited. */
  function SectionCells(s: Section): seq<Cell>
  {
    SectionRows(s, s.end.y)
  }

  /** The cells of several sections, one section after another. */
  function VisitOrder(sections: seq<Section>): seq<Cell>
  {
    if sections == [] then []
    else VisitOrder(sections[..|sections| - 1]) + SectionCells(sections[|sections| - 1])
  }

  /** The visited cells whose byte is 1, in visiting order. */
  function OnCells(m: ByteMatrix, cells: seq<Cell>): seq<Cell>
  {
    if cells == [] then []
    else
      var last := cells[|cells| - 1];
      OnCells(m, cells[..|cells| - 1]) + (if IsOn(m, last.x, last.y) then [last] else [])
  }

  /** Filtering keeps exactly the cells whose byte is 1, and adds no repeats. */
  lemma {:induction false} OnCellsSpec(m: ByteMatrix, cells: seq<Cell>)
    ensures forall c :: c in OnCells(m, cells) <==> c in cells && IsOn(m, c.x, c.y)
    ensures NoDuplicates(cells) ==> NoDuplicates(OnCells(m, cells))
  {
    if cells != [] {
      var init, last := cells[..|cells| - 1], cells[|cells| - 1];
      assert cells == init + [last];
      OnCellsSpec(m, init);
      if NoDuplicates(cells) {
        assert NoDuplicates(init);
        assert last !in init;
      }
    }
  }

  /** One foreground square, the size of a cell, at module `c`'s position. */
  function CellDraw(props: QrCodeProperties, size: Size, c: Cell): DrawCall
  {
    DrawPath(props.foreground, Shape(EvenOdd, [RectContour(ModuleRect(c.x, c.y, size))]))
  }

  /** One square per cell, in the cells' order. */
  function Draws(props: QrCodeProperties, size: Size, cells: seq<Cell>): seq<DrawCall>
  {
    if cells == [] then []
    else Draws(props, size, cells[..|cells| - 1]) + [CellDraw(props, size, cells[|cells| - 1])]
  }

  /** Every draw call the data renderer issues for matrix `m`, in order. */
  function DataDraws(props: QrCodeProperties, m: ByteMatrix, size: Size): seq<DrawCall>
  {
    Draws(props, size, OnCells(m, VisitOrder(SetOf(Sections(Width(m), Height(m))))))
  }

  /** Visiting one more cell adds its draw call to the log exactly when its byte is 1. */
  lemma VisitAppend(props: QrCodeProperties, size: Size, m: ByteMatrix, visited: seq<Cell>, c: Cell)
    ensures Draws(props, size, OnCells(m, visited + [c])) ==
      Draws(props, size, OnCells(m, visited)) + (if IsOn(m, c.x, c.y) then [CellDraw(props, size, c)] else [])
  {
    assert (visited + [c])[..|visited|] == visited;
    var on := OnCells(m, visited);
    if IsOn(m, c.x, c.y) {
      assert OnCells(m, visited + [c]) == on + [c];
      assert Draws(props, size, on + [c]) == Draws(props, size, on) + [CellDraw(props, size, c)];
    } else {
      assert OnCells(m, visited + [c]) == on;
    }
  }

  /** The squares drawn for row y from column x0 up to but excluding column x. */
  function RowDraws(props: QrCodeProperties, size: Size, m: ByteMatrix, y: int, x0: int, x: int): seq<DrawCall>
    decreases x - x0
  {
    if x <= x0 then []
    else RowDraws(props, size, m, y, x0, x - 1) + (if IsOn(m, x - 1, y) then [CellDraw(props, size, Cell(x - 1, y))] else [])
  }

  /** The squares drawn for section `s` in its rows before row `y`. */
  function SectionDraws(props: QrCodeProperties, size: Size, m: ByteMatrix, s: Section, y: int): seq<DrawCall>
    decreases y - s.start.y
  {
    if y <= s.start.y then []
    else SectionDraws(props, size, m, s, y - 1) + RowDraws(props, size, m, y - 1, s.start.x, s.end.x)
  }

  /** A row's squares are those of its on-modules, in column order. */
  lemma {:induction false} RowDrawsOfCells(props: QrCodeProperties, size: Size, m: ByteMatrix, visited: seq<Cell>, y: int, x0: int, x: int)
    ensures Draws(props, size, OnCells(m, visited + RowCells(y, x0, x))) ==
      Draws(props, size, OnCells(m, visited)) + RowDraws(props, size, m, y, x0, x)
    decreases x - x0
  {
    if x <= x0 {
      assert visited + RowCells(y, x0, x) == visited;
    } else {
      var c := Cell(x - 1, y);
      var done := visited + RowCells(y, x0, x - 1);
      var before := Draws(props, size, OnCells(m, visited));
      var extra := if IsOn(m, c.x, c.y) then [CellDraw(props, size, c)] else [];
      assert visited + RowCells(y, x0, x) == done + [c];
      calc {
        Draws(props, size, OnCells(m, done + [c]));
        { VisitAppend(props, size, m, done, c); }
        Draws(props, size, OnCells(m, done)) + extra;
        { RowDrawsOfCells(props, size, m, visited, y, x0, x - 1); }
        (before + RowDraws(props, size, m, y, x0, x - 1)) + extra;
        before + (RowDraws(props, size, m, y, x0, x - 1) + extra);
      }
    }
  }

  /** A section's squares are those of its on-modules, in row-major order. */
  lemma {:induction false} SectionDrawsOfCells(props: QrCodeProperties, size: Size, m: ByteMatrix, visited: seq<Cell>, s: Section, y: int)
    ensures Draws(props, size, OnCells(m, visited + SectionRows(s, y))) ==
      Draws(props, size, OnCells(m, visited)) + SectionDraws(props, size, m, s, y)
    decreases y - s.start.y
  {
    if y <= s.start.y {
      assert visited + SectionRows(s, y) == visited;
    } else {
      var done := visited + SectionRows(s, y - 1);
      var before := Draws(props, size, OnCells(m, visited));
      var row := RowDraws(props, size, m, y - 1, s.start.x, s.end.x);
      assert visited + SectionRows(s, y) == done + RowCells(y - 1, s.start.x, s.end.x);
      calc {
        Draws(props, size, OnCells(m, done + RowCells(y - 1, s.start.x, s.end.x)));
        { RowDrawsOfCells(props, size, m, done, y - 1, s.start.x, s.end.x); }
        Draws(props, size, OnCells(m, done)) + row;
        { SectionDrawsOfCells(props, size, m, visited, s, y - 1); }
        (before + SectionDraws(props, size, m, s, y - 1)) + row;
        before + (SectionDraws(props, size, m, s, y - 1) + row);
      }
    }
  }

  /** Visiting section k after the sections before it appends that section's squares. */
  lemma VisitNextSection(props: QrCodeProperties, size: Size, m: ByteMatrix, sections: seq<Section>, k: int)
    requires 0 <= k < |sections|
    ensures Draws(props, size, OnCells(m, VisitOrder(sections[..k + 1]))) ==
      Draws(props, size, OnCells(m, VisitOrder(sections[..k]))) +
      SectionDraws(props, size, m, sections[k], sections[k].end.y)
  {
    assert sections[..k + 1][..k] == sections[..k];
    SectionDrawsOfCells(props, size, m, VisitOrder(sections[..k]), sections[k], sections[k].end.y);
  }

  /** Section `s` is empty or lies inside the n x n grid. */
  predicate FitsGrid(s: Section, n: int)
  {
    s.end.x <= s.start.x || s.end.y <= s.start.y ||
    (0 <= s.start.x && s.end.x <= n && 0 <= s.start.y && s.end.y <= n)
  }

  /** Each section of a square matrix is empty or inside the matrix, whatever its size. */
  lemma SectionsFitGrid(n: nat)
    ensures forall k :: 0 <= k < 3 ==> FitsGrid(Sections(n, n)[k], n)
  {
  }

  /**
   * Visits the sections in order, each row by row and left to right, and
   * draws a cell-sized square for every module whose byte is 1.
   */
  method DrawAllQrCodeDataBits(props: QrCodeProperties, bytes: ByteMatrix, size: Size)
    returns (log: seq<DrawCall>)
    requires IsSquare(bytes)
    ensures log == DataDraws(props, bytes, size)
  {
    var n := |bytes|;
    assert Width(bytes) == n;
    var sections := SetOf(Sections(Width(bytes), Height(bytes)));
    SectionsDistinct(n, n);
    SectionsFitGrid(n);
    log := [];
    for k := 0 to |sections|
      invariant log == Draws(props, size, OnCells(bytes, VisitOrder(sections[..k])))
    {
      var calls := DrawSectionDataBits(props, bytes, size, sections[k]);
      VisitNextSection(props, size, bytes, sections, k);
      log := log + calls;
    }
    assert sections[..|sections|] == sections;
  }

  /**
   * The body run for each section: its rows from top to bottom, each from
   * left to right, with a square for every module whose byte is 1.
   */
  method DrawSectionDataBits(props: QrCodeProperties, bytes: ByteMatrix, size: Size, section: Section)
    returns (log: seq<DrawCall>)
    requires IsSquare(bytes) && FitsGrid(section, |bytes|)
    ensures log == SectionDraws(props, size, bytes, section, section.end.y)
  {
    log := [];
    var y := section.start.y;
    while y < section.end.y
      invariant section.start.y <= y && (y <= section.end.y || y == section.start.y)
      invariant log == SectionDraws(props, size, bytes, section, y)
    {
      ghost var rows := log;
      var x := section.start.x;
      while x < section.end.x
        invariant section.start.x <= x && (x <= section.end.x || x == section.start.x)
        invariant log == rows + RowDraws(props, size, bytes, y, section.start.x, x)
      {
        ghost var row := RowDraws(props, size, bytes, y, section.start.x, x);
        if bytes[y][x] == 1 {
          var call := DrawDataBit(props, size, x, y);
          log := log + [call];
          assert rows + (row + [call]) == rows + row + [call];
        }
        x := x + 1;
      }
      y := y + 1;
    }
  }

  /** The draw issued for one on-module: a one-rectangle path at the module's offset, in the foreground colour. */
  method DrawDataBit(props: QrCodeProperties, size: Size, x: int, y: int) returns (call: DrawCall)
    ensures call == CellDraw(props, size, Cell(x, y))
    ensures call.shape.contours[0].Bounds().Contains(ModuleOrigin(x, y, size)) <==> size.width > 0.0 && size.height > 0.0
  {
    var path := new Path.NewPath();
    var rect := Rect(Offset(QrMarginPx + x as real * size.width, QrMarginPx + y as real * size.height), size);
    path.AddRect(rect);
    assert rect == ModuleRect(x, y, size);
    assert path.contours == [RectContour(rect)];
    call := DrawPath(props.foreground, path.Snapshot());
  }

  /** The set the sections are put in keeps all three, in their listed order. */
  lemma SectionsDistinct(width: int, height: int)
    ensures SetOf(Sections(width, height)) == Sections(width, height)
  {
    var s := Sections(width, height);
    assert s[0] != s[1] && s[0] != s[2] && s[1] != s[2];
    assert NoDuplicates(s);
  }

  /** Cell `a` comes before cell `b` in row-major order. */
  predicate RowMajorBefore(a: Cell, b: Cell)
  {
    a.y < b.y || (a.y == b.y && a.x < b.x)
  }

  predicate RowMajorSorted(cells: seq<Cell>)
  {
    forall i, j :: 0 <= i < j < |cells| ==> RowMajorBefore(cells[i], cells[j])
  }

  lemma {:induction false} RowCellsSpec(y: int, x0: int, x: int)
    ensures forall c :: c in RowCells(y, x0, x) <==> c.y == y && x0 <= c.x < x
    ensures RowMajorSorted(RowCells(y, x0, x))
    decreases x - x0
  {
    if x > x0 {
      RowCellsSpec(y, x0, x - 1);
    }
  }

  lemma {:induction false} SectionRowsSpec(s: Section, y: int)
    ensures forall c :: c in SectionRows(s, y) <==> s.start.x <= c.x < s.end.x && s.start.y <= c.y < y
    ensures RowMajorSorted(SectionRows(s, y))
    decreases y - s.start.y
  {
    if y > s.start.y {
      SectionRowsSpec(s, y - 1);
      RowCellsSpec(y - 1, s.start.x, s.end.x);
      var a, b := SectionRows(s, y - 1), RowCells(y - 1, s.start.x, s.end.x);
      forall i, j | 0 <= i < j < |a + b|
        ensures RowMajorBefore((a + b)[i], (a + b)[j])
      {
        if j < |a| {
          assert (a + b)[i] == a[i] && (a + b)[j] == a[j];
        } else if i < |a| {
          assert (a + b)[i] == a[i] && a[i] in a;
          assert (a + b)[j] == b[j - |a|] && b[j - |a|] in b;
        } else {
          assert (a + b)[i] == b[i - |a|] && (a + b)[j] == b[j - |a|];
        }
      }
    }
  }

  /**
   * A section's cells are exactly the modules it holds, visited row by row
   * and left to right, each once.
   */
  lemma SectionCellsRowMajor(s: Section)
    ensures forall c :: c in SectionCells(s) <==> s.Holds(c)
    ensures RowMajorSorted(SectionCells(s))
    ensures NoDuplicates(SectionCells(s))
  {
    SectionRowsSpec(s, s.end.y);
  }

  /** The visit order is the first section's cells, then the second's, then the third's. */
  lemma VisitOrderOfSections(width: int, height: int)
    ensures var s := Sections(width, height);
      VisitOrder(s) == SectionCells(s[0]) + SectionCells(s[1]) + SectionCells(s[2])
  {
    var s := Sections(width, height);
    assert s[..2][..1][..0] == [];
    assert s[..2][..1] == s[..1] && s[..2][1] == s[1];
    assert VisitOrder(s[..1]) == SectionCells(s[0]);
  }

  lemma NoDuplicatesConcat(a: seq<Cell>, b: seq<Cell>)
    requires NoDuplicates(a) && NoDuplicates(b)
    requires forall c :: c in a ==> c !in b
    ensures NoDuplicates(a + b)
  {
    forall i, j | 0 <= i < j < |a + b|
      ensures (a + b)[i] != (a + b)[j]
    {
      if j < |a| {
        assert (a + b)[i] == a[i] && (a + b)[j] == a[j];
      } else if i < |a| {
        assert (a + b)[i] == a[i] && a[i] in a;
        assert (a + b)[j] == b[j - |a|] && b[j - |a|] in b;
      } else {
        assert (a + b)[i] == b[i - |a|] && (a + b)[j] == b[j - |a|];
      }
    }
  }

  /**
   * Which modules the visit order holds: those of the three sections, and
   * each of them once, for every grid size.
   */
  lemma VisitOrderMembership(n: nat)
    ensures forall c :: c in VisitOrder(Sections(n, n)) <==>
      Sections(n, n)[0].Holds(c) || Sections(n, n)[1].Holds(c) || Sections(n, n)[2].Holds(c)
    ensures NoDuplicates(VisitOrder(Sections(n, n)))
  {
    var s := Sections(n, n);
    VisitOrderOfSections(n, n);
    SectionCellsRowMajor(s[0]);
    SectionCellsRowMajor(s[1]);
    SectionCellsRowMajor(s[2]);
    var a, b, c := SectionCells(s[0]), SectionCells(s[1]), SectionCells(s[2]);
    NoDuplicatesConcat(a, b);
    NoDuplicatesConcat(a + b, c);
  }

  /** Every module the renderer reads lies inside the matrix, for every square size. */
  lemma VisitOrderInGrid(n: nat)
    ensures forall c :: c in VisitOrder(Sections(n, n)) ==> InGrid(n, c.x, c.y)
  {
    VisitOrderMembership(n);
  }

  /**
   * From 14 modules up, the three sections and the three finder corners
   * tile the grid: a module is visited exactly when it is in the grid and
   * outside every finder corner.
   */
  lemma VisitOrderPartition(n: nat)
    requires n >= 14
    ensures forall c :: c in VisitOrder(Sections(n, n)) <==> InGrid(n, c.x, c.y) && !InFinderCorner(n, c.x, c.y)
  {
    VisitOrderMembership(n);
  }

  /**
   * From 8 to 13 modules the partition fails: the third section visits
   * module (7, n - 7), which lies in the top-right finder corner.
   */
  lemma SmallGridOverlap(n: nat)
    requires 8 <= n <= 13
    ensures Cell(7, n - 7) in VisitOrder(Sections(n, n)) && InFinderCorner(n, 7, n - 7)
  {
    VisitOrderMembership(n);
    assert Sections(n, n)[2].Holds(Cell(7, n - 7));
  }

  /** Up to 7 modules every section is empty, so no module is visited at all. */
  lemma TinyGridNoVisit(n: nat)
    requires n <= 7
    ensures forall c :: c !in VisitOrder(Sections(n, n))
  {
    VisitOrderMembership(n);
  }

  /**
   * For a square matrix of at least 14 modules, a module is drawn exactly
   * when it lies outside the finder corners and its byte is exactly 1, and
   * no module is drawn twice.
   */
  lemma DataDrawnIffOn(m: ByteMatrix)
    requires IsSquare(m) && |m| >= 14
    ensures var drawn := OnCells(m, VisitOrder(SetOf(Sections(Width(m), Height(m)))));
      (forall c :: c in drawn <==>
         InGrid(|m|, c.x, c.y) && !InFinderCorner(|m|, c.x, c.y) && m[c.y][c.x] == 1) &&
      NoDuplicates(drawn)
  {
    var n := |m|;
    assert Width(m) == n;
    SectionsDistinct(n, n);
    var visit := VisitOrder(Sections(n, n));
    VisitOrderPartition(n);
    VisitOrderMembership(n);
    OnCellsSpec(m, visit);
    forall c
      ensures c in OnCells(m, visit) <==> InGrid(n, c.x, c.y) && !InFinderCorner(n, c.x, c.y) && m[c.y][c.x] == 1
    {
      assert InGrid(n, c.x, c.y) ==> (IsOn(m, c.x, c.y) <==> m[c.y][c.x] == 1);
    }
  }

  /** The i-th square drawn is the one for the i-th cell. */
  lemma {:induction false} DrawsAt(props: QrCodeProperties, size: Size, cells: seq<Cell>)
    ensures |Draws(props, size, cells)| == |cells|
    ensures forall i :: 0 <= i < |cells| ==> Draws(props, size, cells)[i] == CellDraw(props, size, cells[i])
  {
    if cells != [] {
      DrawsAt(props, size, cells[..|cells| - 1]);
    }
  }

  lemma ModuleOriginInjective(a: Cell, b: Cell, size: Size)
    requires size.width > 0.0 && size.height > 0.0
    requires ModuleOrigin(a.x, a.y, size) == ModuleOrigin(b.x, b.y, size)
    ensures a == b
  {
    assert (a.x - b.x) as real * size.width == 0.0;
    assert (a.y - b.y) as real * size.height == 0.0;
  }

  /** With cells of positive size, distinct modules are drawn as distinct squares. */
  lemma DrawsDistinct(props: QrCodeProperties, size: Size, cells: seq<Cell>)
    requires size.width > 0.0 && size.height > 0.0
    requires NoDuplicates(cells)
    ensures NoDuplicates(Draws(props, size, cells))
  {
    DrawsAt(props, size, cells);
    var log := Draws(props, size, cells);
    forall i, j | 0 <= i < j < |log|
      ensures log[i] != log[j]
    {
      if log[i] == log[j] {
        assert log[i].shape.contours[0] == RectContour(ModuleRect(cells[i].x, cells[i].y, size));
        assert log[j].shape.contours[0] == RectContour(ModuleRect(cells[j].x, cells[j].y, size));
        ModuleOriginInjective(cells[i], cells[j], size);
        assert false;
      }
    }
  }

  /** With cells of positive size, no two data draw calls are the same square. */
  lemma DataDrawsDistinct(props: QrCodeProperties, m: ByteMatrix, size: Size)
    requires IsSquare(m)
    requires size.width > 0.0 && size.height > 0.0
    ensures NoDuplicates(DataDraws(props, m, size))
  {
    var n := |m|;
    assert Width(m) == n;
    SectionsDistinct(n, n);
    VisitOrderMembership(n);
    OnCellsSpec(m, VisitOrder(Sections(n, n)));
    DrawsDistinct(props, size, OnCells(m, VisitOrder(Sections(n, n))));
  }

  /** A data square paints exactly the points of its module. */
  lemma CellDrawPaints(props: QrCodeProperties, size: Size, c: Cell, p: Offset)
    requires size.width >= 0.0 && size.height >= 0.0
    ensures Painted(CellDraw(props, size, c).shape, p) <==> ModuleRect(c.x, c.y, size).Contains(p)
  {
    var contours := CellDraw(props, size, c).shape.contours;
    assert contours[..0] == [];
    assert CoveringCount(contours, p) == if contours[0].Bounds().Contains(p) then 1 else 0;
  }
}
