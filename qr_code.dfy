/**
 * The QR composable: it refuses empty contents, has the encoder turn the
 * contents into a module matrix, derives the cell size from the canvas side
 * length, and draws the three finder patterns followed by the data modules.
 */
module QrCode {
  import opened Canvas
  import opened Sets
  import opened QrGeometry
  import opened FinderDrawing
  import opened DataDrawing

  datatype Option<T> = None | Some(value: T)

  /** Why no symbol is drawn: the contents are empty, or the encoder gave up. */
  datatype QrError = EmptyContents | EncodingFailed

  datatype Result<T> = Ok(value: T) | Err(error: QrError)

  /** Error-correction levels of ISO/IEC 18004, from about 7% to about 30% restoration. */
  datatype ErrorCorrectionLevel = L | M | Q | H

  /** The hints handed to the encoder. */
  datatype EncodeHints = EncodeHints(characterSet: string, margin: real, errorCorrection: ErrorCorrectionLevel)

  const QrErrorCorrectionLevel: ErrorCorrectionLevel := Q

  const QrEncodeHints: EncodeHints := EncodeHints("UTF-8", QrMarginPx, QrErrorCorrectionLevel)

  /**
   * The external encoder: the matrix for some contents at an error-correction
   * level, or `None` where the encoder throws.
   */
  type Encoder = (string, ErrorCorrectionLevel, EncodeHints) -> Option<ByteMatrix>

  /** What the encoder yields for `contents` with this renderer's settings. */
  function Encode(encode: Encoder, contents: string): Option<ByteMatrix>
  {
    encode(contents, QrErrorCorrectionLevel, QrEncodeHints)
  }

  /** Builds the symbol's matrix; empty contents are refused before the encoder runs. */
  function CreateQrCode(contents: string, encode: Encoder): (r: Result<ByteMatrix>)
    ensures contents == [] ==> r == Err(EmptyContents)
    ensures r.Ok? <==> contents != [] && Encode(encode, contents).Some?
    ensures r.Ok? ==> r.value == Encode(encode, contents).value
    ensures r.Err? ==> (r.error == EmptyContents <==> contents == [])
  {
    if contents == [] then Err(EmptyContents)
    else
      match Encode(encode, contents)
      case None => Err(EncodingFailed)
      case Some(matrix) => Ok(matrix)
  }

  /**
   * Everything drawn for matrix `m` on a canvas of side `sideLength`: the
   * finder patterns, then the data modules, both scaled by the same cell.
   */
  function Render(props: QrCodeProperties, m: ByteMatrix, sideLength: real): seq<DrawCall>
    requires IsSquare(m) && |m| > 0
  {
    var cell := CellSize(sideLength, Width(m), Height(m));
    FinderDraws(props, sideLength, FinderPatternSize(cell)) + DataDraws(props, m, cell)
  }

  /**
   * Draws the symbol for `contents` on a square canvas of side `sideLength`,
   * or reports why it cannot.
   */
  method QrCode(contents: string, encode: Encoder, sideLength: real, props: QrCodeProperties)
    returns (r: Result<seq<DrawCall>>)
    requires Encode(encode, contents).Some? ==> IsSquare(Encode(encode, contents).value) && |Encode(encode, contents).value| > 0
    ensures contents == [] ==> r == Err(EmptyContents)
    ensures r.Ok? <==> contents != [] && Encode(encode, contents).Some?
    ensures r.Err? ==> (r.error == EmptyContents <==> contents == [])
    ensures r.Ok? ==> r.value == Render(props, Encode(encode, contents).value, sideLength)
  {
    if contents == [] {
      return Err(EmptyContents);
    }
    var qrCode := CreateQrCode(contents, encode);
    if qrCode.Err? {
      return Err(qrCode.error);
    }
    var matrix := qrCode.value;
    assert Width(matrix) == |matrix|;
    var rowHeight := (sideLength - QrMarginPx * 2.0) / Height(matrix) as real;
    var columnWidth := (sideLength - QrMarginPx * 2.0) / Width(matrix) as real;
    ghost var cell := CellSize(sideLength, Width(matrix), Height(matrix));
    assert cell == Size(width := columnWidth, height := rowHeight);
    var finderPatternSize := Size(width := columnWidth * FinderPatternRowCount as real,
                                  height := rowHeight * FinderPatternRowCount as real);
    assert finderPatternSize == FinderPatternSize(cell);
    var finders := DrawQrCodeFinders(props, sideLength, finderPatternSize);
    var data := DrawAllQrCodeDataBits(props, matrix, Size(width := columnWidth, height := rowHeight));
    r := Ok(finders + data);
  }

  /** Every mark of the symbol is drawn in the foreground colour. */
  lemma RenderUsesForeground(props: QrCodeProperties, m: ByteMatrix, sideLength: real)
    requires IsSquare(m) && |m| > 0
    ensures forall call :: call in Render(props, m, sideLength) ==> call.color == props.foreground
  {
    var cell := CellSize(sideLength, Width(m), Height(m));
    var cells := OnCells(m, VisitOrder(SetOf(Sections(Width(m), Height(m)))));
    DrawsAt(props, cell, cells);
  }

  /**
   * The colour a reader sees at module (x, y): inside a finder corner, the
   * standard finder pattern at the module's place in the corner; elsewhere,
   * dark exactly when the matrix holds 1 there.
   */
  predicate ExpectedDark(m: ByteMatrix, x: int, y: int)
    requires IsSquare(m) && InGrid(|m|, x, y)
  {
    if InFinderCorner(|m|, x, y) then
      var o := FinderCornerOrigin(|m|, x, y);
      IsoFinderModuleDark(x - o.x, y - o.y)
    else
      m[y][x] == 1
  }

  /** Whether some draw call of `log` paints `p`. */
  predicate PaintedBy(log: seq<DrawCall>, p: Offset)
  {
    exists i :: 0 <= i < |log| && Painted(log[i].shape, p)
  }

  /**
   * The picture: for a square matrix of at least 14 modules a side (every
   * QR symbol has at least 21) on a canvas wider than both margins, a point
   * of module (x, y) is painted exactly when that module should be dark,
   * with the three corners showing the finder pattern whatever the matrix
   * holds there.
   */
  lemma RenderShowsSymbol(props: QrCodeProperties, m: ByteMatrix, sideLength: real, x: int, y: int, p: Offset)
    requires IsSquare(m) && |m| >= 14
    requires sideLength > QrMarginPx * 2.0
    requires InGrid(|m|, x, y)
    requires ModuleRect(x, y, CellSize(sideLength, |m|, |m|)).Contains(p)
    ensures PaintedBy(Render(props, m, sideLength), p) <==> ExpectedDark(m, x, y)
  {
    var n := |m|;
    assert Width(m) == n && Height(m) == n;
    var cell := CellSize(sideLength, n, n);
    var size := FinderPatternSize(cell);
    var finders := FinderDraws(props, sideLength, size);
    var drawn := OnCells(m, VisitOrder(SetOf(Sections(n, n))));
    var data := Draws(props, cell, drawn);
    assert Render(props, m, sideLength) == finders + data;
    FinderPaint(props, m, sideLength, x, y, p);
    DataPaint(props, m, sideLength, x, y, p);
    PaintedByConcat(finders, data, p);
  }

  /** Whether `p` lies inside the symbol area, the canvas less the quiet zone on every side. */
  predicate InSymbolArea(sideLength: real, p: Offset)
  {
    QrMarginPx <= p.x < sideLength - QrMarginPx && QrMarginPx <= p.y < sideLength - QrMarginPx
  }

  /**
   * The quiet zone stays blank: for a square matrix of at least 7 modules a
   * side on a canvas wider than both margins, nothing is painted within 16
   * pixels of the canvas edge.
   */
  lemma QuietZoneBlank(props: QrCodeProperties, m: ByteMatrix, sideLength: real, p: Offset)
    requires IsSquare(m) && |m| >= 7
    requires sideLength > QrMarginPx * 2.0
    requires !InSymbolArea(sideLength, p)
    ensures !PaintedBy(Render(props, m, sideLength), p)
  {
    var n := |m|;
    assert Width(m) == n && Height(m) == n;
    var cell := CellSize(sideLength, n, n);
    var finders := FinderDraws(props, sideLength, FinderPatternSize(cell));
    var data := DataDraws(props, m, cell);
    assert Render(props, m, sideLength) == finders + data;
    FinderPassInside(props, sideLength, n, p);
    DataPassInside(props, m, sideLength, p);
    PaintedByConcat(finders, data, p);
  }

  /** The finder pass paints only inside the symbol area once the symbol is at least 7 modules a side. */
  lemma FinderPassInside(props: QrCodeProperties, sideLength: real, n: nat, p: Offset)
    requires n >= FinderPatternRowCount && sideLength > QrMarginPx * 2.0
    ensures var size := FinderPatternSize(CellSize(sideLength, n, n));
      PaintedBy(FinderDraws(props, sideLength, size), p) ==> InSymbolArea(sideLength, p)
  {
    FinderSizeFits(sideLength, n);
    FinderDrawsInside(props, sideLength, FinderPatternSize(CellSize(sideLength, n, n)), p);
  }

  /** Finders whose size fits between the two margins paint only inside the symbol area. */
  lemma FinderDrawsInside(props: QrCodeProperties, sideLength: real, size: Size, p: Offset)
    requires 0.0 <= size.width <= sideLength - QrMarginPx * 2.0
    requires 0.0 <= size.height <= sideLength - QrMarginPx * 2.0
    ensures PaintedBy(FinderDraws(props, sideLength, size), p) ==> InSymbolArea(sideLength, p)
  {
    var finders := FinderDraws(props, sideLength, size);
    if PaintedBy(finders, p) {
      var i :| 0 <= i < |finders| && Painted(finders[i].shape, p);
      var a := FinderAnchors(sideLength, size)[i];
      assert finders[i].shape == FinderShape(a, size, ZeroRadius);
      FinderPaintWithinBox(a, size, ZeroRadius, p);
      AnchorBoxInside(sideLength, size, a, p);
    }
  }

  /** From 7 modules a side, a finder fits between the two margins on both axes. */
  lemma FinderSizeFits(sideLength: real, n: nat)
    requires n >= FinderPatternRowCount && sideLength > QrMarginPx * 2.0
    ensures var size := FinderPatternSize(CellSize(sideLength, n, n));
      0.0 <= size.width <= sideLength - QrMarginPx * 2.0 &&
      0.0 <= size.height <= sideLength - QrMarginPx * 2.0
  {
    var cell := CellSize(sideLength, n, n);
    CellSizeFills(sideLength, n, n);
    ScaledWithin(7, n, cell.width);
    ScaledWithin(7, n, cell.height);
  }

  /** The box of a listed anchor, for a finder that fits between the margins, lies inside the symbol area. */
  lemma AnchorBoxInside(sideLength: real, size: Size, a: Offset, p: Offset)
    requires a in FinderAnchorList(sideLength, size)
    requires 0.0 <= size.width <= sideLength - QrMarginPx * 2.0
    requires 0.0 <= size.height <= sideLength - QrMarginPx * 2.0
    ensures OuterRect(a, size).Contains(p) ==> InSymbolArea(sideLength, p)
  {
  }

  /** The data pass paints only inside the symbol area. */
  lemma DataPassInside(props: QrCodeProperties, m: ByteMatrix, sideLength: real, p: Offset)
    requires IsSquare(m) && |m| > 0
    requires sideLength > QrMarginPx * 2.0
    ensures PaintedBy(DataDraws(props, m, CellSize(sideLength, |m|, |m|)), p) ==> InSymbolArea(sideLength, p)
  {
    var n := |m|;
    assert Width(m) == n && Height(m) == n;
    var cell := CellSize(sideLength, n, n);
    CellSizeFills(sideLength, n, n);
    SectionsDistinct(n, n);
    var visit := VisitOrder(Sections(n, n));
    var drawn := OnCells(m, visit);
    var data := Draws(props, cell, drawn);
    assert DataDraws(props, m, cell) == data;
    if PaintedBy(data, p) {
      var i :| 0 <= i < |data| && Painted(data[i].shape, p);
      DrawsAt(props, cell, drawn);
      var c := drawn[i];
      OnCellsSpec(m, visit);
      VisitOrderInGrid(n);
      CellDrawPaints(props, cell, c, p);
      ModuleInsideArea(sideLength, n, c.x, c.y, p);
    }
  }

  /** Every module of the grid lies inside the symbol area. */
  lemma ModuleInsideArea(sideLength: real, n: nat, x: int, y: int, p: Offset)
    requires InGrid(n, x, y) && sideLength > QrMarginPx * 2.0
    requires ModuleRect(x, y, CellSize(sideLength, n, n)).Contains(p)
    ensures InSymbolArea(sideLength, p)
  {
    var cell := CellSize(sideLength, n, n);
    CellSizeFills(sideLength, n, n);
    BandInside(x, n, cell.width, p.x);
    BandInside(y, n, cell.height, p.y);
  }

  /** A coordinate in the band of module i of n lies between the margin and the margin plus n cells. */
  lemma BandInside(i: int, n: int, w: real, v: real)
    requires 0 <= i < n && w >= 0.0
    requires QrMarginPx + i as real * w <= v < QrMarginPx + i as real * w + w
    ensures QrMarginPx <= v < QrMarginPx + n as real * w
  {
    ScaledWithin(0, i, w);
    ScaledWithin(i + 1, n, w);
    assert (i + 1) as real * w == i as real * w + w;
  }

  /** Scaling by a non-negative factor keeps the order of the scaled counts. */
  lemma ScaledWithin(a: int, b: int, w: real)
    requires a <= b && w >= 0.0
    ensures a as real * w <= b as real * w
  {
    assert b as real * w - a as real * w == (b - a) as real * w;
  }

  /** A point is painted by two logs drawn one after the other exactly when either log paints it. */
  lemma PaintedByConcat(first: seq<DrawCall>, second: seq<DrawCall>, p: Offset)
    ensures PaintedBy(first + second, p) <==> PaintedBy(first, p) || PaintedBy(second, p)
  {
    var log := first + second;
    if PaintedBy(log, p) {
      var i :| 0 <= i < |log| && Painted(log[i].shape, p);
      if i < |first| {
        assert PaintedBy(first, p);
      } else {
        assert second[i - |first|] == log[i];
        assert PaintedBy(second, p);
      }
    }
    if PaintedBy(first, p) {
      var i :| 0 <= i < |first| && Painted(first[i].shape, p);
      assert log[i] == first[i];
    }
    if PaintedBy(second, p) {
      var i :| 0 <= i < |second| && Painted(second[i].shape, p);
      assert log[|first| + i] == second[i];
    }
  }

  /**
   * For a symbol of more than 7 modules a side on a canvas whose side is not
   * exactly both margins, the three finders are drawn, in anchor order.
   */
  lemma SymbolFinderDraws(props: QrCodeProperties, sideLength: real, n: nat)
    requires n > FinderPatternRowCount && sideLength != QrMarginPx * 2.0
    ensures var size := FinderPatternSize(CellSize(sideLength, n, n));
      var anchors := FinderAnchorList(sideLength, size);
      FinderDraws(props, sideLength, size) ==
        [DrawPath(props.foreground, FinderShape(anchors[0], size, ZeroRadius)),
         DrawPath(props.foreground, FinderShape(anchors[1], size, ZeroRadius)),
         DrawPath(props.foreground, FinderShape(anchors[2], size, ZeroRadius))]
  {
    FinderAnchorCount(sideLength, n);
  }

  /** Finder k of the symbol paints a point of module (x, y) exactly when (x, y) is in corner k and the pattern is dark there. */
  lemma SymbolFinderPaints(sideLength: real, n: nat, x: int, y: int, k: nat, p: Offset)
    requires n >= 14 && sideLength > QrMarginPx * 2.0
    requires InGrid(n, x, y) && k < 3
    requires ModuleRect(x, y, CellSize(sideLength, n, n)).Contains(p)
    ensures var size := FinderPatternSize(CellSize(sideLength, n, n));
      Painted(FinderShape(FinderAnchorList(sideLength, size)[k], size, ZeroRadius), p) <==>
        InFinderCorner(n, x, y) && k == FinderCornerIndex(n, x, y) &&
        var o := FinderCornerOrigin(n, x, y);
        IsoFinderModuleDark(x - o.x, y - o.y)
  {
    var cell := CellSize(sideLength, n, n);
    var o := FinderBlockOrigin(n, k);
    FinderAnchorsOnModuleGrid(sideLength, n);
    assert FinderAnchorList(sideLength, FinderPatternSize(cell))[k] == ModuleOrigin(o.x, o.y, cell);
    FinderPaintsModule(cell, ZeroRadius, o, x, y, p);
    FinderBlockOfCorner(n, x, y, k);
  }

  /** The finder draws paint a point of module (x, y) exactly when it lies in a corner and the pattern is dark there. */
  lemma FinderPaint(props: QrCodeProperties, m: ByteMatrix, sideLength: real, x: int, y: int, p: Offset)
    requires IsSquare(m) && |m| >= 14
    requires sideLength > QrMarginPx * 2.0
    requires InGrid(|m|, x, y)
    requires ModuleRect(x, y, CellSize(sideLength, |m|, |m|)).Contains(p)
    ensures var size := FinderPatternSize(CellSize(sideLength, |m|, |m|));
      PaintedBy(FinderDraws(props, sideLength, size), p) <==>
        InFinderCorner(|m|, x, y) &&
        var o := FinderCornerOrigin(|m|, x, y);
        IsoFinderModuleDark(x - o.x, y - o.y)
  {
    var n := |m|;
    var size := FinderPatternSize(CellSize(sideLength, n, n));
    var finders := FinderDraws(props, sideLength, size);
    SymbolFinderDraws(props, sideLength, n);
    SymbolFinderPaints(sideLength, n, x, y, 0, p);
    SymbolFinderPaints(sideLength, n, x, y, 1, p);
    SymbolFinderPaints(sideLength, n, x, y, 2, p);
    assert PaintedBy(finders, p) <==>
      Painted(finders[0].shape, p) || Painted(finders[1].shape, p) || Painted(finders[2].shape, p);
  }

  /** The data draws paint a point of module (x, y) exactly when the module is outside the corners and holds 1. */
  lemma DataPaint(props: QrCodeProperties, m: ByteMatrix, sideLength: real, x: int, y: int, p: Offset)
    requires IsSquare(m) && |m| >= 14
    requires sideLength > QrMarginPx * 2.0
    requires InGrid(|m|, x, y)
    requires ModuleRect(x, y, CellSize(sideLength, |m|, |m|)).Contains(p)
    ensures var cell := CellSize(sideLength, |m|, |m|);
      PaintedBy(DataDraws(props, m, cell), p) <==> !InFinderCorner(|m|, x, y) && m[y][x] == 1
  {
    var n := |m|;
    assert Width(m) == n && Height(m) == n;
    var cell := CellSize(sideLength, n, n);
    var drawn := OnCells(m, VisitOrder(SetOf(Sections(n, n))));
    DataDrawnIffOn(m);
    DrawsPaintModule(props, cell, drawn, x, y, p);
  }

  /**
   * With cells of positive size, the draws for a list of cells paint a
   * point of module (x, y) exactly when (x, y) is in the list.
   */
  lemma DrawsPaintModule(props: QrCodeProperties, cell: Size, drawn: seq<Cell>, x: int, y: int, p: Offset)
    requires cell.width > 0.0 && cell.height > 0.0
    requires ModuleRect(x, y, cell).Contains(p)
    ensures PaintedBy(Draws(props, cell, drawn), p) <==> Cell(x, y) in drawn
  {
    var data := Draws(props, cell, drawn);
    DrawsAt(props, cell, drawn);
    if PaintedBy(data, p) {
      var i :| 0 <= i < |data| && Painted(data[i].shape, p);
      var c := drawn[i];
      CellDrawPaints(props, cell, c, p);
      ModuleRectsDisjoint(c.x, c.y, x, y, cell, p);
    }
    if Cell(x, y) in drawn {
      var i :| 0 <= i < |drawn| && drawn[i] == Cell(x, y);
      CellDrawPaints(props, cell, Cell(x, y), p);
      assert Painted(data[i].shape, p);
    }
  }
}
