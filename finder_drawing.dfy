/**
 * The three finder patterns: where they are anchored, the nested
 * rectangles each one is built from, and which points the even-odd fill of
 * those rectangles paints.
 */
module FinderDrawing {
  import opened Canvas
  import opened Sets
  import opened QrGeometry

  // Ratios of each inner rectangle to the finder's outer extent.
  const InteriorExteriorShapeRatio: real := 3.0 / FinderPatternRowCount as real
  const InteriorExteriorOffsetRatio: real := 2.0 / FinderPatternRowCount as real
  const InteriorExteriorShapeCornerRadius: real := 0.12
  const InteriorBackgroundExteriorShapeRatio: real := 5.0 / FinderPatternRowCount as real
  const InteriorBackgroundExteriorOffsetRatio: real := 1.0 / FinderPatternRowCount as real
  const InteriorBackgroundExteriorShapeCornerRadius: real := 0.5

  /** Top-left, top-right and bottom-left anchors, in the order they are listed. */
  function FinderAnchorList(sideLength: real, finderPatternSize: Size): seq<Offset>
  {
    [Offset(QrMarginPx, QrMarginPx),
     Offset(sideLength - (QrMarginPx + finderPatternSize.width), QrMarginPx),
     Offset(QrMarginPx, sideLength - (QrMarginPx + finderPatternSize.height))]
  }

  /** The anchors as the set that is iterated: coinciding anchors collapse into one. */
  function FinderAnchors(sideLength: real, finderPatternSize: Size): seq<Offset>
  {
    SetOf(FinderAnchorList(sideLength, finderPatternSize))
  }

  /** The finder's bounding box, which is also its outer rectangle. */
  function OuterRect(topLeft: Offset, finderPatternSize: Size): Rect
  {
    Rect(topLeft, finderPatternSize)
  }

  /** The rectangle that the even-odd rule turns into the light ring. */
  function MiddleRect(topLeft: Offset, finderPatternSize: Size): Rect
  {
    var innerBackgroundOffset := Offset(finderPatternSize.width * InteriorBackgroundExteriorOffsetRatio,
                                        finderPatternSize.height * InteriorBackgroundExteriorOffsetRatio);
    Rect(topLeft.Plus(innerBackgroundOffset), finderPatternSize.Times(InteriorBackgroundExteriorShapeRatio))
  }

  /** The dark centre square. */
  function InnerRect(topLeft: Offset, finderPatternSize: Size): Rect
  {
    var innerRectOffset := Offset(finderPatternSize.width * InteriorExteriorOffsetRatio,
                                  finderPatternSize.height * InteriorExteriorOffsetRatio);
    Rect(topLeft.Plus(innerRectOffset), finderPatternSize.Times(InteriorExteriorShapeRatio))
  }

  /**
   * One finder pattern: outer, middle and inner rounded rectangles in one
   * even-odd path. With square corners passed in, every contour is square.
   */
  function FinderShape(topLeft: Offset, finderPatternSize: Size, cornerRadius: CornerRadius): (s: Shape)
    ensures s.fillType == EvenOdd && |s.contours| == 3
    ensures s.contours[0].RoundRectContour? && s.contours[1].RoundRectContour? && s.contours[2].RoundRectContour?
    ensures cornerRadius == ZeroRadius ==>
      s.contours[0].roundRect.radius == ZeroRadius && s.contours[1].roundRect.radius == ZeroRadius &&
      s.contours[2].roundRect.radius == ZeroRadius
  {
    Shape(EvenOdd,
          [RoundRectContour(RoundRect(OuterRect(topLeft, finderPatternSize), cornerRadius)),
           RoundRectContour(RoundRect(MiddleRect(topLeft, finderPatternSize),
                                      cornerRadius.Times(InteriorBackgroundExteriorShapeCornerRadius))),
           RoundRectContour(RoundRect(InnerRect(topLeft, finderPatternSize),
                                      cornerRadius.Times(InteriorExteriorShapeCornerRadius)))])
  }

  /** The draw calls for all finder patterns, one per distinct anchor, all with square corners. */
  function FinderDraws(props: QrCodeProperties, sideLength: real, finderPatternSize: Size): (log: seq<DrawCall>)
  {
    var anchors := FinderAnchors(sideLength, finderPatternSize);
    seq(|anchors|, i requires 0 <= i < |anchors| =>
      DrawPath(props.foreground, FinderShape(anchors[i], finderPatternSize, ZeroRadius)))
  }

  /** Builds one finder's path by appending its three rectangles and draws it in the foreground colour. */
  method DrawQrCodeFinder(props: QrCodeProperties, topLeft: Offset, finderPatternSize: Size,
                          cornerRadius: CornerRadius) returns (call: DrawCall)
    ensures call.color == props.foreground
    ensures call.shape == FinderShape(topLeft, finderPatternSize, cornerRadius)
  {
    var path := new Path.NewPath();
    var outer := RoundRect(Rect(topLeft, finderPatternSize), cornerRadius);
    path.AddRoundRect(outer);
    assert path.contours == [RoundRectContour(outer)];
    var innerBackgroundOffset := Offset(finderPatternSize.width * InteriorBackgroundExteriorOffsetRatio,
                                        finderPatternSize.height * InteriorBackgroundExteriorOffsetRatio);
    path.AddRoundRect(RoundRect(Rect(topLeft.Plus(innerBackgroundOffset),
                                     finderPatternSize.Times(InteriorBackgroundExteriorShapeRatio)),
                                cornerRadius.Times(InteriorBackgroundExteriorShapeCornerRadius)));
    var innerRectOffset := Offset(finderPatternSize.width * InteriorExteriorOffsetRatio,
                                  finderPatternSize.height * InteriorExteriorOffsetRatio);
    path.AddRoundRect(RoundRect(Rect(topLeft.Plus(innerRectOffset),
                                     finderPatternSize.Times(InteriorExteriorShapeRatio)),
                                cornerRadius.Times(InteriorExteriorShapeCornerRadius)));
    var shape := FinderShape(topLeft, finderPatternSize, cornerRadius);
    assert shape.contours[0] == path.contours[0];
    assert shape.contours[1] == path.contours[1];
    assert shape.contours[2] == path.contours[2];
    assert path.contours == shape.contours;
    call := DrawPath(props.foreground, path.Snapshot());
  }

  /** Draws a finder pattern at every distinct anchor, in anchor order, with square corners. */
  method DrawQrCodeFinders(props: QrCodeProperties, sideLength: real, finderPatternSize: Size)
    returns (log: seq<DrawCall>)
    ensures log == FinderDraws(props, sideLength, finderPatternSize)
    ensures |log| <= 3
  {
    var anchors := SetOf(FinderAnchorList(sideLength, finderPatternSize));
    log := [];
    for i := 0 to |anchors|
      invariant |log| == i
      invariant forall k :: 0 <= k < i ==>
        log[k] == DrawPath(props.foreground, FinderShape(anchors[k], finderPatternSize, ZeroRadius))
    {
      var call := DrawQrCodeFinder(props, anchors[i], finderPatternSize, ZeroRadius);
      log := log + [call];
    }
  }

  /**
   * The rectangles nest with a gap of one seventh of the extent on every
   * side: the middle one is 5/7 and the inner one 3/7 of the extent.
   */
  lemma FinderRectsNested(topLeft: Offset, finderPatternSize: Size)
    ensures var outer, middle, inner := OuterRect(topLeft, finderPatternSize),
                                        MiddleRect(topLeft, finderPatternSize),
                                        InnerRect(topLeft, finderPatternSize);
      var gapX, gapY := finderPatternSize.width / 7.0, finderPatternSize.height / 7.0;
      middle.size == Size(finderPatternSize.width * 5.0 / 7.0, finderPatternSize.height * 5.0 / 7.0) &&
      inner.size == Size(finderPatternSize.width * 3.0 / 7.0, finderPatternSize.height * 3.0 / 7.0) &&
      middle.Left() - outer.Left() == gapX && outer.Right() - middle.Right() == gapX &&
      middle.Top() - outer.Top() == gapY && outer.Bottom() - middle.Bottom() == gapY &&
      inner.Left() - middle.Left() == gapX && middle.Right() - inner.Right() == gapX &&
      inner.Top() - middle.Top() == gapY && middle.Bottom() - inner.Bottom() == gapY
  {
  }

  /**
   * Even-odd filling of the three rectangles paints exactly the outer ring
   * (inside the outer rectangle but not the middle one) and the centre
   * square; the gap between them, and everything outside, stays unpainted.
   */
  lemma FinderEvenOddRegions(topLeft: Offset, finderPatternSize: Size, cornerRadius: CornerRadius, p: Offset)
    requires finderPatternSize.width >= 0.0 && finderPatternSize.height >= 0.0
    ensures Painted(FinderShape(topLeft, finderPatternSize, cornerRadius), p) <==>
      (OuterRect(topLeft, finderPatternSize).Contains(p) && !MiddleRect(topLeft, finderPatternSize).Contains(p)) ||
      InnerRect(topLeft, finderPatternSize).Contains(p)
  {
    var s := FinderShape(topLeft, finderPatternSize, cornerRadius);
    var outer, middle, inner := OuterRect(topLeft, finderPatternSize),
                                MiddleRect(topLeft, finderPatternSize),
                                InnerRect(topLeft, finderPatternSize);
    FinderRectsNested(topLeft, finderPatternSize);
    assert inner.Contains(p) ==> middle.Contains(p);
    assert middle.Contains(p) ==> outer.Contains(p);
    CoveringCountOfThree(s.contours, p);
  }

  lemma CoveringCountOfThree(contours: seq<Contour>, p: Offset)
    requires |contours| == 3
    ensures CoveringCount(contours, p) ==
      (if contours[0].Bounds().Contains(p) then 1 else 0) +
      (if contours[1].Bounds().Contains(p) then 1 else 0) +
      (if contours[2].Bounds().Contains(p) then 1 else 0)
  {
    var first, rest := contours[..1], contours[1..];
    assert contours == first + rest;
    CoveringCountConcat(first, rest, p);
    assert first[..0] == [];
    assert rest[..1][..0] == [];
    assert rest == rest[..1] + [rest[1]];
    CoveringCountConcat(rest[..1], [rest[1]], p);
    assert [rest[1]][..0] == [];
  }

  /**
   * The finder pattern of ISO/IEC 18004 section 6.3.3, module by module: a
   * dark 7 x 7 ring, a light 5 x 5 ring and a dark 3 x 3 centre.
   */
  predicate IsoFinderModuleDark(i: int, j: int)
    requires 0 <= i < 7 && 0 <= j < 7
  {
    i == 0 || i == 6 || j == 0 || j == 6 || (2 <= i <= 4 && 2 <= j <= 4)
  }

  /** Where a coordinate falls, within module `i` of a seven-module span, relative to the three nested intervals. */
  lemma AxisBands(start: real, w: real, i: int, v: real)
    requires w > 0.0 && 0 <= i < 7
    requires InBand(start, i, w, v)
    ensures start <= v < start + w * 7.0
    ensures start + w <= v < start + w * 6.0 <==> 1 <= i <= 5
    ensures start + w * 2.0 <= v < start + w * 5.0 <==> 2 <= i <= 4
  {
    // One case per module index, so each band's bounds are linear in w.
    if i == 0 {
    } else if i == 1 {
    } else if i == 2 {
    } else if i == 3 {
    } else if i == 4 {
    } else if i == 5 {
    } else {
    }
  }

  /** The edges of the three rectangles, in cells from the finder's top-left corner. */
  lemma FinderEdges(topLeft: Offset, cell: Size)
    ensures var size := FinderPatternSize(cell);
      var outer, middle, inner := OuterRect(topLeft, size), MiddleRect(topLeft, size), InnerRect(topLeft, size);
      outer.Left() == topLeft.x && outer.Right() == topLeft.x + cell.width * 7.0 &&
      middle.Left() == topLeft.x + cell.width && middle.Right() == topLeft.x + cell.width * 6.0 &&
      inner.Left() == topLeft.x + cell.width * 2.0 && inner.Right() == topLeft.x + cell.width * 5.0 &&
      outer.Top() == topLeft.y && outer.Bottom() == topLeft.y + cell.height * 7.0 &&
      middle.Top() == topLeft.y + cell.height && middle.Bottom() == topLeft.y + cell.height * 6.0 &&
      inner.Top() == topLeft.y + cell.height * 2.0 && inner.Bottom() == topLeft.y + cell.height * 5.0
  {
  }

  /** Whether `p` lies in module (i, j) of the finder whose top-left corner is `topLeft`. */
  predicate InFinderModule(topLeft: Offset, cell: Size, i: int, j: int, p: Offset)
  {
    InBand(topLeft.x, i, cell.width, p.x) && InBand(topLeft.y, j, cell.height, p.y)
  }

  /** Whether v lies in the i-th band of width w after start. */
  predicate InBand(start: real, i: int, w: real, v: real)
  {
    start + i as real * w <= v < start + (i + 1) as real * w
  }

  /**
   * With cells of positive size, every point of module (i, j) of a finder
   * is painted exactly when that module is dark in the standard pattern,
   * so the rendered finder reads 1:1:3:1:1 across its centre.
   */
  lemma FinderMatchesIsoPattern(topLeft: Offset, cell: Size, cornerRadius: CornerRadius, i: int, j: int, p: Offset)
    requires cell.width > 0.0 && cell.height > 0.0
    requires 0 <= i < 7 && 0 <= j < 7
    requires InFinderModule(topLeft, cell, i, j, p)
    ensures Painted(FinderShape(topLeft, FinderPatternSize(cell), cornerRadius), p) <==> IsoFinderModuleDark(i, j)
  {
    var size := FinderPatternSize(cell);
    FinderModuleInRects(topLeft, cell, i, j, p);
    FinderEvenOddRegions(topLeft, size, cornerRadius, p);
  }

  /** Which of the three rectangles hold a point of module (i, j). */
  lemma FinderModuleInRects(topLeft: Offset, cell: Size, i: int, j: int, p: Offset)
    requires cell.width > 0.0 && cell.height > 0.0
    requires 0 <= i < 7 && 0 <= j < 7
    requires InFinderModule(topLeft, cell, i, j, p)
    ensures var size := FinderPatternSize(cell);
      OuterRect(topLeft, size).Contains(p) &&
      (MiddleRect(topLeft, size).Contains(p) <==> 1 <= i <= 5 && 1 <= j <= 5) &&
      (InnerRect(topLeft, size).Contains(p) <==> 2 <= i <= 4 && 2 <= j <= 4)
  {
    FinderColumnInRects(topLeft, cell, i, p);
    FinderRowInRects(topLeft, cell, j, p);
  }

  lemma FinderColumnInRects(topLeft: Offset, cell: Size, i: int, p: Offset)
    requires cell.width > 0.0 && 0 <= i < 7
    requires InBand(topLeft.x, i, cell.width, p.x)
    ensures var size := FinderPatternSize(cell);
      var outer, middle, inner := OuterRect(topLeft, size), MiddleRect(topLeft, size), InnerRect(topLeft, size);
      (outer.Left() <= p.x < outer.Right()) &&
      (middle.Left() <= p.x < middle.Right() <==> 1 <= i <= 5) &&
      (inner.Left() <= p.x < inner.Right() <==> 2 <= i <= 4)
  {
    FinderEdges(topLeft, cell);
    AxisBands(topLeft.x, cell.width, i, p.x);
  }

  lemma FinderRowInRects(topLeft: Offset, cell: Size, j: int, p: Offset)
    requires cell.height > 0.0 && 0 <= j < 7
    requires InBand(topLeft.y, j, cell.height, p.y)
    ensures var size := FinderPatternSize(cell);
      var outer, middle, inner := OuterRect(topLeft, size), MiddleRect(topLeft, size), InnerRect(topLeft, size);
      (outer.Top() <= p.y < outer.Bottom()) &&
      (middle.Top() <= p.y < middle.Bottom() <==> 1 <= j <= 5) &&
      (inner.Top() <= p.y < inner.Bottom() <==> 2 <= j <= 4)
  {
    FinderEdges(topLeft, cell);
    AxisBands(topLeft.y, cell.height, j, p.y);
  }

  /**
   * On an n x n grid the three listed anchors are the canvas positions of
   * modules (0, 0), (n-7, 0) and (0, n-7), and each finder box ends exactly
   * seven modules further on: finders sit on module columns and rows 0..6
   * and n-7..n-1.
   */
  lemma FinderAnchorsOnModuleGrid(sideLength: real, n: nat)
    requires n > 0
    ensures var cell := CellSize(sideLength, n, n);
      var size := FinderPatternSize(cell);
      var anchors := FinderAnchorList(sideLength, size);
      anchors == [ModuleOrigin(0, 0, cell), ModuleOrigin(n - 7, 0, cell), ModuleOrigin(0, n - 7, cell)] &&
      anchors[0].Plus(Offset(size.width, size.height)) == ModuleOrigin(7, 7, cell) &&
      anchors[1].Plus(Offset(size.width, size.height)) == ModuleOrigin(n, 7, cell) &&
      anchors[2].Plus(Offset(size.width, size.height)) == ModuleOrigin(7, n, cell)
  {
    var cell := CellSize(sideLength, n, n);
    var size := FinderPatternSize(cell);
    var anchors := FinderAnchorList(sideLength, size);
    assert sideLength == QrMarginPx * 2.0 + n as real * cell.width;
    assert sideLength == QrMarginPx * 2.0 + n as real * cell.height;
    assert (n - 7) as real * cell.width == n as real * cell.width - 7.0 * cell.width;
    assert (n - 7) as real * cell.height == n as real * cell.height - 7.0 * cell.height;
    assert anchors[0] == ModuleOrigin(0, 0, cell);
    assert anchors[1] == ModuleOrigin(n - 7, 0, cell);
    assert anchors[2] == ModuleOrigin(0, n - 7, cell);
    assert anchors[0].Plus(Offset(size.width, size.height)) == ModuleOrigin(7, 7, cell);
    assert anchors[1].Plus(Offset(size.width, size.height)) == ModuleOrigin(n, 7, cell);
    assert anchors[2].Plus(Offset(size.width, size.height)) == ModuleOrigin(7, n, cell);
  }

  /**
   * Unless the side length is exactly both margins (cells of size 0), the
   * anchors of an n x n symbol are three distinct points unless n is 7,
   * when all three coincide and a single finder is drawn.
   */
  lemma FinderAnchorCount(sideLength: real, n: nat)
    requires n > 0 && sideLength != QrMarginPx * 2.0
    ensures var size := FinderPatternSize(CellSize(sideLength, n, n));
      (n != 7 ==> FinderAnchors(sideLength, size) == FinderAnchorList(sideLength, size)) &&
      (n == 7 ==> FinderAnchors(sideLength, size) == [Offset(QrMarginPx, QrMarginPx)])
  {
    var cell := CellSize(sideLength, n, n);
    var size := FinderPatternSize(cell);
    var list := FinderAnchorList(sideLength, size);
    FinderAnchorsOnModuleGrid(sideLength, n);
    var shift := (n - 7) as real * cell.width;
    if n != 7 {
      assert shift != 0.0 by {
        assert cell.width != 0.0;
        if n < 7 {
          assert (7 - n) as real * cell.width != 0.0;
        } else {
          assert (n - 7) as real * cell.width != 0.0;
        }
      }
      assert list[0] != list[1] && list[0] != list[2] && list[1] != list[2];
      assert NoDuplicates(list);
    } else {
      var a := list[0];
      assert list == [a, a, a];
      assert [a, a][..1] == [a] && [a, a, a][..2] == [a, a];
      assert SetOf([a]) == [a];
      assert SetOf([a, a]) == [a];
    }
  }

  /** For n of at least 14 (every QR symbol) the three finder boxes share no point. */
  lemma FinderBoxesDisjoint(sideLength: real, n: nat, p: Offset)
    requires n >= 14 && sideLength > QrMarginPx * 2.0
    ensures var size := FinderPatternSize(CellSize(sideLength, n, n));
      var anchors := FinderAnchorList(sideLength, size);
      var topLeft, topRight, bottomLeft :=
        OuterRect(anchors[0], size), OuterRect(anchors[1], size), OuterRect(anchors[2], size);
      !(topLeft.Contains(p) && topRight.Contains(p)) &&
      !(topLeft.Contains(p) && bottomLeft.Contains(p)) &&
      !(topRight.Contains(p) && bottomLeft.Contains(p))
  {
    var cell := CellSize(sideLength, n, n);
    FinderAnchorsOnModuleGrid(sideLength, n);
    assert (n - 14) as real * cell.width >= 0.0;
    assert (n - 7) as real * cell.width >= 7.0 * cell.width;
  }

  /** The top-left module of finder block k: 0 top-left, 1 top-right, 2 bottom-left. */
  function FinderBlockOrigin(n: int, k: nat): Cell
    requires k < 3
  {
    [Cell(0, 0), Cell(n - FinderPatternRowCount, 0), Cell(0, n - FinderPatternRowCount)][k]
  }

  /** Whether module (x, y) is one of the 7 x 7 modules starting at module o. */
  predicate InFinderBlock(o: Cell, x: int, y: int)
  {
    o.x <= x < o.x + FinderPatternRowCount && o.y <= y < o.y + FinderPatternRowCount
  }

  /** Which of the three finder corners holds module (x, y). */
  function FinderCornerIndex(n: int, x: int, y: int): (k: nat)
    requires InFinderCorner(n, x, y)
    ensures k < 3 && InFinderBlock(FinderBlockOrigin(n, k), x, y)
  {
    if x < FinderPatternRowCount && y < FinderPatternRowCount then 0
    else if y < FinderPatternRowCount then 1
    else 2
  }

  /** The top-left module of the finder corner that holds module (x, y). */
  function FinderCornerOrigin(n: int, x: int, y: int): (o: Cell)
    requires InFinderCorner(n, x, y)
    ensures 0 <= x - o.x < FinderPatternRowCount && 0 <= y - o.y < FinderPatternRowCount
  {
    FinderBlockOrigin(n, FinderCornerIndex(n, x, y))
  }

  /**
   * For n of at least 14 the three blocks do not overlap, so a grid module
   * is in block k exactly when it is in a finder corner and that corner is k.
   */
  lemma FinderBlockOfCorner(n: int, x: int, y: int, k: nat)
    requires n >= 14 && InGrid(n, x, y) && k < 3
    ensures InFinderBlock(FinderBlockOrigin(n, k), x, y) <==> InFinderCorner(n, x, y) && k == FinderCornerIndex(n, x, y)
  {
  }

  /**
   * One axis of a finder box: a module band at index x, o <= x < o + 7,
   * lies in the span of the box that starts at module o, at local index x - o.
   */
  lemma AxisInFinderBox(margin: real, w: real, o: int, x: int, i: int, start: real, lo: real, v: real)
    requires w > 0.0 && o <= x < o + FinderPatternRowCount && i == x - o
    requires start == margin + o as real * w && lo == margin + x as real * w
    requires lo <= v < lo + w
    ensures start <= v < start + w * FinderPatternRowCount as real
    ensures InBand(start, i, w, v)
  {
    var offset := i as real * w;
    assert x as real * w == o as real * w + offset;
    assert lo == start + offset;
    assert (i + 1) as real * w == offset + w;
    assert offset >= 0.0;
    assert (6 - i) as real * w >= 0.0;
    assert (6 - i) as real * w + offset + w == w * 7.0;
  }

  /** One axis of a finder box: a module band outside o <= x < o + 7 misses the box's span. */
  lemma AxisOutsideFinderBox(margin: real, w: real, o: int, x: int, v: real)
    requires w > 0.0 && !(o <= x < o + FinderPatternRowCount)
    requires margin + x as real * w <= v < margin + x as real * w + w
    ensures !(margin + o as real * w <= v < margin + o as real * w + w * FinderPatternRowCount as real)
  {
    if x < o {
      assert (o - x - 1) as real * w >= 0.0;
      assert (o - x - 1) as real * w + x as real * w + w == o as real * w;
    } else {
      assert (x - o - 7) as real * w >= 0.0;
      assert (x - o - 7) as real * w + o as real * w + w * 7.0 == x as real * w;
    }
  }

  /** A module of the block starting at module o lies in the finder box anchored there. */
  lemma ModuleInFinderBlock(a: Offset, cell: Size, o: Cell, x: int, y: int, p: Offset)
    requires cell.width > 0.0 && cell.height > 0.0
    requires InFinderBlock(o, x, y)
    requires a == ModuleOrigin(o.x, o.y, cell)
    requires ModuleRect(x, y, cell).Contains(p)
    ensures OuterRect(a, FinderPatternSize(cell)).Contains(p)
    ensures InFinderModule(a, cell, x - o.x, y - o.y, p)
  {
    var m := ModuleOrigin(x, y, cell);
    AxisInFinderBox(QrMarginPx, cell.width, o.x, x, x - o.x, a.x, m.x, p.x);
    AxisInFinderBox(QrMarginPx, cell.height, o.y, y, y - o.y, a.y, m.y, p.y);
  }

  /**
   * A finder anchored at module o paints a point of module (x, y) exactly
   * when (x, y) is one of its 49 modules and the standard pattern is dark
   * at that module's place.
   */
  lemma FinderPaintsModule(cell: Size, cornerRadius: CornerRadius, o: Cell, x: int, y: int, p: Offset)
    requires cell.width > 0.0 && cell.height > 0.0
    requires ModuleRect(x, y, cell).Contains(p)
    ensures Painted(FinderShape(ModuleOrigin(o.x, o.y, cell), FinderPatternSize(cell), cornerRadius), p) <==>
      InFinderBlock(o, x, y) && IsoFinderModuleDark(x - o.x, y - o.y)
  {
    var a := ModuleOrigin(o.x, o.y, cell);
    var size := FinderPatternSize(cell);
    if InFinderBlock(o, x, y) {
      ModuleInFinderBlock(a, cell, o, x, y, p);
      FinderMatchesIsoPattern(a, cell, cornerRadius, x - o.x, y - o.y, p);
    } else {
      if !(o.x <= x < o.x + FinderPatternRowCount) {
        AxisOutsideFinderBox(QrMarginPx, cell.width, o.x, x, p.x);
      } else {
        AxisOutsideFinderBox(QrMarginPx, cell.height, o.y, y, p.y);
      }
      FinderPaintWithinBox(a, size, cornerRadius, p);
    }
  }

  /** A finder paints nothing outside its bounding box. */
  lemma FinderPaintWithinBox(topLeft: Offset, finderPatternSize: Size, cornerRadius: CornerRadius, p: Offset)
    requires finderPatternSize.width >= 0.0 && finderPatternSize.height >= 0.0
    ensures Painted(FinderShape(topLeft, finderPatternSize, cornerRadius), p) ==> OuterRect(topLeft, finderPatternSize).Contains(p)
  {
    FinderEvenOddRegions(topLeft, finderPatternSize, cornerRadius, p);
    FinderRectsNested(topLeft, finderPatternSize);
  }
}
