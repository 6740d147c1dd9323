# ComposableBarcode QR rendering, modelled in Dafny

The `QrCode` composable of ComposableBarcode draws a QR symbol on a square
Compose canvas. It works in five steps:

1. It refuses empty contents.
2. It has the ZXing encoder turn the contents into a square byte matrix.
3. It derives a cell size from the canvas side length less a 16-pixel quiet
   zone on each side.
4. It draws the three finder patterns. Each finder is one even-odd path of
   three nested rectangles anchored at a distinct corner.
5. It walks three rectangular data sections row by row and draws one
   cell-sized square for every module whose byte is 1.

This project models that pipeline in Dafny and proves what it draws. The
modules follow the source files:

| module | file | models |
|---|---|---|
| `Canvas` | `canvas.dfy` | the drawing vocabulary the renderer uses: offsets, sizes, rectangles, rounded rectangles, paths (a `class` whose contours are appended in place), fill rules and draw calls. `Painted` says which points a filled path paints. |
| `Sets` | `sets.dfy` | Kotlin's insertion-ordered `setOf`, as the order in which its distinct elements are iterated. |
| `QrGeometry` | `qr_geometry.dfy` | the quiet-zone margin, the finder size in modules, the byte matrix, the cell size and the canvas position of each module. |
| `FinderDrawing` | `finder_drawing.dfy` | `drawQrCodeFinders` and `drawQrCodeFinder`: the anchors, the ratio constants, the three rectangles, and the proof that the even-odd fill paints the finder pattern of ISO/IEC 18004 (section 6.3.3). |
| `DataDrawing` | `data_drawing.dfy` | `drawAllQrCodeDataBits`: the three sections, the nested `until` loops, the `== 1` test and the square drawn per on-module. |
| `QrCode` | `qr_code.dfy` | `QrCode` and `createQrCode`: the empty-contents guard, the encoder call, the cell size and the order of the two drawing passes. It ends with two theorems about the picture: `RenderShowsSymbol` for the points of the grid, and `QuietZoneBlank` for the 16-pixel margin around it. |

The drawing methods log the draw calls they issue, in order. Each is proved
equal to a specification function (`FinderDraws`, `SectionDraws`,
`DataDraws`, `Render`). The properties are then proved about those
functions. The per-section body of the data `forEach` is the method
`DrawSectionDataBits`, and the per-anchor body of the finder `forEach` is
`DrawQrCodeFinder`.

The source's constants keep their values and their names, in Dafny's
spelling:

- `QrGeometry.QrMarginPx` is `QR_MARGIN_PX` (QrCode.kt:106), the 16-pixel
  quiet zone.
- `QrGeometry.FinderPatternRowCount` is `FINDER_PATTERN_ROW_COUNT`
  (QrCodeFinderDrawing.kt:11), the 7 modules of a finder side.
- The six `FinderDrawing` ratios, from `InteriorExteriorShapeRatio` to
  `InteriorBackgroundExteriorShapeCornerRadius`, are the private ratios of
  QrCodeFinderDrawing.kt:12-17: 3/7, 2/7, 0.12, 5/7, 1/7 and 0.5.
- `QrCode.QrErrorCorrectionLevel` is `QR_ERROR_CORRECTION_LEVEL`
  (QrCode.kt:119), level Q.

## Model

Source cells give paths from the repository root, with line ranges.

| member | source | states |
|---|---|---|
| QrGeometry.CellSize | app/src/main/java/com/simonsickle/composablebarcode/qr/QrCode.kt:49-50 | definition: column width is (side length - 2 * 16) / matrix width and row height is (side length - 2 * 16) / matrix height |
| QrGeometry.FinderPatternSize | app/src/main/java/com/simonsickle/composablebarcode/qr/QrCode.kt:57-60 | definition: a finder is 7 column widths wide and 7 row heights high |
| QrGeometry.ModuleOrigin | app/src/main/java/com/simonsickle/composablebarcode/qr/QrCodeDataDrawing.kt:62-65 | definition: module (x, y) starts at (16 + x * cell width, 16 + y * cell height) |
| QrGeometry.ModuleRect | app/src/main/java/com/simonsickle/composablebarcode/qr/QrCodeDataDrawing.kt:60-67 | definition: module (x, y) occupies one cell-sized rectangle at its origin |
| QrGeometry.IsOn | app/src/main/java/com/simonsickle/composablebarcode/qr/QrCodeDataDrawing.kt:56 | definition: module (x, y) exists and its byte, `bytes[x, y]` read as row y column x, is exactly 1 |
| FinderDrawing.FinderAnchorList | app/src/main/java/com/simonsickle/composablebarcode/qr/QrCodeFinderDrawing.kt:32-38 | definition: the anchors (16, 16), (S - (16 + finder width), 16) and (16, S - (16 + finder height)), in that order |
| FinderDrawing.FinderAnchors | app/src/main/java/com/simonsickle/composablebarcode/qr/QrCodeFinderDrawing.kt:32-39 | definition: the anchors as `setOf` iterates them, coinciding ones once |
| FinderDrawing.FinderDraws | app/src/main/java/com/simonsickle/composablebarcode/qr/QrCodeFinderDrawing.kt:32-46 | definition: one foreground finder with zero corner radius per anchor of the set, in set order |
| FinderDrawing.OuterRect | app/src/main/java/com/simonsickle/composablebarcode/qr/QrCodeFinderDrawing.kt:63-71 | definition: the finder box, at the anchor with the finder size |
| FinderDrawing.MiddleRect | app/src/main/java/com/simonsickle/composablebarcode/qr/QrCodeFinderDrawing.kt:74-86 | definition: offset by 1/7 of the finder size, 5/7 of its size |
| FinderDrawing.InnerRect | app/src/main/java/com/simonsickle/composablebarcode/qr/QrCodeFinderDrawing.kt:89-101 | definition: offset by 2/7 of the finder size, 3/7 of its size |
| DataDrawing.Sections | app/src/main/java/com/simonsickle/composablebarcode/qr/QrCodeDataDrawing.kt:25-52 | definition: columns 7 until width-7 of rows 0 until 7; all columns of rows 7 until height-7; columns 7 until width of rows height-7 until height, in that order |
| DataDrawing.RowDraws | app/src/main/java/com/simonsickle/composablebarcode/qr/QrCodeDataDrawing.kt:55-71 | definition: the inner loop's draws over columns x0 until x of row y, one square per on-module, left to right |
| DataDrawing.SectionDraws | app/src/main/java/com/simonsickle/composablebarcode/qr/QrCodeDataDrawing.kt:54-73 | definition: the nested loops' draws over a section's rows before y, row after row |
| DataDrawing.CellDraw | app/src/main/java/com/simonsickle/composablebarcode/qr/QrCodeDataDrawing.kt:57-70 | definition: a foreground even-odd path holding the one rectangle of the module |
| DataDrawing.DataDraws | app/src/main/java/com/simonsickle/composablebarcode/qr/QrCodeDataDrawing.kt:20-75 | definition: the squares of the on-modules, visiting the `setOf` of the sections in order and each section row by row |
| QrCode.Encode | app/src/main/java/com/simonsickle/composablebarcode/qr/QrCode.kt:84-92 | definition: the encoder applied to the contents with level Q and the hints UTF-8, margin 16 and level Q |
| QrCode.Render | app/src/main/java/com/simonsickle/composablebarcode/qr/QrCode.kt:47-72 | definition: the finder draws at 7 * cell, followed by the data draws at one cell, for the cell size of the matrix |
| Canvas.Path.NewPath | app/src/main/java/com/simonsickle/composablebarcode/ui/canvas/Path.kt:10-13 | a new path has no contours and fills with the even-odd rule |
| Canvas.Path.AddRect | app/src/main/java/com/simonsickle/composablebarcode/qr/QrCodeDataDrawing.kt:60-68 | appending a rectangle adds exactly one contour at the end and keeps the fill rule |
| Canvas.Path.AddRoundRect | app/src/main/java/com/simonsickle/composablebarcode/qr/QrCodeFinderDrawing.kt:63-71 | appending a rounded rectangle adds exactly one contour at the end and keeps the fill rule |
| Canvas.CoveringCount | app/src/main/java/com/simonsickle/composablebarcode/ui/canvas/Path.kt:11 | definition: the number of contours whose area holds a point, the count whose parity the even-odd rule tests |
| Canvas.CoveringCountConcat | app/src/main/java/com/simonsickle/composablebarcode/ui/canvas/Path.kt:11 | covering counts add up over the contours of two paths appended one after the other |
| Canvas.Painted | app/src/main/java/com/simonsickle/composablebarcode/ui/canvas/Path.kt:11 | definition: a path paints a point when an odd number of its contours hold it |
| Sets.SetOf | app/src/main/java/com/simonsickle/composablebarcode/qr/QrCodeFinderDrawing.kt:32-39 | iterating `setOf` visits exactly the listed elements, each once, never more than were listed, and in listing order when they are already distinct |
| QrGeometry.CellSizeFills | app/src/main/java/com/simonsickle/composablebarcode/qr/QrCode.kt:49-50 | the columns (rows) of cells plus both 16-pixel margins add up to the side length, a square matrix gets square cells, and cells are positive exactly when the canvas is wider than both margins |
| QrGeometry.ModuleBandUnique | app/src/main/java/com/simonsickle/composablebarcode/qr/QrCodeDataDrawing.kt:63-64 | along one axis, a coordinate lies in the band of exactly one module index |
| QrGeometry.ModuleRectsDisjoint | app/src/main/java/com/simonsickle/composablebarcode/qr/QrCodeDataDrawing.kt:60-67 | with positive cells, no point lies in the squares of two different modules |
| FinderDrawing.FinderShape | app/src/main/java/com/simonsickle/composablebarcode/qr/QrCodeFinderDrawing.kt:59-103 | a finder is one even-odd path of three rounded rectangles, and square corners passed in give square corners on all three |
| FinderDrawing.DrawQrCodeFinder | app/src/main/java/com/simonsickle/composablebarcode/qr/QrCodeFinderDrawing.kt:52-104 | the path built by three `addRoundRect` calls is the finder shape, drawn in the foreground colour |
| FinderDrawing.DrawQrCodeFinders | app/src/main/java/com/simonsickle/composablebarcode/qr/QrCodeFinderDrawing.kt:26-47 | one square-cornered finder is drawn per distinct anchor, in anchor order, so at most three |
| FinderDrawing.FinderRectsNested | app/src/main/java/com/simonsickle/composablebarcode/qr/QrCodeFinderDrawing.kt:11-17 | the middle rectangle is 5/7 and the inner one 3/7 of the extent, each inset by 1/7 of the extent on every side |
| FinderDrawing.FinderEdges | app/src/main/java/com/simonsickle/composablebarcode/qr/QrCodeFinderDrawing.kt:74-97 | measured in cells from the anchor, the outer rectangle spans 0..7, the middle one 1..6 and the inner one 2..5 on each axis |
| FinderDrawing.FinderEvenOddRegions | app/src/main/java/com/simonsickle/composablebarcode/ui/canvas/Path.kt:11 | for non-negative finder sizes, the even-odd fill paints exactly the outer ring (outer but not middle) and the centre (inner) |
| FinderDrawing.CoveringCountOfThree | app/src/main/java/com/simonsickle/composablebarcode/ui/canvas/Path.kt:11 | the covering count of a three-contour path is the sum of the three containment tests |
| FinderDrawing.AxisBands | app/src/main/java/com/simonsickle/composablebarcode/qr/QrCodeFinderDrawing.kt:74-97 | within module i of a seven-module span, a coordinate is inside the middle interval iff 1 <= i <= 5 and inside the inner interval iff 2 <= i <= 4 |
| FinderDrawing.FinderColumnInRects | app/src/main/java/com/simonsickle/composablebarcode/qr/QrCodeFinderDrawing.kt:63-101 | horizontally, a point of module column i is inside the outer rectangle, inside the middle one iff 1 <= i <= 5, and inside the inner one iff 2 <= i <= 4 |
| FinderDrawing.FinderRowInRects | app/src/main/java/com/simonsickle/composablebarcode/qr/QrCodeFinderDrawing.kt:63-101 | the same for module row j, vertically |
| FinderDrawing.FinderModuleInRects | app/src/main/java/com/simonsickle/composablebarcode/qr/QrCodeFinderDrawing.kt:63-101 | a point of module (i, j) of a finder is in the outer rectangle, in the middle one iff both indices are in 1..5, in the inner one iff both are in 2..4 |
| FinderDrawing.FinderMatchesIsoPattern | app/src/main/java/com/simonsickle/composablebarcode/qr/QrCodeFinderDrawing.kt:59-103 | every point of module (i, j) of a finder is painted iff the ISO/IEC 18004 finder pattern is dark at (i, j): a dark ring, a light ring and a dark 3 x 3 centre |
| FinderDrawing.FinderAnchorsOnModuleGrid | app/src/main/java/com/simonsickle/composablebarcode/qr/QrCodeFinderDrawing.kt:34-38 | the three anchors are the canvas positions of modules (0, 0), (n-7, 0) and (0, n-7), and each box ends seven modules further on |
| FinderDrawing.FinderAnchorCount | app/src/main/java/com/simonsickle/composablebarcode/qr/QrCodeFinderDrawing.kt:32-39 | unless the side length equals both margins together (zero cells), the set holds all three anchors unless n is 7, when they coincide and one finder is drawn |
| FinderDrawing.FinderBoxesDisjoint | app/src/main/java/com/simonsickle/composablebarcode/qr/QrCodeFinderDrawing.kt:34-38 | for n >= 14 no point lies in two finder boxes |
| FinderDrawing.FinderCornerIndex | app/src/main/java/com/simonsickle/composablebarcode/qr/QrCodeFinderDrawing.kt:33-38 | a module in a finder corner lies in the 7 x 7 block of the corner it names |
| FinderDrawing.FinderCornerOrigin | app/src/main/java/com/simonsickle/composablebarcode/qr/QrCodeFinderDrawing.kt:33-38 | a corner module's offset from its corner's first module is in 0..6 on both axes |
| FinderDrawing.FinderBlockOfCorner | app/src/main/java/com/simonsickle/composablebarcode/qr/QrCodeFinderDrawing.kt:33-38 | for n >= 14 a grid module is in block k iff it is in a finder corner and that corner is k |
| FinderDrawing.AxisInFinderBox | app/src/main/java/com/simonsickle/composablebarcode/qr/QrCodeFinderDrawing.kt:65-67 | the band of module x, o <= x < o + 7, lies inside the box starting at module o, at local index x - o |
| FinderDrawing.AxisOutsideFinderBox | app/src/main/java/com/simonsickle/composablebarcode/qr/QrCodeFinderDrawing.kt:65-67 | the band of a module outside o..o+6 misses the box starting at module o |
| FinderDrawing.ModuleInFinderBlock | app/src/main/java/com/simonsickle/composablebarcode/qr/QrCodeFinderDrawing.kt:65-67 | a point of a module in the block starting at module o lies in the finder box anchored there, in the module at the matching local index |
| FinderDrawing.FinderPaintsModule | app/src/main/java/com/simonsickle/composablebarcode/qr/QrCodeFinderDrawing.kt:52-104 | a finder anchored at module o paints a point of module (x, y) iff (x, y) is in its block and the ISO pattern is dark at the local index |
| FinderDrawing.FinderPaintWithinBox | app/src/main/java/com/simonsickle/composablebarcode/qr/QrCodeFinderDrawing.kt:63-71 | for non-negative finder sizes, a finder paints nothing outside its outer rectangle |
| DataDrawing.OnCellsSpec | app/src/main/java/com/simonsickle/composablebarcode/qr/QrCodeDataDrawing.kt:56 | the on-cells are exactly the visited cells whose byte is 1, with no duplicates when the visit has none |
| DataDrawing.VisitAppend | app/src/main/java/com/simonsickle/composablebarcode/qr/QrCodeDataDrawing.kt:56-71 | visiting one more cell appends its square iff its byte is 1 |
| DataDrawing.RowDrawsOfCells | app/src/main/java/com/simonsickle/composablebarcode/qr/QrCodeDataDrawing.kt:55-72 | the inner loop's draws over one row equal the draws of that row's on-cells, appended after what came before |
| DataDrawing.SectionDrawsOfCells | app/src/main/java/com/simonsickle/composablebarcode/qr/QrCodeDataDrawing.kt:54-73 | the nested loops' draws over a section's rows equal the draws of those rows' on-cells, appended after what came before |
| DataDrawing.VisitNextSection | app/src/main/java/com/simonsickle/composablebarcode/qr/QrCodeDataDrawing.kt:53-74 | after one more section, the log grows by exactly that section's draws |
| DataDrawing.SectionsFitGrid | app/src/main/java/com/simonsickle/composablebarcode/qr/QrCodeDataDrawing.kt:25-55 | for a square matrix, every section's loops index only modules inside the matrix |
| DataDrawing.DrawAllQrCodeDataBits | app/src/main/java/com/simonsickle/composablebarcode/qr/QrCodeDataDrawing.kt:20-75 | the calls issued are exactly the data draws: one square per on-module, sections in set order, rows top to bottom, columns left to right |
| DataDrawing.DrawSectionDataBits | app/src/main/java/com/simonsickle/composablebarcode/qr/QrCodeDataDrawing.kt:54-73 | the nested `until` loops over a section issue exactly that section's row-major draws |
| DataDrawing.DrawDataBit | app/src/main/java/com/simonsickle/composablebarcode/qr/QrCodeDataDrawing.kt:57-70 | a one-rectangle path at the module's offset, cell-sized, in the foreground colour; it holds its own origin iff the cell is positive |
| DataDrawing.SectionsDistinct | app/src/main/java/com/simonsickle/composablebarcode/qr/QrCodeDataDrawing.kt:25-53 | the three section pairs are always distinct, so `setOf` keeps all three in listed order |
| DataDrawing.RowCellsSpec | app/src/main/java/com/simonsickle/composablebarcode/qr/QrCodeDataDrawing.kt:55 | a row visit holds exactly the columns x0 until x, left to right |
| DataDrawing.SectionRowsSpec | app/src/main/java/com/simonsickle/composablebarcode/qr/QrCodeDataDrawing.kt:54-55 | a section's rows before y hold exactly its cells above y, in row-major order |
| DataDrawing.SectionCellsRowMajor | app/src/main/java/com/simonsickle/composablebarcode/qr/QrCodeDataDrawing.kt:54-55 | a section is visited exactly once per cell, in row-major order |
| DataDrawing.VisitOrderOfSections | app/src/main/java/com/simonsickle/composablebarcode/qr/QrCodeDataDrawing.kt:53-55 | the visit is the first section's cells, then the second's, then the third's |
| DataDrawing.NoDuplicatesConcat | app/src/main/java/com/simonsickle/composablebarcode/qr/QrCodeDataDrawing.kt:53 | two duplicate-free visits of disjoint cells give a duplicate-free visit |
| DataDrawing.VisitOrderMembership | app/src/main/java/com/simonsickle/composablebarcode/qr/QrCodeDataDrawing.kt:25-55 | the visit holds exactly the cells of the three sections, with no cell twice |
| DataDrawing.VisitOrderInGrid | app/src/main/java/com/simonsickle/composablebarcode/qr/QrCodeDataDrawing.kt:25-55 | every visited cell is inside the n x n grid |
| DataDrawing.VisitOrderPartition | app/src/main/java/com/simonsickle/composablebarcode/qr/QrCodeDataDrawing.kt:25-52 | for n >= 14 the sections cover exactly the grid minus the three finder corners |
| DataDrawing.SmallGridOverlap | app/src/main/java/com/simonsickle/composablebarcode/qr/QrCodeDataDrawing.kt:43-51 | for 8 <= n <= 13 the third section reaches into the top-right finder corner: module (7, n - 7) is in both |
| DataDrawing.TinyGridNoVisit | app/src/main/java/com/simonsickle/composablebarcode/qr/QrCodeDataDrawing.kt:25-55 | for n <= 7 every section is empty, so no module is visited and nothing overlaps a corner |
| DataDrawing.DataDrawnIffOn | app/src/main/java/com/simonsickle/composablebarcode/qr/QrCodeDataDrawing.kt:25-56 | for n >= 14 a module is drawn iff it is in the grid, outside the finder corners and its byte is 1, and none is drawn twice |
| DataDrawing.DrawsAt | app/src/main/java/com/simonsickle/composablebarcode/qr/QrCodeDataDrawing.kt:57-70 | the i-th data draw is the square of the i-th on-cell, one draw per on-cell |
| DataDrawing.ModuleOriginInjective | app/src/main/java/com/simonsickle/composablebarcode/qr/QrCodeDataDrawing.kt:62-65 | with positive cells, distinct modules have distinct canvas offsets |
| DataDrawing.DrawsDistinct | app/src/main/java/com/simonsickle/composablebarcode/qr/QrCodeDataDrawing.kt:57-70 | with positive cells, distinct cells give distinct draw calls |
| DataDrawing.DataDrawsDistinct | app/src/main/java/com/simonsickle/composablebarcode/qr/QrCodeDataDrawing.kt:20-75 | with positive cells, the data pass never issues the same draw call twice |
| DataDrawing.CellDrawPaints | app/src/main/java/com/simonsickle/composablebarcode/qr/QrCodeDataDrawing.kt:57-70 | for non-negative cells, a data square paints exactly the points of its module |
| QrCode.CreateQrCode | app/src/main/java/com/simonsickle/composablebarcode/qr/QrCode.kt:80-93 | empty contents fail before the encoder runs; otherwise the result is the encoder's matrix, or an encoding failure when the encoder throws |
| QrCode.QrCode | app/src/main/java/com/simonsickle/composablebarcode/qr/QrCode.kt:21-74 | empty contents are refused; otherwise the calls issued are the finders followed by the data modules, scaled by the cell size |
| QrCode.RenderUsesForeground | app/src/main/java/com/simonsickle/composablebarcode/qr/QrCode.kt:54-71 | every mark of the symbol is in the foreground colour |
| QrCode.RenderShowsSymbol | app/src/main/java/com/simonsickle/composablebarcode/qr/QrCode.kt:47-72 | for n >= 14, every point of module (x, y) is painted iff the module should be dark: the ISO finder pattern in the corners, the matrix byte elsewhere |
| QrCode.PaintedByConcat | app/src/main/java/com/simonsickle/composablebarcode/qr/QrCode.kt:54-71 | a point is painted by the two passes together iff one of them paints it |
| QrCode.SymbolFinderDraws | app/src/main/java/com/simonsickle/composablebarcode/qr/QrCode.kt:54-61 | for n > 7 and a side length other than 32 (zero cells), exactly three square-cornered finders are drawn, top-left, top-right and bottom-left |
| QrCode.SymbolFinderPaints | app/src/main/java/com/simonsickle/composablebarcode/qr/QrCode.kt:54-61 | for n >= 14, finder k paints a point of module (x, y) iff (x, y) is in corner k and the pattern is dark there |
| QrCode.FinderPaint | app/src/main/java/com/simonsickle/composablebarcode/qr/QrCode.kt:54-61 | for n >= 14, the finder pass paints a point of module (x, y) iff the module is in a corner and the pattern is dark there |
| QrCode.DataPaint | app/src/main/java/com/simonsickle/composablebarcode/qr/QrCode.kt:64-71 | for n >= 14, the data pass paints a point of module (x, y) iff the module is outside the corners and its byte is 1 |
| QrCode.DrawsPaintModule | app/src/main/java/com/simonsickle/composablebarcode/qr/QrCodeDataDrawing.kt:57-70 | with positive cells, the squares of a list of cells paint a point of module (x, y) iff (x, y) is in the list |
| QrCode.QuietZoneBlank | app/src/main/java/com/simonsickle/composablebarcode/qr/QrCode.kt:103-106 | for n >= 7 on a canvas wider than both margins, no point within 16 pixels of an edge is painted: the quiet zone stays blank |
| QrCode.FinderPassInside | app/src/main/java/com/simonsickle/composablebarcode/qr/QrCodeFinderDrawing.kt:32-46 | for n >= 7, the finder pass paints only points inside the symbol area |
| QrCode.FinderSizeFits | app/src/main/java/com/simonsickle/composablebarcode/qr/QrCode.kt:49-60 | for n >= 7 on a canvas wider than both margins, a finder is no larger than the space between the margins |
| QrCode.FinderDrawsInside | app/src/main/java/com/simonsickle/composablebarcode/qr/QrCodeFinderDrawing.kt:32-46 | finders that fit between the margins paint only inside the symbol area |
| QrCode.AnchorBoxInside | app/src/main/java/com/simonsickle/composablebarcode/qr/QrCodeFinderDrawing.kt:34-38 | the box of each of the three anchors lies inside the symbol area when the finder fits between the margins |
| QrCode.DataPassInside | app/src/main/java/com/simonsickle/composablebarcode/qr/QrCodeDataDrawing.kt:20-75 | the data pass paints only points inside the symbol area |
| QrCode.ModuleInsideArea | app/src/main/java/com/simonsickle/composablebarcode/qr/QrCodeDataDrawing.kt:60-67 | every point of every grid module lies inside the symbol area |

## Left out

- The ZXing encoder (`Encoder.encode`) is not part of this model. It is a
  function parameter of type `Encoder`. `None` stands for the exception
  it throws, and that becomes `Err(EncodingFailed)`.
- QrCode.QrCode: requires that a matrix returned by the encoder be square
  and non-empty. ZXing's QR matrices always are, but the model takes this
  on trust.
- QrCode.QrCode: the Kotlin `require` on empty contents throws an
  exception. The model returns `Err(EmptyContents)` instead.
- `remember(contents)` caching, the `Box` layout (`defaultMinSize`,
  `aspectRatio(1f)`) and the background fill are left out. They are Compose
  UI and draw no module. The canvas is taken as square with side
  `sideLength`, as the `aspectRatio(1f)` modifier arranges.
- `Float` arithmetic is modelled by exact `real` arithmetic. Rounding of
  the cell size and the offsets is not captured.
- Colours are opaque tokens. Dark-theme selection of the defaults lives in
  the composable's parameter defaults and is not modelled.
- Rounded rectangles are treated as their bounding rectangles when deciding
  which points they paint. This is exact for the `CornerRadius.Zero` that
  `drawQrCodeFinders` always passes, and approximate for non-zero radii.
- Compose's non-zero fill type is not modelled. Every path the renderer
  draws comes from `newPath`, which sets even-odd.
- Bytes of the matrix are unbounded integers. The `== 1.toByte()` test is
  modelled as `== 1`.
- FinderDrawing.FinderEvenOddRegions: holds for non-negative finder sizes only. A rectangle of negative size is empty in this model, while the platform fills the area between its edges whichever way round they lie, so the mirrored picture drawn on canvases narrower than both margins (32 px) is not modelled.
- FinderDrawing.FinderPaintWithinBox: holds for non-negative finder sizes only, for the same reason.
- DataDrawing.CellDrawPaints: holds for non-negative cells only, for the same reason.
- Matrices of 8 to 13 modules a side: the third section then overlaps
  the top-right finder corner (`SmallGridOverlap`). Up to 7 modules no
  module is visited at all (`TinyGridNoVisit`). The exact-picture theorems
  assume `n >= 14`. Every QR symbol has at least 21.
- QrCode.QuietZoneBlank: holds from 7 modules a side. Below that the
  top-right and bottom-left anchors sit inside the margin, since a finder
  is wider than the whole grid. Canvases not wider than both margins are
  left out for the reason given for `FinderPaintWithinBox`.
