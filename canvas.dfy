/**
 * The part of the drawing toolkit the QR renderer relies on: plane
 * geometry values (offsets, sizes, rectangles, corner radii), paths that
 * are built by appending contours, the fill rule that decides which points
 * a path paints, and the draw calls a canvas receives.
 */
module Canvas {

  /** A point, or a displacement, on the canvas. */
  datatype Offset = Offset(x: real, y: real)
  {
    function Plus(other: Offset): Offset
    {
      Offset(x + other.x, y + other.y)
    }
  }

  datatype Size = Size(width: real, height: real)
  {
    /** Both dimensions scaled by the same factor. */
    function Times(factor: real): Size
    {
      Size(width * factor, height * factor)
    }
  }

  /** An axis-aligned rectangle given by its top-left corner and its size. */
  datatype Rect = Rect(topLeft: Offset, size: Size)
  {
    function Left(): real { topLeft.x }
    function Top(): real { topLeft.y }
    function Right(): real { topLeft.x + size.width }
    function Bottom(): real { topLeft.y + size.height }

    /** Half-open containment: the left and top edges belong to the rectangle, the right and bottom ones do not. */
    predicate Contains(p: Offset)
    {
      Left() <= p.x < Right() && Top() <= p.y < Bottom()
    }
  }

  datatype CornerRadius = CornerRadius(x: real, y: real)
  {
    function Times(factor: real): CornerRadius
    {
      CornerRadius(x * factor, y * factor)
    }
  }

  const ZeroRadius := CornerRadius(0.0, 0.0)

  datatype RoundRect = RoundRect(rect: Rect, radius: CornerRadius)

  /** One closed sub-path of a path. */
  datatype Contour = RectContour(rect: Rect) | RoundRectContour(roundRect: RoundRect)
  {
    function Bounds(): Rect
    {
      match this
      case RectContour(r) => r
      case RoundRectContour(rr) => rr.rect
    }
  }

  /** The only fill rule the renderer's paths use: `newPath` always sets even-odd. */
  datatype FillType = EvenOdd

  /** The value of a path at the moment it is handed to a draw call. */
  datatype Shape = Shape(fillType: FillType, contours: seq<Contour>)

  /** Colours are opaque tokens to the renderer. */
  datatype Color = Color(argb: int)

  datatype DrawCall = DrawPath(color: Color, shape: Shape)

  /** The number of contours whose area holds `p`. */
  function CoveringCount(contours: seq<Contour>, p: Offset): nat
  {
    if contours == [] then 0
    else CoveringCount(contours[..|contours| - 1], p) + (if contours[|contours| - 1].Bounds().Contains(p) then 1 else 0)
  }

  /**
   * Counting is additive: the contours of `first + second` cover `p` as
   * many times as those of `first` and those of `second` together.
   */
  lemma {:induction false} CoveringCountConcat(first: seq<Contour>, second: seq<Contour>, p: Offset)
    ensures CoveringCount(first + second, p) == CoveringCount(first, p) + CoveringCount(second, p)
    decreases |second|
  {
    if second == [] {
      assert first + second == first;
    } else {
      var init, last := second[..|second| - 1], second[|second| - 1];
      assert (first + second)[..|first + second| - 1] == first + init;
      CoveringCountConcat(first, init, p);
    }
  }

  /** Whether filling `s` paints `p`: under the even-odd rule, when an odd number of contours hold it. */
  predicate Painted(s: Shape, p: Offset)
  {
    CoveringCount(s.contours, p) % 2 == 1
  }

  /** A path under construction; contours are appended in place. */
  class Path {
    var fillType: FillType
    var contours: seq<Contour>

    /** An empty path that fills with the even-odd rule. */
    constructor NewPath()
      ensures fillType == EvenOdd && contours == []
    {
      fillType := EvenOdd;
      contours := [];
    }

    method AddRect(rect: Rect)
      modifies this
      ensures fillType == old(fillType)
      ensures contours == old(contours) + [RectContour(rect)]
    {
      contours := contours + [RectContour(rect)];
    }

    method AddRoundRect(roundRect: RoundRect)
      modifies this
      ensures fillType == old(fillType)
      ensures contours == old(contours) + [RoundRectContour(roundRect)]
    {
      contours := contours + [RoundRectContour(roundRect)];
    }

    function Snapshot(): Shape
      reads this
    {
      Shape(fillType, contours)
    }
  }
}
