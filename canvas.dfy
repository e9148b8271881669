/**
 * The drawing surface of the app, abstracted from pixels. A surface is the
 * sequence of stroke commands committed to it, oldest first; encoding it as
 * an image (a snapshot) and decoding that image back onto a cleared canvas
 * is modelled as taking and restoring this value unchanged.
 */
module Canvas {

  datatype Option<T> = None | Some(value: T)

  /** The five tools of the toolbar. */
  datatype Tool = Pencil | Eraser | Line | Rect | Circle

  /** A CSS colour string such as "#1a2b3c", as the colour picker emits it. */
  type Color = string

  /** The initial brush colour. */
  const BLACK: Color := "#000000"

  /** The colour the eraser paints with, whatever the brush colour is. */
  const WHITE: Color := "#ffffff"

  /** A position in canvas coordinates (the event's offsetX / offsetY). */
  datatype Point = Point(x: int, y: int)

  /** One stroke committed to the canvas, with the style it was stroked in. */
  datatype Command =
    | Segment(from: Point, to: Point, color: Color, width: int)
    | StrokeRect(x: int, y: int, w: int, h: int, color: Color, width: int)
    | StrokeCircle(center: Point, edge: Point, color: Color, width: int)

  /** The surface, and equally a snapshot of it. */
  type Snapshot = seq<Command>

  /** Pencil and eraser paint while the pointer moves; the other tools paint once, on release. */
  predicate Continuous(tool: Tool)
  {
    tool == Pencil || tool == Eraser
  }

  /** The stroke colour of a continuous tool. */
  function StrokeStyle(tool: Tool, brushColor: Color): Color
  {
    if tool == Eraser then WHITE else brushColor
  }

  /**
   * What releasing the pointer at `end` commits for a gesture that began at
   * `start`: nothing for a continuous tool, one shape for a discrete one.
   */
  function Shape(tool: Tool, start: Point, end: Point, color: Color, width: int): (r: seq<Command>)
    ensures |r| <= 1
    ensures r == [] <==> Continuous(tool)
    ensures forall c :: c in r ==> c.color == color && c.width == width
  {
    match tool
    case Pencil => []
    case Eraser => []
    case Line => [Segment(start, end, color, width)]
    case Rect => [StrokeRect(start.x, start.y, end.x - start.x, end.y - start.y, color, width)]
    case Circle => [StrokeCircle(start, end, color, width)]
  }

  function Min(a: int, b: int): int { if a <= b then a else b }

  function Max(a: int, b: int): int { if a <= b then b else a }

  /**
   * The top-left and bottom-right corners of the region a rectangle stroke
   * outlines. A negative width or height extends to the left of or above
   * the origin, as strokeRect does.
   */
  function Bounds(x: int, y: int, w: int, h: int): (r: (Point, Point))
    ensures r.0.x <= r.1.x && r.0.y <= r.1.y
    ensures r.1.x - r.0.x == (if w < 0 then -w else w)
    ensures r.1.y - r.0.y == (if h < 0 then -h else h)
    ensures {r.0.x, r.1.x} == {x, x + w} && {r.0.y, r.1.y} == {y, y + h}
  {
    (Point(Min(x, x + w), Min(y, y + h)), Point(Max(x, x + w), Max(y, y + h)))
  }

  /** The square of a circle stroke's radius: the circle is centred on `center` and passes through `edge`. */
  function RadiusSquared(center: Point, edge: Point): (r: nat)
    ensures r == 0 <==> center == edge
  {
    SquareNonNegative(edge.x - center.x);
    SquareNonNegative(edge.y - center.y);
    SquareZero(edge.x - center.x);
    SquareZero(edge.y - center.y);
    (edge.x - center.x) * (edge.x - center.x) + (edge.y - center.y) * (edge.y - center.y)
  }

  lemma SquareNonNegative(d: int)
    ensures d * d >= 0
  {
    if d < 0 {
      assert d * d == (-d) * (-d);
    }
  }

  lemma SquareZero(d: int)
    ensures d * d == 0 <==> d == 0
  {
    if d < 0 {
      assert d * d == (-d) * (-d);
    }
  }
}
