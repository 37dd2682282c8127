/** lib/canvas-utils.ts: drawing one hexagon on a 2D canvas context, and the
    grid layout (centre, axial step sizes, loop radius) for a viewport. */
module CanvasUtils {
  import opened Numbers
  import opened Types
  import opened Constants

  datatype Point = Point(x: real, y: real)

  /** The 2D-context operations the source uses, as recorded calls. Property
      assignments (fillStyle, strokeStyle, lineWidth) are recorded too. */
  datatype DrawCall =
    | ClearRect(left: real, top: real, width: real, height: real)
    | BeginPath
    | MoveTo(to: Point)
    | LineTo(to: Point)
    | ClosePath
    | SetFillStyle(fill: Color)
    | Fill
    | SetStrokeStyle(stroke: Color)
    | SetLineWidth(lineWidth: real)
    | Stroke

  /** A canvas element with its 2D context: the logical size it was last
      given (its pixel size divided by the device pixel ratio) and the log of
      every drawing call made on it. Pixels are never computed. */
  class Canvas {
    var width: real
    var height: real
    var log: seq<DrawCall>

    constructor (width: real, height: real)
      ensures this.width == width && this.height == height && log == []
    {
      this.width := width;
      this.height := height;
      log := [];
    }

    /** Sets the logical size (canvas.width and canvas.height, scaled). */
    method Resize(width: real, height: real)
      modifies this`width, this`height
      ensures this.width == width && this.height == height
    {
      this.width := width;
      this.height := height;
    }

    /** Appends one drawing call. */
    method Draw(call: DrawCall)
      modifies this`log
      ensures log == old(log) + [call]
    {
      log := log + [call];
    }
  }

  /** The six corners of a flat-topped hexagon, counter-clockwise on screen
      from the rightmost one: opposite corners are mirror images through the
      centre, and the top and bottom sides are horizontal. */
  function HexagonVertices(x: real, y: real, size: real, s3: real): (v: seq<Point>)
    ensures |v| == 6 && v[0] == Point(x + size, y)
    ensures forall i :: 0 <= i < 3 ==> v[i].x + v[i + 3].x == 2.0 * x && v[i].y + v[i + 3].y == 2.0 * y
    ensures v[1].y == v[2].y && v[4].y == v[5].y
  {
    var rise := size * s3 / 2.0;
    var half := size / 2.0;
    [ Point(x + size, y), Point(x + half, y - rise), Point(x - half, y - rise),
      Point(x - size, y), Point(x - half, y + rise), Point(x + half, y + rise) ]
  }

  /** The path drawHexagon traces: a moveTo to the first corner, a lineTo to
      each other corner in turn, closed. */
  function PathCalls(v: seq<Point>): (calls: seq<DrawCall>)
    requires |v| == 6
    ensures |calls| == 8
  {
    [BeginPath, MoveTo(v[0]), LineTo(v[1]), LineTo(v[2]), LineTo(v[3]), LineTo(v[4]), LineTo(v[5]), ClosePath]
  }

  /** Fill in `color`, then a 1-pixel stroke, in `color` for a data cell and
      in the background border colour otherwise. */
  function PaintCalls(color: Color, hasData: bool): (calls: seq<DrawCall>)
    ensures |calls| == 5
  {
    [SetFillStyle(color), Fill,
     SetStrokeStyle(if hasData then color else BackgroundBorderColor), SetLineWidth(1.0), Stroke]
  }

  /** The calls drawHexagon makes. */
  function HexagonCalls(x: real, y: real, size: real, s3: real, color: Color, hasData: bool): (calls: seq<DrawCall>)
    ensures |calls| == 13
  {
    PathCalls(HexagonVertices(x, y, size, s3)) + PaintCalls(color, hasData)
  }

  /** drawHexagon */
  method DrawHexagon(ctx: Canvas, x: real, y: real, size: real, s3: real, color: Color, hasData: bool)
    modifies ctx`log
    ensures ctx.log == old(ctx.log) + HexagonCalls(x, y, size, s3, color, hasData)
  {
    var rise := size * s3 / 2.0;
    var half := size / 2.0;
    var v := [ Point(x + size, y), Point(x + half, y - rise), Point(x - half, y - rise),
               Point(x - size, y), Point(x - half, y + rise), Point(x + half, y + rise) ];
    assert v == HexagonVertices(x, y, size, s3);
    TracePath(ctx, v);
    PaintPath(ctx, color, hasData);
    SeqAppendAssoc(old(ctx.log), PathCalls(v), PaintCalls(color, hasData));
  }

  /** The path part of drawHexagon. */
  method TracePath(ctx: Canvas, v: seq<Point>)
    requires |v| == 6
    modifies ctx`log
    ensures ctx.log == old(ctx.log) + PathCalls(v)
  {
    ctx.Draw(BeginPath);
    ctx.Draw(MoveTo(v[0]));
    ctx.Draw(LineTo(v[1]));
    ctx.Draw(LineTo(v[2]));
    ctx.Draw(LineTo(v[3]));
    ctx.Draw(LineTo(v[4]));
    ctx.Draw(LineTo(v[5]));
    ctx.Draw(ClosePath);
  }

  /** The fill-and-stroke part of drawHexagon. */
  method PaintPath(ctx: Canvas, color: Color, hasData: bool)
    modifies ctx`log
    ensures ctx.log == old(ctx.log) + PaintCalls(color, hasData)
  {
    ctx.Draw(SetFillStyle(color));
    ctx.Draw(Fill);
    ctx.Draw(SetStrokeStyle(if hasData then color else BackgroundBorderColor));
    ctx.Draw(SetLineWidth(1.0));
    ctx.Draw(Stroke);
  }

  lemma SeqAppendAssoc<T>(a: seq<T>, b: seq<T>, c: seq<T>)
    ensures a + (b + c) == a + b + c
  {
  }

  function SquaredDistance(a: Point, b: Point): real
  {
    (a.x - b.x) * (a.x - b.x) + (a.y - b.y) * (a.y - b.y)
  }

  /** The traced path is a regular hexagon: every corner lies at distance
      `size` from (x, y), and so does every corner from the next one. */
  lemma HexagonIsRegular(x: real, y: real, size: real, s3: real)
    requires IsSqrt3(s3)
    ensures var v := HexagonVertices(x, y, size, s3);
      && |v| == 6
      && (forall i :: 0 <= i < 6 ==> SquaredDistance(v[i], Point(x, y)) == size * size)
      && (forall i :: 0 <= i < 5 ==> SquaredDistance(v[i], v[i + 1]) == size * size)
      && SquaredDistance(v[5], v[0]) == size * size
  {
    CornersAtSize(x, y, size, s3);
    SidesAtSize(x, y, size, s3);
  }

  /** With half = size/2 and rise = size·√3/2, half² + rise² = size². */
  lemma HalfAndRise(size: real, s3: real)
    requires IsSqrt3(s3)
    ensures var rise, half := size * s3 / 2.0, size / 2.0;
      && half * half + rise * rise == size * size
      && (-rise) * (-rise) == rise * rise && (-half) * (-half) == half * half
      && (-size) * (-size) == size * size
  {
    var rise := size * s3 / 2.0;
    var half := size / 2.0;
    assert rise * rise == 3.0 * half * half by {
      calc {
        rise * rise;
        (size * size) * (s3 * s3) / 4.0;
        3.0 * half * half;
      }
    }
    assert size * size == 4.0 * half * half;
  }

  lemma CornersAtSize(x: real, y: real, size: real, s3: real)
    requires IsSqrt3(s3)
    ensures var v := HexagonVertices(x, y, size, s3);
      forall i :: 0 <= i < 6 ==> SquaredDistance(v[i], Point(x, y)) == size * size
  {
    var rise := size * s3 / 2.0;
    var half := size / 2.0;
    var v := HexagonVertices(x, y, size, s3);
    var c := Point(x, y);
    HalfAndRise(size, s3);
    OffsetDistance(v[0], c, size, 0.0);
    OffsetDistance(v[1], c, half, -rise);
    OffsetDistance(v[2], c, -half, -rise);
    OffsetDistance(v[3], c, -size, 0.0);
    OffsetDistance(v[4], c, -half, rise);
    OffsetDistance(v[5], c, half, rise);
  }

  lemma SidesAtSize(x: real, y: real, size: real, s3: real)
    requires IsSqrt3(s3)
    ensures var v := HexagonVertices(x, y, size, s3);
      && (forall i :: 0 <= i < 5 ==> SquaredDistance(v[i], v[i + 1]) == size * size)
      && SquaredDistance(v[5], v[0]) == size * size
  {
    var rise := size * s3 / 2.0;
    var half := size / 2.0;
    var v := HexagonVertices(x, y, size, s3);
    HalfAndRise(size, s3);
    OffsetDistance(v[0], v[1], half, rise);
    OffsetDistance(v[1], v[2], size, 0.0);
    OffsetDistance(v[2], v[3], half, -rise);
    OffsetDistance(v[3], v[4], -half, -rise);
    OffsetDistance(v[4], v[5], -size, 0.0);
    OffsetDistance(v[5], v[0], -half, rise);
  }

  lemma OffsetDistance(a: Point, b: Point, dx: real, dy: real)
    requires a.x - b.x == dx && a.y - b.y == dy
    ensures SquaredDistance(a, b) == dx * dx + dy * dy
  {
  }

  /** The points of the moveTo and lineTo calls in a call sequence, in order. */
  function PathOf(calls: seq<DrawCall>): seq<Point>
  {
    if calls == [] then [] else PathStep(calls[0]) + PathOf(calls[1..])
  }

  function PathStep(call: DrawCall): seq<Point>
  {
    match call
    case MoveTo(p) => [p]
    case LineTo(p) => [p]
    case _ => []
  }

  lemma {:induction false} PathOfAppend(a: seq<DrawCall>, b: seq<DrawCall>)
    ensures PathOf(a + b) == PathOf(a) + PathOf(b)
    decreases |a|
  {
    if a != [] {
      assert (a + b)[0] == a[0];
      assert (a + b)[1..] == a[1..] + b;
      PathOfAppend(a[1..], b);
      assert PathOf(a + b) == PathStep(a[0]) + PathOf(a[1..] + b);
      assert PathOf(a) == PathStep(a[0]) + PathOf(a[1..]);
      SeqAppendAssoc(PathStep(a[0]), PathOf(a[1..]), PathOf(b));
    } else {
      assert a + b == b;
    }
  }

  /** drawHexagon traces exactly the six corners, in one path opened with a
      moveTo and closed, and then fills with `color` and strokes 1 pixel wide. */
  lemma HexagonCallsTraceVertices(x: real, y: real, size: real, s3: real, color: Color, hasData: bool)
    ensures var calls := HexagonCalls(x, y, size, s3, color, hasData);
      && PathOf(calls) == HexagonVertices(x, y, size, s3)
      && calls[0] == BeginPath && calls[1].MoveTo? && calls[7] == ClosePath
      && calls[8..] == [SetFillStyle(color), Fill,
                        SetStrokeStyle(if hasData then color else BackgroundBorderColor),
                        SetLineWidth(1.0), Stroke]
  {
    var v := HexagonVertices(x, y, size, s3);
    var path := PathCalls(v);
    var paint := PaintCalls(color, hasData);
    PathOfAppend(path, paint);
    PathOfPaint(color, hasData);
    PathOfPath(v);
    assert (path + paint)[8..] == paint;
  }

  lemma PathOfPaint(color: Color, hasData: bool)
    ensures PathOf(PaintCalls(color, hasData)) == []
  {
    var c := PaintCalls(color, hasData);
    assert c[4..][1..] == [];
    assert PathOf(c[4..]) == [];
    assert c[3..][1..] == c[4..];
    assert PathOf(c[3..]) == [];
    assert c[2..][1..] == c[3..];
    assert PathOf(c[2..]) == [];
    assert c[1..][1..] == c[2..];
    assert PathOf(c[1..]) == [];
    assert c[0..][1..] == c[1..];
  }

  lemma PathOfPath(v: seq<Point>)
    requires |v| == 6
    ensures PathOf(PathCalls(v)) == v
  {
    var c := PathCalls(v);
    PathOfPathTail(v);
    assert c[3..][1..] == c[4..];
    assert PathOf(c[3..]) == v[2..];
    assert c[2..][1..] == c[3..];
    assert PathOf(c[2..]) == v[1..];
    assert c[1..][1..] == c[2..];
    assert PathOf(c[1..]) == v;
    assert c[0..][1..] == c[1..];
  }

  /** The last four calls of the path trace the last three corners. */
  lemma PathOfPathTail(v: seq<Point>)
    requires |v| == 6
    ensures PathOf(PathCalls(v)[4..]) == v[3..]
  {
    var c := PathCalls(v);
    assert c[7..][1..] == [];
    assert PathOf(c[7..]) == [];
    assert c[6..][1..] == c[7..];
    assert PathOf(c[6..]) == v[5..];
    assert c[5..][1..] == c[6..];
    assert PathOf(c[5..]) == v[4..];
    assert c[4..][1..] == c[5..];
  }

  /** The object calculateHexagonGrid returns. */
  datatype GridLayout = GridLayout(centerX: real, centerY: real, hexWidth: real, hexHeight: real, viewportRadius: int)

  /** calculateHexagonGrid, whose available height repeats the chrome sizes
      of useCanvas inline. */
  function CalculateHexagonGrid(dims: Dimensions, hexSize: real, s3: real): (g: GridLayout)
    requires hexSize > 0.0 && s3 > 0.0
    ensures g.hexWidth > 0.0 && g.hexHeight > 0.0
    ensures (g.viewportRadius - 2) as real * g.hexWidth >= dims.width
    ensures (g.viewportRadius - 2) as real * g.hexHeight >= dims.height
    ensures dims.width >= 0.0 || dims.height >= 0.0 ==> g.viewportRadius >= 2
    ensures (g.viewportRadius - 3) as real * g.hexWidth < dims.width ||
            (g.viewportRadius - 3) as real * g.hexHeight < dims.height
  {
    var centerX := dims.width / 2.0;
    var statsHeight := if dims.width < 640.0 then 50.0 else 60.0;
    var topPadding := if dims.width < 640.0 then 20.0 else 40.0;
    var availableHeight := dims.height - statsHeight - (if dims.width < 640.0 then 60.0 else 80.0)
                           - topPadding - (if dims.width < 640.0 then 30.0 else 52.0);
    var centerY := statsHeight + topPadding + availableHeight / 2.0;
    var hexWidth := hexSize * 1.5;
    var hexHeight := hexSize * s3;
    var viewportRadius := Ceil(Max(dims.width / hexWidth, dims.height / hexHeight)) + 2;
    BelowCeilScaled(dims.width, hexWidth);
    BelowCeilScaled(dims.height, hexHeight);
    GridLayout(centerX, centerY, hexWidth, hexHeight, viewportRadius)
  }

  /** One step fewer than ceil(length / step) steps falls short of the length. */
  lemma BelowCeilScaled(length: real, step: real)
    requires step > 0.0
    ensures (Ceil(length / step) - 1) as real * step < length
  {
    var c := Ceil(length / step);
    assert (c - 1) as real < length / step;
    assert (c - 1) as real * step < (length / step) * step;
  }

  /** The grid is centred horizontally on the viewport and vertically on the
      band left between the stats strip plus top padding and the toolbar plus
      bottom padding (50/20 above and 60/30 below on screens narrower than
      640, 60/40 and 80/52 otherwise). */
  lemma GridCentredInBand(dims: Dimensions, hexSize: real, s3: real)
    requires hexSize > 0.0 && s3 > 0.0
    ensures var g := CalculateHexagonGrid(dims, hexSize, s3);
      var mobile := dims.width < 640.0;
      var bandTop := if mobile then 70.0 else 100.0;
      var bandBottom := dims.height - (if mobile then 90.0 else 132.0);
      && g.centerX * 2.0 == dims.width
      && g.centerY * 2.0 == bandTop + bandBottom
      && g.hexWidth == 1.5 * hexSize && g.hexHeight == s3 * hexSize
  {
  }
}
