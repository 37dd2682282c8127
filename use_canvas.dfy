/** lib/hooks/useCanvas.ts: the honeycomb engine. On a size change it lays
    the cells of an axial hex grid over the viewport, gives the cells within
    DATA_RADIUS of the centre to the data records in visiting order, colours
    and draws them, and keeps the index of data cells; otherwise it repaints
    only the cells whose amount changed since the previous render. */
module Honeycomb {
  import opened Numbers
  import opened Types
  import opened Constants
  import opened ColorUtils
  import opened CanvasUtils

  // ---------------------------------------------------------------- layout

  /** Space kept free for the stats strip, the toolbar and the paddings;
      the values switch at a viewport width of 640. */
  datatype Chrome = Chrome(statsHeight: real, toolbarHeight: real, topPadding: real,
                           bottomPadding: real, sidePadding: real)

  function ChromeFor(width: real): Chrome
  {
    if width < 640.0 then Chrome(50.0, 60.0, 20.0, 30.0, 20.0)
    else Chrome(60.0, 80.0, 40.0, 52.0, 40.0)
  }

  function AvailableHeight(dims: Dimensions): real
  {
    var c := ChromeFor(dims.width);
    dims.height - c.statsHeight - c.toolbarHeight - c.topPadding - c.bottomPadding
  }

  function AvailableWidth(dims: Dimensions): real
  {
    dims.width - ChromeFor(dims.width).sidePadding * 2.0
  }

  /** Height and width of the data cluster, in units of the hex size. */
  function ClusterHeightFactor(s3: real): real { s3 * (2 * DataRadius + 1) as real }

  const ClusterWidthFactor: real := (3 * DataRadius + 2) as real

  /** The hex size: as large as lets the cluster fit both ways, within
      [8, 35]. */
  function HexSize(dims: Dimensions, s3: real): (size: real)
    requires s3 > 0.0
    ensures MinHexSize <= size <= MaxHexSize
  {
    var maxHexSizeByHeight := AvailableHeight(dims) / ClusterHeightFactor(s3);
    var maxHexSizeByWidth := AvailableWidth(dims) / ClusterWidthFactor;
    Max(8.0, Min(35.0, Min(maxHexSizeByHeight, maxHexSizeByWidth)))
  }

  lemma ScaleLe(a: real, b: real, k: real)
    requires k > 0.0 && a <= b / k
    ensures a * k <= b
  {
    assert a * k <= (b / k) * k;
  }

  lemma ScaleGe(a: real, b: real, k: real)
    requires k > 0.0 && a * k <= b
    ensures a <= b / k
  {
    assert a == (a * k) / k;
  }

  /** No size in [8, 35] at which the cluster fits both ways is larger than
      the chosen one. */
  lemma HexSizeIsLargest(dims: Dimensions, s3: real, s: real)
    requires s3 > 0.0 && MinHexSize <= s <= MaxHexSize
    requires s * ClusterHeightFactor(s3) <= AvailableHeight(dims)
    requires s * ClusterWidthFactor <= AvailableWidth(dims)
    ensures s <= HexSize(dims, s3)
  {
    ScaleGe(s, AvailableHeight(dims), ClusterHeightFactor(s3));
    ScaleGe(s, AvailableWidth(dims), ClusterWidthFactor);
  }

  /** When the viewport leaves room for hexagons of the minimum size, the
      data cluster drawn at the chosen size fits the available space. */
  lemma HexSizeFitsCluster(dims: Dimensions, s3: real)
    requires s3 > 0.0
    requires AvailableHeight(dims) / ClusterHeightFactor(s3) >= MinHexSize
    requires AvailableWidth(dims) / ClusterWidthFactor >= MinHexSize
    ensures HexSize(dims, s3) * ClusterHeightFactor(s3) <= AvailableHeight(dims)
    ensures HexSize(dims, s3) * ClusterWidthFactor <= AvailableWidth(dims)
  {
    var size := HexSize(dims, s3);
    assert size <= AvailableHeight(dims) / ClusterHeightFactor(s3);
    assert size <= AvailableWidth(dims) / ClusterWidthFactor;
    ScaleLe(size, AvailableHeight(dims), ClusterHeightFactor(s3));
    ScaleLe(size, AvailableWidth(dims), ClusterWidthFactor);
  }

  /** calculateHexagonGrid repeats this hook's chrome sizes inline; both
      reach the same available height, so the grid is centred on the band
      the hex size was fitted to. */
  lemma AvailableHeightAgrees(dims: Dimensions, hexSize: real, s3: real)
    requires hexSize > 0.0 && s3 > 0.0
    ensures var c := ChromeFor(dims.width);
      CalculateHexagonGrid(dims, hexSize, s3).centerY == c.statsHeight + c.topPadding + AvailableHeight(dims) / 2.0
  {
  }

  // ----------------------------------------------------- the full redraw

  /** Everything one full redraw reads. */
  datatype Pass = Pass(dims: Dimensions, size: real, layout: GridLayout, s3: real,
                       aportes: seq<real>, mora: seq<int>, n: nat)

  function PassFor(dims: Dimensions, aportes: seq<real>, mora: seq<int>, n: nat, s3: real): Pass
    requires s3 > 0.0
  {
    var size := HexSize(dims, s3);
    Pass(dims, size, CalculateHexagonGrid(dims, size, s3), s3, aportes, mora, n)
  }

  function Radius(p: Pass): int { p.layout.viewportRadius }

  /** First and last r of row q in the hex-range loop of radius R. */
  function RowStart(R: int, q: int): int { IntMax(-R, -q - R) }

  function RowEnd(R: int, q: int): int { IntMin(R, -q + R) }

  function CellX(p: Pass, q: int): real
  {
    p.layout.centerX + p.layout.hexWidth * q as real
  }

  function CellY(p: Pass, q: int, r: int): real
  {
    p.layout.centerY + p.layout.hexHeight * (r as real + q as real / 2.0)
  }

  /** The hexagon's bounding square misses the viewport. */
  predicate Culled(p: Pass, x: real, y: real)
  {
    x + p.size < 0.0 || x - p.size > p.dims.width || y + p.size < 0.0 || y - p.size > p.dims.height
  }

  /** Half the sum of the absolute cube coordinates, as the source divides. */
  function HexDistance(q: int, r: int): real
  {
    (Abs(q) + Abs(r) + Abs(-q - r)) as real / 2.0
  }

  predicate InShape(q: int, r: int) { HexDistance(q, r) <= DataRadius as real }

  /** `aportes[i] || STANDARD_PAYMENT`: a missing or zero amount reads as the
      standard payment. */
  function ValueOr(aportes: seq<real>, i: nat): real
  {
    if i < |aportes| && aportes[i] != 0.0 then aportes[i] else StandardPayment
  }

  /** The amount a cell is coloured by is never zero: the recorded amount
      when there is a non-zero one, STANDARD_PAYMENT otherwise. */
  lemma ValueOrNeverZero(aportes: seq<real>, i: nat)
    ensures ValueOr(aportes, i) != 0.0
    ensures i < |aportes| && aportes[i] != 0.0 ==> ValueOr(aportes, i) == aportes[i]
    ensures !(i < |aportes| && aportes[i] != 0.0) ==> ValueOr(aportes, i) == StandardPayment
  {
  }

  /** The colour the full redraw gives data cell i. */
  function CellColor(p: Pass, i: nat): Color
  {
    if i in p.mora then MoraColor else PaymentColor(ValueOr(p.aportes, i))
  }

  /** A data cell gets the mora colour exactly when its index is in
      moraIndices; every other cell gets the payment colour of its amount,
      or of STANDARD_PAYMENT when the amount is missing or zero. */
  lemma CellColorIsMoraExactly(p: Pass, i: nat)
    ensures CellColor(p, i) == MoraColor <==> i in p.mora
    ensures i !in p.mora ==> CellColor(p, i) == PaymentColor(ValueOr(p.aportes, i))
  {
    PaymentColorIsNotMora(ValueOr(p.aportes, i));
  }

  /** One drawHexagon call. */
  datatype HexDraw = HexDraw(x: real, y: real, size: real, color: Color, hasData: bool)

  /** The full redraw's variables: the hexagons drawn so far, newHexGridData
      and dataId. */
  datatype Scan = Scan(draws: seq<HexDraw>, grid: seq<HexagonData>, dataId: nat)

  /** One iteration of the inner loop, at axial (q, r): at most one hexagon
      is drawn, and the index grows exactly when dataId does, by at most one. */
  function Step(p: Pass, st: Scan, q: int, r: int): (next: Scan)
  {
    var x := CellX(p, q);
    var y := CellY(p, q, r);
    if Culled(p, x, y) then st
    else if InShape(q, r) && st.dataId < p.n then
      Scan(st.draws + [HexDraw(x, y, p.size, CellColor(p, st.dataId), true)],
           st.grid + [HexagonData(x, y, p.size, st.dataId, true)],
           st.dataId + 1)
    else
      Scan(st.draws + [HexDraw(x, y, p.size, BackgroundColor, false)], st.grid, st.dataId)
  }

  /** The inner loop of row q run from `st` over r in [RowStart, rEnd): it
      only appends, and the index grows exactly as dataId does. */
  function ScanRow(p: Pass, st: Scan, q: int, rEnd: int): (next: Scan)
    decreases rEnd - RowStart(Radius(p), q)
  {
    if rEnd <= RowStart(Radius(p), q) then st
    else Step(p, ScanRow(p, st, q, rEnd - 1), q, rEnd - 1)
  }

  /** The outer loop run over q in [-R, qEnd): dataId counts the index's
      entries and never passes the number of records. */
  function ScanRows(p: Pass, qEnd: int): (s: Scan)
    requires qEnd >= -Radius(p)
    decreases qEnd + Radius(p)
  {
    if qEnd == -Radius(p) then Scan([], [], 0)
    else ScanRow(p, ScanRows(p, qEnd - 1), qEnd - 1, RowEnd(Radius(p), qEnd - 1) + 1)
  }

  /** The whole double loop. */
  function FullScan(p: Pass): (s: Scan)
    ensures s.dataId == |s.grid| <= p.n
  {
    ScanRowsConsistent(p, IntMax(-Radius(p), Radius(p) + 1));
    ScanRows(p, IntMax(-Radius(p), Radius(p) + 1))
  }

  /** The canvas calls of a sequence of drawHexagon calls. */
  function CallsOf(draws: seq<HexDraw>, s3: real): seq<DrawCall>
  {
    if draws == [] then []
    else
      var d := draws[|draws| - 1];
      CallsOf(draws[..|draws| - 1], s3) + HexagonCalls(d.x, d.y, d.size, s3, d.color, d.hasData)
  }

  /** Drawing one more hexagon after `start` extends the log by its calls. */
  lemma CallsOfAppend(start: seq<DrawCall>, draws: seq<HexDraw>, d: HexDraw, s3: real)
    ensures start + CallsOf(draws + [d], s3) == start + CallsOf(draws, s3) + HexagonCalls(d.x, d.y, d.size, s3, d.color, d.hasData)
  {
    assert (draws + [d])[..|draws|] == draws;
    SeqAppendAssoc(start, CallsOf(draws, s3), HexagonCalls(d.x, d.y, d.size, s3, d.color, d.hasData));
  }


  // ------------------------------------------------ full redraw: properties

  /** Every cell the double loop visits lies within cube distance R of the
      centre, and the sum of its absolute cube coordinates is even, so the
      source's halving is exact. */
  lemma VisitedWithinRadius(R: int, q: int, r: int)
    requires -R <= q <= R && RowStart(R, q) <= r <= RowEnd(R, q)
    ensures (Abs(q) + Abs(r) + Abs(-q - r)) % 2 == 0
    ensures (Abs(q) + Abs(r) + Abs(-q - r)) / 2 <= R
    ensures HexDistance(q, r) == ((Abs(q) + Abs(r) + Abs(-q - r)) / 2) as real
  {
  }

  /** The data draws, in order. */
  function DataDraws(draws: seq<HexDraw>): seq<HexDraw>
  {
    if draws == [] then []
    else
      var d := draws[|draws| - 1];
      DataDraws(draws[..|draws| - 1]) + (if d.hasData then [d] else [])
  }

  lemma DataDrawsAppend(draws: seq<HexDraw>, d: HexDraw)
    ensures DataDraws(draws + [d]) == DataDraws(draws) + (if d.hasData then [d] else [])
  {
    assert (draws + [d])[..|draws|] == draws;
  }

  /** What holds of the full redraw's variables after every cell: the index
      holds only data cells, numbered 0, 1, ... in push order, no more than n;
      the data draws are those cells, each in the mora colour or its payment
      colour; every other draw is background; nothing culled is drawn. */
  ghost predicate Consistent(p: Pass, st: Scan)
  {
    && st.dataId == |st.grid| <= p.n
    && (forall j :: 0 <= j < |st.grid| ==>
          st.grid[j].dataIndex == j && st.grid[j].hasData && st.grid[j].size == p.size)
    && |DataDraws(st.draws)| == |st.grid|
    && (forall j :: 0 <= j < |st.grid| ==>
          DataDraws(st.draws)[j] == HexDraw(st.grid[j].x, st.grid[j].y, p.size, CellColor(p, j), true))
    && (forall k :: 0 <= k < |st.draws| ==>
          !Culled(p, st.draws[k].x, st.draws[k].y) && st.draws[k].size == p.size &&
          (!st.draws[k].hasData ==> st.draws[k].color == BackgroundColor))
  }

  lemma StepConsistent(p: Pass, st: Scan, q: int, r: int)
    requires Consistent(p, st)
    ensures Consistent(p, Step(p, st, q, r))
  {
    var x, y := CellX(p, q), CellY(p, q, r);
    if !Culled(p, x, y) {
      var d := Step(p, st, q, r).draws[|st.draws|];
      DataDrawsAppend(st.draws, d);
    }
  }

  lemma {:induction false} ScanRowConsistent(p: Pass, st: Scan, q: int, rEnd: int)
    requires Consistent(p, st)
    ensures Consistent(p, ScanRow(p, st, q, rEnd))
    decreases rEnd - RowStart(Radius(p), q)
  {
    if rEnd > RowStart(Radius(p), q) {
      ScanRowConsistent(p, st, q, rEnd - 1);
      StepConsistent(p, ScanRow(p, st, q, rEnd - 1), q, rEnd - 1);
    }
  }

  lemma {:induction false} ScanRowsConsistent(p: Pass, qEnd: int)
    requires qEnd >= -Radius(p)
    ensures Consistent(p, ScanRows(p, qEnd))
    decreases qEnd + Radius(p)
  {
    if qEnd > -Radius(p) {
      ScanRowsConsistent(p, qEnd - 1);
      ScanRowConsistent(p, ScanRows(p, qEnd - 1), qEnd - 1, RowEnd(Radius(p), qEnd - 1) + 1);
    }
  }

  /** Every index entry is the centre of a visible cell within DATA_RADIUS
      of the grid centre: data cells are placed only inside the shape. */
  ghost predicate PlacedInShape(p: Pass, grid: seq<HexagonData>)
  {
    forall j :: 0 <= j < |grid| ==>
      exists q, r :: InShape(q, r) && !Culled(p, CellX(p, q), CellY(p, q, r)) &&
                     grid[j].x == CellX(p, q) && grid[j].y == CellY(p, q, r)
  }

  lemma StepPlacedInShape(p: Pass, st: Scan, q: int, r: int)
    requires PlacedInShape(p, st.grid)
    ensures PlacedInShape(p, Step(p, st, q, r).grid)
  {
    var next := Step(p, st, q, r).grid;
    if |next| > |st.grid| {
      forall j | 0 <= j < |next|
        ensures exists q', r' :: InShape(q', r') && !Culled(p, CellX(p, q'), CellY(p, q', r')) &&
                                 next[j].x == CellX(p, q') && next[j].y == CellY(p, q', r')
      {
        if j < |st.grid| {
          assert next[j] == st.grid[j];
        } else {
          assert InShape(q, r) && next[j].x == CellX(p, q) && next[j].y == CellY(p, q, r);
        }
      }
    }
  }

  lemma {:induction false} ScanRowPlacedInShape(p: Pass, st: Scan, q: int, rEnd: int)
    requires PlacedInShape(p, st.grid)
    ensures PlacedInShape(p, ScanRow(p, st, q, rEnd).grid)
    decreases rEnd - RowStart(Radius(p), q)
  {
    if rEnd > RowStart(Radius(p), q) {
      ScanRowPlacedInShape(p, st, q, rEnd - 1);
      StepPlacedInShape(p, ScanRow(p, st, q, rEnd - 1), q, rEnd - 1);
    }
  }

  lemma {:induction false} ScanRowsPlacedInShape(p: Pass, qEnd: int)
    requires qEnd >= -Radius(p)
    ensures PlacedInShape(p, ScanRows(p, qEnd).grid)
    decreases qEnd + Radius(p)
  {
    if qEnd > -Radius(p) {
      ScanRowsPlacedInShape(p, qEnd - 1);
      ScanRowPlacedInShape(p, ScanRows(p, qEnd - 1), qEnd - 1, RowEnd(Radius(p), qEnd - 1) + 1);
    }
  }

  /** After a full redraw each data cell sits at a visible cell whose hex
      distance from the centre is at most DATA_RADIUS. */
  lemma FullScanInShape(p: Pass)
    ensures forall j :: 0 <= j < |FullScan(p).grid| ==>
      exists q, r :: InShape(q, r) && !Culled(p, CellX(p, q), CellY(p, q, r)) &&
                     FullScan(p).grid[j].x == CellX(p, q) && FullScan(p).grid[j].y == CellY(p, q, r)
  {
    ScanRowsPlacedInShape(p, IntMax(-Radius(p), Radius(p) + 1));
    var grid := FullScan(p).grid;
    assert PlacedInShape(p, grid);
    assert forall j :: 0 <= j < |grid| ==>
      exists q, r :: InShape(q, r) && !Culled(p, CellX(p, q), CellY(p, q, r)) &&
                     grid[j].x == CellX(p, q) && grid[j].y == CellY(p, q, r);
  }

  /** After a full redraw the index holds exactly the data cells, numbered
      0, 1, ..., k-1 in push order with k <= n; the j-th data cell drawn is
      the j-th index entry, in the mora colour when j is in moraIndices and
      in the colour of `aportes[j] || STANDARD_PAYMENT` otherwise; every
      other cell drawn is background, and no culled cell is drawn. */
  lemma FullRedrawLaysOutData(p: Pass)
    ensures var scan := FullScan(p);
      && scan.dataId == |scan.grid| <= p.n
      && (forall j :: 0 <= j < |scan.grid| ==>
            scan.grid[j].dataIndex == j && scan.grid[j].hasData && scan.grid[j].size == p.size)
      && |DataDraws(scan.draws)| == |scan.grid|
      && (forall j :: 0 <= j < |scan.grid| ==>
            DataDraws(scan.draws)[j] == HexDraw(scan.grid[j].x, scan.grid[j].y, p.size, CellColor(p, j), true))
      && (forall k :: 0 <= k < |scan.draws| ==>
            !Culled(p, scan.draws[k].x, scan.draws[k].y) &&
            (!scan.draws[k].hasData ==> scan.draws[k].color == BackgroundColor))
  {
    ScanRowsConsistent(p, IntMax(-Radius(p), Radius(p) + 1));
  }

  /** Visible cells within DATA_RADIUS, by the same loop. */
  function ShapeCountRow(p: Pass, q: int, rEnd: int): nat
    decreases rEnd - RowStart(Radius(p), q)
  {
    if rEnd <= RowStart(Radius(p), q) then 0
    else
      var r := rEnd - 1;
      ShapeCountRow(p, q, r) + (if !Culled(p, CellX(p, q), CellY(p, q, r)) && InShape(q, r) then 1 else 0)
  }

  function ShapeCountRows(p: Pass, qEnd: int): nat
    requires qEnd >= -Radius(p)
    decreases qEnd + Radius(p)
  {
    if qEnd == -Radius(p) then 0
    else ShapeCountRows(p, qEnd - 1) + ShapeCountRow(p, qEnd - 1, RowEnd(Radius(p), qEnd - 1) + 1)
  }

  lemma {:induction false} ScanRowCount(p: Pass, st: Scan, q: int, rEnd: int)
    requires st.dataId <= p.n
    ensures ScanRow(p, st, q, rEnd).dataId == IntMin(p.n, st.dataId + ShapeCountRow(p, q, rEnd))
    decreases rEnd - RowStart(Radius(p), q)
  {
    if rEnd > RowStart(Radius(p), q) {
      ScanRowCount(p, st, q, rEnd - 1);
    }
  }

  lemma {:induction false} ScanRowsCount(p: Pass, qEnd: int)
    requires qEnd >= -Radius(p)
    ensures ScanRows(p, qEnd).dataId == IntMin(p.n, ShapeCountRows(p, qEnd))
    decreases qEnd + Radius(p)
  {
    if qEnd > -Radius(p) {
      ScanRowsCount(p, qEnd - 1);
      ScanRowCount(p, ScanRows(p, qEnd - 1), qEnd - 1, RowEnd(Radius(p), qEnd - 1) + 1);
    }
  }

  /** The full redraw hands out min(n, c) data cells, where c counts the
      visible cells within DATA_RADIUS: records beyond the shape's capacity
      get no cell, and shape cells beyond n records stay background. */
  lemma FullRedrawCoverage(p: Pass)
    ensures |FullScan(p).grid| == IntMin(p.n, ShapeCountRows(p, IntMax(-Radius(p), Radius(p) + 1)))
  {
    ScanRowsCount(p, IntMax(-Radius(p), Radius(p) + 1));
    FullRedrawLaysOutData(p);
  }

  // ---------------------------------------------------- incremental pass

  /** `aportes[i] !== prevAportes[i]`; a missing previous entry counts as
      changed. */
  predicate Changed(aportes: seq<real>, prev: seq<real>, i: nat)
    requires i < |aportes|
  {
    i >= |prev| || aportes[i] != prev[i]
  }

  /** `hexGridData.find(hex => hex.dataIndex === i)`: the first cell with
      that data index, or none. */
  function FindCell(grid: seq<HexagonData>, i: nat): (found: Option<HexagonData>)
    ensures found.Some? ==> found.value in grid && found.value.dataIndex == i
    ensures found.None? ==> forall c :: c in grid ==> c.dataIndex != i
  {
    if grid == [] then None
    else if grid[0].dataIndex == i then Some(grid[0])
    else FindCell(grid[1..], i)
  }

  /** The cell found is the first with that data index: every cell before
      it has another. */
  lemma {:induction false} FindCellIsFirst(grid: seq<HexagonData>, i: nat)
    requires FindCell(grid, i).Some?
    ensures exists k :: 0 <= k < |grid| && grid[k] == FindCell(grid, i).value &&
                        (forall m :: 0 <= m < k ==> grid[m].dataIndex != i)
    decreases |grid|
  {
    if grid[0].dataIndex != i {
      FindCellIsFirst(grid[1..], i);
      var k :| 0 <= k < |grid[1..]| && grid[1..][k] == FindCell(grid[1..], i).value &&
               (forall m :: 0 <= m < k ==> grid[1..][m].dataIndex != i);
      assert grid[k + 1] == FindCell(grid, i).value;
      assert forall m :: 0 <= m < k + 1 ==> grid[m].dataIndex != i by {
        forall m | 0 <= m < k + 1 ensures grid[m].dataIndex != i {
          if m > 0 { assert grid[m] == grid[1..][m - 1]; }
        }
      }
    } else {
      assert grid[0] == FindCell(grid, i).value;
    }
  }

  /** The repaint of a found cell: its payment colour, as a data cell. */
  function Repaint(cell: HexagonData, value: real): HexDraw
  {
    HexDraw(cell.x, cell.y, cell.size, PaymentColor(value), true)
  }

  /** The hexagons the incremental loop draws for i in [0, k). */
  function Repaints(aportes: seq<real>, prev: seq<real>, grid: seq<HexagonData>, k: nat): seq<HexDraw>
    requires k <= |aportes|
  {
    if k == 0 then []
    else
      var i := k - 1;
      var found := FindCell(grid, i);
      Repaints(aportes, prev, grid, i) +
        (if Changed(aportes, prev, i) && found.Some? then [Repaint(found.value, aportes[i])] else [])
  }

  /** A hexagon is repainted exactly when it is the cell of some index whose
      amount changed, in that amount's payment colour. */
  lemma {:induction false} RepaintsExactly(aportes: seq<real>, prev: seq<real>, grid: seq<HexagonData>, k: nat, d: HexDraw)
    requires k <= |aportes|
    ensures d in Repaints(aportes, prev, grid, k) <==>
      exists i :: 0 <= i < k && Changed(aportes, prev, i) && FindCell(grid, i).Some? &&
                  d == Repaint(FindCell(grid, i).value, aportes[i])
  {
    if k > 0 {
      var i := k - 1;
      RepaintsExactly(aportes, prev, grid, i, d);
      var tail := if Changed(aportes, prev, i) && FindCell(grid, i).Some? then [Repaint(FindCell(grid, i).value, aportes[i])] else [];
      assert Repaints(aportes, prev, grid, k) == Repaints(aportes, prev, grid, i) + tail;
      assert d in tail <==> Changed(aportes, prev, i) && FindCell(grid, i).Some? && d == Repaint(FindCell(grid, i).value, aportes[i]);
    }
  }

  /** Rendering the same amounts again draws nothing. */
  lemma {:induction false} RepaintsNothingWhenUnchanged(aportes: seq<real>, grid: seq<HexagonData>, k: nat)
    requires k <= |aportes|
    ensures Repaints(aportes, aportes, grid, k) == []
  {
    if k > 0 {
      RepaintsNothingWhenUnchanged(aportes, grid, k - 1);
    }
  }

  /** An index whose i-th entry has dataIndex i, as the full redraw builds. */
  predicate Indexed(grid: seq<HexagonData>)
  {
    forall j :: 0 <= j < |grid| ==> grid[j].dataIndex == j
  }

  /** The index a full redraw builds is Indexed. */
  lemma FullRedrawIndexed(p: Pass)
    ensures Indexed(FullScan(p).grid)
  {
    FullRedrawLaysOutData(p);
  }

  lemma {:induction false} FindCellIndexed(grid: seq<HexagonData>, i: nat, offset: nat)
    requires forall j :: 0 <= j < |grid| ==> grid[j].dataIndex == j + offset
    ensures FindCell(grid, i) == if offset <= i < offset + |grid| then Some(grid[i - offset]) else None
    decreases |grid|
  {
    if grid != [] && grid[0].dataIndex != i {
      FindCellIndexed(grid[1..], i, offset + 1);
    }
  }

  /** When exactly one amount changed, the incremental pass draws exactly one
      hexagon if that index has a cell, and nothing otherwise. */
  lemma RepaintsSingleChange(aportes: seq<real>, prev: seq<real>, grid: seq<HexagonData>, i: nat, k: nat)
    requires |aportes| == |prev| && i < k <= |aportes| && Indexed(grid)
    requires forall j :: 0 <= j < |aportes| && j != i ==> aportes[j] == prev[j]
    requires aportes[i] != prev[i]
    ensures Repaints(aportes, prev, grid, k) == if i < |grid| then [Repaint(grid[i], aportes[i])] else []
  {
    RepaintsAtChange(aportes, prev, grid, i);
    RepaintsUnchangedFrom(aportes, prev, grid, i + 1, k);
  }

  lemma RepaintsAtChange(aportes: seq<real>, prev: seq<real>, grid: seq<HexagonData>, i: nat)
    requires |aportes| == |prev| && i < |aportes| && Indexed(grid)
    requires forall j :: 0 <= j < i ==> aportes[j] == prev[j]
    requires aportes[i] != prev[i]
    ensures Repaints(aportes, prev, grid, i + 1) == if i < |grid| then [Repaint(grid[i], aportes[i])] else []
  {
    var found := FindCell(grid, i);
    RepaintsNothingBefore(aportes, prev, grid, i);
    FindCellIndexed(grid, i, 0);
    assert Changed(aportes, prev, i);
    if i < |grid| {
      assert Repaints(aportes, prev, grid, i + 1) == [] + [Repaint(found.value, aportes[i])];
    } else {
      assert Repaints(aportes, prev, grid, i + 1) == [] + [];
    }
  }

  /** Indices whose amounts did not change add no repaints. */
  lemma {:induction false} RepaintsUnchangedFrom(aportes: seq<real>, prev: seq<real>, grid: seq<HexagonData>, m: nat, k: nat)
    requires m <= k <= |aportes|
    requires forall j :: m <= j < k ==> !Changed(aportes, prev, j)
    ensures Repaints(aportes, prev, grid, k) == Repaints(aportes, prev, grid, m)
    decreases k - m
  {
    if m < k {
      RepaintsUnchangedFrom(aportes, prev, grid, m, k - 1);
      assert Repaints(aportes, prev, grid, k) == Repaints(aportes, prev, grid, k - 1) + [];
    }
  }

  lemma {:induction false} RepaintsNothingBefore(aportes: seq<real>, prev: seq<real>, grid: seq<HexagonData>, k: nat)
    requires |aportes| == |prev| && k <= |aportes|
    requires forall j :: 0 <= j < k ==> aportes[j] == prev[j]
    ensures Repaints(aportes, prev, grid, k) == []
  {
    if k > 0 {
      RepaintsNothingBefore(aportes, prev, grid, k - 1);
    }
  }

  /** For a data cell outside moraIndices with a non-zero amount, the
      incremental repaint draws exactly what the full redraw draws for it. */
  lemma IncrementalMatchesFullRedraw(p: Pass, i: nat)
    requires i < |FullScan(p).grid| && i < |p.aportes| && p.aportes[i] != 0.0 && i !in p.mora
    ensures FindCell(FullScan(p).grid, i) == Some(FullScan(p).grid[i])
    ensures |DataDraws(FullScan(p).draws)| == |FullScan(p).grid|
    ensures Repaint(FullScan(p).grid[i], p.aportes[i]) == DataDraws(FullScan(p).draws)[i]
  {
    FullRedrawLaysOutData(p);
    FindCellIndexed(FullScan(p).grid, i, 0);
  }

  /** The incremental pass has no `|| STANDARD_PAYMENT` fallback: a data
      cell whose amount becomes 0 is drawn in the standard payment's colour,
      hsl(142, 44%, 82%), by the full redraw, but repainted white,
      hsl(0, 0%, 100%), by the incremental pass. */
  lemma IncrementalPaintsZeroWhite(p: Pass, i: nat)
    requires i < |FullScan(p).grid| && i < |p.aportes| && p.aportes[i] == 0.0 && i !in p.mora
    ensures |DataDraws(FullScan(p).draws)| == |FullScan(p).grid|
    ensures DataDraws(FullScan(p).draws)[i].color == PaymentColor(StandardPayment) == Hsl(142, 44, 82)
    ensures Repaint(FullScan(p).grid[i], p.aportes[i]).color == Hsl(0, 0, 100)
    ensures Repaint(FullScan(p).grid[i], p.aportes[i]).color != DataDraws(FullScan(p).draws)[i].color
  {
    FullRedrawLaysOutData(p);
    StandardPaymentColor();
    PaymentColorBelowRange(0.0);
  }

  /** The incremental pass has no mora override: a data cell in moraIndices
      that it repaints loses the mora colour the full redraw gave it. */
  lemma IncrementalDropsMoraColor(p: Pass, i: nat, value: real)
    requires i < |FullScan(p).grid| && i in p.mora
    ensures |DataDraws(FullScan(p).draws)| == |FullScan(p).grid|
    ensures DataDraws(FullScan(p).draws)[i].color == MoraColor
    ensures Repaint(FullScan(p).grid[i], value).color != MoraColor
  {
    FullRedrawLaysOutData(p);
    PaymentColorIsNotMora(value);
  }

  // ------------------------------------------------------------- the hook

  /** The effect's retained state: the canvas and its context, the index of
      data cells (hexGridData) and the amounts last rendered (prevAportes). */
  class HoneycombCanvas {
    const ctx: Canvas
    const s3: real
    var hexGridData: seq<HexagonData>
    var prevAportes: seq<real>

    /** s3 is the square root of 3, and the i-th entry of the index is
        data cell i, which the incremental pass's lookup relies on. */
    ghost predicate Valid()
      reads this
    {
      IsSqrt3(s3) && Indexed(hexGridData)
    }

    /** A canvas element of the given initial size, and empty refs. */
    constructor (width: real, height: real, s3: real)
      requires IsSqrt3(s3)
      ensures Valid() && fresh(ctx)
      ensures ctx.width == width && ctx.height == height && ctx.log == []
      ensures hexGridData == [] && prevAportes == []
    {
      ctx := new Canvas(width, height);
      this.s3 := s3;
      hexGridData := [];
      prevAportes := [];
    }

    /** The effect body, run for new amounts, mora indices or dimensions. */
    method Render(aportes: seq<real>, moraIndices: seq<int>, dims: Dimensions, n: nat)
      requires Valid()
      modifies this, ctx
      ensures Valid()
      ensures prevAportes == aportes
      ensures (dims.width != old(ctx.width) || dims.height != old(ctx.height)) ==>
        var p := PassFor(dims, aportes, moraIndices, n, s3);
        && ctx.width == dims.width && ctx.height == dims.height
        && ctx.log == old(ctx.log) + [ClearRect(0.0, 0.0, dims.width, dims.height)] + CallsOf(FullScan(p).draws, s3)
        && hexGridData == FullScan(p).grid
      ensures (dims.width == old(ctx.width) && dims.height == old(ctx.height)) ==>
        && ctx.width == old(ctx.width) && ctx.height == old(ctx.height)
        && ctx.log == old(ctx.log) + CallsOf(Repaints(aportes, old(prevAportes), old(hexGridData), |aportes|), s3)
        && hexGridData == old(hexGridData)
    {
      if dims.width != ctx.width || dims.height != ctx.height {
        FullRedraw(aportes, moraIndices, dims, n);
        return;
      }
      Incremental(aportes);
      prevAportes := aportes;
    }

    /** The full path: resize, clear, lay out and draw every visible cell. */
    method FullRedraw(aportes: seq<real>, moraIndices: seq<int>, dims: Dimensions, n: nat)
      requires Valid()
      modifies this, ctx
      ensures Valid()
      ensures var p := PassFor(dims, aportes, moraIndices, n, s3);
        && ctx.width == dims.width && ctx.height == dims.height
        && ctx.log == old(ctx.log) + [ClearRect(0.0, 0.0, dims.width, dims.height)] + CallsOf(FullScan(p).draws, s3)
        && hexGridData == FullScan(p).grid
        && prevAportes == aportes
    {
      ctx.Resize(dims.width, dims.height);
      var hexSize := HexSize(dims, s3);
      var layout := CalculateHexagonGrid(dims, hexSize, s3);
      var p := Pass(dims, hexSize, layout, s3, aportes, moraIndices, n);
      assert p == PassFor(dims, aportes, moraIndices, n, s3);
      ctx.Draw(ClearRect(0.0, 0.0, dims.width, dims.height));
      ghost var start := ctx.log;
      var newHexGridData: seq<HexagonData> := [];
      var dataId: nat := 0;
      ghost var draws: seq<HexDraw> := [];
      var R := layout.viewportRadius;
      var q := -R;
      while q <= R
        invariant -R <= q <= IntMax(-R, R + 1)
        invariant Scan(draws, newHexGridData, dataId) == ScanRows(p, q)
        invariant ctx.log == start + CallsOf(draws, s3)
        invariant ctx.width == dims.width && ctx.height == dims.height
        invariant Valid()
      {
        newHexGridData, dataId, draws := DrawRow(p, q, newHexGridData, dataId, draws, start);
        assert ScanRows(p, q + 1) == ScanRow(p, ScanRows(p, q), q, RowEnd(R, q) + 1);
        q := q + 1;
      }
      assert Scan(draws, newHexGridData, dataId) == FullScan(p);
      FullRedrawIndexed(p);
      hexGridData := newHexGridData;
      prevAportes := aportes;
    }

    /** The inner loop of the full redraw: row q of the hex range. */
    method DrawRow(p: Pass, q: int, grid: seq<HexagonData>, dataId: nat,
                   ghost draws: seq<HexDraw>, ghost start: seq<DrawCall>)
      returns (grid': seq<HexagonData>, dataId': nat, ghost draws': seq<HexDraw>)
      requires Valid() && p.s3 == s3 && p.size > 0.0 && -Radius(p) <= q <= Radius(p)
      requires ctx.log == start + CallsOf(draws, s3)
      modifies ctx`log
      ensures Scan(draws', grid', dataId') == ScanRow(p, Scan(draws, grid, dataId), q, RowEnd(Radius(p), q) + 1)
      ensures ctx.log == start + CallsOf(draws', s3)
    {
      var R := p.layout.viewportRadius;
      var r1 := IntMax(-R, -q - R);
      var r2 := IntMin(R, -q + R);
      grid', dataId', draws' := grid, dataId, draws;
      var r := r1;
      while r <= r2
        invariant r1 <= r <= r2 + 1
        invariant Scan(draws', grid', dataId') == ScanRow(p, Scan(draws, grid, dataId), q, r)
        invariant ctx.log == start + CallsOf(draws', s3)
      {
        ghost var before := Scan(draws', grid', dataId');
        grid', dataId', draws' := DrawCell(p, q, r, grid', dataId', draws', start);
        assert Scan(draws', grid', dataId') == Step(p, before, q, r);
        r := r + 1;
      }
    }

    /** One cell of the full redraw: skip it when culled, otherwise draw it,
        as a data cell when it lies in the shape and records remain. */
    method DrawCell(p: Pass, q: int, r: int, grid: seq<HexagonData>, dataId: nat,
                    ghost draws: seq<HexDraw>, ghost start: seq<DrawCall>)
      returns (grid': seq<HexagonData>, dataId': nat, ghost draws': seq<HexDraw>)
      requires Valid() && p.s3 == s3
      requires ctx.log == start + CallsOf(draws, s3)
      modifies ctx`log
      ensures Scan(draws', grid', dataId') == Step(p, Scan(draws, grid, dataId), q, r)
      ensures ctx.log == start + CallsOf(draws', s3)
    {
      var hexSize := p.size;
      var x := p.layout.centerX + p.layout.hexWidth * q as real;
      var y := p.layout.centerY + p.layout.hexHeight * (r as real + q as real / 2.0);
      assert x == CellX(p, q) && y == CellY(p, q, r);
      if x + hexSize < 0.0 || x - hexSize > p.dims.width || y + hexSize < 0.0 || y - hexSize > p.dims.height {
        assert Culled(p, x, y);
        return grid, dataId, draws;
      }
      assert !Culled(p, x, y);
      var hexDistance := (Abs(q) + Abs(r) + Abs(-q - r)) as real / 2.0;
      var hasData := hexDistance <= DataRadius as real && dataId < p.n;
      assert hasData == (InShape(q, r) && dataId < p.n);
      var color: Color;
      grid', dataId' := grid, dataId;
      if hasData {
        if dataId in p.mora {
          color := MoraColor;
        } else {
          color := PaymentColor(ValueOr(p.aportes, dataId));
        }
        assert color == CellColor(p, dataId);
        grid' := grid + [HexagonData(x, y, hexSize, dataId, hasData)];
        dataId' := dataId + 1;
      } else {
        color := BackgroundColor;
      }
      var d := HexDraw(x, y, hexSize, color, hasData);
      assert Step(p, Scan(draws, grid, dataId), q, r) == Scan(draws + [d], grid', dataId');
      draws' := Paint(d, draws, start);
    }

    /** drawHexagon for one recorded draw, continuing the log from `start`. */
    method Paint(d: HexDraw, ghost draws: seq<HexDraw>, ghost start: seq<DrawCall>) returns (ghost draws': seq<HexDraw>)
      requires ctx.log == start + CallsOf(draws, s3)
      modifies ctx`log
      ensures draws' == draws + [d]
      ensures ctx.log == start + CallsOf(draws', s3)
    {
      DrawHexagon(ctx, d.x, d.y, d.size, s3, d.color, d.hasData);
      CallsOfAppend(start, draws, d, s3);
      draws' := draws + [d];
    }

    /** The incremental path: repaint the cells of changed amounts. */
    method Incremental(aportes: seq<real>)
      requires Valid()
      modifies ctx`log
      ensures ctx.log == old(ctx.log) + CallsOf(Repaints(aportes, prevAportes, hexGridData, |aportes|), s3)
    {
      var i := 0;
      ghost var start := ctx.log;
      while i < |aportes|
        invariant 0 <= i <= |aportes|
        invariant ctx.log == start + CallsOf(Repaints(aportes, prevAportes, hexGridData, i), s3)
      {
        RepaintIndex(aportes, i, start);
        i := i + 1;
      }
    }

    /** One index of the incremental loop: repaint its cell if its amount
        changed and a cell carries that index. */
    method RepaintIndex(aportes: seq<real>, i: nat, ghost start: seq<DrawCall>)
      requires Valid() && i < |aportes|
      requires ctx.log == start + CallsOf(Repaints(aportes, prevAportes, hexGridData, i), s3)
      modifies ctx`log
      ensures ctx.log == start + CallsOf(Repaints(aportes, prevAportes, hexGridData, i + 1), s3)
    {
      ghost var done := Repaints(aportes, prevAportes, hexGridData, i);
      if i >= |prevAportes| || aportes[i] != prevAportes[i] {
        var hexToUpdate := FindCell(hexGridData, i);
        if hexToUpdate.Some? {
          var newColor := PaymentColor(aportes[i]);
          DrawHexagon(ctx, hexToUpdate.value.x, hexToUpdate.value.y, hexToUpdate.value.size, s3, newColor, true);
          CallsOfAppend(start, done, Repaint(hexToUpdate.value, aportes[i]), s3);
          assert Repaints(aportes, prevAportes, hexGridData, i + 1) == done + [Repaint(hexToUpdate.value, aportes[i])];
        } else {
          assert Repaints(aportes, prevAportes, hexGridData, i + 1) == done;
        }
      } else {
        assert Repaints(aportes, prevAportes, hexGridData, i + 1) == done;
      }
    }
  }
}
