// The square block of grid cells around a cell: which cells it holds, which points it is sure to
// cover, the eight neighbours (core/src/geo/geohash.ts) and the precision chosen for a radius.

module GridBlock {
  import opened Numbers
  import opened Geohash

  // ---- Wrapping columns -----------------------------------------------------------------------

  /** `((x % n) + n) % n` with the remainder of JavaScript. */
  function WrapCol(x: int, n: nat): int
    requires n > 0
  {
    RemInt(RemInt(x, n) + n, n)
  }

  lemma ModUnique(x: int, n: int, r: int, k: int)
    requires n > 0 && 0 <= r < n && x == r + n * k
    ensures x % n == r
  {
    var e := x / n - k;
    assert n * e == r - x % n;
    SmallMultiple(n, e);
  }

  lemma SmallMultiple(d: int, e: int)
    requires -d < d * e < d
    ensures e == 0
  {
  }

  /** Wrapping is the remainder in [0, n), for negative columns as well. */
  lemma WrapColIsMod(x: int, n: nat)
    requires n > 0
    ensures WrapCol(x, n) == x % n
  {
    if x >= 0 {
      ModUnique(x % n + n, n, x % n, 1);
    } else {
      var r := (-x) % n;
      var k := (-x) / n;
      assert -x == n * k + r;
      if r == 0 {
        ModUnique(n, n, 0, 1);
        ModUnique(x, n, 0, -k);
      } else {
        ModUnique(n - r, n, n - r, 0);
        ModUnique(x, n, n - r, -k - 1);
      }
    }
  }

  /** `col` is at most `rings` columns east or west of `from`, around the antimeridian. */
  predicate ColNear(from: int, col: int, rings: int, n: nat)
    requires n > 0
  {
    (col - from) % n <= rings || (from - col) % n <= rings
  }

  /** The column `d` steps east of `from`. */
  function ColAt(from: int, d: int, n: nat): int
    requires n > 0
  {
    WrapCol(from + d, n)
  }

  /** Some offset in [lo, hi) wraps `from` onto `col`. */
  ghost predicate ColReached(from: int, col: int, lo: int, hi: int, n: nat)
    requires n > 0
  {
    exists d :: lo <= d < hi && ColAt(from, d, n) == col
  }

  lemma StepIsNear(from: int, d: int, rings: int, n: nat)
    requires n > 0 && -rings <= d <= rings
    ensures ColNear(from, ColAt(from, d, n), rings, n)
  {
    WrapColIsMod(from + d, n);
    OffsetMod(from, d, n);
    if d >= 0 {
      ModAtMost(d, n);
    } else {
      ModAtMost(-d, n);
    }
  }

  lemma NearIsReached(from: int, col: int, rings: int, n: nat)
    requires n > 0 && 0 <= col < n && ColNear(from, col, rings, n)
    ensures ColReached(from, col, 0 - rings, rings + 1, n)
  {
    var east, west := (col - from) % n, (from - col) % n;
    if east <= rings {
      OffsetBack(from, col, n);
      WrapColIsMod(from + east, n);
      assert ColAt(from, east, n) == col;
    } else {
      OffsetBackWest(from, col, n);
      WrapColIsMod(from - west, n);
      assert ColAt(from, 0 - west, n) == col;
    }
  }

  /** The offsets -rings..rings reach exactly the columns at most `rings` away. */
  lemma ReachedIsNear(from: int, col: int, rings: int, n: nat)
    requires n > 0 && 0 <= col < n
    ensures ColReached(from, col, 0 - rings, rings + 1, n) <==> ColNear(from, col, rings, n)
  {
    if ColReached(from, col, 0 - rings, rings + 1, n) {
      var d :| 0 - rings <= d < rings + 1 && ColAt(from, d, n) == col;
      StepIsNear(from, d, rings, n);
    }
    if ColNear(from, col, rings, n) {
      NearIsReached(from, col, rings, n);
    }
  }

  lemma ModAtMost(d: nat, n: nat)
    requires n > 0
    ensures d % n <= d
  {
    if d < n {
      ModUnique(d, n, d, 0);
    }
  }

  lemma OffsetMod(from: int, d: int, n: nat)
    requires n > 0
    ensures ((from + d) % n - from) % n == d % n
    ensures (from - (from + d) % n) % n == (-d) % n
  {
    var k := (from + d) / n;
    var col := (from + d) % n;
    assert from + d == n * k + col;
    assert col - from == d % n + n * (d / n - k) by {
      assert d == n * (d / n) + d % n;
      assert n * (d / n - k) == n * (d / n) - n * k;
    }
    ModUnique(col - from, n, d % n, d / n - k);
    var e := (-d) / n;
    assert from - col == (-d) % n + n * (e + k) by {
      assert -d == n * e + (-d) % n;
      assert n * (e + k) == n * e + n * k;
    }
    ModUnique(from - col, n, (-d) % n, e + k);
  }

  lemma OffsetBack(from: int, col: int, n: nat)
    requires n > 0 && 0 <= col < n
    ensures (from + (col - from) % n) % n == col
  {
    var k := (col - from) / n;
    assert col - from == n * k + (col - from) % n;
    assert from + (col - from) % n == col + n * (-k);
    ModUnique(from + (col - from) % n, n, col, -k);
  }

  lemma OffsetBackWest(from: int, col: int, n: nat)
    requires n > 0 && 0 <= col < n
    ensures (from - (from - col) % n) % n == col
  {
    var k := (from - col) / n;
    assert from - col == n * k + (from - col) % n;
    ModUnique(from - (from - col) % n, n, col, k);
  }

  // ---- The block ------------------------------------------------------------------------------

  /** `cell` lies in the (2 * rings + 1)-square block around `center`: rows stop at the poles,
      columns wrap at the antimeridian. */
  predicate InBlock(center: GridCell, cell: GridCell, rings: int, bits: nat) {
    && InGrid(cell, bits)
    && -rings <= cell.row - center.row <= rings
    && ColNear(center.col, cell.col, rings, ColCount(bits))
  }

  /** Angular distance between two meridians. */
  function LngGap(a: real, b: real): real {
    var d := AbsReal(NormalLng(a) - NormalLng(b));
    MinReal(d, 360.0 - d)
  }

  /** Two offsets at most `rings` cells apart have indices at most `rings` apart. */
  lemma IndexLipschitz(a: real, b: real, span: real, count: nat, rings: nat)
    requires span > 0.0 && count > 0
    requires 0.0 <= a <= Edge(count, span) && 0.0 <= b <= Edge(count, span)
    requires a <= b + Edge(rings, span)
    ensures AxisIndex(a, span, count) <= AxisIndex(b, span, count) + rings
  {
    QuotientShift(a, b, span, rings);
    CappedShift(a / span, b / span, count, rings);
  }

  lemma QuotientShift(a: real, b: real, span: real, rings: int)
    requires span > 0.0
    ensures a <= b + Edge(rings, span) <==> a / span <= b / span + rings as real
  {
    QuotientOrder(a, span, b / span + rings as real);
    assert (b / span + rings as real) * span == (b / span) * span + rings as real * span;
    assert (b / span) * span == b;
  }

  lemma CappedShift(x: real, y: real, n: int, rings: nat)
    requires n >= 1 && x <= y + rings as real
    ensures Min(n - 1, x.Floor) <= Min(n - 1, y.Floor) + rings
  {
  }

  /** The same for an offset that reaches the other across the end of a circular axis. */
  lemma IndexWraps(a: real, b: real, span: real, count: nat, rings: nat)
    requires span > 0.0 && count > 0
    requires 0.0 <= a < Edge(count, span) && 0.0 <= b < Edge(count, span)
    requires a + Edge(count, span) <= b + Edge(rings, span)
    ensures AxisIndex(a, span, count) + count <= AxisIndex(b, span, count) + rings
  {
    var shift := rings - count;
    assert Edge(rings, span) == Edge(shift, span) + Edge(count, span) by {
      assert rings as real == shift as real + count as real;
    }
    QuotientShift(a, b, span, shift);
    QuotientOrder(a, span, count as real);
    QuotientOrder(b, span, count as real);
    BelowCap(a / span, b / span, count, rings);
  }

  lemma BelowCap(x: real, y: real, n: int, rings: nat)
    requires n >= 1 && x < n as real && y < n as real && x <= y + (rings - n) as real
    ensures Min(n - 1, x.Floor) + n <= Min(n - 1, y.Floor) + rings
  {
  }

  lemma SmallMod(x: int, n: nat)
    requires 0 <= x < n
    ensures x % n == x
    ensures x > 0 ==> (-x) % n == n - x
  {
    ModUnique(x, n, x, 0);
    if x > 0 {
      ModUnique(-x, n, n - x, -1);
    }
  }

  lemma ColumnsNear(a: real, b: real, span: real, count: nat, rings: nat)
    requires span > 0.0 && count > 0
    requires 0.0 <= a < Edge(count, span) && 0.0 <= b < Edge(count, span)
    requires AbsReal(a - b) <= Edge(rings, span) || Edge(count, span) - AbsReal(a - b) <= Edge(rings, span)
    ensures ColNear(AxisIndex(a, span, count), AxisIndex(b, span, count), rings, count)
  {
    var i, j := AxisIndex(a, span, count), AxisIndex(b, span, count);
    AxisIndexBounds(a, span, count);
    AxisIndexBounds(b, span, count);
    if i <= j {
      SmallMod(j - i, count);
    } else {
      SmallMod(i - j, count);
    }
    if AbsReal(a - b) <= Edge(rings, span) {
      IndexLipschitz(a, b, span, count, rings);
      IndexLipschitz(b, a, span, count, rings);
    } else if a <= b {
      IndexWraps(a, b, span, count, rings);
    } else {
      IndexWraps(b, a, span, count, rings);
    }
  }

  /** A point within `rings` cell heights and `rings` cell widths of the centre, measured around
      the antimeridian, falls in the block. */
  lemma BlockCovers(center: LatLng, point: LatLng, rings: nat, bits: nat)
    requires AbsReal(ClampLat(point.lat) - ClampLat(center.lat)) <= Edge(rings, LatSpan(bits))
    requires LngGap(point.lng, center.lng) <= Edge(rings, LngSpan(bits))
    ensures InBlock(CellOf(center, bits), CellOf(point, bits), rings, bits)
  {
    var a, b := ClampLat(center.lat) + 90.0, ClampLat(point.lat) + 90.0;
    CellOfContains(point, bits);
    SpansCover(bits);
    IndexLipschitz(a, b, LatSpan(bits), RowCount(bits), rings);
    IndexLipschitz(b, a, LatSpan(bits), RowCount(bits), rings);
    ColumnsNear(NormalLng(center.lng) + 180.0, NormalLng(point.lng) + 180.0,
                LngSpan(bits), ColCount(bits), rings);
  }

  // ---- The eight neighbours -------------------------------------------------------------------

  function ClampRow(row: int, bits: nat): int {
    if row < 0 then 0 else if row >= RowCount(bits) then RowCount(bits) - 1 else row
  }

  datatype Neighbors = Neighbors(n: GridCell, s: GridCell, e: GridCell, w: GridCell,
                                 ne: GridCell, nw: GridCell, se: GridCell, sw: GridCell)
  {
    function Cells(): set<GridCell> {
      {n, s, e, w, ne, nw, se, sw}
    }
  }

  function NeighborCells(cell: GridCell, bits: nat): Neighbors {
    var north, south := ClampRow(cell.row + 1, bits), ClampRow(cell.row - 1, bits);
    var east, west := WrapCol(cell.col + 1, ColCount(bits)), WrapCol(cell.col - 1, ColCount(bits));
    Neighbors(GridCell(north, cell.col), GridCell(south, cell.col),
              GridCell(cell.row, east), GridCell(cell.row, west),
              GridCell(north, east), GridCell(north, west),
              GridCell(south, east), GridCell(south, west))
  }

  /** A cell and its neighbours are exactly the cells of the 3x3 block around it. */
  lemma NeighborsAreTheBlock(cell: GridCell, other: GridCell, bits: nat)
    requires InGrid(cell, bits)
    ensures other == cell || other in NeighborCells(cell, bits).Cells() <==> InBlock(cell, other, 1, bits)
  {
    var n := ColCount(bits);
    var east, west := WrapCol(cell.col + 1, n), WrapCol(cell.col - 1, n);
    AdjacentColumns(cell.col, other.col, n);
    var north, south := ClampRow(cell.row + 1, bits), ClampRow(cell.row - 1, bits);
    assert other == cell || other in NeighborCells(cell, bits).Cells()
      <==> other.row in {cell.row, north, south} && other.col in {cell.col, east, west};
    assert other.row in {cell.row, north, south} <==> 0 <= other.row < RowCount(bits) && -1 <= other.row - cell.row <= 1;
  }

  lemma AdjacentColumns(from: int, col: int, n: nat)
    requires 0 <= from < n
    ensures col in {from, WrapCol(from + 1, n), WrapCol(from - 1, n)} <==> 0 <= col < n && ColNear(from, col, 1, n)
  {
    WrapColIsMod(from, n);
    WrapColIsMod(from + 1, n);
    WrapColIsMod(from - 1, n);
    SmallMod(from, n);
    StepIsNear(from, 0, 1, n);
    StepIsNear(from, 1, 1, n);
    StepIsNear(from, -1, 1, n);
    if 0 <= col < n && ColNear(from, col, 1, n) {
      NearIsReached(from, col, 1, n);
      var d :| -1 <= d < 2 && ColAt(from, d, n) == col;
    }
  }

  // Which neighbour is where.

  lemma QuotientNext(x: real, span: real)
    requires span > 0.0
    ensures (x + span) / span == x / span + 1.0 && (x - span) / span == x / span - 1.0
  {
    var q := x / span;
    assert q * span == x;
    assert (q + 1.0) * span == q * span + span && (q - 1.0) * span == q * span - span;
    QuotientUnique(x + span, span, q + 1.0);
    QuotientUnique(x - span, span, q - 1.0);
  }

  /** One span further on the index is one more, capped; one span back it is one less. */
  lemma OneSpanOn(x: real, span: real, count: nat)
    requires span > 0.0 && 0.0 <= x < Edge(count, span)
    ensures var i := AxisIndex(x, span, count);
            && 0 <= i < count
            && AxisIndex(x + span, span, count) == Min(count - 1, i + 1)
            && AxisIndex(x - span, span, count) == i - 1
  {
    QuotientOrder(x, span, 0.0);
    QuotientOrder(x, span, count as real);
    QuotientNext(x, span);
  }

  /** That leaves the axis exactly from the last cell, or the first. */
  lemma SpanLeavesAxis(x: real, span: real, count: nat)
    requires span > 0.0 && 0.0 <= x < Edge(count, span)
    ensures x + span >= Edge(count, span) <==> AxisIndex(x, span, count) == count - 1
    ensures x - span < 0.0 <==> AxisIndex(x, span, count) == 0
  {
    QuotientOrder(x, span, 0.0);
    QuotientOrder(x, span, count as real);
    QuotientOrder(x + span, span, count as real);
    QuotientOrder(x - span, span, 0.0);
    QuotientNext(x, span);
  }

  /** The ends of an axis have the first and the last index. */
  lemma EndIndices(span: real, count: nat)
    requires span > 0.0 && count > 0
    ensures AxisIndex(0.0, span, count) == 0
    ensures AxisIndex(Edge(count, span), span, count) == count - 1
  {
    QuotientUnique(0.0, span, 0.0);
    QuotientUnique(Edge(count, span), span, count as real);
  }

  /** One cell height north or south of a point is the next row that way, or the same at a pole. */
  lemma RowStep(lat: real, bits: nat)
    requires -90.0 <= lat < 90.0
    ensures var span, rows := LatSpan(bits), RowCount(bits);
            var row := AxisIndex(lat + 90.0, span, rows);
            && AxisIndex(ClampLat(lat + span) + 90.0, span, rows) == ClampRow(row + 1, bits)
            && AxisIndex(ClampLat(lat - span) + 90.0, span, rows) == ClampRow(row - 1, bits)
  {
    SpansCover(bits);
    OneSpanOn(lat + 90.0, LatSpan(bits), RowCount(bits));
    SpanLeavesAxis(lat + 90.0, LatSpan(bits), RowCount(bits));
    EndIndices(LatSpan(bits), RowCount(bits));
    assert lat + LatSpan(bits) + 90.0 == lat + 90.0 + LatSpan(bits);
    assert lat - LatSpan(bits) + 90.0 == lat + 90.0 - LatSpan(bits);
  }

  /** Moving on by some degrees moves the normal form by as many, less the turns that takes. */
  lemma NormalLngShifts(lng: real, shift: real, turns: int)
    requires -180.0 <= NormalLng(lng) + shift - 360.0 * turns as real < 180.0
    ensures NormalLng(lng + shift) == NormalLng(lng) + shift - 360.0 * turns as real
  {
    var r := NormalLng(lng) + shift - 360.0 * turns as real;
    var k := ((lng + 180.0) / 360.0).Floor;
    assert lng + shift == Turned(r, k + turns);
    NormalLngIsCanonical(lng + shift, r);
    NormalLngFixed(r);
  }

  /** Wrapping one column past either end comes out at the other. */
  lemma WrapEnds(col: int, cols: nat)
    requires 0 <= col < cols
    ensures WrapCol(col + 1, cols) == if col == cols - 1 then 0 else col + 1
    ensures WrapCol(col - 1, cols) == if col == 0 then cols - 1 else col - 1
  {
    WrapColIsMod(col + 1, cols);
    WrapColIsMod(col - 1, cols);
    if col == cols - 1 {
      ModUnique(col + 1, cols, 0, 1);
    } else {
      SmallMod(col + 1, cols);
    }
    if col == 0 {
      ModUnique(-1, cols, cols - 1, -1);
    } else {
      SmallMod(col - 1, cols);
    }
  }

  /** A span is at most the whole axis. */
  lemma SpanFits(span: real, count: nat)
    requires span > 0.0 && count > 0
    ensures span <= Edge(count, span)
  {
  }

  /** One span east on a circular axis is the next column, and one span west the one before. */
  lemma NextColumns(x: real, span: real, cols: nat, extent: real)
    requires span > 0.0 && 0.0 <= x < extent && Edge(cols, span) == extent
    ensures var i := AxisIndex(x, span, cols);
            && 0 <= i < cols && 0.0 < span <= extent
            && AxisIndex(if x + span < extent then x + span else x + span - extent, span, cols) == WrapCol(i + 1, cols)
            && AxisIndex(if x - span >= 0.0 then x - span else x - span + extent, span, cols) == WrapCol(i - 1, cols)
  {
    var i := AxisIndex(x, span, cols);
    OneSpanOn(x, span, cols);
    SpanLeavesAxis(x, span, cols);
    SpanFits(span, cols);
    WrapEnds(i, cols);
    if i == cols - 1 {
      OneSpanOn(x + span - extent, span, cols);
      SpanLeavesAxis(x + span - extent, span, cols);
    }
    if i == 0 {
      OneSpanOn(x - span + extent, span, cols);
      SpanLeavesAxis(x - span + extent, span, cols);
    }
  }

  /** One cell width east or west of a point is the next column that way, across the antimeridian too. */
  lemma ColStep(lng: real, bits: nat)
    ensures var span, cols := LngSpan(bits), ColCount(bits);
            var col := AxisIndex(NormalLng(lng) + 180.0, span, cols);
            && AxisIndex(NormalLng(lng + span) + 180.0, span, cols) == WrapCol(col + 1, cols)
            && AxisIndex(NormalLng(lng - span) + 180.0, span, cols) == WrapCol(col - 1, cols)
  {
    var span, cols := LngSpan(bits), ColCount(bits);
    var x := NormalLng(lng) + 180.0;
    SpansCover(bits);
    NextColumns(x, span, cols, 360.0);
    NormalLngShifts(lng, span, if x + span < 360.0 then 0 else 1);
    NormalLngShifts(lng, -span, if x - span >= 0.0 then 0 else -1);
    assert lng - span == lng + -span;
    assert NormalLng(lng + span) + 180.0 == if x + span < 360.0 then x + span else x + span - 360.0;
    assert NormalLng(lng - span) + 180.0 == if x - span >= 0.0 then x - span else x - span + 360.0;
  }

  /** Where a point lies is decided on each axis alone. */
  lemma CellByAxis(a: LatLng, b: LatLng, bits: nat)
    ensures CellOf(LatLng(a.lat, b.lng), bits) == GridCell(CellOf(a, bits).row, CellOf(b, bits).col)
  {
  }

  /** The cells one cell height or width from a point, on each axis. */
  lemma StraightNeighbors(p: LatLng, bits: nat)
    requires -90.0 <= p.lat < 90.0
    ensures var cell := CellOf(p, bits);
            && CellOf(LatLng(p.lat + LatSpan(bits), p.lng), bits) == GridCell(ClampRow(cell.row + 1, bits), cell.col)
            && CellOf(LatLng(p.lat - LatSpan(bits), p.lng), bits) == GridCell(ClampRow(cell.row - 1, bits), cell.col)
            && CellOf(LatLng(p.lat, p.lng + LngSpan(bits)), bits) == GridCell(cell.row, WrapCol(cell.col + 1, ColCount(bits)))
            && CellOf(LatLng(p.lat, p.lng - LngSpan(bits)), bits) == GridCell(cell.row, WrapCol(cell.col - 1, ColCount(bits)))
  {
    RowStep(p.lat, bits);
    ColStep(p.lng, bits);
    assert ClampLat(p.lat) == p.lat;
  }

  /** Each neighbour lies the way its name says: one cell height or width that way from any point of a
      cell is a point of that neighbour, across the antimeridian and stopping at the poles. */
  lemma NeighborsLieThatWay(p: LatLng, bits: nat)
    requires -90.0 <= p.lat < 90.0
    ensures var around := NeighborCells(CellOf(p, bits), bits);
            var north, south := p.lat + LatSpan(bits), p.lat - LatSpan(bits);
            var east, west := p.lng + LngSpan(bits), p.lng - LngSpan(bits);
            && CellOf(LatLng(north, p.lng), bits) == around.n && CellOf(LatLng(south, p.lng), bits) == around.s
            && CellOf(LatLng(p.lat, east), bits) == around.e && CellOf(LatLng(p.lat, west), bits) == around.w
            && CellOf(LatLng(north, east), bits) == around.ne && CellOf(LatLng(north, west), bits) == around.nw
            && CellOf(LatLng(south, east), bits) == around.se && CellOf(LatLng(south, west), bits) == around.sw
  {
    var north, south := LatLng(p.lat + LatSpan(bits), p.lng), LatLng(p.lat - LatSpan(bits), p.lng);
    var east, west := LatLng(p.lat, p.lng + LngSpan(bits)), LatLng(p.lat, p.lng - LngSpan(bits));
    StraightNeighbors(p, bits);
    CellByAxis(north, east, bits);
    CellByAxis(north, west, bits);
    CellByAxis(south, east, bits);
    CellByAxis(south, west, bits);
  }

  // ---- Precision for a radius -----------------------------------------------------------------

  /** Degrees of latitude, and of longitude where its circle shrinks by `cosLat`, in the code's metres. */
  function LatMeters(degrees: real): real {
    degrees * METERS_PER_DEGREE_LAT
  }

  function LngMeters(degrees: real, cosLat: real): real {
    degrees * METERS_PER_DEGREE_LAT * cosLat
  }

  /** Both cell dimensions, in the code's metres, are at least the radius. */
  predicate CellsFit(radiusMeters: real, cosLat: real, bits: nat) {
    LatMeters(LatSpan(bits)) >= radiusMeters && LngMeters(LngSpan(bits), cosLat) >= radiusMeters
  }

  /** On each axis the point is at most `reach` of the code's metres from the centre. */
  predicate WithinMeters(center: LatLng, point: LatLng, reach: real, cosLat: real) {
    && LatMeters(AbsReal(ClampLat(point.lat) - ClampLat(center.lat))) <= reach
    && LngMeters(LngGap(point.lng, center.lng), cosLat) <= reach
  }

  /** The finest even precision up to 52 whose cells fit the radius, or 2 if none does. */
  method PrecisionForRadius(radiusMeters: real, atLat: real, cosAt: real -> real) returns (bits: nat)
    ensures 2 <= bits <= MAX_BITS && bits % 2 == 0
    ensures var cosLat := MaxReal(cosAt(ClampLat(atLat)), 0.000001);
            && (bits > 2 ==> CellsFit(radiusMeters, cosLat, bits))
            && (forall b: nat :: bits < b <= MAX_BITS && b % 2 == 0 ==> !CellsFit(radiusMeters, cosLat, b))
  {
    var cosLat := MaxReal(cosAt(ClampLat(atLat)), 0.000001);
    bits := MAX_BITS;
    while bits >= 2
      invariant 0 <= bits <= MAX_BITS && bits % 2 == 0
      invariant forall b: nat :: bits < b <= MAX_BITS && b % 2 == 0 ==> !CellsFit(radiusMeters, cosLat, b)
    {
      if CellsFit(radiusMeters, cosLat, bits) {
        return;
      }
      bits := bits - 2;
    }
    bits := 2;
  }

  /** At a precision whose cells fit the radius, the cell of the centre and its eight neighbours
      hold every point within the radius on each axis, in the code's metres. */
  lemma NeighborsCoverRadius(center: LatLng, point: LatLng, radiusMeters: real, cosLat: real, bits: nat)
    requires cosLat > 0.0 && CellsFit(radiusMeters, cosLat, bits)
    requires WithinMeters(center, point, radiusMeters, cosLat)
    ensures var c := CellOf(center, bits);
            CellOf(point, bits) == c || CellOf(point, bits) in NeighborCells(c, bits).Cells()
  {
    LatOrder(AbsReal(ClampLat(point.lat) - ClampLat(center.lat)), LatSpan(bits));
    LngOrder(LngGap(point.lng, center.lng), LngSpan(bits), cosLat);
    OneCellAway(center, point, bits);
  }

  lemma OneCellAway(center: LatLng, point: LatLng, bits: nat)
    requires AbsReal(ClampLat(point.lat) - ClampLat(center.lat)) <= LatSpan(bits)
    requires LngGap(point.lng, center.lng) <= LngSpan(bits)
    ensures var c := CellOf(center, bits);
            CellOf(point, bits) == c || CellOf(point, bits) in NeighborCells(c, bits).Cells()
  {
    BlockCovers(center, point, 1, bits);
    CellOfContains(center, bits);
    NeighborsAreTheBlock(CellOf(center, bits), CellOf(point, bits), bits);
  }

  lemma LatOrder(a: real, b: real)
    ensures LatMeters(a) <= LatMeters(b) <==> a <= b
  {
  }

  lemma LngOrder(a: real, b: real, cosLat: real)
    requires cosLat > 0.0
    ensures LngMeters(a, cosLat) <= LngMeters(b, cosLat) <==> a <= b
  {
    QuotientUnique(LngMeters(a, cosLat), cosLat, a * METERS_PER_DEGREE_LAT);
    QuotientOrder(LngMeters(a, cosLat), cosLat, b * METERS_PER_DEGREE_LAT);
  }
}
