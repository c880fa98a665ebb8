// Bit-interleaved geohash primitives (core/src/geo/geohash.ts) over real coordinates.
//
// A point is placed in a regular grid of 2^latBits rows and 2^lngBits columns by floor division,
// and the row and column bits are interleaved, longitude first. The reference definition is the
// textbook one: bisect the two ranges alternately and record which half the point is in.

module Geohash {
  import opened Wrappers
  import opened Numbers

  datatype LatLng = LatLng(lat: real, lng: real)

  /** `row` counts from the south pole, `col` from -180 degrees. */
  datatype GridCell = GridCell(row: int, col: int)

  datatype Decoded = Decoded(lat: real, lng: real, latErrorDeg: real, lngErrorDeg: real)

  const MAX_BITS := 52
  const METERS_PER_DEGREE_LAT := 111320.0

  function LatBits(bits: nat): nat {
    bits / 2
  }

  /** Longitude gets the first bit, so one more than latitude when `bits` is odd. */
  function LngBits(bits: nat): nat {
    (bits + 1) / 2
  }

  function RowCount(bits: nat): nat {
    Pow2(LatBits(bits))
  }

  function ColCount(bits: nat): nat {
    Pow2(LngBits(bits))
  }

  predicate InGrid(cell: GridCell, bits: nat) {
    0 <= cell.row < RowCount(bits) && 0 <= cell.col < ColCount(bits)
  }

  // ---- Coordinates ----------------------------------------------------------------------------

  function ClampLat(lat: real): real {
    ClampReal(lat, -90.0, 90.0)
  }

  /** The representative of `lng` modulo 360 in [-180, 180). */
  function NormalLng(lng: real): (r: real)
    ensures -180.0 <= r < 180.0
  {
    lng - 360.0 * ((lng + 180.0) / 360.0).Floor as real
  }

  /** The code's own three steps, with the remainder of JavaScript, reach that representative. */
  method NormalizeLng(lng: real) returns (normalized: real)
    ensures normalized == NormalLng(lng)
  {
    normalized := RemReal(lng, 360.0);
    if normalized < -180.0 {
      normalized := normalized + 360.0;
    }
    if normalized >= 180.0 {
      normalized := normalized - 360.0;
    }
    ghost var q := lng / 360.0;
    ghost var turns := if q >= 0.0 then q.Floor else Ceil(q);
    ghost var k := ((lng + 180.0) / 360.0).Floor;
    assert k - 1 <= turns <= k + 1;
  }

  /** The longitude reached after `turns` full turns eastward. */
  function Turned(lng: real, turns: int): real {
    lng + 360.0 * turns as real
  }

  /** Two longitudes name the same meridian exactly when their normal forms agree. */
  lemma NormalLngIsCanonical(a: real, b: real)
    ensures NormalLng(a) == NormalLng(b) <==> exists k :: a == Turned(b, k)
  {
    var ka, kb := ((a + 180.0) / 360.0).Floor, ((b + 180.0) / 360.0).Floor;
    if NormalLng(a) == NormalLng(b) {
      assert a == Turned(b, ka - kb);
    }
    if k :| a == Turned(b, k) {
      assert (a + 180.0) / 360.0 == (b + 180.0) / 360.0 + k as real;
      assert ka == kb + k;
    }
  }

  // ---- One axis of the grid -------------------------------------------------------------------

  /** `Math.min(count - 1, Math.floor(offset / span))`. */
  function AxisIndex(offset: real, span: real, count: nat): int
    requires span > 0.0
  {
    Min(count - 1, (offset / span).Floor)
  }

  /** The lower edge of cell `i` on an axis with cells of the given width. */
  function Edge(i: int, span: real): real {
    i as real * span
  }

  lemma QuotientUnique(x: real, d: real, q: real)
    requires d > 0.0 && q * d == x
    ensures x / d == q
  {
  }

  /** Comparing a quotient is comparing the dividend with the product. */
  lemma QuotientOrder(x: real, d: real, t: real)
    requires d > 0.0
    ensures x / d < t <==> x < t * d
    ensures x / d <= t <==> x <= t * d
  {
    assert (x / d) * d == x;
  }

  lemma EdgeStep(i: int, span: real)
    ensures Edge(i + 1, span) == Edge(i, span) + span
    ensures (i as real + 0.5) * span == Edge(i, span) + span / 2.0
    ensures Edge(2 * i, span / 2.0) == Edge(i, span)
    ensures Edge(2 * i + 1, span / 2.0) == Edge(i, span) + span / 2.0
  {
    assert (2 * i) as real == 2.0 * i as real;
    assert (2 * i + 1) as real == 2.0 * i as real + 1.0;
  }

  /** The index is in range and its cell holds the offset; only the last cell is closed above. */
  lemma AxisIndexBounds(offset: real, span: real, count: nat)
    requires span > 0.0 && count > 0 && 0.0 <= offset <= Edge(count, span)
    ensures var i := AxisIndex(offset, span, count);
            && 0 <= i < count
            && Edge(i, span) <= offset <= Edge(i, span) + span
            && (offset < Edge(count, span) ==> offset < Edge(i, span) + span)
  {
    var i, x := AxisIndex(offset, span, count), offset / span;
    QuotientOrder(offset, span, 0.0);
    QuotientOrder(offset, span, count as real);
    CappedFloor(x, count);
    InCell(offset, span, i);
  }

  lemma InCell(offset: real, span: real, i: int)
    requires span > 0.0
    ensures offset / span < i as real <==> offset < Edge(i, span)
    ensures offset / span <= (i + 1) as real <==> offset <= Edge(i, span) + span
    ensures offset / span < (i + 1) as real <==> offset < Edge(i, span) + span
  {
    QuotientOrder(offset, span, i as real);
    QuotientOrder(offset, span, (i + 1) as real);
    EdgeStep(i, span);
  }

  lemma CappedFloor(x: real, n: int)
    requires 1 <= n && 0.0 <= x <= n as real
    ensures var i := Min(n - 1, x.Floor);
            && 0 <= i < n && i as real <= x <= (i + 1) as real
            && (x < n as real ==> x < (i + 1) as real)
  {
  }

  /** The index is the only in-range one whose half-open cell holds the offset. */
  lemma AxisIndexUnique(offset: real, span: real, count: nat, i: int)
    requires span > 0.0 && 0 <= i < count
    requires Edge(i, span) <= offset < Edge(i, span) + span
    ensures AxisIndex(offset, span, count) == i
  {
    InCell(offset, span, i);
  }

  /** Halving the cells splits each in two, and the new index says in which half the offset is. */
  lemma AxisIndexRefines(offset: real, span: real, count: nat)
    requires span > 0.0 && count > 0 && 0.0 <= offset <= Edge(count, span)
    ensures var i := AxisIndex(offset, span, count);
            var j := AxisIndex(offset, span / 2.0, 2 * count);
            && (offset >= Edge(i, span) + span / 2.0 ==>
                  j == 2 * i + 1 && Edge(j, span / 2.0) == Edge(i, span) + span / 2.0)
            && (offset < Edge(i, span) + span / 2.0 ==>
                  j == 2 * i && Edge(j, span / 2.0) == Edge(i, span))
  {
    var i, x := AxisIndex(offset, span, count), offset / span;
    QuotientOrder(offset, span, 0.0);
    QuotientOrder(offset, span, count as real);
    QuotientOrder(offset, span, i as real + 0.5);
    QuotientUnique(offset, span / 2.0, 2.0 * x);
    CappedHalf(x, count);
    EdgeStep(i, span);
  }

  lemma CappedHalf(x: real, n: int)
    requires 1 <= n && 0.0 <= x <= n as real
    ensures var i := Min(n - 1, x.Floor);
            Min(2 * n - 1, (2.0 * x).Floor) == if x < i as real + 0.5 then 2 * i else 2 * i + 1
  {
  }

  /** The centre of a cell lies strictly inside the axis and has that cell's index. */
  lemma CentreIndex(span: real, count: nat, i: int)
    requires span > 0.0 && 0 <= i < count
    ensures var centre := Edge(i, span) + span / 2.0;
            0.0 < centre < Edge(count, span) && AxisIndex(centre, span, count) == i
  {
    var centre := Edge(i, span) + span / 2.0;
    EdgeStep(i, span);
    QuotientUnique(centre, span, i as real + 0.5);
    QuotientOrder(centre, span, 0.0);
    QuotientOrder(centre, span, count as real);
  }

  /** Width of a cell after splitting the extent in two `bits` times. */
  function Span(extent: real, bits: nat): (s: real)
    requires extent > 0.0
    ensures s > 0.0
  {
    if bits == 0 then extent else Span(extent, bits - 1) / 2.0
  }

  lemma {:induction false} SpanCovers(extent: real, bits: nat)
    requires extent > 0.0
    ensures Edge(Pow2(bits), Span(extent, bits)) == extent
  {
    if bits > 0 {
      SpanCovers(extent, bits - 1);
      EdgeStep(Pow2(bits - 1), Span(extent, bits - 1));
    }
  }

  /** The width is the quotient `extent / 2 ** bits` of the code. */
  lemma SpanIsQuotient(extent: real, bits: nat)
    requires extent > 0.0
    ensures Span(extent, bits) == extent / Pow2(bits) as real
  {
    SpanCovers(extent, bits);
    QuotientUnique(extent, Pow2(bits) as real, Span(extent, bits));
  }

  // ---- Cells ----------------------------------------------------------------------------------

  function LatSpan(bits: nat): real {
    Span(180.0, LatBits(bits))
  }

  function LngSpan(bits: nat): real {
    Span(360.0, LngBits(bits))
  }

  /** The grid cell a point falls in. */
  function CellOf(point: LatLng, bits: nat): GridCell {
    GridCell(AxisIndex(ClampLat(point.lat) + 90.0, LatSpan(bits), RowCount(bits)),
             AxisIndex(NormalLng(point.lng) + 180.0, LngSpan(bits), ColCount(bits)))
  }

  /** Centre and half extents of a cell. */
  function CellBounds(cell: GridCell, bits: nat): Decoded {
    var latMin := Edge(cell.row, LatSpan(bits)) - 90.0;
    var lngMin := Edge(cell.col, LngSpan(bits)) - 180.0;
    Decoded(latMin + LatSpan(bits) / 2.0, lngMin + LngSpan(bits) / 2.0,
            LatSpan(bits) / 2.0, LngSpan(bits) / 2.0)
  }

  lemma SpansCover(bits: nat)
    ensures Edge(RowCount(bits), LatSpan(bits)) == 180.0
    ensures Edge(ColCount(bits), LngSpan(bits)) == 360.0
  {
    SpanCovers(180.0, LatBits(bits));
    SpanCovers(360.0, LngBits(bits));
  }

  /** The cell of a point is in the grid and contains the clamped and normalized point. */
  lemma CellOfContains(point: LatLng, bits: nat)
    ensures var cell := CellOf(point, bits);
            var lat, lng := ClampLat(point.lat), NormalLng(point.lng);
            && InGrid(cell, bits)
            && Edge(cell.row, LatSpan(bits)) <= lat + 90.0 <= Edge(cell.row, LatSpan(bits)) + LatSpan(bits)
            && Edge(cell.col, LngSpan(bits)) <= lng + 180.0 < Edge(cell.col, LngSpan(bits)) + LngSpan(bits)
  {
    SpansCover(bits);
    AxisIndexBounds(ClampLat(point.lat) + 90.0, LatSpan(bits), RowCount(bits));
    AxisIndexBounds(NormalLng(point.lng) + 180.0, LngSpan(bits), ColCount(bits));
  }

  // ---- Interleaving ---------------------------------------------------------------------------

  /** The interleaved hash, defined from its last bit: column bits sit at even positions. */
  function Interleaved(col: int, row: int, bits: nat): nat
    decreases bits
  {
    if bits == 0 then 0
    else if bits % 2 == 1 then 2 * Interleaved(col / 2, row, bits - 1) + col % 2
    else 2 * Interleaved(col, row / 2, bits - 1) + row % 2
  }

  function CellHash(cell: GridCell, bits: nat): nat {
    Interleaved(cell.col, cell.row, bits)
  }

  /** The cell of a hash, defined from its last bit. */
  function Deinterleaved(hash: int, bits: nat): GridCell
    decreases bits
  {
    if bits == 0 then GridCell(0, 0) else Child(Deinterleaved(hash / 2, bits - 1), hash % 2, bits)
  }

  /** `x >> k`. */
  function Shr(x: nat, k: nat): nat
    decreases k
  {
    if k == 0 then x else Shr(x, k - 1) / 2
  }

  /** The shift-and-or loop, first bit first, computes the interleaved hash. */
  method Interleave(col: nat, lngBits: nat, row: nat, latBits: nat) returns (result: nat)
    requires latBits <= lngBits <= latBits + 1
    ensures result == Interleaved(col, row, lngBits + latBits)
  {
    result := 0;
    var colBitsLeft, latBitsLeft, totalBits := lngBits, latBits, lngBits + latBits;
    for i := 0 to totalBits
      invariant colBitsLeft == lngBits - (i + 1) / 2 && latBitsLeft == latBits - i / 2
      invariant result == Interleaved(Shr(col, colBitsLeft), Shr(row, latBitsLeft), i)
    {
      result := 2 * result;
      if i % 2 == 0 {
        colBitsLeft := colBitsLeft - 1;
        result := result + Shr(col, colBitsLeft) % 2;
      } else {
        latBitsLeft := latBitsLeft - 1;
        result := result + Shr(row, latBitsLeft) % 2;
      }
    }
  }

  /** The loop over the hash bits, first bit first, recovers the cell. */
  method Deinterleave(hash: nat, bits: nat) returns (cell: GridCell)
    ensures cell == Deinterleaved(hash, bits)
  {
    var row, col := 0, 0;
    for i := 0 to bits
      invariant GridCell(row, col) == Deinterleaved(Shr(hash, bits - i), i)
    {
      var bitPos := bits - 1 - i;
      var bit := Shr(hash, bitPos) % 2;
      if i % 2 == 0 {
        col := col * 2 + bit;
      } else {
        row := row * 2 + bit;
      }
    }
    cell := GridCell(row, col);
  }

  lemma {:induction false} InterleavedInRange(col: int, row: int, bits: nat)
    ensures Interleaved(col, row, bits) < Pow2(bits)
    decreases bits
  {
    if bits > 0 {
      if bits % 2 == 1 {
        InterleavedInRange(col / 2, row, bits - 1);
      } else {
        InterleavedInRange(col, row / 2, bits - 1);
      }
    }
  }

  /** The bit added last belongs to the column at odd lengths and to the row at even ones. */
  lemma SplitStep(bits: nat)
    requires bits > 0
    ensures bits % 2 == 1 ==> ColCount(bits) == 2 * ColCount(bits - 1) && RowCount(bits) == RowCount(bits - 1)
    ensures bits % 2 == 0 ==> RowCount(bits) == 2 * RowCount(bits - 1) && ColCount(bits) == ColCount(bits - 1)
    ensures bits % 2 == 1 ==> LngSpan(bits) == LngSpan(bits - 1) / 2.0 && LatSpan(bits) == LatSpan(bits - 1)
    ensures bits % 2 == 0 ==> LatSpan(bits) == LatSpan(bits - 1) / 2.0 && LngSpan(bits) == LngSpan(bits - 1)
  {
    if bits % 2 == 1 {
      assert LngBits(bits) == LngBits(bits - 1) + 1 && LatBits(bits) == LatBits(bits - 1);
    } else {
      assert LatBits(bits) == LatBits(bits - 1) + 1 && LngBits(bits) == LngBits(bits - 1);
    }
  }

  /** The cell one bit shorter that contains `cell`, and the bit that tells its halves apart. */
  function Parent(cell: GridCell, bits: nat): GridCell {
    if bits % 2 == 1 then GridCell(cell.row, cell.col / 2) else GridCell(cell.row / 2, cell.col)
  }

  function LastBit(cell: GridCell, bits: nat): (b: int)
    ensures 0 <= b <= 1
  {
    if bits % 2 == 1 then cell.col % 2 else cell.row % 2
  }

  function Child(cell: GridCell, bit: int, bits: nat): GridCell {
    if bits % 2 == 1 then GridCell(cell.row, 2 * cell.col + bit) else GridCell(2 * cell.row + bit, cell.col)
  }

  lemma ParentChild(cell: GridCell, bits: nat)
    ensures Child(Parent(cell, bits), LastBit(cell, bits), bits) == cell
  {
  }

  lemma ChildParent(cell: GridCell, bit: int, bits: nat)
    requires 0 <= bit <= 1
    ensures Parent(Child(cell, bit, bits), bits) == cell && LastBit(Child(cell, bit, bits), bits) == bit
  {
  }

  lemma ParentInGrid(cell: GridCell, bits: nat)
    requires bits > 0
    ensures InGrid(cell, bits) <==> InGrid(Parent(cell, bits), bits - 1)
  {
    SplitStep(bits);
  }

  lemma ChildHash(cell: GridCell, bit: int, bits: nat)
    requires bits > 0 && 0 <= bit <= 1
    ensures CellHash(Child(cell, bit, bits), bits) == 2 * CellHash(cell, bits - 1) + bit
  {
    ChildParent(cell, bit, bits);
  }

  lemma HashStep(cell: GridCell, bits: nat)
    requires bits > 0
    ensures CellHash(cell, bits) / 2 == CellHash(Parent(cell, bits), bits - 1)
    ensures CellHash(cell, bits) % 2 == LastBit(cell, bits)
  {
  }

  /** Reading back an in-range cell from its hash. */
  lemma {:induction false} DeinterleaveInterleave(cell: GridCell, bits: nat)
    requires InGrid(cell, bits)
    ensures Deinterleaved(CellHash(cell, bits), bits) == cell
    decreases bits
  {
    if bits > 0 {
      ParentInGrid(cell, bits);
      DeinterleaveInterleave(Parent(cell, bits), bits - 1);
      HashStep(cell, bits);
      ParentChild(cell, bits);
    }
  }

  /** Every hash below 2^bits is the hash of an in-range cell. */
  lemma {:induction false} InterleaveDeinterleave(hash: nat, bits: nat)
    requires hash < Pow2(bits)
    ensures InGrid(Deinterleaved(hash, bits), bits)
    ensures CellHash(Deinterleaved(hash, bits), bits) == hash
  {
    if bits > 0 {
      InterleaveDeinterleave(hash / 2, bits - 1);
      ParentInGrid(Deinterleaved(hash, bits), bits);
      ChildParent(Deinterleaved(hash / 2, bits - 1), hash % 2, bits);
    }
  }

  /** Two in-range cells share a hash only if they are the same cell. */
  lemma CellHashInjective(a: GridCell, b: GridCell, bits: nat)
    requires InGrid(a, bits) && InGrid(b, bits)
    ensures CellHash(a, bits) == CellHash(b, bits) <==> a == b
  {
    DeinterleaveInterleave(a, bits);
    DeinterleaveInterleave(b, bits);
  }

  // ---- Encoding -------------------------------------------------------------------------------

  function Encode(point: LatLng, bits: int): Result<nat> {
    if bits <= 0 || bits > MAX_BITS then Err("bits must be between 1 and 52")
    else Ok(CellHash(CellOf(point, bits), bits))
  }

  function Decode(hash: nat, bits: nat): Decoded {
    CellBounds(Deinterleaved(hash, bits), bits)
  }

  /** The textbook geohash: the bits recorded so far and the box they narrow the point to. */
  datatype Bisection = Bisection(hash: nat, latLo: real, latHi: real, lngLo: real, lngHi: real)

  function Bisect(lat: real, lng: real, bits: nat): Bisection {
    if bits == 0 then Bisection(0, -90.0, 90.0, -180.0, 180.0)
    else
      var b := Bisect(lat, lng, bits - 1);
      if bits % 2 == 1 then
        var mid := (b.lngLo + b.lngHi) / 2.0;
        if lng >= mid then b.(hash := 2 * b.hash + 1, lngLo := mid)
        else b.(hash := 2 * b.hash, lngHi := mid)
      else
        var mid := (b.latLo + b.latHi) / 2.0;
        if lat >= mid then b.(hash := 2 * b.hash + 1, latLo := mid)
        else b.(hash := 2 * b.hash, latHi := mid)
  }

  /** The box after `bits` bisections is the grid cell of floor division. */
  ghost predicate BoxIsCell(b: Bisection, cell: GridCell, bits: nat) {
    && b.latLo == Edge(cell.row, LatSpan(bits)) - 90.0
    && b.latHi == b.latLo + LatSpan(bits)
    && b.lngLo == Edge(cell.col, LngSpan(bits)) - 180.0
    && b.lngHi == b.lngLo + LngSpan(bits)
  }

  lemma {:induction false} BisectionIsCell(point: LatLng, bits: nat)
    ensures var b := Bisect(ClampLat(point.lat), NormalLng(point.lng), bits);
            var cell := CellOf(point, bits);
            b.hash == CellHash(cell, bits) && BoxIsCell(b, cell, bits)
  {
    if bits == 0 {
      CellOfContains(point, bits);
    } else {
      BisectionIsCell(point, bits - 1);
      if bits % 2 == 1 {
        LngStep(point, bits);
      } else {
        LatStep(point, bits);
      }
    }
  }

  lemma LngStep(point: LatLng, bits: nat)
    requires bits % 2 == 1
    requires var b := Bisect(ClampLat(point.lat), NormalLng(point.lng), bits - 1);
             var cell := CellOf(point, bits - 1);
             b.hash == CellHash(cell, bits - 1) && BoxIsCell(b, cell, bits - 1)
    ensures var b := Bisect(ClampLat(point.lat), NormalLng(point.lng), bits);
            var cell := CellOf(point, bits);
            b.hash == CellHash(cell, bits) && BoxIsCell(b, cell, bits)
  {
    var cell, span := CellOf(point, bits - 1), LngSpan(bits - 1);
    var upper := NormalLng(point.lng) + 180.0 >= Edge(cell.col, span) + span / 2.0;
    CellRefines(point, bits);
    ChildHash(cell, if upper then 1 else 0, bits);
    SplitStep(bits);
  }

  lemma LatStep(point: LatLng, bits: nat)
    requires bits > 0 && bits % 2 == 0
    requires var b := Bisect(ClampLat(point.lat), NormalLng(point.lng), bits - 1);
             var cell := CellOf(point, bits - 1);
             b.hash == CellHash(cell, bits - 1) && BoxIsCell(b, cell, bits - 1)
    ensures var b := Bisect(ClampLat(point.lat), NormalLng(point.lng), bits);
            var cell := CellOf(point, bits);
            b.hash == CellHash(cell, bits) && BoxIsCell(b, cell, bits)
  {
    var cell, span := CellOf(point, bits - 1), LatSpan(bits - 1);
    var upper := ClampLat(point.lat) + 90.0 >= Edge(cell.row, span) + span / 2.0;
    CellRefines(point, bits);
    ChildHash(cell, if upper then 1 else 0, bits);
    SplitStep(bits);
  }

  /** One more bit replaces the cell of a point by the half that contains the point. */
  lemma CellRefines(point: LatLng, bits: nat)
    requires bits > 0
    ensures var cell, span := CellOf(point, bits - 1), LngSpan(bits - 1);
            var upper := NormalLng(point.lng) + 180.0 >= Edge(cell.col, span) + span / 2.0;
            bits % 2 == 1 ==>
              && CellOf(point, bits) == Child(cell, if upper then 1 else 0, bits)
              && Edge(CellOf(point, bits).col, span / 2.0) == Edge(cell.col, span) + (if upper then span / 2.0 else 0.0)
    ensures var cell, span := CellOf(point, bits - 1), LatSpan(bits - 1);
            var upper := ClampLat(point.lat) + 90.0 >= Edge(cell.row, span) + span / 2.0;
            bits % 2 == 0 ==>
              && CellOf(point, bits) == Child(cell, if upper then 1 else 0, bits)
              && Edge(CellOf(point, bits).row, span / 2.0) == Edge(cell.row, span) + (if upper then span / 2.0 else 0.0)
  {
    SplitStep(bits);
    SpansCover(bits - 1);
    if bits % 2 == 1 {
      AxisIndexRefines(NormalLng(point.lng) + 180.0, LngSpan(bits - 1), ColCount(bits - 1));
    } else {
      AxisIndexRefines(ClampLat(point.lat) + 90.0, LatSpan(bits - 1), RowCount(bits - 1));
    }
  }

  /** Encoding by floor division and interleaving is the alternate bisection, for every point
      (latitude 90, out-of-range latitudes and wrapped longitudes included) and every precision from 1
      to 52; any other precision is refused. */
  lemma EncodeIsBisection(point: LatLng, bits: int)
    ensures Encode(point, bits).Ok? <==> 1 <= bits <= 52
    ensures 1 <= bits <= 52 ==> Encode(point, bits).value == Bisect(ClampLat(point.lat), NormalLng(point.lng), bits).hash
  {
    if bits >= 0 {
      BisectionIsCell(point, bits);
    }
  }

  /** Dropping the last bit of an encoding gives the encoding one bit shorter. */
  lemma EncodePrefix(point: LatLng, bits: int)
    requires 2 <= bits <= MAX_BITS
    ensures Encode(point, bits).Ok? && Encode(point, bits - 1).Ok?
    ensures Encode(point, bits - 1).value == Encode(point, bits).value / 2
  {
    EncodeIsBisection(point, bits);
    EncodeIsBisection(point, bits - 1);
  }

  /** The centre of a decoded hash encodes back to that hash. */
  lemma EncodeOfDecode(hash: nat, bits: int)
    requires 1 <= bits <= MAX_BITS && hash < Pow2(bits)
    ensures var d := Decode(hash, bits); Encode(LatLng(d.lat, d.lng), bits) == Ok(hash)
  {
    InterleaveDeinterleave(hash, bits);
    CentreCell(Deinterleaved(hash, bits), bits);
  }

  lemma CentreCell(cell: GridCell, bits: nat)
    requires InGrid(cell, bits)
    ensures var d := CellBounds(cell, bits); CellOf(LatLng(d.lat, d.lng), bits) == cell
  {
    var d := CellBounds(cell, bits);
    SpansCover(bits);
    CentreIndex(LatSpan(bits), RowCount(bits), cell.row);
    CentreIndex(LngSpan(bits), ColCount(bits), cell.col);
    assert ClampLat(d.lat) == d.lat;
    NormalLngFixed(d.lng);
  }

  lemma NormalLngFixed(lng: real)
    requires -180.0 <= lng < 180.0
    ensures NormalLng(lng) == lng
  {
  }

  /** A decoded encoding is within its own stated error of the clamped and normalized point. */
  lemma DecodeOfEncode(point: LatLng, bits: int)
    requires 1 <= bits <= MAX_BITS
    ensures Encode(point, bits).Ok?
    ensures var d := Decode(Encode(point, bits).value, bits);
            && AbsReal(d.lat - ClampLat(point.lat)) <= d.latErrorDeg
            && AbsReal(d.lng - NormalLng(point.lng)) <= d.lngErrorDeg
  {
    CellOfContains(point, bits);
    DeinterleaveInterleave(CellOf(point, bits), bits);
  }

  /** And nothing else is: whatever lies strictly within the stated error of a decoded hash encodes to
      that hash. */
  lemma WithinErrorEncodesBack(hash: nat, bits: int, point: LatLng)
    requires 1 <= bits <= MAX_BITS && hash < Pow2(bits)
    requires var d := Decode(hash, bits);
             && AbsReal(ClampLat(point.lat) - d.lat) < d.latErrorDeg
             && AbsReal(NormalLng(point.lng) - d.lng) < d.lngErrorDeg
    ensures Encode(point, bits) == Ok(hash)
  {
    var cell := Deinterleaved(hash, bits);
    InterleaveDeinterleave(hash, bits);
    AxisIndexUnique(ClampLat(point.lat) + 90.0, LatSpan(bits), RowCount(bits), cell.row);
    AxisIndexUnique(NormalLng(point.lng) + 180.0, LngSpan(bits), ColCount(bits), cell.col);
  }
}
