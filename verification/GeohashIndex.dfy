// The geohash-bucket spatial index (core/src/geo/geohash-index.ts): three maps updated in place,
// a block scan, radius search and nearest neighbours. Distance and the cosine of a latitude are
// functions handed to the index; everything proved holds for any choice of them.

module GeohashIndexes {
  import opened Wrappers
  import opened Numbers
  import opened Geohash
  import opened GridBlock
  import opened Ranking

  datatype Entry = Entry(id: string, lat: real, lng: real, distanceMeters: real)

  datatype Geometry = Geometry(cosAt: real -> real, distance: (LatLng, LatLng) -> real)

  type Positions = map<string, LatLng>

  function ByDistance(e: Entry): real {
    e.distanceMeters
  }

  /** `Math.max(Math.cos(lat), 1e-6)`. */
  function CosLat(geo: Geometry, atLat: real): real {
    MaxReal(geo.cosAt(atLat), 0.000001)
  }

  /** The smaller of the two cell dimensions in metres at the latitude of the centre. */
  function MinCellDim(geo: Geometry, bits: nat, atLat: real): real {
    MinReal(LatMeters(LatSpan(bits)), LngMeters(LngSpan(bits), CosLat(geo, atLat)))
  }

  lemma MinCellDimPositive(geo: Geometry, bits: nat, atLat: real)
    ensures MinCellDim(geo, bits, atLat) > 0.0
  {
    LngOrder(0.0, LngSpan(bits), CosLat(geo, atLat));
    LngOrder(LngSpan(bits), 0.0, CosLat(geo, atLat));
  }

  /** `Math.max(1, Math.ceil(radius / cell) + 1)`. */
  function RingCount(radiusMeters: real, minCellDim: real): nat
    requires minCellDim > 0.0
  {
    Max(1, Ceil(radiusMeters / minCellDim) + 1)
  }

  function RingsFor(geo: Geometry, bits: nat, center: LatLng, radiusMeters: real): nat {
    MinCellDimPositive(geo, bits, center.lat);
    RingCount(radiusMeters, MinCellDim(geo, bits, center.lat))
  }

  /** How many of `n` results a limit keeps: at most that many, and all but that many if it is negative. */
  predicate Kept(kept: nat, n: nat, limit: Option<int>) {
    match limit
    case None => kept == n
    case Some(k) => if k >= 0 then kept <= k && kept <= n && (kept == k || kept == n)
                    else kept == if n + k > 0 then n + k else 0
  }

  // ---- What a search should return ------------------------------------------------------------

  function EntryFor(geo: Geometry, positions: Positions, center: LatLng, id: string): Entry
    requires id in positions
  {
    Entry(id, positions[id].lat, positions[id].lng, geo.distance(center, positions[id]))
  }

  /** The entry is of a stored point: its own coordinates and its distance from the centre. */
  ghost predicate IsOfStored(geo: Geometry, positions: Positions, center: LatLng, e: Entry) {
    && e.id in positions && e.lat == positions[e.id].lat && e.lng == positions[e.id].lng
    && e.distanceMeters == geo.distance(center, positions[e.id])
  }

  ghost predicate InRadius(geo: Geometry, positions: Positions, center: LatLng, radiusMeters: real, id: string) {
    id in positions && geo.distance(center, positions[id]) <= radiusMeters
  }

  /** The brute-force answer: an entry for every stored point within the radius. */
  ghost function BruteForce(geo: Geometry, positions: Positions, center: LatLng, radiusMeters: real): set<Entry> {
    set id | id in positions && InRadius(geo, positions, center, radiusMeters, id)
      :: EntryFor(geo, positions, center, id)
  }

  ghost predicate Scanned(positions: Positions, bits: nat, center: LatLng, rings: nat, id: string) {
    id in positions && InBlock(CellOf(center, bits), CellOf(positions[id], bits), rings, bits)
  }

  /** The part of the brute-force answer whose cells the block scan visits. */
  ghost function Found(geo: Geometry, positions: Positions, bits: nat, center: LatLng, radiusMeters: real): set<Entry> {
    set id | id in positions && InRadius(geo, positions, center, radiusMeters, id)
             && Scanned(positions, bits, center, RingsFor(geo, bits, center, radiusMeters), id)
      :: EntryFor(geo, positions, center, id)
  }

  /** The metric hypothesis: on each axis a stored point within the radius is displaced by at most
      the radius plus the smaller cell dimension, in the code's own metres. */
  ghost predicate AxisBound(geo: Geometry, positions: Positions, bits: nat, center: LatLng, radiusMeters: real) {
    forall id :: InRadius(geo, positions, center, radiusMeters, id) ==>
      WithinMeters(center, positions[id], radiusMeters + MinCellDim(geo, bits, center.lat), CosLat(geo, center.lat))
  }

  /** The rings of a radius reach one cell dimension past the radius. */
  lemma RingsReach(gap: real, span: real, meters: real, cell: real, radiusMeters: real)
    requires span > 0.0 && 0.0 < cell <= span * meters && meters > 0.0
    requires gap * meters <= radiusMeters + cell
    ensures gap <= Edge(RingCount(radiusMeters, cell), span)
  {
    var n := RingCount(radiusMeters, cell) as real;
    assert radiusMeters / cell <= n - 1.0;
    QuotientOrder(radiusMeters, cell, n - 1.0);
    assert (n - 1.0) * cell == n * cell - cell;
    assert n * cell <= n * (span * meters);
    assert n * (span * meters) == (n * span) * meters;
    CancelFactor(gap, n * span, meters);
  }

  /** And no ring more than that takes: one ring fewer would end short of it. */
  lemma RingsAreTight(cell: real, radiusMeters: real)
    requires cell > 0.0
    ensures var n := RingCount(radiusMeters, cell) as real;
            n >= 1.0 && n * cell >= radiusMeters + cell && (n > 1.0 ==> (n - 1.0) * cell < radiusMeters + cell)
  {
    var n := RingCount(radiusMeters, cell) as real;
    QuotientOrder(radiusMeters, cell, n - 1.0);
    QuotientOrder(radiusMeters, cell, n - 2.0);
  }

  lemma CancelFactor(a: real, b: real, k: real)
    requires k > 0.0 && a * k <= b * k
    ensures a <= b
  {
    QuotientUnique(a * k, k, a);
    QuotientOrder(a * k, k, b);
  }

  lemma WithinMetersIsScanned(geo: Geometry, positions: Positions, bits: nat, center: LatLng, radiusMeters: real, id: string)
    requires id in positions
    requires WithinMeters(center, positions[id], radiusMeters + MinCellDim(geo, bits, center.lat), CosLat(geo, center.lat))
    ensures Scanned(positions, bits, center, RingsFor(geo, bits, center, radiusMeters), id)
  {
    var cosLat, cell, p := CosLat(geo, center.lat), MinCellDim(geo, bits, center.lat), positions[id];
    var rings := RingsFor(geo, bits, center, radiusMeters);
    MinCellDimPositive(geo, bits, center.lat);
    LatReach(AbsReal(ClampLat(p.lat) - ClampLat(center.lat)), bits, cell, radiusMeters);
    LngReach(LngGap(p.lng, center.lng), bits, cosLat, cell, radiusMeters);
    BlockCovers(center, p, rings, bits);
  }

  lemma LatReach(gap: real, bits: nat, cell: real, radiusMeters: real)
    requires 0.0 < cell <= LatMeters(LatSpan(bits)) && LatMeters(gap) <= radiusMeters + cell
    ensures gap <= Edge(RingCount(radiusMeters, cell), LatSpan(bits))
  {
    RingsReach(gap, LatSpan(bits), METERS_PER_DEGREE_LAT, cell, radiusMeters);
  }

  lemma LngReach(gap: real, bits: nat, cosLat: real, cell: real, radiusMeters: real)
    requires cosLat > 0.0
    requires 0.0 < cell <= LngMeters(LngSpan(bits), cosLat) && LngMeters(gap, cosLat) <= radiusMeters + cell
    ensures gap <= Edge(RingCount(radiusMeters, cell), LngSpan(bits))
  {
    assert gap * (METERS_PER_DEGREE_LAT * cosLat) == LngMeters(gap, cosLat);
    assert LngSpan(bits) * (METERS_PER_DEGREE_LAT * cosLat) == LngMeters(LngSpan(bits), cosLat);
    RingsReach(gap, LngSpan(bits), METERS_PER_DEGREE_LAT * cosLat, cell, radiusMeters);
  }

  function Doubled(first: real, n: nat): real {
    if n == 0 then first else Doubled(first, n - 1) * 2.0
  }

  lemma {:induction false} DoubledIsPower(first: real, n: nat)
    ensures Doubled(first, n) == first * Pow2(n) as real
  {
    if n > 0 {
      DoubledIsPower(first, n - 1);
      TwiceAsFar(first, Pow2(n - 1));
    }
  }

  lemma TwiceAsFar(first: real, p: nat)
    ensures first * p as real * 2.0 == first * (2 * p) as real
  {
    assert (2 * p) as real == 2.0 * p as real;
  }

  /** The n-th radius of the iterative deepening: 50 metres, or one cell if that is more, doubled. */
  ghost function RadiusTried(geo: Geometry, bits: nat, center: LatLng, n: nat): real {
    Doubled(MaxReal(50.0, MinCellDim(geo, bits, center.lat)), n)
  }

  /** The metres of the code: 111,320 to a degree of latitude, and to a degree of longitude as many times
      the cosine, which counts as a millionth where it is less. */
  lemma CodeMeters(geo: Geometry, atLat: real)
    ensures LatMeters(1.0) == 111320.0
    ensures geo.cosAt(atLat) >= 0.000001 ==> LngMeters(1.0, CosLat(geo, atLat)) == 111320.0 * geo.cosAt(atLat)
    ensures geo.cosAt(atLat) < 0.000001 ==> LngMeters(1.0, CosLat(geo, atLat)) == 0.11132
  {
  }

  /** The iterative deepening up to the maximum can come to this radius: it stops doubling there. */
  ghost predicate MayTry(geo: Geometry, bits: nat, center: LatLng, maxRadiusMeters: real, radiusMeters: real) {
    exists n: nat :: radiusMeters == RadiusTried(geo, bits, center, n)
                     && (n > 0 ==> RadiusTried(geo, bits, center, n - 1) < maxRadiusMeters)
  }

  /** The block scan loses nothing exactly when every stored point in the radius is scanned. */
  lemma FoundIsBruteForce(geo: Geometry, positions: Positions, bits: nat, center: LatLng, radiusMeters: real)
    ensures Found(geo, positions, bits, center, radiusMeters) == BruteForce(geo, positions, center, radiusMeters)
       <==> forall id :: InRadius(geo, positions, center, radiusMeters, id) ==>
              Scanned(positions, bits, center, RingsFor(geo, bits, center, radiusMeters), id)
  {
    var found := Found(geo, positions, bits, center, radiusMeters);
    var all := BruteForce(geo, positions, center, radiusMeters);
    if found == all {
      forall id | InRadius(geo, positions, center, radiusMeters, id)
        ensures Scanned(positions, bits, center, RingsFor(geo, bits, center, radiusMeters), id)
      {
        assert EntryFor(geo, positions, center, id) in all;
        assert EntryFor(geo, positions, center, id) in found;
      }
    }
  }

  /** Under the metric hypothesis the search is exhaustive, across the antimeridian and at the poles. */
  lemma SearchIsExhaustive(geo: Geometry, positions: Positions, bits: nat, center: LatLng, radiusMeters: real)
    requires AxisBound(geo, positions, bits, center, radiusMeters)
    ensures Found(geo, positions, bits, center, radiusMeters) == BruteForce(geo, positions, center, radiusMeters)
  {
    forall id | InRadius(geo, positions, center, radiusMeters, id)
      ensures Scanned(positions, bits, center, RingsFor(geo, bits, center, radiusMeters), id)
    {
      WithinMetersIsScanned(geo, positions, bits, center, radiusMeters, id);
    }
    FoundIsBruteForce(geo, positions, bits, center, radiusMeters);
  }

  /** Without the hypothesis a search can miss a point: one just across the pole is close, but half
      of all columns away, and the rings are sized by the latitude of the centre only. */
  lemma OverThePoleIsMissed(geo: Geometry)
    requires 0.017 <= geo.cosAt(89.0) <= 0.018
    requires geo.distance(LatLng(89.0, 0.0), LatLng(89.95, -180.0)) <= 120000.0
    ensures var positions := map["d" := LatLng(89.95, -180.0)];
            && InRadius(geo, positions, LatLng(89.0, 0.0), 120000.0, "d")
            && Found(geo, positions, 20, LatLng(89.0, 0.0), 120000.0) == {}
  {
    var center, p := LatLng(89.0, 0.0), LatLng(89.95, -180.0);
    PolarRings(geo);
    PolarColumns();
    HalfwayRoundIsOut(CellOf(center, 20), CellOf(p, 20), RingsFor(geo, 20, center, 120000.0));
    UnscannedIsNotFound(geo, "d", p, 20, center, 120000.0);
  }

  lemma UnscannedIsNotFound(geo: Geometry, id: string, p: LatLng, bits: nat, center: LatLng, radiusMeters: real)
    requires !InBlock(CellOf(center, bits), CellOf(p, bits), RingsFor(geo, bits, center, radiusMeters), bits)
    ensures Found(geo, map[id := p], bits, center, radiusMeters) == {}
  {
    assert !Scanned(map[id := p], bits, center, RingsFor(geo, bits, center, radiusMeters), id);
  }

  /** Columns 512 and 0 of 1024 are farther apart than 200 rings. */
  lemma HalfwayRoundIsOut(a: GridCell, b: GridCell, rings: nat)
    requires a.col == 512 && b.col == 0 && rings <= 200
    ensures !InBlock(a, b, rings, 20)
  {
    PolarSpans();
  }

  lemma PolarSpans()
    ensures LatSpan(20) == 180.0 / 1024.0 && LngSpan(20) == 360.0 / 1024.0
    ensures ColCount(20) == 1024 && RowCount(20) == 1024
  {
    assert Pow2(10) == 1024 by {
      assert Pow2(5) == 32;
      assert Pow2(8) == 256;
    }
    assert Span(360.0, 5) == 360.0 / 32.0;
    assert Span(180.0, 5) == 180.0 / 32.0;
    assert Span(360.0, 8) == 360.0 / 256.0;
    assert Span(180.0, 8) == 180.0 / 256.0;
  }

  lemma PolarRings(geo: Geometry)
    requires 0.017 <= geo.cosAt(89.0) <= 0.018
    ensures RingsFor(geo, 20, LatLng(89.0, 0.0), 120000.0) <= 200
  {
    PolarSpans();
    var cell := MinCellDim(geo, 20, 89.0);
    MinCellDimPositive(geo, 20, 89.0);
    LngOrder(1.0, 2.0, geo.cosAt(89.0));
    assert cell >= 660.0;
    QuotientOrder(120000.0, cell, 190.0);
  }

  lemma PolarColumns()
    ensures CellOf(LatLng(89.0, 0.0), 20).col == 512
    ensures CellOf(LatLng(89.95, -180.0), 20).col == 0
  {
    PolarSpans();
    NormalLngFixed(0.0);
    NormalLngFixed(-180.0);
    AxisIndexUnique(180.0, LngSpan(20), 1024, 512);
    AxisIndexUnique(0.0, LngSpan(20), 1024, 0);
  }

  // ---- The index ------------------------------------------------------------------------------

  class GeohashIndex {
    const bucketBits: nat
    const geo: Geometry
    var positions: Positions
    var buckets: map<nat, set<string>>
    var idToHash: map<string, nat>

    function HashOf(point: LatLng): nat {
      CellHash(CellOf(point, bucketBits), bucketBits)
    }

    /** Each id is in the bucket of its recorded hash and in no other. Empty buckets may remain. */
    ghost predicate Bucketed()
      reads this
    {
      && (forall id :: id in idToHash ==> idToHash[id] in buckets && id in buckets[idToHash[id]])
      && (forall h, id :: h in buckets && id in buckets[h] ==> id in idToHash && idToHash[id] == h)
    }

    /** The recorded hash is the one of the latest position's cell. */
    ghost predicate Valid()
      reads this
    {
      && 1 <= bucketBits <= MAX_BITS
      && Bucketed()
      && idToHash.Keys == positions.Keys
      && (forall id :: id in positions ==> idToHash[id] == HashOf(positions[id]))
    }

    constructor (bucketBits: nat, geo: Geometry)
      requires 1 <= bucketBits <= MAX_BITS
      ensures Valid() && positions == map[]
      ensures this.bucketBits == bucketBits && this.geo == geo
    {
      this.bucketBits, this.geo := bucketBits, geo;
      positions, buckets, idToHash := map[], map[], map[];
    }

    /** The checked construction: an out-of-range precision is refused. */
    static method Create(bucketBits: int, geo: Geometry) returns (r: Result<GeohashIndex>)
      ensures r.Ok? <==> 1 <= bucketBits <= MAX_BITS
      ensures r.Ok? ==> fresh(r.value) && r.value.Valid() && r.value.positions == map[]
      ensures r.Ok? ==> r.value.bucketBits == bucketBits && r.value.geo == geo
    {
      if bucketBits <= 0 || bucketBits > MAX_BITS {
        return Err("bucketBits must be between 1 and 52");
      }
      var index := new GeohashIndex(bucketBits, geo);
      r := Ok(index);
    }

    method Size() returns (n: nat)
      requires Valid()
      ensures n == |positions|
    {
      n := |positions|;
    }

    /** Moves an id out of the bucket it was in, if that changes, and into the bucket of `hash`. */
    method Rebucket(id: string, hash: nat)
      requires Bucketed()
      modifies this`buckets, this`idToHash
      ensures Bucketed() && idToHash == old(idToHash)[id := hash]
    {
      var known := id in idToHash;
      if known && idToHash[id] != hash {
        var oldHash := idToHash[id];
        if oldHash in buckets {
          buckets := buckets[oldHash := buckets[oldHash] - {id}];
        }
      }
      if !known || idToHash[id] != hash {
        var bucket := if hash in buckets then buckets[hash] else {};
        buckets := buckets[hash := bucket + {id}];
        idToHash := idToHash[id := hash];
      }
    }

    method Upsert(id: string, lat: real, lng: real)
      requires Valid()
      modifies this
      ensures Valid() && positions == old(positions)[id := LatLng(lat, lng)]
    {
      CellOfContains(LatLng(lat, lng), bucketBits);
      var hash := HashOfCell(CellOf(LatLng(lat, lng), bucketBits));
      Rebucket(id, hash);
      positions := positions[id := LatLng(lat, lng)];
    }

    /** `cellHash`, by the interleaving loop. */
    method HashOfCell(cell: GridCell) returns (hash: nat)
      requires cell.row >= 0 && cell.col >= 0
      ensures hash == CellHash(cell, bucketBits)
    {
      hash := Interleave(cell.col, LngBits(bucketBits), cell.row, LatBits(bucketBits));
    }

    method Remove(id: string)
      requires Valid()
      modifies this
      ensures Valid() && positions == old(positions) - {id}
    {
      if id !in idToHash {
        return;
      }
      Unbucket(id);
      positions := positions - {id};
    }

    /** Takes a known id out of its bucket, and drops the bucket if that empties it. */
    method Unbucket(id: string)
      requires Bucketed() && id in idToHash
      modifies this`buckets, this`idToHash
      ensures Bucketed() && idToHash == old(idToHash) - {id}
    {
      var hash := idToHash[id];
      if hash in buckets {
        buckets := buckets[hash := buckets[hash] - {id}];
        if buckets[hash] == {} {
          buckets := buckets - {hash};
        }
      }
      idToHash := idToHash - {id};
    }

    /** The cell of every stored position. */
    ghost function Cells(): (cells: map<string, GridCell>)
      reads this
      ensures cells.Keys == positions.Keys
      ensures forall id :: id in cells ==> cells[id] == CellOf(positions[id], bucketBits) && InGrid(cells[id], bucketBits)
    {
      assert forall id :: id in positions ==> InGrid(CellOf(positions[id], bucketBits), bucketBits) by {
        forall id | id in positions ensures InGrid(CellOf(positions[id], bucketBits), bucketBits) {
          CellOfContains(positions[id], bucketBits);
        }
      }
      map id | id in positions :: CellOf(positions[id], bucketBits)
    }

    /** The ids of one visited cell: exactly the stored ids whose position falls in it. */
    lemma BucketIsCell(cell: GridCell)
      requires Valid() && InGrid(cell, bucketBits)
      ensures var h := CellHash(cell, bucketBits);
              forall id :: h in buckets && id in buckets[h] <==> id in Cells() && Cells()[id] == cell
    {
      var h := CellHash(cell, bucketBits);
      forall id | id in Cells() ensures idToHash[id] == h <==> Cells()[id] == cell {
        CellHashInjective(Cells()[id], cell, bucketBits);
      }
    }

    /** The union of the buckets of the block holds exactly the ids whose cells are in the block. */
    method ScanCandidates(center: LatLng, ringCount: nat) returns (candidates: set<string>)
      requires Valid()
      ensures forall id :: id in candidates <==> Scanned(positions, bucketBits, center, ringCount, id)
    {
      var centerCell := CellOf(center, bucketBits);
      candidates := ScanRows(centerCell, ringCount);
      assert forall id :: id in positions ==> Cells()[id] == CellOf(positions[id], bucketBits);
    }

    /** The outer loop, over the rows of the block inside the grid. */
    method ScanRows(center: GridCell, ringCount: nat) returns (candidates: set<string>)
      requires Valid()
      ensures forall id :: id in candidates <==> id in Cells() && InBlock(center, Cells()[id], ringCount, bucketBits)
    {
      var rowCount := RowCount(bucketBits);
      var rings: int := ringCount;
      ghost var cells := Cells();
      candidates := {};
      for dRow := 0 - rings to rings + 1
        invariant forall id :: id in candidates <==> id in cells && InRows(cells[id], center, rings, dRow)
      {
        var row := center.row + dRow;
        RowsStep(cells, center, rings, dRow);
        if row < 0 || row >= rowCount {
          continue;
        }
        candidates := ScanRow(center, row, ringCount, candidates);
      }
    }

    /** The inner loop: adds the buckets of one row of the block. */
    method ScanRow(center: GridCell, row: int, ringCount: nat, before: set<string>) returns (candidates: set<string>)
      requires Valid() && 0 <= row < RowCount(bucketBits)
      ensures forall id :: id in candidates <==>
        id in before || (id in Cells() && InRow(Cells()[id], center, ringCount, row))
    {
      var colCount := ColCount(bucketBits);
      var rings: int := ringCount;
      ghost var cells := Cells();
      candidates := before;
      for dCol := 0 - rings to rings + 1
        invariant forall id :: id in candidates <==>
          id in before || (id in cells && InRowPart(cells[id], center, row, 0 - rings, dCol))
      {
        var col := WrapCol(center.col + dCol, colCount);
        WrapColIsMod(center.col + dCol, colCount);
        RowPartStep(cells, center, row, 0 - rings, dCol);
        candidates := AddBucket(GridCell(row, col), candidates, cells);
      }
      WholeRow(cells, center, rings, row);
    }

    /** Adds the bucket of one cell, if there is one. */
    method AddBucket(cell: GridCell, before: set<string>, ghost cells: map<string, GridCell>)
      returns (candidates: set<string>)
      requires Valid() && InGrid(cell, bucketBits) && cells == Cells()
      ensures forall id :: id in candidates <==> id in before || (id in cells && cells[id] == cell)
    {
      var hash := HashOfCell(cell);
      BucketIsCell(cell);
      candidates := if hash in buckets then before + buckets[hash] else before;
    }

    // The cells of one row visited so far, of a whole row of the block, and of the rows so far.

    ghost predicate InRowPart(cell: GridCell, center: GridCell, row: int, lo: int, hi: int) {
      cell.row == row && ColReached(center.col, cell.col, lo, hi, ColCount(bucketBits))
    }

    ghost predicate InRow(cell: GridCell, center: GridCell, rings: int, row: int) {
      InGrid(cell, bucketBits) && cell.row == row && ColNear(center.col, cell.col, rings, ColCount(bucketBits))
    }

    ghost predicate InRows(cell: GridCell, center: GridCell, rings: int, hi: int) {
      cell.row - center.row < hi && InBlock(center, cell, rings, bucketBits)
    }

    lemma RowPartStep(cells: map<string, GridCell>, center: GridCell, row: int, lo: int, dCol: int)
      requires lo <= dCol
      ensures forall id :: id in cells ==>
        (InRowPart(cells[id], center, row, lo, dCol + 1) <==>
           InRowPart(cells[id], center, row, lo, dCol)
           || cells[id] == GridCell(row, WrapCol(center.col + dCol, ColCount(bucketBits))))
    {
      var n := ColCount(bucketBits);
      assert ColAt(center.col, dCol, n) == WrapCol(center.col + dCol, n);
    }

    lemma WholeRow(cells: map<string, GridCell>, center: GridCell, rings: int, row: int)
      requires forall id :: id in cells ==> InGrid(cells[id], bucketBits)
      ensures forall id :: id in cells ==>
        (InRowPart(cells[id], center, row, 0 - rings, rings + 1) <==> InRow(cells[id], center, rings, row))
    {
      forall id | id in cells
        ensures InRowPart(cells[id], center, row, 0 - rings, rings + 1) <==> InRow(cells[id], center, rings, row)
      {
        ReachedIsNear(center.col, cells[id].col, rings, ColCount(bucketBits));
      }
    }

    lemma RowsStep(cells: map<string, GridCell>, center: GridCell, rings: int, dRow: int)
      requires -rings <= dRow <= rings
      ensures forall id :: id in cells ==>
        (InRows(cells[id], center, rings, dRow + 1) <==>
           InRows(cells[id], center, rings, dRow) || InRow(cells[id], center, rings, center.row + dRow))
      ensures !(0 <= center.row + dRow < RowCount(bucketBits)) ==>
        forall id :: id in cells ==> !InRow(cells[id], center, rings, center.row + dRow)
    {
      forall id | id in cells
        ensures InRows(cells[id], center, rings, dRow + 1) <==>
                InRows(cells[id], center, rings, dRow) || InRow(cells[id], center, rings, center.row + dRow)
      {
        OneMoreRow(cells[id], center, rings, dRow);
      }
    }

    lemma OneMoreRow(cell: GridCell, center: GridCell, rings: int, dRow: int)
      requires -rings <= dRow <= rings
      ensures InRows(cell, center, rings, dRow + 1) <==>
              InRows(cell, center, rings, dRow) || InRow(cell, center, rings, center.row + dRow)
    {
    }

    // ---- Searches -----------------------------------------------------------------------------

    /** The exact filter over a candidate set: an entry for each candidate within the radius. */
    method FilterByDistance(center: LatLng, radiusMeters: real, candidates: set<string>)
      returns (results: seq<Entry>)
      requires Valid()
      ensures NoDuplicates(results)
      ensures forall e :: e in results <==>
        e.id in candidates && InRadius(geo, positions, center, radiusMeters, e.id)
        && e == EntryFor(geo, positions, center, e.id)
      ensures forall e :: e in results <==>
        e.id in candidates && IsOfStored(geo, positions, center, e) && e.distanceMeters <= radiusMeters
    {
      var todo := candidates;
      results := [];
      while todo != {}
        invariant todo <= candidates
        invariant NoDuplicates(results)
        invariant forall e :: e in results <==>
          e.id in candidates - todo && InRadius(geo, positions, center, radiusMeters, e.id)
          && e == EntryFor(geo, positions, center, e.id)
        decreases todo
      {
        var id :| id in todo;
        todo := todo - {id};
        if id in positions {
          var pos := positions[id];
          var distanceMeters := geo.distance(center, pos);
          if distanceMeters <= radiusMeters {
            var e := Entry(id, pos.lat, pos.lng, distanceMeters);
            assert e !in results;
            results := results + [e];
          }
        }
      }
    }

    /** Every stored point the block scan visits and the radius admits, nearest first. */
    method RadiusSearchAll(center: LatLng, radiusMeters: real) returns (results: seq<Entry>)
      requires Valid()
      ensures Ranks(results, Found(geo, positions, bucketBits, center, radiusMeters), ByDistance)
      ensures forall e :: e in results ==> IsOfStored(geo, positions, center, e) && e.distanceMeters <= radiusMeters
      ensures forall i, j :: 0 <= i < j < |results| ==> results[i].distanceMeters <= results[j].distanceMeters
    {
      MinCellDimPositive(geo, bucketBits, center.lat);
      var minCellDim := MinCellDim(geo, bucketBits, center.lat);
      var ringCount := RingCount(radiusMeters, minCellDim);
      var candidateIds := ScanCandidates(center, ringCount);
      var unsorted := FilterByDistance(center, radiusMeters, candidateIds);
      SortRanks(unsorted, Found(geo, positions, bucketBits, center, radiusMeters), ByDistance);
      results := Sort(unsorted, ByDistance);
    }

    /** `radiusSearch`: that ranking cut to `limit`; the brute-force ranking whenever the metric
        hypothesis holds. */
    method RadiusSearch(center: LatLng, radiusMeters: real, limit: Option<int>) returns (results: seq<Entry>)
      requires Valid()
      ensures exists all :: Ranks(all, Found(geo, positions, bucketBits, center, radiusMeters), ByDistance)
                            && results <= all && Kept(|results|, |all|, limit)
      ensures forall e :: e in results ==> IsOfStored(geo, positions, center, e) && e.distanceMeters <= radiusMeters
      ensures forall i, j :: 0 <= i < j < |results| ==> results[i].distanceMeters <= results[j].distanceMeters
      ensures AxisBound(geo, positions, bucketBits, center, radiusMeters) ==>
        Found(geo, positions, bucketBits, center, radiusMeters) == BruteForce(geo, positions, center, radiusMeters)
    {
      var all := RadiusSearchAll(center, radiusMeters);
      if AxisBound(geo, positions, bucketBits, center, radiusMeters) {
        SearchIsExhaustive(geo, positions, bucketBits, center, radiusMeters);
      }
      results := if limit.None? then all else SliceTo(all, limit.value);
    }

    /** `nearestNeighbors`: doubles the radius until k points are confirmed or the maximum is
        passed. `lastRadius` is the radius of the last search made. */
    method NearestNeighbors(center: LatLng, k: int, maxRadiusMeters: real)
      returns (results: seq<Entry>, ghost lastRadius: real)
      requires Valid()
      ensures k <= 0 ==> results == []
      ensures forall e :: e in results ==> IsOfStored(geo, positions, center, e)
      ensures forall i, j :: 0 <= i < j < |results| ==> results[i].distanceMeters <= results[j].distanceMeters
      ensures k > 0 ==> |results| <= k && (|results| < k ==> lastRadius >= maxRadiusMeters)
      ensures k > 0 ==> MayTry(geo, bucketBits, center, maxRadiusMeters, lastRadius)
      ensures k > 0 && AxisBound(geo, positions, bucketBits, center, lastRadius) ==>
        Nearest(geo, positions, center, k, maxRadiusMeters, results)
      ensures k > 0 && (forall r :: MayTry(geo, bucketBits, center, maxRadiusMeters, r) ==>
                                    AxisBound(geo, positions, bucketBits, center, r)) ==>
        Nearest(geo, positions, center, k, maxRadiusMeters, results)
    {
      lastRadius := 0.0;
      if k <= 0 {
        return [], lastRadius;
      }
      var radiusMeters := MaxReal(50.0, MinCellDim(geo, bucketBits, center.lat));
      results := RadiusSearchAll(center, radiusMeters);
      ghost var n := 0;
      while |results| < k && radiusMeters < maxRadiusMeters
        invariant radiusMeters >= 50.0 && radiusMeters == RadiusTried(geo, bucketBits, center, n)
        invariant n > 0 ==> RadiusTried(geo, bucketBits, center, n - 1) < maxRadiusMeters
        invariant Ranks(results, Found(geo, positions, bucketBits, center, radiusMeters), ByDistance)
        invariant forall e :: e in results ==> IsOfStored(geo, positions, center, e)
        invariant forall i, j :: 0 <= i < j < |results| ==> results[i].distanceMeters <= results[j].distanceMeters
        decreases maxRadiusMeters - radiusMeters
      {
        radiusMeters := radiusMeters * 2.0;
        n := n + 1;
        results := RadiusSearchAll(center, radiusMeters);
      }
      lastRadius := radiusMeters;
      if AxisBound(geo, positions, bucketBits, center, lastRadius) {
        SearchIsExhaustive(geo, positions, bucketBits, center, lastRadius);
        FirstAreNearest(geo, positions, center, k, maxRadiusMeters, lastRadius, results);
      }
      results := SliceTo(results, k);
    }
  }

  /** The results are stored points, nearest first; when there are k of them no other stored point
      is strictly closer than any of them; when there are fewer they include every stored point
      within the maximum radius. */
  ghost predicate Nearest(geo: Geometry, positions: Positions, center: LatLng, k: int, maxRadiusMeters: real,
                          results: seq<Entry>)
  {
    && SortedBy(results, ByDistance) && NoDuplicates(results)
    && (forall e :: e in results ==> IsOfStored(geo, positions, center, e))
    && (|results| == k ==>
          forall id, e :: id in positions && e in results && !Listed(results, id) ==>
            e.distanceMeters <= geo.distance(center, positions[id]))
    && (|results| < k ==>
          forall id :: id in positions && geo.distance(center, positions[id]) <= maxRadiusMeters ==>
            Listed(results, id))
  }

  /** The results have an entry for the id. */
  ghost predicate Listed(results: seq<Entry>, id: string) {
    exists e :: e in results && e.id == id
  }

  lemma FirstAreNearest(geo: Geometry, positions: Positions, center: LatLng, k: int, maxRadiusMeters: real,
                        radiusMeters: real, all: seq<Entry>)
    requires k > 0 && Ranks(all, BruteForce(geo, positions, center, radiusMeters), ByDistance)
    requires |all| < k ==> radiusMeters >= maxRadiusMeters
    ensures Nearest(geo, positions, center, k, maxRadiusMeters, SliceTo(all, k))
  {
    var expected := BruteForce(geo, positions, center, radiusMeters);
    var results := SliceTo(all, k);
    forall e | e in results ensures e in expected {
      assert e in all;
    }
    forall id, e | id in positions && e in results && !Listed(results, id)
      ensures |results| == k ==> e.distanceMeters <= geo.distance(center, positions[id])
    {
      var out := EntryFor(geo, positions, center, id);
      assert out !in results;
      if |results| == k {
        if InRadius(geo, positions, center, radiusMeters, id) {
          assert out in expected;
          PrefixIsNearest(all, expected, ByDistance, k, e, out);
        } else {
          assert e in expected;
        }
      }
    }
    if |results| < k {
      assert results == all;
      forall id | id in positions && geo.distance(center, positions[id]) <= maxRadiusMeters
        ensures Listed(results, id)
      {
        assert InRadius(geo, positions, center, radiusMeters, id);
        assert EntryFor(geo, positions, center, id) in expected;
      }
    }
  }
}
