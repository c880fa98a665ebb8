// Geographic regions and which shard a point belongs to (core/src/geo/regions.ts). The properties
// are proved for any row of regions that share their borders; the repository's two are one.

module Regions {
  import opened Wrappers
  import opened Numbers
  import opened Geohash

  datatype BoundingBox = BoundingBox(minLat: real, maxLat: real, minLng: real, maxLng: real)

  datatype Region = Region(id: string, bbox: BoundingBox)

  const REGIONS: seq<Region> := [
    Region("sf", BoundingBox(37.708, 37.812, -122.514, -122.386)),
    Region("oakland", BoundingBox(37.708, 37.812, -122.386, -122.258))
  ]

  /** Min-inclusive and max-exclusive in longitude; the easternmost region is max-inclusive too. */
  predicate Owns(regions: seq<Region>, i: nat, p: LatLng)
    requires i < |regions|
  {
    var b := regions[i].bbox;
    && b.minLat <= p.lat <= b.maxLat
    && b.minLng <= p.lng
    && (if i == |regions| - 1 then p.lng <= b.maxLng else p.lng < b.maxLng)
  }

  function RegionFrom(regions: seq<Region>, i: nat, p: LatLng): (r: Option<Region>)
    requires i <= |regions|
    ensures r.Some? ==> r.value in regions
    decreases |regions| - i
  {
    if i == |regions| then None
    else if Owns(regions, i, p) then Some(regions[i])
    else RegionFrom(regions, i + 1, p)
  }

  function RegionForPoint(regions: seq<Region>, p: LatLng): (r: Option<Region>)
    ensures r.Some? ==> r.value in regions
  {
    RegionFrom(regions, 0, p)
  }

  predicate Inside(p: LatLng, b: BoundingBox) {
    b.minLat <= p.lat <= b.maxLat && b.minLng <= p.lng <= b.maxLng
  }

  /** A row from west to east: one band of latitudes, each border shared with the next region. */
  ghost predicate Row(regions: seq<Region>) {
    && (forall i :: 0 <= i < |regions| ==> regions[i].bbox.minLng < regions[i].bbox.maxLng)
    && (forall i, j :: 0 <= i < j < |regions| ==>
          && regions[i].bbox.minLat == regions[j].bbox.minLat
          && regions[i].bbox.maxLat == regions[j].bbox.maxLat
          && regions[i].bbox.maxLng <= regions[j].bbox.minLng
          && regions[i].id != regions[j].id)
    && (forall i :: 0 < i < |regions| ==> regions[i - 1].bbox.maxLng == regions[i].bbox.minLng)
  }

  lemma TheRegionsAreARow()
    ensures Row(REGIONS)
  {
  }

  lemma {:induction false} FromFindsFirst(regions: seq<Region>, i: nat, p: LatLng)
    requires i <= |regions|
    ensures match RegionFrom(regions, i, p)
            case Some(r) => exists k :: i <= k < |regions| && Owns(regions, k, p) && r == regions[k]
            case None => forall k :: i <= k < |regions| ==> !Owns(regions, k, p)
    decreases |regions| - i
  {
    if i < |regions| {
      FromFindsFirst(regions, i + 1, p);
      if Owns(regions, i, p) {
        assert RegionFrom(regions, i, p) == Some(regions[i]);
      }
    }
  }

  /** A point inside some region's box is owned by that region, or by one further east. */
  lemma {:induction false} InsideHasOwner(regions: seq<Region>, i: nat, p: LatLng)
    requires Row(regions) && i < |regions| && Inside(p, regions[i].bbox)
    ensures exists k :: i <= k < |regions| && Owns(regions, k, p)
    decreases |regions| - i
  {
    if !Owns(regions, i, p) {
      assert p.lng == regions[i].bbox.maxLng == regions[i + 1].bbox.minLng;
      InsideHasOwner(regions, i + 1, p);
    } else {
      assert i <= i < |regions| && Owns(regions, i, p);
    }
  }

  /** Every covered point is assigned exactly one region, the only one that owns it; every other
      point is assigned none. */
  lemma ExactlyOneRegion(regions: seq<Region>, p: LatLng)
    requires Row(regions)
    ensures RegionForPoint(regions, p).Some? <==> exists i :: 0 <= i < |regions| && Inside(p, regions[i].bbox)
    ensures forall k :: 0 <= k < |regions| ==> (Owns(regions, k, p) <==> RegionForPoint(regions, p) == Some(regions[k]))
  {
    FromFindsFirst(regions, 0, p);
    if i :| 0 <= i < |regions| && Inside(p, regions[i].bbox) {
      InsideHasOwner(regions, i, p);
    }
    forall k | 0 <= k < |regions| ensures Owns(regions, k, p) <==> RegionForPoint(regions, p) == Some(regions[k]) {
      if RegionForPoint(regions, p).Some? {
        var m :| 0 <= m < |regions| && Owns(regions, m, p) && RegionForPoint(regions, p).value == regions[m];
        assert m < k ==> regions[m].id != regions[k].id && regions[m].bbox.maxLng <= regions[k].bbox.minLng;
        assert k < m ==> regions[k].id != regions[m].id && regions[k].bbox.maxLng <= regions[m].bbox.minLng;
      }
    }
  }

  /** A point on a shared border belongs to the region to its east. */
  lemma BorderBelongsEast(regions: seq<Region>, i: nat, p: LatLng)
    requires Row(regions) && 0 < i < |regions| && p.lng == regions[i].bbox.minLng == regions[i - 1].bbox.maxLng
    requires regions[i].bbox.minLat <= p.lat <= regions[i].bbox.maxLat
    ensures RegionForPoint(regions, p) == Some(regions[i])
  {
    ExactlyOneRegion(regions, p);
    assert Owns(regions, i, p);
  }

  /** The area the two regions cover, outer borders included, and the meridian that divides it. */
  lemma CoveredArea(p: LatLng)
    ensures RegionForPoint(REGIONS, p).Some? <==> 37.708 <= p.lat <= 37.812 && -122.514 <= p.lng <= -122.258
    ensures RegionForPoint(REGIONS, p).Some? ==>
              RegionForPoint(REGIONS, p).value.id == if p.lng < -122.386 then "sf" else "oakland"
  {
    TheRegionsAreARow();
    FromFindsFirst(REGIONS, 0, p);
    FromFindsFirst(REGIONS, 1, p);
  }

  // ---- Which regions a search must ask --------------------------------------------------------

  type Distance = (LatLng, LatLng) -> real

  function Clamped(p: LatLng, b: BoundingBox): LatLng {
    LatLng(ClampReal(p.lat, b.minLat, b.maxLat), ClampReal(p.lng, b.minLng, b.maxLng))
  }

  /** Clamping finds the point of the box that is nearest on each axis, and leaves a point inside alone. */
  lemma ClampedIsNearestPerAxis(p: LatLng, b: BoundingBox, q: LatLng)
    requires b.minLat <= b.maxLat && b.minLng <= b.maxLng && Inside(q, b)
    ensures Inside(Clamped(p, b), b) && (Inside(p, b) ==> Clamped(p, b) == p)
    ensures AbsReal(Clamped(p, b).lat - p.lat) <= AbsReal(q.lat - p.lat)
    ensures AbsReal(Clamped(p, b).lng - p.lng) <= AbsReal(q.lng - p.lng)
  {
  }

  function DistanceToBbox(distance: Distance, p: LatLng, b: BoundingBox): real {
    distance(p, Clamped(p, b))
  }

  function RegionsWithinRadius(distance: Distance, regions: seq<Region>, p: LatLng, radius: real): seq<Region> {
    if regions == [] then []
    else
      (if DistanceToBbox(distance, p, regions[0].bbox) <= radius then [regions[0]] else []) +
      RegionsWithinRadius(distance, regions[1..], p, radius)
  }

  lemma {:induction false} WithinRadiusIsExact(distance: Distance, regions: seq<Region>, p: LatLng, radius: real, r: Region)
    ensures r in RegionsWithinRadius(distance, regions, p, radius) <==>
            r in regions && distance(p, Clamped(p, r.bbox)) <= radius
  {
    if regions != [] {
      WithinRadiusIsExact(distance, regions[1..], p, radius, r);
      assert regions == [regions[0]] + regions[1..];
    }
  }

  /** Clamping into a box gives the point of the box nearest to `center`. */
  ghost predicate ClampIsNearest(distance: Distance, center: LatLng, b: BoundingBox) {
    forall p :: Inside(p, b) ==> distance(center, Clamped(center, b)) <= distance(center, p)
  }
}
