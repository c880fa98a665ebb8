// The geo-sharded driver store (core/src/repositories/sharded-driver-geo.repository.ts): one sorted
// set per region, the recorded region of each driver, and a search that asks the regions in reach and
// merges. The search of one shard is any answer that meets `IsTop`.

module Sharding {
  import opened Wrappers
  import opened Numbers
  import opened Geohash
  import opened Ranking
  import opened Regions

  type Id = string

  /** `regionId` is the region whose shard the hit came from. */
  datatype Hit = Hit(driverId: Id, distanceMeters: real, location: LatLng, regionId: Id)

  type Shard = map<Id, LatLng>

  // ---- What a search by radius returns --------------------------------------------------------

  ghost predicate InReach(distance: Distance, shard: Shard, center: LatLng, radius: real, d: Id) {
    d in shard && distance(center, shard[d]) <= radius
  }

  ghost predicate IsHit(distance: Distance, shard: Shard, center: LatLng, radius: real, h: Hit) {
    && InReach(distance, shard, center, radius, h.driverId)
    && h.location == shard[h.driverId]
    && h.distanceMeters == distance(center, shard[h.driverId])
  }

  ghost function Ids(hits: seq<Hit>): set<Id> {
    set h | h in hits :: h.driverId
  }

  /** No driver is listed twice. */
  ghost predicate DistinctIds(hits: seq<Hit>) {
    |Ids(hits)| == |hits|
  }

  function ByHitDistance(h: Hit): real {
    h.distanceMeters
  }

  /** GEOSEARCH BYRADIUS ... ASC COUNT limit: the nearest `limit` members within the radius, ascending,
      ties in any order. */
  ghost predicate IsTop(distance: Distance, shard: Shard, center: LatLng, radius: real, limit: nat, hits: seq<Hit>) {
    && DistinctIds(hits)
    && SortedBy(hits, ByHitDistance)
    && |hits| <= limit
    && (forall h :: h in hits ==> IsHit(distance, shard, center, radius, h))
    && (forall d :: InReach(distance, shard, center, radius, d) && d !in Ids(hits) ==>
          && |hits| == limit
          && forall h :: h in hits ==> h.distanceMeters <= distance(center, shard[d]))
  }

  // ---- The merge ------------------------------------------------------------------------------

  /** What the merge needs to know about all hits together: each is one of the union's, and whatever
      they leave out has `limit` of them at most as far away. */
  ghost predicate Enough(distance: Distance, shard: Shard, center: LatLng, radius: real, limit: nat, hits: seq<Hit>) {
    && DistinctIds(hits)
    && (forall h :: h in hits ==> IsHit(distance, shard, center, radius, h))
    && (forall d :: InReach(distance, shard, center, radius, d) && d !in Ids(hits) ==>
          NearerEnough(hits, limit, distance(center, shard[d])))
  }

  /** At least `limit` of the hits are at most as far away as `far`. */
  ghost predicate NearerEnough(hits: seq<Hit>, limit: nat, far: real) {
    |Nearer(hits, far)| >= limit
  }

  ghost function Nearer(hits: seq<Hit>, far: real): set<Id> {
    set h | h in hits && h.distanceMeters <= far :: h.driverId
  }

  lemma {:induction false} IdsCount(hits: seq<Hit>)
    ensures |Ids(hits)| <= |hits|
  {
    if hits == [] {
      assert Ids(hits) == {};
    } else {
      IdsCount(hits[1..]);
      assert hits == [hits[0]] + hits[1..];
      assert Ids(hits) == Ids(hits[1..]) + {hits[0].driverId};
    }
  }

  lemma DistinctPrefix(front: seq<Hit>, back: seq<Hit>)
    requires DistinctIds(front + back)
    ensures DistinctIds(front)
  {
    assert Ids(front + back) == Ids(front) + Ids(back);
    IdsCount(front);
    IdsCount(back);
  }

  lemma SortedHits(hits: seq<Hit>)
    ensures var sorted := Sort(hits, ByHitDistance);
            |sorted| == |hits| && forall h :: h in sorted <==> h in hits
  {
    var sorted := Sort(hits, ByHitDistance);
    assert |multiset(sorted)| == |multiset(hits)|;
    forall h ensures h in sorted <==> h in hits {
      assert h in sorted <==> h in multiset(sorted);
    }
  }

  /** Sorting what is enough and keeping the first `limit` gives the top of the union. */
  lemma PrefixIsTop(distance: Distance, shard: Shard, center: LatLng, radius: real, limit: nat, sorted: seq<Hit>)
    requires Enough(distance, shard, center, radius, limit, sorted) && SortedBy(sorted, ByHitDistance)
    ensures IsTop(distance, shard, center, radius, limit, sorted[..Min(limit, |sorted|)])
  {
    var n := Min(limit, |sorted|);
    var top := sorted[..n];
    assert sorted == top + sorted[n..];
    DistinctPrefix(top, sorted[n..]);
    forall d | InReach(distance, shard, center, radius, d) && d !in Ids(top)
      ensures |top| == limit && forall h :: h in top ==> h.distanceMeters <= distance(center, shard[d])
    {
      if d in Ids(sorted) {
        LaterIsFarther(sorted, n, d, distance(center, shard[d]));
      } else {
        NearestFill(sorted, limit, distance(center, shard[d]));
      }
    }
  }

  lemma LaterIsFarther(sorted: seq<Hit>, n: nat, d: Id, far: real)
    requires SortedBy(sorted, ByHitDistance) && n <= |sorted| && d in Ids(sorted) && d !in Ids(sorted[..n])
    requires forall h :: h in sorted && h.driverId == d ==> h.distanceMeters == far
    ensures n < |sorted| && forall h :: h in sorted[..n] ==> h.distanceMeters <= far
  {
    var k :| 0 <= k < |sorted| && sorted[k].driverId == d;
    assert forall i :: 0 <= i < n ==> sorted[i] in sorted[..n];
    assert sorted[k] in sorted && k >= n;
    forall h | h in sorted[..n] ensures h.distanceMeters <= far {
      var i :| 0 <= i < n && sorted[i] == h;
      assert ByHitDistance(sorted[i]) <= ByHitDistance(sorted[k]);
    }
  }

  /** If `limit` hits are at most `far` away, the first `limit` of the sorted hits all are. */
  lemma NearestFill(sorted: seq<Hit>, limit: nat, far: real)
    requires SortedBy(sorted, ByHitDistance) && NearerEnough(sorted, limit, far)
    ensures |sorted| >= limit && forall h :: h in sorted[..limit] ==> h.distanceMeters <= far
  {
    IdsCount(sorted);
    Subset(Nearer(sorted, far), Ids(sorted));
    forall i | 0 <= i < limit ensures sorted[i].distanceMeters <= far {
      if sorted[i].distanceMeters > far {
        forall h | h in sorted && h.distanceMeters <= far ensures h in sorted[..i] {
          var j :| 0 <= j < |sorted| && sorted[j] == h;
          assert j >= i ==> ByHitDistance(sorted[i]) <= ByHitDistance(sorted[j]);
          assert sorted[..i][j] == h;
        }
        IdsCount(sorted[..i]);
        Subset(Nearer(sorted, far), Ids(sorted[..i]));
      }
    }
  }

  lemma {:induction false} Subset(a: set<Id>, b: set<Id>)
    requires a <= b
    ensures |a| <= |b|
  {
    if a != {} {
      var x :| x in a;
      Subset(a - {x}, b - {x});
    }
  }

  // ---- All answers together -------------------------------------------------------------------

  /** `perRegionResults.flat()`. */
  function Flat(regions: seq<Region>, answers: map<Id, seq<Hit>>): seq<Hit> {
    if regions == [] then []
    else (if regions[0].id in answers then answers[regions[0].id] else []) + Flat(regions[1..], answers)
  }

  lemma {:induction false} FlatHas(regions: seq<Region>, answers: map<Id, seq<Hit>>, h: Hit)
    ensures h in Flat(regions, answers) <==> exists r :: r in regions && r.id in answers && h in answers[r.id]
  {
    if regions != [] {
      FlatHas(regions[1..], answers, h);
      assert regions == [regions[0]] + regions[1..];
    }
  }

  /** Each driver is in at most one shard, so no two answers list the same driver. */
  ghost predicate Disjoint(answers: map<Id, seq<Hit>>) {
    forall r, q, h, k :: r in answers && q in answers && r != q && h in answers[r] && k in answers[q] ==> h.driverId != k.driverId
  }

  ghost predicate DistinctRegions(regions: seq<Region>) {
    forall i, j :: 0 <= i < j < |regions| ==> regions[i].id != regions[j].id
  }

  lemma DistinctTogether(first: seq<Hit>, rest: seq<Hit>)
    requires DistinctIds(first) && DistinctIds(rest) && Ids(first) !! Ids(rest)
    ensures DistinctIds(first + rest)
  {
    assert Ids(first + rest) == Ids(first) + Ids(rest);
  }

  lemma FirstIsApart(regions: seq<Region>, answers: map<Id, seq<Hit>>)
    requires regions != [] && DistinctRegions(regions) && Disjoint(answers) && regions[0].id in answers
    ensures Ids(answers[regions[0].id]) !! Ids(Flat(regions[1..], answers))
  {
    forall k | k in Flat(regions[1..], answers) ensures k.driverId !in Ids(answers[regions[0].id]) {
      FlatHas(regions[1..], answers, k);
      var r :| r in regions[1..] && r.id in answers && k in answers[r.id];
      var i :| 0 <= i < |regions[1..]| && regions[1..][i] == r;
      assert regions[i + 1] == r;
    }
  }

  lemma {:induction false} FlatIsDistinct(regions: seq<Region>, answers: map<Id, seq<Hit>>)
    requires DistinctRegions(regions) && Disjoint(answers)
    requires forall r :: r in answers ==> DistinctIds(answers[r])
    ensures DistinctIds(Flat(regions, answers))
  {
    if regions == [] {
      assert Ids([]) == {};
    } else {
      FlatIsDistinct(regions[1..], answers);
      if regions[0].id in answers {
        FirstIsApart(regions, answers);
        DistinctTogether(answers[regions[0].id], Flat(regions[1..], answers));
      } else {
        assert [] + Flat(regions[1..], answers) == Flat(regions[1..], answers);
      }
    }
  }

  // ---- The store ------------------------------------------------------------------------------

  /** Where shard `id` has the driver, if it does. */
  function At(shards: map<Id, Shard>, id: Id, d: Id): Option<LatLng> {
    if id in shards && d in shards[id] then Some(shards[id][d]) else None
  }

  /** A driver is in exactly the shard of its recorded region, at a point of that region. */
  ghost predicate ShardsMatch(regions: seq<Region>, shards: map<Id, Shard>, current: map<Id, Id>) {
    && (forall r :: r in regions ==> r.id in shards)
    && (forall id, d :: At(shards, id, d).Some? ==>
          d in current && current[d] == id && BelongsTo(regions, At(shards, id, d).value, id))
    && (forall d :: d in current ==> At(shards, current[d], d).Some?)
  }

  ghost predicate BelongsTo(regions: seq<Region>, p: LatLng, id: Id) {
    RegionForPoint(regions, p).Some? && RegionForPoint(regions, p).value.id == id
  }

  /** The one index the shards stand for. */
  ghost function Union(shards: map<Id, Shard>, current: map<Id, Id>): Shard {
    map d | d in current && At(shards, current[d], d).Some? :: At(shards, current[d], d).value
  }

  /** No driver is in two shards. */
  lemma OneShardPerDriver(regions: seq<Region>, shards: map<Id, Shard>, current: map<Id, Id>, d: Id, a: Id, b: Id)
    requires ShardsMatch(regions, shards, current) && At(shards, a, d).Some? && At(shards, b, d).Some?
    ensures a == b == current[d]
  {
  }

  function Zrem(shards: map<Id, Shard>, id: Id, d: Id): map<Id, Shard>
    requires id in shards
  {
    shards[id := shards[id] - {d}]
  }

  function Geoadd(shards: map<Id, Shard>, id: Id, d: Id, p: LatLng): map<Id, Shard>
    requires id in shards
  {
    shards[id := shards[id][d := p]]
  }

  lemma AtZrem(shards: map<Id, Shard>, id: Id, d: Id)
    requires id in shards
    ensures forall i, e :: At(Zrem(shards, id, d), i, e) == if i == id && e == d then None else At(shards, i, e)
  {
  }

  lemma AtGeoadd(shards: map<Id, Shard>, id: Id, d: Id, p: LatLng)
    requires id in shards
    ensures forall i, e :: At(Geoadd(shards, id, d, p), i, e) == if i == id && e == d then Some(p) else At(shards, i, e)
  {
  }

  lemma RemovedMatches(regions: seq<Region>, shards: map<Id, Shard>, current: map<Id, Id>, d: Id)
    requires ShardsMatch(regions, shards, current) && d in current
    ensures current[d] in shards && ShardsMatch(regions, Zrem(shards, current[d], d), current - {d})
    ensures Union(Zrem(shards, current[d], d), current - {d}) == Union(shards, current) - {d}
    ensures exists r :: r in regions && r.id == current[d]
  {
    assert At(shards, current[d], d).Some? && BelongsTo(regions, At(shards, current[d], d).value, current[d]);
    AtZrem(shards, current[d], d);
  }

  lemma AddedMatches(regions: seq<Region>, shards: map<Id, Shard>, current: map<Id, Id>, r: Region, d: Id, p: LatLng)
    requires ShardsMatch(regions, shards, current) && d !in current && RegionForPoint(regions, p) == Some(r)
    ensures ShardsMatch(regions, Geoadd(shards, r.id, d, p), current[d := r.id])
    ensures Union(Geoadd(shards, r.id, d, p), current[d := r.id]) == Union(shards, current)[d := p]
  {
    AtGeoadd(shards, r.id, d, p);
  }

  lemma GeoaddOverZrem(shards: map<Id, Shard>, id: Id, d: Id, p: LatLng)
    requires id in shards
    ensures Geoadd(Zrem(shards, id, d), id, d, p) == Geoadd(shards, id, d, p)
  {
    assert (shards[id] - {d})[d := p] == shards[id][d := p];
  }

  /** Adding over an entry is removing it and adding: the shard keeps one position per driver. */
  lemma MovedMatches(regions: seq<Region>, shards: map<Id, Shard>, current: map<Id, Id>, r: Region, d: Id, p: LatLng)
    requires ShardsMatch(regions, shards, current) && d in current && RegionForPoint(regions, p) == Some(r)
    ensures current[d] in shards
    ensures var left := if current[d] == r.id then shards else Zrem(shards, current[d], d);
            && ShardsMatch(regions, Geoadd(left, r.id, d, p), current[d := r.id])
            && Union(Geoadd(left, r.id, d, p), current[d := r.id]) == Union(shards, current)[d := p]
  {
    assert At(shards, current[d], d).Some?;
    var left := Zrem(shards, current[d], d);
    RemovedMatches(regions, shards, current, d);
    AddedMatches(regions, left, current - {d}, r, d, p);
    assert (current - {d})[d := r.id] == current[d := r.id];
    assert (Union(shards, current) - {d})[d := p] == Union(shards, current)[d := p];
    GeoaddOverZrem(shards, current[d], d, p);
  }

  // ---- Updates that stop halfway --------------------------------------------------------------

  /** The stores after the first `n` of an update's three writes: out of the old shard, into the new
      one, and the recorded region. */
  ghost function AfterWrites(shards: map<Id, Shard>, current: map<Id, Id>, id: Id, d: Id, p: LatLng, n: nat)
    : (map<Id, Shard>, map<Id, Id>)
    requires id in shards
  {
    var moves := d in current && current[d] != id && current[d] in shards;
    var left := if n >= 1 && moves then Zrem(shards, current[d], d) else shards;
    (if n >= 2 then Geoadd(left, id, d, p) else left, if n >= 3 then current[d := id] else current)
  }

  ghost predicate InOneShard(shards: map<Id, Shard>, d: Id) {
    forall a, b :: At(shards, a, d).Some? && At(shards, b, d).Some? ==> a == b
  }

  lemma AtAfterWrites(shards: map<Id, Shard>, current: map<Id, Id>, id: Id, d: Id, p: LatLng, n: nat)
    requires id in shards
    ensures forall i, e :: At(AfterWrites(shards, current, id, d, p, n).0, i, e) ==
              if e == d && i == id && n >= 2 then Some(p)
              else if e == d && d in current && i == current[d] && i != id && n >= 1 then None
              else At(shards, i, e)
  {
    var moves := d in current && current[d] != id && current[d] in shards;
    if moves {
      AtZrem(shards, current[d], d);
      AtGeoadd(Zrem(shards, current[d], d), id, d, p);
    }
    AtGeoadd(shards, id, d, p);
  }

  /** Wherever an update stops, no driver is in two shards, and no other driver is touched. */
  lemma StoppedUpdateKeepsOneShard(regions: seq<Region>, shards: map<Id, Shard>, current: map<Id, Id>, id: Id, d: Id,
                                   p: LatLng, n: nat)
    requires ShardsMatch(regions, shards, current) && id in shards
    ensures var after := AfterWrites(shards, current, id, d, p, n);
            && (forall e :: InOneShard(after.0, e))
            && (forall e, i :: e != d ==> At(after.0, i, e) == At(shards, i, e))
            && after.1 - {d} == current - {d}
  {
    AtAfterWrites(shards, current, id, d, p, n);
  }

  /** But an update that stops before recording the new region is not forgotten: the next one leaves the
      driver in a single shard if and only if it is for the same region again. */
  lemma StoppedUpdateHealsIff(regions: seq<Region>, shards: map<Id, Shard>, current: map<Id, Id>, d: Id,
                              id: Id, p: LatLng, id2: Id, p2: LatLng)
    requires ShardsMatch(regions, shards, current) && id in shards && id2 in shards
    requires d in current && current[d] != id
    ensures var stopped := AfterWrites(shards, current, id, d, p, 2);
            InOneShard(AfterWrites(stopped.0, stopped.1, id2, d, p2, 3).0, d) <==> id2 == id
  {
    var stopped := AfterWrites(shards, current, id, d, p, 2);
    var after := AfterWrites(stopped.0, stopped.1, id2, d, p2, 3);
    AtAfterWrites(shards, current, id, d, p, 2);
    AtAfterWrites(stopped.0, stopped.1, id2, d, p2, 3);
    assert At(after.0, id2, d).Some? && (id2 != id ==> At(after.0, id, d).Some?);
  }

  /** Each answer is the top of its own shard. */
  ghost predicate Tops(distance: Distance, shards: map<Id, Shard>, center: LatLng, radius: real, limit: nat,
                       answers: map<Id, seq<Hit>>) {
    forall id :: id in answers ==> id in shards && IsTop(distance, shards[id], center, radius, limit, answers[id])
  }

  /** Every region asked answers with the top of its shard, each hit marked with the region. */
  ghost predicate Answered(distance: Distance, regions: seq<Region>, shards: map<Id, Shard>, center: LatLng, radius: real,
                           limit: nat, answers: map<Id, seq<Hit>>) {
    && (forall r :: r in RegionsWithinRadius(distance, regions, center, radius) ==> r.id in answers)
    && (forall id, h :: id in answers && h in answers[id] ==> h.regionId == id)
    && Tops(distance, shards, center, radius, limit, answers)
  }

  lemma SameIdSameRegion(regions: seq<Region>, r: Region, q: Region)
    requires Row(regions) && r in regions && q in regions && r.id == q.id
    ensures r == q
  {
    var i :| 0 <= i < |regions| && regions[i] == r;
    var j :| 0 <= j < |regions| && regions[j] == q;
    assert i == j;
  }

  /** A shard that is not asked has nothing within the radius. */
  lemma SkippedHasNothing(distance: Distance, regions: seq<Region>, shards: map<Id, Shard>, current: map<Id, Id>,
                          center: LatLng, radius: real, r: Region, d: Id)
    requires ShardsMatch(regions, shards, current) && Row(regions) && r in regions
    requires ClampIsNearest(distance, center, r.bbox)
    requires r !in RegionsWithinRadius(distance, regions, center, radius)
    ensures !InReach(distance, shards[r.id], center, radius, d)
  {
    WithinRadiusIsExact(distance, regions, center, radius, r);
    if d in shards[r.id] {
      assert At(shards, r.id, d).Some? && BelongsTo(regions, shards[r.id][d], r.id);
      ExactlyOneRegion(regions, shards[r.id][d]);
      var k :| 0 <= k < |regions| && regions[k] == r;
      SameIdSameRegion(regions, r, RegionForPoint(regions, shards[r.id][d]).value);
      assert Owns(regions, k, shards[r.id][d]);
      assert Inside(shards[r.id][d], r.bbox);
    }
  }

  lemma {:induction false} AskedAreDistinct(distance: Distance, regions: seq<Region>, center: LatLng, radius: real)
    requires DistinctRegions(regions)
    ensures DistinctRegions(RegionsWithinRadius(distance, regions, center, radius))
  {
    if regions != [] {
      AskedAreDistinct(distance, regions[1..], center, radius);
      var rest := RegionsWithinRadius(distance, regions[1..], center, radius);
      forall q | q in rest ensures q.id != regions[0].id {
        WithinRadiusIsExact(distance, regions[1..], center, radius, q);
        var i :| 0 <= i < |regions[1..]| && regions[1..][i] == q;
        assert regions[i + 1] == q;
      }
    }
  }

  ghost predicate Within(shard: Shard, whole: Shard) {
    forall d :: d in shard ==> d in whole && whole[d] == shard[d]
  }

  /** What the merge of the asked shards must be the top of: `whole` contains every asked shard, and
      has nothing in reach beyond them. */
  ghost predicate Covers(distance: Distance, asked: seq<Region>, shards: map<Id, Shard>, current: map<Id, Id>,
                         center: LatLng, radius: real, whole: Shard) {
    && (forall r :: r in asked && r.id in shards ==> Within(shards[r.id], whole))
    && (forall d :: InReach(distance, whole, center, radius, d) ==> d in current && HasId(asked, current[d]))
  }

  ghost predicate HasId(asked: seq<Region>, id: Id) {
    exists r :: r in asked && r.id == id
  }

  lemma AnswersAreDisjoint(distance: Distance, regions: seq<Region>, shards: map<Id, Shard>, current: map<Id, Id>,
                           center: LatLng, radius: real, limit: nat, answers: map<Id, seq<Hit>>)
    requires ShardsMatch(regions, shards, current) && Tops(distance, shards, center, radius, limit, answers)
    ensures Disjoint(answers)
  {
    forall r, h | r in answers && h in answers[r] ensures h.driverId in current && current[h.driverId] == r {
      assert IsHit(distance, shards[r], center, radius, h);
      assert At(shards, r, h.driverId).Some?;
    }
  }

  /** A driver a full answer leaves out is at least as far away as the whole answer. */
  lemma LeftOutIsFar(distance: Distance, shard: Shard, center: LatLng, radius: real, limit: nat, answer: seq<Hit>,
                     all: seq<Hit>, d: Id)
    requires IsTop(distance, shard, center, radius, limit, answer)
    requires InReach(distance, shard, center, radius, d) && d !in Ids(all) && forall h :: h in answer ==> h in all
    ensures NearerEnough(all, limit, distance(center, shard[d]))
  {
    assert Ids(answer) <= Ids(all);
    Subset(Ids(answer), Nearer(all, distance(center, shard[d])));
  }

  lemma FlatHitIsHit(distance: Distance, asked: seq<Region>, shards: map<Id, Shard>, current: map<Id, Id>, center: LatLng,
                     radius: real, limit: nat, answers: map<Id, seq<Hit>>, whole: Shard, h: Hit)
    requires Tops(distance, shards, center, radius, limit, answers)
    requires Covers(distance, asked, shards, current, center, radius, whole)
    requires h in Flat(asked, answers)
    ensures IsHit(distance, whole, center, radius, h)
  {
    FlatHas(asked, answers, h);
    var r :| r in asked && r.id in answers && h in answers[r.id];
    assert IsHit(distance, shards[r.id], center, radius, h) && Within(shards[r.id], whole);
  }

  lemma FlatLeavesFar(distance: Distance, asked: seq<Region>, shards: map<Id, Shard>, current: map<Id, Id>, center: LatLng,
                      radius: real, limit: nat, answers: map<Id, seq<Hit>>, whole: Shard, d: Id)
    requires Tops(distance, shards, center, radius, limit, answers) && forall r :: r in asked ==> r.id in answers
    requires Covers(distance, asked, shards, current, center, radius, whole)
    requires InReach(distance, whole, center, radius, d) && d !in Ids(Flat(asked, answers))
    requires At(shards, current[d], d).Some?
    ensures NearerEnough(Flat(asked, answers), limit, distance(center, whole[d]))
  {
    var r :| r in asked && r.id == current[d];
    assert Within(shards[r.id], whole);
    forall h | h in answers[r.id] ensures h in Flat(asked, answers) {
      FlatHas(asked, answers, h);
    }
    LeftOutIsFar(distance, shards[r.id], center, radius, limit, answers[r.id], Flat(asked, answers), d);
  }

  lemma FlatIsEnough(distance: Distance, regions: seq<Region>, shards: map<Id, Shard>, current: map<Id, Id>, center: LatLng,
                     radius: real, limit: nat, answers: map<Id, seq<Hit>>, whole: Shard)
    requires ShardsMatch(regions, shards, current) && DistinctRegions(regions)
    requires Answered(distance, regions, shards, center, radius, limit, answers)
    requires Covers(distance, RegionsWithinRadius(distance, regions, center, radius), shards, current, center, radius, whole)
    ensures Enough(distance, whole, center, radius, limit, Flat(RegionsWithinRadius(distance, regions, center, radius), answers))
  {
    var asked := RegionsWithinRadius(distance, regions, center, radius);
    AskedAreDistinct(distance, regions, center, radius);
    AnswersAreDisjoint(distance, regions, shards, current, center, radius, limit, answers);
    AnswersAreDistinct(distance, shards, center, radius, limit, answers);
    FlatIsDistinct(asked, answers);
    forall h | h in Flat(asked, answers) ensures IsHit(distance, whole, center, radius, h) {
      FlatHitIsHit(distance, asked, shards, current, center, radius, limit, answers, whole, h);
    }
    forall d | InReach(distance, whole, center, radius, d) && d !in Ids(Flat(asked, answers))
      ensures NearerEnough(Flat(asked, answers), limit, distance(center, whole[d]))
    {
      FlatLeavesFar(distance, asked, shards, current, center, radius, limit, answers, whole, d);
    }
  }

  lemma AnswersAreDistinct(distance: Distance, shards: map<Id, Shard>, center: LatLng, radius: real, limit: nat,
                           answers: map<Id, seq<Hit>>)
    requires Tops(distance, shards, center, radius, limit, answers)
    ensures forall r :: r in answers ==> DistinctIds(answers[r])
  {
  }

  /** The merge of what was asked: all hits, sorted by distance, the first `limit`. */
  function Merged(asked: seq<Region>, answers: map<Id, seq<Hit>>, limit: int): seq<Hit> {
    SliceTo(Sort(Flat(asked, answers), ByHitDistance), limit)
  }

  /** Taking the top of each asked shard, then sorting and slicing, is the top of all of them together. */
  lemma MergedIsTop(distance: Distance, regions: seq<Region>, shards: map<Id, Shard>, current: map<Id, Id>, center: LatLng,
                    radius: real, limit: nat, answers: map<Id, seq<Hit>>, whole: Shard)
    requires ShardsMatch(regions, shards, current) && DistinctRegions(regions)
    requires Answered(distance, regions, shards, center, radius, limit, answers)
    requires Covers(distance, RegionsWithinRadius(distance, regions, center, radius), shards, current, center, radius, whole)
    ensures IsTop(distance, whole, center, radius, limit,
                  Merged(RegionsWithinRadius(distance, regions, center, radius), answers, limit))
  {
    var all := Flat(RegionsWithinRadius(distance, regions, center, radius), answers);
    FlatIsEnough(distance, regions, shards, current, center, radius, limit, answers, whole);
    SortedHits(all);
    var sorted := Sort(all, ByHitDistance);
    SameHitsAreEnough(distance, whole, center, radius, limit, all, sorted);
    PrefixIsTop(distance, whole, center, radius, limit, sorted);
  }

  lemma SameHitsAreEnough(distance: Distance, shard: Shard, center: LatLng, radius: real, limit: nat,
                          hits: seq<Hit>, same: seq<Hit>)
    requires Enough(distance, shard, center, radius, limit, hits)
    requires |same| == |hits| && forall h :: h in same <==> h in hits
    ensures Enough(distance, shard, center, radius, limit, same)
  {
    assert Ids(same) == Ids(hits);
    forall d | InReach(distance, shard, center, radius, d) && d !in Ids(same)
      ensures NearerEnough(same, limit, distance(center, shard[d]))
    {
      assert Ids(same) == Ids(hits);
      assert Nearer(same, distance(center, shard[d])) == Nearer(hits, distance(center, shard[d]));
    }
  }

  /** No shard that was not asked has anything within the radius. */
  ghost predicate NothingSkipped(distance: Distance, regions: seq<Region>, shards: map<Id, Shard>, center: LatLng, radius: real) {
    forall r, d :: r in regions && r.id in shards && InReach(distance, shards[r.id], center, radius, d) ==>
      r in RegionsWithinRadius(distance, regions, center, radius)
  }

  lemma NothingSkippedCovers(distance: Distance, regions: seq<Region>, shards: map<Id, Shard>, current: map<Id, Id>,
                             center: LatLng, radius: real)
    requires ShardsMatch(regions, shards, current) && NothingSkipped(distance, regions, shards, center, radius)
    ensures Covers(distance, RegionsWithinRadius(distance, regions, center, radius), shards, current, center, radius,
                   Union(shards, current))
  {
    var asked, whole := RegionsWithinRadius(distance, regions, center, radius), Union(shards, current);
    forall r | r in asked && r.id in shards ensures Within(shards[r.id], whole) {
      assert forall d :: d in shards[r.id] ==> At(shards, r.id, d).Some?;
    }
    forall d | InReach(distance, whole, center, radius, d) ensures HasId(asked, current[d]) {
      assert At(shards, current[d], d).Some?;
      assert BelongsTo(regions, whole[d], current[d]);
      var r := RegionForPoint(regions, whole[d]).value;
      assert r in regions && r.id == current[d] && InReach(distance, shards[r.id], center, radius, d);
    }
  }

  /** A listed driver is in some asked shard. */
  lemma MergedFromAsked(distance: Distance, asked: seq<Region>, shards: map<Id, Shard>, center: LatLng, radius: real,
                        limit: nat, answers: map<Id, seq<Hit>>, d: Id) returns (r: Region)
    requires Tops(distance, shards, center, radius, limit, answers) && d in Ids(Merged(asked, answers, limit))
    ensures r in asked && At(shards, r.id, d).Some?
  {
    var merged, all := Merged(asked, answers, limit), Flat(asked, answers);
    var h :| h in merged && h.driverId == d;
    assert h in Sort(all, ByHitDistance) && h in multiset(Sort(all, ByHitDistance));
    FlatHas(asked, answers, h);
    r :| r in asked && r.id in answers && h in answers[r.id];
    assert IsHit(distance, shards[r.id], center, radius, h);
  }

  /** A listed hit is where its region's shard has the driver. */
  lemma MergedHitIsMarked(distance: Distance, regions: seq<Region>, shards: map<Id, Shard>, center: LatLng, radius: real,
                          limit: nat, answers: map<Id, seq<Hit>>, h: Hit)
    requires Answered(distance, regions, shards, center, radius, limit, answers)
    requires h in Merged(RegionsWithinRadius(distance, regions, center, radius), answers, limit)
    ensures At(shards, h.regionId, h.driverId) == Some(h.location)
  {
    var all := Flat(RegionsWithinRadius(distance, regions, center, radius), answers);
    assert h in Sort(all, ByHitDistance) && h in multiset(Sort(all, ByHitDistance));
    FlatHas(RegionsWithinRadius(distance, regions, center, radius), answers, h);
    var r :| r in RegionsWithinRadius(distance, regions, center, radius) && r.id in answers && h in answers[r.id];
    assert IsHit(distance, shards[r.id], center, radius, h) && h.regionId == r.id;
  }

  lemma {:induction false} KeysBound(hits: seq<Hit>, keys: set<Id>)
    requires DistinctIds(hits) && Ids(hits) <= keys
    ensures |hits| <= |keys|
  {
    Subset(Ids(hits), keys);
  }

  /** When the count does not cut anything off, the sharded search is exact if and only if no shard it
      skipped had anything within the radius. */
  lemma ExactIffNothingSkipped(distance: Distance, regions: seq<Region>, shards: map<Id, Shard>, current: map<Id, Id>,
                               center: LatLng, radius: real, limit: nat, answers: map<Id, seq<Hit>>)
    requires ShardsMatch(regions, shards, current) && Row(regions)
    requires Answered(distance, regions, shards, center, radius, limit, answers)
    requires limit > |Union(shards, current)|
    ensures IsTop(distance, Union(shards, current), center, radius, limit,
                  Merged(RegionsWithinRadius(distance, regions, center, radius), answers, limit))
            <==> NothingSkipped(distance, regions, shards, center, radius)
  {
    var asked, whole := RegionsWithinRadius(distance, regions, center, radius), Union(shards, current);
    var merged := Merged(asked, answers, limit);
    if NothingSkipped(distance, regions, shards, center, radius) {
      NothingSkippedCovers(distance, regions, shards, current, center, radius);
      MergedIsTop(distance, regions, shards, current, center, radius, limit, answers, whole);
    } else if IsTop(distance, whole, center, radius, limit, merged) {
      var r, d :| r in regions && r.id in shards && InReach(distance, shards[r.id], center, radius, d) && r !in asked;
      assert At(shards, r.id, d).Some? && InReach(distance, whole, center, radius, d);
      assert |whole.Keys| == |whole|;
      KeysBound(merged, whole.Keys);
      var q := MergedFromAsked(distance, asked, shards, center, radius, limit, answers, d);
      WithinRadiusIsExact(distance, regions, center, radius, q);
      SameIdSameRegion(regions, r, q);
    }
  }

  /** If clamping gives the nearest point of every region, the asked shards cover all of them. */
  lemma AskedCoverAll(distance: Distance, regions: seq<Region>, shards: map<Id, Shard>, current: map<Id, Id>,
                      center: LatLng, radius: real)
    requires ShardsMatch(regions, shards, current) && Row(regions)
    requires forall r :: r in regions ==> ClampIsNearest(distance, center, r.bbox)
    ensures Covers(distance, RegionsWithinRadius(distance, regions, center, radius), shards, current, center, radius,
                   Union(shards, current))
  {
    forall r, d | r in regions && r.id in shards && InReach(distance, shards[r.id], center, radius, d)
      ensures r in RegionsWithinRadius(distance, regions, center, radius)
    {
      if r !in RegionsWithinRadius(distance, regions, center, radius) {
        SkippedHasNothing(distance, regions, shards, current, center, radius, r, d);
      }
    }
    NothingSkippedCovers(distance, regions, shards, current, center, radius);
  }

  class ShardedDriverGeo {
    const regions: seq<Region>
    var shards: map<Id, Shard>
    var currentRegion: map<Id, Id>

    ghost predicate Valid()
      reads this
    {
      Row(regions) && ShardsMatch(regions, shards, currentRegion)
    }

    ghost function View(): Shard
      reads this
    {
      Union(shards, currentRegion)
    }

    constructor ()
      ensures Valid() && View() == map[] && regions == REGIONS
    {
      regions := REGIONS;
      shards := map["sf" := map[], "oakland" := map[]];
      currentRegion := map[];
      new;
      TheRegionsAreARow();
    }

    method RegionById(id: Id) returns (r: Option<Region>)
      ensures r.Some? ==> r.value in regions && r.value.id == id
      ensures r.None? ==> forall q :: q in regions ==> q.id != id
    {
      for i := 0 to |regions|
        invariant forall k :: 0 <= k < i ==> regions[k].id != id
      {
        if regions[i].id == id {
          return Some(regions[i]);
        }
      }
      r := None;
    }

    /** Moves or inserts the driver; a point outside every region is refused and changes nothing. */
    method UpsertDriverLocation(d: Id, p: LatLng) returns (r: Result<(Id, bool)>)
      requires Valid()
      modifies this`shards, this`currentRegion
      ensures Valid()
      ensures RegionForPoint(regions, p).None? ==>
                r.Err? && shards == old(shards) && currentRegion == old(currentRegion)
      ensures RegionForPoint(regions, p).Some? ==>
                var id := RegionForPoint(regions, p).value.id;
                && r == Ok((id, d in old(currentRegion) && old(currentRegion)[d] != id))
                && View() == old(View())[d := p] && currentRegion == old(currentRegion)[d := id]
                && id in old(shards) && (shards, currentRegion) == AfterWrites(old(shards), old(currentRegion), id, d, p, 3)
    {
      var region := RegionForPoint(regions, p);
      if region.None? {
        return Err("outside every simulated region");
      }
      var id := region.value.id;
      if d in currentRegion {
        MovedMatches(regions, shards, currentRegion, region.value, d, p);
        RemovedMatches(regions, shards, currentRegion, d);
      } else {
        AddedMatches(regions, shards, currentRegion, region.value, d, p);
      }
      var migrated := d in currentRegion && currentRegion[d] != id;
      if migrated {
        var previous := RegionById(currentRegion[d]);
        if previous.Some? {
          shards := Zrem(shards, previous.value.id, d);
        }
      }
      shards := Geoadd(shards, id, d, p);
      currentRegion := currentRegion[d := id];
      r := Ok((id, migrated));
    }

    method RemoveDriver(d: Id)
      requires Valid()
      modifies this`shards, this`currentRegion
      ensures Valid() && View() == old(View()) - {d} && currentRegion == old(currentRegion) - {d}
    {
      if d !in currentRegion {
        return;
      }
      RemovedMatches(regions, shards, currentRegion, d);
      var region := RegionById(currentRegion[d]);
      if region.Some? {
        shards := Zrem(shards, region.value.id, d);
      }
      currentRegion := currentRegion - {d};
    }

    /** `answers` is what each asked shard's own search returned. A count that is not positive is
        refused by any shard asked; otherwise, if clamping is exact for this distance, the result is
        the top of the one index all shards stand for. */
    method SearchNearby(distance: Distance, center: LatLng, radius: real, limit: int, answers: map<Id, seq<Hit>>)
      returns (r: Result<seq<Hit>>)
      requires Valid()
      requires limit > 0 ==> Answered(distance, regions, shards, center, radius, limit, answers)
      ensures r.Err? <==> limit <= 0 && RegionsWithinRadius(distance, regions, center, radius) != []
      ensures RegionsWithinRadius(distance, regions, center, radius) == [] ==> r == Ok([])
      ensures limit > 0 ==> forall h :: h in r.value ==> At(shards, h.regionId, h.driverId) == Some(h.location)
      ensures limit > 0 && (forall q :: q in regions ==> ClampIsNearest(distance, center, q.bbox)) ==>
                IsTop(distance, View(), center, radius, limit, r.value)
    {
      var asked := RegionsWithinRadius(distance, regions, center, radius);
      if limit <= 0 && asked != [] {
        return Err("COUNT must be > 0");
      }
      r := Ok(Merged(asked, answers, limit));
      if limit > 0 {
        forall h | h in r.value ensures At(shards, h.regionId, h.driverId) == Some(h.location) {
          MergedHitIsMarked(distance, regions, shards, center, radius, limit, answers, h);
        }
      }
      if limit > 0 && forall q :: q in regions ==> ClampIsNearest(distance, center, q.bbox) {
        AskedCoverAll(distance, regions, shards, currentRegion, center, radius);
        MergedIsTop(distance, regions, shards, currentRegion, center, radius, limit, answers, View());
      }
    }
  }
}
