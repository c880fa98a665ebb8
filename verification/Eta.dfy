// The throttled ETA cache (core/src/services/eta.service.ts): a cached answer is kept until enough
// time has passed or the driver has moved far enough. Distances are any function with the properties
// each lemma names; the ML and OSRM services are answers handed in, or their absence.

module EtaCaching {
  import opened Wrappers
  import opened Numbers
  import opened Geohash
  import opened DriverLocks

  type Distance = (LatLng, LatLng) -> real

  datatype Mode = Heuristic | Ml | MlWithFallback

  datatype Source = ByHeuristic | ByMl | ByMlFallback | ByOsrm

  datatype Estimate = Estimate(etaSeconds: real, distanceMeters: real)

  datatype CachedEta = CachedEta(etaSeconds: real, distanceMeters: real, computedAtMs: int, computedAt: LatLng, source: Source)

  /** `world` is what the service is configured with and measures by. */
  datatype World = World(mode: Mode, osrmEnabled: bool, recomputeIntervalMs: int, mlCacheTtlMs: int,
                         recomputeDistanceMeters: real, metersPerSecond: real,
                         distance: Distance, rushHourMultiplier: int -> real)

  datatype Trip = Trip(id: TripId, inProgress: bool, pickup: LatLng, dropoff: LatLng)

  /** What the two services would answer, if asked now. */
  datatype Services = Services(ml: Option<Estimate>, osrm: Option<Estimate>)

  datatype Outcome = Outcome(eta: Option<CachedEta>, servedFromCache: bool, mlUnavailable: bool)

  /** With the rider on board the target is the dropoff, before that the pickup. */
  function LegTarget(trip: Trip): LatLng {
    if trip.inProgress then trip.dropoff else trip.pickup
  }

  predicate Runs(w: World) {
    w.metersPerSecond > 0.0
  }

  function SecondsFor(meters: real, metersPerSecond: real, multiplier: real): real
    requires metersPerSecond > 0.0
  {
    meters / metersPerSecond * multiplier
  }

  function EstimateEta(w: World, from: LatLng, to: LatLng, nowMs: int): Estimate
    requires Runs(w)
  {
    Estimate(SecondsFor(w.distance(from, to), w.metersPerSecond, w.rushHourMultiplier(nowMs)), w.distance(from, to))
  }

  function BuildCachedEta(e: Estimate, nowMs: int, at: LatLng, source: Source): CachedEta {
    CachedEta(e.etaSeconds, e.distanceMeters, nowMs, at, source)
  }

  function ComputeHeuristicEta(w: World, at: LatLng, target: LatLng, nowMs: int, services: Services): CachedEta
    requires Runs(w)
  {
    if w.osrmEnabled && services.osrm.Some? then
      var route := services.osrm.value;
      BuildCachedEta(Estimate(route.etaSeconds * w.rushHourMultiplier(nowMs), route.distanceMeters), nowMs, at, ByOsrm)
    else
      BuildCachedEta(EstimateEta(w, at, target, nowMs), nowMs, at, ByHeuristic)
  }

  /** The engine the mode selects; a failed ML call without a fallback leaves what was cached. */
  function ComputeEta(w: World, at: LatLng, target: LatLng, nowMs: int, services: Services, prior: Option<CachedEta>): Outcome
    requires Runs(w)
  {
    if w.mode.Heuristic? then Outcome(Some(ComputeHeuristicEta(w, at, target, nowMs, services)), false, false)
    else if services.ml.Some? then Outcome(Some(BuildCachedEta(services.ml.value, nowMs, at, ByMl)), false, false)
    else if w.mode.MlWithFallback? then
      Outcome(Some(ComputeHeuristicEta(w, at, target, nowMs, services).(source := ByMlFallback)), false, false)
    else Outcome(prior, true, true)
  }

  function IntervalMs(w: World): int {
    if w.mode.Heuristic? then w.recomputeIntervalMs else w.mlCacheTtlMs
  }

  predicate ShouldRecompute(w: World, cached: Option<CachedEta>, at: LatLng, nowMs: int) {
    || cached.None?
    || nowMs - cached.value.computedAtMs >= IntervalMs(w)
    || w.distance(at, cached.value.computedAt) >= w.recomputeDistanceMeters
  }

  /** One throttled check, and the cache entry it leaves. */
  function Check(w: World, cached: Option<CachedEta>, target: LatLng, at: LatLng, nowMs: int, services: Services): Outcome
    requires Runs(w)
  {
    if ShouldRecompute(w, cached, at, nowMs) then ComputeEta(w, at, target, nowMs, services, cached)
    else Outcome(cached, true, false)
  }

  /** The answer is the heuristic's for now and here: routed where a route is to be had, otherwise the
      distance to the target at the configured speed, scaled by the rush hour. */
  predicate IsHeuristic(w: World, e: CachedEta, target: LatLng, at: LatLng, nowMs: int, services: Services) {
    if w.osrmEnabled && services.osrm.Some? then
      && e.distanceMeters == services.osrm.value.distanceMeters
      && e.etaSeconds == services.osrm.value.etaSeconds * w.rushHourMultiplier(nowMs)
    else
      && e.distanceMeters == w.distance(at, target)
      && e.etaSeconds * w.metersPerSecond == e.distanceMeters * w.rushHourMultiplier(nowMs)
  }

  lemma SecondsTimesSpeed(meters: real, metersPerSecond: real, multiplier: real)
    requires metersPerSecond > 0.0
    ensures SecondsFor(meters, metersPerSecond, multiplier) * metersPerSecond == meters * multiplier
  {
    var q := meters / metersPerSecond;
    assert q * metersPerSecond == meters;
    assert q * multiplier * metersPerSecond == q * metersPerSecond * multiplier;
  }

  /** What a check says about its answer. It is served from the cache exactly if the entry is young and
      near enough, or the ML call failed without a fallback, which is reported and never replaces what was
      cached; otherwise it is computed now and from here, by the service its source names. */
  lemma {:induction false} CheckReports(w: World, cached: Option<CachedEta>, target: LatLng, at: LatLng, nowMs: int,
                                        services: Services)
    requires Runs(w)
    ensures var o := Check(w, cached, target, at, nowMs, services);
            var valid := cached.Some?
                         && nowMs - cached.value.computedAtMs < (if w.mode == Heuristic then w.recomputeIntervalMs else w.mlCacheTtlMs)
                         && w.distance(at, cached.value.computedAt) < w.recomputeDistanceMeters;
            && (o.servedFromCache <==> valid || o.mlUnavailable)
            && (o.mlUnavailable <==> !valid && w.mode == Ml && services.ml.None?)
            && (o.servedFromCache ==> o.eta == cached)
            && (!o.servedFromCache ==>
                  && o.eta.Some? && o.eta.value.computedAtMs == nowMs && o.eta.value.computedAt == at
                  && (o.eta.value.source == ByMl <==> w.mode != Heuristic && services.ml.Some?)
                  && (o.eta.value.source == ByMlFallback <==> w.mode == MlWithFallback && services.ml.None?)
                  && (o.eta.value.source == ByOsrm <==> w.mode == Heuristic && w.osrmEnabled && services.osrm.Some?)
                  && (if o.eta.value.source == ByMl
                      then Estimate(o.eta.value.etaSeconds, o.eta.value.distanceMeters) == services.ml.value
                      else IsHeuristic(w, o.eta.value, target, at, nowMs, services)))
  {
    SecondsTimesSpeed(w.distance(at, target), w.metersPerSecond, w.rushHourMultiplier(nowMs));
  }

  class EtaCache {
    var entries: map<TripId, CachedEta>

    constructor ()
      ensures entries == map[]
    {
      entries := map[];
    }

    function GetCachedEta(id: TripId): Option<CachedEta>
      reads this
    {
      if id in entries then Some(entries[id]) else None
    }

    method MaybeRecomputeEta(w: World, trip: Trip, at: LatLng, nowMs: int, services: Services) returns (outcome: Outcome)
      requires Runs(w)
      modifies this
      ensures outcome == Check(w, old(GetCachedEta(trip.id)), LegTarget(trip), at, nowMs, services)
      ensures GetCachedEta(trip.id) == outcome.eta
      ensures entries - {trip.id} == old(entries) - {trip.id}
      ensures !outcome.servedFromCache ==>
                && outcome.eta.Some?
                && (outcome.eta.value.source != ByMl ==>
                      IsHeuristic(w, outcome.eta.value, if trip.inProgress then trip.dropoff else trip.pickup, at, nowMs, services))
    {
      var cached := GetCachedEta(trip.id);
      if cached.Some?
        && nowMs - cached.value.computedAtMs < IntervalMs(w)
        && w.distance(at, cached.value.computedAt) < w.recomputeDistanceMeters
      {
        return Outcome(cached, true, false);
      }
      CheckReports(w, cached, LegTarget(trip), at, nowMs, services);
      var target := if trip.inProgress then trip.dropoff else trip.pickup;
      outcome := ComputeEta(w, at, target, nowMs, services, cached);
      if !outcome.servedFromCache && outcome.eta.Some? {
        entries := entries[trip.id := outcome.eta.value];
      }
    }

    /** The entry's time to live runs out. */
    method Expire(id: TripId)
      modifies this
      ensures entries == old(entries) - {id}
    {
      entries := entries - {id};
    }
  }

  // ---- How far off a cached answer can be -----------------------------------------------------

  ghost predicate Metric(d: Distance) {
    && (forall p, q :: d(p, q) == d(q, p))
    && (forall p, q, r :: d(p, r) <= d(p, q) + d(q, r))
  }

  /** What happens to one trip's entry: checks from driver positions, and its expiry. */
  datatype Event = Checked(at: LatLng, nowMs: int, services: Services) | Expired

  function Entry(w: World, target: LatLng, events: seq<Event>): Option<CachedEta>
    requires Runs(w)
  {
    if events == [] then None
    else
      match events[|events| - 1]
      case Expired => None
      case Checked(at, nowMs, services) =>
        Check(w, Entry(w, target, events[..|events| - 1]), target, at, nowMs, services).eta
  }

  predicate Plain(w: World) {
    Runs(w) && w.mode.Heuristic? && !w.osrmEnabled
  }

  /** With the heuristic alone, an entry is the estimate for the position and time it records. */
  lemma {:induction false} EntryIsAnEstimate(w: World, target: LatLng, events: seq<Event>)
    requires Plain(w)
    ensures var e := Entry(w, target, events);
            e.Some? ==> e.value == BuildCachedEta(EstimateEta(w, e.value.computedAt, target, e.value.computedAtMs),
                                                  e.value.computedAtMs, e.value.computedAt, ByHeuristic)
  {
    if events != [] {
      EntryIsAnEstimate(w, target, events[..|events| - 1]);
    }
  }

  /** On an unchanged leg, an answer served from the cache is younger than the recompute interval and
      its distance is off by less than the recompute distance, after any events. */
  lemma {:induction false} ServedFromCacheIsClose(w: World, target: LatLng, events: seq<Event>,
                                                  at: LatLng, nowMs: int, services: Services)
    requires Plain(w) && Metric(w.distance)
    requires Check(w, Entry(w, target, events), target, at, nowMs, services).servedFromCache
    ensures var answer := Check(w, Entry(w, target, events), target, at, nowMs, services).eta;
            && answer.Some?
            && nowMs - answer.value.computedAtMs < w.recomputeIntervalMs
            && AbsReal(answer.value.distanceMeters - EstimateEta(w, at, target, nowMs).distanceMeters)
               < w.recomputeDistanceMeters
  {
    EntryIsAnEstimate(w, target, events);
    var p := Entry(w, target, events).value.computedAt;
    assert w.distance(at, p) == w.distance(p, at);
    assert w.distance(p, target) <= w.distance(p, at) + w.distance(at, target);
    assert w.distance(at, target) <= w.distance(at, p) + w.distance(p, target);
  }

  lemma SecondsOff(a: real, b: real, speed: real, multiplier: real, bound: real)
    requires speed > 0.0 && multiplier > 0.0 && AbsReal(a - b) < bound
    ensures AbsReal(SecondsFor(a, speed, multiplier) - SecondsFor(b, speed, multiplier)) < SecondsFor(bound, speed, multiplier)
  {
    var x, y, z := a / speed, b / speed, bound / speed;
    assert x * speed == a && y * speed == b && z * speed == bound;
    Scaled(x - y, z, speed);
    Scaled(y - x, z, speed);
    Scale(x - y, z, multiplier);
    Scale(y - x, z, multiplier);
  }

  lemma Scaled(a: real, b: real, s: real)
    requires s > 0.0 && a * s < b * s
    ensures a < b
  {
  }

  lemma Scale(a: real, b: real, s: real)
    requires s > 0.0 && a < b
    ensures a * s < b * s
  {
  }

  /** And if the rush-hour multiplier has not changed since, its seconds are off by less than the time
      the recompute distance takes. */
  lemma {:induction false} ServedSecondsAreClose(w: World, target: LatLng, events: seq<Event>,
                                                 at: LatLng, nowMs: int, services: Services)
    requires Plain(w) && Metric(w.distance)
    requires Check(w, Entry(w, target, events), target, at, nowMs, services).servedFromCache
    requires var answer := Check(w, Entry(w, target, events), target, at, nowMs, services).eta;
             answer.Some? ==> w.rushHourMultiplier(answer.value.computedAtMs) == w.rushHourMultiplier(nowMs) > 0.0
    ensures var answer := Check(w, Entry(w, target, events), target, at, nowMs, services).eta;
            && answer.Some?
            && AbsReal(answer.value.etaSeconds - EstimateEta(w, at, target, nowMs).etaSeconds)
               < SecondsFor(w.recomputeDistanceMeters, w.metersPerSecond, w.rushHourMultiplier(nowMs))
  {
    EntryIsAnEstimate(w, target, events);
    ServedFromCacheIsClose(w, target, events, at, nowMs, services);
    var answer := Entry(w, target, events).value;
    SecondsOff(answer.distanceMeters, w.distance(at, target), w.metersPerSecond, w.rushHourMultiplier(nowMs),
               w.recomputeDistanceMeters);
  }

  /** When the target of the leg changes from one place to another, a served distance is off by less
      than the recompute distance and the distance between the two places together. */
  lemma {:induction false} LegChangeBound(w: World, events: seq<Event>, t1: LatLng, t2: LatLng,
                                          at: LatLng, nowMs: int, services: Services)
    requires Plain(w) && Metric(w.distance)
    requires Check(w, Entry(w, t1, events), t2, at, nowMs, services).servedFromCache
    ensures var answer := Check(w, Entry(w, t1, events), t2, at, nowMs, services).eta;
            && answer.Some?
            && AbsReal(answer.value.distanceMeters - EstimateEta(w, at, t2, nowMs).distanceMeters)
               < w.recomputeDistanceMeters + w.distance(t1, t2)
  {
    ServedFromCacheIsClose(w, t1, events, at, nowMs, services);
    assert w.distance(t1, t2) == w.distance(t2, t1);
    assert w.distance(at, t1) <= w.distance(at, t2) + w.distance(t2, t1);
    assert w.distance(at, t2) <= w.distance(at, t1) + w.distance(t1, t2);
  }

  /** When the target changes, as it does when the status read with the trip turns to in progress, a
      driver that has not moved is still served the distance to the old target; and that is within the
      recompute distance of the right one if and only if both targets are that nearly equally far. */
  lemma {:induction false} OldLegIsServed(w: World, events: seq<Event>, t1: LatLng, t2: LatLng, nowMs: int, services: Services)
    requires Plain(w) && Entry(w, t1, events).Some?
    requires var e := Entry(w, t1, events).value;
             nowMs - e.computedAtMs < w.recomputeIntervalMs && w.distance(e.computedAt, e.computedAt) < w.recomputeDistanceMeters
    ensures var at := Entry(w, t1, events).value.computedAt;
            var after := Check(w, Entry(w, t1, events), t2, at, nowMs, services);
            && after.servedFromCache && after.eta.Some?
            && after.eta.value.distanceMeters == w.distance(at, t1)
            && (AbsReal(after.eta.value.distanceMeters - EstimateEta(w, at, t2, nowMs).distanceMeters) < w.recomputeDistanceMeters
                <==> AbsReal(w.distance(at, t1) - w.distance(at, t2)) < w.recomputeDistanceMeters)
  {
    EntryIsAnEstimate(w, t1, events);
  }
}
