// Surge multipliers per zone (core/src/services/surge.service.ts): every tick recounts open requests
// and online drivers per geohash cell and moves each known zone's multiplier a bounded step toward
// its target. Multipliers are reals here.

module Surge {
  import opened Wrappers
  import opened Numbers
  import opened Geohash

  datatype Config = Config(zoneBits: nat, minMultiplier: real, maxMultiplier: real,
                           minSampleRequests: int, maxChangePerInterval: real)

  datatype ZoneState = ZoneState(multiplier: real, requestCount: nat, driverCount: nat, updatedAtMs: int)

  type Zone = nat

  function ZoneHashFor(p: LatLng, bits: nat): Zone {
    CellHash(CellOf(p, bits), bits)
  }

  /** A zone is a geohash cell: its number is the alternate bisection of the point, and two points share
      it exactly if they fall in one cell. */
  lemma ZoneIsGeohash(p: LatLng, q: LatLng, bits: nat)
    ensures ZoneHashFor(p, bits) == Bisect(ClampLat(p.lat), NormalLng(p.lng), bits).hash
    ensures ZoneHashFor(p, bits) == ZoneHashFor(q, bits) <==> CellOf(p, bits) == CellOf(q, bits)
  {
    BisectionIsCell(p, bits);
    CellOfContains(p, bits);
    CellOfContains(q, bits);
    CellHashInjective(CellOf(p, bits), CellOf(q, bits), bits);
  }

  // ---- Counting -------------------------------------------------------------------------------

  function CountIn(points: seq<LatLng>, bits: nat, zone: Zone): nat {
    if points == [] then 0
    else CountIn(points[..|points| - 1], bits, zone) + if ZoneHashFor(points[|points| - 1], bits) == zone then 1 else 0
  }

  function CountOf(counts: map<Zone, nat>, zone: Zone): nat {
    if zone in counts then counts[zone] else 0
  }

  /** The tally: every zone with a point, with the number of its points. */
  ghost predicate Tallies(counts: map<Zone, nat>, points: seq<LatLng>, bits: nat) {
    && (forall z :: CountOf(counts, z) == CountIn(points, bits, z))
    && (forall z :: z in counts ==> counts[z] > 0)
  }

  method Tally(points: seq<LatLng>, bits: nat) returns (counts: map<Zone, nat>)
    ensures Tallies(counts, points, bits)
  {
    counts := map[];
    for i := 0 to |points|
      invariant Tallies(counts, points[..i], bits)
    {
      var hash := ZoneHashFor(points[i], bits);
      assert points[..i + 1][..i] == points[..i];
      counts := counts[hash := CountOf(counts, hash) + 1];
    }
    assert points[..|points|] == points;
  }

  ghost function Total(counts: map<Zone, nat>, zones: set<Zone>): nat {
    if zones == {} then 0
    else
      var z :| z in zones;
      CountOf(counts, z) + Total(counts, zones - {z})
  }

  lemma {:induction false} TotalSplits(counts: map<Zone, nat>, zones: set<Zone>, x: Zone)
    requires x in zones
    ensures Total(counts, zones) == CountOf(counts, x) + Total(counts, zones - {x})
  {
    var z :| z in zones && Total(counts, zones) == CountOf(counts, z) + Total(counts, zones - {z});
    if z != x {
      TotalSplits(counts, zones - {z}, x);
      TotalSplits(counts, zones - {x}, z);
      assert zones - {z} - {x} == zones - {x} - {z};
    }
  }

  lemma {:induction false} TotalSame(a: map<Zone, nat>, b: map<Zone, nat>, zones: set<Zone>)
    requires forall z :: z in zones ==> CountOf(a, z) == CountOf(b, z)
    ensures Total(a, zones) == Total(b, zones)
  {
    if zones != {} {
      var z :| z in zones;
      TotalSplits(a, zones, z);
      TotalSplits(b, zones, z);
      TotalSame(a, b, zones - {z});
    }
  }

  /** One more point in a zone raises the total by one, whether or not the zone was known. */
  lemma TotalOneMore(counts: map<Zone, nat>, z: Zone)
    ensures var more := counts[z := CountOf(counts, z) + 1];
            Total(more, more.Keys) == Total(counts, counts.Keys) + 1
  {
    var more := counts[z := CountOf(counts, z) + 1];
    TotalSplits(more, more.Keys, z);
    TotalSame(more, counts, more.Keys - {z});
    if z in counts {
      TotalSplits(counts, counts.Keys, z);
      assert more.Keys == counts.Keys;
    } else {
      assert more.Keys - {z} == counts.Keys;
    }
  }

  function TallyOf(points: seq<LatLng>, bits: nat): map<Zone, nat> {
    if points == [] then map[]
    else
      var before := TallyOf(points[..|points| - 1], bits);
      var z := ZoneHashFor(points[|points| - 1], bits);
      before[z := CountOf(before, z) + 1]
  }

  /** The counts add up: every request and every driver is counted in exactly one zone. */
  lemma {:induction false} TallyCountsEveryPoint(counts: map<Zone, nat>, points: seq<LatLng>, bits: nat)
    requires Tallies(counts, points, bits)
    ensures counts == TallyOf(points, bits) && Total(counts, counts.Keys) == |points|
  {
    TallyOfTallies(points, bits);
    var other := TallyOf(points, bits);
    forall z ensures z in counts <==> z in other {
      assert CountOf(counts, z) == CountOf(other, z);
    }
    forall z | z in counts ensures counts[z] == other[z] {
      assert CountOf(counts, z) == CountOf(other, z);
    }
    assert counts == other;
  }

  lemma {:induction false} TallyOfTallies(points: seq<LatLng>, bits: nat)
    ensures Tallies(TallyOf(points, bits), points, bits)
    ensures Total(TallyOf(points, bits), TallyOf(points, bits).Keys) == |points|
  {
    if points != [] {
      var before := points[..|points| - 1];
      TallyOfTallies(before, bits);
      TotalOneMore(TallyOf(before, bits), ZoneHashFor(points[|points| - 1], bits));
    }
  }

  // ---- One tick -------------------------------------------------------------------------------

  /** Too few requests aim for the baseline; otherwise the clamped ratio of requests to drivers. */
  function Target(cfg: Config, requests: nat, drivers: nat): real {
    if requests < cfg.minSampleRequests then cfg.minMultiplier
    else ClampReal(requests as real / Max(drivers, 1) as real, cfg.minMultiplier, cfg.maxMultiplier)
  }

  /** The target without the division: the baseline below the sample floor; otherwise the ratio of
      requests to drivers (no driver counting as one) where that is allowed, and the nearer bound where not. */
  lemma TargetIsClampedRatio(cfg: Config, requests: nat, drivers: nat)
    requires cfg.minMultiplier <= cfg.maxMultiplier
    ensures var target, online := Target(cfg, requests, drivers), (if drivers == 0 then 1 else drivers) as real;
            && (requests < cfg.minSampleRequests ==> target == cfg.minMultiplier)
            && (requests >= cfg.minSampleRequests ==>
                  && (requests as real < cfg.minMultiplier * online ==> target == cfg.minMultiplier)
                  && (requests as real > cfg.maxMultiplier * online ==> target == cfg.maxMultiplier)
                  && (cfg.minMultiplier * online <= requests as real <= cfg.maxMultiplier * online ==>
                        target * online == requests as real))
  {
    var online := Max(drivers, 1) as real;
    RatioOrder(requests as real, online, cfg.minMultiplier);
    RatioOrder(requests as real, online, cfg.maxMultiplier);
  }

  lemma RatioOrder(x: real, y: real, bound: real)
    requires y > 0.0
    ensures x / y < bound <==> x < bound * y
    ensures x / y > bound <==> x > bound * y
    ensures x / y * y == x
  {
    var q := x / y;
    assert q * y == x;
    MulOrder(q, bound, y);
    MulOrder(bound, q, y);
  }

  function Smoothed(cfg: Config, previous: real, target: real): real {
    ClampReal(previous + ClampReal(target - previous, -cfg.maxChangePerInterval, cfg.maxChangePerInterval),
              cfg.minMultiplier, cfg.maxMultiplier)
  }

  function Previous(cfg: Config, states: map<Zone, ZoneState>, z: Zone): real {
    if z in states then states[z].multiplier else cfg.minMultiplier
  }

  function NewState(cfg: Config, states: map<Zone, ZoneState>, z: Zone, requests: nat, drivers: nat, nowMs: int): ZoneState {
    ZoneState(Smoothed(cfg, Previous(cfg, states, z), Target(cfg, requests, drivers)), requests, drivers, nowMs)
  }

  /** All zones with a request, a driver or a stored state, each from its own counts and state alone. */
  ghost predicate IsTick(cfg: Config, pickups: seq<LatLng>, drivers: seq<LatLng>, before: map<Zone, ZoneState>, nowMs: int,
                         after: map<Zone, ZoneState>) {
    forall z ::
      var requests, online := CountIn(pickups, cfg.zoneBits, z), CountIn(drivers, cfg.zoneBits, z);
      && (z in after <==> requests > 0 || online > 0 || z in before)
      && (z in after ==> after[z] == NewState(cfg, before, z, requests, online, nowMs))
  }

  class SurgeStore {
    var states: map<Zone, ZoneState>

    constructor ()
      ensures states == map[]
    {
      states := map[];
    }

    method ComputeAndUpdateSurge(cfg: Config, pickups: seq<LatLng>, drivers: seq<LatLng>, nowMs: int)
      modifies this
      ensures IsTick(cfg, pickups, drivers, old(states), nowMs, states)
      ensures Sane(cfg) && InRange(cfg, old(states)) ==>
                forall z :: z in states ==>
                  MovesZone(cfg, old(states), states, z, CountIn(pickups, cfg.zoneBits, z), CountIn(drivers, cfg.zoneBits, z), nowMs)
    {
      var requestCounts := Tally(pickups, cfg.zoneBits);
      var driverCounts := Tally(drivers, cfg.zoneBits);
      var previousStates := states;
      var allZones := requestCounts.Keys + driverCounts.Keys + previousStates.Keys;
      assert forall z :: CountOf(requestCounts, z) == CountIn(pickups, cfg.zoneBits, z);
      assert forall z :: CountOf(driverCounts, z) == CountIn(drivers, cfg.zoneBits, z);
      if allZones == {} {
        assert forall z :: z !in allZones;
        return;
      }
      var newStates: map<Zone, ZoneState> := map[];
      var todo := allZones;
      while todo != {}
        invariant todo <= allZones && newStates.Keys == allZones - todo
        invariant forall z :: z in newStates ==>
          newStates[z] == NewState(cfg, previousStates, z, CountOf(requestCounts, z), CountOf(driverCounts, z), nowMs)
      {
        var z :| z in todo;
        newStates := newStates[z := NewState(cfg, previousStates, z, CountOf(requestCounts, z), CountOf(driverCounts, z), nowMs)];
        todo := todo - {z};
      }
      states := states + newStates;
      assert states == newStates;
      if Sane(cfg) && InRange(cfg, old(states)) {
        TickIsBounded(cfg, pickups, drivers, old(states), nowMs, states);
      }
    }
  }

  // ---- Any number of ticks --------------------------------------------------------------------

  predicate Sane(cfg: Config) {
    cfg.minMultiplier <= cfg.maxMultiplier && cfg.maxChangePerInterval > 0.0
  }

  ghost predicate InRange(cfg: Config, states: map<Zone, ZoneState>) {
    forall z :: z in states ==> cfg.minMultiplier <= states[z].multiplier <= cfg.maxMultiplier
  }

  /** The move of one zone from before a tick to after it. A stored multiplier goes toward its target by
      at most the allowed change; a new zone starts from the baseline and, without enough requests, stays
      there. The counts and the time are those of the tick. */
  ghost predicate MovesZone(cfg: Config, before: map<Zone, ZoneState>, after: map<Zone, ZoneState>, z: Zone,
                            requests: nat, online: nat, nowMs: int)
    requires z in after
  {
    var target, change := Target(cfg, requests, online), cfg.maxChangePerInterval;
    && after[z].requestCount == requests && after[z].driverCount == online && after[z].updatedAtMs == nowMs
    && (z in before ==>
          && AbsReal(after[z].multiplier - before[z].multiplier) <= change
          && after[z].multiplier == Moved(before[z].multiplier, target, change))
    && (z !in before ==>
          && cfg.minMultiplier <= after[z].multiplier <= cfg.minMultiplier + change
          && after[z].multiplier == Moved(cfg.minMultiplier, target, change)
          && (requests < cfg.minSampleRequests ==> after[z].multiplier == cfg.minMultiplier))
  }

  lemma SmoothedMoves(cfg: Config, start: real, target: real)
    requires Sane(cfg)
    requires cfg.minMultiplier <= start <= cfg.maxMultiplier && cfg.minMultiplier <= target <= cfg.maxMultiplier
    ensures Smoothed(cfg, start, target) == Moved(start, target, cfg.maxChangePerInterval)
    ensures AbsReal(Smoothed(cfg, start, target) - start) <= cfg.maxChangePerInterval
    ensures cfg.minMultiplier <= Smoothed(cfg, start, target) <= cfg.maxMultiplier
  {
  }

  /** A tick keeps every multiplier in range, moves each toward its target by at most the allowed change,
      starts new zones from the baseline, and forgets no zone. */
  lemma TickIsBounded(cfg: Config, pickups: seq<LatLng>, drivers: seq<LatLng>, before: map<Zone, ZoneState>, nowMs: int,
                      after: map<Zone, ZoneState>)
    requires Sane(cfg) && InRange(cfg, before) && IsTick(cfg, pickups, drivers, before, nowMs, after)
    ensures InRange(cfg, after) && before.Keys <= after.Keys
    ensures forall z :: z in after ==>
              MovesZone(cfg, before, after, z, CountIn(pickups, cfg.zoneBits, z), CountIn(drivers, cfg.zoneBits, z), nowMs)
  {
    forall z | z in after
      ensures cfg.minMultiplier <= after[z].multiplier <= cfg.maxMultiplier
      ensures MovesZone(cfg, before, after, z, CountIn(pickups, cfg.zoneBits, z), CountIn(drivers, cfg.zoneBits, z), nowMs)
    {
      var requests, online := CountIn(pickups, cfg.zoneBits, z), CountIn(drivers, cfg.zoneBits, z);
      assert after[z] == NewState(cfg, before, z, requests, online, nowMs);
      TargetInRange(cfg, requests, online);
      SmoothedMoves(cfg, if z in before then before[z].multiplier else cfg.minMultiplier, Target(cfg, requests, online));
    }
  }

  datatype Tick = Tick(pickups: seq<LatLng>, drivers: seq<LatLng>, nowMs: int)

  /** `history` is what was stored before the first tick and after each one. */
  ghost predicate IsHistory(cfg: Config, ticks: seq<Tick>, history: seq<map<Zone, ZoneState>>) {
    && |history| == |ticks| + 1
    && (forall i :: 0 <= i < |ticks| ==>
          IsTick(cfg, ticks[i].pickups, ticks[i].drivers, history[i], ticks[i].nowMs, history[i + 1]))
  }

  lemma {:induction false} HistoryIsInRange(cfg: Config, ticks: seq<Tick>, history: seq<map<Zone, ZoneState>>, n: nat)
    requires Sane(cfg) && IsHistory(cfg, ticks, history) && InRange(cfg, history[0]) && n < |history|
    ensures InRange(cfg, history[n]) && history[0].Keys <= history[n].Keys
  {
    if n > 0 {
      HistoryIsInRange(cfg, ticks, history, n - 1);
      var t := ticks[n - 1];
      TickIsBounded(cfg, t.pickups, t.drivers, history[n - 1], t.nowMs, history[n]);
    }
  }

  /** Over any run of ticks from stored states in range, whatever the counts. */
  lemma EveryTickIsBounded(cfg: Config, ticks: seq<Tick>, history: seq<map<Zone, ZoneState>>, n: nat, z: Zone)
    requires Sane(cfg) && IsHistory(cfg, ticks, history) && InRange(cfg, history[0])
    requires n < |ticks| && z in history[n + 1]
    ensures cfg.minMultiplier <= history[n + 1][z].multiplier <= cfg.maxMultiplier && history[n].Keys <= history[n + 1].Keys
    ensures MovesZone(cfg, history[n], history[n + 1], z, CountIn(ticks[n].pickups, cfg.zoneBits, z),
                      CountIn(ticks[n].drivers, cfg.zoneBits, z), ticks[n].nowMs)
  {
    HistoryIsInRange(cfg, ticks, history, n);
    TickIsBounded(cfg, ticks[n].pickups, ticks[n].drivers, history[n], ticks[n].nowMs, history[n + 1]);
  }

  /** Zones do not influence each other: what one zone becomes depends on its own counts and state. */
  lemma ZonesAreIndependent(cfg: Config, a: Tick, b: Tick, beforeA: map<Zone, ZoneState>, beforeB: map<Zone, ZoneState>,
                            afterA: map<Zone, ZoneState>, afterB: map<Zone, ZoneState>, z: Zone)
    requires IsTick(cfg, a.pickups, a.drivers, beforeA, a.nowMs, afterA)
    requires IsTick(cfg, b.pickups, b.drivers, beforeB, b.nowMs, afterB)
    requires CountIn(a.pickups, cfg.zoneBits, z) == CountIn(b.pickups, cfg.zoneBits, z)
    requires CountIn(a.drivers, cfg.zoneBits, z) == CountIn(b.drivers, cfg.zoneBits, z)
    requires (z in beforeA <==> z in beforeB) && (z in beforeA ==> beforeA[z] == beforeB[z]) && a.nowMs == b.nowMs
    ensures (z in afterA <==> z in afterB) && (z in afterA ==> afterA[z] == afterB[z])
  {
    assert z in afterA <==>
      CountIn(a.pickups, cfg.zoneBits, z) > 0 || CountIn(a.drivers, cfg.zoneBits, z) > 0 || z in beforeA;
    assert z in afterB <==>
      CountIn(b.pickups, cfg.zoneBits, z) > 0 || CountIn(b.drivers, cfg.zoneBits, z) > 0 || z in beforeB;
  }

  // ---- Convergence ----------------------------------------------------------------------------

  /** `n` ticks with the same target. */
  function Steps(cfg: Config, start: real, target: real, n: nat): real {
    if n == 0 then start else Smoothed(cfg, Steps(cfg, start, target, n - 1), target)
  }

  /** `start`, moved by `distance` toward the target but not past it. */
  function Moved(start: real, target: real, distance: real): real {
    if start <= target then MinReal(start + distance, target) else MaxReal(start - distance, target)
  }

  /** `n` steps, as a distance. */
  function Travelled(step: real, n: nat): real {
    if n == 0 then 0.0 else Travelled(step, n - 1) + step
  }

  lemma {:induction false} TravelledIsProduct(step: real, n: nat)
    requires step > 0.0
    ensures Travelled(step, n) == n as real * step && Travelled(step, n) >= 0.0
  {
    if n > 0 {
      TravelledIsProduct(step, n - 1);
    }
  }

  lemma MovedOn(start: real, target: real, distance: real, step: real)
    requires step > 0.0 && distance >= 0.0
    ensures Moved(start, target, distance + step) ==
            Moved(start, target, distance) + ClampReal(target - Moved(start, target, distance), -step, step)
    ensures start <= target ==> Moved(start, target, distance) <= Moved(start, target, distance + step) <= target
    ensures start >= target ==> Moved(start, target, distance) >= Moved(start, target, distance + step) >= target
    ensures Moved(start, target, distance) == target <==> distance >= AbsReal(target - start)
  {
  }

  lemma {:induction false} StepsMoveOn(cfg: Config, start: real, target: real, n: nat)
    requires Sane(cfg)
    requires cfg.minMultiplier <= start <= cfg.maxMultiplier && cfg.minMultiplier <= target <= cfg.maxMultiplier
    ensures Steps(cfg, start, target, n) == Moved(start, target, Travelled(cfg.maxChangePerInterval, n))
    ensures Travelled(cfg.maxChangePerInterval, n) >= 0.0
    ensures cfg.minMultiplier <= Steps(cfg, start, target, n) <= cfg.maxMultiplier
  {
    if n > 0 {
      StepsMoveOn(cfg, start, target, n - 1);
      MovedOn(start, target, Travelled(cfg.maxChangePerInterval, n - 1), cfg.maxChangePerInterval);
    }
  }

  lemma CeilCovers(q: real, n: int)
    ensures n >= Ceil(q) <==> n as real >= q
  {
  }

  lemma QuotientCovers(distance: real, step: real, covered: real, n: nat)
    requires step > 0.0 && covered == n as real * step
    ensures covered >= distance <==> n as real >= distance / step
  {
    var q := distance / step;
    assert q * step == distance;
    MulOrder(q, n as real, step);
    MulOrder(n as real, q, step);
  }

  lemma StepsToCover(distance: real, step: real, n: nat)
    requires step > 0.0
    ensures Travelled(step, n) >= distance <==> n >= Ceil(distance / step)
  {
    TravelledIsProduct(step, n);
    QuotientCovers(distance, step, Travelled(step, n), n);
    CeilCovers(distance / step, n);
  }

  lemma MulOrder(a: real, b: real, s: real)
    requires s > 0.0
    ensures a < b ==> a * s < b * s
    ensures a <= b ==> a * s <= b * s
  {
  }

  /** Under constant counts the multiplier approaches its target monotonically, never passes it, and
      has reached it after `n` ticks exactly when n >= ceil(|target - start| / maxChange). */
  lemma SurgeConverges(cfg: Config, start: real, target: real, n: nat)
    requires Sane(cfg)
    requires cfg.minMultiplier <= start <= cfg.maxMultiplier && cfg.minMultiplier <= target <= cfg.maxMultiplier
    ensures Steps(cfg, start, target, n) == target <==> n >= Ceil(AbsReal(target - start) / cfg.maxChangePerInterval)
    ensures start <= target ==> Steps(cfg, start, target, n) <= Steps(cfg, start, target, n + 1) <= target
    ensures start >= target ==> Steps(cfg, start, target, n) >= Steps(cfg, start, target, n + 1) >= target
  {
    StepsMoveOn(cfg, start, target, n);
    StepsMoveOn(cfg, start, target, n + 1);
    MovedOn(start, target, Travelled(cfg.maxChangePerInterval, n), cfg.maxChangePerInterval);
    StepsToCover(AbsReal(target - start), cfg.maxChangePerInterval, n);
  }

  lemma TargetInRange(cfg: Config, requests: nat, drivers: nat)
    requires Sane(cfg)
    ensures cfg.minMultiplier <= Target(cfg, requests, drivers) <= cfg.maxMultiplier
  {
  }

  /** The stored multiplier of a zone whose counts stay the same follows these steps. */
  lemma {:induction false} SteadyZoneFollowsSteps(cfg: Config, ticks: seq<Tick>, history: seq<map<Zone, ZoneState>>, z: Zone,
                                                  requests: nat, online: nat, n: nat)
    requires IsHistory(cfg, ticks, history) && n < |history| && (z in history[0] || requests > 0 || online > 0)
    requires forall i :: 0 <= i < |ticks| ==>
               && CountIn(ticks[i].pickups, cfg.zoneBits, z) == requests
               && CountIn(ticks[i].drivers, cfg.zoneBits, z) == online
    ensures Previous(cfg, history[n], z) ==
            Steps(cfg, Previous(cfg, history[0], z), Target(cfg, requests, online), n)
  {
    if n > 0 {
      SteadyZoneFollowsSteps(cfg, ticks, history, z, requests, online, n - 1);
      var t := ticks[n - 1];
      SteadyZoneStays(cfg, ticks, history, z, requests, online, n - 1);
      assert history[n][z] == NewState(cfg, history[n - 1], z, requests, online, t.nowMs);
    }
  }

  lemma {:induction false} SteadyZoneStays(cfg: Config, ticks: seq<Tick>, history: seq<map<Zone, ZoneState>>, z: Zone,
                                           requests: nat, online: nat, n: nat)
    requires IsHistory(cfg, ticks, history) && n < |ticks| && (z in history[0] || requests > 0 || online > 0)
    requires forall i :: 0 <= i < |ticks| ==>
               && CountIn(ticks[i].pickups, cfg.zoneBits, z) == requests
               && CountIn(ticks[i].drivers, cfg.zoneBits, z) == online
    ensures z in history[n + 1]
  {
    if n > 0 {
      SteadyZoneStays(cfg, ticks, history, z, requests, online, n - 1);
    }
    assert z in history[n] || requests > 0 || online > 0;
    assert IsTick(cfg, ticks[n].pickups, ticks[n].drivers, history[n], ticks[n].nowMs, history[n + 1]);
    assert CountIn(ticks[n].pickups, cfg.zoneBits, z) == requests;
    assert CountIn(ticks[n].drivers, cfg.zoneBits, z) == online;
  }

  /** A zone whose counts stay the same, stored or starting from the baseline, reaches the target those
      counts set in exactly ceil(|target - start| / maxChange) ticks, and stays there. */
  lemma SteadyZoneConverges(cfg: Config, ticks: seq<Tick>, history: seq<map<Zone, ZoneState>>, z: Zone,
                            requests: nat, online: nat, n: nat)
    requires Sane(cfg) && IsHistory(cfg, ticks, history) && InRange(cfg, history[0]) && n < |history|
    requires z in history[0] || requests > 0 || online > 0
    requires forall i :: 0 <= i < |ticks| ==>
               && CountIn(ticks[i].pickups, cfg.zoneBits, z) == requests
               && CountIn(ticks[i].drivers, cfg.zoneBits, z) == online
    ensures z in history[n] <==> n > 0 || z in history[0]
    ensures var target := Target(cfg, requests, online);
            var start := if z in history[0] then history[0][z].multiplier else cfg.minMultiplier;
            z in history[n] ==>
              (history[n][z].multiplier == target <==> n >= Ceil(AbsReal(target - start) / cfg.maxChangePerInterval))
  {
    if n > 0 {
      SteadyZoneStays(cfg, ticks, history, z, requests, online, n - 1);
    }
    SteadyZoneFollowsSteps(cfg, ticks, history, z, requests, online, n);
    TargetInRange(cfg, requests, online);
    SurgeConverges(cfg, Previous(cfg, history[0], z), Target(cfg, requests, online), n);
  }
}
