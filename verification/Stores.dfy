// The three shared stores of trip matching, each updated in place and each specified by functions
// on its contents: the driver locks in Redis (core/src/repositories/driver-lock.repository.ts), the
// trip and driver rows in Postgres (core/src/repositories/trips.repository.ts) and the pending
// offers in memory (core/src/ws/trip-offers.ts).

module DriverLocks {
  import opened Wrappers

  type TripId = nat
  type DriverId = nat

  /** The value of a lock key is the trip that took it; the key expires by itself. */
  datatype Lock = Lock(owner: TripId, expiresAt: int)

  type Locks = map<DriverId, Lock>

  /** What `GET` sees: an expired key is absent. */
  function Live(locks: Locks, driver: DriverId, now: int): Option<Lock> {
    if driver in locks && now < locks[driver].expiresAt then Some(locks[driver]) else None
  }

  /** `SET key trip PX ttl NX`. */
  function Acquired(locks: Locks, driver: DriverId, trip: TripId, ttlMs: nat, now: int): Locks {
    if Live(locks, driver, now).Some? then locks else locks[driver := Lock(trip, now + ttlMs)]
  }

  /** The compare-and-delete script. */
  function Released(locks: Locks, driver: DriverId, trip: TripId, now: int): Locks {
    var live := Live(locks, driver, now);
    if live.Some? && live.value.owner == trip then locks - {driver} else locks
  }

  class DriverLockRepository {
    var locks: Locks

    constructor ()
      ensures locks == map[]
    {
      locks := map[];
    }

    method AcquireDriverLock(driver: DriverId, trip: TripId, ttlMs: nat, now: int) returns (ok: bool)
      modifies this
      ensures ok <==> Live(old(locks), driver, now).None?
      ensures locks == Acquired(old(locks), driver, trip, ttlMs, now)
      ensures ok <==> driver !in old(locks) || old(locks)[driver].expiresAt <= now
      ensures locks == if ok then old(locks)[driver := Lock(trip, now + ttlMs)] else old(locks)
      ensures ok && ttlMs > 0 ==> Live(locks, driver, now) == Some(Lock(trip, now + ttlMs))
    {
      if driver in locks && locks[driver].expiresAt <= now {
        locks := locks - {driver};
      }
      if driver in locks {
        return false;
      }
      locks := locks[driver := Lock(trip, now + ttlMs)];
      ok := true;
      assert locks == old(locks)[driver := Lock(trip, now + ttlMs)];
    }

    method ReleaseDriverLock(driver: DriverId, trip: TripId, now: int)
      modifies this
      ensures locks == Released(old(locks), driver, trip, now)
      ensures locks - {driver} == old(locks) - {driver} && (driver in locks ==> locks == old(locks))
      ensures driver in old(locks) ==>
                (driver !in locks <==> now < old(locks)[driver].expiresAt && old(locks)[driver].owner == trip)
    {
      if driver in locks && now < locks[driver].expiresAt && locks[driver].owner == trip {
        locks := locks - {driver};
      }
    }
  }

  /** Releasing a lock someone else holds, or that has expired, changes nothing. */
  lemma ReleaseByOther(locks: Locks, driver: DriverId, trip: TripId, now: int)
    ensures Released(locks, driver, trip, now) == locks
       <==> !(Live(locks, driver, now).Some? && Live(locks, driver, now).value.owner == trip)
  {
    if Live(locks, driver, now).Some? {
      assert driver in locks && driver !in locks - {driver};
    }
  }

  /** Taking a free lock and releasing it before it expires leaves the driver free again and every
      other driver untouched. */
  lemma AcquireThenRelease(locks: Locks, driver: DriverId, trip: TripId, ttlMs: nat, t0: int, t1: int)
    requires Live(locks, driver, t0).None? && t0 <= t1 < t0 + ttlMs
    ensures var after := Released(Acquired(locks, driver, trip, ttlMs, t0), driver, trip, t1);
            && Live(after, driver, t1).None?
            && forall d :: d != driver ==> Live(after, d, t1) == Live(locks, d, t1)
  {
  }
}

module TripRows {
  import opened Wrappers
  import opened DriverLocks

  datatype DriverStatus = Offline | Online | Busy

  datatype TripStatus = Requested | Matched | InProgress | Completed | Cancelled

  datatype Reason = NoDriversAvailable | AllCandidatesDeclined

  datatype TripRow = TripRow(status: TripStatus, driverId: Option<DriverId>, reason: Option<Reason>)

  datatype Db = Db(trips: map<TripId, TripRow>, drivers: map<DriverId, DriverStatus>)

  const NEW_TRIP := TripRow(Requested, None, None)

  /** Both guards of the transaction: the trip is still requested and unassigned, the driver online. */
  predicate CanFinalize(db: Db, trip: TripId, driver: DriverId) {
    && trip in db.trips && db.trips[trip].status == Requested && db.trips[trip].driverId == None
    && driver in db.drivers && db.drivers[driver] == Online
  }

  function Finalize(db: Db, trip: TripId, driver: DriverId): Db {
    if CanFinalize(db, trip, driver)
    then Db(db.trips[trip := db.trips[trip].(status := Matched, driverId := Some(driver))],
            db.drivers[driver := Busy])
    else db
  }

  predicate IsOpen(db: Db, trip: TripId) {
    trip in db.trips && db.trips[trip].status == Requested
  }

  function Cancel(db: Db, trip: TripId, reason: Reason): Db {
    if IsOpen(db, trip)
    then db.(trips := db.trips[trip := db.trips[trip].(status := Cancelled, reason := Some(reason))])
    else db
  }

  /** What a match leaves: the trip matched to the driver, the driver busy, every other row as it was. */
  ghost predicate IsBooked(before: Db, after: Db, trip: TripId, driver: DriverId) {
    && trip in before.trips && trip in after.trips && driver in after.drivers
    && after.trips[trip].status == Matched && after.trips[trip].driverId == Some(driver)
    && after.trips[trip].reason == before.trips[trip].reason
    && after.drivers[driver] == Busy
    && after.trips - {trip} == before.trips - {trip} && after.drivers - {driver} == before.drivers - {driver}
  }

  /** What a cancellation leaves: the trip cancelled for the given reason, its driver and every other
      row as it was. */
  ghost predicate IsCancelled(before: Db, after: Db, trip: TripId, reason: Reason) {
    && trip in before.trips && trip in after.trips
    && after.trips[trip].status == Cancelled && after.trips[trip].reason == Some(reason)
    && after.trips[trip].driverId == before.trips[trip].driverId
    && after.trips - {trip} == before.trips - {trip} && after.drivers == before.drivers
  }

  /** The row shapes the code can produce: a driver exactly when matched. */
  predicate WellShaped(row: TripRow) {
    && (row.status == Requested || row.status == Matched || row.status == Cancelled)
    && (row.driverId.Some? <==> row.status == Matched)
    && (row.reason.Some? <==> row.status == Cancelled)
  }

  class TripsRepository {
    var trips: map<TripId, TripRow>
    var drivers: map<DriverId, DriverStatus>

    function Contents(): Db
      reads this
    {
      Db(trips, drivers)
    }

    constructor ()
      ensures Contents() == Db(map[], map[])
    {
      trips, drivers := map[], map[];
    }

    /** Two guarded updates in one transaction, rolled back unless each changed a row: both rows
        change or neither does. */
    method TryFinalizeMatch(trip: TripId, driver: DriverId) returns (ok: bool)
      modifies this
      ensures ok <==> CanFinalize(old(Contents()), trip, driver)
      ensures Contents() == Finalize(old(Contents()), trip, driver)
      ensures if ok then IsBooked(old(Contents()), Contents(), trip, driver) else Contents() == old(Contents())
    {
      var savedTrips, savedDrivers := trips, drivers;
      var tripRowCount, driverRowCount := 0, 0;
      if trip in trips && trips[trip].status == Requested && trips[trip].driverId == None {
        trips := trips[trip := trips[trip].(status := Matched, driverId := Some(driver))];
        tripRowCount := 1;
      }
      if driver in drivers && drivers[driver] == Online {
        drivers := drivers[driver := Busy];
        driverRowCount := 1;
      }
      if tripRowCount == 0 || driverRowCount == 0 {
        trips, drivers := savedTrips, savedDrivers;
        return false;
      }
      ok := true;
    }

    /** The guarded cancellation: the updated row, or nothing if the trip was no longer requested. */
    method MarkTripUnmatched(trip: TripId, reason: Reason) returns (updated: Option<TripRow>)
      modifies this
      ensures updated.Some? <==> IsOpen(old(Contents()), trip)
      ensures updated.Some? ==> trip in trips && updated.value == trips[trip]
      ensures Contents() == Cancel(old(Contents()), trip, reason)
      ensures if updated.Some? then IsCancelled(old(Contents()), Contents(), trip, reason)
              else Contents() == old(Contents())
    {
      if trip !in trips || trips[trip].status != Requested {
        return None;
      }
      trips := trips[trip := trips[trip].(status := Cancelled, reason := Some(reason))];
      updated := Some(trips[trip]);
    }
  }
}

module TripOffers {
  import opened DriverLocks

  /** An offer being waited for: one promise of one matching attempt. */
  type OfferId = nat

  /** `pending` is keyed by trip only; `timers` are the timeouts not yet cleared or fired;
      `outcome` is what each settled promise resolved to. */
  datatype Offers = Offers(pending: map<TripId, OfferId>, timers: map<OfferId, TripId>, outcome: map<OfferId, bool>)

  function Waiting(o: Offers, trip: TripId, offer: OfferId): Offers {
    Offers(o.pending[trip := offer], o.timers[offer := trip], o.outcome)
  }

  function Settled(o: Offers, offer: OfferId, accepted: bool): map<OfferId, bool> {
    if offer in o.outcome then o.outcome else o.outcome[offer := accepted]
  }

  /** The timeout of an offer deletes whatever is pending for the trip and resolves its own promise. */
  function TimedOut(o: Offers, offer: OfferId): Offers {
    if offer !in o.timers then o
    else Offers(o.pending - {o.timers[offer]}, o.timers - {offer}, Settled(o, offer, false))
  }

  /** A response settles whichever offer is pending for the trip, whoever sent it. */
  function Answered(o: Offers, trip: TripId, accepted: bool): Offers {
    if trip !in o.pending then o
    else
      var offer := o.pending[trip];
      Offers(o.pending - {trip}, o.timers - {offer}, Settled(o, offer, accepted))
  }

  class TripOfferRegistry {
    var pending: map<TripId, OfferId>
    var timers: map<OfferId, TripId>
    var outcome: map<OfferId, bool>

    function Contents(): Offers
      reads this
    {
      Offers(pending, timers, outcome)
    }

    constructor ()
      ensures Contents() == Offers(map[], map[], map[])
    {
      pending, timers, outcome := map[], map[], map[];
    }

    method WaitForDriverResponse(trip: TripId, offer: OfferId)
      modifies this
      ensures Contents() == Waiting(old(Contents()), trip, offer)
      ensures trip in pending && pending[trip] == offer && pending - {trip} == old(pending) - {trip}
      ensures offer in timers && timers[offer] == trip && timers - {offer} == old(timers) - {offer}
      ensures outcome == old(outcome)
    {
      timers := timers[offer := trip];
      pending := pending[trip := offer];
    }

    method Resolve(offer: OfferId, accepted: bool)
      modifies this`outcome
      ensures outcome == Settled(old(Contents()), offer, accepted)
      ensures offer in outcome && outcome - {offer} == old(outcome) - {offer}
      ensures outcome[offer] == if offer in old(outcome) then old(outcome)[offer] else accepted
    {
      if offer !in outcome {
        outcome := outcome[offer := accepted];
      }
    }

    method FireTimeout(offer: OfferId)
      modifies this
      ensures Contents() == TimedOut(old(Contents()), offer)
      ensures offer !in old(timers) ==> Contents() == old(Contents())
      ensures offer in old(timers) ==> pending == old(pending) - {old(timers)[offer]} && timers == old(timers) - {offer}
      ensures offer in old(timers) && offer !in old(outcome) ==> outcome == old(outcome)[offer := false]
      ensures offer in old(outcome) ==> outcome == old(outcome)
    {
      if offer !in timers {
        return;
      }
      pending := pending - {timers[offer]};
      timers := timers - {offer};
      Resolve(offer, false);
    }

    method HandleDriverResponse(trip: TripId, accepted: bool) returns (known: bool)
      modifies this
      ensures known <==> trip in old(pending)
      ensures Contents() == Answered(old(Contents()), trip, accepted)
      ensures !known ==> Contents() == old(Contents())
      ensures known ==> pending == old(pending) - {trip} && timers == old(timers) - {old(pending)[trip]}
      ensures known && old(pending)[trip] !in old(outcome) ==> outcome == old(outcome)[old(pending)[trip] := accepted]
      ensures known && old(pending)[trip] in old(outcome) ==> outcome == old(outcome)
    {
      if trip !in pending {
        return false;
      }
      var offer := pending[trip];
      timers := timers - {offer};
      pending := pending - {trip};
      Resolve(offer, accepted);
      known := true;
    }
  }

  /** A settled offer keeps its outcome through any later timeout or response. */
  lemma OutcomeIsFinal(o: Offers, offer: OfferId, other: OfferId, trip: TripId, accepted: bool)
    requires offer in o.outcome
    ensures offer in TimedOut(o, other).outcome && TimedOut(o, other).outcome[offer] == o.outcome[offer]
    ensures offer in Answered(o, trip, accepted).outcome && Answered(o, trip, accepted).outcome[offer] == o.outcome[offer]
  {
  }

  /** Exactly one of timeout and response decides an offer that nothing else has replaced: the first. */
  lemma FirstOneDecides(o: Offers, trip: TripId, offer: OfferId, accepted: bool)
    requires offer !in o.outcome && offer !in o.timers && trip !in o.pending
    ensures var w := Waiting(o, trip, offer);
            && TimedOut(Answered(w, trip, accepted), offer) == Answered(w, trip, accepted)
            && Answered(TimedOut(w, offer), trip, accepted) == TimedOut(w, offer)
            && Answered(w, trip, accepted).outcome == o.outcome[offer := accepted]
            && TimedOut(w, offer).outcome == o.outcome[offer := false]
  {
  }
}
