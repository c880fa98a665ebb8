// The fleet-wide location batch (core/src/ws/location-batch.ts): released updates wait here, the
// newest per driver, until a flush takes them all, writes them, and broadcasts them.

module LocationBatches {
  import opened Wrappers
  import opened DriverLocks
  import opened TripRows
  import opened Delta
  import opened Tracking
  import opened Hub
  import opened Subscriptions

  datatype Fix = Fix(lat: real, lng: real, timestamp: int)

  /** The updates a flush broadcasts: those whose driver the database still knew, with its status. */
  function Updates(snapshot: map<DriverId, Fix>, statuses: map<DriverId, DriverStatus>): map<DriverId, Update> {
    map d | d in snapshot && d in statuses ::
      Update(snapshot[d].lat, snapshot[d].lng, snapshot[d].timestamp, statuses[d])
  }

  /** A batch as it reaches the subscribers: each open socket that follows one of the drivers gets
      exactly one location, its driver's; nobody else gets anything. */
  ghost function Flushed(h: Hub, drivers: set<DriverId>, batch: map<DriverId, Update>): Hub
    requires drivers <= batch.Keys
  {
    Hub(map s | s in h.subs ::
          if HearsOneOf(h, s, drivers) then h.subs[s].(lastSent := Some(Sent(batch[h.subs[s].driverId.value]))) else h.subs[s],
        h.open,
        map s | s in h.outbox ::
          if HearsOneOf(h, s, drivers) && s in h.open
          then h.outbox[s] + [Location(Encode(h.subs[s].lastSent, h.subs[s].driverId.value, batch[h.subs[s].driverId.value]))]
          else h.outbox[s])
  }

  ghost predicate HearsOneOf(h: Hub, s: SocketId, drivers: set<DriverId>) {
    s in h.subs && h.subs[s].driverId.Some? && h.subs[s].driverId.value in drivers
  }

  lemma FlushedNone(h: Hub, batch: map<DriverId, Update>)
    ensures Flushed(h, {}, batch) == h
  {
    assert Flushed(h, {}, batch).subs == h.subs;
    assert Flushed(h, {}, batch).outbox == h.outbox;
  }

  /** Broadcasts for different drivers do not interfere: each subscriber follows one driver. */
  lemma FlushedOneMore(h: Hub, drivers: set<DriverId>, d: DriverId, batch: map<DriverId, Update>)
    requires drivers <= batch.Keys && d in batch && d !in drivers
    ensures Broadcast(Flushed(h, drivers, batch), d, batch[d]) == Flushed(h, drivers + {d}, batch)
  {
    var h1, h2 := Broadcast(Flushed(h, drivers, batch), d, batch[d]), Flushed(h, drivers + {d}, batch);
    assert forall s :: Hears(Flushed(h, drivers, batch), s, d) <==> Hears(h, s, d);
    assert h1.subs == h2.subs;
    assert h1.outbox == h2.outbox;
  }

  class LocationBatch {
    var pendingBatch: map<DriverId, Fix>
    var flushing: bool

    constructor ()
      ensures pendingBatch == map[] && !flushing
    {
      pendingBatch, flushing := map[], false;
    }

    /** The last value wins. */
    method EnqueueLocationUpdate(d: DriverId, fix: Fix)
      modifies this`pendingBatch
      ensures pendingBatch == old(pendingBatch)[d := fix]
    {
      pendingBatch := pendingBatch[d := fix];
    }

    /** Up to the first await: nothing while another flush is in flight or nothing waits; otherwise
        everything waiting is taken. */
    method BeginFlush() returns (snapshot: Option<map<DriverId, Fix>>)
      modifies this
      ensures old(flushing) || old(pendingBatch) == map[] ==>
                snapshot == None && pendingBatch == old(pendingBatch) && flushing == old(flushing)
      ensures !old(flushing) && old(pendingBatch) != map[] ==>
                snapshot == Some(old(pendingBatch)) && pendingBatch == map[] && flushing
    {
      if flushing || pendingBatch == map[] {
        return None;
      }
      flushing := true;
      snapshot := Some(pendingBatch);
      pendingBatch := map[];
    }

    /** After both writes: broadcasts the snapshot, in whatever order, without a further await. */
    method BroadcastSnapshot(snapshot: map<DriverId, Fix>, statuses: map<DriverId, DriverStatus>, registry: Registry)
      requires registry.Valid()
      modifies registry`outbox, registry.bySocket.Values`lastSent
      ensures registry.Valid()
      ensures registry.View() == Flushed(old(registry.View()), Updates(snapshot, statuses).Keys, Updates(snapshot, statuses))
    {
      ghost var h, batch := registry.View(), Updates(snapshot, statuses);
      ghost var done: set<DriverId> := {};
      var todo := snapshot.Keys;
      FlushedNone(h, batch);
      while todo != {}
        invariant todo <= snapshot.Keys && done <= batch.Keys
        invariant forall d :: d in batch ==> (d in done <==> d !in todo)
        invariant registry.Valid() && registry.View() == Flushed(h, done, batch)
      {
        var d :| d in todo;
        if d in statuses {
          var fix := snapshot[d];
          FlushedOneMore(h, done, d, batch);
          registry.BroadcastDriverLocation(d, Update(fix.lat, fix.lng, fix.timestamp, statuses[d]));
          done := done + {d};
        }
        todo := todo - {d};
      }
      assert done == batch.Keys;
    }

    /** The finally: the next flush may start, whether this one succeeded or threw. */
    method EndFlush()
      modifies this`flushing
      ensures !flushing
    {
      flushing := false;
    }
  }
}
