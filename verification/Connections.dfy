// The registry of driver connections (core/src/ws/driver-connections.ts): at most one connection per
// driver is current; a newer one replaces it, and what a replaced socket still does touches neither
// the registry nor the newer socket's throttle.

module DriverConnections {
  import opened Wrappers
  import opened DriverLocks
  import opened Throttling
  import opened LocationBatches

  class DriverConnection {
    const driverId: DriverId
    const throttle: ThrottleState<Fix>

    constructor (driverId: DriverId)
      ensures this.driverId == driverId && fresh(throttle) && throttle.Value() == Fresh()
    {
      this.driverId := driverId;
      this.throttle := new ThrottleState();
    }
  }

  /** The batch after a throttle step that released `released`. */
  function Enqueued(pending: map<DriverId, Fix>, d: DriverId, released: Option<Fix>): map<DriverId, Fix> {
    match released case Some(fix) => pending[d := fix] case None => pending
  }

  class ConnectionRegistry {
    var connections: map<DriverId, DriverConnection>
    const batch: LocationBatch

    /** Each entry is a connection of its own driver, with a throttle of its own. */
    ghost predicate Valid()
      reads this
    {
      && (forall d :: d in connections ==> connections[d].driverId == d)
      && (forall d, e :: d in connections && e in connections && connections[d].throttle == connections[e].throttle ==> d == e)
    }

    constructor (batch: LocationBatch)
      ensures Valid() && connections == map[] && this.batch == batch
    {
      this.batch := batch;
      connections := map[];
    }

    /** A new connection replaces the driver's current one, whose armed timer is cleared. */
    method HandleDriverConnection(d: DriverId) returns (connection: DriverConnection)
      requires Valid()
      modifies this`connections, if d in connections then {connections[d].throttle} else {}
      ensures Valid() && connections == old(connections)[d := connection]
      ensures fresh(connection) && connection.throttle.Value() == Fresh()
      ensures d in old(connections) ==>
                old(connections)[d].throttle.Value() == Unarmed(old(connections[d].throttle.Value()))
    {
      if d in connections {
        connections[d].throttle.ClearThrottleTimer();
      }
      connection := new DriverConnection(d);
      connections := connections[d := connection];
    }

    /** A location on any open socket, current or not: throttled by that socket, enqueued if released. */
    method HandleLocationMessage(connection: DriverConnection, throttleMs: nat, now: int, fix: Fix)
      modifies connection.throttle, batch`pendingBatch
      ensures connection.throttle.Value() == AfterMessage(old(connection.throttle.Value()), throttleMs, now, fix)
      ensures batch.pendingBatch ==
              Enqueued(old(batch.pendingBatch), connection.driverId,
                       ReleasedByMessage(old(connection.throttle.Value()), throttleMs, now, fix))
    {
      var released := connection.throttle.HandleLocationMessage(throttleMs, now, fix);
      if released.Some? {
        batch.EnqueueLocationUpdate(connection.driverId, released.value);
      }
    }

    method HandleTimer(connection: DriverConnection, now: int)
      modifies connection.throttle, batch`pendingBatch
      ensures connection.throttle.Value() == AfterTimer(old(connection.throttle.Value()), now)
      ensures batch.pendingBatch == Enqueued(old(batch.pendingBatch), connection.driverId, old(connection.throttle.pending))
    {
      var released := connection.throttle.FireTimer(now);
      if released.Some? {
        batch.EnqueueLocationUpdate(connection.driverId, released.value);
      }
    }

    /** The late close of a replaced socket leaves the newer connection's entry alone. */
    method HandleClose(connection: DriverConnection)
      requires Valid()
      modifies this`connections, connection.throttle
      ensures Valid() && connection.throttle.Value() == Unarmed(old(connection.throttle.Value()))
      ensures connections ==
              if connection.driverId in old(connections) && old(connections)[connection.driverId] == connection
              then old(connections) - {connection.driverId} else old(connections)
    {
      connection.throttle.ClearThrottleTimer();
      if connection.driverId in connections && connections[connection.driverId] == connection {
        connections := connections - {connection.driverId};
      }
    }
  }
}
