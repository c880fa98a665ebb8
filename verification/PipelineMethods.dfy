// The steps of module Pipeline are the methods of the classes: without the numbers the reports carry,
// each step changes a connection's throttle, the registry and the batch as the contract of the method
// that the code runs there says.

module PipelineMethods {
  import opened Wrappers
  import opened DriverLocks
  import opened TripRows
  import opened Throttling
  import opened LocationBatches
  import opened DriverConnections
  import P = Pipeline

  function Fixes(batch: map<DriverId, P.Report>): map<DriverId, Fix> {
    map d | d in batch :: batch[d].fix
  }

  function FixOf(r: Option<P.Report>): Option<Fix> {
    if r.Some? then Some(r.value.fix) else None
  }

  function Plain(th: Throttle<P.Report>): Throttle<Fix> {
    Throttle(th.lastProcessedAt, FixOf(th.pending), th.flushTimer)
  }

  /** The connection at `c` is as `old` but for its throttle, and no other connection has changed. */
  ghost predicate OnlyThrottle(conns: map<P.ConnId, P.Conn>, conns': map<P.ConnId, P.Conn>, c: P.ConnId, th: Throttle<Fix>)
    requires c in conns
  {
    && conns'.Keys == conns.Keys && conns' - {c} == conns - {c}
    && conns'[c].driver == conns[c].driver && Plain(conns'[c].throttle) == th
  }

  /** `HandleLocationMessage`. */
  lemma ReceiveIsHandleLocationMessage(st: P.Pipe, throttleMs: nat, c: P.ConnId, now: int, fix: Fix)
    requires P.Can(st, P.Receive(c, now, fix))
    ensures var st', th := P.Next(st, throttleMs, P.Receive(c, now, fix)), Plain(st.conns[c].throttle);
            && OnlyThrottle(st.conns, st'.conns, c, AfterMessage(th, throttleMs, now, fix))
            && Fixes(st'.batch) == Enqueued(Fixes(st.batch), st.conns[c].driver, ReleasedByMessage(th, throttleMs, now, fix))
            && st'.current == st.current && st'.flush == st.flush && st'.sent == st.sent
            && |st'.received| == |st.received| + 1 && st'.received[..|st.received|] == st.received
  {
  }

  /** `HandleTimer`. */
  lemma TimerIsHandleTimer(st: P.Pipe, throttleMs: nat, c: P.ConnId, now: int)
    requires P.Can(st, P.Step.TimerFires(c, now))
    requires st.conns[c].throttle.pending.Some? ==> st.conns[c].throttle.pending.value.driver == st.conns[c].driver
    ensures var st', th := P.Next(st, throttleMs, P.Step.TimerFires(c, now)), Plain(st.conns[c].throttle);
            && OnlyThrottle(st.conns, st'.conns, c, AfterTimer(th, now))
            && Fixes(st'.batch) == Enqueued(Fixes(st.batch), st.conns[c].driver, th.pending)
            && st'.current == st.current && st'.flush == st.flush && st'.sent == st.sent && st'.received == st.received
  {
  }

  /** `HandleDriverConnection`. */
  lemma ConnectIsHandleDriverConnection(st: P.Pipe, throttleMs: nat, c: P.ConnId, d: DriverId)
    requires P.Can(st, P.Connect(c, d)) && P.Owned(st)
    ensures var st' := P.Next(st, throttleMs, P.Connect(c, d));
            && st'.current == st.current[d := c] && st'.conns.Keys == st.conns.Keys + {c}
            && st'.conns[c].driver == d && Plain(st'.conns[c].throttle) == Fresh()
            && (d in st.current ==>
                  Plain(st'.conns[st.current[d]].throttle) == Unarmed(Plain(st.conns[st.current[d]].throttle)))
            && (forall x :: x in st.conns && !(d in st.current && st.current[d] == x) ==> st'.conns[x] == st.conns[x])
            && st'.batch == st.batch && st'.flush == st.flush && st'.sent == st.sent && st'.received == st.received
  {
  }

  /** `HandleClose`. */
  lemma CloseIsHandleClose(st: P.Pipe, throttleMs: nat, c: P.ConnId)
    requires P.Can(st, P.Close(c))
    ensures var st', d := P.Next(st, throttleMs, P.Close(c)), st.conns[c].driver;
            && OnlyThrottle(st.conns, st'.conns, c, Unarmed(Plain(st.conns[c].throttle)))
            && st'.current == (if d in st.current && st.current[d] == c then st.current - {d} else st.current)
            && st'.batch == st.batch && st'.flush == st.flush && st'.sent == st.sent && st'.received == st.received
  {
  }

  /** `BeginFlush`, with `flushing` for a flush that is not idle: the step is possible exactly when the
      method takes a snapshot. */
  lemma FlushStartsIsBeginFlush(st: P.Pipe, throttleMs: nat)
    ensures P.Can(st, P.FlushStarts) <==> st.flush.Idle? && Fixes(st.batch) != map[]
    ensures P.Can(st, P.FlushStarts) ==>
              var st' := P.Next(st, throttleMs, P.FlushStarts);
              && st'.flush.Awaiting? && Fixes(st'.flush.snapshot) == Fixes(st.batch) && Fixes(st'.batch) == map[]
              && st'.conns == st.conns && st'.current == st.current && st'.sent == st.sent
  {
    if st.batch != map[] {
      var d :| d in st.batch;
      assert d in Fixes(st.batch);
    }
  }

  /** `BroadcastSnapshot`: the drivers broadcast are those it has an update for, with the position and
      time reported and the status the database returned. */
  lemma FlushBroadcastsIsBroadcastSnapshot(st: P.Pipe, throttleMs: nat, statuses: map<DriverId, DriverStatus>, d: DriverId)
    requires P.Can(st, P.FlushBroadcasts(statuses.Keys))
    ensures var st', updates := P.Next(st, throttleMs, P.FlushBroadcasts(statuses.Keys)), Updates(Fixes(st.flush.snapshot), statuses);
            if d in updates then
              && d in st.flush.snapshot && P.Sent(st', d) == P.Sent(st, d) + [st.flush.snapshot[d]]
              && updates[d].lat == st.flush.snapshot[d].fix.lat && updates[d].lng == st.flush.snapshot[d].fix.lng
              && updates[d].timestamp == st.flush.snapshot[d].fix.timestamp && d in statuses && updates[d].status == statuses[d]
            else
              P.Sent(st', d) == P.Sent(st, d)
  {
  }
}
