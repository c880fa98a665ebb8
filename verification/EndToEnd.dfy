// From the driver's socket to the rider's map: the pipeline of module Pipeline broadcasts into the
// registry of module Hub, whose subscribers decode what they get. What a subscriber decodes follows,
// in order and within the rounding of the deltas, what the driver's socket received.

module EndToEnd {
  import opened Wrappers
  import opened Numbers
  import opened DriverLocks
  import opened TripRows
  import D = Delta
  import T = Tracking
  import H = Hub
  import B = LocationBatches
  import P = Pipeline

  type Report = P.Report

  /** `heard` are the reports written to each socket since its subscription; no code reads it. */
  datatype System = System(pipe: P.Pipe, hub: H.Hub, heard: map<H.SocketId, seq<Report>>)

  const START := System(P.START, H.EMPTY, map[])

  /** `Flushes` is the broadcast after both writes of a flush, with the statuses the database returned. */
  datatype Event =
    | Pipes(step: P.Step)
    | Flushes(statuses: map<DriverId, DriverStatus>)
    | Subscribes(op: H.Op)

  function Fixes(snapshot: map<DriverId, Report>): map<DriverId, B.Fix> {
    map d | d in snapshot :: snapshot[d].fix
  }

  function Batch(snapshot: map<DriverId, Report>, statuses: map<DriverId, DriverStatus>): map<DriverId, D.Update> {
    B.Updates(Fixes(snapshot), statuses)
  }

  predicate Can(sys: System, e: Event) {
    match e
    case Pipes(step) => !step.FlushBroadcasts? && P.Can(sys.pipe, step)
    case Flushes(statuses) => P.Can(sys.pipe, P.FlushBroadcasts(statuses.Keys))
    case Subscribes(op) => !op.BroadcastOp? && H.OpAllowed(sys.hub, op)
  }

  ghost function Hear(sys: System, statuses: map<DriverId, DriverStatus>): map<H.SocketId, seq<Report>>
    requires sys.pipe.flush.Awaiting?
  {
    var snapshot := sys.pipe.flush.snapshot;
    map s | s in sys.heard ::
      if s in sys.hub.open && B.HearsOneOf(sys.hub, s, Batch(snapshot, statuses).Keys)
      then sys.heard[s] + [snapshot[sys.hub.subs[s].driverId.value]] else sys.heard[s]
  }

  ghost function Next(sys: System, throttleMs: nat, e: Event): System
    requires Can(sys, e)
  {
    match e
    case Pipes(step) => sys.(pipe := P.Next(sys.pipe, throttleMs, step))
    case Flushes(statuses) =>
      var batch := Batch(sys.pipe.flush.snapshot, statuses);
      System(P.Broadcasted(sys.pipe, statuses.Keys), B.Flushed(sys.hub, batch.Keys, batch), Hear(sys, statuses))
    case Subscribes(op) =>
      sys.(hub := H.Apply(sys.hub, op), heard := if op.SubscribeOp? then sys.heard[op.s := []] else sys.heard)
  }

  // ---- What a subscriber shows ----------------------------------------------------------------

  /** The location is of the driver the client follows, and decodes. */
  ghost predicate Shows(before: seq<T.ServerMessage>, m: T.ServerMessage) {
    && m.Location? && T.Client(before).Ok? && T.Client(before).value.driverId == Some(m.payload.driverId)
    && T.Client(before + [m]).Ok? && T.Client(before + [m]).value.driverPosition.Some?
  }

  /** The positions a fresh client shows one after another as it receives the messages. */
  ghost function Track(messages: seq<T.ServerMessage>): seq<D.Known>
    decreases |messages|
  {
    if |messages| == 0 then []
    else
      var before, m := messages[..|messages| - 1], messages[|messages| - 1];
      Track(before) + if Shows(before, m) then [T.Client(before + [m]).value.driverPosition.value] else []
  }

  lemma {:induction false} TrackAppend(messages: seq<T.ServerMessage>, m: T.ServerMessage)
    ensures Track(messages + [m]) ==
            Track(messages) + if Shows(messages, m) then [T.Client(messages + [m]).value.driverPosition.value] else []
  {
    assert (messages + [m])[..|messages|] == messages;
  }

  /** Within `n` half quanta of the fix on each axis. */
  predicate Near(k: D.Known, fix: B.Fix, n: nat) {
    AbsReal(k.lat - fix.lat) <= n as real * D.STEP / 2.0 && AbsReal(k.lng - fix.lng) <= n as real * D.STEP / 2.0
  }

  /** What the client shows is what its socket was written, each position within the rounding so far. */
  ghost predicate Follows(sub: H.Sub, messages: seq<T.ServerMessage>, heard: seq<Report>) {
    && |Track(messages)| == |heard|
    && T.Deltas(messages) == (if heard == [] then 0 else |heard| - 1)
    && (sub.lastSent.None? <==> heard == [])
    && forall i :: 0 <= i < |heard| ==> Near(Track(messages)[i], heard[i].fix, i)
  }

  lemma {:induction false} LocationFollows(sub: H.Sub, messages: seq<T.ServerMessage>, heard: seq<Report>,
                                           d: DriverId, r: Report, status: DriverStatus)
    requires H.InSync(sub, messages, false) && Follows(sub, messages, heard) && sub.driverId == Some(d)
    ensures var u := D.Update(r.fix.lat, r.fix.lng, r.fix.timestamp, status);
            var m := T.Location(D.Encode(sub.lastSent, d, u));
            && H.InSync(sub.(lastSent := Some(D.Sent(u))), messages + [m], false)
            && Follows(sub.(lastSent := Some(D.Sent(u))), messages + [m], heard + [r])
  {
    var u := D.Update(r.fix.lat, r.fix.lng, r.fix.timestamp, status);
    var m := T.Location(D.Encode(sub.lastSent, d, u));
    H.LocationSyncs(sub, messages, d, u, false);
    TrackAppend(messages, m);
    T.DeltasAppend(messages, m);
    assert Shows(messages, m);
  }

  lemma {:induction false} OtherFollows(sub: H.Sub, messages: seq<T.ServerMessage>, heard: seq<Report>, m: T.ServerMessage)
    requires Follows(sub, messages, heard) && !m.Location?
    ensures Follows(sub, messages + [m], heard)
  {
    TrackAppend(messages, m);
    T.DeltasAppend(messages, m);
  }

  lemma {:induction false} FreshFollows(sub: H.Sub, m: T.ServerMessage)
    requires sub.lastSent.None? && !m.Location?
    ensures Follows(sub, [m], [])
  {
    OtherFollows(sub, [], [], m);
    assert [] + [m] == [m];
  }

  // ---- What every event keeps -----------------------------------------------------------------

  /** What a socket heard was broadcast, and for each driver in the order of receipt. */
  ghost predicate HeardInOrder(pipe: P.Pipe, heard: seq<Report>, wide: bool) {
    && (forall i :: 0 <= i < |heard| ==> heard[i] in P.Sent(pipe, heard[i].driver))
    && (forall i, j :: 0 <= i < j < |heard| && heard[i].driver == heard[j].driver ==> P.Before(heard[i], heard[j], wide))
  }

  ghost predicate Inv(sys: System, wide: bool) {
    && P.Inv(sys.pipe, wide) && H.HubInv(sys.hub, false)
    && (forall s :: s in sys.hub.subs ==> s in sys.heard)
    && (forall s :: s in sys.hub.subs && s in sys.hub.open ==>
          Follows(sys.hub.subs[s], H.Messages(sys.hub, s), sys.heard[s]) && HeardInOrder(sys.pipe, sys.heard[s], wide))
  }

  lemma PipesKeep(sys: System, throttleMs: nat, step: P.Step, wide: bool)
    requires Inv(sys, wide) && Can(sys, Pipes(step)) && (wide ==> P.OnCurrent(sys.pipe, step))
    ensures Inv(Next(sys, throttleMs, Pipes(step)), wide)
  {
    P.StepKeeps(sys.pipe, throttleMs, step, wide);
    assert P.Next(sys.pipe, throttleMs, step).sent == sys.pipe.sent;
  }

  /** What an operation other than a broadcast is to one open subscriber. */
  ghost predicate Talks(h: H.Hub, h': H.Hub, s: H.SocketId)
    requires H.HubInv(h, false) && H.HubInv(h', false) && s in h'.subs && s in h.subs
  {
    && h'.subs[s].lastSent == h.subs[s].lastSent
    && (H.Messages(h', s) == H.Messages(h, s)
        || exists m: T.ServerMessage :: !m.Location? && H.Messages(h', s) == H.Messages(h, s) + [m])
  }

  lemma {:induction false} OpTalks(h: H.Hub, op: H.Op, s: H.SocketId)
    requires H.HubInv(h, false) && H.OpAllowed(h, op) && !op.BroadcastOp?
    requires s in H.Apply(h, op).subs && s in H.Apply(h, op).open && !(op.SubscribeOp? && op.s == s)
    requires H.HubInv(H.Apply(h, op), false)
    ensures s in h.subs && s in h.open && Talks(h, H.Apply(h, op), s)
  {
    var h' := H.Apply(h, op);
    match op {
      case MatchOp(t, d) =>
        if H.Follows(h, s, t) {
          H.MessagesAppend(h.outbox[s], h.subs[s].since, T.TripMatched(t, Some(d)));
        }
      case Refuse(x, alreadyEnded) =>
        if x == s {
          H.MessagesAppend(h.outbox[s], h.subs[s].since, T.ErrorReply(alreadyEnded));
        }
      case _ =>
    }
  }

  lemma SubscribesKeep(sys: System, throttleMs: nat, op: H.Op, wide: bool)
    requires Inv(sys, wide) && Can(sys, Subscribes(op))
    ensures Inv(Next(sys, throttleMs, Subscribes(op)), wide)
  {
    var sys' := Next(sys, throttleMs, Subscribes(op));
    H.OpKeeps(sys.hub, op, false);
    forall s | s in sys'.hub.subs && s in sys'.hub.open
      ensures Follows(sys'.hub.subs[s], H.Messages(sys'.hub, s), sys'.heard[s]) && HeardInOrder(sys'.pipe, sys'.heard[s], wide)
    {
      if op.SubscribeOp? && op.s == s {
        H.MessagesAppend(sys.hub.outbox[s], |sys.hub.outbox[s]|, T.Subscribed(op.tripId, op.driverId));
        assert H.Messages(sys'.hub, s) == [T.Subscribed(op.tripId, op.driverId)];
        FreshFollows(sys'.hub.subs[s], T.Subscribed(op.tripId, op.driverId));
      } else {
        OpTalks(sys.hub, op, s);
        if H.Messages(sys'.hub, s) != H.Messages(sys.hub, s) {
          var m: T.ServerMessage :| !m.Location? && H.Messages(sys'.hub, s) == H.Messages(sys.hub, s) + [m];
          OtherFollows(sys.hub.subs[s], H.Messages(sys.hub, s), sys.heard[s], m);
        }
      }
    }
  }

  /** What a flush is to one open subscriber. */
  lemma {:induction false} FlushedOne(h: H.Hub, batch: map<DriverId, D.Update>, s: H.SocketId)
    requires s in h.subs && s in h.open && s in h.outbox && h.subs[s].since <= |h.outbox[s]|
    ensures var h', sub := B.Flushed(h, batch.Keys, batch), h.subs[s];
            && s in h'.subs && s in h'.outbox && h'.subs[s].since <= |h'.outbox[s]|
            && if B.HearsOneOf(h, s, batch.Keys) then
                 var d := sub.driverId.value;
                 && h'.subs[s] == sub.(lastSent := Some(D.Sent(batch[d])))
                 && H.Messages(h', s) == H.Messages(h, s) + [T.Location(D.Encode(sub.lastSent, d, batch[d]))]
               else
                 h'.subs[s] == sub && H.Messages(h', s) == H.Messages(h, s)
  {
    if B.HearsOneOf(h, s, batch.Keys) {
      var d := h.subs[s].driverId.value;
      H.MessagesAppend(h.outbox[s], h.subs[s].since, T.Location(D.Encode(h.subs[s].lastSent, d, batch[d])));
    }
  }

  lemma FlushToOne(h: H.Hub, snapshot: map<DriverId, Report>, statuses: map<DriverId, DriverStatus>, s: H.SocketId,
                   heard: seq<Report>, heard': seq<Report>)
    requires s in h.subs && s in h.open && s in h.outbox && h.subs[s].since <= |h.outbox[s]|
    requires H.InSync(h.subs[s], H.Messages(h, s), false) && Follows(h.subs[s], H.Messages(h, s), heard)
    requires heard' == if B.HearsOneOf(h, s, Batch(snapshot, statuses).Keys)
                       then heard + [snapshot[h.subs[s].driverId.value]] else heard
    ensures var h' := B.Flushed(h, Batch(snapshot, statuses).Keys, Batch(snapshot, statuses));
            && s in h'.subs && s in h'.outbox && h'.subs[s].since <= |h'.outbox[s]|
            && H.InSync(h'.subs[s], H.Messages(h', s), false) && Follows(h'.subs[s], H.Messages(h', s), heard')
  {
    var batch := Batch(snapshot, statuses);
    FlushedOne(h, batch, s);
    if B.HearsOneOf(h, s, batch.Keys) {
      var d := h.subs[s].driverId.value;
      LocationFollows(h.subs[s], H.Messages(h, s), heard, d, snapshot[d], statuses[d]);
    }
  }

  /** A broadcast report comes after everything broadcast of its driver before. */
  lemma BroadcastIsLater(pipe: P.Pipe, d: DriverId, earlier: Report, wide: bool)
    requires P.Inv(pipe, wide) && pipe.flush.Awaiting? && d in pipe.flush.snapshot && earlier in P.Sent(pipe, d)
    ensures P.Before(earlier, pipe.flush.snapshot[d], wide)
  {
    var sent, r, line := P.Sent(pipe, d), pipe.flush.snapshot[d], P.Line(pipe, d);
    assert line == sent + [r] + P.InBatch(pipe, d);
    var k :| 0 <= k < |sent| && sent[k] == earlier;
    assert line[k] == earlier && line[|sent|] == r;
  }

  lemma SnapshotIsOwn(pipe: P.Pipe, d: DriverId, wide: bool)
    requires P.Inv(pipe, wide) && pipe.flush.Awaiting? && d in pipe.flush.snapshot
    ensures pipe.flush.snapshot[d].driver == d
  {
    var sent, r, line := P.Sent(pipe, d), pipe.flush.snapshot[d], P.Line(pipe, d);
    assert line == sent + [r] + P.InBatch(pipe, d);
    assert line[|sent|] == r && r in line;
  }

  lemma {:induction false} FlushSends(pipe: P.Pipe, known: set<DriverId>, d: DriverId)
    requires pipe.flush.Awaiting?
    ensures P.Sent(P.Broadcasted(pipe, known), d) ==
            P.Sent(pipe, d) + if d in pipe.flush.snapshot && d in known then [pipe.flush.snapshot[d]] else []
  {
  }

  lemma {:induction false} FlushHeard(pipe: P.Pipe, known: set<DriverId>, heard: seq<Report>, wide: bool)
    requires P.Inv(pipe, wide) && pipe.flush.Awaiting? && HeardInOrder(pipe, heard, wide)
    ensures HeardInOrder(P.Broadcasted(pipe, known), heard, wide)
  {
    forall i | 0 <= i < |heard| ensures heard[i] in P.Sent(P.Broadcasted(pipe, known), heard[i].driver) {
      FlushSends(pipe, known, heard[i].driver);
    }
  }

  lemma FlushHeardMore(pipe: P.Pipe, known: set<DriverId>, heard: seq<Report>, d: DriverId, wide: bool)
    requires P.Inv(pipe, wide) && pipe.flush.Awaiting? && HeardInOrder(pipe, heard, wide)
    requires d in pipe.flush.snapshot && d in known
    ensures HeardInOrder(P.Broadcasted(pipe, known), heard + [pipe.flush.snapshot[d]], wide)
  {
    FlushHeard(pipe, known, heard, wide);
    FlushSends(pipe, known, d);
    SnapshotIsOwn(pipe, d, wide);
    forall i | 0 <= i < |heard| && heard[i].driver == d ensures P.Before(heard[i], pipe.flush.snapshot[d], wide) {
      BroadcastIsLater(pipe, d, heard[i], wide);
    }
  }

  /** One open subscriber is in sync, and has shown and heard what it should. */
  ghost predicate Right(sys: System, s: H.SocketId, wide: bool) {
    && s in sys.hub.subs && s in sys.heard && s in sys.hub.outbox && sys.hub.subs[s].since <= |sys.hub.outbox[s]|
    && H.InSync(sys.hub.subs[s], H.Messages(sys.hub, s), false)
    && Follows(sys.hub.subs[s], H.Messages(sys.hub, s), sys.heard[s])
    && HeardInOrder(sys.pipe, sys.heard[s], wide)
  }

  lemma FlushKeepsOne(sys: System, statuses: map<DriverId, DriverStatus>, s: H.SocketId, wide: bool)
    requires Right(sys, s, wide) && s in sys.hub.open && P.Inv(sys.pipe, wide) && Can(sys, Flushes(statuses))
    ensures Right(Next(sys, 0, Flushes(statuses)), s, wide)
  {
    var sys' := Next(sys, 0, Flushes(statuses));
    var snapshot := sys.pipe.flush.snapshot;
    FlushToOne(sys.hub, snapshot, statuses, s, sys.heard[s], sys'.heard[s]);
    if B.HearsOneOf(sys.hub, s, Batch(snapshot, statuses).Keys) {
      FlushHeardMore(sys.pipe, statuses.Keys, sys.heard[s], sys.hub.subs[s].driverId.value, wide);
    } else {
      FlushHeard(sys.pipe, statuses.Keys, sys.heard[s], wide);
    }
  }

  /** Every subscription is on record, and every open subscriber right. */
  ghost predicate AllRight(sys: System, wide: bool) {
    && sys.hub.open <= sys.hub.outbox.Keys
    && (forall s :: s in sys.hub.subs ==> s in sys.heard && s in sys.hub.outbox && sys.hub.subs[s].since <= |sys.hub.outbox[s]|)
    && (forall s :: s in sys.hub.subs && s in sys.hub.open ==> Right(sys, s, wide))
  }

  lemma InvIsAllRight(sys: System, wide: bool)
    ensures Inv(sys, wide) <==> P.Inv(sys.pipe, wide) && AllRight(sys, wide)
  {
  }

  lemma FlushedFrame(h: H.Hub, batch: map<DriverId, D.Update>)
    ensures var h' := B.Flushed(h, batch.Keys, batch);
            && h'.open == h.open && h'.subs.Keys == h.subs.Keys && h'.outbox.Keys == h.outbox.Keys
            && (forall s :: s in h.subs ==> h'.subs[s].since == h.subs[s].since)
            && (forall s :: s in h.outbox ==> |h.outbox[s]| <= |h'.outbox[s]|)
  {
  }

  lemma FlushAllRight(sys: System, statuses: map<DriverId, DriverStatus>, wide: bool)
    requires P.Inv(sys.pipe, wide) && AllRight(sys, wide) && Can(sys, Flushes(statuses))
    ensures AllRight(Next(sys, 0, Flushes(statuses)), wide)
  {
    var sys' := Next(sys, 0, Flushes(statuses));
    FlushedFrame(sys.hub, Batch(sys.pipe.flush.snapshot, statuses));
    forall s | s in sys'.hub.subs && s in sys'.hub.open ensures Right(sys', s, wide) {
      FlushKeepsOne(sys, statuses, s, wide);
    }
  }

  lemma FlushesKeep(sys: System, throttleMs: nat, statuses: map<DriverId, DriverStatus>, wide: bool)
    requires Inv(sys, wide) && Can(sys, Flushes(statuses))
    ensures Inv(Next(sys, throttleMs, Flushes(statuses)), wide)
  {
    P.StepKeeps(sys.pipe, throttleMs, P.FlushBroadcasts(statuses.Keys), wide);
    InvIsAllRight(sys, wide);
    FlushAllRight(sys, statuses, wide);
    InvIsAllRight(Next(sys, throttleMs, Flushes(statuses)), wide);
  }

  // ---- Every run ------------------------------------------------------------------------------

  ghost predicate Happens(throttleMs: nat, run: seq<Event>)
    decreases |run|, 0
  {
    run == [] ||
    (var before := run[..|run| - 1];
     Happens(throttleMs, before) && Can(Reached(throttleMs, before), run[|run| - 1]))
  }

  ghost function Reached(throttleMs: nat, run: seq<Event>): System
    requires Happens(throttleMs, run)
    decreases |run|, 1
  {
    if run == [] then START else Next(Reached(throttleMs, run[..|run| - 1]), throttleMs, run[|run| - 1])
  }

  /** No message arrives on a connection that has been replaced. */
  ghost predicate NoStragglers(throttleMs: nat, run: seq<Event>)
    requires Happens(throttleMs, run)
  {
    run == [] ||
    (var before, e := run[..|run| - 1], run[|run| - 1];
     NoStragglers(throttleMs, before) && (e.Pipes? ==> P.OnCurrent(Reached(throttleMs, before).pipe, e.step)))
  }

  lemma {:induction false} RunKeeps(throttleMs: nat, run: seq<Event>, wide: bool)
    requires Happens(throttleMs, run) && (wide ==> NoStragglers(throttleMs, run))
    ensures Inv(Reached(throttleMs, run), wide)
  {
    if run != [] {
      RunKeeps(throttleMs, run[..|run| - 1], wide);
      var sys := Reached(throttleMs, run[..|run| - 1]);
      match run[|run| - 1] {
        case Pipes(step) => PipesKeep(sys, throttleMs, step, wide);
        case Flushes(statuses) => FlushesKeep(sys, throttleMs, statuses, wide);
        case Subscribes(op) => SubscribesKeep(sys, throttleMs, op, wide);
      }
    }
  }

  /** Over any run of the whole system, an open subscriber's client decodes everything it is sent. The
      positions it shows are, one for one, reports that drivers' sockets received: those of one driver
      in the order of receipt if no message came on a replaced socket, and in any case those of one
      connection; and the i-th is off by at most i half quanta on each axis. */
  lemma ShownPositionsFollowTheSocket(throttleMs: nat, run: seq<Event>, s: H.SocketId, wide: bool)
    requires Happens(throttleMs, run) && (wide ==> NoStragglers(throttleMs, run))
    requires s in Reached(throttleMs, run).hub.subs && s in Reached(throttleMs, run).hub.open
    ensures var sys := Reached(throttleMs, run);
            && s in sys.heard && s in sys.hub.outbox && sys.hub.subs[s].since <= |sys.hub.outbox[s]|
            && var messages, reports := H.Messages(sys.hub, s), sys.heard[s];
            && T.Client(messages).Ok? && |Track(messages)| == |reports|
            && (forall i :: 0 <= i < |reports| ==>
                  && Near(Track(messages)[i], reports[i].fix, i)
                  && reports[i].no < |sys.pipe.received| && sys.pipe.received[reports[i].no] == reports[i])
            && (forall i, j :: 0 <= i < j < |reports| && reports[i].driver == reports[j].driver ==>
                  P.Before(reports[i], reports[j], wide))
  {
    RunKeeps(throttleMs, run, wide);
    var sys := Reached(throttleMs, run);
    forall i | 0 <= i < |sys.heard[s]|
      ensures sys.heard[s][i].no < |sys.pipe.received| && sys.pipe.received[sys.heard[s][i].no] == sys.heard[s][i]
    {
      var r := sys.heard[s][i];
      var k :| 0 <= k < |P.Sent(sys.pipe, r.driver)| && P.Sent(sys.pipe, r.driver)[k] == r;
      P.SentIsInLine(sys.pipe, r.driver, k);
    }
  }
}
