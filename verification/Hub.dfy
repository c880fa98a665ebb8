// Subscriptions as values (core/src/ws/subscriptions.ts, core/src/routes/ws.ts): who is registered
// for what, what has been written to each socket, and what every operation changes. The operations
// are functions; every run of them keeps each subscriber's client in step with the server.

module Hub {
  import opened Wrappers
  import opened Numbers
  import opened DriverLocks
  import opened TripRows
  import opened Delta
  import opened Tracking

  type SocketId = nat

  /** A registration; `since` is how much had been written to the socket when it was made. */
  datatype Sub = Sub(driverId: Option<DriverId>, tripId: Option<TripId>, lastSent: Option<Known>, since: nat)

  /** `outbox` holds what was written to each socket while it was open, in order. */
  datatype Hub = Hub(subs: map<SocketId, Sub>, open: set<SocketId>, outbox: map<SocketId, seq<ServerMessage>>)

  const EMPTY := Hub(map[], {}, map[])

  // ---- Operations -----------------------------------------------------------------------------

  /** `sendJson`: nothing is written to a socket that is not open. */
  function Write(h: Hub, s: SocketId, m: ServerMessage): Hub {
    if s in h.open && s in h.outbox then h.(outbox := h.outbox[s := h.outbox[s] + [m]]) else h
  }

  function Opened(h: Hub, s: SocketId): Hub {
    h.(open := h.open + {s}, outbox := h.outbox[s := [Connected]])
  }

  /** Replaces whatever the socket was subscribed to. */
  function Registered(h: Hub, s: SocketId, driverId: Option<DriverId>, tripId: Option<TripId>): Hub
    requires s in h.outbox
  {
    h.(subs := h.subs[s := Sub(driverId, tripId, None, |h.outbox[s]|)])
  }

  function Subscribe(h: Hub, s: SocketId, driverId: Option<DriverId>, tripId: Option<TripId>): Hub
    requires s in h.outbox
  {
    Write(Registered(h, s, driverId, tripId), s, Subscribed(tripId, driverId))
  }

  function Detached(h: Hub, s: SocketId): Hub {
    h.(subs := h.subs - {s})
  }

  function Closed(h: Hub, s: SocketId): Hub {
    Detached(h, s).(open := h.open - {s})
  }

  predicate Hears(h: Hub, s: SocketId, d: DriverId) {
    s in h.subs && h.subs[s].driverId == Some(d)
  }

  predicate Follows(h: Hub, s: SocketId, t: TripId) {
    s in h.subs && h.subs[s].tripId == Some(t)
  }

  /** One subscriber gets a location: encoded against what it was last sent, then remembered. */
  function Deliver(h: Hub, s: SocketId, d: DriverId, u: Update): Hub
    requires s in h.subs
  {
    var sub := h.subs[s];
    Write(h, s, Location(Encode(sub.lastSent, d, u))).(subs := h.subs[s := sub.(lastSent := Some(Sent(u)))])
  }

  /** A broadcast: exactly the driver's subscribers get exactly one location each. */
  function Broadcast(h: Hub, d: DriverId, u: Update): Hub {
    Hub(map s | s in h.subs :: if Hears(h, s, d) then h.subs[s].(lastSent := Some(Sent(u))) else h.subs[s],
        h.open,
        map s | s in h.outbox ::
          if Hears(h, s, d) && s in h.open then h.outbox[s] + [Location(Encode(h.subs[s].lastSent, d, u))]
          else h.outbox[s])
  }

  /** A match: the trip's subscribers now follow the driver, and are told. */
  function Rematched(h: Hub, t: TripId, d: DriverId): Hub {
    Hub(map s | s in h.subs :: if Follows(h, s, t) then h.subs[s].(driverId := Some(d)) else h.subs[s],
        h.open,
        map s | s in h.outbox ::
          if Follows(h, s, t) && s in h.open then h.outbox[s] + [TripMatched(t, Some(d))] else h.outbox[s])
  }

  /** An end: the trip's subscribers are told and removed. */
  function Ended(h: Hub, t: TripId, reason: EndReason): Hub {
    Hub(map s | s in h.subs && !Follows(h, s, t) :: h.subs[s],
        h.open,
        map s | s in h.outbox ::
          if Follows(h, s, t) && s in h.open then h.outbox[s] + [Unsubscribed(reason)] else h.outbox[s])
  }

  // ---- The client of every subscriber ---------------------------------------------------------

  function Messages(h: Hub, s: SocketId): seq<ServerMessage>
    requires s in h.subs && s in h.outbox && h.subs[s].since <= |h.outbox[s]|
  {
    h.outbox[s][h.subs[s].since..]
  }

  /** A fresh client that has received everything written since the subscription follows the same
      driver, shows the trip matched exactly if there is one, knows the driver's last status, and is off
      by at most half a quantum per delta; it is exact if all positions are known to lie on the grid. */
  ghost predicate InSync(sub: Sub, messages: seq<ServerMessage>, grid: bool) {
    var r := Client(messages);
    && r.Ok?
    && r.value.driverId == sub.driverId
    && r.value.status == (if sub.driverId.Some? then Matched else Requested)
    && (sub.lastSent.None? ==> r.value.driverPosition.None? && Deltas(messages) == 0)
    && InStep(sub.lastSent, r.value.driverPosition, Deltas(messages))
    && (grid && sub.lastSent.Some? ==>
          GridPoint(sub.lastSent.value) && r.value.driverPosition == sub.lastSent)
  }

  ghost predicate HubInv(h: Hub, grid: bool) {
    && h.open <= h.outbox.Keys
    && (forall s :: s in h.subs ==> s in h.outbox && h.subs[s].since <= |h.outbox[s]|)
    && (forall s :: s in h.subs && s in h.open ==> InSync(h.subs[s], Messages(h, s), grid))
  }

  // Each kind of message keeps a client in sync with the registration it goes with.

  lemma AckSyncs(driverId: Option<DriverId>, tripId: Option<TripId>, since: nat, grid: bool)
    ensures InSync(Sub(driverId, tripId, None, since), [Subscribed(tripId, driverId)], grid)
  {
    ClientAppend([], Subscribed(tripId, driverId));
    DeltasAppend([], Subscribed(tripId, driverId));
    assert [] + [Subscribed(tripId, driverId)] == [Subscribed(tripId, driverId)];
  }

  lemma LocationSyncs(sub: Sub, messages: seq<ServerMessage>, d: DriverId, u: Update, grid: bool)
    requires InSync(sub, messages, grid) && sub.driverId == Some(d) && (grid ==> GridPoint(Sent(u)))
    ensures InSync(sub.(lastSent := Some(Sent(u))), messages + [Location(Encode(sub.lastSent, d, u))], grid)
  {
    var m := Location(Encode(sub.lastSent, d, u));
    ClientAppend(messages, m);
    DeltasAppend(messages, m);
    HopKeepsStep(sub.lastSent, Client(messages).value.driverPosition, Deltas(messages), d, u);
    if grid && sub.lastSent.Some? {
      GridHopIsExact(sub.lastSent.value, d, u);
    }
  }

  lemma MatchSyncs(sub: Sub, messages: seq<ServerMessage>, t: TripId, d: DriverId, grid: bool)
    requires InSync(sub, messages, grid)
    ensures InSync(sub.(driverId := Some(d)), messages + [TripMatched(t, Some(d))], grid)
  {
    ClientAppend(messages, TripMatched(t, Some(d)));
    DeltasAppend(messages, TripMatched(t, Some(d)));
  }

  /** Refusals and the acknowledgement of an unsubscribe say nothing about position or driver. */
  lemma ReplySyncs(sub: Sub, messages: seq<ServerMessage>, m: ServerMessage, grid: bool)
    requires InSync(sub, messages, grid) && (m.ErrorReply? || m == Unsubscribed(ClientRequested))
    ensures InSync(sub, messages + [m], grid)
  {
    ClientAppend(messages, m);
    DeltasAppend(messages, m);
  }

  lemma MessagesAppend(outbox: seq<ServerMessage>, since: nat, m: ServerMessage)
    requires since <= |outbox|
    ensures (outbox + [m])[since..] == outbox[since..] + [m]
  {
  }

  // ---- Every run of operations ----------------------------------------------------------------

  datatype Op =
    | Open(s: SocketId)
    | Close(s: SocketId)
    | SubscribeOp(s: SocketId, driverId: Option<DriverId>, tripId: Option<TripId>)
    | Refuse(s: SocketId, alreadyEnded: bool)
    | UnsubscribeOp(s: SocketId)
    | BroadcastOp(d: DriverId, u: Update)
    | MatchOp(t: TripId, d: DriverId)
    | EndOp(t: TripId, reason: EndReason)

  predicate OpAllowed(h: Hub, op: Op) {
    match op
    case Open(s) => s !in h.outbox
    case SubscribeOp(s, _, _) => s in h.outbox
    case EndOp(_, reason) => reason != ClientRequested
    case _ => true
  }

  function Apply(h: Hub, op: Op): Hub
    requires OpAllowed(h, op)
  {
    match op
    case Open(s) => Opened(h, s)
    case Close(s) => Closed(h, s)
    case SubscribeOp(s, driverId, tripId) => Subscribe(h, s, driverId, tripId)
    case Refuse(s, alreadyEnded) => Write(h, s, ErrorReply(alreadyEnded))
    case UnsubscribeOp(s) => Write(Detached(h, s), s, Unsubscribed(ClientRequested))
    case BroadcastOp(d, u) => Broadcast(h, d, u)
    case MatchOp(t, d) => Rematched(h, t, d)
    case EndOp(t, reason) => Ended(h, t, reason)
  }

  lemma SubscribeKeeps(h: Hub, s: SocketId, driverId: Option<DriverId>, tripId: Option<TripId>, grid: bool)
    requires HubInv(h, grid) && s in h.outbox
    ensures HubInv(Subscribe(h, s, driverId, tripId), grid)
  {
    var h' := Subscribe(h, s, driverId, tripId);
    AckSyncs(driverId, tripId, |h.outbox[s]|, grid);
    MessagesAppend(h.outbox[s], |h.outbox[s]|, Subscribed(tripId, driverId));
    forall s' | s' in h'.subs && s' in h'.open ensures InSync(h'.subs[s'], Messages(h', s'), grid) {
      if s' == s {
        assert Messages(h', s) == [Subscribed(tripId, driverId)];
      } else {
        assert h'.subs[s'] == h.subs[s'] && Messages(h', s') == Messages(h, s');
      }
    }
  }

  lemma ReplyKeeps(h: Hub, s: SocketId, m: ServerMessage, grid: bool)
    requires HubInv(h, grid) && (m.ErrorReply? || m == Unsubscribed(ClientRequested))
    ensures HubInv(Write(h, s, m), grid)
  {
    var h' := Write(h, s, m);
    forall s' | s' in h'.subs && s' in h'.open ensures InSync(h'.subs[s'], Messages(h', s'), grid) {
      if s' == s {
        MessagesAppend(h.outbox[s], h.subs[s].since, m);
        ReplySyncs(h.subs[s], Messages(h, s), m, grid);
      } else {
        assert Messages(h', s') == Messages(h, s');
      }
    }
  }

  lemma BroadcastKeeps(h: Hub, d: DriverId, u: Update, grid: bool)
    requires HubInv(h, grid) && (grid ==> GridPoint(Sent(u)))
    ensures HubInv(Broadcast(h, d, u), grid)
  {
    var h' := Broadcast(h, d, u);
    forall s | s in h'.subs && s in h'.open ensures InSync(h'.subs[s], Messages(h', s), grid) {
      if Hears(h, s, d) {
        MessagesAppend(h.outbox[s], h.subs[s].since, Location(Encode(h.subs[s].lastSent, d, u)));
        LocationSyncs(h.subs[s], Messages(h, s), d, u, grid);
      } else {
        assert Messages(h', s) == Messages(h, s);
      }
    }
  }

  lemma MatchKeeps(h: Hub, t: TripId, d: DriverId, grid: bool)
    requires HubInv(h, grid)
    ensures HubInv(Rematched(h, t, d), grid)
  {
    var h' := Rematched(h, t, d);
    forall s | s in h'.subs && s in h'.open ensures InSync(h'.subs[s], Messages(h', s), grid) {
      if Follows(h, s, t) {
        MessagesAppend(h.outbox[s], h.subs[s].since, TripMatched(t, Some(d)));
        MatchSyncs(h.subs[s], Messages(h, s), t, d, grid);
      } else {
        assert Messages(h', s) == Messages(h, s);
      }
    }
  }

  lemma EndKeeps(h: Hub, t: TripId, reason: EndReason, grid: bool)
    requires HubInv(h, grid)
    ensures HubInv(Ended(h, t, reason), grid)
  {
    var h' := Ended(h, t, reason);
    forall s | s in h'.subs && s in h'.open ensures InSync(h'.subs[s], Messages(h', s), grid) {
      assert Messages(h', s) == Messages(h, s);
    }
  }

  lemma RemovalKeeps(h: Hub, h': Hub, grid: bool)
    requires HubInv(h, grid) && h'.outbox == h.outbox && h'.open <= h.open
    requires forall s :: s in h'.subs ==> s in h.subs && h'.subs[s] == h.subs[s]
    ensures HubInv(h', grid)
  {
    forall s | s in h'.subs && s in h'.open ensures InSync(h'.subs[s], Messages(h', s), grid) {
      assert Messages(h', s) == Messages(h, s);
    }
  }

  lemma OpenKeeps(h: Hub, s: SocketId, grid: bool)
    requires HubInv(h, grid) && s !in h.outbox
    ensures HubInv(Opened(h, s), grid)
  {
    var h' := Opened(h, s);
    forall s' | s' in h'.subs && s' in h'.open ensures InSync(h'.subs[s'], Messages(h', s'), grid) {
      assert Messages(h', s') == Messages(h, s');
    }
  }

  /** A broadcast, if it is one, is of a position on the quantization grid. */
  ghost predicate OnGridOp(op: Op) {
    op.BroadcastOp? ==> GridPoint(Sent(op.u))
  }

  lemma OpKeeps(h: Hub, op: Op, grid: bool)
    requires HubInv(h, grid) && OpAllowed(h, op) && (grid ==> OnGridOp(op))
    ensures HubInv(Apply(h, op), grid)
  {
    match op {
      case Open(s) => OpenKeeps(h, s, grid);
      case Close(s) => RemovalKeeps(h, Closed(h, s), grid);
      case SubscribeOp(s, driverId, tripId) => SubscribeKeeps(h, s, driverId, tripId, grid);
      case Refuse(s, alreadyEnded) => ReplyKeeps(h, s, ErrorReply(alreadyEnded), grid);
      case UnsubscribeOp(s) =>
        RemovalKeeps(h, Detached(h, s), grid);
        ReplyKeeps(Detached(h, s), s, Unsubscribed(ClientRequested), grid);
      case BroadcastOp(d, u) => BroadcastKeeps(h, d, u, grid);
      case MatchOp(t, d) => MatchKeeps(h, t, d, grid);
      case EndOp(t, reason) => EndKeeps(h, t, reason, grid);
    }
  }

  ghost predicate Allowed(h: Hub, ops: seq<Op>)
    decreases |ops|
  {
    |ops| == 0 || (OpAllowed(h, ops[0]) && Allowed(Apply(h, ops[0]), ops[1..]))
  }

  ghost function AfterOps(h: Hub, ops: seq<Op>): Hub
    requires Allowed(h, ops)
    decreases |ops|
  {
    if |ops| == 0 then h else AfterOps(Apply(h, ops[0]), ops[1..])
  }

  lemma {:induction false} OpsKeep(h: Hub, ops: seq<Op>, grid: bool)
    requires HubInv(h, grid) && Allowed(h, ops) && (grid ==> forall i :: 0 <= i < |ops| ==> OnGridOp(ops[i]))
    ensures HubInv(AfterOps(h, ops), grid)
    decreases |ops|
  {
    if |ops| > 0 {
      OpKeeps(h, ops[0], grid);
      OpsKeep(Apply(h, ops[0]), ops[1..], grid);
    }
  }

  /** Over a whole subscription, whatever else happens: the client of an open subscribed socket never
      meets a delta without a base, follows the driver the server sends it and shows the trip matched
      exactly if there is one, has the last driver status it was sent, and is off by at most half a
      quantum per delta received on each axis. */
  lemma SubscriberInStep(ops: seq<Op>, s: SocketId)
    requires Allowed(EMPTY, ops)
    requires s in AfterOps(EMPTY, ops).subs && s in AfterOps(EMPTY, ops).open
    ensures var h := AfterOps(EMPTY, ops);
            && s in h.outbox && h.subs[s].since <= |h.outbox[s]|
            && var sub, messages := h.subs[s], Messages(h, s);
            && Client(messages).Ok?
            && var client := Client(messages).value;
            && client.driverId == sub.driverId
            && (sub.driverId.Some? ==> client.status == Matched)
            && (sub.driverId.None? ==> client.status == Requested)
            && (client.driverPosition.None? <==> sub.lastSent.None?)
            && (sub.lastSent.Some? ==>
                  && client.driverPosition.value.status == sub.lastSent.value.status
                  && AbsReal(client.driverPosition.value.lat - sub.lastSent.value.lat) <= Deltas(messages) as real * STEP / 2.0
                  && AbsReal(client.driverPosition.value.lng - sub.lastSent.value.lng) <= Deltas(messages) as real * STEP / 2.0)
  {
    OpsKeep(EMPTY, ops, false);
  }

  /** Whoever is not subscribed to the trip keeps its registration and gets no message. */
  ghost predicate OthersUntouched(h: Hub, h': Hub, t: TripId) {
    && (forall s :: s in h.subs && h.subs[s].tripId != Some(t) ==> s in h'.subs && h'.subs[s] == h.subs[s])
    && (forall s :: s in h.outbox && !(s in h.subs && h.subs[s].tripId == Some(t)) ==> s in h'.outbox && h'.outbox[s] == h.outbox[s])
    && h'.open == h.open
  }

  /** When a trip is matched, after any operations, each open subscriber of it is told once, by a message
      that names trip and driver, and then shows the trip matched to that driver, with the position it had. */
  lemma MatchedSubscriberSees(ops: seq<Op>, t: TripId, d: DriverId, s: SocketId)
    requires Allowed(EMPTY, ops)
    requires s in AfterOps(EMPTY, ops).subs && s in AfterOps(EMPTY, ops).open && AfterOps(EMPTY, ops).subs[s].tripId == Some(t)
    ensures var h := AfterOps(EMPTY, ops);
            var h' := Apply(h, MatchOp(t, d));
            && s in h.outbox && h.subs[s].since <= |h.outbox[s]|
            && s in h'.subs && s in h'.outbox && h'.subs[s] == h.subs[s].(driverId := Some(d))
            && h'.subs[s].since <= |h'.outbox[s]|
            && Messages(h', s) == Messages(h, s) + [TripMatched(t, Some(d))]
            && Client(Messages(h, s)).Ok?
            && Client(Messages(h', s)) == Ok(Client(Messages(h, s)).value.(status := Matched, driverId := Some(d)))
            && OthersUntouched(h, h', t)
  {
    var h := AfterOps(EMPTY, ops);
    OpsKeep(EMPTY, ops, false);
    ClientAppend(Messages(h, s), TripMatched(t, Some(d)));
    MessagesAppend(h.outbox[s], h.subs[s].since, TripMatched(t, Some(d)));
  }

  /** What a subscriber of a trip that ends has received: everything of its subscription and the end. */
  function LastMessages(h: Hub, s: SocketId, reason: EndReason): seq<ServerMessage>
    requires s in h.subs && s in h.outbox && h.subs[s].since <= |h.outbox[s]|
  {
    Messages(h, s) + [Unsubscribed(reason)]
  }

  /** When a trip ends, after any operations, each open subscriber of it is told once, is registered no
      more, and shows the trip completed or cancelled as the reason says, with the driver and position it
      had; it goes on to fetch the final state exactly if the trip was cancelled. */
  lemma EndedSubscriberSees(ops: seq<Op>, t: TripId, reason: EndReason, s: SocketId)
    requires Allowed(EMPTY, ops) && reason != ClientRequested
    requires s in AfterOps(EMPTY, ops).subs && s in AfterOps(EMPTY, ops).open && AfterOps(EMPTY, ops).subs[s].tripId == Some(t)
    ensures var h := AfterOps(EMPTY, ops);
            var h' := Apply(h, EndOp(t, reason));
            && s in h.outbox && h.subs[s].since <= |h.outbox[s]|
            && s !in h'.subs && s in h'.outbox && h'.outbox[s][h.subs[s].since..] == LastMessages(h, s, reason)
            && var before, after := Client(Messages(h, s)), Client(LastMessages(h, s, reason));
            && before.Ok? && after.Ok?
            && (reason == TripCompleted ==> after.value.status == Completed)
            && (reason == TripCancelled ==> after.value.status == Cancelled)
            && after.value.driverId == before.value.driverId && after.value.driverPosition == before.value.driverPosition
            && EffectOfLast(LastMessages(h, s, reason)) == (if reason == TripCancelled then ResolveFinalState else NoEffect)
            && OthersUntouched(h, h', t)
  {
    var h := AfterOps(EMPTY, ops);
    OpsKeep(EMPTY, ops, false);
    ClientAppend(Messages(h, s), Unsubscribed(reason));
    MessagesAppend(h.outbox[s], h.subs[s].since, Unsubscribed(reason));
  }

  /** An open subscriber whose request is refused keeps all it shows, and goes on to fetch the final state
      exactly if the refusal says that the trip has already ended. */
  lemma RefusedSubscriberSees(ops: seq<Op>, s: SocketId, alreadyEnded: bool)
    requires Allowed(EMPTY, ops)
    requires s in AfterOps(EMPTY, ops).subs && s in AfterOps(EMPTY, ops).open
    ensures var h := AfterOps(EMPTY, ops);
            var h' := Apply(h, Refuse(s, alreadyEnded));
            && s in h.outbox && h.subs[s].since <= |h.outbox[s]|
            && s in h'.outbox && h'.subs == h.subs && h'.subs[s].since <= |h'.outbox[s]|
            && Messages(h', s) == Messages(h, s) + [ErrorReply(alreadyEnded)]
            && Client(Messages(h', s)) == Client(Messages(h, s)) && Client(Messages(h, s)).Ok?
            && (EffectOfLast(Messages(h', s)) == ResolveFinalState <==> alreadyEnded)
  {
    var h := AfterOps(EMPTY, ops);
    OpsKeep(EMPTY, ops, false);
    ClientAppend(Messages(h, s), ErrorReply(alreadyEnded));
    MessagesAppend(h.outbox[s], h.subs[s].since, ErrorReply(alreadyEnded));
  }

  /** When every position broadcast lies on the quantization grid, the client is exact throughout. */
  lemma GridSubscriberExact(ops: seq<Op>, s: SocketId)
    requires Allowed(EMPTY, ops) && forall i :: 0 <= i < |ops| ==> OnGridOp(ops[i])
    requires s in AfterOps(EMPTY, ops).subs && s in AfterOps(EMPTY, ops).open
    ensures var h := AfterOps(EMPTY, ops);
            && s in h.outbox && h.subs[s].since <= |h.outbox[s]|
            && Client(Messages(h, s)).Ok?
            && Client(Messages(h, s)).value.driverPosition == h.subs[s].lastSent
  {
    OpsKeep(EMPTY, ops, true);
  }
}
