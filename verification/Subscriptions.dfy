// The subscription registry as it is kept (core/src/ws/subscriptions.ts): three maps over shared
// mutable records, indexed by driver, by trip and by socket. Every method is proved to do what the
// operation of module Hub says, and to keep the indexes exact.

module KeyedIndex {
  import opened Wrappers

  type Index<!T> = map<nat, set<T>>

  /** `index` is the inverse of `key`: it holds each record under its key, nothing else, and no empty set. */
  ghost predicate Inverts<T>(index: Index<T>, key: map<T, Option<nat>>) {
    && (forall k :: k in index ==> index[k] != {})
    && (forall k, i :: k in index && i in index[k] ==> i in key && key[i] == Some(k))
    && (forall i :: i in key && key[i].Some? ==> key[i].value in index && i in index[key[i].value])
  }

  function Bucket<T>(index: Index<T>, k: nat): set<T> {
    if k in index then index[k] else {}
  }

  function Add<T>(index: Index<T>, k: nat, i: T): Index<T> {
    index[k := Bucket(index, k) + {i}]
  }

  /** A set that becomes empty is dropped. */
  function Remove<T>(index: Index<T>, k: nat, i: T): Index<T> {
    if k !in index then index
    else if index[k] - {i} == {} then index - {k}
    else index[k := index[k] - {i}]
  }

  /** The stored set for a key is exactly the set of records with that key. */
  lemma BucketIsExact<T>(index: Index<T>, key: map<T, Option<nat>>, k: nat)
    requires Inverts(index, key)
    ensures Bucket(index, k) == set i | i in key && key[i] == Some(k)
    ensures k in index <==> exists i :: i in key && key[i] == Some(k)
  {
    if k in index {
      var i :| i in index[k];
      assert i in key && key[i] == Some(k);
    }
  }

  lemma AddInverts<T>(index: Index<T>, key: map<T, Option<nat>>, k: Option<nat>, i: T)
    requires Inverts(index, key) && i !in key
    ensures Inverts(match k case Some(v) => Add(index, v, i) case None => index, key[i := k])
  {
  }

  lemma RemoveInverts<T>(index: Index<T>, key: map<T, Option<nat>>, i: T)
    requires Inverts(index, key) && i in key
    ensures Inverts(match key[i] case Some(k) => Remove(index, k, i) case None => index, key - {i})
  {
  }

  lemma ValuesWithout<T>(m: map<nat, T>, s: nat)
    requires s in m && forall a, b :: a in m && b in m && m[a] == m[b] ==> a == b
    ensures (m - {s}).Values == m.Values - {m[s]}
  {
    forall v | v in m.Values - {m[s]} ensures v in (m - {s}).Values {
      var a :| a in m && m[a] == v;
      assert a in m - {s};
    }
  }

  lemma ValuesWith<T>(m: map<nat, T>, s: nat, v: T)
    requires s !in m
    ensures m[s := v].Values == m.Values + {v}
  {
    forall w | w in m.Values + {v} ensures w in m[s := v].Values {
      if w == v {
        assert s in m[s := v];
      } else {
        var a :| a in m && m[a] == w;
        assert a in m[s := v];
      }
    }
  }

  /** Moving a record from its key to another: the re-indexing of a matched subscriber. */
  lemma MoveInverts<T>(index: Index<T>, key: map<T, Option<nat>>, i: T, k: nat)
    requires Inverts(index, key) && i in key
    ensures Inverts(Add(match key[i] case Some(j) => Remove(index, j, i) case None => index, k, i), key[i := Some(k)])
  {
    RemoveInverts(index, key, i);
    AddInverts(match key[i] case Some(j) => Remove(index, j, i) case None => index, key - {i}, Some(k), i);
    assert (key - {i})[i := Some(k)] == key[i := Some(k)];
  }
}

module Subscriptions {
  import opened Wrappers
  import opened DriverLocks
  import opened TripRows
  import opened Delta
  import opened Tracking
  import opened Hub
  import opened KeyedIndex

  class SubscriberInfo {
    const socket: SocketId
    const tripId: Option<TripId>
    ghost const since: nat
    var driverId: Option<DriverId>
    var lastSent: Option<Known>

    constructor (socket: SocketId, driverId: Option<DriverId>, tripId: Option<TripId>, ghost since: nat)
      ensures AsSub() == Sub(driverId, tripId, None, since) && this.socket == socket
    {
      this.socket, this.tripId, this.since := socket, tripId, since;
      this.driverId, this.lastSent := driverId, None;
    }

    ghost function AsSub(): Sub
      reads this
    {
      Sub(driverId, tripId, lastSent, since)
    }
  }

  // ---- Notifications, one subscriber at a time ------------------------------------------------

  ghost function Members(order: seq<SocketId>): set<SocketId> {
    set s | s in order
  }

  ghost predicate Distinct(order: seq<SocketId>) {
    forall i, j :: 0 <= i < j < |order| ==> order[i] != order[j]
  }

  ghost function Hearers(h: Hub, d: DriverId): set<SocketId> {
    set s | s in h.subs && h.subs[s].driverId == Some(d)
  }

  lemma RegisteredAfresh(h: Hub, s: SocketId, driverId: Option<DriverId>, tripId: Option<TripId>)
    requires s in h.outbox
    ensures Registered(Detached(h, s), s, driverId, tripId) == Registered(h, s, driverId, tripId)
  {
  }

  ghost function LocationsTo(h: Hub, to: set<SocketId>, d: DriverId, u: Update): Hub {
    Hub(map s | s in h.subs :: if s in to then h.subs[s].(lastSent := Some(Sent(u))) else h.subs[s],
        h.open,
        map s | s in h.outbox ::
          if s in to && s in h.subs && s in h.open then h.outbox[s] + [Location(Encode(h.subs[s].lastSent, d, u))]
          else h.outbox[s])
  }

  /** A broadcast as it is made: one subscriber after another, in some order. */
  ghost function Deliveries(h: Hub, order: seq<SocketId>, d: DriverId, u: Update): (r: Hub)
    requires forall s :: s in order ==> s in h.subs
    ensures r.subs.Keys == h.subs.Keys
  {
    if order == [] then h
    else
      var before := order[..|order| - 1];
      assert forall s :: s in before ==> s in order;
      Deliver(Deliveries(h, before, d, u), order[|order| - 1], d, u)
  }

  lemma LocationsToOneMore(h: Hub, to: set<SocketId>, s: SocketId, d: DriverId, u: Update)
    requires s in h.subs && s !in to
    ensures Deliver(LocationsTo(h, to, d, u), s, d, u) == LocationsTo(h, to + {s}, d, u)
  {
    var h1, h2 := Deliver(LocationsTo(h, to, d, u), s, d, u), LocationsTo(h, to + {s}, d, u);
    assert h1.subs == h2.subs;
    assert h1.outbox == h2.outbox;
  }

  lemma DeliveryNext(h: Hub, order: seq<SocketId>, s: SocketId, d: DriverId, u: Update)
    requires s in h.subs && forall x :: x in order ==> x in h.subs
    ensures forall x :: x in order + [s] ==> x in h.subs
    ensures Deliveries(h, order + [s], d, u) == Deliver(Deliveries(h, order, d, u), s, d, u)
  {
    assert (order + [s])[..|order|] == order;
  }

  lemma {:induction false} DeliveriesAre(h: Hub, order: seq<SocketId>, d: DriverId, u: Update)
    requires Distinct(order) && forall s :: s in order ==> s in h.subs
    ensures Deliveries(h, order, d, u) == LocationsTo(h, Members(order), d, u)
  {
    if order == [] {
      assert LocationsTo(h, {}, d, u).subs == h.subs && LocationsTo(h, {}, d, u).outbox == h.outbox;
      assert Members(order) == {};
    } else {
      var before, s := order[..|order| - 1], order[|order| - 1];
      DeliveriesAre(h, before, d, u);
      LocationsToOneMore(h, Members(before), s, d, u);
      assert Members(order) == Members(before) + {s};
    }
  }

  lemma LocationsToAll(h: Hub, d: DriverId, u: Update)
    ensures LocationsTo(h, Hearers(h, d), d, u) == Broadcast(h, d, u)
  {
    assert LocationsTo(h, Hearers(h, d), d, u).subs == Broadcast(h, d, u).subs;
    assert LocationsTo(h, Hearers(h, d), d, u).outbox == Broadcast(h, d, u).outbox;
  }

  /** The order does not matter: any enumeration of the driver's subscribers gives the broadcast. */
  lemma BroadcastInAnyOrder(h: Hub, order: seq<SocketId>, d: DriverId, u: Update)
    requires Distinct(order) && Members(order) == Hearers(h, d)
    ensures forall s :: s in order ==> s in h.subs
    ensures Deliveries(h, order, d, u) == Broadcast(h, d, u)
  {
    assert forall s :: s in order ==> s in Members(order);
    DeliveriesAre(h, order, d, u);
    LocationsToAll(h, d, u);
  }

  ghost function Followers(h: Hub, t: TripId): set<SocketId> {
    set s | s in h.subs && h.subs[s].tripId == Some(t)
  }

  ghost function Reassigned(h: Hub, s: SocketId, d: DriverId): Hub
    requires s in h.subs
  {
    h.(subs := h.subs[s := h.subs[s].(driverId := Some(d))])
  }

  ghost function MatchesTo(h: Hub, to: set<SocketId>, t: TripId, d: DriverId): Hub {
    Hub(map s | s in h.subs :: if s in to then h.subs[s].(driverId := Some(d)) else h.subs[s],
        h.open,
        map s | s in h.outbox ::
          if s in to && s in h.open then h.outbox[s] + [TripMatched(t, Some(d))] else h.outbox[s])
  }

  ghost function MatchOne(h: Hub, s: SocketId, t: TripId, d: DriverId): Hub
    requires s in h.subs
  {
    Write(Reassigned(h, s, d), s, TripMatched(t, Some(d)))
  }

  ghost function MatchNotices(h: Hub, order: seq<SocketId>, t: TripId, d: DriverId): (r: Hub)
    requires forall s :: s in order ==> s in h.subs
    ensures r.subs.Keys == h.subs.Keys
  {
    if order == [] then h
    else
      var before := order[..|order| - 1];
      assert forall s :: s in before ==> s in order;
      MatchOne(MatchNotices(h, before, t, d), order[|order| - 1], t, d)
  }

  lemma MatchesToOneMore(h: Hub, to: set<SocketId>, s: SocketId, t: TripId, d: DriverId)
    requires s in h.subs && s !in to
    ensures MatchOne(MatchesTo(h, to, t, d), s, t, d) == MatchesTo(h, to + {s}, t, d)
  {
    var h1, h2 := MatchOne(MatchesTo(h, to, t, d), s, t, d), MatchesTo(h, to + {s}, t, d);
    assert h1.subs == h2.subs;
    assert h1.outbox == h2.outbox;
  }

  lemma MatchNoticeNext(h: Hub, order: seq<SocketId>, s: SocketId, t: TripId, d: DriverId)
    requires s in h.subs && forall x :: x in order ==> x in h.subs
    ensures forall x :: x in order + [s] ==> x in h.subs
    ensures MatchNotices(h, order + [s], t, d) == MatchOne(MatchNotices(h, order, t, d), s, t, d)
  {
    assert (order + [s])[..|order|] == order;
  }

  lemma {:induction false} MatchNoticesAre(h: Hub, order: seq<SocketId>, t: TripId, d: DriverId)
    requires Distinct(order) && forall s :: s in order ==> s in h.subs
    ensures MatchNotices(h, order, t, d) == MatchesTo(h, Members(order), t, d)
  {
    if order == [] {
      assert MatchesTo(h, {}, t, d).subs == h.subs && MatchesTo(h, {}, t, d).outbox == h.outbox;
      assert Members(order) == {};
    } else {
      var before, s := order[..|order| - 1], order[|order| - 1];
      MatchNoticesAre(h, before, t, d);
      MatchesToOneMore(h, Members(before), s, t, d);
      assert Members(order) == Members(before) + {s};
    }
  }

  lemma MatchesToAll(h: Hub, t: TripId, d: DriverId)
    ensures MatchesTo(h, Followers(h, t), t, d) == Rematched(h, t, d)
  {
    assert MatchesTo(h, Followers(h, t), t, d).subs == Rematched(h, t, d).subs;
    assert MatchesTo(h, Followers(h, t), t, d).outbox == Rematched(h, t, d).outbox;
  }

  lemma RematchInAnyOrder(h: Hub, order: seq<SocketId>, t: TripId, d: DriverId)
    requires Distinct(order) && Members(order) == Followers(h, t)
    ensures forall s :: s in order ==> s in h.subs
    ensures MatchNotices(h, order, t, d) == Rematched(h, t, d)
  {
    assert forall s :: s in order ==> s in Members(order);
    MatchNoticesAre(h, order, t, d);
    MatchesToAll(h, t, d);
  }

  ghost function EndsTo(h: Hub, to: set<SocketId>, reason: EndReason): Hub {
    Hub(h.subs - to,
        h.open,
        map s | s in h.outbox ::
          if s in to && s in h.open then h.outbox[s] + [Unsubscribed(reason)] else h.outbox[s])
  }

  ghost function EndOne(h: Hub, s: SocketId, reason: EndReason): Hub {
    Detached(Write(h, s, Unsubscribed(reason)), s)
  }

  ghost function EndNotices(h: Hub, order: seq<SocketId>, reason: EndReason): Hub {
    if order == [] then h else EndOne(EndNotices(h, order[..|order| - 1], reason), order[|order| - 1], reason)
  }

  lemma EndsToOneMore(h: Hub, to: set<SocketId>, s: SocketId, reason: EndReason)
    requires s !in to
    ensures EndOne(EndsTo(h, to, reason), s, reason) == EndsTo(h, to + {s}, reason)
  {
    var h1, h2 := EndOne(EndsTo(h, to, reason), s, reason), EndsTo(h, to + {s}, reason);
    assert h1.subs == h2.subs;
    assert h1.outbox == h2.outbox;
  }

  lemma EndNoticeNext(h: Hub, order: seq<SocketId>, s: SocketId, reason: EndReason)
    ensures EndNotices(h, order + [s], reason) == EndOne(EndNotices(h, order, reason), s, reason)
  {
    assert (order + [s])[..|order|] == order;
  }

  lemma {:induction false} EndNoticesAre(h: Hub, order: seq<SocketId>, reason: EndReason)
    requires Distinct(order)
    ensures EndNotices(h, order, reason) == EndsTo(h, Members(order), reason)
  {
    if order == [] {
      assert EndsTo(h, {}, reason).subs == h.subs && EndsTo(h, {}, reason).outbox == h.outbox;
      assert Members(order) == {};
    } else {
      var before, s := order[..|order| - 1], order[|order| - 1];
      EndNoticesAre(h, before, reason);
      EndsToOneMore(h, Members(before), s, reason);
      assert Members(order) == Members(before) + {s};
    }
  }

  lemma EndsToAll(h: Hub, t: TripId, reason: EndReason)
    ensures EndsTo(h, Followers(h, t), reason) == Ended(h, t, reason)
  {
    assert EndsTo(h, Followers(h, t), reason).subs == Ended(h, t, reason).subs;
    assert EndsTo(h, Followers(h, t), reason).outbox == Ended(h, t, reason).outbox;
  }

  lemma EndInAnyOrder(h: Hub, order: seq<SocketId>, t: TripId, reason: EndReason)
    requires Distinct(order) && Members(order) == Followers(h, t)
    ensures EndNotices(h, order, reason) == Ended(h, t, reason)
  {
    EndNoticesAre(h, order, reason);
    EndsToAll(h, t, reason);
  }

  // ---- The indexes, given the records ---------------------------------------------------------

  type Sockets = map<SocketId, SubscriberInfo>

  ghost function DriversOf(m: Sockets): map<SubscriberInfo, Option<nat>>
    reads m.Values`driverId
  {
    map i | i in m.Values :: i.driverId
  }

  ghost function TripsOf(m: Sockets): map<SubscriberInfo, Option<nat>> {
    map i | i in m.Values :: i.tripId
  }

  ghost function SubsOf(m: Sockets): map<SocketId, Sub>
    reads m.Values
  {
    map s | s in m :: m[s].AsSub()
  }

  /** Each socket has at most one record, its own, and the driver and trip indexes are exact. */
  ghost predicate Consistent(byDriver: Index<SubscriberInfo>, byTrip: Index<SubscriberInfo>, m: Sockets)
    reads m.Values`driverId
  {
    && (forall s :: s in m ==> m[s].socket == s)
    && Inverts(byDriver, DriversOf(m))
    && Inverts(byTrip, TripsOf(m))
  }

  function Without(index: Index<SubscriberInfo>, key: Option<nat>, info: SubscriberInfo): Index<SubscriberInfo> {
    match key case Some(k) => Remove(index, k, info) case None => index
  }

  function With(index: Index<SubscriberInfo>, key: Option<nat>, info: SubscriberInfo): Index<SubscriberInfo> {
    match key case Some(k) => Add(index, k, info) case None => index
  }

  lemma DetachedIsConsistent(byDriver: Index<SubscriberInfo>, byTrip: Index<SubscriberInfo>, m: Sockets, info: SubscriberInfo)
    requires Consistent(byDriver, byTrip, m) && info.socket in m && m[info.socket] == info
    ensures Consistent(Without(byDriver, info.driverId, info), Without(byTrip, info.tripId, info), m - {info.socket})
    ensures SubsOf(m - {info.socket}) == SubsOf(m) - {info.socket}
  {
    ValuesWithout(m, info.socket);
    RemoveInverts(byDriver, DriversOf(m), info);
    RemoveInverts(byTrip, TripsOf(m), info);
    assert DriversOf(m - {info.socket}) == DriversOf(m) - {info};
    assert TripsOf(m - {info.socket}) == TripsOf(m) - {info};
  }

  lemma AttachedIsConsistent(byDriver: Index<SubscriberInfo>, byTrip: Index<SubscriberInfo>, m: Sockets, info: SubscriberInfo)
    requires Consistent(byDriver, byTrip, m) && info.socket !in m && info !in m.Values
    ensures Consistent(With(byDriver, info.driverId, info), With(byTrip, info.tripId, info), m[info.socket := info])
    ensures SubsOf(m[info.socket := info]) == SubsOf(m)[info.socket := info.AsSub()]
  {
    ValuesWith(m, info.socket, info);
    AddInverts(byDriver, DriversOf(m), info.driverId, info);
    AddInverts(byTrip, TripsOf(m), info.tripId, info);
    assert DriversOf(m[info.socket := info]) == DriversOf(m)[info := info.driverId];
    assert TripsOf(m[info.socket := info]) == TripsOf(m)[info := info.tripId];
  }

  // ---- Walking an index entry -----------------------------------------------------------------

  /** The records of an index entry and a set of sockets are the same registrations. */
  ghost predicate SameRegistrations(entry: set<SubscriberInfo>, sockets: set<SocketId>, m: Sockets) {
    && (forall i :: i in entry ==> i.socket in sockets && i.socket in m && m[i.socket] == i)
    && (forall s :: s in sockets ==> s in m && m[s].socket == s && m[s] in entry)
  }

  lemma DriverEntry(byDriver: Index<SubscriberInfo>, byTrip: Index<SubscriberInfo>, m: Sockets, h: Hub, d: DriverId)
    requires Consistent(byDriver, byTrip, m) && h.subs == SubsOf(m)
    ensures SameRegistrations(Bucket(byDriver, d), Hearers(h, d), m)
  {
    BucketIsExact(byDriver, DriversOf(m), d);
  }

  lemma TripEntry(byDriver: Index<SubscriberInfo>, byTrip: Index<SubscriberInfo>, m: Sockets, h: Hub, t: TripId)
    requires Consistent(byDriver, byTrip, m) && h.subs == SubsOf(m)
    ensures SameRegistrations(Bucket(byTrip, t), Followers(h, t), m)
  {
    BucketIsExact(byTrip, TripsOf(m), t);
  }

  /** The sockets visited so far, and the records still to visit. */
  ghost predicate Visited(order: seq<SocketId>, todo: set<SubscriberInfo>, entry: set<SubscriberInfo>, sockets: set<SocketId>) {
    && Distinct(order)
    && todo <= entry
    && (forall i :: i in entry ==> (i in todo <==> i.socket !in order))
    && (forall s :: s in order ==> s in sockets)
  }

  lemma VisitOneMore(order: seq<SocketId>, todo: set<SubscriberInfo>, entry: set<SubscriberInfo>,
                     sockets: set<SocketId>, m: Sockets, info: SubscriberInfo)
    requires SameRegistrations(entry, sockets, m) && Visited(order, todo, entry, sockets) && info in todo
    ensures Visited(order + [info.socket], todo - {info}, entry, sockets)
    ensures info.socket in m && m[info.socket] == info && info.socket !in order
  {
    forall i | i in entry ensures i in todo - {info} <==> i.socket !in order + [info.socket] {
      assert i.socket == info.socket ==> i == info;
    }
  }

  lemma VisitedAll(order: seq<SocketId>, entry: set<SubscriberInfo>, sockets: set<SocketId>, m: Sockets)
    requires SameRegistrations(entry, sockets, m) && Visited(order, {}, entry, sockets)
    ensures Members(order) == sockets
  {
    forall s | s in sockets ensures s in order {
      assert m[s] in entry;
    }
  }

  class Registry {
    var byDriver: Index<SubscriberInfo>
    var byTrip: Index<SubscriberInfo>
    var bySocket: Sockets
    var open: set<SocketId>
    var outbox: map<SocketId, seq<ServerMessage>>

    ghost predicate Valid()
      reads this`byDriver, this`byTrip, this`bySocket, bySocket.Values`driverId
    {
      Consistent(byDriver, byTrip, bySocket)
    }

    ghost function View(): Hub
      reads this, bySocket.Values
    {
      Hub(SubsOf(bySocket), open, outbox)
    }

    constructor ()
      ensures Valid() && View() == EMPTY
    {
      byDriver, byTrip, bySocket, open, outbox := map[], map[], map[], {}, map[];
    }

    method SendJson(s: SocketId, m: ServerMessage)
      modifies this`outbox
      ensures View() == Write(old(View()), s, m)
    {
      if s in open && s in outbox {
        outbox := outbox[s := outbox[s] + [m]];
      }
    }

    /** Removes a record from every index it is in. */
    method Detach(info: SubscriberInfo)
      requires Valid() && info.socket in bySocket && bySocket[info.socket] == info
      modifies this`byDriver, this`byTrip, this`bySocket
      ensures Valid() && View() == Detached(old(View()), info.socket)
      ensures bySocket == old(bySocket) - {info.socket}
    {
      DetachedIsConsistent(byDriver, byTrip, bySocket, info);
      byDriver := Without(byDriver, info.driverId, info);
      byTrip := Without(byTrip, info.tripId, info);
      bySocket := bySocket - {info.socket};
    }

    method ReplaceExisting(s: SocketId)
      requires Valid()
      modifies this`byDriver, this`byTrip, this`bySocket
      ensures Valid() && View() == Detached(old(View()), s)
      ensures bySocket == old(bySocket) - {s} && bySocket.Values <= old(bySocket.Values)
    {
      if s in bySocket {
        Detach(bySocket[s]);
      }
    }

    /** Puts a new record into every index it belongs in. */
    method Attach(info: SubscriberInfo)
      requires Valid() && info.socket !in bySocket && info !in bySocket.Values
      modifies this`byDriver, this`byTrip, this`bySocket
      ensures Valid() && bySocket.Values == old(bySocket.Values) + {info} && bySocket == old(bySocket)[info.socket := info]
      ensures View() == old(View()).(subs := old(View()).subs[info.socket := info.AsSub()])
    {
      AttachedIsConsistent(byDriver, byTrip, bySocket, info);
      ValuesWith(bySocket, info.socket, info);
      byTrip := With(byTrip, info.tripId, info);
      byDriver := With(byDriver, info.driverId, info);
      bySocket := bySocket[info.socket := info];
    }

    /** A new record for the socket, in place of whatever it had. */
    method Register(s: SocketId, driverId: Option<DriverId>, tripId: Option<TripId>)
      requires Valid() && s in outbox
      modifies this`byDriver, this`byTrip, this`bySocket
      ensures Valid() && View() == Registered(old(View()), s, driverId, tripId)
      ensures fresh(bySocket.Values - old(bySocket.Values)) && bySocket - {s} == old(bySocket) - {s} && s in bySocket
      ensures bySocket[s].driverId == driverId && bySocket[s].tripId == tripId && bySocket[s].lastSent == None
    {
      RegisteredAfresh(View(), s, driverId, tripId);
      ReplaceExisting(s);
      var info := new SubscriberInfo(s, driverId, tripId, |outbox[s]|);
      Attach(info);
    }

    /** Subscribing to a driver or a trip, and the acknowledgement. */
    method SubscribeSocket(s: SocketId, driverId: Option<DriverId>, tripId: Option<TripId>)
      requires Valid() && s in outbox
      modifies this`byDriver, this`byTrip, this`bySocket, this`outbox
      ensures Valid() && View() == Subscribe(old(View()), s, driverId, tripId)
      ensures s in bySocket && bySocket[s].driverId == driverId && bySocket[s].tripId == tripId && bySocket[s].lastSent == None
      ensures bySocket - {s} == old(bySocket) - {s}
      ensures outbox == if s in open then old(outbox)[s := old(outbox)[s] + [Subscribed(tripId, driverId)]] else old(outbox)
      ensures fresh(bySocket.Values - old(bySocket.Values))
    {
      Register(s, driverId, tripId);
      SendJson(s, Subscribed(tripId, driverId));
    }

    method Unsubscribe(s: SocketId) returns (known: bool)
      requires Valid()
      modifies this`byDriver, this`byTrip, this`bySocket
      ensures Valid() && View() == Detached(old(View()), s)
      ensures known <==> s in old(bySocket)
      ensures bySocket == old(bySocket) - {s}
    {
      known := s in bySocket;
      if known {
        Detach(bySocket[s]);
      }
    }

    /** A new connection, greeted. */
    method Connect(s: SocketId)
      requires Valid() && s !in outbox
      modifies this`open, this`outbox
      ensures Valid() && View() == Opened(old(View()), s)
      ensures open == old(open) + {s} && outbox == old(outbox)[s := [Connected]] && bySocket == old(bySocket)
    {
      open, outbox := open + {s}, outbox[s := [Connected]];
    }

    method HandleDisconnect(s: SocketId)
      requires Valid()
      modifies this`byDriver, this`byTrip, this`bySocket, this`open
      ensures Valid() && View() == Closed(old(View()), s)
      ensures bySocket == old(bySocket) - {s} && open == old(open) - {s} && outbox == old(outbox)
    {
      var _ := Unsubscribe(s);
      open := open - {s};
    }

    /** One subscriber's turn in a broadcast. */
    method SendLocation(info: SubscriberInfo, d: DriverId, u: Update)
      requires Valid() && info.socket in bySocket && bySocket[info.socket] == info
      modifies this`outbox, info`lastSent
      ensures Valid() && View() == Deliver(old(View()), info.socket, d, u)
    {
      SendJson(info.socket, Location(Encode(info.lastSent, d, u)));
      info.lastSent := Some(Sent(u));
    }

    /** Each of the driver's subscribers is sent the update against its own last position, once. */
    method BroadcastDriverLocation(d: DriverId, u: Update)
      requires Valid()
      modifies this`outbox, bySocket.Values`lastSent
      ensures Valid() && View() == Broadcast(old(View()), d, u)
    {
      var todo := Bucket(byDriver, d);
      ghost var entry, h, order: seq<SocketId> := todo, View(), [];
      ghost var sockets, m := Hearers(h, d), bySocket;
      DriverEntry(byDriver, byTrip, bySocket, h, d);
      while todo != {}
        invariant SameRegistrations(entry, sockets, m) && Visited(order, todo, entry, sockets)
        invariant forall s :: s in order ==> s in h.subs
        invariant Valid() && View() == Deliveries(h, order, d, u)
      {
        var info :| info in todo;
        VisitOneMore(order, todo, entry, sockets, m, info);
        DeliveryNext(h, order, info.socket, d, u);
        SendLocation(info, d, u);
        todo, order := todo - {info}, order + [info.socket];
      }
      VisitedAll(order, entry, sockets, m);
      BroadcastInAnyOrder(h, order, d, u);
    }

    /** Re-indexes a record onto a newly assigned driver. */
    method Reassign(info: SubscriberInfo, d: DriverId)
      requires Valid() && info.socket in bySocket && bySocket[info.socket] == info
      modifies this`byDriver, info`driverId
      ensures Valid() && View() == Reassigned(old(View()), info.socket, d)
    {
      if info.driverId != Some(d) {
        MoveInverts(byDriver, DriversOf(bySocket), info, d);
        byDriver := Without(byDriver, info.driverId, info);
        info.driverId := Some(d);
        byDriver := Add(byDriver, d, info);
        assert DriversOf(bySocket) == old(DriversOf(bySocket))[info := Some(d)];
      }
    }

    method TellMatched(info: SubscriberInfo, t: TripId, d: DriverId)
      requires Valid() && info.socket in bySocket && bySocket[info.socket] == info
      modifies this`byDriver, this`outbox, info`driverId
      ensures Valid() && View() == MatchOne(old(View()), info.socket, t, d)
    {
      Reassign(info, d);
      SendJson(info.socket, TripMatched(t, Some(d)));
    }

    method TellEnded(info: SubscriberInfo, reason: EndReason)
      requires Valid() && info.socket in bySocket && bySocket[info.socket] == info
      modifies this`byDriver, this`byTrip, this`bySocket, this`outbox
      ensures Valid() && View() == EndOne(old(View()), info.socket, reason)
      ensures bySocket == old(bySocket) - {info.socket}
    {
      SendJson(info.socket, Unsubscribed(reason));
      Detach(info);
    }

    /** Once a trip is matched its subscribers follow the driver, and each is told once. */
    method NotifyTripMatched(t: TripId, d: DriverId)
      requires Valid()
      modifies this`byDriver, this`outbox, bySocket.Values`driverId
      ensures Valid() && View() == Rematched(old(View()), t, d)
    {
      var todo := Bucket(byTrip, t);
      ghost var entry, h, order: seq<SocketId> := todo, View(), [];
      ghost var sockets, m := Followers(h, t), bySocket;
      TripEntry(byDriver, byTrip, bySocket, h, t);
      while todo != {}
        invariant SameRegistrations(entry, sockets, m) && Visited(order, todo, entry, sockets)
        invariant forall s :: s in order ==> s in h.subs
        invariant Valid() && View() == MatchNotices(h, order, t, d)
      {
        var info :| info in todo;
        VisitOneMore(order, todo, entry, sockets, m, info);
        MatchNoticeNext(h, order, info.socket, t, d);
        TellMatched(info, t, d);
        todo, order := todo - {info}, order + [info.socket];
      }
      VisitedAll(order, entry, sockets, m);
      RematchInAnyOrder(h, order, t, d);
    }

    /** Once a trip is over its subscribers are each told once, and removed. */
    method NotifyTripStatusChanged(t: TripId, reason: EndReason)
      requires Valid()
      modifies this`byDriver, this`byTrip, this`bySocket, this`outbox
      ensures Valid() && View() == Ended(old(View()), t, reason)
    {
      var todo := Bucket(byTrip, t);
      ghost var entry, h, order: seq<SocketId> := todo, View(), [];
      ghost var sockets, m := Followers(h, t), bySocket;
      TripEntry(byDriver, byTrip, bySocket, h, t);
      while todo != {}
        invariant SameRegistrations(entry, sockets, m) && Visited(order, todo, entry, sockets)
        invariant forall i :: i in todo ==> i.socket in bySocket && bySocket[i.socket] == i
        invariant Valid() && View() == EndNotices(h, order, reason)
      {
        var info :| info in todo;
        VisitOneMore(order, todo, entry, sockets, m, info);
        EndNoticeNext(h, order, info.socket, reason);
        TellEnded(info, reason);
        todo, order := todo - {info}, order + [info.socket];
      }
      VisitedAll(order, entry, sockets, m);
      EndInAnyOrder(h, order, t, reason);
    }
  }
}
