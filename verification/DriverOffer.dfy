// The driver client's offer state machine (frontend/src/hooks/driverOfferReducer.ts), on its own
// over any events and together with the server's matching protocol.

module DriverOffer {
  import opened Wrappers
  import opened Geohash
  import opened DriverLocks
  import opened TripRows
  import opened Matching
  import opened MatchingSafety
  import opened MatchingOffers
  import opened MatchingRuns

  const CONFIRMATION_GRACE_MS := 2000

  datatype Offer = Offer(tripId: TripId, pickup: LatLng, dropoff: LatLng, offerTimeoutMs: int)

  datatype ExpiryReason = NoResponse | TooLate

  datatype Phase =
    | Idle
    | Offered(offer: Offer, deadlineMs: int)
    | Responding(offer: Offer, deadlineMs: int, graceDeadlineMs: int)
    | Expired(tripId: TripId, reason: ExpiryReason)
    | Declined(tripId: TripId)
    | OnTrip(tripId: TripId, pickup: LatLng, dropoff: LatLng)

  /** A parsed message. A field that is absent, of the wrong type or (for an id) empty is None;
      `Other` is every other value, records or not. */
  datatype Message =
    | TripOfferMessage(tripId: Option<TripId>, pickup: Option<LatLng>, dropoff: Option<LatLng>, offerTimeoutMs: Option<int>)
    | TripMatchedMessage(tripId: Option<TripId>)
    | Other

  datatype Event =
    | Received(message: Message, nowMs: int)
    | Accept
    | Decline
    | DeadlineElapsed
    | GraceElapsed

  datatype ClientEffect = Nothing | SendResponse(tripId: TripId, accept: bool)

  predicate WellFormed(m: Message) {
    m.TripOfferMessage? && m.tripId.Some? && m.pickup.Some? && m.dropoff.Some? && m.offerTimeoutMs.Some?
  }

  function OnMessage(state: Phase, m: Message, nowMs: int): Phase {
    if m.TripOfferMessage? && !state.OnTrip? then
      if !WellFormed(m) then state
      else Offered(Offer(m.tripId.value, m.pickup.value, m.dropoff.value, m.offerTimeoutMs.value),
                   nowMs + m.offerTimeoutMs.value)
    else if m.TripMatchedMessage? && m.tripId.Some? && (state.Offered? || state.Responding?)
            && state.offer.tripId == m.tripId.value then
      OnTrip(m.tripId.value, state.offer.pickup, state.offer.dropoff)
    else state
  }

  function ApplyEvent(state: Phase, e: Event): (r: (Phase, ClientEffect)) {
    match e
    case Received(m, nowMs) => (OnMessage(state, m, nowMs), Nothing)
    case Accept =>
      if !state.Offered? then (state, Nothing)
      else (Responding(state.offer, state.deadlineMs, state.deadlineMs + CONFIRMATION_GRACE_MS),
            SendResponse(state.offer.tripId, true))
    case Decline =>
      if !state.Offered? then (state, Nothing)
      else (Phase.Declined(state.offer.tripId), SendResponse(state.offer.tripId, false))
    case DeadlineElapsed =>
      if !state.Offered? then (state, Nothing) else (Expired(state.offer.tripId, NoResponse), Nothing)
    case GraceElapsed =>
      if !state.Responding? then (state, Nothing) else (Expired(state.offer.tripId, TooLate), Nothing)
  }

  // ---- Any sequence of events -----------------------------------------------------------------

  function Final(state: Phase, events: seq<Event>): Phase
    decreases |events|
  {
    if |events| == 0 then state else Final(ApplyEvent(state, events[0]).0, events[1..])
  }

  /** Responses sent for trip `t`. */
  function Responses(state: Phase, events: seq<Event>, t: TripId): nat
    decreases |events|
  {
    if |events| == 0 then 0
    else
      var (next, effect) := ApplyEvent(state, events[0]);
      (if effect.SendResponse? && effect.tripId == t then 1 else 0) + Responses(next, events[1..], t)
  }

  /** Offers for trip `t` received. */
  function OffersFor(events: seq<Event>, t: TripId): nat {
    if |events| == 0 then 0
    else
      var e := events[0];
      (if e.Received? && WellFormed(e.message) && e.message.tripId == Some(t) then 1 else 0) + OffersFor(events[1..], t)
  }

  /** At most one response is sent per offer received, for each trip. */
  lemma {:induction false} OneResponsePerOffer(state: Phase, events: seq<Event>, t: TripId)
    ensures Responses(state, events, t)
         <= OffersFor(events, t) + (if state.Offered? && state.offer.tripId == t then 1 else 0)
    decreases |events|
  {
    if |events| > 0 {
      OneResponsePerOffer(ApplyEvent(state, events[0]).0, events[1..], t);
    }
  }

  /** Responses sent that say `accept`, for any trip. */
  function Said(state: Phase, events: seq<Event>, accept: bool): nat
    decreases |events|
  {
    if |events| == 0 then 0
    else
      var (next, effect) := ApplyEvent(state, events[0]);
      (if effect.SendResponse? && effect.accept == accept then 1 else 0) + Said(next, events[1..], accept)
  }

  /** How often the driver pressed accept, or decline. */
  function Clicks(events: seq<Event>, accept: bool): nat {
    if |events| == 0 then 0
    else (if events[0] == (if accept then Accept else Decline) then 1 else 0) + Clicks(events[1..], accept)
  }

  /** The client never answers for the driver: every accept sent is an accept pressed, every decline
      a decline pressed. */
  lemma {:induction false} ResponsesAreClicks(state: Phase, events: seq<Event>, accept: bool)
    ensures Said(state, events, accept) <= Clicks(events, accept)
    decreases |events|
  {
    if |events| > 0 {
      ResponsesAreClicks(ApplyEvent(state, events[0]).0, events[1..], accept);
    }
  }

  /** An expired or declined offer stays so until the next offer: no late confirmation, click or timer
      revives it, and nothing more is sent. */
  lemma {:induction false} SettledUntilNextOffer(state: Phase, events: seq<Event>, t: TripId)
    requires state.Idle? || state.Expired? || state.Declined?
    requires forall i :: 0 <= i < |events| && events[i].Received? ==> !WellFormed(events[i].message)
    ensures Final(state, events) == state && Responses(state, events, t) == 0
    decreases |events|
  {
    if |events| > 0 {
      assert ApplyEvent(state, events[0]) == (state, Nothing);
      SettledUntilNextOffer(state, events[1..], t);
    }
  }

  /** A matched client stays on that trip and sends nothing more, whatever arrives. */
  lemma {:induction false} MatchedIsAbsorbing(state: Phase, events: seq<Event>, t: TripId)
    requires state.OnTrip?
    ensures Final(state, events) == state && Responses(state, events, t) == 0
    decreases |events|
  {
    if |events| > 0 {
      MatchedIsAbsorbing(state, events[1..], t);
    }
  }

  /** The client shows a match only after a confirmation of that trip. */
  lemma {:induction false} MatchNeedsConfirmation(state: Phase, events: seq<Event>)
    requires !state.OnTrip? && Final(state, events).OnTrip?
    ensures exists i :: 0 <= i < |events| && events[i].Received?
                        && events[i].message == TripMatchedMessage(Some(Final(state, events).tripId))
    decreases |events|
  {
    var next := ApplyEvent(state, events[0]).0;
    if next.OnTrip? {
      MatchedIsAbsorbing(next, events[1..], 0);
      assert events[0].message == TripMatchedMessage(Some(next.tripId));
    } else {
      MatchNeedsConfirmation(next, events[1..]);
      var i :| 0 <= i < |events| - 1 && events[1..][i].Received?
               && events[1..][i].message == TripMatchedMessage(Some(Final(state, events).tripId));
      assert events[i + 1] == events[1..][i];
    }
  }

  /** A client that waits for a confirmation gives up at the offer's own deadline plus the grace. */
  lemma {:induction false} GraceFollowsDeadline(state: Phase, events: seq<Event>)
    requires state.Responding? ==> state.graceDeadlineMs == state.deadlineMs + 2000
    ensures var last := Final(state, events);
            last.Responding? ==> last.graceDeadlineMs == last.deadlineMs + 2000
    decreases |events|
  {
    if |events| > 0 {
      GraceFollowsDeadline(ApplyEvent(state, events[0]).0, events[1..]);
    }
  }

  // ---- What becomes of an offer ---------------------------------------------------------------

  /** The responses sent, in order. */
  function Sent(state: Phase, events: seq<Event>): seq<ClientEffect>
    decreases |events|
  {
    if |events| == 0 then []
    else
      var (next, effect) := ApplyEvent(state, events[0]);
      (if effect.SendResponse? then [effect] else []) + Sent(next, events[1..])
  }

  predicate Confirms(e: Event, t: TripId) {
    e.Received? && e.message == TripMatchedMessage(Some(t))
  }

  predicate BringsOffer(e: Event) {
    e.Received? && WellFormed(e.message)
  }

  /** The driver's press. */
  function Press(accept: bool): Event {
    if accept then Accept else Decline
  }

  /** Nothing that settles an offer of trip `t`: no press, no deadline, no confirmation of it, no offer. */
  predicate LeavesOpen(e: Event, t: TripId) {
    e != Accept && e != Decline && e != DeadlineElapsed && !Confirms(e, t) && !BringsOffer(e)
  }

  ghost predicate AllLeaveOpen(events: seq<Event>, t: TripId) {
    forall i :: 0 <= i < |events| ==> LeavesOpen(events[i], t)
  }

  /** The offer is pressed `accept` before anything else settles it. */
  ghost predicate PressedFirst(events: seq<Event>, t: TripId, accept: bool) {
    exists i :: 0 <= i < |events| && events[i] == Press(accept) && AllLeaveOpen(events[..i], t)
  }

  lemma {:induction false} OpenOfferStays(offer: Offer, deadlineMs: int, events: seq<Event>)
    requires AllLeaveOpen(events, offer.tripId)
    ensures Final(Offered(offer, deadlineMs), events) == Offered(offer, deadlineMs)
    ensures Sent(Offered(offer, deadlineMs), events) == []
    decreases |events|
  {
    if |events| > 0 {
      assert LeavesOpen(events[0], offer.tripId);
      OpenOfferStays(offer, deadlineMs, events[1..]);
    }
  }

  lemma {:induction false} FinalOfBoth(state: Phase, a: seq<Event>, b: seq<Event>)
    ensures Final(state, a + b) == Final(Final(state, a), b)
    decreases |a|
  {
    if |a| == 0 {
      assert a + b == b;
    } else {
      assert (a + b)[0] == a[0] && (a + b)[1..] == a[1..] + b;
      FinalOfBoth(ApplyEvent(state, a[0]).0, a[1..], b);
    }
  }

  lemma {:induction false} SentInBoth(state: Phase, a: seq<Event>, b: seq<Event>)
    ensures Sent(state, a + b) == Sent(state, a) + Sent(Final(state, a), b)
    decreases |a|
  {
    if |a| == 0 {
      assert a + b == b;
    } else {
      assert (a + b)[0] == a[0] && (a + b)[1..] == a[1..] + b;
      SentInBoth(ApplyEvent(state, a[0]).0, a[1..], b);
    }
  }

  /** After an offer, and whatever leaves it open, a press sends exactly one response: to that trip, with
      that answer. An accept then waits for the confirmation, a decline is final. */
  lemma PressIsSent(state: Phase, t: TripId, pickup: LatLng, dropoff: LatLng, timeoutMs: int, nowMs: int,
                    quiet: seq<Event>, accept: bool)
    requires !state.OnTrip? && AllLeaveOpen(quiet, t)
    ensures var offer := TripOfferMessage(Some(t), Some(pickup), Some(dropoff), Some(timeoutMs));
            var events := [Received(offer, nowMs)] + (quiet + [Press(accept)]);
            && Sent(state, events) == [SendResponse(t, accept)]
            && Final(state, events) ==
               if accept then Responding(Offer(t, pickup, dropoff, timeoutMs), nowMs + timeoutMs, nowMs + timeoutMs + 2000)
               else Phase.Declined(t)
  {
    var m := TripOfferMessage(Some(t), Some(pickup), Some(dropoff), Some(timeoutMs));
    var offered := Offered(Offer(t, pickup, dropoff, timeoutMs), nowMs + timeoutMs);
    var events := [Received(m, nowMs)] + (quiet + [Press(accept)]);
    assert events[0] == Received(m, nowMs) && events[1..] == quiet + [Press(accept)];
    assert ApplyEvent(state, events[0]) == (offered, Nothing);
    OpenOfferStays(offered.offer, offered.deadlineMs, quiet);
    FinalOfBoth(offered, quiet, [Press(accept)]);
    SentInBoth(offered, quiet, [Press(accept)]);
    assert Sent(offered, [Press(accept)]) == [SendResponse(t, accept)];
  }

  lemma {:induction false} SilentOnceSettled(state: Phase, events: seq<Event>)
    requires !state.Offered? && forall i :: 0 <= i < |events| ==> !BringsOffer(events[i])
    ensures Sent(state, events) == []
    decreases |events|
  {
    if |events| > 0 {
      assert !BringsOffer(events[0]);
      SilentOnceSettled(ApplyEvent(state, events[0]).0, events[1..]);
    }
  }

  /** Over the whole life of an offer, up to the next one: the response sent is the first press, if that
      comes before the deadline and any confirmation; otherwise there is none. */
  lemma {:induction false} FirstPressDecides(offer: Offer, deadlineMs: int, events: seq<Event>)
    requires forall i :: 0 <= i < |events| ==> !BringsOffer(events[i])
    ensures var sent := Sent(Offered(offer, deadlineMs), events);
            && (sent == [SendResponse(offer.tripId, true)] <==> PressedFirst(events, offer.tripId, true))
            && (sent == [SendResponse(offer.tripId, false)] <==> PressedFirst(events, offer.tripId, false))
            && (sent == [] <==> !PressedFirst(events, offer.tripId, true) && !PressedFirst(events, offer.tripId, false))
    decreases |events|
  {
    var t := offer.tripId;
    if |events| > 0 {
      var e, rest := events[0], events[1..];
      assert !BringsOffer(e);
      if LeavesOpen(e, t) {
        FirstPressDecides(offer, deadlineMs, rest);
        PressedLater(events, t, true);
        PressedLater(events, t, false);
      } else {
        var r := ApplyEvent(Offered(offer, deadlineMs), e);
        SilentOnceSettled(r.0, rest);
        assert Sent(Offered(offer, deadlineMs), events) == if r.1.SendResponse? then [r.1] else [];
        PressedNow(events, t, true);
        PressedNow(events, t, false);
      }
    }
  }

  lemma PressedLater(events: seq<Event>, t: TripId, accept: bool)
    requires |events| > 0 && LeavesOpen(events[0], t)
    ensures PressedFirst(events, t, accept) <==> PressedFirst(events[1..], t, accept)
  {
    var rest := events[1..];
    if PressedFirst(rest, t, accept) {
      var i :| 0 <= i < |rest| && rest[i] == Press(accept) && AllLeaveOpen(rest[..i], t);
      assert events[i + 1] == Press(accept);
      var early := events[..i + 1];
      forall j | 0 <= j < |early| ensures LeavesOpen(early[j], t) {
        if j > 0 {
          assert rest[..i][j - 1] == early[j];
        }
      }
    }
    if PressedFirst(events, t, accept) {
      var i :| 0 <= i < |events| && events[i] == Press(accept) && AllLeaveOpen(events[..i], t);
      assert rest[i - 1] == Press(accept);
      var early := rest[..i - 1];
      forall j | 0 <= j < |early| ensures LeavesOpen(early[j], t) {
        assert events[..i][j + 1] == early[j];
      }
    }
  }

  lemma PressedNow(events: seq<Event>, t: TripId, accept: bool)
    requires |events| > 0 && !LeavesOpen(events[0], t)
    ensures PressedFirst(events, t, accept) <==> events[0] == Press(accept)
  {
    if events[0] == Press(accept) {
      assert AllLeaveOpen(events[..0], t);
    }
    if PressedFirst(events, t, accept) {
      var i :| 0 <= i < |events| && events[i] == Press(accept) && AllLeaveOpen(events[..i], t);
      if i > 0 {
        assert events[..i][0] == events[0];
      }
    }
  }

  /** A client that shows an offer, or waits for its confirmation, stays so while nothing settles it:
      a waiting one heeds neither presses nor the offer's own deadline. */
  lemma {:induction false} WaitingStays(state: Phase, events: seq<Event>)
    requires state.Responding?
    requires forall i :: 0 <= i < |events| ==>
               !BringsOffer(events[i]) && !Confirms(events[i], state.offer.tripId) && events[i] != GraceElapsed
    ensures Final(state, events) == state
    decreases |events|
  {
    if |events| > 0 {
      assert !BringsOffer(events[0]) && !Confirms(events[0], state.offer.tripId) && events[0] != GraceElapsed;
      WaitingStays(state, events[1..]);
    }
  }

  /** How waiting for a confirmation ends, whatever else happened meanwhile: the confirmation puts the
      client on that trip with the places offered, the grace running out expires the offer as too late. */
  lemma WaitingEnds(offer: Offer, deadlineMs: int, graceDeadlineMs: int, events: seq<Event>, nowMs: int)
    requires forall i :: 0 <= i < |events| ==>
               !BringsOffer(events[i]) && !Confirms(events[i], offer.tripId) && events[i] != GraceElapsed
    ensures var waiting := Responding(offer, deadlineMs, graceDeadlineMs);
            && Final(waiting, events + [Received(TripMatchedMessage(Some(offer.tripId)), nowMs)])
               == OnTrip(offer.tripId, offer.pickup, offer.dropoff)
            && Final(waiting, events + [GraceElapsed]) == Expired(offer.tripId, TooLate)
  {
    var waiting := Responding(offer, deadlineMs, graceDeadlineMs);
    WaitingStays(waiting, events);
    FinalOfBoth(waiting, events, [Received(TripMatchedMessage(Some(offer.tripId)), nowMs)]);
    FinalOfBoth(waiting, events, [GraceElapsed]);
    assert Final(waiting, [GraceElapsed]) == Expired(offer.tripId, TooLate);
  }

  /** An offer that nothing has settled expires unanswered at its deadline, and is taken by a confirmation
      even before it is answered. */
  lemma UnansweredEnds(offer: Offer, deadlineMs: int, quiet: seq<Event>, nowMs: int)
    requires AllLeaveOpen(quiet, offer.tripId)
    ensures var offered := Offered(offer, deadlineMs);
            && Final(offered, quiet + [DeadlineElapsed]) == Expired(offer.tripId, NoResponse)
            && Sent(offered, quiet + [DeadlineElapsed]) == []
            && Final(offered, quiet + [Received(TripMatchedMessage(Some(offer.tripId)), nowMs)])
               == OnTrip(offer.tripId, offer.pickup, offer.dropoff)
  {
    var offered := Offered(offer, deadlineMs);
    OpenOfferStays(offer, deadlineMs, quiet);
    FinalOfBoth(offered, quiet, [DeadlineElapsed]);
    SentInBoth(offered, quiet, [DeadlineElapsed]);
    FinalOfBoth(offered, quiet, [Received(TripMatchedMessage(Some(offer.tripId)), nowMs)]);
  }

  // ---- With the server ------------------------------------------------------------------------

  /** Every confirmation among the events is one the server sent to driver `d`. */
  ghost predicate FromServer(events: seq<Event>, log: seq<Matching.Event>, d: DriverId) {
    forall i :: 0 <= i < |events| && events[i].Received? && events[i].message.TripMatchedMessage?
                && events[i].message.tripId.Some? ==>
      SentMatched(events[i].message.tripId.value, d) in log
  }

  /** A driver client that shows a match for a trip is right: the trip's row is matched to this
      driver, whatever offers, clicks and timers came before and whatever the server did since. */
  lemma ClientMatchIsTrue(before: seq<Action>, after: seq<Action>, events: seq<Event>, d: DriverId)
    requires Legal(INITIAL, before) && Legal(After(INITIAL, before), after)
    requires FromServer(events, After(INITIAL, before).log, d)
    requires Final(Idle, events).OnTrip?
    ensures var t := Final(Idle, events).tripId;
            var trips := After(After(INITIAL, before), after).db.trips;
            t in trips && trips[t].status == Matched && trips[t].driverId == Some(d)
  {
    MatchNeedsConfirmation(Idle, events);
    ConfirmationIsTrue(before, after, Final(Idle, events).tripId, d);
  }
}
