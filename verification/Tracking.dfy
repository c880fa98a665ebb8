// The rider's view of a trip, folded from subscription messages
// (frontend/src/hooks/tripTrackingReducer.ts).

module Tracking {
  import opened Wrappers
  import opened DriverLocks
  import opened TripRows
  import opened Delta

  datatype EndReason = TripCompleted | TripCancelled | ClientRequested

  /** A parsed message; a driver id that is absent or not a string is None, `Unknown` is everything
      the client does not recognize. */
  datatype ServerMessage =
    | Connected
    | Subscribed(tripId: Option<TripId>, driverId: Option<DriverId>)
    | TripMatched(matchedTrip: TripId, matchedDriver: Option<DriverId>)
    | Location(payload: Payload)
    | Unsubscribed(reason: EndReason)
    | ErrorReply(alreadyEnded: bool)
    | Unknown

  datatype TrackingState = TrackingState(status: TripStatus, driverId: Option<DriverId>,
                                         driverPosition: Option<Known>, cancellationReason: Option<Reason>)

  datatype TrackingEffect = NoEffect | ResolveFinalState

  const FRESH := TrackingState(Requested, None, None, None)

  /** One message. The only failure is a delta that meets no base. */
  function ApplyTripMessage(state: TrackingState, m: ServerMessage): Result<(TrackingState, TrackingEffect)> {
    match m
    case Subscribed(_, driverId) =>
      if driverId.None? then Ok((state, NoEffect))
      else Ok((state.(status := if state.status == Requested then Matched else state.status, driverId := driverId), NoEffect))
    case TripMatched(_, driverId) => Ok((state.(status := Matched, driverId := driverId), NoEffect))
    case Location(payload) =>
      if state.driverId.None? || payload.driverId != state.driverId.value then Ok((state, NoEffect))
      else (match Decode(state.driverPosition, payload)
            case Err(message) => Err(message)
            case Ok(decoded) => Ok((state.(driverPosition := Some(decoded)), NoEffect)))
    case Unsubscribed(reason) =>
      (match reason
       case TripCompleted => Ok((state.(status := Completed), NoEffect))
       case TripCancelled => Ok((state.(status := Cancelled), ResolveFinalState))
       case ClientRequested => Ok((state, NoEffect)))
    case ErrorReply(alreadyEnded) => Ok((state, if alreadyEnded then ResolveFinalState else NoEffect))
    case _ => Ok((state, NoEffect))
  }

  /** The state of a fresh client after the given messages, in order. */
  function Client(messages: seq<ServerMessage>): Result<TrackingState>
    decreases |messages|
  {
    if |messages| == 0 then Ok(FRESH)
    else
      match Client(messages[..|messages| - 1])
      case Err(message) => Err(message)
      case Ok(state) =>
        match ApplyTripMessage(state, messages[|messages| - 1])
        case Err(message) => Err(message)
        case Ok(r) => Ok(r.0)
  }

  lemma ClientAppend(messages: seq<ServerMessage>, m: ServerMessage)
    requires Client(messages).Ok?
    ensures var r := ApplyTripMessage(Client(messages).value, m);
            && Client(messages + [m]) == (if r.Ok? then Ok(r.value.0) else Err(r.message))
            && EffectOfLast(messages + [m]) == (if r.Ok? then r.value.1 else NoEffect)
  {
    assert (messages + [m])[..|messages|] == messages;
  }

  /** What the last of the messages makes a fresh client do; nothing if it has failed before. */
  function EffectOfLast(messages: seq<ServerMessage>): TrackingEffect
    requires |messages| > 0
  {
    match Client(messages[..|messages| - 1])
    case Err(_) => NoEffect
    case Ok(state) =>
      match ApplyTripMessage(state, messages[|messages| - 1])
      case Err(_) => NoEffect
      case Ok(r) => r.1
  }

  /** How many of the messages are deltas. */
  function Deltas(messages: seq<ServerMessage>): nat
    decreases |messages|
  {
    if |messages| == 0 then 0
    else
      var m := messages[|messages| - 1];
      Deltas(messages[..|messages| - 1]) + (if m.Location? && m.payload.Change? then 1 else 0)
  }

  lemma DeltasAppend(messages: seq<ServerMessage>, m: ServerMessage)
    ensures Deltas(messages + [m]) == Deltas(messages) + (if m.Location? && m.payload.Change? then 1 else 0)
  {
    assert (messages + [m])[..|messages|] == messages;
  }

  /** The message is a delta of the driver the client follows, and the client has no position yet. */
  predicate MeetsNoBase(state: TrackingState, m: ServerMessage) {
    && m.Location? && m.payload.Change?
    && state.driverId == Some(m.payload.driverId) && state.driverPosition.None?
  }

  ghost predicate FailsAt(messages: seq<ServerMessage>, n: nat) {
    n < |messages| && Client(messages[..n]).Ok? && MeetsNoBase(Client(messages[..n]).value, messages[n])
  }

  /** A client fails on a run of messages if and only if one of them is a delta of the driver it then
      follows, met before any position. */
  lemma {:induction false} FailsIffNoBase(messages: seq<ServerMessage>)
    ensures Client(messages).Err? <==> exists n: nat :: FailsAt(messages, n)
    decreases |messages|
  {
    if |messages| > 0 {
      var last := |messages| - 1;
      var before := messages[..last];
      FailsIffNoBase(before);
      forall n: nat | n < last ensures FailsAt(before, n) <==> FailsAt(messages, n) {
        assert before[..n] == messages[..n] && before[n] == messages[n];
      }
      if Client(before).Ok? {
        assert FailsAt(messages, last) <==> Client(messages).Err?;
      }
    }
  }

  // ---- The status a client shows --------------------------------------------------------------

  /** How far along a trip is. */
  function Progress(status: TripStatus): nat {
    match status
    case Requested => 0
    case Matched => 1
    case InProgress => 2
    case Completed => 3
    case Cancelled => 3
  }

  /** A message takes the status shown back if and only if it is a match that arrives once the trip is
      past being matched; an acknowledgement of a (re)subscription never does. */
  lemma GoesBackIffLateMatch(state: TrackingState, m: ServerMessage)
    requires ApplyTripMessage(state, m).Ok?
    ensures var after := ApplyTripMessage(state, m).value.0;
            && (Progress(after.status) < Progress(state.status) <==> m.TripMatched? && Progress(state.status) > Progress(Matched))
            && (m.Subscribed? && state.status != Requested ==> after.status == state.status)
            && (m.Subscribed? && m.driverId.Some? ==> after.driverId == m.driverId && Progress(after.status) >= Progress(Matched))
            && (m.Subscribed? && m.driverId.None? ==> after == state)
  {
  }

  /** Locations of drivers other than the one followed make no difference, whatever else arrives. */
  lemma {:induction false} OtherDriversAreIgnored(messages: seq<ServerMessage>, stray: ServerMessage, more: seq<ServerMessage>)
    requires Client(messages).Ok? && stray.Location?
    requires Client(messages).value.driverId != Some(stray.payload.driverId)
    ensures Client(messages + [stray] + more) == Client(messages + more)
    decreases |more|
  {
    if more == [] {
      ClientAppend(messages, stray);
      assert messages + [stray] + more == messages + [stray] && messages + more == messages;
    } else {
      var last := |more| - 1;
      OtherDriversAreIgnored(messages, stray, more[..last]);
      assert (messages + [stray] + more)[..|messages| + 1 + last] == messages + [stray] + more[..last];
      assert (messages + more)[..|messages| + last] == messages + more[..last];
    }
  }
}
