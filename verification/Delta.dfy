// Delta compression of location broadcasts (core/src/ws/delta-compression.ts) and its decoder, of
// which the client has its own copy (frontend/src/ws/deltaCodec.ts). Coordinates are reals.

module Delta {
  import opened Wrappers
  import opened Numbers
  import opened DriverLocks
  import opened TripRows

  const STEP := 0.00001

  /** A position and status, as last sent by the server or as last reconstructed by a client. */
  datatype Known = Known(lat: real, lng: real, status: DriverStatus)

  datatype Update = Update(lat: real, lng: real, timestamp: int, status: DriverStatus)

  datatype Payload =
    | Full(driverId: DriverId, lat: real, lng: real, timestamp: int, status: DriverStatus)
    | Change(driverId: DriverId, dLat: int, dLng: int, timestamp: int, newStatus: Option<DriverStatus>)

  function Sent(u: Update): Known {
    Known(u.lat, u.lng, u.status)
  }

  /** A displacement in whole quanta. */
  function Quanta(x: real): int {
    Round(x / STEP)
  }

  function Encode(lastSent: Option<Known>, driverId: DriverId, u: Update): Payload {
    match lastSent
    case None => Full(driverId, u.lat, u.lng, u.timestamp, u.status)
    case Some(last) =>
      Change(driverId, Quanta(u.lat - last.lat), Quanta(u.lng - last.lng), u.timestamp,
             if u.status != last.status then Some(u.status) else None)
  }

  /** A delta without a base is an error. */
  function Decode(known: Option<Known>, p: Payload): Result<Known> {
    match p
    case Full(_, lat, lng, _, status) => Ok(Known(lat, lng, status))
    case Change(_, dLat, dLng, _, newStatus) =>
      if known.None? then Err("received a delta with no prior full position")
      else Ok(Known(known.value.lat + dLat as real * STEP, known.value.lng + dLng as real * STEP,
                    if newStatus.Some? then newStatus.value else known.value.status))
  }

  // ---- One hop --------------------------------------------------------------------------------

  /** What rounding adds to a displacement. */
  function Residual(x: real): real {
    Quanta(x) as real * STEP - x
  }

  lemma ResidualBounds(x: real)
    ensures -STEP / 2.0 < Residual(x) <= STEP / 2.0
    ensures Residual(x) == 0.0 <==> exists k :: x == OnGrid(k)
  {
    var y, q := x / 0.00001, Quanta(x);
    assert STEP == 0.00001;
    assert x == y * 0.00001;
    assert y - 0.5 < q as real <= y + 0.5;
    assert Residual(x) == (q as real - y) * 0.00001;
    if k :| x == OnGrid(k) {
      assert y == k as real;
      assert q == k;
    }
    if Residual(x) == 0.0 {
      assert x == OnGrid(q);
    }
  }

  /** The k-th point of the quantization grid. */
  function OnGrid(k: int): real {
    k as real * STEP
  }

  /** The client is behind or ahead of the server by at most `n` half quanta on each axis and knows
      the server's status; before the first payload neither side has a position. */
  predicate InStep(lastSent: Option<Known>, known: Option<Known>, n: nat) {
    match lastSent
    case None => true
    case Some(last) =>
      && known.Some?
      && known.value.status == last.status
      && AbsReal(known.value.lat - last.lat) <= n as real * STEP / 2.0
      && AbsReal(known.value.lng - last.lng) <= n as real * STEP / 2.0
  }

  /** Deltas sent since the last full payload, after one more payload. */
  function DeltasAfter(lastSent: Option<Known>, n: nat): nat {
    if lastSent.None? then 0 else n + 1
  }

  /** Any payload the server encodes decodes at a client in step, and keeps it in step. The driver
      may have changed since the last payload. Only the first payload is full, each names the driver and
      the time of the update, and the status is repeated only when it has changed. */
  lemma {:induction false} HopKeepsStep(lastSent: Option<Known>, known: Option<Known>, n: nat, driverId: DriverId, u: Update)
    requires InStep(lastSent, known, n)
    ensures Decode(known, Encode(lastSent, driverId, u)).Ok?
    ensures InStep(Some(Sent(u)), Some(Decode(known, Encode(lastSent, driverId, u)).value), DeltasAfter(lastSent, n))
    ensures var p := Encode(lastSent, driverId, u);
            && p.driverId == driverId && p.timestamp == u.timestamp && (p.Full? <==> lastSent.None?)
            && (p.Change? ==> (p.newStatus.None? <==> u.status == lastSent.value.status))
  {
    if lastSent.Some? {
      ResidualBounds(u.lat - lastSent.value.lat);
      ResidualBounds(u.lng - lastSent.value.lng);
    }
  }

  /** Both coordinates lie on the quantization grid. */
  ghost predicate GridPoint(k: Known) {
    (exists i :: k.lat == OnGrid(i)) && (exists j :: k.lng == OnGrid(j))
  }

  lemma GridHopIsExact(last: Known, driverId: DriverId, u: Update)
    requires GridPoint(last) && GridPoint(Sent(u))
    ensures Decode(Some(last), Encode(Some(last), driverId, u)) == Ok(Sent(u))
  {
    var i0 :| last.lat == OnGrid(i0);
    var i1 :| u.lat == OnGrid(i1);
    var j0 :| last.lng == OnGrid(j0);
    var j1 :| u.lng == OnGrid(j1);
    GridDifference(i0, i1);
    GridDifference(j0, j1);
    ResidualBounds(u.lat - last.lat);
    ResidualBounds(u.lng - last.lng);
  }

  lemma GridDifference(i: int, j: int)
    ensures OnGrid(j) - OnGrid(i) == OnGrid(j - i)
  {
    assert STEP == 0.00001;
  }

  // ---- A chain of payloads on one channel -----------------------------------------------------

  function EncodeAll(lastSent: Option<Known>, driverId: DriverId, us: seq<Update>): seq<Payload>
    decreases |us|
  {
    if |us| == 0 then [] else [Encode(lastSent, driverId, us[0])] + EncodeAll(Some(Sent(us[0])), driverId, us[1..])
  }

  function DecodeAll(known: Option<Known>, ps: seq<Payload>): Result<Option<Known>>
    decreases |ps|
  {
    if |ps| == 0 then Ok(known)
    else match Decode(known, ps[0])
      case Err(message) => Err(message)
      case Ok(next) => DecodeAll(Some(next), ps[1..])
  }

  /** `n` updates that move half a quantum each, on both axes. */
  function HalfSteps(lat: real, lng: real, status: DriverStatus, n: nat): (us: seq<Update>)
    ensures |us| == n
    ensures n > 0 ==> us[n - 1].lat == lat + n as real * STEP / 2.0 && us[n - 1].lng == lng + n as real * STEP / 2.0
    decreases n
  {
    if n == 0 then []
    else [Update(lat + STEP / 2.0, lng + STEP / 2.0, 0, status)]
         + HalfSteps(lat + STEP / 2.0, lng + STEP / 2.0, status, n - 1)
  }

  /** The bound is attained, so rounding does compound: after n half-quantum moves a client that
      started exact is n half quanta ahead of the server on each axis. */
  lemma ErrorIsAttained(last: Known, driverId: DriverId, n: nat)
    requires n > 0
    ensures var us := HalfSteps(last.lat, last.lng, last.status, n);
            var r := DecodeAll(Some(last), EncodeAll(Some(last), driverId, us));
            && r.Ok? && r.value.Some?
            && r.value.value.lat - us[n - 1].lat == n as real * STEP / 2.0
            && r.value.value.lng - us[n - 1].lng == n as real * STEP / 2.0
  {
    HalfStepsDecode(last, last, driverId, n);
  }

  lemma {:induction false} HalfStepsDecode(last: Known, known: Known, driverId: DriverId, n: nat)
    requires known.status == last.status
    ensures DecodeAll(Some(known), EncodeAll(Some(last), driverId, HalfSteps(last.lat, last.lng, last.status, n)))
         == Ok(Some(Known(known.lat + n as real * STEP, known.lng + n as real * STEP, known.status)))
    decreases n
  {
    if n > 0 {
      var us := HalfSteps(last.lat, last.lng, last.status, n);
      var u := us[0];
      assert us[1..] == HalfSteps(u.lat, u.lng, last.status, n - 1);
      var p := Encode(Some(last), driverId, u);
      HalfQuantum(last.lat);
      HalfQuantum(last.lng);
      var rest := EncodeAll(Some(Sent(u)), driverId, us[1..]);
      assert ([p] + rest)[1..] == rest;
      HalfStepsDecode(Sent(u), Decode(Some(known), p).value, driverId, n - 1);
    }
  }

  lemma HalfQuantum(x: real)
    ensures Quanta(x + STEP / 2.0 - x) == 1
  {
    assert STEP == 0.00001;
    assert (x + STEP / 2.0 - x) / 0.00001 == 0.5;
  }

  /** Every hop from `last` on is a whole number of quanta on both axes. */
  ghost predicate WholeHops(last: Known, us: seq<Update>)
    decreases |us|
  {
    |us| == 0 ||
    (&& (exists k :: us[0].lat - last.lat == OnGrid(k))
     && (exists k :: us[0].lng - last.lng == OnGrid(k))
     && WholeHops(Sent(us[0]), us[1..]))
  }

  /** After each update the client's position is exactly the server's. */
  ghost predicate ExactThroughout(last: Known, known: Known, driverId: DriverId, us: seq<Update>)
    decreases |us|
  {
    |us| == 0 ||
    var r := Decode(Some(known), Encode(Some(last), driverId, us[0]));
    && r.Ok? && r.value.lat == us[0].lat && r.value.lng == us[0].lng
    && ExactThroughout(Sent(us[0]), r.value, driverId, us[1..])
  }

  /** A client that starts exact stays exact through a chain of deltas if and only if every hop is a
      whole number of quanta. */
  lemma {:induction false} ExactIffWholeHops(last: Known, known: Known, driverId: DriverId, us: seq<Update>)
    requires known.lat == last.lat && known.lng == last.lng
    ensures ExactThroughout(last, known, driverId, us) <==> WholeHops(last, us)
    decreases |us|
  {
    if |us| > 0 {
      var u := us[0];
      var r := Decode(Some(known), Encode(Some(last), driverId, u));
      ResidualBounds(u.lat - last.lat);
      ResidualBounds(u.lng - last.lng);
      assert r.value.lat == u.lat + Residual(u.lat - last.lat);
      assert r.value.lng == u.lng + Residual(u.lng - last.lng);
      if r.value.lat == u.lat && r.value.lng == u.lng {
        ExactIffWholeHops(Sent(u), r.value, driverId, us[1..]);
      }
    }
  }
}
