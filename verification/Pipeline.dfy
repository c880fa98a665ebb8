// From driver socket to broadcast: connections with their throttles, the fleet batch and the flush
// with its await in the middle, as one state machine. Every received report carries the number under
// which it was received, so that order and loss can be spoken of.
// (core/src/ws/driver-connections.ts, core/src/ws/location-batch.ts)

module Pipeline {
  import opened Wrappers
  import opened Numbers
  import opened DriverLocks
  import opened Throttling
  import opened LocationBatches

  type ConnId = nat

  datatype Report = Report(no: nat, conn: ConnId, driver: DriverId, fix: Fix)

  /** One socket: its throttle lives as long as the socket, even when a newer one has replaced it. */
  datatype Conn = Conn(driver: DriverId, throttle: Throttle<Report>, closed: bool)

  /** `Awaiting` the writes, with the snapshot taken; then `Finishing`, after the broadcasts. */
  datatype Flush = Idle | Awaiting(snapshot: map<DriverId, Report>) | Finishing

  datatype Pipe = Pipe(conns: map<ConnId, Conn>, current: map<DriverId, ConnId>,
                       batch: map<DriverId, Report>, flush: Flush,
                       received: seq<Report>, sent: map<DriverId, seq<Report>>)

  const START := Pipe(map[], map[], map[], Idle, [], map[])

  datatype Step =
    | Connect(c: ConnId, d: DriverId)
    | Receive(c: ConnId, now: int, fix: Fix)
    | TimerFires(c: ConnId, now: int)
    | Close(c: ConnId)
    | FlushStarts
    | FlushBroadcasts(known: set<DriverId>)
    | FlushFails
    | FlushEnds

  predicate Can(st: Pipe, step: Step) {
    match step
    case Connect(c, _) => c !in st.conns
    case Receive(c, _, _) => c in st.conns && !st.conns[c].closed
    case TimerFires(c, now) => c in st.conns && TimerIsDue(st.conns[c].throttle, now)
    case Close(c) => c in st.conns && !st.conns[c].closed
    case FlushStarts => st.flush.Idle? && st.batch != map[]
    case FlushBroadcasts(_) => st.flush.Awaiting?
    case FlushFails => st.flush.Awaiting?
    case FlushEnds => st.flush.Finishing?
  }

  function Enqueue(st: Pipe, released: Option<Report>): Pipe {
    match released
    case Some(r) => st.(batch := st.batch[r.driver := r])
    case None => st
  }

  function Rethrottled(st: Pipe, c: ConnId, th: Throttle<Report>): Pipe
    requires c in st.conns
  {
    st.(conns := st.conns[c := st.conns[c].(throttle := th)])
  }

  /** A driver's earlier connection, if any, loses its timer; its socket may still deliver messages. */
  function Superseded(st: Pipe, d: DriverId): Pipe {
    if d in st.current && st.current[d] in st.conns
    then Rethrottled(st, st.current[d], Unarmed(st.conns[st.current[d]].throttle)) else st
  }

  function Connected(st: Pipe, c: ConnId, d: DriverId): Pipe {
    var s := Superseded(st, d);
    s.(conns := s.conns[c := Conn(d, Fresh(), false)], current := s.current[d := c])
  }

  function Received(st: Pipe, throttleMs: nat, c: ConnId, now: int, fix: Fix): Pipe
    requires c in st.conns
  {
    var r := Report(|st.received|, c, st.conns[c].driver, fix);
    var th := st.conns[c].throttle;
    Enqueue(Rethrottled(st.(received := st.received + [r]), c, AfterMessage(th, throttleMs, now, r)),
            ReleasedByMessage(th, throttleMs, now, r))
  }

  function Fired(st: Pipe, c: ConnId, now: int): Pipe
    requires c in st.conns
  {
    var th := st.conns[c].throttle;
    Enqueue(Rethrottled(st, c, AfterTimer(th, now)), th.pending)
  }

  /** Only the current connection's close removes the driver's entry. */
  function Disconnected(st: Pipe, c: ConnId): Pipe
    requires c in st.conns
  {
    var conn := st.conns[c];
    st.(conns := st.conns[c := conn.(throttle := Unarmed(conn.throttle), closed := true)],
        current := if conn.driver in st.current && st.current[conn.driver] == c then st.current - {conn.driver} else st.current)
  }

  function Sent(st: Pipe, d: DriverId): seq<Report> {
    if d in st.sent then st.sent[d] else []
  }

  function Broadcasted(st: Pipe, known: set<DriverId>): Pipe
    requires st.flush.Awaiting?
  {
    var out := st.flush.snapshot.Keys * known;
    st.(flush := Finishing,
        sent := map d | d in st.sent.Keys + out :: if d in out then Sent(st, d) + [st.flush.snapshot[d]] else st.sent[d])
  }

  function Next(st: Pipe, throttleMs: nat, step: Step): Pipe
    requires Can(st, step)
  {
    match step
    case Connect(c, d) => Connected(st, c, d)
    case Receive(c, now, fix) => Received(st, throttleMs, c, now, fix)
    case TimerFires(c, now) => Fired(st, c, now)
    case Close(c) => Disconnected(st, c)
    case FlushStarts => st.(flush := Awaiting(st.batch), batch := map[])
    case FlushBroadcasts(known) => Broadcasted(st, known)
    case FlushFails => st.(flush := Idle)
    case FlushEnds => st.(flush := Idle)
  }

  // ---- Where a report waits -------------------------------------------------------------------

  function Waiting(st: Pipe, c: ConnId): Option<Report> {
    if c in st.conns && st.conns[c].throttle.flushTimer.Some? then st.conns[c].throttle.pending else None
  }

  function InFlight(st: Pipe, d: DriverId): seq<Report> {
    if st.flush.Awaiting? && d in st.flush.snapshot then [st.flush.snapshot[d]] else []
  }

  function InBatch(st: Pipe, d: DriverId): seq<Report> {
    if d in st.batch then [st.batch[d]] else []
  }

  /** A driver's reports past the throttle, oldest first: broadcast, in flight, in the batch. */
  function Line(st: Pipe, d: DriverId): seq<Report> {
    Sent(st, d) + InFlight(st, d) + InBatch(st, d)
  }

  /** `wide` compares all reports of a driver, otherwise only those that came over one connection. */
  predicate Before(a: Report, b: Report, wide: bool) {
    wide || a.conn == b.conn ==> a.no < b.no
  }

  ghost predicate Ordered(line: seq<Report>, wide: bool) {
    forall i, j :: 0 <= i < j < |line| ==> Before(line[i], line[j], wide)
  }

  ghost predicate AllBefore(line: seq<Report>, b: Report, wide: bool) {
    forall i :: 0 <= i < |line| ==> Before(line[i], b, wide)
  }

  /** Every report in a line is one that was received from that driver. */
  ghost predicate Genuine(line: seq<Report>, received: seq<Report>, d: DriverId) {
    forall r :: r in line ==> r.driver == d && r.no < |received| && received[r.no] == r
  }

  /** A current connection is its driver's own. */
  ghost predicate Owned(st: Pipe) {
    forall d :: d in st.current ==> st.current[d] in st.conns && st.conns[st.current[d]].driver == d
  }

  ghost predicate Traceable(st: Pipe) {
    && (forall i :: 0 <= i < |st.received| ==> st.received[i].no == i)
    && Owned(st)
    && (forall d :: Genuine(Line(st, d), st.received, d))
    && (forall c :: Waiting(st, c).Some? ==>
          Genuine([Waiting(st, c).value], st.received, st.conns[c].driver) && Waiting(st, c).value.conn == c)
  }

  /** No replaced or closed connection has an armed timer. */
  ghost predicate OnlyCurrentArmed(st: Pipe) {
    forall c :: c in st.conns && st.conns[c].throttle.flushTimer.Some? ==>
      st.conns[c].driver in st.current && st.current[st.conns[c].driver] == c
  }

  ghost predicate InOrder(st: Pipe, wide: bool) {
    && (forall d :: Ordered(Line(st, d), wide))
    && (forall c :: Waiting(st, c).Some? ==> AllBefore(Line(st, st.conns[c].driver), Waiting(st, c).value, wide))
  }

  ghost predicate Inv(st: Pipe, wide: bool) {
    Traceable(st) && InOrder(st, wide) && (wide ==> OnlyCurrentArmed(st))
  }

  /** A message arrives on its driver's current connection, not on one that was replaced. */
  predicate OnCurrent(st: Pipe, step: Step) {
    step.Receive? && step.c in st.conns ==>
      st.conns[step.c].driver in st.current && st.current[st.conns[step.c].driver] == step.c
  }

  // ---- Every step keeps the order -------------------------------------------------------------

  function WithoutAt(line: seq<Report>, k: nat): seq<Report>
    requires k < |line|
  {
    line[..k] + line[k + 1..]
  }

  ghost predicate SameOrOneLess(shorter: seq<Report>, line: seq<Report>) {
    shorter == line || exists k: nat :: k < |line| && shorter == WithoutAt(line, k)
  }

  lemma OneLessKeepsOrder(shorter: seq<Report>, line: seq<Report>, received: seq<Report>, d: DriverId, wide: bool)
    requires SameOrOneLess(shorter, line) && Ordered(line, wide) && Genuine(line, received, d)
    ensures Ordered(shorter, wide) && Genuine(shorter, received, d)
    ensures forall b :: AllBefore(line, b, wide) ==> AllBefore(shorter, b, wide)
  {
    if shorter != line {
      var k: nat :| k < |line| && shorter == WithoutAt(line, k);
      assert forall i :: 0 <= i < |shorter| ==> shorter[i] == line[if i < k then i else i + 1];
    }
  }

  /** Reports may leave a line or stop waiting, but nothing is added, moved or renamed. */
  ghost predicate OnlyLoses(st: Pipe, st': Pipe) {
    && st'.received == st.received
    && (forall d :: SameOrOneLess(Line(st', d), Line(st, d)))
    && (forall c :: Waiting(st', c).Some? ==>
          c in st.conns && Waiting(st', c) == Waiting(st, c) && st'.conns[c].driver == st.conns[c].driver)
  }

  lemma LosingKeeps(st: Pipe, st': Pipe, wide: bool)
    requires Inv(st, wide) && OnlyLoses(st, st') && Owned(st') && (wide ==> OnlyCurrentArmed(st'))
    ensures Inv(st', wide)
  {
    forall d
      ensures Ordered(Line(st', d), wide) && Genuine(Line(st', d), st'.received, d)
      ensures forall b :: AllBefore(Line(st, d), b, wide) ==> AllBefore(Line(st', d), b, wide)
    {
      OneLessKeepsOrder(Line(st', d), Line(st, d), st.received, d, wide);
    }
  }

  lemma ConnectLoses(st: Pipe, c: ConnId, d: DriverId)
    requires Owned(st) && c !in st.conns
    ensures OnlyLoses(st, Connected(st, c, d)) && Owned(Connected(st, c, d))
    ensures OnlyCurrentArmed(st) ==> OnlyCurrentArmed(Connected(st, c, d))
  {
    assert forall x :: Line(Connected(st, c, d), x) == Line(st, x);
  }

  lemma CloseLoses(st: Pipe, c: ConnId)
    requires Owned(st) && c in st.conns
    ensures OnlyLoses(st, Disconnected(st, c)) && Owned(Disconnected(st, c))
    ensures OnlyCurrentArmed(st) ==> OnlyCurrentArmed(Disconnected(st, c))
  {
    assert forall x :: Line(Disconnected(st, c), x) == Line(st, x);
  }

  lemma RethrottleLoses(st: Pipe, c: ConnId, th: Throttle<Report>)
    requires Owned(st) && c in st.conns && th.pending.None?
    requires th.flushTimer.Some? ==> st.conns[c].throttle.flushTimer.Some?
    ensures OnlyLoses(st, Rethrottled(st, c, th)) && Owned(Rethrottled(st, c, th))
    ensures OnlyCurrentArmed(st) ==> OnlyCurrentArmed(Rethrottled(st, c, th))
  {
    assert forall x :: Line(Rethrottled(st, c, th), x) == Line(st, x);
  }

  lemma DropsInFlight(st: Pipe, d: DriverId)
    requires st.flush.Awaiting? && d in st.flush.snapshot
    ensures SameOrOneLess(Sent(st, d) + InBatch(st, d), Line(st, d))
  {
    assert Sent(st, d) + InBatch(st, d) == WithoutAt(Line(st, d), |Sent(st, d)|);
  }

  predicate IsFlush(step: Step) {
    step.FlushStarts? || step.FlushBroadcasts? || step.FlushFails? || step.FlushEnds?
  }

  lemma FlushLine(st: Pipe, throttleMs: nat, step: Step, d: DriverId)
    requires Can(st, step) && IsFlush(step)
    ensures SameOrOneLess(Line(Next(st, throttleMs, step), d), Line(st, d))
  {
    var st' := Next(st, throttleMs, step);
    if (step.FlushFails? || step.FlushBroadcasts?) && d in st.flush.snapshot {
      DropsInFlight(st, d);
      assert Line(st', d) == Line(st, d) || Line(st', d) == Sent(st, d) + InBatch(st, d);
    } else {
      assert Line(st', d) == Line(st, d);
    }
  }

  lemma FlushLoses(st: Pipe, throttleMs: nat, step: Step)
    requires Owned(st) && Can(st, step) && IsFlush(step)
    ensures OnlyLoses(st, Next(st, throttleMs, step)) && Owned(Next(st, throttleMs, step))
    ensures OnlyCurrentArmed(st) ==> OnlyCurrentArmed(Next(st, throttleMs, step))
  {
    forall d ensures SameOrOneLess(Line(Next(st, throttleMs, step), d), Line(st, d)) {
      FlushLine(st, throttleMs, step, d);
    }
  }

  lemma FrontKeeps(front: seq<Report>, back: seq<Report>, received: seq<Report>, d: DriverId, wide: bool)
    requires Ordered(front + back, wide) && Genuine(front + back, received, d)
    ensures Ordered(front, wide) && Genuine(front, received, d)
    ensures forall b :: AllBefore(front + back, b, wide) ==> AllBefore(front, b, wide)
  {
    assert forall i :: 0 <= i < |front| ==> front[i] == (front + back)[i];
  }

  lemma AppendKeeps(front: seq<Report>, r: Report, received: seq<Report>, d: DriverId, wide: bool)
    requires Ordered(front, wide) && Genuine(front, received, d) && AllBefore(front, r, wide)
    requires Genuine([r], received, d)
    ensures Ordered(front + [r], wide) && Genuine(front + [r], received, d)
    ensures forall b :: AllBefore(front, b, wide) && Before(r, b, wide) ==> AllBefore(front + [r], b, wide)
  {
    assert r in [r];
  }

  function Front(st: Pipe, d: DriverId): seq<Report> {
    Sent(st, d) + InFlight(st, d)
  }

  lemma EnqueuedLine(st: Pipe, r: Report)
    ensures Line(Enqueue(st, Some(r)), r.driver) == Front(st, r.driver) + [r]
    ensures forall d :: d != r.driver ==> Line(Enqueue(st, Some(r)), d) == Line(st, d)
    ensures forall c :: Waiting(Enqueue(st, Some(r)), c) == Waiting(st, c)
  {
  }

  /** A released report joins the line if it is newer than what has left the batch, and older than
      what still waits. */
  lemma EnqueueKeeps(st: Pipe, r: Report, wide: bool)
    requires Inv(st, wide) && Genuine([r], st.received, r.driver)
    requires AllBefore(Front(st, r.driver), r, wide)
    requires forall c :: Waiting(st, c).Some? && st.conns[c].driver == r.driver ==> Before(r, Waiting(st, c).value, wide)
    ensures Inv(Enqueue(st, Some(r)), wide)
  {
    var st' := Enqueue(st, Some(r));
    EnqueuedLine(st, r);
    assert Front(st, r.driver) + InBatch(st, r.driver) == Line(st, r.driver);
    FrontKeeps(Front(st, r.driver), InBatch(st, r.driver), st.received, r.driver, wide);
    AppendKeeps(Front(st, r.driver), r, st.received, r.driver, wide);
    forall d ensures Ordered(Line(st', d), wide) && Genuine(Line(st', d), st'.received, d) {
      if d != r.driver {
        assert Line(st', d) == Line(st, d);
      }
    }
    forall c | Waiting(st', c).Some? ensures AllBefore(Line(st', st'.conns[c].driver), Waiting(st', c).value, wide) {
      assert Waiting(st', c) == Waiting(st, c);
      if st.conns[c].driver != r.driver {
        assert Line(st', st.conns[c].driver) == Line(st, st.conns[c].driver);
      }
    }
  }

  lemma TimerKeeps(st: Pipe, c: ConnId, now: int, wide: bool)
    requires Inv(st, wide) && Can(st, Step.TimerFires(c, now))
    ensures Inv(Fired(st, c, now), wide)
  {
    var th := st.conns[c].throttle;
    var s := Rethrottled(st, c, AfterTimer(th, now));
    RethrottleLoses(st, c, AfterTimer(th, now));
    LosingKeeps(st, s, wide);
    if th.pending.Some? {
      var r := th.pending.value;
      assert Waiting(st, c) == Some(r);
      assert r in [r];
      FrontKeeps(Front(st, r.driver), InBatch(st, r.driver), st.received, r.driver, wide);
      EnqueueKeeps(s, r, wide);
    }
  }

  /** A report just received is newer than all others. */
  lemma ArrivalKeeps(st: Pipe, r: Report, wide: bool)
    requires Inv(st, wide) && r.no == |st.received|
    ensures Inv(st.(received := st.received + [r]), wide)
    ensures forall d :: AllBefore(Line(st, d), r, wide)
  {
    var st' := st.(received := st.received + [r]);
    assert forall d :: Line(st', d) == Line(st, d);
    assert forall c :: Waiting(st', c) == Waiting(st, c);
    assert forall d, i :: 0 <= i < |Line(st, d)| ==> Line(st, d)[i] in Line(st, d);
  }

  /** The newest report may wait, in place of what waited on its connection. */
  lemma WaitingKeeps(st: Pipe, c: ConnId, th: Throttle<Report>, wide: bool)
    requires Inv(st, wide) && c in st.conns && th.flushTimer.Some? && th.pending.Some?
    requires Genuine([th.pending.value], st.received, st.conns[c].driver) && th.pending.value.conn == c
    requires AllBefore(Line(st, st.conns[c].driver), th.pending.value, wide)
    requires wide ==> st.conns[c].driver in st.current && st.current[st.conns[c].driver] == c
    ensures Inv(Rethrottled(st, c, th), wide)
  {
    var s := Rethrottled(st, c, th);
    assert forall d :: Line(s, d) == Line(st, d);
    assert Waiting(s, c) == th.pending && forall x :: x != c ==> Waiting(s, x) == Waiting(st, x);
  }

  lemma ReceiveKeeps(st: Pipe, throttleMs: nat, c: ConnId, now: int, fix: Fix, wide: bool)
    requires Inv(st, wide) && Can(st, Receive(c, now, fix))
    requires wide ==> OnCurrent(st, Receive(c, now, fix))
    ensures Inv(Received(st, throttleMs, c, now, fix), wide)
  {
    var d := st.conns[c].driver;
    var r := Report(|st.received|, c, d, fix);
    var th := st.conns[c].throttle;
    var arrived := st.(received := st.received + [r]);
    ArrivalKeeps(st, r, wide);
    assert Line(arrived, d) == Line(st, d);
    assert r in [r] && Genuine([r], arrived.received, d);
    if WindowOpen(th, throttleMs, now) {
      ReleasedAtOnceKeeps(arrived, c, th.(lastProcessedAt := Some(now), pending := None), r, wide);
    } else {
      WaitingKeeps(arrived, c, AfterMessage(th, throttleMs, now, r), wide);
    }
  }

  lemma ReleasedAtOnceKeeps(st: Pipe, c: ConnId, th: Throttle<Report>, r: Report, wide: bool)
    requires Inv(st, wide) && c in st.conns && th.flushTimer == st.conns[c].throttle.flushTimer && th.pending.None?
    requires r.driver == st.conns[c].driver && r.conn == c
    requires Genuine([r], st.received, r.driver) && AllBefore(Line(st, r.driver), r, wide)
    requires wide ==> st.conns[c].driver in st.current && st.current[st.conns[c].driver] == c
    ensures Inv(Enqueue(Rethrottled(st, c, th), Some(r)), wide)
  {
    var s := Rethrottled(st, c, th);
    RethrottleLoses(st, c, th);
    LosingKeeps(st, s, wide);
    FrontKeeps(Front(st, r.driver), InBatch(st, r.driver), st.received, r.driver, wide);
    EnqueueKeeps(s, r, wide);
  }

  // ---- Every run ------------------------------------------------------------------------------

  lemma StepKeeps(st: Pipe, throttleMs: nat, step: Step, wide: bool)
    requires Inv(st, wide) && Can(st, step) && (wide ==> OnCurrent(st, step))
    ensures Inv(Next(st, throttleMs, step), wide)
  {
    match step {
      case Connect(c, d) =>
        ConnectLoses(st, c, d);
        LosingKeeps(st, Connected(st, c, d), wide);
      case Receive(c, now, fix) => ReceiveKeeps(st, throttleMs, c, now, fix, wide);
      case TimerFires(c, now) => TimerKeeps(st, c, now, wide);
      case Close(c) =>
        CloseLoses(st, c);
        LosingKeeps(st, Disconnected(st, c), wide);
      case _ =>
        FlushLoses(st, throttleMs, step);
        LosingKeeps(st, Next(st, throttleMs, step), wide);
    }
  }

  ghost predicate Happens(throttleMs: nat, run: seq<Step>)
    decreases |run|, 0
  {
    run == [] ||
    (var before := run[..|run| - 1];
     Happens(throttleMs, before) && Can(Reached(throttleMs, before), run[|run| - 1]))
  }

  ghost function Reached(throttleMs: nat, run: seq<Step>): Pipe
    requires Happens(throttleMs, run)
    decreases |run|, 1
  {
    if run == [] then START else Next(Reached(throttleMs, run[..|run| - 1]), throttleMs, run[|run| - 1])
  }

  /** No message arrives on a connection that has been replaced. */
  ghost predicate NoStragglers(throttleMs: nat, run: seq<Step>)
    requires Happens(throttleMs, run)
  {
    run == [] ||
    (var before := run[..|run| - 1];
     NoStragglers(throttleMs, before) && OnCurrent(Reached(throttleMs, before), run[|run| - 1]))
  }

  lemma {:induction false} RunKeeps(throttleMs: nat, run: seq<Step>, wide: bool)
    requires Happens(throttleMs, run) && (wide ==> NoStragglers(throttleMs, run))
    ensures Inv(Reached(throttleMs, run), wide)
  {
    if run != [] {
      RunKeeps(throttleMs, run[..|run| - 1], wide);
      StepKeeps(Reached(throttleMs, run[..|run| - 1]), throttleMs, run[|run| - 1], wide);
    }
  }

  /** Each driver's broadcasts are an in-order subsequence of what was received from that driver. */
  lemma BroadcastsAreInOrder(throttleMs: nat, run: seq<Step>, d: DriverId, i: nat, j: nat)
    requires Happens(throttleMs, run) && NoStragglers(throttleMs, run)
    requires i < j < |Sent(Reached(throttleMs, run), d)|
    ensures var st := Reached(throttleMs, run);
            && Sent(st, d)[i].no < Sent(st, d)[j].no < |st.received|
            && st.received[Sent(st, d)[i].no] == Sent(st, d)[i]
            && st.received[Sent(st, d)[j].no] == Sent(st, d)[j]
            && Sent(st, d)[i].driver == d
  {
    RunKeeps(throttleMs, run, true);
    SentIsInLine(Reached(throttleMs, run), d, i);
    SentIsInLine(Reached(throttleMs, run), d, j);
  }

  /** Even with stragglers, this holds of the broadcasts that came over any one connection. */
  lemma ConnectionsAreInOrder(throttleMs: nat, run: seq<Step>, d: DriverId, i: nat, j: nat)
    requires Happens(throttleMs, run) && i < j < |Sent(Reached(throttleMs, run), d)|
    requires Sent(Reached(throttleMs, run), d)[i].conn == Sent(Reached(throttleMs, run), d)[j].conn
    ensures var st := Reached(throttleMs, run);
            && Sent(st, d)[i].no < Sent(st, d)[j].no < |st.received|
            && st.received[Sent(st, d)[i].no] == Sent(st, d)[i]
            && st.received[Sent(st, d)[j].no] == Sent(st, d)[j]
  {
    RunKeeps(throttleMs, run, false);
    SentIsInLine(Reached(throttleMs, run), d, i);
    SentIsInLine(Reached(throttleMs, run), d, j);
  }

  lemma SentIsInLine(st: Pipe, d: DriverId, i: nat)
    requires i < |Sent(st, d)|
    ensures i < |Line(st, d)| && Line(st, d)[i] == Sent(st, d)[i] && Sent(st, d)[i] in Line(st, d)
  {
    assert Line(st, d)[i] == Sent(st, d)[i];
  }

  // ---- The rate, end to end -------------------------------------------------------------------

  /** What one step of the pipeline is to the throttle of connection `c`. */
  ghost function EventsOf(st: Pipe, step: Step, c: ConnId): seq<Event<Report>>
    requires Can(st, step)
  {
    match step
    case Connect(_, d) => if d in st.current && st.current[d] == c && c in st.conns then [TimerCleared] else []
    case Receive(x, now, fix) =>
      if x == c then [Message(now, Report(|st.received|, c, st.conns[c].driver, fix))] else []
    case TimerFires(x, now) => if x == c then [Event.TimerFires(now)] else []
    case Close(x) => if x == c then [TimerCleared] else []
    case _ => []
  }

  ghost function Events(throttleMs: nat, run: seq<Step>, c: ConnId): seq<Event<Report>>
    requires Happens(throttleMs, run)
  {
    if run == [] then []
    else
      var before := run[..|run| - 1];
      Events(throttleMs, before, c) + EventsOf(Reached(throttleMs, before), run[|run| - 1], c)
  }

  lemma ThrottleAfter(st: Pipe, throttleMs: nat, step: Step, c: ConnId)
    requires Can(st, step)
    ensures var st', more := Next(st, throttleMs, step), EventsOf(st, step, c);
            if c in st.conns then
              && c in st'.conns
              && (|more| == 0 ==> st'.conns[c].throttle == st.conns[c].throttle)
              && (|more| > 0 ==>
                    && |more| == 1 && CanHappen(st.conns[c].throttle, more[0])
                    && st'.conns[c].throttle == Throttling.Next(st.conns[c].throttle, throttleMs, more[0]))
            else
              more == [] && (c in st'.conns ==> st'.conns[c].throttle == Fresh())
  {
  }

  lemma {:induction false} ThrottleFollowsItsEvents(throttleMs: nat, run: seq<Step>, c: ConnId)
    requires Happens(throttleMs, run)
    ensures var st, events := Reached(throttleMs, run), Events(throttleMs, run, c);
            && Throttling.Happens(throttleMs, events)
            && (if c in st.conns then st.conns[c].throttle == State(throttleMs, events) else events == [])
  {
    if run != [] {
      var before, step := run[..|run| - 1], run[|run| - 1];
      ThrottleFollowsItsEvents(throttleMs, before, c);
      ThrottleAfter(Reached(throttleMs, before), throttleMs, step, c);
      var events, more := Events(throttleMs, before, c), EventsOf(Reached(throttleMs, before), step, c);
      if more == [] {
        assert events + more == events;
      } else {
        assert (events + more)[..|events + more| - 1] == events;
      }
    }
  }

  /** In any run of the whole pipeline, a connection whose due timers fire before its later messages
      releases updates at least one throttle window apart. */
  lemma ConnectionReleasesAreSpaced(throttleMs: nat, run: seq<Step>, c: ConnId)
    requires Happens(throttleMs, run) && Prompt(throttleMs, Events(throttleMs, run, c))
    ensures Spaced(ReleaseTimes(throttleMs, Events(throttleMs, run, c)), throttleMs)
  {
    ThrottleFollowsItsEvents(throttleMs, run, c);
    ReleasesAreSpaced(throttleMs, Events(throttleMs, run, c));
  }

  // ---- What is lost, and what is not ----------------------------------------------------------

  function LastOf(line: seq<Report>): Option<Report> {
    if line == [] then None else Some(line[|line| - 1])
  }

  function LastReceived(received: seq<Report>, d: DriverId): Option<Report> {
    if received == [] then None
    else if received[|received| - 1].driver == d then Some(received[|received| - 1])
    else LastReceived(received[..|received| - 1], d)
  }

  /** What waits on the driver's current connection. */
  function WaitingFor(st: Pipe, d: DriverId): Option<Report> {
    if d in st.current then Waiting(st, st.current[d]) else None
  }

  /** The newest report of a driver that the pipeline still has, or has broadcast. */
  function Newest(st: Pipe, d: DriverId): Option<Report> {
    if WaitingFor(st, d).Some? then WaitingFor(st, d) else LastOf(Line(st, d))
  }

  /** The step drops the newest report held for the driver: its connection goes while an update waits,
      or a flush fails, or finds the driver gone, with nothing newer behind it. */
  predicate Drops(st: Pipe, step: Step, d: DriverId) {
    match step
    case Connect(_, x) => x == d && WaitingFor(st, d).Some?
    case Close(c) => d in st.current && st.current[d] == c && WaitingFor(st, d).Some?
    case FlushFails => st.flush.Awaiting? && d in st.flush.snapshot && d !in st.batch && WaitingFor(st, d).None?
    case FlushBroadcasts(known) =>
      st.flush.Awaiting? && d in st.flush.snapshot && d !in known && d !in st.batch && WaitingFor(st, d).None?
    case _ => false
  }

  predicate IsFrom(st: Pipe, step: Step, d: DriverId) {
    step.Receive? && step.c in st.conns && st.conns[step.c].driver == d
  }

  /** Since the driver's last message, its newest report was dropped. */
  ghost predicate Lost(throttleMs: nat, run: seq<Step>, d: DriverId)
    requires Happens(throttleMs, run)
  {
    run != [] &&
    (var before, step := run[..|run| - 1], run[|run| - 1];
     var st := Reached(throttleMs, before);
     !IsFrom(st, step, d) && (Lost(throttleMs, before, d) || Drops(st, step, d)))
  }

  ghost predicate Older(a: Option<Report>, b: Option<Report>) {
    b.Some? && (a.None? || a.value.no < b.value.no)
  }

  /** What the newest report of a driver is after a step. */
  ghost predicate NewestIsRight(st: Pipe, st': Pipe, step: Step, d: DriverId) {
    if IsFrom(st, step, d) then |st'.received| > 0 && Newest(st', d) == Some(st'.received[|st'.received| - 1])
    else if Drops(st, step, d) then Older(Newest(st', d), Newest(st, d))
    else Newest(st', d) == Newest(st, d)
  }

  /** What waits is newer than all that does not. */
  lemma WaitingIsNewest(st: Pipe, d: DriverId)
    requires Inv(st, true) && WaitingFor(st, d).Some?
    ensures Older(LastOf(Line(st, d)), WaitingFor(st, d))
  {
    assert Waiting(st, st.current[d]).Some? && st.conns[st.current[d]].driver == d;
  }

  ghost predicate Currents(st: Pipe) {
    Owned(st) && OnlyCurrentArmed(st)
  }

  lemma LineEnds(st: Pipe, d: DriverId)
    ensures LastOf(Line(st, d)) == if d in st.batch then Some(st.batch[d]) else LastOf(Front(st, d))
    ensures LastOf(Front(st, d)) ==
            if st.flush.Awaiting? && d in st.flush.snapshot then Some(st.flush.snapshot[d]) else LastOf(Sent(st, d))
  {
  }

  lemma ConnectWaiting(st: Pipe, c: ConnId, x: DriverId, d: DriverId)
    requires Currents(st) && c !in st.conns
    ensures WaitingFor(Connected(st, c, x), d) == if d == x then None else WaitingFor(st, d)
  {
  }

  lemma CloseWaiting(st: Pipe, c: ConnId, d: DriverId)
    requires Currents(st) && c in st.conns
    ensures WaitingFor(Disconnected(st, c), d) == if d in st.current && st.current[d] == c then None else WaitingFor(st, d)
  {
  }

  lemma ConnectionStepNewest(st: Pipe, throttleMs: nat, step: Step, d: DriverId)
    requires Inv(st, true) && Can(st, step) && (step.Connect? || step.Close?)
    ensures NewestIsRight(st, Next(st, throttleMs, step), step, d)
  {
    assert Line(Next(st, throttleMs, step), d) == Line(st, d);
    if step.Connect? {
      ConnectWaiting(st, step.c, step.d, d);
    } else {
      CloseWaiting(st, step.c, d);
    }
    if WaitingFor(st, d).Some? {
      WaitingIsNewest(st, d);
    }
  }

  lemma RethrottledWaiting(st: Pipe, c: ConnId, th: Throttle<Report>, d: DriverId)
    requires Currents(st) && c in st.conns
    ensures Line(Rethrottled(st, c, th), d) == Line(st, d) && Front(Rethrottled(st, c, th), d) == Front(st, d)
    ensures WaitingFor(Rethrottled(st, c, th), d) ==
            if d in st.current && st.current[d] == c then (if th.flushTimer.Some? then th.pending else None)
            else WaitingFor(st, d)
  {
  }

  lemma EnqueuedNewest(st: Pipe, r: Report, d: DriverId)
    ensures Newest(Enqueue(st, Some(r)), d) == if d == r.driver && WaitingFor(st, d).None? then Some(r) else Newest(st, d)
  {
    EnqueuedLine(st, r);
    assert WaitingFor(Enqueue(st, Some(r)), d) == WaitingFor(st, d);
  }

  lemma TimerNewest(st: Pipe, c: ConnId, now: int, d: DriverId)
    requires Currents(st) && Can(st, Step.TimerFires(c, now))
    requires st.conns[c].throttle.pending.Some? ==> st.conns[c].throttle.pending.value.driver == st.conns[c].driver
    ensures Newest(Fired(st, c, now), d) == Newest(st, d)
  {
    var th := st.conns[c].throttle;
    RethrottledWaiting(st, c, AfterTimer(th, now), d);
    if th.pending.Some? {
      EnqueuedNewest(Rethrottled(st, c, AfterTimer(th, now)), th.pending.value, d);
    }
  }

  lemma PendingIsOwn(st: Pipe, c: ConnId)
    requires Inv(st, true) && c in st.conns && st.conns[c].throttle.flushTimer.Some? && st.conns[c].throttle.pending.Some?
    ensures st.conns[c].throttle.pending.value.driver == st.conns[c].driver
  {
    var r := Waiting(st, c).value;
    assert r in [r];
  }

  lemma ReceiveNewest(st: Pipe, throttleMs: nat, c: ConnId, now: int, fix: Fix, d: DriverId)
    requires Currents(st) && Can(st, Receive(c, now, fix)) && OnCurrent(st, Receive(c, now, fix))
    ensures NewestIsRight(st, Received(st, throttleMs, c, now, fix), Receive(c, now, fix), d)
  {
    var r := Report(|st.received|, c, st.conns[c].driver, fix);
    var th := st.conns[c].throttle;
    var arrived := st.(received := st.received + [r]);
    assert Newest(arrived, d) == Newest(st, d) && Currents(arrived);
    RethrottledWaiting(arrived, c, AfterMessage(th, throttleMs, now, r), d);
    if WindowOpen(th, throttleMs, now) {
      EnqueuedNewest(Rethrottled(arrived, c, AfterMessage(th, throttleMs, now, r)), r, d);
    }
  }

  /** An ordered line that loses its last report ends in an older one. */
  lemma ShorterEndsOlder(sent: seq<Report>, r: Report)
    requires Ordered(sent + [r], true)
    ensures Older(LastOf(sent), Some(r))
  {
    if sent != [] {
      assert (sent + [r])[|sent| - 1] == sent[|sent| - 1] && (sent + [r])[|sent|] == r;
    }
  }

  lemma FlushNewest(st: Pipe, throttleMs: nat, step: Step, d: DriverId)
    requires Ordered(Line(st, d), true) && Can(st, step)
    requires IsFlush(step)
    ensures NewestIsRight(st, Next(st, throttleMs, step), step, d)
  {
    var st' := Next(st, throttleMs, step);
    LineEnds(st, d);
    LineEnds(st', d);
    assert WaitingFor(st', d) == WaitingFor(st, d);
    if st.flush.Awaiting? && d in st.flush.snapshot && d !in st.batch {
      assert Line(st, d) == Sent(st, d) + [st.flush.snapshot[d]];
      ShorterEndsOlder(Sent(st, d), st.flush.snapshot[d]);
    }
  }

  /** The newest report of a driver changes only by a message, to that message, and by a drop, to an
      older one. */
  lemma NewestAfter(st: Pipe, throttleMs: nat, step: Step, d: DriverId)
    requires Inv(st, true) && Can(st, step) && OnCurrent(st, step)
    ensures NewestIsRight(st, Next(st, throttleMs, step), step, d)
  {
    match step {
      case Connect(_, _) => ConnectionStepNewest(st, throttleMs, step, d);
      case Close(_) => ConnectionStepNewest(st, throttleMs, step, d);
      case Receive(c, now, fix) => ReceiveNewest(st, throttleMs, c, now, fix, d);
      case TimerFires(c, now) =>
        if st.conns[c].throttle.pending.Some? {
          PendingIsOwn(st, c);
        }
        TimerNewest(st, c, now, d);
      case _ => FlushNewest(st, throttleMs, step, d);
    }
  }

  lemma ReceivedAfter(st: Pipe, throttleMs: nat, step: Step, d: DriverId)
    requires Can(st, step)
    ensures var st' := Next(st, throttleMs, step);
            LastReceived(st'.received, d) ==
              if IsFrom(st, step, d) then Some(st'.received[|st'.received| - 1]) else LastReceived(st.received, d)
  {
    if step.Receive? {
      var r := Report(|st.received|, step.c, st.conns[step.c].driver, step.fix);
      assert (st.received + [r])[..|st.received|] == st.received;
    }
  }

  /** The pipeline still has, or has broadcast, a driver's last received report exactly when nothing
      dropped it. */
  lemma {:induction false} NewestIsLastReceived(throttleMs: nat, run: seq<Step>, d: DriverId)
    requires Happens(throttleMs, run) && NoStragglers(throttleMs, run)
    ensures var st := Reached(throttleMs, run);
            if Lost(throttleMs, run, d) then Older(Newest(st, d), LastReceived(st.received, d))
            else Newest(st, d) == LastReceived(st.received, d)
  {
    if run != [] {
      var before, step := run[..|run| - 1], run[|run| - 1];
      NewestIsLastReceived(throttleMs, before, d);
      RunKeeps(throttleMs, before, true);
      NewestAfter(Reached(throttleMs, before), throttleMs, step, d);
      ReceivedAfter(Reached(throttleMs, before), throttleMs, step, d);
    }
  }

  /** Nothing of the driver's waits anywhere. */
  predicate Quiet(st: Pipe, d: DriverId) {
    WaitingFor(st, d).None? && d !in st.batch && (st.flush.Awaiting? ==> d !in st.flush.snapshot)
  }

  /** Once quiet, the last broadcast is the last received report if and only if it was not dropped:
      by the connection going while it waited, a failed flush, or the driver's row being gone. */
  lemma LastBroadcastIsLastReceived(throttleMs: nat, run: seq<Step>, d: DriverId)
    requires Happens(throttleMs, run) && NoStragglers(throttleMs, run)
    requires Quiet(Reached(throttleMs, run), d)
    ensures var st := Reached(throttleMs, run);
            LastOf(Sent(st, d)) == LastReceived(st.received, d) <==> !Lost(throttleMs, run, d)
  {
    NewestIsLastReceived(throttleMs, run, d);
    assert Line(Reached(throttleMs, run), d) == Sent(Reached(throttleMs, run), d);
  }

  // ---- Stragglers -----------------------------------------------------------------------------

  ghost predicate Reaches(throttleMs: nat, run: seq<Step>, st: Pipe) {
    Happens(throttleMs, run) && Reached(throttleMs, run) == st
  }

  lemma OneMore(throttleMs: nat, run: seq<Step>, st: Pipe, step: Step)
    requires Reaches(throttleMs, run, st) && Can(st, step)
    ensures Reaches(throttleMs, run + [step], Next(st, throttleMs, step))
  {
    assert (run + [step])[..|run|] == run;
  }

  predicate IsTimed(step: Step) {
    step.Receive? || step.TimerFires?
  }

  /** The times of the steps do not go back, and lie between two instants. */
  ghost predicate Timely(steps: seq<Step>, from: int, to: int) {
    && (forall i :: 0 <= i < |steps| && IsTimed(steps[i]) ==> from <= steps[i].now <= to)
    && (forall i, j :: 0 <= i < j < |steps| && IsTimed(steps[i]) && IsTimed(steps[j]) ==> steps[i].now <= steps[j].now)
  }

  /** `longer` continues `run` with steps between two instants, and reaches `st`. */
  ghost predicate Continues(throttleMs: nat, run: seq<Step>, longer: seq<Step>, st: Pipe, from: int, to: int) {
    && Reaches(throttleMs, longer, st) && |run| <= |longer| && longer[..|run|] == run
    && Timely(longer[|run|..], from, to)
  }

  /** One more step, at the instant `at` if it is timed. */
  lemma Goes(throttleMs: nat, run: seq<Step>, before: seq<Step>, st: Pipe, from: int, to: int, step: Step, at: int)
    returns (longer: seq<Step>, st': Pipe)
    requires Continues(throttleMs, run, before, st, from, to) && Can(st, step)
    requires from <= to <= at && (IsTimed(step) ==> step.now == at)
    ensures Continues(throttleMs, run, longer, st', from, at) && st' == Next(st, throttleMs, step)
  {
    OneMore(throttleMs, before, st, step);
    longer, st' := before + [step], Next(st, throttleMs, step);
    assert longer[|run|..] == before[|run|..] + [step];
  }

  /** A flush in flight, if there is one, fails or ends. */
  lemma FlushSettles(throttleMs: nat, run: seq<Step>, before: seq<Step>, st: Pipe, now: int, at: int)
    returns (longer: seq<Step>, st': Pipe)
    requires Continues(throttleMs, run, before, st, now, at) && now <= at
    ensures Continues(throttleMs, run, longer, st', now, at) && st' == st.(flush := Idle)
  {
    if st.flush.Idle? {
      longer, st' := before, st;
    } else if st.flush.Awaiting? {
      longer, st' := Goes(throttleMs, run, before, st, now, at, FlushFails, at);
    } else {
      longer, st' := Goes(throttleMs, run, before, st, now, at, FlushEnds, at);
    }
  }

  /** What waits in the batch for a driver is broadcast. */
  lemma FlushesOut(throttleMs: nat, run: seq<Step>, before: seq<Step>, st: Pipe, now: int, at: int, d: DriverId)
    returns (longer: seq<Step>, st': Pipe)
    requires Continues(throttleMs, run, before, st, now, at) && now <= at && st.flush.Idle? && d in st.batch
    ensures Continues(throttleMs, run, longer, st', now, at) && st'.flush.Idle? && st'.conns == st.conns
    ensures Sent(st', d) == Sent(st, d) + [st.batch[d]] && st'.received == st.received
  {
    longer, st' := Goes(throttleMs, run, before, st, now, at, FlushStarts, at);
    longer, st' := Goes(throttleMs, run, longer, st', now, at, FlushBroadcasts({d}), at);
    assert Sent(st', d) == Sent(st, d) + [st.batch[d]];
    longer, st' := Goes(throttleMs, run, longer, st', now, at, FlushEnds, at);
  }

  /** Two messages on the old socket in one instant: the second waits, with the timer armed. One on the
      new socket in the same instant is released at once, and broadcast. */
  lemma NewerIsSent(throttleMs: nat, run: seq<Step>, before: seq<Step>, st: Pipe, c: ConnId, c1: ConnId, now: int,
                    f: Fix, g: Fix, h: Fix)
    returns (longer: seq<Step>, st': Pipe)
    requires Continues(throttleMs, run, before, st, now, now) && throttleMs > 0 && st.flush.Idle?
    requires c in st.conns && !st.conns[c].closed && WindowOpen(st.conns[c].throttle, throttleMs, now)
    requires c1 in st.conns && c1 != c && st.conns[c1] == Conn(st.conns[c].driver, Fresh(), false)
    ensures Continues(throttleMs, run, longer, st', now, now) && st'.flush.Idle? && c in st'.conns
    ensures var d, n := st.conns[c].driver, |st.received|;
            && st'.conns[c].driver == d && st'.conns[c].throttle.flushTimer.Some?
            && st'.conns[c].throttle.pending == Some(Report(n + 1, c, d, g))
            && Sent(st', d) == Sent(st, d) + [Report(n + 2, c1, d, h)]
  {
    var d, n := st.conns[c].driver, |st.received|;
    longer, st' := Goes(throttleMs, run, before, st, now, now, Receive(c, now, f), now);
    longer, st' := Goes(throttleMs, run, longer, st', now, now, Receive(c, now, g), now);
    longer, st' := Goes(throttleMs, run, longer, st', now, now, Receive(c1, now, h), now);
    assert d in st'.batch && st'.batch[d] == Report(n + 2, c1, d, h) && Sent(st', d) == Sent(st, d);
    longer, st' := FlushesOut(throttleMs, run, longer, st', now, now, d);
  }

  /** What waits on a socket is broadcast once its timer fires. */
  lemma WaitingIsSent(throttleMs: nat, run: seq<Step>, before: seq<Step>, st: Pipe, c: ConnId, now: int, r: Report)
    returns (longer: seq<Step>, st': Pipe, at: int)
    requires Continues(throttleMs, run, before, st, now, now) && st.flush.Idle? && c in st.conns
    requires st.conns[c].throttle.pending == Some(r) && st.conns[c].throttle.flushTimer.Some?
    ensures now <= at && Continues(throttleMs, run, longer, st', now, at)
    ensures Sent(st', r.driver) == Sent(st, r.driver) + [r]
  {
    at := Max(now, st.conns[c].throttle.flushTimer.value);
    longer, st' := Goes(throttleMs, run, before, st, now, now, Step.TimerFires(c, at), at);
    assert r.driver in st'.batch && st'.batch[r.driver] == r && Sent(st', r.driver) == Sent(st, r.driver);
    longer, st' := FlushesOut(throttleMs, run, longer, st', now, at, r.driver);
  }

  /** Without the hypothesis on stragglers the order fails: from any reachable state, two messages on any
      open socket that is not, or no longer, its driver's current one, at any instant at which its window
      is open, are enough for a continuation that broadcasts one of them after a report that was received
      later. */
  lemma StragglersBreakTheOrder(throttleMs: nat, run: seq<Step>, st: Pipe, c: ConnId, c1: ConnId, now: int, f: Fix, g: Fix, h: Fix)
    returns (longer: seq<Step>, st': Pipe, at: int)
    requires Reaches(throttleMs, run, st) && throttleMs > 0 && c in st.conns && !st.conns[c].closed && c1 !in st.conns
    requires var d := st.conns[c].driver; !(d in st.current && st.current[d] == c)
    requires WindowOpen(st.conns[c].throttle, throttleMs, now)
    ensures Continues(throttleMs, run, longer, st', now, at)
    ensures var d, n := st.conns[c].driver, |st.received|;
            && Sent(st', d) == Sent(st, d) + [Report(n + 2, c1, d, h)] + [Report(n + 1, c, d, g)]
            && !Ordered(Sent(st', d), true)
  {
    var d, n := st.conns[c].driver, |st.received|;
    assert run[|run|..] == [];
    longer, st' := FlushSettles(throttleMs, run, run, st, now, now);
    longer, st' := Goes(throttleMs, run, longer, st', now, now, Connect(c1, d), now);
    assert st'.conns[c] == st.conns[c] && Sent(st', d) == Sent(st, d);
    longer, st' := NewerIsSent(throttleMs, run, longer, st', c, c1, now, f, g, h);
    longer, st', at := WaitingIsSent(throttleMs, run, longer, st', c, now, Report(n + 1, c, d, g));
    var all := Sent(st', d);
    assert all[|all| - 2] == Report(n + 2, c1, d, h) && all[|all| - 1] == Report(n + 1, c, d, g);
    assert !Before(all[|all| - 2], all[|all| - 1], true);
  }
}
