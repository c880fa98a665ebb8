// Runs of the matching protocol put together action by action: for each thing matching does not
// guarantee, a run that shows it, and from which states it can happen.

module MatchingRuns {
  import opened Wrappers
  import opened Numbers
  import opened Ranking
  import opened DriverLocks
  import opened TripRows
  import opened TripOffers
  import opened Matching
  import opened MatchingSafety
  import opened MatchingLocks
  import opened MatchingOffers

  // ---- Reaching a state -----------------------------------------------------------------------

  /** Some legal run leads from `w` to `w'`. */
  ghost predicate Leads(w: World, w': World) {
    exists actions :: Legal(w, actions) && After(w, actions) == w'
  }

  ghost predicate Reachable(w: World) {
    Leads(INITIAL, w)
  }

  /** A property that every action keeps: if it holds at the start of a run it holds at its end. */
  ghost predicate Closed(P: World -> bool) {
    forall w, a :: P(w) && Enabled(w, a) ==> P(Step(w, a))
  }

  lemma LeadsIsClosed(w0: World)
    ensures Closed(w => Leads(w0, w)) && Leads(w0, w0)
  {
    assert Legal(w0, []) && After(w0, []) == w0;
    forall w, a | Leads(w0, w) && Enabled(w, a) ensures Leads(w0, Step(w, a)) {
      var actions :| Legal(w0, actions) && After(w0, actions) == w;
      Extend(w0, actions, a);
    }
  }

  lemma ReachableIsClosed()
    ensures Closed(w => Reachable(w)) && Reachable(INITIAL)
  {
    LeadsIsClosed(INITIAL);
  }

  lemma LeadsOn(w0: World, w1: World, w2: World)
    requires Leads(w0, w1) && Leads(w1, w2)
    ensures Leads(w0, w2)
  {
    var a :| Legal(w0, a) && After(w0, a) == w1;
    var b :| Legal(w1, b) && After(w1, b) == w2;
    Joined(w0, a, b);
  }

  lemma {:induction false} Joined(w: World, a: seq<Action>, b: seq<Action>)
    requires Legal(w, a) && Legal(After(w, a), b)
    ensures Legal(w, a + b) && After(w, a + b) == After(After(w, a), b)
    decreases |a|
  {
    if |a| == 0 {
      assert a + b == b;
    } else {
      Joined(Step(w, a[0]), a[1..], b);
      assert (a + b)[0] == a[0] && (a + b)[1..] == a[1..] + b;
    }
  }

  /** What every reachable state satisfies. */
  lemma ReachableInv(w: World)
    requires Reachable(w)
    ensures AnswersInv(w) && BookingInv(w) && LocksInv(w)
  {
    var actions :| Legal(INITIAL, actions) && After(INITIAL, actions) == w;
    AnswersAlways(INITIAL, actions);
    BookingAlways(INITIAL, actions);
    LocksAlways(INITIAL, actions);
  }

  /** One more action. */
  lemma Take(P: World -> bool, w: World, a: Action) returns (w': World)
    requires Closed(P) && P(w) && Enabled(w, a)
    ensures w' == Step(w, a) && P(w')
  {
    w' := Step(w, a);
  }

  lemma {:induction false} Extend(w: World, actions: seq<Action>, a: Action)
    requires Legal(w, actions) && Enabled(After(w, actions), a)
    ensures Legal(w, actions + [a]) && After(w, actions + [a]) == Step(After(w, actions), a)
    decreases |actions|
  {
    if |actions| == 0 {
      assert actions + [a] == [a];
      assert Legal(Step(w, a), [a][1..]);
    } else {
      Extend(Step(w, actions[0]), actions[1..], a);
      assert (actions + [a])[0] == actions[0] && (actions + [a])[1..] == actions[1..] + [a];
    }
  }

  lemma RankedPair(found: seq<DriverId>, scores: seq<real>)
    requires |found| == |scores| <= 2 && (|found| == 2 ==> scores[0] >= scores[1])
    ensures Sort(Pair(found, scores), Descending) == Pair(found, scores)
  {
    var pairs := Pair(found, scores);
    if |found| == 1 {
      assert pairs == [pairs[0]] && pairs[1..] == [];
    } else if |found| == 2 {
      assert pairs[1..] == [pairs[1]] && pairs[1..][1..] == [];
      assert pairs == [pairs[0]] + [pairs[1]];
    }
  }

  /** A run for trip `t` that has ranked the given drivers and chooses among them. */
  function Ranked(t: TripId, timeoutMs: nat, found: seq<DriverId>, scores: seq<real>): Run
    requires |found| == |scores|
  {
    Run(t, Choosing, timeoutMs, found, Pair(found, scores), [], 0, 0, None, None)
  }

  /** One more action of a run, its parts spelled out. */
  lemma Act(P: World -> bool, w: World, r: RunId, act: RunAction) returns (w': World)
    requires Closed(P) && P(w) && r in w.runs && CanAct(w, w.runs[r], act)
    ensures P(w')
    ensures var run, e := w.runs[r], EffectOf(w, w.runs[r], act);
            w' == World(w.now, NewDb(w.db, e), NextLocks(w, run, act), NextOffers(w, run, act),
                        if act.SendOffer? then w.nextOffer + 1 else w.nextOffer,
                        w.patches, w.runs[r := NextRun(w, run, act)], w.log + Events(e))
  {
    w' := Take(P, w, RunAct(r, act));
  }

  lemma Prepare(P: World -> bool, w: World, r: RunId, t: TripId, timeoutMs: nat, found: seq<DriverId>,
                scores: seq<real>) returns (w': World)
    requires Closed(P) && P(w) && t !in w.db.trips && r !in w.runs
    requires 0 < |found| == |scores| <= 2 && (|found| == 2 ==> scores[0] >= scores[1]) && NoDuplicates(found)
    ensures P(w')
    ensures w' == w.(db := w.db.(trips := w.db.trips[t := NEW_TRIP]), runs := w.runs[r := Ranked(t, timeoutMs, found, scores)])
  {
    var w1 := Take(P, w, InsertTrip(t));
    var w2 := Take(P, w1, StartMatch(r, t));
    assert w2 == w.(db := w.db.(trips := w.db.trips[t := NEW_TRIP]), runs := w.runs[r := NewRun(w1.db, t)]) by {
      assert w.log + [] == w.log;
    }
    w' := SearchAndScore(P, w2, r, timeoutMs, found, scores);
    assert w'.runs == w.runs[r := Ranked(t, timeoutMs, found, scores)];
  }

  lemma SearchAndScore(P: World -> bool, w: World, r: RunId, timeoutMs: nat, found: seq<DriverId>,
                       scores: seq<real>) returns (w': World)
    requires Closed(P) && P(w) && r in w.runs
    requires w.runs[r] == Run(w.runs[r].trip, Searching, 0, [], [], [], 0, 0, None, None)
    requires 0 < |found| == |scores| <= 2 && (|found| == 2 ==> scores[0] >= scores[1]) && NoDuplicates(found)
    ensures P(w') && w' == w.(runs := w.runs[r := Ranked(w.runs[r].trip, timeoutMs, found, scores)])
  {
    var w3 := Act(P, w, r, Search(timeoutMs, found));
    var run := w.runs[r].(pc := Scoring, offerTimeoutMs := timeoutMs, found := found);
    assert w3.log == w.log && w3.runs == w.runs[r := run];
    w' := Act(P, w3, r, Score(scores));
    RankedPair(found, scores);
    assert w'.log == w3.log && w'.runs[r] == Ranked(w.runs[r].trip, timeoutMs, found, scores);
    assert w'.runs == w.runs[r := w'.runs[r]];
  }

  /** The run with the lock of its next candidate. */
  function WithLock(w: World, run: Run): Run
    requires |run.tried| < |run.scored|
  {
    run.(pc := Locked, tried := run.tried + [run.scored[|run.tried|].driver],
         acquiredAt := w.now, offeredAt := None, resumedAt := None)
  }

  lemma LockNext(P: World -> bool, w: World, r: RunId) returns (w': World)
    requires Closed(P) && P(w) && r in w.runs && w.runs[r].pc == Choosing && |w.runs[r].tried| < |w.runs[r].scored|
    requires Live(w.locks, w.runs[r].scored[|w.runs[r].tried|].driver, w.now).None?
    ensures P(w')
    ensures var run := w.runs[r];
            var d := run.scored[|run.tried|].driver;
            w' == w.(locks := w.locks[d := Lock(run.trip, w.now + run.offerTimeoutMs + LOCK_SLACK_MS)],
                     runs := w.runs[r := WithLock(w, run)])
  {
    w' := Act(P, w, r, TryLock);
    assert w'.log == w.log;
  }

  lemma OfferLocked(P: World -> bool, w: World, r: RunId) returns (w': World)
    requires Closed(P) && P(w) && r in w.runs && w.runs[r].pc == Locked && |w.runs[r].tried| > 0
    ensures P(w')
    ensures var run := w.runs[r];
            w' == w.(offers := TripOffers.Waiting(w.offers, run.trip, w.nextOffer), nextOffer := w.nextOffer + 1,
                     runs := w.runs[r := run.(pc := Pc.Waiting, offer := w.nextOffer, offeredAt := Some(w.now))],
                     log := w.log + [SentOffer(run.trip, Current(run), w.nextOffer)])
  {
    w' := Act(P, w, r, SendOffer(true));
  }

  /** The attempt on the next candidate up to the offer: lock, then offer. */
  lemma OfferNext(P: World -> bool, w: World, r: RunId) returns (w': World)
    requires Closed(P) && P(w) && r in w.runs && w.runs[r].pc == Choosing && |w.runs[r].tried| < |w.runs[r].scored|
    requires Live(w.locks, w.runs[r].scored[|w.runs[r].tried|].driver, w.now).None?
    ensures P(w')
    ensures var run := w.runs[r];
            var d := run.scored[|run.tried|].driver;
            w' == w.(locks := w.locks[d := Lock(run.trip, w.now + run.offerTimeoutMs + LOCK_SLACK_MS)],
                     offers := TripOffers.Waiting(w.offers, run.trip, w.nextOffer), nextOffer := w.nextOffer + 1,
                     runs := w.runs[r := WithLock(w, run).(pc := Pc.Waiting, offer := w.nextOffer, offeredAt := Some(w.now))],
                     log := w.log + [SentOffer(run.trip, d, w.nextOffer)])
  {
    var w1 := LockNext(P, w, r);
    w' := OfferLocked(P, w1, r);
    assert w'.runs == w.runs[r := w'.runs[r]];
  }

  /** An accept that arrives while the run waits, up to the finalization. */
  lemma AcceptAndFinalize(P: World -> bool, w: World, r: RunId, sender: DriverId) returns (w': World)
    requires Closed(P) && P(w) && r in w.runs && w.runs[r].pc == Pc.Waiting && |w.runs[r].tried| > 0
    requires var run := w.runs[r];
             && run.trip in w.offers.pending && w.offers.pending[run.trip] == run.offer
             && run.offer !in w.offers.outcome && CanFinalize(w.db, run.trip, Current(run))
    ensures P(w')
    ensures var run := w.runs[r];
            && w'.db == Finalize(w.db, run.trip, Current(run)) && w'.now == w.now && w'.locks == w.locks
            && w'.patches == w.patches && w'.runs.Keys == w.runs.Keys && w'.nextOffer == w.nextOffer
            && w'.offers == Answered(w.offers, run.trip, true)
            && w'.log == w.log + [GotResponse(run.offer, sender, true), Finalized(run.trip, Current(run))]
  {
    var run := w.runs[r];
    var w1 := Take(P, w, Respond(sender, run.trip, true));
    assert w1.runs == w.runs && w1.offers.outcome[run.offer];
    var w2 := Act(P, w1, r, Resume);
    assert w2.log == w1.log && w2.runs[r].pc == Finalizing;
    w' := Act(P, w2, r, TryFinalize);
  }

  /** An offer nobody answers: the timeout fires and the lock is released. */
  lemma LetOfferLapse(P: World -> bool, w: World, r: RunId) returns (w': World)
    requires Closed(P) && P(w) && r in w.runs && w.runs[r].pc == Pc.Waiting && |w.runs[r].tried| > 0
    requires w.runs[r].offeredAt == Some(w.now) && w.runs[r].offer !in w.offers.outcome
    requires w.runs[r].offer in w.offers.timers && w.offers.timers[w.runs[r].offer] == w.runs[r].trip
    requires var run := w.runs[r];
             Current(run) in w.locks && w.locks[Current(run)] == Lock(run.trip, w.now + run.offerTimeoutMs + LOCK_SLACK_MS)
    ensures P(w')
    ensures var run := w.runs[r];
            var now := w.now + run.offerTimeoutMs;
            && w' == w.(now := now, locks := w.locks - {Current(run)}, offers := TimedOut(w.offers, run.offer),
                        runs := w.runs[r := run.(pc := Choosing, resumedAt := Some(now))])
  {
    var run := w.runs[r];
    var w1 := Take(P, w, Tick(run.offerTimeoutMs));
    var w2 := Act(P, w1, r, FireTimeout);
    assert w2.log == w.log && w2.runs == w.runs;
    var w3 := Act(P, w2, r, Resume);
    assert w3.log == w.log && w3.runs[r].pc == Releasing(Lost) && Current(w3.runs[r]) == Current(run);
    w' := Act(P, w3, r, ReleaseLock);
    assert w'.log == w.log && w'.locks == w.locks - {Current(run)};
    assert w'.runs == w.runs[r := run.(pc := Choosing, resumedAt := Some(w1.now))];
  }

  /** The two drivers of the runs below, both online. */
  lemma TwoDrivers(P: World -> bool) returns (w: World)
    requires Closed(P) && P(INITIAL)
    ensures P(w)
    ensures w == INITIAL.(db := Db(map[], map[1 := Online, 2 := Online]), log := [WroteOnline(1), WroteOnline(2)])
  {
    var w1 := Take(P, INITIAL, InsertDriver(1, Online));
    assert w1 == INITIAL.(db := Db(map[], map[1 := Online]), log := [WroteOnline(1)]);
    w := Take(P, w1, InsertDriver(2, Online));
  }

  /** Driver 1 was offered trip 0 and let the offer run out; driver 2 is next. */
  lemma FirstOfferLapsed(P: World -> bool) returns (w: World)
    requires Closed(P) && P(INITIAL)
    ensures P(w) && w.now == 10 && w.locks == map[] && w.nextOffer == 1
    ensures w.db == Db(map[0 := NEW_TRIP], map[1 := Online, 2 := Online])
    ensures w.offers == Offers(map[], map[], map[0 := false])
    ensures w.log == [WroteOnline(1), WroteOnline(2), SentOffer(0, 1, 0)]
    ensures 0 in w.runs
    ensures w.runs[0] == Ranked(0, 10, [1, 2], [1.0, 0.0]).(tried := [1], offeredAt := Some(0), resumedAt := Some(10))
  {
    w := TwoDrivers(P);
    w := Prepare(P, w, 0, 0, 10, [1, 2], [1.0, 0.0]);
    w := OfferNext(P, w, 0);
    w := LetOfferLapse(P, w, 0);
  }

  lemma LateAcceptRun(P: World -> bool) returns (w: World)
    requires Closed(P) && P(INITIAL)
    ensures P(w) && Finalized(0, 2) in w.log && w.db.trips == map[0 := TripRow(Matched, Some(2), None)]
    ensures forall o: OfferId, accept: bool :: GotResponse(o, 2, accept) !in w.log
  {
    w := FirstOfferLapsed(P);
    w := OfferNext(P, w, 0);
    assert Current(w.runs[0]) == 2 && w.runs[0].trip == 0 && w.runs[0].offer == 1;
    w := AcceptAndFinalize(P, w, 0, 1);
    assert w.log == [WroteOnline(1), WroteOnline(2), SentOffer(0, 1, 0), SentOffer(0, 2, 1),
                     GotResponse(1, 1, true), Finalized(0, 2)];
  }

  /** A late accept answers somebody else's offer: driver 1 lets its offer run out, driver 2 is
      offered the trip next, and the accept of driver 1 then books driver 2, who never answered. */
  lemma LateAcceptBooksAnother() returns (w: World)
    ensures Reachable(w) && Finalized(0, 2) in w.log && w.db.trips == map[0 := TripRow(Matched, Some(2), None)]
    ensures forall o: OfferId, accept: bool :: GotResponse(o, 2, accept) !in w.log
  {
    ReachableIsClosed();
    w := LateAcceptRun(w => Reachable(w));
  }

  /** Driver 1 has been matched to trip 0. */
  lemma FirstMatch(P: World -> bool) returns (w: World)
    requires Closed(P) && P(INITIAL)
    ensures P(w) && w.now == 0 && w.runs.Keys == {0} && w.patches == map[]
    ensures w.offers.outcome == map[0 := true] && w.nextOffer == 1 && w.locks == map[1 := Lock(0, 5010)]
    ensures w.db == Db(map[0 := TripRow(Matched, Some(1), None)], map[1 := Busy, 2 := Online])
  {
    w := TwoDrivers(P);
    w := Prepare(P, w, 0, 0, 10, [1], [1.0]);
    w := OfferNext(P, w, 0);
    w := AcceptAndFinalize(P, w, 0, 1);
  }

  /** Driver 1 has been matched to trip 0 and then written back to 'online' by a status update. */
  lemma MatchedAndBackOnline(P: World -> bool) returns (w: World)
    requires Closed(P) && P(INITIAL)
    ensures P(w) && w.now == 6000 && w.runs.Keys == {0}
    ensures w.offers.outcome == map[0 := true] && w.nextOffer == 1 && w.locks == map[1 := Lock(0, 5010)]
    ensures w.db == Db(map[0 := TripRow(Matched, Some(1), None)], map[1 := Online, 2 := Online])
  {
    w := FirstMatch(P);
    w := Take(P, w, PatchRead(0, 1, Online));
    w := Take(P, w, PatchWrite(0));
    w := Take(P, w, Tick(6000));
  }

  lemma TwoActiveTripsRun(P: World -> bool) returns (w: World)
    requires Closed(P) && P(INITIAL)
    ensures P(w)
    ensures w.db.trips == map[0 := TripRow(Matched, Some(1), None), 1 := TripRow(Matched, Some(1), None)]
  {
    w := MatchedAndBackOnline(P);
    w := Prepare(P, w, 1, 1, 10, [1], [1.0]);
    w := OfferNext(P, w, 1);
    assert w.runs[1].offer == 1 && Current(w.runs[1]) == 1 && w.runs[1].trip == 1;
    w := AcceptAndFinalize(P, w, 1, 1);
  }

  /** One driver can have two active trips: after the first match a status update writes the busy
      driver back to 'online', which is legal at any time, and the second match finds it free. */
  lemma TwoActiveTrips() returns (w: World)
    ensures Reachable(w)
    ensures w.db.trips == map[0 := TripRow(Matched, Some(1), None), 1 := TripRow(Matched, Some(1), None)]
  {
    ReachableIsClosed();
    w := TwoActiveTripsRun(w => Reachable(w));
  }

  // ---- Whose accept books ---------------------------------------------------------------------

  /** A run waits for the driver of its current attempt, who can still be booked. */
  ghost predicate Awaits(w: World, r: RunId) {
    && r in w.runs && w.runs[r].pc == Pc.Waiting && |w.runs[r].tried| > 0
    && w.runs[r].offer !in w.offers.outcome
    && CanFinalize(w.db, w.runs[r].trip, Current(w.runs[r]))
  }

  lemma AwaitedIsPending(w: World, r: RunId)
    requires AnswersInv(w) && SingleRuns(w) && Awaits(w, r)
    ensures var run := w.runs[r];
            && run.trip in w.offers.pending && w.offers.pending[run.trip] == run.offer
            && forall sender: DriverId :: OpenOffer(w, run.trip, sender) <==> sender == Current(run)
  {
    var run := w.runs[r];
    assert RunAsked(w, run);
    assert SentOffer(run.trip, Current(run), run.offer) in w.log;
  }

  /** The only answers the driver's own offer can have are those in `more`. */
  lemma OwnAcceptIsNew(w: World, r: RunId, sender: DriverId, log': seq<Event>)
    requires Unanswered(w) && OncePerDriver(w) && Awaits(w, r) && RunAsked(w, w.runs[r])
    requires log' == w.log + [GotResponse(w.runs[r].offer, sender, true), Finalized(w.runs[r].trip, Current(w.runs[r]))]
    ensures OwnAccept(log', w.runs[r].trip, Current(w.runs[r])) <==> sender == Current(w.runs[r])
  {
    var run := w.runs[r];
    var t, d := run.trip, Current(run);
    assert SentOffer(t, d, run.offer) in w.log;
    if sender == d {
      assert SentOffer(t, d, run.offer) in log' && GotResponse(run.offer, d, true) in log';
    }
    if OwnAccept(log', t, d) {
      var o: OfferId :| SentOffer(t, d, o) in log' && GotResponse(o, d, true) in log';
      assert SentOffer(t, d, o) in w.log;
      assert o == run.offer && GotResponse(o, d, true) !in w.log;
    }
  }

  /** Once an accept has come in for a waiting run, its driver is booked, whoever sent it; and the
      driver has accepted itself if and only if the sender's own offer was still open. */
  lemma BookedByOwnAcceptIffOpen(w: World, r: RunId, sender: DriverId) returns (w': World)
    requires Reachable(w) && SingleRuns(w) && Awaits(w, r)
    ensures Leads(w, w') && Finalized(w.runs[r].trip, Current(w.runs[r])) in w'.log
    ensures GotResponse(w.runs[r].offer, sender, true) in w'.log
    ensures OwnAccept(w'.log, w.runs[r].trip, Current(w.runs[r])) <==> OpenOffer(w, w.runs[r].trip, sender)
  {
    ReachableInv(w);
    AwaitedIsPending(w, r);
    LeadsIsClosed(w);
    w' := AcceptAndFinalize(x => Leads(w, x), w, r, sender);
    OwnAcceptIsNew(w, r, sender, w'.log);
  }

  // ---- When a driver can be booked again ------------------------------------------------------

  /** Two trips of one driver: the driver was written online after it had been finalized. */
  lemma TwoTripsNeedOnlineWrite(w: World, d: DriverId, t1: TripId, t2: TripId)
    requires Reachable(w) && t1 != t2 && t1 in w.db.trips && t2 in w.db.trips
    requires w.db.trips[t1].driverId == Some(d) && w.db.trips[t2].driverId == Some(d)
    ensures exists i, k :: 0 <= i < k < |w.log| && w.log[i].Finalized? && w.log[i].driver == d && w.log[k] == WroteOnline(d)
  {
    var actions :| Legal(INITIAL, actions) && After(INITIAL, actions) == w;
    RowsAlways(INITIAL, actions);
    assert Finalized(t1, d) in w.log && Finalized(t2, d) in w.log;
    var i :| 0 <= i < |w.log| && w.log[i] == Finalized(t1, d);
    var j :| 0 <= j < |w.log| && w.log[j] == Finalized(t2, d);
    if i < j {
      NoDoubleBooking(actions, i, j, d, t1, t2);
    } else {
      NoDoubleBooking(actions, j, i, d, t2, t1);
    }
  }

  ghost predicate IsOnline(w: World, d: DriverId) {
    d in w.db.drivers && w.db.drivers[d] == Online
  }

  /** The run finalizes a trip onto the driver without an online write to its row. */
  ghost predicate BooksWithoutWrite(w: World, w': World, d: DriverId) {
    && |w.log| <= |w'.log| && w.log == w'.log[..|w.log|]
    && WroteOnline(d) !in w'.log[|w.log|..]
    && exists t: TripId :: Finalized(t, d) in w'.log[|w.log|..]
  }

  lemma {:induction false} LogExtends(w: World, actions: seq<Action>)
    requires Legal(w, actions)
    ensures |w.log| <= |After(w, actions).log| && w.log == After(w, actions).log[..|w.log|]
    decreases |actions|
  {
    if |actions| > 0 {
      StepEffect(w, actions[0]);
      LogExtends(Step(w, actions[0]), actions[1..]);
    }
  }

  /** A driver that is not online is finalized by no run before it is written online. */
  lemma {:induction false} NotOnlineNotBooked(w: World, actions: seq<Action>, d: DriverId)
    requires Legal(w, actions) && !IsOnline(w, d)
    requires |w.log| <= |After(w, actions).log| && WroteOnline(d) !in After(w, actions).log[|w.log|..]
    ensures forall t: TripId :: Finalized(t, d) !in After(w, actions).log[|w.log|..]
    decreases |actions|
  {
    if |actions| > 0 {
      var w1, w2 := Step(w, actions[0]), After(w, actions);
      var e := ActionEffect(w, actions[0]);
      StepEffect(w, actions[0]);
      LogExtends(w1, actions[1..]);
      assert w2.log[|w.log|..] == Events(e) + w2.log[|w1.log|..];
      assert !IsOnline(w1, d) by {
        assert WroteOnline(d) !in Events(e);
      }
      NotOnlineNotBooked(w1, actions[1..], d);
    }
  }

  /** An identifier not in use. */
  lemma Fresh(used: set<nat>) returns (n: nat)
    ensures forall x :: x in used ==> x < n
  {
    if used == {} {
      n := 0;
    } else {
      var x :| x in used;
      var m := Fresh(used - {x});
      n := Max(m, x + 1);
      forall y | y in used ensures y < n {
        assert y == x || y in used - {x};
      }
    }
  }

  /** The lock of the driver expires. */
  lemma LockExpires(P: World -> bool, w: World, d: DriverId) returns (w': World)
    requires Closed(P) && P(w)
    ensures P(w') && Live(w'.locks, d, w'.now).None?
    ensures w' == w.(now := if d in w.locks then Max(w.now, w.locks[d].expiresAt) else w.now)
  {
    w' := Take(P, w, Tick(if d in w.locks then Max(0, w.locks[d].expiresAt - w.now) else 0));
  }

  lemma BookFree(P: World -> bool, w: World, r: RunId, t: TripId, d: DriverId) returns (w': World)
    requires Closed(P) && P(w) && w.nextOffer !in w.offers.outcome && IsOnline(w, d) && Live(w.locks, d, w.now).None?
    requires t !in w.db.trips && r !in w.runs
    ensures P(w')
    ensures w'.db.trips == w.db.trips[t := TripRow(Matched, Some(d), None)] && w'.patches == w.patches
    ensures w'.log == w.log + [SentOffer(t, d, w.nextOffer), GotResponse(w.nextOffer, d, true), Finalized(t, d)]
  {
    var w2 := Prepare(P, w, r, t, 10, [d], [1.0]);
    var w3 := OfferNext(P, w2, r);
    assert Current(w3.runs[r]) == d && w3.runs[r].trip == t && w3.runs[r].offer == w.nextOffer;
    w' := AcceptAndFinalize(P, w3, r, d);
    assert w'.log == w.log + [SentOffer(t, d, w.nextOffer), GotResponse(w.nextOffer, d, true), Finalized(t, d)];
  }

  /** An online driver is offered a new trip, accepts and is booked, as soon as its lock has expired. */
  lemma BookOnline(P: World -> bool, w: World, d: DriverId) returns (w': World, t: TripId)
    requires Closed(P) && P(w) && w.nextOffer !in w.offers.outcome && IsOnline(w, d)
    ensures P(w') && t !in w.db.trips
    ensures w'.db.trips == w.db.trips[t := TripRow(Matched, Some(d), None)] && w'.patches == w.patches
    ensures w'.log == w.log + [SentOffer(t, d, w.nextOffer), GotResponse(w.nextOffer, d, true), Finalized(t, d)]
  {
    t := Fresh(w.db.trips.Keys);
    var r := Fresh(w.runs.Keys);
    w' := LockExpires(P, w, d);
    w' := BookFree(P, w', r, t, d);
  }

  /** From any reachable state a driver can be finalized, again or for the first time, without being
      written online first, if and only if its row is online; active trips play no part in it. */
  lemma BookableIffOnline(w: World, d: DriverId)
    requires Reachable(w)
    ensures (exists w' :: Leads(w, w') && BooksWithoutWrite(w, w', d)) <==> IsOnline(w, d)
  {
    ReachableInv(w);
    if IsOnline(w, d) {
      LeadsIsClosed(w);
      var w', t := BookOnline(x => Leads(w, x), w, d);
      assert w'.log[|w.log|..] == [SentOffer(t, d, w.nextOffer), GotResponse(w.nextOffer, d, true), Finalized(t, d)];
      assert BooksWithoutWrite(w, w', d);
    } else {
      forall w' | Leads(w, w') ensures !BooksWithoutWrite(w, w', d) {
        var actions :| Legal(w, actions) && After(w, actions) == w';
        if BooksWithoutWrite(w, w', d) {
          NotOnlineNotBooked(w, actions, d);
        }
      }
    }
  }

  /** Whenever a driver with an active trip is online, it can get a second one. */
  lemma OnlineWithTripGetsSecond(w: World, d: DriverId, t1: TripId) returns (w': World, t2: TripId)
    requires Reachable(w) && t1 in w.db.trips && w.db.trips[t1].driverId == Some(d) && IsOnline(w, d)
    ensures Leads(w, w') && t1 != t2 && t1 in w'.db.trips && t2 in w'.db.trips
    ensures w'.db.trips[t1] == w.db.trips[t1] && w'.db.trips[t2] == TripRow(Matched, Some(d), None)
  {
    ReachableInv(w);
    LeadsIsClosed(w);
    w', t2 := BookOnline(x => Leads(w, x), w, d);
  }

  // ---- When a second offer can reach a driver -------------------------------------------------

  lemma FreshRunIsSingle(w: World, w': World, r: RunId)
    requires RunsInv(w) && SingleRuns(w) && w'.runs.Keys == w.runs.Keys + {r}
    requires w'.runs[r].trip !in w.db.trips && forall x :: x in w.runs ==> w'.runs[x] == w.runs[x]
    ensures SingleRuns(w')
  {
    forall x | x in w.runs ensures w.runs[x].trip in w.db.trips {
      assert RunReport(w.db, w.runs[x]);
    }
  }

  /** A fresh trip is offered to the driver whose lock is free. */
  lemma OfferFresh(P: World -> bool, w: World, d: DriverId) returns (w': World, r2: RunId)
    requires Closed(P) && P(w) && Live(w.locks, d, w.now).None?
    ensures P(w') && r2 !in w.runs && w'.runs.Keys == w.runs.Keys + {r2} && w'.now == w.now
    ensures forall r :: r in w.runs ==> w'.runs[r] == w.runs[r]
    ensures w'.runs[r2].trip !in w.db.trips && w'.offers.outcome == w.offers.outcome
    ensures w'.runs[r2].pc == Pc.Waiting && w'.runs[r2].tried == [d] && w'.runs[r2].acquiredAt == w.now
    ensures w'.runs[r2].offeredAt == Some(w.now) && w'.runs[r2].resumedAt == None
  {
    var t := Fresh(w.db.trips.Keys);
    r2 := Fresh(w.runs.Keys);
    var w1 := Prepare(P, w, r2, t, 10, [d], [1.0]);
    w' := OfferNext(P, w1, r2);
  }

  /** Once the lock on its driver has expired, any run in its critical section can be joined there by
      a second one: a fresh trip is offered to the same driver while the first run still claims it. */
  lemma LapsedLockLetsAnotherIn(w: World, r: RunId, d: DriverId) returns (w': World, r2: RunId)
    requires Reachable(w) && SingleRuns(w) && Claims(w, r, d) && Live(w.locks, d, w.now).None?
    ensures Leads(w, w') && w'.now == w.now && SingleRuns(w')
    ensures r2 != r && r in w'.runs && w'.runs[r] == w.runs[r] && Claims(w', r, d)
    ensures Claims(w', r2, d) && w'.runs[r2].pc == Pc.Waiting && OutsideDelay(w', w'.runs[r2]) == 0
    ensures w'.offers.outcome == w.offers.outcome
  {
    ReachableInv(w);
    LeadsIsClosed(w);
    w', r2 := OfferFresh(x => Leads(w, x), w, d);
    FreshRunIsSingle(w, w', r2);
  }

  /** And every lock expires if the run takes long enough: no state is safe from this for ever. */
  lemma EveryClaimCanBeJoined(w: World, r: RunId, d: DriverId) returns (w': World, r2: RunId)
    requires Reachable(w) && SingleRuns(w) && Claims(w, r, d)
    ensures Leads(w, w') && SingleRuns(w')
    ensures w'.now == if d in w.locks then Max(w.now, w.locks[d].expiresAt) else w.now
    ensures r2 != r && r in w'.runs && w'.runs[r] == w.runs[r] && Claims(w', r, d)
    ensures Claims(w', r2, d) && w'.runs[r2].pc == Pc.Waiting
  {
    var ms := if d in w.locks then Max(0, w.locks[d].expiresAt - w.now) else 0;
    var actions :| Legal(INITIAL, actions) && After(INITIAL, actions) == w;
    Extend(INITIAL, actions, Tick(ms));
    var w1 := Step(w, Tick(ms));
    assert w1.runs == w.runs && Claims(w1, r, d);
    w', r2 := LapsedLockLetsAnotherIn(w1, r, d);
    var more :| Legal(w1, more) && After(w1, more) == w';
    assert ([Tick(ms)] + more)[1..] == more;
    assert Legal(w, [Tick(ms)] + more) && After(w, [Tick(ms)] + more) == w';
  }

  /** Two runs are past the lock of one driver, each delayed outside its offer wait by less than `bound`. */
  ghost predicate Contend(w: World, r1: RunId, r2: RunId, d: DriverId, bound: int) {
    && r1 != r2 && Claims(w, r1, d) && Claims(w, r2, d)
    && OutsideDelay(w, w.runs[r1]) < bound && OutsideDelay(w, w.runs[r2]) < bound
  }

  /** One run has the lock on driver 1 and is held up before its offer. */
  lemma SlowOffer(P: World -> bool, timeoutMs: nat) returns (w: World)
    requires Closed(P) && P(INITIAL)
    ensures P(w) && w.now == LOCK_SLACK_MS + timeoutMs && w.locks == map[1 := Lock(0, LOCK_SLACK_MS + timeoutMs)]
    ensures w.runs.Keys == {0} && w.runs[0].pc == Pc.Waiting && w.runs[0].trip == 0 && 0 in w.db.trips && w.runs[0].tried == [1]
    ensures w.runs[0].offer !in w.offers.outcome
    ensures w.runs[0].offerTimeoutMs == timeoutMs && OutsideDelay(w, w.runs[0]) == LOCK_SLACK_MS
  {
    w := TwoDrivers(P);
    w := Prepare(P, w, 0, 0, timeoutMs, [1], [1.0]);
    w := LockNext(P, w, 0);
    w := Take(P, w, Tick(LOCK_SLACK_MS));
    w := OfferLocked(P, w, 0);
    w := Take(P, w, Tick(timeoutMs));
  }

  /** A lock has expired under an offer in flight: both runs wait for driver 1. */
  ghost predicate BothWait(w: World, r2: RunId, timeoutMs: nat) {
    && SingleRuns(w) && r2 != 0 && Claims(w, 0, 1) && Claims(w, r2, 1)
    && w.runs[0].pc == Pc.Waiting && w.runs[0].offer !in w.offers.outcome && w.runs[0].offerTimeoutMs == timeoutMs
    && w.runs[r2].pc == Pc.Waiting
    && OutsideDelay(w, w.runs[0]) == 5000 && OutsideDelay(w, w.runs[r2]) == 0
  }

  lemma TwoOffersRun(P: World -> bool, timeoutMs: nat) returns (w: World, r2: RunId)
    requires Closed(P) && P(INITIAL)
    ensures P(w) && BothWait(w, r2, timeoutMs)
  {
    var w0 := SlowOffer(P, timeoutMs);
    assert w0.runs[0].trip in w0.db.trips;
    w, r2 := OfferFresh(P, w0, 1);
    assert w.runs[0] == w0.runs[0];
  }

  /** This happens whatever the offer timeout: 5000 ms pass between the lock and the offer of one run,
      then the timeout is about to fire; a second run takes the lock, and both have an open offer. */
  lemma TwoOffersInFlight(timeoutMs: nat) returns (w: World, r2: RunId)
    ensures Reachable(w) && BothWait(w, r2, timeoutMs)
  {
    ReachableIsClosed();
    w, r2 := TwoOffersRun(x => Reachable(x), timeoutMs);
  }

  /** 5000 ms is the exact bound: delays under it keep every second run out, and no larger bound does. */
  lemma FiveSecondsIsExact(bound: int)
    ensures (forall w, r1, r2, d :: Reachable(w) && SingleRuns(w) ==> !Contend(w, r1, r2, d, bound))
       <==> bound <= 5000
  {
    if bound <= 5000 {
      forall w, r1, r2, d | Reachable(w) && SingleRuns(w) ensures !Contend(w, r1, r2, d, bound) {
        if Contend(w, r1, r2, d, bound) {
          var actions :| Legal(INITIAL, actions) && After(INITIAL, actions) == w;
          NoSecondOffer(actions, r1, r2, d);
        }
      }
    } else {
      var w, r2 := TwoOffersInFlight(10);
      assert Contend(w, 0, r2, 1, bound);
    }
  }

  // ---- Status updates -------------------------------------------------------------------------

  /** An update that is written as soon as it has been checked obeys the rules: it is let through exactly
      if it neither makes an offline driver busy nor takes a busy one offline, and then sets the status. */
  lemma PromptUpdateKeepsRules(w: World, p: PatchId, d: DriverId, next: DriverStatus)
    requires p !in w.patches && d in w.db.drivers
    ensures var before := w.db.drivers[d];
            Enabled(w, PatchRead(p, d, next)) <==> !(before == Offline && next == Busy) && !(before == Busy && next == Offline)
    ensures Enabled(w, PatchRead(p, d, next)) ==>
              var checked := Step(w, PatchRead(p, d, next));
              && checked.db == w.db && Enabled(checked, PatchWrite(p))
              && Step(checked, PatchWrite(p)).db == w.db.(drivers := w.db.drivers[d := next])
              && Step(checked, PatchWrite(p)).patches == w.patches
  {
    var checked := w.(patches := w.patches[p := Patch(d, next)]);
    assert checked.patches - {p} == w.patches;
  }

  /** Reconciliation asks no such question: it takes any known driver offline, busy or not, and leaves its
      trips and every other driver as they are. */
  lemma ReconciliationTakesAnyoneOffline(w: World, d: DriverId)
    requires d in w.db.drivers
    ensures Enabled(w, ReconcileOffline(d))
    ensures var w' := Step(w, ReconcileOffline(d));
            && d in w'.db.drivers && w'.db.drivers[d] == Offline
            && w'.db.drivers - {d} == w.db.drivers - {d} && w'.db.trips == w.db.trips && w'.log == w.log
  {
    assert w.log + [] == w.log;
  }

  lemma StaleUpdateRun(P: World -> bool, w: World, d: DriverId) returns (w': World, t: TripId)
    requires Closed(P) && P(w) && w.nextOffer !in w.offers.outcome && IsOnline(w, d)
    ensures P(w') && t in w'.db.trips && w'.db.trips[t] == TripRow(Matched, Some(d), None)
    ensures d in w'.db.drivers && w'.db.drivers[d] == Offline
  {
    var p := Fresh(w.patches.Keys);
    var w1 := Take(P, w, PatchRead(p, d, Offline));
    assert w1 == w.(patches := w.patches[p := Patch(d, Offline)]);
    var w2;
    w2, t := BookOnline(P, w1, d);
    assert w2.patches[p] == Patch(d, Offline) && t in w2.db.trips;
    w' := Take(P, w2, PatchWrite(p));
    StepEffect(w2, PatchWrite(p));
  }

  /** But the check and the write are apart: from every reachable state in which a driver is online, an
      update to 'offline' checked now can be written after the driver has been matched, and takes it
      offline in the middle of its trip. */
  lemma StaleUpdateTakesMatchedDriverOffline(w: World, d: DriverId) returns (w': World, t: TripId)
    requires Reachable(w) && IsOnline(w, d)
    ensures Leads(w, w') && t in w'.db.trips && w'.db.trips[t] == TripRow(Matched, Some(d), None)
    ensures d in w'.db.drivers && w'.db.drivers[d] == Offline
  {
    ReachableInv(w);
    LeadsIsClosed(w);
    w', t := StaleUpdateRun(x => Leads(w, x), w, d);
  }
}
