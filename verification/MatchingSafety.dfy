// What holds of trip matching on every interleaving: no double booking, the life of a trip, what a
// finished run reports, who was asked, and which messages a driver can have been sent.

module MatchingSafety {
  import opened Wrappers
  import opened Ranking
  import opened DriverLocks
  import opened TripRows
  import opened TripOffers
  import opened Matching

  // ---- What one action does to the rows and the history ---------------------------------------

  ghost predicate EffectGuard(db: Db, e: Effect) {
    match e
    case Quiet => true
    case Chatter(event) => event.SentOffer? || event.GotResponse? || event.SentMatched?
    case Wrote(_, _) => true
    case Opened(t) => t !in db.trips
    case Booked(t, d) => CanFinalize(db, t, d)
    case Dropped(t, _) => IsOpen(db, t)
  }

  ghost function ActionEffect(w: World, a: Action): Effect
    requires Enabled(w, a)
  {
    match a
    case InsertTrip(t) => Opened(t)
    case InsertDriver(d, status) => Wrote(d, status)
    case PatchWrite(p) => Wrote(w.patches[p].driver, w.patches[p].next)
    case ReconcileOffline(d) => Wrote(d, Offline)
    case Respond(sender, t, accept) => Chatter(GotResponse(w.offers.pending[t], sender, accept))
    case RunAct(r, act) => EffectOf(w, w.runs[r], act)
    case _ => Quiet
  }

  /** Rows and history change by a guarded effect and by nothing else. */
  lemma StepEffect(w: World, a: Action)
    requires Enabled(w, a)
    ensures EffectGuard(w.db, ActionEffect(w, a))
    ensures Step(w, a).db == NewDb(w.db, ActionEffect(w, a))
    ensures Step(w, a).log == w.log + Events(ActionEffect(w, a))
  {
    assert w.log == w.log + [];
  }

  // ---- Bookings in the history ----------------------------------------------------------------

  /** The last thing that happened to the driver's row, of going online and being finalized, is
      going online. */
  ghost predicate Armed(log: seq<Event>, d: DriverId)
    decreases |log|
  {
    |log| > 0 &&
    var e := log[|log| - 1];
    if e == WroteOnline(d) then true
    else if e.Finalized? && e.driver == d then false
    else Armed(log[..|log| - 1], d)
  }

  /** Every finalization found its driver armed. */
  ghost predicate Guarded(log: seq<Event>) {
    forall i :: 0 <= i < |log| && log[i].Finalized? ==> Armed(log[..i], log[i].driver)
  }

  ghost function OnlineWrites(log: seq<Event>, d: DriverId): nat {
    if |log| == 0 then 0
    else OnlineWrites(log[..|log| - 1], d) + (if log[|log| - 1] == WroteOnline(d) then 1 else 0)
  }

  ghost function Bookings(log: seq<Event>, d: DriverId): nat {
    if |log| == 0 then 0
    else
      var e := log[|log| - 1];
      Bookings(log[..|log| - 1], d) + (if e.Finalized? && e.driver == d then 1 else 0)
  }

  /** An armed driver has an online write that no finalization follows. */
  lemma {:induction false} ArmedWitness(log: seq<Event>, d: DriverId) returns (k: nat)
    requires Armed(log, d)
    ensures k < |log| && log[k] == WroteOnline(d)
    ensures forall i :: k <= i < |log| && log[i].Finalized? ==> log[i].driver != d
  {
    var n := |log| - 1;
    if log[n] == WroteOnline(d) {
      k := n;
    } else {
      k := ArmedWitness(log[..n], d);
      assert forall i :: k <= i < n ==> log[i] == log[..n][i];
    }
  }

  lemma {:induction false} BookingsBound(log: seq<Event>, d: DriverId)
    requires Guarded(log)
    ensures Bookings(log, d) + (if Armed(log, d) then 1 else 0) <= OnlineWrites(log, d)
  {
    if |log| > 0 {
      var n := |log| - 1;
      var init := log[..n];
      assert Guarded(init) by {
        forall i | 0 <= i < |init| && init[i].Finalized? ensures Armed(init[..i], init[i].driver) {
          assert init[..i] == log[..i];
        }
      }
      BookingsBound(init, d);
    }
  }

  lemma ArmedAppend(log: seq<Event>, e: Event, d: DriverId)
    ensures Armed(log + [e], d)
       <==> e == WroteOnline(d) || (Armed(log, d) && !(e.Finalized? && e.driver == d))
  {
    assert (log + [e])[..|log|] == log;
  }

  lemma GuardedAppend(log: seq<Event>, e: Event)
    requires Guarded(log) && (e.Finalized? ==> Armed(log, e.driver))
    ensures Guarded(log + [e])
  {
    forall i | 0 <= i <= |log| && (log + [e])[i].Finalized? ensures Armed((log + [e])[..i], (log + [e])[i].driver) {
      assert (log + [e])[..i] == log[..i];
      assert log[..|log|] == log;
    }
  }

  /** Online rows are armed, and so every finalization so far was. */
  ghost predicate RowsArmed(db: Db, log: seq<Event>) {
    Guarded(log) && forall d :: d in db.drivers && db.drivers[d] == Online ==> Armed(log, d)
  }

  ghost predicate BookingInv(w: World) {
    RowsArmed(w.db, w.log)
  }

  lemma BookingEffect(db: Db, log: seq<Event>, e: Effect)
    requires RowsArmed(db, log) && EffectGuard(db, e)
    ensures RowsArmed(NewDb(db, e), log + Events(e))
  {
    if Events(e) == [] {
      assert log + Events(e) == log;
    } else {
      var event := Events(e)[0];
      GuardedAppend(log, event);
      forall d | d in NewDb(db, e).drivers && NewDb(db, e).drivers[d] == Online ensures Armed(log + Events(e), d) {
        ArmedAppend(log, event, d);
      }
    }
  }

  lemma BookingStep(w: World, a: Action)
    requires BookingInv(w) && Enabled(w, a)
    ensures BookingInv(Step(w, a))
  {
    StepEffect(w, a);
    BookingEffect(w.db, w.log, ActionEffect(w, a));
  }

  lemma {:induction false} BookingAlways(w: World, actions: seq<Action>)
    requires BookingInv(w) && Legal(w, actions)
    ensures BookingInv(After(w, actions))
    decreases |actions|
  {
    if |actions| > 0 {
      BookingStep(w, actions[0]);
      BookingAlways(Step(w, actions[0]), actions[1..]);
    }
  }

  /** No double booking, whatever the locks, the searches and the other writers do: between two
      finalizations onto a driver that driver's row was written 'online'. */
  lemma NoDoubleBooking(actions: seq<Action>, i: nat, j: nat, d: DriverId, t1: TripId, t2: TripId)
    requires Legal(INITIAL, actions)
    requires i < j < |After(INITIAL, actions).log|
    requires After(INITIAL, actions).log[i] == Finalized(t1, d)
    requires After(INITIAL, actions).log[j] == Finalized(t2, d)
    ensures exists k :: i < k < j && After(INITIAL, actions).log[k] == WroteOnline(d)
  {
    var log := After(INITIAL, actions).log;
    BookingAlways(INITIAL, actions);
    var k := ArmedWitness(log[..j], d);
    assert log[..j][k] == log[k] && log[..j][i] == log[i];
  }

  /** Finalizations onto a driver never outnumber the 'online' writes to its row. */
  lemma BookingsNeverExceedOnlineWrites(actions: seq<Action>, d: DriverId)
    requires Legal(INITIAL, actions)
    ensures Bookings(After(INITIAL, actions).log, d) <= OnlineWrites(After(INITIAL, actions).log, d)
  {
    BookingAlways(INITIAL, actions);
    BookingsBound(After(INITIAL, actions).log, d);
  }

  // ---- The life of a trip ---------------------------------------------------------------------

  /** A trip leaves 'requested' once, for 'matched' with a driver or 'cancelled' without one, and
      its row never changes again. */
  ghost predicate RowsProgress(db: Db, db': Db) {
    forall t :: t in db.trips ==>
      && t in db'.trips
      && (db.trips[t].status != Requested ==> db'.trips[t] == db.trips[t])
      && (db.trips[t].status == Requested && db'.trips[t] != db.trips[t] ==>
            db'.trips[t].status == Matched || db'.trips[t].status == Cancelled)
  }

  /** Rows have one of the three shapes, and those with a driver are the finalizations on record. */
  ghost predicate RowsOk(db: Db, log: seq<Event>) {
    && (forall t :: t in db.trips ==> WellShaped(db.trips[t]))
    && (forall t: TripId, d: DriverId :: Finalized(t, d) in log <==> t in db.trips && db.trips[t].driverId == Some(d))
    && OncePerTrip(log)
  }

  ghost predicate OncePerTrip(log: seq<Event>) {
    forall i, j :: 0 <= i < j < |log| && log[i].Finalized? && log[j].Finalized? ==> log[i].trip != log[j].trip
  }

  lemma RowsEffect(db: Db, log: seq<Event>, e: Effect)
    requires RowsOk(db, log) && EffectGuard(db, e)
    ensures RowsOk(NewDb(db, e), log + Events(e))
    ensures RowsProgress(db, NewDb(db, e))
  {
    var log' := log + Events(e);
    assert forall t: TripId, d: DriverId :: Finalized(t, d) in log' <==> Finalized(t, d) in log || Finalized(t, d) in Events(e);
    if e.Booked? {
      forall i | 0 <= i < |log| && log[i].Finalized? ensures log[i].trip != e.trip {
        assert Finalized(log[i].trip, log[i].driver) in log;
      }
    }
  }

  ghost predicate RowsInv(w: World) {
    RowsOk(w.db, w.log)
  }

  lemma RowsStep(w: World, a: Action)
    requires RowsInv(w) && Enabled(w, a)
    ensures RowsInv(Step(w, a)) && RowsProgress(w.db, Step(w, a).db)
  {
    StepEffect(w, a);
    RowsEffect(w.db, w.log, ActionEffect(w, a));
  }

  lemma {:induction false} RowsAlways(w: World, actions: seq<Action>)
    requires RowsInv(w) && Legal(w, actions)
    ensures RowsInv(After(w, actions)) && RowsProgress(w.db, After(w, actions).db)
    decreases |actions|
  {
    if |actions| > 0 {
      RowsStep(w, actions[0]);
      RowsAlways(Step(w, actions[0]), actions[1..]);
    }
  }

  /** The life of a trip over any two consecutive stretches of any run: driver_id is set at most
      once, exactly when the trip becomes matched, and a resolved trip stays as it is. */
  lemma TripLifecycle(before: seq<Action>, after: seq<Action>)
    requires Legal(INITIAL, before) && Legal(After(INITIAL, before), after)
    ensures var w := After(INITIAL, before);
            RowsInv(w) && RowsInv(After(w, after)) && RowsProgress(w.db, After(w, after).db)
  {
    RowsAlways(INITIAL, before);
    RowsAlways(After(INITIAL, before), after);
  }

  // ---- What a run does and reports ------------------------------------------------------------

  predicate Exhausted(pc: Pc) {
    pc.MarkingUnmatched? || pc.Rereading? || (pc.Done? && pc.outcome.OutcomeUnmatched?)
  }

  function ReasonOf(pc: Pc): Reason
    requires Exhausted(pc)
  {
    match pc
    case MarkingUnmatched(reason) => reason
    case Rereading(reason) => reason
    case Done(outcome) => outcome.reason
  }

  /** The ranking holds every driver found, once. */
  ghost predicate Lists(run: Run) {
    && NoDuplicates(Drivers(run.scored))
    && forall d :: d in Drivers(run.scored) <==> d in run.found
  }

  /** Candidates are ranked by non-increasing score and tried in that order. */
  ghost predicate InOrder(run: Run) {
    && NoDuplicates(run.found) && SortedBy(run.scored, Descending)
    && |run.tried| <= |run.scored| && run.tried == Drivers(run.scored)[..|run.tried|]
  }

  /** A run gives up only when no candidate is left. */
  ghost predicate PcFits(run: Run) {
    && (run.pc.Searching? ==> run.found == [] && run.scored == [])
    && (run.pc.Scoring? ==> run.found != [] && run.scored == [])
    && (run.pc.Choosing? || Critical(run.pc) ==> run.found != [])
    && (Critical(run.pc) || run.pc.ReadingFinal? ==> |run.tried| > 0)
    && (!run.pc.Scoring? && !run.pc.Failed? ==> Lists(run))
    && (Exhausted(run.pc) ==> |run.tried| == |run.scored|
                              && (ReasonOf(run.pc) == NoDriversAvailable <==> run.found == []))
  }

  ghost predicate RunShape(run: Run) {
    InOrder(run) && PcFits(run)
  }

  /** What a run believes about its trip is true of the row, and stays true. */
  ghost predicate RunReport(db: Db, run: Run) {
    && run.trip in db.trips
    && var row := db.trips[run.trip];
    && (run.pc == Committed || run.pc == Releasing(Won) || run.pc == ReadingFinal ==>
          |run.tried| > 0 && row.driverId == Some(Current(run)))
    && (run.pc.Rereading? ==> row.status != Requested)
    && (run.pc.Done? ==> row.status != Requested)
    && (run.pc == Done(OutcomeMatched) ==> row.status == Matched)
    && (run.pc.Done? && run.pc.outcome.OutcomeUnmatched? ==> row.status == Cancelled)
  }

  lemma ReportSurvives(db: Db, db': Db, run: Run)
    requires RunReport(db, run) && RowsProgress(db, db')
    requires forall t :: t in db.trips ==> WellShaped(db.trips[t])
    ensures RunReport(db', run)
  {
  }

  ghost predicate RunsInv(w: World) {
    && RowsInv(w)
    && forall r :: r in w.runs ==> RunShape(w.runs[r]) && RunReport(w.db, w.runs[r])
  }

  lemma PrefixGrows(scored: seq<Candidate>, n: nat)
    requires n < |scored|
    ensures Drivers(scored)[..n] + [scored[n].driver] == Drivers(scored)[..n + 1]
  {
  }

  lemma PermutedDrivers(found: seq<DriverId>, pairs: seq<Candidate>, scored: seq<Candidate>)
    requires NoDuplicates(found) && Drivers(pairs) == found
    requires NoDuplicates(scored) && forall c :: c in scored <==> c in pairs
    ensures NoDuplicates(Drivers(scored)) && forall d :: d in Drivers(scored) <==> d in found
  {
    forall i, j | 0 <= i < j < |scored| ensures Drivers(scored)[i] != Drivers(scored)[j] {
      assert scored[i] in pairs && scored[j] in pairs;
      var a :| 0 <= a < |pairs| && pairs[a] == scored[i];
      var b :| 0 <= b < |pairs| && pairs[b] == scored[j];
      assert Drivers(pairs)[a] != Drivers(pairs)[b];
    }
    forall d | d in Drivers(scored) ensures d in found {
      var i :| 0 <= i < |scored| && scored[i].driver == d;
      assert scored[i] in pairs;
      var a :| 0 <= a < |pairs| && pairs[a] == scored[i];
      assert Drivers(pairs)[a] == d;
    }
    forall d | d in found ensures d in Drivers(scored) {
      var a :| 0 <= a < |found| && found[a] == d;
      assert pairs[a] in scored;
      var i :| 0 <= i < |scored| && scored[i] == pairs[a];
      assert Drivers(scored)[i] == d;
    }
  }

  /** Scoring and sorting: every driver found is ranked once, with its own score, best score first. */
  lemma ScoringRanks(found: seq<DriverId>, scores: seq<real>)
    requires |scores| == |found| && NoDuplicates(found)
    ensures var scored := Sort(Pair(found, scores), Descending);
            && NoDuplicates(Drivers(scored)) && (forall d :: d in Drivers(scored) <==> d in found)
            && (forall i :: 0 <= i < |found| ==> Candidate(found[i], scores[i]) in scored)
            && (forall i, j :: 0 <= i < j < |scored| ==> scored[i].score >= scored[j].score)
  {
    var pairs := Pair(found, scores);
    var scored := Sort(pairs, Descending);
    assert Drivers(pairs) == found;
    forall i, j | 0 <= i < j < |pairs| ensures pairs[i] != pairs[j] {
      assert pairs[i].driver != pairs[j].driver;
    }
    SortRanks(pairs, (set c | c in pairs), Descending);
    PermutedDrivers(found, pairs, scored);
    forall i | 0 <= i < |found| ensures Candidate(found[i], scores[i]) in scored {
      assert pairs[i] in pairs;
    }
    forall i, j | 0 <= i < j < |scored| ensures scored[i].score >= scored[j].score {
      assert Descending(scored[i]) <= Descending(scored[j]);
    }
  }

  lemma ScoreShape(run: Run, run': Run, scores: seq<real>)
    requires run.pc.Scoring? && |scores| == |run.found| && RunShape(run)
    requires run' == run.(pc := Choosing, scored := Sort(Pair(run.found, scores), Descending))
    ensures RunShape(run')
  {
    ScoringRanks(run.found, scores);
    assert run'.tried == [] == Drivers(run'.scored)[..0];
  }

  lemma TryShape(run: Run, run': Run)
    requires run.pc.Choosing? && |run.tried| < |run.scored| && RunShape(run)
    requires run'.found == run.found && run'.scored == run.scored
    requires run'.tried == run.tried + [run.scored[|run.tried|].driver]
    requires run'.pc.Locked? || run'.pc.Choosing?
    ensures RunShape(run')
  {
    PrefixGrows(run.scored, |run.tried|);
  }

  /** Where a run may go with its lists as they are. */
  predicate MayGo(run: Run, pc: Pc) {
    || pc.Failed?
    || (&& !run.pc.Searching? && !run.pc.Scoring? && !run.pc.Failed? && !pc.Searching? && !pc.Scoring?
        && (pc.Choosing? || Critical(pc) ==> run.found != [])
        && (Critical(pc) || pc.ReadingFinal? ==> |run.tried| > 0)
        && (Exhausted(pc) ==> |run.tried| == |run.scored| && (ReasonOf(pc) == NoDriversAvailable <==> run.found == [])))
  }

  lemma MoveShape(run: Run, run': Run)
    requires RunShape(run) && MayGo(run, run'.pc)
    requires run'.found == run.found && run'.scored == run.scored && run'.tried == run.tried
    ensures RunShape(run')
  {
  }

  lemma MoveAllowed(w: World, run: Run, act: RunAction)
    requires CanAct(w, run, act) && PcFits(run) && |run.tried| <= |run.scored|
    requires !act.Search? && !act.Score? && !act.TryLock?
    ensures MayGo(run, NextPc(w, run, act))
  {
  }

  lemma StartShape(run: Run)
    requires run.found == [] && run.scored == [] && run.tried == []
    requires run.pc.Searching? || run.pc == Done(OutcomeAlreadyResolved)
    ensures RunShape(run)
  {
  }

  lemma SearchShape(run: Run, run': Run)
    requires run.pc.Searching? && RunShape(run) && NoDuplicates(run'.found)
    requires run'.scored == run.scored && run'.tried == run.tried
    requires run'.pc == if run'.found == [] then MarkingUnmatched(NoDriversAvailable) else Scoring
    ensures RunShape(run')
  {
  }

  lemma RunStep(w: World, run: Run, act: RunAction)
    requires CanAct(w, run, act) && RunShape(run)
    ensures RunShape(NextRun(w, run, act))
  {
    var run' := NextRun(w, run, act);
    match act {
      case Search(_, _) => SearchShape(run, run');
      case Score(scores) => ScoreShape(run, run', scores);
      case TryLock => TryShape(run, run');
      case _ =>
        MoveAllowed(w, run, act);
        MoveShape(run, run');
    }
  }

  lemma ReportStep(w: World, run: Run, act: RunAction)
    requires CanAct(w, run, act) && RunReport(w.db, run)
    requires forall t :: t in w.db.trips ==> WellShaped(w.db.trips[t])
    ensures RunReport(NewDb(w.db, EffectOf(w, run, act)), NextRun(w, run, act))
  {
  }

  lemma RunsStep(w: World, a: Action)
    requires RunsInv(w) && Enabled(w, a)
    ensures RunsInv(Step(w, a))
  {
    var w' := Step(w, a);
    RowsStep(w, a);
    forall r | r in w'.runs ensures RunShape(w'.runs[r]) && RunReport(w'.db, w'.runs[r]) {
      if a.RunAct? && a.run == r {
        RunStep(w, w.runs[r], a.act);
        ReportStep(w, w.runs[r], a.act);
      } else if a.StartMatch? && a.run == r {
        StartShape(w'.runs[r]);
      } else {
        ReportSurvives(w.db, w'.db, w.runs[r]);
      }
    }
  }

  lemma {:induction false} RunsAlways(w: World, actions: seq<Action>)
    requires RunsInv(w) && Legal(w, actions)
    ensures RunsInv(After(w, actions))
    decreases |actions|
  {
    if |actions| > 0 {
      RunsStep(w, actions[0]);
      RunsAlways(Step(w, actions[0]), actions[1..]);
    }
  }

  lemma TriedOnce(run: Run)
    requires InOrder(run) && Lists(run)
    ensures NoDuplicates(run.tried) && forall d :: d in run.tried ==> d in run.found
    ensures |run.tried| == |run.scored| ==> forall d :: d in run.found ==> d in run.tried
  {
    assert forall d :: d in run.tried ==> d in Drivers(run.scored);
    if |run.tried| == |run.scored| {
      assert run.tried == Drivers(run.scored);
    }
  }

  /** When matchTrip returns normally: the trip is resolved and the outcome says how; the drivers
      tried are distinct search results, tried by non-increasing score; and a run that reports that
      every candidate declined tried every one of them. */
  lemma FinishedRun(actions: seq<Action>, r: RunId)
    requires Legal(INITIAL, actions)
    requires r in After(INITIAL, actions).runs && After(INITIAL, actions).runs[r].pc.Done?
    ensures var w := After(INITIAL, actions);
            var run := w.runs[r];
            var outcome := run.pc.outcome;
            && run.trip in w.db.trips && w.db.trips[run.trip].status != Requested
            && (outcome == OutcomeMatched ==> w.db.trips[run.trip].status == Matched)
            && (outcome.OutcomeUnmatched? ==> w.db.trips[run.trip].status == Cancelled)
            && NoDuplicates(run.tried) && (forall d :: d in run.tried ==> d in run.found)
            && |run.tried| <= |run.scored|
            && (forall i, j :: 0 <= i < j < |run.tried| ==> run.scored[i].score >= run.scored[j].score)
            && (forall i :: 0 <= i < |run.tried| ==> run.tried[i] == run.scored[i].driver)
            && (outcome == OutcomeUnmatched(NoDriversAvailable) ==> run.found == [])
            && (outcome == OutcomeUnmatched(AllCandidatesDeclined) ==>
                  run.found != [] && forall d :: d in run.found ==> d in run.tried)
  {
    RunsAlways(INITIAL, actions);
    var run := After(INITIAL, actions).runs[r];
    TriedOnce(run);
    forall i, j | 0 <= i < j < |run.tried| ensures run.scored[i].score >= run.scored[j].score {
      assert Descending(run.scored[i]) <= Descending(run.scored[j]);
    }
  }
}
