// What is left when a matching run has returned: the row it reports, and what its driver was told.

module MatchingResults {
  import opened Wrappers
  import opened Ranking
  import opened DriverLocks
  import opened TripRows
  import opened TripOffers
  import opened Matching
  import opened MatchingSafety
  import opened MatchingLocks
  import opened MatchingOffers
  import opened MatchingRuns

  // ---- The row a run leaves -------------------------------------------------------------------

  /** The trip is matched to the driver of the run's last attempt. */
  predicate MatchedToCurrent(run: Run, row: TripRow) {
    |run.tried| > 0 && row == TripRow(Matched, Some(Current(run)), None)
  }

  /** The row of a trip that only this run is matching, at every point of the run. */
  predicate RowFits(run: Run, row: TripRow) {
    match run.pc
    case Committed => MatchedToCurrent(run, row)
    case ReadingFinal => MatchedToCurrent(run, row)
    case Releasing(verdict) =>
      if verdict.Won? then MatchedToCurrent(run, row) else verdict.Lost? ==> row == TripRow(Requested, None, None)
    case Rereading(_) => false
    case Done(outcome) =>
      (match outcome
       case OutcomeMatched => MatchedToCurrent(run, row)
       case OutcomeUnmatched(reason) => row == TripRow(Cancelled, None, Some(reason))
       case OutcomeAlreadyResolved => row.status == Matched || row.status == Cancelled)
    case Failed => true
    case _ => row == TripRow(Requested, None, None)
  }

  ghost predicate RowsFit(w: World) {
    forall r :: r in w.runs ==> w.runs[r].trip in w.db.trips && RowFits(w.runs[r], w.db.trips[w.runs[r].trip])
  }

  ghost predicate ResultsInv(w: World) {
    RowsInv(w) && (SingleRuns(w) ==> RowsFit(w))
  }

  /** The run's own action. */
  lemma OwnRowFits(w: World, run: Run, act: RunAction)
    requires CanAct(w, run, act) && run.trip in w.db.trips && RowFits(run, w.db.trips[run.trip])
    ensures var db := NewDb(w.db, EffectOf(w, run, act));
            run.trip in db.trips && RowFits(NextRun(w, run, act), db.trips[run.trip])
  {
  }

  /** Whatever else happens, the row of a trip changes only by an action of a run for that trip. */
  lemma OthersKeepRow(w: World, a: Action, t: TripId)
    requires Enabled(w, a) && t in w.db.trips && (a.RunAct? ==> w.runs[a.run].trip != t)
    ensures t in Step(w, a).db.trips && Step(w, a).db.trips[t] == w.db.trips[t]
  {
    StepEffect(w, a);
  }

  lemma ResultsStep(w: World, a: Action)
    requires ResultsInv(w) && Enabled(w, a)
    ensures ResultsInv(Step(w, a))
  {
    var w' := Step(w, a);
    RowsStep(w, a);
    if SingleRuns(w') {
      SingleRunsBefore(w, a);
      forall r | r in w'.runs ensures w'.runs[r].trip in w'.db.trips && RowFits(w'.runs[r], w'.db.trips[w'.runs[r].trip]) {
        if a.RunAct? && a.run == r {
          OwnRowFits(w, w.runs[r], a.act);
        } else if !(a.StartMatch? && a.run == r) {
          OthersKeepRow(w, a, w.runs[r].trip);
        }
      }
    }
  }

  lemma {:induction false} ResultsAlways(w: World, actions: seq<Action>)
    requires ResultsInv(w) && Legal(w, actions)
    ensures ResultsInv(After(w, actions))
    decreases |actions|
  {
    if |actions| > 0 {
      ResultsStep(w, actions[0]);
      ResultsAlways(Step(w, actions[0]), actions[1..]);
    }
  }

  /** With one run per trip, the row says what a returned run reports: matched to the last driver it
      tried, or cancelled without a driver for the very reason reported. */
  lemma FinishedRow(actions: seq<Action>, r: RunId)
    requires Legal(INITIAL, actions)
    requires var w := After(INITIAL, actions); SingleRuns(w) && r in w.runs && w.runs[r].pc.Done?
    ensures var w := After(INITIAL, actions);
            var run := w.runs[r];
            && run.trip in w.db.trips
            && var row := w.db.trips[run.trip];
            && (run.pc.outcome == OutcomeMatched ==>
                  row.status == Matched && |run.tried| > 0 && row.driverId == Some(Current(run)) && row.reason == None)
            && (forall reason :: run.pc.outcome == OutcomeUnmatched(reason) ==>
                  row.status == Cancelled && row.driverId == None && row.reason == Some(reason))
  {
    ResultsAlways(INITIAL, actions);
  }

  /** Two runs for trip 0: one has found driver 1, the other found nobody and cancelled the trip. */
  lemma OneOfTwoCancels(P: World -> bool) returns (w: World)
    requires Closed(P) && P(INITIAL)
    ensures P(w) && w.now == 0 && w.locks == map[] && 1 in w.runs && w.runs[1] == Ranked(0, 0, [1], [0.0])
    ensures w.db == Db(map[0 := TripRow(Cancelled, None, Some(NoDriversAvailable))], map[])
  {
    w := Prepare(P, INITIAL, 1, 0, 0, [1], [0.0]);
    w := Take(P, w, StartMatch(0, 0));
    w := Act(P, w, 0, Search(0, []));
    assert w.db == Db(map[0 := NEW_TRIP], map[]) && w.runs[0].pc == MarkingUnmatched(NoDriversAvailable);
    w := Act(P, w, 0, MarkUnmatched);
  }

  /** The run that is left tries its driver, who is not connected. */
  lemma OtherTriesInVain(P: World -> bool, w: World) returns (w': World)
    requires Closed(P) && P(w) && w.locks == map[] && 1 in w.runs && w.runs[1] == Ranked(0, 0, [1], [0.0])
    ensures P(w') && w'.db == w.db && 1 in w'.runs && w'.runs[1] == WithLock(w, w.runs[1]).(pc := Choosing)
  {
    w' := LockNext(P, w, 1);
    w' := Act(P, w', 1, SendOffer(false));
    assert w'.db == w.db && w'.runs[1] == WithLock(w, w.runs[1]).(pc := Releasing(Lost));
    w' := Act(P, w', 1, ReleaseLock);
  }

  /** And comes too late to cancel. */
  lemma OtherRereads(P: World -> bool, w: World) returns (w': World)
    requires Closed(P) && P(w) && 1 in w.runs && w.runs[1].pc == Choosing && |w.runs[1].tried| == |w.runs[1].scored|
    requires w.runs[1].trip in w.db.trips && w.db.trips[w.runs[1].trip].status == Cancelled
    ensures P(w') && w'.db == w.db && 1 in w'.runs && w'.runs[1].trip == w.runs[1].trip
    ensures w'.runs[1].pc == Done(OutcomeUnmatched(AllCandidatesDeclined))
  {
    w' := Act(P, w, 1, NoMoreCandidates);
    assert w'.db == w.db && w'.runs[1] == w.runs[1].(pc := MarkingUnmatched(AllCandidatesDeclined));
    w' := Act(P, w', 1, MarkUnmatched);
    assert w'.db == w.db && w'.runs[1] == w.runs[1].(pc := Rereading(AllCandidatesDeclined));
    w' := Act(P, w', 1, Reread);
  }

  /** With two runs for one trip the reported reason need not be the recorded one: the run that comes
      second reports its own. */
  lemma SecondRunReportsOtherReason() returns (w: World)
    ensures Reachable(w) && 1 in w.runs && w.runs[1].trip in w.db.trips
    ensures w.runs[1].pc == Done(OutcomeUnmatched(AllCandidatesDeclined))
    ensures w.db.trips[w.runs[1].trip].reason == Some(NoDriversAvailable)
  {
    ReachableIsClosed();
    w := OneOfTwoCancels(w => Reachable(w));
    w := OtherTriesInVain(w => Reachable(w), w);
    w := OtherRereads(w => Reachable(w), w);
  }

  // ---- What the driver is told ----------------------------------------------------------------

  /** A run that is past its confirmation has sent it. */
  ghost predicate HasTold(run: Run, log: seq<Event>) {
    run.pc == Releasing(Won) || run.pc == ReadingFinal || run.pc == Done(OutcomeMatched) ==>
      |run.tried| > 0 && SentMatched(run.trip, Current(run)) in log
  }

  ghost predicate Told(w: World, r: RunId) {
    r in w.runs ==> HasTold(w.runs[r], w.log)
  }

  lemma OwnActTells(w: World, run: Run, act: RunAction)
    requires CanAct(w, run, act) && HasTold(run, w.log) && !run.pc.Rereading? && act != Announce(false)
    ensures HasTold(NextRun(w, run, act), w.log + Events(EffectOf(w, run, act)))
  {
    if act.Announce? {
      assert Events(EffectOf(w, run, act)) == [SentMatched(run.trip, Current(run))];
    } else {
      assert forall e :: e in w.log ==> e in w.log + Events(EffectOf(w, run, act));
    }
  }

  lemma ToldStep(w: World, a: Action, r: RunId)
    requires ResultsInv(w) && Enabled(w, a) && SingleRuns(w) && Told(w, r)
    requires a != RunAct(r, Announce(false))
    ensures Told(Step(w, a), r)
  {
    StepEffect(w, a);
    if a.RunAct? && a.run == r {
      assert RowFits(w.runs[r], w.db.trips[w.runs[r].trip]);
      OwnActTells(w, w.runs[r], a.act);
    }
  }

  lemma {:induction false} ToldAlways(w: World, actions: seq<Action>, r: RunId)
    requires ResultsInv(w) && Told(w, r) && Legal(w, actions) && SingleRuns(After(w, actions))
    requires RunAct(r, Announce(false)) !in actions
    ensures Told(After(w, actions), r)
    decreases |actions|
  {
    if |actions| > 0 {
      SingleRunsEarlier(w, actions);
      ResultsStep(w, actions[0]);
      ToldStep(w, actions[0], r);
      ToldAlways(Step(w, actions[0]), actions[1..], r);
    }
  }

  /** With one run per trip, a run that reports a match has sent its driver a confirmation of the trip,
      unless the driver was not connected at that moment. */
  lemma MatchIsAnnounced(actions: seq<Action>, r: RunId)
    requires Legal(INITIAL, actions)
    requires var w := After(INITIAL, actions); SingleRuns(w) && r in w.runs && w.runs[r].pc == Done(OutcomeMatched)
    requires RunAct(r, Announce(false)) !in actions
    ensures var w := After(INITIAL, actions);
            && |w.runs[r].tried| > 0 && SentMatched(w.runs[r].trip, Current(w.runs[r])) in w.log
            && w.runs[r].trip in w.db.trips && w.db.trips[w.runs[r].trip].driverId == Some(Current(w.runs[r]))
  {
    ToldAlways(INITIAL, actions, r);
    FinishedRow(actions, r);
  }
}
