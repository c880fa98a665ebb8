// Who holds a driver's lock, who was offered what and who answered: the parts of the matching
// protocol that rest on timing and on who sends a response, with the runs that show why.

module MatchingLocks {
  import opened Wrappers
  import opened Numbers
  import opened Ranking
  import opened DriverLocks
  import opened TripRows
  import opened TripOffers
  import opened Matching
  import opened MatchingSafety

  // ---- Lock discipline ------------------------------------------------------------------------

  /** No trip is being matched by two runs. */
  ghost predicate SingleRuns(w: World) {
    forall r1, r2 :: r1 in w.runs && r2 in w.runs && w.runs[r1].trip == w.runs[r2].trip ==> r1 == r2
  }

  /** Inside the critical section, on the driver of the current attempt. */
  ghost predicate Claims(w: World, r: RunId, d: DriverId) {
    r in w.runs && Critical(w.runs[r].pc) && |w.runs[r].tried| > 0 && Current(w.runs[r]) == d
  }

  /** A claim whose lock has not expired is backed by that lock. */
  ghost predicate Backed(w: World, r: RunId, d: DriverId)
    requires r in w.runs
  {
    w.now < ExpiresAt(w.runs[r]) ==> Live(w.locks, d, w.now) == Some(Lock(w.runs[r].trip, ExpiresAt(w.runs[r])))
  }

  /** A live lock belongs to a run that claims the driver, or that failed while releasing it. */
  ghost predicate Accounted(w: World, d: DriverId) {
    var l := Live(w.locks, d, w.now);
    l.Some? ==> exists r :: r in w.runs && w.runs[r].trip == l.value.owner && (Claims(w, r, d) || w.runs[r].pc.Failed?)
  }

  ghost predicate LocksOk(w: World) {
    && (forall r, d :: Claims(w, r, d) ==> Backed(w, r, d))
    && (forall d :: Accounted(w, d))
  }

  ghost predicate LocksInv(w: World) {
    SingleRuns(w) ==> LocksOk(w)
  }

  lemma SingleRunsBefore(w: World, a: Action)
    requires Enabled(w, a) && SingleRuns(Step(w, a))
    ensures SingleRuns(w)
  {
    var w' := Step(w, a);
    forall r1, r2 | r1 in w.runs && r2 in w.runs && w.runs[r1].trip == w.runs[r2].trip ensures r1 == r2 {
      assert r1 in w'.runs && r2 in w'.runs;
      assert w'.runs[r1].trip == w.runs[r1].trip && w'.runs[r2].trip == w.runs[r2].trip;
    }
  }

  /** The run asks for a lock, and may not hear that it got it. */
  predicate Takes(run: Run, act: RunAction) {
    act.TryLock? || (act.LoseReply? && run.pc.Choosing?)
  }

  /** The run gives its lock back, and may not hear that it did. */
  predicate GivesBack(run: Run, act: RunAction) {
    act.ReleaseLock? || (act.LoseReply? && run.pc.Releasing?)
  }

  /** Taking a lock: whoever claimed the driver before must have let its lock expire. */
  lemma TryLockKeeps(w: World, r: RunId, act: RunAction)
    requires r in w.runs && CanAct(w, w.runs[r], act) && Takes(w.runs[r], act) && LocksOk(w)
    ensures LocksOk(StepRun(w, r, act))
  {
    var w' := StepRun(w, r, act);
    var d0 := w.runs[r].scored[|w.runs[r].tried|].driver;
    forall r2, d | Claims(w', r2, d) ensures Backed(w', r2, d) {
      if r2 != r {
        assert Claims(w, r2, d);
      }
    }
    forall d ensures Accounted(w', d) {
      var l := Live(w'.locks, d, w'.now);
      if l.Some? {
        if d == d0 && Live(w.locks, d0, w.now).None? {
          assert Claims(w', r, d0) || w'.runs[r].pc.Failed?;
        } else {
          assert Accounted(w, d);
          var r2 :| r2 in w.runs && w.runs[r2].trip == l.value.owner && (Claims(w, r2, d) || w.runs[r2].pc.Failed?);
          assert r2 in w'.runs && w'.runs[r2] == w.runs[r2];
          assert Claims(w, r2, d) ==> Claims(w', r2, d);
        }
      }
    }
  }

  /** Releasing a lock: only the run's own trip's lock can go, and no other run has that trip. */
  lemma ReleaseKeeps(w: World, r: RunId, act: RunAction)
    requires r in w.runs && CanAct(w, w.runs[r], act) && GivesBack(w.runs[r], act) && LocksOk(w) && SingleRuns(w)
    ensures LocksOk(StepRun(w, r, act))
  {
    var w' := StepRun(w, r, act);
    forall r2, d | Claims(w', r2, d) ensures Backed(w', r2, d) {
      assert r2 != r && Claims(w, r2, d);
    }
    forall d ensures Accounted(w', d) {
      var l := Live(w'.locks, d, w'.now);
      if l.Some? {
        assert Live(w.locks, d, w.now) == l && Accounted(w, d);
        var r2 :| r2 in w.runs && w.runs[r2].trip == l.value.owner && (Claims(w, r2, d) || w.runs[r2].pc.Failed?);
        assert r2 != r;
        assert r2 in w'.runs && w'.runs[r2] == w.runs[r2];
        assert Claims(w, r2, d) ==> Claims(w', r2, d);
      }
    }
  }

  /** The run neither enters nor leaves its critical section, other than by failing. */
  ghost predicate SameClaim(run: Run, run': Run) {
    && run'.trip == run.trip
    && (Critical(run'.pc) ==> Critical(run.pc) && run'.tried == run.tried && ExpiresAt(run') == ExpiresAt(run))
    && (Critical(run.pc) ==> run'.tried == run.tried && (Critical(run'.pc) || run'.pc.Failed?))
    && (run.pc.Failed? ==> run'.pc.Failed?)
  }

  lemma OtherActsKeepClaims(w: World, run: Run, act: RunAction)
    requires CanAct(w, run, act) && !Takes(run, act) && !GivesBack(run, act)
    ensures SameClaim(run, NextRun(w, run, act)) && NextLocks(w, run, act) == w.locks
  {
  }

  lemma MoveKeeps(w: World, w': World, r: RunId)
    requires LocksOk(w) && w'.locks == w.locks && w'.now == w.now
    requires r in w.runs && r in w'.runs && w'.runs == w.runs[r := w'.runs[r]]
    requires SameClaim(w.runs[r], w'.runs[r])
    ensures LocksOk(w')
  {
    forall r2, d | Claims(w', r2, d) ensures Backed(w', r2, d) {
      assert Claims(w, r2, d) && Backed(w, r2, d);
    }
    forall d ensures Accounted(w', d) {
      var l := Live(w'.locks, d, w'.now);
      if l.Some? {
        assert Accounted(w, d);
        var r2 :| r2 in w.runs && w.runs[r2].trip == l.value.owner && (Claims(w, r2, d) || w.runs[r2].pc.Failed?);
        assert r2 in w'.runs && w'.runs[r2].trip == l.value.owner;
        assert Claims(w', r2, d) || w'.runs[r2].pc.Failed?;
      }
    }
  }

  /** Time passes, rows change, a run starts: claims and locks stay as they are. */
  lemma OutsideKeeps(w: World, w': World)
    requires LocksOk(w) && w'.locks == w.locks && w'.now >= w.now
    requires forall r :: r in w.runs ==> r in w'.runs && w'.runs[r] == w.runs[r]
    requires forall r :: r in w'.runs && r !in w.runs ==> !Critical(w'.runs[r].pc)
    ensures LocksOk(w')
  {
    forall r, d | Claims(w', r, d) ensures Backed(w', r, d) {
      assert Claims(w, r, d) && Backed(w, r, d);
    }
    forall d ensures Accounted(w', d) {
      var l := Live(w'.locks, d, w'.now);
      if l.Some? {
        assert Live(w.locks, d, w.now) == l && Accounted(w, d);
        var r :| r in w.runs && w.runs[r].trip == l.value.owner && (Claims(w, r, d) || w.runs[r].pc.Failed?);
        assert r in w'.runs && (Claims(w', r, d) || w'.runs[r].pc.Failed?);
      }
    }
  }

  lemma OutsideActs(w: World, a: Action)
    requires Enabled(w, a) && !a.RunAct?
    ensures var w' := Step(w, a);
            && w'.locks == w.locks && w'.now >= w.now
            && (forall r :: r in w.runs ==> r in w'.runs && w'.runs[r] == w.runs[r])
            && (forall r :: r in w'.runs && r !in w.runs ==> !Critical(w'.runs[r].pc))
  {
  }

  lemma LocksStep(w: World, a: Action)
    requires LocksInv(w) && Enabled(w, a)
    ensures LocksInv(Step(w, a))
  {
    var w' := Step(w, a);
    if SingleRuns(w') {
      SingleRunsBefore(w, a);
      if a.RunAct? {
        if Takes(w.runs[a.run], a.act) {
          TryLockKeeps(w, a.run, a.act);
        } else if GivesBack(w.runs[a.run], a.act) {
          ReleaseKeeps(w, a.run, a.act);
        } else {
          OtherActsKeepClaims(w, w.runs[a.run], a.act);
          MoveKeeps(w, w', a.run);
        }
      } else {
        OutsideActs(w, a);
        OutsideKeeps(w, w');
      }
    }
  }

  lemma {:induction false} LocksAlways(w: World, actions: seq<Action>)
    requires LocksInv(w) && Legal(w, actions)
    ensures LocksInv(After(w, actions))
    decreases |actions|
  {
    if |actions| > 0 {
      LocksStep(w, actions[0]);
      LocksAlways(Step(w, actions[0]), actions[1..]);
    }
  }

  /** At most one run claims a driver under a lock that has not expired. */
  lemma OneHolder(actions: seq<Action>, r1: RunId, r2: RunId, d: DriverId)
    requires Legal(INITIAL, actions)
    requires var w := After(INITIAL, actions);
             && SingleRuns(w) && Claims(w, r1, d) && Claims(w, r2, d)
             && w.now < ExpiresAt(w.runs[r1]) && w.now < ExpiresAt(w.runs[r2])
    ensures r1 == r2
  {
    var w := After(INITIAL, actions);
    LocksAlways(INITIAL, actions);
    assert Backed(w, r1, d) && Backed(w, r2, d);
  }

  /** How long the current attempt has waited for the driver, at most the offer timeout. */
  function Waited(w: World, run: Run): int {
    if run.offeredAt.None? then 0
    else Min(run.offerTimeoutMs, (if run.resumedAt.Some? then run.resumedAt.value else w.now) - run.offeredAt.value)
  }

  /** All other time spent since the lock was taken. */
  function OutsideDelay(w: World, run: Run): int {
    w.now - run.acquiredAt - Waited(w, run)
  }

  /** While the delays outside the offer wait stay under 5000 ms, no two runs are past the lock of
      the same driver: no second offer reaches a driver while one is in flight. */
  lemma NoSecondOffer(actions: seq<Action>, r1: RunId, r2: RunId, d: DriverId)
    requires Legal(INITIAL, actions)
    requires var w := After(INITIAL, actions);
             && SingleRuns(w) && Claims(w, r1, d) && Claims(w, r2, d)
             && OutsideDelay(w, w.runs[r1]) < 5000 && OutsideDelay(w, w.runs[r2]) < 5000
    ensures r1 == r2
  {
    OneHolder(actions, r1, r2, d);
  }

  /** When a run has returned normally, every lock it took has been released or has expired. */
  lemma FinishedRunHoldsNoLock(actions: seq<Action>, r: RunId, d: DriverId)
    requires Legal(INITIAL, actions)
    requires var w := After(INITIAL, actions); SingleRuns(w) && r in w.runs && w.runs[r].pc.Done?
    ensures var w := After(INITIAL, actions);
            Live(w.locks, d, w.now).Some? ==> Live(w.locks, d, w.now).value.owner != w.runs[r].trip
  {
    LocksAlways(INITIAL, actions);
    assert Accounted(After(INITIAL, actions), d);
  }
}
