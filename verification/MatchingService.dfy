// `matchTrip` as the code it is (core/src/services/matching.service.ts): the candidate loop with its
// early exit and the lock released whatever happens, over the three stores. What the candidates do is
// handed in, and so is which awaited call rejects. Alone, it books the best-scored candidate that can
// be locked, accepts in time and is still free; errors inside the `try` give the lock back; and every
// execution is a legal run of the protocol of module Matching.

module MatchingService {
  import opened Wrappers
  import opened Ranking
  import opened DriverLocks
  import opened TripRows
  import opened TripOffers
  import opened Matching
  import opened MatchingRuns

  /** What a candidate does with an offer. */
  datatype Answer = NotConnected | Responds(accept: bool, delayMs: nat) | Silent

  predicate InTime(a: Answer, timeoutMs: nat) {
    a.Responds? && a.delayMs < timeoutMs
  }

  predicate Accepts(a: Answer, timeoutMs: nat) {
    InTime(a, timeoutMs) && a.accept
  }

  /** How long the offer keeps the run waiting. */
  function Elapsed(a: Answer, timeoutMs: nat): nat {
    if a.NotConnected? then 0 else if InTime(a, timeoutMs) then a.delayMs else timeoutMs
  }

  /** Which call of an attempt on a driver rejects, if any; a write may take effect all the same. */
  datatype Fault =
    | NoFault
    | LockFails(taken: bool)
    | OfferFails
    | BookingFails(committed: bool)
    | AnnounceFails
    | UnlockFails(released: bool)

  /** Which call of matchTrip outside those attempts rejects, if any. */
  datatype Trouble =
    | NoTrouble
    | FindFails
    | SearchFails
    | ScoringFails
    | FinalReadFails
    | CancelFails(committed: bool)
    | RereadFails

  /** A lock that was free stays behind until it expires: asking for it, or giving it back, went wrong. */
  predicate LeavesLock(free: bool, f: Fault) {
    free && (f == LockFails(true) || f == UnlockFails(false))
  }

  // ---- Who should win -------------------------------------------------------------------------

  /** What a matching attempt starts from. */
  datatype Setting = Setting(trip: TripId, timeoutMs: nat, scored: seq<Candidate>, answers: map<DriverId, Answer>,
                             faults: map<DriverId, Fault>, db: Db, locks: Locks, now: int)

  function FaultOf(faults: map<DriverId, Fault>, d: DriverId): Fault {
    if d in faults then faults[d] else NoFault
  }

  ghost predicate Answering(s: Setting) {
    forall i :: 0 <= i < |s.scored| ==> s.scored[i].driver in s.answers
  }

  /** The driver's response is waited for. */
  predicate Reached(free: bool, f: Fault) {
    free && !f.LockFails? && !f.OfferFails?
  }

  /** When candidate `i` has its turn: locked candidates cost nothing, the others what they take. */
  ghost function TurnOf(s: Setting, i: nat): int
    requires Answering(s) && i <= |s.scored|
  {
    if i == 0 then s.now
    else
      var d := s.scored[i - 1].driver;
      TurnOf(s, i - 1) +
      if Reached(Live(s.locks, d, TurnOf(s, i - 1)).None?, FaultOf(s.faults, d)) then Elapsed(s.answers[d], s.timeoutMs) else 0
  }

  /** The driver is booked: it could be locked, accepted in time, and the transaction went through. */
  predicate GetsBooked(free: bool, accepts: bool, bookable: bool, f: Fault) {
    Reached(free, f) && accepts && bookable && f != BookingFails(false)
  }

  /** How the attempt on one driver ends. */
  function Ends(free: bool, accepts: bool, bookable: bool, f: Fault): Verdict {
    match f
    case LockFails(_) => Threw
    case OfferFails => if free then Threw else Lost
    case BookingFails(_) => if free && accepts then Threw else Lost
    case AnnounceFails => if free && accepts && bookable then Threw else Lost
    case UnlockFails(_) => if free then Threw else Lost
    case NoFault => if free && accepts && bookable then Won else Lost
  }

  ghost predicate FreeAt(s: Setting, i: nat)
    requires Answering(s) && i < |s.scored|
  {
    Live(s.locks, s.scored[i].driver, TurnOf(s, i)).None?
  }

  /** How the attempt on candidate `i` ends, if it has its turn. */
  ghost function EndOf(s: Setting, i: nat): Verdict
    requires Answering(s) && i < |s.scored|
  {
    var d := s.scored[i].driver;
    Ends(FreeAt(s, i), Accepts(s.answers[d], s.timeoutMs), CanFinalize(s.db, s.trip, d), FaultOf(s.faults, d))
  }

  /** Candidate `i` is booked, if it has its turn. */
  ghost predicate BookedAt(s: Setting, i: nat)
    requires Answering(s) && i < |s.scored|
  {
    var d := s.scored[i].driver;
    GetsBooked(FreeAt(s, i), Accepts(s.answers[d], s.timeoutMs), CanFinalize(s.db, s.trip, d), FaultOf(s.faults, d))
  }

  ghost predicate Leaves(s: Setting, i: nat)
    requires Answering(s) && i < |s.scored|
  {
    LeavesLock(FreeAt(s, i), FaultOf(s.faults, s.scored[i].driver))
  }

  /** The first candidate on which the attempt does not just fail decides; without one there is none. */
  ghost predicate Decides(s: Setting, i: nat)
    requires Answering(s)
  {
    i < |s.scored| && EndOf(s, i) != Lost && forall j :: 0 <= j < i ==> EndOf(s, j) == Lost
  }

  /** Without errors the one who decides is the first that can be locked, accepts in time and is free. */
  lemma DecidesIsFirstWinner(s: Setting, i: nat)
    requires Answering(s) && s.faults == map[]
    ensures Decides(s, i) <==>
            && i < |s.scored| && EndOf(s, i) == Won && BookedAt(s, i)
            && forall j :: 0 <= j < i ==> EndOf(s, j) == Lost && !BookedAt(s, j)
  {
    forall j | 0 <= j < |s.scored| ensures EndOf(s, j) == if BookedAt(s, j) then Won else Lost {
      assert FaultOf(s.faults, s.scored[j].driver) == NoFault;
    }
  }

  /** The attempt a call makes: the candidates found, best score first. */
  ghost function Attempt(trip: TripId, timeoutMs: nat, nearby: seq<DriverId>, scores: seq<real>, answers: map<DriverId, Answer>,
                         faults: map<DriverId, Fault>, db: Db, locks: Locks, now: int): Setting
    requires |scores| == |nearby|
  {
    Setting(trip, timeoutMs, Sort(Pair(nearby, scores), Descending), answers, faults, db, locks, now)
  }

  lemma RankedAreAnswered(nearby: seq<DriverId>, scores: seq<real>, answers: map<DriverId, Answer>)
    requires |scores| == |nearby| && forall d :: d in nearby ==> d in answers
    ensures forall i :: 0 <= i < |Sort(Pair(nearby, scores), Descending)| ==>
              Sort(Pair(nearby, scores), Descending)[i].driver in answers
    ensures nearby == [] <==> Sort(Pair(nearby, scores), Descending) == []
  {
    var pairs := Pair(nearby, scores);
    var scored := Sort(pairs, Descending);
    assert |multiset(scored)| == |multiset(pairs)|;
    forall i | 0 <= i < |scored| ensures scored[i].driver in answers {
      assert scored[i] in multiset(scored) && scored[i] in pairs;
    }
  }

  /** What the loop leaves: the decision of the first candidate that decides, or nothing. */
  ghost predicate Offered(s: Setting, result: Result<bool>, decider: nat, db: Db, locks: Locks, now: int)
    requires Answering(s)
  {
    if result == Ok(false) then
      && (forall i :: 0 <= i < |s.scored| ==> EndOf(s, i) == Lost)
      && db == s.db && SameLive(locks, s.locks, now)
    else
      && Decides(s, decider)
      && (result.Ok? <==> EndOf(s, decider) == Won)
      && (if BookedAt(s, decider) then IsBooked(s.db, db, s.trip, s.scored[decider].driver) else db == s.db)
      && KeepsLocks(locks, s.locks, s.scored[decider].driver, Leaves(s, decider), now)
  }

  /** The attempt is resolved as it should be: the one who decides booked, or an error passed on, or the
      trip cancelled with the reason. */
  ghost predicate Resolved(s: Setting, trouble: Trouble, result: Result<Outcome>, decider: nat, db: Db, locks: Locks, now: int)
    requires Answering(s)
  {
    if Decides(s, decider) then
      && (result == Ok(OutcomeMatched) || result.Err?)
      && (result.Ok? <==> EndOf(s, decider) == Won && !trouble.FinalReadFails?)
      && (if BookedAt(s, decider) then IsBooked(s.db, db, s.trip, s.scored[decider].driver) else db == s.db)
      && KeepsLocks(locks, s.locks, s.scored[decider].driver, Leaves(s, decider), now)
    else
      var reason := if s.scored == [] then NoDriversAvailable else AllCandidatesDeclined;
      && (forall i :: 0 <= i < |s.scored| ==> EndOf(s, i) == Lost)
      && (if trouble.CancelFails? then result.Err? else result == Ok(OutcomeUnmatched(reason)))
      && (if trouble == CancelFails(false) then db == s.db else IsCancelled(s.db, db, s.trip, reason))
      && SameLive(locks, s.locks, now)
  }

  /** A reported match has been confirmed to the driver who decided. */
  ghost predicate Confirmed(s: Setting, result: Result<Outcome>, decider: nat, w: World) {
    result == Ok(OutcomeMatched) ==>
      decider < |s.scored| && SentMatched(s.trip, s.scored[decider].driver) in w.log
  }

  // ---- Locks come back ------------------------------------------------------------------------

  /** From `now` on, the same locks are held. */
  ghost predicate SameLive(a: Locks, b: Locks, now: int) {
    forall d: DriverId, t: int :: t >= now ==> Live(a, d, t) == Live(b, d, t)
  }

  /** From `now` on, the same locks are held, but for the driver's if its lock stays behind. */
  ghost predicate KeepsLocks(a: Locks, b: Locks, driver: DriverId, leaves: bool, now: int) {
    forall d: DriverId, t: int :: t >= now && (d != driver || !leaves) ==> Live(a, d, t) == Live(b, d, t)
  }

  lemma AttemptGivesLockBack(locks: Locks, d: DriverId, trip: TripId, ttlMs: nat, t0: int, t1: int)
    requires Live(locks, d, t0).None? && t0 <= t1 < t0 + ttlMs
    ensures SameLive(Released(Acquired(locks, d, trip, ttlMs, t0), d, trip, t1), locks, t1)
  {
  }

  /** What an attempt with the lock taken leaves of the locks: only a fault in giving it back leaves it. */
  lemma LocksAfterAttempt(before: Locks, after: Locks, d: DriverId, trip: TripId, ttlMs: nat, t0: int, t1: int, f: Fault)
    requires Live(before, d, t0).None? && t0 <= t1 < t0 + ttlMs && !f.LockFails?
    requires var taken := Acquired(before, d, trip, ttlMs, t0);
             after == if f == UnlockFails(false) then taken else Released(taken, d, trip, t1)
    ensures KeepsLocks(after, before, d, LeavesLock(true, f), t1)
  {
    AttemptGivesLockBack(before, d, trip, ttlMs, t0, t1);
  }

  /** Asking for a lock touches no other driver's. */
  lemma AskingKeepsOthers(before: Locks, d: DriverId, trip: TripId, ttlMs: nat, now: int)
    ensures KeepsLocks(Acquired(before, d, trip, ttlMs, now), before, d, Live(before, d, now).None?, now)
  {
  }

  /** Locks kept up to a turn and through it are kept. */
  lemma KeptThrough(after: Locks, before: Locks, start: Locks, driver: DriverId, leaves: bool, now: int, turn: int)
    requires KeepsLocks(after, before, driver, leaves, now) && SameLive(before, start, turn) && turn <= now
    ensures KeepsLocks(after, start, driver, leaves, now)
  {
  }

  /** The run sees a call reject outside its critical section, without effect. */
  lemma Rejects(P: World -> bool, w: World, r: RunId) returns (w': World)
    requires Closed(P) && P(w) && r in w.runs
    requires var pc := w.runs[r].pc; !Critical(pc) && !pc.Done? && !pc.Failed?
    ensures P(w') && w' == w.(runs := w.runs[r := w.runs[r].(pc := Failed)])
  {
    w' := Act(P, w, r, Throw);
    assert w'.log == w.log;
  }

  /** The run asks for the lock of its next candidate and hears whether it got it. */
  lemma AsksLock(P: World -> bool, w: World, r: RunId) returns (w': World)
    requires Closed(P) && P(w) && r in w.runs && AsksForLock(w.runs[r])
    ensures P(w')
    ensures var run := w.runs[r];
            var d := run.scored[|run.tried|].driver;
            w' == w.(locks := Acquired(w.locks, d, run.trip, run.offerTimeoutMs + LOCK_SLACK_MS, w.now),
                     runs := w.runs[r := WithLock(w, run).(pc := if Live(w.locks, d, w.now).None? then Locked else Choosing)])
  {
    w' := Act(P, w, r, TryLock);
    assert w'.log == w.log;
  }

  /** The run asks for the lock of its next candidate and does not hear that it got it. */
  lemma LosesLock(P: World -> bool, w: World, r: RunId) returns (w': World)
    requires Closed(P) && P(w) && r in w.runs && AsksForLock(w.runs[r])
    ensures P(w')
    ensures var run := w.runs[r];
            var d := run.scored[|run.tried|].driver;
            w' == w.(locks := Acquired(w.locks, d, run.trip, run.offerTimeoutMs + LOCK_SLACK_MS, w.now),
                     runs := w.runs[r := run.(pc := Failed)])
  {
    w' := Act(P, w, r, LoseReply);
    assert w'.log == w.log;
  }

  lemma SearchesInVain(P: World -> bool, w: World, r: RunId, timeoutMs: nat) returns (w': World)
    requires Closed(P) && P(w) && r in w.runs && w.runs[r].pc == Searching
    ensures P(w')
    ensures w' == w.(runs := w.runs[r := w.runs[r].(pc := MarkingUnmatched(NoDriversAvailable),
                                                    offerTimeoutMs := timeoutMs, found := [])])
  {
    w' := Act(P, w, r, Search(timeoutMs, []));
    assert w'.log == w.log;
  }

  /** Scoring rejects after a search that found somebody. */
  lemma ScoringRejects(P: World -> bool, w: World, r: RunId, timeoutMs: nat, nearby: seq<DriverId>) returns (w': World)
    requires Closed(P) && P(w) && r in w.runs && w.runs[r].pc == Searching && nearby != [] && NoDuplicates(nearby)
    ensures P(w')
    ensures w' == w.(runs := w.runs[r := w.runs[r].(pc := Failed, offerTimeoutMs := timeoutMs, found := nearby)])
  {
    var w1 := Act(P, w, r, Search(timeoutMs, nearby));
    assert w1.log == w.log && w1.runs[r].pc == Scoring;
    w' := Rejects(P, w1, r);
    assert w'.runs == w.runs[r := w'.runs[r]];
  }

  /** The protocol's search and scoring, up to the first choice. */
  lemma SearchThenScore(P: World -> bool, w: World, r: RunId, timeoutMs: nat, nearby: seq<DriverId>, scores: seq<real>)
    returns (w': World)
    requires Closed(P) && P(w) && r in w.runs && w.runs[r].pc == Searching
    requires nearby != [] && |scores| == |nearby| && NoDuplicates(nearby)
    ensures P(w') && r in w'.runs
    ensures w'.runs[r] == w.runs[r].(pc := Choosing, offerTimeoutMs := timeoutMs, found := nearby,
                                     scored := Sort(Pair(nearby, scores), Descending))
    ensures w'.now == w.now && w'.nextOffer == w.nextOffer && w'.db == w.db && w'.locks == w.locks && w'.offers == w.offers
  {
    var w1 := Act(P, w, r, Search(timeoutMs, nearby));
    assert w1.runs[r] == w.runs[r].(pc := Scoring, offerTimeoutMs := timeoutMs, found := nearby);
    assert w1.db == w.db && w1.offers == w.offers && w1.locks == w.locks;
    w' := Act(P, w1, r, Score(scores));
  }

  /** The run moves on without touching rows, locks or offers, and without a message. */
  lemma MovesOn(P: World -> bool, w: World, r: RunId, act: RunAction) returns (w': World)
    requires Closed(P) && P(w) && r in w.runs && CanAct(w, w.runs[r], act)
    requires act.ReadFinal? || act.NoMoreCandidates? || act.Throw? || act.Reread?
    ensures P(w') && w' == w.(runs := w.runs[r := w.runs[r].(pc := NextPc(w, w.runs[r], act))])
  {
    w' := Act(P, w, r, act);
    assert w'.log == w.log;
  }

  /** The transaction, whose reply the run hears or not. */
  lemma Finalizes(P: World -> bool, w: World, r: RunId, heard: bool) returns (w': World)
    requires Closed(P) && P(w) && r in w.runs && w.runs[r].pc == Finalizing && |w.runs[r].tried| > 0
    ensures P(w')
    ensures var run := w.runs[r];
            var booked := CanFinalize(w.db, run.trip, Current(run));
            w' == w.(db := Finalize(w.db, run.trip, Current(run)),
                     runs := w.runs[r := run.(pc := if !heard then Releasing(Threw) else if booked then Committed else Releasing(Lost))],
                     log := if booked then w.log + [Finalized(run.trip, Current(run))] else w.log)
  {
    w' := Act(P, w, r, if heard then TryFinalize else LoseReply);
    assert w.log + [] == w.log;
  }

  lemma Announces(P: World -> bool, w: World, r: RunId) returns (w': World)
    requires Closed(P) && P(w) && r in w.runs && w.runs[r].pc == Committed && |w.runs[r].tried| > 0
    ensures P(w')
    ensures w' == w.(runs := w.runs[r := w.runs[r].(pc := Releasing(Won))],
                     log := w.log + [SentMatched(w.runs[r].trip, Current(w.runs[r]))])
  {
    w' := Act(P, w, r, Announce(true));
  }

  /** The guarded cancellation, whose reply the run hears or not. */
  lemma MarksUnmatched(P: World -> bool, w: World, r: RunId, heard: bool) returns (w': World)
    requires Closed(P) && P(w) && r in w.runs && w.runs[r].pc.MarkingUnmatched?
    ensures P(w')
    ensures var run := w.runs[r];
            var reason := run.pc.reason;
            w' == w.(db := Cancel(w.db, run.trip, reason),
                     runs := w.runs[r := run.(pc := if !heard then Failed
                                                    else if IsOpen(w.db, run.trip) then Done(OutcomeUnmatched(reason)) else Rereading(reason))])
  {
    w' := Act(P, w, r, if heard then MarkUnmatched else LoseReply);
    assert w.log + [] == w.log;
  }

  /** Nothing of the run changes but its program counter and the times and number of its offer. */
  ghost predicate SameAttempt(a: Run, b: Run) {
    a.trip == b.trip && a.offerTimeoutMs == b.offerTimeoutMs && a.scored == b.scored && a.tried == b.tried && a.found == b.found
  }

  /** The run is about to try candidate `i`. */
  ghost predicate AtTurn(w: World, r: RunId, s: Setting, i: nat) {
    && r in w.runs && w.runs[r].pc == Choosing && w.runs[r].trip == s.trip && w.runs[r].offerTimeoutMs == s.timeoutMs
    && w.runs[r].scored == s.scored && |w.runs[r].tried| == i
  }

  class MatchingService {
    const trips: TripsRepository
    const locks: DriverLockRepository
    const offers: TripOfferRegistry
    var now: int
    var nextOffer: OfferId

    constructor (trips: TripsRepository, locks: DriverLockRepository, offers: TripOfferRegistry)
      requires offers.Contents() == Offers(map[], map[], map[])
      ensures this.trips == trips && this.locks == locks && this.offers == offers
      ensures FreshOffers() && now == 0
    {
      this.trips, this.locks, this.offers, now, nextOffer := trips, locks, offers, 0, 0;
    }

    ghost predicate FreshOffers()
      reads this, offers
    {
      forall o :: o in offers.outcome || o in offers.timers ==> o < nextOffer
    }

    /** The stores and the clock are those of the protocol state `w`. */
    ghost predicate Mirrors(w: World)
      reads this, trips, locks, offers
    {
      && w.now == now && w.nextOffer == nextOffer
      && w.db == trips.Contents() && w.locks == locks.locks && w.offers == offers.Contents()
    }

    /** The wait for the response: the driver answers in time, or the timer fires. */
    method AwaitResponse(trip: TripId, offer: OfferId, timeoutMs: nat, answer: Answer, ghost P: World -> bool,
                         ghost w: World, ghost r: RunId)
      returns (accepted: bool, ghost w': World)
      requires Closed(P) && P(w) && Mirrors(w) && FreshOffers() && !answer.NotConnected?
      requires r in w.runs && w.runs[r].pc == Pc.Waiting && |w.runs[r].tried| > 0
      requires w.runs[r].offer == offer && w.runs[r].trip == trip && w.runs[r].offeredAt == Some(now)
      requires w.runs[r].offerTimeoutMs == timeoutMs
      requires offer !in offers.outcome && offer in offers.timers && trip in offers.pending && offers.pending[trip] == offer
      modifies this`now, offers
      ensures accepted == Accepts(answer, timeoutMs) && now == old(now) + Elapsed(answer, timeoutMs)
      ensures answer.Responds? && answer.delayMs < timeoutMs ==> accepted == answer.accept && now == old(now) + answer.delayMs
      ensures !(answer.Responds? && answer.delayMs < timeoutMs) ==> !accepted && now == old(now) + timeoutMs
      ensures P(w') && Mirrors(w') && FreshOffers()
      ensures w'.runs == w.runs[r := w.runs[r].(pc := if accepted then Finalizing else Releasing(Lost), resumedAt := Some(now))]
    {
      now := now + Elapsed(answer, timeoutMs);
      w' := Take(P, w, Tick(Elapsed(answer, timeoutMs)));
      if InTime(answer, timeoutMs) {
        var _ := offers.HandleDriverResponse(trip, answer.accept);
        w' := Take(P, w', Respond(Current(w.runs[r]), trip, answer.accept));
      } else {
        offers.FireTimeout(offer);
        w' := Act(P, w', r, FireTimeout);
        assert w'.runs == w.runs;
      }
      accepted := offers.outcome[offer];
      w' := Act(P, w', r, Resume);
    }

    /** The guarded transaction, and the confirmation if it went through; either call may reject. */
    method BookAccepted(trip: TripId, driver: DriverId, fault: Fault, ghost P: World -> bool, ghost w: World, ghost r: RunId)
      returns (result: Result<bool>, ghost w': World)
      requires Closed(P) && P(w) && Mirrors(w) && FreshOffers()
      requires r in w.runs && w.runs[r].pc == Finalizing && |w.runs[r].tried| > 0 && Current(w.runs[r]) == driver
      requires w.runs[r].trip == trip
      modifies trips
      ensures var bookable := CanFinalize(old(trips.Contents()), trip, driver);
              && (result.Err? <==> fault.BookingFails? || (fault.AnnounceFails? && bookable))
              && (result.Ok? ==> result.value == bookable)
              && trips.Contents() == if fault == BookingFails(false) then old(trips.Contents())
                                     else Finalize(old(trips.Contents()), trip, driver)
      ensures P(w') && Mirrors(w') && FreshOffers() && r in w'.runs
      ensures w'.runs[r] == w.runs[r].(pc := Releasing(if result.Err? then Threw else if result.value then Won else Lost))
      ensures result == Ok(true) ==> SentMatched(trip, driver) in w'.log
    {
      if fault == BookingFails(false) {
        w' := MovesOn(P, w, r, Throw);
        return Err("transaction failed"), w';
      }
      var finalized := trips.TryFinalizeMatch(trip, driver);
      w' := Finalizes(P, w, r, fault != BookingFails(true));
      if fault == BookingFails(true) {
        return Err("transaction failed"), w';
      }
      if !finalized {
        return Ok(false), w';
      }
      if fault == AnnounceFails {
        w' := MovesOn(P, w', r, Throw);
        return Err("status update failed"), w';
      }
      w' := Announces(P, w', r);
      result := Ok(true);
    }

    /** Inside the `try`: offer, wait, and book if accepted. */
    method OfferUnderLock(trip: TripId, driver: DriverId, timeoutMs: nat, answer: Answer, fault: Fault,
                          ghost P: World -> bool, ghost w: World, ghost r: RunId)
      returns (result: Result<bool>, ghost w': World)
      requires Closed(P) && P(w) && Mirrors(w) && FreshOffers() && !fault.LockFails?
      requires r in w.runs && w.runs[r].pc == Locked && |w.runs[r].tried| > 0 && Current(w.runs[r]) == driver
      requires w.runs[r].trip == trip && w.runs[r].offerTimeoutMs == timeoutMs
      modifies this`now, this`nextOffer, offers, trips
      ensures var accepts, bookable := Accepts(answer, timeoutMs), CanFinalize(old(trips.Contents()), trip, driver);
              && (result.Err? <==> !fault.UnlockFails? && Ends(true, accepts, bookable, fault) == Threw)
              && (result.Ok? ==> result.value == (accepts && bookable))
              && trips.Contents() == if GetsBooked(true, accepts, bookable, fault)
                                     then Finalize(old(trips.Contents()), trip, driver) else old(trips.Contents())
      ensures now == old(now) + (if fault.OfferFails? then 0 else Elapsed(answer, timeoutMs))
      ensures P(w') && Mirrors(w') && FreshOffers() && r in w'.runs
      ensures w'.runs[r].pc == Releasing(if result.Err? then Threw else if result.value then Won else Lost)
      ensures SameAttempt(w'.runs[r], w.runs[r])
      ensures result == Ok(true) ==> SentMatched(trip, driver) in w'.log
    {
      if fault.OfferFails? {
        w' := Act(P, w, r, Throw);
        return Err("send failed"), w';
      }
      var offer := nextOffer;
      nextOffer := nextOffer + 1;
      if answer.NotConnected? {
        w' := Act(P, w, r, SendOffer(false));
        return Ok(false), w';
      }
      offers.WaitForDriverResponse(trip, offer);
      w' := Act(P, w, r, SendOffer(true));
      var accepted;
      accepted, w' := AwaitResponse(trip, offer, timeoutMs, answer, P, w', r);
      if !accepted {
        return Ok(false), w';
      }
      result, w' := BookAccepted(trip, driver, fault, P, w', r);
    }

    /** The `finally`: the lock is given back, unless that call itself rejects. */
    method GiveLockBack(trip: TripId, driver: DriverId, fault: Fault, ghost P: World -> bool, ghost w: World, ghost r: RunId)
      returns (failed: bool, ghost w': World)
      requires Closed(P) && P(w) && Mirrors(w) && FreshOffers()
      requires r in w.runs && w.runs[r].pc.Releasing? && |w.runs[r].tried| > 0 && Current(w.runs[r]) == driver
      requires w.runs[r].trip == trip
      modifies locks
      ensures failed <==> fault.UnlockFails?
      ensures w'.log == w.log
      ensures locks.locks == if fault == UnlockFails(false) then old(locks.locks) else Released(old(locks.locks), driver, trip, now)
      ensures P(w') && Mirrors(w') && FreshOffers() && r in w'.runs && SameAttempt(w'.runs[r], w.runs[r])
      ensures w'.runs[r].pc == if failed then Failed
                               else match w.runs[r].pc.verdict case Won => ReadingFinal case Lost => Choosing case Threw => Failed
    {
      if fault == UnlockFails(false) {
        w' := Act(P, w, r, Throw);
        return true, w';
      }
      locks.ReleaseDriverLock(driver, trip, now);
      failed := fault.UnlockFails?;
      w' := Act(P, w, r, if failed then LoseReply else ReleaseLock);
    }

    /** The `try` and its `finally`: whatever happens inside, the lock is given back. */
    method OfferAndGiveBack(trip: TripId, driver: DriverId, timeoutMs: nat, answer: Answer, fault: Fault,
                            ghost P: World -> bool, ghost w: World, ghost r: RunId)
      returns (result: Result<bool>, ghost w': World)
      requires Closed(P) && P(w) && Mirrors(w) && FreshOffers() && !fault.LockFails?
      requires r in w.runs && w.runs[r].pc == Locked && |w.runs[r].tried| > 0 && Current(w.runs[r]) == driver
      requires w.runs[r].trip == trip && w.runs[r].offerTimeoutMs == timeoutMs
      modifies this`now, this`nextOffer, offers, trips, locks
      ensures var accepts, bookable := Accepts(answer, timeoutMs), CanFinalize(old(trips.Contents()), trip, driver);
              && (result.Err? <==> Ends(true, accepts, bookable, fault) == Threw)
              && (result == Ok(true) <==> Ends(true, accepts, bookable, fault) == Won)
              && trips.Contents() == if GetsBooked(true, accepts, bookable, fault)
                                     then Finalize(old(trips.Contents()), trip, driver) else old(trips.Contents())
      ensures now == old(now) + (if Reached(true, fault) then Elapsed(answer, timeoutMs) else 0)
      ensures locks.locks == if fault == UnlockFails(false) then old(locks.locks) else Released(old(locks.locks), driver, trip, now)
      ensures P(w') && Mirrors(w') && FreshOffers() && r in w'.runs && SameAttempt(w'.runs[r], w.runs[r])
      ensures w'.runs[r].pc == if result.Err? then Failed else if result.value then ReadingFinal else Choosing
      ensures result == Ok(true) ==> SentMatched(trip, driver) in w'.log
    {
      result, w' := OfferUnderLock(trip, driver, timeoutMs, answer, fault, P, w, r);
      var failed;
      failed, w' := GiveLockBack(trip, driver, fault, P, w', r);
      if failed {
        result := Err("unlock failed");
      }
    }

    /** One candidate: the lock is taken before the `try`, so that only a fault in taking it or giving it
        back can leave it behind. */
    method TryOfferToDriver(trip: TripId, driver: DriverId, timeoutMs: nat, answer: Answer, fault: Fault,
                            ghost P: World -> bool, ghost w: World, ghost r: RunId)
      returns (result: Result<bool>, ghost w': World)
      requires Closed(P) && P(w) && Mirrors(w) && FreshOffers()
      requires r in w.runs && w.runs[r].pc == Choosing && w.runs[r].trip == trip && w.runs[r].offerTimeoutMs == timeoutMs
      requires |w.runs[r].tried| < |w.runs[r].scored| && w.runs[r].scored[|w.runs[r].tried|].driver == driver
      modifies this`now, this`nextOffer, offers, trips, locks
      ensures var free := Live(old(locks.locks), driver, old(now)).None?;
              var accepts, bookable := Accepts(answer, timeoutMs), CanFinalize(old(trips.Contents()), trip, driver);
              && (result.Err? <==> Ends(free, accepts, bookable, fault) == Threw)
              && (result == Ok(true) <==> Ends(free, accepts, bookable, fault) == Won)
              && trips.Contents() == (if GetsBooked(free, accepts, bookable, fault)
                                      then Finalize(old(trips.Contents()), trip, driver) else old(trips.Contents()))
              && now == old(now) + (if Reached(free, fault) then Elapsed(answer, timeoutMs) else 0)
      ensures KeepsLocks(locks.locks, old(locks.locks), driver, LeavesLock(Live(old(locks.locks), driver, old(now)).None?, fault), now)
      ensures P(w') && Mirrors(w') && FreshOffers() && r in w'.runs
      ensures w'.runs[r].pc == if result.Err? then Failed else if result.value then ReadingFinal else Choosing
      ensures result == Ok(true) ==> SentMatched(trip, driver) in w'.log
      ensures w'.runs[r].trip == trip && w'.runs[r].offerTimeoutMs == timeoutMs && w'.runs[r].scored == w.runs[r].scored
      ensures result.Ok? ==> w'.runs[r].tried == w.runs[r].tried + [driver]
    {
      var ttlMs := timeoutMs + LOCK_SLACK_MS;
      if fault == LockFails(false) {
        w' := Rejects(P, w, r);
        return Err("lock failed"), w';
      }
      var locked := locks.AcquireDriverLock(driver, trip, ttlMs, now);
      if fault.LockFails? {
        AskingKeepsOthers(old(locks.locks), driver, trip, ttlMs, now);
        w' := LosesLock(P, w, r);
        return Err("lock failed"), w';
      }
      w' := AsksLock(P, w, r);
      if !locked {
        return Ok(false), w';
      }
      result, w' := OfferAndGiveBack(trip, driver, timeoutMs, answer, fault, P, w', r);
      LocksAfterAttempt(old(locks.locks), locks.locks, driver, trip, ttlMs, old(now), now, fault);
    }

    /** One turn of the loop, on candidate `i`. */
    method OfferToNth(ghost s: Setting, i: nat, trip: TripId, timeoutMs: nat, driver: DriverId, answer: Answer, fault: Fault,
                      ghost P: World -> bool, ghost w: World, ghost r: RunId)
      returns (result: Result<bool>, ghost w': World)
      requires Answering(s) && i < |s.scored| && s.trip == trip && s.timeoutMs == timeoutMs
      requires driver == s.scored[i].driver && answer == s.answers[driver] && fault == FaultOf(s.faults, driver)
      requires now == TurnOf(s, i) && trips.Contents() == s.db && SameLive(locks.locks, s.locks, now)
      requires Closed(P) && P(w) && Mirrors(w) && FreshOffers()
      requires AtTurn(w, r, s, i)
      modifies this`now, this`nextOffer, offers, trips, locks
      ensures result.Err? <==> EndOf(s, i) == Threw
      ensures result == Ok(true) <==> EndOf(s, i) == Won
      ensures if BookedAt(s, i) then IsBooked(s.db, trips.Contents(), trip, driver) else trips.Contents() == s.db
      ensures now == TurnOf(s, i + 1) && KeepsLocks(locks.locks, s.locks, driver, Leaves(s, i), now)
      ensures P(w') && Mirrors(w') && FreshOffers() && r in w'.runs
      ensures w'.runs[r].pc == if result.Err? then Failed else if result.value then ReadingFinal else Choosing
      ensures result == Ok(true) ==> SentMatched(trip, driver) in w'.log
      ensures w'.runs[r].trip == trip && (result == Ok(false) ==> AtTurn(w', r, s, i + 1))
    {
      assert Live(locks.locks, driver, now) == Live(s.locks, driver, now);
      ghost var before, turn := locks.locks, now;
      result, w' := TryOfferToDriver(trip, driver, timeoutMs, answer, fault, P, w, r);
      KeptThrough(locks.locks, before, s.locks, driver, Leaves(s, i), now, turn);
    }

    /** The guarded cancellation, and what the row says if it did not apply. */
    method ResolveUnmatched(trip: TripId, reason: Reason, trouble: Trouble, ghost P: World -> bool, ghost w: World, ghost r: RunId)
      returns (result: Result<Outcome>, ghost w': World)
      requires Closed(P) && P(w) && Mirrors(w) && r in w.runs && w.runs[r].pc == MarkingUnmatched(reason)
      requires w.runs[r].trip == trip && trip in trips.trips
      modifies trips
      ensures trips.Contents() == if trouble == CancelFails(false) then old(trips.Contents())
                                  else Cancel(old(trips.Contents()), trip, reason)
      ensures trouble != CancelFails(false) && IsOpen(old(trips.Contents()), trip) ==>
                IsCancelled(old(trips.Contents()), trips.Contents(), trip, reason)
      ensures var open := IsOpen(old(trips.Contents()), trip);
              && (result.Err? <==> trouble.CancelFails? || (trouble.RereadFails? && !open))
              && (result.Ok? ==> result.value == if !open && old(trips.trips)[trip].status == Matched
                                                 then OutcomeMatched else OutcomeUnmatched(reason))
      ensures P(w') && Mirrors(w') && r in w'.runs
      ensures w'.runs[r].pc == if result.Ok? then Done(result.value) else Failed
    {
      if trouble == CancelFails(false) {
        w' := MovesOn(P, w, r, Throw);
        return Err("cancellation failed"), w';
      }
      var updated := trips.MarkTripUnmatched(trip, reason);
      w' := MarksUnmatched(P, w, r, !trouble.CancelFails?);
      if trouble.CancelFails? {
        return Err("cancellation failed"), w';
      }
      if updated.Some? {
        return Ok(OutcomeUnmatched(reason)), w';
      }
      if trouble.RereadFails? {
        w' := MovesOn(P, w', r, Throw);
        return Err("read failed"), w';
      }
      var outcome := if trips.trips[trip].status == Matched then OutcomeMatched else OutcomeUnmatched(reason);
      w' := MovesOn(P, w', r, Reread);
      result := Ok(outcome);
    }

    /** The candidates in order, up to the first that is matched. */
    method OfferInOrder(ghost s: Setting, trip: TripId, timeoutMs: nat, scored: seq<Candidate>, answers: map<DriverId, Answer>,
                        faults: map<DriverId, Fault>, ghost P: World -> bool, ghost w: World, ghost r: RunId)
      returns (result: Result<bool>, ghost decider: nat, ghost w': World)
      requires s == Setting(trip, timeoutMs, scored, answers, faults, trips.Contents(), locks.locks, now) && Answering(s)
      requires Closed(P) && P(w) && Mirrors(w) && FreshOffers()
      requires r in w.runs && w.runs[r].pc == Choosing && w.runs[r].trip == trip && w.runs[r].offerTimeoutMs == timeoutMs
      requires w.runs[r].scored == scored && w.runs[r].tried == []
      modifies this`now, this`nextOffer, offers, trips, locks
      ensures Offered(s, result, decider, trips.Contents(), locks.locks, now)
      ensures result == Ok(true) ==> SentMatched(trip, scored[decider].driver) in w'.log
      ensures P(w') && Mirrors(w') && r in w'.runs && w'.runs[r].trip == trip
      ensures w'.runs[r].pc == if result.Err? then Failed else if result.value then ReadingFinal else Choosing
      ensures result == Ok(false) ==> |w'.runs[r].tried| == |w'.runs[r].scored|
    {
      w', result, decider := w, Ok(false), 0;
      var i := 0;
      while i < |scored|
        invariant 0 <= i <= |scored| && result == Ok(false) && now == TurnOf(s, i) && trips.Contents() == s.db
        invariant forall j :: 0 <= j < i ==> EndOf(s, j) == Lost
        invariant SameLive(locks.locks, s.locks, now)
        invariant P(w') && Mirrors(w') && FreshOffers() && AtTurn(w', r, s, i)
      {
        var driver := scored[i].driver;
        result, w' := OfferToNth(s, i, trip, timeoutMs, driver, answers[driver], FaultOf(faults, driver), P, w', r);
        if result != Ok(false) {
          decider := i;
          return;
        }
        i := i + 1;
      }
    }

    /** The loop, and what follows when it ends. */
    method OfferAndResolve(ghost s: Setting, trip: TripId, timeoutMs: nat, scored: seq<Candidate>, answers: map<DriverId, Answer>,
                           faults: map<DriverId, Fault>, trouble: Trouble, ghost P: World -> bool, ghost w: World, ghost r: RunId)
      returns (result: Result<Outcome>, ghost decider: nat, ghost w': World)
      requires s == Setting(trip, timeoutMs, scored, answers, faults, trips.Contents(), locks.locks, now)
      requires Answering(s) && scored != []
      requires Closed(P) && P(w) && Mirrors(w) && FreshOffers()
      requires r in w.runs && w.runs[r].pc == Choosing && w.runs[r].trip == trip && w.runs[r].offerTimeoutMs == timeoutMs
      requires w.runs[r].scored == scored && w.runs[r].tried == [] && IsOpen(s.db, trip)
      modifies this`now, this`nextOffer, offers, trips, locks
      ensures Resolved(s, trouble, result, decider, trips.Contents(), locks.locks, now)
      ensures Confirmed(s, result, decider, w')
      ensures P(w') && Mirrors(w') && r in w'.runs
      ensures w'.runs[r].pc == if result.Ok? then Done(result.value) else Failed
    {
      var offered;
      offered, decider, w' := OfferInOrder(s, trip, timeoutMs, scored, answers, faults, P, w, r);
      if offered.Err? {
        return Err(offered.message), decider, w';
      }
      if offered.value {
        if trouble.FinalReadFails? {
          w' := Rejects(P, w', r);
          return Err("read failed"), decider, w';
        }
        w' := MovesOn(P, w', r, ReadFinal);
        return Ok(OutcomeMatched), decider, w';
      }
      w' := MovesOn(P, w', r, NoMoreCandidates);
      result, w' := ResolveUnmatched(trip, AllCandidatesDeclined, trouble, P, w', r);
    }

    /** The attempt from the search on. */
    method SearchAndOffer(trip: TripId, timeoutMs: nat, nearby: seq<DriverId>, scores: seq<real>, answers: map<DriverId, Answer>,
                          faults: map<DriverId, Fault>, trouble: Trouble, ghost P: World -> bool, ghost w: World, ghost r: RunId)
      returns (result: Result<Outcome>, ghost decider: nat, ghost w': World)
      requires |scores| == |nearby| && NoDuplicates(nearby) && forall d :: d in nearby ==> d in answers
      requires Closed(P) && P(w) && Mirrors(w) && FreshOffers()
      requires r in w.runs && w.runs[r].pc == Searching && w.runs[r].trip == trip && w.runs[r].tried == []
      requires trip in trips.trips && trips.trips[trip].status == Requested
      modifies this`now, this`nextOffer, offers, trips, locks
      ensures trouble.SearchFails? || (trouble.ScoringFails? && nearby != []) ==>
                result.Err? && trips.Contents() == old(trips.Contents()) && locks.locks == old(locks.locks)
      ensures !trouble.SearchFails? && !(trouble.ScoringFails? && nearby != []) ==>
                var s := Attempt(trip, timeoutMs, nearby, scores, answers, faults,
                                 old(trips.Contents()), old(locks.locks), old(now));
                Answering(s) && Resolved(s, trouble, result, decider, trips.Contents(), locks.locks, now)
                && Confirmed(s, result, decider, w')
      ensures P(w') && Mirrors(w') && r in w'.runs
      ensures w'.runs[r].pc == if result.Ok? then Done(result.value) else Failed
    {
      RankedAreAnswered(nearby, scores, answers);
      decider := 0;
      if trouble.SearchFails? {
        w' := Rejects(P, w, r);
        return Err("search failed"), decider, w';
      }
      if |nearby| == 0 {
        w' := SearchesInVain(P, w, r, timeoutMs);
        result, w' := ResolveUnmatched(trip, NoDriversAvailable, trouble, P, w', r);
        return;
      }
      if trouble.ScoringFails? {
        w' := ScoringRejects(P, w, r, timeoutMs, nearby);
        return Err("scoring failed"), decider, w';
      }
      w' := SearchThenScore(P, w, r, timeoutMs, nearby, scores);
      var scored := Sort(Pair(nearby, scores), Descending);
      ghost var s := Attempt(trip, timeoutMs, nearby, scores, answers, faults, trips.Contents(), locks.locks, now);
      result, decider, w' := OfferAndResolve(s, trip, timeoutMs, scored, answers, faults, trouble, P, w', r);
    }

    /** A whole matching attempt on its own. A missing trip is an error, a resolved one is reported, a
        failed read or search changes nothing; otherwise the trip is resolved as it should be. */
    method MatchTrip(trip: TripId, timeoutMs: nat, nearby: seq<DriverId>, scores: seq<real>, answers: map<DriverId, Answer>,
                     faults: map<DriverId, Fault>, trouble: Trouble, ghost P: World -> bool, ghost w: World, ghost r: RunId)
      returns (result: Result<Outcome>, ghost decider: nat, ghost w': World)
      requires |scores| == |nearby| && NoDuplicates(nearby) && forall d :: d in nearby ==> d in answers
      requires Closed(P) && P(w) && Mirrors(w) && FreshOffers() && r !in w.runs
      modifies this`now, this`nextOffer, offers, trips, locks
      ensures var found := trip in old(trips.trips) && !trouble.FindFails?;
              var open := found && old(trips.trips)[trip].status == Requested;
              var searched := open && !trouble.SearchFails? && !(trouble.ScoringFails? && nearby != []);
              && (!searched ==> trips.Contents() == old(trips.Contents()) && locks.locks == old(locks.locks))
              && (!found || (open && !searched) ==> result.Err?)
              && (found && !open ==> result == Ok(OutcomeAlreadyResolved))
              && (searched ==>
                    var s := Attempt(trip, timeoutMs, nearby, scores, answers, faults,
                                     old(trips.Contents()), old(locks.locks), old(now));
                    Answering(s) && Resolved(s, trouble, result, decider, trips.Contents(), locks.locks, now)
                    && Confirmed(s, result, decider, w'))
      ensures P(w') && Mirrors(w') && (result.Ok? ==> r in w'.runs && w'.runs[r].pc == Done(result.value))
    {
      w', decider := w, 0;
      if trouble.FindFails? {
        return Err("read failed"), decider, w';
      }
      if trip !in trips.trips {
        return Err("trip not found"), decider, w';
      }
      w' := Take(P, w', StartMatch(r, trip));
      if trips.trips[trip].status != Requested {
        return Ok(OutcomeAlreadyResolved), decider, w';
      }
      result, decider, w' := SearchAndOffer(trip, timeoutMs, nearby, scores, answers, faults, trouble, P, w', r);
    }
  }
}
