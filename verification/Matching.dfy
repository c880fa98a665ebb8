// Trip matching as a protocol (core/src/services/matching.service.ts): any number of `matchTrip`
// runs interleave at every await with one another, with driver responses and timeouts, with status
// updates (core/src/services/drivers.service.ts) and with reconciliation
// (core/src/services/reconciliation.service.ts). One action is the code between two awaits.

module Matching {
  import opened Wrappers
  import opened Ranking
  import opened DriverLocks
  import opened TripRows
  import opened TripOffers

  type RunId = nat
  type PatchId = nat

  const LOCK_SLACK_MS := 5000

  // ---- State ----------------------------------------------------------------------------------

  datatype Candidate = Candidate(driver: DriverId, score: real)

  datatype Verdict = Won | Lost | Threw

  datatype Outcome = OutcomeMatched | OutcomeUnmatched(reason: Reason) | OutcomeAlreadyResolved

  /** Where a run is suspended. The critical section runs from `Locked` to `Releasing`. */
  datatype Pc =
    | Searching
    | Scoring
    | Choosing
    | Locked
    | Waiting
    | Finalizing
    | Committed
    | Releasing(verdict: Verdict)
    | ReadingFinal
    | MarkingUnmatched(reason: Reason)
    | Rereading(reason: Reason)
    | Done(outcome: Outcome)
    | Failed

  /** `tried` are the drivers attempted so far, the current one last; `acquiredAt`, `offeredAt` and
      `resumedAt` time the current attempt. */
  datatype Run = Run(trip: TripId, pc: Pc, offerTimeoutMs: nat, found: seq<DriverId>, scored: seq<Candidate>,
                     tried: seq<DriverId>, offer: OfferId,
                     acquiredAt: int, offeredAt: Option<int>, resumedAt: Option<int>)

  datatype Patch = Patch(driver: DriverId, next: DriverStatus)

  /** What happened, in order. Nothing in the protocol reads it. */
  datatype Event =
    | WroteOnline(driver: DriverId)
    | SentOffer(trip: TripId, driver: DriverId, offer: OfferId)
    | GotResponse(offer: OfferId, sender: DriverId, accept: bool)
    | Finalized(trip: TripId, driver: DriverId)
    | SentMatched(trip: TripId, driver: DriverId)

  datatype World = World(now: int, db: Db, locks: Locks, offers: Offers, nextOffer: OfferId,
                         patches: map<PatchId, Patch>, runs: map<RunId, Run>, log: seq<Event>)

  const INITIAL := World(0, Db(map[], map[]), map[], Offers(map[], map[], map[]), 0, map[], map[], [])

  predicate Critical(pc: Pc) {
    pc.Locked? || pc.Waiting? || pc.Finalizing? || pc.Committed? || pc.Releasing?
  }

  function Current(run: Run): DriverId
    requires |run.tried| > 0
  {
    run.tried[|run.tried| - 1]
  }

  function ExpiresAt(run: Run): int {
    run.acquiredAt + run.offerTimeoutMs + LOCK_SLACK_MS
  }

  function Drivers(scored: seq<Candidate>): (d: seq<DriverId>)
    ensures |d| == |scored| && forall i :: 0 <= i < |d| ==> d[i] == scored[i].driver
  {
    seq(|scored|, i requires 0 <= i < |scored| => scored[i].driver)
  }

  /** The comparator `b.score - a.score` as an ascending key. */
  function Descending(c: Candidate): real {
    -c.score
  }

  function Pair(found: seq<DriverId>, scores: seq<real>): (cs: seq<Candidate>)
    requires |found| == |scores|
    ensures |cs| == |found| && forall i :: 0 <= i < |cs| ==> cs[i].driver == found[i]
  {
    seq(|found|, i requires 0 <= i < |found| => Candidate(found[i], scores[i]))
  }

  /** The legal status changes a PATCH checks against the status it read. */
  predicate LegalTransition(from: DriverStatus, to: DriverStatus) {
    match from
    case Offline => to == Offline || to == Online
    case Online => true
    case Busy => to == Busy || to == Online
  }

  // ---- What an action does to the rows and the history ----------------------------------------

  datatype Effect =
    | Quiet
    | Chatter(e: Event)
    | Wrote(driver: DriverId, status: DriverStatus)
    | Opened(trip: TripId)
    | Booked(trip: TripId, driver: DriverId)
    | Dropped(trip: TripId, reason: Reason)

  function NewDb(db: Db, e: Effect): Db {
    match e
    case Quiet => db
    case Chatter(_) => db
    case Wrote(d, status) => db.(drivers := db.drivers[d := status])
    case Opened(t) => db.(trips := db.trips[t := NEW_TRIP])
    case Booked(t, d) => Finalize(db, t, d)
    case Dropped(t, reason) => Cancel(db, t, reason)
  }

  function Events(e: Effect): seq<Event> {
    match e
    case Quiet => []
    case Chatter(event) => [event]
    case Wrote(d, status) => if status == Online then [WroteOnline(d)] else []
    case Opened(_) => []
    case Booked(t, d) => [Finalized(t, d)]
    case Dropped(_, _) => []
  }

  function Apply(w: World, e: Effect): World {
    w.(db := NewDb(w.db, e), log := w.log + Events(e))
  }

  // ---- The actions of one run -----------------------------------------------------------------

  datatype RunAction =
    | Search(timeoutMs: nat, nearby: seq<DriverId>)
    | Score(scores: seq<real>)
    | TryLock
    | NoMoreCandidates
    | SendOffer(connected: bool)
    | FireTimeout
    | Resume
    | TryFinalize
    | Announce(connected: bool)
    | ReleaseLock
    | ReadFinal
    | MarkUnmatched
    | Reread
    | Throw
    | LoseReply

  /** The next thing the run does is to ask for the lock of its next candidate. */
  predicate AsksForLock(run: Run) {
    run.pc.Choosing? && |run.tried| < |run.scored|
  }

  /** `Throw`: an awaited call rejects without effect. `LoseReply`: an awaited write takes effect and
      its reply is lost, so that the run sees it reject. */
  ghost predicate CanAct(w: World, run: Run, act: RunAction) {
    && (Critical(run.pc) ==> |run.tried| > 0)
    && match act
       case Search(_, nearby) => run.pc.Searching? && NoDuplicates(nearby)
       case Score(scores) => run.pc.Scoring? && |scores| == |run.found|
       case TryLock => AsksForLock(run)
       case NoMoreCandidates => run.pc.Choosing? && |run.tried| >= |run.scored|
       case SendOffer(_) => run.pc.Locked?
       case FireTimeout =>
         && run.pc.Waiting? && run.offer in w.offers.timers
         && run.offeredAt.Some? && w.now >= run.offeredAt.value + run.offerTimeoutMs
       case Resume => run.pc.Waiting? && run.offer in w.offers.outcome
       case TryFinalize => run.pc.Finalizing?
       case Announce(_) => run.pc.Committed?
       case ReleaseLock => run.pc.Releasing?
       case ReadFinal => run.pc.ReadingFinal?
       case MarkUnmatched => run.pc.MarkingUnmatched?
       case Reread => run.pc.Rereading? && run.trip in w.db.trips
       case Throw => !run.pc.Done? && !run.pc.Failed? && !run.pc.Waiting?
       case LoseReply => AsksForLock(run) || run.pc.Finalizing? || run.pc.Releasing? || run.pc.MarkingUnmatched?
  }

  /** The transaction of `tryFinalizeMatch` takes effect. */
  ghost predicate Books(w: World, run: Run, act: RunAction)
    requires CanAct(w, run, act)
  {
    && (act.TryFinalize? || (act.LoseReply? && run.pc.Finalizing?))
    && CanFinalize(w.db, run.trip, Current(run))
  }

  /** The guarded cancellation of `markTripUnmatched` takes effect. */
  ghost predicate Cancels(w: World, run: Run, act: RunAction)
    requires CanAct(w, run, act)
  {
    (act.MarkUnmatched? || (act.LoseReply? && run.pc.MarkingUnmatched?)) && IsOpen(w.db, run.trip)
  }

  /** Where the run goes: the branches of matchTrip, tryOfferToDriver and resolveUnmatched. */
  ghost function NextPc(w: World, run: Run, act: RunAction): Pc
    requires CanAct(w, run, act)
  {
    match act
    case Search(_, nearby) => if |nearby| == 0 then MarkingUnmatched(NoDriversAvailable) else Scoring
    case Score(_) => Choosing
    case TryLock => if Live(w.locks, run.scored[|run.tried|].driver, w.now).None? then Locked else Choosing
    case NoMoreCandidates => MarkingUnmatched(AllCandidatesDeclined)
    case SendOffer(connected) => if connected then Pc.Waiting else Releasing(Lost)
    case FireTimeout => run.pc
    case Resume => if w.offers.outcome[run.offer] then Finalizing else Releasing(Lost)
    case TryFinalize => if Books(w, run, act) then Committed else Releasing(Lost)
    case Announce(_) => Releasing(Won)
    case ReleaseLock =>
      (match run.pc.verdict case Won => ReadingFinal case Lost => Choosing case Threw => Failed)
    case ReadFinal => Done(OutcomeMatched)
    case MarkUnmatched =>
      if Cancels(w, run, act) then Done(OutcomeUnmatched(run.pc.reason)) else Rereading(run.pc.reason)
    case Reread =>
      Done(if w.db.trips[run.trip].status == Matched then OutcomeMatched else OutcomeUnmatched(run.pc.reason))
    // Inside the critical section the lock is still released, unless the release itself rejects.
    // Asking for the lock is outside: the await comes before the `try`.
    case Throw => if Critical(run.pc) && !run.pc.Releasing? then Releasing(Threw) else Failed
    case LoseReply => if run.pc.Finalizing? then Releasing(Threw) else Failed
  }

  /** The run's own variables after the action. */
  ghost function NextRun(w: World, run: Run, act: RunAction): Run
    requires CanAct(w, run, act)
  {
    var moved := run.(pc := NextPc(w, run, act));
    match act
    case Search(timeoutMs, nearby) => moved.(offerTimeoutMs := timeoutMs, found := nearby)
    case Score(scores) => moved.(scored := Sort(Pair(run.found, scores), Descending))
    case TryLock =>
      moved.(tried := run.tried + [run.scored[|run.tried|].driver],
             acquiredAt := w.now, offeredAt := None, resumedAt := None)
    case SendOffer(connected) => if connected then moved.(offer := w.nextOffer, offeredAt := Some(w.now)) else moved
    case Resume => moved.(resumedAt := Some(w.now))
    case _ => moved
  }

  /** The lock of the next candidate is asked for, or the current one released. */
  ghost function NextLocks(w: World, run: Run, act: RunAction): Locks
    requires CanAct(w, run, act)
  {
    if act.TryLock? || (act.LoseReply? && run.pc.Choosing?) then
      Acquired(w.locks, run.scored[|run.tried|].driver, run.trip, run.offerTimeoutMs + LOCK_SLACK_MS, w.now)
    else if act.ReleaseLock? || (act.LoseReply? && run.pc.Releasing?) then
      Released(w.locks, Current(run), run.trip, w.now)
    else
      w.locks
  }

  ghost function NextOffers(w: World, run: Run, act: RunAction): Offers
    requires CanAct(w, run, act)
  {
    match act
    case SendOffer(connected) => if connected then TripOffers.Waiting(w.offers, run.trip, w.nextOffer) else w.offers
    case FireTimeout => TimedOut(w.offers, run.offer)
    case _ => w.offers
  }

  ghost function EffectOf(w: World, run: Run, act: RunAction): Effect
    requires CanAct(w, run, act)
  {
    if Books(w, run, act) then Booked(run.trip, Current(run))
    else if Cancels(w, run, act) then Dropped(run.trip, run.pc.reason)
    else
      match act
      case SendOffer(connected) => if connected then Chatter(SentOffer(run.trip, Current(run), w.nextOffer)) else Quiet
      case Announce(connected) => if connected then Chatter(SentMatched(run.trip, Current(run))) else Quiet
      case _ => Quiet
  }

  ghost function StepRun(w: World, r: RunId, act: RunAction): World
    requires r in w.runs && CanAct(w, w.runs[r], act)
  {
    var run := w.runs[r];
    Apply(w, EffectOf(w, run, act)).(
      runs := w.runs[r := NextRun(w, run, act)],
      locks := NextLocks(w, run, act),
      offers := NextOffers(w, run, act),
      nextOffer := if act.SendOffer? then w.nextOffer + 1 else w.nextOffer)
  }

  // ---- All actions ----------------------------------------------------------------------------

  datatype Action =
    | Tick(ms: nat)
    | InsertTrip(trip: TripId)
    | InsertDriver(driver: DriverId, status: DriverStatus)
    | PatchRead(patch: PatchId, driver: DriverId, status: DriverStatus)
    | PatchWrite(patch: PatchId)
    | ReconcileOffline(driver: DriverId)
    | Respond(sender: DriverId, trip: TripId, accept: bool)
    | StartMatch(run: RunId, trip: TripId)
    | RunAct(run: RunId, act: RunAction)

  ghost predicate Enabled(w: World, a: Action) {
    match a
    case Tick(_) => true
    case InsertTrip(t) => t !in w.db.trips
    case InsertDriver(d, _) => d !in w.db.drivers
    case PatchRead(p, d, next) => p !in w.patches && d in w.db.drivers && LegalTransition(w.db.drivers[d], next)
    case PatchWrite(p) => p in w.patches
    case ReconcileOffline(d) => d in w.db.drivers
    case Respond(_, t, _) => t in w.offers.pending
    case StartMatch(r, t) => r !in w.runs && t in w.db.trips
    case RunAct(r, act) => r in w.runs && CanAct(w, w.runs[r], act)
  }

  function NewRun(db: Db, t: TripId): Run
    requires t in db.trips
  {
    Run(t, if db.trips[t].status == Requested then Searching else Done(OutcomeAlreadyResolved),
        0, [], [], [], 0, 0, None, None)
  }

  ghost function Step(w: World, a: Action): World
    requires Enabled(w, a)
  {
    match a
    case Tick(ms) => w.(now := w.now + ms)
    case InsertTrip(t) => Apply(w, Opened(t))
    case InsertDriver(d, status) => Apply(w, Wrote(d, status))
    case PatchRead(p, d, next) => w.(patches := w.patches[p := Patch(d, next)])
    case PatchWrite(p) => Apply(w.(patches := w.patches - {p}), Wrote(w.patches[p].driver, w.patches[p].next))
    case ReconcileOffline(d) => Apply(w, Wrote(d, Offline))
    case Respond(sender, t, accept) =>
      Apply(w.(offers := Answered(w.offers, t, accept)), Chatter(GotResponse(w.offers.pending[t], sender, accept)))
    case StartMatch(r, t) => w.(runs := w.runs[r := NewRun(w.db, t)])
    case RunAct(r, act) => StepRun(w, r, act)
  }

  // ---- Runs of the system ---------------------------------------------------------------------

  /** Every action of the list is enabled where it is taken. */
  ghost predicate Legal(w: World, actions: seq<Action>)
    decreases |actions|
  {
    |actions| == 0 || (Enabled(w, actions[0]) && Legal(Step(w, actions[0]), actions[1..]))
  }

  ghost function After(w: World, actions: seq<Action>): World
    requires Legal(w, actions)
    decreases |actions|
  {
    if |actions| == 0 then w else After(Step(w, actions[0]), actions[1..])
  }
}
