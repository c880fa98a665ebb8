# A verified model of the ride-dispatch core

Dafny 4.11 models of the parts of the dispatch system whose correctness is hardest to see, and proofs
about them. `dafny verify dfyconfig.toml` checks everything.

- **Trip matching** (`Matching.dfy`, `MatchingSafety.dfy`, `MatchingLocks.dfy`, `MatchingOffers.dfy`,
  `MatchingRuns.dfy`, `MatchingResults.dfy`, `MatchingService.dfy`, `Stores.dfy`, `DriverOffer.dfy`). Any
  number of `matchTrip` runs interleave at every await with status updates, reconciliation, driver responses
  and the clock. Each run has a program counter; one step is what the code does between two awaits; searches
  may return any list without repeats, locks expire by themselves, any call outside the offer wait may reject,
  and a write that rejects may have taken effect. The stores are classes whose methods are proved against the
  functions the steps use, and `matchTrip` itself is a method with its loop, early exit, errors and the lock
  given back in the `finally`, every execution of which is a legal run of the protocol. Results are invariants
  of every legal run from the empty system; what does not hold is shown by runs, from every state from which
  it can happen.
- **Geohash and its index** (`Geohash.dfy`, `GridBlock.dfy`, `GeohashIndex.dfy`, `Ranking.dfy`). Floor
  division and bit interleaving against recursive bisection; the three-map index against a brute-force scan.
- **Location pipeline** (`Throttle.dfy`, `Connections.dfy`, `Batch.dfy`, `Pipeline.dfy`, `PipelineMethods.dfy`,
  `Subscriptions.dfy`, `Hub.dfy`, `Delta.dfy`, `Tracking.dfy`, `EndToEnd.dfy`). Throttle and timer, connection
  replacement, the fleet batch with the await inside its flush, the subscriber registry over shared records,
  per-subscriber delta encoding, the client that decodes it, and all of it as one system from the driver's
  socket to the position a rider is shown.
- **Sharding, surge, ETA cache** (`Regions.dfy`, `Sharding.dfy`, `Surge.dfy`, `Eta.dfy`).

Coordinates, distances and multipliers are reals, ids are natural numbers (strings in the index and the
shards), and time is an explicit integer clock. What the code calls but does not contain (distance,
cosine, Redis searches, ML and routing answers, the clock) is a parameter; each theorem names what it needs.

## Main results

- No double booking on any interleaving: `NoDoubleBooking`, `BookingsNeverExceedOnlineWrites`, `BookableIffOnline`.
- Locks: `OneHolder`, `FinishedRunHoldsNoLock`, and 5000 ms as the exact bound of `FiveSecondsIsExact`.
- Offers: `MatchWasAccepted`, `AnswersOwnOfferIffOpen`, `BookedByOwnAcceptIffOpen`; the driver's client:
  `FirstPressDecides`, `ClientMatchIsTrue`.
- The life of trips and runs: `TripLifecycle`, `FinishedRun`, `FinishedRow`, `MatchIsAnnounced`, and the method
  `MatchTrip` with its errors.
- Geohash: `EncodeIsBisection`, `DeinterleaveInterleave`, `InterleaveDeinterleave`, `EncodeOfDecode`, `DecodeOfEncode`.
- The index: `FoundIsBruteForce`, `SearchIsExhaustive`, `NearestNeighbors`.
- The pipeline: `BroadcastsAreInOrder`, `LastBroadcastIsLastReceived`, `ConnectionReleasesAreSpaced`,
  `SubscriberInStep`, `EndedSubscriberSees`, and end to end `ShownPositionsFollowTheSocket`.
- Sharding: `MergedIsTop`, `ExactIffNothingSkipped`; surge: `SteadyZoneConverges`; ETA: `ServedFromCacheIsClose`.

## Where the code does less than its comments say

Each of these is shown by a lemma, for all states from which it can happen or with a concrete case, next to
the exact or sufficient condition.

- `core/src/geo/geohash-index.ts:122-124` calls the radius search exhaustive for any radius. A point just
  across a pole is missed (`OverThePoleIsMissed`); the search is exact if and only if every stored point in
  the radius lies in the scanned block (`FoundIsBruteForce`), which the axis bound of `SearchIsExhaustive` gives.
- `core/src/ws/delta-compression.ts:52-55` says rounding never compounds. The error grows by up to half a
  quantum per delta and this is attained (`ErrorIsAttained`); a chain is exact if and only if every hop is a
  whole number of quanta (`ExactIffWholeHops`).
- `core/src/services/matching.service.ts:129-130` says the lock cannot expire under an offer in flight. It
  cannot while the delays outside the offer wait stay under 5000 ms (`NoSecondOffer`), and no larger bound
  would do (`FiveSecondsIsExact`): for every offer timeout there is a run with a delay of exactly 5000 ms and
  two open offers to one driver (`TwoOffersInFlight`). From every state in which a run's lock has expired a
  second run can get past it (`LapsedLockLetsAnotherIn`), and every lock can come to that (`EveryClaimCanBeJoined`).
- `core/src/ws/trip-offers.ts:4-6` calls the trip id a sufficient key. With one run per trip a response answers
  its sender's own offer if and only if that offer is still open (`AnswersOwnOfferIffOpen`). If all responses
  arrive so, every booked driver has accepted itself (`MatchWasAccepted`); a late accept of one driver books
  the next one, who has not answered (`BookedByOwnAcceptIffOpen`, and a whole run in `LateAcceptBooksAnother`).
- A driver can end up with two active trips through a legal status update (`TwoActiveTrips`). Two matched rows
  imply an online write after the first match (`TwoTripsNeedOnlineWrite`), and whenever a driver with an active
  trip is online it can get another (`OnlineWithTripGetsSecond`): being online is the exact condition
  (`BookableIffOnline`).
- `core/src/services/drivers.service.ts:8-14` says a driver cannot drop offline in the middle of a trip. An update
  written as soon as it is checked cannot do that (`PromptUpdateKeepsRules`), but check and write are two statements:
  any online driver can be matched between them (`StaleUpdateTakesMatchedDriverOffline`).
- A run that finds its trip already cancelled reports its own reason, which need not be the recorded one
  (`SecondRunReportsOtherReason`); with one run per trip it always is (`FinishedRow`).
- The throttle's rate bound needs due timers to fire before later messages (`OvertakenTimerReleasesEarly`),
  and the order of a driver's broadcasts needs replaced sockets to be silent: from every state two messages on
  a replaced socket can break it (`StragglersBreakTheOrder`).
- `core/src/repositories/sharded-driver-geo.repository.ts:48-54` promises that no stale duplicate survives a
  crossing. An update that stops before recording the new region leaves none itself
  (`StoppedUpdateKeepsOneShard`), but the next update leaves one unless it is for the same region again
  (`StoppedUpdateHealsIff`).
- The ETA cache does not notice that the leg of a trip has changed: it goes on serving the distance to the old
  target (`OldLegIsServed`, with the exact condition for an unmoved driver; `LegChangeBound` in general). The
  status `in_progress` that changes the leg is read by the code but written nowhere in `core/src`, as
  `RowsStep` shows of the modelled code; it has to come from outside.

## Model

| member | source | states |
|---|---|---|
| MatchingSafety.StepEffect | core/src/services/matching.service.ts:34-174 | every step of every actor changes rows and history only by one guarded effect: a booking only under both guards of the transaction, a cancellation only of a requested trip |
| MatchingSafety.BookingStep | core/src/repositories/trips.repository.ts:145-174 | every step keeps the invariant that each finalization found its driver written online after the driver's last finalization |
| MatchingSafety.NoDoubleBooking | core/src/repositories/trips.repository.ts:145-174 | in every run, with locks expiring at any time and searches returning any list without repeats, two finalizations onto one driver have an 'online' write to that driver's row between them |
| MatchingSafety.BookingsNeverExceedOnlineWrites | core/src/repositories/trips.repository.ts:145-174 | in every run, finalizations onto a driver never outnumber the 'online' writes to its row, inserts included |
| MatchingSafety.RowsStep | core/src/repositories/trips.repository.ts:145-190 | every step keeps trip rows well shaped (a driver exactly when matched) and keeps those with a driver equal to the finalizations on record |
| MatchingSafety.TripLifecycle | core/src/repositories/trips.repository.ts:145-190 | over any two stretches of any run a trip leaves 'requested' at most once, for matched with a driver or cancelled without, and never changes again |
| MatchingSafety.RunsStep | core/src/services/matching.service.ts:34-116 | every step keeps what each run's program counter and variables promise about its search, ranking, attempts and outcome |
| MatchingSafety.FinishedRun | core/src/services/matching.service.ts:34-116 | when a run returns normally, however many others there are, its trip is resolved as matched or cancelled as the outcome says; the drivers tried are distinct search results in non-increasing score order; 'all declined' means every candidate was tried, 'none available' that none was found |
| MatchingSafety.ScoringRanks | core/src/services/matching.service.ts:63-76 | scoring and sorting: every driver found is ranked exactly once, with its own score, best score first |
| MatchingResults.ResultsStep | core/src/services/matching.service.ts:34-116 | every step keeps, with one run per trip, what a run's program counter says of its trip's row: untouched until it finalizes or cancels it |
| MatchingResults.FinishedRow | core/src/services/matching.service.ts:78-116 | with one run per trip, the row says what a returned run reports: matched to the last driver it tried, or cancelled without a driver for the very reason reported |
| MatchingResults.SecondRunReportsOtherReason | core/src/services/matching.service.ts:111-115 | with two runs for one trip that fails: a run from the empty system after which a run reports another reason than the row records |
| MatchingResults.MatchIsAnnounced | core/src/services/matching.service.ts:148-169 | with one run per trip, a run that reports a match has sent its driver the confirmation, unless the driver was not connected at that moment |
| MatchingLocks.TryLockKeeps | core/src/services/matching.service.ts:131-133 | asking for a lock, heard or not, keeps every unexpired claim backed by its own lock |
| MatchingLocks.ReleaseKeeps | core/src/services/matching.service.ts:171-173 | giving a lock back, heard or not, removes only a lock of the run's own trip, so no other run's claim loses its lock |
| MatchingLocks.LocksStep | core/src/services/matching.service.ts:124-174 | every step keeps the lock invariant: claims are backed, live locks accounted for |
| MatchingLocks.OneHolder | core/src/repositories/driver-lock.repository.ts:24-31 | in every run with one matching run per trip, lost replies included, at most one run claims a driver under an unexpired lock |
| MatchingLocks.NoSecondOffer | core/src/services/matching.service.ts:129-173 | while delays outside the offer wait stay under 5000 ms, no two runs are past the lock of the same driver |
| MatchingLocks.FinishedRunHoldsNoLock | core/src/services/matching.service.ts:171-173 | after a run has returned normally no live lock is owned by its trip |
| MatchingOffers.OffersStep | core/src/services/matching.service.ts:135-169 | every step keeps the invariant linking offers, responses, finalizations and confirmations |
| MatchingOffers.AnswersStep | core/src/ws/trip-offers.ts:11-37 | every step keeps: offers are numbered, what waits in the registry is unanswered, an open offer is the one pending for its trip and waited for, and a driver is offered a trip once |
| MatchingOffers.SettleKeeps | core/src/ws/trip-offers.ts:13-37 | settling an offer, by response or timeout, leaves every other open offer pending and waited for |
| MatchingOffers.FreeToSend | core/src/services/matching.service.ts:135-145 | a run about to send an offer has no open one for its trip and has not asked this driver before |
| MatchingOffers.AnswersOwnOfferIffOpen | core/src/ws/trip-offers.ts:4-37 | in every run with one matching run per trip, a response answers the offer its own sender was sent if and only if that offer is still open |
| MatchingOffers.OwnAnswersStep | core/src/ws/trip-offers.ts:30-37 | a response to an open offer of its sender keeps every answer with the driver its offer went to |
| MatchingOffers.MatchWasAccepted | core/src/services/matching.service.ts:145-148 | every finalization follows an accepted offer of that trip to that driver; with one run per trip and every response arriving while its sender's own offer is open, the driver itself was sent that offer and accepted it |
| MatchingOffers.ConfirmationIsTrue | core/src/services/matching.service.ts:148-168 | a driver told that a trip is matched is the driver of that trip's row, then and in every later state |
| MatchingRuns.BookedByOwnAcceptIffOpen | core/src/ws/trip-offers.ts:30-37 | from every reachable state in which a run waits for a driver who can be booked, an accept from anyone leads to that booking; the booked driver has accepted itself if and only if the sender's own offer was still open |
| MatchingRuns.LateAcceptBooksAnother | core/src/ws/trip-offers.ts:4-37 | a whole run from the empty system in which a driver who never answered is matched by another driver's late accept |
| MatchingRuns.TwoTripsNeedOnlineWrite | core/src/repositories/trips.repository.ts:145-174 | in every reachable state, two rows with one driver mean that the driver was written online after a finalization |
| MatchingRuns.NotOnlineNotBooked | core/src/repositories/trips.repository.ts:160-166 | from any state, no run finalizes a driver that is not online before it is written online |
| MatchingRuns.BookableIffOnline | core/src/services/drivers.service.ts:32-42 | from every reachable state a driver can be finalized without a further online write if and only if its row is online, whatever trips it has |
| MatchingRuns.OnlineWithTripGetsSecond | core/src/services/drivers.service.ts:32-42 | from every reachable state in which a driver with an active trip is online, a run leads to a second active trip of that driver |
| MatchingRuns.TwoActiveTrips | core/src/services/drivers.service.ts:32-42 | a whole run from the empty system after which one driver is matched to two trips, by a legal update back to online |
| MatchingRuns.PromptUpdateKeepsRules | core/src/services/drivers.service.ts:8-42 | a status update written as soon as it is checked is let through exactly if it neither makes an offline driver busy nor takes a busy one offline, and then sets just that status |
| MatchingRuns.ReconciliationTakesAnyoneOffline | core/src/services/reconciliation.service.ts:14-27 | reconciliation takes any known driver offline, busy or not, and leaves its trips and every other row as they are |
| MatchingRuns.StaleUpdateTakesMatchedDriverOffline | core/src/services/drivers.service.ts:32-42 | from every reachable state in which a driver is online, an update checked now and written later takes the driver offline after it has been matched |
| MatchingRuns.LapsedLockLetsAnotherIn | core/src/services/matching.service.ts:129-133 | from every reachable state with one run per trip in which a run claims a driver whose lock has expired, a second run with no delay of its own comes to claim and wait for the same driver at once |
| MatchingRuns.EveryClaimCanBeJoined | core/src/services/matching.service.ts:129-133 | from every reachable state in which a run claims a driver, that happens when the clock reaches the lock's expiry |
| MatchingRuns.TwoOffersInFlight | core/src/services/matching.service.ts:129-132 | for every offer timeout, a reachable state with two open offers to one driver in which one run was delayed by exactly 5000 ms outside its offer wait and the other not at all |
| MatchingRuns.FiveSecondsIsExact | core/src/services/matching.service.ts:129-131 | delays below a bound keep every second run out, in all reachable states, if and only if the bound is at most 5000 ms |
| MatchingService.MatchingService.MatchTrip | core/src/services/matching.service.ts:34-90 | one attempt alone, with any call rejecting: a missing trip is an error, a resolved one untouched, a failed read or search changes nothing; otherwise the first candidate by score on which the attempt does not just fail decides: booked and, if a match is reported, sent the confirmation; or an error passed on with the row booked exactly if the transaction had gone through; without one the row is cancelled and records the reason that is reported; no other row changes; no lock stays behind unless taking it or giving it back went wrong; the execution is a legal run of the protocol |
| MatchingService.MatchingService.OfferInOrder | core/src/services/matching.service.ts:78-84 | the loop stops at exactly the first candidate that decides, and changes no row if none does |
| MatchingService.MatchingService.TryOfferToDriver | core/src/services/matching.service.ts:124-174 | matches exactly if the lock was free, the driver accepted in time and the booking guards held, and has then sent the confirmation; an error inside the `try` gives the lock back and is passed on; only a fault in taking the lock or giving it back can leave it behind |
| MatchingService.MatchingService.BookAccepted | core/src/services/matching.service.ts:148-170 | an accepted offer is booked exactly if the guards hold and the transaction takes effect, also when its reply or the status update after it is lost; a match is confirmed to the driver before it is returned |
| MatchingService.MatchingService.OfferAndGiveBack | core/src/services/matching.service.ts:134-173 | the `try` and its `finally`: however the inside ends, the lock is given back |
| MatchingService.MatchingService.AwaitResponse | core/src/services/matching.service.ts:145-146 | an answer within the timeout decides, when it comes; otherwise the timer declines after exactly the timeout |
| MatchingService.MatchingService.ResolveUnmatched | core/src/services/matching.service.ts:92-116 | a requested trip is cancelled, its row recording exactly the reason reported, its driver and all other rows as they were; a trip resolved by someone else is left alone and reported matched exactly if its row says so; errors are passed on |
| MatchingService.DecidesIsFirstWinner | core/src/services/matching.service.ts:78-84 | without errors the one who decides is the first candidate that can be locked at its turn, accepts in time and is free |
| MatchingService.AttemptGivesLockBack | core/src/services/matching.service.ts:129-173 | taking a free lock and releasing it before it expires leaves every lock as it was, from then on |
| DriverLocks.DriverLockRepository.AcquireDriverLock | core/src/repositories/driver-lock.repository.ts:24-31 | succeeds exactly when no unexpired lock exists, and then holds the trip's lock until now plus the time to live |
| DriverLocks.DriverLockRepository.ReleaseDriverLock | core/src/repositories/driver-lock.repository.ts:33-35 | removes the driver's lock exactly if it is unexpired and the trip's own, and changes nothing else |
| DriverLocks.ReleaseByOther | core/src/repositories/driver-lock.repository.ts:9-18 | a release changes nothing if and only if the trip does not hold an unexpired lock |
| DriverLocks.AcquireThenRelease | core/src/repositories/driver-lock.repository.ts:24-35 | taking a free lock and releasing it in time frees the driver and touches no other |
| TripRows.TripsRepository.TryFinalizeMatch | core/src/repositories/trips.repository.ts:145-174 | succeeds exactly when the trip is requested and unassigned and the driver online; then the trip is matched to the driver and the driver busy, and no other row changes; otherwise nothing does |
| TripRows.TripsRepository.MarkTripUnmatched | core/src/repositories/trips.repository.ts:182-190 | exactly when the trip was requested it becomes cancelled with exactly the reason given, its driver, every other trip and all drivers as they were, and the updated row is returned; otherwise nothing changes |
| TripOffers.TripOfferRegistry.WaitForDriverResponse | core/src/ws/trip-offers.ts:13-28 | registers the promise under the trip, replacing any earlier one, and arms its timer |
| TripOffers.TripOfferRegistry.FireTimeout | core/src/ws/trip-offers.ts:15-18 | an armed timer removes whatever is pending for the trip and declines its own promise unless that is settled; an unarmed one does nothing |
| TripOffers.TripOfferRegistry.HandleDriverResponse | core/src/ws/trip-offers.ts:32-37 | reports whether anything was pending for the trip, and if so settles that promise with the answer, unless it is settled, and clears its timer |
| TripOffers.OutcomeIsFinal | core/src/ws/trip-offers.ts:13-28 | a settled promise keeps its outcome through any timeout or response |
| TripOffers.FirstOneDecides | core/src/ws/trip-offers.ts:13-37 | of timeout and response the first decides and the second changes nothing |
| DriverOffer.OneResponsePerOffer | frontend/src/hooks/driverOfferReducer.ts:62-144 | on any event sequence at most one response is sent per offer received, for each trip (that one is sent: `PressIsSent`) |
| DriverOffer.ResponsesAreClicks | frontend/src/hooks/driverOfferReducer.ts:106-125 | on any event sequence the accepts sent never outnumber the accepts pressed, nor the declines sent the declines pressed (which presses are sent: `FirstPressDecides`) |
| DriverOffer.PressIsSent | frontend/src/hooks/driverOfferReducer.ts:62-126 | after a well-formed offer in any phase but a match, and events that leave it open, a press sends exactly one response: to that trip, with that answer; an accept then waits with the places and deadline of the offer, a decline is final |
| DriverOffer.FirstPressDecides | frontend/src/hooks/driverOfferReducer.ts:62-144 | over the whole life of an offer up to the next one, the response sent is the first press if that comes before the deadline and any confirmation, and otherwise there is none, both ways |
| DriverOffer.WaitingEnds | frontend/src/hooks/driverOfferReducer.ts:88-144 | a client waiting for a confirmation, whatever else happens, comes onto that trip with the places offered when it arrives, and expires as too late when the grace runs out |
| DriverOffer.UnansweredEnds | frontend/src/hooks/driverOfferReducer.ts:88-133 | an open offer expires unanswered at its deadline with nothing sent, and is taken by a confirmation even before it is answered |
| DriverOffer.SettledUntilNextOffer | frontend/src/hooks/driverOfferReducer.ts:62-144 | an expired or declined offer stays so, with nothing sent, until the next well-formed offer, whatever confirmations, clicks and timers come |
| DriverOffer.MatchedIsAbsorbing | frontend/src/hooks/driverOfferReducer.ts:62-144 | a matched client stays on its trip and sends nothing, whatever arrives |
| DriverOffer.MatchNeedsConfirmation | frontend/src/hooks/driverOfferReducer.ts:88-101 | the client shows a match only after a confirmation of that trip |
| DriverOffer.GraceFollowsDeadline | frontend/src/hooks/driverOfferReducer.ts:106-117 | a waiting client's grace deadline is always its offer's deadline plus 2000 ms |
| DriverOffer.ClientMatchIsTrue | frontend/src/hooks/driverOfferReducer.ts:62-144 | composed with the server: a client that shows a match is right, and stays right in every later server state |
| Geohash.NormalizeLng | core/src/geo/geohash.ts:32-37 | the code's remainder and correction give the representative of the longitude modulo 360 in [-180, 180) |
| Geohash.NormalLngIsCanonical | core/src/geo/geohash.ts:30-37 | two longitudes have the same normal form if and only if they differ by whole turns |
| Geohash.AxisIndexRefines | core/src/geo/geohash.ts:51-64 | halving the cells of an axis splits each in two and the new index says which half holds the offset, the capped last cell included |
| Geohash.SpanIsQuotient | core/src/geo/geohash.ts:51-64 | the width of a cell is the quotient of the extent by the power of two |
| Geohash.CellOfContains | core/src/geo/geohash.ts:51-83 | the cell of a point is in the grid and its bounds contain the clamped and normalized point |
| Geohash.Interleave | core/src/geo/geohash.ts:87-103 | the shift-and-or loop computes the interleaving, longitude bit first |
| Geohash.Deinterleave | core/src/geo/geohash.ts:105-122 | the loop over the bits recovers column and row |
| Geohash.InterleavedInRange | core/src/geo/geohash.ts:87-103 | the hash of an in-grid cell is below two to the number of bits |
| Geohash.DeinterleaveInterleave | core/src/geo/geohash.ts:87-122 | reading back the hash of any in-grid cell gives that cell |
| Geohash.InterleaveDeinterleave | core/src/geo/geohash.ts:87-122 | every hash below 2^bits is the hash of the in-grid cell read from it |
| Geohash.CellHashInjective | core/src/geo/geohash.ts:188-191 | different in-grid cells have different hashes |
| Geohash.BisectionIsCell | core/src/geo/geohash.ts:4-8 | the box left by alternate bisection is exactly the cell, for every number of bits |
| Geohash.EncodeIsBisection | core/src/geo/geohash.ts:126-133 | for every point the encoding equals the recorded bits of longitude-first bisection for precisions 1 to 52, and any other precision is refused |
| Geohash.EncodePrefix | core/src/geo/geohash.ts:126-133 | dropping the last bit of an encoding gives the encoding one bit shorter |
| Geohash.EncodeOfDecode | core/src/geo/geohash.ts:126-153 | the centre of a decoded hash encodes back to that hash |
| Geohash.DecodeOfEncode | core/src/geo/geohash.ts:126-153 | decoding an encoding is within the stated error, half a cell, of the clamped and normalized point |
| Geohash.WithinErrorEncodesBack | core/src/geo/geohash.ts:126-153 | whatever lies strictly within the stated error of a decoded hash encodes to that hash: the margins are the cell, no more and no less |
| GridBlock.WrapColIsMod | core/src/geo/geohash-index.ts:111 | the double remainder is the column modulo the number of columns, for negative columns too |
| GridBlock.ReachedIsNear | core/src/geo/geohash-index.ts:110-112 | the column offsets of a scan reach exactly the columns at most that many away around the circle |
| GridBlock.BlockCovers | core/src/geo/geohash-index.ts:100-120 | a point within that many cell heights and widths of the centre, around the antimeridian, is in the scanned block |
| GridBlock.NeighborsAreTheBlock | core/src/geo/geohash.ts:166-186 | a cell and its eight neighbours are exactly the 3x3 block, wrapped in columns and clamped at the poles |
| GridBlock.NeighborsLieThatWay | core/src/geo/geohash.ts:166-186 | each of the eight neighbours lies the way its name says: one cell height or width that way from any point of a cell is a point of that neighbour, across the antimeridian and stopping at the poles |
| GridBlock.PrecisionForRadius | core/src/geo/geohash.ts:200-211 | the finest even precision up to 52 whose cells fit the radius, or 2 |
| GridBlock.NeighborsCoverRadius | core/src/geo/geohash.ts:193-211 | at a precision whose cells fit, the centre's cell and its neighbours hold every point within the radius on both axes |
| Ranking.Sort | core/src/geo/geohash-index.ts:143 | the sort returns the same elements with ascending keys |
| Ranking.SortIsStable | core/src/services/matching.service.ts:76 | elements with equal keys stay in the order they came in |
| Ranking.PrefixIsNearest | core/src/geo/geohash-index.ts:147-153 | nothing left out of a prefix of a ranking is strictly nearer than anything in it |
| GeohashIndexes.FoundIsBruteForce | core/src/geo/geohash-index.ts:122-145 | the search finds exactly the stored points in the radius if and only if each of them lies in the scanned block |
| GeohashIndexes.SearchIsExhaustive | core/src/geo/geohash-index.ts:125-145 | if points in the radius are within radius plus one cell on each axis in the code's metres, the search equals brute force, across the antimeridian and at the poles |
| GeohashIndexes.OverThePoleIsMissed | core/src/geo/geohash-index.ts:122-131 | a stored point in the radius, across the pole, that the search does not find |
| GeohashIndexes.RingsReach | core/src/geo/geohash-index.ts:127-131 | the rings computed for a radius reach one whole cell past it |
| GeohashIndexes.RingsAreTight | core/src/geo/geohash-index.ts:127-131 | and one ring fewer would not |
| GeohashIndexes.CodeMeters | core/src/geo/geohash-index.ts:84-91 | the metres cells and radii are compared in: 111,320 to a degree of latitude, times the cosine, or a millionth where that is less, to one of longitude |
| GeohashIndexes.DoubledIsPower | core/src/geo/geohash-index.ts:155-166 | the radii tried are the first one times the powers of two |
| GeohashIndexes.GeohashIndex.Create | core/src/geo/geohash-index.ts:39-44 | construction fails exactly for a precision outside 1 to 52 |
| GeohashIndexes.GeohashIndex.Upsert | core/src/geo/geohash-index.ts:54-70 | keeps each id in exactly the bucket of its latest position's cell; the positions become the old ones with this one set |
| GeohashIndexes.GeohashIndex.Rebucket | core/src/geo/geohash-index.ts:55-68 | moves an id from its old bucket to that of the new hash and no other id at all |
| GeohashIndexes.GeohashIndex.Remove | core/src/geo/geohash-index.ts:72-80 | keeps the three maps consistent; the positions become the old ones without this id |
| GeohashIndexes.GeohashIndex.Unbucket | core/src/geo/geohash-index.ts:73-78 | takes a known id out of its bucket and leaves every other id in its own |
| GeohashIndexes.GeohashIndex.BucketIsCell | core/src/geo/geohash-index.ts:113-116 | the ids of a visited cell's bucket are exactly the stored ids whose position falls in that cell |
| GeohashIndexes.GeohashIndex.ScanCandidates | core/src/geo/geohash-index.ts:100-120 | the candidates are exactly the stored ids whose cell is in the block around the centre's cell |
| GeohashIndexes.GeohashIndex.ScanRows | core/src/geo/geohash-index.ts:107-109 | the row loop skips rows outside the grid and collects exactly the ids of the others |
| GeohashIndexes.GeohashIndex.ScanRow | core/src/geo/geohash-index.ts:110-117 | the column loop adds exactly the ids of the row's wrapped columns |
| GeohashIndexes.GeohashIndex.FilterByDistance | core/src/geo/geohash-index.ts:134-142 | one entry for each candidate within the radius, with its stored coordinates and its distance from the centre, and none for any other |
| GeohashIndexes.GeohashIndex.RadiusSearchAll | core/src/geo/geohash-index.ts:125-144 | the entries found, each once, by ascending distance, each with its stored coordinates and its distance from the centre |
| GeohashIndexes.GeohashIndex.RadiusSearch | core/src/geo/geohash-index.ts:125-145 | a ranking of the entries found, cut by the limit as a slice would; those found are the brute-force ones whenever the axis bound holds; each carries its stored coordinates and its distance from the centre |
| GeohashIndexes.GeohashIndex.NearestNeighbors | core/src/geo/geohash-index.ts:155-166 | terminates; results carry their stored coordinates and distance, ascending; fewer than k only past the maximum radius; if the axis bound holds for the last radius, or for every radius the deepening may try, which a caller can compute first, the results are the k nearest, or all within the maximum radius |
| GeohashIndexes.FirstAreNearest | core/src/geo/geohash-index.ts:147-166 | the first k of an exhaustive search are the k nearest of all stored points |
| Throttling.ThrottleState.HandleLocationMessage | core/src/ws/driver-connections.ts:71-100 | releases the update if the window is open, otherwise keeps it as the one pending update and arms the timer for the window's end if unarmed |
| Throttling.ThrottleState.FireTimer | core/src/ws/driver-connections.ts:90-97 | releases what is pending, if anything, and restarts the window only then |
| Throttling.MessageKeepsOnTime | core/src/ws/driver-connections.ts:80-84 | handling a message leaves the timer due at the window's end if and only if no due timer was waiting |
| Throttling.PromptIsOnTime | core/src/ws/driver-connections.ts:87-99 | when due timers fire before later messages, an armed timer is always due exactly when the window reopens |
| Throttling.ReleasesAreSpaced | core/src/ws/driver-connections.ts:71-100 | on one connection whose due timers fire before later messages, releases are at least one window apart |
| Throttling.OvertakenTimerReleasesEarly | core/src/ws/driver-connections.ts:80-97 | from every on-time state whose due timer a message overtakes, a continuation with two releases in the same instant |
| DriverConnections.ConnectionRegistry.HandleDriverConnection | core/src/ws/driver-connections.ts:104-116 | the new connection becomes the driver's only entry with a fresh throttle, and the replaced one's timer is disarmed |
| DriverConnections.ConnectionRegistry.HandleLocationMessage | core/src/ws/driver-connections.ts:71-100 | throttles by the socket's own state and enqueues exactly what that releases |
| DriverConnections.ConnectionRegistry.HandleTimer | core/src/ws/driver-connections.ts:90-97 | enqueues exactly the pending update |
| DriverConnections.ConnectionRegistry.HandleClose | core/src/ws/driver-connections.ts:159-168 | disarms the socket's timer and removes the driver's entry only if it is this connection |
| LocationBatches.LocationBatch.BeginFlush | core/src/ws/location-batch.ts:41-47 | does nothing while a flush is in flight or nothing waits, otherwise takes everything waiting and sets the guard |
| LocationBatches.LocationBatch.BroadcastSnapshot | core/src/ws/location-batch.ts:65-80 | every open subscriber of a driver in the snapshot the database still knew gets exactly one location, its driver's; nobody else gets anything |
| LocationBatches.FlushedOneMore | core/src/ws/location-batch.ts:65-80 | broadcasts for different drivers do not interfere |
| Pipeline.StepKeeps | core/src/ws/location-batch.ts:41-99 | every step keeps received reports traceable and in order through throttle, batch, flight and broadcast |
| Pipeline.BroadcastsAreInOrder | core/src/ws/location-batch.ts:24-99 | in every run without messages on replaced sockets, each driver's broadcasts are an in-order subsequence of what was received from it |
| Pipeline.ConnectionsAreInOrder | core/src/ws/location-batch.ts:24-99 | in every run, the broadcasts that came over one connection are an in-order subsequence of what was received |
| Pipeline.ThrottleFollowsItsEvents | core/src/ws/driver-connections.ts:71-168 | in every run, a connection's throttle is the one its own messages, timers and clearings give |
| Pipeline.ConnectionReleasesAreSpaced | core/src/ws/driver-connections.ts:71-100 | in every run of the whole pipeline, a connection whose due timers fire before its later messages releases at least one window apart |
| Pipeline.NewestAfter | core/src/ws/location-batch.ts:41-99 | a step changes a driver's newest held report only to the message it receives, or to an older one by one of the named drops |
| Pipeline.NewestIsLastReceived | core/src/ws/location-batch.ts:24-99 | the newest report held or broadcast is the last received if and only if nothing dropped it since |
| Pipeline.LastBroadcastIsLastReceived | core/src/ws/location-batch.ts:24-99 | once nothing waits, the last broadcast is the last received report if and only if no close, failed flush or missing row dropped it |
| Pipeline.StragglersBreakTheOrder | core/src/ws/driver-connections.ts:104-115 | from every reachable state, two messages on any open socket that is not its driver's current one lead, with the clock never going back, to a broadcast after one that was received later |
| PipelineMethods.ReceiveIsHandleLocationMessage | core/src/ws/driver-connections.ts:71-100 | a received message changes throttle and batch of the pipeline as the contract of the method says |
| PipelineMethods.TimerIsHandleTimer | core/src/ws/driver-connections.ts:90-97 | so does a timer |
| PipelineMethods.ConnectIsHandleDriverConnection | core/src/ws/driver-connections.ts:104-116 | so does a new connection |
| PipelineMethods.CloseIsHandleClose | core/src/ws/driver-connections.ts:159-168 | so does a close |
| PipelineMethods.FlushStartsIsBeginFlush | core/src/ws/location-batch.ts:41-47 | a flush can start in the pipeline exactly when the method takes a snapshot, and takes the same |
| PipelineMethods.FlushBroadcastsIsBroadcastSnapshot | core/src/ws/location-batch.ts:65-80 | the drivers the pipeline broadcasts are those the method has an update for, with the positions and times reported and the statuses the database returned |
| EndToEnd.LocationFollows | core/src/ws/subscriptions.ts:102-116 | a broadcast report adds to what a client in sync shows exactly one position, within one half quantum per delta so far |
| EndToEnd.BroadcastIsLater | core/src/ws/location-batch.ts:65-80 | a report about to be broadcast comes after everything broadcast of its driver before |
| EndToEnd.FlushesKeep | core/src/ws/location-batch.ts:41-99 | a flush keeps every open subscriber's shown positions matched, one for one and in order, with reports broadcast |
| EndToEnd.SubscribesKeep | core/src/ws/subscriptions.ts:45-147 | subscribing, matching, ending and closing keep that too |
| EndToEnd.ShownPositionsFollowTheSocket | frontend/src/hooks/tripTrackingReducer.ts:43-67 | over any run of the whole system, an open subscriber's client decodes everything; the positions it shows are, one for one, reports that drivers' sockets received, those of one driver in the order of receipt if no message came on a replaced socket and those of one connection in any case, the i-th off by at most i half quanta per axis |
| KeyedIndex.BucketIsExact | core/src/ws/subscriptions.ts:21-43 | the set stored under a key is exactly the records with that key, and is stored only if there are any |
| KeyedIndex.AddInverts | core/src/ws/subscriptions.ts:25-32 | adding a record keeps the index exact |
| KeyedIndex.RemoveInverts | core/src/ws/subscriptions.ts:34-43 | removing a record keeps the index exact and leaves no empty set |
| KeyedIndex.MoveInverts | core/src/ws/subscriptions.ts:128-132 | re-indexing a record under a new driver keeps the index exact |
| Subscriptions.Registry.Detach | core/src/ws/subscriptions.ts:46-50 | keeps all three indexes exact and removes exactly this socket's registration |
| Subscriptions.Registry.SubscribeSocket | core/src/ws/subscriptions.ts:53-72 | keeps all three indexes exact; the socket has one fresh registration, for just this driver and trip, in place of any earlier one, and is told so if open; no other registration or socket is touched |
| Subscriptions.Registry.Unsubscribe | core/src/ws/subscriptions.ts:74-79 | removes the socket's registration, and reports whether it had one |
| Subscriptions.Registry.HandleDisconnect | core/src/ws/subscriptions.ts:81-83 | the socket has no registration left |
| Subscriptions.Registry.BroadcastDriverLocation | core/src/ws/subscriptions.ts:102-116 | exactly the driver's open subscribers are written exactly one payload each, encoded against their own last position, which is then this one |
| Subscriptions.Registry.NotifyTripMatched | core/src/ws/subscriptions.ts:124-135 | keeps all three indexes exact; exactly the trip's subscribers now follow the driver and each open one is told once |
| Subscriptions.Registry.NotifyTripStatusChanged | core/src/ws/subscriptions.ts:140-147 | exactly the trip's subscribers are removed, and each open one is told once |
| Subscriptions.BroadcastInAnyOrder | core/src/ws/subscriptions.ts:110-115 | sending to the driver's subscribers one after another, in any order, is the broadcast |
| Subscriptions.RematchInAnyOrder | core/src/ws/subscriptions.ts:127-134 | re-indexing and telling the trip's subscribers one by one, in any order, is the match |
| Subscriptions.EndInAnyOrder | core/src/ws/subscriptions.ts:143-146 | telling and detaching the trip's subscribers one by one, in any order, is the end |
| Delta.ResidualBounds | core/src/ws/delta-compression.ts:80-81 | rounding a displacement to quanta is off by at most half a quantum, and by nothing exactly for whole quanta |
| Delta.HopKeepsStep | core/src/ws/delta-compression.ts:61-105 | any encoded payload decodes at a client in step and keeps it in step: same status, at most half a quantum more error per axis; only the first is full, each names driver and time, and the status is repeated only on a change |
| Delta.GridHopIsExact | core/src/ws/delta-compression.ts:61-105 | between points of the quantization grid a delta decodes exactly |
| Delta.ErrorIsAttained | core/src/ws/delta-compression.ts:52-55 | for every n a chain of n deltas whose error is n half quanta on each axis |
| Delta.ExactIffWholeHops | core/src/ws/delta-compression.ts:61-105 | an exact client stays exact through a chain if and only if every hop is a whole number of quanta |
| Tracking.FailsIffNoBase | frontend/src/hooks/tripTrackingReducer.ts:43-67 | a client fails on a run of messages if and only if one of them is a delta of the driver it then follows, met before any position |
| Tracking.OtherDriversAreIgnored | frontend/src/hooks/tripTrackingReducer.ts:63-66 | a location of a driver the client does not follow makes no difference to what it shows, then or after any further messages |
| Tracking.GoesBackIffLateMatch | frontend/src/hooks/tripTrackingReducer.ts:45-61 | a message takes the status shown back if and only if it is a match that arrives once the trip is past being matched; acknowledging a resubscription never does |
| Hub.SubscribeKeeps | core/src/ws/subscriptions.ts:53-72 | subscribing or resubscribing starts its client afresh and keeps every other client in step |
| Hub.BroadcastKeeps | core/src/ws/subscriptions.ts:102-116 | a broadcast keeps every subscriber's client in step |
| Hub.MatchKeeps | core/src/ws/subscriptions.ts:124-135 | a match keeps every client in step through the driver switch, with no full payload in between: it follows the driver and shows the trip matched |
| Hub.EndKeeps | core/src/ws/subscriptions.ts:140-147 | an end keeps the clients that remain subscribed in step |
| Hub.OpKeeps | core/src/ws/subscriptions.ts:45-147 | every operation keeps every open subscriber's client in step |
| Hub.SubscriberInStep | core/src/ws/subscriptions.ts:102-135 | after any operations, a fresh client that got every message of its subscription never met a delta without a base, follows the server's driver, shows the trip matched exactly if there is one, has the driver's status and is off by at most half a quantum per delta on each axis |
| Hub.MatchedSubscriberSees | core/src/ws/subscriptions.ts:124-135 | when a trip is matched, after any operations, each open subscriber of it gets exactly one more message, naming trip and driver, and then shows it matched to that driver, its position kept |
| Hub.EndedSubscriberSees | frontend/src/hooks/tripTrackingReducer.ts:69-80 | when a trip ends, after any operations, each open subscriber of it is told once, is registered no more and shows it completed or cancelled as the reason says, going on to fetch the final state exactly if it was cancelled |
| Hub.RefusedSubscriberSees | frontend/src/hooks/tripTrackingReducer.ts:82-93 | a refused request changes nothing a subscriber shows, and makes it fetch the final state exactly if the refusal says that the trip has already ended |
| Hub.GridSubscriberExact | core/src/ws/subscriptions.ts:102-135 | if all broadcast positions lie on the quantization grid, that client has exactly the last position sent |
| Regions.TheRegionsAreARow | core/src/geo/regions.ts:26-37 | the two regions share a border, a band of latitudes and no id |
| Regions.ExactlyOneRegion | core/src/geo/regions.ts:39-61 | every covered point is assigned exactly one region, the only one that owns it, on shared and outer borders too; any other point none |
| Regions.BorderBelongsEast | core/src/geo/regions.ts:39-61 | a point on a shared border belongs to the region to its east |
| Regions.CoveredArea | core/src/geo/regions.ts:26-61 | the area the two regions cover, outer borders included, and the meridian that divides it |
| Regions.WithinRadiusIsExact | core/src/geo/regions.ts:80-82 | a region is asked if and only if its clamped distance is within the radius |
| Regions.ClampedIsNearestPerAxis | core/src/geo/regions.ts:66-70 | clamping lands in the box, leaves inner points alone, and is nearest on each axis |
| Sharding.OneShardPerDriver | core/src/repositories/sharded-driver-geo.repository.ts:48-54 | a driver in two shards is in one: its recorded region's |
| Sharding.MovedMatches | core/src/repositories/sharded-driver-geo.repository.ts:67-78 | a move or update keeps every driver in exactly its recorded region's shard, at a point of that region |
| Sharding.ShardedDriverGeo.UpsertDriverLocation | core/src/repositories/sharded-driver-geo.repository.ts:55-81 | a point outside every region is refused and changes nothing; otherwise the union of the shards becomes the old one with this position, and migration is reported exactly on a change of region |
| Sharding.StoppedUpdateKeepsOneShard | core/src/repositories/sharded-driver-geo.repository.ts:67-78 | after any number of an update's three writes no driver is in two shards and no other driver is touched |
| Sharding.StoppedUpdateHealsIff | core/src/repositories/sharded-driver-geo.repository.ts:64-78 | after a crossing that stopped before recording the new region, the next update leaves the driver in one shard if and only if it is for that same region |
| Sharding.ShardedDriverGeo.RemoveDriver | core/src/repositories/sharded-driver-geo.repository.ts:84-90 | the union of the shards becomes the old one without the driver |
| Sharding.SkippedHasNothing | core/src/geo/regions.ts:80-82 | if clamping gives a box's nearest point, a region not asked has no driver within the radius |
| Sharding.PrefixIsTop | core/src/repositories/sharded-driver-geo.repository.ts:143-146 | sorting and slicing hits that are enough gives the nearest ones of the union |
| Sharding.MergedIsTop | core/src/repositories/sharded-driver-geo.repository.ts:110-147 | the top of each asked shard, flattened, sorted and sliced, is the top of all of them together, up to ties |
| Sharding.ExactIffNothingSkipped | core/src/repositories/sharded-driver-geo.repository.ts:115-147 | with a count that cuts nothing off, the sharded search is exact if and only if no skipped shard has anything within the radius |
| Sharding.ShardedDriverGeo.SearchNearby | core/src/repositories/sharded-driver-geo.repository.ts:110-147 | fails exactly for a count that is not positive when some shard is asked; every hit is marked with the region whose shard has the driver there; if clamping is exact, the result is what one unsharded search would return |
| Surge.Tally | core/src/services/surge.service.ts:35-45 | exactly the zones with a point, each with the number of its points |
| Surge.TallyCountsEveryPoint | core/src/services/surge.service.ts:35-45 | the counts of all zones add up to the number of inputs |
| Surge.ZoneIsGeohash | core/src/services/surge.service.ts:13-17 | a zone is the alternate bisection of the point, and two points share it if and only if they fall in one cell |
| Surge.TargetIsClampedRatio | core/src/services/surge.service.ts:66-73 | the baseline below the sample floor, otherwise the ratio of requests to drivers where allowed and the nearer bound where not |
| Surge.SurgeStore.ComputeAndUpdateSurge | core/src/services/surge.service.ts:27-88 | afterwards exactly the zones with a request, a driver or a stored state have a state, with the counts and time of the tick and a multiplier moved from the stored one, or for a new zone from the baseline, toward its target by the allowed change or onto it |
| Surge.TickIsBounded | core/src/services/surge.service.ts:75-82 | a tick keeps multipliers in range, moves each stored one toward its target by the allowed change or onto it, starts a new zone from the baseline and at most the allowed change above it, exactly there below the sample floor, and forgets no zone |
| Surge.EveryTickIsBounded | core/src/services/surge.service.ts:27-88 | the same at every tick of every run, whatever the counts |
| Surge.ZonesAreIndependent | core/src/services/surge.service.ts:60-85 | a zone's new state depends on its own counts and state only |
| Surge.SurgeConverges | core/src/services/surge.service.ts:75-82 | repeated steps approach the target monotonically without passing it and have reached it after n steps if and only if n is at least the distance over the allowed change, rounded up |
| Surge.SteadyZoneConverges | core/src/services/surge.service.ts:27-88 | in any run a zone with constant counts, stored before or starting from the baseline, is stored from the first tick on and has its target multiplier after n ticks if and only if n is at least the distance from there over the allowed change, rounded up |
| EtaCaching.EtaCache.MaybeRecomputeEta | core/src/services/eta.service.ts:204-256 | answers and stores as the throttled check says, a fresh answer being to the dropoff with the rider on board and to the pickup before, and touches no other trip's entry |
| EtaCaching.CheckReports | core/src/services/eta.service.ts:141-256 | an answer is from the cache exactly if the entry is young and near enough for the mode, or the ML call failed with no fallback, which is reported exactly then; a fresh one is from now and here, by the service its source names, with that service's figures or the distance at the configured speed |
| EtaCaching.EntryIsAnEstimate | core/src/services/eta.service.ts:61-75 | with the heuristic alone a cached entry is always the estimate for the position and time it records |
| EtaCaching.ServedFromCacheIsClose | core/src/services/eta.service.ts:218-233 | on an unchanged leg a cached answer is younger than the interval and its distance is off by less than the recompute distance, for any symmetric distance with the triangle inequality |
| EtaCaching.ServedSecondsAreClose | core/src/services/eta-heuristic.ts:57-67 | if the rush-hour multiplier is unchanged, its seconds are off by less than the time the recompute distance takes |
| EtaCaching.LegChangeBound | core/src/services/eta.service.ts:218-237 | for any change of target, a served distance is off by less than the recompute distance plus the distance between the targets |
| EtaCaching.OldLegIsServed | core/src/services/eta.service.ts:226-237 | when the target changes, a driver that has not moved is still served the distance to the old one, and that is within the recompute distance of the right one if and only if the two targets' distances are |

## Left out

- HTTP routes, request validation, logging, metrics, migrations and configuration parsing: plumbing.
- SQL and Redis internals: each call is its effect on rows, locks and sets; a Redis search is any answer with the properties of GEOSEARCH, and the rounding Redis applies to stored positions is not modelled.
- Haversine trigonometry and floating-point rounding: distance and cosine are functions, coordinates are reals.
- MatchingService.MatchingService.MatchTrip: runs without other actors, so no stray response and no competing run; interleaving at every await is in the protocol of `Matching.dfy`. The notifications and the Redis status write after a match are steps without effect on rows and locks.
- MatchingService.MatchingService.AwaitResponse: only the addressed driver answers here; anyone may in the protocol.
- MatchingLocks.OneHolder: assumes one matching run per trip, as the route that starts runs provides; so do the other results that say so.
- GeohashIndexes.SearchIsExhaustive: the axis bound is a hypothesis, because the code's 111,320 metres per degree and its cosine at the centre's latitude make the unconditional claim false.
- GeohashIndexes.GeohashIndex.NearestNeighbors: the nearest-of-all claim is under the same hypothesis, at the last radius searched or at all that may be.
- Sharding.ShardedDriverGeo.SearchNearby: that clamping gives the nearest point of a box is a hypothesis; on a sphere it holds only approximately, and `ExactIffNothingSkipped` says what it is needed for.
- Sharding.ShardedDriverGeo.UpsertDriverLocation: one call runs to its end; `StoppedUpdateKeepsOneShard` and `StoppedUpdateHealsIff` are about calls that do not, concurrent upserts of one driver are not modelled.
- Pipeline.BroadcastsAreInOrder: needs that no message arrives on a replaced socket; `StragglersBreakTheOrder` shows why, `ConnectionsAreInOrder` holds without it.
- EtaCaching.ServedFromCacheIsClose: heuristic mode without OSRM; an ML or routed answer has no relation to the abstract distance.
- Delivery guarantees: a subscriber can miss `trip_matched`, and a socket closed during the lookup can stay registered, so neither liveness nor clean-up is claimed. Channels are first-in first-out and lose nothing while open.
- The lookups of `core/src/repositories/trips.repository.ts` (open pickups, active trips of drivers), row mapping, the subscriber registry's shutdown, the heartbeat sweep, the reconnecting socket, fare rounding, surge colours and the trip simulator: easy members.
- The fetches a client starts after an ended trip, and the content of pickup and dropoff in offers beyond what the reducer checks.
- The ML service, the OSRM and ML clients: at most an answer or its absence.
- React components, hooks with timers, maps and styling.
