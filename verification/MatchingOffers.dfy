// Who was offered a trip, whose offer a response answers, and what a driver was told.

module MatchingOffers {
  import opened Wrappers
  import opened Numbers
  import opened Ranking
  import opened DriverLocks
  import opened TripRows
  import opened TripOffers
  import opened Matching
  import opened MatchingSafety
  import opened MatchingLocks

  // ---- Offers and answers ---------------------------------------------------------------------

  /** Somebody answered the offer with an accept. */
  ghost predicate Accepted(log: seq<Event>, offer: OfferId) {
    exists sender: DriverId :: GotResponse(offer, sender, true) in log
  }

  ghost predicate AcceptedBooking(log: seq<Event>, t: TripId, d: DriverId) {
    exists o: OfferId :: SentOffer(t, d, o) in log && Accepted(log, o)
  }

  ghost predicate RunAsked(w: World, run: Run) {
    && (run.pc.Waiting? || run.pc.Finalizing? ==>
          |run.tried| > 0 && SentOffer(run.trip, Current(run), run.offer) in w.log)
    && (run.pc.Finalizing? ==> Accepted(w.log, run.offer))
    && (run.pc.Committed? ==> |run.tried| > 0 && Finalized(run.trip, Current(run)) in w.log)
  }

  ghost predicate OffersInv(w: World) {
    && (forall o :: o in w.offers.outcome && w.offers.outcome[o] ==> Accepted(w.log, o))
    && (forall r :: r in w.runs ==> RunAsked(w, w.runs[r]))
    && (forall t: TripId, d: DriverId :: Finalized(t, d) in w.log ==> AcceptedBooking(w.log, t, d))
    && (forall t: TripId, d: DriverId :: SentMatched(t, d) in w.log ==> Finalized(t, d) in w.log)
  }

  lemma LogGrows(log: seq<Event>, more: seq<Event>)
    ensures forall e :: e in log ==> e in log + more
    ensures forall o :: Accepted(log, o) ==> Accepted(log + more, o)
    ensures forall t, d :: AcceptedBooking(log, t, d) ==> AcceptedBooking(log + more, t, d)
  {
    forall o | Accepted(log, o) ensures Accepted(log + more, o) {
      var sender :| GotResponse(o, sender, true) in log;
      assert GotResponse(o, sender, true) in log + more;
    }
    forall t, d | AcceptedBooking(log, t, d) ensures AcceptedBooking(log + more, t, d) {
      var o :| SentOffer(t, d, o) in log && Accepted(log, o);
      assert SentOffer(t, d, o) in log + more;
    }
  }

  lemma OutcomesStep(w: World, a: Action)
    requires OffersInv(w) && Enabled(w, a)
    ensures var w' := Step(w, a);
            forall o :: o in w'.offers.outcome && w'.offers.outcome[o] ==> Accepted(w'.log, o)
  {
    var w' := Step(w, a);
    StepEffect(w, a);
    LogGrows(w.log, Events(ActionEffect(w, a)));
    if a.Respond? {
      assert GotResponse(w.offers.pending[a.trip], a.sender, a.accept) in w'.log;
    }
  }

  lemma AskedStep(w: World, run: Run, act: RunAction)
    requires CanAct(w, run, act) && RunAsked(w, run)
    requires forall o :: o in w.offers.outcome && w.offers.outcome[o] ==> Accepted(w.log, o)
    ensures RunAsked(Apply(w, EffectOf(w, run, act)), NextRun(w, run, act))
  {
    LogGrows(w.log, Events(EffectOf(w, run, act)));
  }

  lemma AskedSurvives(w: World, w': World, run: Run)
    requires RunAsked(w, run) && forall e :: e in w.log ==> e in w'.log
    requires forall o :: Accepted(w.log, o) ==> Accepted(w'.log, o)
    ensures RunAsked(w', run)
  {
  }

  lemma RunsAskedStep(w: World, a: Action)
    requires OffersInv(w) && Enabled(w, a)
    ensures forall r :: r in Step(w, a).runs ==> RunAsked(Step(w, a), Step(w, a).runs[r])
  {
    var w' := Step(w, a);
    StepEffect(w, a);
    LogGrows(w.log, Events(ActionEffect(w, a)));
    forall r | r in w'.runs ensures RunAsked(w', w'.runs[r]) {
      if a.RunAct? && a.run == r {
        AskedStep(w, w.runs[r], a.act);
        AskedSurvives(Apply(w, EffectOf(w, w.runs[r], a.act)), w', w'.runs[r]);
      } else if !(a.StartMatch? && a.run == r) {
        AskedSurvives(w, w', w.runs[r]);
      }
    }
  }

  /** A finalization is only ever added by a run whose offer was accepted, a confirmation only by a
      run that finalized. */
  lemma NewEvents(w: World, a: Action, e: Event)
    requires OffersInv(w) && Enabled(w, a) && e in Events(ActionEffect(w, a))
    ensures e.Finalized? ==> AcceptedBooking(w.log, e.trip, e.driver)
    ensures e.SentMatched? ==> Finalized(e.trip, e.driver) in w.log
  {
    if a.RunAct? {
      var run := w.runs[a.run];
      assert RunAsked(w, run);
      if e.Finalized? {
        assert Books(w, run, a.act);
        assert SentOffer(run.trip, Current(run), run.offer) in w.log;
      }
    }
  }

  lemma OffersStep(w: World, a: Action)
    requires OffersInv(w) && Enabled(w, a)
    ensures OffersInv(Step(w, a))
  {
    var w' := Step(w, a);
    var new' := Events(ActionEffect(w, a));
    StepEffect(w, a);
    OutcomesStep(w, a);
    RunsAskedStep(w, a);
    LogGrows(w.log, new');
    forall t: TripId, d: DriverId | Finalized(t, d) in w'.log ensures AcceptedBooking(w'.log, t, d) {
      if Finalized(t, d) !in w.log {
        NewEvents(w, a, Finalized(t, d));
      }
    }
    forall t: TripId, d: DriverId | SentMatched(t, d) in w'.log ensures Finalized(t, d) in w'.log {
      if SentMatched(t, d) !in w.log {
        NewEvents(w, a, SentMatched(t, d));
      }
    }
  }

  lemma {:induction false} OffersAlways(w: World, actions: seq<Action>)
    requires OffersInv(w) && Legal(w, actions)
    ensures OffersInv(After(w, actions))
    decreases |actions|
  {
    if |actions| > 0 {
      OffersStep(w, actions[0]);
      OffersAlways(Step(w, actions[0]), actions[1..]);
    }
  }

  // ---- Whose offer a response answers ---------------------------------------------------------

  /** The driver was offered the trip and that offer is not settled yet. */
  ghost predicate OpenOffer(w: World, t: TripId, d: DriverId) {
    exists o: OfferId :: SentOffer(t, d, o) in w.log && o !in w.offers.outcome
  }

  /** A response arrives while its sender's own offer is still open. */
  ghost predicate WhileOpen(w: World, a: Action) {
    a.Respond? ==> OpenOffer(w, a.trip, a.sender)
  }

  ghost predicate AllWhileOpen(w: World, actions: seq<Action>)
    requires Legal(w, actions)
    decreases |actions|
  {
    |actions| > 0 ==> WhileOpen(w, actions[0]) && AllWhileOpen(Step(w, actions[0]), actions[1..])
  }

  /** The driver itself was offered the trip and accepted that offer. */
  ghost predicate OwnAccept(log: seq<Event>, t: TripId, d: DriverId) {
    exists o: OfferId :: SentOffer(t, d, o) in log && GotResponse(o, d, true) in log
  }

  /** Offers are numbered as they are sent. */
  ghost predicate Numbered(w: World) {
    && (forall t: TripId, d: DriverId, o: OfferId :: SentOffer(t, d, o) in w.log ==> o < w.nextOffer)
    && (forall o :: o in w.offers.outcome || o in w.offers.timers ==> o < w.nextOffer)
    && (forall t :: t in w.offers.pending ==> w.offers.pending[t] < w.nextOffer)
    && (forall t1: TripId, d1: DriverId, t2: TripId, d2: DriverId, o: OfferId ::
          SentOffer(t1, d1, o) in w.log && SentOffer(t2, d2, o) in w.log ==> t1 == t2 && d1 == d2)
  }

  /** Some driver was sent this offer of the trip. */
  ghost predicate Sent(log: seq<Event>, t: TripId, o: OfferId) {
    exists d: DriverId :: SentOffer(t, d, o) in log
  }

  /** What waits in the registry is a sent offer without an answer. */
  ghost predicate Unanswered(w: World) {
    && (forall t :: t in w.offers.pending ==>
          w.offers.pending[t] !in w.offers.outcome && Sent(w.log, t, w.offers.pending[t]))
    && (forall o :: o in w.offers.timers ==> o !in w.offers.outcome && Sent(w.log, w.offers.timers[o], o))
    && (forall o: OfferId, d: DriverId, accept: bool :: GotResponse(o, d, accept) in w.log ==> o in w.offers.outcome)
  }

  /** A run waits for the offer. */
  ghost predicate WaitedFor(w: World, t: TripId, o: OfferId) {
    exists r :: r in w.runs && w.runs[r].trip == t && w.runs[r].pc.Waiting? && w.runs[r].offer == o
  }

  /** An open offer is the one pending for its trip, and a run waits for it. */
  ghost predicate OpenIsPending(w: World) {
    forall t: TripId, d: DriverId, o: OfferId :: SentOffer(t, d, o) in w.log && o !in w.offers.outcome ==>
      t in w.offers.pending && w.offers.pending[t] == o && WaitedFor(w, t, o)
  }

  /** The drivers a run has offered its trip to are among these. */
  function Asked(run: Run): seq<DriverId> {
    if run.pc.Locked? && |run.tried| > 0 then run.tried[..|run.tried| - 1] else run.tried
  }

  ghost predicate AskedBySome(w: World, t: TripId, d: DriverId) {
    exists r :: r in w.runs && w.runs[r].trip == t && d in Asked(w.runs[r])
  }

  /** A driver is offered a trip once, by the run that tried it. */
  ghost predicate OncePerDriver(w: World) {
    && (forall t: TripId, d: DriverId, o: OfferId :: SentOffer(t, d, o) in w.log ==> AskedBySome(w, t, d))
    && SentOnce(w.log)
  }

  ghost predicate SentOnce(log: seq<Event>) {
    forall t: TripId, d: DriverId, o1: OfferId, o2: OfferId ::
      SentOffer(t, d, o1) in log && SentOffer(t, d, o2) in log ==> o1 == o2
  }

  ghost predicate AnswersOk(w: World) {
    Numbered(w) && Unanswered(w) && OpenIsPending(w) && OncePerDriver(w)
  }

  ghost predicate AnswersInv(w: World) {
    && RunsInv(w) && OffersInv(w) && Numbered(w)
    && (SingleRuns(w) ==> AnswersOk(w))
  }

  /** Nothing was sent, answered or timed out; runs that wait go on waiting. */
  ghost predicate NoOfferNews(w: World, w': World) {
    && w'.offers == w.offers && w'.nextOffer == w.nextOffer && SameOfferEvents(w.log, w'.log)
    && (forall r :: r in w.runs ==>
          && r in w'.runs && w'.runs[r].trip == w.runs[r].trip
          && (w.runs[r].pc.Waiting? && w.runs[r].offer !in w.offers.outcome ==> w'.runs[r] == w.runs[r])
          && (forall d :: d in Asked(w.runs[r]) ==> d in Asked(w'.runs[r])))
  }

  ghost predicate SameOfferEvents(log: seq<Event>, log': seq<Event>) {
    forall e: Event :: e.SentOffer? || e.GotResponse? ==> (e in log' <==> e in log)
  }

  lemma SentStays(log: seq<Event>, log': seq<Event>)
    requires forall e: Event :: e.SentOffer? && e in log ==> e in log'
    ensures forall t, o :: Sent(log, t, o) ==> Sent(log', t, o)
  {
    forall t, o | Sent(log, t, o) ensures Sent(log', t, o) {
      var d: DriverId :| SentOffer(t, d, o) in log;
      assert SentOffer(t, d, o) in log';
    }
  }

  lemma AskedStays(w: World, w': World)
    requires forall r :: r in w.runs ==> r in w'.runs && w'.runs[r].trip == w.runs[r].trip
    requires forall r, d :: r in w.runs && d in Asked(w.runs[r]) ==> d in Asked(w'.runs[r])
    ensures forall t, d :: AskedBySome(w, t, d) ==> AskedBySome(w', t, d)
  {
    forall t, d | AskedBySome(w, t, d) ensures AskedBySome(w', t, d) {
      var r :| r in w.runs && w.runs[r].trip == t && d in Asked(w.runs[r]);
      assert r in w'.runs && d in Asked(w'.runs[r]);
    }
  }

  lemma NoNewsKeeps(w: World, w': World)
    requires AnswersOk(w) && NoOfferNews(w, w')
    ensures AnswersOk(w')
  {
    SentStays(w.log, w'.log);
    AskedStays(w, w');
    forall t, o | WaitedFor(w, t, o) && o !in w.offers.outcome ensures WaitedFor(w', t, o) {
      var r :| r in w.runs && w.runs[r].trip == t && w.runs[r].pc.Waiting? && w.runs[r].offer == o;
      assert r in w'.runs && w'.runs[r] == w.runs[r];
    }
  }

  /** The registry after an offer of the trip was settled, by its response or by its timeout. */
  ghost predicate Settles(w: World, w': World, t: TripId, offer: OfferId, accepted: bool) {
    && w'.runs == w.runs && w'.nextOffer == w.nextOffer
    && t in w.offers.pending && w.offers.pending[t] == offer
    && w'.offers == Offers(w.offers.pending - {t}, w.offers.timers - {offer}, w.offers.outcome[offer := accepted])
    && (forall e: Event :: e.SentOffer? ==> (e in w'.log <==> e in w.log))
    && (forall e: Event :: e.GotResponse? && e in w'.log ==> e in w.log || e.offer == offer)
  }

  lemma SettleUnanswered(w: World, w': World, t: TripId, offer: OfferId, accepted: bool)
    requires AnswersOk(w) && Settles(w, w', t, offer, accepted)
    ensures Unanswered(w')
  {
    SentStays(w.log, w'.log);
    var sent: DriverId :| SentOffer(t, sent, offer) in w.log;
    forall t1 | t1 in w'.offers.pending ensures w'.offers.pending[t1] !in w'.offers.outcome {
      assert Sent(w.log, t1, w.offers.pending[t1]);
    }
  }

  /** No other offer was open for the trip. */
  lemma SettleKeeps(w: World, w': World, t: TripId, offer: OfferId, accepted: bool)
    requires AnswersOk(w) && Settles(w, w', t, offer, accepted)
    ensures AnswersOk(w')
  {
    SettleUnanswered(w, w', t, offer, accepted);
    AskedStays(w, w');
    assert Sent(w.log, t, offer);
    forall t1, o | WaitedFor(w, t1, o) ensures WaitedFor(w', t1, o) {
      var r :| r in w.runs && w.runs[r].trip == t1 && w.runs[r].pc.Waiting? && w.runs[r].offer == o;
      assert r in w'.runs && w'.runs[r] == w.runs[r];
    }
    forall t1: TripId, d: DriverId, o: OfferId | SentOffer(t1, d, o) in w'.log && o !in w'.offers.outcome
      ensures t1 in w'.offers.pending && w'.offers.pending[t1] == o && WaitedFor(w', t1, o)
    {
      assert SentOffer(t1, d, o) in w.log && t1 != t;
    }
  }

  /** A run about to send an offer has none open for its trip, and its driver was not asked before. */
  lemma FreeToSend(w: World, r: RunId)
    requires AnswersOk(w) && RunsInv(w) && SingleRuns(w)
    requires r in w.runs && w.runs[r].pc.Locked?
    ensures |w.runs[r].tried| > 0 && w.runs[r].tried == Asked(w.runs[r]) + [Current(w.runs[r])]
    ensures forall d: DriverId, o: OfferId :: SentOffer(w.runs[r].trip, d, o) in w.log ==>
              o in w.offers.outcome && d != Current(w.runs[r])
  {
    var run := w.runs[r];
    TriedOnce(run);
    forall d: DriverId, o: OfferId | SentOffer(run.trip, d, o) in w.log
      ensures o in w.offers.outcome && d != Current(run)
    {
      assert AskedBySome(w, run.trip, d);
      var r1 :| r1 in w.runs && w.runs[r1].trip == run.trip && d in Asked(w.runs[r1]);
      assert r1 == r;
    }
  }

  /** The state after an offer of the run was sent. */
  ghost predicate Sends(w: World, w': World, r: RunId) {
    && r in w.runs && w.runs[r].pc.Locked? && |w.runs[r].tried| > 0
    && var run := w.runs[r];
    && w'.log == w.log + [SentOffer(run.trip, Current(run), w.nextOffer)]
    && w'.offers == TripOffers.Waiting(w.offers, run.trip, w.nextOffer) && w'.nextOffer == w.nextOffer + 1
    && w'.runs == w.runs[r := run.(pc := Pc.Waiting, offer := w.nextOffer, offeredAt := Some(w.now))]
  }

  lemma SendIsPending(w: World, w': World, r: RunId)
    requires AnswersOk(w) && RunsInv(w) && SingleRuns(w) && Sends(w, w', r)
    ensures OpenIsPending(w')
  {
    FreeToSend(w, r);
    var t0, o0 := w.runs[r].trip, w.nextOffer;
    assert WaitedFor(w', t0, o0) by {
      assert w'.runs[r].pc.Waiting?;
    }
    forall t: TripId, d: DriverId, o: OfferId | SentOffer(t, d, o) in w'.log && o !in w'.offers.outcome
      ensures t in w'.offers.pending && w'.offers.pending[t] == o && WaitedFor(w', t, o)
    {
      if SentOffer(t, d, o) in w.log {
        var r1 :| r1 in w.runs && w.runs[r1].trip == t && w.runs[r1].pc.Waiting? && w.runs[r1].offer == o;
        assert t != t0 && r1 in w'.runs && w'.runs[r1] == w.runs[r1];
      }
    }
  }

  lemma SentOnceMore(log: seq<Event>, t0: TripId, d0: DriverId, o0: OfferId)
    requires SentOnce(log) && forall o: OfferId :: SentOffer(t0, d0, o) !in log
    ensures SentOnce(log + [SentOffer(t0, d0, o0)])
  {
  }

  lemma SendOncePerDriver(w: World, w': World, r: RunId)
    requires OncePerDriver(w) && Sends(w, w', r) && w.runs[r].tried == Asked(w.runs[r]) + [Current(w.runs[r])]
    requires forall o: OfferId :: SentOffer(w.runs[r].trip, Current(w.runs[r]), o) !in w.log
    ensures OncePerDriver(w')
  {
    var t0, d0 := w.runs[r].trip, Current(w.runs[r]);
    SentOnceMore(w.log, t0, d0, w.nextOffer);
    assert AskedBySome(w', t0, d0) by {
      assert r in w'.runs && d0 in Asked(w'.runs[r]);
    }
    forall t: TripId, d: DriverId, o: OfferId | SentOffer(t, d, o) in w'.log ensures AskedBySome(w', t, d) {
      if SentOffer(t, d, o) in w.log {
        assert AskedBySome(w, t, d);
        var r1 :| r1 in w.runs && w.runs[r1].trip == t && d in Asked(w.runs[r1]);
        assert r1 in w'.runs && w'.runs[r1].trip == t && d in Asked(w'.runs[r1]);
      }
    }
  }

  lemma SendNumbered(w: World, w': World, r: RunId)
    requires Numbered(w) && Sends(w, w', r)
    ensures Numbered(w')
  {
  }

  lemma SendUnanswered(w: World, w': World, r: RunId)
    requires Numbered(w) && Unanswered(w) && Sends(w, w', r)
    ensures Unanswered(w')
  {
    SentStays(w.log, w'.log);
    assert SentOffer(w.runs[r].trip, Current(w.runs[r]), w.nextOffer) in w'.log;
    assert Sent(w'.log, w.runs[r].trip, w.nextOffer);
    forall o: OfferId, d: DriverId, accept: bool | GotResponse(o, d, accept) in w'.log ensures o in w'.offers.outcome {
      assert GotResponse(o, d, accept) in w.log;
    }
  }

  lemma SendKeeps(w: World, w': World, r: RunId)
    requires AnswersOk(w) && RunsInv(w) && SingleRuns(w) && Sends(w, w', r)
    ensures AnswersOk(w')
  {
    FreeToSend(w, r);
    SendNumbered(w, w', r);
    SendUnanswered(w, w', r);
    SendIsPending(w, w', r);
    SendOncePerDriver(w, w', r);
  }

  // ---- Every step -----------------------------------------------------------------------------

  lemma NumberedStep(w: World, a: Action)
    requires Numbered(w) && Enabled(w, a)
    ensures Numbered(Step(w, a))
  {
    StepEffect(w, a);
  }

  /** An action that neither sends, answers nor times out an offer. */
  ghost predicate IsQuiet(a: Action) {
    !a.Respond? && (a.RunAct? ==> !a.act.FireTimeout? && a.act != SendOffer(true))
  }

  lemma QuietRun(w: World, run: Run, act: RunAction)
    requires CanAct(w, run, act) && PcFits(run) && !act.FireTimeout? && act != SendOffer(true)
    ensures NextOffers(w, run, act) == w.offers
    ensures run.pc.Waiting? && run.offer !in w.offers.outcome ==> NextRun(w, run, act) == run
    ensures forall d :: d in Asked(run) ==> d in Asked(NextRun(w, run, act))
  {
  }

  /** Offer numbers may be skipped, when the driver is not connected. */
  lemma SkipNumbers(w: World, n: OfferId)
    requires AnswersOk(w) && w.nextOffer <= n
    ensures AnswersOk(w.(nextOffer := n))
  {
    var w' := w.(nextOffer := n);
    AskedStays(w, w');
    forall t, o | WaitedFor(w, t, o) ensures WaitedFor(w', t, o) {
      var r :| r in w.runs && w.runs[r].trip == t && w.runs[r].pc.Waiting? && w.runs[r].offer == o;
      assert r in w'.runs;
    }
  }

  lemma QuietEvents(w: World, a: Action)
    requires Enabled(w, a) && IsQuiet(a)
    ensures SameOfferEvents(w.log, Step(w, a).log)
  {
    StepEffect(w, a);
    var more := Events(ActionEffect(w, a));
    assert forall e :: e in more ==> !e.SentOffer? && !e.GotResponse?;
    assert forall e :: e in w.log + more <==> e in w.log || e in more;
  }

  lemma QuietNews(w: World, a: Action)
    requires RunsInv(w) && Enabled(w, a) && IsQuiet(a)
    ensures NoOfferNews(w.(nextOffer := Step(w, a).nextOffer), Step(w, a)) && w.nextOffer <= Step(w, a).nextOffer
  {
    QuietEvents(w, a);
    if a.RunAct? {
      QuietRun(w, w.runs[a.run], a.act);
    }
  }

  lemma QuietStep(w: World, a: Action)
    requires RunsInv(w) && AnswersOk(w) && Enabled(w, a) && IsQuiet(a)
    ensures AnswersOk(Step(w, a))
  {
    var n := Step(w, a).nextOffer;
    QuietNews(w, a);
    SkipNumbers(w, n);
    NoNewsKeeps(w.(nextOffer := n), Step(w, a));
  }

  /** A response settles the offer pending for the trip. */
  lemma ResponseStep(w: World, a: Action)
    requires AnswersOk(w) && Enabled(w, a) && a.Respond?
    ensures AnswersOk(Step(w, a))
  {
    StepEffect(w, a);
    SettleKeeps(w, Step(w, a), a.trip, w.offers.pending[a.trip], a.accept);
  }

  /** A timeout settles its own offer. */
  lemma TimeoutStep(w: World, a: Action)
    requires AnswersOk(w) && Enabled(w, a) && a.RunAct? && a.act.FireTimeout?
    ensures AnswersOk(Step(w, a))
  {
    var w' := Step(w, a);
    var run := w.runs[a.run];
    StepEffect(w, a);
    assert Sent(w.log, w.offers.timers[run.offer], run.offer);
    assert w'.runs == w.runs;
    assert w'.log == w.log;
    SettleKeeps(w, w', w.offers.timers[run.offer], run.offer, false);
  }

  lemma AnswersOkStep(w: World, a: Action)
    requires AnswersInv(w) && Enabled(w, a) && SingleRuns(w)
    ensures AnswersOk(Step(w, a))
  {
    if IsQuiet(a) {
      QuietStep(w, a);
    } else if a.Respond? {
      ResponseStep(w, a);
    } else if a.act.FireTimeout? {
      TimeoutStep(w, a);
    } else {
      StepEffect(w, a);
      SendKeeps(w, Step(w, a), a.run);
    }
  }

  lemma AnswersStep(w: World, a: Action)
    requires AnswersInv(w) && Enabled(w, a)
    ensures AnswersInv(Step(w, a))
  {
    RunsStep(w, a);
    OffersStep(w, a);
    NumberedStep(w, a);
    if SingleRuns(Step(w, a)) {
      SingleRunsBefore(w, a);
      AnswersOkStep(w, a);
    }
  }

  lemma AnswersInitially()
    ensures AnswersInv(INITIAL)
  {
  }

  lemma {:induction false} AnswersAlways(w: World, actions: seq<Action>)
    requires AnswersInv(w) && Legal(w, actions)
    ensures AnswersInv(After(w, actions))
    decreases |actions|
  {
    if |actions| > 0 {
      AnswersStep(w, actions[0]);
      AnswersAlways(Step(w, actions[0]), actions[1..]);
    }
  }

  /** With one run per trip, a response answers the offer its own sender was sent if and only if that
      offer is still open. */
  lemma AnswersOwnOfferIffOpen(actions: seq<Action>, t: TripId, sender: DriverId)
    requires Legal(INITIAL, actions)
    requires var w := After(INITIAL, actions); SingleRuns(w) && t in w.offers.pending
    ensures var w := After(INITIAL, actions);
            SentOffer(t, sender, w.offers.pending[t]) in w.log <==> OpenOffer(w, t, sender)
  {
    AnswersAlways(INITIAL, actions);
  }

  // ---- Accepted by the driver itself ----------------------------------------------------------

  /** Every answer came from the driver its offer went to. */
  ghost predicate OwnAnswers(log: seq<Event>) {
    forall t: TripId, d: DriverId, o: OfferId, sender: DriverId, accept: bool ::
      SentOffer(t, d, o) in log && GotResponse(o, sender, accept) in log ==> sender == d
  }

  /** A new response, while its sender's own offer is open, answers that offer. */
  lemma NewAnswerIsOwn(w: World, a: Action, t: TripId, d: DriverId, o: OfferId)
    requires AnswersInv(w) && SingleRuns(w) && Enabled(w, a) && a.Respond? && WhileOpen(w, a)
    requires o == w.offers.pending[a.trip] && SentOffer(t, d, o) in w.log
    ensures a.sender == d
  {
    assert SentOffer(a.trip, a.sender, o) in w.log;
  }

  /** The only action that logs a response is a response. */
  lemma ResponsesAreLogged(w: World, a: Action, o: OfferId, sender: DriverId, accept: bool)
    requires Enabled(w, a) && GotResponse(o, sender, accept) in Events(ActionEffect(w, a))
    ensures a.Respond? && o == w.offers.pending[a.trip] && sender == a.sender
    ensures Events(ActionEffect(w, a)) == [GotResponse(o, sender, accept)]
  {
  }

  /** An offer that has been answered is not sent again. */
  lemma AnsweredWasSent(w: World, a: Action, t: TripId, d: DriverId, o: OfferId, sender: DriverId, accept: bool)
    requires Numbered(w) && Unanswered(w) && Enabled(w, a) && GotResponse(o, sender, accept) in w.log
    ensures SentOffer(t, d, o) !in Events(ActionEffect(w, a))
  {
    assert o in w.offers.outcome && o < w.nextOffer;
  }

  lemma OwnAnswer(w: World, a: Action, t: TripId, d: DriverId, o: OfferId, sender: DriverId, accept: bool)
    requires AnswersInv(w) && OwnAnswers(w.log) && Enabled(w, a) && WhileOpen(w, a) && SingleRuns(w)
    requires var more := Events(ActionEffect(w, a));
             && (SentOffer(t, d, o) in w.log || SentOffer(t, d, o) in more)
             && (GotResponse(o, sender, accept) in w.log || GotResponse(o, sender, accept) in more)
    ensures sender == d
  {
    if GotResponse(o, sender, accept) in Events(ActionEffect(w, a)) {
      ResponsesAreLogged(w, a, o, sender, accept);
      NewAnswerIsOwn(w, a, t, d, o);
    } else {
      AnsweredWasSent(w, a, t, d, o, sender, accept);
    }
  }

  lemma OwnAnswersStep(w: World, a: Action)
    requires AnswersInv(w) && OwnAnswers(w.log) && Enabled(w, a) && WhileOpen(w, a) && SingleRuns(w)
    ensures OwnAnswers(Step(w, a).log)
  {
    StepEffect(w, a);
    var log' := w.log + Events(ActionEffect(w, a));
    forall t: TripId, d: DriverId, o: OfferId, sender: DriverId, accept: bool |
      SentOffer(t, d, o) in log' && GotResponse(o, sender, accept) in log'
      ensures sender == d
    {
      OwnAnswer(w, a, t, d, o, sender, accept);
    }
  }

  lemma {:induction false} OwnAnswersAlways(w: World, actions: seq<Action>)
    requires AnswersInv(w) && OwnAnswers(w.log) && Legal(w, actions) && AllWhileOpen(w, actions)
    requires SingleRuns(After(w, actions))
    ensures SingleRuns(w) && OwnAnswers(After(w, actions).log)
    decreases |actions|
  {
    if |actions| > 0 {
      AnswersStep(w, actions[0]);
      SingleRunsEarlier(Step(w, actions[0]), actions[1..]);
      SingleRunsBefore(w, actions[0]);
      OwnAnswersStep(w, actions[0]);
      OwnAnswersAlways(Step(w, actions[0]), actions[1..]);
    }
  }

  lemma {:induction false} SingleRunsEarlier(w: World, actions: seq<Action>)
    requires Legal(w, actions) && SingleRuns(After(w, actions))
    ensures SingleRuns(w)
    decreases |actions|
  {
    if |actions| > 0 {
      SingleRunsEarlier(Step(w, actions[0]), actions[1..]);
      SingleRunsBefore(w, actions[0]);
    }
  }

  /** A match follows an accepted offer of that trip to that driver; and if responses arrive while
      their sender's own offer is open, the driver itself accepted it. */
  lemma MatchWasAccepted(actions: seq<Action>, t: TripId, d: DriverId)
    requires Legal(INITIAL, actions) && Finalized(t, d) in After(INITIAL, actions).log
    ensures AcceptedBooking(After(INITIAL, actions).log, t, d)
    ensures SingleRuns(After(INITIAL, actions)) && AllWhileOpen(INITIAL, actions) ==> OwnAccept(After(INITIAL, actions).log, t, d)
  {
    var log := After(INITIAL, actions).log;
    OffersAlways(INITIAL, actions);
    if SingleRuns(After(INITIAL, actions)) && AllWhileOpen(INITIAL, actions) {
      OwnAnswersAlways(INITIAL, actions);
      var o :| SentOffer(t, d, o) in log && Accepted(log, o);
      var sender: DriverId :| GotResponse(o, sender, true) in log;
      assert sender == d;
    }
  }

  /** A driver told that a trip is matched is the driver of that trip's row, then and ever after. */
  lemma ConfirmationIsTrue(before: seq<Action>, after: seq<Action>, t: TripId, d: DriverId)
    requires Legal(INITIAL, before) && Legal(After(INITIAL, before), after)
    requires SentMatched(t, d) in After(INITIAL, before).log
    ensures var trips := After(After(INITIAL, before), after).db.trips;
            t in trips && trips[t].status == Matched && trips[t].driverId == Some(d)
  {
    OffersAlways(INITIAL, before);
    TripLifecycle(before, after);
    assert Finalized(t, d) in After(INITIAL, before).log;
  }
}
