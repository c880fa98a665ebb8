// The per-connection throttle (core/src/ws/driver-connections.ts): at most one update is released
// per window, the newest received in it. The timer is an explicit due time; whether it fires before
// or after a message that arrives once it is due is up to the event loop, and decides the rate bound.

module Throttling {
  import opened Wrappers

  /** `flushTimer` is the time at which an armed timer comes due. */
  datatype Throttle<T> = Throttle(lastProcessedAt: Option<int>, pending: Option<T>, flushTimer: Option<int>)

  function Fresh<T>(): Throttle<T> {
    Throttle(None, None, None)
  }

  predicate WindowOpen<T>(th: Throttle<T>, throttleMs: nat, now: int) {
    th.lastProcessedAt.None? || now - th.lastProcessedAt.value >= throttleMs
  }

  /** An update received at `now`: released at once, or kept as the one pending update. */
  function AfterMessage<T>(th: Throttle<T>, throttleMs: nat, now: int, update: T): Throttle<T> {
    if WindowOpen(th, throttleMs, now) then th.(lastProcessedAt := Some(now), pending := None)
    else if th.flushTimer.Some? then th.(pending := Some(update))
    else th.(pending := Some(update), flushTimer := Some(now + (throttleMs - (now - th.lastProcessedAt.value))))
  }

  function ReleasedByMessage<T>(th: Throttle<T>, throttleMs: nat, now: int, update: T): Option<T> {
    if WindowOpen(th, throttleMs, now) then Some(update) else None
  }

  /** The timer fires: the pending update, if there still is one, is released. */
  function AfterTimer<T>(th: Throttle<T>, now: int): Throttle<T> {
    Throttle(if th.pending.Some? then Some(now) else th.lastProcessedAt, None, None)
  }

  function Unarmed<T>(th: Throttle<T>): Throttle<T> {
    th.(flushTimer := None)
  }

  // ---- The state as it is kept ----------------------------------------------------------------

  class ThrottleState<T> {
    var lastProcessedAt: Option<int>
    var pending: Option<T>
    var flushTimer: Option<int>

    function Value(): Throttle<T>
      reads this
    {
      Throttle(lastProcessedAt, pending, flushTimer)
    }

    constructor ()
      ensures Value() == Fresh()
    {
      lastProcessedAt, pending, flushTimer := None, None, None;
    }

    /** Returns the update to enqueue, if this message releases one. */
    method HandleLocationMessage(throttleMs: nat, now: int, update: T) returns (released: Option<T>)
      modifies this
      ensures Value() == AfterMessage(old(Value()), throttleMs, now, update)
      ensures released == ReleasedByMessage(old(Value()), throttleMs, now, update)
    {
      if lastProcessedAt == None || now - lastProcessedAt.value >= throttleMs {
        lastProcessedAt := Some(now);
        pending := None;
        return Some(update);
      }
      var sinceLast := now - lastProcessedAt.value;
      pending := Some(update);
      if flushTimer == None {
        flushTimer := Some(now + (throttleMs - sinceLast));
      }
      released := None;
    }

    method FireTimer(now: int) returns (released: Option<T>)
      modifies this
      ensures Value() == AfterTimer(old(Value()), now) && released == old(pending)
    {
      flushTimer := None;
      released := pending;
      pending := None;
      if released.Some? {
        lastProcessedAt := Some(now);
      }
    }

    method ClearThrottleTimer()
      modifies this`flushTimer
      ensures Value() == Unarmed(old(Value()))
    {
      flushTimer := None;
    }
  }

  // ---- The rate bound -------------------------------------------------------------------------

  /** The armed timer comes due exactly when the window reopens. */
  predicate OnTime<T>(th: Throttle<T>, throttleMs: nat) {
    th.flushTimer.Some? ==> th.lastProcessedAt.Some? && th.flushTimer.value == th.lastProcessedAt.value + throttleMs
  }

  predicate TimerIsDue<T>(th: Throttle<T>, now: int) {
    th.flushTimer.Some? && th.flushTimer.value <= now
  }

  /** Handling a message keeps the timer on time exactly when no due timer was left waiting. */
  lemma MessageKeepsOnTime<T>(th: Throttle<T>, throttleMs: nat, now: int, update: T)
    requires OnTime(th, throttleMs) && throttleMs > 0
    ensures OnTime(AfterMessage(th, throttleMs, now, update), throttleMs) <==> !TimerIsDue(th, now)
  {
  }

  /** What happens to one throttle; its timer is cleared when the connection is replaced or closes. */
  datatype Event<T> = Message(at: int, update: T) | TimerFires(at: int) | TimerCleared

  function Next<T>(th: Throttle<T>, throttleMs: nat, e: Event<T>): Throttle<T> {
    match e
    case Message(now, update) => AfterMessage(th, throttleMs, now, update)
    case TimerFires(now) => AfterTimer(th, now)
    case TimerCleared => Unarmed(th)
  }

  function Released<T>(th: Throttle<T>, throttleMs: nat, e: Event<T>): Option<T> {
    match e
    case Message(now, update) => ReleasedByMessage(th, throttleMs, now, update)
    case TimerFires(_) => th.pending
    case TimerCleared => None
  }

  /** A timer fires only once it is due. */
  predicate CanHappen<T>(th: Throttle<T>, e: Event<T>) {
    e.TimerFires? ==> TimerIsDue(th, e.at)
  }

  /** Due timers fire before later messages. */
  predicate PromptStep<T>(th: Throttle<T>, e: Event<T>) {
    e.Message? ==> !TimerIsDue(th, e.at)
  }

  function State<T>(throttleMs: nat, run: seq<Event<T>>): Throttle<T> {
    if run == [] then Fresh()
    else Next(State(throttleMs, run[..|run| - 1]), throttleMs, run[|run| - 1])
  }

  /** A run of one connection. */
  ghost predicate Happens<T>(throttleMs: nat, run: seq<Event<T>>) {
    run == [] ||
    (var before := run[..|run| - 1];
     Happens(throttleMs, before) && CanHappen(State(throttleMs, before), run[|run| - 1]))
  }

  ghost predicate Prompt<T>(throttleMs: nat, run: seq<Event<T>>) {
    run == [] ||
    (var before := run[..|run| - 1];
     Prompt(throttleMs, before) && PromptStep(State(throttleMs, before), run[|run| - 1]))
  }

  /** The times at which the run released an update. */
  function ReleaseTimes<T>(throttleMs: nat, run: seq<Event<T>>): seq<int> {
    if run == [] then []
    else
      var before, e := run[..|run| - 1], run[|run| - 1];
      ReleaseTimes(throttleMs, before) +
      if Released(State(throttleMs, before), throttleMs, e).Some? then [e.at] else []
  }

  ghost predicate Spaced(times: seq<int>, throttleMs: nat) {
    forall i :: 0 <= i < |times| - 1 ==> times[i + 1] - times[i] >= throttleMs
  }

  lemma {:induction false} LastReleaseIsRecorded<T>(throttleMs: nat, run: seq<Event<T>>)
    ensures var times := ReleaseTimes(throttleMs, run);
            State(throttleMs, run).lastProcessedAt == if times == [] then None else Some(times[|times| - 1])
  {
    if run != [] {
      LastReleaseIsRecorded(throttleMs, run[..|run| - 1]);
    }
  }

  lemma {:induction false} PromptIsOnTime<T>(throttleMs: nat, run: seq<Event<T>>)
    requires Happens(throttleMs, run) && Prompt(throttleMs, run)
    ensures OnTime(State(throttleMs, run), throttleMs)
  {
    if run != [] {
      PromptIsOnTime(throttleMs, run[..|run| - 1]);
    }
  }

  /** On one connection, if due timers fire before later messages, releases are at least one window apart. */
  lemma {:induction false} ReleasesAreSpaced<T>(throttleMs: nat, run: seq<Event<T>>)
    requires Happens(throttleMs, run) && Prompt(throttleMs, run)
    ensures Spaced(ReleaseTimes(throttleMs, run), throttleMs)
  {
    if run != [] {
      var before := run[..|run| - 1];
      ReleasesAreSpaced(throttleMs, before);
      PromptIsOnTime(throttleMs, before);
      LastReleaseIsRecorded(throttleMs, before);
    }
  }

  /** Without that the bound fails: from any on-time state whose due timer is overtaken by a message,
      one more message in the same instant and the stale timer make two releases with no time between. */
  lemma OvertakenTimerReleasesEarly<T>(throttleMs: nat, run: seq<Event<T>>, now: int, u: T, v: T)
    requires Happens(throttleMs, run) && OnTime(State(throttleMs, run), throttleMs) && throttleMs > 0
    requires TimerIsDue(State(throttleMs, run), now)
    ensures var longer := run + [Message(now, u)] + [Message(now, v)] + [TimerFires(now)];
            && Happens(throttleMs, longer)
            && ReleaseTimes(throttleMs, longer) == ReleaseTimes(throttleMs, run) + [now, now]
            && !Spaced(ReleaseTimes(throttleMs, longer), throttleMs)
  {
    var a := run + [Message(now, u)];
    var b := a + [Message(now, v)];
    var c := b + [TimerFires(now)];
    assert a[..|a| - 1] == run && b[..|b| - 1] == a && c[..|c| - 1] == b;
    var th := State(throttleMs, run);
    assert State(throttleMs, a) == Throttle(Some(now), None, th.flushTimer) && Happens(throttleMs, a);
    assert ReleaseTimes(throttleMs, a) == ReleaseTimes(throttleMs, run) + [now];
    assert State(throttleMs, b) == Throttle(Some(now), Some(v), th.flushTimer) && Happens(throttleMs, b);
    assert ReleaseTimes(throttleMs, b) == ReleaseTimes(throttleMs, a) + [];
    assert ReleaseTimes(throttleMs, c) == ReleaseTimes(throttleMs, b) + [now];
    var times := ReleaseTimes(throttleMs, c);
    assert times == ReleaseTimes(throttleMs, run) + [now, now];
    assert times[|times| - 1] - times[|times| - 2] == 0;
  }
}
