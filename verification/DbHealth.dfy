/**
  The cached database probe as a protocol. Every function runs without interruption up to its
  await, so a run is a sequence of calls and probe completions.
 */
module ProbeProtocol {
  import opened Wrappers

  datatype DbState = Unknown | Up | Down

  const TTL_MS := 30_000

  /** A probe that has finished: its verdict and when it was recorded. */
  datatype Completion = Completion(id: nat, ok: bool, at: int)

  /**
    The module's variables, the probes whose query is pending, and the history. A promise is
    the number of the probe it belongs to.
   */
  datatype World = World(
    state: DbState, lastCheckedAt: int, inFlight: Option<nat>,
    pending: set<nat>, log: seq<Completion>, started: nat)

  /** `throws` says that issuing the query raises at once instead of suspending the probe. */
  datatype Event =
    | Ask(now: int, throws: bool)
    | AskCached(now: int, envUrl: bool, throws: bool)
    | Warm(now: int, throws: bool)
    | Settle(id: nat, ok: bool, now: int)

  datatype Answer = Verdict(up: bool) | Awaiting(id: nat) | Nothing

  const INITIAL := World(Unknown, 0, None, {}, [], 0)

  /** What a probe does once its query is decided: record the verdict and clear the single flight. */
  function Finish(w: World, id: nat, ok: bool, now: int): World {
    w.(state := if ok then Up else Down, lastCheckedAt := now, inFlight := None,
       pending := w.pending - {id}, log := w.log + [Completion(id, ok, now)])
  }

  /** `inFlight = probe()`: the assignment comes after everything the probe does before suspending. */
  function Start(w: World, now: int, throws: bool): World {
    var id := w.started;
    var begun := w.(started := id + 1);
    if throws then Finish(begun, id, false, now).(inFlight := Some(id))
    else begun.(pending := w.pending + {id}, inFlight := Some(id))
  }

  predicate Stale(w: World, now: int) {
    w.state.Unknown? || now - w.lastCheckedAt >= TTL_MS
  }

  /** The event calls the probe function. */
  predicate Starts(w: World, e: Event) {
    match e
    case Ask(now, _) => Stale(w, now) && w.inFlight.None?
    case AskCached(now, _, _) => Stale(w, now) && w.inFlight.None?
    case Warm(_, _) => w.state.Unknown? && w.inFlight.None?
    case Settle(_, _, _) => false
  }

  function Next(w: World, e: Event): World {
    match e
    case Settle(id, ok, now) => if id in w.pending then Finish(w, id, ok, now) else w
    case _ => if Starts(w, e) then Start(w, e.now, e.throws) else w
  }

  function Reply(w: World, e: Event): Answer {
    var after := Next(w, e);
    match e
    case Ask(now, _) =>
      if !Stale(w, now) then Verdict(w.state.Up?)
      else if after.inFlight.Some? then Awaiting(after.inFlight.value)
      else Nothing
    case AskCached(_, envUrl, _) => Verdict(if after.state.Unknown? then envUrl else after.state.Up?)
    case _ => Nothing
  }

  function Run(events: seq<Event>): World {
    if events == [] then INITIAL else Next(Run(events[..|events| - 1]), events[|events| - 1])
  }
}

/** The module itself: its variables and its functions, cut at the await of the query. */
module DbHealth {
  import opened Wrappers
  import opened ProbeProtocol

  class Health {
    var state: DbState
    var lastCheckedAt: int
    var inFlight: Option<nat>
    ghost var pending: set<nat>
    ghost var log: seq<Completion>
    var started: nat

    ghost function View(): World
      reads this
    {
      World(state, lastCheckedAt, inFlight, pending, log, started)
    }

    constructor ()
      ensures View() == INITIAL
    {
      state, lastCheckedAt, inFlight, started := Unknown, 0, None, 0;
      pending, log := {}, [];
    }

    /** The probe from its call to its await, or to its end when the query raises at once. */
    method ProbeCall(now: int, throws: bool) returns (promise: nat)
      modifies this
      ensures promise == old(started)
      ensures View().(inFlight := Some(promise)) == Start(old(View()), now, throws)
    {
      promise := started;
      started := started + 1;
      if throws {
        ProbeEnd(promise, false, now);
      } else {
        pending := pending + {promise};
      }
    }

    /** The probe from its await on. */
    method ProbeEnd(promise: nat, ok: bool, now: int)
      modifies this
      ensures View() == Finish(old(View()), promise, ok, now)
    {
      state := if ok then Up else Down;
      lastCheckedAt := now;
      inFlight := None;
      pending, log := pending - {promise}, log + [Completion(promise, ok, now)];
    }

    method IsDatabaseReachable(now: int, throws: bool) returns (answer: Answer)
      modifies this
      ensures View() == Next(old(View()), Ask(now, throws)) && answer == Reply(old(View()), Ask(now, throws))
    {
      var recent := now - lastCheckedAt < TTL_MS;
      if state != Unknown && recent {
        return Verdict(state == Up);
      }
      if inFlight.None? {
        var promise := ProbeCall(now, throws);
        inFlight := Some(promise);
      }
      return Awaiting(inFlight.value);
    }

    method IsDatabaseReachableCached(now: int, envUrl: bool, throws: bool) returns (up: bool)
      modifies this
      ensures View() == Next(old(View()), AskCached(now, envUrl, throws))
      ensures Verdict(up) == Reply(old(View()), AskCached(now, envUrl, throws))
    {
      var stale := now - lastCheckedAt >= TTL_MS;
      if state == Unknown || stale {
        if inFlight.None? {
          var promise := ProbeCall(now, throws);
          inFlight := Some(promise);
        }
      }
      if state == Unknown {
        return envUrl;
      }
      return state == Up;
    }

    method WarmDatabaseProbe(now: int, throws: bool)
      modifies this
      ensures View() == Next(old(View()), Warm(now, throws))
    {
      if state == Unknown && inFlight.None? {
        var promise := ProbeCall(now, throws);
        inFlight := Some(promise);
      }
    }
  }
}

/** What every interleaving of callers and completions keeps. */
module ProbeSafety {
  import opened ProbeProtocol

  /** The variables record the last completion. */
  predicate Recorded(w: World) {
    if w.log == [] then w.state.Unknown? && w.lastCheckedAt == 0
    else var last := w.log[|w.log| - 1]; w.state == (if last.ok then Up else Down) && w.lastCheckedAt == last.at
  }

  /** Every probe is pending or completed, once. */
  ghost predicate Numbered(w: World) {
    && (forall id :: id in w.pending ==> id < w.started)
    && (forall i :: 0 <= i < |w.log| ==> w.log[i].id < w.started && w.log[i].id !in w.pending)
    && (forall i, j :: 0 <= i < j < |w.log| ==> w.log[i].id != w.log[j].id)
  }

  /** The promise held is the one pending probe's. */
  predicate SingleFlight(w: World) {
    w.pending == if w.inFlight.Some? then {w.inFlight.value} else {}
  }

  /** The promise held is that of the last completion, a failure, and no probe is pending. */
  predicate Wedged(w: World) {
    w.state.Down? && w.inFlight.Some? && w.pending == {} && w.log != []
    && var last := w.log[|w.log| - 1]; last.id == w.inFlight.value && !last.ok
  }

  /** Some probe was started whose query raised at once. */
  ghost predicate RaisedAtOnce(events: seq<Event>) {
    exists i :: 0 <= i < |events| && RaisesAt(events, i)
  }

  predicate RaisesAt(events: seq<Event>, i: int)
    requires 0 <= i < |events|
  {
    Starts(Run(events[..i]), events[i]) && events[i].throws
  }

  lemma StepKeeps(w: World, e: Event)
    requires Recorded(w) && Numbered(w)
    ensures Recorded(Next(w, e)) && Numbered(Next(w, e)) && w.log <= Next(w, e).log
  {
    hide Numbered;
    StepKeepsNumbers(w, e);
  }

  lemma StepKeepsNumbers(w: World, e: Event)
    requires Numbered(w)
    ensures Numbered(Next(w, e))
  {
  }

  lemma StepSingleFlight(w: World, e: Event)
    requires Numbered(w) && SingleFlight(w)
    ensures if Starts(w, e) && e.throws then Wedged(Next(w, e)) else SingleFlight(Next(w, e))
  {
    var n := Next(w, e);
    if Starts(w, e) && e.throws {
      assert n.log[|n.log| - 1] == Completion(w.started, false, e.now);
    }
  }

  lemma StepWedged(w: World, e: Event)
    requires Wedged(w)
    ensures Next(w, e) == w && !Starts(w, e)
  {
  }

  lemma RaisedEarlier(events: seq<Event>)
    requires events != []
    ensures var front := events[..|events| - 1];
            RaisedAtOnce(events) <==> RaisedAtOnce(front) || RaisesAt(events, |events| - 1)
  {
    var front := events[..|events| - 1];
    forall i | 0 <= i < |front|
      ensures RaisesAt(front, i) == RaisesAt(events, i)
    {
      assert front[..i] == events[..i];
    }
  }

  /**
    In every interleaving at most one probe is pending and it is the one callers wait for, exactly
    as long as no query raised at once. After that the module is wedged: the promise held has
    settled to failure and no probe is ever started again.
   */
  lemma {:induction false} SingleFlightIff(events: seq<Event>)
    ensures Recorded(Run(events)) && Numbered(Run(events))
    ensures SingleFlight(Run(events)) <==> !RaisedAtOnce(events)
    ensures Wedged(Run(events)) <==> RaisedAtOnce(events)
    ensures |Run(events).pending| <= 1
  {
    if events != [] {
      var front, e := events[..|events| - 1], events[|events| - 1];
      SingleFlightIff(front);
      RaisedEarlier(events);
      StepKeeps(Run(front), e);
      if RaisedAtOnce(front) {
        StepWedged(Run(front), e);
      } else {
        StepSingleFlight(Run(front), e);
      }
    }
  }

  /** The first answer ends ignorance for good. */
  lemma {:induction false} NeverUnknownAgain(events: seq<Event>, k: nat)
    requires k <= |events| && !Run(events[..k]).state.Unknown?
    ensures !Run(events).state.Unknown?
    decreases |events|
  {
    if k < |events| {
      var front := events[..|events| - 1];
      assert front[..k] == events[..k];
      NeverUnknownAgain(front, k);
    } else {
      assert events[..k] == events;
    }
  }

  /** A completion less than 30 s before `now`. */
  predicate Recent(c: Completion, now: int) {
    now - c.at < TTL_MS
  }

  /**
    The reply to a call at `now`, in the world it leaves behind, rests on a probe that is recent or
    still to come: an immediate verdict is the last completion's, and a recent one; an awaited
    promise is pending, or its completion is recent.
   */
  ghost predicate FreshReply(after: World, reply: Answer, now: int) {
    match reply
    case Verdict(up) =>
      after.log != [] && var last := after.log[|after.log| - 1]; last.ok == up && Recent(last, now)
    case Awaiting(id) =>
      id in after.pending || exists i :: 0 <= i < |after.log| && after.log[i].id == id && Recent(after.log[i], now)
    case Nothing => false
  }

  /**
    Freshness, exactly: the reply to a call is fresh unless an earlier query raised at once and the
    verdict that left behind has gone stale. Only then is a promise handed out that settled long ago.
   */
  lemma VerdictsAreFreshIff(events: seq<Event>, now: int, throws: bool)
    ensures var w, ask := Run(events), Ask(now, throws);
            FreshReply(Run(events + [ask]), Reply(w, ask), now) <==> !(RaisedAtOnce(events) && Stale(w, now))
  {
    hide Next, Reply, Stale, FreshReply, RaisedAtOnce, Recorded, Numbered, Wedged;
    var w, ask := Run(events), Ask(now, throws);
    assert Run(events + [ask]) == Next(w, ask) by {
      assert (events + [ask])[..|events|] == events;
    }
    SingleFlightIff(events);
    if !Stale(w, now) {
      RecentVerdictIsFresh(w, ask);
    } else if RaisedAtOnce(events) {
      WedgedReplyIsOld(w, ask);
    } else {
      WaitsForOwnProbe(w, ask);
    }
  }

  lemma RecentVerdictIsFresh(w: World, ask: Event)
    requires ask.Ask? && Recorded(w) && !Stale(w, ask.now)
    ensures FreshReply(Next(w, ask), Reply(w, ask), ask.now)
  {
  }

  lemma WedgedReplyIsOld(w: World, ask: Event)
    requires ask.Ask? && Recorded(w) && Numbered(w) && Wedged(w) && Stale(w, ask.now)
    ensures !FreshReply(Next(w, ask), Reply(w, ask), ask.now)
  {
    StepWedged(w, ask);
  }

  /** In single flight a stale call waits for a pending probe, or for the one it just saw fail. */
  lemma WaitsForOwnProbe(w: World, ask: Event)
    requires ask.Ask? && Recorded(w) && Numbered(w) && SingleFlight(w) && Stale(w, ask.now)
    ensures FreshReply(Next(w, ask), Reply(w, ask), ask.now)
  {
    var after := Next(w, ask);
    if Starts(w, ask) && ask.throws {
      var last := |after.log| - 1;
      assert after.log[last] == Completion(w.started, false, ask.now);
      assert Reply(w, ask) == Awaiting(w.started);
    }
  }

  lemma {:induction false} LogGrows(events: seq<Event>, k: nat)
    requires k <= |events|
    ensures Run(events[..k]).log <= Run(events).log
    decreases |events|
  {
    if k < |events| {
      var front := events[..|events| - 1];
      assert front[..k] == events[..k];
      LogGrows(front, k);
      SingleFlightIff(front);
      StepKeeps(Run(front), events[|events| - 1]);
    } else {
      assert events[..k] == events;
    }
  }

  /** Whatever happens after a call that waits for a pending probe, its one completion is recorded after the call. */
  lemma WaitEndsLater(events: seq<Event>, now: int, throws: bool, later: seq<Event>)
    requires var reply := Reply(Run(events), Ask(now, throws));
             reply.Awaiting? && reply.id in Run(events + [Ask(now, throws)]).pending
    ensures var id := Reply(Run(events), Ask(now, throws)).id;
            var atCall, log := |Run(events + [Ask(now, throws)]).log|, Run(events + [Ask(now, throws)] + later).log;
            && (forall i :: 0 <= i < |log| && log[i].id == id ==> atCall <= i)
            && (forall i, j :: 0 <= i < j < |log| ==> !(log[i].id == id && log[j].id == id))
  {
    hide Reply, Run;
    var asked := events + [Ask(now, throws)];
    SingleFlightIff(asked);
    assert (asked + later)[..|asked|] == asked;
    LogGrows(asked + later, |asked|);
    SingleFlightIff(asked + later);
  }

  /**
    The synchronous reader answers with the last completed probe, and with the environment before the
    first; a query that raises at once completes as a failure before the answer.
   */
  lemma CachedAnswersLast(events: seq<Event>, now: int, envUrl: bool, throws: bool)
    ensures var w, ask := Run(events), AskCached(now, envUrl, throws);
            var log := Next(w, ask).log;
            Reply(w, ask) == Verdict(if log == [] then envUrl else log[|log| - 1].ok)
  {
    SingleFlightIff(events);
    StepKeeps(Run(events), AskCached(now, envUrl, throws));
  }

  /**
    A probe is started exactly when none is promised and: by either reader, no probe has completed in
    the last 30 s; by the warm-up, none has completed at all. Completions start none.
   */
  lemma ProbesStartWhenDue(events: seq<Event>, e: Event)
    ensures var w := Run(events);
            var due := match e
              case Ask(now, _) => w.log == [] || now - w.log[|w.log| - 1].at >= 30_000
              case AskCached(now, _, _) => w.log == [] || now - w.log[|w.log| - 1].at >= 30_000
              case Warm(_, _) => w.log == []
              case Settle(_, _, _) => false;
            Next(w, e).started == w.started + (if due && w.inFlight.None? then 1 else 0)
  {
    SingleFlightIff(events);
  }

  /** Once wedged, every later call gets failure, at once or from the settled promise. */
  lemma WedgedAnswersDown(events: seq<Event>, now: int, throws: bool)
    requires RaisedAtOnce(events)
    ensures var w := Run(events);
            match Reply(w, Ask(now, throws))
            case Verdict(up) => !up
            case Awaiting(id) => exists i :: 0 <= i < |w.log| && w.log[i].id == id && !w.log[i].ok
            case Nothing => false
  {
    SingleFlightIff(events);
  }
}
