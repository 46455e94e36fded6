/**
  The per-route circuit breaker (internal/proxy/circuit_breaker.go).

  `CircuitBreakerTransport` is the locked object. Its two critical sections are
  specified by the functions `Acquire` and `Record` on breaker values. A `World`
  is a breaker together with the round trips in flight: they may finish in any
  order, long after the breaker has moved on. Everything proved about `World`
  holds of every interleaving of round trips, because each critical section
  runs under one mutex and is therefore one event.
 */
module CircuitBreaker {
  import opened Common
  import opened Outcomes

  datatype CircuitState = Closed | Open | HalfOpen

  datatype Permit = Permit(generation: nat, probe: bool)

  type Transition = (CircuitState, CircuitState)

  /** The fields guarded by the mutex, plus what the observer has been told. */
  datatype Breaker = Breaker(
    threshold: int,
    timeout: int,
    generation: nat,
    state: CircuitState,
    failures: int,
    openedAt: Option<int>,
    log: seq<Transition>
  )

  predicate Configured(b: Breaker) {
    b.threshold >= 1 && b.timeout >= 1
  }

  function Fresh(threshold: int, timeout: int): Breaker {
    Breaker(threshold, timeout, 0, Closed, 0, None, [])
  }

  function MoveTo(b: Breaker, to: CircuitState): Breaker {
    if b.state == to then b else b.(state := to, log := b.log + [(b.state, to)])
  }

  /** The zero time lies further back than any timeout. */
  predicate TimeoutElapsed(b: Breaker, now: int) {
    b.openedAt.None? || now - b.openedAt.value >= b.timeout
  }

  function Acquire(b: Breaker, now: int): (Breaker, Option<Permit>) {
    match b.state
    case Closed => (b, Some(Permit(b.generation, false)))
    case Open =>
      if TimeoutElapsed(b, now)
      then (MoveTo(b, HalfOpen), Some(Permit(b.generation, true)))
      else (b, None)
    case HalfOpen => (b, None)
  }

  function Record(b: Breaker, p: Permit, outcome: Outcome, now: int): Breaker {
    if p.generation != b.generation then b
    else if p.probe then
      if b.state != HalfOpen then b
      else
        var moved := match outcome
          case Success => MoveTo(b, Closed).(openedAt := None)
          case Failure => MoveTo(b, Open).(openedAt := Some(now))
          case Ignored => MoveTo(b, Open);
        moved.(failures := 0, generation := b.generation + 1)
    else if b.state != Closed then b
    else match outcome
      case Success => b.(failures := 0)
      case Ignored => b
      case Failure =>
        if b.failures + 1 >= b.threshold
        then MoveTo(b, Open).(openedAt := Some(now), failures := 0, generation := b.generation + 1)
        else b.(failures := b.failures + 1)
  }

  /** The transport object. Each method below is one critical section. */
  class CircuitBreakerTransport {
    const failureThreshold: int
    const openTimeout: int
    var generation: nat
    var state: CircuitState
    var consecutiveFailures: int
    var openedAt: Option<int>
    ghost var observed: seq<Transition>  // the observer's record of transitions

    ghost function View(): Breaker
      reads this
    {
      Breaker(failureThreshold, openTimeout, generation, state, consecutiveFailures, openedAt, observed)
    }

    constructor (failureThreshold: int, openTimeout: int)
      requires failureThreshold >= 1 && openTimeout >= 1
      ensures View() == Fresh(failureThreshold, openTimeout)
    {
      this.failureThreshold := failureThreshold;
      this.openTimeout := openTimeout;
      generation := 0;
      state := Closed;
      consecutiveFailures := 0;
      openedAt := None;
      observed := [];
    }

    /** Nothing is built from a threshold or a timeout that is not positive. */
    static method New(failureThreshold: int, openTimeout: int) returns (breaker: CircuitBreakerTransport?)
      ensures breaker != null <==> failureThreshold >= 1 && openTimeout > 0
      ensures breaker != null ==> fresh(breaker) && breaker.View() == Fresh(failureThreshold, openTimeout)
    {
      if failureThreshold < 1 || openTimeout <= 0 {
        return null;
      }
      breaker := new CircuitBreakerTransport(failureThreshold, openTimeout);
    }

    method TransitionTo(to: CircuitState)
      modifies this`state, this`observed
      ensures View() == MoveTo(old(View()), to)
    {
      var from := state;
      if from == to {
        return;
      }
      state := to;
      observed := observed + [(from, to)];
    }

    method AcquirePermit(now: int) returns (permit: Option<Permit>)
      modifies this`state, this`observed
      ensures (View(), permit) == Acquire(old(View()), now)
    {
      match state {
        case Closed =>
          return Some(Permit(generation, false));
        case Open =>
          if openedAt.Some? && now - openedAt.value < openTimeout {
            return None;
          }
          TransitionTo(HalfOpen);
          return Some(Permit(generation, true));
        case HalfOpen =>
          return None;
      }
    }

    method RecordOutcome(p: Permit, outcome: Outcome, now: int)
      modifies this
      ensures View() == Record(old(View()), p, outcome, now)
    {
      if p.generation != generation {
        return;
      }
      if p.probe {
        if state != HalfOpen {
          return;
        }
        match outcome {
          case Success =>
            TransitionTo(Closed);
            openedAt := None;
          case Failure =>
            TransitionTo(Open);
            openedAt := Some(now);
          case Ignored =>
            TransitionTo(Open);
        }
        consecutiveFailures := 0;
        generation := generation + 1;
        return;
      }
      if state != Closed {
        return;
      }
      match outcome {
        case Success =>
          consecutiveFailures := 0;
        case Failure =>
          consecutiveFailures := consecutiveFailures + 1;
          if consecutiveFailures >= failureThreshold {
            TransitionTo(Open);
            openedAt := Some(now);
            consecutiveFailures := 0;
            generation := generation + 1;
          }
        case Ignored =>
      }
    }
  }

  // ----- Runs: round trips starting and finishing in any order -----

  /** The breaker with the round trips it has let through. `history` lists every
      recorded (permit, outcome) pair, stale ones included; `trips` lists the
      times at which a failure opened the circuit. */
  datatype World = World(
    breaker: Breaker,
    now: int,
    inflight: map<nat, Permit>,
    started: nat,
    history: seq<(Permit, Outcome)>,
    trips: seq<int>
  )

  datatype Event =
    | Arrive(at: int)
    | Finish(id: nat, outcome: Outcome, at: int)

  function Start(threshold: int, timeout: int, now: int): World {
    World(Fresh(threshold, timeout), now, map[], 0, [], [])
  }

  /** The clock never runs backwards and a round trip finishes at most once. */
  predicate Enabled(w: World, e: Event) {
    e.at >= w.now && (e.Finish? ==> e.id in w.inflight)
  }

  function Next(w: World, e: Event): World
    requires Enabled(w, e)
  {
    match e
    case Arrive(at) =>
      var (b, granted) := Acquire(w.breaker, at);
      if granted.None? then w.(breaker := b, now := at)
      else w.(breaker := b, now := at, inflight := w.inflight[w.started := granted.value], started := w.started + 1)
    case Finish(id, outcome, at) =>
      var b := Record(w.breaker, w.inflight[id], outcome, at);
      w.(breaker := b,
         now := at,
         inflight := w.inflight - {id},
         history := w.history + [(w.inflight[id], outcome)],
         trips := if outcome == Failure && b.state == Open && w.breaker.state != Open
                   then w.trips + [at] else w.trips)
  }

  predicate Runnable(w: World, events: seq<Event>)
    decreases |events|
  {
    events == [] || (Enabled(w, events[0]) && Runnable(Next(w, events[0]), events[1..]))
  }

  function Run(w: World, events: seq<Event>): World
    requires Runnable(w, events)
    decreases |events|
  {
    if events == [] then w else Run(Next(w, events[0]), events[1..])
  }

  /** The outcomes recorded with permits of generation `g`, oldest first. */
  function OutcomesOf(history: seq<(Permit, Outcome)>, g: nat): seq<Outcome> {
    if history == [] then []
    else
      var earlier := OutcomesOf(history[..|history| - 1], g);
      var (p, outcome) := history[|history| - 1];
      if p.generation == g then earlier + [outcome] else earlier
  }

  function CurrentPermits(w: World): set<nat> {
    set id | id in w.inflight && w.inflight[id].generation == w.breaker.generation
  }

  /** The observer's log starts at Closed, never jumps and ends at `last`. */
  predicate ConnectedWalk(log: seq<Transition>, last: CircuitState) {
    (|log| > 0 ==> log[0].0 == Closed) &&
    (forall i, j :: 0 <= i && j == i + 1 < |log| ==> log[i].1 == log[j].0) &&
    (forall i :: 0 <= i < |log| ==> log[i].0 != log[i].1) &&
    last == (if |log| == 0 then Closed else log[|log| - 1].1)
  }

  ghost predicate Inv(w: World) {
    var b := w.breaker;
    Configured(b) &&
    (forall id :: id in w.inflight ==> id < w.started && w.inflight[id].generation <= b.generation) &&
    (forall i :: 0 <= i < |w.history| ==> w.history[i].0.generation <= b.generation) &&
    b.failures == TrailingFailures(OutcomesOf(w.history, b.generation)) &&
    (forall i :: 0 <= i < |w.trips| ==> w.trips[i] <= w.now) &&
    ConnectedWalk(b.log, b.state) &&
    match b.state
    case Closed =>
      b.failures < b.threshold &&
      forall id :: id in CurrentPermits(w) ==> !w.inflight[id].probe
    case Open =>
      CurrentPermits(w) == {} && OutcomesOf(w.history, b.generation) == [] &&
      w.trips != [] && b.openedAt == Some(w.trips[|w.trips| - 1])
    case HalfOpen =>
      OutcomesOf(w.history, b.generation) == [] &&
      w.trips != [] && b.openedAt == Some(w.trips[|w.trips| - 1]) &&
      exists id :: CurrentPermits(w) == {id} && w.inflight[id].probe
  }

  lemma {:induction false} NoOutcomesAhead(history: seq<(Permit, Outcome)>, g: nat)
    requires forall i :: 0 <= i < |history| ==> history[i].0.generation < g
    ensures OutcomesOf(history, g) == []
  {
    if history != [] {
      NoOutcomesAhead(history[..|history| - 1], g);
    }
  }

  lemma OutcomesAppend(history: seq<(Permit, Outcome)>, p: Permit, o: Outcome, g: nat)
    ensures OutcomesOf(history + [(p, o)], g) ==
            OutcomesOf(history, g) + (if p.generation == g then [o] else [])
  {
    assert (history + [(p, o)])[..|history|] == history;
  }

  lemma InvArrive(w: World, e: Event)
    requires Inv(w) && Enabled(w, e) && e.Arrive?
    ensures Inv(Next(w, e))
  {
    var w' := Next(w, e);
    var g := w.breaker.generation;
    if w'.started > w.started {
      if w.breaker.state == Closed {
        assert CurrentPermits(w') == CurrentPermits(w) + {w.started};
      } else {
        assert CurrentPermits(w') == {w.started};
      }
    } else {
      assert CurrentPermits(w') == CurrentPermits(w);
    }
  }

  /** An outcome of an older generation leaves the breaker as it was. */
  lemma InvFinishStale(w: World, e: Event)
    requires Inv(w) && Enabled(w, e) && e.Finish?
    requires w.inflight[e.id].generation != w.breaker.generation
    ensures Inv(Next(w, e))
  {
    var w' := Next(w, e);
    OutcomesAppend(w.history, w.inflight[e.id], e.outcome, w.breaker.generation);
    assert CurrentPermits(w') == CurrentPermits(w);
  }

  lemma InvFinishCurrent(w: World, e: Event)
    requires Inv(w) && Enabled(w, e) && e.Finish?
    requires w.inflight[e.id].generation == w.breaker.generation
    ensures Inv(Next(w, e))
  {
    if Next(w, e).breaker.generation == w.breaker.generation {
      InvFinishCounted(w, e);
    } else {
      InvFinishMoved(w, e);
    }
  }

  /** An outcome that is counted and leaves the state as it is. */
  lemma InvFinishCounted(w: World, e: Event)
    requires Inv(w) && Enabled(w, e) && e.Finish?
    requires w.inflight[e.id].generation == w.breaker.generation == Next(w, e).breaker.generation
    ensures Inv(Next(w, e))
  {
    var g := w.breaker.generation;
    OutcomesAppend(w.history, w.inflight[e.id], e.outcome, g);
    TrailingAppend(OutcomesOf(w.history, g), e.outcome);
    CountedWhileClosed(w, e);
    OnePermitLess(w, e);
    hide ConnectedWalk, OutcomesOf, TrailingFailures, CurrentPermits;
  }

  lemma CountedWhileClosed(w: World, e: Event)
    requires Inv(w) && Enabled(w, e) && e.Finish?
    requires w.inflight[e.id].generation == w.breaker.generation == Next(w, e).breaker.generation
    ensures w.breaker.state == Closed && !w.inflight[e.id].probe
  {
    hide ConnectedWalk, OutcomesOf, TrailingFailures;
    assert e.id in CurrentPermits(w);
  }

  lemma OnePermitLess(w: World, e: Event)
    requires Enabled(w, e) && e.Finish? && Next(w, e).breaker.generation == w.breaker.generation
    ensures CurrentPermits(Next(w, e)) == CurrentPermits(w) - {e.id}
  {
    hide Record;
  }

  /** An outcome that opens or closes the circuit, and with it starts a new generation. */
  lemma InvFinishMoved(w: World, e: Event)
    requires Inv(w) && Enabled(w, e) && e.Finish?
    requires w.inflight[e.id].generation == w.breaker.generation != Next(w, e).breaker.generation
    ensures Inv(Next(w, e))
  {
    var w' := Next(w, e);
    WalkExtended(w.breaker, w'.breaker.state);
    assert TrailingFailures([]) == 0;
    hide ConnectedWalk, OutcomesOf, TrailingFailures;
    assert e.id in CurrentPermits(w);
    NoOutcomesAhead(w'.history, w.breaker.generation + 1);
    assert CurrentPermits(w') == {};
  }

  lemma WalkExtended(b: Breaker, to: CircuitState)
    requires ConnectedWalk(b.log, b.state)
    ensures ConnectedWalk(MoveTo(b, to).log, to)
  {
  }

  lemma InvNext(w: World, e: Event)
    requires Inv(w) && Enabled(w, e)
    ensures Inv(Next(w, e))
  {
    if e.Arrive? {
      InvArrive(w, e);
    } else if w.inflight[e.id].generation == w.breaker.generation {
      InvFinishCurrent(w, e);
    } else {
      InvFinishStale(w, e);
    }
  }

  lemma {:induction false} InvRun(w: World, events: seq<Event>)
    requires Inv(w) && Runnable(w, events)
    ensures Inv(Run(w, events))
    decreases |events|
  {
    if events != [] {
      InvNext(w, events[0]);
      InvRun(Next(w, events[0]), events[1..]);
    }
  }

  /** In every run: half-open holds exactly while one probe of the current
      generation is unrecorded; an open circuit has no current permit at all; a
      closed one has only ordinary permits. So no outcome of the current
      generation ever meets the wrong state. */
  lemma PermitsMatchState(threshold: int, timeout: int, now: int, events: seq<Event>)
    requires threshold >= 1 && timeout >= 1
    requires Runnable(Start(threshold, timeout, now), events)
    ensures var w := Run(Start(threshold, timeout, now), events);
            && (w.breaker.state == HalfOpen <==>
                exists id :: CurrentPermits(w) == {id} && w.inflight[id].probe)
            && (w.breaker.state == Open ==> CurrentPermits(w) == {})
            && (forall id :: id in CurrentPermits(w) ==>
                             w.breaker.state == if w.inflight[id].probe then HalfOpen else Closed)
            && ConnectedWalk(w.breaker.log, w.breaker.state)
  {
    InvRun(Start(threshold, timeout, now), events);
    var w := Run(Start(threshold, timeout, now), events);
    forall id | CurrentPermits(w) == {id} && w.inflight[id].probe
      ensures w.breaker.state == HalfOpen
    {
      assert id in CurrentPermits(w);
    }
  }

  /** In every run the failure counter is a function of the history alone: it is
      the trailing run of failures among the outcomes of the current generation.
      A closed circuit opens on exactly the outcome that completes the run, and
      an outcome of an older generation changes nothing. */
  lemma OpensOnTrailingRun(threshold: int, timeout: int, now: int, events: seq<Event>, e: Event)
    requires threshold >= 1 && timeout >= 1
    requires Runnable(Start(threshold, timeout, now), events)
    requires e.Finish? && Enabled(Run(Start(threshold, timeout, now), events), e)
    ensures var w := Run(Start(threshold, timeout, now), events);
            var w' := Next(w, e);
            var g := w.breaker.generation;
            && w.breaker.failures == TrailingFailures(OutcomesOf(w.history, g))
            && (w.breaker.state == Closed ==>
                && w.breaker.failures < threshold
                && (w'.breaker.state == Open <==> TrailingFailures(OutcomesOf(w'.history, g)) == threshold)
                && (w'.breaker.state == Open ==> w'.trips == w.trips + [e.at])
                && (w'.breaker.state != Open ==>
                    w'.breaker.state == Closed && w'.breaker.generation == g && w'.trips == w.trips))
            && (w.inflight[e.id].generation != g ==> w'.breaker == w.breaker)
  {
    var w := Run(Start(threshold, timeout, now), events);
    InvRun(Start(threshold, timeout, now), events);
    ConfigKept(Start(threshold, timeout, now), events);
    var p, g := w.inflight[e.id], w.breaker.generation;
    OutcomesAppend(w.history, p, e.outcome, g);
    if p.generation == g {
      assert e.id in CurrentPermits(w);
      TrailingAppend(OutcomesOf(w.history, g), e.outcome);
    }
  }

  /** In every run the outcome of the current probe settles what a half-open circuit becomes: a
      success closes it, a failure opens it and counts as a trip at that moment, and an ignored
      probe opens it as of the last trip. Either way no permit is current any more. */
  lemma ProbeDecides(threshold: int, timeout: int, now: int, events: seq<Event>, e: Event)
    requires threshold >= 1 && timeout >= 1
    requires Runnable(Start(threshold, timeout, now), events)
    requires var w := Run(Start(threshold, timeout, now), events);
             e.Finish? && Enabled(w, e) && w.breaker.state == HalfOpen && e.id in CurrentPermits(w)
    ensures var w := Run(Start(threshold, timeout, now), events);
            var w' := Next(w, e);
            && w'.breaker.state == (if e.outcome == Success then Closed else Open)
            && w'.trips == (if e.outcome == Failure then w.trips + [e.at] else w.trips)
            && w'.breaker.failures == 0 && CurrentPermits(w') == {}
  {
    var w := Run(Start(threshold, timeout, now), events);
    InvRun(Start(threshold, timeout, now), events);
    hide ConnectedWalk, OutcomesOf, TrailingFailures, Run, Runnable;
    assert w.inflight[e.id].probe;
    forall id | id in w.inflight ensures w.inflight[id].generation <= w.breaker.generation {
    }
  }

  /** In every run an arrival at a closed circuit is let through as an ordinary request; at an
      open one it is let through, as the probe, once the timeout has passed since the last trip;
      and otherwise it is refused and changes nothing. */
  lemma ArrivalDecides(threshold: int, timeout: int, now: int, events: seq<Event>, at: int)
    requires threshold >= 1 && timeout >= 1
    requires Runnable(Start(threshold, timeout, now), events)
    requires Enabled(Run(Start(threshold, timeout, now), events), Arrive(at))
    ensures var w := Run(Start(threshold, timeout, now), events);
            var w' := Next(w, Arrive(at));
            var g := w.breaker.generation;
            match w.breaker.state
            case Closed =>
              w' == w.(now := at, started := w.started + 1, inflight := w.inflight[w.started := Permit(g, false)])
            case Open =>
              w.trips != [] &&
              if at < w.trips[|w.trips| - 1] + timeout then w' == w.(now := at)
              else
                w'.breaker.state == HalfOpen && w'.started == w.started + 1 && w'.trips == w.trips &&
                w'.inflight == w.inflight[w.started := Permit(g, true)] && w'.breaker.generation == g
            case HalfOpen => w' == w.(now := at)
  {
    InvRun(Start(threshold, timeout, now), events);
    ConfigKept(Start(threshold, timeout, now), events);
    hide ConnectedWalk, OutcomesOf, TrailingFailures, Run, Runnable;
  }

  lemma {:induction false} ConfigKept(w: World, events: seq<Event>)
    requires Runnable(w, events)
    ensures Run(w, events).breaker.threshold == w.breaker.threshold
    ensures Run(w, events).breaker.timeout == w.breaker.timeout
    decreases |events|
  {
    if events != [] {
      ConfigKept(Next(w, events[0]), events[1..]);
    }
  }

  // ----- How often the upstream is probed -----

  predicate AdmitsProbe(w: World, e: Event)
    requires Enabled(w, e)
  {
    e.Arrive? && w.breaker.state == Open && Next(w, e).breaker.state == HalfOpen
  }

  /** Finishing the current probe other than by a failure. */
  predicate ResolvesProbe(w: World, e: Event)
    requires Enabled(w, e)
  {
    e.Finish? && w.breaker.state == HalfOpen && e.id in CurrentPermits(w) && e.outcome != Failure
  }

  function ProbeCount(w: World, events: seq<Event>): nat
    requires Runnable(w, events)
    decreases |events|
  {
    if events == [] then 0
    else (if AdmitsProbe(w, events[0]) then 1 else 0) + ProbeCount(Next(w, events[0]), events[1..])
  }

  predicate NoProbeResolved(w: World, events: seq<Event>)
    requires Runnable(w, events)
    decreases |events|
  {
    events == [] || (!ResolvesProbe(w, events[0]) && NoProbeResolved(Next(w, events[0]), events[1..]))
  }

  /** In every run an arrival at an open circuit is admitted, as a probe, exactly
      when the timeout has passed since a failure last opened the circuit;
      an ignored probe does not restart that wait. */
  lemma ProbeWaitsForTimeout(threshold: int, timeout: int, now: int, events: seq<Event>, at: int)
    requires threshold >= 1 && timeout >= 1
    requires Runnable(Start(threshold, timeout, now), events)
    requires Enabled(Run(Start(threshold, timeout, now), events), Arrive(at))
    ensures var w := Run(Start(threshold, timeout, now), events);
            w.breaker.state == Open ==>
              w.trips != [] &&
              (AdmitsProbe(w, Arrive(at)) <==> at >= w.trips[|w.trips| - 1] + timeout)
  {
    InvRun(Start(threshold, timeout, now), events);
    ConfigKept(Start(threshold, timeout, now), events);
  }

  /** Before this time no probe can be admitted unless a probe is resolved first. */
  function EarliestProbe(w: World): int
    requires w.breaker.state == Open ==> w.breaker.openedAt.Some?
  {
    if w.breaker.state == Open
    then Max(w.now, w.breaker.openedAt.value + w.breaker.timeout)
    else w.now + w.breaker.timeout
  }

  /** One event moves that time forward, by a whole timeout if it admits a probe. */
  lemma EarliestProbeMoves(w: World, e: Event)
    requires Inv(w) && Enabled(w, e) && !ResolvesProbe(w, e)
    ensures Inv(Next(w, e)) && Next(w, e).breaker.timeout == w.breaker.timeout
    ensures EarliestProbe(Next(w, e)) >=
            EarliestProbe(w) + (if AdmitsProbe(w, e) then w.breaker.timeout else 0)
    ensures AdmitsProbe(w, e) ==> Next(w, e).now >= EarliestProbe(w)
  {
    InvNext(w, e);
    if e.Finish? && w.inflight[e.id].generation == w.breaker.generation {
      assert e.id in CurrentPermits(w);
    }
  }

  lemma {:induction false} ProbesAreSpaced(w: World, events: seq<Event>)
    requires Inv(w) && Runnable(w, events) && NoProbeResolved(w, events)
    ensures ProbeCount(w, events) >= 1 ==>
            Run(w, events).now >= EarliestProbe(w) + (ProbeCount(w, events) - 1) * w.breaker.timeout
    decreases |events|
  {
    hide Inv;
    if events != [] {
      var e, rest := events[0], events[1..];
      var w' := Next(w, e);
      EarliestProbeMoves(w, e);
      ClockAdvances(w', rest);
      ProbesAreSpaced(w', rest);
      Spread(ProbeCount(w', rest), AdmitsProbe(w, e), w.breaker.timeout,
             EarliestProbe(w), EarliestProbe(w'), w'.now, Run(w', rest).now);
    }
  }

  /** The arithmetic of one step of the induction above. */
  lemma Spread(n: nat, admits: bool, t: int, early: int, early': int, now: int, end: int)
    requires now <= end && early' >= early + (if admits then t else 0)
    requires admits ==> now >= early
    requires n >= 1 ==> end >= early' + (n - 1) * t
    ensures var total := n + (if admits then 1 else 0);
            total >= 1 ==> end >= early + (total - 1) * t
  {
    assert (n - 1) * t + t == n * t;
  }

  lemma {:induction false} ClockAdvances(w: World, events: seq<Event>)
    requires Runnable(w, events)
    ensures Run(w, events).now >= w.now
    decreases |events|
  {
    if events != [] {
      ClockAdvances(Next(w, events[0]), events[1..]);
    }
  }

  /** Waiting before the first event changes nothing but the clock. */
  lemma WaitKeepsInv(w: World, at: int)
    requires Inv(w) && at >= w.now
    ensures Inv(w.(now := at))
  {
    assert CurrentPermits(w.(now := at)) == CurrentPermits(w);
  }

  lemma WaitFirst(w: World, events: seq<Event>)
    requires Runnable(w, events) && events != []
    ensures var waited := w.(now := events[0].at);
            && Runnable(waited, events)
            && Run(waited, events) == Run(w, events)
            && ProbeCount(waited, events) == ProbeCount(w, events)
            && NoProbeResolved(waited, events) == NoProbeResolved(w, events)
  {
    var waited := w.(now := events[0].at);
    assert CurrentPermits(waited) == CurrentPermits(w);
    assert Next(waited, events[0]) == Next(w, events[0]);
  }

  lemma WindowSpan(w: World, window: seq<Event>)
    requires Inv(w) && Runnable(w, window) && NoProbeResolved(w, window) && ProbeCount(w, window) >= 1
    ensures (ProbeCount(w, window) - 1) * w.breaker.timeout <= Run(w, window).now - window[0].at
  {
    var waited := w.(now := window[0].at);
    WaitKeepsInv(w, window[0].at);
    WaitFirst(w, window);
    ProbesAreSpaced(waited, window);
    assert EarliestProbe(waited) >= waited.now;
  }

  lemma WindowBound(n: nat, t: int, span: int, length: nat)
    requires t >= 1 && (n >= 1 ==> (n - 1) * t <= span <= length)
    ensures n <= 1 + length / t
  {
    if n >= 1 {
      FitsAtMost(n - 1, t, length);
    }
  }

  /** In any stretch of any run that lies within `length` time units and resolves
      no probe, at most 1 + length / timeout probes reach the upstream. */
  lemma ProbeRateBound(threshold: int, timeout: int, now: int, before: seq<Event>, window: seq<Event>, length: nat)
    requires threshold >= 1 && timeout >= 1
    requires Runnable(Start(threshold, timeout, now), before)
    requires var w := Run(Start(threshold, timeout, now), before);
             && Runnable(w, window) && NoProbeResolved(w, window)
             && (window != [] ==> Run(w, window).now - window[0].at <= length)
    ensures ProbeCount(Run(Start(threshold, timeout, now), before), window) <= 1 + length / timeout
  {
    InvRun(Start(threshold, timeout, now), before);
    ConfigKept(Start(threshold, timeout, now), before);
    var w := Run(Start(threshold, timeout, now), before);
    hide Inv, Runnable, Run, NoProbeResolved, ProbeCount;
    if ProbeCount(w, window) >= 1 {
      WindowSpan(w, window);
      WindowBound(ProbeCount(w, window), timeout, Run(w, window).now - window[0].at, length);
    }
  }

  lemma FitsAtMost(n: nat, t: int, length: nat)
    requires t >= 1 && n * t <= length
    ensures n <= length / t
  {
    var q := length / t;
    if n > q {
      MulMonotone(q + 1, n, t);
      assert false;
    }
  }
}
