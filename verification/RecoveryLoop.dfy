/**
  The background loop that re-admits ejected endpoints (cmd/devgate/passive_health_observer.go).
  Here the loop runs against objects that nobody else touches, and is proved to drain them;
  how often it fires while other goroutines eject, acquire and apply is
  PoolRuns.FiringsAreBounded.
 */
module RecoveryLoop {
  import opened Common
  import opened HealthPool
  import HT = HealthTracker
  import LR = LeastRequests
  import PT = PassiveHealthTracker

  /** How one wait of the loop ends: the context is cancelled; the wake channel delivers after
      some time; or the timer fires, late by `lateness`, and the Refresh that follows reads
      the clock `pause` later. A parked loop has no timer and sleeps through the last. */
  datatype Wait =
    | Cancelled
    | Woken(after: nat)
    | TimerDue(lateness: nat, pause: nat)

  function TimersIn(waits: seq<Wait>): nat {
    if waits == [] then 0
    else TimersIn(waits[..|waits| - 1]) + (if waits[|waits| - 1].TimerDue? then 1 else 0)
  }

  class RoutePassiveHealthObserver {
    const picker: HealthAwarePicker
    const tracker: PT.PassiveHealthTracker
    var wake: bool

    ghost predicate Valid()
      reads picker, picker.picker, picker.picker.known, picker.picker.permits
      reads picker.source, picker.source.active
      reads if picker.source.active == null then {} else picker.source.active.states
      reads picker.source.passive, if picker.source.passive == null then {} else picker.source.passive.states
    {
      picker.Valid() && picker.source.passive == tracker
    }

    constructor (picker: HealthAwarePicker, tracker: PT.PassiveHealthTracker)
      requires picker.Valid() && picker.source.passive == tracker
      ensures Valid() && this.picker == picker && this.tracker == tracker && !wake
    {
      this.picker := picker;
      this.tracker := tracker;
      wake := false;
    }

    /** An ejection is published before the loop is told to look at its deadline. */
    method RecordEjection(now: int)
      requires Valid()
      modifies this`wake, picker`available, tracker, tracker.states, picker.source.journal
      modifies picker.picker`endpoints, picker.picker`cursor, picker.picker`known, picker.picker.endpoints`target
      ensures Valid() && wake && picker.Offers(old(picker.source.Good(now)))
      ensures PassiveSwept(tracker, now)
      ensures picker.source.journal.sections ==
              old(picker.source.journal.sections) + RefreshSections(picker.available) + [Wake]
    {
      hide HT.HealthTracker.Valid, PT.PassiveHealthTracker.Valid, LR.LeastRequests.Valid, RefreshSections;
      var ok := picker.Refresh(now);
      Signal();
    }

    /** The non-blocking send on the wake channel, which holds one signal. */
    method Signal()
      modifies this`wake, picker.source.journal
      ensures wake && picker.source.journal.sections == old(picker.source.journal.sections) + [Wake]
    {
      wake := true;
      picker.source.journal.Note(Wake);
    }

    /** The loop's own read of the tracker, which clears what has expired. */
    method ReadTracker(now: int)
      requires Valid()
      modifies tracker, tracker.states, picker.source.journal
      ensures Valid() && PassiveSwept(tracker, now)
      ensures picker.source.journal.sections == old(picker.source.journal.sections) + [ReadPassive]
    {
      hide HT.HealthTracker.Valid, PT.PassiveHealthTracker.Valid, LR.LeastRequests.Valid, KeepKeys, Unexpired;
      var recovered := tracker.HealthyEndpoints(now);
      picker.source.journal.Note(ReadPassive);
    }

    /** The timer branch: the tracker is read at time `now` and the picker is refreshed
        `pause` later, after which nothing that has expired is stored or withheld. */
    method Recover(now: int, pause: nat)
      requires Valid()
      modifies picker`available, tracker, tracker.states, picker.source.journal
      modifies picker.picker`endpoints, picker.picker`cursor, picker.picker`known, picker.picker.endpoints`target
      ensures Valid() && PassiveSwept(tracker, now + pause)
      ensures picker.Offers(picker.source.Good(now + pause))
      ensures old(picker.picker.known) <= picker.picker.known && fresh(picker.picker.known - old(picker.picker.known))
      ensures picker.source.journal.sections ==
              old(picker.source.journal.sections) + [ReadPassive] + RefreshSections(picker.available)
    {
      hide HT.HealthTracker.Valid, PT.PassiveHealthTracker.Valid, LR.LeastRequests.Valid, HealthAwarePicker.Offers;
      hide CompositeHealthSource.Good, RefreshSections;
      ReadTracker(now);
      label Read:
      var ok := picker.Refresh(now + pause);
      SweepKeepsGood@Read(now + pause);
    }

    /** A sweep does not change what is good from then on. */
    twostate lemma SweepKeepsGood(now: int)
      requires picker.source.passive == tracker && PassiveSwept(tracker, now)
      requires unchanged(picker.source.membership)
      requires picker.source.active != null ==> unchanged(picker.source.active)
      ensures picker.source.Good(now) == old(picker.source.Good(now))
    {
      hide KeepKeys;
      assert picker.source.PassiveKeys(now) == old(picker.source.PassiveKeys(now));
      assert picker.source.ActiveKeys() == old(picker.source.ActiveKeys());
    }

    /** The ejections left once the loop has fired up to time `swept`, if it has. */
    ghost predicate SweptSince(ejected: map<string, int>, swept: Option<int>)
      reads tracker
    {
      tracker.ejections == if swept.Some? then Unexpired(ejected, swept.value) else ejected
    }

    /** Where the loop stands at time `now`, `fired` firings after the ejections were `ejected`. */
    ghost predicate Progress(ejected: map<string, int>, now: int, fired: nat, swept: Option<int>)
      reads tracker, picker, picker.picker, picker.picker.endpoints, picker.source
      reads picker.source.membership, picker.source.active, picker.source.passive
    {
      SweptSince(ejected, swept) && (swept.Some? <==> fired > 0) &&
      fired + |tracker.ejections| <= |ejected| &&
      (swept.Some? ==> swept.value <= now && picker.Offers(picker.source.Good(swept.value)))
    }

    /** One firing of a timer that was set for the earliest of the stored ejections. */
    method Fire(now: int, pause: nat, ghost ejected: map<string, int>, ghost earlier: int, ghost fired: nat,
                ghost swept: Option<int>)
      requires Valid() && Progress(ejected, earlier, fired, swept) && earlier <= now
      requires exists k :: k in tracker.ejections && tracker.ejections[k] <= now
      modifies picker`available, tracker, tracker.states, picker.source.journal
      modifies picker.picker`endpoints, picker.picker`cursor, picker.picker`known, picker.picker.endpoints`target
      ensures Valid() && Progress(ejected, now + pause, fired + 1, Some(now + pause))
      ensures tracker.states == old(tracker.states)
      ensures old(picker.picker.known) <= picker.picker.known && fresh(picker.picker.known - old(picker.picker.known))
    {
      hide HT.HealthTracker.Valid, PT.PassiveHealthTracker.Valid, LR.LeastRequests.Valid, HealthAwarePicker.Offers;
      hide CompositeHealthSource.Good, Unexpired, Valid, RefreshSections;
      FiringClears(ejected, swept, tracker.ejections, now + pause);
      Recover(now, pause);
    }

    static lemma FiringClears(ejected: map<string, int>, swept: Option<int>, before: map<string, int>, now: int)
      requires before == if swept.Some? then Unexpired(ejected, swept.value) else ejected
      requires swept.Some? ==> swept.value <= now
      requires exists k :: k in before && before[k] <= now
      ensures |Unexpired(before, now)| < |before| && Unexpired(before, now) == Unexpired(ejected, now)
    {
      var k :| k in before && before[k] <= now;
      UnexpiredShrinks(before, now, k);
    }

    lemma NothingFired(now: int)
      ensures Progress(tracker.ejections, now, 0, None)
    {
    }

    lemma Later(ejected: map<string, int>, now: int, fired: nat, swept: Option<int>, later: int)
      requires Progress(ejected, now, fired, swept) && now <= later
      ensures Progress(ejected, later, fired, swept)
    {
    }

    /** What the loop itself needs to know of a valid observer. */
    lemma Usable()
      requires Valid()
      ensures tracker.Valid()
      ensures forall e :: e in picker.picker.endpoints ==> e in picker.picker.known
    {
    }

    /** One wait of the loop, and what it leads to. */
    method Turn(since: int, wait: Wait, earlier: nat, ghost ejected: map<string, int>, ghost before: Option<int>)
      returns (now: int, fired: nat, ghost swept: Option<int>)
      requires Valid() && Progress(ejected, since, earlier, before)
      modifies this`wake, picker`available, tracker, tracker.states, picker.source.journal
      modifies picker.picker`endpoints, picker.picker`cursor, picker.picker`known, picker.picker.endpoints`target
      ensures Valid() && Progress(ejected, now, fired, swept) && tracker.states == old(tracker.states)
      ensures old(picker.picker.known) <= picker.picker.known && fresh(picker.picker.known - old(picker.picker.known))
      ensures old(tracker.ejections) == map[] ==> tracker.ejections == map[]
      ensures fired == earlier + (if wait.TimerDue? && old(tracker.ejections) != map[] then 1 else 0)
    {
      hide HT.HealthTracker.Valid, PT.PassiveHealthTracker.Valid, HealthAwarePicker.Offers, LR.LeastRequests.Valid;
      hide CompositeHealthSource.Good, SweptSince, Progress, Valid;
      Usable();
      now, fired, swept := since, earlier, before;
      var delay, pending := tracker.NextRecoveryDelay(now);
      match wait {
        case Cancelled =>
        case Woken(after) =>
          wake := false;
          Later(ejected, now, fired, swept, now + after);
          now := now + after;
        case TimerDue(lateness, pause) =>
          if pending {
            Fire(now + delay + lateness, pause, ejected, now, fired, swept);
            now, fired := now + delay + lateness + pause, fired + 1;
            swept := Some(now);
          }
      }
    }

    /** The loop, from time `start`, for as long as `waits` lasts or until it is cancelled.
        Every firing clears at least one ejection and leaves none that has expired, so with no
        new ejections the loop drains the tracker and parks. */
    method Run(start: int, waits: seq<Wait>) returns (now: int, fired: nat, ghost swept: Option<int>)
      requires Valid()
      modifies this`wake, picker`available, tracker, tracker.states, picker.source.journal
      modifies picker.picker`endpoints, picker.picker`cursor, picker.picker`known, picker.picker.known`target
      ensures Valid() && Progress(old(tracker.ejections), now, fired, swept)
      ensures Cancelled !in waits ==> tracker.ejections == map[] || fired == TimersIn(waits)
    {
      hide HT.HealthTracker.Valid, PT.PassiveHealthTracker.Valid, HealthAwarePicker.Offers, LR.LeastRequests.Valid;
      hide CompositeHealthSource.Good, SweptSince, Progress, Valid;
      now, fired, swept := start, 0, None;
      NothingFired(start);
      for i := 0 to |waits|
        invariant Valid() && Progress(old(tracker.ejections), now, fired, swept)
        invariant tracker.states == old(tracker.states)
        invariant old(picker.picker.known) <= picker.picker.known
        invariant fresh(picker.picker.known - old(picker.picker.known))
        invariant Cancelled !in waits ==> tracker.ejections == map[] || fired == TimersIn(waits[..i])
      {
        assert waits[..i + 1][..i] == waits[..i];
        Usable();
        now, fired, swept := Turn(now, waits[i], fired, old(tracker.ejections), swept);
        if waits[i].Cancelled? {
          return;
        }
      }
      assert waits[..|waits|] == waits;
    }
  }
}
