/**
  Passive health (internal/upstream/passive_health_tracker.go).

  A permit is stamped with the state object and the generation it was issued for.
  The generation is even while the endpoint may be used and odd while an ejection is
  stored, so no permit is ever stamped with a generation in which its endpoint is
  ejected. The ghost `ledger` lists every outcome recorded with any permit; the
  failure counters are proved to be functions of it.
 */
module PassiveHealthTracker {
  import opened Common
  import opened Outcomes

  class EndpointState {
    var target: Url
    var consecutiveFailures: nat
    var ejectionUntil: Option<int>
    var generation: nat

    constructor (target: Url)
      ensures this.target == target && consecutiveFailures == 0
      ensures ejectionUntil == None && generation == 0
    {
      this.target := target;
      consecutiveFailures := 0;
      ejectionUntil := None;
      generation := 0;
    }
  }

  datatype Permit = Permit(target: string, state: EndpointState, generation: nat)

  type Ledger = seq<(Permit, Outcome)>

  /** The outcomes recorded for `state` with permits of generation `g`, oldest first. */
  ghost function OutcomesFor(ledger: Ledger, state: EndpointState, g: nat): seq<Outcome> {
    if ledger == [] then []
    else
      var earlier := OutcomesFor(ledger[..|ledger| - 1], state, g);
      var (p, outcome) := ledger[|ledger| - 1];
      if p.state == state && p.generation == g then earlier + [outcome] else earlier
  }

  lemma OutcomesAppend(ledger: Ledger, p: Permit, outcome: Outcome, state: EndpointState, g: nat)
    ensures OutcomesFor(ledger + [(p, outcome)], state, g) ==
            OutcomesFor(ledger, state, g) + (if p.state == state && p.generation == g then [outcome] else [])
  {
    assert (ledger + [(p, outcome)])[..|ledger|] == ledger;
  }

  lemma {:induction false} NoOutcomes(ledger: Ledger, state: EndpointState, g: nat)
    requires forall i :: 0 <= i < |ledger| ==> ledger[i].0.state != state || ledger[i].0.generation != g
    ensures OutcomesFor(ledger, state, g) == []
  {
    if ledger != [] {
      NoOutcomes(ledger[..|ledger| - 1], state, g);
    }
  }

  /** One endpoint's fields: the counter is the trailing run of failures in `outcomes`, and
      an ejection is stored exactly in the odd generations. */
  ghost predicate Sound(until: Option<int>, generation: nat, failures: nat, threshold: int, outcomes: seq<Outcome>) {
    (until.Some? <==> generation % 2 == 1) && failures == TrailingFailures(outcomes) < threshold
  }

  /** The tracked keys with no ejection among `ejections`. */
  ghost function Standing(tracked: set<string>, ejections: map<string, int>): iset<string> {
    iset k | k in tracked && k !in ejections
  }

  class PassiveHealthTracker {
    var ordered: seq<Url>
    var stateByTarget: map<string, EndpointState>
    const failureThreshold: int
    const ejectionDuration: int
    ghost var states: set<EndpointState>    // every state object ever created
    ghost var issued: set<Permit>           // every permit ever handed out
    ghost var ledger: Ledger                // every outcome ever recorded
    ghost var ejections: map<string, int>   // the stored ejections of tracked keys

    ghost predicate Valid()
      reads this, states
    {
      Shaped() && Stamped() &&
      forall k :: k in stateByTarget ==> Tracks(k, stateByTarget[k], ledger)
    }

    ghost predicate Shaped()
      reads this
    {
      failureThreshold >= 1 && ejectionDuration >= 1 &&
      stateByTarget.Keys == Keys(ordered) && ejections.Keys <= stateByTarget.Keys &&
      forall k :: k in stateByTarget ==> stateByTarget[k] in states
    }

    ghost predicate Tracks(key: string, state: EndpointState, ledger: Ledger)
      reads this`ejections, state
    {
      state.target.key == key &&
      state.ejectionUntil == (if key in ejections then Some(ejections[key]) else None) &&
      Sound(state.ejectionUntil, state.generation, state.consecutiveFailures, failureThreshold,
            OutcomesFor(ledger, state, state.generation))
    }

    /** Permits name their object's key and carry an even generation that it has reached. */
    ghost predicate Stamped()
      reads this, states
    {
      (forall p :: p in issued ==> p.state in states && p.state.target.key == p.target) &&
      (forall p :: p in issued ==> p.generation % 2 == 0 && p.generation <= p.state.generation) &&
      (forall i :: 0 <= i < |ledger| ==> ledger[i].0 in issued)
    }

    /** The permit belongs to the object now tracked for its target, and is not stale. */
    ghost predicate Current(permit: Permit)
      reads this, permit.state
    {
      permit.target in stateByTarget && stateByTarget[permit.target] == permit.state &&
      permit.state.generation == permit.generation
    }

    constructor (endpoints: seq<Url>, failureThreshold: int, ejectionDuration: int)
      requires endpoints != [] && failureThreshold > 0 && ejectionDuration > 0
      ensures Valid() && ordered == endpoints && ejections == map[] && issued == {} && ledger == []
      ensures this.failureThreshold == failureThreshold && this.ejectionDuration == ejectionDuration
      ensures fresh(states)
    {
      this.failureThreshold := failureThreshold;
      this.ejectionDuration := ejectionDuration;
      ordered := [];
      stateByTarget := map[];
      states, issued, ledger, ejections := {}, {}, [], map[];
      new;
      var tracked, created := FreshStates(endpoints);
      states := created;
      ordered := endpoints;
      stateByTarget := tracked;
      hide Keys;
      assert forall k :: k in tracked ==> Tracks(k, tracked[k], []);
    }

    /** A tracker starts with some endpoint, a positive threshold and a positive duration. */
    static method New(endpoints: seq<Url>, failureThreshold: int, ejectionDuration: int)
      returns (tracker: PassiveHealthTracker?)
      ensures tracker != null <==> endpoints != [] && failureThreshold > 0 && ejectionDuration > 0
      ensures tracker != null ==> fresh(tracker) && tracker.Valid() && tracker.ordered == endpoints
      ensures tracker != null ==> tracker.ejections == map[] && tracker.issued == {} && tracker.ledger == []
      ensures tracker != null ==>
                tracker.failureThreshold == failureThreshold && tracker.ejectionDuration == ejectionDuration
    {
      if endpoints == [] || failureThreshold <= 0 || ejectionDuration <= 0 {
        return null;
      }
      tracker := new PassiveHealthTracker(endpoints, failureThreshold, ejectionDuration);
    }

    /** One new object for each key. */
    static method FreshStates(endpoints: seq<Url>)
      returns (tracked: map<string, EndpointState>, ghost created: set<EndpointState>)
      ensures tracked.Keys == Keys(endpoints) && fresh(created)
      ensures forall k :: k in tracked ==> tracked[k] in created && Fresh(tracked[k], k)
    {
      tracked, created := map[], {};
      for i := 0 to |endpoints|
        invariant tracked.Keys == Keys(endpoints[..i]) && fresh(created)
        invariant forall k :: k in tracked ==> tracked[k] in created && Fresh(tracked[k], k)
      {
        assert Keys(endpoints[..i + 1]) == Keys(endpoints[..i]) + {endpoints[i].key};
        if endpoints[i].key !in tracked {
          var state := new EndpointState(endpoints[i]);
          created := created + {state};
          tracked := tracked[endpoints[i].key := state];
        }
      }
      assert endpoints[..|endpoints|] == endpoints;
    }

    lemma OthersDiffer(key: string)
      requires Valid() && key in stateByTarget
      ensures forall k :: k in stateByTarget && k != key ==> stateByTarget[k] != stateByTarget[key]
    {
      forall k | k in stateByTarget && k != key ensures stateByTarget[k] != stateByTarget[key] {
        assert Tracks(k, stateByTarget[k], ledger) && Tracks(key, stateByTarget[key], ledger);
      }
    }

    /** No outcome is on record for a generation the object has yet to reach. */
    lemma NothingAhead(state: EndpointState, g: nat)
      requires Stamped() && (g > state.generation || g % 2 == 1 || state !in states)
      ensures OutcomesFor(ledger, state, g) == []
    {
      forall i | 0 <= i < |ledger| ensures ledger[i].0.state != state || ledger[i].0.generation != g {
        assert ledger[i].0 in issued;
      }
      NoOutcomes(ledger, state, g);
    }

    /** While an ejection is stored the counter is zero and every permit for the object is
        stale: whatever finishes in the meantime, the deadline stands. */
    lemma EjectedIsSettled(key: string)
      requires Valid() && key in ejections
      ensures stateByTarget[key].consecutiveFailures == 0
      ensures forall p :: p in issued && p.target == key ==> !Current(p)
    {
      var state := stateByTarget[key];
      assert Tracks(key, state, ledger);
      NothingAhead(state, state.generation);
    }

    /** A recorded outcome adds to the current generation of one endpoint, and only if the
        permit is current. */
    lemma LedgerGrows(permit: Permit, outcome: Outcome, k: string)
      requires Valid() && permit in issued && k in stateByTarget
      ensures var state := stateByTarget[k];
              OutcomesFor(ledger + [(permit, outcome)], state, state.generation) ==
              OutcomesFor(ledger, state, state.generation) +
              (if Current(permit) && permit.target == k then [outcome] else [])
    {
      var state := stateByTarget[k];
      assert Tracks(k, state, ledger);
      OutcomesAppend(ledger, permit, outcome, state, state.generation);
    }

    /** Every endpoint but `key` is accounted for. */
    ghost predicate ValidBut(key: string)
      reads this, states
    {
      Shaped() && Stamped() && key in stateByTarget && stateByTarget[key].target.key == key &&
      forall k :: k in stateByTarget && k != key ==>
                    Tracks(k, stateByTarget[k], ledger) && stateByTarget[k] != stateByTarget[key]
    }

    /** Settling one endpoint settles the tracker. */
    twostate lemma Settled(key: string)
      requires old(ValidBut(key)) && unchanged(this`stateByTarget, this`ordered, this`states, this`issued, this`ledger)
      requires forall state :: state in states && state != stateByTarget[key] ==> unchanged(state)
      requires stateByTarget[key].target.key == old(stateByTarget[key].target.key)
      requires stateByTarget[key].generation >= old(stateByTarget[key].generation)
      requires forall k :: k != key ==> (k in ejections <==> k in old(ejections))
      requires forall k :: k != key && k in ejections ==> ejections[k] == old(ejections)[k]
      requires key in ejections ==> key in stateByTarget
      requires Tracks(key, stateByTarget[key], ledger)
      ensures Valid()
    {
      hide Sound, OutcomesFor, Keys;
      forall k | k in stateByTarget && k != key ensures Tracks(k, stateByTarget[k], ledger) {
        assert stateByTarget[k] in states && unchanged(stateByTarget[k]);
        assert old(Tracks(k, stateByTarget[k], ledger));
      }
      forall p | p in issued
        ensures p.state in states && p.state.target.key == p.target && p.generation <= p.state.generation
      {
        assert p in old(issued) && p.state in states;
        assert p.state == stateByTarget[key] || unchanged(p.state);
      }
    }

    /** Drops the ejection of `key` and starts the object's next generation. */
    method Expire(key: string)
      requires Valid() && key in ejections
      modifies this`ejections, stateByTarget[key]
      ensures Valid() && ejections == old(ejections) - {key}
    {
      var state := stateByTarget[key];
      assert Tracks(key, state, ledger);
      OthersDiffer(key);
      NothingAhead(state, state.generation + 1);
      assert TrailingFailures([]) == 0;
      hide TrailingFailures, OutcomesFor, Keys;
      state.ejectionUntil := None;
      state.consecutiveFailures := 0;
      state.generation := state.generation + 1;
      ejections := ejections - {key};
      Settled(key);
    }

    /** The availability test; it clears an ejection whose deadline has come. */
    method EndpointAvailable(key: string, now: int) returns (available: bool)
      requires Valid() && key in stateByTarget
      modifies this`ejections, stateByTarget[key]
      ensures Valid()
      ensures available <==> !(key in old(ejections) && now < old(ejections)[key])
      ensures ejections == if available then old(ejections) - {key} else old(ejections)
    {
      var state := stateByTarget[key];
      assert Tracks(key, state, ledger);
      if state.ejectionUntil.None? {
        assert ejections - {key} == ejections;
        return true;
      }
      if now < state.ejectionUntil.value {
        return false;
      }
      Expire(key);
      return true;
    }

    /** Issues a permit unless the endpoint is unknown or its ejection still stands. */
    method AcquirePermit(target: Url, now: int) returns (permit: Option<Permit>)
      requires Valid()
      modifies this`ejections, this`issued, states
      ensures Valid() && stateByTarget == old(stateByTarget)
      ensures permit.None? <==>
              target.key !in stateByTarget || (target.key in old(ejections) && now < old(ejections)[target.key])
      ensures ejections == if permit.Some? then old(ejections) - {target.key} else old(ejections)
      ensures permit.Some? ==> permit.value.target == target.key && Current(permit.value)
      ensures issued == old(issued) + (if permit.Some? then {permit.value} else {})
    {
      hide TrailingFailures, OutcomesFor;
      var key := target.key;
      if key !in stateByTarget {
        return None;
      }
      var state := stateByTarget[key];
      var endpointAvailable := EndpointAvailable(key, now);
      if !endpointAvailable {
        return None;
      }
      assert Tracks(key, state, ledger);
      permit := Some(Permit(key, state, state.generation));
      issued := issued + {permit.value};
    }

    /** Only the permit's own state object can change, and only if the permit is current. */
    method RecordOutcome(permit: Permit, outcome: Outcome, now: int) returns (ejected: bool)
      requires Valid() && permit in issued
      modifies this`ejections, this`ledger, permit.state
      ensures Valid() && ledger == old(ledger) + [(permit, outcome)]
      ensures ejected <==>
              old(Current(permit)) && outcome == Failure &&
              TrailingFailures(OutcomesFor(ledger, permit.state, permit.generation)) == failureThreshold
      ensures ejected ==>
              permit.target !in old(ejections) && ejections == old(ejections)[permit.target := now + ejectionDuration]
      ensures !ejected ==> ejections == old(ejections)
      ensures !old(Current(permit)) ==> unchanged(permit.state)
    {
      LedgerGrowsEverywhere(permit, outcome);
      if Current(permit) {
        OthersDiffer(permit.target);
      }
      ghost var before := ledger;
      hide TrailingFailures, OutcomesFor, Sound, Keys;
      ledger := ledger + [(permit, outcome)];
      if permit.target !in stateByTarget {
        return false;
      }
      var state := stateByTarget[permit.target];
      if state.generation != permit.generation || state != permit.state {
        return false;
      }
      assert ledger[..|ledger| - 1] == before;
      ejected := Count(permit, outcome, now);
    }

    /** Counts the outcome just recorded with a current permit. */
    method Count(permit: Permit, outcome: Outcome, now: int) returns (ejected: bool)
      requires ValidBut(permit.target) && Current(permit) && permit in issued
      requires |ledger| > 0 && ledger[|ledger| - 1] == (permit, outcome)
      requires Tracks(permit.target, permit.state, ledger[..|ledger| - 1])
      modifies this`ejections, permit.state
      ensures Valid()
      ensures ejected <==>
              outcome == Failure &&
              TrailingFailures(OutcomesFor(ledger, permit.state, permit.generation)) == failureThreshold
      ensures ejected ==>
              permit.target !in old(ejections) && ejections == old(ejections)[permit.target := now + ejectionDuration]
      ensures !ejected ==> ejections == old(ejections)
    {
      var state := permit.state;
      EndOfRun(permit, outcome);
      hide TrailingFailures, OutcomesFor;
      match outcome {
        case Success =>
          state.consecutiveFailures := 0;
        case Failure =>
          state.consecutiveFailures := state.consecutiveFailures + 1;
          if state.consecutiveFailures >= failureThreshold {
            Eject(permit, now);
            return true;
          }
        case Ignored =>
      }
      Settled(permit.target);
      return false;
    }

    /** Stores the ejection and starts the object's next generation. */
    method Eject(permit: Permit, now: int)
      requires ValidBut(permit.target) && Current(permit) && permit.target !in ejections
      requires permit.state.generation % 2 == 0
      requires TrailingFailures(OutcomesFor(ledger, permit.state, permit.generation + 1)) == 0
      modifies this`ejections, permit.state
      ensures Valid() && ejections == old(ejections)[permit.target := now + ejectionDuration]
    {
      hide TrailingFailures, OutcomesFor, Keys;
      var state := permit.state;
      state.ejectionUntil := Some(now + ejectionDuration);
      state.consecutiveFailures := 0;
      state.generation := state.generation + 1;
      ejections := ejections[permit.target := now + ejectionDuration];
      Settled(permit.target);
    }

    /** Just after a current permit's outcome has gone on the ledger: the run it continues or
        ends, and the empty run that an ejection would start with. */
    lemma EndOfRun(permit: Permit, outcome: Outcome)
      requires Stamped() && Current(permit) && permit in issued
      requires |ledger| > 0 && ledger[|ledger| - 1] == (permit, outcome)
      requires Tracks(permit.target, permit.state, ledger[..|ledger| - 1])
      ensures var failures := permit.state.consecutiveFailures;
              TrailingFailures(OutcomesFor(ledger, permit.state, permit.generation)) ==
              match outcome case Success => 0 case Ignored => failures case Failure => failures + 1
      ensures TrailingFailures(OutcomesFor(ledger, permit.state, permit.generation + 1)) == 0
    {
      var before := ledger[..|ledger| - 1];
      assert ledger == before + [(permit, outcome)];
      OutcomesAppend(before, permit, outcome, permit.state, permit.generation);
      TrailingAppend(OutcomesFor(before, permit.state, permit.generation), outcome);
      NothingAhead(permit.state, permit.generation + 1);
    }

    lemma LedgerGrowsEverywhere(permit: Permit, outcome: Outcome)
      requires Valid() && permit in issued
      ensures forall k :: k in stateByTarget && !(Current(permit) && permit.target == k) ==>
                            Tracks(k, stateByTarget[k], ledger + [(permit, outcome)])
    {
      forall k | k in stateByTarget && !(Current(permit) && permit.target == k)
        ensures Tracks(k, stateByTarget[k], ledger + [(permit, outcome)])
      {
        LedgerGrows(permit, outcome, k);
        assert Tracks(k, stateByTarget[k], ledger);
      }
    }

    /** The endpoints with no standing ejection, in order; expired ejections are cleared. */
    method HealthyEndpoints(now: int) returns (healthy: seq<Url>)
      requires Valid()
      modifies this`ejections, states
      ensures Valid() && stateByTarget == old(stateByTarget)
      ensures ejections == Unexpired(old(ejections), now)
      ensures healthy == KeepKeys(ordered, Standing(stateByTarget.Keys, ejections))
    {
      hide Sound, OutcomesFor, Keys, KeepKeys, Stamped, Tracks, Unexpired;
      ghost var stored := ejections;
      ghost var allowed := Standing(stateByTarget.Keys, Unexpired(stored, now));
      healthy := [];
      NothingSwept(stored, now);
      for i := 0 to |ordered|
        invariant Valid() && stateByTarget == old(stateByTarget)
        invariant SweptTo(stored, now, Keys(ordered[..i]))
        invariant healthy == KeepKeys(ordered[..i], allowed)
      {
        SweepOne(i, allowed);
        var endpointAvailable := Visit(ordered[i].key, now, stored, Keys(ordered[..i]));
        if endpointAvailable {
          healthy := healthy + [ordered[i]];
        }
      }
      assert ordered[..|ordered|] == ordered;
      AllSwept(stored, now);
    }

    /** One iteration of the read. */
    method Visit(key: string, now: int, ghost stored: map<string, int>, ghost visited: set<string>)
      returns (endpointAvailable: bool)
      requires Valid() && key in stateByTarget && SweptTo(stored, now, visited)
      modifies this`ejections, stateByTarget[key]
      ensures Valid() && SweptTo(stored, now, visited + {key})
      ensures endpointAvailable <==> key !in Unexpired(stored, now)
    {
      hide Sound, OutcomesFor, Keys, Stamped, Shaped;
      endpointAvailable := EndpointAvailable(key, now);
    }

    lemma NothingSwept(stored: map<string, int>, now: int)
      requires stored == ejections
      ensures SweptTo(stored, now, Keys(ordered[..0])) && KeepKeys(ordered[..0], iset{}) == []
      ensures forall allowed: iset<string> :: KeepKeys(ordered[..0], allowed) == []
    {
    }

    lemma SweepOne(i: nat, allowed: iset<string>)
      requires stateByTarget.Keys == Keys(ordered) && i < |ordered|
      ensures ordered[i].key in stateByTarget
      ensures Keys(ordered[..i + 1]) == Keys(ordered[..i]) + {ordered[i].key}
      ensures KeepKeys(ordered[..i + 1], allowed) ==
              KeepKeys(ordered[..i], allowed) + (if ordered[i].key in allowed then [ordered[i]] else [])
    {
      assert ordered[..i + 1] == ordered[..i] + [ordered[i]];
      hide KeepKeys;
      KeepKeysAppend(ordered[..i], ordered[i], allowed);
    }

    lemma AllSwept(stored: map<string, int>, now: int)
      requires Shaped() && SweptTo(stored, now, Keys(ordered)) && stored.Keys <= stateByTarget.Keys
      ensures ejections == Unexpired(stored, now)
    {
    }

    /** Of the ejections `stored`, exactly the expired ones of `keys` are gone. */
    ghost predicate SweptTo(stored: map<string, int>, now: int, keys: set<string>)
      reads this
    {
      (forall k :: k in ejections <==> k in stored && !(k in keys && now >= stored[k])) &&
      (forall k :: k in ejections ==> ejections[k] == stored[k])
    }

    /** The time until the earliest stored deadline, whatever order the map is walked in. */
    method NextRecoveryDelay(now: int) returns (delay: int, pending: bool)
      requires Valid()
      ensures pending <==> ejections != map[]
      ensures pending ==>
        exists k :: k in ejections && delay == Max(0, ejections[k] - now) &&
                    forall j :: j in ejections ==> ejections[k] <= ejections[j]
    {
      var earliest: Option<int> := None;
      var unvisited := stateByTarget.Keys;
      while unvisited != {}
        invariant unvisited <= stateByTarget.Keys
        invariant earliest.None? ==> forall k :: k in ejections ==> k in unvisited
        invariant earliest.Some? ==> exists k :: k in ejections && ejections[k] == earliest.value
        invariant earliest.Some? ==> forall j :: j in ejections && j !in unvisited ==> earliest.value <= ejections[j]
        decreases unvisited
      {
        var key :| key in unvisited;
        unvisited := unvisited - {key};
        var state := stateByTarget[key];
        assert Tracks(key, state, ledger);
        if state.ejectionUntil.Some? {
          if earliest.None? || state.ejectionUntil.value < earliest.value {
            earliest := state.ejectionUntil;
          }
        }
      }
      if earliest.None? {
        return 0, false;
      }
      delay := earliest.value - now;
      if delay < 0 {
        delay := 0;
      }
      return delay, true;
    }

    /** Retained endpoints keep their object; any other endpoint gets a new one, for which no
        permit has been issued and nothing is on the ledger. */
    method Replace(endpoints: seq<Url>)
      requires Valid()
      modifies this`ordered, this`stateByTarget, this`states, this`ejections, states`target
      ensures Valid() && ordered == endpoints
      ensures ejections == OnlyKeys(old(ejections), Keys(endpoints))
      ensures forall k :: k in stateByTarget && k in old(stateByTarget) ==> stateByTarget[k] == old(stateByTarget)[k]
      ensures forall k :: k in stateByTarget && k !in old(stateByTarget) ==> fresh(stateByTarget[k])
      ensures fresh(states - old(states))
      ensures forall p :: p in issued && p.target !in old(stateByTarget) ==> !Current(p)
    {
      var snapshot, created := Snapshot(endpoints);
      SnapshotTracked(snapshot);
      hide Tracks, Keys;
      Publish(endpoints, snapshot, created);
    }

    /** The assignments at the end of `Replace`. */
    method Publish(endpoints: seq<Url>, snapshot: map<string, EndpointState>, ghost created: set<EndpointState>)
      requires Shaped() && Stamped() && snapshot.Keys == Keys(endpoints)
      requires forall k :: k in snapshot ==> snapshot[k] in states + created && Tracks(k, snapshot[k], ledger)
      modifies this`ordered, this`stateByTarget, this`states, this`ejections
      ensures Valid() && ordered == endpoints && stateByTarget == snapshot
      ensures states == old(states) + created && ejections == OnlyKeys(old(ejections), Keys(endpoints))
    {
      hide Sound, OutcomesFor, Keys;
      ejections := OnlyKeys(ejections, Keys(endpoints));
      states := states + created;
      ordered := endpoints;
      stateByTarget := snapshot;
      forall k | k in snapshot ensures Tracks(k, snapshot[k], ledger) {
        assert old(Tracks(k, snapshot[k], ledger));
      }
    }

    lemma SnapshotTracked(snapshot: map<string, EndpointState>)
      requires Valid()
      requires forall k :: k in snapshot && k in stateByTarget ==> snapshot[k] == stateByTarget[k]
      requires forall k :: k in snapshot && k !in stateByTarget ==> snapshot[k] !in states && Fresh(snapshot[k], k)
      ensures forall k :: k in snapshot ==> Tracks(k, snapshot[k], ledger)
    {
      forall k | k in snapshot ensures Tracks(k, snapshot[k], ledger) {
        if k !in stateByTarget {
          NothingAhead(snapshot[k], 0);
        }
      }
    }

    static ghost predicate Fresh(state: EndpointState, key: string)
      reads state
    {
      state.target.key == key && state.consecutiveFailures == 0 &&
      state.ejectionUntil == None && state.generation == 0
    }

    method Snapshot(endpoints: seq<Url>)
      returns (snapshot: map<string, EndpointState>, ghost created: set<EndpointState>)
      requires Valid()
      modifies states`target
      ensures Valid() && snapshot.Keys == Keys(endpoints) && fresh(created)
      ensures forall k :: k in snapshot && k in stateByTarget ==> snapshot[k] == stateByTarget[k]
      ensures forall k :: k in snapshot && k !in stateByTarget ==> snapshot[k] in created && Fresh(snapshot[k], k)
    {
      hide Sound, OutcomesFor, Keys;
      snapshot, created := map[], {};
      NoKeys();
      for i := 0 to |endpoints|
        invariant Valid() && snapshot.Keys == Keys(endpoints[..i]) && fresh(created)
        invariant forall k :: k in snapshot && k in stateByTarget ==> snapshot[k] == stateByTarget[k]
        invariant forall k :: k in snapshot && k !in stateByTarget ==> snapshot[k] in created && Fresh(snapshot[k], k)
      {
        KeysTake(endpoints, i);
        var state := Keep(endpoints[i]);
        created := if endpoints[i].key in stateByTarget then created else created + {state};
        snapshot := snapshot[endpoints[i].key := state];
      }
      assert endpoints[..|endpoints|] == endpoints;
    }

    method Keep(endpoint: Url) returns (state: EndpointState)
      requires Valid()
      modifies states`target
      ensures Valid() && state.target == endpoint
      ensures if endpoint.key in stateByTarget then state == stateByTarget[endpoint.key]
              else fresh(state) && Fresh(state, endpoint.key)
    {
      hide Sound, OutcomesFor;
      if endpoint.key in stateByTarget {
        state := stateByTarget[endpoint.key];
        OthersDiffer(endpoint.key);
        assert Tracks(endpoint.key, state, ledger);
        state.target := endpoint;
        Settled(endpoint.key);
      } else {
        state := new EndpointState(endpoint);
      }
    }
  }
}
