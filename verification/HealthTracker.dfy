/**
  Active health (internal/upstream/health.go and health_tracker.go).

  An endpoint's health is a hysteresis over its probe outcomes. The counters that
  implement it are proved to agree with `Hysteresis`, which mentions no counter and
  only looks at the outcomes recorded so far. The tracker as a whole is then the map
  from tracked keys to outcome histories, and survives any sequence of `Replace`.
 */
module HealthTracker {
  import opened Common

  // ----- The specification: health as a property of the outcome history -----

  /** The `n` outcomes before position `i` are all `outcome`. */
  predicate RunEndsAt(history: seq<bool>, i: int, outcome: bool, n: int) {
    n <= i <= |history| && forall l :: i - n <= l < i && l >= 0 ==> history[l] == outcome
  }

  /** Every run of `failures` failures has been followed by a run of `successes` successes. */
  ghost predicate Hysteresis(history: seq<bool>, successes: int, failures: int) {
    forall i :: 0 <= i <= |history| && RunEndsAt(history, i, false, failures) ==>
      exists j :: i < j <= |history| && RunEndsAt(history, j, true, successes)
  }

  function Trailing(history: seq<bool>, outcome: bool): (n: nat)
    ensures n <= |history|
  {
    if history == [] || history[|history| - 1] != outcome then 0
    else Trailing(history[..|history| - 1], outcome) + 1
  }

  lemma {:induction false} TrailingIsRun(history: seq<bool>, outcome: bool, n: int)
    requires n >= 1
    ensures RunEndsAt(history, |history|, outcome, n) <==> Trailing(history, outcome) >= n
  {
    if history != [] && history[|history| - 1] == outcome {
      var front := history[..|history| - 1];
      if n > 1 {
        TrailingIsRun(front, outcome, n - 1);
        assert forall l :: 0 <= l < |front| ==> front[l] == history[l];
      }
    }
  }

  lemma TrailingAppend(history: seq<bool>, b: bool, outcome: bool)
    ensures Trailing(history + [b], outcome) == if b == outcome then Trailing(history, outcome) + 1 else 0
  {
    assert (history + [b])[..|history|] == history;
  }

  lemma RunAppend(history: seq<bool>, b: bool, i: int, outcome: bool, n: int)
    requires i <= |history|
    ensures RunEndsAt(history + [b], i, outcome, n) <==> RunEndsAt(history, i, outcome, n)
  {
    assert forall l :: 0 <= l < |history| ==> (history + [b])[l] == history[l];
  }

  /** One more outcome flips health only by completing a run of the other kind. */
  lemma HysteresisAppend(history: seq<bool>, b: bool, successes: int, failures: int)
    requires successes >= 1 && failures >= 1
    ensures Hysteresis(history + [b], successes, failures) ==
            if b then Hysteresis(history, successes, failures) || Trailing(history, true) + 1 >= successes
            else Hysteresis(history, successes, failures) && Trailing(history, false) + 1 < failures
  {
    var h := history + [b];
    TrailingIsRun(h, true, successes);
    TrailingIsRun(h, false, failures);
    TrailingAppend(history, b, true);
    TrailingAppend(history, b, false);
    forall i, outcome, n | i <= |history|
      ensures RunEndsAt(h, i, outcome, n) <==> RunEndsAt(history, i, outcome, n)
    {
      RunAppend(history, b, i, outcome, n);
    }
  }

  // ----- One endpoint -----

  datatype Counters = Counters(healthy: bool, successes: int, failures: int)

  /** The two record operations on the counters. */
  function Recorded(c: Counters, success: bool, successes: int, failures: int): Counters {
    if success then
      if c.healthy then c.(failures := 0)
      else if c.successes + 1 >= successes then Counters(true, 0, 0)
      else Counters(false, c.successes + 1, 0)
    else
      if !c.healthy then c.(successes := 0)
      else if c.failures + 1 >= failures then Counters(false, 0, 0)
      else Counters(true, 0, c.failures + 1)
  }

  /** The counters implement the hysteresis of `history`. */
  ghost predicate Implements(c: Counters, history: seq<bool>, successes: int, failures: int) {
    successes >= 1 && failures >= 1 &&
    c.healthy == Hysteresis(history, successes, failures) &&
    (if c.healthy then c.successes == 0 && c.failures == Trailing(history, false) < failures
     else c.failures == 0 && c.successes == Trailing(history, true) < successes)
  }

  /** A history-only view of health survives every recorded outcome. */
  lemma RecordedImplements(c: Counters, history: seq<bool>, success: bool, successes: int, failures: int)
    requires Implements(c, history, successes, failures)
    ensures Implements(Recorded(c, success, successes, failures), history + [success], successes, failures)
  {
    HysteresisAppend(history, success, successes, failures);
    TrailingAppend(history, success, true);
    TrailingAppend(history, success, false);
  }

  class EndpointHealth {
    var target: Url
    var healthy: bool
    var consecutiveSuccesses: int
    const successThreshold: int
    var consecutiveFailures: int
    const failureThreshold: int
    ghost var history: seq<bool>    // every outcome recorded, true for success
    ghost var reports: seq<bool>    // every state change reported, true for healthy

    ghost function View(): Counters
      reads `healthy, `consecutiveSuccesses, `consecutiveFailures
    {
      Counters(healthy, consecutiveSuccesses, consecutiveFailures)
    }

    ghost predicate Valid()
      reads `healthy, `consecutiveSuccesses, `consecutiveFailures, `history, `reports
    {
      Implements(View(), history, successThreshold, failureThreshold) &&
      (forall i :: 0 <= i < |reports| ==> reports[i] == (i % 2 == 1)) &&
      healthy == (|reports| % 2 == 0)
    }

    constructor (target: Url, successThreshold: int, failureThreshold: int)
      requires successThreshold > 0 && failureThreshold > 0
      ensures Valid() && this.target == target && healthy && history == [] && reports == []
      ensures this.successThreshold == successThreshold && this.failureThreshold == failureThreshold
    {
      this.target := target;
      this.successThreshold := successThreshold;
      this.failureThreshold := failureThreshold;
      healthy := true;
      consecutiveSuccesses := 0;
      consecutiveFailures := 0;
      history := [];
      reports := [];
    }

    method RecordSuccess() returns (changed: bool)
      requires Valid()
      modifies this`healthy, this`consecutiveSuccesses, this`consecutiveFailures, this`history, this`reports
      ensures Valid() && history == old(history) + [true]
      ensures changed <==> healthy != old(healthy)
      ensures reports == old(reports) + (if changed then [healthy] else [])
    {
      RecordedImplements(View(), history, true, successThreshold, failureThreshold);
      history := history + [true];
      consecutiveFailures := 0;
      if healthy {
        return false;
      }
      consecutiveSuccesses := consecutiveSuccesses + 1;
      if consecutiveSuccesses >= successThreshold {
        healthy := true;
        consecutiveSuccesses := 0;
        reports := reports + [true];
        return true;
      }
      return false;
    }

    method RecordFailure() returns (changed: bool)
      requires Valid()
      modifies this`healthy, this`consecutiveSuccesses, this`consecutiveFailures, this`history, this`reports
      ensures Valid() && history == old(history) + [false]
      ensures changed <==> healthy != old(healthy)
      ensures reports == old(reports) + (if changed then [healthy] else [])
    {
      RecordedImplements(View(), history, false, successThreshold, failureThreshold);
      history := history + [false];
      consecutiveSuccesses := 0;
      if !healthy {
        return false;
      }
      consecutiveFailures := consecutiveFailures + 1;
      if consecutiveFailures >= failureThreshold {
        healthy := false;
        consecutiveFailures := 0;
        reports := reports + [false];
        return true;
      }
      return false;
    }
  }

  // ----- The tracker -----

  type Histories = map<string, seq<bool>>

  function AfterRecord(h: Histories, key: string, success: bool): Histories {
    if key in h then h[key := h[key] + [success]] else h
  }

  function AfterReplace(h: Histories, endpoints: seq<Url>): (h': Histories)
    ensures h'.Keys == Keys(endpoints)
    ensures forall k :: k in h' ==> h'[k] == if k in h then h[k] else []
  {
    map k | k in Keys(endpoints) :: if k in h then h[k] else []
  }

  ghost function HealthyKeys(h: Histories, successes: int, failures: int): iset<string> {
    iset k | k in h && Hysteresis(h[k], successes, failures)
  }

  /** The operations that change a tracker. */
  datatype Op = RecordOf(key: string, success: bool) | ReplaceWith(endpoints: seq<Url>)

  function KnownAfter(h: Histories, ops: seq<Op>): Histories {
    if ops == [] then h
    else
      var before := KnownAfter(h, ops[..|ops| - 1]);
      match ops[|ops| - 1]
      case RecordOf(key, success) => AfterRecord(before, key, success)
      case ReplaceWith(endpoints) => AfterReplace(before, endpoints)
  }

  /** The outcomes that `ops` record for `key`. */
  function OutcomesOf(ops: seq<Op>, key: string): seq<bool> {
    if ops == [] then []
    else
      var earlier := OutcomesOf(ops[..|ops| - 1], key);
      var op := ops[|ops| - 1];
      if op.RecordOf? && op.key == key then earlier + [op.success] else earlier
  }

  /** An endpoint that every Replace keeps is judged by all its outcomes, whatever else the
      lists contain; one that some Replace drops starts afresh when it comes back. */
  lemma {:induction false} KeptHistory(h: Histories, ops: seq<Op>, key: string)
    requires key in h
    requires forall i :: 0 <= i < |ops| && ops[i].ReplaceWith? ==> key in Keys(ops[i].endpoints)
    ensures key in KnownAfter(h, ops) && KnownAfter(h, ops)[key] == h[key] + OutcomesOf(ops, key)
  {
    hide Keys;
    if ops != [] {
      KeptHistory(h, ops[..|ops| - 1], key);
    }
  }

  lemma DroppedHistory(h: Histories, ops: seq<Op>, without: seq<Url>, back: seq<Url>, key: string)
    requires key !in Keys(without) && key in Keys(back)
    ensures KnownAfter(h, ops + [ReplaceWith(without), ReplaceWith(back)])[key] == []
  {
    var all := ops + [ReplaceWith(without), ReplaceWith(back)];
    assert all[..|all| - 1] == ops + [ReplaceWith(without)];
    assert (ops + [ReplaceWith(without)])[..|ops|] == ops;
  }

  /** The first endpoint of each key, in order. */
  function FirstOfEachKey(endpoints: seq<Url>): (firsts: seq<Url>)
    ensures Keys(firsts) == Keys(endpoints)
    ensures forall i, j :: 0 <= i < j < |firsts| ==> firsts[i].key != firsts[j].key
  {
    if endpoints == [] then []
    else
      var front := FirstOfEachKey(endpoints[..|endpoints| - 1]);
      var last := endpoints[|endpoints| - 1];
      assert endpoints == endpoints[..|endpoints| - 1] + [last];
      if last.key in Keys(front) then front else front + [last]
  }

  lemma NoneFirst()
    ensures FirstOfEachKey([]) == []
  {
  }

  lemma FirstsTake(endpoints: seq<Url>, i: nat)
    requires i < |endpoints|
    ensures var firsts := FirstOfEachKey(endpoints[..i]);
            FirstOfEachKey(endpoints[..i + 1]) ==
            if endpoints[i].key in Keys(firsts) then firsts else firsts + [endpoints[i]]
  {
    hide Keys;
    assert endpoints[..i + 1][..i] == endpoints[..i];
  }

  /** `firsts` stand at rising `positions` of `endpoints`, each the first with its key. */
  predicate FirstPositions(endpoints: seq<Url>, firsts: seq<Url>, positions: seq<nat>) {
    |positions| == |firsts| &&
    (forall i, j :: 0 <= i < j < |positions| ==> positions[i] < positions[j]) &&
    forall i :: 0 <= i < |positions| ==> FirstAt(endpoints, firsts[i], positions[i])
  }

  predicate FirstAt(endpoints: seq<Url>, first: Url, position: nat) {
    position < |endpoints| && endpoints[position] == first &&
    forall k :: 0 <= k < position ==> endpoints[k].key != first.key
  }

  /** The distinct endpoints come in the order of their first occurrences. */
  lemma {:induction false} FirstsInOrder(endpoints: seq<Url>) returns (positions: seq<nat>)
    ensures FirstPositions(endpoints, FirstOfEachKey(endpoints), positions)
  {
    hide FirstPositions, Keys;
    if endpoints == [] {
      positions := [];
      NoFirsts();
    } else {
      var front, last := endpoints[..|endpoints| - 1], endpoints[|endpoints| - 1];
      positions := FirstsInOrder(front);
      positions := FirstsStep(front, last, FirstOfEachKey(front), positions);
      assert front + [last] == endpoints;
    }
  }

  lemma NoFirsts()
    ensures FirstPositions([], [], [])
  {
  }

  lemma FirstsStep(endpoints: seq<Url>, last: Url, firsts: seq<Url>, before: seq<nat>) returns (positions: seq<nat>)
    requires FirstPositions(endpoints, firsts, before) && Keys(firsts) == Keys(endpoints)
    ensures FirstPositions(endpoints + [last], if last.key in Keys(firsts) then firsts else firsts + [last], positions)
  {
    hide FirstAt, Keys;
    positions := before;
    forall i | 0 <= i < |before|
      ensures FirstAt(endpoints + [last], firsts[i], before[i]) && before[i] < |endpoints|
    {
      FirstAtGrows(endpoints, last, firsts[i], before[i]);
    }
    if last.key !in Keys(firsts) {
      NewFirst(endpoints, last);
      positions := positions + [|endpoints|];
    }
  }

  lemma FirstAtGrows(endpoints: seq<Url>, last: Url, first: Url, position: nat)
    requires FirstAt(endpoints, first, position)
    ensures FirstAt(endpoints + [last], first, position) && position < |endpoints|
  {
  }

  lemma NewFirst(endpoints: seq<Url>, last: Url)
    requires last.key !in Keys(endpoints)
    ensures FirstAt(endpoints + [last], last, |endpoints|)
  {
    forall k | 0 <= k < |endpoints| ensures endpoints[k].key != last.key {
      assert endpoints[k] in endpoints;
    }
  }

  class HealthTracker {
    var healthByTarget: map<string, EndpointHealth>
    var order: seq<Url>
    const successThreshold: int
    const failureThreshold: int
    ghost var known: Histories  // the outcomes recorded for each key since it was added
    ghost var states: set<EndpointHealth>  // the objects ever stored in healthByTarget

    ghost predicate Valid()
      reads this, states
    {
      successThreshold >= 1 && failureThreshold >= 1 &&
      healthByTarget.Keys == known.Keys == Keys(order) &&
      forall k :: k in healthByTarget ==> healthByTarget[k] in states && Tracks(healthByTarget[k], k, known[k])
    }

    /** `state` is the health of the endpoint `key` after the outcomes `history`. */
    ghost predicate Tracks(state: EndpointHealth, key: string, history: seq<bool>)
      reads state
    {
      state.Valid() && state.target.key == key && state.history == history &&
      state.successThreshold == successThreshold && state.failureThreshold == failureThreshold
    }

    /** The keys whose history the thresholds call healthy. */
    ghost function Healthy(): iset<string>
      reads this
    {
      HealthyKeys(known, successThreshold, failureThreshold)
    }

    constructor (endpoints: seq<Url>, successThreshold: int, failureThreshold: int)
      requires endpoints != [] && successThreshold > 0 && failureThreshold > 0
      ensures Valid() && order == endpoints && known == AfterReplace(map[], endpoints)
      ensures this.successThreshold == successThreshold && this.failureThreshold == failureThreshold
      ensures fresh(states)
    {
      this.successThreshold := successThreshold;
      this.failureThreshold := failureThreshold;
      new;
      var tracked: map<string, EndpointHealth> := map[];
      ghost var created: set<EndpointHealth> := {};
      for i := 0 to |endpoints|
        invariant tracked.Keys == Keys(endpoints[..i]) && fresh(created)
        invariant forall k :: k in tracked ==> tracked[k] in created && Tracks(tracked[k], k, [])
      {
        assert Keys(endpoints[..i + 1]) == Keys(endpoints[..i]) + {endpoints[i].key};
        if endpoints[i].key !in tracked {
          var health := new EndpointHealth(endpoints[i], successThreshold, failureThreshold);
          tracked := tracked[endpoints[i].key := health];
          created := created + {health};
        }
      }
      assert endpoints[..|endpoints|] == endpoints;
      healthByTarget := tracked;
      order := endpoints;
      known := AfterReplace(map[], endpoints);
      states := created;
    }

    /** A tracker starts with some endpoint and with thresholds of at least one. */
    static method New(endpoints: seq<Url>, successThreshold: int, failureThreshold: int)
      returns (tracker: HealthTracker?)
      ensures tracker != null <==> endpoints != [] && successThreshold > 0 && failureThreshold > 0
      ensures tracker != null ==> fresh(tracker) && tracker.Valid() && tracker.order == endpoints
      ensures tracker != null ==> tracker.known == AfterReplace(map[], endpoints)
      ensures tracker != null ==>
                tracker.successThreshold == successThreshold && tracker.failureThreshold == failureThreshold
    {
      if endpoints == [] || successThreshold <= 0 || failureThreshold <= 0 {
        return null;
      }
      tracker := new HealthTracker(endpoints, successThreshold, failureThreshold);
    }

    lemma FlagIsHealth(key: string)
      requires Valid() && key in healthByTarget
      ensures key in Healthy() <==> healthByTarget[key].healthy
    {
      assert Tracks(healthByTarget[key], key, known[key]);
    }

    lemma OthersDiffer(key: string)
      requires Valid() && key in healthByTarget
      ensures forall k :: k in healthByTarget && k != key ==> healthByTarget[k] != healthByTarget[key]
    {
      forall k | k in healthByTarget && k != key ensures healthByTarget[k] != healthByTarget[key] {
        assert Tracks(healthByTarget[k], k, known[k]) && Tracks(healthByTarget[key], key, known[key]);
      }
    }

    method RecordSuccess(target: Url) returns (changed: bool, tracked: bool)
      requires Valid()
      modifies this`known, states
      ensures Valid() && tracked == (target.key in healthByTarget)
      ensures known == AfterRecord(old(known), target.key, true)
      ensures changed <==> (target.key in Healthy()) != (target.key in old(Healthy()))
    {
      hide Hysteresis, Implements, Keys;
      if target.key !in healthByTarget {
        return false, false;
      }
      var state := healthByTarget[target.key];
      FlagIsHealth(target.key);
      OthersDiffer(target.key);
      changed := state.RecordSuccess();
      known := AfterRecord(known, target.key, true);
      assert Valid();
      FlagIsHealth(target.key);
      return changed, true;
    }

    method RecordFailure(target: Url) returns (changed: bool, tracked: bool)
      requires Valid()
      modifies this`known, states
      ensures Valid() && tracked == (target.key in healthByTarget)
      ensures known == AfterRecord(old(known), target.key, false)
      ensures changed <==> (target.key in Healthy()) != (target.key in old(Healthy()))
    {
      hide Hysteresis, Implements, Keys;
      if target.key !in healthByTarget {
        return false, false;
      }
      var state := healthByTarget[target.key];
      FlagIsHealth(target.key);
      OthersDiffer(target.key);
      changed := state.RecordFailure();
      known := AfterRecord(known, target.key, false);
      assert Valid();
      FlagIsHealth(target.key);
      return changed, true;
    }

    /** No lookup misses: every listed key is tracked. */
    method HealthyEndpoints() returns (healthy: seq<Url>)
      requires Valid()
      ensures healthy == KeepKeys(order, Healthy())
    {
      healthy := [];
      for i := 0 to |order|
        invariant healthy == KeepKeys(order[..i], Healthy())
      {
        assert order[..i + 1] == order[..i] + [order[i]];
        KeepKeysAppend(order[..i], order[i], Healthy());
        assert order[i].key in healthByTarget;
        FlagIsHealth(order[i].key);
        var state := healthByTarget[order[i].key];
        if state.healthy {
          healthy := healthy + [order[i]];
        }
      }
      assert order[..|order|] == order;
    }

    /** Retained keys keep their whole history, new keys start with none. */
    method Replace(endpoints: seq<Url>)
      requires Valid()
      modifies this`healthByTarget, this`order, this`known, this`states, states`target
      ensures Valid() && order == endpoints
      ensures known == AfterReplace(old(known), endpoints)
      ensures fresh(states - old(states))
    {
      var snapshot, created := Snapshot(endpoints);
      SnapshotTracked(snapshot, endpoints);
      hide AfterReplace, Keys, Tracks;
      Publish(endpoints, snapshot, created);
    }

    lemma SnapshotTracked(snapshot: map<string, EndpointHealth>, endpoints: seq<Url>)
      requires Valid() && snapshot.Keys == Keys(endpoints)
      requires forall k :: k in snapshot && k in healthByTarget ==> snapshot[k] == healthByTarget[k]
      requires forall k :: k in snapshot && k !in healthByTarget ==> Tracks(snapshot[k], k, [])
      ensures forall k :: k in snapshot ==> Tracks(snapshot[k], k, AfterReplace(known, endpoints)[k])
    {
      hide Keys, EndpointHealth.Valid;
    }

    /** The assignments at the end of `Replace`. */
    method Publish(endpoints: seq<Url>, snapshot: map<string, EndpointHealth>, ghost created: set<EndpointHealth>)
      requires successThreshold >= 1 && failureThreshold >= 1 && snapshot.Keys == Keys(endpoints)
      requires forall k :: k in snapshot ==> snapshot[k] in states + created
      requires forall k :: k in snapshot ==> Tracks(snapshot[k], k, AfterReplace(known, endpoints)[k])
      modifies this`healthByTarget, this`order, this`known, this`states
      ensures Valid() && order == endpoints && states == old(states) + created
      ensures known == AfterReplace(old(known), endpoints)
    {
      hide Keys, Tracks;
      known := AfterReplace(known, endpoints);
      healthByTarget := snapshot;
      states := states + created;
      order := endpoints;
    }

    /** The states `Replace` publishes: the tracked ones where there are any, else new ones. */
    method Snapshot(endpoints: seq<Url>)
      returns (snapshot: map<string, EndpointHealth>, ghost created: set<EndpointHealth>)
      requires Valid()
      modifies states`target
      ensures Valid() && snapshot.Keys == Keys(endpoints) && fresh(created)
      ensures forall k :: k in snapshot && k in healthByTarget ==> snapshot[k] == healthByTarget[k]
      ensures forall k :: k in snapshot && k !in healthByTarget ==> snapshot[k] in created && Tracks(snapshot[k], k, [])
    {
      hide EndpointHealth.Valid, Keys;
      snapshot, created := map[], {};
      NoKeys();
      for i := 0 to |endpoints|
        invariant Valid() && snapshot.Keys == Keys(endpoints[..i]) && fresh(created)
        invariant forall k :: k in snapshot && k in healthByTarget ==> snapshot[k] == healthByTarget[k]
        invariant forall k :: k in snapshot && k !in healthByTarget ==>
                                snapshot[k] in created && Tracks(snapshot[k], k, [])
      {
        KeysTake(endpoints, i);
        var state := Keep(endpoints[i]);
        created := if endpoints[i].key in healthByTarget then created else created + {state};
        snapshot := snapshot[endpoints[i].key := state];
      }
      assert endpoints[..|endpoints|] == endpoints;
    }

    method Keep(endpoint: Url) returns (state: EndpointHealth)
      requires Valid()
      modifies states`target
      ensures Valid() && state.target == endpoint
      ensures if endpoint.key in healthByTarget then state == healthByTarget[endpoint.key]
              else fresh(state) && Tracks(state, endpoint.key, [])
    {
      if endpoint.key in healthByTarget {
        state := healthByTarget[endpoint.key];
        OthersDiffer(endpoint.key);
        state.target := endpoint;
      } else {
        state := new EndpointHealth(endpoint, successThreshold, failureThreshold);
      }
    }

    method Targets() returns (distinct: seq<Url>)
      ensures distinct == FirstOfEachKey(order)
      ensures exists positions :: FirstPositions(order, distinct, positions)
      ensures Keys(distinct) == Keys(order)
    {
      hide FirstPositions, FirstOfEachKey, Keys;
      ghost var positions := FirstsInOrder(order);
      NoKeys();
      assert FirstOfEachKey([]) == [] by { NoneFirst(); }
      distinct := [];
      var seen: set<string> := {};
      for i := 0 to |order|
        invariant distinct == FirstOfEachKey(order[..i]) && seen == Keys(distinct)
      {
        FirstsTake(order, i);
        KeysAppend(distinct, order[i]);
        if order[i].key !in seen {
          seen := seen + {order[i].key};
          distinct := distinct + [order[i]];
        }
      }
      assert order[..|order|] == order;
    }
  }
}
