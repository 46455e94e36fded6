/**
  One round of active probes (internal/upstream/health_checker.go): a pool of workers that
  drain a queue of target indices, under every schedule, and the report that follows.
  The probe itself is a foreign call with an arbitrary result, and meanwhile the endpoint
  coordinator may replace the tracker's endpoints at any moment.
 */
module ProbeRound {
  import opened Common
  import HT = HealthTracker

  /** What a probe comes to; it counts for nothing once the context is cancelled. */
  datatype Probe = Succeeded | Failed | Cancelled

  datatype CheckResult = CheckResult(target: Url, healthy: bool, changed: bool, tracked: bool, failed: bool)

  /** What the observer is told. */
  datatype Report =
    | ProbeResult(target: Url, successful: bool, failed: bool)
    | StateTransition(target: Url, healthy: bool)

  // ----- Sequential parts -----

  ghost predicate IsHealthy(known: HT.Histories, key: string, successes: int, failures: int) {
    key in HT.HealthyKeys(known, successes, failures)
  }

  /** The tracker's histories after a probe of `target`. */
  function AfterProbe(known: HT.Histories, target: Url, probe: Probe): HT.Histories {
    if probe.Cancelled? then known else HT.AfterRecord(known, target.key, probe.Succeeded?)
  }

  /** The result of a probe of `target`. */
  ghost function Checked(known: HT.Histories, target: Url, probe: Probe, successes: int, failures: int): CheckResult {
    var after := AfterProbe(known, target, probe);
    CheckResult(
      target,
      probe.Succeeded?,
      IsHealthy(known, target.key, successes, failures) != IsHealthy(after, target.key, successes, failures),
      !probe.Cancelled? && target.key in known,
      !probe.Succeeded?)
  }

  method CheckTarget(tracker: HT.HealthTracker, target: Url, probe: Probe) returns (result: CheckResult)
    requires tracker.Valid()
    modifies tracker`known, tracker.states
    ensures tracker.Valid() && tracker.known == AfterProbe(old(tracker.known), target, probe)
    ensures result == Checked(old(tracker.known), target, probe, tracker.successThreshold, tracker.failureThreshold)
    ensures tracker.known ==
            if probe.Cancelled? || target.key !in old(tracker.known) then old(tracker.known)
            else old(tracker.known)[target.key := old(tracker.known)[target.key] + [probe.Succeeded?]]
    ensures result.target == target && result.healthy == probe.Succeeded? && result.failed == !probe.Succeeded?
    ensures result.tracked <==> !probe.Cancelled? && target.key in old(tracker.known)
    ensures result.changed <==> (target.key in tracker.Healthy()) != (target.key in old(tracker.Healthy()))
  {
    hide HT.Hysteresis;
    var changed, tracked;
    match probe {
      case Cancelled =>
        return CheckResult(target, false, false, false, true);
      case Failed =>
        changed, tracked := tracker.RecordFailure(target);
        return CheckResult(target, false, changed, tracked, true);
      case Succeeded =>
        changed, tracked := tracker.RecordSuccess(target);
        return CheckResult(target, true, changed, tracked, false);
    }
  }

  /** A change of state is a change to what the probe saw. */
  lemma ChangeIsToOutcome(known: HT.Histories, target: Url, probe: Probe, successes: int, failures: int)
    requires successes >= 1 && failures >= 1
    ensures var r := Checked(known, target, probe, successes, failures);
            var after := AfterProbe(known, target, probe);
            r.changed ==> r.tracked && (r.healthy <==> IsHealthy(after, target.key, successes, failures))
  {
    if target.key in known && !probe.Cancelled? {
      HT.HysteresisAppend(known[target.key], probe.Succeeded?, successes, failures);
    }
  }

  /** What one result makes the observer hear. */
  function ReportsOf(r: CheckResult): seq<Report> {
    if !r.tracked then []
    else
      [ProbeResult(r.target, r.healthy, r.failed)] +
      (if r.changed then [StateTransition(r.target, r.healthy)] else [])
  }

  function ReportsOfAll(results: seq<CheckResult>): seq<Report> {
    if results == [] then []
    else ReportsOfAll(results[..|results| - 1]) + ReportsOf(results[|results| - 1])
  }

  method ReportAll(results: seq<CheckResult>) returns (reports: seq<Report>)
    ensures reports == ReportsOfAll(results)
    ensures ProbeResults(reports) == TrackedResults(results) && Transitions(reports) == ChangedResults(results)
    ensures TransitionsFollowResults(reports)
  {
    ReportParts(results);
    ReportsInOrder(results);
    hide TrackedResults, ChangedResults, TransitionsFollowResults, Transitions, ProbeResults;
    reports := [];
    for i := 0 to |results|
      invariant reports == ReportsOfAll(results[..i])
    {
      assert results[..i + 1][..i] == results[..i];
      var result := results[i];
      if result.tracked {
        reports := reports + [ProbeResult(result.target, result.healthy, result.failed)];
        if result.changed {
          reports := reports + [StateTransition(result.target, result.healthy)];
        }
      }
    }
    assert results[..|results|] == results;
  }

  // ----- What the reports amount to, without the loop that makes them -----

  function Transitions(reports: seq<Report>): seq<Report> {
    if reports == [] then []
    else
      var front, last := reports[..|reports| - 1], reports[|reports| - 1];
      Transitions(front) + (if last.StateTransition? then [last] else [])
  }

  function ProbeResults(reports: seq<Report>): seq<Report> {
    if reports == [] then []
    else
      var front, last := reports[..|reports| - 1], reports[|reports| - 1];
      ProbeResults(front) + (if last.ProbeResult? then [last] else [])
  }

  /** Every transition stands right behind the result of the probe that made it. */
  predicate TransitionsFollowResults(reports: seq<Report>) {
    forall j :: 0 <= j < |reports| && reports[j].StateTransition? ==>
      j > 0 && reports[j - 1].ProbeResult? && reports[j - 1].target == reports[j].target &&
      reports[j - 1].successful == reports[j].healthy
  }

  /** The state changes `changes`, listed by target in target order. */
  ghost function Listed(targets: seq<Url>, changes: seq<(nat, bool)>, n: nat): seq<Report>
    requires n <= |targets|
  {
    if n == 0 then []
    else
      Listed(targets, changes, n - 1) +
      (if (n - 1, true) in changes then [StateTransition(targets[n - 1], true)] else []) +
      (if (n - 1, false) in changes then [StateTransition(targets[n - 1], false)] else [])
  }

  function TrackedResults(results: seq<CheckResult>): seq<Report> {
    if results == [] then []
    else
      var front, last := results[..|results| - 1], results[|results| - 1];
      TrackedResults(front) + (if last.tracked then [ProbeResult(last.target, last.healthy, last.failed)] else [])
  }

  function ChangedResults(results: seq<CheckResult>): seq<Report> {
    if results == [] then []
    else
      var front, last := results[..|results| - 1], results[|results| - 1];
      var change := if last.tracked && last.changed then [StateTransition(last.target, last.healthy)] else [];
      ChangedResults(front) + change
  }

  lemma {:induction false} ReportParts(results: seq<CheckResult>)
    ensures ProbeResults(ReportsOfAll(results)) == TrackedResults(results)
    ensures Transitions(ReportsOfAll(results)) == ChangedResults(results)
  {
    if results != [] {
      var front, last := results[..|results| - 1], results[|results| - 1];
      ReportParts(front);
      FilterAppend(ReportsOfAll(front), ReportsOf(last));
      FiltersOfOne(last);
      hide ReportsOf, Transitions, ProbeResults;
    }
  }

  lemma {:induction false} FilterAppend(a: seq<Report>, b: seq<Report>)
    ensures Transitions(a + b) == Transitions(a) + Transitions(b)
    ensures ProbeResults(a + b) == ProbeResults(a) + ProbeResults(b)
  {
    if b == [] {
      assert a + b == a;
    } else {
      FilterAppend(a, b[..|b| - 1]);
      assert (a + b)[..|a + b| - 1] == a + b[..|b| - 1];
    }
  }

  lemma FiltersOfOne(r: CheckResult)
    ensures Transitions(ReportsOf(r)) ==
            if r.tracked && r.changed then [StateTransition(r.target, r.healthy)] else []
    ensures ProbeResults(ReportsOf(r)) == if r.tracked then [ProbeResult(r.target, r.healthy, r.failed)] else []
  {
    var result, transition := ProbeResult(r.target, r.healthy, r.failed), StateTransition(r.target, r.healthy);
    assert [result][..0] == [] && [transition][..0] == [];
    FilterAppend([result], [transition]);
    assert [result, transition] == [result] + [transition];
  }

  /** The reports hold one transition for each of the changes, in target order, and one result for
      each tracked target, in target order. */
  lemma {:induction false} ReportsAreChanges(targets: seq<Url>, results: seq<CheckResult>, changes: seq<(nat, bool)>)
    requires |results| <= |targets|
    requires forall i :: 0 <= i < |results| ==> results[i].target == targets[i]
    requires forall i: nat, h :: i < |results| ==>
               ((i, h) in changes <==> results[i].tracked && results[i].changed && results[i].healthy == h)
    ensures Transitions(ReportsOfAll(results)) == ChangedResults(results) == Listed(targets, changes, |results|)
    ensures ProbeResults(ReportsOfAll(results)) == TrackedResults(results)
  {
    ReportParts(results);
    hide ReportsOfAll, Transitions, ProbeResults, TrackedResults;
    if results != [] {
      var front, last := results[..|results| - 1], results[|results| - 1];
      ReportsAreChanges(targets, front, changes);
      var i: nat := |results| - 1;
      assert (i, true) in changes <==> last.tracked && last.changed && last.healthy;
      assert (i, false) in changes <==> last.tracked && last.changed && !last.healthy;
    }
  }

  lemma {:induction false} ReportsInOrder(results: seq<CheckResult>)
    ensures TransitionsFollowResults(ReportsOfAll(results))
  {
    if results != [] {
      var front, last := results[..|results| - 1], results[|results| - 1];
      ReportsInOrder(front);
      FollowAppend(ReportsOfAll(front), last);
    }
  }

  lemma FollowAppend(reports: seq<Report>, r: CheckResult)
    requires TransitionsFollowResults(reports)
    ensures TransitionsFollowResults(reports + ReportsOf(r))
  {
    var all := reports + ReportsOf(r);
    forall j | 0 <= j < |all| && all[j].StateTransition?
      ensures j > 0 && all[j - 1].ProbeResult? && all[j - 1].target == all[j].target &&
              all[j - 1].successful == all[j].healthy
    {
      if j < |reports| {
        assert all[j] == reports[j] && (j > 0 ==> all[j - 1] == reports[j - 1]);
      } else {
        assert j == |reports| + 1;
      }
    }
  }

  // ----- The round as a state machine -----

  datatype Worker =
    | Idle
    | Probing(index: nat)
    | Holding(index: nat, result: CheckResult)
    | Stopped

  /** `jobs` is the channel of target indices and `results` the slice that the workers share.
      `started`, `stored` and `changes` are history: the probes begun, the results written,
      and the state changes that the round's records made to the tracker. */
  datatype State = State(
    jobs: seq<nat>,
    workers: seq<Worker>,
    results: seq<CheckResult>,
    known: HT.Histories,
    reported: nat,
    reports: seq<Report>,
    started: seq<nat>,
    stored: set<nat>,
    changes: seq<(nat, bool)>)

  /** What does not change during a round. */
  datatype Round = Round(targets: seq<Url>, maxConcurrentProbes: nat, successes: int, failures: int)

  predicate ValidRound(c: Round) {
    c.maxConcurrentProbes >= 1 && c.successes >= 1 && c.failures >= 1
  }

  datatype Step =
    | Take(worker: nat)
    | Record(worker: nat, probe: Probe)
    | Store(worker: nat)
    | Stop(worker: nat)
    | Tell
    | Replace(endpoints: seq<Url>)

  function Upto(n: nat): (s: seq<nat>)
    ensures |s| == n && forall i :: 0 <= i < n ==> s[i] == i
  {
    seq(n, i => i)
  }

  function Workers(c: Round): nat {
    Min(|c.targets|, c.maxConcurrentProbes)
  }

  function Start(c: Round, known: HT.Histories): State {
    var n := |c.targets|;
    var blank := CheckResult(Url("", 0), false, false, false, false);
    State(Upto(n), seq(Workers(c), _ => Idle), seq(n, _ => blank), known, 0, [], [], {}, [])
  }

  /** The workers have all returned, which is what the round waits for. */
  predicate AllStopped(workers: seq<Worker>) {
    forall w :: 0 <= w < |workers| ==> workers[w].Stopped?
  }

  predicate Enabled(c: Round, s: State, step: Step) {
    match step
    case Take(w) => w < |s.workers| && s.workers[w].Idle? && s.jobs != []
    case Record(w, _) => w < |s.workers| && s.workers[w].Probing? && s.workers[w].index < |c.targets|
    case Store(w) => w < |s.workers| && s.workers[w].Holding? && s.workers[w].index < |s.results|
    case Stop(w) => w < |s.workers| && s.workers[w].Idle? && s.jobs == []
    case Tell => AllStopped(s.workers) && s.reported < |s.results|
    case Replace(_) => true
  }

  /** What a record of `probe` adds to the list of state changes. */
  ghost function ChangeMade(c: Round, known: HT.Histories, i: nat, probe: Probe): seq<(nat, bool)>
    requires i < |c.targets|
  {
    var key := c.targets[i].key;
    var after := AfterProbe(known, c.targets[i], probe);
    var was, isNow := IsHealthy(known, key, c.successes, c.failures), IsHealthy(after, key, c.successes, c.failures);
    if was != isNow then [(i, isNow)] else []
  }

  ghost function Next(c: Round, s: State, step: Step): State
    requires Enabled(c, s, step)
  {
    match step
    case Take(w) =>
      s.(jobs := s.jobs[1..], workers := s.workers[w := Probing(s.jobs[0])], started := s.started + [s.jobs[0]])
    case Record(w, probe) =>
      var i := s.workers[w].index;
      var result := Checked(s.known, c.targets[i], probe, c.successes, c.failures);
      s.(workers := s.workers[w := Holding(i, result)],
         known := AfterProbe(s.known, c.targets[i], probe),
         changes := s.changes + ChangeMade(c, s.known, i, probe))
    case Store(w) =>
      var held := s.workers[w];
      s.(workers := s.workers[w := Idle],
         results := s.results[held.index := held.result],
         stored := s.stored + {held.index})
    case Stop(w) =>
      s.(workers := s.workers[w := Stopped])
    case Tell =>
      s.(reported := s.reported + 1, reports := s.reports + ReportsOf(s.results[s.reported]))
    case Replace(endpoints) =>
      s.(known := HT.AfterReplace(s.known, endpoints))
  }

  /** The state after `steps`, if they can be taken. */
  ghost function After(c: Round, known: HT.Histories, steps: seq<Step>): Option<State> {
    if steps == [] then Some(Start(c, known))
    else
      match After(c, known, steps[..|steps| - 1])
      case None => None
      case Some(s) => if Enabled(c, s, steps[|steps| - 1]) then Some(Next(c, s, steps[|steps| - 1])) else None
  }

  // ----- Invariants -----

  predicate Busy(w: Worker) {
    w.Probing? || w.Holding?
  }

  function BusyCount(workers: seq<Worker>): (n: nat)
    ensures n <= |workers|
  {
    if workers == [] then 0
    else BusyCount(workers[..|workers| - 1]) + (if Busy(workers[|workers| - 1]) then 1 else 0)
  }

  /** Indices leave the channel in order, each once. */
  predicate Queued(c: Round, s: State) {
    var t := |s.started|;
    t <= |c.targets| == |s.results| && |s.workers| == Workers(c) &&
    s.started == Upto(t) && s.jobs == Upto(|c.targets|)[t..]
  }

  /** An index that has left the channel is with one worker or stored, and not both. */
  predicate Placed(s: State) {
    (forall w :: 0 <= w < |s.workers| && Busy(s.workers[w]) ==>
       s.workers[w].index < |s.started| && s.workers[w].index !in s.stored) &&
    (forall v, w :: 0 <= v < w < |s.workers| && Busy(s.workers[v]) && Busy(s.workers[w]) ==>
       s.workers[v].index != s.workers[w].index) &&
    (forall i :: i in s.stored ==> i < |s.started|) &&
    |s.stored| + BusyCount(s.workers) == |s.started|
  }

  /** The result for index `i` names its target and tells exactly what the tracker did. */
  predicate Tells(c: Round, r: CheckResult, i: nat, changes: seq<(nat, bool)>) {
    i < |c.targets| && r.target == c.targets[i] && (r.changed ==> r.tracked) &&
    forall h :: (i, h) in changes <==> r.changed && r.healthy == h
  }

  predicate Unrecorded(i: nat, changes: seq<(nat, bool)>) {
    forall h :: (i, h) !in changes
  }

  predicate Recorded(c: Round, s: State) {
    (forall i :: i in s.stored ==> i < |s.results| && Tells(c, s.results[i], i, s.changes)) &&
    (forall w :: 0 <= w < |s.workers| && s.workers[w].Holding? ==>
       Tells(c, s.workers[w].result, s.workers[w].index, s.changes)) &&
    (forall w :: 0 <= w < |s.workers| && s.workers[w].Probing? ==> Unrecorded(s.workers[w].index, s.changes)) &&
    (forall i :: |s.started| <= i < |c.targets| ==> Unrecorded(i, s.changes)) &&
    (forall a, b :: 0 <= a < b < |s.changes| ==> s.changes[a].0 != s.changes[b].0) &&
    (forall a :: 0 <= a < |s.changes| ==> s.changes[a].0 < |c.targets|)
  }

  predicate Told(s: State) {
    (forall w :: 0 <= w < |s.workers| && s.workers[w].Stopped? ==> s.jobs == []) &&
    s.reported <= |s.results| && s.reports == ReportsOfAll(s.results[..s.reported]) &&
    (s.reported > 0 ==> AllStopped(s.workers))
  }

  predicate Inv(c: Round, s: State) {
    Queued(c, s) && Placed(s) && Recorded(c, s) && Told(s)
  }

  lemma {:induction false} BusyUpdate(workers: seq<Worker>, w: nat, worker: Worker)
    requires w < |workers|
    ensures BusyCount(workers[w := worker]) ==
            BusyCount(workers) - (if Busy(workers[w]) then 1 else 0) + (if Busy(worker) then 1 else 0)
  {
    var front := workers[..|workers| - 1];
    if w < |front| {
      BusyUpdate(front, w, worker);
      assert workers[w := worker][..|workers| - 1] == front[w := worker];
    } else {
      assert workers[w := worker][..|workers| - 1] == front;
    }
  }

  lemma {:induction false} NoneBusy(workers: seq<Worker>)
    requires forall w :: 0 <= w < |workers| ==> !Busy(workers[w])
    ensures BusyCount(workers) == 0
  {
    if workers != [] {
      NoneBusy(workers[..|workers| - 1]);
    }
  }

  lemma InvStart(c: Round, known: HT.Histories)
    requires ValidRound(c)
    ensures Inv(c, Start(c, known))
  {
    NoneBusy(Start(c, known).workers);
  }

  lemma InvTake(c: Round, s: State, w: nat)
    requires Inv(c, s) && Enabled(c, s, Take(w))
    ensures Inv(c, Next(c, s, Take(w)))
  {
    hide Recorded, ReportsOfAll;
    BusyUpdate(s.workers, w, Probing(s.jobs[0]));
    TakeRecorded(c, s, w);
    assert s.jobs[0] == |s.started|;
  }

  lemma TakeRecorded(c: Round, s: State, w: nat)
    requires Inv(c, s) && Enabled(c, s, Take(w))
    ensures Recorded(c, Next(c, s, Take(w)))
  {
    hide Tells, Unrecorded, ReportsOfAll;
    assert s.jobs[0] == |s.started|;
  }

  lemma InvStore(c: Round, s: State, w: nat)
    requires Inv(c, s) && Enabled(c, s, Store(w))
    ensures Inv(c, Next(c, s, Store(w)))
  {
    StorePlaced(c, s, w);
    StoreRecorded(c, s, w);
    hide Placed, Recorded, ReportsOfAll, Upto;
    assert s.reported == 0;
    assert s.results[..0] == Next(c, s, Store(w)).results[..0];
  }

  lemma StorePlaced(c: Round, s: State, w: nat)
    requires Placed(s) && Enabled(c, s, Store(w))
    ensures Placed(Next(c, s, Store(w)))
  {
    BusyUpdate(s.workers, w, Idle);
    hide BusyCount;
  }

  lemma StoreRecorded(c: Round, s: State, w: nat)
    requires Inv(c, s) && Enabled(c, s, Store(w))
    ensures Recorded(c, Next(c, s, Store(w)))
  {
    hide Tells, Unrecorded, ReportsOfAll, Upto;
  }

  lemma InvStop(c: Round, s: State, w: nat)
    requires Inv(c, s) && Enabled(c, s, Stop(w))
    ensures Inv(c, Next(c, s, Stop(w)))
  {
    BusyUpdate(s.workers, w, Stopped);
    hide Upto, Tells, Unrecorded, ReportsOfAll;
  }

  lemma InvTell(c: Round, s: State)
    requires Inv(c, s) && Enabled(c, s, Tell)
    ensures Inv(c, Next(c, s, Tell))
  {
    hide Tells, Unrecorded, ReportsOf, Upto, BusyCount;
    assert s.results[..s.reported + 1][..s.reported] == s.results[..s.reported];
  }

  lemma StillTells(c: Round, r: CheckResult, i: nat, changes: seq<(nat, bool)>, made: seq<(nat, bool)>)
    requires Tells(c, r, i, changes) && Unrecorded(i, made)
    ensures Tells(c, r, i, changes + made)
  {
  }

  lemma NowTells(c: Round, known: HT.Histories, i: nat, probe: Probe, changes: seq<(nat, bool)>)
    requires ValidRound(c) && i < |c.targets| && Unrecorded(i, changes)
    ensures var result := Checked(known, c.targets[i], probe, c.successes, c.failures);
            Tells(c, result, i, changes + ChangeMade(c, known, i, probe))
    ensures forall j :: j != i ==> Unrecorded(j, ChangeMade(c, known, i, probe))
    ensures |ChangeMade(c, known, i, probe)| <= 1
    ensures forall a :: 0 <= a < |ChangeMade(c, known, i, probe)| ==> ChangeMade(c, known, i, probe)[a].0 == i
  {
    ChangeIsToOutcome(known, c.targets[i], probe, c.successes, c.failures);
    hide IsHealthy, AfterProbe;
    var made := ChangeMade(c, known, i, probe);
    forall h ensures (i, h) in changes + made <==> (i, h) in made {
    }
  }

  lemma InvRecord(c: Round, s: State, w: nat, probe: Probe)
    requires ValidRound(c) && Inv(c, s) && Enabled(c, s, Record(w, probe))
    ensures Inv(c, Next(c, s, Record(w, probe)))
  {
    var i := s.workers[w].index;
    var result := Checked(s.known, c.targets[i], probe, c.successes, c.failures);
    var made := ChangeMade(c, s.known, i, probe);
    BusyUpdate(s.workers, w, Holding(i, result));
    NowTells(c, s.known, i, probe, s.changes);
    RecordedAfter(c, s, w, result, made);
    hide Tells, Unrecorded, ReportsOfAll, Checked, ChangeMade, Recorded;
    assert s.reported == 0;
  }

  lemma RecordedAfter(c: Round, s: State, w: nat, result: CheckResult, made: seq<(nat, bool)>)
    requires Queued(c, s) && Placed(s) && Recorded(c, s) && w < |s.workers| && s.workers[w].Probing?
    requires var i := s.workers[w].index;
             Tells(c, result, i, s.changes + made) && |made| <= 1 &&
             (forall j :: j != i ==> Unrecorded(j, made)) && forall a :: 0 <= a < |made| ==> made[a].0 == i
    ensures Recorded(c, s.(workers := s.workers[w := Holding(s.workers[w].index, result)], changes := s.changes + made))
  {
    var i := s.workers[w].index;
    var changes := s.changes + made;
    forall j | j in s.stored ensures Tells(c, s.results[j], j, changes) {
      StillTells(c, s.results[j], j, s.changes, made);
    }
    forall v | 0 <= v < |s.workers| && v != w && s.workers[v].Holding?
      ensures Tells(c, s.workers[v].result, s.workers[v].index, changes)
    {
      StillTells(c, s.workers[v].result, s.workers[v].index, s.changes, made);
    }
    forall j | Unrecorded(j, s.changes) && j != i ensures Unrecorded(j, changes) {
      assert Unrecorded(j, made);
    }
    NotAmong(i, s.changes);
  }

  lemma NotAmong(i: nat, changes: seq<(nat, bool)>)
    requires Unrecorded(i, changes)
    ensures forall a :: 0 <= a < |changes| ==> changes[a].0 != i
  {
    forall a | 0 <= a < |changes| ensures changes[a].0 != i {
      var (j, h) := changes[a];
      assert (j, h) in changes;
    }
  }

  lemma InvReplace(c: Round, s: State, endpoints: seq<Url>)
    requires Inv(c, s)
    ensures Inv(c, Next(c, s, Replace(endpoints)))
  {
    hide Tells, Unrecorded, ReportsOfAll;
  }

  lemma InvNext(c: Round, s: State, step: Step)
    requires ValidRound(c) && Inv(c, s) && Enabled(c, s, step)
    ensures Inv(c, Next(c, s, step))
  {
    hide Inv, Enabled, Next;
    match step {
      case Take(w) => InvTake(c, s, w);
      case Record(w, probe) => InvRecord(c, s, w, probe);
      case Store(w) => InvStore(c, s, w);
      case Stop(w) => InvStop(c, s, w);
      case Tell => InvTell(c, s);
      case Replace(endpoints) => InvReplace(c, s, endpoints);
    }
  }

  lemma {:induction false} InvAfter(c: Round, known: HT.Histories, steps: seq<Step>)
    requires ValidRound(c) && After(c, known, steps).Some?
    ensures Inv(c, After(c, known, steps).value)
  {
    hide Inv, Enabled, Next;
    if steps == [] {
      InvStart(c, known);
    } else {
      InvAfter(c, known, steps[..|steps| - 1]);
      InvNext(c, After(c, known, steps[..|steps| - 1]).value, steps[|steps| - 1]);
    }
  }

  // ----- Main results -----

  /** However the workers are scheduled, no more than the configured number of probes is under
      way: those started whose results are not yet stored. */
  lemma ProbesInFlight(c: Round, known: HT.Histories, steps: seq<Step>)
    requires ValidRound(c) && After(c, known, steps).Some?
    ensures var s := After(c, known, steps).value;
            |s.stored| <= |s.started| <= |s.stored| + Min(|c.targets|, c.maxConcurrentProbes)
  {
    hide Recorded, Told;
    InvAfter(c, known, steps);
  }

  function Weight(w: Worker): nat {
    match w
    case Stopped => 0
    case Idle => 1
    case Holding(_, _) => 2
    case Probing(_) => 3
  }

  function TotalWeight(workers: seq<Worker>): nat {
    if workers == [] then 0 else TotalWeight(workers[..|workers| - 1]) + Weight(workers[|workers| - 1])
  }

  /** The number of steps that are left to the round. */
  function StepsLeft(s: State): int {
    3 * |s.jobs| + TotalWeight(s.workers) + |s.results| - s.reported
  }

  predicate Finished(s: State) {
    AllStopped(s.workers) && s.reported == |s.results|
  }

  /** The steps of the round itself. */
  function OwnSteps(steps: seq<Step>): nat {
    if steps == [] then 0
    else OwnSteps(steps[..|steps| - 1]) + (if steps[|steps| - 1].Replace? then 0 else 1)
  }

  lemma {:induction false} WeightUpdate(workers: seq<Worker>, w: nat, worker: Worker)
    requires w < |workers|
    ensures TotalWeight(workers[w := worker]) == TotalWeight(workers) - Weight(workers[w]) + Weight(worker)
  {
    var front := workers[..|workers| - 1];
    if w < |front| {
      WeightUpdate(front, w, worker);
      assert workers[w := worker][..|workers| - 1] == front[w := worker];
    } else {
      assert workers[w := worker][..|workers| - 1] == front;
    }
  }

  lemma {:induction false} IdleWeight(workers: seq<Worker>)
    requires forall w :: 0 <= w < |workers| ==> workers[w].Idle?
    ensures TotalWeight(workers) == |workers|
  {
    if workers != [] {
      IdleWeight(workers[..|workers| - 1]);
    }
  }

  lemma {:induction false} WeightZero(workers: seq<Worker>)
    ensures TotalWeight(workers) == 0 <==> AllStopped(workers)
  {
    if workers != [] {
      var front := workers[..|workers| - 1];
      WeightZero(front);
      assert workers == front + [workers[|workers| - 1]];
      if AllStopped(workers) {
        assert forall w :: 0 <= w < |front| ==> front[w] == workers[w];
      }
    }
  }

  lemma OneStepLess(c: Round, s: State, step: Step)
    requires Enabled(c, s, step)
    ensures StepsLeft(Next(c, s, step)) == StepsLeft(s) - (if step.Replace? then 0 else 1)
  {
    hide AfterProbe, Checked, ChangeMade, ReportsOf;
    match step {
      case Take(w) => WeightUpdate(s.workers, w, Probing(s.jobs[0]));
      case Record(w, probe) => WeightUpdate(s.workers, w, Next(c, s, step).workers[w]);
      case Store(w) => WeightUpdate(s.workers, w, Idle);
      case Stop(w) => WeightUpdate(s.workers, w, Stopped);
      case Tell =>
      case Replace(_) =>
    }
  }

  /** Every complete round over n targets takes exactly 4 n steps and one for each worker. */
  lemma {:induction false} RoundLength(c: Round, known: HT.Histories, steps: seq<Step>)
    requires ValidRound(c) && After(c, known, steps).Some?
    ensures OwnSteps(steps) + StepsLeft(After(c, known, steps).value) ==
            4 * |c.targets| + Min(|c.targets|, c.maxConcurrentProbes)
  {
    hide Enabled, Next, StepsLeft;
    if steps == [] {
      StartLength(c, known);
    } else {
      RoundLength(c, known, steps[..|steps| - 1]);
      OneStepLess(c, After(c, known, steps[..|steps| - 1]).value, steps[|steps| - 1]);
    }
  }

  lemma StartLength(c: Round, known: HT.Histories)
    ensures StepsLeft(Start(c, known)) == 4 * |c.targets| + Min(|c.targets|, c.maxConcurrentProbes)
  {
    IdleWeight(Start(c, known).workers);
  }

  /** A round that is not finished has a step to take, provided that every probe returns. */
  lemma NotStuck(c: Round, s: State) returns (step: Step)
    requires ValidRound(c) && Inv(c, s) && !Finished(s)
    ensures Enabled(c, s, step) && !step.Replace?
  {
    hide Tells, Unrecorded, ReportsOfAll;
    if AllStopped(s.workers) {
      return Tell;
    }
    var w: nat :| w < |s.workers| && !s.workers[w].Stopped?;
    match s.workers[w] {
      case Idle => return if s.jobs == [] then Stop(w) else Take(w);
      case Probing(_) => return Record(w, Cancelled);
      case Holding(_, _) => return Store(w);
    }
  }

  /** A finished round has probed every target exactly once and has stored its result in its
      place; and the observer has been told, in target order, of every state change that the
      round made to the tracker and of no other. */
  lemma FinishedRound(c: Round, known: HT.Histories, steps: seq<Step>)
    requires ValidRound(c) && After(c, known, steps).Some? && Finished(After(c, known, steps).value)
    ensures var s := After(c, known, steps).value;
            s.started == Upto(|c.targets|) && |s.results| == |c.targets| && s.reports == ReportsOfAll(s.results) &&
            (forall i :: 0 <= i < |c.targets| ==> s.results[i].target == c.targets[i]) &&
            (forall a, b :: 0 <= a < b < |s.changes| ==> s.changes[a].0 != s.changes[b].0) &&
            (forall i: nat, h :: (i, h) in s.changes <==>
               i < |c.targets| && s.results[i].tracked && s.results[i].changed && s.results[i].healthy == h)
    ensures var s := After(c, known, steps).value;
            Transitions(s.reports) == Listed(c.targets, s.changes, |c.targets|) &&
            ProbeResults(s.reports) == TrackedResults(s.results) && TransitionsFollowResults(s.reports)
  {
    var s := After(c, known, steps).value;
    InvAfter(c, known, steps);
    hide ReportsOfAll, After, Tells, Unrecorded;
    NoneBusy(s.workers);
    AllStored(c, s);
    assert s.results[..|s.results|] == s.results;
    ResultsTell(c, s.results, s.changes);
    ReportsAreChanges(c.targets, s.results, s.changes);
    ReportsInOrder(s.results);
  }

  lemma ResultsTell(c: Round, results: seq<CheckResult>, changes: seq<(nat, bool)>)
    requires |results| == |c.targets|
    requires forall i :: 0 <= i < |c.targets| ==> Tells(c, results[i], i, changes)
    requires forall a :: 0 <= a < |changes| ==> changes[a].0 < |c.targets|
    ensures forall i :: 0 <= i < |c.targets| ==> results[i].target == c.targets[i]
    ensures forall i: nat, h :: (i, h) in changes <==>
              i < |c.targets| && results[i].tracked && results[i].changed && results[i].healthy == h
  {
    forall i: nat, h
      ensures (i, h) in changes <==>
              i < |c.targets| && results[i].tracked && results[i].changed && results[i].healthy == h
    {
      if i < |c.targets| {
        assert Tells(c, results[i], i, changes);
      } else {
        assert forall a :: 0 <= a < |changes| ==> changes[a] != (i, h);
      }
    }
  }

  lemma AllStored(c: Round, s: State)
    requires ValidRound(c) && Queued(c, s) && Placed(s) && Told(s) && AllStopped(s.workers) && BusyCount(s.workers) == 0
    ensures |s.started| == |c.targets| && forall i :: 0 <= i < |c.targets| ==> i in s.stored
  {
    hide ReportsOfAll;
    assert s.jobs == [] by {
      if |c.targets| > 0 {
        assert s.workers[0].Stopped?;
      }
    }
    if i :| 0 <= i < |c.targets| && i !in s.stored {
      SubsetSize(s.stored, Below(|c.targets|) - {i});
    }
  }

  ghost function Below(n: nat): (indices: set<nat>)
    ensures |indices| == n && forall i: nat :: i in indices <==> i < n
  {
    if n == 0 then {} else Below(n - 1) + {n - 1}
  }
}
