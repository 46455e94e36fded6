/**
  What holds over whole runs of the pool protocol: how much a shut picker can still hand out,
  and how often the recovery loop's timer fires.
 */
module PoolRuns {
  import opened Common
  import opened PoolProtocol

  // ----- A shut picker -----

  /** The calls of Acquire that return a target. */
  function Picks(steps: seq<Step>): nat {
    if steps == [] then 0 else (if steps[0].Pick? then 1 else 0) + Picks(steps[1..])
  }

  predicate StaysShut(steps: seq<Step>) {
    forall i :: 0 <= i < |steps| ==> !steps[i].Reopen?
  }

  /** A snapshot that has been published is not empty. */
  predicate Stocked(s: State) {
    s.published.Some? ==> s.base != []
  }

  lemma StockedNext(s: State, step: Step)
    requires Stocked(s) && Enabled(s, step)
    ensures Stocked(Next(s, step))
  {
    hide KeepKeys, Keys, OnlyKeys, Unexpired, ActiveKeys, PassiveKeys;
  }

  lemma {:induction false} StockedRun(s: State, steps: seq<Step>)
    requires Stocked(s) && Runnable(s, steps)
    ensures Stocked(Run(s, steps))
    decreases |steps|
  {
    hide Stocked, Enabled, Next;
    if steps != [] {
      StockedNext(s, steps[0]);
      StockedRun(Next(s, steps[0]), steps[1..]);
    }
  }

  lemma StockedHolds(s: State)
    requires Reachable(s)
    ensures Stocked(s)
  {
    hide Enabled, Next;
    var config, endpoints, now, steps :|
      Runnable(Start(config, endpoints, now), steps) && s == Run(Start(config, endpoints, now), steps);
    StockedRun(Start(config, endpoints, now), steps);
  }

  /** Some call can return a target exactly if one has seen the picker open and not picked yet,
      whether or not the picker is still open. */
  lemma ServesIffLoaded(s: State)
    requires Reachable(s)
    ensures (exists u :: Enabled(s, Pick(u))) <==> s.loads > 0
  {
    StockedHolds(s);
    InvHolds(s);
    hide Shape, Exact, Blamed, Watched, FromOne, Reachable;
    if s.loads > 0 {
      assert s.base[0] in s.base;
      assert Enabled(s, Pick(s.base[0]));
    }
  }

  lemma ShutStep(s: State, step: Step)
    requires Enabled(s, step) && !s.available && !step.Reopen?
    ensures !Next(s, step).available && Next(s, step).loads == s.loads - (if step.Pick? then 1 else 0)
  {
    hide KeepKeys, Keys, OnlyKeys, Unexpired, ActiveKeys, PassiveKeys;
  }

  /** While it stays shut, a picker serves only calls that saw it open before. */
  lemma {:induction false} ShutPickerServesLoaded(s: State, steps: seq<Step>)
    requires !s.available && Runnable(s, steps) && StaysShut(steps)
    ensures !Run(s, steps).available && Picks(steps) + Run(s, steps).loads == s.loads
    decreases |steps|
  {
    hide Enabled, Next;
    if steps != [] {
      ShutStep(s, steps[0]);
      ShutPickerServesLoaded(Next(s, steps[0]), steps[1..]);
    }
  }

  lemma {:induction false} PickRepeatedly(s: State, u: Url, k: nat) returns (steps: seq<Step>)
    requires Versions(s) && u in s.base && k <= s.loads
    ensures Runnable(s, steps) && StaysShut(steps) && Picks(steps) == k
    decreases k
  {
    if k == 0 {
      steps := [];
    } else {
      var rest := PickRepeatedly(Next(s, Pick(u)), u, k - 1);
      steps := [Pick(u)] + rest;
      assert steps[1..] == rest;
    }
  }

  /** A picker that is shut can hand out k targets before it is opened again exactly if k calls
      had seen it open and not picked yet; so it hands out nothing exactly if there were none. */
  lemma ShutPickerServesExactly(s: State, k: nat)
    requires Reachable(s) && !s.available
    ensures (exists steps :: Runnable(s, steps) && StaysShut(steps) && Picks(steps) == k) <==> k <= s.loads
  {
    InvHolds(s);
    StockedHolds(s);
    hide Exact, Blamed, Watched, FromOne, Reachable, Runnable, Picks, StaysShut;
    if steps :| Runnable(s, steps) && StaysShut(steps) && Picks(steps) == k {
      ShutPickerServesLoaded(s, steps);
    }
    if k == 0 {
      var steps := NothingPicked(s);
    } else if k <= s.loads {
      var steps := PickRepeatedly(s, s.base[0], k);
    }
  }

  lemma NothingPicked(s: State) returns (steps: seq<Step>)
    ensures Runnable(s, steps) && StaysShut(steps) && Picks(steps) == 0
  {
    steps := [];
  }

  // ----- The timer -----

  function Fires(steps: seq<Step>): nat {
    if steps == [] then 0 else (if steps[0].Fire? then 1 else 0) + Fires(steps[1..])
  }

  function Ejections(steps: seq<Step>): nat {
    if steps == [] then 0 else (if steps[0].Eject? then 1 else 0) + Ejections(steps[1..])
  }

  /** The timer is set for an ejection that somebody else has cleared or dropped since. */
  predicate Missed(s: State) {
    s.observer.Waiting? && forall k :: k in s.ejected ==> s.observer.until < s.ejected[k]
  }

  /** How often the timer can fire if nothing more is ejected. */
  function Potential(s: State): nat {
    |s.ejected| + (if Missed(s) then 1 else 0)
  }

  /** A firing leaves only ejections that stand, and fewer of them, unless none had expired. */
  lemma FiringMakesProgress(s: State)
    requires Enabled(s, Fire)
    ensures var left := Next(s, Fire).ejected;
            (forall k :: k in left <==> k in s.ejected && s.now < s.ejected[k]) &&
            (|left| < |s.ejected| <==> exists k :: k in s.ejected && s.ejected[k] <= s.now)
    ensures !Missed(s) ==> |Next(s, Fire).ejected| < |s.ejected|
  {
    var left := Next(s, Fire).ejected;
    if k :| k in s.ejected && s.ejected[k] <= s.now {
      UnexpiredShrinks(s.ejected, s.now, k);
    } else {
      assert left == s.ejected;
    }
  }

  lemma FewerEjections(before: map<string, int>, left: map<string, int>)
    requires forall k :: k in left ==> k in before
    ensures |left| <= |before|
    ensures (exists k :: k in before && k !in left) ==> |left| < |before|
  {
    assert |left.Keys| == |left| && |before.Keys| == |before|;
    SubsetSize(left.Keys, before.Keys);
    if k :| k in before && k !in left {
      SubsetSize(left.Keys, before.Keys - {k});
    }
  }

  /** Dropping ejections can turn the timer into a missed one, but then at least one is gone. */
  lemma DroppingKeepsPotential(s: State, s': State)
    requires s'.observer == s.observer
    requires forall k :: k in s'.ejected ==> k in s.ejected && s'.ejected[k] == s.ejected[k]
    ensures Potential(s') <= Potential(s)
  {
    FewerEjections(s.ejected, s'.ejected);
    if Missed(s') && !Missed(s) {
      var k :| k in s.ejected && s.ejected[k] <= s.observer.until;
      assert k !in s'.ejected;
    }
  }

  lemma AwakeHasLessPotential(s: State, s': State)
    requires s'.ejected == s.ejected && !s'.observer.Waiting?
    ensures Potential(s') <= Potential(s)
  {
  }

  lemma PotentialAfterEject(s: State, step: Step)
    requires Enabled(s, step) && step.Eject?
    ensures Potential(Next(s, step)) <= Potential(s) + 1
  {
    hide Keys;
    var s' := Next(s, step);
    assert s'.ejected.Keys == s.ejected.Keys + {step.key};
    assert |s'.ejected| == |s'.ejected.Keys| && |s.ejected| == |s.ejected.Keys|;
    assert Missed(s') ==> forall k :: k in s.ejected ==> k in s'.ejected && s'.ejected[k] == s.ejected[k];
  }

  lemma PotentialAfterOther(s: State, step: Step)
    requires Enabled(s, step) && !step.Eject? && !step.Fire?
    ensures Potential(Next(s, step)) <= Potential(s)
  {
    hide KeepKeys, Keys, ActiveKeys, PassiveKeys;
    var s' := Next(s, step);
    if s'.observer == s.observer {
      DroppingKeepsPotential(s, s');
    } else if step.Look? {
      assert !Missed(s');
    } else {
      AwakeHasLessPotential(s, s');
    }
  }

  lemma PotentialNext(s: State, step: Step)
    requires Enabled(s, step)
    ensures Potential(Next(s, step)) + (if step.Fire? then 1 else 0) <= Potential(s) + (if step.Eject? then 1 else 0)
  {
    if step.Fire? {
      FiringMakesProgress(s);
      FewerEjections(s.ejected, Next(s, step).ejected);
    } else if step.Eject? {
      PotentialAfterEject(s, step);
    } else {
      PotentialAfterOther(s, step);
    }
  }

  /** Recovery drains under every interleaving: each firing of the timer uses up an ejection
      stored at the start or made meanwhile, except that the one timer running at the start may
      have been set for an ejection that is gone. */
  lemma {:induction false} FiringsAreBounded(s: State, steps: seq<Step>)
    requires Runnable(s, steps)
    ensures Fires(steps) + Potential(Run(s, steps)) <= Potential(s) + Ejections(steps)
    decreases |steps|
  {
    hide Enabled, Next, Potential;
    if steps != [] {
      PotentialNext(s, steps[0]);
      FiringsAreBounded(Next(s, steps[0]), steps[1..]);
    }
  }

  /** From the start, the timer never fires more often than endpoints have been ejected, and the
      ejections still stored are among those it has not fired for. */
  lemma NoIdleFirings(config: Config, endpoints: seq<Url>, now: int, steps: seq<Step>)
    requires Runnable(Start(config, endpoints, now), steps)
    ensures Fires(steps) + |Run(Start(config, endpoints, now), steps).ejected| <= Ejections(steps)
  {
    hide Runnable, Run;
    FiringsAreBounded(Start(config, endpoints, now), steps);
  }
}
