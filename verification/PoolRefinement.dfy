/**
  The steps of PoolProtocol are what the locked sections do to the objects of HealthPool and the
  trackers beneath: each method here performs one section on objects that mirror a protocol
  state, and leaves them mirroring the state after the step. New objects mirror the start. So
  what PoolProtocol proves of all interleavings of steps holds of all interleavings of the
  sections. The remaining steps (the clock, the picker's mutex, the wake channel) touch none of
  these objects.
 */
module PoolRefinement {
  import opened Common
  import opened Outcomes
  import opened PoolProtocol
  import HP = HealthPool
  import HT = HealthTracker
  import PT = PassiveHealthTracker
  import LR = LeastRequests

  // ----- Objects and the states they mirror -----

  /** Of the keys tracked, exactly the unhealthy ones are not in `healthy`. */
  ghost predicate Flags(s: State, healthy: iset<string>)
    requires Versions(s)
  {
    s.unhealthy <= Keys(s.applied[s.active]) &&
    forall k :: k in Keys(s.applied[s.active]) ==> (k in s.unhealthy <==> k !in healthy)
  }

  ghost predicate ActiveMirrors(active: HT.HealthTracker?, s: State)
    requires Versions(s)
    reads active
  {
    s.config.active == (active != null) &&
    if active == null then s.unhealthy <= Keys(s.applied[s.active])
    else active.order == s.applied[s.active] && Flags(s, active.Healthy())
  }

  ghost predicate PassiveMirrors(passive: PT.PassiveHealthTracker?, s: State)
    requires Versions(s)
    reads passive
  {
    s.config.passive == (passive != null) &&
    (if passive == null then s.ejected == map[]
     else passive.ordered == s.applied[s.passive] && passive.ejections == s.ejected)
  }

  ghost predicate PickerMirrors(picker: HP.HealthAwarePicker, s: State)
    reads picker, picker.picker, picker.picker.endpoints
  {
    picker.available == s.available && picker.picker.HasTargets(s.base)
  }

  ghost predicate Mirrors(c: HP.EndpointCoordinator, s: State)
    reads c, c.picker, c.picker.picker, c.picker.picker.known, c.picker.picker.permits, c.picker.picker.endpoints
    reads c.picker.source, c.membership
    reads c.active, if c.active == null then {} else c.active.states
    reads c.passive, if c.passive == null then {} else c.passive.states
  {
    Versions(s) && c.Valid() && c.membership.snapshot == Members(s) &&
    ActiveMirrors(c.active, s) && PassiveMirrors(c.passive, s) && PickerMirrors(c.picker, s)
  }

  /** Trackers as their constructors leave them, with a base picker over the same endpoints that
      has not been opened, mirror the start. */
  lemma NewObjectsMirror(c: HP.EndpointCoordinator, config: Config, endpoints: seq<Url>, now: int)
    requires c.Valid() && c.membership.snapshot == endpoints
    requires config == Config(c.active != null, c.passive != null)
    requires c.active != null ==>
               c.active.order == endpoints && c.active.known == HT.AfterReplace(map[], endpoints)
    requires c.passive != null ==> c.passive.ordered == endpoints && c.passive.ejections == map[]
    requires !c.picker.available && c.picker.picker.HasTargets(endpoints)
    ensures Mirrors(c, Start(config, endpoints, now))
  {
    if c.active != null {
      assert HT.Hysteresis([], c.active.successThreshold, c.active.failureThreshold);
    }
    hide PT.PassiveHealthTracker.Valid, LR.LeastRequests.Valid;
  }

  /** What the steps that touch one source leave alone, and what they do to the sources. */
  lemma SourceStep(s: State, step: Step)
    requires Enabled(s, step)
    requires step.Flip? || step.Eject? || step.Forgive? || step.ReadActive? || step.ReadPassive?
    ensures var t := Next(s, step);
            Versions(t) && t.config == s.config && t.applied == s.applied && t.members == s.members &&
            t.active == s.active && t.passive == s.passive && t.available == s.available && t.base == s.base &&
            (t.unhealthy == if !step.Flip? then s.unhealthy
                            else if step.key in s.unhealthy then s.unhealthy - {step.key}
                            else s.unhealthy + {step.key}) &&
            t.ejected == match step
                         case Eject(key, deadline) => s.ejected[key := deadline]
                         case Forgive(key) => s.ejected - {key}
                         case ReadPassive => Unexpired(s.ejected, s.now)
                         case _ => s.ejected
  {
    hide Keys, KeepKeys, Unexpired, ActiveKeys, PassiveKeys;
  }

  /** The parts of the pool that a step on one tracker does not concern still mirror. */
  lemma OthersMirror(c: HP.EndpointCoordinator, s: State, step: Step)
    requires Mirrors(c, s) && Enabled(s, step)
    requires step.Flip? || step.Eject? || step.Forgive? || step.ReadActive? || step.ReadPassive?
    ensures var t := Next(s, step);
            Versions(t) && Members(t) == Members(s) && PickerMirrors(c.picker, t) &&
            (!step.Flip? ==> ActiveMirrors(c.active, t)) &&
            (step.Flip? || step.ReadActive? ==> PassiveMirrors(c.passive, t))
  {
    SourceStep(s, step);
    hide HT.HealthTracker.Valid, PT.PassiveHealthTracker.Valid, LR.LeastRequests.Valid, Keys, Next, Enabled;
  }

  // ----- Apply -----

  /** The first section of Apply: the active tracker. */
  method ApplyActiveSection(c: HP.EndpointCoordinator, endpoints: seq<Url>, ghost s: State)
    requires Mirrors(c, s) && Enabled(s, ApplyActive(endpoints))
    modifies c.active, if c.active == null then {} else c.active.states
    modifies c.picker.source.journal
    ensures Mirrors(c, Next(s, ApplyActive(endpoints)))
    ensures c.picker.source.journal.sections == old(c.picker.source.journal.sections) + [HP.ReplaceActive]
  {
    if c.active != null {
      FlagsAfterReplace(s, endpoints, c.active.known, c.active.successThreshold, c.active.failureThreshold);
    }
    hide HT.HealthTracker.Valid, PT.PassiveHealthTracker.Valid, LR.LeastRequests.Valid, HT.HealthyKeys, Flags, Keys;
    HP.EndpointCoordinator.ReplaceActiveTracker(c.active, endpoints, c.picker.source.journal);
  }

  lemma FlagsAfterReplace(s: State, endpoints: seq<Url>, known: HT.Histories, successes: int, failures: int)
    requires Enabled(s, ApplyActive(endpoints)) && failures >= 1
    requires known.Keys == Keys(s.applied[s.active]) && Flags(s, HT.HealthyKeys(known, successes, failures))
    ensures var after := HT.AfterReplace(known, endpoints);
            Flags(Next(s, ApplyActive(endpoints)), HT.HealthyKeys(after, successes, failures))
  {
    HP.EndpointCoordinator.HealthyAfterReplace(known, endpoints, successes, failures);
    hide HT.HealthyKeys;
  }

  /** The second: the passive tracker. */
  method ApplyPassiveSection(c: HP.EndpointCoordinator, endpoints: seq<Url>, ghost s: State)
    requires Mirrors(c, s) && Enabled(s, ApplyPassive) && endpoints == s.applied[|s.applied| - 1]
    modifies c.passive, if c.passive == null then {} else c.passive.states
    modifies c.picker.source.journal
    ensures Mirrors(c, Next(s, ApplyPassive))
    ensures c.picker.source.journal.sections == old(c.picker.source.journal.sections) + [HP.ReplacePassive]
  {
    hide HT.HealthTracker.Valid, PT.PassiveHealthTracker.Valid, LR.LeastRequests.Valid, Keys;
    HP.EndpointCoordinator.ReplacePassiveTracker(c.passive, endpoints, c.picker.source.journal);
  }

  /** The third: membership. */
  method ApplyMembersSection(c: HP.EndpointCoordinator, endpoints: seq<Url>, ghost s: State)
    requires Mirrors(c, s) && Enabled(s, ApplyMembers) && endpoints == s.applied[|s.applied| - 1]
    modifies c.membership, c.picker.source.journal
    ensures Mirrors(c, Next(s, ApplyMembers))
    ensures c.picker.source.journal.sections == old(c.picker.source.journal.sections) + [HP.ReplaceMembers]
  {
    hide HT.HealthTracker.Valid, PT.PassiveHealthTracker.Valid, LR.LeastRequests.Valid, Keys;
    c.membership.Replace(endpoints);
  }

  // ----- Probes -----

  /** A probe that changes an endpoint's health flips it; any other leaves the state as it is. */
  method ProbeSection(c: HP.EndpointCoordinator, active: HT.HealthTracker, target: Url, success: bool, ghost s: State)
    returns (changed: bool)
    requires Mirrors(c, s) && c.active == active
    modifies active`known, active.states
    ensures changed ==> Enabled(s, Flip(target.key))
    ensures Mirrors(c, if changed then Next(s, Flip(target.key)) else s)
  {
    hide HT.HealthTracker.Valid, PT.PassiveHealthTracker.Valid, LR.LeastRequests.Valid;
    hide ActiveMirrors, PassiveMirrors, PickerMirrors, Next, Enabled;
    ghost var step := Flip(target.key);
    if Enabled(s, step) {
      OthersMirror(c, s, step);
    }
    changed := ProbeTracker(active, target, success, s);
  }

  method ProbeTracker(active: HT.HealthTracker, target: Url, success: bool, ghost s: State) returns (changed: bool)
    requires Versions(s) && active.Valid() && ActiveMirrors(active, s)
    modifies active`known, active.states
    ensures active.Valid() && (changed ==> Enabled(s, Flip(target.key)))
    ensures ActiveMirrors(active, if changed then Next(s, Flip(target.key)) else s)
  {
    FlagsAfterRecord(s, target.key, success, active.known, active.successThreshold, active.failureThreshold);
    assert active.known.Keys == Keys(active.order);
    hide HT.HealthTracker.Valid, HT.HealthyKeys, HT.AfterRecord, Keys, Flags, Next, Enabled;
    var tracked;
    if success {
      changed, tracked := active.RecordSuccess(target);
    } else {
      changed, tracked := active.RecordFailure(target);
    }
  }

  lemma FlagsAfterRecord(s: State, key: string, success: bool, known: HT.Histories, successes: int, failures: int)
    requires Versions(s) && s.config.active
    requires known.Keys == Keys(s.applied[s.active]) && Flags(s, HT.HealthyKeys(known, successes, failures))
    ensures var healthy := HT.HealthyKeys(known, successes, failures);
            var after := HT.HealthyKeys(HT.AfterRecord(known, key, success), successes, failures);
            if (key in after) == (key in healthy) then Flags(s, after)
            else Enabled(s, Flip(key)) && Versions(Next(s, Flip(key))) && Flags(Next(s, Flip(key)), after) &&
                 Next(s, Flip(key)).config == s.config && Next(s, Flip(key)).active == s.active &&
                 Next(s, Flip(key)).applied == s.applied
  {
    RecordLeavesOthers(known, key, success, successes, failures);
    hide HT.HealthyKeys, HT.AfterRecord;
  }

  lemma RecordLeavesOthers(known: HT.Histories, key: string, success: bool, successes: int, failures: int)
    ensures var after := HT.AfterRecord(known, key, success);
            after.Keys == known.Keys &&
            (forall k :: k != key ==>
               (k in HT.HealthyKeys(after, successes, failures) <==>
                k in HT.HealthyKeys(known, successes, failures))) &&
            (key !in known ==> after == known)
  {
  }

  // ----- Requests -----

  /** Recording an outcome ejects the endpoint or leaves the state as it is. */
  method OutcomeSection(c: HP.EndpointCoordinator, passive: PT.PassiveHealthTracker, permit: PT.Permit,
                        outcome: Outcome, ghost s: State, now: int) returns (ejected: bool)
    requires Mirrors(c, s) && c.passive == passive && permit in passive.issued && now == s.now
    modifies passive`ejections, passive`ledger, permit.state
    ensures ejected ==> Enabled(s, Eject(permit.target, now + passive.ejectionDuration))
    ensures Mirrors(c, if ejected then Next(s, Eject(permit.target, now + passive.ejectionDuration)) else s)
  {
    assert permit.state in passive.states;
    ghost var step := Eject(permit.target, now + passive.ejectionDuration);
    hide HT.HealthTracker.Valid, PT.PassiveHealthTracker.Valid, LR.LeastRequests.Valid;
    hide ActiveMirrors, PassiveMirrors, PickerMirrors, Next, Enabled;
    if Enabled(s, step) {
      OthersMirror(c, s, step);
    }
    ejected := OutcomeTracker(passive, permit, outcome, s, now);
    assert c.picker.picker.Valid() && (c.active != null ==> c.active.Valid());
    assert PickerMirrors(c.picker, s) && ActiveMirrors(c.active, s);
  }

  method OutcomeTracker(passive: PT.PassiveHealthTracker, permit: PT.Permit, outcome: Outcome, ghost s: State, now: int)
    returns (ejected: bool)
    requires Versions(s) && passive.Valid() && PassiveMirrors(passive, s) && permit in passive.issued && now == s.now
    modifies passive`ejections, passive`ledger, permit.state
    ensures passive.Valid() && (ejected ==> Enabled(s, Eject(permit.target, now + passive.ejectionDuration)))
    ensures var step := Eject(permit.target, now + passive.ejectionDuration);
            PassiveMirrors(passive, if ejected then Next(s, step) else s)
  {
    ghost var step := Eject(permit.target, now + passive.ejectionDuration);
    assert passive.ejectionDuration >= 1 && passive.stateByTarget.Keys == Keys(passive.ordered);
    assert permit.target in passive.stateByTarget && permit.target !in s.ejected ==> Enabled(s, step);
    if Enabled(s, step) {
      SourceStep(s, step);
    }
    hide PT.PassiveHealthTracker.Valid, Keys, Next, Enabled;
    ejected := RecordOutcome(passive, permit, outcome, now);
  }

  /** What the recording of an outcome does to the stored ejections. */
  method RecordOutcome(passive: PT.PassiveHealthTracker, permit: PT.Permit, outcome: Outcome, now: int)
    returns (ejected: bool)
    requires passive.Valid() && permit in passive.issued
    modifies passive`ejections, passive`ledger, permit.state
    ensures passive.Valid()
    ensures ejected ==> permit.target in passive.stateByTarget && permit.target !in old(passive.ejections)
    ensures passive.ejections == if ejected then old(passive.ejections)[permit.target := now + passive.ejectionDuration]
                                 else old(passive.ejections)
  {
    hide PT.PassiveHealthTracker.Valid, PT.OutcomesFor, TrailingFailures;
    ejected := passive.RecordOutcome(permit, outcome, now);
  }

  /** Asking for a permit forgives an expired ejection or leaves the state as it is. */
  method PermitSection(c: HP.EndpointCoordinator, passive: PT.PassiveHealthTracker, target: Url, ghost s: State,
                       now: int) returns (permit: Option<PT.Permit>)
    requires Mirrors(c, s) && c.passive == passive && now == s.now
    modifies passive`ejections, passive`issued, passive.states
    ensures Mirrors(c, if Enabled(s, Forgive(target.key)) then Next(s, Forgive(target.key)) else s)
    ensures permit.None? <==> !PassiveAvailable(s, target.key)
  {
    hide HT.HealthTracker.Valid, PT.PassiveHealthTracker.Valid, LR.LeastRequests.Valid, PassiveAvailable;
    hide ActiveMirrors, PassiveMirrors, PickerMirrors, Next, Enabled;
    if Enabled(s, Forgive(target.key)) {
      OthersMirror(c, s, Forgive(target.key));
    }
    permit := PermitTracker(passive, target, s, now);
  }

  method PermitTracker(passive: PT.PassiveHealthTracker, target: Url, ghost s: State, now: int)
    returns (permit: Option<PT.Permit>)
    requires Versions(s) && passive.Valid() && PassiveMirrors(passive, s) && now == s.now
    modifies passive`ejections, passive`issued, passive.states
    ensures passive.Valid()
    ensures PassiveMirrors(passive, if Enabled(s, Forgive(target.key)) then Next(s, Forgive(target.key)) else s)
    ensures permit.None? <==> !PassiveAvailable(s, target.key)
  {
    assert passive.stateByTarget.Keys == Keys(passive.ordered) && passive.ejections.Keys <= passive.stateByTarget.Keys;
    hide PT.PassiveHealthTracker.Valid, Keys;
    permit := passive.AcquirePermit(target, now);
    assert target.key !in s.ejected ==> s.ejected - {target.key} == s.ejected;
  }

  /** The atomic load at the start of the picker's Acquire. */
  method LoadSection(c: HP.EndpointCoordinator, ghost s: State) returns (open: bool)
    requires Mirrors(c, s)
    ensures open == s.available && Mirrors(c, Next(s, LoadFlag))
  {
    hide HT.HealthTracker.Valid, PT.PassiveHealthTracker.Valid, LR.LeastRequests.Valid, Keys;
    open := c.picker.available;
  }

  /** The pick that follows a load that saw the picker open. */
  method PickSection(c: HP.EndpointCoordinator, ghost s: State) returns (target: Url, permit: LR.Permit)
    requires Mirrors(c, s) && s.loads > 0
    modifies c.picker.picker`cursor, c.picker.picker`permits
    modifies c.picker.picker.endpoints`activeRequests, c.picker.picker.endpoints`holders
    ensures Enabled(s, Pick(target)) && Mirrors(c, Next(s, Pick(target)))
  {
    hide HT.HealthTracker.Valid, PT.PassiveHealthTracker.Valid, LR.LeastRequests.Valid, LR.LeastRequests.HasTargets;
    assert Mirrors(c, s.(loads := s.loads - 1));
    hide ActiveMirrors, PassiveMirrors;
    target, permit := PickTarget(c.picker.picker, s.base);
  }

  method PickTarget(picker: LR.LeastRequests, ghost base: seq<Url>) returns (target: Url, permit: LR.Permit)
    requires picker.Valid() && picker.HasTargets(base)
    modifies picker`cursor, picker`permits, picker.endpoints`activeRequests, picker.endpoints`holders
    ensures picker.Valid() && picker.HasTargets(base) && target in base
  {
    hide LR.FirstMinimum, LR.AcquireOnce, LR.LeastRequests.Valid, Wrap;
    ghost var loads, index;
    target, permit, loads, index := picker.Acquire();
    assert base[index] == target;
  }

  // ----- Refresh -----

  /** The store that shuts the picker. */
  method ShutSection(c: HP.EndpointCoordinator, ghost s: State)
    requires Mirrors(c, s) && Enabled(s, Shutting)
    modifies c.picker`available, c.picker.source.journal
    ensures Mirrors(c, Next(s, Shutting))
    ensures c.picker.source.journal.sections == old(c.picker.source.journal.sections) + [HP.Shut]
  {
    hide HT.HealthTracker.Valid, PT.PassiveHealthTracker.Valid, LR.LeastRequests.Valid, Keys;
    c.picker.ShutFlag();
  }

  method ReadMembersSection(c: HP.EndpointCoordinator, ghost s: State) returns (list: seq<Url>)
    requires Mirrors(c, s) && Enabled(s, ReadMembers)
    modifies c.picker.source.journal
    ensures c.picker.source.journal.sections == old(c.picker.source.journal.sections) + [HP.ReadMembers]
    ensures Mirrors(c, Next(s, ReadMembers)) && Next(s, ReadMembers).refresh.value.phase.list == list
  {
    hide HT.HealthTracker.Valid, PT.PassiveHealthTracker.Valid, LR.LeastRequests.Valid, Keys;
    list := c.membership.HealthyEndpoints();
  }

  lemma SameActiveKeys(c: HP.EndpointCoordinator, s: State)
    requires Mirrors(c, s)
    ensures c.picker.source.ActiveKeys() == ActiveKeys(s)
  {
    hide HT.HealthTracker.Valid, PT.PassiveHealthTracker.Valid, LR.LeastRequests.Valid, HT.HealthTracker.Healthy;
  }

  lemma SamePassiveKeys(c: HP.EndpointCoordinator, s: State, swept: State)
    requires Mirrors(c, s) && swept == s.(ejected := Unexpired(s.ejected, s.now), forgiven := {})
    ensures c.picker.source.PassiveKeys(s.now) == PassiveKeys(swept)
  {
    hide HT.HealthTracker.Valid, PT.PassiveHealthTracker.Valid, LR.LeastRequests.Valid;
  }

  method ReadActiveSection(c: HP.EndpointCoordinator, list: seq<Url>, ghost s: State) returns (kept: seq<Url>)
    requires Mirrors(c, s) && Enabled(s, ReadActive) && s.refresh.value.phase.list == list
    modifies c.picker.source.journal
    ensures c.picker.source.journal.sections == old(c.picker.source.journal.sections) + [HP.ReadActive]
    ensures Mirrors(c, Next(s, ReadActive)) && Next(s, ReadActive).refresh.value.phase.list == kept
  {
    SameActiveKeys(c, s);
    OthersMirror(c, s, ReadActive);
    assert Next(s, ReadActive).refresh.value.phase.list == KeepKeys(list, ActiveKeys(s));
    hide HT.HealthTracker.Valid, PT.PassiveHealthTracker.Valid, LR.LeastRequests.Valid, KeepKeys, ActiveKeys;
    hide ActiveMirrors, PassiveMirrors, PickerMirrors, Next, Enabled, HP.CompositeHealthSource.ActiveKeys;
    kept := c.picker.source.RetainActive(list);
  }

  method ReadPassiveSection(c: HP.EndpointCoordinator, list: seq<Url>, ghost s: State, now: int)
    returns (kept: seq<Url>)
    requires Mirrors(c, s) && Enabled(s, ReadPassive) && s.refresh.value.phase.list == list && now == s.now
    modifies c.passive, if c.passive == null then {} else c.passive.states
    modifies c.picker.source.journal
    ensures c.picker.source.journal.sections == old(c.picker.source.journal.sections) + [HP.ReadPassive]
    ensures Mirrors(c, Next(s, ReadPassive)) && Next(s, ReadPassive).refresh.value.phase.list == kept
  {
    ghost var swept := s.(ejected := Unexpired(s.ejected, s.now), forgiven := {});
    SamePassiveKeys(c, s, swept);
    OthersMirror(c, s, ReadPassive);
    SourceStep(s, ReadPassive);
    assert Next(s, ReadPassive).refresh.value.phase.list == KeepKeys(list, PassiveKeys(swept));
    hide HT.HealthTracker.Valid, PT.PassiveHealthTracker.Valid, LR.LeastRequests.Valid, KeepKeys, PassiveKeys;
    hide ActiveMirrors, PickerMirrors, Next, Enabled, HP.CompositeHealthSource.PassiveKeys, Unexpired;
    kept := c.picker.source.RetainPassive(list, now);
    assert c.picker.picker.Valid() && (c.active != null ==> c.active.Valid());
  }

  /** The end of a Refresh that read nothing, or the replacement of the base picker's snapshot. */
  method PublishSection(c: HP.EndpointCoordinator, list: seq<Url>, ghost s: State)
    requires Mirrors(c, s) && Enabled(s, Publish) && s.refresh.value.phase.list == list && !s.available
    modifies c.picker.picker`endpoints, c.picker.picker`cursor, c.picker.picker`known
    modifies c.picker.picker.endpoints`target, c.picker.source.journal
    ensures Mirrors(c, Next(s, Publish))
    ensures c.picker.source.journal.sections ==
            old(c.picker.source.journal.sections) + (if list == [] then [] else [HP.ReplaceBase])
  {
    hide HT.HealthTracker.Valid, PT.PassiveHealthTracker.Valid, LR.LeastRequests.Valid, Keys;
    hide LR.LeastRequests.HasTargets;
    if list == [] {
      return;
    }
    var ok := c.picker.ReplaceSnapshot(list);
  }

  /** The store that opens the picker again. */
  method ReopenSection(c: HP.EndpointCoordinator, ghost s: State)
    requires Mirrors(c, s) && Enabled(s, Reopen) && !s.available
    modifies c.picker`available, c.picker.source.journal
    ensures Mirrors(c, Next(s, Reopen))
    ensures c.picker.source.journal.sections == old(c.picker.source.journal.sections) + [HP.Open]
  {
    hide HT.HealthTracker.Valid, PT.PassiveHealthTracker.Valid, LR.LeastRequests.Valid, Keys;
    c.picker.OpenFlag();
  }

  /** The precondition of the last two sections holds in every run: the flag stays down from its
      first store on. */
  lemma ShutMeanwhile(s: State)
    requires Reachable(s) && s.refresh.Some? && !s.refresh.value.phase.Locked?
    ensures !s.available
  {
    hide Reachable;
    InvHolds(s);
  }

  /** What each step of a Refresh makes possible, and what it leaves alone. */
  lemma NextInRefresh(s: State, step: Step)
    requires Enabled(s, step)
    requires step in {Shutting, ReadMembers, ReadActive, ReadPassive, Publish, Reopen}
    ensures var t := Next(s, step);
            t.now == s.now &&
            match step
            case Shutting => Enabled(t, ReadMembers) && !t.available
            case ReadMembers => Enabled(t, ReadActive) && t.available == s.available
            case ReadActive => Enabled(t, ReadPassive) && t.available == s.available
            case ReadPassive => Enabled(t, Publish) && t.available == s.available
            case Publish =>
              t.available == s.available &&
              if s.refresh.value.phase.list == [] then t.refresh.None? else Enabled(t, Reopen)
            case Reopen => t.refresh.None? && t.available
            case _ => true
  {
    hide Keys, KeepKeys, Unexpired, ActiveKeys, PassiveKeys;
  }

  /** The steps of a Refresh from the moment it holds the picker's mutex. */
  function RefreshSteps(reopened: bool): seq<Step> {
    [Shutting, ReadMembers, ReadActive, ReadPassive, Publish] + (if reopened then [Reopen] else [])
  }

  /** With nothing in between, the sections of HealthAwarePicker.Refresh, in their order, are a run
      of the protocol that ends the Refresh. In any other order some step would not be enabled. */
  method RefreshRun(c: HP.EndpointCoordinator, ghost s: State, now: int) returns (ghost t: State)
    requires Mirrors(c, s) && Enabled(s, Shutting) && now == s.now
    modifies c.picker`available, c.picker.source.journal
    modifies c.passive, if c.passive == null then {} else c.passive.states
    modifies c.picker.picker`endpoints, c.picker.picker`cursor, c.picker.picker`known
    modifies c.picker.picker.endpoints`target
    ensures Ran(s, RefreshSteps(c.picker.available), t)
    ensures Mirrors(c, t) && t.refresh.None?
    ensures c.picker.source.journal.sections ==
            old(c.picker.source.journal.sections) + HP.RefreshSections(c.picker.available)
  {
    hide Mirrors, Next, Enabled, Run, Runnable;
    ghost var read;
    var list;
    list, read := ReadsRun(c, s, now);
    PublishSection(c, list, read);
    t := Advanced(s, ReadSteps(), read, Publish);
    assert ReadSteps() + [Publish] == RefreshSteps(false);
    if list != [] {
      ReopenSection(c, t);
      t := Advanced(s, RefreshSteps(false), t, Reopen);
      assert RefreshSteps(false) + [Reopen] == RefreshSteps(true);
    }
    MirrorsFlag(c, t);
  }

  function ReadSteps(): seq<Step> {
    [Shutting, ReadMembers, ReadActive, ReadPassive]
  }

  ghost predicate Ran(s: State, steps: seq<Step>, t: State) {
    Runnable(s, steps) && t == Run(s, steps)
  }

  ghost predicate HasRead(s: State, list: seq<Url>) {
    Enabled(s, Publish) && s.refresh.value.phase.list == list && !s.available
  }

  /** The part up to the reads. */
  method ReadsRun(c: HP.EndpointCoordinator, ghost s: State, now: int) returns (list: seq<Url>, ghost t: State)
    requires Mirrors(c, s) && Enabled(s, Shutting) && now == s.now
    modifies c.picker`available, c.picker.source.journal
    modifies c.passive, if c.passive == null then {} else c.passive.states
    ensures Mirrors(c, t) && Ran(s, ReadSteps(), t) && HasRead(t, list)
    ensures c.picker.source.journal.sections ==
            old(c.picker.source.journal.sections) + [HP.Shut, HP.ReadMembers, HP.ReadActive, HP.ReadPassive]
  {
    hide Mirrors, Next, Enabled, Run, Runnable;
    ghost var t1 := Begun(s);
    ShutSection(c, s);
    list := ReadMembersSection(c, t1);
    ghost var t2 := Advanced(s, [Shutting], t1, ReadMembers);
    list := ReadActiveSection(c, list, t2);
    assert [Shutting] + [ReadMembers] == [Shutting, ReadMembers];
    ghost var t3 := Advanced(s, [Shutting, ReadMembers], t2, ReadActive);
    list := ReadPassiveSection(c, list, t3, now);
    assert [Shutting, ReadMembers] + [ReadActive] == [Shutting, ReadMembers, ReadActive];
    t := Advanced(s, [Shutting, ReadMembers, ReadActive], t3, ReadPassive);
    assert [Shutting, ReadMembers, ReadActive] + [ReadPassive] == ReadSteps();
  }

  lemma MirrorsFlag(c: HP.EndpointCoordinator, s: State)
    requires Mirrors(c, s)
    ensures c.picker.available == s.available
  {
  }

  lemma Begun(s: State) returns (t: State)
    requires Enabled(s, Shutting)
    ensures t == Next(s, Shutting) && Runnable(s, [Shutting]) && t == Run(s, [Shutting])
    ensures t.now == s.now && Enabled(t, ReadMembers) && !t.available
  {
    t := Next(s, Shutting);
    NextInRefresh(s, Shutting);
    hide Next, Enabled;
    RunAppend(s, [], Shutting);
    assert [] + [Shutting] == [Shutting];
  }

  /** One more step of a Refresh at the end of a run. */
  lemma Advanced(s: State, steps: seq<Step>, before: State, step: Step) returns (t: State)
    requires Runnable(s, steps) && before == Run(s, steps) && Enabled(before, step)
    requires step in {ReadMembers, ReadActive, ReadPassive, Publish, Reopen}
    ensures t == Next(before, step) && Runnable(s, steps + [step]) && t == Run(s, steps + [step]) && t.now == before.now
    ensures match step
            case ReadMembers => Enabled(t, ReadActive) && t.available == before.available
            case ReadActive => Enabled(t, ReadPassive) && t.available == before.available
            case ReadPassive => Enabled(t, Publish) && t.available == before.available
            case Publish =>
              t.available == before.available &&
              if before.refresh.value.phase.list == [] then t.refresh.None? else Enabled(t, Reopen)
            case Reopen => t.refresh.None? && t.available
            case _ => true
  {
    t := Next(before, step);
    NextInRefresh(before, step);
    hide Next;
    RunAppend(s, steps, step);
  }

  // ----- The recovery loop -----

  /** The loop's look at the tracker; `until` is what it will wait for. */
  method LookSection(c: HP.EndpointCoordinator, passive: PT.PassiveHealthTracker, ghost s: State, now: int)
    returns (delay: int, pending: bool, ghost until: Option<int>)
    requires Mirrors(c, s) && c.passive == passive && now == s.now && s.observer == AtTop
    ensures Enabled(s, Look(until)) && Mirrors(c, Next(s, Look(until)))
    ensures pending == until.Some? && (pending ==> delay == Max(0, until.value - now))
  {
    hide HT.HealthTracker.Valid, PT.PassiveHealthTracker.Valid, LR.LeastRequests.Valid, Keys;
    delay, pending := passive.NextRecoveryDelay(now);
    until := None;
    if pending {
      ghost var k :| k in passive.ejections && delay == Max(0, passive.ejections[k] - now) &&
                     forall j :: j in passive.ejections ==> passive.ejections[k] <= passive.ejections[j];
      until := Some(passive.ejections[k]);
    }
  }

  /** The read with which the loop answers its timer. */
  method FireSection(c: HP.EndpointCoordinator, passive: PT.PassiveHealthTracker, ghost s: State, now: int)
    requires Mirrors(c, s) && c.passive == passive && now == s.now && Enabled(s, Fire)
    modifies passive`ejections, passive.states
    ensures Mirrors(c, Next(s, Fire))
  {
    hide HT.HealthTracker.Valid, PT.PassiveHealthTracker.Valid, LR.LeastRequests.Valid, Keys;
    var recovered := passive.HealthyEndpoints(now);
  }
}
