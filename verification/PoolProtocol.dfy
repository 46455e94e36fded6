/**
  The health-aware upstream pool as a protocol between concurrent actors.

  Membership, active health, passive ejection and the picker are guarded by
  different locks. One locked section, or one atomic load or store, is one `Step`;
  steps of different actors interleave freely. The actors are
    - the DNS watcher, applying endpoint lists (internal/upstream/endpoint_coordinator.go),
    - health probes that flip an endpoint's active health,
    - requests that eject an endpoint, find an ejection expired, or acquire a target,
    - the observer that waits for recoveries (cmd/devgate/passive_health_observer.go).
  Whoever changes a source owes a `Refresh` of the picker
  (internal/upstream/health_aware_picker.go), and Refresh is itself six steps.
 */
module PoolProtocol {
  import opened Common

  /** Which of the two optional trackers the route has. */
  datatype Config = Config(active: bool, passive: bool)

  /** Why a Refresh is owed. */
  datatype Cause =
    | Started
    | Applied
    | Flipped(key: string)
    | Ejected(key: string)
    | Recovered

  /** Which applied lists a snapshot was read from: membership, active and passive tracker. */
  datatype Origin = Origin(members: nat, active: nat, passive: nat)

  /** How far a running Refresh has come, with what it has read so far. */
  datatype Phase =
    | Locked
    | Shut
    | GotMembers(list: seq<Url>, origin: Origin)
    | GotActive(list: seq<Url>, origin: Origin)
    | GotPassive(list: seq<Url>, origin: Origin)
    | Replaced

  datatype Refresh = Refresh(cause: Cause, phase: Phase)

  /** How far the running Apply has come. */
  datatype ApplyPhase = NoApply | ActiveDone | PassiveDone | MembersDone

  /** Where the recovery loop is; `until` is the earliest deadline it saw. */
  datatype Observer = AtTop | Parked | Waiting(until: int) | Recovering

  datatype State = State(
    config: Config,
    now: int,
    applied: seq<seq<Url>>,       // every list handed to Apply, the initial one first
    members: nat,                 // the index of the list that membership holds,
    active: nat,                  // that the active tracker holds,
    passive: nat,                 // and that the passive tracker holds
    unhealthy: set<string>,       // tracked keys whose active health is down
    ejected: map<string, int>,    // stored ejections and their deadlines
    available: bool,
    base: seq<Url>,               // the base picker's snapshot
    published: Option<Origin>,    // where it came from, once a Refresh has replaced it
    refresh: Option<Refresh>,     // the Refresh holding the picker's mutex
    owed: multiset<Cause>,        // refreshes not begun yet
    apply: ApplyPhase,
    observer: Observer,
    wake: bool,                   // the one-place wake channel
    signals: nat,                 // ejections refreshed but not yet signalled
    forgiven: set<string>,        // ejections acquirePermit cleared since the passive tracker was last read
    loads: nat                    // Acquire calls that have seen the picker open and not picked yet
  )

  datatype Step =
    | Tick(to: int)
    | ApplyActive(list: seq<Url>)
    | ApplyPassive
    | ApplyMembers
    | Flip(key: string)
    | Eject(key: string, deadline: int)
    | Forgive(key: string)
    | Begin(cause: Cause)
    | Shutting
    | ReadMembers
    | ReadActive
    | ReadPassive
    | Publish
    | Reopen
    | Look(until: Option<int>)
    | Signal
    | WakeUp
    | Fire
    | LoadFlag
    | Pick(target: Url)

  function Start(config: Config, endpoints: seq<Url>, now: int): State {
    State(config, now, [endpoints], 0, 0, 0, {}, map[], false, endpoints, None, None,
          multiset{Started}, NoApply, AtTop, false, 0, {}, 0)
  }

  // ----- What the sources report -----

  predicate Versions(s: State) {
    s.members < |s.applied| && s.active < |s.applied| && s.passive < |s.applied|
  }

  function Members(s: State): seq<Url>
    requires Versions(s)
  {
    s.applied[s.members]
  }

  predicate ActiveOk(s: State, key: string)
    requires Versions(s)
  {
    s.config.active ==> key in Keys(s.applied[s.active]) && key !in s.unhealthy
  }

  /** The passive tracker knows the key and stores no ejection of it, not even an expired one. */
  predicate NotEjected(s: State, key: string)
    requires Versions(s)
  {
    s.config.passive ==> key in Keys(s.applied[s.passive]) && key !in s.ejected
  }

  ghost function ActiveKeys(s: State): iset<string>
    requires Versions(s)
  {
    iset k | ActiveOk(s, k)
  }

  ghost function PassiveKeys(s: State): iset<string>
    requires Versions(s)
  {
    iset k | NotEjected(s, k)
  }

  // ----- The steps -----

  predicate Enabled(s: State, step: Step) {
    Versions(s) &&
    match step
    case Tick(to) => to >= s.now
    case ApplyActive(_) => s.apply == NoApply
    case ApplyPassive => s.apply == ActiveDone
    case ApplyMembers => s.apply == PassiveDone
    case Flip(key) => s.config.active && key in Keys(s.applied[s.active])
    case Eject(key, deadline) =>
      s.config.passive && key in Keys(s.applied[s.passive]) && key !in s.ejected && deadline > s.now
    case Forgive(key) => key in s.ejected && s.now >= s.ejected[key]
    case Begin(cause) => s.refresh.None? && cause in s.owed
    case Shutting => s.refresh.Some? && s.refresh.value.phase.Locked?
    case ReadMembers => s.refresh.Some? && s.refresh.value.phase.Shut?
    case ReadActive => s.refresh.Some? && s.refresh.value.phase.GotMembers?
    case ReadPassive => s.refresh.Some? && s.refresh.value.phase.GotActive?
    case Publish => s.refresh.Some? && s.refresh.value.phase.GotPassive?
    case Reopen => s.refresh.Some? && s.refresh.value.phase.Replaced?
    case Look(until) =>
      s.observer == AtTop &&
      (match until
       case None => s.ejected == map[]
       case Some(t) => (exists k :: k in s.ejected && s.ejected[k] == t) &&
                       (forall k :: k in s.ejected ==> t <= s.ejected[k]))
    case Signal => s.signals > 0
    case WakeUp => s.wake && (s.observer.Parked? || s.observer.Waiting?)
    case Fire => s.observer.Waiting? && s.now >= s.observer.until
    case LoadFlag => true
    case Pick(target) => s.loads > 0 && target in s.base
  }

  function InPhase(s: State, phase: Phase): State
    requires s.refresh.Some?
  {
    s.(refresh := Some(Refresh(s.refresh.value.cause, phase)))
  }

  /** The end of a Refresh: its caller goes on. */
  function Finished(s: State): State
    requires s.refresh.Some?
  {
    var cause := s.refresh.value.cause;
    s.(refresh := None,
       apply := if cause.Applied? then NoApply else s.apply,
       signals := if cause.Ejected? then s.signals + 1 else s.signals,
       observer := if cause.Recovered? then AtTop else s.observer)
  }

  ghost function Next(s: State, step: Step): State
    requires Enabled(s, step)
  {
    match step
    case Tick(to) => s.(now := to)
    case ApplyActive(list) =>
      s.(applied := s.applied + [list], active := |s.applied|,
         unhealthy := s.unhealthy * Keys(list), apply := ActiveDone)
    case ApplyPassive =>
      var last := |s.applied| - 1;
      s.(passive := last, ejected := OnlyKeys(s.ejected, Keys(s.applied[last])), apply := PassiveDone)
    case ApplyMembers =>
      s.(members := |s.applied| - 1, apply := MembersDone, owed := s.owed + multiset{Applied})
    case Flip(key) =>
      s.(unhealthy := if key in s.unhealthy then s.unhealthy - {key} else s.unhealthy + {key},
         owed := s.owed + multiset{Flipped(key)})
    case Eject(key, deadline) =>
      s.(ejected := s.ejected[key := deadline], owed := s.owed + multiset{Ejected(key)})
    case Forgive(key) =>
      s.(ejected := s.ejected - {key}, forgiven := s.forgiven + {key})
    case Begin(cause) =>
      s.(owed := s.owed - multiset{cause}, refresh := Some(Refresh(cause, Locked)))
    case Shutting => InPhase(s, Shut).(available := false)
    case ReadMembers =>
      InPhase(s, GotMembers(Members(s), Origin(s.members, s.members, s.members)))
    case ReadActive =>
      var got := s.refresh.value.phase;
      InPhase(s, GotActive(KeepKeys(got.list, ActiveKeys(s)), got.origin.(active := s.active)))
    case ReadPassive =>
      var got := s.refresh.value.phase;
      var swept := s.(ejected := Unexpired(s.ejected, s.now), forgiven := {});
      InPhase(swept, GotPassive(KeepKeys(got.list, PassiveKeys(swept)), got.origin.(passive := s.passive)))
    case Publish =>
      var got := s.refresh.value.phase;
      if got.list == [] then Finished(s)
      else InPhase(s, Replaced).(base := got.list, published := Some(got.origin))
    case Reopen => Finished(s.(available := true))
    case Look(until) =>
      s.(observer := if until.None? then Parked else Waiting(until.value))
    case Signal => s.(signals := s.signals - 1, wake := true)
    case WakeUp => s.(wake := false, observer := AtTop)
    case Fire =>
      s.(ejected := Unexpired(s.ejected, s.now), observer := Recovering,
         owed := s.owed + multiset{Recovered})
    case LoadFlag => if s.available then s.(loads := s.loads + 1) else s
    case Pick(_) => s.(loads := s.loads - 1)
  }

  ghost predicate Runnable(s: State, steps: seq<Step>)
    decreases |steps|
  {
    steps == [] || (Enabled(s, steps[0]) && Runnable(Next(s, steps[0]), steps[1..]))
  }

  ghost function Run(s: State, steps: seq<Step>): State
    requires Runnable(s, steps)
    decreases |steps|
  {
    if steps == [] then s else Run(Next(s, steps[0]), steps[1..])
  }

  // ----- Bookkeeping shared by all invariants -----

  predicate RunningApplied(s: State) {
    s.refresh.Some? && s.refresh.value.cause.Applied?
  }

  /** Trackers run ahead of membership, by at most the Apply in progress. */
  ghost predicate Shape(s: State) {
    var last := |s.applied| - 1;
    Versions(s) &&
    (match s.apply
     case NoApply => s.members == s.active == s.passive == last
     case ActiveDone => s.active == last && s.members == s.passive == last - 1
     case PassiveDone => s.active == s.passive == last && s.members == last - 1
     case MembersDone => s.members == s.active == s.passive == last) &&
    s.owed[Applied] + (if RunningApplied(s) then 1 else 0) == (if s.apply.MembersDone? then 1 else 0) &&
    s.unhealthy <= Keys(s.applied[s.active]) &&
    s.ejected.Keys <= Keys(s.applied[s.passive]) &&
    (!s.config.passive ==> s.ejected == map[])
  }

  predicate IsApply(step: Step) {
    step.ApplyActive? || step.ApplyPassive? || step.ApplyMembers?
  }

  predicate IsRefresh(step: Step) {
    step.Begin? || step.Shutting? || step.ReadMembers? || step.ReadActive? || step.ReadPassive? ||
    step.Publish? || step.Reopen?
  }

  lemma ShapeApply(s: State, step: Step)
    requires Shape(s) && Enabled(s, step) && IsApply(step)
    ensures Shape(Next(s, step))
  {
  }

  lemma ShapeBegin(s: State, step: Step)
    requires Shape(s) && Enabled(s, step) && step.Begin?
    ensures Shape(Next(s, step))
  {
    hide Keys;
  }

  lemma ShapeFinished(s: State)
    requires Shape(s) && s.refresh.Some?
    ensures Shape(Finished(s))
  {
    hide Keys;
  }

  /** Everything Shape reads is the same, or fewer ejections are stored. */
  lemma ShapeKept(s: State, s': State)
    requires Shape(s)
    requires s'.config == s.config && s'.applied == s.applied && s'.unhealthy == s.unhealthy
    requires s'.members == s.members && s'.active == s.active && s'.passive == s.passive
    requires s'.apply == s.apply && s'.owed == s.owed && RunningApplied(s') == RunningApplied(s)
    requires forall k :: k in s'.ejected ==> k in s.ejected
    ensures Shape(s')
  {
    assert !s.config.passive ==> s'.ejected == map[];
  }

  lemma ShapeRefresh(s: State, step: Step)
    requires Shape(s) && Enabled(s, step) && IsRefresh(step)
    ensures Shape(Next(s, step))
  {
    if step.Begin? {
      ShapeBegin(s, step);
    } else if step.Publish? && s.refresh.value.phase.list == [] {
      ShapeFinished(s);
    } else if step.Reopen? {
      ShapeKept(s, s.(available := true));
      ShapeFinished(s.(available := true));
    } else {
      hide Shape, KeepKeys;
      ShapeKept(s, Next(s, step));
    }
  }

  lemma ShapeOther(s: State, step: Step)
    requires Shape(s) && Enabled(s, step) && !IsApply(step) && !IsRefresh(step)
    ensures Shape(Next(s, step))
  {
    hide Keys;
  }

  lemma ShapeNext(s: State, step: Step)
    requires Shape(s) && Enabled(s, step)
    ensures Shape(Next(s, step))
  {
    hide Shape, Enabled, Next;
    if IsApply(step) {
      ShapeApply(s, step);
    } else if IsRefresh(step) {
      ShapeRefresh(s, step);
    } else {
      ShapeOther(s, step);
    }
  }

  // ----- No snapshot mixes two applied lists -----

  ghost function KeySet(list: seq<Url>): iset<string> {
    iset k | k in Keys(list)
  }

  /** `list` is `whole` with some keys left out: order and multiplicity are kept. */
  ghost predicate Sublist(list: seq<Url>, whole: seq<Url>) {
    list == KeepKeys(whole, KeySet(list))
  }

  lemma FilteredIsSublist(whole: seq<Url>, allowed: iset<string>)
    ensures Sublist(KeepKeys(whole, allowed), whole)
  {
    var list := KeepKeys(whole, allowed);
    forall u | u in whole ensures u.key in allowed <==> u.key in KeySet(list) {
      if u.key in Keys(list) {
        var v :| v in list && v.key == u.key;
      }
    }
    KeepKeysAgree(whole, allowed, KeySet(list));
  }

  lemma SublistFiltered(list: seq<Url>, whole: seq<Url>, allowed: iset<string>)
    requires Sublist(list, whole)
    ensures Sublist(KeepKeys(list, allowed), whole)
  {
    KeepKeysTwice(whole, KeySet(list), allowed);
    FilteredIsSublist(whole, KeySet(list) * allowed);
  }

  lemma SublistSelf(list: seq<Url>)
    ensures Sublist(list, list)
  {
    KeepKeysAll(list, KeySet(list));
  }

  /** `list` comes from one applied list, and every endpoint in it was tracked by
      tracker snapshots at least as new as that list. */
  ghost predicate FromOne(s: State, list: seq<Url>, o: Origin) {
    o.members <= o.active < |s.applied| && o.members <= o.passive < |s.applied| &&
    Sublist(list, s.applied[o.members]) &&
    (s.config.active ==> Keys(list) <= Keys(s.applied[o.active])) &&
    (s.config.passive ==> Keys(list) <= Keys(s.applied[o.passive]))
  }

  ghost predicate PhaseFromOne(s: State, phase: Phase) {
    match phase
    case Locked => true
    case Shut => true
    case GotMembers(list, o) => FromOne(s, list, o) && o.members <= s.members
    case GotActive(list, o) => FromOne(s, list, o) && o.members <= s.members
    case GotPassive(list, o) => FromOne(s, list, o) && o.members <= s.members
    case Replaced => s.published.Some?
  }

  ghost predicate Origins(s: State) {
    (s.published.Some? ==> FromOne(s, s.base, s.published.value)) &&
    (s.available || s.loads > 0 ==> s.published.Some?) &&
    (s.refresh.Some? ==> PhaseFromOne(s, s.refresh.value.phase))
  }

  lemma FromOneGrows(s: State, s': State, list: seq<Url>, o: Origin)
    requires FromOne(s, list, o) && s'.config == s.config
    requires |s.applied| <= |s'.applied| && forall i :: 0 <= i < |s.applied| ==> s'.applied[i] == s.applied[i]
    ensures FromOne(s', list, o)
  {
  }

  /** Steps that read and publish nothing. */
  predicate Quiet(s: State, s': State) {
    s'.config == s.config && s'.base == s.base && s'.published == s.published &&
    s'.members >= s.members &&
    |s.applied| <= |s'.applied| && (forall i :: 0 <= i < |s.applied| ==> s'.applied[i] == s.applied[i])
  }

  lemma OriginsKept(s: State, s': State)
    requires Origins(s) && Quiet(s, s')
    requires s'.available || s'.loads > 0 ==> s.available || s.loads > 0 || s.published.Some?
    requires s'.refresh.None? ||
             (s'.refresh.Some? && (s'.refresh.value.phase.Locked? || s'.refresh.value.phase.Shut?)) ||
             (s.refresh.Some? && s'.refresh == s.refresh)
    ensures Origins(s')
  {
    if s.published.Some? {
      FromOneGrows(s, s', s.base, s.published.value);
    }
    if s.refresh.Some? && s'.refresh == s.refresh {
      match s.refresh.value.phase
      case GotMembers(list, o) => FromOneGrows(s, s', list, o);
      case GotActive(list, o) => FromOneGrows(s, s', list, o);
      case GotPassive(list, o) => FromOneGrows(s, s', list, o);
      case _ =>
    }
  }

  lemma OriginsReadMembers(s: State, step: Step)
    requires Shape(s) && Origins(s) && Enabled(s, step) && step.ReadMembers?
    ensures Origins(Next(s, step))
  {
    SublistSelf(Members(s));
  }

  lemma OriginsReadActive(s: State, step: Step)
    requires Shape(s) && Origins(s) && Enabled(s, step) && step.ReadActive?
    ensures Origins(Next(s, step))
  {
    var got := s.refresh.value.phase;
    SublistFiltered(got.list, s.applied[got.origin.members], ActiveKeys(s));
    assert Keys(KeepKeys(got.list, ActiveKeys(s))) <= Keys(got.list);
  }

  lemma OriginsReadPassive(s: State, step: Step)
    requires Shape(s) && Origins(s) && Enabled(s, step) && step.ReadPassive?
    ensures Origins(Next(s, step))
  {
    var got := s.refresh.value.phase;
    var swept := s.(ejected := Unexpired(s.ejected, s.now), forgiven := {});
    SublistFiltered(got.list, s.applied[got.origin.members], PassiveKeys(swept));
    assert Keys(KeepKeys(got.list, PassiveKeys(swept))) <= Keys(got.list);
  }

  lemma OriginsPublish(s: State, step: Step)
    requires Shape(s) && Origins(s) && Enabled(s, step) && step.Publish?
    ensures Origins(Next(s, step))
  {
    hide FromOne, Shape;
    var got := s.refresh.value.phase;
    if got.list == [] {
      OriginsKept(s, Next(s, step));
    } else {
      FromOneGrows(s, Next(s, step), got.list, got.origin);
    }
  }

  predicate ReadsOrPublishes(step: Step) {
    step.ReadMembers? || step.ReadActive? || step.ReadPassive? || step.Publish?
  }

  lemma QuietApply(s: State, step: Step)
    requires Shape(s) && Enabled(s, step) && IsApply(step)
    ensures Quiet(s, Next(s, step))
  {
    hide KeepKeys, Keys, OnlyKeys;
  }

  lemma QuietSteps(s: State, step: Step)
    requires Shape(s) && Enabled(s, step) && !ReadsOrPublishes(step)
    ensures Quiet(s, Next(s, step))
  {
    if IsApply(step) {
      QuietApply(s, step);
    } else {
      hide KeepKeys, Keys, Finished, OnlyKeys, Unexpired, Shape;
      if step.Reopen? {
        FinishedIsQuiet(s.(available := true));
      }
    }
  }

  lemma FinishedIsQuiet(s: State)
    requires s.refresh.Some?
    ensures Quiet(s, Finished(s)) && Finished(s).refresh.None?
    ensures Finished(s).available == s.available && Finished(s).loads == s.loads
  {
  }

  lemma OriginsQuiet(s: State, step: Step)
    requires Shape(s) && Origins(s) && Enabled(s, step) && !ReadsOrPublishes(step)
    ensures Origins(Next(s, step))
  {
    var s' := Next(s, step);
    QuietSteps(s, step);
    hide Shape, FromOne, Quiet, Keys, KeepKeys, OnlyKeys, Unexpired;
    OriginsKept(s, s');
  }

  lemma OriginsNext(s: State, step: Step)
    requires Shape(s) && Origins(s) && Enabled(s, step)
    ensures Origins(Next(s, step))
  {
    hide Shape, Origins, Enabled, Next;
    if step.ReadMembers? {
      OriginsReadMembers(s, step);
    } else if step.ReadActive? {
      OriginsReadActive(s, step);
    } else if step.ReadPassive? {
      OriginsReadPassive(s, step);
    } else if step.Publish? {
      OriginsPublish(s, step);
    } else {
      OriginsQuiet(s, step);
    }
  }

  // ----- With nothing owed, the picker is exactly the health filter -----

  /** Some actor has changed a source and its Refresh has not begun. */
  predicate Pending(s: State) {
    s.owed != multiset{} || s.apply.ActiveDone? || s.apply.PassiveDone?
  }

  ghost predicate Good(s: State, key: string)
    requires Versions(s)
  {
    ActiveOk(s, key) && NotEjected(s, key) && key !in s.forgiven
  }

  ghost function GoodKeys(s: State): iset<string>
    requires Versions(s)
  {
    iset k | Good(s, k)
  }

  /** What the picker should offer: the members both trackers call healthy, in order. */
  ghost function Expected(s: State): seq<Url>
    requires Versions(s)
  {
    KeepKeys(Members(s), GoodKeys(s))
  }

  ghost predicate ExactPhase(s: State)
    requires Versions(s)
  {
    match s.refresh
    case None => s.available == (Expected(s) != []) && (s.available ==> s.base == Expected(s))
    case Some(r) =>
      match r.phase
      case Locked => true
      case Shut => true
      case GotMembers(list, _) => list == Members(s)
      case GotActive(list, _) => list == KeepKeys(Members(s), ActiveKeys(s))
      case GotPassive(list, _) => list == Expected(s)
      case Replaced => s.base == Expected(s) != []
  }

  ghost predicate Exact(s: State) {
    Versions(s) &&
    (s.refresh.Some? && !s.refresh.value.phase.Locked? ==> !s.available) &&
    (!Pending(s) ==> ExactPhase(s))
  }

  /** Steps that owe a Refresh keep the claim about quiet moments vacuous. */
  lemma ExactOwing(s: State, step: Step)
    requires Shape(s) && Exact(s) && Enabled(s, step)
    requires IsApply(step) || step.Flip? || step.Eject? || step.Fire?
    ensures Exact(Next(s, step))
  {
    hide KeepKeys, Keys, GoodKeys, ActiveKeys, ExactPhase;
    var s' := Next(s, step);
    assert s'.apply.ActiveDone? || s'.apply.PassiveDone? || s'.owed != multiset{} by {
      if step.ApplyMembers? { assert Applied in s'.owed; }
      if step.Flip? { assert Flipped(step.key) in s'.owed; }
      if step.Eject? { assert Ejected(step.key) in s'.owed; }
      if step.Fire? { assert Recovered in s'.owed; }
    }
    ShapeNext(s, step);
  }

  /** Nothing the claim reads has changed. */
  lemma ExactKept(s: State, s': State)
    requires Exact(s) && Versions(s')
    requires s'.owed == s.owed && s'.apply == s.apply && s'.refresh == s.refresh
    requires s'.available == s.available && s'.base == s.base
    requires Members(s') == Members(s) && ActiveKeys(s') == ActiveKeys(s) && GoodKeys(s') == GoodKeys(s)
    ensures Exact(s')
  {
  }

  lemma ExactIdle(s: State, step: Step)
    requires Shape(s) && Exact(s) && Enabled(s, step)
    requires step.Tick? || step.Look? || step.Signal? || step.WakeUp? || step.LoadFlag? || step.Pick?
    ensures Exact(Next(s, step))
  {
    hide KeepKeys, Keys;
    var s' := Next(s, step);
    assert forall k :: (ActiveOk(s', k) <==> ActiveOk(s, k)) && (NotEjected(s', k) <==> NotEjected(s, k));
    assert ActiveKeys(s') == ActiveKeys(s) && GoodKeys(s') == GoodKeys(s);
    ExactKept(s, s');
  }

  /** An expired ejection that acquirePermit clears stays unpublished: no Refresh is owed for it. */
  lemma ExactForgive(s: State, step: Step)
    requires Shape(s) && Exact(s) && Enabled(s, step) && step.Forgive?
    ensures Exact(Next(s, step))
  {
    hide KeepKeys, Keys;
    var s' := Next(s, step);
    forall k ensures ActiveOk(s', k) <==> ActiveOk(s, k) {}
    forall k ensures Good(s', k) <==> Good(s, k) {}
    assert ActiveKeys(s') == ActiveKeys(s) && GoodKeys(s') == GoodKeys(s);
    ExactKept(s, s');
  }

  lemma ExactBegin(s: State, step: Step)
    requires Shape(s) && Exact(s) && Enabled(s, step)
    requires step.Begin? || step.Shutting? || step.ReadMembers?
    ensures Exact(Next(s, step))
  {
    hide KeepKeys, Keys, GoodKeys, ActiveKeys, Expected;
  }

  lemma ExactReadActive(s: State, step: Step)
    requires Shape(s) && Exact(s) && Enabled(s, step) && step.ReadActive?
    ensures Exact(Next(s, step))
  {
    hide KeepKeys, Keys;
    assert ActiveKeys(Next(s, step)) == ActiveKeys(s);
  }

  lemma ExactReadPassive(s: State, step: Step)
    requires Shape(s) && Exact(s) && Enabled(s, step) && step.ReadPassive?
    ensures Exact(Next(s, step))
  {
    hide KeepKeys, Keys;
    var s' := Next(s, step);
    var swept := s.(ejected := Unexpired(s.ejected, s.now), forgiven := {});
    KeepKeysTwice(Members(s), ActiveKeys(s), PassiveKeys(swept));
    forall k ensures Good(s', k) <==> k in ActiveKeys(s) && k in PassiveKeys(swept) {}
    assert GoodKeys(s') == ActiveKeys(s) * PassiveKeys(swept);
  }

  /** Publishing touches no source. */
  lemma SourcesKept(s: State, step: Step)
    requires Enabled(s, step) && (step.Publish? || step.Reopen?)
    ensures var s' := Next(s, step);
            && Versions(s') && Members(s') == Members(s) && s'.owed == s.owed
            && (forall k :: ActiveOk(s', k) <==> ActiveOk(s, k))
            && (forall k :: NotEjected(s', k) <==> NotEjected(s, k))
            && s'.forgiven == s.forgiven
  {
    hide Keys;
  }

  lemma ExactFinish(s: State, step: Step)
    requires Shape(s) && Exact(s) && Enabled(s, step) && (step.Publish? || step.Reopen?)
    ensures Exact(Next(s, step))
  {
    assert RunningApplied(s) ==> s.apply.MembersDone?;
    hide KeepKeys, ActiveOk, NotEjected, Shape;
    SourcesKept(s, step);
    assert GoodKeys(Next(s, step)) == GoodKeys(s);
  }

  lemma ExactNext(s: State, step: Step)
    requires Shape(s) && Exact(s) && Enabled(s, step)
    ensures Exact(Next(s, step))
  {
    hide Shape, Exact, Enabled, Next;
    match step
    case Tick(_) => ExactIdle(s, step);
    case ApplyActive(_) => ExactOwing(s, step);
    case ApplyPassive => ExactOwing(s, step);
    case ApplyMembers => ExactOwing(s, step);
    case Flip(_) => ExactOwing(s, step);
    case Eject(_, _) => ExactOwing(s, step);
    case Forgive(_) => ExactForgive(s, step);
    case Begin(_) => ExactBegin(s, step);
    case Shutting => ExactBegin(s, step);
    case ReadMembers => ExactBegin(s, step);
    case ReadActive => ExactReadActive(s, step);
    case ReadPassive => ExactReadPassive(s, step);
    case Publish => ExactFinish(s, step);
    case Reopen => ExactFinish(s, step);
    case Look(_) => ExactIdle(s, step);
    case Signal => ExactIdle(s, step);
    case WakeUp => ExactIdle(s, step);
    case Fire => ExactOwing(s, step);
    case LoadFlag => ExactIdle(s, step);
    case Pick(_) => ExactIdle(s, step);
  }

  // ----- A bad endpoint is on offer only while its Refresh is still to come -----

  /** A Refresh for `cause` is owed, or holds the mutex but has not shut the picker yet. */
  predicate Due(s: State, cause: Cause) {
    cause in s.owed || s.refresh == Some(Refresh(cause, Locked))
  }

  predicate ApplyDue(s: State) {
    s.apply.ActiveDone? || s.apply.PassiveDone? || Due(s, Applied)
  }

  ghost predicate MemberExcused(s: State, key: string)
    requires Versions(s)
  {
    key in Keys(Members(s)) || ApplyDue(s)
  }

  ghost predicate ActiveExcused(s: State, key: string)
    requires Versions(s)
  {
    ActiveOk(s, key) || Due(s, Flipped(key)) || ApplyDue(s)
  }

  ghost predicate PassiveExcused(s: State, key: string)
    requires Versions(s)
  {
    NotEjected(s, key) || Due(s, Ejected(key)) || ApplyDue(s)
  }

  ghost predicate AllExcused(s: State, list: seq<Url>, active: bool, passive: bool)
    requires Versions(s)
  {
    forall u :: u in list ==>
      MemberExcused(s, u.key) && (active ==> ActiveExcused(s, u.key)) && (passive ==> PassiveExcused(s, u.key))
  }

  ghost predicate Blamed(s: State) {
    Versions(s) &&
    (s.available ==> AllExcused(s, s.base, true, true)) &&
    (s.refresh.Some? && !s.refresh.value.phase.Locked? ==> !s.available) &&
    (s.refresh.Some? ==>
      match s.refresh.value.phase
      case Locked => true
      case Shut => true
      case GotMembers(list, _) => AllExcused(s, list, false, false)
      case GotActive(list, _) => AllExcused(s, list, true, false)
      case GotPassive(list, _) => AllExcused(s, list, true, true)
      case Replaced => AllExcused(s, s.base, true, true))
  }

  /** Whatever was excused before the step is excused after it. */
  ghost predicate ExcusesKept(s: State, s': State)
    requires Versions(s) && Versions(s')
  {
    forall k: string ::
      (MemberExcused(s, k) ==> MemberExcused(s', k)) &&
      (ActiveExcused(s, k) ==> ActiveExcused(s', k)) &&
      (PassiveExcused(s, k) ==> PassiveExcused(s', k))
  }

  lemma BlamedKept(s: State, s': State)
    requires Blamed(s) && Versions(s') && ExcusesKept(s, s')
    requires s'.base == s.base && s'.available == s.available
    requires s'.refresh == s.refresh || s'.refresh.None? || (s'.refresh.Some? && s'.refresh.value.phase.Locked?)
    ensures Blamed(s')
  {
    hide MemberExcused, ActiveExcused, PassiveExcused;
  }

  lemma ExcusesApply(s: State, step: Step)
    requires Shape(s) && Enabled(s, step) && IsApply(step)
    ensures Versions(Next(s, step)) && ExcusesKept(s, Next(s, step))
  {
    var s' := Next(s, step);
    ShapeNext(s, step);
    assert step.ApplyMembers? ==> Applied in s'.owed;
    assert ApplyDue(s');
  }

  lemma ExcusesChange(s: State, step: Step)
    requires Shape(s) && Enabled(s, step) && (step.Flip? || step.Eject?)
    ensures Versions(Next(s, step)) && ExcusesKept(s, Next(s, step))
  {
    hide Keys;
    var s' := Next(s, step);
    assert forall c :: c in s.owed ==> c in s'.owed;
    assert step.Flip? ==> Flipped(step.key) in s'.owed;
    assert step.Eject? ==> Ejected(step.key) in s'.owed;
  }

  /** Fewer ejections, more debts: nothing loses its excuse. */
  lemma ExcusesEase(s: State, s': State)
    requires Versions(s) && s'.config == s.config && s'.applied == s.applied && s'.unhealthy == s.unhealthy
    requires s'.members == s.members && s'.active == s.active && s'.passive == s.passive && s'.apply == s.apply
    requires forall k :: k in s'.ejected ==> k in s.ejected
    requires forall c :: Due(s, c) ==> Due(s', c)
    ensures ExcusesKept(s, s')
  {
    hide Keys;
  }

  lemma BlamedIdle(s: State, step: Step)
    requires Shape(s) && Blamed(s) && Enabled(s, step) && !IsApply(step) && !IsRefresh(step)
    ensures Blamed(Next(s, step))
  {
    var s' := Next(s, step);
    if step.Flip? || step.Eject? {
      ExcusesChange(s, step);
    } else {
      assert forall c :: c in s.owed ==> c in s'.owed;
      ExcusesEase(s, s') by { hide Keys; }
    }
    hide Shape, ExcusesKept, AllExcused, Keys;
    BlamedKept(s, s');
  }

  lemma BlamedApply(s: State, step: Step)
    requires Shape(s) && Blamed(s) && Enabled(s, step) && IsApply(step)
    ensures Blamed(Next(s, step))
  {
    ExcusesApply(s, step);
    hide Shape, ExcusesKept, AllExcused, Keys;
    BlamedKept(s, Next(s, step));
  }

  lemma BlamedBegin(s: State, step: Step)
    requires Shape(s) && Blamed(s) && Enabled(s, step) && step.Begin?
    ensures Blamed(Next(s, step))
  {
    var s' := Next(s, step);
    assert forall c :: c in s.owed && c != step.cause ==> c in s'.owed;
    assert forall c :: Due(s, c) ==> Due(s', c);
    ExcusesEase(s, s');
    hide Shape, ExcusesKept, AllExcused, Keys;
    BlamedKept(s, s');
  }

  lemma BlamedRead(s: State, step: Step)
    requires Shape(s) && Blamed(s) && Enabled(s, step)
    requires step.Shutting? || step.ReadMembers? || step.ReadActive? || step.ReadPassive?
    ensures Blamed(Next(s, step))
  {
    hide Shape, Keys;
    var s' := Next(s, step);
    if step.ReadMembers? {
      assert forall u :: u in Members(s) ==> u.key in Keys(Members(s));
    } else if !step.Shutting? {
      var list := s.refresh.value.phase.list;
      assert forall c :: Due(s, c) ==> Due(s', c);
      ExcusesEase(s, s');
    }
  }

  lemma ExcusesFinish(s: State, step: Step)
    requires Shape(s) && Blamed(s) && Enabled(s, step) && (step.Publish? || step.Reopen?)
    ensures Versions(Next(s, step)) && ExcusesKept(s, Next(s, step))
  {
    hide ActiveOk, NotEjected, AllExcused;
    SourcesKept(s, step);
  }

  lemma BlamedFinish(s: State, step: Step)
    requires Shape(s) && Blamed(s) && Enabled(s, step) && (step.Publish? || step.Reopen?)
    ensures Blamed(Next(s, step))
  {
    ExcusesFinish(s, step);
    hide Shape, MemberExcused, ActiveExcused, PassiveExcused;
  }

  lemma BlamedNext(s: State, step: Step)
    requires Shape(s) && Blamed(s) && Enabled(s, step)
    ensures Blamed(Next(s, step))
  {
    hide Shape, Blamed, Enabled, Next;
    if IsApply(step) {
      BlamedApply(s, step);
    } else if step.Begin? {
      BlamedBegin(s, step);
    } else if step.Publish? || step.Reopen? {
      BlamedFinish(s, step);
    } else if IsRefresh(step) {
      BlamedRead(s, step);
    } else {
      BlamedIdle(s, step);
    }
  }

  // ----- No recovery is forgotten -----

  /** Somebody will still fill the wake channel, or has done so. */
  ghost predicate WakeUpComing(s: State) {
    s.wake || s.signals > 0 ||
    (exists k: string :: Ejected(k) in s.owed) ||
    (s.refresh.Some? && s.refresh.value.cause.Ejected?)
  }

  ghost predicate Watched(s: State) {
    match s.observer
    case AtTop => true
    case Recovering => true
    case Parked => s.ejected == map[] || WakeUpComing(s)
    case Waiting(until) => (forall k :: k in s.ejected ==> until <= s.ejected[k]) || WakeUpComing(s)
  }

  lemma WatchedKept(s: State, s': State)
    requires Watched(s) && s'.observer == s.observer
    requires WakeUpComing(s) ==> WakeUpComing(s')
    requires WakeUpComing(s') || forall k :: k in s'.ejected ==> k in s.ejected && s'.ejected[k] == s.ejected[k]
    ensures Watched(s')
  {
    hide WakeUpComing;
    if s.ejected == map[] && !WakeUpComing(s') {
      assert s'.ejected == map[];
    }
  }

  lemma WatchedNext(s: State, step: Step)
    requires Watched(s) && Enabled(s, step)
    ensures Watched(Next(s, step))
  {
    hide KeepKeys, Keys, ActiveKeys, PassiveKeys;
    var s' := Next(s, step);
    if step.Look? || step.WakeUp? || step.Fire? {
    } else if step.Eject? {
      assert Ejected(step.key) in s'.owed;
      WatchedKept(s, s');
    } else if s'.observer == s.observer {
      if WakeUpComing(s) {
        WakeUpStillComing(s, step);
      }
      WatchedKept(s, s');
    }
  }

  lemma WakeUpAfterBegin(s: State, step: Step)
    requires Enabled(s, step) && step.Begin? && WakeUpComing(s)
    ensures WakeUpComing(Next(s, step))
  {
    var s' := Next(s, step);
    if k: string :| Ejected(k) in s.owed {
      if step.cause != Ejected(k) {
        assert Ejected(k) in s'.owed;
      }
    }
  }

  lemma OwedStays(s: State, step: Step)
    requires Enabled(s, step) && !step.Begin?
    ensures forall c :: c in s.owed ==> c in Next(s, step).owed
  {
    hide KeepKeys, Keys, ActiveKeys, PassiveKeys, OnlyKeys, Unexpired;
  }

  lemma WakeUpStillComing(s: State, step: Step)
    requires Enabled(s, step) && !step.WakeUp? && WakeUpComing(s)
    ensures WakeUpComing(Next(s, step))
  {
    if step.Begin? {
      WakeUpAfterBegin(s, step);
    } else {
      OwedStays(s, step);
      hide KeepKeys, Keys, ActiveKeys, PassiveKeys, OnlyKeys, Unexpired;
      var s' := Next(s, step);
      if k: string :| Ejected(k) in s.owed {
        assert Ejected(k) in s'.owed;
      } else if s.refresh.Some? && s.refresh.value.cause.Ejected? {
        assert s'.signals > 0 || (s'.refresh.Some? && s'.refresh.value.cause.Ejected?);
      }
    }
  }

  // ----- What holds in every reachable state -----

  ghost predicate Inv(s: State) {
    Shape(s) && Origins(s) && Exact(s) && Blamed(s) && Watched(s)
  }

  ghost predicate Reachable(s: State) {
    exists config, endpoints, now, steps ::
      Runnable(Start(config, endpoints, now), steps) && s == Run(Start(config, endpoints, now), steps)
  }

  lemma InvStart(config: Config, endpoints: seq<Url>, now: int)
    ensures Inv(Start(config, endpoints, now))
  {
    assert Started in Start(config, endpoints, now).owed;
  }

  lemma {:induction false} InvRun(s: State, steps: seq<Step>)
    requires Inv(s) && Runnable(s, steps)
    ensures Inv(Run(s, steps))
    decreases |steps|
  {
    if steps != [] {
      hide Shape, Origins, Exact, Blamed, Watched, Enabled, Next;
      ShapeNext(s, steps[0]);
      OriginsNext(s, steps[0]);
      ExactNext(s, steps[0]);
      BlamedNext(s, steps[0]);
      WatchedNext(s, steps[0]);
      InvRun(Next(s, steps[0]), steps[1..]);
    }
  }

  lemma InvHolds(s: State)
    requires Reachable(s)
    ensures Inv(s)
  {
    hide Shape, Origins, Exact, Blamed, Watched;
    var config, endpoints, now, steps :|
      Runnable(Start(config, endpoints, now), steps) && s == Run(Start(config, endpoints, now), steps);
    InvStart(config, endpoints, now);
    InvRun(Start(config, endpoints, now), steps);
  }

  /** Whenever no Refresh is running or owed, the picker is open exactly if some member is good,
      that is, actively healthy, with no ejection stored and none cleared unread, and then its
      snapshot is exactly the good members in membership order. */
  lemma QuietPickerIsExact(s: State)
    requires Reachable(s) && s.refresh.None? && !Pending(s)
    ensures Versions(s)
    ensures s.available <==> exists u :: u in Members(s) && Good(s, u.key)
    ensures s.available ==> s.base == Expected(s)
  {
    InvHolds(s);
    hide ActiveOk, NotEjected;
    if s.available {
      assert Expected(s)[0] in Expected(s);
    }
  }

  /** The passive tracker's own test: an ejection counts until its deadline and no longer. */
  predicate PassiveAvailable(s: State, key: string)
    requires Versions(s)
  {
    s.config.passive ==> key in Keys(s.applied[s.passive]) && !(key in s.ejected && s.now < s.ejected[key])
  }

  ghost function HealthyKeys(s: State): iset<string>
    requires Versions(s)
  {
    iset k | ActiveOk(s, k) && PassiveAvailable(s, k)
  }

  /** The filter by current health alone, which ignores whether and how an ejection ended. */
  ghost predicate ShowsHealth(s: State)
    requires Versions(s)
  {
    var healthy := KeepKeys(Members(s), HealthyKeys(s));
    s.available == (healthy != []) && (s.available ==> s.base == healthy)
  }

  /** The quiet picker agrees with current health exactly when no healthy member has an ejection
      that expired unnoticed: one that is still stored, for no timer has fired and no request
      has asked, or one that acquirePermit has cleared since the last Refresh. */
  lemma QuietPickerShowsHealthIff(s: State)
    requires Reachable(s) && s.refresh.None? && !Pending(s)
    ensures Versions(s)
    ensures ShowsHealth(s) <==>
            forall u :: u in Members(s) && ActiveOk(s, u.key) && PassiveAvailable(s, u.key) ==>
                          u.key !in s.ejected && u.key !in s.forgiven
  {
    InvHolds(s);
    hide ActiveOk, Keys;
    if forall u :: u in Members(s) && ActiveOk(s, u.key) && PassiveAvailable(s, u.key) ==>
                     u.key !in s.ejected && u.key !in s.forgiven
    {
      KeepKeysAgree(Members(s), HealthyKeys(s), GoodKeys(s));
    } else {
      var u :| u in Members(s) && ActiveOk(s, u.key) && PassiveAvailable(s, u.key) &&
               (u.key in s.ejected || u.key in s.forgiven);
      assert u in KeepKeys(Members(s), HealthyKeys(s));
      assert !Good(s, u.key);
      assert u !in Expected(s);
    }
  }

  /** At every moment an open picker offers a removed, unhealthy or ejected endpoint only
      while the very change that made it so still has its Refresh ahead. */
  lemma BadEndpointsAreDue(s: State, u: Url)
    requires Reachable(s) && s.available && u in s.base
    ensures Versions(s)
    ensures u.key in Keys(Members(s)) || ApplyDue(s)
    ensures ActiveOk(s, u.key) || Due(s, Flipped(u.key)) || ApplyDue(s)
    ensures NotEjected(s, u.key) || Due(s, Ejected(u.key)) || ApplyDue(s)
  {
    InvHolds(s);
  }

  /** Whatever an Acquire can still return comes from a published snapshot, and every
      published snapshot is a sublist of one applied list, tracked at that version or later. */
  lemma TargetsComeFromOneList(s: State, u: Url)
    requires Reachable(s) && Enabled(s, Pick(u))
    ensures s.published.Some? && FromOne(s, s.base, s.published.value)
    ensures u in s.applied[s.published.value.members]
  {
    InvHolds(s);
  }

  /** The recovery loop never sleeps past a deadline unless it is about to be woken. */
  lemma RecoveriesAreWatched(s: State, k: string)
    requires Reachable(s) && k in s.ejected
    ensures s.observer.Parked? ==> WakeUpComing(s)
    ensures s.observer.Waiting? ==> s.observer.until <= s.ejected[k] || WakeUpComing(s)
  {
    InvHolds(s);
  }

  // ----- Two stronger claims that fail -----

  lemma {:induction false} RunAppend(s: State, steps: seq<Step>, step: Step)
    requires Runnable(s, steps) && Enabled(Run(s, steps), step)
    ensures Runnable(s, steps + [step]) && Run(s, steps + [step]) == Next(Run(s, steps), step)
    decreases |steps|
  {
    hide Enabled, Next;
    if steps == [] {
      assert steps + [step] == [step] && [step][1..] == [];
    } else {
      RunAppend(Next(s, steps[0]), steps[1..], step);
      assert (steps + [step])[0] == steps[0] && (steps + [step])[1..] == steps[1..] + [step];
    }
  }

  lemma ReachableNext(s: State, step: Step)
    requires Reachable(s) && Enabled(s, step)
    ensures Reachable(Next(s, step))
  {
    hide Enabled, Next;
    var config, endpoints, now, steps :|
      Runnable(Start(config, endpoints, now), steps) && s == Run(Start(config, endpoints, now), steps);
    RunAppend(Start(config, endpoints, now), steps, step);
  }

  lemma StartReachable(config: Config, endpoints: seq<Url>, now: int)
    ensures Reachable(Start(config, endpoints, now))
  {
    assert Runnable(Start(config, endpoints, now), []);
    assert Run(Start(config, endpoints, now), []) == Start(config, endpoints, now);
  }

  lemma KeepOne(u: Url, allowed: iset<string>)
    ensures KeepKeys([u], allowed) == if u.key in allowed then [u] else []
  {
    KeepKeysAppend([], u, allowed);
    assert [] + [u] == [u];
  }

  lemma ReadMembership(s: State, cause: Cause) returns (s': State)
    requires Reachable(s) && Versions(s) && s.refresh.None? && cause in s.owed
    ensures Reachable(s') && Versions(s')
    ensures s' == s.(owed := s.owed - multiset{cause}, available := false,
                     refresh := Some(Refresh(cause, GotMembers(Members(s), Origin(s.members, s.members, s.members)))))
  {
    hide Reachable;
    ReachableNext(s, Begin(cause));
    var s1 := Next(s, Begin(cause));
    ReachableNext(s1, Shutting);
    var s2 := Next(s1, Shutting);
    ReachableNext(s2, ReadMembers);
    s' := Next(s2, ReadMembers);
  }

  /** One uninterrupted Refresh for `cause`, up to the point where it has read all sources. */
  lemma ReadAll(s: State, cause: Cause, u: Url) returns (s': State)
    requires Reachable(s) && Versions(s) && s.refresh.None? && cause in s.owed
    requires !s.config.active && s.config.passive && Members(s) == [u]
    requires u.key in Keys(s.applied[s.passive])
    ensures Reachable(s') && Versions(s')
    ensures var list := if u.key in s.ejected && s.now < s.ejected[u.key] then [] else [u];
            s' == s.(owed := s.owed - multiset{cause}, available := false, forgiven := {},
                     ejected := Unexpired(s.ejected, s.now),
                     refresh := Some(Refresh(cause, GotPassive(list, Origin(s.members, s.active, s.passive)))))
  {
    hide Reachable, KeepKeys;
    var s3 := ReadMembership(s, cause);
    KeepOne(u, ActiveKeys(s3));
    ReachableNext(s3, ReadActive);
    var s4 := Next(s3, ReadActive);
    KeepOne(u, PassiveKeys(s4.(ejected := Unexpired(s.ejected, s.now), forgiven := {})));
    ReachableNext(s4, ReadPassive);
    s' := Next(s4, ReadPassive);
  }

  /** A pool with one endpoint, open and with nothing owed. */
  lemma OpenPool(u: Url) returns (s: State)
    ensures Reachable(s) && s.available && s.refresh.None? && s.base == [u] && s.applied == [[u]]
    ensures s.config == Config(false, true) && s.now == 0 && s.ejected == map[] && s.apply == NoApply
    ensures s.members == s.passive == s.active == 0 && s.owed == multiset{} && s.loads == 0
  {
    hide Reachable, KeepKeys;
    var start := Start(Config(false, true), [u], 0);
    StartReachable(Config(false, true), [u], 0);
    var read := ReadAll(start, Started, u);
    ReachableNext(read, Publish);
    var replaced := Next(read, Publish);
    ReachableNext(replaced, Reopen);
    s := Next(replaced, Reopen);
  }

  /** "A shut picker hands out nothing" is false: a call that saw the flag before the
      Refresh shut it can still pick the endpoint whose ejection is being published. How
      much a shut picker can hand out is PoolRuns.ShutPickerServesExactly. */
  lemma ShutPickerCanServe(u: Url)
    ensures exists s :: Reachable(s) && !s.available && u.key in s.ejected && Enabled(s, Pick(u))
  {
    hide Reachable, KeepKeys, ActiveKeys, PassiveKeys;
    var s := OpenPool(u);
    ReachableNext(s, LoadFlag);
    var s1 := Next(s, LoadFlag);
    ReachableNext(s1, Eject(u.key, 1));
    var s2 := Next(s1, Eject(u.key, 1));
    ReachableNext(s2, Begin(Ejected(u.key)));
    var s3 := Next(s2, Begin(Ejected(u.key)));
    ReachableNext(s3, Shutting);
    var s4 := Next(s3, Shutting);
    assert Enabled(s4, Pick(u));
  }

  /** A quiet pool whose one endpoint has just come to the end of its ejection. */
  lemma ExpiredPool(u: Url) returns (s: State)
    ensures Reachable(s) && Versions(s) && s.refresh.None? && !Pending(s) && s.config == Config(false, true)
    ensures s.now == 1 && s.ejected == map[u.key := 1] && s.forgiven == {} && s.applied == [[u]]
    ensures s.members == s.passive == s.active == 0
  {
    hide Reachable, KeepKeys, ActiveKeys, PassiveKeys;
    var open := OpenPool(u);
    ReachableNext(open, Eject(u.key, 1));
    var ejected := Next(open, Eject(u.key, 1));
    var read := ReadAll(ejected, Ejected(u.key), u);
    ReachableNext(read, Publish);
    var shut := Next(read, Publish);
    ReachableNext(shut, Tick(1));
    s := Next(shut, Tick(1));
  }

  /** "A quiet picker shows current health" is false: an ejection whose deadline has come stops
      counting at that moment, and the picker stays shut until a timer or a request notices. */
  lemma QuietPickerCanLagDeadline(u: Url)
    ensures exists s ::
              Reachable(s) && Versions(s) && s.refresh.None? && !Pending(s) && s.forgiven == {} && !ShowsHealth(s)
  {
    hide Reachable, KeepKeys, ShowsHealth;
    var s := ExpiredPool(u);
    QuietPickerShowsHealthIff(s);
    assert u in Members(s) && ActiveOk(s, u.key) && PassiveAvailable(s, u.key) && u.key in s.ejected;
  }

  /** It is false in a second way: once acquirePermit has cleared an expired ejection, nothing is
      stored any more and yet the picker stays shut. */
  lemma QuietPickerCanHideHealth(u: Url)
    ensures exists s ::
              Reachable(s) && Versions(s) && s.refresh.None? && !Pending(s) && s.ejected == map[] && !ShowsHealth(s)
  {
    hide Reachable, KeepKeys, ShowsHealth;
    var s := ExpiredPool(u);
    ReachableNext(s, Forgive(u.key));
    var s' := Next(s, Forgive(u.key));
    QuietPickerShowsHealthIff(s');
    assert u in Members(s') && ActiveOk(s', u.key) && PassiveAvailable(s', u.key) && u.key in s'.forgiven;
  }
}
