/**
  The objects that tie the pool together (internal/upstream/endpoint_membership.go,
  composite_health_source.go, health_aware_picker.go and endpoint_coordinator.go),
  run by one caller at a time. How their locked sections interleave is the subject
  of PoolProtocol.
 */
module HealthPool {
  import opened Common
  import LR = LeastRequests
  import HT = HealthTracker
  import PT = PassiveHealthTracker

  /** The locked sections, and the loads and stores of the flag, that make up the operations. */
  datatype Section =
    | ReplaceActive
    | ReplacePassive
    | ReplaceMembers
    | Shut
    | ReadMembers
    | ReadActive
    | ReadPassive
    | ReplaceBase
    | Open
    | Wake

  /** The sections performed on one pool, in order. */
  class Journal {
    ghost var sections: seq<Section>

    constructor ()
      ensures sections == []
    {
      sections := [];
    }

    ghost method Note(section: Section)
      modifies this
      ensures sections == old(sections) + [section]
    {
      sections := sections + [section];
    }
  }

  /** A Refresh shuts the picker before it reads anything, reads membership first, and opens the
      picker last, if it opens it again at all. */
  function RefreshSections(reopened: bool): seq<Section> {
    [Shut, ReadMembers, ReadActive, ReadPassive] + (if reopened then [ReplaceBase, Open] else [])
  }

  class EndpointMembership {
    var snapshot: seq<Url>
    const journal: Journal

    constructor (endpoints: seq<Url>, journal: Journal)
      ensures snapshot == endpoints && this.journal == journal
    {
      snapshot := endpoints;
      this.journal := journal;
    }

    method HealthyEndpoints() returns (healthy: seq<Url>)
      modifies journal
      ensures healthy == snapshot && journal.sections == old(journal.sections) + [ReadMembers]
    {
      healthy := snapshot;
      journal.Note(ReadMembers);
    }

    method Replace(endpoints: seq<Url>)
      modifies this, journal
      ensures snapshot == endpoints && journal.sections == old(journal.sections) + [ReplaceMembers]
    {
      snapshot := endpoints;
      journal.Note(ReplaceMembers);
    }
  }

  /** Membership, and the two trackers where they are configured. */
  class CompositeHealthSource {
    const membership: EndpointMembership
    const active: HT.HealthTracker?
    const passive: PT.PassiveHealthTracker?
    const journal: Journal

    constructor (membership: EndpointMembership, active: HT.HealthTracker?, passive: PT.PassiveHealthTracker?)
      ensures this.membership == membership && this.active == active && this.passive == passive
      ensures journal == membership.journal
    {
      this.journal := membership.journal;
      this.membership := membership;
      this.active := active;
      this.passive := passive;
    }

    ghost predicate Valid()
      reads this, active, if active == null then {} else active.states
      reads passive, if passive == null then {} else passive.states
    {
      journal == membership.journal &&
      (active != null ==> active.Valid()) && (passive != null ==> passive.Valid())
    }

    /** The keys that active health lets through. */
    ghost function ActiveKeys(): iset<string>
      reads this, active
    {
      iset k | active != null ==> k in Keys(active.order) && k in active.Healthy()
    }

    /** The keys that passive health lets through at time `now`. */
    ghost function PassiveKeys(now: int): iset<string>
      reads this, passive
    {
      iset k | passive != null ==>
        k in Keys(passive.ordered) && !(k in passive.ejections && now < passive.ejections[k])
    }

    /** The members that every configured tracker calls healthy at time `now`. */
    ghost function Good(now: int): seq<Url>
      reads this, membership, active, passive
    {
      KeepKeys(membership.snapshot, ActiveKeys() * PassiveKeys(now))
    }

    /** Drops from `endpoints` what the other source does not list. */
    static method Intersect(endpoints: seq<Url>, other: seq<Url>) returns (kept: seq<Url>)
      ensures kept == KeepKeys(endpoints, iset k | k in Keys(other))
    {
      var allowed: set<string> := {};
      for i := 0 to |other|
        invariant allowed == Keys(other[..i])
      {
        assert Keys(other[..i + 1]) == Keys(other[..i]) + {other[i].key};
        allowed := allowed + {other[i].key};
      }
      assert other[..|other|] == other;
      kept := [];
      for i := 0 to |endpoints|
        invariant kept == KeepKeys(endpoints[..i], iset k | k in allowed)
      {
        assert endpoints[..i + 1] == endpoints[..i] + [endpoints[i]];
        KeepKeysAppend(endpoints[..i], endpoints[i], iset k | k in allowed);
        if endpoints[i].key in allowed {
          kept := kept + [endpoints[i]];
        }
      }
      assert endpoints[..|endpoints|] == endpoints;
      assert (iset k | k in allowed) == (iset k | k in Keys(other));
    }

    /** The ordered intersection; reading the passive tracker clears its expired ejections. */
    method HealthyEndpoints(now: int) returns (healthy: seq<Url>)
      requires Valid()
      modifies if passive == null then {} else passive.states, if passive == null then {} else {passive}
      modifies journal
      ensures Valid() && healthy == old(Good(now))
      ensures passive != null ==> PassiveSwept(passive, now)
      ensures journal.sections == old(journal.sections) + [ReadMembers, ReadActive, ReadPassive]
    {
      assert journal == membership.journal;
      hide KeepKeys, ActiveKeys, PassiveKeys, Valid;
      KeepKeysTwice(membership.snapshot, ActiveKeys(), PassiveKeys(now));
      healthy := membership.HealthyEndpoints();
      healthy := RetainBoth(healthy, now);
    }

    method RetainBoth(endpoints: seq<Url>, now: int) returns (kept: seq<Url>)
      requires Valid()
      modifies if passive == null then {} else passive.states, if passive == null then {} else {passive}
      modifies journal
      ensures Valid() && kept == KeepKeys(KeepKeys(endpoints, old(ActiveKeys())), old(PassiveKeys(now)))
      ensures passive != null ==> PassiveSwept(passive, now)
      ensures journal.sections == old(journal.sections) + [ReadActive, ReadPassive]
    {
      hide KeepKeys, ActiveKeys, PassiveKeys, Valid;
      kept := RetainActive(endpoints);
      kept := RetainPassive(kept, now);
    }

    method RetainActive(endpoints: seq<Url>) returns (kept: seq<Url>)
      requires Valid()
      modifies journal
      ensures kept == KeepKeys(endpoints, ActiveKeys())
      ensures journal.sections == old(journal.sections) + [ReadActive]
    {
      journal.Note(ReadActive);
      if active == null {
        KeepKeysAll(endpoints, ActiveKeys());
        return endpoints;
      }
      hide KeepKeys, HT.HealthTracker.Healthy, HT.HealthTracker.Valid;
      var listed := active.HealthyEndpoints();
      KeptKeys(active.order, active.Healthy());
      assert ActiveKeys() == iset k | k in Keys(listed);
      kept := Intersect(endpoints, listed);
    }

    method RetainPassive(endpoints: seq<Url>, now: int) returns (kept: seq<Url>)
      requires Valid()
      modifies if passive == null then {} else passive.states, if passive == null then {} else {passive}
      modifies journal
      ensures Valid() && kept == KeepKeys(endpoints, old(PassiveKeys(now)))
      ensures passive != null ==> PassiveSwept(passive, now)
      ensures journal.sections == old(journal.sections) + [ReadPassive]
    {
      journal.Note(ReadPassive);
      if passive == null {
        KeepKeysAll(endpoints, PassiveKeys(now));
        return endpoints;
      }
      assert passive.stateByTarget.Keys == Keys(passive.ordered);
      assert PassiveKeys(now) == Standing(passive.stateByTarget.Keys, passive.ejections, now);
      hide KeepKeys, PassiveKeys, Standing, PT.PassiveHealthTracker.Valid, HT.HealthTracker.Valid;
      var listed := ListPassive(passive, now);
      kept := Intersect(endpoints, listed);
    }

    static method ListPassive(passive: PT.PassiveHealthTracker, now: int) returns (listed: seq<Url>)
      requires passive.Valid()
      modifies passive, passive.states
      ensures passive.Valid() && PassiveSwept(passive, now)
      ensures Standing(old(passive.stateByTarget.Keys), old(passive.ejections), now) == iset k | k in Keys(listed)
    {
      assert passive.stateByTarget.Keys == Keys(passive.ordered);
      ghost var ejections := passive.ejections;
      hide KeepKeys, Keys, Standing, PT.Standing, PT.PassiveHealthTracker.Valid, Unexpired;
      listed := passive.HealthyEndpoints(now);
      ListedKeys(passive.ordered, passive.stateByTarget.Keys, ejections, now);
    }

    static ghost function Standing(tracked: set<string>, ejections: map<string, int>, now: int): iset<string> {
      iset k | k in tracked && !(k in ejections && now < ejections[k])
    }

    static lemma ListedKeys(ordered: seq<Url>, tracked: set<string>, ejections: map<string, int>, now: int)
      requires tracked == Keys(ordered)
      ensures var kept := KeepKeys(ordered, PT.Standing(tracked, Unexpired(ejections, now)));
              Standing(tracked, ejections, now) == iset k | k in Keys(kept)
    {
      hide KeepKeys;
      KeptKeys(ordered, PT.Standing(tracked, Unexpired(ejections, now)));
    }

    static lemma KeptKeys(urls: seq<Url>, allowed: iset<string>)
      ensures forall k :: k in Keys(KeepKeys(urls, allowed)) <==> k in Keys(urls) && k in allowed
    {
      forall k ensures k in Keys(KeepKeys(urls, allowed)) <==> k in Keys(urls) && k in allowed {
        if k in Keys(urls) && k in allowed {
          var u :| u in urls && u.key == k;
          assert u in KeepKeys(urls, allowed);
        }
      }
    }
  }

  /** Reading a passive tracker leaves everything as it was but the expired ejections. */
  twostate predicate PassiveSwept(passive: PT.PassiveHealthTracker, now: int)
    reads passive
  {
    unchanged(passive`ordered, passive`stateByTarget, passive`states, passive`issued, passive`ledger) &&
    passive.ejections == Unexpired(old(passive.ejections), now)
  }

  /** The route's picker: the base picker behind a flag. */
  class HealthAwarePicker {
    const picker: LR.LeastRequests
    const source: CompositeHealthSource
    var available: bool

    ghost predicate Valid()
      reads this, picker, picker.known, picker.permits
      reads source, source.active, if source.active == null then {} else source.active.states
      reads source.passive, if source.passive == null then {} else source.passive.states
    {
      picker.Valid() && source.Valid()
    }

    /** The picker is open exactly if `good` is not empty, and then offers exactly `good`. */
    ghost predicate Offers(good: seq<Url>)
      reads this, picker, picker.endpoints
    {
      available == (good != []) && (available ==> picker.HasTargets(good))
    }

    constructor (picker: LR.LeastRequests, source: CompositeHealthSource, now: int)
      requires picker.Valid() && source.Valid()
      modifies picker`endpoints, picker`cursor, picker`known, picker.endpoints`target
      modifies source.passive, if source.passive == null then {} else source.passive.states
      modifies source.journal
      ensures Valid() && this.picker == picker && this.source == source
      ensures source.journal.sections == old(source.journal.sections) + RefreshSections(available)
      ensures Offers(old(source.Good(now)))
    {
      this.picker := picker;
      this.source := source;
      available := false;
      new;
      var ok := Refresh(now);
    }

    method ShutFlag()
      modifies this`available, source.journal
      ensures !available && source.journal.sections == old(source.journal.sections) + [Shut]
    {
      available := false;
      source.journal.Note(Shut);
    }

    /** Only a shut picker is opened: by then its new snapshot is in place. */
    method OpenFlag()
      requires !available
      modifies this`available, source.journal
      ensures available && source.journal.sections == old(source.journal.sections) + [Open]
    {
      available := true;
      source.journal.Note(Open);
    }

    /** The base picker's snapshot changes only while nobody is let in. */
    method ReplaceSnapshot(endpoints: seq<Url>) returns (ok: bool)
      requires picker.Valid() && !available && endpoints != []
      modifies picker`endpoints, picker`cursor, picker`known, picker.endpoints`target, source.journal
      ensures picker.Valid() && ok && picker.HasTargets(endpoints)
      ensures old(picker.known) <= picker.known && fresh(picker.known - old(picker.known))
      ensures source.journal.sections == old(source.journal.sections) + [ReplaceBase]
    {
      hide LR.Carried;
      ok := picker.Replace(endpoints);
      source.journal.Note(ReplaceBase);
    }

    /** Never fails: an empty snapshot shuts the picker and keeps its last endpoints. The sources
        are read, and the snapshot is replaced, only after the picker has been shut. */
    method Refresh(now: int) returns (ok: bool)
      requires Valid()
      modifies this`available, picker`endpoints, picker`cursor, picker`known, picker.endpoints`target
      modifies source.passive, if source.passive == null then {} else source.passive.states
      modifies source.journal
      ensures Valid() && ok && Offers(old(source.Good(now)))
      ensures !available ==> picker.endpoints == old(picker.endpoints)
      ensures old(picker.known) <= picker.known && fresh(picker.known - old(picker.known))
      ensures source.passive != null ==> PassiveSwept(source.passive, now)
      ensures source.journal.sections == old(source.journal.sections) + RefreshSections(available)
    {
      hide HT.HealthTracker.Valid, PT.PassiveHealthTracker.Valid, LR.LeastRequests.Valid;
      hide CompositeHealthSource.Good, Offers;
      ShutFlag();
      var healthyEndpoints := source.HealthyEndpoints(now);
      ok := Republish(healthyEndpoints);
    }

    /** The end of a Refresh, once the sources have been read. */
    method Republish(healthyEndpoints: seq<Url>) returns (ok: bool)
      requires picker.Valid() && !available
      modifies this`available, picker`endpoints, picker`cursor, picker`known, picker.endpoints`target
      modifies source.journal
      ensures picker.Valid() && ok && Offers(healthyEndpoints)
      ensures !available ==> picker.endpoints == old(picker.endpoints)
      ensures old(picker.known) <= picker.known && fresh(picker.known - old(picker.known))
      ensures source.journal.sections ==
              old(source.journal.sections) + (if available then [ReplaceBase, Open] else [])
    {
      hide LR.LeastRequests.Valid;
      if healthyEndpoints == [] {
        return true;
      }
      ok := ReplaceSnapshot(healthyEndpoints);
      OpenFlag();
    }

    /** With nothing else running, a shut picker hands out nothing and an open one picks
        from its snapshot. */
    method Acquire() returns (acquired: Option<(Url, LR.Permit)>)
      requires Valid()
      modifies picker`cursor, picker`permits, picker.endpoints`activeRequests, picker.endpoints`holders
      ensures Valid() && (acquired.Some? <==> available)
      ensures acquired.Some? ==>
        exists i :: 0 <= i < |picker.endpoints| && acquired.value.0 == picker.endpoints[i].target &&
                    acquired.value.1.selected == picker.endpoints[i]
    {
      hide HT.HealthTracker.Valid, PT.PassiveHealthTracker.Valid, LR.LeastRequests.Accounted;
      if !available {
        return None;
      }
      var target, permit, loads, index := picker.Acquire();
      return Some((target, permit));
    }
  }

  /** Applies endpoint lists to the trackers, to membership and to the picker, in that order. */
  class EndpointCoordinator {
    const membership: EndpointMembership
    const picker: HealthAwarePicker
    const active: HT.HealthTracker?
    const passive: PT.PassiveHealthTracker?

    /** The picker reads exactly the sources that the coordinator updates. */
    ghost predicate Valid()
      reads this, picker, picker.picker, picker.picker.known, picker.picker.permits
      reads picker.source, active, if active == null then {} else active.states
      reads passive, if passive == null then {} else passive.states
    {
      picker.source.membership == membership &&
      picker.source.active == active && picker.source.passive == passive && picker.Valid()
    }

    constructor (membership: EndpointMembership, picker: HealthAwarePicker)
      requires picker.Valid() && picker.source.membership == membership
      ensures Valid() && this.picker == picker
    {
      this.membership := membership;
      this.picker := picker;
      this.active := picker.source.active;
      this.passive := picker.source.passive;
    }

    /** The endpoints an Apply at time `now` should publish: new ones, and those kept ones
        that are neither actively unhealthy nor under a standing ejection. */
    ghost function Publishable(endpoints: seq<Url>, now: int): seq<Url>
      reads this, active, passive
    {
      KeepKeys(endpoints, PublishableKeys(now))
    }

    ghost function PublishableKeys(now: int): iset<string>
      reads this, active, passive
    {
      iset k | (active != null && k in active.known ==> k in active.Healthy()) &&
               (passive != null ==> !(k in passive.ejections && now < passive.ejections[k]))
    }

    ghost function Known(): HT.Histories
      reads this, active
    {
      if active == null then map[] else active.known
    }

    ghost function Ejections(): map<string, int>
      reads this, passive
    {
      if passive == null then map[] else passive.ejections
    }

    /** Both trackers keep what they knew of retained endpoints; expired ejections are
        cleared; and the picker offers exactly the publishable endpoints. */
    method Apply(endpoints: seq<Url>, now: int) returns (ok: bool)
      requires Valid()
      modifies active, if active == null then {} else active.states
      modifies passive, if passive == null then {} else passive.states
      modifies membership, picker`available, picker.source.journal
      modifies picker.picker`endpoints, picker.picker`cursor, picker.picker`known, picker.picker.endpoints`target
      ensures Valid() && ok && membership.snapshot == endpoints
      ensures Replaced(endpoints, old(Known()), Unexpired(old(Ejections()), now))
      ensures picker.Offers(old(Publishable(endpoints, now)))
      ensures picker.source.journal.sections ==
              old(picker.source.journal.sections) + ApplySections(picker.available)
    {
      hide Known, Ejections;
      ghost var publishable := PublishableKeys(now);
      ghost var known, ejections := Known(), Ejections();
      BeforeApply(now);
      hide KeepKeys, Keys, PublishableKeys, IsPublishable, Valid, HT.HealthTracker.Healthy, Replaced, RefreshSections;
      hide HealthAwarePicker.Offers;
      ReplaceTrackers(endpoints, known, ejections);
      ok := Publish(endpoints, now, known, ejections, publishable);
    }

    /** An Apply tells the trackers before membership, and the picker last. */
    static function ApplySections(reopened: bool): seq<Section> {
      [ReplaceActive, ReplacePassive, ReplaceMembers] + RefreshSections(reopened)
    }

    lemma BeforeApply(now: int)
      ensures IsPublishable(PublishableKeys(now), now, Known(), Ejections())
      ensures active != null ==> active.known == Known()
      ensures passive != null ==> passive.ejections == Ejections()
    {
    }

    /** The two trackers first: membership must never name an endpoint they do not track. */
    method ReplaceTrackers(endpoints: seq<Url>, ghost known: HT.Histories, ghost ejections: map<string, int>)
      requires Valid()
      requires active != null ==> active.known == known
      requires passive != null ==> passive.ejections == ejections
      modifies active, if active == null then {} else active.states
      modifies passive, if passive == null then {} else passive.states
      modifies picker.source.journal
      ensures Valid() && Replaced(endpoints, known, ejections)
      ensures passive != null ==> fresh(passive.states - old(passive.states))
      ensures picker.source.journal.sections ==
              old(picker.source.journal.sections) + [ReplaceActive, ReplacePassive]
    {
      hide KeepKeys, Keys, HT.HealthTracker.Valid, PT.PassiveHealthTracker.Valid, LR.LeastRequests.Valid;
      hide OnlyKeys, HT.AfterReplace;
      ReplaceActiveTracker(active, endpoints, picker.source.journal);
      ReplacePassiveTracker(passive, endpoints, picker.source.journal);
    }

    /** The rest of Apply, once the trackers hold `endpoints`. `known` and `ejections` are the
        tracker states before. */
    method Publish(endpoints: seq<Url>, now: int, ghost known: HT.Histories, ghost ejections: map<string, int>,
                   ghost publishable: iset<string>) returns (ok: bool)
      requires Valid() && Replaced(endpoints, known, ejections) && IsPublishable(publishable, now, known, ejections)
      modifies passive, if passive == null then {} else passive.states
      modifies membership, picker`available, picker.source.journal
      modifies picker.picker`endpoints, picker.picker`cursor, picker.picker`known, picker.picker.endpoints`target
      ensures Valid() && ok && membership.snapshot == endpoints
      ensures Replaced(endpoints, known, Unexpired(ejections, now))
      ensures picker.Offers(KeepKeys(endpoints, publishable))
      ensures picker.source.journal.sections ==
              old(picker.source.journal.sections) + [ReplaceMembers] + RefreshSections(picker.available)
    {
      hide KeepKeys, Keys, HT.HealthTracker.Valid, PT.PassiveHealthTracker.Valid, LR.LeastRequests.Valid;
      membership.Replace(endpoints);
      PublishableIsGood(endpoints, now, known, ejections, publishable);
      ok := picker.Refresh(now);
      assert Unexpired(OnlyKeys(ejections, Keys(endpoints)), now) ==
             OnlyKeys(Unexpired(ejections, now), Keys(endpoints));
    }

    /** The trackers hold `endpoints`, with what `known` and `ejections` say of them. */
    ghost predicate Replaced(endpoints: seq<Url>, known: HT.Histories, ejections: map<string, int>)
      reads this, active, passive
    {
      (active != null ==>
         active.order == endpoints && active.failureThreshold >= 1 &&
         active.known == HT.AfterReplace(known, endpoints)) &&
      (passive != null ==>
         passive.ordered == endpoints && passive.ejections == OnlyKeys(ejections, Keys(endpoints)))
    }

    ghost predicate IsPublishable(publishable: iset<string>, now: int, known: HT.Histories,
                                  ejections: map<string, int>) {
      forall k :: k in publishable <==>
        (active != null && k in known ==>
           k in HT.HealthyKeys(known, active.successThreshold, active.failureThreshold)) &&
        (passive != null ==> !(k in ejections && now < ejections[k]))
    }

    static method ReplaceActiveTracker(active: HT.HealthTracker?, endpoints: seq<Url>, journal: Journal)
      requires active != null ==> active.Valid()
      modifies active, if active == null then {} else active.states
      modifies journal
      ensures journal.sections == old(journal.sections) + [ReplaceActive]
      ensures active != null ==> active.Valid() && fresh(active.states - old(active.states))
      ensures active != null ==> active.order == endpoints && active.failureThreshold >= 1
      ensures active != null ==> active.known == HT.AfterReplace(old(active.known), endpoints)
    {
      if active != null {
        active.Replace(endpoints);
      }
      journal.Note(ReplaceActive);
    }

    static method ReplacePassiveTracker(passive: PT.PassiveHealthTracker?, endpoints: seq<Url>, journal: Journal)
      requires passive != null ==> passive.Valid()
      modifies passive, if passive == null then {} else passive.states
      modifies journal
      ensures journal.sections == old(journal.sections) + [ReplacePassive]
      ensures passive != null ==> passive.Valid() && fresh(passive.states - old(passive.states))
      ensures passive != null ==> passive.ordered == endpoints
      ensures passive != null ==> passive.ejections == OnlyKeys(old(passive.ejections), Keys(endpoints))
    {
      if passive != null {
        passive.Replace(endpoints);
      }
      journal.Note(ReplacePassive);
    }

    /** Once the trackers have been replaced, the picker's filter is the one that the state
        before, `known` and `ejections`, calls publishable. */
    lemma PublishableIsGood(endpoints: seq<Url>, now: int, known: HT.Histories, ejections: map<string, int>,
                            publishable: iset<string>)
      requires picker.source.membership == membership && membership.snapshot == endpoints
      requires picker.source.active == active && picker.source.passive == passive
      requires Replaced(endpoints, known, ejections) && IsPublishable(publishable, now, known, ejections)
      ensures picker.source.Good(now) == KeepKeys(endpoints, publishable)
    {
      if active != null {
        HealthyAfterReplace(known, endpoints, active.successThreshold, active.failureThreshold);
      }
      hide KeepKeys, HT.HealthyKeys;
      KeepKeysAgree(endpoints, picker.source.ActiveKeys() * picker.source.PassiveKeys(now), publishable);
    }

    /** After a Replace a key is healthy if it is new or was healthy before. */
    static lemma HealthyAfterReplace(known: HT.Histories, endpoints: seq<Url>, successes: int, failures: int)
      requires failures >= 1
      ensures forall u :: u in endpoints ==>
        (u.key in HT.HealthyKeys(HT.AfterReplace(known, endpoints), successes, failures) <==>
         (u.key in known ==> u.key in HT.HealthyKeys(known, successes, failures)))
    {
      assert HT.Hysteresis([], successes, failures);
    }
  }
}
