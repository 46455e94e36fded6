/**
  The least-requests picker (internal/upstream/least_requests.go).

  Endpoint objects are shared between the live pool and the permits handed out
  by `Acquire`. `Replace` may drop an object while permits still hold it, so the
  invariant counts requests per object, live or detached, and not per URL.
 */
module LeastRequests {
  import opened Common

  class Endpoint {
    ghost const key: string
    var target: Url
    var activeRequests: nat
    ghost var holders: set<Permit>  // the unreleased permits for this object

    constructor (target: Url)
      ensures this.target == target && key == target.key
      ensures activeRequests == 0 && holders == {}
    {
      this.key := target.key;
      this.target := target;
      activeRequests := 0;
      holders := {};
    }
  }

  /** The state captured by one release closure. */
  class Permit {
    const selected: Endpoint
    var released: bool

    constructor (selected: Endpoint)
      ensures this.selected == selected && !released
    {
      this.selected := selected;
      released := false;
    }
  }

  /** The unreleased permits that hold `e`. */
  ghost function Holding(permits: set<Permit>, e: Endpoint): set<Permit>
    reads permits
  {
    set p | p in permits && !p.released && p.selected == e
  }

  ghost function Outstanding(permits: set<Permit>): set<Permit>
    reads permits
  {
    set p | p in permits && !p.released
  }

  ghost function OneOf(endpoints: set<Endpoint>): (e: Endpoint)
    requires endpoints != {}
    ensures e in endpoints
  {
    var e :| e in endpoints;
    e
  }

  ghost function TotalLoad(endpoints: set<Endpoint>): nat
    reads endpoints
  {
    if endpoints == {} then 0
    else
      var e := OneOf(endpoints);
      e.activeRequests + TotalLoad(endpoints - {e})
  }

  // ----- Selection -----

  /** How far `index` lies from `start` in cyclic order. */
  function CyclicOffset(n: nat, start: nat, index: nat): (offset: nat)
    requires start < n && index < n
    ensures offset < n
    ensures index == start + offset || index == start + offset - n
  {
    if index >= start then index - start else index + n - start
  }

  predicate Precedes(loads: seq<nat>, start: nat, a: nat, b: nat)
    requires start < |loads| && a < |loads| && b < |loads|
  {
    loads[a] < loads[b] ||
    (loads[a] == loads[b] && CyclicOffset(|loads|, start, a) <= CyclicOffset(|loads|, start, b))
  }

  /** `index` comes first by (load, cyclic position) among the `bound` positions from `start` on. */
  predicate FirstAmong(loads: seq<nat>, start: nat, index: nat, bound: nat)
    requires start < |loads|
  {
    index < |loads| && CyclicOffset(|loads|, start, index) < bound &&
    forall j :: 0 <= j < |loads| && CyclicOffset(|loads|, start, j) < bound ==>
                  Precedes(loads, start, index, j)
  }

  /** `index` has the smallest load, and is the first such one in cyclic order from `start`. */
  predicate FirstMinimum(loads: seq<nat>, start: nat, index: nat)
    requires start < |loads|
  {
    FirstAmong(loads, start, index, |loads|)
  }

  lemma FirstMinimumUnique(loads: seq<nat>, start: nat, a: nat, b: nat)
    requires start < |loads| && FirstMinimum(loads, start, a) && FirstMinimum(loads, start, b)
    ensures a == b
  {
    assert Precedes(loads, start, a, b) && Precedes(loads, start, b, a);
  }

  // ----- The pool -----

  ghost function Occurrences(endpoints: seq<Endpoint>, key: string): (found: seq<Endpoint>)
    ensures forall i :: 0 <= i < |found| ==> found[i] in endpoints && found[i].key == key
    ensures forall i :: 0 <= i < |endpoints| && endpoints[i].key == key ==> endpoints[i] in found
  {
    if endpoints == [] then []
    else
      var front := Occurrences(endpoints[..|endpoints| - 1], key);
      var last := endpoints[|endpoints| - 1];
      if last.key == key then front + [last] else front
  }

  function CountKey(targets: seq<Url>, key: string): nat {
    if targets == [] then 0
    else CountKey(targets[..|targets| - 1], key) + (if targets[|targets| - 1].key == key then 1 else 0)
  }

  class LeastRequests {
    var endpoints: seq<Endpoint>
    var cursor: nat
    ghost var known: set<Endpoint>   // every endpoint object ever created, live or detached
    ghost var permits: set<Permit>   // every permit ever handed out

    ghost predicate Valid()
      reads this, known, permits
    {
      endpoints != [] && cursor < |endpoints| && Consistent()
    }

    ghost predicate Consistent()
      reads this, known, permits
    {
      Accounted() &&
      Distinct(endpoints) &&
      (forall i :: 0 <= i < |endpoints| ==> endpoints[i] in known) &&
      (forall e :: e in known ==> e.target.key == e.key)
    }

    /** Every object, live or detached, counts exactly its unreleased permits. */
    ghost predicate Accounted()
      reads this, known, permits
    {
      (forall e :: e in known ==> e.activeRequests == |e.holders|) &&
      (forall p :: p in permits ==> p.selected in known) &&
      (forall p :: p in permits && !p.released ==> p in p.selected.holders) &&
      (forall e, p :: e in known && p in e.holders ==> p in permits && p.selected == e && !p.released)
    }

    /** `loads` lists the active requests of the live endpoints. */
    ghost predicate HasLoads(loads: seq<nat>)
      reads this, endpoints
    {
      |loads| == |endpoints| &&
      forall i :: 0 <= i < |loads| ==> loads[i] == endpoints[i].activeRequests
    }

    ghost predicate HasTargets(targets: seq<Url>)
      reads this, endpoints
    {
      |targets| == |endpoints| &&
      forall i :: 0 <= i < |targets| ==> targets[i] == endpoints[i].target
    }

    /** The scan at the heart of `Acquire`. */
    method LeastLoaded(start: nat) returns (selectedIndex: nat, ghost loads: seq<nat>)
      requires start < |endpoints|
      ensures HasLoads(loads) && selectedIndex < |endpoints| && FirstMinimum(loads, start, selectedIndex)
    {
      loads := seq(|endpoints|, i requires 0 <= i < |endpoints| reads this, endpoints => endpoints[i].activeRequests);
      selectedIndex := start;
      var selected := endpoints[start];
      var offset := 1;
      while offset < |endpoints|
        invariant 1 <= offset <= |endpoints|
        invariant FirstAmong(loads, start, selectedIndex, offset)
        invariant selected == endpoints[selectedIndex]
      {
        var index := Wrap(start + offset, |endpoints|);
        var candidate := endpoints[index];
        if candidate.activeRequests < selected.activeRequests {
          selectedIndex := index;
          selected := candidate;
        }
        offset := offset + 1;
      }
    }

    /** Counts one more request on the endpoint that `permit` holds. */
    method Count(permit: Permit)
      requires Accounted() && permit.selected in known && permit !in permits && !permit.released
      modifies this`permits, permit.selected`activeRequests, permit.selected`holders
      ensures Accounted() && permits == old(permits) + {permit}
      ensures permit.selected.activeRequests == old(permit.selected.activeRequests) + 1
    {
      var selected := permit.selected;
      selected.activeRequests := selected.activeRequests + 1;
      selected.holders := selected.holders + {permit};
      permits := permits + {permit};
    }

    /** Picks the first least-loaded endpoint from the cursor on and moves the cursor past it. */
    method Acquire() returns (target: Url, permit: Permit, ghost loads: seq<nat>, ghost index: nat)
      requires Valid()
      modifies this`cursor, this`permits, endpoints`activeRequests, endpoints`holders
      ensures Valid() && endpoints == old(endpoints) && known == old(known)
      ensures old(HasLoads(loads)) && index < |endpoints| && FirstMinimum(loads, old(cursor), index)
      ensures HasLoads(loads[index := loads[index] + 1])
      ensures cursor == Wrap(index + 1, |endpoints|)
      ensures Ring(loads[index := loads[index] + 1], cursor) == AcquireOnce(Ring(loads, old(cursor)))
      ensures target == endpoints[index].target
      ensures fresh(permit) && !permit.released && permit.selected == endpoints[index]
      ensures permits == old(permits) + {permit}
    {
      hide FirstMinimum, AcquireOnce, Wrap;
      var start := Wrap(cursor, |endpoints|);
      var selectedIndex;
      selectedIndex, loads := LeastLoaded(start);
      hide Consistent, HasLoads;
      index := selectedIndex;
      var selected := endpoints[selectedIndex];
      permit := Grant(selected, selectedIndex, loads);
      cursor := Wrap(selectedIndex + 1, |endpoints|);
      target := selected.target;
      AcquireOnceIs(Ring(loads, start), index);
    }

    /** Hands out a permit for the endpoint `selected`, which is at position `index`. */
    method Grant(selected: Endpoint, ghost index: nat, ghost loads: seq<nat>) returns (permit: Permit)
      requires Consistent() && index < |endpoints| && selected == endpoints[index] && HasLoads(loads)
      modifies this`permits, selected`activeRequests, selected`holders
      ensures Consistent() && HasLoads(loads[index := loads[index] + 1])
      ensures fresh(permit) && !permit.released && permit.selected == selected
      ensures permits == old(permits) + {permit}
    {
      hide Accounted;
      permit := new Permit(selected);
      Count(permit);
      assert forall i :: 0 <= i < |endpoints| && i != index ==> endpoints[i] != selected;
    }

    /** The release closure: it may be called any number of times. */
    method Release(permit: Permit)
      requires Valid() && permit in permits
      modifies permit`released, permit.selected`activeRequests, permit.selected`holders
      ensures Valid() && permit.released
      ensures permit.selected.activeRequests ==
              old(permit.selected.activeRequests) - (if old(permit.released) then 0 else 1)
    {
      if permit.released {
        return;
      }
      var selected := permit.selected;
      assert permit in selected.holders;
      permit.released := true;
      selected.activeRequests := selected.activeRequests - 1;
      selected.holders := selected.holders - {permit};
    }

    constructor (targets: seq<Url>)
      requires targets != []
      ensures Valid() && HasTargets(targets) && permits == {} && fresh(known)
      ensures forall e :: e in known ==> e.activeRequests == 0
    {
      endpoints := [];
      cursor := 0;
      known := {};
      permits := {};
      new;
      var ok := Replace(targets);
    }

    /** There is no pool without endpoints. */
    static method New(targets: seq<Url>) returns (pool: LeastRequests?)
      ensures pool != null <==> targets != []
      ensures pool != null ==> fresh(pool) && pool.Valid() && pool.HasTargets(targets) && pool.permits == {}
      ensures pool != null ==> forall e :: e in pool.known ==> e.activeRequests == 0
    {
      if targets == [] {
        return null;
      }
      pool := new LeastRequests(targets);
    }

    /** Publishes `targets`. For every key the first objects that had that key are
        kept, in order and with their counts; further positions start at zero. */
    method Replace(targets: seq<Url>) returns (ok: bool)
      requires Consistent()
      modifies this`endpoints, this`cursor, this`known, endpoints`target
      ensures ok <==> targets != []
      ensures !ok ==> unchanged(this) && unchanged(endpoints)
      ensures ok ==> Valid() && HasTargets(targets) && cursor == Wrap(old(cursor), |targets|)
      ensures old(known) <= known && fresh(known - old(known))
      ensures forall e :: e in known - old(known) ==> e.activeRequests == 0
      ensures ok ==> forall key: string :: Carried(old(endpoints), endpoints, targets, key, old(known))
    {
      hide Carried, Occurrences, CountKey, Distinct, Wrap;
      if targets == [] {
        return false;
      }
      var existing := Group();
      var replacement := Rebuild(existing, targets);
      endpoints := replacement;
      cursor := Wrap(cursor, |endpoints|);
      return true;
    }

    /** Indexes the live objects by key. */
    method Group() returns (existing: map<string, seq<Endpoint>>)
      requires Consistent()
      ensures forall k :: Remaining(existing, k) == Occurrences(endpoints, k)
    {
      existing := map[];
      for i := 0 to |endpoints|
        invariant forall k :: Remaining(existing, k) == Occurrences(endpoints[..i], k)
      {
        var key := endpoints[i].target.key;
        assert endpoints[..i + 1][..i] == endpoints[..i];
        existing := existing[key := (if key in existing then existing[key] else []) + [endpoints[i]]];
      }
      assert endpoints[..|endpoints|] == endpoints;
    }

    /** The state of the rebuild after the positions `targets`. */
    ghost predicate Placed(replacement: seq<Endpoint>, targets: seq<Url>, knownBefore: set<Endpoint>)
      reads this, known, permits
    {
      Accounted() && knownBefore <= known && |replacement| == |targets| &&
      (forall i :: 0 <= i < |endpoints| ==> endpoints[i] in knownBefore) &&
      (forall e :: e in known ==> e.target.key == e.key) &&
      (forall e :: e in known - knownBefore ==> e.activeRequests == 0) &&
      (forall j :: 0 <= j < |targets| ==> replacement[j] in known && replacement[j].target == targets[j])
    }

    method Rebuild(index: map<string, seq<Endpoint>>, targets: seq<Url>) returns (replacement: seq<Endpoint>)
      requires Consistent()
      requires forall k :: Remaining(index, k) == Occurrences(endpoints, k)
      modifies this`known, endpoints`target
      ensures Placed(replacement, targets, old(known)) && fresh(known - old(known))
      ensures Distinct(replacement)
      ensures forall key: string :: Carried(old(endpoints), replacement, targets, key, old(known))
    {
      hide Carried, Unused, Occurrences, CountKey;
      var existing := index;
      replacement := [];
      InitialProgress(endpoints, existing, known);
      for i := 0 to |targets|
        invariant Placed(replacement, targets[..i], old(known)) && fresh(known - old(known))
        invariant Progress(endpoints, replacement, targets[..i], existing, old(known))
      {
        assert targets[..i + 1] == targets[..i] + [targets[i]];
        UnusedAreLive(endpoints, replacement, targets[..i], existing, targets[i].key, old(known));
        var chosen, rest := Place(replacement, targets[..i], targets[i], existing, old(known));
        ProgressStep(endpoints, replacement, targets[..i], targets[i], existing, chosen, rest, old(known));
        replacement := replacement + [chosen];
        existing := rest;
      }
      assert targets[..|targets|] == targets;
    }

    /** One iteration of the rebuild. */
    method Place(ghost replacement: seq<Endpoint>, ghost targets: seq<Url>, target: Url,
                 existing: map<string, seq<Endpoint>>, ghost knownBefore: set<Endpoint>)
      returns (chosen: Endpoint, rest: map<string, seq<Endpoint>>)
      requires Placed(replacement, targets, knownBefore)
      requires forall e :: e in Remaining(existing, target.key) ==>
                 e in endpoints && e !in replacement && e.key == target.key
      modifies this`known, endpoints`target
      ensures Placed(replacement + [chosen], targets + [target], knownBefore)
      ensures old(known) <= known && fresh(known - old(known))
      ensures rest == RestAfter(existing, target.key)
      ensures chosen.key == target.key && chosen !in replacement
      ensures if Remaining(existing, target.key) == [] then chosen !in knownBefore
              else chosen == Remaining(existing, target.key)[0]
    {
      chosen, rest := Reuse(existing, target);
      assert Remaining(existing, target.key) != [] ==> chosen in Remaining(existing, target.key);
    }

    /** The first unused object with the target's key, or a new one. */
    method Reuse(existing: map<string, seq<Endpoint>>, target: Url)
      returns (chosen: Endpoint, rest: map<string, seq<Endpoint>>)
      requires Accounted()
      requires forall e :: e in Remaining(existing, target.key) ==> e in endpoints && e in known
      modifies this`known, endpoints`target
      ensures Accounted()
      ensures chosen in known && chosen.target == target
      ensures forall e :: e in old(known) && e != chosen ==> e.target == old(e.target)
      ensures rest == RestAfter(existing, target.key)
      ensures Remaining(existing, target.key) == [] ==>
                fresh(chosen) && chosen.key == target.key && chosen.activeRequests == 0 &&
                known == old(known) + {chosen}
      ensures Remaining(existing, target.key) != [] ==>
                chosen == Remaining(existing, target.key)[0] && known == old(known)
    {
      var matching := if target.key in existing then existing[target.key] else [];
      if matching == [] {
        chosen := new Endpoint(target);
        known := known + {chosen};
        rest := existing;
      } else {
        chosen := matching[0];
        assert chosen in Remaining(existing, target.key);
        chosen.target := target;
        rest := existing[target.key := matching[1..]];
      }
    }
  }

  ghost function Remaining(existing: map<string, seq<Endpoint>>, key: string): seq<Endpoint> {
    if key in existing then existing[key] else []
  }

  /** What `Replace` promises for one key: the first min(old, new) objects with that
      key survive in order, and the other positions hold objects not known before. */
  ghost predicate Carried(before: seq<Endpoint>, now: seq<Endpoint>, targets: seq<Url>, key: string,
                          known: set<Endpoint>) {
    var was := Occurrences(before, key);
    var got := Occurrences(now, key);
    var kept := Min(|was|, CountKey(targets, key));
    |got| == CountKey(targets, key) &&
    got[..kept] == was[..kept] &&
    forall i :: kept <= i < |got| ==> got[i] !in known
  }

  /** The objects with that key which the first `targets` positions have left over. */
  ghost function Unused(before: seq<Endpoint>, targets: seq<Url>, key: string): seq<Endpoint> {
    var was := Occurrences(before, key);
    was[Min(CountKey(targets, key), |was|)..]
  }

  ghost function RestAfter(existing: map<string, seq<Endpoint>>, key: string): map<string, seq<Endpoint>> {
    if Remaining(existing, key) == [] then existing else existing[key := existing[key][1..]]
  }

  /** The rebuild after the positions `targets`. */
  ghost predicate Progress(before: seq<Endpoint>, now: seq<Endpoint>, targets: seq<Url>,
                           existing: map<string, seq<Endpoint>>, known: set<Endpoint>) {
    Distinct(before) && Distinct(now) &&
    (forall k: string :: Carried(before, now, targets, k, known)) &&
    (forall k: string :: Remaining(existing, k) == Unused(before, targets, k)) &&
    (forall k: string, j :: 0 <= j < |Remaining(existing, k)| ==> Remaining(existing, k)[j] !in now)
  }

  lemma InitialProgress(before: seq<Endpoint>, existing: map<string, seq<Endpoint>>, known: set<Endpoint>)
    requires Distinct(before)
    requires forall k: string :: Remaining(existing, k) == Occurrences(before, k)
    ensures Progress(before, [], [], existing, known)
  {
  }

  lemma UnusedAreLive(before: seq<Endpoint>, now: seq<Endpoint>, targets: seq<Url>,
                      existing: map<string, seq<Endpoint>>, key: string, known: set<Endpoint>)
    requires Progress(before, now, targets, existing, known)
    ensures forall e :: e in Remaining(existing, key) ==> e in before && e !in now && e.key == key
  {
    forall e | e in Remaining(existing, key) ensures e in before && e !in now && e.key == key {
      var j :| 0 <= j < |Remaining(existing, key)| && Remaining(existing, key)[j] == e;
    }
  }

  lemma ProgressStep(before: seq<Endpoint>, now: seq<Endpoint>, targets: seq<Url>, t: Url,
                     existing: map<string, seq<Endpoint>>, e: Endpoint, rest: map<string, seq<Endpoint>>,
                     known: set<Endpoint>)
    requires Progress(before, now, targets, existing, known) && e.key == t.key && e !in now
    requires forall j :: 0 <= j < |before| ==> before[j] in known
    requires var unused := Remaining(existing, t.key);
             if unused == [] then e !in known else e == unused[0]
    requires rest == RestAfter(existing, t.key)
    ensures Progress(before, now + [e], targets + [t], rest, known)
  {
    hide Carried, Occurrences, CountKey;
    DistinctAppend(now, e);
    forall k: string
      ensures Carried(before, now + [e], targets + [t], k, known)
      ensures Remaining(rest, k) == Unused(before, targets + [t], k)
      ensures forall j :: 0 <= j < |Remaining(rest, k)| ==> Remaining(rest, k)[j] !in now + [e]
    {
      CarriedStep(before, now, targets, t, e, k, known);
      UnusedDistinct(before, targets, k);
      UnusedAreLive(before, now, targets, existing, k, known);
    }
  }

  lemma CarriedStep(before: seq<Endpoint>, now: seq<Endpoint>, targets: seq<Url>, t: Url, e: Endpoint, key: string,
                    known: set<Endpoint>)
    requires Carried(before, now, targets, key, known) && e.key == t.key
    requires var unused := Unused(before, targets, t.key);
             if unused == [] then e !in known else e == unused[0]
    ensures Carried(before, now + [e], targets + [t], key, known)
    ensures Unused(before, targets + [t], key) ==
            var unused := Unused(before, targets, key);
            if key == t.key && unused != [] then unused[1..] else unused
  {
    assert (now + [e])[..|now|] == now;
    assert (targets + [t])[..|targets|] == targets;
  }

  ghost predicate Distinct(s: seq<Endpoint>) {
    forall i, j :: 0 <= i < j < |s| ==> s[i] != s[j]
  }

  lemma {:induction false} OccurrencesDistinct(endpoints: seq<Endpoint>, key: string)
    requires Distinct(endpoints)
    ensures Distinct(Occurrences(endpoints, key))
  {
    if endpoints != [] {
      var front, last := endpoints[..|endpoints| - 1], endpoints[|endpoints| - 1];
      OccurrencesDistinct(front, key);
      DistinctAppend(Occurrences(front, key), last);
    }
  }

  lemma DistinctAppend(s: seq<Endpoint>, e: Endpoint)
    requires Distinct(s) && e !in s
    ensures Distinct(s + [e])
  {
  }

  lemma UnusedDistinct(before: seq<Endpoint>, targets: seq<Url>, key: string)
    requires Distinct(before)
    ensures Distinct(Unused(before, targets, key))
  {
    OccurrencesDistinct(before, key);
  }

  // ----- Conservation -----

  /** Each object's count, live or detached, is the number of unreleased permits that hold it. */
  lemma LoadIsHolders(pool: LeastRequests, e: Endpoint)
    requires pool.Accounted() && e in pool.known
    ensures e.activeRequests == |Holding(pool.permits, e)|
  {
    assert Holding(pool.permits, e) == e.holders;
  }

  /** Live and detached loads together are all the outstanding permits. */
  lemma LoadsAddUp(pool: LeastRequests, live: set<Endpoint>)
    requires pool.Accounted() && live <= pool.known
    ensures TotalLoad(live) + TotalLoad(pool.known - live) == |Outstanding(pool.permits)|
  {
    forall e | e in pool.known ensures e.activeRequests == |Holding(pool.permits, e)| {
      LoadIsHolders(pool, e);
    }
    var detached := pool.known - live;
    TotalIsHeld(live, pool.permits);
    TotalIsHeld(detached, pool.permits);
    SplitOutstanding(pool, live);
  }

  lemma SplitOutstanding(pool: LeastRequests, live: set<Endpoint>)
    requires pool.Accounted() && live <= pool.known
    ensures |HeldBy(pool.permits, live)| + |HeldBy(pool.permits, pool.known - live)| == |Outstanding(pool.permits)|
  {
    var a, b := HeldBy(pool.permits, live), HeldBy(pool.permits, pool.known - live);
    assert a + b == Outstanding(pool.permits);
    assert a !! b;
  }

  ghost function HeldBy(permits: set<Permit>, endpoints: set<Endpoint>): set<Permit>
    reads permits
  {
    set p | p in permits && !p.released && p.selected in endpoints
  }

  lemma {:induction false} TotalIsHeld(endpoints: set<Endpoint>, permits: set<Permit>)
    requires forall e :: e in endpoints ==> e.activeRequests == |Holding(permits, e)|
    ensures TotalLoad(endpoints) == |HeldBy(permits, endpoints)|
  {
    if endpoints == {} {
      assert HeldBy(permits, endpoints) == {};
    } else {
      var e := OneOf(endpoints);
      TotalIsHeld(endpoints - {e}, permits);
      assert HeldBy(permits, endpoints) == HeldBy(permits, endpoints - {e}) + Holding(permits, e);
      assert HeldBy(permits, endpoints - {e}) !! Holding(permits, e);
    }
  }

  // ----- Runs of acquires without releases: each is an AcquireOnce, as Acquire promises -----

  datatype Ring = Ring(loads: seq<nat>, cursor: nat)

  predicate ValidRing(r: Ring) {
    r.cursor < |r.loads|
  }

  lemma {:induction false} FirstMinimumExists(loads: seq<nat>, start: nat, best: nat, offset: nat)
    requires start < |loads| && 1 <= offset <= |loads| && FirstAmong(loads, start, best, offset)
    ensures exists index: nat :: FirstMinimum(loads, start, index)
    decreases |loads| - offset
  {
    if offset == |loads| {
      assert FirstMinimum(loads, start, best);
    } else {
      var candidate := Wrap(start + offset, |loads|);
      var better := if loads[candidate] < loads[best] then candidate else best;
      FirstMinimumExists(loads, start, better, offset + 1);
    }
  }

  /** The endpoint the next acquire selects; by FirstMinimumUnique there is only one choice. */
  ghost function Selected(r: Ring): (index: nat)
    requires ValidRing(r)
    ensures FirstMinimum(r.loads, r.cursor, index)
  {
    FirstMinimumExists(r.loads, r.cursor, r.cursor, 1);
    var index: nat :| FirstMinimum(r.loads, r.cursor, index);
    index
  }

  ghost function AcquireOnce(r: Ring): (r': Ring)
    requires ValidRing(r)
    ensures ValidRing(r') && |r'.loads| == |r.loads|
  {
    var i := Selected(r);
    Ring(r.loads[i := r.loads[i] + 1], Wrap(i + 1, |r.loads|))
  }

  lemma AcquireOnceIs(r: Ring, index: nat)
    requires ValidRing(r) && FirstMinimum(r.loads, r.cursor, index)
    ensures AcquireOnce(r) == Ring(r.loads[index := r.loads[index] + 1], Wrap(index + 1, |r.loads|))
  {
    FirstMinimumUnique(r.loads, r.cursor, Selected(r), index);
  }

  ghost function AcquireTimes(r: Ring, k: nat): (r': Ring)
    requires ValidRing(r)
    ensures ValidRing(r') && |r'.loads| == |r.loads|
  {
    if k == 0 then r else AcquireOnce(AcquireTimes(r, k - 1))
  }

  predicate WithinOne(loads: seq<nat>) {
    forall i, j :: 0 <= i < |loads| && 0 <= j < |loads| ==> loads[i] <= loads[j] + 1
  }

  /** However many acquires follow each other, loads that differ by at most one still do. */
  lemma {:induction false} AcquiresStayBalanced(r: Ring, k: nat)
    requires ValidRing(r) && WithinOne(r.loads)
    ensures WithinOne(AcquireTimes(r, k).loads)
  {
    if k > 0 {
      AcquiresStayBalanced(r, k - 1);
      var before := AcquireTimes(r, k - 1);
      var i := Selected(before);
      forall j | 0 <= j < |before.loads| ensures before.loads[i] <= before.loads[j] {
        assert Precedes(before.loads, before.cursor, i, j);
      }
    }
  }

  /** The first `d` endpoints from `origin` on carry one request more than the others. */
  predicate Level(r: Ring, origin: nat, base: nat, d: nat) {
    origin < |r.loads| && d < |r.loads| && r.cursor == Wrap(origin + d, |r.loads|) &&
    forall j :: 0 <= j < |r.loads| ==>
      r.loads[j] == base + (if CyclicOffset(|r.loads|, origin, j) < d then 1 else 0)
  }

  lemma LevelSelects(r: Ring, origin: nat, base: nat, d: nat)
    requires Level(r, origin, base, d)
    ensures Selected(r) == r.cursor
  {
    assert CyclicOffset(|r.loads|, origin, r.cursor) == d;
    assert FirstAmong(r.loads, r.cursor, r.cursor, |r.loads|);
    FirstMinimumUnique(r.loads, r.cursor, Selected(r), r.cursor);
  }

  lemma LevelStep(r: Ring, origin: nat, base: nat, d: nat)
    requires Level(r, origin, base, d)
    ensures if d + 1 == |r.loads| then Level(AcquireOnce(r), origin, base + 1, 0)
            else Level(AcquireOnce(r), origin, base, d + 1)
  {
    LevelSelects(r, origin, base, d);
    assert CyclicOffset(|r.loads|, origin, r.cursor) == d;
  }

  lemma LevelAfter(r: Ring, origin: nat, base: nat, d: nat, k: nat)
    requires ValidRing(r) && k > 0 && Level(AcquireTimes(r, k - 1), origin, base, d)
    ensures if d + 1 == |r.loads| then Level(AcquireTimes(r, k), origin, base + 1, 0)
            else Level(AcquireTimes(r, k), origin, base, d + 1)
  {
    LevelStep(AcquireTimes(r, k - 1), origin, base, d);
  }

  lemma {:induction false} LevelAlways(r: Ring, load: nat, k: nat) returns (laps: nat, rest: nat)
    requires ValidRing(r) && forall j :: 0 <= j < |r.loads| ==> r.loads[j] == load
    ensures rest < |r.loads| && k == laps * |r.loads| + rest
    ensures Level(AcquireTimes(r, k), r.cursor, load + laps, rest)
  {
    if k == 0 {
      laps, rest := 0, 0;
    } else {
      laps, rest := LevelAlways(r, load, k - 1);
      LevelAfter(r, r.cursor, load + laps, rest, k);
      if rest + 1 == |r.loads| {
        assert (laps + 1) * |r.loads| == laps * |r.loads| + |r.loads|;
        laps, rest := laps + 1, 0;
      } else {
        rest := rest + 1;
      }
    }
  }

  /** Ties are broken in ring order: from equal loads, after k acquires, which are
      `laps` full rounds and `rest` more, the next one selects position cursor + rest of
      the ring. So each round of n acquires visits each of n endpoints exactly once. */
  lemma EqualLoadsGoRound(r: Ring, load: nat, k: nat, laps: nat, rest: nat)
    requires ValidRing(r) && forall j :: 0 <= j < |r.loads| ==> r.loads[j] == load
    requires k == laps * |r.loads| + rest && rest < |r.loads|
    ensures Level(AcquireTimes(r, k), r.cursor, load + laps, rest)
    ensures Selected(AcquireTimes(r, k)) == Wrap(r.cursor + rest, |r.loads|)
  {
    var laps', rest' := LevelAlways(r, load, k);
    QuotientUnique(|r.loads|, laps, rest, laps', rest');
    LevelSelects(AcquireTimes(r, k), r.cursor, load + laps, rest);
  }
}
