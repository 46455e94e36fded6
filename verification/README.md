# DevGate verification

A Dafny model of the stateful core of DevGate, a gateway in Go, with proofs of what that
core promises. `dafny verify dfyconfig.toml` checks everything.

- `PoolProtocol.dfy`: the health-aware upstream pool as a protocol between concurrent actors.
  One locked section or one atomic access is one step; an endpoint list being applied, health
  probes, ejections, recoveries, acquires and the six steps of a picker Refresh interleave
  freely. The theorems speak of every reachable state.
- `PoolRuns.dfy`: what holds over whole runs of that protocol.
- `PoolRefinement.dfy`: each step of the protocol is what a locked section does to the objects. A
  ghost journal on the objects records the order in which an operation performs its sections.
- `HealthPool.dfy`: the objects that tie the pool together (membership, composite source,
  health-aware picker, coordinator), as classes run by one caller at a time.
- `LeastRequests.dfy`, `HealthTracker.dfy`, `PassiveHealthTracker.dfy`: the three stateful
  components beneath, as classes whose methods are tied to ghost histories and footprints.
- `RecoveryLoop.dfy`: the timer and wake loop that re-admits ejected endpoints.
- `ProbeRound.dfy`: one round of active probes by a pool of workers.
- `CircuitBreaker.dfy`: the breaker as a class, and runs of overlapping round trips.
- `Text.dfy`, `Route.dfy`, `Router.dfy`, `Gateway.dfy`: route validation, the route table, lookup
  and the choice between 404 and 405.
- `ForwardedFor.dfy`: the X-Forwarded-For chain through one proxy and through several.
- `Common.dfy`, `Outcomes.dfy`: shared vocabulary.

A method that works on the state of an object is specified by a function or a ghost history of
that state; the lemmas then speak about those over whole runs. Ghost fields record what the Go
objects do not: the outcomes recorded for an endpoint, the permits that hold it, the ledger of
passive outcomes, the observer's log.

Time is an integer that never runs backwards, and the zero time is an option. A URL is a value
with a key, its String() form. Generations and request counts are unbounded. The result of a
probe or a round trip is arbitrary.

Five stronger statements that one might expect are false of the code. Each has a lemma with the
concrete case, and beside it the exact statement that holds:

- "A shut picker hands out nothing" (`PoolProtocol.ShutPickerCanServe`): it can hand out k targets
  exactly if k calls saw it open and have yet to pick (`PoolRuns.ShutPickerServesExactly`).
- "A quiet picker shows current health", which fails in two ways
  (`PoolProtocol.QuietPickerCanLagDeadline`, `PoolProtocol.QuietPickerCanHideHealth`): it does so
  exactly if no ejection of a healthy member expired unnoticed
  (`PoolProtocol.QuietPickerShowsHealthIff`).
- "A rejected table is ambiguous" (`Router.ShadowedTieIsRejected`): a table is accepted exactly if
  no request ties two routes (`Router.AcceptedWithoutTies`), and a request has a best route exactly
  if no tie goes unresolved (`Router.BestExistsIff`).
- "A further trusted proxy drops nothing" (`ForwardedFor.MappedPrefixLosesChain`): it drops nothing
  exactly if the chain fits and is only the peer or ends in one trusted unmapped
  (`ForwardedFor.FurtherHop`).

The results to read first: `PoolProtocol.QuietPickerIsExact`, `PoolProtocol.BadEndpointsAreDue`,
`PoolProtocol.TargetsComeFromOneList`, `PoolRuns.ShutPickerServesExactly`,
`PoolRuns.FiringsAreBounded`, `HealthPool.EndpointCoordinator.Apply`, `LeastRequests.LoadsAddUp`,
`LeastRequests.LeastRequests.Replace`, `LeastRequests.EqualLoadsGoRound`,
`PassiveHealthTracker.PassiveHealthTracker.EjectedIsSettled`, `HealthTracker.KeptHistory`,
`CircuitBreaker.PermitsMatchState`, `CircuitBreaker.OpensOnTrailingRun`,
`CircuitBreaker.ProbeRateBound`, `Router.AcceptedWithoutTies`, `Router.OrderDoesNotMatter`,
`Gateway.Dispatch`, `ForwardedFor.FurtherHop`, `ForwardedFor.HopsAccumulate` and
`ProbeRound.FinishedRound`.

## Model

| member | source | states |
|---|---|---|
| PoolProtocol.QuietPickerIsExact | internal/upstream/health_aware_picker.go:67-82 | in every interleaving, whenever no Refresh runs or is owed, the picker is open iff some member is good, and then its snapshot is exactly the good members in membership order with their multiplicity; good means tracked, actively healthy, with no ejection stored, expired or not, and none that acquirePermit has cleared since the passive tracker was last read |
| PoolProtocol.QuietPickerShowsHealthIff | internal/upstream/passive_health_tracker.go:209-223 | the quiet picker equals the filter by current health, in which an ejection counts until its deadline and no longer, if and only if no healthy member has an ejection that expired unnoticed: still stored, or cleared by acquirePermit since the last read |
| PoolProtocol.BadEndpointsAreDue | internal/upstream/health_aware_picker.go:67-82 | at every moment an open picker offers a removed, unhealthy or ejected endpoint only while the Refresh for that very change (or for the Apply in progress) is still to come |
| PoolProtocol.TargetsComeFromOneList | internal/upstream/endpoint_coordinator.go:44-64 | whatever Acquire can still return comes from a snapshot that is a sublist of one single applied list, all of it tracked by tracker snapshots of that version or later |
| PoolProtocol.RecoveriesAreWatched | cmd/devgate/passive_health_observer.go:59-116 | while an ejection is stored the recovery loop is never parked, nor set to a later deadline, unless a wake-up is on its way |
| PoolProtocol.ShutPickerCanServe | internal/upstream/health_aware_picker.go:57-63 | a reachable state in which the picker is shut and yet a call that loaded the flag before can pick an ejected endpoint: the two parts of Acquire are not atomic |
| PoolProtocol.QuietPickerCanHideHealth | internal/upstream/passive_health_tracker.go:209-223 | a reachable quiet state in which the picker does not show current health, because clearing an expired ejection on acquire owes no Refresh |
| PoolProtocol.QuietPickerCanLagDeadline | internal/upstream/passive_health_tracker.go:209-223 | a reachable quiet state, with no ejection cleared unread, in which the picker does not show current health because a deadline has just come |
| PoolRuns.ShutPickerServesExactly | internal/upstream/health_aware_picker.go:57-63 | in every reachable state a shut picker can hand out k targets before it is opened again if and only if at least k calls had loaded the flag while it was open and have not picked yet |
| PoolRuns.ShutPickerServesLoaded | internal/upstream/health_aware_picker.go:57-82 | in any run that does not reopen a shut picker, the targets handed out and the calls still to pick add up to the calls that had loaded the flag before |
| PoolRuns.ServesIffLoaded | internal/upstream/health_aware_picker.go:57-63 | in every reachable state some call can return a target iff one has seen the picker open and not picked yet |
| PoolRuns.FiringsAreBounded | cmd/devgate/passive_health_observer.go:59-94 | under every interleaving, with ejections, acquires, applies and other Refreshes meanwhile: each firing of the timer uses up one stored or new ejection, except that a timer running at the start may have been set for one that is gone |
| PoolRuns.NoIdleFirings | cmd/devgate/passive_health_observer.go:59-94 | in every run from the start, firings and ejections still stored together are at most the ejections made |
| PoolRuns.FiringMakesProgress | cmd/devgate/passive_health_observer.go:78-92 | a firing leaves only ejections that stand, and fewer of them iff one had expired, which is so unless the one it was set for is gone |
| PoolRefinement.ApplyActiveSection | internal/upstream/endpoint_coordinator.go:48-52 | the first section of Apply on objects that mirror a protocol state leaves them mirroring the state after the protocol step |
| PoolRefinement.ApplyPassiveSection | internal/upstream/endpoint_coordinator.go:53-57 | the same for the second section |
| PoolRefinement.ApplyMembersSection | internal/upstream/endpoint_coordinator.go:59 | the same for the third section |
| PoolRefinement.ProbeSection | internal/upstream/health_tracker.go:70-96 | recording a probe is the step Flip if it reports a change and no step otherwise |
| PoolRefinement.OutcomeSection | internal/upstream/passive_health_tracker.go:181-207 | recording an outcome is the step Eject if it ejects and no step otherwise |
| PoolRefinement.PermitSection | internal/upstream/passive_health_tracker.go:158-179 | asking for a permit is the step Forgive if that is enabled and no step otherwise, and is refused iff the endpoint is not available |
| PoolRefinement.PickSection | internal/upstream/health_aware_picker.go:57-63 | the pick of an Acquire is an enabled step Pick |
| PoolRefinement.ReadActiveSection | internal/upstream/composite_health_source.go:36-46 | a Refresh reads from the active tracker what the protocol step says |
| PoolRefinement.ReadPassiveSection | internal/upstream/composite_health_source.go:36-46 | a Refresh reads from the passive tracker, and clears in it, what the protocol step says |
| PoolRefinement.PublishSection | internal/upstream/health_aware_picker.go:73-79 | replacing the base picker, or leaving it shut, is the step Publish |
| PoolRefinement.LookSection | internal/upstream/passive_health_tracker.go:103-130 | the loop's look at the tracker is an enabled step Look, and the delay is the time to what it waits for |
| PoolRefinement.FireSection | cmd/devgate/passive_health_observer.go:78-82 | the loop's read on its timer is the step Fire |
| PoolRefinement.RefreshRun | internal/upstream/health_aware_picker.go:67-82 | the sections of Refresh, in the order in which Refresh performs them, are a run of enabled protocol steps from holding the mutex to the end of the Refresh |
| PoolRefinement.ShutMeanwhile | internal/upstream/health_aware_picker.go:71-80 | in every reachable state the flag is down from the first store of a Refresh to its end |
| PoolRefinement.NewObjectsMirror | internal/upstream/health_aware_picker.go:35-53 | newly built objects mirror the start of the protocol |
| PoolProtocol.InvHolds | internal/upstream/endpoint_coordinator.go:44-64 | every reachable state keeps the invariants: trackers run ahead of membership by at most one Apply, every snapshot has one origin, quiet pickers are exact, bad endpoints are excused by a due Refresh, recoveries are watched |
| HealthPool.EndpointCoordinator.Apply | internal/upstream/endpoint_coordinator.go:44-64 | replaces the active tracker, the passive tracker and membership in that order and then refreshes; both trackers keep what they knew of retained endpoints, expired ejections are cleared, membership is the new list, and the picker offers exactly the new endpoints plus those retained ones that were neither unhealthy nor under a standing ejection |
| HealthPool.EndpointCoordinator.PublishableIsGood | internal/upstream/endpoint_coordinator.go:48-60 | the filter the picker applies after the trackers have been replaced equals the filter stated on the state before |
| HealthPool.EndpointCoordinator.HealthyAfterReplace | internal/upstream/health_tracker.go:118-149 | after Replace a key is healthy iff it is new or was healthy before |
| HealthPool.CompositeHealthSource.HealthyEndpoints | internal/upstream/composite_health_source.go:34-49 | the ordered intersection of membership with both trackers as they stood before the call; of the trackers only expired ejections change |
| HealthPool.CompositeHealthSource.Intersect | internal/upstream/composite_health_source.go:38-46 | keeps exactly the endpoints whose keys the other source lists, order and multiplicity kept |
| HealthPool.HealthAwarePicker.Refresh | internal/upstream/health_aware_picker.go:67-82 | run alone: never fails; shuts the picker, then reads membership, the active and the passive tracker in that order, and only then, if anything is left, replaces the base and opens again; afterwards it is open iff the intersection is not empty, and offers exactly it |
| HealthPool.HealthAwarePicker.ReplaceSnapshot | internal/upstream/health_aware_picker.go:76-79 | the base picker changes only while the picker is shut |
| HealthPool.HealthAwarePicker.Acquire | internal/upstream/health_aware_picker.go:57-63 | run alone: succeeds iff the picker is open, with a permit for an endpoint of its snapshot |
| HealthPool.HealthAwarePicker.constructor | internal/upstream/health_aware_picker.go:35-53 | a new picker offers exactly the intersection |
| LeastRequests.LeastRequests.Acquire | internal/upstream/least_requests.go:29-62 | selects the first endpoint of least load in cyclic order from the cursor, adds one to its load and to no other, moves the cursor behind it and hands out one new permit: the step of the run theorems below |
| LeastRequests.LeastRequests.LeastLoaded | internal/upstream/least_requests.go:34-45 | the scan returns the position that is least by (load, cyclic distance from the start) |
| LeastRequests.LeastRequests.Release | internal/upstream/least_requests.go:50-60 | takes one off the permit's own object the first time and nothing afterwards; the count, a natural number, never underflows |
| LeastRequests.LeastRequests.Replace | internal/upstream/least_requests.go:66-98 | for every key exactly min(old, new) objects survive, in old order and with their counts; all other positions hold new objects at zero; no object is placed twice |
| LeastRequests.LeastRequests.New | internal/upstream/least_requests.go:19-25 | refuses exactly the empty list; a new pool has all loads zero |
| LeastRequests.ProgressStep | internal/upstream/least_requests.go:79-93 | the carry-over promise is kept by each position of the rebuild, whatever duplicates the lists contain |
| LeastRequests.LoadIsHolders | internal/upstream/least_requests.go:29-98 | the load of every object, live or removed, is the number of unreleased permits that hold it |
| LeastRequests.LoadsAddUp | internal/upstream/least_requests.go:29-98 | live and detached loads together are the number of outstanding permits |
| LeastRequests.AcquiresStayBalanced | internal/upstream/least_requests.go:32-46 | loads within one of each other stay so in every run of acquires |
| LeastRequests.EqualLoadsGoRound | internal/upstream/least_requests.go:32-46 | from equal loads, after laps full rounds and rest more acquires the next selection is ring position cursor + rest, so each round visits every endpoint once |
| LeastRequests.FirstMinimumUnique | internal/upstream/least_requests.go:34-45 | there is only one first minimum, so the choice is determined |
| HealthTracker.EndpointHealth.RecordSuccess | internal/upstream/health.go:41-53 | appends a success; health stays the hysteresis of the whole history, changes are reported iff the flag flips and alternate, starting with unhealthy, and both counters stay below their thresholds |
| HealthTracker.EndpointHealth.RecordFailure | internal/upstream/health.go:55-67 | the same for a failure |
| HealthTracker.HysteresisAppend | internal/upstream/health.go:41-67 | health, defined on histories without counters, flips only when an outcome completes a run of the other kind |
| HealthTracker.RecordedImplements | internal/upstream/health.go:41-67 | the counters implement that definition after every outcome |
| HealthTracker.HealthTracker.RecordSuccess | internal/upstream/health_tracker.go:70-81 | records for the tracked key only, by key; reports a change iff the key's health changed, and untracked keys as such |
| HealthTracker.HealthTracker.RecordFailure | internal/upstream/health_tracker.go:85-96 | the same for a failure |
| HealthTracker.HealthTracker.Replace | internal/upstream/health_tracker.go:118-149 | retained keys keep their whole history, new keys start with none, tracked keys are the keys of the new list |
| HealthTracker.HealthTracker.HealthyEndpoints | internal/upstream/health_tracker.go:100-113 | exactly the endpoints whose history is healthy, in order; no lookup misses |
| HealthTracker.HealthTracker.Targets | internal/upstream/health_tracker.go:153-169 | the first endpoint of each key, in the order of those first occurrences, and no key missing |
| HealthTracker.HealthTracker.New | internal/upstream/health_tracker.go:22-66 | refuses exactly the empty list and thresholds below one |
| HealthTracker.KeptHistory | internal/upstream/health_tracker.go:70-149 | in any sequence of Replace and record operations, a key that every Replace keeps is judged by all the outcomes recorded for it |
| HealthTracker.DroppedHistory | internal/upstream/health_tracker.go:118-149 | a key removed by one Replace and re-added by the next starts with an empty history |
| PassiveHealthTracker.PassiveHealthTracker.AcquirePermit | internal/upstream/passive_health_tracker.go:158-179 | refuses exactly unknown targets and standing ejections; clears an expired one; the permit is stamped with the tracked object and its generation |
| PassiveHealthTracker.PassiveHealthTracker.RecordOutcome | internal/upstream/passive_health_tracker.go:181-207 | ejects iff the permit is current and the outcome completes a run of failures on the ledger for that object and generation; with a permit that is not current nothing changes |
| PassiveHealthTracker.PassiveHealthTracker.EndOfRun | internal/upstream/passive_health_tracker.go:188-206 | the failure counter is the trailing run of failures among the outcomes recorded for the object's current generation |
| PassiveHealthTracker.PassiveHealthTracker.EjectedIsSettled | internal/upstream/passive_health_tracker.go:181-223 | while an ejection is stored its counter is zero and every permit for the object is stale, so the deadline stands whatever finishes |
| PassiveHealthTracker.PassiveHealthTracker.LedgerGrows | internal/upstream/passive_health_tracker.go:181-187 | a recorded outcome adds to one endpoint's current generation, and only if the permit is current |
| PassiveHealthTracker.PassiveHealthTracker.EndpointAvailable | internal/upstream/passive_health_tracker.go:209-223 | available iff no ejection stands; an expired one is dropped |
| PassiveHealthTracker.PassiveHealthTracker.HealthyEndpoints | internal/upstream/passive_health_tracker.go:82-99 | the endpoints without a standing ejection, in order; all expired ejections, and no others, are cleared |
| PassiveHealthTracker.PassiveHealthTracker.NextRecoveryDelay | internal/upstream/passive_health_tracker.go:103-130 | pending iff an ejection is stored, and then max(0, earliest deadline - now), in whatever order the map is walked |
| PassiveHealthTracker.PassiveHealthTracker.Replace | internal/upstream/passive_health_tracker.go:135-156 | retained keys keep their object and ejection; re-added ones get a new object that no earlier permit is current for |
| PassiveHealthTracker.PassiveHealthTracker.New | internal/upstream/passive_health_tracker.go:45-78 | refuses exactly the empty list and a threshold or duration that is not positive |
| Outcomes.Classify | internal/upstream/passive_health_transport.go:72-90 | a failure is an error or a 5xx answer of a request that was not cancelled, a success any other answer of such a request; everything else is ignored |
| RecoveryLoop.RoutePassiveHealthObserver.Run | cmd/devgate/passive_health_observer.go:59-94 | each firing clears at least one ejection and leaves none that has expired, the picker then offers exactly what is good, and with no new ejections either nothing is stored any more or every timer has fired |
| RecoveryLoop.RoutePassiveHealthObserver.Recover | cmd/devgate/passive_health_observer.go:82-92 | one firing: the tracker is read, then the picker is refreshed, and nothing expired is left stored or withheld |
| RecoveryLoop.RoutePassiveHealthObserver.RecordEjection | cmd/devgate/passive_health_observer.go:96-116 | the picker is refreshed first and the wake channel filled after that |
| RecoveryLoop.RoutePassiveHealthObserver.FiringClears | cmd/devgate/passive_health_observer.go:78-92 | sweeping again at a later time equals one sweep at that time, with strictly fewer ejections left |
| CircuitBreaker.PermitsMatchState | internal/proxy/circuit_breaker.go:138-209 | in every run, half-open iff exactly one unrecorded probe permit of the current generation; open implies none; closed implies only ordinary ones; the observer's log is a connected walk to the current state |
| CircuitBreaker.OpensOnTrailingRun | internal/proxy/circuit_breaker.go:159-209 | in every run the counter is the trailing run of failures of the current generation; a closed circuit opens exactly on the outcome that completes the run; stale outcomes change nothing |
| CircuitBreaker.ProbeWaitsForTimeout | internal/proxy/circuit_breaker.go:145-151 | in every run an open circuit admits a probe exactly when the timeout has passed since a failure last opened it; an ignored probe does not restart the wait |
| CircuitBreaker.ProbesAreSpaced | internal/proxy/circuit_breaker.go:138-188 | a run that admits k probes and resolves none ends no earlier than k - 1 timeouts after the first moment a probe could be admitted |
| CircuitBreaker.ProbeRateBound | internal/proxy/circuit_breaker.go:138-188 | any stretch of any run within length L that resolves no probe lets at most 1 + L / timeout probes through |
| CircuitBreaker.InvRun | internal/proxy/circuit_breaker.go:138-209 | the invariant behind these holds in every run, with round trips finishing in any order |
| CircuitBreaker.CircuitBreakerTransport.AcquirePermit | internal/proxy/circuit_breaker.go:138-157 | the locked section refines the step function of the run model |
| CircuitBreaker.CircuitBreakerTransport.RecordOutcome | internal/proxy/circuit_breaker.go:159-209 | the locked section refines the step function of the run model, which ProbeDecides and OpensOnTrailingRun pin down |
| CircuitBreaker.ProbeDecides | internal/proxy/circuit_breaker.go:167-188 | in every run a successful probe closes the circuit, a failed one opens it and counts as a trip at that moment, an ignored one opens it as of the last trip; no permit is current afterwards |
| CircuitBreaker.ArrivalDecides | internal/proxy/circuit_breaker.go:138-157 | in every run an arrival is let through as an ordinary request while closed, as the probe while open once the timeout has passed since the last trip, and is otherwise refused without effect |
| Outcomes.TrailingAreFailures | internal/proxy/circuit_breaker.go:194-208 | the trailing failures are the failures after the last success, ignored outcomes not counted |
| CircuitBreaker.CircuitBreakerTransport.New | internal/proxy/circuit_breaker.go:86-111 | refuses exactly a threshold or a timeout that is not positive |
| Router.New | internal/router/router.go:15-61 | succeeds iff the table is not empty, every route is valid, names are distinct and no two routes conflict; otherwise names the first route that cannot follow the sound table before it, and truly why |
| Router.ConflictIsShared | internal/router/router.go:28-55 | two valid routes with one path matcher and priority are in conflict iff some request matches both |
| Router.AcceptedWithoutTies | internal/router/router.go:15-61 | a table of valid, distinctly named routes is accepted iff no request makes two of its routes tie in the lookup order |
| Router.ShadowedTieIsRejected | internal/router/router.go:28-55 | a rejected table that is not ambiguous, because a third route outranks the tied pair: exactness is a statement about pairs |
| Router.BestExistsIff | internal/router/router.go:63-110 | in any table, a request that is matched has a best route iff every two of its matches that tie are both outranked by a third |
| Router.Match | internal/router/router.go:63-110 | finds a route iff one matches, and then one such that every other match has a shorter path, or a prefix where it has an exact path of that length, or a lower priority |
| Router.MatchesMeans | internal/router/router.go:152-199 | a request is matched iff its path is the exact path, or is the prefix or continues it with a slash, its method and host are listed or the list is empty, and each named header has exactly the one value |
| Router.PrefixIsSegments | internal/router/router.go:152-159 | a prefix other than the root matches exactly the paths whose segments begin with its own |
| Router.OutranksMeans | internal/router/router.go:84-101 | the lookup order is path length, then exact over prefix, then priority |
| Router.BestIsUnique | internal/router/router.go:63-110 | there is only one such route |
| Router.NoTies | internal/router/router.go:63-110 | in an accepted table exactly one of two different matches of a request outranks the other |
| Router.OrderDoesNotMatter | internal/router/router.go:15-110 | every permutation of an accepted table is accepted and has the same best route for every request |
| Router.SamePathMatcher | internal/router/router.go:152-159 | two matchers of one length and kind that match the same path are equal |
| Router.AllowedMethods | internal/router/router.go:116-132 | strictly sorted; empty if a matching route takes every method; otherwise exactly the methods configured for routes that match apart from the method |
| Router.SetsOverlap | internal/router/router.go:201-231 | true iff a list is empty or the lists share an element |
| Router.HeaderMatchSetsOverlap | internal/router/router.go:233-249 | true iff no header, names compared without case, is asked for with two values |
| Router.SameCanonical | internal/router/router.go:189-197 | the lookup by canonical name and the conflict check by lower-cased name identify the same header names |
| Router.HostMatchesItself | internal/router/router.go:251-258 | a validated host is matched by itself in any case, with or without a port |
| Router.HostForms | internal/router/router.go:251-258 | a host is taken in lower case and without its port, in brackets also with colons of its own |
| Router.CanonicalCase | internal/router/router.go:189-197 | the name under which a header is looked up differs from the configured one in case only, and is cased by words |
| Router.BucketConflict | internal/router/router.go:28-56 | looking for conflicts among the routes with the same path matcher only finds the same first conflict as looking among all |
| Route.Validate | internal/router/route.go:83-188 | returns no error iff the route meets all the rules, and otherwise an error about the first rule, in checking order, that does not hold; action and policies enter as given verdicts |
| Route.MeetsRules | internal/router/route.go:83-188 | the checks in order pass iff the rules, stated without order, hold: one rooted path matcher, valid and distinct methods, hosts and header names, and the given verdicts on action and policies |
| Route.HostnamesAreLabels | internal/router/route.go:424-455 | the valid host names are exactly the lower-case labels of 1 to 63 bytes, without a hyphen at either end, joined by dots, up to 253 bytes |
| Route.TokenCharsAreNotDelimiters | internal/router/route.go:524-541 | the bytes allowed in a name are the visible ones that are not delimiters |
| Route.ReservedIgnoresCase | internal/router/route.go:356-377 | reserved request headers are reserved in any case, and all X-Forwarded- ones are |
| Route.HostnameChars | internal/router/route.go:424-455 | a valid host name consists of label characters and dots only |
| Gateway.Dispatch | internal/gateway/handler.go:70-83 | 405 iff the request matches no route but would with another method, with an Allow list that is sorted, distinct and exactly the methods that would succeed; 404 iff no method would |
| ForwardedFor.SanitizeXForwardedFor | internal/proxy/trusted_proxies.go:61-99 | the scan computes the sanitised chain of the specification |
| ForwardedFor.SanitizedShape | internal/proxy/trusted_proxies.go:61-99 | a sanitised chain is the peer, before it the maximal trusted suffix and at most one address at the edge of trust, of at most 33 addresses; and exactly when more than the peer is kept |
| ForwardedFor.ParseXForwardedFor | internal/proxy/trusted_proxies.go:101-126 | all elements of all fields in order, or nothing if any is bad, has a zone or is beyond the 32nd |
| ForwardedFor.FormatXForwardedFor | internal/proxy/trusted_proxies.go:40-59 | the joined text iff there are at most 33 addresses, all valid and without zone |
| ForwardedFor.SetXForwardedFor | internal/proxy/trusted_proxies.go:11-38 | the field is set iff the peer parses and its port is not 0; it is the text of the sanitised chain, its last element is the peer's own unmapped address without zone, and for a peer that is not trusted it is nothing else |
| ForwardedFor.IsTrustedProxy | internal/proxy/trusted_proxies.go:142-156 | true iff some valid prefix, wherever in the list, contains the address or its unmapped form |
| ForwardedFor.TrustIsAnyPrefix | internal/proxy/trusted_proxies.go:142-156 | an address is trusted by a list iff by one part of it or the other, and by no empty list |
| ForwardedFor.PrefixesNest | internal/proxy/trusted_proxies.go:147-152 | a full prefix contains only its base, the empty one its whole family, and a shorter one whatever a longer one does |
| ForwardedFor.FieldsCombine | internal/proxy/trusted_proxies.go:101-126 | several header fields are read as one comma-separated list |
| ForwardedFor.OutboundFormats | internal/proxy/trusted_proxies.go:11-59 | a chain that a proxy sends on always has a non-empty text |
| ForwardedFor.ParseUndoesFormat | internal/proxy/trusted_proxies.go:40-126 | a chain of 1 to 32 plain addresses survives being formatted and parsed |
| ForwardedFor.RelayedChain | internal/proxy/trusted_proxies.go:11-126 | what a trusted hop makes of a chain: cut at the edge of trust, or not read at all if it has 33 addresses |
| ForwardedFor.FurtherHop | internal/proxy/trusted_proxies.go:11-156 | a trusted hop keeps the whole of a sanitised chain iff it has at most 32 addresses and it is only the peer or the peer is trusted in its unmapped form |
| ForwardedFor.HopsAccumulate | internal/proxy/trusted_proxies.go:11-126 | behind any number of such hops, up to 33 addresses in all, the chain is the original one followed by the peers |
| ForwardedFor.OutboundIsWhole | internal/proxy/trusted_proxies.go:61-99 | a chain sent on for a peer trusted in both forms is one that HopsAccumulate applies to |
| ForwardedFor.MappedPrefixLosesChain | internal/proxy/trusted_proxies.go:142-156 | with ::ffff:0:0/96 as the only trusted prefix, the next trusted hop drops an address that was in the chain |
| ForwardedFor.BinaryIsFaithful | internal/proxy/trusted_proxies.go:40-59 | the requirement made of the address text form can be met |
| ProbeRound.FinishedRound | internal/upstream/health_checker.go:111-144 | under every schedule and any interleaved Replace, a finished round has probed every target exactly once and stored each result in its place; the transitions the observer was told are, in target order, one for each state change made to the tracker and no other; there is one probe result for each tracked target, in target order, and each transition stands right behind its result |
| ProbeRound.RoundLength | internal/upstream/health_checker.go:111-144 | every complete round over n targets takes exactly 4 n steps and one for each worker |
| ProbeRound.NotStuck | internal/upstream/health_checker.go:126-136 | an unfinished round always has a step to take |
| ProbeRound.ProbesInFlight | internal/upstream/health_checker.go:126-136 | started probes without a stored result number at most min(targets, maximum) |
| ProbeRound.CheckTarget | internal/upstream/health_checker.go:146-171 | a probe of a tracked key appends its success or failure to the history unless cancelled, and the result says exactly whether the key was tracked and its health changed |
| ProbeRound.ReportsAreChanges | internal/upstream/health_checker.go:137-143 | the report loop's output holds one transition for each change and one result for each tracked target, both in target order |
| ProbeRound.ReportAll | internal/upstream/health_checker.go:137-143 | the observer hears one probe result for each tracked result and one transition for each tracked change, each in order, and every transition right behind its result |
| ProbeRound.ChangeIsToOutcome | internal/upstream/health_checker.go:137-171 | a changed result is tracked and its healthy flag is the new state, so the report drops no change |
| ProbeRound.InvAfter | internal/upstream/health_checker.go:111-144 | every reachable state of a round keeps indices, results and recorded changes consistent |

## Left out

- HTTP serving, reverse proxying, TLS, logging, metrics, configuration and signal handling: plumbing around the modelled core.
- The random and round-robin pickers, retries, rate limiting, redirects, direct responses, request identifiers, time-outs and body limits: only easy members, or a library's token bucket.
- Route actions and header, error-response, size, time-out and rate-limit policies: whether they are well formed is a given field of a route, checked at the same place in the order; which policy rule is broken is not modelled, nor which of the rules for a header match or a host name.
- Route.Validate: the rules for the action and the policies, and which of them is broken, are two given verdicts of the route.
- Route.MeetsRules: the same two verdicts stand for the rules for the action and the policies.
- Letter case and white space beyond ASCII: strings are bytes, lower-casing and trimming are those of ASCII.
- net.SplitHostPort, textproto's canonical header names, slices.Sort and strings functions are written out from their documented behaviour.
- Parsing and printing of addresses: a pair of functions of which only Faithful is asked; CIDR membership and unmapping are modelled bit by bit.
- The 64-bit width of generations, cursors and request counts: they are natural numbers, so wrap-around is not modelled.
- The zero value of the breaker's openedAt: an option whose absence counts as long past.
- HealthPool.HealthAwarePicker.Refresh: one caller at a time; how its steps interleave with others is proved on the values of PoolProtocol, to which PoolRefinement ties each section on the objects.
- HealthPool.HealthAwarePicker.Acquire: one caller at a time; the non-atomic pair of its steps is in PoolProtocol.
- HealthPool.CompositeHealthSource.HealthyEndpoints: the source list is membership followed by the optional active and passive trackers, as the gateway builds it, not an arbitrary list of sources.
- HealthPool.EndpointCoordinator.Apply: the base picker is LeastRequests; errors of other pickers' Replace cannot occur with it.
- RecoveryLoop.RoutePassiveHealthObserver.Run: nobody else touches the tracker or the picker while the loop runs: no ejection, acquire, apply or other Refresh. With all of these, the bound on firings is PoolRuns.FiringsAreBounded and the watch over deadlines is PoolProtocol.RecoveriesAreWatched, on the values of the protocol. Metrics of recoveries are not modelled.
- ProbeRound.NotStuck: assumes that every probe returns; the time between rounds and the probe's HTTP request are not modelled.
- LeastRequests.LeastRequests.Replace: the loops are split into helper methods, one for grouping and one for rebuilding, because of the cost of reasoning about shared objects.
- Liveness that depends on the scheduler or on upstream calls returning, such as leaving the half-open state.
- The lookup of a matched route's handler by name and the handling of panics in the gateway.
