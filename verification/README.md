# LimitPlane in Dafny

LimitPlane is a multi-tenant rate limiter with a Kubernetes control plane, an in-process
autopilot, a WebSocket dashboard and a kernel fast path.  This project models the parts of it
that have to be right over time rather than call by call, and proves what they promise:

* **Leader election** (`Lease`, `LeaseSafety`, `LeaseSplitBrain`, `LeaseRenewal`): N replicas, one API server
  with compare-and-swap, clocks of their own, late and lost messages, crashes.  Mutual exclusion holds
  exactly when one inequality between the periods holds, and a leader left alone leads on.
* **List-then-watch** (`Watch`, `WatchProofs`) and the **operator** (`Policy`, `Order`, `Operator`,
  `OperatorProofs`, `OperatorRuns`, `Credentials`): a cache that is the server's history replayed, and a reconcile
  that is a function of that cache, idempotent, and never leaves a managed key unresolvable.
  `WatchHandlers`, `WatchOperator` and `WatchTenants` put the two together, for policies and tenants.
* **The limiter family** (`TokenBucket`, `Eviction`, `RedisBucket`, `Xdp`, `Windows`, `MonthlyQuota`
  and their proofs): the sharded bucket with eviction, the Lua script with its expiry, the scaled 64-bit
  bucket and the leaky bucket are one machine, each exactly when a stated condition holds; and
  bounds on what any key can spend, with the janitor at work and lanes changing (`JanitorBound`,
  `LaneRefund`, `RedisLanes`) and with many sources interleaved (`XdpPackets`).
* **WebSockets** (`Frames`, `FrameProofs`, `Hub`, `HubProofs`, `HubDelivery`, `HubReader`, `HubEndings`): the codec
  against sections 5.2 and 5.3 of RFC 6455 written out separately, what a dashboard reads over every
  interleaving, and what its own frames and its leaving do.
* **The incident index** (`Memory`, `MemoryProofs`, `TornWrites`, `MemorySearch`, `MemoryWeights`): counts that
  agree with recomputation, restarts that lose exactly what the disk tore, cosine scores and a stable top k.
* **The autopilot and the gateway** (`Automations`, `Gateway`, their proofs and `StormEvidence`): storms, bans, alerts,
  and the decision that ties every meter together, tenant by tenant (`Isolation`); `EndToEnd` says what they promise with the
  operator and the limiter over whole runs of requests one after another, `Overlap`,
  `GatewaySections` and `GatewayOverlap` what they promise when requests overlap.
* **The Redis client** (`Resp`, `RespProofs`): what is written is what is read.

Code that works by changing state is a class whose methods are proved against functions on the
state; those functions are what the theorems are about.  Concurrent code is a state machine whose
steps are the critical sections and channel operations.  Balances, rates, costs and scores are exact
reals, times are integers in the unit the code uses, and the 64-bit code keeps its 64 bits.
`Bits`, `Lines`, `Reals` and `Wrappers` are helpers.

Where the code does not do what its comments say, or does it only under a condition, the code is
kept as it is and the exact condition or a concrete history is proved:

* `internal/k8s/lease.go:94-97` calls RetryPeriod < RenewDeadline < LeaseDuration the invariant that
  makes the election safe.  It is not enough (`LeaseSplitBrain.DocumentedOrderIsNotEnough`); the exact
  condition is `LeaseSplitBrain.MutualExclusionIff`.
* Releasing the lease is meant to turn "a 15-second leaderless gap into a sub-second one"
  (`internal/k8s/lease.go:334-338`).  It blanks the holder and backdates renewTime, but a challenger goes by
  when it first saw the version, and the release makes a new one: its wait starts again
  (`LeaseRenewal.ReleaseHurriesNobody`).
* After a 410 the re-list "converges" (`internal/k8s/watch.go:139-144`) only if nothing cached was
  deleted meanwhile (`WatchProofs.ListExactIff`, `WatchProofs.WrongIff`, `WatchProofs.DeletedInTheGap`);
  a Tenant that is deleted then is served for good (`WatchTenants.DeletedTenantServed`).  Its finalizer
  (`internal/operator/types.go:42-50`) prevents that on the leader only: it is the leader that lets the
  object go, and a follower away meanwhile serves on (`WatchTenants.FollowerServesOn`).
* The generation check (`internal/operator/operator.go:203-217`) also skips an object that was deleted
  and recreated while the watch was away (`OperatorRuns.RecreationGoesUnseen`).
* The finalizer (`internal/operator/types.go:42-50`) revokes a key at once only if the Tenant names a
  tenantId (`OperatorRuns.TerminationRevokes`), and then takes the keys of every other object of the
  site until the next reconcile (`OperatorRuns.TerminationKeyByKey`, `OperatorRuns.SiteMatesComeBack`).
* Requests without a known key fail open once "free" is withdrawn (`OperatorRuns.StrangersResolveIff`,
  `OperatorRuns.FreeWithdrawn`).
* "One jar per tenant+tier+route" (`internal/policy/policy.go:144`) joins names by colons without
  escaping; `Policy.JarsCollideIff` says which tiers and routes can meet in one jar.
* "The eviction is unobservable to the client" (`internal/limiter/tokenbucket.go:152-161`) is about a
  jar full on the terms of its last request, and the next may come on others.  Which changes of plan
  can be noticed depends on four numbers and the janitor's idle time (`Eviction.UnobservableIff`):
  with no idle time to wait, every rise in capacity (`Eviction.RiseShows`) and, the capacity kept,
  every cut in the rate unless one millisecond still fills the jar (`Eviction.CutShowsIff`).
* A client that changes lane while the janitor is at work can be given its jar twice
  (`LaneRefund.LanesBreakTheBound`): capacity plus refill is an upper bound on every run exactly when
  the janitor's idle time refills the largest capacity at the highest rate (`JanitorBound.KeepsBoundIff`),
  or, on Redis, when its ten minutes do (`RedisLanes.SharedKeepsIff`); otherwise each sweep or expiry
  pays for the difference and no more (`JanitorBound.SweptBound`, `RedisLanes.SharedBoundOnLanes`).
* The Redis expiry shows when a refill takes a fraction of a millisecond past ten minutes
  (`RedisBucketProofs.RedisRefinesLocalIff`), and the 60-second shortcut when the burst exceeds a
  minute's rate (`XdpProofs.KernelIsIdealIff`).
* A half-written line costs two memories, not one (`internal/ai/memory.go:341-344`,
  `MemoryProofs.TornAppendCostsTwo`, `TornWrites.WhatSurvives`), and a line of 2^20 bytes costs all that follow
  (`MemoryProofs.RebuildsIff`, `MemoryProofs.LongLineReusesId`).
* Broadcasts that overlap for a dashboard can reach it in either order (`HubDelivery.OverlapReorders`).
* Detaching a connection "so no further broadcast touches it" (`internal/wshub/wshub.go:548-552`) does
  not recall a broadcast that already counts it among its targets: such a one is still handed over
  and can be sent (`HubDelivery.DroppedIsStillHanded`, `HubDelivery.NothingMoreIff`).
* Burst blocks that arrive under a ban count towards the next one (`StormEvidence.BannedEvidenceIff`,
  `StormEvidence.BannedBlocksCount`).  The gateway asks for the ban and reports the block in two
  sections (`internal/gateway/gateway.go:116-121`, `:235-237`), so a request in flight when a ban is
  set is logged under it (`Overlap.UnderBanIff`), and a client can be cooled down again for one burst
  (`Overlap.OverlapCoolsDownTwice`), by as many blocks as it had in flight
  (`Overlap.RestsOnAtMostInFlight`).  It happens exactly when the cooldown is shorter than the window
  and a request's latency together (`Overlap.NeverRestsIff`, `GatewayOverlap.GatewayNeverRestsIff`), or people ban and lift by hand
  (`Overlap.HandsLeak`); never without overlap (`EndToEnd.CooldownsRestOnUnbanned`).

## Model

| member | source | states |
|---|---|---|
| `Lease.LeaderElector.constructor` | internal/k8s/lease.go:120-134 | a new elector leads nothing and has observed nothing |
| `Lease.LeaderElector.Observe` | internal/k8s/lease.go:288-316 | one reading of the lease: observedAt moves only with resourceVersion, a live lease of another holder is waited on, one's own is renewed, an expired one is taken over with one more transition |
| `Lease.LeaderElector.Conclude` | internal/k8s/lease.go:176-237 | the outcome of an attempt is the leader flag, and nothing else is remembered of it |
| `LeaseSafety.NoIntruder` | internal/k8s/lease.go:240-331 | while a leader's last write is recent enough, no write of another replica can be accepted, whatever it was based on and however late it lands |
| `LeaseSafety.RunsKeepHistory` | internal/k8s/lease.go:136-370 | what every step of every schedule keeps: writes based on the version they replace, in time order, each justified by what its author had seen |
| `LeaseSafety.MutualExclusion` | internal/k8s/lease.go:85-118 | with safe parameters no reachable state has two leaders, whatever the schedule, the lost replies, the late writes, the crashes and the clock offsets |
| `LeaseSafety.VersionsReplacedOnce` | internal/k8s/lease.go:240-331 | each resourceVersion is replaced by at most one successful write, the next one |
| `LeaseSafety.TakeoverWaited` | internal/k8s/lease.go:288-316 | a successful takeover replaced another holder's record that stood unwritten from the challenger's first sight of it, at least the lease less one attempt |
| `LeaseSafety.ReleaseIsOwn` | internal/k8s/lease.go:340-370 | release blanks only its own holder and keeps the transition count |
| `LeaseSafety.TransitionsCountTakeovers` | internal/k8s/lease.go:312-320 | leaseTransitions is the number of successful takeovers in the history |
| `LeaseRenewal.VerdictIs` | internal/k8s/lease.go:288-331 | over any readings: a replica shown a record it holds proposes that record unchanged as a renewal; shown another's it waits while less than the lease has passed since it first saw that version, and then takes over with one more transition |
| `LeaseRenewal.LeaderRenews` | internal/k8s/lease.go:206-237 | from every reachable state where a replica leads, waits and the last record is its own, the six steps of a renewal are enabled, keep its flag up and add one write of that record |
| `LeaseRenewal.LeadsOn` | internal/k8s/lease.go:206-237 | and any number of times, a retry period apart: a leader left alone leads on, its record and the transition count as they were |
| `LeaseRenewal.SuccessorTakesOver` | internal/k8s/lease.go:288-331 | a replica that has watched another's record for the lease takes over in one attempt, with one more transition |
| `LeaseRenewal.ChallengerWaits` | internal/k8s/lease.go:288-310 | one that has watched it for less lets go of its flag and writes nothing |
| `LeaseRenewal.FirstCreates` | internal/k8s/lease.go:246-280 | where there is no lease yet an attempt creates it, held, with no transition, and leads |
| `LeaseRenewal.LeaderReleases` | internal/k8s/lease.go:340-370 | a leader whose context is cancelled blanks its own record and keeps the count |
| `LeaseRenewal.ReleaseHurriesNobody` | internal/k8s/lease.go:322-370 | in every reachable state the write after a release is a takeover whose writer had watched the blank record for the lease less one latency: the release does not shorten the wait |
| `LeaseSplitBrain.SplitBrain` | internal/k8s/lease.go:136-370 | outside the safe parameters some schedule shows two leaders at once |
| `LeaseSplitBrain.MutualExclusionIff` | internal/k8s/lease.go:91-118 | mutual exclusion holds in every reachable state if and only if LeaseDuration exceeds two latencies, a retry period, one bounded renewal and, with graceful shutdown, the release timeout |
| `LeaseSplitBrain.DocumentedOrderIsNotEnough` | internal/k8s/lease.go:91-100 | the documented order RetryPeriod < RenewDeadline < LeaseDuration does not exclude two leaders: the default periods with five-second attempts |
| `LeaseSplitBrain.RenewDeadlineBudget` | internal/k8s/lease.go:136-237 | LeaseDuration > 2 latencies + RetryPeriod + RenewDeadline is enough without graceful shutdown, and not enough with it |
| `Watch.Reflector.constructor` | internal/k8s/watch.go:70-113 | no cursor, an empty cache, nothing counted |
| `Watch.Reflector.List` | internal/k8s/watch.go:170-206 | every listed object reaches the handler as ADDED before the cursor moves; a failed list changes nothing |
| `Watch.Reflector.Take` | internal/k8s/watch.go:270-293 | the cursor advances before the handler runs, a bookmark moves only the cursor |
| `Watch.Reflector.Read` | internal/k8s/watch.go:239-293 | the stream is read to its end or its first ERROR event, whose code decides between Gone and retry |
| `Watch.Reflector.Watch` | internal/k8s/watch.go:208-237 | a refused watch changes nothing but its classification; an end of file in place of a response is an ordinary end |
| `Watch.Reflector.Turn` | internal/k8s/watch.go:96-165 | one turn of Run: list without a cursor, watch, then keep, clear or back off |
| `WatchProofs.WatchRefinement` | internal/k8s/watch.go:96-294 | in every run against any server history, while a cursor is set the cache is the last list with exactly the history up to the cursor replayed on it |
| `WatchProofs.ListExactIff` | internal/k8s/watch.go:189-196 | a list makes the cache equal to the server if and only if nothing cached is missing from it |
| `WatchProofs.AgreesIff` | internal/k8s/watch.go:170-294 | key by key: the cache agrees with the server exactly when the key changed since the last list or that list left it right |
| `WatchProofs.WrongIff` | internal/k8s/watch.go:137-150 | after a re-list a key is wrong exactly when it was cached, is absent from the snapshot and has not changed since |
| `WatchProofs.FirstSync` | internal/k8s/watch.go:170-206 | from an empty cache one list, however stale, and the watch after it hold exactly the server's objects |
| `WatchProofs.UnseenDeletionStays` | internal/k8s/watch.go:137-150 | a key no reply names keeps its entry through any number of re-lists |
| `WatchProofs.DeletedInTheGap` | internal/k8s/watch.go:137-150 | a legal history in which an object deleted during a 410 gap stays cached |
| `WatchProofs.ListsCountRelists` | internal/k8s/watch.go:42-50 | in every run lists are relists plus the current one, and Synced is exactly holding a cursor |
| `WatchProofs.StatusInStream` | internal/k8s/watch.go:239-293 | over every mirror with a cursor: after any events and then a failure event the cursor is none, Synced is down, relists is one more and attempt 0 if its code is 410; for any other code the cursor is the last version read and attempt one more |
| `WatchProofs.StatusAtOnce` | internal/k8s/watch.go:208-237 | the same of a watch refused with a status before any event |
| `WatchProofs.StreamEnds` | internal/k8s/watch.go:239-293 | a stream that closes leaves the last version read and attempt 0; one that breaks leaves it and attempt one more |
| `WatchProofs.ListsAgain` | internal/k8s/watch.go:110-150 | after a 410 the next good listing is taken: cursor, Synced, lists and cache are the listing's; a failed one changes only attempt and errors |
| `WatchOperator.CacheFollows` | internal/operator/operator.go:191-222 | the handler's object cache moves as the mirror does, whether or not the event is reconciled |
| `WatchOperator.OperatorMirrors` | internal/operator/operator.go:191-222 | fed a stretch of history the operator caches exactly its replay |
| `WatchHandlers.RunKeeps` | internal/k8s/watch.go:96-294 | whatever relation to the cache each call of a handler keeps holds over every run of the reflector: lists, streams, errors, 410s and reconnects |
| `WatchOperator.OperatorFollows` | internal/k8s/watch.go:96-294 | over every run of the policies reflector, whatever tenant events and hand edits come in between, the operator's policy cache is the mirror's |
| `WatchOperator.OperatorWrongIff` | internal/k8s/watch.go:137-150 | from one list to the next the operator holds a wrong policy object under a name exactly when it was cached, is absent from the list and has not changed since |
| `WatchTenants.TenantCacheFollows` | internal/operator/operator.go:224-291 | created, edited, skipped, terminating or deleted: each sighting leaves the operator's tenants the mirror's living objects |
| `WatchTenants.TenantsFollow` | internal/k8s/watch.go:96-294 | and so does every run of the tenants reflector, whatever policy events and hand edits come in between |
| `WatchTenants.TenantWrongIff` | internal/k8s/watch.go:137-150 | from one list to the next the operator has a wrong Tenant under a name exactly when it had a living one, the list did not name it and it has not changed since; one held open by its finalizer is named |
| `WatchTenants.ForgottenForGood` | internal/k8s/watch.go:137-150 | once an object is gone from every snapshot to come, no legal run of re-lists and watches changes what is cached under its name |
| `WatchTenants.DeletedTenantServed` | internal/operator/types.go:42-50 | a Tenant deleted inside a 410 gap stays cached over every later run, and every later reconcile has a key managed exactly when that object still claims it (its Secret holds the key, its tier is live) or another object serves it |
| `WatchTenants.LeaderLetsGo` | internal/operator/operator.go:236-258 | a leader that watches sees a Tenant held by its finalizer terminate and go, and has nothing left of it |
| `WatchTenants.FollowerServesOn` | internal/operator/operator.go:236-258 | a follower whose cursor expires before that object terminates, and which lists after the leader let it go, has it for good, and every later reconcile has a key managed exactly when the object still claims it or another serves it |
| `Policy.ClassifyCost` | internal/policy/policy.go:77-86 | a class is returned only if it has a price; an unlisted route is light |
| `Policy.Resolve` | internal/policy/policy.go:117-154 | a resolved plan charges a positive cost |
| `Policy.StrangersApart` | internal/policy/policy.go:88-103 | callers without a known key are free tenants, and two of them are one exactly when their addresses are, no address and the address "unknown" being the same |
| `Policy.TenantsHaveOwnJars` | internal/policy/policy.go:144 | on one tier and route, jars are apart exactly as tenants are |
| `Policy.JarsCollideIff` | internal/policy/policy.go:144 | across tiers and routes some tenants share a jar exactly when one joined suffix ends with the other |
| `Policy.PlainNamesHaveOwnJars` | internal/policy/policy.go:144 | one jar per tenant, tier and route as long as tiers and routes hold no colon |
| `Isolation.PlansApart` | internal/policy/policy.go:117-154 | of the plans resolved: on one tier and route the jar keys are equal exactly when the tenants are, and on one tier the month keys are, whatever the routes |
| `Isolation.RoutesApart` | internal/policy/policy.go:144-152 | one tenant's routes on a tier have jars of their own and one month meter |
| `Policy.Rulebook.constructor` | internal/policy/policy.go:61-72 | the rulebook holds what it is given; there is at least one tier |
| `Policy.Rulebook.PutTier` | internal/policy/policy.go:279-284 | that tier and no other |
| `Policy.Rulebook.RemoveTier` | internal/policy/policy.go:292-300 | refuses the last tier and a missing one, else removes that tier and no other |
| `Policy.Rulebook.SetRoutes` | internal/policy/policy.go:309-320 | the whole route table is replaced |
| `Policy.Rulebook.SetTier` | internal/billing/billing.go:152-167 | binds one key; an empty id keeps the bound site, else is the key |
| `Policy.Rulebook.DeleteTenant` | internal/policy/policy.go:236-240 | that key and no other |
| `Policy.Rulebook.RemoveByTenantId` | internal/billing/billing.go:172-187 | every key of the site goes and no other; the count is the number removed |
| `Order.SortNames` | internal/operator/operator.go:327-335 | any order of collection ends in the one sorted list of the names |
| `Order.SortedUnique` | internal/operator/operator.go:322-335 | two sorted lists of the same names are equal, so map order cannot matter |
| `Order.LessIff` | internal/operator/operator.go:310-334 | the order of names is that of dictionaries: at the first place where two differ one has the smaller character, or one ends there |
| `Operator.Controller.constructor` | internal/operator/operator.go:71-111 | nothing cached, nothing managed |
| `Operator.Controller.Reconcile` | internal/operator/operator.go:310-338 | one reconcile is the policy half and then the tenant half of the whole cache |
| `Operator.Controller.ReconcilePolicies` | internal/operator/operator.go:340-413 | put, withdraw, swap routes: the live tiers become the desired ones over the old ones less what was managed and is declared no more |
| `Operator.Controller.PutTiers` | internal/operator/operator.go:397-400 | every declared tier is put and owned |
| `Operator.Controller.WithdrawTiers` | internal/operator/operator.go:401-411 | exactly the managed and undeclared tiers go; RemoveTier's last-tier refusal never fires |
| `Operator.NotLast` | internal/policy/policy.go:292-300 | a tier is removable while another one is live |
| `Operator.ApplyPolicy` | internal/operator/operator.go:354-387 | one object laid over the earlier ones, skipped if invalid |
| `Credentials.ServedByCredential` | internal/operator/operator.go:457-563 | a tenant object is served exactly under the key its credential is: the plain text, else the decoded data, of the Secret its reference names in its own namespace (the operator's if it has none), without the blanks at either end; or the inline key exactly when there is no reference |
| `Credentials.ManagedByCredential` | internal/operator/operator.go:457-513 | after a reconcile a key is managed exactly when it is the credential of some cached object whose tier is live |
| `Credentials.OtherSecretsAreNothing` | internal/operator/operator.go:517-563 | two clusters that agree on the Secrets the cached objects refer to, and on what those decode to, reconcile every state alike |
| `Operator.ValidatePolicy` | internal/operator/operator.go:415-455 | the problems found are exactly the ones there are: no tiers, a capacity or refill that is not positive, a negative quota, a route without a path, a class that is not light, standard or heavy; and a policy is valid when there are none |
| `Operator.ComputeDesired` | internal/operator/operator.go:350-395 | the desired state is the fold over the objects in name order |
| `Operator.Controller.ReconcileTenants` | internal/operator/operator.go:457-514 | serve what is declared, revoke what is not |
| `Operator.Controller.ServeTenants` | internal/operator/operator.go:460-494 | every object served in name order |
| `Operator.Controller.ServeObject` | internal/operator/operator.go:460-491 | one object: bound if its key resolves and its tier is live |
| `Operator.Controller.RevokeUnseen` | internal/operator/operator.go:496-513 | exactly the managed and unclaimed keys go, and exactly the claimed ones are owned |
| `Operator.Controller.RevokeTenant` | internal/operator/operator.go:565-579 | the site's keys go and the owner's keys are forgotten; nothing at all for an empty id |
| `Operator.Controller.OnPolicyEvent` | internal/operator/operator.go:191-222 | delete, skip on the same nonzero generation, or cache and reconcile |
| `Operator.Controller.OnTenantEvent` | internal/operator/operator.go:224-291 | a terminating or deleted object is revoked without a reconcile; the rest as for policies |
| `OperatorProofs.LastDeclarerWins` | internal/operator/operator.go:322-335 | the desired tiers are exactly the validly declared ones, each as the alphabetically last declarer has it |
| `OperatorProofs.DesiredKnown` | internal/operator/operator.go:415-455 | every desired tier is valid and every desired route names a known class |
| `OperatorProofs.GovernedIff` | internal/operator/operator.go:388-390 | reconciling acts exactly when some valid policy is cached |
| `OperatorProofs.ReconcileSettles` | internal/operator/operator.go:340-413 | the outcome tier by tier, the exact ownership set, untouched strangers, a rulebook never emptied; nothing moves without a valid policy |
| `OperatorProofs.RoutesSettle` | internal/operator/operator.go:381-412 | the route table path by path: the last valid object decides, nothing old is left, and the wildcard is the default class whatever a manifest prices "*" at |
| `OperatorProofs.TenantsSettle` | internal/operator/operator.go:457-514 | the outcome key by key: managed exactly when served, on the owner's tier; unclaimed managed keys dead; all others untouched |
| `OperatorProofs.ReconcileIdempotent` | internal/operator/operator.go:300-338 | a second reconcile of the same cache and Secrets changes nothing |
| `OperatorRuns.StaysPriced` | internal/operator/operator.go:340-413 | once every route is priced by a known class, every action keeps it so |
| `OperatorRuns.NoFailOpen` | internal/operator/operator.go:300-514 | over any run of events, skipped events and hand edits: once some reconcile has seen a valid policy, after every later one each managed key resolves on every route |
| `OperatorRuns.LimitedAsDeclared` | internal/policy/policy.go:117-154 | after a reconcile a request with a managed key is limited by exactly the numbers the policies declare for the tier of the object that owns the key, at one, two or five tokens |
| `OperatorRuns.StrangersResolveIff` | internal/policy/policy.go:91-104 | after such a reconcile a request without a key resolves exactly when "free" is declared, or was live and never managed |
| `OperatorRuns.FreeWithdrawn` | internal/operator/operator.go:401-411 | dropping "free" from the only manifest lets every stranger through |
| `OperatorRuns.TerminationRevokes` | internal/operator/types.go:42-50 | after a reconcile and any skipped events and hand edits elsewhere, a terminating Tenant object takes its key at once exactly when it names the site the key was bound to |
| `OperatorRuns.TerminationKeyByKey` | internal/operator/operator.go:565-579 | from any state, key by key: a terminating object takes exactly the keys of its site, and after the next reconcile a key is managed exactly when an object left serves it, live when managed or when live and nobody's |
| `OperatorRuns.SiteMatesComeBack` | internal/billing/billing.go:168-187 | after a reconcile and any actions that leave a key alone, a terminating object of the key's site kills it whoever declared it, and the next reconcile has it live exactly when an object left serves it |
| `OperatorRuns.TerminationSettles` | internal/operator/operator.go:496-513 | with its only object gone a key is dead after the next reconcile |
| `OperatorRuns.SkipIsSoundIff` | internal/operator/operator.go:203-217 | an event skipped by generation leaves the rulebook settled exactly when the object adds up to the same desired state, or none is left |
| `OperatorRuns.OthersReconcile` | internal/operator/operator.go:203-221 | an object that is new, has a new generation or gives none is always followed by a reconcile, for policies and for tenants |
| `OperatorRuns.EchoIsHarmless` | internal/operator/operator.go:203-217 | skipping the operator's own status echo is invisible |
| `OperatorRuns.RecreationGoesUnseen` | internal/operator/operator.go:203-217 | an object recreated during a gap with generation 1 again is cached and never applied |
| `TokenBucket.Limiter.ShardFor` | internal/limiter/tokenbucket.go:103-108 | the shard of a key is fixed by the masked hash |
| `TokenBucketProofs.ShardIsRemainder` | internal/limiter/tokenbucket.go:100-107 | the mask of a power of two of shards is the remainder of the hash by their number |
| `TokenBucket.Limiter.Check` | internal/limiter/tokenbucket.go:117-151 | answers as the plain map of the key's shard would and touches no other shard |
| `TokenBucketProofs.TakesItsCost` | internal/limiter/tokenbucket.go:117-151 | a request let through takes its cost off the refilled jar, one token if it names none, and a refused one takes nothing |
| `TokenBucket.Limiter.SweepShard` | internal/limiter/tokenbucket.go:162-184 | exactly the idle and refilled jars of one shard go |
| `TokenBucketProofs.FullIsFresh` | internal/limiter/tokenbucket.go:130-142 | a jar that would be full serves as a new one |
| `Eviction.ForgottenIff` | internal/limiter/tokenbucket.go:130-184 | forgetting a jar goes unnoticed, whatever the next request costs, exactly when the jar would be full in that request's own terms |
| `Eviction.UnobservableIff` | internal/limiter/tokenbucket.go:103-184 | "the eviction is unobservable to the client" holds on every run with the given changes of plan, for any shard count, hash, idle time and sweeps, if and only if each of those changes passes a test on its numbers |
| `Eviction.HidesIff` | internal/limiter/tokenbucket.go:162-184 | that test looks at two ages of a jar, and decides for every age at which the janitor can take one |
| `Eviction.ChangeShows` | internal/limiter/tokenbucket.go:162-184 | every change of plan that fails the test has a run of three steps on which the answers differ |
| `Eviction.ShrinkingHides` | internal/limiter/tokenbucket.go:130-142 | a plan whose capacity does not grow and whose rate does not fall hides the janitor, however little it waits |
| `Eviction.RiseShows` | internal/limiter/tokenbucket.go:130-184 | with a janitor that need not wait every rise in capacity shows, whatever the rates |
| `Eviction.RiseShowsIff` | internal/limiter/tokenbucket.go:191-206 | with one that waits, a rise alone shows exactly when the new capacity is more than the wait refills |
| `Eviction.CutShowsIff` | internal/limiter/tokenbucket.go:162-184 | a cut in the rate alone shows exactly when the new rate takes over a millisecond to fill the jar |
| `Eviction.EvictionUnobservable` | internal/limiter/tokenbucket.go:103-184 | for every shard count, hash and interleaving of sweeps the answers are those of one map that never forgets, while each key keeps its plan |
| `TokenBucketProofs.AdmissionBound` | internal/limiter/tokenbucket.go:117-151 | in a run without sweeps, between two instants a key is let through for at most the capacity plus the refill, the plan changing at will below its ceilings |
| `JanitorBound.ShardsAreOneMap` | internal/limiter/tokenbucket.go:103-184 | a sharded limiter whose janitor visits one shard at a time is one map of jars with passes over parts of it: same answers, same jars, same spending, for every hash and run |
| `JanitorBound.SweptBound` | internal/limiter/tokenbucket.go:117-184 | with sweeps and plans changing below their ceilings a key is let through for at most the capacity, the refill, and for each time its jar was swept the part of a full one that the idle time does not refill |
| `JanitorBound.SweptBoundIsTight` | internal/limiter/tokenbucket.go:117-184 | for every number of sweeps some run spends all of that |
| `JanitorBound.ShortIdleRefills` | internal/limiter/tokenbucket.go:162-184 | with a shorter idle time three checks and a sweep spend two jars where one and the refill is less |
| `JanitorBound.KeepsBoundIff` | internal/limiter/tokenbucket.go:153-184 | over every run of the sharded limiter with its janitor, capacity plus refill is never exceeded if and only if the idle time at the highest rate refills the largest capacity |
| `TokenBucketProofs.RunsStayFine` | internal/limiter/tokenbucket.go:117-151 | every run of checks leaves the jars in the state the bound needs |
| `RedisBucket.Redis.Eval` | internal/limiter/redis.go:149-183 | the script as one step: read, refill, spend, write, push the expiry out |
| `RedisBucket.Redis.Expire` | internal/limiter/redis.go:149-183 | a key goes only when its expiry has elapsed |
| `RedisBucket.CheckBurst` | internal/limiter/redis.go:185-218 | the arguments and the TTL the wrapper sends |
| `RedisBucketProofs.RedisRefinesLocal` | internal/limiter/redis.go:149-198 | each key keeping its plan: any interleaving of the replicas' scripts and the expiries answers as one local bucket, while every plan is covered |
| `RedisBucketProofs.RefundBelowOneMs` | internal/limiter/redis.go:185-198 | an expiry never hands back as much as one millisecond's refill |
| `RedisBucketProofs.LateExpiryRefundsNothing` | internal/limiter/redis.go:185-198 | and nothing one millisecond after it falls due |
| `RedisBucketProofs.GapShows` | internal/limiter/redis.go:185-198 | an uncovered plan is told apart by three events |
| `RedisBucketProofs.RedisRefinesLocalIff` | internal/limiter/redis.go:149-198 | every trace is answered as locally if and only if capacity/refill is whole or at most 600000 ms |
| `RedisBucketProofs.SharedBound` | internal/limiter/redis.go:149-198 | each key keeping its plan: all replicas together let through at most a jar, the refill, and one millisecond's refill per expiry |
| `RedisLanes.Call` | internal/limiter/redis.go:185-218 | a replica's call leaves the server with the jar and the expiry of that call's plan |
| `RedisLanes.Lapse` | internal/limiter/redis.go:149-183 | the server drops a key once the expiry of its last call has elapsed, and no other |
| `RedisLanes.SharedBoundOnLanes` | internal/limiter/redis.go:149-198 | plans and lanes changing with every call below their ceilings, all replicas together let through at most what the jar is worth and, per expiry, what ten minutes do not refill of a full one |
| `RedisLanes.SharedKeepsIff` | internal/limiter/redis.go:185-198 | over every run on one Redis capacity plus refill is never exceeded if and only if ten minutes at the highest rate refill the largest capacity |
| `Xdp.FastPath.IsBanned` | xdp/bpf/fastpath.c:152-163 | a live ban drops, an expired one is removed, no other entry moves |
| `Xdp.FastPath.Charge` | xdp/bpf/fastpath.c:178-216 | the 64-bit bucket step on the map entry of the source |
| `Xdp.FastPath.Packet` | xdp/bpf/fastpath.c:219-240 | a banned source spends nothing and exactly one counter moves |
| `XdpProofs.NothingWraps` | xdp/bpf/fastpath.c:178-216 | within the stated settings no 64-bit operation wraps |
| `XdpProofs.SpendExactly` | xdp/bpf/fastpath.c:178-216 | the kernel's step in unbounded integers is the ideal one but for the 60-second shortcut |
| `XdpProofs.KernelIsIdealIff` | xdp/bpf/fastpath.c:178-216 | the verdicts are the unbounded bucket's on every trace if and only if burst <= 60*rate |
| `XdpProofs.PacketBound` | xdp/bpf/fastpath.c:178-216 | over any interval one resident jar passes at most burst + rate * interval packets |
| `XdpPackets.SourcesApart` | xdp/bpf/fastpath.c:219-240 | with many sources interleaved and bans set and lifted, the budget's verdicts on one source are those on its own jar at the times of the packets no ban stopped |
| `XdpPackets.SourceBound` | xdp/bpf/fastpath.c:219-240 | between two instants of any such trace one source passes at most burst + rate * interval packets |
| `XdpPackets.KeepsSourcesIff` | xdp/bpf/fastpath.c:178-240 | that holds on every trace if and only if burst <= 60*rate |
| `XdpPackets.BannedIff` | xdp/bpf/fastpath.c:150-163 | after any packets, bans and lifts a source's packet is dropped for a ban exactly when the last word of user space is a ban until 0, at every instant, or until a later instant; it then spends nothing, and a ban found over is off the table |
| `XdpPackets.ZeroIsOff` | xdp/bpf/fastpath.c:178-184 | a rate or a burst of zero turns the budget off: nothing is spent and nothing dropped for it |
| `Windows.LeakyBucket.Check` | internal/limiter/windows.go:211-239 | drain, then pour if it fits |
| `Windows.SlidingWindowLog.Check` | internal/limiter/windows.go:150-176 | forget what left the window, then admit under the limit |
| `Windows.KeepRecent` | internal/limiter/windows.go:157-164 | the in-place filter: survivors at the front of the same buffer, in order |
| `WindowsProofs.Duality` | internal/limiter/windows.go:211-239 | on every trace LeakyBucket and TokenBucket answer alike, and level + tokens is the capacity |
| `WindowsProofs.LogAdmitsAtMostLimit` | internal/limiter/windows.go:150-176 | no window (t-W, t] ever holds more admissions than the limit |
| `WindowsProofs.ClientAdmittedIff` | internal/limiter/windows.go:150-195 | with any clients interleaved, a request is admitted exactly when fewer than the limit of its client's own were admitted in the window that ends with it |
| `WindowsProofs.RemainingCanBeHad` | internal/limiter/windows.go:150-195 | what is reported as remaining is admitted at once, and of a whole limit that and nothing more |
| `Frames.EncodeTextFrame` | internal/wshub/wshub.go:203-229 | the buffer filled is the text frame with its length form |
| `Frames.EncodeControlFrame` | internal/wshub/wshub.go:234-243 | the buffer filled is the control frame, truncated to 125 bytes |
| `Frames.Reader.ReadFull` | internal/wshub/wshub.go:654-720 | all the bytes or an end of file, plain only if none came |
| `Frames.Reader.ReadFrame` | internal/wshub/wshub.go:654-720 | one frame or one refusal, in the order the checks are made, consuming exactly its bytes |
| `Frames.Reader.ReadRest` | internal/wshub/wshub.go:701-719 | nothing longer than the limit is allocated; key, then payload, unmasked |
| `Frames.Unmask` | internal/wshub/wshub.go:715-718 | every byte XORed with its byte of the key, in place |
| `FrameProofs.DecodesWhatWritten` | internal/wshub/wshub.go:203-243 | section 5.2 of RFC 6455 as a printer and a parser: every well-formed frame decodes to itself and leaves what follows |
| `FrameProofs.WrittenIfDecodes` | internal/wshub/wshub.go:203-243 | and only well-formed frames decode |
| `FrameProofs.TextFrameDecodes` | internal/wshub/wshub.go:203-229 | a server text frame decodes to its payload, and no frame that says the same is shorter |
| `FrameProofs.ControlFrameDecodes` | internal/wshub/wshub.go:234-243 | control frames are FIN-set and at most 125 bytes whatever they are given |
| `FrameProofs.CloseFrameDecodes` | internal/wshub/wshub.go:247-252 | a Close keeps its code whatever the reason, and 123 bytes of the reason |
| `FrameProofs.MaskTwice` | internal/wshub/wshub.go:715-718 | masking is its own inverse |
| `FrameProofs.MaskIff` | internal/wshub/wshub.go:715-718 | the octets the codec masks with a key are exactly those of section 5.3 of RFC 6455, bit by bit |
| `FrameProofs.FrameIff` | internal/wshub/wshub.go:654-720 | the octets of a frame are exactly those of sections 5.2 and 5.3: header, length in network byte order, key, payload masked bit by bit |
| `FrameProofs.AcceptsIff` | internal/wshub/wshub.go:654-720 | readFrame accepts exactly what section 5.2 decodes and sections 5.1, 5.2, 5.5 and the 2^20 limit allow, with the same payload and rest |
| `FrameProofs.FaultIs` | internal/wshub/wshub.go:654-706 | a frame of the format that the server must not take is refused for its first fault, on header and length alone, whatever follows |
| `FrameProofs.TopBitIsTooLarge` | internal/wshub/wshub.go:690-695 | a 64-bit length with its top bit set is refused as too large |
| `FrameProofs.ReadsEveryFrame` | internal/wshub/wshub.go:654-720 | any concatenation of legal masked frames is read back frame by frame, to the byte |
| `FrameProofs.CutFrame` | internal/wshub/wshub.go:654-720 | a cut inside a legal frame is an end of file, the plain kind exactly at four places |
| `Hub.CloseTest` | internal/wshub/wshub.go:579-581 | the writer's first-byte test finds exactly the Close frames |
| `Hub.Connection.Enqueue` | internal/wshub/wshub.go:519-526 | a frame is taken if there is room, and false means it was not |
| `Hub.Connection.EnqueueControl` | internal/wshub/wshub.go:531-536 | a control frame is taken if there is room, else dropped |
| `HubProofs.ActKeepsMessages` | internal/wshub/wshub.go:519-600 | no act at a connection loses, adds or reorders a message but a delivery and the end of its writer |
| `HubDelivery.GapFree` | internal/wshub/wshub.go:429-454 | every connection for which no broadcast begins before the last has reached it gets a gap-free prefix of the broadcasts since it registered, however they overlap for others |
| `HubDelivery.OverlapReorders` | internal/wshub/wshub.go:429-454 | from any reachable state: one more broadcast for a live connection an earlier one has yet to reach, and room for both, has a run that hands over the later first and leaves a gap |
| `HubProofs.AtMostOnce` | internal/wshub/wshub.go:429-454 | however broadcasts overlap, no connection is sent one twice, or one that began before it registered |
| `HubProofs.FramesNeverInterleave` | internal/wshub/wshub.go:569-600 | over every interleaving a socket carries whole frames and at most part of one more, only growing, and nothing after a Close |
| `HubProofs.PartDecodesToNothing` | internal/wshub/wshub.go:592-600 | no truncated frame is mistaken for a message |
| `HubDelivery.PeerReads` | internal/wshub/wshub.go:429-600 | end to end: a peer decoding by the RFC at any moment reads whole frames whose texts are a gap-free prefix of the broadcasts |
| `HubProofs.QueuesBounded` | internal/wshub/wshub.go:131-139 | over every run a client costs its two buffers and no more |
| `HubReader.Hears` | internal/wshub/wshub.go:608-645 | every frame of the format by its fields: a Close, a Ping with its payload, chatter, or a malformed frame of code 1009 if it is only too long and 1002 otherwise |
| `HubReader.CutIsHangUp` | internal/wshub/wshub.go:608-618 | a stream cut inside an acceptable frame is a peer that hung up |
| `HubReader.PingIsEchoed` | internal/wshub/wshub.go:632-634 | a Ping is answered with a Pong that any client decodes to the Ping's own payload |
| `HubReader.GoodbyeIs` | internal/wshub/wshub.go:553-562 | a Close is answered with a Close of code 1000, a frame the server must not accept with one of 1002 or 1009, each decoding to its code and reason, once, and nothing more is read |
| `HubReader.ChatterIsIgnored` | internal/wshub/wshub.go:635-642 | any other acceptable frame changes nothing, and the next begins where it ends |
| `HubEndings.SlowIsTold` | internal/wshub/wshub.go:429-456 | a client with no room for a broadcast is told 1013 and why, and loses that broadcast alone |
| `HubEndings.FarewellIsTold` | internal/wshub/wshub.go:468-488 | at a shutdown a client is told 1001 and why |
| `HubEndings.ShutdownOwes` | internal/wshub/wshub.go:468-488 | over every run after a shutdown a connection is owed its farewell exactly when it was registered then and has not had it |
| `HubEndings.RegisteredIff` | internal/wshub/wshub.go:394-428 | a connection stays on the registry until a shutdown, a broadcast it has no room for, its farewell, a Close, a malformed frame or its own end |
| `HubEndings.GoneIff` | internal/wshub/wshub.go:540-590 | a socket is gone exactly when the peer hung up, the grace ran out, a write failed or a Close was written whole |
| `HubEndings.GoneStaysGone` | internal/wshub/wshub.go:540-562 | a socket that is gone stays gone and is prepared no further goodbye |
| `HubEndings.ControlsConserved` | internal/wshub/wshub.go:553-645 | control frames are neither made up nor forgotten: a Pong is prepared for a Ping and a goodbye for its reason, one is lost only where four are queued or its writing fails, and the others move on |
| `HubEndings.NoneMadeUp` | internal/wshub/wshub.go:553-645 | over every run no control frame is written more often than it was prepared |
| `HubEndings.NeverStuck` | internal/wshub/wshub.go:569-590 | a waiting writer can write the first frame of either queue whole, whatever is in the other |
| `HubDelivery.HandedAfter` | internal/wshub/wshub.go:519-600 | over any run a connection's messages grow by exactly what it is handed, and what is written is a prefix of them |
| `HubDelivery.DroppedGetsOnlyPending` | internal/wshub/wshub.go:429-454 | after a connection is off the registry every run hands it only broadcasts that were under way to it then, each at most once |
| `HubDelivery.NothingMoreIff` | internal/wshub/wshub.go:548-562 | from any reachable state a dropped connection is out of reach of every run exactly when nothing was under way to it or its queue is full for good |
| `HubDelivery.DroppedIsStillHanded` | internal/wshub/wshub.go:548-562 | a run in which a connection is detached "so no further broadcast touches it" and is then handed and sent one |
| `Memory.Store.constructor` | internal/ai/memory.go:123-141 | boot is the replay of the file, under the default budget if none is given |
| `Memory.Store.Load` | internal/ai/memory.go:345-377 | the scanner loop: bad lines skipped, a line of 2^20 bytes ends it |
| `Memory.Store.Add` | internal/ai/memory.go:287-313 | one more document, its tokens counted in, the oldest out and its tokens uncounted |
| `Memory.Store.CountIn` | internal/ai/memory.go:289-291 | each token of the document once |
| `Memory.Store.CountOut` | internal/ai/memory.go:307-313 | each token once less, none left at zero |
| `Memory.Store.Remember` | internal/ai/memory.go:149-175 | the next id, the index, and as much of the line as the disk takes |
| `Memory.Store.Search` | internal/ai/memory.go:182-250 | the top k of the ranked hits |
| `Memory.Score` | internal/ai/memory.go:217-225 | dot product and squared norm, whatever the order of the tokens |
| `MemoryProofs.AlwaysExact` | internal/ai/memory.go:287-313 | in every run, torn writes and restarts included, df[t] is the number of live documents holding t, no zero entries, at most maxDocs documents |
| `MemoryProofs.ReplayKeepsLast` | internal/ai/memory.go:345-377 | a replay leaves the last maxDocs documents in order and continues the numbering |
| `MemoryProofs.ReplayNumbers` | internal/ai/memory.go:345-376 | whatever a file holds, after a replay the next number is 1 or one above some number replayed, and above all of them |
| `MemoryProofs.RebuildsIff` | internal/ai/memory.go:345-377 | a fully written file rebuilds docs, df and nextID if and only if every line is shorter than 2^20 bytes |
| `MemoryProofs.RestartsInvisible` | internal/ai/memory.go:149-175 | with whole writes and short lines, restarts anywhere in a run change nothing |
| `MemoryProofs.RunKeepsLast` | internal/ai/memory.go:287-313 | such a run holds the last maxDocs remembered, counted exactly |
| `MemoryProofs.LongLineReusesId` | internal/ai/memory.go:345-377 | a longer line loses every later record, and its id is given out again |
| `MemoryProofs.TornAppendCostsTwo` | internal/ai/memory.go:325-344 | a half-written line costs the next record as well, against the comment that it costs one |
| `TornWrites.WhatSurvives` | internal/ai/memory.go:325-377 | after any sequence of partial writes a replay finds, in order, exactly the records that have a line to themselves |
| `TornWrites.RestartHoldsSurvivors` | internal/ai/memory.go:345-377 | a restart after any run of torn writes and restarts holds the replay of those records |
| `MemorySearch.DotBounded` | internal/ai/memory.go:199-229 | dot^2 <= (query norm^2)(document norm^2) for every query and document |
| `MemorySearch.ScoreInUnit` | internal/ai/memory.go:217-229 | every hit's unrounded score is above 0 and at most 1 |
| `MemorySearch.RankOrdersScores` | internal/ai/memory.go:226-234 | the exact ranks order hits as their scores do |
| `MemorySearch.HitsAreShared` | internal/ai/memory.go:217-229 | the hits are exactly the documents that share a token with the question |
| `MemorySearch.SortRanks` | internal/ai/memory.go:231-234 | a stable sort by score: a permutation, best first, ties in stored order |
| `MemorySearch.RankingUnique` | internal/ai/memory.go:231-234 | no other list of these hits is so ranked, so any stable sort gives this one |
| `MemorySearch.SearchReturnsTopK` | internal/ai/memory.go:234-249 | min(k, hits) results, ranked, every hit left out behind every one returned |
| `MemoryWeights.DotIs` | internal/ai/memory.go:199-225 | the product a score is made of counts each shared token by its occurrences on both sides times the square of the curve at the number of documents that hold it; the norm is a document's product with itself |
| `MemoryWeights.RarerFirst` | internal/ai/memory.go:182-249 | with a curve that falls, of two one-word documents both asked for equally often the one whose word fewer documents hold comes first, in every answer that has the other |
| `Automations.Autopilot.constructor` | internal/automations/automations.go:111-137 | defaults for zero settings, nothing recorded |
| `Automations.Autopilot.ClaimOnce` | internal/automations/automations.go:312-320 | true exactly once per key |
| `Automations.Autopilot.OnDecision` | internal/automations/automations.go:232-309 | the three rules in order; its own bans are ignored |
| `Automations.Autopilot.QuotaRule` | internal/automations/automations.go:237-248 | alert at 80% once per key |
| `Automations.Autopilot.CapRule` | internal/automations/automations.go:250-273 | count slams per month, nudge at the third |
| `Automations.Autopilot.StormRule` | internal/automations/automations.go:275-308 | filter the window, append, trip or keep |
| `Automations.Autopilot.BanRemainingMs` | internal/automations/automations.go:216-229 | the time left, expired bans reaped |
| `Automations.Autopilot.Ban` | internal/automations/automations.go:324-335 | a ban by hand, the default cooldown for a non-positive length |
| `Automations.Autopilot.Unban` | internal/automations/automations.go:337-348 | the ban goes |
| `Automations.Autopilot.Act` | internal/automations/automations.go:146-156 | the last 500 actions |
| `Automations.KeepRecent` | internal/automations/automations.go:277-283 | the filter loop keeps exactly the hits inside the window, in order |
| `AutomationsProofs.StormConservation` | internal/automations/automations.go:275-308 | in every run StormThreshold times the cooldowns of a client, plus what is logged, is at most its burst blocks |
| `AutomationsProofs.TripHasEvidence` | internal/automations/automations.go:275-308 | a cooldown has a threshold's worth of blocks, inside the window, since the last one, and no live ban |
| `AutomationsProofs.TripsIff` | internal/automations/automations.go:275-308 | exactly when a burst block trips, for events in time order |
| `AutomationsProofs.CooldownsApart` | internal/automations/automations.go:216-308 | without intervention by hand two cooldowns start a cooldown apart |
| `AutomationsProofs.AskingChangesNothing` | internal/automations/automations.go:216-229 | reaping an expired ban is invisible to every later clock |
| `StormEvidence.EvidenceIff` | internal/automations/automations.go:275-308 | in every run the blocks a decision counts are exactly those since the last cooldown that no block since found outside the window |
| `StormEvidence.BannedEvidenceIff` | internal/automations/automations.go:275-308 | a cooldown rests on a block decided under a live ban exactly when one came inside its window and since the last cooldown |
| `StormEvidence.BannedBlocksCount` | internal/automations/automations.go:286-296 | for every threshold above one some run trips on blocks all but one of which came under a ban |
| `Overlap.UnderBanIff` | internal/gateway/gateway.go:116-121 | requests overlapping at will, people banning and lifting: one is decided under a live ban exactly when a cooldown or a hand set one between its own ask and its decision, nobody touched it since, and it runs out later |
| `Overlap.RestsOnBannedIff` | internal/automations/automations.go:275-308 | a cooldown rests on a block decided under a ban exactly when some block it counts was in flight when a ban was set that outlasted it |
| `Overlap.LeaksAtMostInFlight` | internal/automations/automations.go:275-308 | from one ban to the next a client's blocks decided under a ban are at most its requests in flight when the first was set |
| `Overlap.RestsOnAtMostInFlight` | internal/automations/automations.go:275-308 | a cooldown that follows another rests on no more such blocks than were in flight at the first |
| `Overlap.NoOverlapNoBan` | internal/gateway/gateway.go:116-121 | a request during which no ban is set on its client is not decided under one |
| `Overlap.LongCooldownForgets` | internal/automations/automations.go:216-308 | a cooldown at least the window and one latency long never leads to another on what it caught in flight, clients being left alone |
| `Overlap.OverlapCoolsDownTwice` | internal/automations/automations.go:275-308 | for every shorter one, at every threshold, a legal run: twice the threshold at once and one request later the client is cooled down again on blocks all but one of which were decided under the first cooldown |
| `Overlap.HandsLeak` | internal/automations/automations.go:324-348 | with people banning and lifting there is such a run for every setting and with no latency |
| `Overlap.NeverRestsIff` | internal/automations/automations.go:216-308 | over every run of clients left alone, however requests overlap, no cooldown rests on a block decided under a ban if and only if the cooldown is at least the window plus the longest time from a request's ask to its report, or is none at all |
| `AutomationsProofs.AlertOnceIff` | internal/automations/automations.go:237-248 | at most one quota alert per tenant and month, and exactly when some event came near |
| `AutomationsProofs.NudgeOnceIff` | internal/automations/automations.go:250-273 | at most one nudge per tenant and month, and exactly from the third slam |
| `AutomationsProofs.DiaryKeepsLast` | internal/automations/automations.go:146-156 | over any run the actions kept are the last 500 taken, in order |
| `MonthlyQuota.Meters.Check` | internal/limiter/monthlyquota.go:88-115 | a fresh meter each month; a refusal charges nothing |
| `MonthlyQuotaProofs.ChargesItsCost` | internal/limiter/monthlyquota.go:88-115 | a charge let through puts its cost on the meter, one unit if it names none, and a refused one puts nothing; what is left is what the meter has not reached |
| `MonthlyQuota.Redis.Eval` | internal/limiter/redis.go:268-291 | the script as one step: charge with a new expiry, or refuse and refresh it |
| `MonthlyQuotaProofs.MeterIsSpend` | internal/limiter/monthlyquota.go:88-115 | after any run a meter is exactly the cost let through in its month |
| `MonthlyQuotaProofs.RefusedIffOver` | internal/limiter/monthlyquota.go:104-107 | a charge is refused exactly when it would take the month past the quota |
| `MonthlyQuotaProofs.WithinQuota` | internal/limiter/monthlyquota.go:104-107 | a meter never passes the largest quota it was charged against |
| `MonthlyQuotaProofs.RedisRefinesMeter` | internal/limiter/redis.go:291-350 | months being no longer than 31 days, all replicas charging one Redis in any order are told what one in-process meter would tell them |
| `MonthlyQuotaProofs.ForgottenIff` | internal/limiter/redis.go:291-300 | a second charge of a month is told what the meter would tell it exactly when it comes within 70 days of the first |
| `Gateway.Server.Check` | internal/gateway/gateway.go:106-140 | who, the plan, the ban, then the meters; a policy error lets the request through |
| `Gateway.Server.Meter` | internal/gateway/gateway.go:142-165 | the plan meter if the tier has a cap; unreachable means let through |
| `Gateway.Server.Pour` | internal/gateway/gateway.go:167-199 | the jar only if the plan said yes; unreachable means let through |
| `Gateway.Server.Settle` | internal/gateway/gateway.go:201-250 | reason, Retry-After, the event, the decision |
| `GatewayProofs.WhatMoves` | internal/gateway/gateway.go:106-250 | which meter and which jar a request moves, and that no other moves |
| `GatewayProofs.RefusalsSpareJars` | internal/gateway/gateway.go:116-143 | bans and plan refusals leave every jar untouched, a ban every meter |
| `GatewayProofs.BurstRefusalStaysCharged` | internal/gateway/gateway.go:142-199 | a request the jar refuses stays charged to the month |
| `GatewayProofs.MeterIsBill` | internal/gateway/gateway.go:142-165 | over any run a month's meter is the summed cost of the requests and of the calls to a model that the plan let through |
| `GatewayProofs.MeterWithinQuota` | internal/gateway/gateway.go:142-165 | and never exceeds the quota |
| `GatewayProofs.RetryPassesIff` | internal/gateway/gateway.go:214-220 | a burst-refused request repeated after its Retry-After, with nobody else on the jar, passes exactly when its cost fits the capacity; in a lane always |
| `GatewayProofs.RetryIsNeeded` | internal/gateway/gateway.go:201-241 | a jar that holds what is reported as remaining refuses the request again at every instant before the time it was given |
| `GatewayProofs.CooldownLasts` | internal/gateway/gateway.go:116-140 | a request refused for a cooldown and repeated after any run of requests decided while it lasts is refused for it again exactly when less than the time it was given has passed |
| `GatewayProofs.LaneScales` | internal/gateway/gateway.go:167-199 | a lane scales the refill, and the capacity to the nearest whole number but never below one request's cost |
| `GatewayProofs.ReportsThePlan` | internal/gateway/gateway.go:116-250 | every answer to a request with a plan reports its cost, its own limit, the limit enforced and the verdict of the month meter |
| `GatewayProofs.RemainingWithinLimit` | internal/gateway/gateway.go:43-50 | the remaining budget reported never exceeds the limit reported, in any lane |
| `GatewayProofs.AlertIsEightyPercent` | internal/automations/automations.go:237-248 | from usage and remainder alone the plan is found 80% used exactly when it is, or is overdrawn |
| `GatewayProofs.EvidenceIsUnbanned` | internal/gateway/gateway.go:116-140 | a request taken as one step enters the storm log only as a burst block of a client that is not banned |
| `Isolation.TenantsApart` | internal/gateway/gateway.go:106-250 | on one tier and route, whatever one tenant's request does, every request of another tenant is answered as before, its jar's answer and its month's use unchanged |
| `EndToEnd.ManagedKeysAreLimited` | internal/gateway/gateway.go:106-114 | on the rulebook a reconcile leaves, a request with a managed key fails open only on an unreachable store |
| `EndToEnd.AdmittedWithinBound` | internal/gateway/gateway.go:167-199 | between any two instants of a run with the janitor at work, plans and lanes changing below their ceilings, a jar lets through at most its capacity, the refill, and per sweep of it what the idle time does not refill: nothing if that is long enough or it is never swept; and the jars are left as the bound needs them |
| `LaneRefund.LanesBreakTheBound` | internal/fingerprint/fingerprint.go:42-48 | a run of the gateway on the source's human and crawler lanes and the janitor's ten minutes: 2600 let through where capacity and refill are 2140 |
| `EndToEnd.PilotFollows` | internal/gateway/gateway.go:201-241 | where requests do not overlap, the autopilot inside the gateway is the autopilot alone, fed the decisions the gateway records |
| `EndToEnd.CooldownsCostRefusals` | internal/gateway/gateway.go:201-241 | where requests do not overlap, the storm threshold times a tenant's cooldowns is at most its burst refusals |
| `EndToEnd.CooldownsRestOnUnbanned` | internal/gateway/gateway.go:119-143 | where requests do not overlap, no cooldown rests on a block decided while the client was banned |
| `GatewaySections.PilotFollows` | internal/gateway/gateway.go:104-250 | however requests interleave section by section, with hand bans and rulebook edits between, the autopilot is the autopilot alone fed what it was asked and told, and every report is of one request that was told there is no ban |
| `GatewaySections.CooldownsCostRefusals` | internal/gateway/gateway.go:201-241 | however requests interleave, the storm threshold times a tenant's cooldowns and what is logged is at most the times it was answered "burst" |
| `GatewaySections.CooldownsRestOnInFlight` | internal/gateway/gateway.go:116-121 | in every such run a cooldown following another rests on no more blocks decided under a ban than the tenant had requests in flight at the first |
| `GatewayOverlap.EveryRunIsTheGateways` | internal/gateway/gateway.go:104-250 | every legal run of asks, burst reports, bans and lifts is what the gateway tells its autopilot in some run from a fresh start |
| `GatewayOverlap.GatewayNeverRestsIff` | internal/automations/automations.go:216-308 | over every run of the gateway in sections no cooldown of a client left alone rests on a block decided under a ban if and only if the cooldown is at least the window plus a request's latency, or is none at all |
| `GatewaySections.MetersAreSpend` | internal/gateway/gateway.go:142-165 | however requests and calls to a model interleave, every month meter is exactly what its charges were let through for |
| `GatewaySections.JarsWithinBound` | internal/gateway/gateway.go:167-199 | however requests and the janitor's passes interleave, a jar lets through at most its capacity, the refill of the interval, and per sweep of it what the idle time does not refill: nothing if that is long enough or it is never swept |
| `GatewaySections.Uninterrupted` | internal/gateway/gateway.go:106-250 | a request whose sections nothing comes between changes the state and answers exactly as Check taken as one step |
| `Resp.WriteRequest` | internal/redisclient/client.go:186-194 | the bytes of a command |
| `Resp.Reader.ReadNext` | internal/redisclient/client.go:201-251 | one reply, by its tag, consuming exactly its bytes; arrays nest and terminate |
| `Resp.Reader.ReadBulk` | internal/redisclient/client.go:218-230 | a bulk string, a nil, or why not |
| `Resp.Reader.ReadArray` | internal/redisclient/client.go:231-247 | an array whose nil items are kept as nil |
| `Resp.Reader.ReadFull` | internal/redisclient/client.go:253-263 | whatever sizes the reads come in, the bytes asked for or a failure |
| `RespProofs.DecimalReads` | internal/redisclient/client.go:191-193 | every 64-bit length written is read back |
| `RespProofs.ReplyReadsBack` | internal/redisclient/client.go:201-251 | any reply of the protocol, nested to any depth, is read as what it means, to its last byte |
| `RespProofs.AtoiIff` | internal/redisclient/client.go:216-235 | numerals of 64 bits, perhaps signed, and nothing else, are numbers |
| `RespProofs.OddLine` | internal/redisclient/client.go:211-250 | a line of no known type is refused, and so is one that should be a number and is not |
| `RespProofs.CutReply` | internal/redisclient/client.go:201-263 | a stream cut anywhere inside a reply, arrays nested to any depth, is an end of stream and never a reply |
| `RespProofs.RequestReadsBack` | internal/redisclient/client.go:186-251 | the arguments of a command come back exactly, CR and LF included, and the rest stays unread |
| `RespProofs.StaysInStep` | internal/redisclient/client.go:201-251 | the n-th read on a connection gives the n-th answer, nils included, as long as none is an error |
| `RespProofs.PoolStaysInStep` | internal/redisclient/client.go:134-148 | errors and nils included: the n-th command on a connection gets the n-th answer, the first error or nil is the last, and a connection put back has nothing unread but what comes later |

## Left out

- Each mutex section, channel operation and Lua script is one atomic step, and `GatewaySections` takes a request as the six sections it is; a reconcile is one step, although two reflectors may overlap in it and the snapshot is taken before it is applied.
- One clock reading serves a whole call where the code reads its clock more than once.
- LeaseSafety.MutualExclusion: the replicas' clocks differ by fixed offsets and run at one rate; an attempt is answered or abandoned within a stated latency, which the code does not bound while acquiring, and a follower may start an attempt at any time, not only at its ticks.
- Watch.Reflector.Turn: resource versions are numbers of one server history, cancellation of the context is the end of a run, and the lengths of the backoff sleeps are not modelled, only their count.
- OperatorRuns.NoFailOpen: says nothing about the empty API key, which the gateway reads as no key at all; `OperatorRuns.StrangersResolveIff` covers it.
- Operator.Controller.OnTenantEvent: finalizer calls, status patches, recorded events and logs are not part of the state; base64 and the reading of Secrets are functions of the cluster, and trimming knows the ASCII blanks only.
- Policy.Rulebook.PutTier: tiers are values, so the aliasing of MonthlyQuota pointers that the copies guard against does not arise; a duplicate object key cannot occur, the API server's names being unique.
- Eviction.UnobservableIff: exact reals, so float rounding is not modelled; Remaining is the floor of the balance; a capacity below zero is taken to stay as it is.
- RedisBucketProofs.RedisRefinesLocalIff: exact reals instead of the six decimals the script stores; the network and the connection pool are not part of this model.
- RedisBucketProofs.GapShows: a key may go at the very millisecond its expiry falls due; on a server that keeps it through that millisecond no expiry hands anything back, as `RedisBucketProofs.LateExpiryRefundsNothing` shows, and the only-if half of RedisRefinesLocalIff does not apply.
- XdpProofs.KernelIsIdealIff: one CPU and resident map entries; LRU eviction and the deliberate lost update between CPUs are not modelled, and neither is packet parsing.
- MonthlyQuotaProofs.RedisRefinesMeter: month names are an abstract function of time whose months do not come back and are at most 31 days long; the key and the month are a pair instead of one string joined by a colon.
- FixedWindow, SlidingWindowCounter and the two Redis fixed windows: simpler than the limiters kept here.
- WindowsProofs.ClientAdmittedIff: one limit and one window over the run, and a client's requests in the order of their clocks.
- GatewayProofs.RetryIsNeeded: says nothing of a jar that holds a fraction of a token, which the report drops: that one may let the request through a fraction's refill sooner.
- MemoryWeights.RarerFirst: documents of one word; of longer ones `MemoryWeights.DotIs` gives the product and the norm.
- Operator.ValidatePolicy: problems are values, not message texts.
- Frames.Reader.ReadFrame: the handshake and JSON marshalling are left out; bytes are integers below 256.
- HubDelivery.GapFree: write deadlines and the grace timer may fire at any moment; broadcasts whose data cannot be marshalled never begin.
- MemorySearch.ScoreInUnit: the idf curve is any positive function and the square root any root; scores are not rounded to three decimals.
- MemoryProofs.RestartsInvisible: JSON is any renderer whose lines parse back, the tokenizer any function of the text, and metadata is not stored.
- MemoryProofs.TornAppendCostsTwo: that a record cut short, or run into by another, is not a record is taken as a property of JSON objects.
- TornWrites.WhatSurvives: the same of any number of pieces run together, and every line of the file fits the scanner's buffer.
- AutomationsProofs.AlertOnceIff: month names are strings of one length; the notification path, the language model's explanations and its bans (which are bans by hand here) are left out.
- GatewayProofs.EvidenceIsUnbanned: takes the ban question and the autopilot's event of a request as one step; what holds when others come between is `Overlap.UnderBanIff`.
- EndToEnd.PilotFollows: requests one after another and no bans by hand; `GatewaySections.PilotFollows` has both.
- EndToEnd.CooldownsCostRefusals: requests one after another; `GatewaySections.CooldownsCostRefusals` lets them overlap.
- EndToEnd.CooldownsRestOnUnbanned: requests one after another; with overlap it is false, and `Overlap.NeverRestsIff` says exactly when it holds.
- GatewaySections.PilotFollows: the three rules of OnDecision touch different fields of the autopilot, each under one lock, and are one section here.
- Overlap.NeverRestsIff: the window is positive, as the constructor's defaults leave every setting that is not negative.
- WatchTenants.DeletedTenantServed: a stale list may still name the object; it is put back and the watch then replays its deletion, which `WatchTenants.TenantWrongIff` covers.
- Gateway.Server.Check: one request as one step, exactly so when nothing comes between its sections (`GatewaySections.Uninterrupted`); the lane is an argument, the audit log and the fingerprints only receive the event, and the jars are one map that the janitor sweeps part by part, which is what the sharded bucket is (`JanitorBound.ShardsAreOneMap`).
- JanitorBound.KeepsBoundIff: the clock is read before a shard's lock is taken; here the checks of a run are in the order of their clocks.
- GatewayProofs.MeterIsBill: the calls to a model (`internal/server/handlers_ai.go:141-147`) are charges of any key, month and cost; how a call is priced in tokens is not part of this model.
- RedisBucketProofs.SharedBound: each key keeps one plan over the run; `RedisLanes.SharedBoundOnLanes` lets it change with every call.
- RespProofs.ReplyReadsBack: lengths that overflow an allocation are not modelled; dialling, authentication, timeouts and the idle pool are left out.
- HTTP handlers, the proxy, billing, Stripe, GitHub and geolocation calls, metrics, statistics, audit storage, organisations and the demo are left out: they are bookkeeping or input and output, on which no property here depends.
