# Barback, verified

Barback is a policy gateway for LLM and MCP traffic with its own private DNS. This project models the
parts of it that are state machines or text formats whose correctness is about whole runs, and proves
what they keep. `dafny verify dfyconfig.toml` checks everything.

| file | component |
|---|---|
| WindowBounds.dfy | where usage windows start and end, and how long their keys live |
| UsageWindow.dfy, UsageLimits.dfy, UsageTracker.dfy | the reserve, reconcile and sum scripts over a sorted set and an index; limits over whole runs; the loop over windows |
| Settlement.dfy | a chat request from its reservation to its settlement |
| Sorting.dfy, JsonText.dfy, CacheIdentity.dfy | the canonical request text and the exact cache's identity |
| ExactLock.dfy | the cache's token lock under expiry |
| Delimited.dfy, Ndjson.dfy | the incremental line parser |
| Replay.dfy | streaming, accumulating and replaying a response |
| Breaker.dfy, Retry.dfy | the circuit breaker and the retry loop that feeds it |
| Lease.dfy, DnsState.dfy | resolver generations, lease acceptance, persisted state |
| Bundle.dfy, Publisher.dfy, Supervisor.dfy | activation of a bundle, the publish/commit/poll protocol with crashes, the fail-closed loop |
| Zone.dfy, Reconciler.dfy | the zone file; reconciling and bringing up a stack |
| Convergence.dfy, Setbacks.dfy | what several commands come to while the resolver or an address changes; three runs that show what they do not repair |
| Options.dfy | a value that may be missing |

## How to read it

Code that updates state is a class or a method with the source's own loops (`WindowKeys`, `Tracker`,
`Request`, `CircuitBreaker`, `ExactCache`, `Process`, `Directory`, `DnsStateStore`, `StackReconciler`,
`ParseNdjson`, `StreamResponse`, `RenderDnsRecords`), proved against a specification function. What the
source promises is then proved of that function over all inputs or all runs. Protocols whose parts act
concurrently (`Bundle`, `Publisher`, `Supervisor`, `Breaker`, `ExactLock`) are step functions over
sequences of steps in any order.

What is taken as given: neither clock of a usage window runs back and the caller's and the store's stay
within half a day of each other; tokens and bundle names are fresh; `localeCompare` is some total preorder
(a rank); NFC normalisation is some function (idempotent and introducing no CR where a lemma says so); an
opened file is renamed atomically; a container runtime keeps what it was run with,
and a container asks the first of its nameservers. Hashes are any
functions: where two texts could collide, the result says so (`ExactCacheIdIff`, `GenerationChangesIff`).

## What turned out

Where a promise does not hold as it stands, the code is kept, an input shows it, and the exact condition
is proved.

- Keys outlive every charge still in the window for all windows but one: a calendar window of zero weeks
  is seven days wide and keeps its keys for one (`TtlOutlivesWindowIff`, `ZeroWeekForgets`).
- A hard limit can be exceeded, as by a request reserved at no cost and settled above the limit
  (`LimitExceeded`), but only by what settlements add to their reservations (`LimitSafety`).
- A request refused by one window stays charged, at its full prediction, in the windows before it that
  granted it (`RefusedButCharged`, `RefusalLeavesEarlierCharge`). It leaves no charge exactly when every
  earlier window that applies held it already (`RefusalLeavesNothingIff`). The error leaves before
  anything would settle the request, and so does one of the semantic stage (`Request.Execute`).
- All equivalents of a request have one cache text exactly when `localeCompare` tells apart the keys of
  each of its objects (`OneTextIff`); so key order never matters exactly when it tells all different keys
  apart (`OrderBlindIff`, `LevelKeysShowOrder`).
- A line without a final newline is parsed untrimmed, so adding the newline can change the outcome
  (`NewlineMatters`); it does not exactly when `FinalNewlineIff` says.
- An empty reasoning text is lost in a replay (`ReplayIff`). Taken by itself, replaying a response with
  tool calls would end its stream with another finish reason than it has unstreamed
  (`FinishReasonsAgreeIff`), but no response that may be stored has any (`StorableReplays`).
- A resolver that changes address starts its lease sequence again, but its supervisor compares it with
  the one it held: valid renewals are refused until as many have been committed (`RenewalWorksIff`,
  `AddressChangeStarves`, `MoveStarves`), that many are enough (`MoveCatchesUp`), made while the
  resolver serves or by `up`, and so is a restart (`RestartTakesFirst`).
- A full reconcile leaves the stack converged exactly when it was or the resolver's generation is not the
  persisted one (`FullReconcileIff`). So it repairs every change of resolver, even after attempts that
  failed half-way (`EveryChangeIsRepaired`), but not when such an attempt has moved a service on and the
  resolver has come back to the persisted generation (`ComesBack`), nor when an `up` has persisted the
  generation of a new resolver at its bootstrap reconcile and then failed at the gateway (`StopsHalfWay`).
- docs/complete-guide.md:781 says that the reconciler updates the records when the storage changes address.
  A full reconcile does not for a required service: it first has the gateway look each up, so it
  publishes only addresses the resolver already answers with, and nothing once the resolver has stopped
  serving (`FullReconcileNeedsAnswers`). Where a bootstrap reconcile would publish and the generation is
  unchanged, it publishes exactly when those lookups succeed (`FullPublishesIff`); while the resolver
  answers only what is published, any number of them changes nothing (`StaleForEver`, `StorageMoves`). A
  bootstrap reconcile, as in `up`, publishes what is there (`BootstrapPublishesPresent`). On a settled stack an
  `up` completes exactly when `UpCompletesIff` says.
- A failed rename leaves `.current.next` behind, and no later publish takes effect (`LeftoverBlocks`).
- docs/operations.md says that records are withdrawn when a required service is unavailable. The code
  keeps the last bundle, which the supervisor drops when its lease ends; the model follows the code.

## Model

| member | source | states |
|---|---|---|
| WindowBounds.CalendarTiles | src/usage/window-tracker.ts:112-130 | a calendar window contains its instant, every instant in it has the same window, and the next starts where it ends; weeks are seven days from a Monday, durations whole multiples from the epoch |
| WindowBounds.YearsAreGregorian | src/usage/window-tracker.ts:118-121 | every year starts on the day the Gregorian rule gives: 365 days each and one for each leap year since 1970 |
| WindowBounds.MonthsAreGregorian | src/usage/window-tracker.ts:118-121 | within a year, counted from March, each month starts where the rule of 153 days in five months puts it |
| WindowBounds.MonthWindow | src/usage/window-tracker.ts:118-121 | a month window runs from the first instant of the month its instant is in to that of the next |
| WindowBounds.DurationsAgree | src/usage/window-tracker.ts:107-110 | a duration is the same in whichever unit it is written, and a month is 31 days |
| WindowBounds.StartMonotone | src/usage/window-tracker.ts:112-130 | the start of a window never moves back as time passes |
| WindowBounds.InWindowAge | src/usage/window-tracker.ts:107-130 | a charge still in its window is no older than the window's duration |
| WindowBounds.TtlOutlivesWindowIff | src/usage/window-tracker.ts:107-130 | keys kept for the duration plus a day outlive every in-window charge exactly when the window is not zero calendar weeks |
| WindowBounds.ResetForgetsIff | src/usage/window-tracker.ts:278-280 | at the reported reset everything charged so far has left the window, except what a rolling window was charged at that very instant |
| UsageWindow.RunInv | src/usage/window-tracker.ts:36-80 | after any run each set member is the index's value for its request, one per request, both keys expire together, and the set agrees with an append-only journal |
| UsageWindow.StepInv | src/usage/window-tracker.ts:36-92 | every script call keeps that agreement, through pruning and expiry |
| UsageWindow.ExpireKeeps | src/usage/window-tracker.ts:56-57 | when the set's key expires, nothing in it was still in the window, for clocks up to half a day apart |
| UsageLimits.ReportsAreExact | src/usage/window-tracker.ts:36-92 | after any run, reported totals are the journal's totals since the window's start; a new request is refused exactly when a hard limit would be exceeded and warned exactly when a soft one is reached |
| UsageLimits.ZeroWeekForgets | src/usage/window-tracker.ts:122-126 | the one kind of window for which totals are lost, by example |
| UsageLimits.SlackGrows | src/usage/window-tracker.ts:39-46 | as the start moves on, totals fall by at least what growth falls by |
| UsageLimits.LimitSafety | src/usage/window-tracker.ts:36-80 | after any interleaving of reservations, retries, refusals, settlements and inspections, at any later instant, each hard-limited total is at most the limit plus the growth of settlements in the window |
| UsageLimits.LimitExceeded | src/usage/window-tracker.ts:49-51 | a run in which a settlement takes a total above its hard limit |
| UsageLimits.LimitHoldsWithoutGrowth | src/usage/window-tracker.ts:49-51 | if no settlement exceeds its reservation the limit is never exceeded |
| UsageLimits.SettleTouchesOnlyItsRequest | src/usage/window-tracker.ts:66-78 | a settlement replaces exactly its own request's charge |
| UsageLimits.SettledIsFixed | src/usage/window-tracker.ts:40-41 | after any later calls before the index expires, a settled charge is the index's value for its request, settled no further, and in the set until pruned |
| UsageLimits.FirstSettlementStands | src/usage/window-tracker.ts:66-69 | among any calls after a reservation, the first settlement of the request stands whatever comes after, and the journal settles it exactly once more |
| UsageLimits.WindowKeys.Reserve | src/usage/window-tracker.ts:36-61 | the reserve script as it runs refines its specification, and a refusal names a field whose limit is exceeded |
| UsageLimits.WindowKeys.Reconcile | src/usage/window-tracker.ts:63-80 | the reconcile script as it runs refines its specification and says whether it took effect |
| UsageLimits.WindowKeys.Inspect | src/usage/window-tracker.ts:82-92 | the sum script as it runs refines its specification |
| UsageTracker.Tracker.Reserve | src/usage/window-tracker.ts:159-214 | the loop as it runs refines the pass over the windows, and names a hard-limited field of the window that refused |
| UsageTracker.ReserveCharges | src/usage/window-tracker.ts:169-212 | windows are charged in order up to the first that refuses, those after it are untouched and those before stay charged; the answer is a warning exactly when a window warned |
| UsageTracker.Tracker.Reconcile | src/usage/window-tracker.ts:216-244 | each applicable window is settled with the usage its basis selects, the others untouched |
| UsageTracker.Tracker.Inspect | src/usage/window-tracker.ts:246-286 | one line for each window in scope, in order, with its totals, its status by its thresholds on them, and when it starts afresh |
| UsageTracker.MatchingShareKeys | src/usage/window-tracker.ts:139-150 | of the requests that share a window's keys with one in its scope all are in its scope, and of those in its scope all share its keys |
| UsageTracker.StatusForetells | src/usage/window-tracker.ts:262-283 | a window is reported exhausted exactly when a request using one of everything would be refused, and otherwise with a warning exactly when a soft limit is reached |
| UsageTracker.RefusalLeavesNothingIff | src/usage/window-tracker.ts:169-199 | a request is refused and leaves no charge exactly when some window refuses it that every applicable window before holds it in its live index, all as they are before the call |
| UsageTracker.RefusalLeavesEarlierCharge | src/usage/window-tracker.ts:169-199 | in each window that granted it, a request refused later stays charged at its full prediction |
| UsageTracker.RefusedButCharged | src/usage/window-tracker.ts:169-199 | a run over two windows in which the first grants and the second refuses |
| Settlement.Request.Finalize | src/core/pipeline.ts:404-474 | finalising settles once, field by field with what the response reports and costs, or with one request only without a response, releases the gauge, gives back its own lock whatever fails, and throws exactly if recording does |
| Settlement.Request.Execute | src/core/pipeline.ts:262-507 | every run settles first with what is due, field by field on both sides, and afterwards only with nothing, restores the gauge and gives back the lock it took and no other, exactly unless a window refused it or the semantic stage breaks outside the try; exactly when it throws, and when the response is cached |
| Settlement.DueStands | src/core/pipeline.ts:394-506 | end to end: a window that granted a request and is told what its run settled, among any other calls, keeps what was due as its charge, settled exactly once |
| Settlement.SelectedIsFair | src/usage/window-tracker.ts:216-244 | an answer from a cache adds nothing but a request to a window that counts provider usage, and its tokens to one that counts served usage; only what went through the provider costs anything |
| Settlement.ChargedFairly | src/core/pipeline.ts:394-506 | end to end, by the basis: the window's charge is, field by field, what the run used of the provider, what the client got, or one request |
| Sorting.Sort2Canonical | src/cache/canonicalize.ts:9-13 | any arrangement of separated entries sorts to one sequence |
| Sorting.Sort2Idempotent | src/cache/canonicalize.ts:9-13 | sorting what is sorted changes nothing, entries that compare equal included |
| JsonText.ReadPrinted | src/cache/canonicalize.ts:18-20 | reading a printed JSON value gives it back, string escapes included (section 7 of RFC 8259) |
| JsonText.PrintInjective | src/cache/canonicalize.ts:18-20 | different values print differently |
| CacheIdentity.TextIsSound | src/cache/canonicalize.ts:1-20 | requests with one canonical text are equal up to key order, line ends and string normal form |
| CacheIdentity.LineEnds | src/cache/canonicalize.ts:1-3 | a canonical string has every line of the string, each ended by LF whether it was by CR LF, CR or LF |
| CacheIdentity.LineEndsIff | src/cache/canonicalize.ts:1-3 | two strings are the same up to their line ends exactly when they have the same lines |
| CacheIdentity.CanonicalOrder | src/cache/canonicalize.ts:9-13 | a canonical object has exactly the object's entries, each canonical, array indices first and the rest as `localeCompare` orders them |
| CacheIdentity.SlotIff | src/cache/canonicalize.ts:9-13 | a key counts as an array index exactly if it is the text of a number below 2^32 - 1, and then by that number |
| CacheIdentity.StableJsonIff | src/cache/canonicalize.ts:1-20 | the canonical text decides that equivalence for requests whose keys the order tells apart |
| CacheIdentity.OneTextIff | src/cache/canonicalize.ts:1-20 | all equivalents of a request have its text exactly when the order tells apart the keys of each of its objects |
| CacheIdentity.OrderBlindIff | src/cache/canonicalize.ts:9-13 | key order never shows in the text exactly when no two different keys compare equal |
| CacheIdentity.LevelKeysShowOrder | src/cache/canonicalize.ts:11 | two keys that compare equal make equivalent requests print differently |
| CacheIdentity.CanonicalFixed | src/cache/canonicalize.ts:5-16 | canonicalising any value is idempotent |
| CacheIdentity.ExactCacheIdIff | src/cache/cache-key.ts:20-24 | two lookups share an entry exactly when client, namespace, provider and model agree and the requests are equivalent, or the hashes of their texts collide |
| ExactLock.ExactCache.TakeLock | src/cache/exact-cache.ts:70-85 | a token is stored exactly when no live one is |
| ExactLock.ExactCache.ReleaseLock | src/cache/exact-cache.ts:10-15 | the lock is removed exactly for its live token |
| ExactLock.LiveIsStored | src/cache/exact-cache.ts:70-93 | a live holder's token is what the store holds |
| ExactLock.StoredIsLive | src/cache/exact-cache.ts:70-93 | what the store holds is a holder that is live until its deadline |
| ExactLock.MutualExclusion | src/cache/exact-cache.ts:70-93 | at any instant at most one holder of an identifier is live |
| ExactLock.StaleReleaseIsHarmless | src/cache/exact-cache.ts:87-93 | releasing with a token that is not live removes nobody's lock |
| Ndjson.ParseNdjson | src/providers/ollama-cloud/stream.ts:7-20 | for every chunking the events and the failure are those of the whole text, and after each chunk exactly its complete lines have been yielded |
| Ndjson.FinalNewlineIff | src/providers/ollama-cloud/stream.ts:13-20 | exactly when a final newline would change the outcome |
| Ndjson.NewlineMatters | src/providers/ollama-cloud/stream.ts:13-20 | a text whose outcome a final newline changes |
| Ndjson.TrimTakesSpaces | src/providers/ollama-cloud/stream.ts:14 | trimming takes the white space off both ends and nothing else |
| Ndjson.CarriageReturnIsTrimmed | src/providers/ollama-cloud/stream.ts:14 | a line may end with a carriage return, and a line of one is blank |
| Ndjson.LinesInOrder | src/providers/ollama-cloud/stream.ts:13-18 | lines that are not blank and parse give one event each, in order |
| Ndjson.BlankLineIsNothing | src/providers/ollama-cloud/stream.ts:16 | a blank line makes no difference wherever it stands |
| Ndjson.BadLineFails | src/providers/ollama-cloud/stream.ts:16 | the first line that is not blank and does not parse ends the events, and fails |
| Replay.StreamResponse | src/core/pipeline.ts:126-162 | one chunk for each event, field by field: the role on the first only, the usage if asked for and there, the tool-call finish reason if there are calls; the client's deltas concatenate to the content, and the response handed on is that of the last finishing event |
| Replay.ReplayIff | src/api/openai.ts:90-108 | accumulating a replay rebuilds the response exactly when it has a finish reason and no empty reasoning text |
| Replay.CacheMatchesClient | src/core/pipeline.ts:134-153 | the cached response is what was sent up to its last finishing event, with that event's reason and usage and the calls so far; the content is all of it exactly when nothing follows, and so when that event is the last |
| Replay.CallsJoin | src/core/pipeline.ts:134-141 | the tool calls of joined streams are their calls joined, and there are some exactly if either has any |
| Replay.FinishReasonsAgreeIff | src/api/openai.ts:56-88 | of any response: exactly when a replayed stream ends with the unstreamed finish reason |
| Replay.EligibleIff | src/core/pipeline.ts:174-180 | a response may be stored exactly if it ends for an unstreamed client by stopping or at its length, and is not too long |
| Replay.StorableReplays | src/core/pipeline.ts:174-180 | every response that may be stored replays to its content, reasoning and finish reason, and is rebuilt unless it has an empty reasoning text |
| Replay.StreamedReplays | src/core/pipeline.ts:142-153 | what a stream hands to the cache is what its replay rebuilds |
| Breaker.CircuitBreaker.AssertAvailable | src/limits/circuit-breaker.ts:12-25 | a call is admitted exactly when the breaker is closed or has cooled down |
| Breaker.CircuitBreaker.ReportFailure | src/limits/circuit-breaker.ts:32-35 | a failure is counted in the breaker's history |
| Breaker.OpenIff | src/limits/circuit-breaker.ts:12-35 | over any interleaving the breaker is open exactly when the threshold of failures has occurred since the last success or cool-down, as of the latest |
| Breaker.NoEarlyAdmission | src/limits/circuit-breaker.ts:12-25 | no call is admitted within the open duration of a failure that left it open unless a success came between |
| Retry.Request | src/providers/ollama-cloud/adapter.ts:70-132 | at most attempts plus one fetches, decided by the one fetch that is the first unretryable or the last, exactly one of success, failure or nothing reported, the delays before it slept and no more, within both backoff bounds, and no way past the loop |
| Retry.DecidingFetch | src/providers/ollama-cloud/adapter.ts:33-37 | the fetch that decides: all before it failed to connect or with 429, 502, 503 or 504, it did not or was the last allowed, and it makes the request's end and the breaker's report |
| Retry.DelayDoubles | src/providers/ollama-cloud/adapter.ts:124-128 | the backoff starts at its base and doubles up to its maximum |
| Lease.GenerationChangesIff | src/dns/state.ts:179-212 | the generation changes exactly when the instance or the set of addresses does, short of a collision of hashes |
| Lease.RefusedIff | src/dns/state.ts:179-196 | a resolver is refused exactly without an instance, without addresses, or with one, the host's included, that is no IP literal |
| Lease.CollisionIsTheHash | src/dns/state.ts:179-212 | address lists collide only where the hash maps two different texts to one |
| Lease.LawfulExists | src/dns/state.ts:179-212 | what is asked of hash, string order and address test can be had |
| Lease.MatchesIff | dns/cmd/supervisor/main.go:74-80 | a supervisor accepts a generation exactly when it was built for it, or is its own name |
| Lease.DotFreeMatchesOwnOnly | dns/cmd/supervisor/main.go:74-80 | a dot-free instance accepts all its own generations and no other's |
| Lease.HoldsBest | dns/cmd/supervisor/main.go:60-72 | after any offers the supervisor holds the one earliest acceptable offer of highest sequence |
| Lease.HeldSequenceGrows | dns/cmd/supervisor/main.go:65-70 | the held sequence never decreases |
| Lease.BothHoldTheSame | src/dns/supervisor.ts:62-70 | the Go and the TypeScript supervisor hold the same lease when all offers carry the exact generation |
| Lease.RenewalWorksIff | dns/cmd/supervisor/main.go:60-72 | exactly when a valid renewal leaves a supervisor active |
| Lease.AddressChangeStarves | src/dns/reconciler.ts:417-425 | two leases across an address change after which a supervisor holds an ended one |
| DnsState.DnsStateStore.UpdateResolver | src/dns/state.ts:475-497 | recording a resolver keeps the lease exactly when the generation is unchanged |
| DnsState.DnsStateStore.ReplaceLease | src/dns/state.ts:499-508 | exactly when a lease is replaced, with what, and that the stored sequence never falls |
| DnsState.DnsStateStore.Commit | src/dns/state.ts:510-524 | generation and lease are written together or not at all |
| DnsState.FreshPersists | src/dns/state.ts:510-524 | a resolver that is not refused can always be persisted, with any complete lease for it |
| Bundle.AtomicActivation | src/dns/reconciler.ts:89-107 | at every step of any number of publishes, `current` names a bundle with the whole zone and lease of one publish |
| Bundle.ActivatedNeverDeleted | src/dns/reconciler.ts:103-106 | an activated bundle is never changed or deleted |
| Bundle.LeftoverBlocks | src/dns/reconciler.ts:100-102 | a leftover link stays and is never renamed into place, so nothing takes effect any more |
| Bundle.Directory.Publish | src/dns/reconciler.ts:89-107 | one publish takes effect exactly when no operation fails and no link was left, and otherwise resolvers see what they saw |
| Publisher.SequencesStayClose | src/dns/reconciler.ts:416-461 | in every reachable state the bundle's sequence is the committed one or one more, the supervisor's is no higher, and repeats are no more than crashes after publishing |
| Publisher.FreshPublishIsTaken | dns/cmd/supervisor/main.go:60-72 | a publish with no crash pending is one above the committed lease, lasts the whole duration from then on and is strictly newer than what is held, and a poll before its end takes it |
| Publisher.CrashCostsOneRepeat | src/dns/reconciler.ts:460-461 | after a crash before committing, one publish repeats the sequence, and then nothing is pending |
| Publisher.MoveStarves | src/dns/reconciler.ts:416-425 | after an address change, in any run without a restart, the supervisor keeps its lease until as many new ones are committed as its sequence says |
| Publisher.MoveCatchesUp | dns/cmd/supervisor/main.go:60-72 | that many are enough: it takes the next publish and is active |
| Publisher.RestartTakesFirst | dns/cmd/supervisor/main.go:60-72 | a restarted supervisor takes the first lease of the new generation |
| Supervisor.Process.Accept | dns/cmd/supervisor/main.go:60-72 | accepting refines the acceptance function |
| Supervisor.Process.Reconcile | dns/cmd/supervisor/main.go:97-132 | one check takes an acceptable lease and leaves CoreDNS running only under a valid one |
| Supervisor.RunsExactly | dns/cmd/supervisor/main.go:97-132 | after any checks CoreDNS runs exactly if the held lease is valid at the last one and it was started there or had not exited since the one before |
| Supervisor.NextCheckInTime | dns/cmd/supervisor/main.go:145-160 | the next check comes after a second or at the lease's end, by that end if scheduling reads the same instant, and within a second and the gap if not |
| Supervisor.FailsClosed | dns/cmd/supervisor/main.go:97-173 | in every run, between any check and the next, CoreDNS runs only before the held lease's end plus the oversleep, and with a reading gap a second and the gap more |
| Supervisor.LoopComesBack | dns/cmd/supervisor/main.go:162-173 | checks keep coming, within a second of scheduling and the oversleep, and CoreDNS outlives no check at which its lease is over |
| Zone.RenderDnsRecords | src/dns/supervisor.ts:14-50 | text is rendered exactly for valid record sets, and each refusal names the first thing wrong |
| Zone.UnderIff | src/dns/supervisor.ts:5 | a name is in the zone exactly if it is labels, each followed by a dot, and then the zone |
| Zone.LabelIff | src/dns/supervisor.ts:5 | a label has one to 63 small letters, digits and hyphens, with no hyphen at either end |
| Zone.OctetIff | src/dns/supervisor.ts:25 | the parts of an address are exactly the numbers to 255, without leading zeros |
| Zone.QuadIsAddress | src/dns/supervisor.ts:25 | any four of them with dots between make an address |
| Zone.AddressIsQuad | src/dns/supervisor.ts:25 | and nothing else does |
| Zone.ReadRendered | src/dns/supervisor.ts:37-49 | reading the zone by section 5.1 of RFC 1035 gives back exactly the records, origin, TTL, authority and a name server with an address |
| Zone.TextDetectsChange | src/dns/reconciler.ts:427-435 | two renderings differ exactly when the record sets or the TTLs do, however the records are listed |
| Reconciler.ManagedCarries | src/dns/reconciler.ts:182-237 | a managed container ends up carrying the resolver's generation, is left alone if it does, and no other is touched; without a fault it always gets there |
| Reconciler.CarryingMeans | src/dns/reconciler.ts:182-237 | what carrying means, label by label, and what a container is run with |
| Reconciler.StackReconciler.RunManaged | src/dns/reconciler.ts:182-237 | managing a container as it runs refines its specification |
| Reconciler.ReconcileAllOrNothing | src/dns/reconciler.ts:324-470 | a reconcile that throws before publishing changes nothing resolvers see; otherwise records are faithful to the containers, and if it returns the state says what was published, for which resolver and when |
| Reconciler.StackReconciler.Reconcile | src/dns/reconciler.ts:324-470 | reconciling as it runs refines its specification |
| Reconciler.FaithfulRecords | src/dns/reconciler.ts:372-414 | the records are distinct and exactly the resolver, every service there, identified and healthy, and a bootstrap placeholder; there are none exactly when something needed is missing or amiss |
| Reconciler.CurrentIsOwn | src/dns/reconciler.ts:199-204 | the generation put on containers is the one that is persisted |
| Convergence.PublishedLease | src/dns/reconciler.ts:416-425 | a published lease is for the resolver's own generation, one above the lease persisted for it, and lasts the stack's lease time from the reconcile on |
| Convergence.PublishesNext | src/dns/reconciler.ts:416-461 | it is what the publish protocol's publisher puts out next, so what holds of the protocol holds of reconciles |
| Convergence.PublishedLeaseIsTaken | src/dns/reconciler.ts:416-425 | a supervisor of the resolver's instance that holds nothing or a lower sequence takes it at any instant before it ends |
| Convergence.BootstrapPublishesIff | src/dns/reconciler.ts:324-470 | with the generation unchanged, a bootstrap reconcile publishes exactly when everything there is genuine, down to labels and ports, the required services are healthy, the records can be rendered and publishing does not fail |
| Convergence.ReturnsIff | src/dns/reconciler.ts:442-470 | a reconcile that publishes returns exactly when neither committing nor reporting fails |
| Convergence.FullReconcileIff | src/dns/reconciler.ts:303-360 | a full reconcile that publishes leaves the stack converged exactly when it was or the generation changed, and publishes the resolver's own generation |
| Convergence.EveryChangeIsRepaired | src/dns/reconciler.ts:348-360 | through any changes of resolver and any attempts, a full reconcile that returns converges the stack, as long as the resolver never came to the generation persisted at the time |
| Convergence.FullReconcileNeedsAnswers | src/dns/reconciler.ts:398-414 | a full reconcile publishes only with the gateway asking the resolver, which already answers with every required service's address, and so no new one |
| Convergence.FullPublishesIff | src/dns/reconciler.ts:395-414 | where a bootstrap reconcile would publish, the gateway connects and the generation is unchanged, a full one publishes exactly when the resolver already answers for every required service |
| Convergence.StaleForEver | src/dns/reconciler.ts:398-414 | once a required service has an address that is not published, any number of full reconciles of this generation changes nothing while the resolver answers only what is published |
| Convergence.BootstrapPublishesPresent | src/dns/reconciler.ts:372-396 | a bootstrap reconcile that publishes leaves no required service at an unpublished address |
| Setbacks.ComesBack | src/dns/reconciler.ts:348-360 | a run in which an attempt moves the storage on, the resolver comes back, and a returning reconcile leaves the storage on the other generation |
| Setbacks.StopsHalfWay | src/dns/reconciler.ts:287-300 | a run in which an `up` runs another resolver and stops at the gateway, and a returning reconcile leaves the gateway on the old generation |
| Setbacks.StorageMoves | src/dns/reconciler.ts:398-414 | a run in which the storage gets another address, a full reconcile throws and an `up` publishes it |
| Reconciler.StartsOnLoopback | src/dns/reconciler.ts:243-280 | a new resolver is there only with a bundle that reads as loopback addresses and a lease its supervisor takes at once, of sequence 0, which any reconcile's lease is above; no other container is touched |
| Convergence.UpSettles | src/dns/reconciler.ts:239-301 | a completed `up` leaves the stack settled, and an `up` on a settled stack runs and removes nothing |
| Convergence.UpPublishes | src/dns/reconciler.ts:239-301 | what a completed `up` leaves published is faithful to the containers it leaves, without a placeholder, persisted, and lasts the lease time from its last reconcile |
| Convergence.UpCompletesIff | src/dns/reconciler.ts:239-301 | on a settled stack with the generation unchanged, an `up` completes exactly when no operation fails, everything there is genuine and healthy, the records can be rendered, and the gateway resolves and reaches every required service |
| Convergence.GatewayStaysIff | src/dns/reconciler.ts:287-294 | the gateway is kept exactly if it runs and is not labelled with another description; otherwise it is gone before the bootstrap reconcile |
| Reconciler.StackReconciler.Up | src/dns/reconciler.ts:239-301 | bringing up as it runs refines its specification |

## Left out

- HTTP routing, authentication, schema checks, configuration loading, logging, metrics and telemetry: plumbing or single-branch facts.
- Store failures in the window tracker (fail open or closed): one branch each.
- Windows in other time zones and zero-length calendar windows, whose bounds the source cannot compute.
- Number texts: a JSON number is the token it prints as, and the store's re-encoding of counters is exact.
- Objects with undefined members, which requests parsed from JSON do not have.
- Unicode normalisation tables, UTF-8 decoding, and what JSON.parse accepts: parameters.
- How a tool call is rewritten for the client (src/api/openai.ts:9-25): calls are carried as they are.
- Cache entries, the namespace index and semantic search; context-window checks, pricing and request mapping.
- A stream whose provider never ends: it settles when it ends.
- Reading `current` twice: a resolver may read the zone before and the lease after an activation.
- Two publishers reconciling at once: the publish protocol has one, while bundle activation has any number.
- Published ports are compared as a multiset, not by the source's sort and text.
- A runtime that fails to describe a container: it ends a reconcile where a failed check would.
- CoreDNS itself: what it answers is a parameter, and in the runs shown what is published.
- Client configuration and status files written after a commit: only that they may fail.
- Owner, mode and symlink checks on the state directory.
