# MoonMind: a verified model of its stateful cores

This project models nine pieces of MoonMind whose correctness depends on state, order or
interleaving, and proves what each of them promises. One module stands for one piece:

| module | models |
|---|---|
| `RetrievalTables`, `RetrievalRuns`, `RetrievalRegistry`, `RetrievalBegin` | the retrieval capability registry: the durable tables with one atomic step per call, runs of steps from any number of registries, the registry class with its cached projections, and what its steps mean for a caller |
| `DeliveryFolding` | folding delivery acknowledgements into the requests they belong to, and the aggregate of a bridge session |
| `ManifestWalk` | the import walk over the Vite manifest, the usability checks and the stylesheet collection |
| `ResolverModels`, `ResolverClassify`, `ResolverTransition`, `ResolverNormalize` | the pull-request resolver: normalise, classify, and a reducer with budgets |
| `ContainerLogs`, `ContainerSubmit` | paging of container logs and artifacts with the client that reads the tail; idempotent job submission as a concurrent protocol |
| `MoonSpecSync` | the writer that vendors the MoonSpec projection into a file tree, and its drift checker |
| `ProjectionSync` | refreshing the projection row and the canonical row of a workflow execution |
| `ErrorClusters`, `DocSlices`, `WorkflowNames` | clustering of log errors, slicing of the documentation index, single-quoted workflow names |

`Outcomes` and `PyText` hold what they share: result types, and the Python string operations
(`strip`, `int`, `str`, string order, zero padding).

Code that changes things in place is a class or a method with loops, proved against a pure
function of the old state; the theorems are about that function. Clock readings, fresh
identifiers and the outcomes of external calls are parameters. Hashing, JSON, glob matching and
case mapping are function parameters, so every theorem holds for any such function.

Some promises do not hold of the code as it is. Each has a failing input and the exact condition
under which it does hold:

- A MoonSpec plan satisfies its own checker after a write if and only if it is coherent: files
  planned for one target agree, and no `unexpectedLegacy` pattern matches a target
  (`MoonSpecSync.WriteSatisfiesChecker`; `TwoFilesForOneTarget` is a plan that is written and then
  drifts). The pattern loop never consults the planned targets.
- Without a canonical record a sync replaces the projection's memo: a key survives if and only if
  the description had no metadata or supplies that key
  (`ProjectionSync.WithoutCanonicalKeysAreLost`; `KeyIsDropped`).
- A registry that has cached a capability decides every call for its token like one without a
  cache if and only if its projection agrees with the row on being revoked, whoever else writes
  (`RetrievalRegistry.Registry.DecidesLikeUncachedExactly`; `StaleProjectionAdmits` is a token that
  one registry admits after another revoked it).
- The coverage gate passes if and only if every claim shares its identifier with a claim of a
  listed document or with an issued coverage number (`DocSlices.GateExact`;
  `UnlistedClaimFailsGate`).
- A terminal job is not kept by everything that is under way. A start call that raises after its
  workflow succeeded turns the job into a failed start, which the next replay requeues
  (`ContainerSubmit.RaisedStartLosesOutcome`); a cancellation that read the job while it ran marks
  it as being cancelled after it succeeded (`StaleCancelOverwrites`). A submission that found the
  terminal record does keep it (`ReplayOfTerminalPreserves`), a terminal record changes exactly
  under an observation or the steps that `TerminalJobChangesExactly` names, and it can come to be
  overwritten without being observed if and only if some submission or cancellation under way
  threatens it (`TerminalJobAtRiskExactly`). Throughout, a failed Temporal start counts as
  recoverable and is requeued by design.
- A revoked capability is still admitted by `begin` for a caller that holds it: no revocation changes
  the outcome of any later `begin` (`RetrievalRuns.RevocationChangesNoOutcome`;
  `AdmittedAfterRevocation`).

## Model

| member | source | states |
|---|---|---|
| RetrievalTables.ChargeWindow | api_service/retrieval_capabilities.py:352-359 | charging one request to a rate window adds one to that capability's total and leaves every other total alone |
| RetrievalTables.ReserveSlot | api_service/retrieval_capabilities.py:288-351 | a reservation takes exactly one slot of its own capability, and the purge before it frees no slot of another |
| RetrievalTables.StepKeepsInvariant | api_service/retrieval_capabilities.py:181-543 | every step of every registry keeps query, rate and concurrency budgets, and keeps `query_count` equal to the sum of the rate windows |
| RetrievalTables.ReachableWithinBudget | api_service/retrieval_capabilities.py:277-392 | in every state reachable by interleaved steps, at any clock readings, every capability is within its three budgets |
| Outcomes.PosBounds | api_service/retrieval_capabilities.py:316-335 | keeping within the effective size of a budget is keeping within the budget, or at zero |
| RetrievalRuns.StepKeepsReservation | api_service/retrieval_capabilities.py:277-392 | only an abort of the call or a committed begin past its lease end takes a reservation away |
| RetrievalRuns.ReservationPersists | api_service/retrieval_capabilities.py:277-392 | until it is released, an admitted call stays reserved under its own lease or becomes completed |
| RetrievalRuns.HeldIsNotAdmitted | api_service/retrieval_capabilities.py:288-309 | a held call is not admitted by a begin that reads the clock before the lease ends |
| RetrievalRuns.AdmittedOnce | api_service/retrieval_capabilities.py:277-392 | between two admissions of one tool call there is an abort of it or a begin whose clock reached its lease end |
| RetrievalRuns.CompletedStep | api_service/retrieval_capabilities.py:362-898 | only finish and acknowledge_delivery of the call itself change its stored response, and how |
| RetrievalRuns.CompletedIsPublished | api_service/retrieval_capabilities.py:362-381 | a row is completed exactly when a response was published, and holds that response |
| RetrievalRuns.PublishedStays | api_service/retrieval_capabilities.py:362-392 | a published response is never withdrawn, by abort, purge or revocation |
| RetrievalRuns.FinishedNeverReadmitted | api_service/retrieval_capabilities.py:300-305 | after finish every later begin of the call replays the published response and touches no budget |
| RetrievalRuns.OnlyPublishersChangeResponse | api_service/retrieval_capabilities.py:871-898 | only finish and acknowledge_delivery of the call itself change its published response |
| RetrievalRuns.CountersStep | api_service/retrieval_capabilities.py:336-359 | a step moves a capability's counters by one if it admits a call of it, and not otherwise |
| RetrievalRuns.CountersAreHistory | api_service/retrieval_capabilities.py:336-359 | `query_count` and each window count are exactly the admissions of the history, so aborts refund nothing |
| RetrievalRuns.IntervalMeetsWindows | api_service/retrieval_capabilities.py:310-310 | an interval of 60*k seconds meets at most k + 1 of the fixed windows |
| RetrievalRuns.IntervalWithinWindows | api_service/retrieval_capabilities.py:308-359 | the admissions of a sliding interval are among those of the windows it meets |
| RetrievalRuns.HistoryWithinBudget | api_service/retrieval_capabilities.py:308-359 | over the whole run no window and no total of admissions exceeds the budget |
| RetrievalRuns.SlidingIntervalBounded | api_service/retrieval_capabilities.py:308-359 | at most (k + 1) * max_requests_per_minute admissions in any 60*k seconds and at most max_queries ever, even when the clock steps back |
| RetrievalRuns.RowsPersist | api_service/retrieval_capabilities.py:181-543 | no step deletes a capability, changes its budget or expiry, lowers its count or undoes its revocation |
| RetrievalRuns.RevokeScopeExact | api_service/retrieval_capabilities.py:508-543 | a scope revocation revokes exactly the unrevoked capabilities with that four-part scope |
| RetrievalRuns.ScopeStaysRevoked | api_service/retrieval_capabilities.py:508-543 | the scope has no unrevoked capability until one is issued for it |
| RetrievalRuns.NoLiveCapabilityAfterRevocation | api_service/retrieval_capabilities.py:456-543 | after a scope revocation no live capability of the scope is found at any clock until a new issue |
| RetrievalRuns.RevocationDecidesNoBegin | api_service/retrieval_capabilities.py:277-360 | `begin` decides alike on tables that differ only in who is revoked |
| RetrievalRuns.RevocationStaysInvisible | api_service/retrieval_capabilities.py:181-543 | every step keeps two such tables alike |
| RetrievalRuns.RunsDifferInRevocation | api_service/retrieval_capabilities.py:418-427 | a revocation put anywhere into a run changes nothing that follows but who is revoked |
| RetrievalRuns.RevocationChangesNoOutcome | api_service/retrieval_capabilities.py:277-427 | no revocation changes the outcome of any later `begin` |
| RetrievalRuns.AdmittedAfterRevocation | api_service/retrieval_capabilities.py:277-427 | a reachable run that admits a tool call after its capability was revoked |
| RetrievalRegistry.ProjectionDecidesLikeRow | api_service/retrieval_capabilities.py:236-259 | two records of one capability give every caller the same verdict if and only if both agree on being revoked |
| RetrievalRegistry.Registry.Issue | api_service/retrieval_capabilities.py:181-209 | one fresh row that lives for the bounded lifetime, unrevoked and unused, cached under its id and digest; the cache stays coherent |
| RetrievalRegistry.Registry.Lookup | api_service/retrieval_capabilities.py:221-233 | the cached projection of a digest, or one hydrated from the row the digest names, or nothing when no row has it |
| RetrievalRegistry.Registry.Resolve | api_service/retrieval_capabilities.py:211-259 | whoever else writes, a cached token is decided by the projection as it stands and any other token by its row; only an unrevoked, unexpired record of the caller's own host, session and run is admitted |
| RetrievalRegistry.Registry.DecidesLikeUncachedExactly | api_service/retrieval_capabilities.py:211-259 | `resolve` decides every call for a token as without a cache if and only if it has no projection of it or one that agrees with the row on being revoked |
| RetrievalRegistry.Registry.CoherentDecidesLikeUncached | api_service/retrieval_capabilities.py:211-259 | a registry that is the only writer decides exactly as a lookup without a cache would |
| RetrievalRegistry.StaleProjectionAdmits | api_service/retrieval_capabilities.py:211-259 | two registries on one database: the first admits a token whose capability the second revoked |
| RetrievalRegistry.Registry.Begin | api_service/retrieval_capabilities.py:277-360 | outcome and new tables are those of one atomic step: a denial keeps nothing of the purge, and an admission updates the object it was handed |
| RetrievalRegistry.Registry.Reserve | api_service/retrieval_capabilities.py:336-359 | the writes of an admission are those of the atomic step, and the handed object gets the new count |
| RetrievalRegistry.Registry.Finish | api_service/retrieval_capabilities.py:362-381 | upserts the completed row whether or not the reservation is still there |
| RetrievalRegistry.Registry.Abort | api_service/retrieval_capabilities.py:383-392 | removes exactly an in-progress reservation of the call |
| RetrievalRegistry.Registry.Get | api_service/retrieval_capabilities.py:545-559 | finds exactly the stored capabilities, keeps a cached object, and hydrates a missing one from its row |
| RetrievalRegistry.Registry.Revoke | api_service/retrieval_capabilities.py:418-427 | stamps the row and the cached object, for known identifiers only |
| RetrievalRegistry.RevokedSoFarStep | api_service/retrieval_capabilities.py:528-543 | one turn of the revocation loop revokes one matching row |
| RetrievalRegistry.RevokedSoFarEnd | api_service/retrieval_capabilities.py:528-543 | after all turns the tables are those of the whole scope revocation |
| RetrievalRegistry.Registry.RevokeScope | api_service/retrieval_capabilities.py:508-543 | refuses an incomplete scope without effect, otherwise revokes and returns each matching capability once |
| RetrievalRegistry.Registry.LiveScopeCapability | api_service/retrieval_capabilities.py:456-484 | returns an earliest-issued live capability of the scope, and nothing exactly when there is none |
| RetrievalRegistry.Registry.Acknowledge | api_service/retrieval_capabilities.py:871-898 | writes the delivery state into the response of a completed call, in the row and in the cached object, and hands that response back |
| RetrievalRegistry.Registry.GetStatus | api_service/retrieval_capabilities.py:561-611 | state and count of the projection it reads, the number of unexpired reservations and the current window's count, which never exceed the budgets |
| RetrievalRegistry.OtherRegistriesKeepLinks | api_service/retrieval_capabilities.py:101-113 | steps of other registries on the same database never break what a cache relies on |
| RetrievalBegin.WindowMeaning | api_service/retrieval_capabilities.py:310-310 | a clock reading lies in the minute that starts at a multiple of sixty seconds at or before it |
| RetrievalBegin.BeginOutcomeExactly | api_service/retrieval_capabilities.py:288-335 | what `begin` answers for any row, reservations and windows, in the order of its checks: replay, duplicate, rate, total, concurrency, admission; an expired reservation counts nowhere |
| RetrievalBegin.AdmittedWhenRoom | api_service/retrieval_capabilities.py:288-335 | with room in every budget a call is admitted, however many expired reservations are left |
| RetrievalBegin.StatusCountsWhatBeginCounts | api_service/retrieval_capabilities.py:561-585 | `status` reports the very reservations that a `begin` at the same time counts against the budget, and one more after an admission |
| RetrievalBegin.OtherRequestsAfterBegin | api_service/retrieval_capabilities.py:288-360 | a denial changes nothing; otherwise exactly the capability's own expired reservations go and every other call keeps its row |
| RetrievalBegin.AdmissionStoresLease | api_service/retrieval_capabilities.py:175-180 | an admission stores a lease of whole seconds, at least the latency budget and thirty seconds and less than one second more |
| RetrievalBegin.LeaseEndIsLate | api_service/retrieval_capabilities.py:341-351 | the lease end that a run remembers is at least the latency budget and thirty seconds after its admission |
| RetrievalBegin.NotReadmittedWithinLatency | api_service/retrieval_capabilities.py:277-392 | without an abort no call is admitted again within its latency budget and thirty seconds, as long as the capability's committed calls in between read the clock before then |
| RetrievalBegin.IssueStores | api_service/retrieval_capabilities.py:181-209 | an issued capability starts unrevoked and unused and ends its lifetime after its issue |
| RetrievalBegin.AbortReleases | api_service/retrieval_capabilities.py:383-392 | an abort deletes an in-progress row of its own call and nothing else |
| RetrievalBegin.RevokeStamps | api_service/retrieval_capabilities.py:418-427 | a revocation stamps its own row and no other |
| RetrievalBegin.AcknowledgeWrites | api_service/retrieval_capabilities.py:871-898 | an acknowledged response gets its delivery state and keeps every other field |
| RetrievalBegin.LifecycleExactly | api_service/retrieval_capabilities.py:561-570 | revoked, active and expired in terms of the row; active is the same as live in its own scope |
| RetrievalBegin.VerdictExactly | api_service/retrieval_capabilities.py:236-259 | a token is admitted if and only if its row is unrevoked, unexpired and of the caller's host, session and run; otherwise which refusal it gets |
| RetrievalBegin.MissingExactly | api_service/retrieval_capabilities.py:430-454 | the fields an incomplete scope is refused for are exactly its blank ones |
| RetrievalBegin.MissingInOrder | api_service/retrieval_capabilities.py:438-448 | and they are named in the order run, host, session, step |
| DeliveryFolding.MergeDelivery | api_service/retrieval_capabilities.py:626-658 | the output is the input without the folded acknowledgements, and each record ends with the folded delivery |
| DeliveryFolding.SurvivingIndices | api_service/retrieval_capabilities.py:636-658 | exactly the records that do not fold survive, each once, in order |
| DeliveryFolding.SurvivorsAt | api_service/retrieval_capabilities.py:636-658 | the survivors are the very records at the surviving positions |
| DeliveryFolding.HasBaseWitness | api_service/retrieval_capabilities.py:613-648 | a record folds only if an earlier base has the same non-null key |
| DeliveryFolding.TargetFound | api_service/retrieval_capabilities.py:643-648 | an acknowledgement folds exactly when the running dict of bases has its key |
| DeliveryFolding.TargetIsClosestBase | api_service/retrieval_capabilities.py:643-658 | it feeds the last earlier base of its key and no other |
| DeliveryFolding.LastFeedWins | api_service/retrieval_capabilities.py:643-658 | a base ends with the last mapping-valued delivery that feeds it, or keeps its own |
| DeliveryFolding.KeyPrecedence | api_service/retrieval_capabilities.py:613-624 | the delivery's tool call id comes before the two spellings in the correlation, and an empty id counts as none |
| DeliveryFolding.FoldsExactly | api_service/retrieval_capabilities.py:636-658 | a record folds if and only if it is an acknowledgement with a key that an earlier other record shares |
| DeliveryFolding.LoadAndMerge | api_service/retrieval_capabilities.py:660-715 | decoding and folding the rows of a capability gives exactly its logical requests |
| DeliveryFolding.ClassesAreDisjoint | api_service/retrieval_capabilities.py:716-777 | no request is counted in two outcome classes or in two delivery classes |
| DeliveryFolding.MaxLatencyIsMaximum | api_service/retrieval_capabilities.py:752-756 | the reported latency is the largest of the requests' latencies, and never below zero |
| DeliveryFolding.CountTelemetry | api_service/retrieval_capabilities.py:743-756 | truncation, fallback, budget, timeout, byte and latency counters of one more request |
| DeliveryFolding.CountRequest | api_service/retrieval_capabilities.py:731-770 | one more request enters every counter of its classes, a timeout both for the call and for its delivery |
| DeliveryFolding.CountRequests | api_service/retrieval_capabilities.py:731-770 | the counting loop tallies each request of each class exactly once |
| DeliveryFolding.Summarize | api_service/retrieval_capabilities.py:660-777 | every counter of the aggregate is the number of its class; active + expired + revoked, as `status` derives them, equals the number of capabilities, and succeeded + denied + failed is at most the request count |
| DeliveryFolding.ClassificationsExactly | api_service/retrieval_capabilities.py:703-719 | which classifications count as an exhausted budget and which as a timeout |
| DeliveryFolding.TruncateMeaning | api_service/retrieval_capabilities.py:752-756 | latencies are truncated toward zero |
| ManifestWalk.Walk | api_service/ui_assets.py:210-240 | the recursive walk with its shared `seen` set terminates on cyclic manifests and lists what it newly saw in post-order |
| ManifestWalk.WalkedThenImport | api_service/ui_assets.py:232-237 | the walk of an import continues the walk of the importing key |
| ManifestWalk.WalkedThenSelf | api_service/ui_assets.py:239-240 | the key itself comes last, after all its imports are seen |
| ManifestWalk.ClosedHoldsPath | api_service/ui_assets.py:210-240 | a set closed under imports holds everything reachable from its members |
| ManifestWalk.WholeWalk | api_service/ui_assets.py:210-240 | a whole walk lists exactly the reachable keys, once each, entry last, imports before importers that they cannot reach |
| ManifestWalk.WalkManifestImports | api_service/ui_assets.py:210-240 | the walk raises if and only if something reachable is missing or malformed, and otherwise gives the import order |
| ManifestWalk.VerifyAssetPaths | api_service/ui_assets.py:186-208 | passes exactly when the file, its stylesheets and its assets are all on disk |
| ManifestWalk.WalkAndVerify | api_service/ui_assets.py:322-332 | the walk-and-verify loop passes exactly when the whole closure is well formed and on disk |
| ManifestWalk.EntryIsUsable | api_service/ui_assets.py:109-123 | an entrypoint is usable exactly when its closure is |
| ManifestWalk.ItemIsUsable | api_service/ui_assets.py:140-152 | the checks of one manifest item, with every early exit |
| ManifestWalk.ItemChecksSuffice | api_service/ui_assets.py:140-157 | once the item loop has passed, the walk and verification from a key succeed exactly when the key is present |
| ManifestWalk.ManifestTreeIsUsable | api_service/ui_assets.py:137-157 | every item passes its checks and the closure of `entrypoints/<name>.tsx` is usable, decided by the item checks and the presence of the entry key |
| ManifestWalk.FirstOccurrencesOrder | api_service/ui_assets.py:242-262 | deduplication keeps each element once, in order of first occurrence |
| ManifestWalk.AppendNewCss | api_service/ui_assets.py:248-260 | one item's stylesheets are appended unless already found, and a non-text path raises |
| ManifestWalk.CollectCssFiles | api_service/ui_assets.py:242-262 | raises exactly on a broken closure or an uncollectable item; otherwise a stylesheet is listed if and only if the `css` of some reachable entry names it, once, where it first occurs |
| ManifestWalk.EntryStylesheets | api_service/ui_assets.py:322-332 | after walk and verification the collection cannot raise; a stylesheet is listed if and only if a reachable entry names it, in import order, each once where it first occurs, and all are on disk |
| ManifestWalk.AllCssPresent | api_service/ui_assets.py:186-262 | every stylesheet of a verified closure is on disk |
| ManifestWalk.NamedByEntry | api_service/ui_assets.py:242-262 | the collected sheets of a walk are those that the `css` list of some walked entry holds |
| ManifestWalk.CssListedExactly | api_service/ui_assets.py:242-262 | over a whole walk a sheet is listed if and only if some reachable entry names it |
| ManifestWalk.FirstOccurrencesKeepOrder | api_service/ui_assets.py:242-262 | sheets keep the order in which they first come, whatever came before and comes after |
| ManifestWalk.SheetsKeepEntryOrder | api_service/ui_assets.py:242-262 | two sheets of one entry are listed in the order of its `css` list, if no earlier entry named the later of them |
| ResolverModels.UpsertSorted | pr_resolver_core/transition.py:66-73 | updating the counts keeps them strictly sorted by skill |
| ResolverModels.UpsertLookup | pr_resolver_core/models.py:69-70 | setting one skill's count changes the lookup of that skill only |
| ResolverModels.SortedItemsCorrect | pr_resolver_core/transition.py:66-73 | sorting the pairs of a dict keeps every lookup and orders the keys strictly |
| ResolverClassify.RemediationNamesSkill | pr_resolver_core/classify.py:15-106 | a decision names a skill exactly when it runs one, and only one of the three known skills |
| ResolverClassify.RemediationExactly | pr_resolver_core/classify.py:8-88 | conflicts, comments and failed checks each have their own skill, and each is run if and only if the snapshot calls for it and nothing before it is in the way |
| ResolverClassify.OtherActionsExactly | pr_resolver_core/classify.py:31-106 | when the resolver publishes, merges, waits or hands over, in terms of the snapshot; with the remediations these are all cases |
| ResolverClassify.TerminalExactly | pr_resolver_core/classify.py:31-45 | a decision is terminal exactly for a merged or closed pull request |
| ResolverClassify.ReasonExactly | pr_resolver_core/classify.py:31-106 | the reason names the first obstacle |
| ResolverTransition.RemediationCounts | pr_resolver_core/transition.py:28-82 | a remediation raises the count of its own skill by one, within the limit, and reports prior runs + 1 as its attempt |
| ResolverTransition.ReducerRemediatesExactly | pr_resolver_core/transition.py:46-82 | each skill is run and reported if and only if the snapshot calls for it, it has runs left and the blocker has not come back too often |
| ResolverTransition.ReducerStopsExactly | pr_resolver_core/transition.py:28-60 | a merge or remediation becomes a hand-over exactly when its budget is used up, with the reason of that budget and the state unchanged |
| ResolverTransition.MeasureStep | pr_resolver_core/transition.py:28-82 | remaining attempts plus remaining remediations drop by exactly one on a merge attempt or remediation; any other result leaves the state unchanged |
| ResolverTransition.NothingLeft | pr_resolver_core/transition.py:28-60 | nothing is left exactly when the finalize attempts and the runs of all three skills are used up |
| ResolverTransition.RunIsBounded | pr_resolver_core/transition.py:16-82 | over any run, attempts and remediations made plus what remains equal the measure of the start |
| ResolverTransition.LastStep | pr_resolver_core/transition.py:16-82 | the three ways one more input changes a run, field by field |
| ResolverTransition.CountsAreHistory | pr_resolver_core/transition.py:16-82 | finalize attempts and counts are the start plus what the run did, and stay strictly sorted |
| ResolverTransition.BlockersAreHistory | pr_resolver_core/transition.py:46-73 | from the default state the blocker memory is a function of the remediations run |
| ResolverTransition.RemediationPrefix | pr_resolver_core/transition.py:16-82 | every stage of the list of remediations is the list of a shorter run |
| ResolverTransition.RepeatedBlockersBounded | pr_resolver_core/transition.py:46-73 | at most `max_identical_blockers_without_progress` consecutive remediations share one non-empty signature |
| ResolverTransition.AttemptNumbersCount | pr_resolver_core/transition.py:54-75 | `remediationAttempt` is one more than the prior runs of that skill and never above the limit |
| ResolverTransition.DefaultRunBound | pr_resolver_core/models.py:55-70 | with the default policy a run makes at most 60 merge attempts and 6 remediations, and attempts, remediations and what is left add up to 66 |
| ResolverTransition.FinalizeBounded | pr_resolver_core/transition.py:16-82 | with the default policy the finalize counter never exceeds 60 |
| ResolverNormalize.MergeNeedsRunningOnly | pr_resolver_core/normalize.py:19-122 | a Temporal snapshot that classifies as a merge attempt meets the raw merge condition |
| ResolverNormalize.RunningOnlyMerges | pr_resolver_core/normalize.py:19-122 | the raw merge condition leads through both stages to a merge attempt |
| ResolverNormalize.TemporalMergeExact | pr_resolver_core/classify.py:31-106 | a Temporal snapshot merges if and only if it is open, unmerged, not draft, ready or checked, and has only `checks_running` blockers with no summary asking for changes |
| ResolverNormalize.PortableMergeExact | pr_resolver_core/normalize.py:125-186 | the exact raw condition under which a portable snapshot merges |
| ResolverNormalize.TemporalConflictExact | pr_resolver_core/normalize.py:19-122 | a Temporal snapshot leads to conflict resolution if and only if the pull request can be worked on and a conflict blocks it |
| ResolverNormalize.TemporalSignals | pr_resolver_core/normalize.py:19-122 | which blockers and raw fields make a snapshot ask for comments, report failed checks, wait for a review or count as malformed |
| ResolverNormalize.TemporalFixesExactly | pr_resolver_core/normalize.py:19-122 | which Temporal snapshots have their comments, and which their checks, fixed, in terms of the raw facts, the kinds of the blockers and their summaries |
| ResolverNormalize.NoUnknownBlocker | pr_resolver_core/normalize.py:90-118 | a snapshot has no unknown blocker if and only if all its blockers are of the fifteen known kinds and none is an external state that cannot be retried |
| ResolverNormalize.PortableSignals | pr_resolver_core/normalize.py:125-186 | when a portable snapshot can be worked on, conflicts, can be trusted, asks for changes or reports failed checks, in terms of the raw facts |
| ResolverNormalize.PortableFixesExactly | pr_resolver_core/normalize.py:125-186 | which remediation a portable snapshot leads to, for each of the three skills, in terms of the raw facts |
| ResolverNormalize.BlockersExactly | pr_resolver_core/normalize.py:22-24 | the blockers are the mappings of a list in order; another value has none, and the two that cannot be iterated raise |
| ResolverNormalize.BlockerReads | pr_resolver_core/normalize.py:25-31 | a blocker's kind is its `kind` stripped in lower case, and it asks for changes exactly if its summary holds one of the two phrases |
| ResolverNormalize.TextExactly | pr_resolver_core/normalize.py:11-12 | the text of a falsy value is empty, of a string the string stripped, of anything else its rendering stripped |
| ResolverNormalize.FalsyExactly | pr_resolver_core/normalize.py:125-140 | the six falsy values, and what is no mapping counts as an empty one |
| ResolverNormalize.ReducerMergesExactly | pr_resolver_core/transition.py:28-45 | the reducer attempts a merge exactly under that condition and while finalize attempts remain |
| ContainerLogs.SplitJoin | api_service/services/container_jobs.py:358-360 | splitting a log into lines loses nothing |
| ContainerLogs.SplitLinesHaveNoNewline | api_service/services/container_jobs.py:358-360 | no line of a split log holds a newline |
| ContainerLogs.LogLinesExactly | api_service/services/container_jobs.py:358-360 | an empty log has no lines; otherwise the lines joined again are the log without its final newline, and none holds a newline |
| ContainerLogs.ClipMeaning | api_service/services/container_jobs.py:378-378 | a line is shown up to its first 8192 characters |
| ContainerLogs.StreamMeaning | api_service/services/container_jobs.py:366-370 | a line is labelled stderr exactly when a marker line stands at or before it |
| ContainerLogs.CursorRoundTrip | api_service/services/container_jobs.py:381-432 | a cursor the server hands out decodes to the offset it was made from |
| ContainerLogs.DecodeCursorExactly | api_service/services/container_jobs.py:422-432 | no cursor is the start; any other is the number it spells, and which error a bad one gives |
| ContainerLogs.FollowVisitsAll | api_service/services/container_jobs.py:358-383 | following `nextCursor` visits every item once, in order |
| ContainerLogs.SliceStep | api_service/services/container_jobs.py:368-380 | what the server's loop decides about one more line |
| ContainerLogs.LabelSlice | api_service/services/container_jobs.py:366-380 | the labelling loop gives the slice of one whole-log labelling |
| ContainerLogs.Logs | api_service/services/container_jobs.py:343-383 | one page is the slice at the decoded offset with the next offset as cursor; bad cursors are errors; no evidence gives an empty page |
| ContainerLogs.Artifacts | api_service/services/container_jobs.py:385-420 | one page of the collected outputs with a clamped page size; an unreadable manifest is an error, an unpublished one has no outputs |
| ContainerLogs.PageFacts | moonmind/container_job_cli.py:450-472 | one page extends what was read and its cursor points at the next unread line |
| ContainerLogs.LaterCursorIsNew | moonmind/container_job_cli.py:464-472 | the cursor of a later offset was never seen before |
| ContainerLogs.LastAppend | moonmind/container_job_cli.py:449-463 | a bounded deque keeps the last elements of everything appended |
| ContainerLogs.LastMeaning | moonmind/container_job_cli.py:449-449 | the tail is the end of what was read, at most `max_lines` long |
| ContainerLogs.MessageExactly | moonmind/container_job_cli.py:459-463 | a message is the stripped stream name and the text without its final newlines; an empty one is skipped |
| ContainerLogs.AppendMessages | moonmind/container_job_cli.py:455-463 | a page's non-empty messages are appended to the bounded tail |
| ContainerLogs.ReadLogTail | moonmind/container_job_cli.py:438-473 | on a fixed log the client never sees a repeated cursor and returns the last messages of the lines its pages can hold |
| ContainerSubmit.JobService.Submit | api_service/services/container_jobs.py:236-315 | the row, the reply and the error of a submission for every admission outcome; no other job is touched |
| ContainerSubmit.JobService.Cancel | api_service/services/container_jobs.py:330-341 | state, signal and reply of a cancellation; no other job is touched |
| ContainerSubmit.CancelIsIdempotent | api_service/services/container_jobs.py:330-341 | cancelling again with the same key changes and signals nothing, and terminal jobs stay terminal |
| ContainerSubmit.CanceledExactly | api_service/services/container_jobs.py:330-341 | a cancellation writes state and key and signals exactly if the job is not terminal and the key is new |
| ContainerSubmit.TerminalReplayPreserved | api_service/services/container_jobs.py:256-315 | in an undisturbed submission a succeeded, failed, cancelled, timed-out or rejected job is preserved whether the start succeeds or raises, unless it failed at the Temporal start, which is requeued |
| ContainerSubmit.RunningReplayFails | api_service/services/container_jobs.py:256-315 | an exact replay of a job that is not terminal keeps the row when the start succeeds and fails it at the Temporal start when it raises |
| ContainerSubmit.PreservedExactly | api_service/services/container_jobs.py:262-279 | which records a submission undertakes to keep: those of its first lookup in one of the five terminal states, except a failed Temporal start |
| ContainerSubmit.JobsPersist | api_service/services/container_jobs.py:118-161 | no step removes a job or changes whose request it is |
| ContainerSubmit.StepKeepsInvariant | api_service/services/container_jobs.py:118-315 | every interleaved step keeps job identifiers distinct and every session's and receipt's knowledge true |
| ContainerSubmit.Reachable | api_service/services/container_jobs.py:118-315 | the invariant holds after every run of interleaved submissions, observations and cancellations |
| ContainerSubmit.FirstInsertWins | api_service/db/models.py:4231-4241 | each (owner, key) keeps the job of the first insertion that won |
| ContainerSubmit.AcceptedAgree | api_service/services/container_jobs.py:118-315 | accepted submissions of one (owner, key) were given the same job, for the same request |
| ContainerSubmit.ClaimBefore | api_service/services/container_jobs.py:118-161 | only the insertion of a job makes a submission its creator; after that the claim passes from the session to its reply |
| ContainerSubmit.OneSubmissionCreates | api_service/services/container_jobs.py:118-315 | over any interleaving at most one accepted submission of an (owner, key) is told that it created the job |
| ContainerSubmit.OnlyTheSameRequestWrites | api_service/services/container_jobs.py:167-315 | apart from observations and cancellations, an existing job is changed only by a submission that asks for exactly that job's request, whatever the job's state |
| ContainerSubmit.ReplayOfTerminalPreserves | api_service/services/container_jobs.py:256-315 | over any interleaving, a submission that found a terminal record, other than a failed Temporal start, writes to no row until it is made again |
| ContainerSubmit.TerminalJobChangesExactly | api_service/services/container_jobs.py:268-341 | a step other than an observation of it changes such a record if and only if it commits a stale failed-start reading, fails a start that was not told to preserve, or writes a cancellation decided on an earlier reading, and the columns it sets differ from those stored |
| ContainerSubmit.NoThreatArises | api_service/services/container_jobs.py:167-341 | a submission or cancellation that does not threaten such a record never comes to threaten it while the record stays |
| ContainerSubmit.UnthreatenedStays | api_service/services/container_jobs.py:256-341 | without a threatening submission or cancellation the record stays exactly as it is over every continuation that does not observe it |
| ContainerSubmit.ThreatIsCarriedOut | api_service/services/container_jobs.py:289-341 | every threatening submission or cancellation has a continuation that overwrites the record |
| ContainerSubmit.TerminalJobAtRiskExactly | api_service/services/container_jobs.py:256-341 | such a record can be overwritten without being observed if and only if some submission or cancellation under way threatens it |
| ContainerSubmit.ReplayRequeues | api_service/services/container_jobs.py:262-288 | an exact replay of a failed Temporal start requeues the job |
| ContainerSubmit.RaisedStartLosesOutcome | api_service/services/container_jobs.py:289-313 | a reachable run in which a job that succeeded becomes a failed start and is then requeued |
| ContainerSubmit.StaleCancelOverwrites | api_service/services/container_jobs.py:330-341 | a reachable run without any submission under way in which a job that succeeded is marked as being cancelled |
| ContainerSubmit.UndisturbedCancelIsSequential | api_service/services/container_jobs.py:330-341 | without interference the two steps of a cancellation do what the sequential service does |
| ContainerSubmit.UndisturbedIsSequential | api_service/services/container_jobs.py:236-315 | without interference the concurrent protocol leaves the rows of the sequential service and gives its reply |
| MoonSpecSync.WriteFile | tools/sync_moonspec.py:303-314 | one turn of the write loop: refuse a directory, skip a match, create parents, replace, set the mode |
| MoonSpecSync.ExpectedModeExactly | tools/sync_moonspec.py:250-259 | shell scripts below `.specify`, `scripts` and `bash` get the three execute bits on top of their source's mode, other files just that mode |
| MoonSpecSync.ParentsAreMade | tools/sync_moonspec.py:308-308 | a written file has every directory above it |
| MoonSpecSync.WriteFiles | tools/sync_moonspec.py:301-314 | the write loop gives the tree and the report of the turns in order, or the first failure |
| MoonSpecSync.FailureIsFinal | tools/sync_moonspec.py:303-314 | the first failing turn decides the outcome |
| MoonSpecSync.WriteEffect | tools/sync_moonspec.py:303-314 | a target ends as its last planned file asks; elsewhere only missing directories appear |
| MoonSpecSync.NothingToWrite | tools/sync_moonspec.py:303-314 | when every target matches, nothing is written |
| MoonSpecSync.SweptStep | tools/sync_moonspec.py:219-234 | removing one mapping's stale files leaves the other mappings' stale files as they were |
| MoonSpecSync.RemoveScopeFiles | tools/sync_moonspec.py:219-234 | removes exactly the unplanned files that the mappings own, each listed once |
| MoonSpecSync.UnlinkInside | tools/sync_moonspec.py:240-247 | the matches of a pattern go one by one until one leaves the repository; only matches go |
| MoonSpecSync.RemovePatternFiles | tools/sync_moonspec.py:235-247 | removes exactly the files the legacy patterns match, each listed once; fails on an invalid pattern or an escaping symlink, and then still keeps every foreign file |
| MoonSpecSync.PruneDirectories | tools/sync_moonspec.py:320-328 | only directories that are empty go, and no empty one is left below a mapped directory |
| MoonSpecSync.Write | tools/sync_moonspec.py:301-329 | the complete effect of a successful write and what it reports, and exactly when it fails; even a failing write keeps an unplanned, unmatched file that lies outside the prefixes of every mapping above it, and a successful one leaves no unplanned file that a mapping claims |
| MoonSpecSync.CheckItem | tools/sync_moonspec.py:278-295 | the findings of one item are those of its kind of mismatch |
| MoonSpecSync.ItemFindings | tools/sync_moonspec.py:278-295 | which finding each kind of mismatch gives: a directory, a missing target, a symlink, different bytes, a different mode |
| MoonSpecSync.StaleByScope | tools/sync_moonspec.py:220-234 | the mappings' part of the generator lists exactly the unplanned files they own, each once |
| MoonSpecSync.StalePaths | tools/sync_moonspec.py:219-247 | the generator lists the stale files of an unchanging tree, each once, and fails exactly on pattern trouble |
| MoonSpecSync.Drift | tools/sync_moonspec.py:276-298 | the findings are exactly those of each planned file and one for every stale path; there is none exactly when every target matches and nothing is stale |
| MoonSpecSync.FilesAfterWrite | tools/sync_moonspec.py:301-329 | the files after a write are the written tree's files that are not stale |
| MoonSpecSync.NothingStaleAfterWrite | tools/sync_moonspec.py:316-329 | after a write nothing is stale |
| MoonSpecSync.TargetAfterWrite | tools/sync_moonspec.py:301-329 | a target survives exactly when no legacy pattern matches it, and then is as one of its planned files asks |
| MoonSpecSync.WriteSatisfiesChecker | tools/sync_moonspec.py:276-329 | after a successful write all targets match if and only if the plan is coherent; nothing is stale in any case |
| MoonSpecSync.ForeignFilesKept | tools/sync_moonspec.py:204-329 | a file neither planned, nor owned by a mapping, nor matched by a pattern keeps its bytes and mode |
| MoonSpecSync.OutOfReachIsForeign | tools/sync_moonspec.py:204-216 | an unplanned, unmatched file belongs to no mapping if above it are only skill mappings whose prefix its first part lacks and command mappings that it lies too deep for or whose prefix its name lacks |
| MoonSpecSync.KeepsWhatIsOutOfReach | tools/sync_moonspec.py:204-329 | and then every write keeps its bytes and mode |
| MoonSpecSync.ClaimedGoAfterWrite | tools/sync_moonspec.py:204-329 | after a successful write no unplanned file is left that a mapping of an existing directory claims by those rules |
| MoonSpecSync.WriteAndCheck | tools/sync_moonspec.py:351-377 | only the write can raise, and the check after it reports no drift exactly for coherent plans |
| MoonSpecSync.TwoFilesForOneTarget | tools/sync_moonspec.py:301-329 | a plan with two different files for one target is written without an error and then reported as drifted |
| MoonSpecSync.SettledTree | tools/sync_moonspec.py:316-319 | a tree with nothing stale is not changed by the sweep |
| MoonSpecSync.NoTroubleWithoutStale | tools/sync_moonspec.py:235-247 | a tree with nothing stale gives the valid patterns no trouble |
| MoonSpecSync.WriteAgain | tools/sync_moonspec.py:301-329 | a second write of a coherent plan writes nothing, removes nothing and leaves the tree as it is |
| ProjectionSync.StateAndClose | api_service/core/sync.py:236-315 | a closed execution gets a terminal state that fits its close status, and only a running one can be before its work |
| ProjectionSync.StartedAtOf | api_service/core/sync.py:325-348 | a stamped start wins; otherwise nothing starts before the work or before the scheduled time |
| ProjectionSync.MapDescription | api_service/core/sync.py:223-402 | the payload has every column a sync relies on, the state and start of the rules above, and counts as without metadata exactly when the memo failed to decode or is empty |
| ProjectionSync.ReportedColumns | api_service/core/sync.py:350-402 | identifiers, namespace, workflow type, close time, close status and update time of the payload are those the description reports |
| ProjectionSync.MemoColumns | api_service/core/sync.py:223-235 | memo, parameters and local-only columns come from the memo, and from nothing if it failed to decode or is empty; every other column is carried over |
| ProjectionSync.StartedAtExactly | api_service/core/sync.py:339-347 | without a stamp the start is the execution time, or else the start time, raised to the scheduled time |
| ProjectionSync.PreWorkStates | moonmind/statuses/workflow.py:58-65 | the states in which work has not begun |
| ProjectionSync.StatusWithoutDomainState | api_service/core/sync.py:237-267 | the state and close status of each Temporal status, exactly |
| ProjectionSync.StampedState | api_service/core/sync.py:307-315 | a stamped state replaces that of a running execution, and that of a completed one only if it is terminal |
| ProjectionSync.ColumnClasses | api_service/core/sync.py:39-57 | which columns are core and which are local-only |
| ProjectionSync.Session.Sync | api_service/core/sync.py:406-502 | both rows after a sync are those of the pure step, in the same row objects |
| ProjectionSync.Session.CompletePayload | api_service/core/sync.py:419-429 | the payload gets its update time by precedence and its local-only values |
| ProjectionSync.Session.UpdateProjection | api_service/core/sync.py:431-479 | the projection is created or updated, merged and marked; the canonical row is only read |
| ProjectionSync.MarkExactly | api_service/core/sync.py:431-458 | a new projection has version one, a synced one the next version and never less than one, and it is fresh as of the sync |
| ProjectionSync.PreserveFields | api_service/core/sync.py:210-221 | each unset listed field takes the first record's value, and nothing else changes |
| ProjectionSync.AssignFields | api_service/core/sync.py:442-446 | without metadata only the core fields are set |
| ProjectionSync.AssignCanonical | api_service/core/sync.py:481-494 | the same for the canonical row, with memo and parameters merged |
| ProjectionSync.FullPayloadAt | api_service/core/sync.py:419-429 | the value written for every single field |
| ProjectionSync.ProjectionAt | api_service/core/sync.py:431-479 | every single field of the projection after a sync |
| ProjectionSync.CanonicalAt | api_service/core/sync.py:481-494 | every single field of the canonical row after a sync |
| ProjectionSync.PayloadAgain | api_service/core/sync.py:406-502 | the second sync of a description writes what the first one wrote |
| ProjectionSync.MergedAgain | api_service/core/sync.py:168-208 | merging the same entries again changes nothing |
| ProjectionSync.SyncTwice | api_service/core/sync.py:406-502 | syncing one description twice changes only the projection's version and sync time |
| ProjectionSync.MergeStep | api_service/core/sync.py:168-208 | one sync lays Temporal's entries over the canonical ones, and the projection mirrors the outcome |
| ProjectionSync.CanonicalHistory | api_service/core/sync.py:168-208 | after any run the canonical memo and parameters are the original ones with everything supplied on top |
| ProjectionSync.SuppliedByLast | api_service/core/sync.py:187-208 | a key has the value of the last sync that supplied it |
| ProjectionSync.KeysSurviveRuns | api_service/core/sync.py:168-208 | over any run no canonical key is lost: the last supplied value wins and an unsupplied key keeps its own |
| ProjectionSync.WithoutCanonicalKeysAreLost | api_service/core/sync.py:472-479 | without a canonical record a key survives exactly if there was no metadata or the sync supplies the key |
| ProjectionSync.KeyIsDropped | api_service/core/sync.py:472-479 | a sync without a canonical record that drops a key of the projection's memo |
| ProjectionSync.LocalStep | api_service/core/sync.py:210-221 | one sync never unsets a local-only field of either row |
| ProjectionSync.LocalStaysSet | api_service/core/sync.py:210-221 | over any run no local-only field goes from set to unset |
| ProjectionSync.UpdateTimeStep | api_service/core/sync.py:419-427 | both rows get the update time chosen by precedence |
| ProjectionSync.UpdateTimeStays | api_service/core/sync.py:419-494 | syncs without an update time never move the projection's, and the canonical row agrees with it |
| ErrorClusters.ErrorIndices | tools/get_action_status.py:55-55 | the error positions are exactly the error lines, in increasing order |
| ErrorClusters.ClusterErrors | tools/get_action_status.py:58-67 | the clustering loop computes the grouping of its specification |
| ErrorClusters.Partition | tools/get_action_status.py:58-67 | the clusters partition the error positions in order, close within and further apart between |
| ErrorClusters.PartitionUnique | tools/get_action_status.py:58-67 | it is the only such partition |
| ErrorClusters.NearbyError | tools/get_action_status.py:70-74 | every line between the ends of a cluster's snippet has an error of that cluster within the context distance |
| ErrorClusters.LineShownIffErrorNear | tools/get_action_status.py:51-86 | a line is in some snippet if and only if an error line lies within the context distance |
| ErrorClusters.SnippetsApart | tools/get_action_status.py:51-86 | snippets of different clusters are disjoint with at least one line between them |
| ErrorClusters.FindAndClusterErrors | tools/get_action_status.py:51-86 | one event per cluster, in order, with the snippet's lines and each error's text and 1-based number |
| DocSlices.GroupSectionClaims | tools/slice_moonspec_docs.py:132-153 | the grouping loop computes the groups of its specification |
| DocSlices.ClaimsConserved | tools/slice_moonspec_docs.py:132-153 | every group leads with the document claims, and what follows them over all groups is the rest of the claims in order |
| DocSlices.SectionsOpenGroups | tools/slice_moonspec_docs.py:141-149 | a section claim always opens a group, and every group after the first opens with one |
| DocSlices.GroupedIffClaimed | tools/slice_moonspec_docs.py:132-153 | the groups hold exactly the claims of the document |
| DocSlices.SortKeepsDocuments | tools/slice_moonspec_docs.py:199-199 | sorting by path keeps the documents |
| DocSlices.SortedInOrder | tools/slice_moonspec_docs.py:199-199 | and puts them in path order |
| DocSlices.OwnClaimsInOrder | tools/slice_moonspec_docs.py:182-185 | the claims of a document are those with its path, in the order of the index (with `SelectionsOfOne`) |
| DocSlices.HeadingsInOrder | tools/slice_moonspec_docs.py:211-215 | section headings are those of the claims that are not document claims, in order (with `SelectionsOfOne`) |
| DocSlices.SelectionsOfOne | tools/slice_moonspec_docs.py:132-215 | what each selection takes of a single claim |
| DocSlices.TitleMeaning | tools/slice_moonspec_docs.py:122-129 | the title is the heading of the first document claim, or the stem of the path |
| DocSlices.BuildDocSlicePayload | tools/slice_moonspec_docs.py:160-321 | slices, packets, matrix and uncovered claims for any index |
| DocSlices.SliceDocument | tools/slice_moonspec_docs.py:203-312 | the groups of one document become the next numbered slices, and the coverage counter that runs on through all documents keeps step with them |
| DocSlices.ExtendMatrix | tools/slice_moonspec_docs.py:263-266 | a slice is appended to the rows of exactly its own keys |
| DocSlices.MatrixIsInverse | tools/slice_moonspec_docs.py:263-266 | a key of the matrix lists exactly the slices that own it, in order |
| DocSlices.OwnersExact | tools/slice_moonspec_docs.py:263-266 | a slice is listed for a key if and only if its coverage has the key |
| DocSlices.NumbersCoincide | tools/slice_moonspec_docs.py:204-312 | slice, coverage and packet numbers coincide and identify their slice |
| DocSlices.SliceContents | tools/slice_moonspec_docs.py:204-312 | path, claim identifiers, sections and numbers of a slice and its packet |
| DocSlices.PacketRefsAreOwned | tools/slice_moonspec_docs.py:263-311 | a packet's references are exactly the keys of the matrix that its slice owns |
| DocSlices.CoveredExactly | tools/slice_moonspec_docs.py:263-318 | a key is covered exactly if it identifies a claim of a listed document or is an issued coverage number |
| DocSlices.GateExact | tools/slice_moonspec_docs.py:314-321 | the exact condition of the coverage gate, which fails only through claims of unlisted documents |
| DocSlices.UnlistedClaimFailsGate | tools/slice_moonspec_docs.py:314-321 | an index whose only claim belongs to an unlisted document, and its gate fails |
| WorkflowNames.ParseName | tools/check_github_workflow_names.py:42-84 | the scan for the closing quote computes the parse of its specification, with each error |
| WorkflowNames.UndoubleDouble | tools/check_github_workflow_names.py:76-76 | undoubling a doubled text gives it back |
| WorkflowNames.BodyIsDoubled | tools/check_github_workflow_names.py:62-76 | every scanned body is a doubled text |
| WorkflowNames.DoubledIsBody | tools/check_github_workflow_names.py:62-70 | the scan stops exactly at the end of a doubled text |
| WorkflowNames.QuotedValue | tools/check_github_workflow_names.py:61-79 | what the parser makes of any quoted text with any unquoted tail |
| WorkflowNames.SingleQuotedRoundTrip | tools/check_github_workflow_names.py:61-79 | a non-blank text, quoted, with blanks before and nothing or a comment after, reads back as the text stripped |
| WorkflowNames.AcceptedExactly | tools/check_github_workflow_names.py:61-79 | a single-quoted value is accepted if and only if it is such a quoted text |
| WorkflowNames.UnterminatedExactly | tools/check_github_workflow_names.py:62-72 | it is unterminated if and only if no quoted text starts it |
| WorkflowNames.DecodedBodyRedoubles | tools/check_github_workflow_names.py:61-79 | doubling the decoded text of an accepted value gives back its quoted body |
| PyText.StripParts | tools/check_github_workflow_names.py:43-43 | stripping removes blanks only and leaves a trimmed string |
| PyText.SpacesExactly | tools/check_github_workflow_names.py:43-43 | which characters are stripped |
| PyText.StripBlank | tools/check_github_workflow_names.py:77-78 | stripping leaves nothing exactly of blank text |
| PyText.IntRoundTrip | api_service/services/container_jobs.py:422-432 | the decimal text of a number reads back as that number |
| PyText.ReadableExactly | api_service/services/container_jobs.py:426-428 | exactly digits with single underscores between them are read |
| PyText.GroupsDoNotMatter | api_service/services/container_jobs.py:426-428 | the underscores do not change the number |
| PyText.DigitsAreDecimal | api_service/services/container_jobs.py:426-428 | digits are the decimal text of the number they read as, with zeros in front |
| PyText.IntExactly | api_service/services/container_jobs.py:426-428 | a number may have a sign and white space around it, and a minus negates it |
| PyText.PaddedInjective | tools/slice_moonspec_docs.py:156-157 | zero-padded numbers identify the number |
| PyText.PaddedExactly | tools/slice_moonspec_docs.py:156-157 | numbers below a thousand are written with three digits, others as they are |

## Left out

- Storage and transport: SQLite, SQLAlchemy, Temporal, Docker and HTTP calls are single atomic steps or parameters; a crash inside a call is not modelled.
- Token generation, hashing, encryption and authentication: digests are an arbitrary function, and a fresh identifier and token are assumed not to collide.
- Registry.Issue: the bounds that are computed from the other fields of the budget snapshot are not part of this model; only the fields the budget checks read are.
- Registry.RevokeScope: the select and the updates are one step, so a capability issued by another process between them is not modelled; the same holds for acknowledge_delivery.
- Registry.Resolve: recording the denied authorization as evidence is left out.
- DeliveryFolding.Summarize: the selection of the capabilities of a session and the decoding of summaries are left out; a latency is any real number.
- Evidence files and stored packs (`record`, `store_result`, `read_result`): they only move bytes.
- Registry.GetStatus: the fields of the reply that are copied from the budget, the row or the evidence are left out.
- LiveScopeCapability: among capabilities issued at the same instant any may be returned, because the order of rows is left to the database.
- ManifestWalk.Walk: Python's recursion limit is not modelled.
- Resolver snapshots: repository, pull-request number, commit identifiers and free text that no decision reads are left out; upper and lower case are arbitrary functions.
- ContainerLogs.Logs: log timestamps are left out, and a requested page size is at least one, as the request schema demands.
- ContainerLogs.Artifacts: the publication diagnostics that accompany a page are left out.
- ContainerLogs.ReadLogTail: the log is fixed while it is read; a failing tool call is left out.
- PyText.IntRoundTrip: `int()` also accepts decimal digits of other scripts and by default rejects more than 4300 digits; the model has neither rule.
- ContainerSubmit: inserting a job and committing it is one step, so a crash between them is left out; so is a cancellation whose request fails after its flush. `record_observation` is one step, may write any state, and no order of job states is claimed. A session writes the columns that it sets to another value than it read.
- ContainerSubmit.ReplayOfTerminalPreserves: a submission that did not find the record by its first lookup, or found it before it was terminal, may mark it failed when its Temporal start fails; no preservation is claimed there.
- MoonSpecSync: path resolution and the reading of the bundle manifest are left out; the plan is given, with the bytes and modes of its sources, which therefore do not change while it is written.
- MoonSpecSync.StalePaths: sorted order of the listed paths is left out (each is listed once); symlinked parents and symlinked mapped directories are left out, and so are glob rules.
- MoonSpecSync.Write: of the tree that a failing write leaves behind, only the files it must keep are stated.
- MoonSpecSync.PruneDirectories: any order that visits children before parents is allowed; which of several equal orders is taken is left out.
- ProjectionSync: decoding of memo, search attributes and legacy aliases is left out; a description arrives decoded, with mappings for memo and parameters (the merge would raise on anything else).
- ProjectionSync.Session.Sync: the columns outside the core, local-only, memo and parameters columns are carried as opaque values.
- ErrorClusters.FindAndClusterErrors: which lines are errors is an arbitrary predicate, and the number of context lines is not negative.
- DocSlices.BuildDocSlicePayload: type checks and stripping of the index fields, story texts, dependencies and file digests are left out, and so is the order of documents with equal paths.
- WorkflowNames.ParseName: double-quoted and plain names are an arbitrary function.
- The CLIs, `api_service/main.py`, the audits, the polling client and the frontend configuration: input and output, or rules that add only easy members.
