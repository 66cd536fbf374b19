# Verified models of the DingTalk workspace CLI

The command line tool under `internal/` talks to a remote control service, to an auth
store and to MCP servers, keeps a few files of its own, and has to stay right when any of
these fails, answers nonsense or changes under its hands. This project models the parts
where that is hard and proves what they keep:

- **Personal event subscriptions.** A run claims an attempt in a store shared by all
  processes, creates remote subscriptions, saves run states, ends the claim and rolls back.
  `SubscriptionRun` is the run for several events, `SingleRun` the one for one event,
  `StopCommand` the command that ends them, `AttemptStore` the shared guard,
  `AttemptTiming` its 64-bit arithmetic, `EventPlanning` the way from event keys to plans,
  `RunOrder` what traces and reports of both runs say operation by operation, `Redaction`
  the removal of a runtime token from the service's answers. Every answer from outside is an
  argument, every request an element of a trace, so a theorem about traces is one about
  every failure at every point.
- **Access tokens.** `TokenReader` is one optimistic read of a credential between two reads
  of its publication marker; `TokenCache` interleaves the steps of any number of readers,
  publishers and invalidations; `TokenManager` is the object with its entries and loop.
- **MCP endpoints.** `EndpointRegistry` folds server descriptors into four tables and
  relates them to a declarative last-claim rule; `GatewayHosts` is the algebra of the two
  host rewrites that feed it.
- **Pagination.** `Pagination` follows continuations through the caller's own request
  object, and accepts exactly the consistent responses.
- **Small state machines.** `McpUrlOwnership` (two files that say who owns the MCP URL,
  under failures and stops), `MetadataMerge` (live tools into a reviewed snapshot),
  `PageCounters` (two ways to count distinct rows).

`GoStrings`, `Json` and `Collections` hold the vocabulary they share. Methods follow the
control flow of the code and are proved against specification functions; lemmas prove the
promises about those functions.

## What the proofs found

Where a promise does not hold on all inputs, a lemma says exactly when it does.

- `SingleRun.ReusedIsDeletedIff`: the comment at `internal/app/event_personal_command.go`,
  lines 517-522, says that an ephemeral run cleans up on any exit; one whose output check
  fails after the subscription was found leaves it behind
  (`SingleRun.EphemeralIsLeftBehind`).
- `Redaction.TokenSurvivesIff`, `Redaction.DocumentsHideIff`: exactly which tokens can
  still show after redaction in a string or a key: those inside the marker text, those that
  begin with its end, and those that run into it (`Redaction.MarkerTokenSurvives`,
  `Redaction.BracketTokenSurvives`).
- `Redaction.HidesUnlessScalarIff`: the comment at `internal/app/event_personal_command.go`,
  lines 1625-1628, says that the bearer is scrubbed from every response body; a document
  that holds it in a string and in a number is written anew with the number as it was
  (`Redaction.NumberStillShows`). This is so exactly for documents that hold the token in a
  number, a truth value or a null; in a body that is not written anew,
  `Redaction.RedactBody` replaces it wherever it stands.
- `Pagination.CarriesOneContinuationIff`: when pages switch between the spellings of the
  continuation, or use another than the caller, the request keeps the stale one
  (`Pagination.StaleContinuationGoesAlong`).
- `AttemptTiming.RetryRoundTripIff`: seconds to duration and back is the identity exactly up
  to the first number that saturates.
- `GatewayHosts.RulesCommuteIff`: the rewrites commute except where the region rule turns an
  upper-case name into one the gateway rule knows
  (`GatewayHosts.UpperCaseNameDoesNotCommute`).
- `GatewayHosts.ActiveEndpointIdempotentIff`: an endpoint whose fragment is slashes only
  needs two moves to come to rest, as in
  `GatewayHosts.SlashFragmentMovesTwice`.
- `McpUrlOwnership.ManagedLosesOwnershipIff`, `McpUrlOwnership.RetryReachesIff`,
  `McpUrlOwnership.SwitchingBackIsFinal`: an interrupted refresh can make a managed URL
  count as the user's own, for good (`McpUrlOwnership.FailedRefreshLosesOwnership`); so does
  switching back to the default region.
- `MetadataMerge.IdsShareKeysIff`, `MetadataMerge.DottedIdsCollide`: unique pairs of server
  and tool give unique live keys exactly as long as no server id goes on from another one
  behind a dot.
- `AttemptStore.RunSettlesStore`: the store would refuse to record a failure whose fingerprint
  is also that of an earlier plan of the batch (`AttemptStore.SharedFingerprintIsRefused`).
  The plans of one command have different event keys, which the fingerprint hashes
  (`internal/event/personal/registry.go`, lines 677-687), so this takes a collision of the
  shortened hashes.
- `MetadataMerge.CoverageCountsBlanks`, `MetadataMerge.MatchedExcludesStubsIff`: the comment
  at `cmd/fetch_mcp_metadata/main.go`, lines 243-246, says that only services that answered
  are counted and that stubs are not; servers without an endpoint are counted, and so are
  the stubs of the previous snapshot that no listed tool refreshes
  (`MetadataMerge.BlankServerCounts`, `MetadataMerge.StubCountsAsMatched`).
- `SubscriptionRun.StreamedAreDeletedIff`: the multi-event run streams the ids as they came
  and deletes them trimmed (`internal/app/event_personal_command.go`, lines 638 and 722), so
  these are the same ids exactly if every accepted id is trimmed
  (`SubscriptionRun.SpacedIdIsStreamed`).

## Model

| member | source | states |
|---|---|---|
| SubscriptionRun.ManyConserves | internal/app/event_personal_command.go:634-715 | On every way out of a multi-event run the remote deletes are exactly the accepted ids, newest first, none twice; the run-state removal gets the same list; every usable id the service returned is among them |
| SubscriptionRun.ManySettlesOnce | internal/app/event_personal_command.go:650-714 | A granted claim is ended exactly once: as a success iff no plan failed; a recorded failure names the failed plan and exactly the plans before it as succeeded |
| SubscriptionRun.ManySettlesFirst | internal/app/event_personal_command.go:660-669 | The claim is ended before any remote delete, except after a rejected runtime token, where every delete comes first |
| SubscriptionRun.AcceptedMeaning | internal/app/event_personal_command.go:671-696 | The accepted ids are the returned ones in request order, distinct after trimming and not blank; no returned usable id is missed |
| SubscriptionRun.ManyProjects | internal/app/event_personal_command.go:634-715 | The trace of a run, projected on deletes, run-state removals and the operation that ends the claim |
| SubscriptionRun.StreamedAreDeletedIff | internal/app/event_personal_command.go:635-724 | The streamed ids, newest first, are the deleted ones iff the service gave every accepted id without surrounding space |
| SubscriptionRun.SpacedIdIsStreamed | internal/app/event_personal_command.go:635-724 | An input: the id "s " |
| SubscriptionRun.ConsumeMany | internal/app/event_personal_command.go:634-730 | The imperative run produces the specified trace and report for every combination of answers |
| SubscriptionRun.CreateAll | internal/app/event_personal_command.go:671-710 | The creation loop stops at the first failing plan, with as many succeeded plans as its index; it keeps every accepted id |
| SubscriptionRun.CreateOne | internal/app/event_personal_command.go:673-709 | One plan is accepted iff its id is new and not blank; an id whose run state cannot be saved is accepted all the same |
| SubscriptionRun.Cleanup | internal/app/event_personal_command.go:635-649 | Rollback deletes newest first and then removes exactly those run states, or does nothing when there is nothing |
| SubscriptionRun.FailAndCleanup | internal/app/event_personal_command.go:650-670 | A failed batch gets the settlement its error calls for, in the order that error calls for |
| SubscriptionRun.Finish | internal/app/event_personal_command.go:711-729 | A batch whose plans all succeeded completes the claim, streams only if that is stored, and always cleans up |
| SubscriptionRun.FinishFailure | internal/app/event_personal_attempts.go:207-257 | Completing a failure releases a canceled claim, records the failed and the succeeded fingerprints otherwise, and does nothing outside the guard on the indexes |
| RunOrder.ManyInOrder | internal/app/event_personal_command.go:634-730 | The trace of a multi-event run is in order: claim, requests, settlement, stream, deletes, run states; only after a rejected runtime token the settlement comes last |
| RunOrder.ManyStreamsOnce | internal/app/event_personal_command.go:711-729 | A run streams iff every plan succeeded and the completion was stored, exactly once and all accepted ids |
| RunOrder.StreamStandsBetween | internal/app/event_personal_command.go:711-729 | Claim, requests, run states and settlement stand before the stream, every delete and removal behind it |
| RunOrder.ManyStarts | internal/app/event_personal_command.go:671-704 | A run starts with the claim of its fingerprints; then each accepted subscription is requested and its run state saved, plan by plan |
| RunOrder.StopsAtFirstFailure | internal/app/event_personal_command.go:672-709 | The loop stops at the first plan whose request fails or brings nothing, a blank id or one already given, or whose run state is not saved |
| RunOrder.ManySettlesAs | internal/app/event_personal_attempts.go:191-257 | A failed claim is released after a rejected runtime token or a cancellation, and recorded with the plans before it otherwise |
| RunOrder.ManyReportsAs | internal/app/event_personal_command.go:650-714 | What the caller of a run is told, case by case |
| RunOrder.DeletesRunUnder | internal/app/event_personal_command.go:656-668 | The deletes run under the run's own context iff a failed run was canceled |
| RunOrder.SingleInOrder | internal/app/event_personal_command.go:433-547 | The trace of a single-event run is in the same order |
| RunOrder.SingleStarts | internal/app/event_personal_command.go:433-446 | It starts with its claim and the request of its event, or with the lookup of the subscription it was given |
| RunOrder.SingleStreamsIff | internal/app/event_personal_command.go:490-547 | It streams iff it saved the run state of a subscription it may print and the completion of its claim, if any, is stored |
| RunOrder.SingleFailsAs | internal/app/event_personal_command.go:447-509 | What the caller of a failed single-event run is told, and whether its claim is released or recorded |
| RunOrder.SingleDeletesUnder | internal/app/event_personal_command.go:498-509 | Its deletes run under its own context iff saving its run state was canceled |
| SingleRun.CreatedRunHas | internal/app/event_personal_command.go:1046-1052 | A run without a subscription id has what the service created for its key |
| SingleRun.ReusedRunHas | internal/app/event_personal_command.go:1054-1098 | A run with one has that subscription under the key asked for and found, if these agree |
| SingleRun.ConsumeSingle | internal/app/event_personal_command.go:433-547 | The imperative single run produces the specified trace and the specified report at every stage |
| SingleRun.SingleConserves | internal/app/event_personal_command.go:446-547 | What is deleted, and removed from the run states, is exactly the subscription the run owns and got as far as using; the claim is ended at most once and before any delete |
| SingleRun.CreatedIsSettledAndDeleted | internal/app/event_personal_command.go:446-547 | For a subscription the run creates, the output check after creation repeats the first one: from the claim on every path ends the claim once and deletes every usable id |
| SingleRun.CreatedSettlesAs | internal/app/event_personal_command.go:447-513 | The claim of a run that creates its subscription is completed iff the subscription is usable and its run state saved; else it is released, or the failure is recorded under its own fingerprint |
| SingleRun.ReusedIsDeletedIff | internal/app/event_personal_command.go:475-522 | A subscription reused by id is deleted iff the run is ephemeral, finds it and passes the late output check; such a run settles no claim |
| SingleRun.EphemeralIsLeftBehind | internal/app/event_personal_command.go:475-477 | An input: an ephemeral run in raw format that finds the call invite neither prints nor deletes it |
| SingleRun.ValidateOutputMode | internal/app/event_personal_command.go:869-884 | The check over several keys accepts iff every key may be printed in the mode |
| StopCommand.Stop | internal/app/event_personal_command.go:1243-1299 | The stop command issues exactly the specified requests, and every outcome is reported exactly in its own case |
| StopCommand.ForgetsOnlyDeleted | internal/app/event_personal_command.go:1268-1275 | An id leaves the local file only after its subscription was deleted in this command |
| StopCommand.KeepsOthers | internal/app/event_personal_command.go:1273-1275 | Ids the command is not about stay in the file, whatever other processes added |
| StopCommand.DeletesComeFirst | internal/app/event_personal_command.go:1268-1272 | The targets are deleted first and in order, and nothing follows one that fails |
| StopCommand.StopsInOrder | internal/app/event_personal_command.go:1268-1296 | Deletes, then the file, then the consumers, then the bus |
| StopCommand.StopsConsumersIff | internal/app/event_personal_command.go:1364-1383 | The consumers of the targets are asked to stop iff all deletes and the rewrite succeeded and a target is not blank |
| StopCommand.StopsBusIff | internal/app/event_personal_command.go:1268-1296 | The bus is stopped iff every target was deleted, the file could be rewritten, and nothing is left in it |
| StopCommand.StoppingAllStopsBusIff | internal/app/event_personal_command.go:1301-1324 | Undisturbed, stopping everything stops the bus iff no blank id is listed |
| StopCommand.DeleteAll | internal/app/event_personal_command.go:1268-1272 | Targets are deleted in order up to the first failure, which is reported |
| StopCommand.FinishStop | internal/app/event_personal_command.go:1273-1298 | After the deletes: rewrite, stop the consumers of targets that are not blank, look again, stop the bus if nothing is left; what the bus answers decides the outcome |
| StopCommand.ListTargets | internal/app/event_personal_command.go:1301-1324 | The targets are the trimmed id given, or every listed id that is not empty |
| StopCommand.RemoveStates | internal/event/personal/state.go:103-126 | Removal keeps, in order, the ids that are not removed |
| StopCommand.WithoutMeans | internal/event/personal/state.go:107-121 | Exactly the removed ids that are not empty go |
| StopCommand.UpsertThenRemove | internal/event/personal/state.go:76-126 | Adding a new id and removing it again leaves the list as it was |
| StopCommand.ListedStaysProper | internal/event/personal/state.go:76-126 | Over any history of additions and removals the file never lists an empty id or an id twice |
| AttemptStore.LeaseIsExclusive | internal/event/personal/attempt_store.go:273-345 | Within its lease a claim keeps its records, whatever other processes do in any order and number, so it can still be completed |
| AttemptStore.NoSecondClaim | internal/event/personal/attempt_store.go:273-345 | Before the lease ends nobody else is granted a fingerprint of the claim, or completes a batch over one |
| AttemptStore.ClaimGrantedIff | internal/event/personal/attempt_store.go:639-656 | A claim with specs and a positive lease is granted iff at each fingerprint there is no record, or its lease has ended, or its hold has |
| AttemptStore.ClaimReserves | internal/event/personal/attempt_store.go:317-336 | A granted claim leaves its fingerprints in flight until the lease ends with the failures of the last day, and every other record as it was unless it is free and a day old |
| AttemptStore.EndedLeaseIsGranted | internal/event/personal/attempt_store.go:639-656 | Once a lease has ended and nobody else touched its fingerprints, any process is granted them |
| AttemptStore.EndedHoldIsGranted | internal/event/personal/attempt_store.go:639-656 | Once a hold has ended its fingerprint can be claimed |
| AttemptStore.ReleaseRestores | internal/event/personal/attempt_store.go:455-475 | Releasing within the lease restores at each fingerprint the record from before the claim |
| AttemptStore.FailureAt | internal/event/personal/attempt_store.go:373-451 | A failed batch clears what succeeded and gives the rest back; what failed is held exactly an hour if it must not be retried, and else at least as long as the server asks and as the backoff of its count, which goes on from a failure within the last day |
| AttemptStore.BackoffGrows | internal/event/personal/attempt_store.go:577-611 | A later backoff is never shorter, and up to the fourth longer than the one before with any jitter |
| AttemptStore.NextFailureHoldsNoShorter | internal/event/personal/attempt_store.go:273-451 | A fingerprint that fails, is claimed again and fails again within a day is held at least as long as the backoff before |
| AttemptStore.HoldIsKept | internal/event/personal/attempt_store.go:639-668 | A hold outlives every operation before it ends, the owner's included, and refuses every claim that covers its fingerprint |
| AttemptStore.GrantedStands | internal/event/personal/attempt_store.go:273-345 | A granted claim still owns all its fingerprints within its lease |
| AttemptStore.SettledOnStore | internal/event/personal/attempt_store.go:349-475 | A way to end a claim is taken by the store iff it does not record a failure under a fingerprint that also succeeded, and then leaves every fingerprint as it should be; fingerprints may repeat |
| AttemptStore.SharedFingerprintIsRefused | internal/event/personal/attempt_store.go:516-533 | An input: two plans whose shortened hashes collide, of which the second fails |
| AttemptStore.RunSettlesStore | internal/app/event_personal_command.go:634-715 | A whole multi-event run on the shared store: its one settlement is accepted unless the failed plan shares its fingerprint with one before it; then the plans before the failed one are cleared, the failed one is held, the others are as before the claim |
| AttemptStore.SingleRunSettlesStore | internal/app/event_personal_command.go:433-513 | A whole single-event run on the shared store: its one settlement is always accepted, and its fingerprint is then cleared, held, or as before the claim |
| AttemptTiming.LeaseIsIdeal | internal/app/event_personal_attempts.go:149-171 | The int64 lease equals the unbounded one (time of one request per plan and half a minute, between one and ten minutes) for every timeout and batch size |
| AttemptTiming.LeaseIsMonotone | internal/app/event_personal_attempts.go:149-171 | A larger batch never gets a shorter lease, and no lease leaves its limits |
| AttemptTiming.CeilSecondsIsLeast | internal/app/event_personal_attempts.go:530-539 | The seconds reported are the least whole number that covers the delay |
| AttemptTiming.RetryRoundTripIff | internal/app/event_personal_attempts.go:376-384 | Seconds to duration and back is the identity iff 0 <= s <= 9223372037 |
| AttemptTiming.RetrySecondsAre | internal/app/event_personal_attempts.go:376-384 | Whole seconds become nanoseconds; too many become the largest duration, negative ones none |
| AttemptTiming.RetryDelayHonours | internal/app/event_personal_attempts.go:354-374 | Part by part: never shorter than any part of the error asks, and one of them or zero |
| AttemptTiming.RetryDelayIsLongest | internal/app/event_personal_attempts.go:354-391 | The delay is the longest one any part of the error asks for, zero if none is positive |
| Redaction.RedactValue | internal/app/event_personal_command.go:1702-1731 | The walk redacts every string and key; the flag is true iff the token occurs and is not the marker itself; an unchanged tree comes back equal |
| Redaction.RedactObject | internal/app/event_personal_command.go:1715-1727 | The same for objects, whatever order the members come in and even when two keys collide |
| Redaction.RedactArray | internal/app/event_personal_command.go:1707-1714 | The same for an array, whose items are overwritten in place |
| Redaction.TokenSurvivesIff | internal/app/event_personal_command.go:1704-1706 | For every token: some redacted string still shows it iff it has the stated property of its own text: the marker contains it, it begins with the end of the marker, or it runs into the marker that replaces it |
| Redaction.DocumentsHideIff | internal/app/event_personal_command.go:1702-1731 | No redaction of any document shows the token in a string or a key iff it has not that property |
| Redaction.RedactionShowsToken | internal/app/event_personal_command.go:1702-1731 | For every token: the strings and keys of a redacted document show it only if those of the document did and it can survive, and always where the marker text contains it |
| Redaction.RedactStringShowsToken | internal/app/event_personal_command.go:1704-1706 | The same for one string under leftmost non-overlapping replacement |
| Redaction.HidesUnlessScalarIff | internal/app/event_personal_command.go:1702-1731 | A token that cannot survive is hidden by every redaction of a document, in all of its scalars and keys, iff no number, truth value or null of the document holds it |
| Redaction.ScalarsStay | internal/app/event_personal_command.go:1728-1729 | A redaction shows the token in a number, a truth value or a null only if the document did |
| Redaction.KeepingKeepsScalars | internal/app/event_personal_command.go:1715-1727 | Some order of visiting the members keeps such a scalar, whatever keys collide |
| Redaction.NumberStillShows | internal/app/event_personal_command.go:1728-1729 | An input: the token "12" in ["12", 12] |
| Redaction.RedactBody | internal/app/event_personal_command.go:1681-1700 | A body whose document holds the token in a string or a key is written anew from a redaction; any other has the token replaced in its text |
| Redaction.BracketlessSurvivesIff | internal/app/event_personal_command.go:1702-1731 | A token without angle brackets can survive iff the marker text contains it |
| Redaction.MarkerTokenSurvives | internal/app/event_personal_command.go:1704-1706 | An input: the token "token" |
| Redaction.BracketTokenSurvives | internal/app/event_personal_command.go:1704-1706 | An input: the token "x<" in "xx<" |
| Redaction.RedactTwice | internal/app/event_personal_command.go:1702-1731 | For every token: one that cannot survive leaves no trace and the second pass changes nothing; the second pass changes something iff the first left the token |
| Redaction.RedactionOfCleanIsIdentity | internal/app/event_personal_command.go:1724-1726 | A document with nothing to redact is its own and only redaction |
| Redaction.FoundIsReplaced | internal/app/event_personal_command.go:1704-1706 | Up to the first place of the token a string is left alone, there the marker stands, and so on behind it |
| Redaction.NotFoundIsKept | internal/app/event_personal_command.go:1704-1706 | A string without the token is left alone |
| Redaction.FirstPlaceIsFirst | internal/app/event_personal_command.go:1704-1706 | The first place is the leftmost occurrence |
| Redaction.RedactStringChanges | internal/app/event_personal_command.go:1704-1706 | A string is changed iff it holds the token and the token is not the marker; for every token |
| EventPlanning.PrepareMulti | internal/app/event_personal_command.go:732-832 | A command is planned iff it meets the stated conditions, with one plan per distinct key in order; every refusal names a fault that is there |
| EventPlanning.PlansCarryTheirTargets | internal/app/event_personal_command.go:775-828 | User-scoped and group-scoped plans never coexist; a user-scoped plan carries exactly one of user and open id and no group, a group-scoped one only a group, an at/all plan nothing |
| EventPlanning.PlannableIff | internal/app/event_personal_command.go:732-832 | Exactly which commands are planned, over their raw options and the definitions of their events |
| EventPlanning.PlanIsTheCommand | internal/app/event_personal_command.go:805-823 | A plan is the command for its one event: every option as it was, but for the targets its kind of event does not use |
| EventPlanning.PlanStaysSupported | internal/app/event_personal_command.go:901-904 | The second check of a plan's options cannot fail once the command passed the first |
| EventPlanning.PlanAll | internal/app/event_personal_command.go:805-831 | Each key gets its plan; the first plan whose rule or filter is rejected refuses the command |
| EventPlanning.CheckKeys | internal/app/event_personal_command.go:753-777 | The first key with a fault refuses the command; otherwise the scopes found are those of the keys |
| EventPlanning.CheckKey | internal/app/event_personal_command.go:754-776 | A key passes iff it is known, public, supports the options and, with a filter, takes filters |
| EventPlanning.CheckTargets | internal/app/event_personal_command.go:778-803 | The targets pass iff they fit the scopes |
| EventPlanning.DedupeKeys | internal/app/event_personal_command.go:1944-1959 | The loop computes the distinct keys |
| EventPlanning.DistinctKeysDeduplicate | internal/app/event_personal_command.go:1944-1959 | The distinct keys are exactly the trimmed non-blank ones, in the order of their first places |
| EventPlanning.OnlyDistinctKeysDeduplicate | internal/app/event_personal_command.go:1944-1959 | No other sequence has that property |
| EventPlanning.DistinctKeysIdempotent | internal/app/event_personal_command.go:1944-1959 | Deduplicating twice is deduplicating once |
| EventPlanning.DispatchConsume | internal/app/event_personal_command.go:269-282 | Several events are consumed iff there are at least two distinct keys |
| EventPlanning.DispatchedKeysStay | internal/app/event_personal_command.go:749-752 | A command dispatched as several events is never refused for having too few keys |
| TokenReader.PlayTouchesEntry | internal/app/access_token_resolve.go:110-150 | A read touches the entry only when a credential came between two equal markers; it then holds a usable credential under that marker's revision, or nothing |
| TokenReader.GivesUpIff | internal/app/access_token_resolve.go:122-150 | Get reports a repeatedly changing publication iff it does not hit and each of its four attempts reads two different markers |
| TokenReader.AttemptUnfolds | internal/app/access_token_resolve.go:122-149 | The outcome of one attempt, read off its three answers |
| TokenReader.SteadyAttemptDecides | internal/app/access_token_resolve.go:122-149 | The first attempt with no two different markers decides: a token worth keeping (not blank, more than 300 seconds to live, under a present marker with a revision) is answered and left in the entry with that revision, any other token is answered and the entry emptied |
| TokenReader.HitIff | internal/app/access_token_resolve.go:115-117 | A Get hits iff the opening read shows the revision the cached token was stored under and the token is still worth keeping, whatever the later reads would give |
| TokenReader.StoreTokenComesThrough | internal/app/access_token_resolve.go:176-216 | What the store answered comes through as it is, without its expiry if the storage is opaque |
| TokenReader.EditionTokenIsNotCached | internal/app/access_token_resolve.go:176-220 | A token from opaque storage, or one that does not come from the store, is never cached, even if it reads like the store's |
| TokenCache.StepKeeps | internal/app/access_token_resolve.go:92-174 | Every interleaved step of a reader, publisher or invalidator keeps the cache invariant |
| TokenCache.RunKeeps | internal/app/access_token_resolve.go:92-174 | The invariant holds in every reachable state |
| TokenCache.HitIsFresh | internal/app/access_token_resolve.go:107-117 | A hit returns a token read after the credential its current marker names was written |
| TokenCache.GivingUpTakesFourChanges | internal/app/access_token_resolve.go:122-150 | A Get reports a repeatedly changing publication only if its marker really changed in each of four disjoint windows, those between the two marker reads of its attempts |
| TokenCache.UnresolvedLeavesEntry | internal/app/access_token_resolve.go:122-150 | A Get that gives up, fails or hits leaves the entry as it found it |
| TokenCache.InvalidateIsBarrier | internal/app/access_token_resolve.go:153-174 | A Get that fetched its entry before an invalidation never shares one with a Get started after it, so what it stores is never hit there |
| TokenCache.KeysNeverShare | internal/app/access_token_resolve.go:153-165 | Different directories or profiles never share an entry |
| TokenManager.Manager.Get | internal/app/access_token_resolve.go:92-151 | One call answers and stores what the reader says, for its own key only |
| TokenManager.GetAgain | internal/app/access_token_resolve.go:92-151 | Of two calls for one key the second answers from the cache what the first resolved, if the marker is the same and the token worth keeping at both |
| TokenManager.Entry.ReadThrough | internal/app/access_token_resolve.go:104-150 | The locked retry loop over the entry's fields is the reader |
| TokenManager.Manager.EntryFor | internal/app/access_token_resolve.go:153-165 | A key keeps its entry; a new key gets an empty one of its own |
| TokenManager.Manager.Invalidate | internal/app/access_token_resolve.go:167-174 | No entry is reachable afterwards |
| GatewayHosts.RegionHostLands | internal/app/direct_runtime.go:118-143 | A host goes into the region's domain iff it was in either domain; others are fixed |
| GatewayHosts.RegionHostKeepsStem | internal/app/direct_runtime.go:118-139 | A rewritten host keeps what stands before the domain |
| GatewayHosts.GatewayHostShape | internal/app/direct_runtime.go:97-105 | The gateway rule inserts "-gw" behind the first label |
| GatewayHosts.NoGatewayPrefix | internal/app/direct_runtime.go:97-105 | Any other host stays as it is |
| GatewayHosts.RewrittenUrlsKeep | internal/app/direct_runtime.go:91-143 | What each rewrite of a URL keeps |
| GatewayHosts.MovedEndpointIs | internal/app/direct_runtime.go:364-380 | A moved endpoint has scheme, host and port of the active gateway and its own path |
| GatewayHosts.RegionAbsorbs | internal/app/direct_runtime.go:118-143 | Rewriting to a region after another equals rewriting to the last alone, literally on lower-case hosts, up to case on all |
| GatewayHosts.RulesCommuteIff | internal/app/direct_runtime.go:91-143 | Exactly when the gateway rule commutes with the region rule, for every host; it does on every lower-case one |
| GatewayHosts.UpperCaseNameDoesNotCommute | internal/app/direct_runtime.go:91-143 | An input: "MCP.dingtalk.io" for the domestic region |
| GatewayHosts.GatewayHostIdempotent | internal/app/direct_runtime.go:91-116 | The gateway rule does not apply to its own results |
| GatewayHosts.GatewayKeepsDomain | internal/app/direct_runtime.go:91-143 | The gateway rule never moves a host between the domains |
| GatewayHosts.UrlRulesCommute | internal/app/direct_runtime.go:91-143 | For whole URLs: both rules commute on lower-case hosts, and each is idempotent on all |
| GatewayHosts.ActiveEndpointIdempotentIff | internal/app/direct_runtime.go:364-389 | Endpoints not on a gateway never move; moving one onto a gateway is done once and for all iff its fragment is not slashes only |
| GatewayHosts.SlashFragmentMovesTwice | internal/app/direct_runtime.go:364-380 | An input: "https://mcp-gw.dingtalk.com/a/#/" |
| EndpointRegistry.Registry.SetDynamicServers | internal/app/direct_runtime.go:147-163 | Afterwards all four tables say, for every key, what the last claim on it says, the built-in PAT server first |
| EndpointRegistry.Registry.Register | internal/app/direct_runtime.go:171-224 | What one registration makes of every key of the four tables |
| EndpointRegistry.Registry.RegisterOwnKeys | internal/app/direct_runtime.go:175-191 | Id and command keys, with and without protection of command keys |
| EndpointRegistry.Registry.RegisterAliases | internal/app/direct_runtime.go:192-200 | Every alias gets the endpoint and points at the id |
| EndpointRegistry.Registry.RegisterTools | internal/app/direct_runtime.go:203-208 | Every named tool gets the endpoint |
| EndpointRegistry.Registry.RegisterOverrides | internal/app/direct_runtime.go:209-222 | Overrides without a redirect claim their tool, redirected ones nothing, in any iteration order |
| EndpointRegistry.Registry.AppendDynamicServer | internal/app/direct_runtime.go:418-436 | What a plugin's server makes of all four tables; it takes a key over only by id or alias, never by command |
| EndpointRegistry.RegisteredReflects | internal/app/direct_runtime.go:171-224 | One more registration keeps the tables the reflection of the longer list |
| EndpointRegistry.LookupFollowsLastClaim | internal/app/direct_runtime.go:240-305 | The priority lookup in the tables answers in every case what the list of servers says: override, pinned product, last claim on the product or what its alias means, last claim on the tool, PAT, edition |
| EndpointRegistry.OverrideWins | internal/app/direct_runtime.go:240-250 | An environment override comes first |
| EndpointRegistry.PinnedProduct | internal/app/direct_runtime.go:252-258 | The pinned product has its endpoint whatever the servers say |
| EndpointRegistry.ClaimedProductKeepsEndpoint | internal/app/direct_runtime.go:260-274 | A claimed product keeps the endpoint of the last server that claims it, whatever tool is asked for and whoever claims that |
| EndpointRegistry.UnclaimedProductFallsBack | internal/app/direct_runtime.go:276-304 | Only an unclaimed product falls back: to the last claim on the tool, to PAT, to the edition |
| EndpointRegistry.UnclaimedHasNone | internal/app/direct_runtime.go:171-200 | A key that no server serves has no endpoint |
| EndpointRegistry.LastClaimWins | internal/app/direct_runtime.go:147-163 | A claim decides unless a later active server claims the key too |
| EndpointRegistry.LastToolClaimWins | internal/app/direct_runtime.go:202-223 | The same for tools; a redirected override takes no tool away |
| Pagination.PaginateAll | internal/apiclient/pagination.go:52-111 | The pages are a prefix of the server's chain; every page followed says there are more, by its flags or without any by its continuation, and one that completes below the limit does not; each request carries the continuations before it; at most min(limit, 500) requests are made |
| Pagination.TakeTurn | internal/apiclient/pagination.go:70-107 | One request goes on with the chain: it fails, ends it, cannot be continued, or puts the page's continuation into the next request |
| Pagination.Parse | internal/apiclient/pagination.go:178-217 | A response is accepted iff neither its flags nor its continuations contradict each other and more pages come with a continuation; there are more pages iff a flag is true, or none is there and a continuation is named; over the raw fields of payload and nested result |
| Pagination.Collect | internal/apiclient/pagination.go:178-217 | Container by container the loop collects flags and continuations, or finds them in conflict |
| Pagination.CollectedMeans | internal/apiclient/pagination.go:178-217 | What is collected says of the raw fields what they hold |
| Pagination.ScanFlags | internal/apiclient/pagination.go:184-191 | The flags of a container join those seen, or conflict |
| Pagination.ScanContinuations | internal/apiclient/pagination.go:192-209 | The continuations of a container join those seen, or conflict |
| Pagination.InjectInto | internal/apiclient/pagination.go:243-260 | Only the continuation's key of the caller's object changes, in place; a body that is not an object is refused |
| Pagination.ResolvePageLimit | internal/apiclient/pagination.go:118-129 | Every limit lies between 1 and 500, and a positive one up to 500 is honoured |
| Pagination.OnlyContinuationsChange | internal/apiclient/pagination.go:243-260 | Over any number of pages only continuation keys change, and each request carries the previous page's continuation |
| Pagination.PagesNameContinuationKeys | internal/apiclient/pagination.go:193-201 | Whatever a page names as its continuation goes under one of three keys |
| Pagination.UsedKeysStay | internal/apiclient/pagination.go:243-260 | A key once used for a continuation stays in the request |
| Pagination.CarriesOneContinuationIff | internal/apiclient/pagination.go:243-260 | A request carries only the continuation of the page before iff all pages before, and the caller if he gave one, used its key; otherwise a stale one goes along |
| Pagination.StaleContinuationGoesAlong | internal/apiclient/pagination.go:243-260 | An input: a page naming nextCursor and one naming nextToken |
| MetadataMerge.Merge | cmd/fetch_mcp_metadata/main.go:103-186 | The written table says of every canonical what previous snapshot, registry and listed tools make of it; failures, raw count and stubs are counted exactly |
| MetadataMerge.Table.Feed | cmd/fetch_mcp_metadata/main.go:148-160 | A listed tool refreshes exactly the canonicals whose feeder is its live key |
| MetadataMerge.Table.MergeLiveTool | cmd/fetch_mcp_metadata/main.go:269-286 | One entry is refreshed in place and keeps its reviewed interface_ref |
| MetadataMerge.BuildCrossServerRefs | cmd/fetch_mcp_metadata/main.go:293-318 | The index holds exactly the reviewed identities that differ from their canonical |
| MetadataMerge.OwnedIn | cmd/fetch_mcp_metadata/main.go:116-124 | Exactly the indexed canonicals are owned |
| MetadataMerge.FeedServer | cmd/fetch_mcp_metadata/main.go:143-161 | One server's tools extend the table by what they make of it |
| MetadataMerge.FillGaps | cmd/fetch_mcp_metadata/main.go:172-183 | Exactly the registry's missing canonicals get a stub, and are counted |
| MetadataMerge.FedEntryHolds | cmd/fetch_mcp_metadata/main.go:269-286 | The written entry of a fed canonical holds title, description and parameters of the last tool listed under its feeder, field by field, and besides only its interface_ref |
| MetadataMerge.UnfedEntryHolds | cmd/fetch_mcp_metadata/main.go:103-183 | What nothing feeds is as it was; what was not there is a bare interface_ref if the registry has it |
| MetadataMerge.FeederIs | cmd/fetch_mcp_metadata/main.go:293-314 | A canonical is fed under the product and RPC its previous entry names |
| MetadataMerge.UnreviewedFeedsItself | cmd/fetch_mcp_metadata/main.go:293-306 | Without such an entry it is fed under its own name |
| MetadataMerge.ListedIff | cmd/fetch_mcp_metadata/main.go:128-151 | A listing gives each named tool of each answering server under id, dot and trimmed name |
| MetadataMerge.LastWithIsLast | cmd/fetch_mcp_metadata/main.go:143-160 | The last tool listed under a key decides |
| MetadataMerge.FailedIdsAre | cmd/fetch_mcp_metadata/main.go:128-140 | A server is reported as failed iff it has an endpoint and its call failed |
| MetadataMerge.ReviewedRefSurvives | cmd/fetch_mcp_metadata/main.go:269-286 | Every reviewed interface_ref survives, whatever the servers list |
| MetadataMerge.SnapshotCovers | cmd/fetch_mcp_metadata/main.go:103-183 | The result holds exactly the canonicals of registry and previous snapshot, and says when one lacks an interface_ref |
| MetadataMerge.OrderIndependentIff | cmd/fetch_mcp_metadata/main.go:128-162 | The result does not depend on the order of tools iff tools that feed the same canonical show the same |
| MetadataMerge.ServersInAnyOrder | cmd/fetch_mcp_metadata/main.go:128-162 | With unique live keys the result is the same for every order of servers |
| MetadataMerge.IdsShareKeysIff | cmd/fetch_mcp_metadata/main.go:151 | Tools of two servers can share a live key iff one id goes on from the other behind a dot, as a tool name could |
| MetadataMerge.UniquePairsGiveUniqueKeys | cmd/fetch_mcp_metadata/main.go:128-151 | If no id extends another, unique pairs of server and tool give unique live keys |
| MetadataMerge.UniqueToolsInAnyOrder | cmd/fetch_mcp_metadata/main.go:128-162 | Under such ids, servers that list each tool once give the same result in any order |
| MetadataMerge.DottedIdsCollide | cmd/fetch_mcp_metadata/main.go:151 | An input: the ids "a" and "a.b" |
| MetadataMerge.DerivedRegistryNamesItself | cmd/fetch_mcp_metadata/main.go:330-341 | A registry derived from canonical paths names its own canonicals |
| MetadataMerge.RerunIsStable | cmd/fetch_mcp_metadata/main.go:88-183 | Running again on the own output with the same servers changes nothing |
| MetadataMerge.CoverageCountsBlanks | cmd/fetch_mcp_metadata/main.go:247-263 | The services reported as covered are those that answered and, besides, those without an endpoint |
| MetadataMerge.BlankServerCounts | cmd/fetch_mcp_metadata/main.go:247-263 | An input: one server without an endpoint |
| MetadataMerge.CoverageCountsStubs | cmd/fetch_mcp_metadata/main.go:243-263 | The report counts as matched the canonicals that are no gaps; a rerun on the own output counts all of them |
| MetadataMerge.MatchedCountsKeptStubs | cmd/fetch_mcp_metadata/main.go:243-263 | The report counts as matched the entries that are no stubs and, besides, the stubs of the previous snapshot that no listed tool refreshes |
| MetadataMerge.MatchedExcludesStubsIff | cmd/fetch_mcp_metadata/main.go:243-263 | Stubs are left out of the matched tools iff every stub of the previous snapshot is fed by a tool listed now |
| MetadataMerge.StubCountsAsMatched | cmd/fetch_mcp_metadata/main.go:172-198 | An input: a registry of one canonical and no servers |
| McpUrlOwnership.ConfigDir.Persist | internal/app/auth_command.go:1407-1467 | The code carries out the plan of the login on the two files, whatever fails or stops |
| McpUrlOwnership.ConfigDir.PersistExplicit | internal/app/auth_command.go:1412-1419 | Explicit login: marker off, then the URL |
| McpUrlOwnership.ConfigDir.PersistManaged | internal/app/auth_command.go:1420-1441 | Managed login, with the marker taken back when the URL cannot be written |
| McpUrlOwnership.ConfigDir.PersistDefault | internal/app/auth_command.go:1442-1463 | Default login restores only a managed URL |
| McpUrlOwnership.ConfigDir.RemoveMarkerFile | internal/app/auth_command.go:1469-1474 | Removing a marker that is gone finishes unless the process stops; a removal that finishes leaves no marker |
| McpUrlOwnership.UnownedIsKeptOverRuns | internal/app/auth_command.go:1420-1463 | Over any sequence of region logins, each failing or stopping anywhere, a URL that is somebody's own stays and stays theirs |
| McpUrlOwnership.UnownedIsKept | internal/app/auth_command.go:1420-1463 | The same for one login |
| McpUrlOwnership.UrlChangesOnlyIfManaged | internal/app/auth_command.go:1420-1463 | A region login changes the URL only to its own value and only where there is none or a managed one |
| McpUrlOwnership.ExplicitChoiceStays | internal/app/auth_command.go:1412-1463 | A settled explicit choice outlives all region logins |
| McpUrlOwnership.FinishedIsSettled | internal/app/auth_command.go:1407-1467 | A login that finishes leaves exactly what it should |
| McpUrlOwnership.FinishedLoginsDo | internal/app/auth_command.go:1407-1467 | What a login that finishes does, case by case over the two files |
| McpUrlOwnership.OutcomeTells | internal/app/auth_command.go:1407-1467 | A login fails only if an operation did, is stopped only if the process was, and finishes if all goes well |
| McpUrlOwnership.ExplicitLeaves | internal/app/auth_command.go:1412-1419 | Where an explicit login can leave the files: the marker goes first |
| McpUrlOwnership.ManagedLosesOwnershipIff | internal/app/auth_command.go:1434-1440 | Exactly when a failed or stopped managed login turns a managed URL into one that counts as somebody's own |
| McpUrlOwnership.FailedRefreshLosesOwnership | internal/app/auth_command.go:1434-1440 | An input: the URL "a" under the marker "a", and a refresh to "b" whose URL cannot be written |
| McpUrlOwnership.FirstLoginKeepsOwnership | internal/app/auth_command.go:1434-1440 | A first managed login never loses ownership, however it ends |
| McpUrlOwnership.RetryReachesIff | internal/app/auth_command.go:1407-1467 | The same login done again reaches its goal except exactly when it is a managed one over a managed URL whose operations fare as in ManagedLosesOwnershipIff |
| McpUrlOwnership.SwitchingBackIsFinal | internal/app/auth_command.go:1442-1463 | After switching to a region and back no region login changes the URL again |
| PageCounters.MessageMetrics | scripts/run_chat_shortcut_live_audit.py:250-289 | The label-set counter returns the number of distinct rows, and of those that react and are in threads; nothing iff no page has a collection |
| PageCounters.CollectionCount | scripts/run_chat_shortcut_live_audit.py:292-328 | The set-and-number counter returns the same number of distinct rows, and nothing in the same cases |
| PageCounters.MarkRow | scripts/run_chat_shortcut_live_audit.py:271-286 | One row is marked under its identity or a number of its own |
| PageCounters.MarkPage | scripts/run_chat_shortcut_live_audit.py:271-286 | A page extends the marks by its rows |
| PageCounters.CountPage | scripts/run_chat_shortcut_live_audit.py:312-325 | A page extends set and number by its rows |
| PageCounters.ReadIdentity | scripts/run_chat_shortcut_live_audit.py:272-281 | The first identity key with a value is read, "" if there is none |
| PageCounters.IdentityIsFirst | scripts/run_chat_shortcut_live_audit.py:274-280 | The identity is the text of the first key with a value that is neither null nor empty |
| PageCounters.NoIdentity | scripts/run_chat_shortcut_live_audit.py:272-281 | Without one there is none |
| PageCounters.RowsAreAtFirst | scripts/run_chat_shortcut_live_audit.py:263-270 | The rows of a call are at the first path that leads to a list |
| PageCounters.PathLeads | scripts/run_chat_shortcut_live_audit.py:210-226 | A path leads through the members of objects to a list |
| PageCounters.StarGathers | scripts/run_chat_shortcut_live_audit.py:213-222 | A star gathers what is found behind every item, in their order |
| PageCounters.LabelledSize | scripts/run_chat_shortcut_live_audit.py:275-289 | A set of labels has as many members as there are distinct rows |
| PageCounters.LabelsSize | scripts/run_chat_shortcut_live_audit.py:278-282 | No label of an identity collides with a numbered one, whatever the identity reads |
| PageCounters.CountIgnoresPages | scripts/run_chat_shortcut_live_audit.py:259-289 | The count does not depend on how rows are spread over pages, nor on their order |
| PageCounters.RepeatsAreFreeIff | scripts/run_chat_shortcut_live_audit.py:271-282 | Another row leaves the count as it is iff it fails the test or repeats an identity |
| PageCounters.TestedAreFewer | scripts/run_chat_shortcut_live_audit.py:283-289 | The reaction and thread counts never exceed the count |

## Left out

- The prose of errors, warnings and progress messages; only which error it is, where that decides something.
- Redaction.RedactArray: the items of the array itself are overwritten in place; arrays inside its items are values, so that a nested array shared with the caller changes too is not captured.
- Redaction.RedactBody: decoding and encoding are arguments; a token spelled by the punctuation or the escapes of the encoded text is outside, and so is the redaction of headers (`internal/app/event_personal_command.go`, 1634-1680).
- SingleRun.ConsumeSingle: one value stands for the outcome of all checks before the claim; dry runs, foreground buses and the event stream itself are outside.
- SubscriptionRun.ConsumeMany: starts after the claim was granted; endpoint validation and fingerprints of the plans are outside.
- AttemptStore.LeaseIsExclusive: the store is modelled on values, one atomic change per operation; the file lock, failed reads and writes of the file (an operation that is refused), error codes and trace ids are outside, and so is an owner that settles after its lease.
- AttemptTiming.RetryDelayIsLongest: dates are given as distances from now; parsing them is outside.
- Classification of API errors into retryable and terminal ones (`internal/app/event_personal_attempts.go`, 266-344): a case analysis without a law.
- MetadataMerge.BuildCrossServerRefs: the order of the canonicals under a live key, which the code sorts, is left open; the merge is proved for every order.
- TokenCache.HitIsFresh: assumes that every publisher writes the credential first and then a marker with a revision never used before; the auth storage behind it is outside.
- TokenManager.Manager.Get: the clock and the answers of marker and credential reads are arguments; the lock is one holder per entry in TokenCache; the canonical form of the directory (`internal/app/access_token_resolve.go`, 295-300) is taken as the key.
- GatewayHosts.UrlRulesCommute: URL parsing and printing are outside; a URL is its parsed parts, its host ASCII.
- EndpointRegistry.LookupFollowsLastClaim: environment overrides and the edition's own servers are arguments and excluded where they answer first; the lock around the tables is outside.
- Pagination.PaginateAll: the server is a fixed sequence of answers, one per request; content type, size limit and API errors are folded into an unreadable answer, the delay between pages into the look at cancellation; the number text of a numeric cursor is an argument.
- MetadataMerge.Merge: the extraction of parameters from a schema is an argument; reading and writing the snapshot file is outside.
- McpUrlOwnership.ConfigDir.Persist: a write replaces a file as a whole or not at all; that AtomicWrite in internal/helpers/atomicwrite.go does so is assumed. An unknown persistence mode is not modelled.
- EventPlanning.PrepareMulti: event definitions and the checks of rules and filters are arguments; validation errors carry a kind, not a text.
- StopCommand.Stop: a run state is its id; the file is a list in its order, sorting is outside; stopping consumers is one request whose failure only warns.
- PageCounters.MessageMetrics: Python's text of a value and the recursive tests for reactions and threads are arguments; the paths of a tool are given.
- HTTP transport, keychain, IPC, process signals, command construction, login flows, doctor, plugins, rendering: I/O or plumbing without a law that the code decides.
