# Fleet Intelligence agent: verified models

The agent runs on a GPU node. It shares one bearer token between concurrent
exports, agrees on one machine identity with its own command line, runs timed
inventory and attestation workers, keeps a machine-info cache, hashes
inventories, converts JSON and labels to OTLP, retries uploads, selects
components, and publishes scheduler job mappings as metric series. This project
models those pieces in Dafny and proves what each promises over every input,
every run and every interleaving. `dafny verify dfyconfig.toml` checks it.

| file | models |
|---|---|
| `SakAuth.dfy`, `SakAuthRuns.dfy` | the shared-token protocol of the collector's authenticator, as atomic steps of any number of round trips |
| `Metadata.dfy`, `MetadataRuns.dfy` | the metadata table, identity agreement, node placement and inventory export, statement by statement |
| `SingleFlight.dfy`, `Attestation.dfy` | the timed single-flight workers, their schedule, and the attestation workflow |
| `MachineInfoCache.dfy` | the asynchronous machine-info cache |
| `InventoryHash.dfy`, `OtlpTree.dfy` | the inventory normal form and the JSON-to-OTLP tree |
| `EntityCatalog.dfy`, `Labels.dfy` | the GPU identity catalog and label enrichment over it |
| `RetryWriter.dfy` | the upload retry loop with its free retry after a token refresh |
| `ComponentSelection.dfy` | memoised component selection, the reported lists, and registration |
| `HpcJobs.dfy` | the job-mapping reader and the series collector |
| `Text.dfy`, `Jitter.dfy`, `Prelude.dfy` | string order, sorting, key lists and trimming; the shared random delay; `Option` |

A concurrent component is a state machine: `Enabled` and `Apply` give its atomic
steps, `IsRun` its runs, `Inv` what every step keeps. Its fields and critical
sections are also a class whose methods are proved equal to the same functions
the machine steps use. What the network, the clock, the random source, the file
system and other processes decide is an argument or an arbitrary step.

Hypotheses on the environment, each stated where it is used:

- `SakAuth.Enabled`: a minted token is a new non-empty string, so issue numbers
  increase; a response header carries nothing, an echo of the request's token,
  or a token minted for that one response. `SakAuth.Init`: start-up enrollment
  has completed.
- `MetadataRuns.Enabled`: each SQL statement is atomic, and no single-key setter
  writes the identity row.
- `InventoryHash.Faithful`, `InventoryHash.Separates`: what serialises alike is equal.
- `EntityCatalog.Trimmer`: trimming is idempotent and keeps the empty string.
- `HpcJobs.DistinctNames`: a directory lists each name once.

Three statements that look natural are false of the code, and are settled exactly:

- The stored token's issue number is not monotone. `SakAuthRuns.StoredIssueCanDrop`
  builds a run in which it drops. `SakAuthRuns.StoreDropsIff` says exactly when a
  re-enrollment lowers it, from the order of steps alone: when a header token issued
  after its mint is installed before its store.
  `SakAuthRuns.MonotoneIffNeverOvertaken` says so of whole runs, and
  `SakAuthRuns.DropsOnlyInsideOneWindow` bounds how far it can fall.
- Memoised `ShouldEnable` does not always equal its definition: after a `*` or
  `all` that is not in first place the same question is answered yes and then no.
  `ComponentSelection.MemoIsInvisibleIff` and
  `ComponentSelection.RegistersWhatIsReportedIff` show that this is the only case.
- The DCGM loop does not always leave a consistent index: two keys that trim to
  one UUID but name different indices leave a dangling entry in some map order.
  `EntityCatalog.ConsistentIffAgreeing` gives the exact condition for that loop and
  `EntityCatalog.CatalogConsistentIffAgreeing` for the finished catalog.

`created`, as `GetOrCreateAgentUUIDMetadata` returns it, means "the committed
value equals my candidate" rather than "I created it", so "at most one caller
reports it" is false too: `MetadataRuns.BothCanReportCreated` has two callers do so,
and `MetadataRuns.BothCreatedIff` shows that two do if and only if both proposed the
committed value.

## Model

| member | source | states |
|---|---|---|
| `SakAuth.StepKeepsInv` | otelcol/auth/sakauth/extension.go:129-253 | every step of any interleaving keeps: tokens in flight are unstored, unshared and newer than the token their request used; `refreshMu` is held by exactly the trip inside the refresh section; a trip's enrollment window opened on its own stale token |
| `SakAuth.HeaderKeepsInv` | otelcol/auth/sakauth/extension.go:219-229 | the compare-and-swap from a response header keeps that invariant whether or not it installs |
| `SakAuth.StoreKeepsInv` | otelcol/auth/sakauth/extension.go:149-151 | so does the unconditional write of a re-enrollment |
| `SakAuth.SettleKeepsInv` | otelcol/auth/sakauth/extension.go:149-151 | a trip may store the token it carries, or keep what is stored, because no other trip carries it |
| `SakAuth.Extension.Start` | otelcol/auth/sakauth/extension.go:98-107 | the field holds the enrolled token, or is left as it was when enrollment fails |
| `SakAuth.Extension.GetJwt` | otelcol/auth/sakauth/extension.go:123-127 | reads the field |
| `SakAuth.Extension.InstallHeaderToken` | otelcol/auth/sakauth/extension.go:219-225 | the field changes only from the token the request used, and only to the header's |
| `SakAuth.Extension.RefreshJwt` | otelcol/auth/sakauth/extension.go:129-153 | a current token is returned untouched; otherwise the enrollment's token is stored and returned over whatever headers landed meanwhile, and a failed enrollment leaves what they left |
| `SakAuth.FirstHeaderWins` | otelcol/auth/sakauth/extension.go:211-225 | of any number of responses to requests that used the stored token, exactly the first new token is installed |
| `SakAuthRuns.HeaderInstallRaises` | otelcol/auth/sakauth/extension.go:219-225 | a header install strictly raises the stored issue number; no other step but a re-enrollment changes it |
| `SakAuthRuns.StoredChanges` | otelcol/auth/sakauth/extension.go:149-225 | only those two steps change the stored token, and both store a token never stored before |
| `SakAuthRuns.EnrolledTokenIsNewer` | otelcol/auth/sakauth/extension.go:133-152 | a re-enrollment stores a token newer than every token minted before its stale check |
| `SakAuthRuns.NeverBelowAWindow` | otelcol/auth/sakauth/extension.go:129-153 | after a re-enrollment nothing older than the opening of its window is ever stored again |
| `SakAuthRuns.DropsOnlyInsideOneWindow` | otelcol/auth/sakauth/extension.go:129-225 | in every run the issue number drops only between two tokens minted in one enrollment window, and stays above the value stored when it opened |
| `SakAuthRuns.StoreDropsIff` | otelcol/auth/sakauth/extension.go:139-225 | a re-enrollment lowers it if and only if, between its mint and its store, a reply brought a token not issued before and the compare-and-swap installed it |
| `SakAuthRuns.MonotoneIffNeverOvertaken` | otelcol/auth/sakauth/extension.go:129-225 | a run never holds an older token than before if and only if no enrollment in it is overtaken so |
| `SakAuthRuns.StoredIssueCanDrop` | otelcol/auth/sakauth/extension.go:143-151 | some run does drop, so plain monotonicity is false |
| `SakAuthRuns.ReplacedNeverReturns` | otelcol/auth/sakauth/extension.go:133-225 | over a whole run a replaced token never becomes the stored token again |
| `SakAuthRuns.OneEnrollmentPerStaleToken` | otelcol/auth/sakauth/extension.go:133-152 | however many requests are rejected with one token, at most one re-enrollment is stored for it |
| `SakAuthRuns.RoundTripIsBounded` | otelcol/auth/sakauth/extension.go:201-254 | each round trip makes at most two sends, one stale check and one enrollment |
| `SakAuthRuns.RetriesAreJustified` | otelcol/auth/sakauth/extension.go:227-253 | a retry follows that trip's own 401 and carries a different token, stored at a moment when the trip held `refreshMu` |
| `SakAuthRuns.RejectedTripsRetry` | otelcol/auth/sakauth/extension.go:231-253 | a trip that got a 401 and has finished has sent again, unless its body could not be replayed or its enrollment failed |
| `SakAuthRuns.NobodyIsStuck` | otelcol/auth/sakauth/extension.go:129-253 | an unfinished trip can move, or waits for `refreshMu` while its holder can; no trip moves more than eight times |
| `Metadata.Table.GetOrCreateAgentUUID` | internal/agentstate/sqlite.go:136-174 | without other writers: an existing identity is returned and nothing written; a failed or empty candidate changes nothing; otherwise the candidate is committed and reported as created |
| `Metadata.Table.ReadAgentUUID` | internal/agentstate/sqlite.go:176-192 | a missing row and an empty value both read as absent |
| `Metadata.Table.InsertAgentUUID` | internal/agentstate/sqlite.go:155-163 | the conditional upsert writes a missing or empty row only |
| `Metadata.Table.ReadNodePlacement` | internal/agentstate/sqlite.go:222-246 | both fields from one state of the table |
| `Metadata.Table.UpdateNodePlacement` | internal/agentstate/sqlite.go:268-290 | replaces exactly the fields supplied |
| `Metadata.Table.RemoveEnrollmentMetadata` | cmd/fleetint/unenroll.go:67-91 | every enrollment row is gone, the placement reads empty, the identity and every other row are untouched, and no export proceeds until the agent enrolls again |
| `Metadata.Table.StoreConfig` | internal/enrollment/enrollment.go:151-186 | exactly the statements before the failing one are kept, each value by name; however many commit, the identity and every other row are untouched |
| `Metadata.ConfigStored` | internal/enrollment/enrollment.go:170-183 | value by value in the source's order, what is stored once the first n statements have committed and what is still as before |
| `Metadata.Table.Export` | internal/inventory/sink/backend.go:45-122 | case by case over the backend's answer and over which step fails: the outcome, whether it wrote, and the table afterwards |
| `Metadata.ReachesBackendIff` | internal/inventory/sink/backend.go:55-83 | the upsert is reached if and only if nothing before it failed and the agent is enrolled |
| `Metadata.ExportStoresBackendPair` | internal/inventory/sink/backend.go:84-116 | after a successful export that read the placement the table holds the backend's pair, and no other key has moved |
| `Metadata.SecondExportWritesNothing` | internal/inventory/sink/backend.go:112-116 | with an idempotent backend a second export succeeds without a write |
| `MetadataRuns.StepKeepsInv` | internal/agentstate/sqlite.go:136-192 | every statement of every caller, enrollment, un-enrollment and placement writer keeps: whoever has written finds an identity, and whoever has returned holds the committed one |
| `MetadataRuns.IdentityStep` | internal/agentstate/sqlite.go:155-163 | no statement replaces a committed identity, and only an upsert commits one |
| `MetadataRuns.IdentityIsStable` | internal/agentstate/sqlite.go:136-192 | once non-empty the identity never changes, un-enrollment and re-enrollment included |
| `MetadataRuns.CallersAgree` | internal/agentstate/sqlite.go:136-174 | all callers that return, at any two moments of a run, return the same non-empty value |
| `MetadataRuns.ResultHasAnOrigin` | internal/agentstate/sqlite.go:141-173 | that value is the initial row or a candidate some caller proposed |
| `MetadataRuns.AlwaysCommitted` | internal/agentstate/sqlite.go:165-172 | the "not committed" branch is unreachable |
| `MetadataRuns.CreatedIffProposed` | internal/agentstate/sqlite.go:148-173 | a caller reports created if and only if an earlier step of its own proposed the value that was committed |
| `MetadataRuns.BothCreatedIff` | internal/agentstate/sqlite.go:173-173 | two callers both report created if and only if both proposed the committed value |
| `MetadataRuns.CreatedOnceForDistinctCandidates` | internal/agentstate/sqlite.go:173-173 | so with distinct candidates at most one does |
| `MetadataRuns.BothCanReportCreated` | internal/agentstate/sqlite.go:173-173 | with one hardware UUID two callers can both report created |
| `MetadataRuns.SoloCallReturns` | internal/agentstate/sqlite.go:136-174 | one uninterrupted call, from the row itself: an existing value is returned and nothing written, an empty candidate is an error, otherwise the candidate is stored and returned as created |
| `MetadataRuns.ReadersDoNotPropose` | internal/agentstate/sqlite.go:141-146 | a caller whose first read finds an identity returns that value, not created, and never proposes |
| `MetadataRuns.CallersCanGoOn` | internal/agentstate/sqlite.go:136-174 | a caller that has not returned or failed always has a statement to run |
| `MetadataRuns.PlacementIsFold` | internal/agentstate/sqlite.go:222-290 | at every moment the placement read is the fold of the committed changes, each overriding exactly its supplied fields |
| `MetadataRuns.ExportSendsAFoldedPair` | internal/inventory/sink/backend.go:84-95 | every pair an export sends is the fold of a prefix of those changes: never a torn pair |
| `MetadataRuns.ExportStoresTheReply` | internal/inventory/sink/backend.go:105-116 | with concurrent writers, the table equals the reply afterwards if and only if the reply differed from what was sent or the placement had not moved; with none, always |
| `Jitter.Calculate` | internal/inventory/manager.go:196-210 | the jitter is a whole number of milliseconds, not negative, and below its maximum |
| `SingleFlight.RunAttestation` | internal/attestation/manager.go:81-111 | the first attempt comes after the jitter, each later one the retry interval after a failure if there is one and the normal interval otherwise; none when the interval is not positive |
| `SingleFlight.RunInventory` | internal/inventory/manager.go:56-124 | the same; exactly one attempt when the interval is not positive |
| `SingleFlight.StepKeepsInv` | internal/inventory/manager.go:87-117 | every step keeps lock ownership, channel contents and the schedule |
| `SingleFlight.WorkflowsNeverOverlap` | internal/attestation/manager.go:125-155 | `runMu` is held exactly while one worker has not run its deferred unlock, so workflows never overlap, timeouts included |
| `SingleFlight.WorkersNeverBlock` | internal/inventory/manager.go:98-109 | a worker with a result can always send it |
| `SingleFlight.AttemptsReceiveTheirOwnResult` | internal/inventory/manager.go:91-117 | the result an attempt records was sent, after the attempt began, by the worker its own begin step started at its own start time |
| `SingleFlight.UnservedAttemptsFail` | internal/inventory/manager.go:91-117 | an attempt that times out, or finds the previous worker still running, is recorded as failed at that moment |
| `SingleFlight.AttemptsStartWorkersIff` | internal/attestation/manager.go:129-149 | an attempt starts a worker if and only if none is still to unlock, and then waits for that one |
| `SingleFlight.SomethingCanHappen` | internal/attestation/manager.go:95-155 | the loop can always act or let time pass, and a worker that holds the lock can always send or unlock |
| `SingleFlight.GapsAreBounded` | internal/attestation/manager.go:95-111 | after a failure with a positive retry interval R the next start is between R and T+R after the last one; otherwise between the normal interval I and T+I |
| `SingleFlight.StartsAreBounded` | internal/attestation/manager.go:81-155 | with both intervals between lo and hi, attempt k starts between k·lo and the startup jitter's maximum plus k·(T+hi) |
| `Attestation.Manager.CollectOnce` | internal/attestation/manager.go:157-208 | case by case over what the providers answer: the external actions in order with the nonce, result and token each carries, the recorded result, and no error exactly when collection and submission both succeed |
| `Attestation.SubmitsAtMostOnce` | internal/attestation/manager.go:157-208 | in every interleaving, cut off anywhere, an attempt submits at most once |
| `Attestation.CollectsAfterPersisting` | internal/attestation/manager.go:174-180 | a differing refreshed token is persisted before evidence is collected |
| `Attestation.SubmissionsAreFaithful` | internal/attestation/manager.go:180-203 | a submission carries its own attempt's UUID, nonce timestamp, time, response, error message and the rotated token when there is one, and reports failure exactly when collection failed |
| `Attestation.SubmitsAfterCollecting` | internal/attestation/manager.go:179-203 | nothing is submitted before that attempt collected its evidence |
| `Attestation.SubmitsIff` | internal/attestation/manager.go:157-203 | the workflow submits if and only if it has identity, token and nonce and no differing refreshed token fails to persist; a failed collection does not stop it |
| `Attestation.FailuresAreSubmitted` | internal/attestation/manager.go:180-203 | an attempt run to its end after a failed collection has submitted that failure with its message |
| `Attestation.CollectsOwnNonce` | internal/attestation/manager.go:169-180 | evidence is collected for the attempt's own nonce |
| `MachineInfoCache.Provider.constructor` | internal/exporter/collector/machine_info_provider.go:54-67 | an empty cache; a non-positive staleness becomes the default |
| `MachineInfoCache.Provider.TryBeginRefresh` | internal/exporter/collector/machine_info_provider.go:85-91 | starts a refresh exactly when none is marked and the cache is empty or stale |
| `MachineInfoCache.Provider.RefreshToEnd` | internal/exporter/collector/machine_info_provider.go:80-114 | one refresh run to the end: none without a DCGM instance, while one is marked, or while fresh; a failure leaves the cache, a success is the cached value, with no refresh due until it is stale; the mark is gone and the signal given either way |
| `MachineInfoCache.Provider.MarkInitialRefreshDone` | internal/exporter/collector/machine_info_provider.go:152-156 | closes the channel on its first call only |
| `MachineInfoCache.Provider.TryBeginWait` | internal/exporter/collector/machine_info_provider.go:116-127 | only the first caller with a positive wait goes on to wait |
| `MachineInfoCache.StepKeepsInv` | internal/exporter/collector/machine_info_provider.go:80-156 | every step keeps the agreement of mark, refreshes, cache and signal |
| `MachineInfoCache.RefreshingIsSingleFlight` | internal/exporter/collector/machine_info_provider.go:85-98 | `refreshing` holds exactly while a refresh is in flight, and then only one is |
| `MachineInfoCache.CacheIsLatestSuccess` | internal/exporter/collector/machine_info_provider.go:101-110 | the cache is the result of the latest-started successful refresh; a failure never changes or clears it |
| `MachineInfoCache.NoRefreshWhileFresh` | internal/exporter/collector/machine_info_provider.go:142-150 | no refresh starts until `staleAfter` has passed since every earlier success |
| `MachineInfoCache.RefreshStartsIff` | internal/exporter/collector/machine_info_provider.go:80-91 | a call starts a refresh if and only if none is in flight and every success so far, if there was any, is at least `staleAfter` old |
| `MachineInfoCache.RefreshesCanGoOn` | internal/exporter/collector/machine_info_provider.go:93-114 | a refresh that has not ended can go on, and when it has the signal is given |
| `MachineInfoCache.ClosesAtMostOnce` | internal/exporter/collector/machine_info_provider.go:152-156 | the done channel is closed at most once in a run |
| `MachineInfoCache.TrueWaitOnEmptyCacheMeansFailures` | internal/exporter/collector/machine_info_provider.go:116-140 | after a true wait, an empty cache means that some refresh completed and every completed one failed |
| `MachineInfoCache.WaitsTrueAtMostOnce` | internal/exporter/collector/machine_info_provider.go:121-134 | at most one wait in a run returns true |
| `MachineInfoCache.OnlyTheFirstWaits` | internal/exporter/collector/machine_info_provider.go:116-140 | the first call with a positive wait waits and no other does; it can return true exactly when the signal was given |
| `InventoryHash.PayloadsAgreeIffEquivalent` | internal/inventory/hash.go:28-58 | a snapshot shares its payload with exactly the snapshots that agree with it up to collection time, stored hash, order of the set-like lists (nested parents included) and nil versus empty for the four copied lists; those fail to serialise alike |
| `InventoryHash.NormalFormsAgree` | internal/inventory/hash.go:32-50 | the same for the normal forms, without serialisation of the whole |
| `InventoryHash.DevicesAgree` | internal/inventory/hash.go:60-70 | two device lists normalise alike if and only if one is a reordering of the other device by device, parents up to order |
| `InventoryHash.StringsAgree` | internal/inventory/hash.go:72-79 | two string lists normalise alike if and only if they are equal as multisets |
| `InventoryHash.ItemsAgree` | internal/inventory/hash.go:84-110 | two item lists normalise alike if and only if they are equal as multisets and both nil or neither |
| `InventoryHash.NormalizeIsIdempotent` | internal/inventory/hash.go:28-110 | normalising a normal form changes nothing |
| `InventoryHash.NormalListsAreSorted` | internal/inventory/hash.go:32-110 | every list of a normal form is in ascending order, strings by themselves and items by their serialisation |
| `InventoryHash.NilVersusEmpty` | internal/inventory/hash.go:60-87 | nil and empty hash alike for components, devices and parents, and differently for GPUs and interfaces |
| `InventoryHash.SortDecorated` | internal/inventory/hash.go:89-109 | sorting pairs by their stored serialisation sorts the values by theirs |
| `InventoryHash.SortedStringsOf` | internal/inventory/hash.go:72-79 | a fresh sorted copy, the argument unchanged |
| `InventoryHash.SortedByCanonicalJSONOf` | internal/inventory/hash.go:84-110 | a fresh copy sorted by serialisation, the argument unchanged |
| `InventoryHash.NormalizedBlockDevicesOf` | internal/inventory/hash.go:60-70 | a fresh normal copy, the argument unchanged though the copy's parents are overwritten |
| `InventoryHash.ComputePayload` | internal/inventory/hash.go:28-55 | the payload of what memory holds, which is left as it was; nil and a snapshot that does not serialise are refused |
| `OtlpTree.ConversionIsDeterministic` | internal/exporter/converter/otlp.go:706-752 | whatever order the maps are ranged over, exactly one tree results |
| `OtlpTree.ConvertIsWellOrdered` | internal/exporter/converter/otlp.go:706-721 | keys are strictly sorted at every depth |
| `OtlpTree.DecodeConvert` | internal/exporter/converter/otlp.go:706-752 | reading the tree back gives the value with each null replaced by the string "null" |
| `OtlpTree.ConvertDecode` | internal/exporter/converter/otlp.go:706-752 | every well-ordered tree is the conversion of what it reads back as |
| `OtlpTree.SameTreeIffSameValue` | internal/exporter/converter/otlp.go:706-752 | two values convert to one tree if and only if they are equal after that replacement |
| `OtlpTree.ExtraInfoIsWellOrdered` | internal/exporter/converter/otlp.go:639-704 | extra info is strictly sorted at every depth and lists exactly the given keys |
| `OtlpTree.StructuredMeans` | internal/exporter/converter/otlp.go:695-704 | a string that parses to anything but null reads back as the parsed value with nulls replaced; any other is itself |
| `OtlpTree.ExtraInfoEntries` | internal/exporter/converter/otlp.go:639-653 | each key's entry holds what its own string becomes |
| `EntityCatalog.NewEntityCatalog` | internal/exporter/collector/identity.go:53-124 | every identity is filed under its own UUID; when DCGM keys for one GPU agree, every index points to a catalogued GPU with that index and no DCGM index is replaced; for any map order, duplicates and clashes |
| `EntityCatalog.ConsistentIffAgreeing` | internal/exporter/collector/identity.go:59-70 | the DCGM loop gives consistent tables in every map order if and only if keys that trim to one UUID agree on its index |
| `EntityCatalog.CatalogConsistentIffAgreeing` | internal/exporter/collector/identity.go:53-124 | the finished catalog is consistent for every machine info and every map order if and only if the same holds |
| `EntityCatalog.FiledKeepsConsistent` | internal/exporter/collector/identity.go:65-69 | filing an identity keeps the tables consistent unless it takes a known index away |
| `EntityCatalog.MergedKeepsConsistent` | internal/exporter/collector/identity.go:87-121 | so does laying any machine info over them |
| `EntityCatalog.IndexIsKept` | internal/exporter/collector/identity.go:93-97 | a GPU that has an index keeps it under any machine info |
| `EntityCatalog.LastEntryDecides` | internal/exporter/collector/identity.go:88-118 | the last machine-info entry about a GPU decides every field of its identity but a known index, field by field |
| `EntityCatalog.UnmentionedIsKept` | internal/exporter/collector/identity.go:88-118 | a GPU machine info does not mention keeps its DCGM identity |
| `EntityCatalog.LastFiledOwnsIndex` | internal/exporter/collector/identity.go:118-121 | of several GPUs with one index, the index points to the one filed last |
| `EntityCatalog.OverlaidIsConsistent` | internal/exporter/collector/identity.go:72-121 | the finished tables are consistent and keep every non-empty DCGM index |
| `EntityCatalog.CatalogSelfNamed` | internal/exporter/collector/identity.go:53-124 | every identity is filed under its own trimmed UUID, for all inputs |
| `Labels.EnrichLabels` | internal/exporter/converter/otlp.go:401-446 | the in-place steps compute `Enrich`, for any order of the source map |
| `Labels.EnrichKeepsLabels` | internal/exporter/converter/otlp.go:401-452 | every non-blank source label survives at its trimmed value; only identity keys are added; no label is blank |
| `Labels.EnrichFillsIdentity` | internal/exporter/converter/otlp.go:417-446 | labels that name a catalogued GPU, by parent UUID, then UUID, then index, show each of its eight identity values at that value's own key, unless a label was there |
| `Labels.NothingElseIsAdded` | internal/exporter/converter/otlp.go:401-432 | labels that name no catalogued GPU gain at most the CPU label |
| `Labels.EnrichFillsCpu` | internal/exporter/converter/otlp.go:409-411 | the CPU number becomes the CPU label, unless there was one |
| `Labels.EnrichIsIdempotent` | internal/exporter/converter/otlp.go:401-452 | enriching enriched labels changes nothing, for every catalog that can be built |
| `Labels.SameGPU` | internal/exporter/converter/otlp.go:417-433 | the second pass names the GPU the first one named, by UUID or by index |
| `Labels.LabelsToAttributes` | internal/exporter/converter/otlp.go:629-637 | every label once, strictly sorted by key |
| `RetryWriter.SendWithRetry` | internal/exporter/writer/http.go:137-222 | the loop terminates with a complete history; it answers the token the accepted response carried if and only if some send was accepted, and otherwise the cancellation or the failure of all attempts |
| `RetryWriter.RetryLoop` | internal/exporter/writer/http.go:146-222 | the loop itself, with its counter taken back after a refresh, goes from point to point of the call and stops where nothing comes next |
| `RetryWriter.RetriesAreBounded` | internal/exporter/writer/http.go:137-222 | at most m+1 sends, m refresh calls of which one succeeds, m-1 waits, and under 7.5(m-1) seconds of waiting |
| `RetryWriter.LegalIsBalanced` | internal/exporter/writer/http.go:146-211 | at every moment sends, refreshes and waits are in step with each other |
| `RetryWriter.EndsInOneWay` | internal/exporter/writer/http.go:146-222 | a call ends with an accepted send, a cancelled wait, or exactly m failed attempts and m-1 full waits; barring cancellation it succeeds exactly when some send does |
| `RetryWriter.SendsCarryTheRightToken` | internal/exporter/writer/http.go:142-182 | every send before the refresh carries the caller's token and every send after it the refreshed one |
| `RetryWriter.RefreshesAreJustified` | internal/exporter/writer/http.go:162-186 | the refresh function is called only right after a 401, only if set, and never after it has succeeded |
| `RetryWriter.WhatFollows` | internal/exporter/writer/http.go:146-211 | what follows each event: a refresh after exactly the 401s that allow one, a request right after a new token or a full wait, a wait after any other failure while attempts are left, and otherwise nothing |
| `RetryWriter.WorldIsAskedInOrder` | internal/exporter/writer/http.go:146-211 | each send, refresh and wait has the next outcome of its kind, for the token it carries |
| `RetryWriter.TallyCounts` | internal/exporter/writer/http.go:137-222 | the tallies in the bounds are the numbers of events of each kind |
| `RetryWriter.RefreshIsFree` | internal/exporter/writer/http.go:162-184 | a 401 followed by a successful refresh is retried at once, without using an attempt, even when only one is allowed |
| `RetryWriter.Delay` | internal/exporter/writer/http.go:193-195 | each wait is at least 5 and below 7.5 seconds |
| `RetryWriter.SendData` | internal/exporter/writer/http.go:85-134 | both halves start from the caller's token; logs go out whatever became of the metrics and alone decide success; the token returned is the one the logs' accepted response carried, else the metrics' one, else none |
| `ComponentSelection.Config.ShouldEnable` | internal/config/config.go:388-413 | one call's answer and the memo it leaves, the partial memo of a late wildcard included |
| `ComponentSelection.Config.ShouldDisable` | internal/config/config.go:417-442 | one call's answer and the memo it leaves |
| `ComponentSelection.MemoIsInvisibleIff` | internal/config/config.go:388-442 | over every sequence of calls all answers equal their memo-free definitions if and only if there is no late wildcard |
| `ComponentSelection.LateWildcardForgets` | internal/config/config.go:394-412 | with one, the same question is answered yes and then no |
| `ComponentSelection.DisableIsAlwaysPure` | internal/config/config.go:417-442 | `ShouldDisable` agrees with the list in every case |
| `ComponentSelection.AllIsAll` | internal/config/config.go:388-392 | an empty list, or one that begins with `*` or `all`, enables everything after any calls |
| `ComponentSelection.ListEnablesItsNames` | internal/config/config.go:394-412 | a list without a wildcard enables exactly its names that do not begin with a dash, after any calls |
| `ComponentSelection.GetComponentLists` | internal/config/config.go:514-554 | enabled and disabled are an order-preserving partition of all names; a name is enabled exactly when it has no dashed entry and, unless everything is selected, is an entry itself |
| `ComponentSelection.ShouldEnableComponent` | internal/server/server.go:224-238 | the server's decision and the memo it leaves |
| `ComponentSelection.DecideReports` | internal/server/server.go:224-238 | without a late wildcard that decision is what the reported lists say, and the default matters exactly when everything is selected |
| `ComponentSelection.Register` | internal/server/server.go:360-364 | the registration loop over one shared configuration |
| `ComponentSelection.RegistersWhatIsReportedIff` | internal/server/server.go:360-364 | with every component enabled by default the server registers exactly the reported enabled list, for every list of components, if and only if there is no late wildcard |
| `HpcJobs.ParseIffPrinted` | internal/workloadmetrics/hpcjob/reader.go:135-156 | a filename parses to a key if and only if the key is valid and the name is its printed form |
| `HpcJobs.ParseIsInjective` | internal/workloadmetrics/hpcjob/reader.go:135-156 | two names that parse to one key are one name |
| `HpcJobs.ParsedNamesAreSafe` | internal/workloadmetrics/hpcjob/reader.go:158-161 | a name that parses never meets the file reader's name refusal |
| `HpcJobs.GPUNamesSpelledOut` | internal/workloadmetrics/hpcjob/reader.go:50-51 | the two patterns, character by character |
| `HpcJobs.ReadJobIDs` | internal/workloadmetrics/hpcjob/reader.go:158-226 | the strictly sorted set of the valid trimmed lines, or nothing for an unusable file |
| `HpcJobs.ScanLines` | internal/workloadmetrics/hpcjob/reader.go:192-211 | the set of valid IDs, refused exactly when there are more than 16 distinct ones |
| `HpcJobs.IDsAreLines` | internal/workloadmetrics/hpcjob/reader.go:194-209 | an ID is valid for a file exactly when it is the trimmed text of some line, not blank and at most 256 bytes |
| `HpcJobs.OnlyTheIDsMatter` | internal/workloadmetrics/hpcjob/reader.go:192-226 | line order, repeats, blank and invalid lines do not matter, and nothing else is forgotten |
| `Text.TrimIsTheMiddle` | internal/workloadmetrics/hpcjob/reader.go:195-195 | trimming removes white space at both ends and nothing else |
| `Text.LessIsLexicographic` | internal/workloadmetrics/hpcjob/reader.go:225-225 | the sorting order is the lexicographic one |
| `HpcJobs.Read` | internal/workloadmetrics/hpcjob/reader.go:90-131 | exactly the mappings of the well-named, regular, usable, non-empty entries, no key twice; a missing directory is empty, an unreadable one an error |
| `HpcJobs.InverseOf` | internal/workloadmetrics/hpcjob/collector.go:90-97 | for every non-empty UUID one of the indices that have it, in any map order |
| `HpcJobs.ResolvedIsKnown` | internal/workloadmetrics/hpcjob/collector.go:142-161 | a resolved GPU is a known device found by its index or its UUID, and in UUID mode an identifier is unresolved exactly when no device has it |
| `HpcJobs.SeriesNamesMapping` | internal/workloadmetrics/hpcjob/collector.go:101-130 | a series determines the mapping it comes from, in both modes |
| `HpcJobs.EmittedIffCollected` | internal/workloadmetrics/hpcjob/collector.go:89-133 | a series is emitted if and only if its labels are a known device and some usable entry named for that device lists its workload |
| `HpcJobs.Collect` | internal/workloadmetrics/hpcjob/collector.go:76-140 | no two emitted series have equal labels, and the emitted ones are exactly those |

## Left out

- HTTP transport, TLS, body replay and response parsing: their outcomes are arbitrary steps or arguments.
- SQLite, file permissions and state-file paths: each statement is one atomic operation on a map.
- SHA-256: the hash is modelled up to its payload.
- `fleetint metadata --set-key machine_id` and `SetAgentUUID`: an operator's overwrite of the identity row is not a step of the identity runs.
- The mode of `runAttempt` with a non-positive timeout, which takes no lock and starts no worker, and the inventory manager's `CollectOnce` and `exportMu`.
- The checks for missing dependencies at the head of the attestation `Run` and `CollectOnce` and of the inventory `Export`.
- Timer lateness and scheduling delay: timers fire exactly when due in virtual time, so the schedule's bounds do not include them.
- The enrollment time and the hardware part of the node upsert request.
- Freshness of the persisted token across exports: `Send` may hand back an earlier header token after a later refresh was persisted, so it is not a property of this code.
- The default branch of `jsonValueToAnyValue`, which decoded JSON never reaches; 64-bit floats are reals.
- Unicode normalisation and invalid UTF-8, except that a job-ID line that is not valid UTF-8 is dropped.
- The SDK's component registry, DCGM, NVML, PCI probing and the attestation subprocess.
- Outbound validation (which only logs), precheck, duration and env-file parsing, reflection-based converters, CLI commands, rendering and logging: each is a check or a translation of one value with no state shared with the pieces above.
- InventoryHash.NormalizedBlockDevicesOf: a device's parents are a value, so sharing of a nested list between the argument and the copy is not captured.
- InventoryHash.ComputePayload: the errors of serialising a list item are left out; the error of serialising the whole is in it.
- InventoryHash.SortedByCanonicalJSONOf: the error return for an item that does not serialise is left out; the decorated items are a sequence and their sort a function, and only the result is an array.
- SakAuth.Extension.RefreshJwt: has the headers that land while its enrollment is in flight, not those between its store and its unlock; the machine has every interleaving.
- Metadata.Table.GetOrCreateAgentUUID: states the uninterrupted call whose statements succeed; interleaved and failing statements are in `MetadataRuns`.
- Metadata.Table.Export: states the uninterrupted call; the interleaved statements are in `MetadataRuns`.
