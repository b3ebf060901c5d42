# Models of phenix protocols and algorithms

These Dafny modules model the parts of phenix with the most state and the most branching, and prove what the code promises
of them. Each model takes the form of its source: handlers, registries and schedulers are classes and methods with loops,
proved against specification functions or step relations, and the main properties are lemmas about those, for all inputs,
all runs and all interleavings.

| modules | what they model |
|---|---|
| `Annotations`, `PublishModel`, `PublishSafety`, `PublishRuns`, `PublishTags`, `PublishResume`, `PublishAttempts`, `PublishResumeLimits`, `PublishResumeInputs`, `PublishRules`, `PublishEffects`, `PublishLog`, `PublishServer` | publishing a Builder draft: several config writes without compare-and-swap, each of which may fail, with other writers between publications |
| `RecordCodec`, `KeyOrder`, `RecordStore`, `RecordContents`, `RecordClients`, `RecordDB` | the transactional record store on Bolt, and clients that read, modify and write |
| `MisplacedKey`, `SearchOrder`, `ExplainSearch` | the search for a misplaced key in a YAML document whose aliases share nodes or form cycles |
| `Cluster`, `RoundRobin`, `SubnetCompute` | two schedulers |
| `WorkflowApply` | the plan/commit client of `phenix workflow apply` |
| `TopologyIncludes`, `IncludeErrors` | flattening topology includes, and what its errors say |
| `DiskLister` | the shared listing of disk images |
| `Tunneler` | the registry of local listeners |
| `Quoting` | quoting for the minimega command line, against its lexer |
| `AppLifecycle` | applying apps at a stage, with cleanup queue and running marks |
| `UnusedSubnet`, `IPSecKeys` | the search for a free subnet, and the pre-shared key table |

`Wrappers` holds the two result types, and `Contexts` the context that ends a run. The modules verify together with
`dafny verify dfyconfig.toml`.

## Where the code falls short of a promise

These properties are false of the code as it is. Each has a lemma with the exact condition, or with the input that breaks it.

- A draft imported from an experiment may replace the experiment's topology after others changed it, because its freshness
  check reads only the experiment: `LosesUpdateIff`, and for one overwrite `LosesUpdateThroughExperimentIff`. The comments
  promise that nothing unseen is overwritten.
- A reference with a document ID and a file path but no digest lets an unseen file be taken for the missing document:
  `LosesUpdateByReferenceIff`, `UnpinnedReferenceLosesUpdate`.
- An experiment that another writer changes between preflight and lock is overwritten unseen:
  `ChangeBeforeLockIsOverwritten`. Every other change to an experiment is one that preflight allowed, or the other
  writers' own: `NoLostExperimentUpdate`.
- Several publications can complete under one tag. A request that the draft already records for its current content
  completes without moving the tag on, so a different request then completes under the same tag: `RecordedUnlessAlready`,
  `TwoCompleteUnderOneTag`. At most one of them is recorded: `AtMostOneRecordedCompletion`.
- The retry test ignores the action on the experiment: `ExperimentActionNotCompared`.
- Resuming a failed publication does not always converge. Three things are in the way, each with its exact condition and
  an input:
  - A topology that names the document only in a file is not written by a request that is sent again after a failed
    topology stage, because the document is stored by then: `ResumeOfFileTopologyIff`, `FileTopologySkipped`.
  - When the configure stage fails and the update cannot be undone, the experiment counts as applied, so the request
    completes without ever running the configure stage: `ResumeAfterFailedRestoreIff`, `FailedRestoreSkipsConfigure`.
  - When the draft mark fails after a configure stage that changed topology or aliases (`ResumableIffLeftAlone`), a request
    that created the experiment is refused for good, and one that updated it runs the stage again: `ResumeOfCreateIff`,
    `CreatedExperimentRefused`, `ResumeOfUpdateIff`, `ConfigureRunsTwice`.
- A topology that names the document counts as published even if its spec was edited since: `CompletedNamesDocument`,
  `EditedTopologyStays`.
- A second import is accepted when the first publication left the spec as it was and there was no legacy diagram:
  `SecondImportRefused`.
- Revisions of rolled-back transactions are given out again, so only committed ones are never reused:
  `RolledBackRevisionReused`.
- An entry with source port 0 listens on a port that the registry does not name: `BoundPortsAreListed`, `PortZeroListens`.
- A single minimega argument is sent as it is, by design, and so read back only when it needs no quotes: `SingleArgumentIff`.
- Both schedulers index an empty cluster when a node is pending: the outcome `EmptyCluster` stands for that panic.
- A full cleanup empties the queue only if both lists of apps hold every app that is queued: `FullCleanup`, `ApplyApps`.
- When the save before a running stage fails and the reload after it succeeds, what was not saved is lost: a queued app is
  no longer queued, and the mark of another app can come back, which is then skipped: `StaysQueuedIff`,
  `QueueFollowsIff`, `FailedSavesLoseQueued`, `NothingLeftMarkedIff`, `NeverMarkedIff`, `FailedSavesLeaveMark`.
- With dashes in their addresses, the two ends of a tunnel can get different keys: `EndsAgreeIff`, `DashesCanDisagree`.
- A dry run changes nothing only on a server that knows config dry runs. One that ignores them stores at most one config, and
  the error says so: `DryRunConfigs`.

## Assumptions

- A content digest has no collisions, so the digested content itself stands for the digest. A published document ID is the pair
  of topology name and document that it is derived from.
- Fallible calls, other writers, answers of servers, interrupts, the clock, secrets and socket numbers are parameters, or
  choices that a method makes without saying how. The statements hold for all of them.
- Bolt is a map from byte strings to byte strings with a sequence, of which a rollback restores all. A run makes fewer than
  2^63 operations.
- The minimega lexer is the one that the comment in `src/go/cmd/mm.go` describes. Quoted parts join what they touch, and an
  escape or a quote that does not end is an error.
- The experiment of a scheduler has its schedule map, as its `Init` makes it.
- `UnusedSubnet.Invalid` is whatever the address library gives past the last block, which is the end of the search: its error,
  or its zero prefix. The used list does not hold the zero prefix.

## Model

| member | source | states |
|---|---|---|
| `Annotations.AddTopologyAddsOnlyIt` | src/go/web/builder_publish.go:2197-2215 | after the annotation is extended, the topology is listed, every other valid name is listed just as before, and doing it again changes nothing |
| `Annotations.CommaNeverNamed` | src/go/web/builder_publish.go:2210-2215 | a name with a comma is never found in the list, so only valid names make the extension idempotent |
| `PublishSafety.OnlyTargetWritten` | src/go/web/builder_publish.go:257-396 | a publication writes no topology but its target, and that one only after an accepted preflight that did not find it applied |
| `PublishSafety.AcceptedUpdate` | src/go/web/builder_publish.go:1342-1382 | an accepted topology update finds a document of the draft in the stored spec, or went by an import rule, or met an unpinned reference |
| `PublishSafety.NoLostUpdate` | src/go/web/builder_publish.go:1238-1402 | in every world, with any faults: a topology is replaced only as an update target whose spec is exactly a document the draft owns, or as an unchanged direct import. The two exceptions are named |
| `PublishSafety.LosesUpdateThroughExperiment` | src/go/web/builder_publish.go:881-946 | for each draft imported through an experiment there is a world in which it replaces a topology it never saw |
| `PublishSafety.LosesUpdateIff` | src/go/web/builder_publish.go:1386-1402 | a draft can lose an update if and only if it was imported from an experiment of some topology |
| `PublishSafety.LosesUpdateByReferenceIff` | src/go/web/builder_publish.go:1238-1289 | an overwrite by a draft that did not come through an experiment of the topology loses an update if and only if the reference names a document of the draft while it resolves to a file with another one, which describes the stored spec and was never the draft's |
| `PublishSafety.LosesUpdateThroughExperimentIff` | src/go/web/builder_publish.go:1386-1402 | an overwrite by a draft that did come through one loses an update if and only if the topology refers to no document of the draft, or to such a file |
| `PublishSafety.UnpinnedReferenceLosesUpdate` | src/go/api/builder/validate.go:323-336 | a concrete world in which a reference that names a document and a file without a digest lets an unseen topology be replaced |
| `PublishSafety.ExperimentsKept` | src/go/web/builder_publish.go:1951-2048 | of the experiments that the stage meets, a publication changes only its target, by creating it or by updating it while it is stopped. An update whose configure stage failed is put back, unless that fails too |
| `PublishSafety.NoLostExperimentUpdate` | src/go/web/builder_publish.go:1736-1766 | whatever fails and whatever other writers do to any experiment: each is as it was, or as they left it, deleted ones included, or is the target, which was absent, or stopped and as the draft published it or was imported from it |
| `PublishSafety.ChangeBeforeLockIsOverwritten` | src/go/web/builder_publish.go:1951-2013 | an accepted update overwrites the topology, aliases and scenario of whatever other writers made of the stopped experiment between preflight and lock. If they started or deleted it, the stage fails and leaves their state |
| `PublishSafety.SecondImportRefused` | src/go/web/builder_publish.go:881-946 | of two drafts imported from one topology, once a publication of the first completes, the second is refused exactly unless the first changed nothing that the import digest covers |
| `PublishSafety.CompletedNamesDocument` | src/go/web/builder_publish.go:1407-1427 | after a completed publication the topology names the document, and its spec is the projection exactly when it was written now or not edited before |
| `PublishRules.ExperimentVerdict` | src/go/web/builder_publish.go:1600-1766 | every answer of the preflight for the experiment, in the fields of draft, document and publication record: what counts as applied, what may be updated, and which refusal comes first |
| `PublishRules.ProtectedKept` | src/go/web/builder_publish.go:1736-1760 | an experiment that runs, or that the draft neither was imported from nor published and left unedited, stays as it is, whatever is sent and whatever fails |
| `PublishRules.ForeignExperimentKept` | src/go/web/builder_publish.go:985-1000 | so does one that records another draft and a document that this one neither opened, forked nor published, or that has no record |
| `PublishRules.TopologyVerdict` | src/go/web/builder_publish.go:1302-1402 | every answer of the preflight for the topology, in the same terms: its reference by ID or digest, the stored or file document behind it, and the two import rules |
| `PublishRules.ForeignTopologyKept` | src/go/web/builder_publish.go:1342-1382 | a topology that these rules do not give to the draft stays as it is, in every world and with any faults |
| `PublishRules.DiagramKept` | src/go/web/builder_publish.go:1386-1402 | a draft that came through an experiment never takes the legacy diagram of a topology that it does not own |
| `PublishRules.PlanParts` | src/go/web/builder_publish.go:1455-1516 | the scenario plan splits the listed scenarios, in order, into those to write and those that name the topology |
| `PublishRules.AcceptedIff` | src/go/web/builder_publish.go:587-672 | a request is accepted if and only if its topology, scenarios and experiment are, and the source is fresh or nothing but the mark is left to do |
| `PublishRules.RefusalVerdict` | src/go/web/builder_publish.go:234-300 | which answer a publication gets before it does anything, in the order of the checks, and that nothing has changed then |
| `PublishEffects.CompletedLeaves` | src/go/web/builder_publish.go:257-396 | the whole state after a completed publication, field by field: spec, reference, kept path and metadata of the topology, annotations of the scenarios, experiment and its record, draft mark, stored and superseded documents, and everything else as it was |
| `PublishEffects.ScenarioEffect` | src/go/web/builder_publish.go:1563-1598 | each listed scenario names the topology and keeps the rest, and no other scenario changes |
| `PublishEffects.ExperimentEffect` | src/go/web/builder_publish.go:1951-2013 | the experiment that the stage leaves, as made from what other writers left: new, or updated with its pins cut to the nodes that remain |
| `PublishEffects.DraftEffect` | src/go/api/builder/service.go:755-813 | the draft records the request under a new revision, or already did and stays |
| `PublishEffects.MarkVerdict` | src/go/api/builder/service.go:755-813 | when the draft mark keeps, records or refuses, and every field of what it records |
| `PublishEffects.OutcomeVerdict` | src/go/web/builder_publish.go:257-396 | at which stage an accepted publication ends, exactly by what fails and what other writers do, and that only what is to be done can fail |
| `PublishRuns.PublishKeepsInv` | src/go/web/builder_publish.go:257-396 | a publication with any faults keeps the run invariant: one mark per revision, one recorded completion per tag, marks match their requests, drafts own what they stored |
| `PublishRuns.OtherStepKeepsInv` | src/go/api/builder/service.go:755-813 | saves, new and deleted drafts, config edits and cleanups between publications keep the run invariant |
| `PublishRuns.ExecuteKeepsInv` | src/go/web/builder_publish.go:257-396 | the invariant holds after every run of any steps |
| `PublishRuns.MarkEffect` | src/go/api/builder/service.go:755-813 | the draft mark is a compare-and-swap: it records the publication and a new revision and keeps the rest of the draft, or leaves the draft as it was or was saved meanwhile |
| `PublishRuns.AtMostOnePerRevision` | src/go/api/builder/service.go:755-813 | over every run, at most one publication is recorded per draft and revision |
| `PublishRuns.AtMostOneRecordedCompletion` | src/go/api/builder/service.go:755-813 | over every run, of all publications answered as complete under one tag of a draft, at most one was recorded |
| `PublishRuns.RecordedUnlessAlready` | src/go/api/builder/service.go:1062-1089 | in every reachable state, a completed publication is recorded, and moves the tag on, exactly unless the draft already records that request for its current content. Then every draft stays as it was |
| `PublishTags.TwoCompleteUnderOneTag` | src/go/api/builder/service.go:766-778 | so, from any state, three publications of a new draft complete under two tags: to t, to t again, and to u under the tag of the second |
| `PublishRuns.RetryIff` | src/go/web/builder_publish.go:2285-2303 | a request is a retry exactly when it is the recorded one up to the experiment action, and the recorded publication is still current |
| `PublishRuns.OldTagWritesNothing` | src/go/web/builder_publish.go:257-271 | once a publication is recorded under a tag, every request under that tag changes nothing, and is answered as complete exactly for the recorded request |
| `PublishRuns.ExperimentActionNotCompared` | src/go/web/builder_publish.go:2285-2303 | the retry test does not see the experiment action: flipping it still counts as a retry |
| `PublishRuns.OwnershipIsEarned` | src/go/web/builder_publish.go:1096-1101 | over every run, a draft owns a stored document only by its origin, by equal content, or because a request of it that was not refused stored it |
| `PublishResume.StageStopsAt` | src/go/web/builder_publish.go:1563-1598 | a failing scenario stage has written a prefix of the planned changes, and the rest completes it |
| `PublishResume.SourceStaysFresh` | src/go/web/builder_publish.go:881-946 | the freshness check passes again although the draft wrote the source itself. A topology that named the document only in a file must have been written by then |
| `PublishResume.ScenarioPreflightAgain` | src/go/web/builder_publish.go:1455-1516 | after a prefix of the scenario writes, a new plan has exactly the remaining ones |
| `PublishResume.FailedRun` | src/go/web/builder_publish.go:257-396 | what a publication that fails at each stage leaves behind |
| `PublishResume.UninterruptedCompletes` | src/go/web/builder_publish.go:257-396 | without a fault other than a lost publisher record, an accepted publication completes |
| `PublishResume.ResumeConverges` | src/go/web/builder_publish.go:257-396 | after a failure at any stage, the same request under the same tag ends in the state of an uninterrupted run, and with the same write log unless an update was undone. The condition on each stage is what the rows of PublishResumeLimits show to be needed |
| `PublishResume.PublishIgnoresLog` | src/go/web/builder_publish.go:257-396 | worlds that differ in their past writes alone are published to alike, whatever the request is and whatever fails |
| `PublishAttempts.AttemptsConverge` | src/go/web/builder_publish.go:257-396 | so does any number of failed attempts, each at any stage, followed by a run without faults |
| `PublishAttempts.AttemptsWriteOnce` | src/go/web/builder_publish.go:257-396 | over all these attempts and the last run no config is written twice, if no update was undone |
| `PublishAttempts.WritesEachConfigOnce` | src/go/web/builder_publish.go:257-396 | whatever fails and whoever else writes, one publication writes no config twice, but an experiment whose update it undoes |
| `PublishResumeLimits.ResumeOfFileTopologyIff` | src/go/web/builder_publish.go:1238-1289 | a topology that names the document only in a file is not written after a failed topology stage. The resumed run ends as an uninterrupted one in all its state if and only if that one would not have changed the topology |
| `PublishResumeLimits.ResumeAfterFailedRestoreIff` | src/go/web/builder_publish.go:2017-2048 | when the configure stage fails and the update cannot be undone, the resumed run completes without a configure stage. It ends as an uninterrupted one if and only if that stage and the publisher record would have changed nothing |
| `PublishResumeLimits.FailedRestoreSkipsConfigure` | src/go/web/builder_publish.go:1976-2013 | a concrete store, draft and app for which that goes wrong |
| `PublishResumeLimits.ResumeOfCreateIff` | src/go/web/builder_publish.go:2217-2250 | after a failed draft mark, the request that created the experiment is refused if and only if the experiment does not count as applied |
| `PublishResumeLimits.ResumeOfUpdateIff` | src/go/web/builder_publish.go:1736-1750 | after a failed draft mark, the request that updated such an experiment updates it again, and ends as an uninterrupted run if and only if it is accepted and the second update makes the same experiment |
| `PublishResumeLimits.ResumableIffLeftAlone` | src/go/web/builder_publish.go:2217-2250 | after a failed draft mark, the experiment counts as applied if and only if it did before, or what the apps made of this very experiment has the topology and the aliases of the document |
| `PublishResumeInputs.FileTopologySkipped` | src/go/web/builder_publish.go:1238-1289 | a topology with a legacy diagram that a resumed publication leaves as it is |
| `PublishResumeInputs.CreatedExperimentRefused` | src/go/web/builder_publish.go:2217-2250 | a draft and an app for which the request that created the experiment is refused when it is sent again |
| `PublishResumeInputs.ConfigureRunsTwice` | src/go/web/builder_publish.go:1736-1750 | a draft and an app for which the configure stage takes effect twice |
| `PublishResumeInputs.EditedTopologyStays` | src/go/web/builder_publish.go:1407-1427 | a completed publication that leaves the edited spec of its topology |
| `PublishLog.LogOfPublication` | src/go/web/builder_publish.go:257-396 | which config writes a publication makes, with any faults and in this order: the topology unless it shows the document, the listed scenarios that do not name it, and the experiment unless it is as asked for. The outcome says how far this gets, and an update that is undone is written twice |
| `PublishLog.ChangesAreLogged` | src/go/web/builder_publish.go:1930-1949 | no topology, scenario or experiment changes without such a write, save for what other writers do to experiments |
| `PublishServer.BuilderServer.PlanScenarioStage` | src/go/web/builder_publish.go:1455-1516 | the planning loop computes the specified scenario plan or refusal |
| `PublishServer.BuilderServer.WriteScenarios` | src/go/web/builder_publish.go:1563-1598 | the writing loop stops at the first failure, with the earlier scenarios written and listed |
| `PublishServer.BuilderServer.RestoreExperiment` | src/go/web/builder_publish.go:2017-2048 | writes the earlier experiment again if it is still there and stopped, and else changes nothing |
| `PublishServer.BuilderServer.RecordExperimentPublication` | src/go/web/builder_publish.go:2055-2094 | stores the publication record with the digest after the configure stage |
| `PublishServer.BuilderServer.WriteExperimentStage` | src/go/web/builder_publish.go:1951-2013 | the locked experiment stage does what the specification function says: an update is rebuilt on the experiment as it is then, and one that runs is refused |
| `PublishServer.BuilderServer.PublishDraft` | src/go/web/builder_publish.go:234-396 | the handler, step by step on its maps, is the specified publication, so all of the lemmas above are about it |
| `RecordCodec.DecodeOfEncode` | src/go/store/bolt_record.go:484-505 | decode undoes encode for every record, over all 64-bit revisions and times |
| `RecordCodec.EncodeOfDecode` | src/go/store/bolt_record.go:484-505 | every byte string that decodes is the encoding of what it decodes to |
| `RecordCodec.PutUint64` | src/go/store/bolt_record.go:497-505 | writes 8 bytes big-endian at a position, and no other |
| `RecordCodec.EncodeRecord` | src/go/store/bolt_record.go:497-505 | the buffer filled in place is the encoding |
| `KeyOrder.PrefixIsContiguous` | src/go/store/bolt_record.go:519-539 | in byte order, the keys with a prefix are contiguous |
| `RecordDB.SeekFindsPrefix` | src/go/store/bolt_record.go:519-539 | a cursor from the prefix has passed no key with it |
| `RecordDB.NextKeepsCursor` | src/go/store/bolt_record.go:519-539 | each step of the cursor passes exactly one key, in increasing order |
| `RecordDB.StopSeesAll` | src/go/store/bolt_record.go:519-539 | at the first key without the prefix, all keys with it were passed |
| `RecordDB.RecordTx.ListRecords` | src/go/store/bolt_record.go:50-74 | the scan returns exactly the records whose key has the prefix, in strictly increasing byte order and as written, or fails if one of them does not decode |
| `RecordDB.RecordTx.CreateRecord` | src/go/store/bolt_record.go:291-314 | creates in place as specified, also when the key is taken |
| `RecordDB.RecordTx.UpdateRecord` | src/go/store/bolt_record.go:316-343 | updates in place as specified, with the creation time kept and the revision checked. RecordContents.UpdateDoes says what a read gives then |
| `RecordDB.RecordTx.DeleteRecord` | src/go/store/bolt_record.go:345-365 | deletes in place as specified, with the revision checked |
| `RecordDB.RecordTx.DeleteRecordPrefix` | src/go/store/bolt_record.go:367-391 | removes exactly the records with the prefix and returns their number, or fails and removes none |
| `RecordDB.RecordTx.NextRevision` | src/go/store/bolt_record.go:454-466 | the next revision of the sequence |
| `RecordDB.BoltDB.RecordTxn` | src/go/store/bolt_record.go:189-212 | a failed transaction leaves the committed image, a succeeding one replaces it |
| `RecordStore.StepKeepsInv` | src/go/store/bolt_record.go:291-365 | every operation keeps revisions positive and distinct, and the next image later than the one before |
| `RecordStore.RunsGrow` | src/go/store/bolt_record.go:189-212 | in every run, records stay, go or get newer revisions than any before |
| `RecordStore.RevisionsNeverReused` | src/go/store/bolt_record.go:454-466 | two committed records of one revision, at any two points of any run, are the same record at the same key |
| `RecordStore.NoABA` | src/go/store/bolt_record.go:420-426 | a record with one revision at two points did not change between them |
| `RecordStore.ReadModifyWrite` | src/go/store/bolt_record.go:316-365 | an update or delete, anywhere in a transaction, that expects the revision of an earlier committed read succeeds if and only if the record is still the one that was read, at all points since |
| `RecordStore.RolledBackRevisionReused` | src/go/store/bolt_record.go:454-466 | a revision of a rolled-back transaction is given out again |
| `RecordContents.CreateDoes` | src/go/store/bolt_record.go:291-314 | a create fails just when the place is taken. Else a read gives its value and time, and every other read is as before |
| `RecordContents.UpdateDoes` | src/go/store/bolt_record.go:316-343 | an update fails just when there is no record or one of another revision. Else a read gives the new value and update time with the old creation time, and every other read is as before |
| `RecordContents.DeleteDoes` | src/go/store/bolt_record.go:345-365 | a delete fails alike. Else the record is gone, and every other read is as before |
| `RecordContents.DeletePrefixDoes` | src/go/store/bolt_record.go:367-391 | exactly the records whose key begins with the prefix are gone, and the result is their number |
| `RecordContents.DeletePrefixFailsIff` | src/go/store/bolt_record.go:367-391 | it fails exactly when one of these records is damaged, and then takes none |
| `RecordContents.CreateEnsuresBucket` | src/go/store/bolt_record.go:291-300 | the bucket of the namespace is there after a create, also when that fails, and the other buckets are as before |
| `RecordContents.RunHolds` | src/go/store/bolt_record.go:189-212 | after every run of transactions, failed ones included, the store holds exactly what a map from places to entries holds |
| `RecordContents.ReadsLastWrite` | src/go/store/bolt_record.go:106-128 | a read gives what the last committed operation left that touched the record, at any later point of any run |
| `RecordContents.ReadsNothing` | src/go/store/bolt_record.go:106-128 | a record that no committed operation touched is not there |
| `RecordClients.ReadsStillHold` | src/go/store/bolt_record.go:420-426 | a client whose committed transaction guards each record it read, with an update or delete of the revision it read or a create where there was none, sees at its commit exactly what it read, each at a point of its own |
| `RecordClients.Serialisable` | src/go/api/builder/service.go:958-983 | such clients are serialisable, whatever else their transactions do: under any interleaving of their reads and transactions with any others, every run is at every point where the run is in which they read at their commits |
| `MisplacedKey.FindIsSound` | src/go/types/explain.go:386-424 | an answer names the line of the key in a mapping that the search was allowed to reach, and the path to it |
| `MisplacedKey.NotFoundClosed` | src/go/types/explain.go:386-424 | a search that finds nothing leaves its seen nodes closed and free of the key |
| `MisplacedKey.ClosedHasNoKey` | src/go/types/explain.go:386-424 | from a searched node of a closed set no permitted path leads to the key |
| `MisplacedKey.FindsIffReachable` | src/go/types/explain.go:386-424 | on every graph, shared or cyclic, the search finds the key if and only if some mapping with it is reachable without entering a list item off the path |
| `SearchOrder.LeadsIff` | src/go/types/explain.go:386-433 | what a permitted walk is, without the search: it enters the items of a list only at the index that the path names there, as long as the names so far spell the path |
| `SearchOrder.FindsIffPermitted` | src/go/types/explain.go:386-433 | the search finds the key if and only if the document has such a walk to a mapping with the key |
| `SearchOrder.FindsFirst` | src/go/types/explain.go:386-424 | of all these places the answer is the first in document order. Nothing before it leads to the key, save by coming back to a node that is being searched |
| `SearchOrder.PathOfWalk` | src/go/types/explain.go:403-420 | the reported path is spelled segment by segment: keys after dots, indexes in brackets |
| `ExplainSearch.FollowAliases` | src/go/types/explain.go:322-328 | an alias chain ends at the node that Deref gives |
| `ExplainSearch.FindKey` | src/go/types/explain.go:386-424 | the recursive method with its shared set of seen nodes computes the specified search |
| `ExplainSearch.FindInPairs` | src/go/types/explain.go:397-408 | the loop over the pairs of a mapping |
| `ExplainSearch.FindInItems` | src/go/types/explain.go:410-420 | the loop over the items of a list |
| `ExplainSearch.MisplacedHint` | src/go/types/explain.go:365-379 | no hint without a reachable key, and with one a hint unless the search answers with the expected place |
| `ExplainSearch.Walk` | src/go/types/explain.go:271-286 | resolves a path segment by segment through aliases |
| `ExplainSearch.ResolveSegment` | src/go/types/explain.go:290-319 | the last pair with the key, or the item with the index |
| `ExplainSearch.WalkReachesFound` | src/go/types/explain.go:271-319 | walking the segments of a place the search can answer with leads back to that place, if no mapping repeats a key |
| `ExplainSearch.DigitsOfItoa` | src/go/types/explain.go:290-319 | an index that was written as digits is read back |
| `ExplainSearch.AtoiOfSigned` | src/go/types/explain.go:305-315 | a written number is read back exactly within 64 bits, with or without a sign |
| `Cluster.Sort` | src/go/util/mm/types.go:52-70 | the hosts sorted ascending by a load, and the same hosts |
| `Cluster.IncreaseSum` | src/go/util/mm/types.go:82-119 | an increment adds its amount to the sum if a host has the name, and nothing otherwise |
| `RoundRobin.CountManual` | src/go/scheduler/round-robin.go:35-41 | counts one VM per manual entry on a host of the cluster, in whatever order the entries come |
| `RoundRobin.Schedule` | src/go/scheduler/round-robin.go:25-61 | manual entries are kept, exactly the pending nodes are placed on hosts, VM counts grow by exactly these, and no assignment of the pending nodes has a lower maximum. An empty cluster with a pending node ends in the index panic |
| `RoundRobin.PlaceNode` | src/go/scheduler/round-robin.go:52-56 | one placement on a least loaded host keeps the loads balanced |
| `RoundRobin.LevelIsOptimal` | src/go/scheduler/round-robin.go:47-58 | loads that are level to one VM, or no higher than the start, have the least maximum of all assignments |
| `SubnetCompute.CountManual` | src/go/scheduler/subnet-compute.go:35-60 | the manual phase indexes and counts exactly the entries whose host and node exist, and fails exactly when one of these has no interface |
| `SubnetCompute.StepKeepsInv` | src/go/scheduler/subnet-compute.go:64-114 | a placement keeps the VLAN index exact and memory conserved, in all and per host |
| `SubnetCompute.RunKeepsInv` | src/go/scheduler/subnet-compute.go:64-114 | so at every state of every run the hosts listed for a VLAN are exactly those of the scheduled nodes on it |
| `SubnetCompute.PlacementMeaning` | src/go/scheduler/subnet-compute.go:84-112 | while a host carrying the VLAN has room the node goes to such a host, which stays below its total. Only otherwise it goes to a least committed host |
| `SubnetCompute.PlacementInOrder` | src/go/scheduler/subnet-compute.go:84-112 | in every run, no host that is listed for the VLAN before the chosen one has room |
| `SubnetCompute.FirstFit` | src/go/scheduler/subnet-compute.go:86-96 | the first listed host whose committed memory with the node's stays below its total, and none exactly when no listed host has room |
| `SubnetCompute.PassedByIff` | src/go/scheduler/subnet-compute.go:64-84 | a node is passed by exactly when it is external or scheduled, and fails the run exactly when it has no interface |
| `SubnetCompute.ConservedAfter` | src/go/scheduler/subnet-compute.go:108-112 | an entry adds exactly its node's memory to its host |
| `SubnetCompute.FindRoom` | src/go/scheduler/subnet-compute.go:86-96 | the loop up to the break computes the first fit |
| `SubnetCompute.PlaceNode` | src/go/scheduler/subnet-compute.go:98-112 | one round of the loop is the specified step |
| `SubnetCompute.Schedule` | src/go/scheduler/subnet-compute.go:25-117 | the scheduler is such a run from the counted state. An error or the panic on an empty cluster leaves the placements before it |
| `WorkflowApply.EachUnderItsOwnRef` | src/go/cmd/workflow_apply.go:134-137 | configs with distinct refs end up each under its own ref, and nothing else changes |
| `WorkflowApply.LaterReplacesEarlier` | src/go/cmd/workflow_apply.go:134-137 | with one ref twice, the later content replaces the earlier |
| `WorkflowApply.Server.GetOptions` | src/go/cmd/workflow_preflight.go:162-187 | the server says whether it knows workflow dry runs, and the log keeps the exchange |
| `WorkflowApply.Server.PostConfig` | src/go/web/workflow.go:420-578 | an upsert is stored or refused, one that is answered in a way the client cannot read is stored too, and an unanswered one may be either |
| `WorkflowApply.Server.PostWorkflow` | src/go/web/workflow.go:83-121 | an action begins only if it is the expected one, and none on a dry run |
| `WorkflowApply.ApplyRun.Preflight` | src/go/cmd/workflow_preflight.go:103-187 | refuses a server without workflow dry runs, and a run with nothing to apply, and fails for these reasons or the lack of a usable answer alone |
| `WorkflowApply.ApplyRun.DryRunConfigs` | src/go/cmd/workflow_apply.go:138-185 | success means distinct refs and nothing stored, after one dry run per config in order. It fails only for two equal refs, refused configs, or an answer that ends the run. A server that ignores dryRun stores at most one config, and then the run fails |
| `WorkflowApply.ApplyRun.DryRunWorkflow` | src/go/cmd/workflow_apply.go:189-218 | plans without acting, and takes the action from the server's answer. It wants force only when that is a restart and the run is no dry run |
| `WorkflowApply.ApplyRun.PlanRun` | src/go/cmd/workflow_apply.go:80-112 | the requests of the plan in order, the planned action from the server's answer, and a failure only for a reason that the log, the input or the context gives |
| `WorkflowApply.ApplyRun.Upsert` | src/go/cmd/workflow_apply.go:225-294 | success stores every config in order. A failure stored as many as it counted, or one more that the error warns of, and is due to refused configs, the end of the context or a missing answer |
| `WorkflowApply.ApplyRun.Apply` | src/go/cmd/workflow_apply.go:300-340 | begins the planned action or none, and fails only without a usable answer or when the context is over |
| `WorkflowApply.ApplyRun.CommitRun` | src/go/cmd/workflow_apply.go:112-132 | staging, upserts and the planned action, in this order, with what was changed in every error |
| `WorkflowApply.ApplyRun.RunWorkflowApply` | src/go/cmd/workflow_apply.go:73-132 | against any server state, outage and interrupt: the requests are those of the plan and, unless it is a dry run, those of the commit, in order. A success has sent all of them, every error has a reason in the log of answers, the context or the input, a dry run changes nothing, no action but the planned one begins, nothing but dry runs is sent once the context is over, and failures are accounted for |
| `TopologyIncludes.DecodeSucceedsIff` | src/go/types/topology.go:17-90 | decoding succeeds if and only if every chain of includes loads and decodes, no chain repeats a name, and no hostname repeats outside the root's own nodes. The result is the depth-first expansion |
| `TopologyIncludes.CycleMeansRepeatedName` | src/go/types/topology.go:25-32 | a cycle is reported only when a single chain repeats a name, so a diamond is no cycle |
| `IncludeErrors.ErrorLeadsToFault` | src/go/types/topology.go:21-90 | the sources in an error lead along a chain of includes to a config with exactly the fault that the error names |
| `IncludeErrors.MergeFailsWith` | src/go/types/topology.go:64-82 | the reported hostname is that of the first node whose hostname is taken by then |
| `IncludeErrors.RepeatedNameIsCyclic` | src/go/types/topology.go:25-32 | with no other fault around, decoding fails if and only if a chain repeats a name, and reports a cycle |
| `TopologyIncludes.IncludeVisitsMore` | src/go/types/topology.go:29-32 | the names left to visit shrink along every include, so decoding ends on cyclic graphs |
| `TopologyIncludes.MergeSucceedsIff` | src/go/types/topology.go:64-82 | nodes are appended up to the first repeated hostname |
| `TopologyIncludes.TopologySpec.Append` | src/go/types/topology.go:64-82 | the appending loop with its map of hosts |
| `TopologyIncludes.DecodeRecursive` | src/go/types/topology.go:21-90 | the recursive method on fresh specs computes the specified outcome, errors included |
| `TopologyIncludes.DecodeTopology` | src/go/types/topology.go:17-19 | decoding from the root |
| `DiskLister.RunKeepsInv` | src/go/web/builder_disks.go:87-147 | in every interleaving at most one source runs, and what is kept is the newest success |
| `DiskLister.OutcomesAreFinal` | src/go/web/builder_disks.go:118-147 | outcomes and answers never change |
| `DiskLister.SuccessIsFresh` | src/go/web/builder_disks.go:87-116 | a success is the outcome of a run that succeeded, and that ended less than ttl before the request or was in progress once it was in |
| `DiskLister.AskMeaning` | src/go/web/builder_disks.go:87-105 | a request gets the kept success while it is younger than ttl, else waits for the running listing, and begins one only when there is none |
| `DiskLister.OutcomeIsTheSources` | src/go/web/builder_disks.go:118-131 | an outcome is what the source returned, or the abort after a panic |
| `DiskLister.EndsNow` | src/go/web/builder_disks.go:135-147 | a finished listing keeps the time at which it ended |
| `DiskLister.WaitersAgree` | src/go/web/builder_disks.go:110-115 | all requests that wait for one listing get one outcome, unless they give up |
| `DiskLister.AnsweredInFourSteps` | src/go/web/builder_disks.go:110-147 | exactly the steps of its listing and its own bring a waiting request closer to its answer, at most four of them are left, and one of them can come next: no request hangs, in any interleaving |
| `DiskLister.BuilderDiskLister.Images` | src/go/web/builder_disks.go:87-105 | the locked part of a request: reuse, join or begin |
| `DiskLister.BuilderDiskLister.List` | src/go/web/builder_disks.go:121-131 | the outcome is set once, and a panic leaves the listing aborted |
| `DiskLister.BuilderDiskLister.FinishListing` | src/go/web/builder_disks.go:135-144 | takes the listing off and keeps only a success |
| `DiskLister.BuilderDiskLister.CloseListing` | src/go/web/builder_disks.go:146-147 | releases the waiters after the outcome is set |
| `Tunneler.RunKeepsInv` | src/go/tunneler/manager.go:27-104 | in every interleaving both indexes hold the same entries one to one, and the bound sockets are those of the listening entries |
| `Tunneler.StepKeepsInv` | src/go/tunneler/server.go:355-499 | every critical section keeps that |
| `Tunneler.StepMeaning` | src/go/tunneler/manager.go:27-104 | what each critical section does to the entries, ids and sockets, and that it does nothing for an unknown id or key |
| `Tunneler.IDsAreNeverReused` | src/go/tunneler/manager.go:37-42 | IDs only grow, and an ID always stands for one key |
| `Tunneler.RemovedForGood` | src/go/tunneler/manager.go:73-92 | a removed ID never comes back |
| `Tunneler.BoundPortsAreListed` | src/go/tunneler/server.go:410-433 | the bound ports are the source ports of the listening entries if and only if none of those is 0 |
| `Tunneler.PortZeroListens` | src/go/tunneler/server.go:410-433 | a run in which an entry with source port 0 listens on a port that the system chose |
| `Tunneler.RemoveFreesItsSocket` | src/go/tunneler/manager.go:73-92 | removal frees the entry's socket and changes no other entry |
| `Tunneler.MoveMeaning` | src/go/tunneler/server.go:375-408 | a move, a failed move that is restored and a failed restore leave exactly the promised entry |
| `Tunneler.LocalListener.Activate` | src/go/tunneler/server.go:410-476 | binds the port or reports why not |
| `Tunneler.LocalListener.Deactivate` | src/go/tunneler/server.go:478-491 | closes the socket |
| `Tunneler.LocalListener.Move` | src/go/tunneler/server.go:375-408 | the move with its rollback, field by field |
| `Tunneler.ListenerManager.Add` | src/go/tunneler/manager.go:27-45 | registers a new key under the next ID in both maps, or returns the existing entry |
| `Tunneler.ListenerManager.Remove` | src/go/tunneler/manager.go:73-92 | takes the entry out of both maps and closes it |
| `Tunneler.ListenerManager.ActivateListener` | src/go/tunneler/server.go:129-150 | activation under the lock is the specified step |
| `Tunneler.ListenerManager.DeactivateListener` | src/go/tunneler/server.go:166-187 | deactivation under the lock |
| `Tunneler.ListenerManager.MoveListener` | src/go/tunneler/server.go:97-110 | a move under the lock |
| `Tunneler.CreateLocalListener` | src/go/tunneler/server.go:355-373 | registers a forward and starts it for its owner |
| `Quoting.CommandRoundTrip` | src/go/cmd/mm.go:159-186 | except for a single argument, the lexer reads a command back as the namespace and the arguments, whatever runes they hold |
| `Quoting.CommentIsDropped` | src/go/cmd/mm.go:188-193 | outside quotes the lexer drops everything from a # on, which is why such arguments are quoted |
| `Quoting.NamespaceGoesFirst` | src/go/cmd/mm.go:171-173 | the namespace prefix only puts two arguments before the rest |
| `Quoting.SingleArgumentIff` | src/go/cmd/mm.go:162-173 | in any namespace, a single argument is read back if and only if it needs no quotes |
| `Quoting.ScanQuotedArgs` | src/go/cmd/mm.go:178-186 | quoted and joined arguments are read back |
| `Quoting.QuotedArgsAreOneLine` | src/go/cmd/mm.go:193-221 | a quoted command has no line break |
| `Quoting.QuoteMinimegaArg` | src/go/cmd/mm.go:193-225 | the loop over the runes computes the quoted form |
| `Quoting.QuoteMinimegaArgs` | src/go/cmd/mm.go:178-186 | the quoted arguments joined |
| `Quoting.EscapesAreInterior` | src/go/tmpl/tmpl.go:19-29 | the template escapes are those between quotes |
| `Quoting.TemplateRoundTrip` | src/go/tmpl/tmpl.go:19-29 | an escaped value between quotes is read as that value |
| `AppLifecycle.StaysQueuedIff` | src/go/app/app.go:466-482 | over any events, an app that is queued stays queued if and only if no cleanup of it succeeds and no saved queue is read, after a failed save, that does not hold it |
| `AppLifecycle.QueueFollowsIff` | src/go/app/app.go:311-323 | over any stages, saves and readings, an app is queued at all times as the calls ask if and only if no saved queue is read that differs on it |
| `AppLifecycle.WholeQueueFollowsIff` | src/go/app/app.go:311-323 | the whole queue is at all times that of the calls if and only if every saved queue that is read is up to date |
| `AppLifecycle.QueuedIff` | src/go/app/app.go:311-323 | over any calls, they ask for an app exactly when a stage queued it and no cleanup of it succeeded since |
| `AppLifecycle.QueuedOverHistory` | src/go/app/app.go:311-323 | so an app is queued just then, over any history without such a reading |
| `AppLifecycle.FailedSavesLoseQueued` | src/go/app/app.go:464-485 | failed saves and the running stage of another app lose a queued app, in memory and in the store |
| `AppLifecycle.FullCleanup` | src/go/app/app.go:369-371 | a cleanup of all apps in which every one succeeds takes exactly the default and scenario apps off the queue, and empties it if and only if it held no other app |
| `AppLifecycle.DueMeaning` | src/go/app/app.go:386-411 | which scenario apps are called: never a default app or one that a filter leaves out, and a disabled one only under a filter, at the running stage, or at a cleanup that it waits for |
| `AppLifecycle.DisabledIsPassedBy` | src/go/app/app.go:404-411 | without a filter, no disabled app is called to configure or start an experiment |
| `AppLifecycle.NothingLeftMarkedIff` | src/go/app/app.go:447-496 | after any events, no app is left marked if and only if all those marked at the last reading were applied since |
| `AppLifecycle.NeverMarkedIff` | src/go/app/app.go:447-496 | from no marks, no app is left marked after any event if and only if none reads the mark of another app that a failed save left, and the store then has that mark alone |
| `AppLifecycle.FailedSavesLeaveMark` | src/go/app/app.go:482-485 | two failed saves leave an app marked as running, in memory and in the store |
| `AppLifecycle.Experiment.SaveBetween` | src/go/types/experiment.go:69-92 | saves the status between stages, or leaves the store |
| `AppLifecycle.Experiment.ReloadBetween` | src/go/types/experiment.go:47-67 | reads the status again between stages, or leaves it |
| `AppLifecycle.Experiment.QueueCleanup` | src/go/app/app.go:311-323 | queues for triggered configure, pre-start and post-start stages only |
| `AppLifecycle.Experiment.ApplyDefaults` | src/go/app/app.go:325-379 | default apps in any order, each that the filter names at most once and no other, up to an error or the end of the context, and all of them on success |
| `AppLifecycle.Experiment.ApplyScenario` | src/go/app/app.go:381-543 | scenario apps in the listed order, each entry at most once and only when due, up to an error or the end of the context |
| `AppLifecycle.Experiment.RunScenarioApp` | src/go/app/app.go:447-496 | one running stage with its saves and reload, each of which may fail, is the specified event |
| `AppLifecycle.Experiment.RunScenario` | src/go/app/app.go:447-496 | the running stage calls every app that is due and was not marked as running |
| `AppLifecycle.Experiment.QueueOverHistory` | src/go/app/app.go:275-551 | after any sequence of stages, saves and readings the queue is what the calls ask for, unless a saved queue was read that differed |
| `AppLifecycle.Experiment.ApplyApps` | src/go/app/app.go:275-551 | on every way out the status is the fold of the events that the call added. Due apps are called in order, no other ones, none at the running stage that is marked as running, and only a failed call or the end of the context ends the stage. A success called every app that was due. The queue follows the calls, and no app is left marked, exactly under the conditions above, and a full cleanup empties the queue if and only if both lists hold every queued app |
| `UnusedSubnet.Pigeonhole` | src/go/util/ip.go:49-57 | used candidates are no more than the used prefixes |
| `UnusedSubnet.CandidateMeaning` | src/go/util/ip.go:49-57 | the candidates are the start and then the blocks after it, up to the end of the address space |
| `UnusedSubnet.NextBlockMeaning` | src/go/util/ip.go:51-54 | the next block is the lowest one of the address space behind the prefix, and invalid just when there is none |
| `UnusedSubnet.FreeBlockLeft` | src/go/util/ip.go:49-57 | with more blocks than used prefixes one is free |
| `UnusedSubnet.Find` | src/go/util/ip.go:43-61 | the first free candidate after at most as many advances as used prefixes, the lowest free block for an aligned start, and none exactly when all are used |
| `IPSecKeys.EndsAgree` | src/go/app/vrouter.go:933-950 | two sites of one pair of addresses without dashes get one key, in any history of sites |
| `IPSecKeys.PairsDiffer` | src/go/app/vrouter.go:933-950 | different pairs get different keys if all secrets differ |
| `IPSecKeys.EndsAgreeIff` | src/go/app/vrouter.go:933-950 | for all addresses and tables, two sites of one pair get one key if and only if the table does not hold the pair in both orders with different keys, or the second looks first under the name that gave the first its key |
| `IPSecKeys.DashesCanDisagree` | src/go/app/vrouter.go:934-939 | four sites with dashes in their addresses for which the two ends of a tunnel get different keys |
| `IPSecKeys.KeyedAt` | src/go/app/vrouter.go:952-952 | each site ends with the key of its look-up or its own |
| `IPSecKeys.OwnKeyStays` | src/go/app/vrouter.go:933-952 | a site with a key of its own keeps it and leaves the table alone |
| `IPSecKeys.KeyMeaning` | src/go/app/vrouter.go:933-950 | any other site gets the key of its pair in its own order, else in the other order, else a new one that is stored under the other order |
| `IPSecKeys.EthernetsMeaning` | src/go/app/vrouter.go:914-929 | the interfaces of the configuration are exactly the first ones with the local addresses of its sites |
| `IPSecKeys.Vrouter.ProcessIPSec` | src/go/app/vrouter.go:894-956 | fills the sites in place and the shared table, up to the first site without an interface |

## Left out

- PublishResume.ResumeConverges: takes no other writer between the failed run and the one that resumes it. With one, the promises of a single publication hold: `NoLostUpdate`, `NoLostExperimentUpdate`, `RecordedUnlessAlready`.
- RecordStore.RevisionsNeverReused: takes runs of fewer than 2^63 operations, as Bolt sequences do.
- ExplainSearch.WalkReachesFound: takes documents that repeat no key in a mapping, since of two equal keys the search finds the first and the walk takes the last.
- SubnetCompute.PlacementMeaning: takes distinct host names, as the cluster has them.
- WorkflowApply.ApplyRun.RunWorkflowApply: stands for one run. Other clients may change what the server plans, not the log of this run's upserts.
- Tunneler.ListenerManager.Remove: the removed object keeps its fields, as in the source, and is no longer part of the registry.
- Publication: the preview of a publication, permission checks, response texts, warnings, included topologies and their clashes, projection errors beyond whether a document projects, the warning about host pins, damaged metadata, template and icon handling.
- Record store: validation of namespaces and keys, key listings, nested buckets, write errors of Bolt inside a transaction.
- Explanations: rendering of paths and messages, schema leaves.
- Workflow apply: reading the directory, the guards on the staging directories and the copying of injects, logging, tags.
- Topology: the decoding of specs and the difference between stored and file sources beyond what they load.
- Disk lister: the wait limit is a step that may come at any time, so how long a request waits is not modelled.
- Tunneler: accept loops, websockets and the hub that tells the user interface.
- App lifecycle: what apps do to the experiment, app status, publications of events, periodic runs.
- Quoting: bytes that are no valid UTF-8, which Go replaces.
- IPSec: decoding of the configuration, and everything else a router is configured with.
- Other schedulers, label filters, settings, authentication and the HTTP layer would only add easy members.
