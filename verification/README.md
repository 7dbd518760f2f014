# A model of AstraSync's control plane

AstraSync's control plane moves checkpoints between regions, promotes regions, keeps connections and
their tests, and runs jobs that are bound to connections. This project models its stateful core in
Dafny and proves what it keeps over whole runs: crashes and restarts, concurrent callers, retries,
refusals and expiry. `dafny verify dfyconfig.toml` checks everything.

Objects that the source updates in place are classes whose methods and loops are proved against
functions on values; protocols are state machines whose events are the atomic steps of the source, and
the theorems speak about every sequence of events. Failing I/O is a nondeterministic choice: a call may
fail with or without having taken effect. Times are integers, hashes and checksums are unknown
functions, and the syntax of identifiers is an unknown predicate.

## Reading guide

| files | about |
|---|---|
| `Bytes`, `WalCodec`, `WalKeys` | entries of the write-ahead log as bytes, and their object keys |
| `Sorting`, `Wal`, `WalReading` | writer with pending buffer, readers, and runs of both over crashes |
| `Replicator`, `Pipeline` | sending, and writer, reader, replicator and progress run together |
| `Admission`, `Replication` | admission at the receiver, and everything end to end, step by step |
| `Promotion`, `PromotionChecks`, `PromotionManager` | epochs under concurrent promoters and publishers |
| `Runtime` | starting and closing the replication runtime |
| `Keyset`, `AuditPaging` | paging through sorted tables, and through audit events |
| `Jobs`, `JobHistory` | the job lifecycle and the versioned job store |
| `Connections`, `ConnectionStore`, `ConnectionRules` | connections, the store, and what each of its operations accepts and does |
| `ConnectionInvariants`, `ConnectionTests`, `ConnectionRepository` | the connection repository and its invariant |
| `ConnectionRuns`, `ConnectionHistory`, `ConnectionLeases`, `ConnectionListing`, `CompositeKeys` | what holds of it over whole runs |
| `Bindings`, `BindingIntegrity`, `BindingRules`, `BindingDatabase` | jobs bound to connections, as transactions on tables |
| `Runs`, `Outcomes` | runs of any state machine; optional values and results |

## Where a promise does not hold, and when it does

- An entry whose three strings have fewer than four bytes is written and can never be read: the guard
  of the parser asks for 44 bytes where 40 suffice (`WalCodec.DecodeOfEncode`).
- A restarted writer finds its own log if and only if the prefix does not end in a slash and the region
  contains none (`WalLog.Writer.ResumeSequence`); the recovery reader looks where the writer writes if and
  only if the prefix does not end in a slash (`WalReading.RecoveryReaderSeesLogIff`).
- Appending an entry object that is still pending renumbers it in the buffer
  (`WalLog.Writer.Enqueue`, `WalLog.RenumberedBufferIsInconsistent`).
- The contiguity check of the replicator does not cover the first entry of a batch
  (`ReplicatorLoop.GapBeforeFirstPasses`). A turn starts with the next sequence if and only if its object
  is in the store (`ReplicatorLoop.Replicator.Turn`, `WalReading.FirstIsNextIff`); that it is there, in
  every run, is what the writer guarantees (`Replication.RunsSkipNothing`).
- A publication checks the epoch and then appends; it carries the current epoch if and only if nothing
  was allocated in between (`Promoters.PublishedIsCurrentIff`).
- A call of `Close` that has returned means that no replicator is running if and only if it was the call
  that found the runtime open (`RuntimeProtocol.CloseWaitsIff`).
- The token of an audit page is accepted under a condition on the event it names
  (`AuditPaging.TokenIsAcceptedIff`).
- The service does not compare the version named in a request with the version it read. An accepted
  edit builds on the stored connection if and only if they are equal
  (`ConnectionHistory.EditBuildsOnStoredIff`); otherwise the in-memory repository can replace state and
  settings under an unchanged version (`ConnectionHistory.OlderEditReplacesAsNoChange`). An accepted
  update keeps the current generation equal to the recorded one if and only if it brings no new content
  under the old number (`ConnectionInvariants.UpdateKeepsInv`); two replacements of one version do
  (`ConnectionHistory.TwoReplacementsShareAGeneration`), and a claim can then stop at work whose descriptor
  revision is not that of the generation it captured (`ConnectionTests.WorkIsValid`).
- Idempotency keys of different callers can coincide if and only if a tenant, actor or method contains
  a NUL (`CompositeKeys.ScopeIsItsOwnIff`).
- Deleting a connection counts only active tests, but foreign keys refuse it for any test, receipt or
  cleanup row (`BindingIntegrity.DeletionSucceedsIff`, `BindingIntegrity.EndedTestBlocksDeletion`).

## What is assumed of callers

- UIDs and test operation IDs are new when they are minted, as the service mints them.
- Admitted tests are queued. No more is assumed of mutations by the results about limits, leases, claims,
  the maps of the store and idempotency. The results about versions, settings and recorded contents are for
  runs of careful callers: connection candidates come from `New` or from an edit of a connection that was
  read, at the version named in the request, and tests carry the descriptor revision of the generation they
  capture (`ConnectionRuns.Honest`).
- End to end, one writer writes to a region, and the prefix ends in no slash and the region contains none.
- The clock of one process does not go back, and is positive.
- The fingerprint of a checkpoint is free of collisions on the rows compared.

## Model

| member | source | states |
|---|---|---|
| `WalCodec.MarshalBinary` | control-plane/replication/wal/wal.go:50-100 | fills the buffer by offset; succeeds exactly for a positive sequence and a non-empty URI, with the bytes of the layout, and stamps the checksum |
| `WalCodec.UnmarshalBinary` | control-plane/replication/wal/wal.go:103-163 | reads exactly what the layout grammar accepts, with the error of the first guard that fails |
| `WalCodec.DecodeOfEncode` | control-plane/replication/wal/wal.go:50-163 | printing then parsing gives the stamped entry back if and only if the three strings have at least four bytes; otherwise the size guard refuses it |
| `WalCodec.ShortEntryIsWrittenButUnreadable` | control-plane/replication/wal/wal.go:104-106 | an entry that is written but can never be read, because the guard is 44 bytes and the minimum is 40 |
| `WalCodec.EncodeOfDecode` | control-plane/replication/wal/wal.go:103-163 | printing a parsed entry gives the same bytes |
| `WalCodec.DecodesExactlyEncodings` | control-plane/replication/wal/wal.go:50-163 | the accepted byte strings are exactly the encodings of readable entries |
| `WalCodec.LayoutByOffset` | control-plane/replication/wal/wal.go:47-97 | the bytes at each offset: sequence, epoch, three strings with their lengths, timestamp, and the checksum of all before it, lowest byte first |
| `WalCodec.PutBody` | control-plane/replication/wal/wal.go:64-93 | the buffer holds the layout without the checksum |
| `WalCodec.ReadStrings` | control-plane/replication/wal/wal.go:121-153 | the three length-prefixed strings, or a truncation |
| `WalKeys.ParseSequenceFromKey` | control-plane/replication/wal/wal.go:549-576 | the scanner loop computes the number at the end of a key |
| `WalKeys.KeyIsScanned` | control-plane/replication/wal/wal.go:369-371 | the sequence printed zero-padded into a key is read back by both scanners |
| `WalKeys.EntryKeysDiffer` | control-plane/replication/wal/wal.go:369-371 | different sequences have different keys |
| `WalKeys.KeyFormat` | control-plane/replication/wal/wal.go:369-371 | a key is prefix, region, sixteen digits that spell the sequence, and .wal |
| `WalKeys.CleanKeyIsResumed` | control-plane/replication/wal/wal.go:264-293 | a restarted writer recognises its own keys when the prefix has no trailing slash and the region no slash |
| `WalKeys.ResumedKeyIsOfRegion` | control-plane/replication/wal/wal.go:264-293 | every key counted at restart is one of the region's own |
| `WalKeys.UncleanNeverResumes` | control-plane/replication/wal/wal.go:264-293 | otherwise a restarted writer recognises no key at all |
| `WalLog.PutExtendsLog` | control-plane/replication/wal/wal.go:405-418 | storing the next entry extends the gap-free log by one |
| `WalLog.PutRepeatsLog` | control-plane/replication/wal/wal.go:405-418 | storing an entry again after a failed flush changes nothing |
| `WalLog.ForeignPutKeepsLog` | control-plane/replication/wal/wal.go:369-371 | objects outside the region leave its log alone |
| `WalLog.BoundsResumed` | control-plane/replication/wal/wal.go:264-293 | no listed key resumes past the end of the log |
| `WalLog.ResumesAtLast` | control-plane/replication/wal/wal.go:264-293 | the scan at restart reaches the end of the log |
| `WalLog.ResumesAtEnd` | control-plane/replication/wal/wal.go:264-293 | the number found at restart is the length of the log under a recognisable configuration and zero otherwise, in whatever order keys are listed |
| `WalLog.FlushStep` | control-plane/replication/wal/wal.go:405-418 | one put of a flush, first or repeated, keeps stored prefix and pending run consistent |
| `WalLog.EnqueueStep` | control-plane/replication/wal/wal.go:307-346 | numbering and buffering an entry keeps them consistent |
| `WalLog.EmptyBufferIsDurable` | control-plane/replication/wal/wal.go:307-346 | with nothing pending everything numbered is stored |
| `WalLog.RenumberedBufferIsInconsistent` | control-plane/replication/wal/wal.go:307-346 | appending an entry object that is still pending breaks the pending run |
| `WalLog.Writer.ResumeSequence` | control-plane/replication/wal/wal.go:264-293 | a restarted writer continues at d+1 if and only if its keys are recognisable or the log is empty |
| `WalLog.Writer.FlushLocked` | control-plane/replication/wal/wal.go:405-418 | a flush that fails midway keeps the buffer and the stored prefix; a full flush leaves everything stored |
| `WalLog.Writer.Enqueue` | control-plane/replication/wal/wal.go:307-346 | closing, validation and numbering of an append; the invariant holds after it if and only if the object was not already pending |
| `WalLog.Writer.Append` | control-plane/replication/wal/wal.go:297-346 | plain and durable appends keep the invariant; a full batch is flushed and one that is not full only buffered; a durable append that succeeds leaves everything stored |
| `WalLog.Writer.Tick` | control-plane/replication/wal/wal.go:348-366 | the periodic flush keeps the invariant |
| `WalLog.Writer.BeginClose` | control-plane/replication/wal/wal.go:374-390 | only the first close proceeds |
| `WalLog.Writer.FinishClose` | control-plane/replication/wal/wal.go:390-402 | a close that succeeds leaves everything stored and the writer closed |
| `WalReading.CollectsRun` | control-plane/replication/wal/wal.go:496-546 | the sequences collected from a listing, sorted, are exactly the rest of the log |
| `WalReading.CollectLoop` | control-plane/replication/wal/wal.go:496-546 | the collecting loop, with or without the seen-map |
| `WalReading.ReadEntry` | control-plane/replication/wal/wal.go:480-493 | an entry of the log is read as it was written |
| `WalReading.Reader.ReadBatch` | control-plane/replication/wal/wal.go:496-546 | over a writer's store never a gap: the next slice of the log; on any error the position is unchanged |
| `WalReading.Reader.ReadNext` | control-plane/replication/wal/wal.go:459-477 | the next entry and the position after it, or no change |
| `WalReading.RecoveryReader.ReadEntries` | control-plane/replication/adapters/adapters.go:109-151 | everything after the resume point, in order, without gap or duplicate |
| `WalReading.RecoveryReader.FetchEntry` | control-plane/replication/adapters/adapters.go:132-149 | an object is read, decoded and compared with the sequence and region asked for |
| `WalReading.RecoveryReader.FetchEntries` | control-plane/replication/adapters/adapters.go:132-151 | one entry per wanted sequence, in order; over a writer's store the next slice of the log |
| `WalReading.FirstIsNextIff` | control-plane/replication/adapters/adapters.go:109-151 | over any store, what is read starts right after the position if and only if the object of the next sequence is there |
| `WalReading.RecoveryReaderSeesLogIff` | control-plane/replication/adapters/adapters.go:97-107 | the recovery reader asks for an object the writer wrote if and only if the prefix has no trailing slash to trim |
| `WalReading.SlicesJoin` | control-plane/replication/wal/wal.go:496-546 | successive slices concatenate to one slice |
| `WalReading.Session.Append` | control-plane/replication/wal/wal.go:297-346 | an append within a whole run of writer, crashes and reader keeps the run's invariant |
| `WalReading.Session.Crash` | control-plane/replication/wal/wal.go:220-293 | a crash loses the pending buffer; the restarted writer continues after the last stored entry |
| `WalReading.Session.BeginClose` | control-plane/replication/wal/wal.go:374-390 | the first half of a close, at any moment of a run |
| `WalReading.Session.FinishClose` | control-plane/replication/wal/wal.go:390-402 | the last flush of a close, at any later moment of a run |
| `WalReading.Session.Read` | control-plane/replication/wal/wal.go:496-546 | what has been read so far grows by the next batch |
| `WalReading.RunLog` | control-plane/replication/wal/wal.go:220-546 | for every run of appends, ticks, closes, crashes and reads: the store holds a gap-free log, and everything read is one slice of it with no omission or duplicate |
| `ReplicatorLoop.ProgressStore.SaveReplicationProgress` | control-plane/replication/adapters/progress.go:24-37 | saved progress never falls |
| `ReplicatorLoop.ProgressStore.ResumeFrom` | control-plane/replication/runtime/runtime.go:272-286 | a restart resumes at the larger of configured and saved progress |
| `ReplicatorLoop.Replicator.GapFree` | control-plane/replication/runtime/replicator.go:78-90 | the check accepts exactly batches that are contiguous from their first entry |
| `ReplicatorLoop.Replicator.Turn` | control-plane/replication/runtime/replicator.go:64-106 | one turn sends at most a batch of strictly consecutive entries and advances to the last one sent; over any store they start at the next sequence if and only if its object is there; a turn that does not stop has sent all there is, or a full batch, and saved it |
| `ReplicatorLoop.Replicator.SendAll` | control-plane/replication/runtime/replicator.go:91-104 | entries are sent in order, each acknowledged before the next |
| `ReplicatorLoop.GapBeforeFirstPasses` | control-plane/replication/runtime/replicator.go:84-90 | for every configuration and position a store whose next entry is missing and whose later one is read and passes the check |
| `Replication.WriterStep` | control-plane/replication/wal/wal.go:220-418 | every step of the writer, its flushes put by put, its crashes and restarts, keeps the stored log gap-free and ended by the buffer |
| `Replication.EnqueueAcceptsIff` | control-plane/replication/wal/wal.go:307-330 | which entries are accepted, and what is buffered |
| `Replication.PutAdvances` | control-plane/replication/wal/wal.go:405-418 | a put that fails ends the flush with the buffer kept, the last one that succeeds drops it |
| `Replication.ListingKeepsPath` | control-plane/replication/adapters/adapters.go:113-130 | the sequences a listing yields are those of the log after the run's position |
| `Replication.FetchKeepsPath` | control-plane/replication/adapters/adapters.go:132-149 | the entry fetched next, with the writer going on meanwhile, is the next entry of the log |
| `Replication.FetchGoesOnIff` | control-plane/replication/adapters/adapters.go:132-149 | a run goes on if and only if the object decodes to an entry of the sequence and region asked for |
| `Replication.CheckKeepsPath` | control-plane/replication/runtime/replicator.go:83-93 | a batch that passes the check is the next piece of the log |
| `Replication.CheckGoesOnIff` | control-plane/replication/runtime/replicator.go:83-93 | and if and only if what was fetched has no gap; at most a batch of it is sent |
| `Replication.SendKeepsPath` | control-plane/api-server/internal/replication/runtime_bridge.go:206-223 | sending is a push to the receiver of the entry right after the run's position; a negative epoch is not sent |
| `Replication.HeadIsPushedIff` | control-plane/api-server/internal/replication/runtime_bridge.go:206-223 | which entries are pushed, and what a push carries |
| `Replication.AnswerKeepsPath` | control-plane/api-server/internal/replication/service.go:221-279 | an acknowledgement means that the receiver holds the content of the entry that was sent |
| `Replication.SentIffAcknowledged` | control-plane/replication/runtime/replicator.go:94-97 | an entry counts as sent if and only if its push is acknowledged |
| `Replication.SaveKeepsPath` | control-plane/replication/adapters/progress.go:24-37 | saving the sequence of the acknowledged entry raises the progress only over delivered entries |
| `Replication.SaveGoesOnIff` | control-plane/replication/runtime/replicator.go:98-104 | the run goes on behind an entry if and only if saving its sequence succeeded |
| `Replication.NextKeepsInv` | control-plane/replication/runtime/replicator.go:64-106 | every step of writer, replicator and receiver keeps the end-to-end invariant |
| `Replication.SavedProgressIsDelivered` | control-plane/replication/runtime/runtime.go:272-286 | over any crashes and restarts of writer and replicator, for every sequence above the configured resume point up to the saved progress the store holds the entry under its key, and the receiver has committed a row for its region, peer, job and sequence with its epoch, URI and checksum |
| `Replication.RunsSkipNothing` | control-plane/replication/runtime/replicator.go:64-106 | every run of the replicator, whenever restarted, sends the entries stored under consecutive keys from its start, and everything up to its position has arrived |
| `Replication.LogIsAlwaysGapFree` | control-plane/replication/wal/wal.go:220-418 | in every state the end-to-end system reaches, the stored log is gap-free and the buffer ends it |
| `Pipeline.Path.Restart` | control-plane/replication/runtime/runtime.go:272-286 | a new run of the replicator starts where nothing before is left unsent |
| `Pipeline.Path.Turn` | control-plane/replication/runtime/replicator.go:64-106 | a turn of the running replicator extends its run by the next entries of the log and covers the saved progress |
| `Pipeline.Path.Write` | control-plane/replication/wal/wal.go:220-418 | whatever the writer does, what was sent stays a piece of the log |
| `Pipeline.RunPath` | control-plane/replication/runtime/replicator.go:64-106 | for every run of the writer, the recovery reader, the replicator and the progress store together: the log is gap-free, each replicator run sends consecutive entries of it, and every sequence up to the saved progress was sent |
| `Admission.FingerprintIdentifiesContent` | control-plane/replication/adapters/admission.go:83-87 | once the key is fixed, equal fingerprints mean equal epoch, URI and CRC, NUL bytes in the URI included |
| `Admission.FingerprintIdentifiesPush` | control-plane/replication/adapters/admission.go:83-87 | and without NUL bytes in source, target and job it identifies the whole push |
| `Admission.ClaimKeepsInv` | control-plane/replication/adapters/admission.go:22-56 | claiming keeps the invariant and the committed rows |
| `Admission.CommitKeepsInv` | control-plane/replication/adapters/admission.go:59-72 | committing keeps the invariant and the committed rows |
| `Admission.GiveUpKeepsInv` | control-plane/replication/adapters/admission.go:75-80 | releasing keeps the invariant and the committed rows |
| `Admission.OneOwner` | control-plane/replication/adapters/admission.go:22-80 | under any interleaving an uncommitted row has at most one owner |
| `Admission.AcknowledgedPushesAgree` | control-plane/api-server/internal/replication/service.go:221-279 | any two acknowledged pushes with the same key carried the same epoch, URI and CRC |
| `Admission.AcknowledgedWasDelivered` | control-plane/api-server/internal/replication/service.go:236-279 | under any interleaving, whatever is acknowledged was delivered to the subscribers, by that push or by another with the same key and content |
| `Admission.AcknowledgedRequestsAgree` | control-plane/api-server/internal/replication/service.go:221-235 | two acknowledged requests for one source, target, job and sequence have the same epoch, URI and checksum |
| `Admission.CommittedForever` | control-plane/replication/adapters/admission.go:59-80 | committed rows never change or vanish |
| `Admission.AcknowledgedForever` | control-plane/api-server/internal/replication/service.go:221-279 | an acknowledged push stays acknowledged |
| `Admission.AdmissionStore.ClaimCheckpoint` | control-plane/replication/adapters/admission.go:22-56 | claimed, duplicate, conflict or in progress, from the row that is there; a failed call may have inserted its row |
| `Admission.AdmissionStore.CommitCheckpoint` | control-plane/replication/adapters/admission.go:59-72 | the row is committed when the call reports success |
| `Admission.AdmissionStore.ReleaseCheckpoint` | control-plane/replication/adapters/admission.go:75-80 | only an uncommitted row is removed |
| `Admission.Service.PushCheckpoint` | control-plane/api-server/internal/replication/service.go:192-280 | which requests are invalid; what is answered when the row is there already; an acknowledgement means a committed row with the request's key, epoch, URI and checksum, and the event in the channel of every subscriber that asked for it; each call is a run of the protocol |
| `Admission.Service.DeliverAndCommit` | control-plane/api-server/internal/replication/service.go:236-279 | delivery to subscribers, then commit, or release when either fails |
| `Admission.Service.DeliverAll` | control-plane/api-server/internal/replication/service.go:236-266 | every subscriber that asked for the job and the sequence gets the event, unless a channel of 128 is full or the caller gives up |
| `Admission.OfferedIff` | control-plane/api-server/internal/replication/service.go:246-254 | whom an event is for |
| `Admission.Service.Subscribe` | control-plane/api-server/internal/replication/service.go:283-305 | a resume point that is not positive filters nothing |
| `Admission.Service.ReportReplicationStatus` | control-plane/api-server/internal/replication/service.go:325-355 | the mark of a region is the highest sequence ever reported |
| `PromotionRecord.Promotion.TransitionTo` | control-plane/replication/promotion/promotion.go:96-118 | forward only, never out of failure; completion time on the final states |
| `EpochTable.SwapLowersIff` | control-plane/replication/adapters/postgres.go:103-123 | a compare-and-set lowers the stored epoch exactly when it matches and writes a smaller one |
| `Promoters.AssignKeepsInv` | control-plane/replication/adapters/postgres.go:73-88 | an allocation is one above the stored epoch |
| `Promoters.EpochCountsAllocations` | control-plane/replication/promotion/promotion.go:297-440 | under any interleaving the stored epoch is the initial one plus the number of allocations, so it never falls |
| `Promoters.UpdateEpochIsIdle` | control-plane/replication/promotion/promotion.go:387-391 | the compare-and-set inside a promotion never matches, so it never lowers the epoch |
| `Promoters.SuccessfulEpochsDiffer` | control-plane/replication/promotion/promotion.go:297-440 | successful promotions of a job have different epochs, each above its previous epoch |
| `Promoters.KeyAllocatesOnce` | control-plane/replication/adapters/postgres.go:138-144 | an idempotency key causes at most one allocation |
| `Promoters.PublishedNeverAhead` | control-plane/replication/checkpoint/publisher.go:52-71 | no published entry is ahead of the stored epoch |
| `Promoters.PublishedIsCurrentIff` | control-plane/replication/checkpoint/publisher.go:52-71 | a publication carries the current epoch if and only if nothing was allocated to the job between its check and its append |
| `Promoters.StaleEpochCanBePublished` | control-plane/replication/checkpoint/publisher.go:52-71 | a run in which a fenced epoch is published |
| `PromotionChecks.SucceedsAfterChecks` | control-plane/replication/promotion/promotion.go:331-421 | in every run a promotion that succeeded read the expected epoch, fenced if it fences while it was still stored, was allocated its epoch, passed the capability check and was recovered, in that order |
| `PromotionChecks.RecordTellsTheOutcome` | control-plane/replication/promotion/promotion.go:363-429 | in every run a stored record says complete only for a promotion that succeeded, with its epoch, and failed only for one that failed |
| `PromotionChecks.EndIsRecorded` | control-plane/replication/promotion/promotion.go:363-429 | a promotion that ended and has a record says so in it |
| `PromotionChecks.PublishesIffActive` | control-plane/replication/checkpoint/publisher.go:59-65 | a publisher goes on if and only if the epoch it was given is the stored one |
| `PromotionChecks.PublishesOnce` | control-plane/replication/checkpoint/publisher.go:66-70 | and appends one entry with that epoch |
| `PromotionManager.EpochStore.Assign` | control-plane/replication/adapters/postgres.go:73-88 | the new epoch is the stored one; a call that fails may have allocated |
| `PromotionManager.EpochStore.UpdateEpoch` | control-plane/replication/adapters/postgres.go:103-123 | lowers an epoch only if it matches and writes a smaller one, also when the call fails after taking effect; success means the row holds the new epoch |
| `PromotionManager.Manager.Promote` | control-plane/replication/promotion/promotion.go:297-440 | for any interference: epochs never fall; a completed promotion has passed the fence, the capability check and the recovery that are configured, in order, with a fresh record, the expected previous epoch and a larger stored one; without a revalidator none completes; how it ended is stored once; a failed creation keeps the job busy |
| `RuntimeProtocol.LaunchedAtMostOnce` | control-plane/replication/runtime/runtime.go:235-341 | over all interleavings the replicator is launched at most once, its done channel closed at most once, and none runs, and the watcher has stopped, when the first close has returned |
| `RuntimeProtocol.NothingLaunchedAfterClose` | control-plane/replication/runtime/runtime.go:288-329 | nothing is launched after closed is set |
| `RuntimeProtocol.CloseWaitsIff` | control-plane/replication/runtime/runtime.go:311-341 | no replicator runs when a close has returned, in every run, if and only if that close found the runtime open |
| `RuntimeProtocol.StartConnectsIff` | control-plane/replication/runtime/runtime.go:235-262 | who connects, who waits and who returns |
| `RuntimeProtocol.WaiterRetriesIff` | control-plane/replication/runtime/runtime.go:243-256 | a waiting caller tries again if and only if the attempt it waits for is over |
| `RuntimeProtocol.AttemptStartsIff` | control-plane/replication/runtime/runtime.go:264-309 | an attempt starts the runtime if and only if it is open and the connection and, with a replicator, the saved progress are there; only then it launches |
| `RuntimeProtocol.LaunchedAfterConnecting` | control-plane/replication/runtime/runtime.go:264-309 | over all interleavings, what is launched was launched by an attempt that connected |
| `RuntimeProtocol.Runtime.StartSection` | control-plane/replication/runtime/runtime.go:235-262 | the first critical section of a start |
| `RuntimeProtocol.Runtime.FinishSection` | control-plane/replication/runtime/runtime.go:287-309 | the second one, which launches |
| `RuntimeProtocol.Runtime.CloseSection` | control-plane/replication/runtime/runtime.go:311-320 | only the first close proceeds |
| `AuditPaging.AuditService.ListSecurityAudit` | control-plane/auth/postgres/repository.go:293-345 | the keyset query: the first rows behind the cursor, newest first |
| `AuditPaging.AuditService.FetchPage` | control-plane/api-server/internal/service/audit_service.go:126-168 | one row too many tells whether more follow; the token names the last row |
| `AuditPaging.AuditService.WriteSecurityAudit` | control-plane/auth/postgres/repository.go:265-291 | an insert under the primary key; a failing one may have been applied |
| `AuditPaging.AuditService.ListAuditEvents` | control-plane/api-server/internal/service/audit_service.go:105-185 | the answer to a request or a token; a page is handed out only if the read was recorded as one more event, and which requests are refused |
| `AuditPaging.RequestIsAcceptedIff` | control-plane/api-server/internal/service/audit_service.go:187-242 | which first requests are accepted: window, filters, page size; what they ask for; the token lasts 15 minutes |
| `AuditPaging.FirstPageIsAskedFor` | control-plane/api-server/internal/service/audit_service.go:105-168 | the first page holds events of the tenant, window and filters asked for, newest first, with a token if and only if more are left |
| `AuditPaging.LaterPageIsAskedFor` | control-plane/api-server/internal/service/audit_service.go:187-225 | a later page holds events of the token's tenant, window and filters, behind its last row |
| `AuditPaging.FollowingTokensMissesNothing` | control-plane/api-server/internal/service/audit_service.go:126-242 | following tokens to the end gives every matching event of the first request once, in strict order, and nothing that does not match or was not recorded by the time of one of the requests, whatever is inserted meanwhile |
| `AuditPaging.UndisturbedPagesAreListing` | control-plane/api-server/internal/service/audit_service.go:126-242 | with nothing inserted into the window the pages are the sorted listing, for every page size |
| `AuditPaging.TokenIsAcceptedIff` | control-plane/api-server/internal/service/audit_service.go:187-242 | the token of a page is accepted if and only if tenant, policy and page size are those of the page, no filter is given, it has not expired, the time of the last row is not zero and its identifier has no control character |
| `Keyset.FollowedPages` | control-plane/auth/postgres/repository.go:293-345 | rows added while a client pages neither hide nor repeat a row |
| `Keyset.FollowedRowsWereThere` | control-plane/auth/postgres/repository.go:293-345 | every row a client gets was in the table of one of its requests |
| `Keyset.PagesAreListing` | control-plane/auth/postgres/repository.go:293-345 | the pages of an unchanged table are its only sorted listing |
| `Keyset.PagingEnds` | control-plane/auth/postgres/repository.go:293-345 | no table keeps a client paging for more requests than it has rows |
| `Jobs.LifecycleKeepsIdentity` | control-plane/job/lifecycle.go:14-136 | only a start raises the epoch, by one, and the restart counter follows |
| `Jobs.LifecycleKeepsStatus` | control-plane/job/model.go:237-277 | every lifecycle function keeps a valid status valid |
| `Jobs.LifecycleMovesAlongEdges` | control-plane/job/lifecycle.go:48-149 | the state moves only along the edges of the lifecycle; when start and stop report a change |
| `Jobs.JobIsValidIff` | control-plane/job/model.go:212-277 | what a job and its status look like in each state |
| `Jobs.NewIsStopped` | control-plane/job/model.go:174-194 | a new job is stopped, never started, at its first version |
| `Jobs.ReplacementSucceedsIff` | control-plane/job/lifecycle.go:14-25 | a spec is replaced if and only if it is valid and the job is not initializing, running or canceling |
| `Jobs.DeletableIff` | control-plane/job/lifecycle.go:27-32 | a job can be deleted if and only if it is not initializing, running or canceling |
| `Jobs.StartSucceedsIff` | control-plane/job/lifecycle.go:48-77 | a start begins a new epoch if and only if the job was created or has come to an end |
| `Jobs.StopSucceedsIff` | control-plane/job/lifecycle.go:79-98 | a stop cancels a job that is initializing or running and leaves others alone |
| `Jobs.ReportSucceedsIff` | control-plane/job/lifecycle.go:100-149 | a report is accepted if and only if it is of the current epoch and repeats the state or makes one of six transitions, with a failure exactly if it reports one |
| `JobHistory.Repository.Create` | control-plane/job/memory/repository.go:20-32 | refuses invalid jobs and taken names |
| `JobHistory.Repository.Update` | control-plane/job/memory/repository.go:72-94 | stores at the next version, or refuses for version, identity or epoch |
| `JobHistory.Repository.Delete` | control-plane/job/memory/repository.go:96-114 | removes the job of the expected version |
| `JobHistory.CreationSucceedsIff` | control-plane/job/memory/repository.go:20-32 | exactly when a job is created, and what is stored |
| `JobHistory.UpdateSucceedsIff` | control-plane/job/memory/repository.go:72-94 | exactly when a job is updated: version, UID, time of creation and epoch |
| `JobHistory.DeletionSucceedsIff` | control-plane/job/memory/repository.go:96-114 | exactly when a job is deleted |
| `JobHistory.AcceptedWriteReadTheCurrent` | control-plane/job/memory/repository.go:72-94 | a write is accepted only if what was read is what is stored |
| `JobHistory.WriteIsAcceptedIff` | control-plane/job/memory/repository.go:72-94 | in every reachable state a write is stored if and only if the job it read is the stored one and the result is valid |
| `JobHistory.HistoryIsLifecyclePath` | control-plane/job/lifecycle.go:14-149 | everything ever stored under a UID is one path of the lifecycle: versions from one, epoch the number of accepted starts, restarts one behind, every status valid |
| `JobHistory.DeletedIsNeverWrittenBack` | control-plane/job/memory/repository.go:72-114 | after a deletion, whatever is created under the name, nobody who read the old job can write it back |
| `Connections.EditsKeep` | control-plane/connection/model.go:220-293 | what replacing, rotating and switching state keep: identity, steps of one, settings while active |
| `Connections.EditStores` | control-plane/connection/model.go:220-293 | what replacing, rotating and switching state store, and what they leave alone |
| `Connections.EditIsRefusedIff` | control-plane/connection/model.go:220-293 | refused are new contents for an active connection, rotation to the same secret and incompatible activation, and nothing else |
| `Connections.EditSucceeds` | control-plane/connection/model.go:220-293 | every other edit with well-formed contents succeeds |
| `Connections.NewIsDisabled` | control-plane/connection/model.go:168-182 | a new connection is disabled, at its first version |
| `Connections.GenerationIsValidIff` | control-plane/connection/model.go:86-145 | valid generations and secret locators |
| `Connections.ConnectionIsValidIff` | control-plane/connection/model.go:184-212 | valid connections |
| `Connections.CompletionIsValidIff` | control-plane/connection/repository.go:243-263 | what an executor may report |
| `Connections.TestIsValidIff` | control-plane/connection/repository.go:265-317 | what a test looks like in each state |
| `Connections.WorkIsValidIff` | control-plane/connection/repository.go:217-233 | valid work |
| `ConnectionRules.CreationSucceedsIff` | control-plane/connection/memory/repository.go:169-186 | exactly when a connection is created, and everything that changes |
| `ConnectionRules.UpdateSucceedsIff` | control-plane/connection/memory/repository.go:187-215 | exactly when a connection is updated, when that is reported as a change, and everything that changes |
| `ConnectionRules.DeletionSucceedsIff` | control-plane/connection/memory/repository.go:216-234 | exactly when a connection is deleted: disabled, all counts zero, no test queued or running |
| `ConnectionRules.TestIsAdmittedIff` | control-plane/connection/memory/repository.go:235-254 | of the tests that fit, exactly those are refused whose tenant has 8 active ones or 100 in the last 24 hours, whose actor has 2 or whose connection has one |
| `ConnectionRules.TakesEffectIff` | control-plane/connection/memory/repository.go:130-150 | exactly when a mutation takes effect |
| `ConnectionRules.EffectIsRecorded` | control-plane/connection/memory/repository.go:150-163 | every effect raises the revision by one, adds one audit event that says who did what, and remembers its reply |
| `ConnectionRules.ClaimRequestIff` | control-plane/connection/memory/repository.go:289-296 | one to 64 tests, for at most five minutes |
| `ConnectionRules.BatchIsOldest` | control-plane/connection/memory/repository.go:302-320 | claimable are queued tests and running ones whose lease is over; one is left behind only for older ones in a full batch |
| `ConnectionRules.ClaimStarts` | control-plane/connection/memory/repository.go:328-350 | a claimed test runs for the executor until the lease ends, one attempt more |
| `ConnectionRules.CompletionSucceedsIff` | control-plane/connection/memory/repository.go:364-404 | exactly when a completion is stored, and that the test then carries its result |
| `ConnectionRules.PassDecides` | control-plane/connection/memory/repository.go:418-464 | after a pass a test is expired if its retention is over, timed out if it was active at its deadline, and otherwise as it was |
| `ConnectionRules.PassIsAudited` | control-plane/connection/memory/repository.go:418-464 | what a pass changes loses its claim and is audited once |
| `ConnectionRules.CompletionIsAudited` | control-plane/connection/memory/repository.go:390-402 | a completion is audited once, with its result |
| `ConnectionInvariants.AdmissionKeepsQuotas` | control-plane/connection/memory/repository.go:491-516 | admission within the limits keeps every limit, in whatever order creation times arrive |
| `ConnectionInvariants.CreateKeepsInv` | control-plane/connection/memory/repository.go:169-186 | creation keeps all maps in agreement |
| `ConnectionInvariants.UpdateKeepsInv` | control-plane/connection/memory/repository.go:187-215 | every accepted update keeps them, whatever the candidate; it keeps the recorded generation equal to the current one if and only if equal generation numbers mean equal generations |
| `ConnectionInvariants.DeleteKeepsInv` | control-plane/connection/memory/repository.go:216-234 | deletion keeps them: no active test loses its generation |
| `ConnectionInvariants.TestKeepsInv` | control-plane/connection/memory/repository.go:235-254 | test admission keeps them |
| `ConnectionInvariants.ApplyKeepsInv` | control-plane/connection/memory/repository.go:130-163 | every mutation with new identifiers, refused, replayed or applied, keeps them |
| `ConnectionTests.WalkExpires` | control-plane/connection/memory/repository.go:416-466 | in whatever order the map is walked, an expiry pass ends with the same tests and claims |
| `ConnectionTests.PassingLivesOn` | control-plane/connection/memory/repository.go:416-466 | a test after expiry is valid; an ended one is unchanged or expired |
| `ConnectionTests.ExpiryKeepsInv` | control-plane/connection/memory/repository.go:416-466 | a pass keeps the invariant; tests still active are before their deadline |
| `ConnectionTests.ClaimKeepsInv` | control-plane/connection/memory/repository.go:289-362 | a claim keeps the invariant, also one that stops midway |
| `ConnectionTests.PassRevises` | control-plane/connection/memory/repository.go:406-414 | a pass raises the revision by one if and only if a test was over its time |
| `ConnectionTests.ClaimRevises` | control-plane/connection/memory/repository.go:357-361 | a claim raises the revision by one if and only if it returns work |
| `ConnectionTests.ActiveIsAvailable` | control-plane/connection/memory/repository.go:322-327 | the generation an active test captured is always there |
| `ConnectionTests.WorkIsValid` | control-plane/connection/repository.go:217-233 | the work for a running test is valid if and only if its descriptor revision is that of the generation it captured |
| `ConnectionTests.CompletionKeepsInv` | control-plane/connection/memory/repository.go:364-404 | a completion keeps the invariant and ends the test |
| `ConnectionRepository.Repository.constructor` | control-plane/connection/memory/repository.go:48-58 | an empty store |
| `ConnectionRepository.Repository.HasActive` | control-plane/connection/memory/repository.go:482-489 | the search loop finds an active test if there is one |
| `ConnectionRepository.Repository.TestLimitReached` | control-plane/connection/memory/repository.go:491-516 | the counting loop compares the four counts with their limits |
| `ConnectionRepository.Repository.ExpireTest` | control-plane/connection/memory/repository.go:418-464 | the body of the expiry loop: which test is due, and what becomes of it |
| `ConnectionRepository.Repository.ExpireLocked` | control-plane/connection/memory/repository.go:416-466 | the loop over the map is one walk, and counts the tests that were due |
| `ConnectionRepository.Repository.ExpireTests` | control-plane/connection/memory/repository.go:406-414 | a pass, with a new revision if anything was due |
| `ConnectionRepository.Repository.ChooseTests` | control-plane/connection/memory/repository.go:302-320 | the claimable tests, oldest first, up to the limit |
| `ConnectionRepository.Repository.ClaimTest` | control-plane/connection/memory/repository.go:322-356 | one claim: refused before any change when the generation is missing, otherwise running with a new lease |
| `ConnectionRepository.Repository.HandOut` | control-plane/connection/memory/repository.go:321-358 | the claim loop never finds a generation missing; it hands out valid work for the whole batch while contents agree, and otherwise stops at the first invalid work, which it has claimed |
| `ConnectionRepository.Repository.ClaimTests` | control-plane/connection/memory/repository.go:289-362 | expiry, batch and revision together |
| `ConnectionRepository.Repository.CompleteTest` | control-plane/connection/memory/repository.go:364-404 | completed by the holder of a live lease before the deadline, or refused without change |
| `ConnectionRepository.Repository.SetReferenceCounts` | control-plane/connection/memory/repository.go:468-472 | only the reference counts of the UID change |
| `ConnectionRepository.Repository.CreateLocked` | control-plane/connection/memory/repository.go:169-186 | creation, with its refusals |
| `ConnectionRepository.Repository.UpdateLocked` | control-plane/connection/memory/repository.go:187-215 | update, with its refusals |
| `ConnectionRepository.Repository.DeleteLocked` | control-plane/connection/memory/repository.go:216-234 | deletion, with its refusals |
| `ConnectionRepository.Repository.TestLocked` | control-plane/connection/memory/repository.go:235-254 | test admission, with its refusals |
| `ConnectionRepository.Repository.ApplyMutation` | control-plane/connection/memory/repository.go:130-163 | a refusal changes nothing, a replay repeats the first reply, and mutations with new identifiers keep the invariant |
| `ConnectionRuns.HonestIsFaithful` | control-plane/api-server/internal/service/connection_service.go:298-517 | mutations made as the service makes them, at the version that was read, have new identifiers and keep contents |
| `ConnectionRuns.RunKeepsGood` | control-plane/connection/memory/repository.go:130-466 | every run of mutations, claims, completions and expiry keeps the invariant |
| `ConnectionRuns.LimitsHold` | control-plane/connection/repository.go:112-120 | in every reachable state, whatever candidates the callers send, at most 8 active tests of a tenant, 2 of an actor, 1 on a connection, and at most 100 in every closed 24-hour window |
| `ConnectionRuns.MapsAgree` | control-plane/connection/memory/repository.go:165-258 | in every reachable state, whatever candidates the callers send, index and connections are inverse, generations are numbered without gap, claims are the running tests', all tests are valid and active ones have their generation; recorded contents are the current ones if the callers edit the version they name |
| `ConnectionRuns.StoredIsWellFormed` | control-plane/connection/repository.go:265-317 | in every reachable state a test's times are in order and it has a start, an end and a result exactly as its state says |
| `ConnectionRuns.IdleChangesNothing` | control-plane/connection/memory/repository.go:130-150 | a refused or replayed mutation changes nothing |
| `ConnectionRuns.EffectiveRunIsEnough` | control-plane/connection/memory/repository.go:130-163 | deleting all refused and replayed mutations from any run gives the same store, log and revision |
| `ConnectionRuns.TakesEffectOnce` | control-plane/connection/memory/repository.go:138-150 | after a mutation took effect, its key only replays its reply or is refused, in every later state |
| `ConnectionHistory.UpdateStoresEdit` | control-plane/connection/memory/repository.go:187-215 | an accepted update stores the edit of what was stored |
| `ConnectionHistory.VersionsCountChanges` | control-plane/connection/memory/repository.go:187-215 | over any run the version rises by one per change reported, and recorded generations never change |
| `ConnectionHistory.SettingsHoldWhileActive` | control-plane/connection/model.go:220-252 | settings are constant while a connection stays active |
| `ConnectionHistory.GoneForever` | control-plane/connection/memory/repository.go:216-234 | a deleted UID never comes back |
| `ConnectionHistory.EditBuildsOnStoredIff` | control-plane/api-server/internal/service/connection_service.go:593-607 | an accepted edit builds on what is stored if and only if the version named is the version read |
| `ConnectionHistory.OlderEditReplacesAsNoChange` | control-plane/connection/memory/repository.go:195-212 | otherwise an update can be accepted as no change and replace state and settings under the same version |
| `ConnectionHistory.TwoReplacementsShareAGeneration` | control-plane/connection/memory/repository.go:195-212 | two replacements of one version: the second is accepted as no change and what is stored is not what is recorded for its generation |
| `ConnectionLeases.TestsAreHandledFairly` | control-plane/connection/memory/repository.go:289-404 | over every run, whatever candidates the callers send, leases last at most five minutes, a test is handed out again only after earlier leases ended, and is ended at most once, by its last holder, in time |
| `ConnectionLeases.AttemptsCountLeases` | control-plane/connection/memory/repository.go:340-350 | over every run the attempt number of a claim is how often its test was handed out |
| `ConnectionLeases.EndedTestsOnlyExpire` | control-plane/connection/memory/repository.go:364-466 | over every run, whatever candidates the callers send, tests are never forgotten and once ended only expire |
| `ConnectionListing.Select` | control-plane/connection/memory/repository.go:91-100 | the loop selects what matches the filter behind the cursor |
| `ConnectionListing.List` | control-plane/connection/memory/repository.go:81-111 | one page: sorted, ahead of what is left, full when more follow |
| `ConnectionListing.ListedIff` | control-plane/connection/memory/repository.go:91-100 | listed are the connections of the tenant, connector and state asked for |
| `ConnectionListing.ListedByName` | control-plane/connection/memory/repository.go:101-104 | names ascend, then identifiers |
| `ConnectionListing.ListAll` | control-plane/connection/memory/repository.go:81-111 | asking page after page ends, and gives the whole listing once and in order, for every limit |
| `CompositeKeys.ResourceKeysDiffer` | control-plane/connection/memory/repository.go:518 | no two connections share a map key |
| `CompositeKeys.ScopeIsItsOwnIff` | control-plane/connection/memory/repository.go:138-139 | idempotency keys of one tenant, actor and method are their own if and only if none of the three contains a NUL |
| `BindingIntegrity.FenceBinds` | control-plane/job/postgres/mutation_repository.go:302-378 | a fence that matches the spec and locks its connections binds every role of the job |
| `BindingIntegrity.CreateKeepsIntegrity` | control-plane/job/postgres/mutation_repository.go:93-122 | creating a job keeps integrity |
| `BindingIntegrity.UpdateKeepsIntegrity` | control-plane/job/postgres/mutation_repository.go:124-152 | replacing a spec replaces the bindings and keeps integrity |
| `BindingIntegrity.StartKeepsIntegrity` | control-plane/job/postgres/mutation_repository.go:154-197 | starting captures executions and keeps integrity |
| `BindingIntegrity.StopKeepsIntegrity` | control-plane/job/postgres/mutation_repository.go:199-221 | stopping keeps integrity |
| `BindingIntegrity.DeleteKeepsIntegrity` | control-plane/job/postgres/mutation_repository.go:223-259 | deleting a job removes its bindings and keeps integrity |
| `BindingIntegrity.StartCapturesBindings` | control-plane/job/postgres/mutation_repository.go:169-196 | a start captures each bound connection at its current generation under the new epoch, and finds it active |
| `BindingIntegrity.CreateConnectionKeepsIntegrity` | control-plane/connection/postgres/repository.go:609-639 | creating a connection keeps integrity |
| `BindingIntegrity.UpdateConnectionKeepsIntegrity` | control-plane/connection/postgres/repository.go:641-693 | changing a connection keeps integrity |
| `BindingIntegrity.DeleteConnectionKeepsIntegrity` | control-plane/connection/postgres/repository.go:695-738 | deleting an unreferenced connection keeps integrity |
| `BindingIntegrity.BindingsAlwaysLead` | control-plane/job/postgres/mutation_repository.go:93-378 | in every reachable state a job is bound for exactly the roles that name a connection, to the connection of that name and connector in the binding's tenant, and every execution leads to a recorded generation |
| `BindingRules.FencedIff` | control-plane/job/postgres/mutation_repository.go:302-358 | a fence is accepted if and only if each role that names a connection, and no other, has a binding to that connection as it is now: tenant, name, connector, active, generation and schema |
| `BindingRules.CreateSucceedsIff` | control-plane/job/postgres/mutation_repository.go:93-122 | exactly when a job is created, and everything that changes |
| `BindingRules.UpdateSucceedsIff` | control-plane/job/postgres/mutation_repository.go:124-152 | exactly when a job is updated: stored at the version named, not initializing, running or canceling, valid spec, fence up to date; and everything that changes |
| `BindingRules.StartSucceedsIff` | control-plane/job/postgres/mutation_repository.go:154-197 | exactly when a job is started, and what is captured |
| `BindingRules.StopSucceedsIff` | control-plane/job/postgres/mutation_repository.go:199-221 | exactly when a job is stopped, and everything that changes |
| `BindingRules.DeleteSucceedsIff` | control-plane/job/postgres/mutation_repository.go:223-259 | exactly when a job is deleted; its bindings go, what it captured stays |
| `BindingRules.VersionIdentifiesJob` | control-plane/job/postgres/mutation_repository.go:261-300 | over every run in which a UID is not created again, the version of a job identifies its row, so an accepted mutation builds on the row that was read |
| `BindingRules.ReportIsStoredIff` | control-plane/job/postgres/repository.go:189-223 | exactly when a status report is stored |
| `BindingRules.ConnectionIsCreatedIff` | control-plane/connection/postgres/repository.go:609-639 | exactly when a connection is created, and everything that changes |
| `BindingRules.ConnectionIsUpdatedIff` | control-plane/connection/postgres/repository.go:641-693 | exactly when a connection is updated, and everything that changes |
| `BindingIntegrity.DeletionSucceedsIff` | control-plane/connection/postgres/repository.go:695-738 | when a connection can be deleted, exactly, when it is reported in use, and what goes with it |
| `BindingIntegrity.EndedTestBlocksDeletion` | control-plane/connection/postgres/migrations/001_connections.sql:67-84 | a test that ended long ago blocks a deletion by its foreign key, though it is not counted |
| `BindingDatabase.VerifyFence` | control-plane/job/postgres/mutation_repository.go:302-327 | the two loops decide whether the fence names exactly what the spec refers to |
| `BindingDatabase.LockConnections` | control-plane/job/postgres/mutation_repository.go:329-358 | all connections are there as they were validated |
| `BindingDatabase.ReplaceStable` | control-plane/job/postgres/mutation_repository.go:360-378 | delete, then insert row by row: never a key or reference violation, and the job's bindings are the fence's |
| `BindingDatabase.VerifyStable` | control-plane/job/postgres/mutation_repository.go:380-418 | counting and comparing decides whether the stored bindings are those expected |
| `BindingDatabase.CaptureExecutions` | control-plane/job/postgres/mutation_repository.go:180-195 | one execution per binding, or refused because the epoch was captured before |
| `BindingDatabase.CreateTx` | control-plane/job/postgres/mutation_repository.go:93-122 | the create transaction, statement by statement |
| `BindingDatabase.UpdateTx` | control-plane/job/postgres/mutation_repository.go:124-152 | the update transaction |
| `BindingDatabase.StartTx` | control-plane/job/postgres/mutation_repository.go:154-197 | the start transaction |
| `BindingDatabase.StopTx` | control-plane/job/postgres/mutation_repository.go:199-221 | the stop transaction |
| `BindingDatabase.DeleteTx` | control-plane/job/postgres/mutation_repository.go:223-259 | the delete transaction |
| `BindingDatabase.Database.ApplyMutation` | control-plane/job/postgres/mutation_repository.go:28-91 | takes effect as a whole or not at all, and keeps integrity |
| `BindingDatabase.Database.DeleteConnection` | control-plane/connection/postgres/repository.go:695-738 | takes effect as a whole or not at all, and keeps integrity |

## Left out

- Transport, TLS, Kubernetes, file systems, configuration and the main programs are not modelled; the object store is a map whose calls may fail.
- Authentication, sessions, CSRF and the console are not modelled; a page token is its claims, since its signature admits no others.
- Metrics, logging and the encoding of audit attributes are not modelled.
- Regular expressions and UUID syntax are abstract predicates; lengths of strings are not distinguished from lengths of their bytes.
- Integers are unbounded outside the binary codec: 64-bit versions, revisions and sequences and the 32-bit attempt counter do not wrap.
- WalCodec.UnmarshalBinary: a length field cut off by the end of the data counts as truncated, where the source would stop with a runtime error.
- The order of goroutines inside a critical section, and the liveness of admission (an owner that crashed leaves its row in progress), are not modelled.
- The visible state of the replication runtime and the closing of subscriber channels are not modelled.
- Admission.Service.DeliverAll: subscribers do not take events out of their channels while one push delivers.
- PromotionManager.EpochStore.Others: interference by other promoters is any change that never lowers an epoch and never removes a record, which the interleaved model proves of them.
- The in-memory connection repository's plain look-ups (by name, by UID, tests, the latest test, reference counts) and the hash of the list revision are not modelled; they would only add easy members.
- ConnectionListing.ListAll: the store does not change while the client pages.
- Claims, completions and expiry of tests in PostgreSQL are not modelled; their in-memory counterparts are.
- In the table model, idempotency rows, tombstones and audit rows are left out: a replay or an abort leaves the modelled tables as they are.
- BindingDatabase.Database.ApplyMutation: the isolation of the database is assumed to be serializable, so a transaction is one atomic step.
- The older job repository in PostgreSQL is a step of the table model only for status reports under an unchanged spec; its other writes bypass bindings.
- The tenant column of a job row is left out; a binding's tenant is the one of the mutation that wrote it.
- Catalog activation, recovery downloads, capability retries and the scheduler are not modelled.
