# Breez SDK: a verified model of its hard core

The Breez SDK turns a phone into a Lightning node. This project models, in Dafny, the five parts of it where a
mistake loses data or money, and proves for all inputs and all runs what those parts promise:

1. **Backup of the wallet database between devices.** Any number of devices share one versioned blob.
   `SyncTables` is the database and its import, `BackupProtocol` the step system. `BackupSafety` and
   `BackupAcknowledged` are what every step keeps; `BackupRuns`, `BackupConvergence`, `BackupRows`, `BackupMetadata` and
   `BackupReverse` are the theorems over runs, with `BackupEverywhere` as a common principle. `BackupWorker` is the
   worker as objects whose methods, interrupted by everybody else at every statement, follow runs of that system.
2. **The lockup script of a reverse swap.** `Script` is a Bitcoin Script machine and the meaning of the script for
   every witness; `ScriptValidation` is the script as bytes and as printed text, and the validation of a received one.
3. **Fees.** `PaymentPath` is the amount arithmetic along a path with its two roundings, on numbers and on 64-bit
   words; `OpeningFees` is the LSP's fee menu, the chosen entry, the quote and the charge.
4. **Data transformations.** `Utxos`, `ShortChannelId`, `RouteHints` and `ValueSerializer`.
5. **Webhook registration.** `Webhooks` is the step system of overlapping calls and a cached URL that must stay true;
   `WebhookCalls` is the calls as methods that follow its runs.

`Text` and `Options` hold what several of these need: splitting, hexadecimal, decimal, `Option` and `Result`.

`dafny verify dfyconfig.toml` checks the whole project.

## What is assumed

- The remote store is a compare-and-swap on the generation, and a missing version is sent as 0, which only an absent
  blob has (`libs/sdk-core/src/ldk/store/versioned_store.rs:44-58`, `libs/sdk-core/src/ldk/backup_transport.rs:35-42`).
  A push may be applied late, or applied with its answer lost, or never applied.
- One import is one database transaction (`libs/sdk-core/src/persist/sync.rs:71-72`, `:190`), and a swap is stored in one
  transaction with its fee (`libs/sdk-core/src/persist/swap.rs:123-197`). Only a stored swap is given another fee
  (`libs/sdk-core/src/swap_in/swap.rs:254-269`). Between any two other statements everybody may act.
- The database has all its migrations. Renaming and dropping the first `reverse_swaps` table took its trigger along
  (`libs/sdk-core/src/persist/migrations.rs:569-573`, `:629`, `:660`), and no migration creates it again.
- Hash functions, signature checks, public key parsing, transaction id parsing, address derivation, the clock and the
  outcome of every network request are parameters.
- Distinct reverse swaps have distinct ids (`BackupRows.ReverseSwapsIntact` only). Swap addresses are new when they are
  stored, and a swap that has expired does not become unexpired again (`Webhooks` only).

## Where the code does not do what its comments suggest

- **Reverse swaps are stored without a sync request.** The status keeps saying backed up and no sync starts
  (`BackupReverse.InsertAsksForNothing`); one device and one write suffice (`BackupReverse.ReverseSwapIsNotReported`).
  A reverse swap reaches the remote at the latest with the next sync that its device begins for another reason and
  completes (`BackupReverse.InRemoteOnceSynced`), and not before the device copies its data for a push
  (`BackupReverse.NotInRemoteUncopied`).
- **Payment metadata can disappear from the backup.** The import joins with the local row and compares timestamps, and
  the comparison with a missing row is never true, so a row that the importing side lacks is skipped
  (`libs/sdk-core/src/persist/sync.rs:149-163`; the sibling table tests for the missing row, `:212-213`). The skip is
  harmless exactly when the imported keys are already there (`SyncTables.ImportKeepsMetadataIff`). In the import into the
  device this can lose a row that the remote had (`BackupRuns.UnsafeImportLosesMetadata`, `BackupRuns.MetadataCanBeLost`).
  A merge keeps exactly the keys of the generation it replaces, so a generation loses a key exactly when it is the
  snapshot of a device that had not written it (`BackupMetadata.LosesKeyIff`, `BackupMetadata.NeverLostIff`), and the
  remote has exactly the keys that the device of the last snapshot had written (`BackupMetadata.MetadataInRemoteIff`).
- **A merge forgets new payment metadata.** The same skip, in the import into the copy that is pushed, leaves out local
  rows that the pulled copy lacks, and their requests are deleted. A merge that nobody disturbs is right about them
  exactly when the pulled copy had the keys (`BackupRuns.MergeReportIsRightIff`); a reachable state where it is wrong is
  `BackupRuns.UnmergedMetadataIsForgotten`. `BackupRuns.BackedUpMeansInRemote` covers metadata in every run where neither
  skip occurs. Each skip alone does the harm: after `MetadataCanBeLost`, too, the writer reports the lost row backed up.
- **Payment metadata does not converge.** An import never adds a metadata key, so a device has exactly the keys it wrote
  itself (`BackupMetadata.KeysAreOwn`), and devices agree after syncing exactly when all wrote the same keys
  (`BackupMetadata.MetadataConvergesIff`, `BackupMetadata.MetadataStaysApart`).
- **`backed_up` can be true too early.** The request id is read again after the local data was copied
  (`libs/sdk-core/src/backup.rs:360-361`). A record written in between is deleted from the request queue without having
  been pushed (`BackupRuns.BackedUpCanBeWrong`). The end of a merge reports the truth exactly when its copy already has
  every record that the device holds at that moment (`BackupRuns.ReportIsRightIff`). Without a triggering write in that
  window the report is right in every run about the presence of swaps, fees, refunds and external payment info.
- **A changed fee is not reported.** Giving a stored swap another fee makes no request, so the status says backed up
  while the remote has the older fee (`BackupRuns.FeeUpdateIsNotReported`). The new fee is in the remote once a sync that
  the device began since has completed (`BackupConvergence.SyncedMeansUploaded`).
- **Changed rows of insert-only tables stay where they were changed.** An import never overwrites swaps, external
  payment info or reverse swaps, so after a bidirectional sync the two copies are equal exactly under
  `SyncTables.Reconcilable` (`SyncTables.SyncBothWaysAgreesIff`).
- `sync` returns `Ok` when the backup failed (`libs/sdk-core/src/backup.rs:240-266`); success here means the
  `BackupSucceeded` event.
- **A swap created during a registration can be missed.** `register_webhook` lists the swaps, awaits network calls and
  then caches the URL; a swap created in between finds no cached URL, is not listed, and is not registered by
  registering again (`Webhooks.RacingSwapIsMissed`, `Webhooks.MissedStaysMissed`).
- **A refresh can bring back an old URL.** Registering the cached URL again caches it at the end without registering any
  swap. If another URL was registered and cached meanwhile, swaps created since are not registered at the URL that is
  then cached, although nothing slipped in after any listing (`Webhooks.OvertakenRefreshIsWrong`).
- These two kinds of caching, and a creating call that succeeds at a URL that is no longer cached, are the only ways to
  make the cache untrue, and each has its exact condition (`Webhooks.CachingIsRightIff`, `Webhooks.StepIsTruthfulIff`,
  `Webhooks.TruthfulThroughoutIff`). A run in which every new URL is cached with all swaps listed and every refresh finds
  its URL still cached is truthful throughout (`Webhooks.AlwaysTruthful`).
- After an unregistration that failed halfway the URL stays cached with nothing registered there
  (`Webhooks.WithdrawnIsReachable`), and registering it again restores nothing on-chain (`Webhooks.MissedStaysMissed`).
- Validation of a redeem script looks for the refund key at a fixed token, so it refuses correct scripts with a height
  below 17 or an empty refund key (`ScriptValidation.AcceptedIff`). It accepts refund keys that no stack can hold; such
  an output cannot be spent by anybody (`ScriptValidation.AcceptedIsHtlc`).
- When no menu entry lives long enough, `cheapest_open_channel_fee` still answers, with the last entry
  (`OpeningFees.CheapestFallsBack`). The 48-hour search skips unreadable dates and the general one stops at them; they
  agree exactly when some entry lives 48 hours and no unreadable date comes before it (`OpeningFees.AgreeAt48h`).
- The serializer does not test what enum variants carry; its result is in normal form, and serializing again changes
  nothing, exactly when no variant carries a plain byte array (`ValueSerializer.NormalIff`, `ValueSerializer.SerializeTwice`).
- Merging a hint without hops adds it once more every time (`RouteHints.MergeTwiceIff`).

## Model

| member | source | states |
|---|---|---|
| SyncTables.ImportIsUnion | libs/sdk-core/src/persist/sync.rs:97-194 | outside payment metadata, the records after an import are exactly those of the two copies together |
| SyncTables.ImportKeepsMetadataIff | libs/sdk-core/src/persist/sync.rs:149-163 | an import keeps all records of the imported copy, whatever their age, exactly when its metadata keys were already local |
| SyncTables.ImportKeepsNewestFee | libs/sdk-core/src/persist/sync.rs:196-219 | after an import a swap's fee is the newest of the two copies' rows, the local one on a tie |
| SyncTables.ImportTwice | libs/sdk-core/src/persist/sync.rs:58-194 | importing the same copy again changes nothing and fires no trigger |
| SyncTables.InsertedRowsAre | libs/sdk-core/src/persist/sync.rs:97-163 | an import fires one trigger per swap, refund and external payment that the local copy lacked, and per metadata row that it changes |
| SyncTables.NoTriggerIff | libs/sdk-core/src/persist/sync.rs:97-163 | an import fires no trigger exactly when it leaves these four tables as they were |
| SyncTables.InsertMissingAgreesIff | libs/sdk-core/src/persist/sync.rs:97-117 | for insert-only tables, importing there and back makes both copies equal exactly when no shared key had different rows |
| SyncTables.InsertNewerAgreesIff | libs/sdk-core/src/persist/sync.rs:196-219 | for the fees table the two copies become equal exactly when equal timestamps mean equal rows |
| SyncTables.ReplaceNewerAgreesIff | libs/sdk-core/src/persist/sync.rs:149-163 | for payment metadata the two copies become equal exactly when the key sets were equal and timestamps do not tie on different rows |
| SyncTables.SyncBothWaysAgreesIff | libs/sdk-core/src/backup.rs:357-360 | the copy that is pushed equals the local database exactly when the two copies were reconcilable table by table |
| SyncTables.ConflictingRowStaysLocal | libs/sdk-core/src/persist/sync.rs:130-147 | on a key whose rows differ each side keeps its own row of external payment info |
| BackupProtocol.WriteWrites | libs/sdk-core/src/persist/swap.rs:123-197 | a write puts its row into its table and leaves the rows of every other key alone |
| BackupProtocol.LastRequest | libs/sdk-core/src/backup.rs:234-238 | the largest pending request id, and 0 exactly when that stands for none |
| BackupProtocol.NextIds | libs/sdk-core/src/persist/migrations.rs:552-573 | fired triggers take the ids that directly follow the last one ever given |
| BackupSafety.ApplyKeepsRemote | libs/sdk-core/src/ldk/backup_transport.rs:35-42 | applying any message, also late or a second time, keeps the history growing and every message above its base |
| BackupSafety.OutgoingOk | libs/sdk-core/src/backup.rs:295-376 | every push a device sends holds all records of the generation it names as its base |
| BackupSafety.AdvanceKeepsDevice | libs/sdk-core/src/backup.rs:274-379 | every worker step and local write keeps the device invariant: a stored version g means all records of generation g are held |
| BackupSafety.StepKeepsInv | libs/sdk-core/src/backup.rs:233-379 | every step of every device and of the transport keeps the global invariant; for metadata every step whose import finds the pulled keys present, for the age of rows every step whose clock did not go back |
| BackupAcknowledged.CommitKeepsAck | libs/sdk-core/src/backup.rs:312-324 | storing the version and deleting requests keeps every local record of a table with a trigger, metadata at its age included, announced or in the remote |
| BackupAcknowledged.StepKeepsAck | libs/sdk-core/src/backup.rs:274-379 | every step keeps each local record of a table with a trigger announced by a request or present in the remote, if the id is read in the state that was copied; for metadata, if imports and copies meet no missing key |
| BackupEverywhere.SwapsHaveFees | libs/sdk-core/src/persist/swap.rs:123-197 | in every run every copy of the database, wherever it is, has a fee for each swap and for nothing else |
| BackupRuns.RunKeepsInv | libs/sdk-core/src/backup.rs:233-379 | the global invariant holds after every run that meets the guards of its scope, and without metadata and ages after every run |
| BackupRuns.RunKeepsAck | libs/sdk-core/src/backup.rs:233-379 | the acknowledgement invariant holds after every run with clean windows, and for metadata after every such run that meets the metadata guards |
| BackupRuns.NoLostUpdates | libs/sdk-core/src/backup.rs:274-379 | no lost updates: in every run, with any number of devices, no later generation lacks a record of an earlier one, metadata aside |
| BackupRuns.NothingLostWhenSafe | libs/sdk-core/src/persist/sync.rs:149-219 | a guard on single imports: in every run whose imports find the pulled metadata keys present no generation loses payment metadata, and in every run whose clocks never go back no fee or metadata row is replaced by an older one |
| BackupRuns.UnsafeImportLosesMetadata | libs/sdk-core/src/persist/sync.rs:149-163 | from every state with a current pull that holds a metadata row the device lacks, the device alone can reach a remote without that row |
| BackupRuns.MetadataCanBeLost | libs/sdk-core/src/persist/sync.rs:149-163 | a concrete reachable state of two devices: the remote has lost a metadata row that it held, and the device that wrote the row reports itself backed up |
| BackupRuns.FeeFollowsSwap | libs/sdk-core/src/persist/swap.rs:123-197 | after every run a fee is on a device, or in the remote, exactly when its swap is |
| BackupRuns.BackedUpMeansInRemote | libs/sdk-core/src/breez_services.rs:564-571 | after every run with clean windows a device that reports itself backed up has a row for each of its swaps, fees, refunds and external infos in the remote, and for its payment metadata too, at no older age, if imports and copies met no missing key and no clock went back |
| BackupRuns.DeletedRequestsWerePushed | libs/sdk-core/src/backup.rs:315-319 | when requests are about to be deleted, every record they announced is in the remote, payment metadata at no older age under the same guards |
| BackupRuns.FeeUpdateIsNotReported | libs/sdk-core/src/swap_in/swap.rs:268-269 | a concrete reachable state: a stored swap was given a new fee, the device reports itself backed up and the remote has the older fee |
| BackupRuns.ReportIsRightIff | libs/sdk-core/src/backup.rs:357-361 | an undisturbed end of a merging sync reports everything backed up, and is right about all records of all tables exactly when the copied data already has them |
| BackupRuns.MergedCopyIff | libs/sdk-core/src/backup.rs:357-360 | the copy that a merge pushes has all of the device's records exactly when the pulled copy had all its metadata keys |
| BackupRuns.MergeReportIsRightIff | libs/sdk-core/src/backup.rs:357-371 | an undisturbed merge ends backed up; a metadata row of the device is in the remote afterwards exactly when the pulled copy had its key, and all records are exactly when it had all keys |
| BackupRuns.UnmergedMetadataIsForgotten | libs/sdk-core/src/backup.rs:357-361 | a concrete reachable state of two devices that reports a metadata row backed up which the remote lacks, with no write in any window |
| BackupRuns.WindowWriteIsForgotten | libs/sdk-core/src/backup.rs:360-361 | a record that came after the copy can end up reported as backed up and absent from the remote |
| BackupRuns.LateSwapIsForgotten | libs/sdk-core/src/backup.rs:360-361 | from every such state, creating a swap in the window leads to a state that reports it backed up while the remote lacks it |
| BackupRuns.BackedUpCanBeWrong | libs/sdk-core/src/breez_services.rs:564-571 | a concrete reachable state of two devices that reports everything backed up while a swap is not in the remote |
| BackupRuns.SendSnapshot | libs/sdk-core/src/backup.rs:274-295 | from rest, a forced sync sends exactly the local data with the stored version as base and changes nothing else of the device |
| BackupRuns.SendMerge | libs/sdk-core/src/backup.rs:361-369 | from the copied state the worker reads the last request and sends exactly its copy with the pulled generation as base |
| BackupRuns.FinishPush | libs/sdk-core/src/backup.rs:295-325 | a push that meets its base becomes the next generation, its version is stored and exactly the requests up to its id are deleted |
| BackupRuns.ForcedPush | libs/sdk-core/src/backup.rs:274-325 | a forced sync with a current version makes the local data the next generation |
| BackupRuns.ConflictAndPull | libs/sdk-core/src/backup.rs:296-339 | a forced sync with a stale version leaves the remote unchanged and pulls its current generation |
| BackupRuns.FinishMerge | libs/sdk-core/src/backup.rs:357-371 | an undisturbed merging sync makes its copy the next generation and deletes every request |
| BackupReverse.InsertAsksForNothing | libs/sdk-core/src/persist/migrations.rs:569-660 | creating a reverse swap changes neither the backup status nor whether an unforced sync would start |
| BackupReverse.ReverseSwapIsNotReported | libs/sdk-core/src/persist/reverseswap.rs:6-39 | a concrete state after one write: a reverse swap is stored, the status says backed up and the remote is empty |
| BackupReverse.InRemoteOnceSynced | libs/sdk-core/src/backup.rs:233-330 | in every run whatever a device held, reverse swaps included, is in the remote once a sync that the device began since then has completed |
| BackupReverse.NewReverseSwap | libs/sdk-core/src/persist/reverseswap.rs:6-39 | a reverse swap created under a new id is on its device only |
| BackupReverse.NotInRemoteUncopied | libs/sdk-core/src/backup.rs:280-284 | such a reverse swap stays out of the remote in every run in which its device copies its data neither for a push nor for a merge |
| BackupReverse.InRemoteIff | libs/sdk-core/src/backup.rs:403-414 | in every run a record, of any table but metadata, is in the remote exactly when some accepted push had it, so nothing else brings or removes one |
| BackupMetadata.KeysAreOwn | libs/sdk-core/src/persist/sync.rs:149-163 | in every run a device has exactly the metadata keys that it started with or wrote itself |
| BackupMetadata.MetadataConvergesIff | libs/sdk-core/src/backup.rs:233-379 | after two rounds of syncs the metadata keys of all devices agree exactly when all devices wrote the same keys themselves |
| BackupMetadata.MetadataStaysApart | libs/sdk-core/src/persist/sync.rs:149-163 | a concrete run: one write, two devices, two complete rounds of syncs, and one device still lacks the metadata |
| BackupMetadata.GenerationKeys | libs/sdk-core/src/backup.rs:357-376 | in every run each generation is a merge, with exactly the metadata keys of the generation before it, or the snapshot of a device |
| BackupMetadata.LosesKeyIff | libs/sdk-core/src/persist/sync.rs:149-163 | in every run a generation lacks a metadata key of the one before exactly when it is the snapshot of a device that had not written that key itself |
| BackupMetadata.NeverLostIff | libs/sdk-core/src/persist/sync.rs:149-163 | in every run no generation ever loses metadata keys exactly when no snapshot lacks a key of the generation it replaces |
| BackupMetadata.MetadataInRemoteIff | libs/sdk-core/src/backup.rs:333-379 | in every run a metadata key is in the remote exactly when the device whose snapshot was the last push that was no merge had written it before that snapshot |
| BackupMetadata.DeviceMetadataInRemoteIff | libs/sdk-core/src/breez_services.rs:564-571 | in every run all metadata of a device is in the remote exactly when that snapshot was of a device that had written all its keys |
| BackupConvergence.StepUploads | libs/sdk-core/src/backup.rs:274-379 | every step keeps: whatever a device held at a moment is carried by each sync begun since, and is in the remote once one completed |
| BackupConvergence.StepDownloads | libs/sdk-core/src/backup.rs:274-379 | every step keeps: a device that completed a sync begun since a moment holds everything the remote held at that moment |
| BackupConvergence.TwoRoundsSpread | libs/sdk-core/src/backup.rs:233-379 | once all devices completed a sync and then all completed another, interleaved in any way with writes and lost messages, each device and the remote hold all that any device held at the start |
| BackupConvergence.SyncedMeansUploaded | libs/sdk-core/src/backup.rs:233-330 | along every run: everything a device held is in the remote once a sync that it began since then has completed, and fees at no older age when no clock goes back |
| BackupConvergence.SilentRunInventsNothing | libs/sdk-core/src/backup.rs:333-379 | a run without local writes gives no device a record that none held before |
| BackupConvergence.Converged | libs/sdk-core/src/backup.rs:233-379 | convergence: from any reachable state, after writes stop and two rounds of syncs, each device and the remote hold exactly the union of what was held, metadata aside; with clocks that never went back this includes the age of fees |
| BackupConvergence.CanSync | libs/sdk-core/src/backup.rs:233-330 | from every reachable state, whatever its phase, a device can complete a forced sync alone |
| BackupConvergence.RoundsExist | libs/sdk-core/src/backup.rs:233-330 | from every reachable state there are two rounds of syncs as convergence asks for |
| BackupRows.ReverseSwapsIntact | libs/sdk-core/src/persist/sync.rs:165-184 | a reverse swap that reached the remote is in every later generation with the very row that an event created for it |
| BackupRows.NewestFeeWins | libs/sdk-core/src/persist/sync.rs:196-219 | after two rounds of syncs every device and the remote have the newest fee that any device held, if no clock went back and no two fees of a swap tie |
| BackupWorker.Storage.ImportRemoteChanges | libs/sdk-core/src/persist/sync.rs:58-194 | the database becomes the import, and as many fresh request ids are added as there are swap, refund and external payment rows that were missing and metadata rows that change |
| BackupWorker.Storage.Write | libs/sdk-core/src/persist/migrations.rs:557-668 | the write is applied, and exactly one fresh request is added for every kind of write but a reverse swap and a changed fee |
| BackupWorker.Storage.DeleteSyncRequestsUpTo | libs/sdk-core/src/backup.rs:318-319 | exactly the requests with larger ids remain |
| BackupWorker.Transport.Receive | libs/sdk-core/src/ldk/backup_transport.rs:35-42 | a message takes effect exactly when it names the current generation |
| BackupWorker.Transport.Pull | libs/sdk-core/src/backup.rs:381-401 | an unreachable remote is an error, an absent or undecodable blob is none, and otherwise the current generation is returned |
| BackupWorker.Worker.Await | libs/sdk-core/src/backup.rs:233-379 | whatever local writers, other devices and the transport do between two statements follows a run and only adds to the transport and to the requests |
| BackupWorker.Worker.Push | libs/sdk-core/src/backup.rs:403-414 | under interference the worker follows a run; an answer means the message was accepted and names base plus one; undisturbed, a push is answered exactly when the base is current and the answer arrives |
| BackupWorker.Worker.PushOptimistically | libs/sdk-core/src/backup.rs:274-295 | under interference: the local data is sent with the version that was read, along a run; undisturbed it succeeds exactly when that version is current and the answer arrives |
| BackupWorker.Worker.PushTwice | libs/sdk-core/src/backup.rs:295-308 | under interference: a second attempt follows a failed first one, an answer belongs to an accepted message, and the request id it covers is not older than the first; undisturbed it succeeds exactly when the first push is answered, or else the pull arrives and the second push is answered |
| BackupWorker.Worker.ImportToLocal | libs/sdk-core/src/backup.rs:357-359 | the local database becomes the import of the pulled one, then others act, along a run |
| BackupWorker.Worker.CopyBack | libs/sdk-core/src/backup.rs:360-361 | the copy is the import of the local data as it was, the id is read after others acted, along a run |
| BackupWorker.Worker.ImportBothWays | libs/sdk-core/src/backup.rs:357-361 | along a run; undisturbed, the local database and the pushed copy are the two results of the bidirectional import and the id is the last request |
| BackupWorker.Worker.PushAsFirst | libs/sdk-core/src/backup.rs:373-379 | with no blob in the remote the local data is pushed as the first generation; undisturbed it succeeds exactly when there is none and the answer arrives |
| BackupWorker.Worker.SyncRemoteAndPush | libs/sdk-core/src/backup.rs:333-379 | along a run; an answer belongs to an accepted message; undisturbed it succeeds exactly when the pull arrives and the push is answered, whether it finds a blob to merge or none |
| BackupWorker.Worker.Commit | libs/sdk-core/src/backup.rs:312-324 | under interference: the version is stored, every request up to the covered one is gone and every later one remains |
| BackupWorker.Worker.SyncInternal | libs/sdk-core/src/backup.rs:274-330 | under interference: along a run; success leaves a version stored and only requests newer than the one read at the start, failure deletes no request and keeps the version; undisturbed it succeeds exactly when one of the two pushes is answered |
| BackupWorker.Worker.Sync | libs/sdk-core/src/backup.rs:233-267 | under interference: along a run; nothing happens exactly when not forced and nothing is pending; success means that every request pending at the start is gone and everything the device held at the start is in the remote; without any answer there is no success; undisturbed it succeeds exactly when one of the two pushes is answered, and then ends backed up |
| Script.NumRoundTrip | libs/sdk-core/src/models.rs:183 | every height survives the script number encoding |
| Script.RunSizeCheck | libs/sdk-core/src/models.rs:173-176 | the size check leaves the stack as it was and chooses the branch by whether the top element has 32 bytes |
| Script.RunClaim | libs/sdk-core/src/models.rs:177-180 | the claim branch replaces the top element by the claim key exactly when its HASH160 is the committed one, and fails otherwise |
| Script.RunRefund | libs/sdk-core/src/models.rs:181-186 | the refund branch replaces the top element by the refund key exactly when the lock height has been reached, and fails otherwise |
| Script.LockupMeaning | libs/sdk-core/src/models.rs:162-190 | for every witness and spending transaction, the script is spent exactly by a claim signature with the 32-byte preimage, or a refund signature with an element of another size after the lock height |
| Script.OversizedKeyIsUnspendable | libs/sdk-core/src/models.rs:170-186 | with a refund key of more than 520 bytes no witness spends the script |
| ScriptValidation.ParseRoundTrip | libs/sdk-core/src/models.rs:172-189 | parsing the bytes of any list of well-formed chunks gives those chunks and no rest |
| ScriptValidation.BuildsIff | libs/sdk-core/src/models.rs:169-170 | building fails exactly for a height from 500,000,000 or a refund key that no push can hold |
| ScriptValidation.BuiltProgram | libs/sdk-core/src/models.rs:172-189 | the built chunks are the lockup program, for every height whichever opcode it takes |
| ScriptValidation.BuiltMeaning | libs/sdk-core/src/models.rs:162-190 | the built bytes are spent exactly as the HTLC says and never when the refund key is oversized |
| ScriptValidation.AsmSplits | libs/sdk-core/src/models.rs:204-211 | splitting the printed form of any complete script at the spaces gives its tokens back |
| ScriptValidation.LockupTokens | libs/sdk-core/src/models.rs:210-212 | token 18 is the refund key exactly when the height is at least 17 and the key is not empty, and the name of an opcode otherwise |
| ScriptValidation.BuiltToken | libs/sdk-core/src/models.rs:210-213 | decoding token 18 of a built script gives the refund key under that condition and fails otherwise |
| ScriptValidation.AcceptedIff | libs/sdk-core/src/models.rs:198-240 | validation accepts exactly the lockup scripts for our key, hash and timeout with some non-empty refund key and a height from 17, at their own address, and reports a wrong address exactly for these scripts at another address |
| ScriptValidation.AcceptedIsHtlc | libs/sdk-core/src/models.rs:198-240 | an accepted script is spent, for every witness, exactly by our key with the preimage or by the refund key after our timeout, and by nobody if the refund key is oversized |
| PaymentPath.EdgeAdjoint | libs/sdk-core/src/models.rs:1424-1440 | on one hop, forwarding rounded up is at most y exactly when the amount is at most the backward amount of y rounded down |
| PaymentPath.PathAdjoint | libs/sdk-core/src/models.rs:1396-1412 | the same adjunction over every path and every amount that covers the base fees |
| PaymentPath.EdgeRoundTrip | libs/sdk-core/src/models.rs:1424-1440 | forwarding the backward amount of y gives y |
| PaymentPath.PathRoundTrip | libs/sdk-core/src/models.rs:1397-1411 | paying what the path asks for covers every base fee and delivers exactly the amount asked for |
| PaymentPath.PathExcess | libs/sdk-core/src/models.rs:1397-1440 | there and back asks for at least the offered amount and at most 2^n - 1 more over n charged hops with rates up to 100 per cent |
| PaymentPath.PathIdempotent | libs/sdk-core/src/models.rs:1397-1411 | there and back a second time changes nothing more |
| PaymentPath.FirstIsFinalPlusFees | libs/sdk-core/src/models.rs:1405-1440 | the first amount is the final amount plus each hop's BOLT 7 fee on what that hop forwards |
| PaymentPath.FinalIsExact | libs/sdk-core/src/models.rs:1397-1432 | for every path and amount, the 64-bit final amount is the exact one, and is missing exactly when a base fee is not covered, a rate plus a million leaves 64 bits, or the amount exceeds the first base fee by more than 18,446,744,073,709 msat |
| PaymentPath.FirstIsExact | libs/sdk-core/src/models.rs:1405-1440 | for every path and amount, the 64-bit first amount is the exact one, and is missing exactly when the rate, the product or the sum of some hop leaves 64 bits |
| PaymentPath.FinalSomeIsExact | libs/sdk-core/src/models.rs:1397-1432 | whenever the 64-bit final amount exists the base fees were covered and it is the mathematical one |
| PaymentPath.ComputedAdjoint | libs/sdk-core/src/models.rs:1396-1412 | the two computed 64-bit answers are adjoint whenever both exist |
| PaymentPath.ComputedRoundTrip | libs/sdk-core/src/models.rs:1396-1412 | whenever the 64-bit first amount exists, feeding it back into the 64-bit loop gives the requested final amount |
| PaymentPath.FinalHopAmount | libs/sdk-core/src/models.rs:1397-1403 | the first edge charges nothing, whatever it is: with at most one edge the amount arrives as it is, and otherwise the loop computes the final amount over the edges behind the first |
| PaymentPath.FirstHopAmount | libs/sdk-core/src/models.rs:1405-1411 | the first edge charges nothing, whatever it is: with at most one edge the amount is asked for as it is, and otherwise the reversed loop computes the first amount over the edges behind the first |
| OpeningFees.CheapestIs | libs/sdk-core/src/lsp.rs:43-58 | the first entry that has no readable date, or a date after now plus the period, or is the last, decides: an error, or that entry; an empty menu is an error |
| OpeningFees.CheapestIsFirstValid | libs/sdk-core/src/lsp.rs:43-53 | the search returns the first entry valid for the period when every date before it parses |
| OpeningFees.CheapestFallsBack | libs/sdk-core/src/lsp.rs:54-57 | when no entry is valid the last one is returned all the same |
| OpeningFees.BadDateStops | libs/sdk-core/src/lsp.rs:51 | an unreadable date before the first valid entry makes the search fail |
| OpeningFees.OrderedIff | libs/sdk-core/src/models.rs:1136-1149 | the check of neighbours is as strong as the check of every pair of entries |
| OpeningFees.ValidateIff | libs/sdk-core/src/models.rs:1136-1162 | a menu is accepted exactly when no later entry costs less in any field or the same in both, and no readable date has passed; the errors say which |
| OpeningFees.FeeIsExact | libs/sdk-core/src/models.rs:1061-1066 | a fee exists exactly when the product fits in 64 bits, and is the larger of the minimum and the largest whole number of satoshis within the proportional share |
| OpeningFees.FeeIsMonotone | libs/sdk-core/src/models.rs:1061-1066 | larger parameters never give a smaller fee, nor an answer where the smaller ones overflow |
| OpeningFees.CheapestForEveryAmount | libs/sdk-core/src/lsp.rs:43-58 | in a validated menu the chosen entry is valid and its fee is minimal among all valid entries, for every amount at once |
| OpeningFees.Get48hIs | libs/sdk-core/src/models.rs:1168-1191 | the answer is the first entry with a date more than 172,800 seconds away, and an error if there is none |
| OpeningFees.Get48hIsFirst | libs/sdk-core/src/models.rs:1168-1191 | the 48-hour search answers exactly when some entry lives longer than 48 hours, and then with the first such entry |
| OpeningFees.AgreeAt48h | libs/sdk-core/src/models.rs:1168-1191 | for every menu the two searches give the same answer at 48 hours exactly when some entry lives that long and every date before the first such entry parses; two failing searches fail with different errors and count as disagreeing |
| OpeningFees.ReceiveIff | libs/sdk-core/src/receiver.rs:59-120 | a receive is accepted exactly when the amount is positive and either fits the limit, or the requested entry, else the cheapest for the expiry or for an hour, has a fee that leaves 1000 msat; the answer and the errors are stated |
| OpeningFees.QuoteIs | libs/sdk-core/src/breez_services.rs:677-700 | the quote in every case: no fee without an amount, zero within the limit, else the fee of the cheapest entry for the expiry or for an hour |
| OpeningFees.QuoteIsCharge | libs/sdk-core/src/breez_services.rs:677-700 | for the same menu, limit, expiry and clock a receive charges the quoted fee with the quoted entry, and 0 is quoted when none is charged |
| OpeningFees.ReceiveLeavesASat | libs/sdk-core/src/receiver.rs:80-100 | a fee is charged exactly when a channel is needed, is at least the minimum, and leaves at least 1000 msat |
| Utxos.SpentOutputsOf | libs/sdk-core/src/chain.rs:140-149 | the inner loop collects the outputs that a transaction spends from the address, exactly when the ids parse |
| Utxos.CollectSpent | libs/sdk-core/src/chain.rs:139-150 | the first pass collects the spent outputs of all counted transactions, exactly when the ids parse |
| Utxos.UnspentOutputsOf | libs/sdk-core/src/chain.rs:153-167 | the inner loop collects the outputs to the address that are not spent, exactly when the id parses |
| Utxos.CollectUnspent | libs/sdk-core/src/chain.rs:152-168 | the second pass collects them over the whole list |
| Utxos.GetUtxos | libs/sdk-core/src/chain.rs:132-177 | an answer exists exactly when every id that is looked at parses, and is the list of confirmed unspent outputs |
| Utxos.SpentOutputsIff | libs/sdk-core/src/chain.rs:139-150 | an output is collected exactly when an input of a counted transaction spends it from the address |
| Utxos.ReceivedIff | libs/sdk-core/src/chain.rs:152-158 | an output is received exactly when some transaction of the list pays it to the address |
| Utxos.UtxoCount | libs/sdk-core/src/chain.rs:132-177 | an output is reported as often as the list has it if it is confirmed and unspent, and never otherwise |
| Utxos.UtxosExact | libs/sdk-core/src/chain.rs:132-177 | the result is exactly the confirmed outputs to the address that no counted input spends |
| Utxos.UnconfirmedSpendsRemove | libs/sdk-core/src/chain.rs:129-149 | counting unconfirmed spends removes exactly the outputs that only unconfirmed transactions spend |
| Utxos.Conservation | libs/sdk-core/src/chain.rs:152-175 | over any outputs and spent list, confirmed value received is unspent plus spent |
| Utxos.SpentIsTakenByInputs | libs/sdk-core/src/chain.rs:139-150 | the value that the spent list removes from the received outputs is what its inputs take out, each output once |
| Utxos.ReceivedIsUnspentPlusSpent | libs/sdk-core/src/chain.rs:132-177 | the confirmed value received by the address is the value of the result plus the value that the counted inputs take out of it |
| Utxos.UtxosReordered | libs/sdk-core/src/chain.rs:132-177 | reordering the transaction list only reorders the result and does not change whether there is one |
| ShortChannelId.BitsAreFields | libs/sdk-common/src/invoice.rs:95 | the masks, shifts and ors, bit by bit, put the three numbers side by side, each cut to its width |
| ShortChannelId.PrintedBits | libs/sdk-common/src/invoice.rs:99-101 | the printed fields are the quotient and remainders of the id |
| ShortChannelId.ReadsNumberIff | libs/sdk-common/src/invoice.rs:91-93 | a part is read as a number exactly when it is its shortest form after any zeros and at most one plus sign, and it fits in 64 bits |
| ShortChannelId.ReadsThreeParts | libs/sdk-common/src/invoice.rs:86-96 | three parts that can be read are packed, and one that cannot be read is an error |
| ShortChannelId.ReadableHasThreeParts | libs/sdk-common/src/invoice.rs:87-90 | whatever can be read has exactly three parts |
| ShortChannelId.ParseFormat | libs/sdk-common/src/invoice.rs:86-103 | reading the printed form of any 64-bit id gives the id |
| ShortChannelId.FormatParseIff | libs/sdk-common/src/invoice.rs:86-103 | a readable text prints back to itself exactly when it is three in-range numbers in shortest form |
| RouteHints.HopRoundTripIff | libs/sdk-common/src/invoice.rs:209-247 | a convertible hop survives there and back exactly when its key and id are canonical texts and its delta fits in 16 bits |
| RouteHints.HintRoundTrip | libs/sdk-common/src/invoice.rs:208-248 | printing an LDK hint of any length and reading it again gives the same hint |
| RouteHints.HintConverts | libs/sdk-common/src/invoice.rs:209-228 | a hint converts exactly when every key and id can be read, hop by hop, field by field, with the delta cut to 16 bits |
| RouteHints.ToLdkHint | libs/sdk-common/src/invoice.rs:209-228 | the loop converts all hops, or fails if one cannot be converted |
| RouteHints.FromLdkHint | libs/sdk-common/src/invoice.rs:230-247 | the loop prints all hops in order |
| RouteHints.ToLdkHints | libs/sdk-common/src/invoice.rs:259-262 | the loop converts all hints, or fails if one cannot be converted |
| RouteHints.AddUnique | libs/sdk-common/src/invoice.rs:287-308 | the loop appends to the invoice's hints the converted hints whose node ids do not occur in them |
| RouteHints.MergeRoutingHints | libs/sdk-common/src/invoice.rs:259-312 | the new hints are the old ones, the given ones or the merge, as the flags say, and none if a given hint cannot be converted |
| RouteHints.UniqueIff | libs/sdk-common/src/invoice.rs:294-301 | for canonical node ids the comparison of texts decides whether the hints share a node |
| RouteHints.NotMerged | libs/sdk-common/src/invoice.rs:259-312 | the call fails exactly when some hint cannot be read; without hints the old ones stay, and unmerged hints replace them one by one |
| RouteHints.AddedInOrder | libs/sdk-common/src/invoice.rs:287-308 | the added hints keep the order and the number in which they were given |
| RouteHints.MergeIsDisjointUnion | libs/sdk-common/src/invoice.rs:283-312 | a merge keeps the invoice's hints in front and adds a hint exactly when it shares no node with them |
| RouteHints.MergeTwiceIff | libs/sdk-common/src/invoice.rs:283-312 | merging the same hints again adds nothing exactly when every hint has a hop |
| ValueSerializer.ByteArraySurvives | libs/sdk-core/src/serializer.rs:615-647 | serializing neither creates nor destroys byte arrays, byte strings aside |
| ValueSerializer.FieldTextDecodes | libs/sdk-core/src/serializer.rs:637-646 | the text stored for a byte array field decodes to all of its bytes |
| ValueSerializer.FieldTextIs | libs/sdk-core/src/serializer.rs:615-647 | a byte string becomes the text of its bytes; a sequence becomes text exactly when each item is written as a number up to 255, and the text decodes to these numbers in order; every other field is written as it would be on its own |
| ValueSerializer.NormalIff | libs/sdk-core/src/serializer.rs:284-689 | no field of any object of the result is a byte array exactly when no enum variant of the tree carries a plain byte array; a field overwritten under its key does not count |
| ValueSerializer.FixedPointIff | libs/sdk-core/src/serializer.rs:284-289 | serializing a JSON value again gives it back exactly when it is in normal form |
| ValueSerializer.SerializeTwice | libs/sdk-core/src/serializer.rs:284-289 | serializing the result again changes nothing under exactly the same condition |
| ValueSerializer.ResultInRange | libs/sdk-core/src/serializer.rs:325-364 | every integer of a result is one that a JSON number holds |
| ValueSerializer.WritableIff | libs/sdk-core/src/serializer.rs:284-689 | a number can be written exactly when it fits in 64 bits, and a container exactly when all its parts can and its keys are text |
| ValueSerializer.VariantHasName | libs/sdk-core/src/serializer.rs:419-504 | an enum variant is an object with the name of the variant as its only key, and under it its payload, which is not searched for byte arrays |
| ValueSerializer.SerializeVec.SerializeElement | libs/sdk-core/src/serializer.rs:537-543 | the element's value is appended, or nothing changes and it fails |
| ValueSerializer.SerializeMap.SerializeKey | libs/sdk-core/src/serializer.rs:607-613 | a text key becomes the next key, another key fails |
| ValueSerializer.SerializeMap.SerializeValue | libs/sdk-core/src/serializer.rs:615-647 | the next key is used up and bound to the hexadecimal text of a byte array or else to the value |
| ValueSerializer.SerializeItems | libs/sdk-core/src/serializer.rs:533-548 | the builder's loop serializes all elements or fails |
| ValueSerializer.SerializeEntries | libs/sdk-core/src/serializer.rs:603-668 | the builder's loop serializes all entries with the byte array test or fails |
| ValueSerializer.SerializeVariantFields | libs/sdk-core/src/serializer.rs:670-689 | the fields of a struct variant are serialized without the test |
| ValueSerializer.Serialize | libs/sdk-core/src/serializer.rs:284-504 | the recursive method computes the value of every tree |
| Webhooks.StepKeepsSound | libs/sdk-core/src/breez_services.rs:1636-1698 | every statement of any number of overlapping calls, whatever it does to the cache, keeps what each registration has done so far |
| Webhooks.StepIsTruthfulIff | libs/sdk-core/src/breez_services.rs:1636-1698 | a step leaves the cache truthful exactly when it is neither a caching that misses a live address nor a creating call that succeeds at a URL no longer cached without being registered at the cached one |
| Webhooks.TruthfulThroughoutIff | libs/sdk-core/src/breez_services.rs:1636-1698 | the cache is truthful throughout a run of overlapping calls exactly when none of its steps is one of these two |
| Webhooks.CachingIsRightIff | libs/sdk-core/src/breez_services.rs:1642-1678 | for a new URL and for a refresh, whatever went wrong before: a refresh that finds its URL cached keeps the truth as it was, and any other caching is right exactly when each live address that the call has not just registered itself is registered there by others |
| Webhooks.StepKeepsInv | libs/sdk-core/src/breez_services.rs:1636-1698 | every step of overlapping calls keeps the invariant if a new URL is cached only when everything live was listed and the URL not unregistered since, and a refresh only when its URL is still cached |
| Webhooks.AlwaysTruthful | libs/sdk-core/src/breez_services.rs:1636-1698 | in every run of overlapping calls that meets this guard, every swap there was when the cache became the URL and every one whose creating call succeeded since is registered, unless expired or the URL unregistered |
| Webhooks.RacingSwapIsMissed | libs/sdk-core/src/breez_services.rs:739-749 | a concrete run: a swap created between listing and caching is live, stood for by the cached URL, and not registered |
| Webhooks.OvertakenRefreshIsWrong | libs/sdk-core/src/breez_services.rs:1642-1678 | a concrete run in which nothing slips in after a listing: a refresh is overtaken by another URL and caches its own again, and a swap registered at the other URL is not registered at the cached one |
| Webhooks.MissedStaysMissed | libs/sdk-core/src/breez_services.rs:1638-1643 | registering the cached URL again, any number of times and overlapping, registers no address that was missed |
| Webhooks.RegistrationCovers | libs/sdk-core/src/breez_services.rs:1636-1680 | whatever overlaps with it and whatever went wrong before, a registration of a new URL that ends in its being cached covers every address that was live when it began and still is, unless the URL was unregistered meanwhile |
| Webhooks.FailureKeepsCache | libs/sdk-core/src/breez_services.rs:1675-1698 | only the last statement of a successful call changes the cache |
| Webhooks.UnregisterClears | libs/sdk-core/src/breez_services.rs:1691-1694 | an unregistration that takes effect removes all on-chain registrations at its URL and none at another |
| Webhooks.WithdrawnIsReachable | libs/sdk-core/src/breez_services.rs:1691-1698 | a concrete run: an unregistration that fails after its first request leaves the URL cached and nothing registered there |
| WebhookCalls.RegisterLspsIff | libs/sdk-core/src/breez_services.rs:1705-1741 | while others act after each request: the answer is yes exactly when all LSPs answered; an LSP that was reached has the URL unless another call removed it since; nothing else appears |
| WebhookCalls.UnregisterLspsIff | libs/sdk-core/src/breez_services.rs:1747-1783 | while others act after each request: the answer is yes exactly when all LSPs answered; an LSP that was reached lacks the URL unless another call added it since; nothing else disappears |
| WebhookCalls.BreezServices.RegisterPaymentNotifications | libs/sdk-core/src/breez_services.rs:1705-1741 | the loop tries every LSP and reports a failure of any at the end; without a list it fails |
| WebhookCalls.BreezServices.UnregisterPaymentNotifications | libs/sdk-core/src/breez_services.rs:1747-1783 | the loop tries every LSP and reports a failure of any at the end; without a list it fails |
| WebhookCalls.BreezServices.Await | libs/sdk-core/src/breez_services.rs:1636-1698 | what other calls do between two statements follows a run, leaves this call where it is and forgets no swap |
| WebhookCalls.BreezServices.RegisterEach | libs/sdk-core/src/breez_services.rs:1650-1665 | under interference: the loop registers address after address along a run and succeeds exactly when all its requests are answered; undisturbed, exactly the listed addresses are added |
| WebhookCalls.BreezServices.RegisterAll | libs/sdk-core/src/breez_services.rs:1644-1668 | under interference: the swaps are listed and registered, then the reverse swaps, along a run; answered requests mean success; undisturbed it succeeds exactly when all are answered, and exactly these addresses are added |
| WebhookCalls.BreezServices.NotifyAndCacheUrl | libs/sdk-core/src/breez_services.rs:1670-1679 | under interference: succeeds exactly when the LSPs can be listed and all answer; the URL is cached only then, and stands for all swaps there are |
| WebhookCalls.BreezServices.RegisterWebhook | libs/sdk-core/src/breez_services.rs:1636-1680 | under interference: along a run; success means the URL is cached and each LSP has it unless another call removed it since; if everything is answered it succeeds; undisturbed it succeeds exactly when the LSPs answer and, for a new URL, every swap and reverse swap could be registered, and a failure keeps the cached URL |
| WebhookCalls.BreezServices.UnregisterWebhook | libs/sdk-core/src/breez_services.rs:1691-1698 | under interference: along a run; succeeds exactly when the on-chain request and all LSPs answer, and then the cache is empty and no listed LSP has the URL unless another call added it since; undisturbed a failure keeps the cached URL |
| WebhookCalls.BreezServices.CreateSwap | libs/sdk-core/src/breez_services.rs:739-749 | under interference: along a run; fails if the address cannot be stored; otherwise reads the URL cached at that moment, after storing, and succeeds exactly when there is none or the request is answered, and then the address is registered at that URL; undisturbed the new state is stated |

## Left out

- The event loop of the backup watcher that decides when to sync: the step system allows a sync at any time.
- Contents of rows after conflicting updates of swaps and external payment info: these tables keep the first row seen.
- The `sync_requests` table inside the pushed blob, restoring a device from a backup, databases of older migrations, the
  derived `swaps_info` and `reverse_swaps_info` rows of an import, and the stored time and history of past sync versions.
- SQL errors from uniqueness constraints and file errors: they end a sync like the step `Abort`.
- Encryption and compression of the blob.
- Script opcodes that the lockup script does not use fail in the machine and print under placeholder names; script size
  and opcode count limits and relay policy are not modelled.
- The clock is one parameter per call, where the fee search reads it once per entry.
- Arithmetic that leaves 64 bits has no answer in the model; release builds wrap around there.
- The check for a swap in progress, the amount checks and the node sync in `receive_onchain` and `pay_onchain`.
- The rest of the invoice that `add_routing_hints` rebuilds, and its signature.
- `HexSerializer`, which passes structs on to another serializer, and the text forms of map keys that are not strings.
- `_confirmed_block`, `prepare_onchain_payment`, reverse swap fees in floating point, `send_payment` bookkeeping, input
  parsing, the swap engines, the LDK stores and their time lock, bindings, CLI and clients.
