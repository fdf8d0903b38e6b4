# Lariska endpoint agent: verified model

Lariska is an endpoint agent that collects a software inventory, delivers it to a server, takes settings
from it and updates itself through a privileged supervisor. This project models the parts of the agent whose
correctness depends on many steps, and proves what every run keeps.

Where the program changes files and memory step by step, the model is a class whose methods do the same.
Each such class also records its run of a state machine: the methods are proved to perform only actions the
machine allows, a crash or a failed write may follow any of them, and the claims about runs are proved of the
machine and so hold of the class.

| file | contents |
|---|---|
| `UpdateProtocol.dfy`, `UpdateInvariant.dfy`, `UpdateClaims.dfy`, `UpdateExamples.dfy` | the two-record update transaction: journal, ledger, package cache, installer, mailbox, clock; runs that reach the states where its guarantees end |
| `SupervisorRules.dfy`, `Supervisor.dfy` | what the supervisor decides and what recovery does; the supervisor and the ledger functions as imperative code over that protocol |
| `VersionOrder.dfy`, `TextForm.dfy`, `Identity.dfy`, `Ordering.dfy`, `Sorting.dfy` | natural version order, canonical text, product keys, installation identities |
| `Inventory.dfy`, `Delta.dfy` | the snapshot, its normal form under both schemas, deltas between snapshots |
| `SpoolLimit.dfy`, `DeliveryProtocol.dfy`, `DeliveryClaims.dfy`, `Delivery.dfy` | the durable delivery queue with two interleaved tasks |
| `EnrollmentProtocol.dfy`, `Enrollment.dfy` | certificate enrollment over two files |
| `Managed.dfy` | settings sent by the server |
| `CollectorCache.dfy` | the collector cache and the history of complete sources |
| `Runs.dfy`, `Options.dfy`, `Durable.dfy` | runs of a state machine, shared datatypes |

`dafny verify dfyconfig.toml` checks the project.

## Assumptions

- A durable write by temporary file and rename ends in one of four ways: done, failed without effect, in doubt
  (the file was replaced but syncing its directory reported an error) or cut off by a crash before or after the
  replacement.
- Semantic versions are rational numbers in their precedence order; releases are only ever compared. Signatures,
  package operations and unreadable files are an environment that may refuse or fail at any point.
- Text made of characters that lower-casing can produce is left alone by lower-casing, and the bar is such a character.
- SHA-256 is a collision-free function of the bytes it is fed, UTF-8 is injective, and no text is 2^64 bytes long.
  White space and alphanumeric characters are given by tables in which ASCII letters and digits are not white
  space and digits are alphanumeric.
- Snapshot ids are unique, modification times strictly increase with write order, and spool entries are not
  corrupted from outside.
- The server's answers to the posts of the draining task are an arbitrary sequence.
- Taking a lock is a point at which the other delivery task may run, as any await is.
- Keys generated for enrollment are fresh. A host's fingerprint covers everything its collectors depend on. That a host
  stands still during one collection is assumed where nothing else is said.

## What was found

Several properties one would expect do not hold without a condition. Each is stated with the condition under
which it holds, and with a run or input on which it fails.

- **Package cache.** If the write that makes the journal name a staged directory takes effect but is reported as
  failed, the staging clean-up removes a directory the journal names (`UpdateClaims.CacheStep`,
  `UpdateExamples.SeedInDoubtLosesPackage`).
- **Rollback.** Recovery takes an acknowledgement at its word even when a rollback that crashed has already replaced
  the package: the host then rests on a package that is not the active one. This can happen exactly as long as the
  transaction is acknowledged from inside its window or can still be, the time between reinstall and restart included
  (`UpdateClaims.StrandsExactly`, `UpdateClaims.RollbackStrandsIffAcknowledged`, `UpdateExamples.RollbackStrands`,
  `UpdateExamples.LateAcknowledgementStrands`).
- **Replay.** The invariant behind at-most-once survives a change of emergency policy exactly when the exempted version's
  receipts are still there. For at-most-once itself this is sufficient; that it fails is shown under further conditions
  (`UpdateClaims.PolicyMayChange`, `UpdateClaims.PolicyChangeReopens`, `UpdateExamples.PolicyChangeInstallsTwice`).
- **Product keys.** An entry shares its key with a different product exactly when a bar occurs in its name, publisher or
  architecture (`Identity.KeySharedOnlyWithBar`, `Identity.KeyIsNotInjective`).
- **Version order.** Leading zeroes do not matter exactly for digit runs that fit in 128 bits
  (`VersionOrder.LeadingZeroes`).
- **Delivery.** A decision not to submit, taken before the queue was acknowledged and cleared, loses the return to
  an earlier state (`DeliveryClaims.ConvergentStep`, `DeliveryClaims.ReturnLostFromStart`). A crash between the
  removal of an acknowledged entry and the persistence of its acceptance loses the accepted state
  (`DeliveryClaims.CrashInGapForgets`). A spool write in doubt leaves the remembered digest behind the spool
  (`DeliveryClaims.SpoolStep`).
- **Eviction.** Totals beyond 64 bits can stop eviction early (`SpoolLimit.SaturationKeepsTooMuch`,
  `SpoolLimit.OverflowKeepsTooMuch`).
- **Enrollment.** A pending request whose issued certificate is no longer valid blocks enrollment for as long as the
  server returns that certificate (`EnrollmentProtocol.InterruptedIsFinishable`, `EnrollmentProtocol.ExpiresWhileDown`).
  A removal in doubt keeps the process on its old identity until it restarts (`EnrollmentProtocol.OrphanedUntilRestart`,
  `EnrollmentProtocol.OrphanedFromStart`).
- **Server change.** A request pending for one server keeps the agent from starting for any other
  (`EnrollmentProtocol.ForeignRequestBlocks`, `EnrollmentProtocol.ReconfiguredIsRefused`).
- **Collector cache.** A host that changes during a collection spoils the calls that take its result, and no others
  (`CollectorCache.SpoiledExactly`, `CollectorCache.ChangeDuringCollection`).
- **Settings.** Mixed versioned and unversioned directives follow "last one wins" exactly when no directive the memories
  cover finds other settings in force, and a revision announced without settings hides the settings that follow it
  (`Managed.PlainExactly`, `Managed.MixedDiffers`, `Managed.BareRevisionHidesSettings`).

## Model

| member | source | states |
|---|---|---|
| `UpdateClaims.RecordsAgree` | src/native_update.rs:302-390 | In every state reached by any run with crashes and failed writes between durable steps: both records pending name one transaction; a transaction pending only in the journal is the last one finished; one pending only in the ledger has its receipt consumed and never ran an installer; receipts and history stay readable and bounded. The "disagree" branches are unreachable |
| `UpdateInvariant.RunKeepsInv` | src/native_update.rs:194-390 | The inductive invariant that joins the two files survives every run of the protocol from any state that satisfies it |
| `UpdateClaims.InstalledAtMostOnce` | src/native_update.rs:259-263 | Under one emergency policy the installer of a given nonce, version and sequence runs at most once over all runs, and each install is either still pending or has exactly one history record |
| `UpdateClaims.FinishedAtMostOnce` | src/update.rs:699-743 | No transaction is ever finished twice |
| `UpdateClaims.PolicyMayChange` | src/native_update.rs:1357-1368 | In a quiet state the emergency policy may be changed without breaking the invariant behind at-most-once if and only if every installed or finished transaction of the newly exempted version still has its receipt |
| `UpdateClaims.InstalledAtMostOnceAcross` | src/native_update.rs:259-263 | At-most-once holds over the runs before and after such a change |
| `UpdateClaims.PolicyChangeReopens` | src/native_update.rs:1357-1368 | A sufficient condition for at-most-once to fail: from every quiet state in which an installed transaction has lost its receipt and its directory, its nonce is unknown, another version is active and the receipt list has room, exempting its version gives a run that installs it again |
| `UpdateExamples.PolicyChangeInstallsTwice` | src/native_update.rs:1357-1368 | From every provisioned host there is a run (seed, two healthy updates, a third request that prunes the first receipt) after which exempting one version lets an installed transaction run its installer a second time |
| `UpdateClaims.FloorIsMaximum` | src/update.rs:720-725 | The floor version and sequence are at all times the maximum over the initial floor, every seed and every transaction finished healthy, whatever was rolled back |
| `UpdateClaims.FloorNeverDecreases` | src/update.rs:699-743 | No run ever lowers either floor |
| `UpdateClaims.NoInstallBelowFloor` | src/update.rs:199-208 | Without an emergency match no forward install lies below the floor in force when it ran, nor below the initial floor |
| `UpdateClaims.RolledBackStaysRefused` | src/native_update.rs:246-257 | A release rolled back after its install is refused under every nonce, absent an emergency match, until `history_limit` - 1 further transactions have finished |
| `UpdateClaims.RefusalHasRecentCause` | src/update.rs:726-734 | Conversely a refusal by history is always caused by one of the last `history_limit` finished transactions |
| `UpdateClaims.AttemptedRollbackBlocks` | src/native_update.rs:309-330 | A rolled-back transaction whose installer ran always leaves a record that blocks its release; only one that never reached its installer is recorded as interrupted |
| `UpdateClaims.CacheStep` | src/native_update.rs:1068-1078 | One step keeps every package directory the journal names if and only if it is not the clean-up of a staging directory that the journal already names |
| `UpdateClaims.ActivePackageCached` | src/native_update.rs:1380-1402 | Once seeded, the directory of the active package exists and holds its release in every state reached without a clean-up of a staging directory that the journal already names, through pruning, other clean-ups and crashes |
| `UpdateExamples.SeedInDoubtLosesPackage` | src/native_update.rs:78-134 | From every provisioned host a seed whose journal write took effect but was reported as failed, and its clean-up, leave an active package whose directory is missing |
| `UpdateClaims.InstalledIsActive` | src/native_update.rs:392-422 | Along every run with truthful installer and endpoint and clean staging in which no acknowledgement is taken for a package that is no longer the installed one, the installed and the running package are the active one whenever nothing is pending; crashes, failed installs, failed and repeated rollbacks, restarts and endpoint moves may fall anywhere |
| `UpdateClaims.StrandsExactly` | src/native_update.rs:194-422 | At every moment of an open transaction that such a run reaches, over all faithful continuations under a clock that goes forward and without a new request: the host can come to rest on a package other than the active one if and only if the transaction is acknowledged from inside its window, or its installer is still to run, or it is installed and its window still to be armed, or the window is open and the new release is installed or running |
| `UpdateClaims.RollbackStrandsIffAcknowledged` | src/native_update.rs:392-422 | Between the reinstall and the restart of a rollback: a crash after the restart can strand the host if and only if the transaction is acknowledged from inside its window by then, before or after the reinstall; a crash before the restart also if the endpoint still runs the new release with the window open |
| `UpdateClaims.CrashAfterReinstallPromotesWrongPackage` | src/native_update.rs:374-379 | From every state that satisfies the invariant, with its cache intact and the transaction acknowledged inside its window: waiting for the deadline, reinstalling, restarting and crashing is followed by a recovery that promotes the release no longer installed |
| `UpdateExamples.RollbackStrands` | src/native_update.rs:392-422 | From every provisioned host there is a run to a coherent state from which the rollback strands the host |
| `UpdateExamples.LateAcknowledgementStrands` | src/native_update.rs:415-416 | From every provisioned host there is a run to a reinstall without any acknowledgement from which the host can still be stranded, by an acknowledgement before the restart or by a crash in its place |
| `Supervision.Supervisor.Safe` | src/native_update.rs:136-184 | Whatever a supervisor object has been through, its install history and floor satisfy the run-wide claims; its active package is cached unless a clean-up removed a directory the journal names, which takes a journal write naming it that was left in doubt |
| `SupervisorRules.RetainedMembers` | src/native_update.rs:1357-1368 | Pruning keeps exactly the receipts the floor does not reject, and all of them while an emergency version is set |
| `Supervision.Supervisor.PruneReceipts` | src/native_update.rs:1357-1368 | The pruning loop leaves exactly the retained receipts in memory |
| `Supervision.Supervisor.RememberConsumed` | src/native_update.rs:1331-1378 | With nothing failing outside, succeeds if and only if the nonce is valid and either this receipt is already held or the nonce is unknown and the pruned list has room; then the journal file and memory carry the pruned list plus the receipt |
| `Supervision.Supervisor.PruneCache` | src/native_update.rs:1380-1402 | Removes exactly the cache-named directories that the journal does not name |
| `Supervision.Supervisor.CommitPending` | src/update.rs:573-601 | On success the ledger differs only in its pending entry, which names the transaction and has the health timeout as its window; the stale acknowledgement is gone |
| `Supervision.Supervisor.ArmHealth` | src/update.rs:602-622 | Restarts the health window of the pending transaction and changes nothing else in the ledger |
| `Supervision.Supervisor.AckHealth` | src/update.rs:637-665 | With every file readable and writable, an acknowledgement is written if and only if a transaction is posted that names the running version and the time is inside its window; it names that transaction, version and time; otherwise the mailbox is left alone |
| `Supervision.Supervisor.HealthStatus` | src/update.rs:683-698 | A transaction is vouched for if and only if the mailbox can be read and holds an acceptable acknowledgement: its nonce and version, a time inside its window and not in the future |
| `Supervision.Supervisor.FinishUpdate` | src/update.rs:699-743 | On success the ledger is the finished one: pending cleared, the record appended to a bounded history, the floor raised by a healthy outcome only; on failure it is that or unchanged |
| `Supervision.Supervisor.RollbackWith` | src/native_update.rs:392-422 | With nothing failing and the named directories in place it always succeeds: the previous cached package is installed, the rollback recorded, the journal entry closed with the same active package |
| `Supervision.Supervisor.RecoverLedgerOnly` | src/native_update.rs:309-330 | A transaction known only to the ledger is recorded as interrupted and the journal is left alone |
| `Supervision.Supervisor.RecoverJournalOnly` | src/native_update.rs:331-356 | A transaction known only to the journal is closed by the outcome that the ledger recorded for it |
| `Supervision.Supervisor.RecoverOrAck` | src/native_update.rs:302-390 | With nothing failing and the named directories in place, recovery always succeeds. With a transaction in both records the outcome is then decided by the state in which the mailbox was read, one the run passed through during the call: promotion if and only if the acknowledgement names the transaction, lies inside its window and is not in the future, otherwise rollback from the deadline on, otherwise nothing. Where nothing is pending nothing changes |
| `Supervision.Supervisor.RecoverBoth` | src/native_update.rs:358-388 | The same decision, made on an unreadable mailbox as on an empty one |
| `SupervisorRules.RecoveryCompletes` | src/native_update.rs:302-390 | Once the deadline has passed, one successful recovery clears both pending fields |
| `SupervisorRules.RecoveryIsIdempotent` | src/native_update.rs:302-390 | A second recovery, at any later time, changes nothing |
| `SupervisorRules.FinishedSettles` | src/native_update.rs:331-356 | A finished transaction is exactly what the journal-only branch of recovery expects, so a crash between the two writes is closed with the recorded outcome |
| `SupervisorRules.AcceptanceExactly` | src/native_update.rs:194-260 | The acceptance condition holds if and only if the protocol allows the receipt to be written for some list of receipts, the nonce is new, the active package is cached and the directory is free |
| `SupervisorRules.EmergencyIsAccepted` | src/update.rs:199-208 | A release that matches the emergency version is accepted below the floor and after a rollback |
| `Supervision.Supervisor.AcceptRequest` | src/native_update.rs:194-297 | With nothing failing outside, a request is accepted if and only if its nonce is valid and unknown, a package is seeded and cached, the directory is free, the release is admissible, new and not rolled back, and the receipt list has room; then both records hold the same transaction, its receipt is durable and the installer ran exactly once. In every case the installer ran at most once |
| `Supervision.Supervisor.Seed` | src/native_update.rs:78-134 | With nothing failing a seed succeeds if and only if nothing is pending, the active receipt is there or has room, its directory is free, it matches the installed version and it is the emergency version or not below the floor. A successful seed was admissible and matched the installed version; it raises the floor to its own version and sequence, becomes the active package, and drops no receipt that could be replayed. With nothing lost before, its clean-up removes a directory the journal names if and only if the last journal write was left in doubt and the clean-up ran |
| `Supervision.Supervisor.JournalTransaction` | src/native_update.rs:262-274 | When the journal entry could not be written and the process lives on, the journal names the staged directory if and only if the write was left in doubt; otherwise it is unchanged |
| `Supervision.Supervisor.OpenStaged` | src/native_update.rs:217-275 | With nothing lost before, the clean-up of a refused request removes a directory the journal names if and only if the write of the journal entry was left in doubt and the clean-up ran |
| `Supervision.Supervisor.StartUp` | src/native_update.rs:152-156 | With nothing failing and the named directories in place a start succeeds and decides an open transaction as recovery does; after it, with no window open, neither record has a pending transaction, and no cached package is left that the journal does not name |
| `Supervision.Supervisor.SupervisePass` | src/native_update.rs:151-183 | One pass takes requests in order: every one before the last taken was refused, and unless the pass fails it goes on until one is open or all are taken; each runs at most one install, and the install history is only appended to |
| `Supervision.Supervisor.TakeUpRequests` | src/native_update.rs:157-183 | The same of the requests alone; with nothing failing the first one is accepted if and only if it meets the acceptance condition |
| `VersionOrder.CompareVersions` | src/model.rs:41-76 | The chunk-by-chunk loop computes the comparison of the two chunk lists, and terminates |
| `VersionOrder.NextChunk` | src/model.rs:87-116 | Each call yields the first chunk of the rest, or none exactly when no chunk is left |
| `VersionOrder.TrimZeroes` | src/model.rs:106-112 | Dropping leading zeroes keeps the value of a digit run |
| `VersionOrder.CompareFlip` | src/model.rs:41-76 | Swapping arguments reverses the comparison, every version equals itself, and no version is below none |
| `VersionOrder.CompareChains` | src/model.rs:41-76 | Comparison is transitive over all optional strings, with ties and strictness |
| `VersionOrder.DigitRunsCompareByValue` | src/model.rs:106-112 | Two versions that agree up to a digit run compare by the values of the runs, whatever follows, and on equal values by what follows, if both runs fit in 128 bits |
| `VersionOrder.LeadingZeroes` | src/model.rs:106-112 | Adding leading zeroes to a digit run leaves the version equal if and only if the run fits in 128 bits |
| `VersionOrder.ExtensionIsNewer` | src/model.rs:57-58 | A version that goes on after another one, past a run boundary and with at least one alphanumeric character, is the newer |
| `VersionOrder.NumberOutranksText` | src/model.rs:41-76 | At the same place a digit run that fits in 128 bits outranks a letter run, whatever follows |
| `VersionOrder.LetterRunsCompareFolded` | src/model.rs:106-116 | At the same place two letter runs compare by their code points in lower case, and on a tie by what follows |
| `VersionOrder.ValueIsDecimal` | src/model.rs:106-112 | The value of a digit run is its decimal value |
| `Ordering.TextLess` | src/model.rs:41-76 | Text compares by its first different code point, and comes before its extensions |
| `VersionOrder.ChunksSplit` | src/model.rs:87-116 | A string is chunked piece by piece wherever no run goes on from one piece into the next |
| `TextForm.CollapseIdempotent` | src/model.rs:790-798 | White-space normalization gives text with single inner blanks and is idempotent |
| `TextForm.DividedWords` | src/model.rs:790-798 | A text has exactly the words of any division into words without white space and white gaps, inner gaps not empty |
| `TextForm.WordsDivide` | src/model.rs:790-798 | Every text has such a division |
| `TextForm.CollapseKeepsWords` | src/model.rs:790-798 | Normalization keeps the words, and leaves nothing exactly when there are none |
| `TextForm.CollapseKeepsVersion` | src/model.rs:790-798 | Normalizing the white space of a version does not change how it compares |
| `Identity.NormalEntryIdempotent` | src/model.rs:737-745 | Normalizing an entry twice is normalizing it once |
| `Identity.NormalEntrySays` | src/model.rs:737-745 | Every field of a normalized row in terms of the raw one: name, version, publisher and location keep their words and are absent exactly without any; amd64 and x64 become x86_64 and arm64 becomes aarch64 in any case, other architectures their lower case; the rest is unchanged |
| `Identity.KeyDeterminesSource` | src/model.rs:748-756 | Equal comparison keys have equal sources |
| `Identity.KeyDeterminesFields` | src/model.rs:748-756 | Entries with one comparison key and no bar in lower-cased name and publisher agree in lower-cased name, publisher and architecture, and in source |
| `Identity.KeySharedOnlyWithBar` | src/model.rs:748-756 | An entry shares its key with one of different lower-cased name, publisher or architecture if and only if one of these three fields holds a bar |
| `Identity.KeyIsNotInjective` | src/model.rs:748-756 | Two different products can share a comparison key |
| `Identity.EncodeInjective` | src/model.rs:759-766 | Different lists of parts never feed the same bytes to the hash |
| `Identity.HashInjective` | src/model.rs:759-766 | Under a collision-free hash equal identity hashes have equal lists of parts |
| `Identity.IdentifyIdempotent` | src/model.rs:229-240 | Identification keeps an identity it gave before, and its result carries the identity its own fields give |
| `Identity.IdentityDetermines` | src/model.rs:685-725 | Equal installation identities mean equal product key, source, package, scope and instance |
| `Identity.SideBySideStaysApart` | src/model.rs:229-240 | Two freshly collected entries of one agent get one identity only with equal source, package, scope and instance evidence |
| `Identity.EvidenceDetermines` | src/model.rs:700-709 | Without a collected instance, equal instances mean equal place, package or version as evidence |
| `Identity.InstancesDiffer` | src/model.rs:700-709 | Raw entries without an instance get different ones if the words of their locations differ, or, without locations, those of their package ids, or, without either, those of their versions |
| `Identity.FreshEntrySays` | src/model.rs:685-725 | Identification tidies the package id, keeps a collected instance, drops the location and sets a missing scope to runtime for pip, npm and java and to system otherwise |
| `Identity.AgentsStayApart` | src/model.rs:229-240 | One fresh entry found by two agents gets two identities |
| `Sorting.SortSorted` | src/model.rs:244-252 | Sorting by a total preorder yields sorted rows |
| `Sorting.SortMembers` | src/model.rs:244-252 | Sorting permutes: same rows, same multiplicities |
| `Sorting.SortFixed` | src/model.rs:244-252 | Sorted rows are left as they are |
| `Sorting.SortStable` | src/model.rs:244-252 | The sort is stable: for every row, the rows that tie with it keep their order |
| `Inventory.Snapshot.Normalize` | src/model.rs:218-254 | The in-place normalization leaves the snapshot in the specified normal form, every field accounted for |
| `Inventory.Snapshot.IdentifyEntries` | src/model.rs:229-240 | The identification loop identifies every row in place and nothing else |
| `Inventory.Snapshot.DeduplicateSoftware` | src/model.rs:256-293 | The loop keeps the first row of every group and appends exactly the specified warnings |
| `Inventory.Snapshot.IntoV1` | src/model.rs:196-214 | The legacy conversion is the normal form of the stripped rows under the old schema |
| `Inventory.RowsAreOrdered` | src/model.rs:244-252 | The row order is a total preorder, so the normalization sort is well defined |
| `Inventory.NormalizeKeepsNewest` | src/model.rs:218-293 | Normalization leaves strictly increasing keys, invents no row, and keeps for every named row one of its key whose version it does not exceed |
| `Inventory.NewestRawVersionStays` | src/model.rs:218-293 | Every raw row with a word in its name is represented by a row of its key whose version the raw version does not exceed |
| `Inventory.KeptRowsAreRaw` | src/model.rs:218-293 | Every row kept has name, version and source of a raw row, up to white space |
| `Inventory.LegacyDropsAreWarned` | src/model.rs:256-293 | Under the old schema rows kept and warnings added make up all named rows, and no comparison key is lost |
| `Inventory.LegacyWarningsSay` | src/model.rs:279-290 | Each such warning names a dropped row, its key, its version and the version kept instead, which it does not exceed |
| `Inventory.LegacyRowsAreOld` | src/model.rs:196-214 | An old server sees no field and no source that the old schema lacks |
| `Inventory.IdentifiersSay` | src/model.rs:218-228 | Identifiers come out ascending, without repetition, and exactly those with a character that is not white |
| `Inventory.ConflictsAreDisagreements` | src/model.rs:270-278 | The current schema warns of an installation if and only if two of its rows disagree about the version |
| `Inventory.NormalizeIdempotent` | src/model.rs:218-293 | Normalizing the whole snapshot again changes nothing, warnings included, in every schema |
| `Inventory.MergedRowsCoincide` | src/model.rs:685-725 | Two rows fall into one group of the current schema only when product key, package, scope and instance coincide |
| `Inventory.ToldApartStaysApart` | src/model.rs:685-725 | Raw rows that location, package id or version tell apart are never merged in the current schema |
| `Delta.Diff` | src/model.rs:392-470 | The map-building and comparing loops compute the specified delta, sorted by comparison key |
| `Delta.Collect` | src/model.rs:393-403 | Collecting rows into a map keeps the last row of each key, in key order |
| `Delta.DeltaApplies` | src/model.rs:392-460 | For all snapshots: applied to what was stored before, the delta leaves at every key the current version where the current snapshot covers the row's source, nothing where a covered row vanished, and the stored version elsewhere |
| `Delta.DeltaRebuildsBySource` | src/model.rs:392-460 | For canonical snapshots of one schema the result is the current snapshot on every source collected completely and the previous one on all others |
| `Delta.IncompleteSourceUntouched` | src/model.rs:408-445 | In the current schema no change concerns a source that no report calls complete |
| `Delta.StoredIsLastRow` | src/model.rs:393-403 | What rows leave at a key is the version of the last row that has it |
| `Delta.NoRowNothingStored` | src/model.rs:393-403 | A key that no row has is absent |
| `Delta.ChangesAreSorted` | src/model.rs:454-460 | The changes come in the order of their comparison keys |
| `Delta.LegacyDeltaRebuilds` | src/model.rs:392-460 | Under the old schema the result is exactly the current snapshot |
| `Delta.ChangesAreDistinct` | src/model.rs:405-453 | A delta changes each key at most once |
| `Delta.DeltaIsMinimal` | src/model.rs:416-453 | Every change changes something: an added key was absent, a modified one had another version, a removed one was present and is gone; each carries the version it replaces |
| `Delta.NormalizedIsCanonical` | src/model.rs:218-254 | Normalized snapshots are canonical in the sense of the rebuilding theorem |
| `SpoolLimit.ShortestIsLeast` | src/delivery/spool.rs:228-258 | What is left after the shortest prefix meets both limits or is the newest entry alone, and no shorter prefix would do |
| `SpoolLimit.DroppedIsShortest` | src/delivery/spool.rs:234-256 | The code's running totals drop exactly the shortest prefix when they are exact and never more when they saturate |
| `SpoolLimit.SaturationKeepsTooMuch` | src/delivery/spool.rs:234-256 | The saturating total drops something other than the shortest prefix if and only if some prefix of at least 2^64 - 1 bytes less the byte limit leaves two or more entries, within the entry limit, beyond the byte limit |
| `SpoolLimit.OverflowKeepsTooMuch` | src/delivery/spool.rs:234-256 | Three files of the largest size a file system reports and a small one leave the spool over its byte limit |
| `SpoolLimit.SumSizes` | src/delivery/spool.rs:235-237 | The saturating fold is the exact sum, capped at the 64-bit maximum |
| `Delivery.DeliveryClient.EnforceLimit` | src/delivery/spool.rs:228-258 | Removes a prefix, oldest first, never more than the shortest one and exactly that when nothing fails and the sizes sum below the 64-bit limit |
| `DeliveryClaims.SpoolStep` | src/delivery/mod.rs:88-128 | Every step of either task, of the clock or of a restart keeps the spool invariant if and only if it is not a spool write that took effect but was reported as failed |
| `DeliveryClaims.SpoolAlwaysHolds` | src/delivery/mod.rs:88-210 | In every reachable state: ids are distinct, pending entries are a suffix of all entries ever spooled, the rest were acknowledged, quarantined or evicted, and the entry in hand is the oldest pending one or gone |
| `DeliveryClaims.SpoolHolds` | src/delivery/mod.rs:88-210 | In every state reached without a spool write in doubt: besides the facts that hold of all runs, neighbouring digests differ, and the remembered digest of a non-empty queue is its newest one |
| `DeliveryClaims.ConvergentStep` | src/delivery/mod.rs:88-210 | One step keeps convergence if and only if it is none of: a restart with nothing pending whose state file does not carry the last acceptance, a skip on an overtaken decision, the quarantine of the only pending entry with content never accepted |
| `DeliveryClaims.LosslessConverges` | src/delivery/mod.rs:88-210 | Convergence holds after every run without a losing step |
| `DeliveryClaims.UndisturbedKeeps` | src/delivery/mod.rs:172-190 | After every run without a crash between removal and persistence, a failed state write, an acceptance at time zero, a doubtful spool write, an overtaken skip or an emptying quarantine, the spool invariant and convergence hold and the state file is current outside the gap between removal and persistence |
| `DeliveryClaims.DeliveryConverges` | src/delivery/mod.rs:137-190 | Along every such run the last digest offered is the queued one or, with nothing queued, the last accepted one, in memory and on disk; restarts at any other moment are allowed |
| `DeliveryClaims.ServerConverges` | src/delivery/mod.rs:96-102 | Along every such run without quarantine, an empty spool means the last digest the server acknowledged is the last one offered: a return behind a pending change is never suppressed |
| `DeliveryClaims.OvertakenReturnIsLost` | src/delivery/mod.rs:88-102 | From every quiet state with a fresh accepted digest there is a run without any failure that ends with the changed state on the server, the return offered last and nothing queued |
| `DeliveryClaims.ReturnLostFromStart` | src/delivery/mod.rs:88-102 | Such a state is reached from a new installation: one delivery, one change, and a return that is never delivered |
| `DeliveryClaims.CrashInGapForgets` | src/delivery/mod.rs:172-189 | From a new installation a crash between removal and persistence leaves a process that knows neither a queued nor an accepted state, although the server acknowledged it |
| `DeliveryClaims.InHandIsOldest` | src/delivery/mod.rs:153-200 | The entry the draining task has in hand is the oldest pending one or already gone, whatever was enqueued or evicted meanwhile |
| `Delivery.DeliveryClient.Safe` | src/delivery/mod.rs:47-57 | Whatever a client object has been through, the facts about all runs hold of it, the whole spool invariant while no spool write was left in doubt, and convergence after an undisturbed run |
| `Delivery.DeliveryClient.DueForSubmission` | src/delivery/mod.rs:137-147 | Due exactly when nothing was accepted, the digest differs, the refresh interval has passed or the acceptance lies in the future |
| `Delivery.DeliveryClient.EnqueueIfNeeded` | src/delivery/mod.rs:88-128 | A snapshot is queued only when it was due at the start or another digest was remembered as queued, and is then the newest pending entry and the remembered digest; an unchanged one is the remembered digest already, or was not due when the call began and nothing is queued; a refused one was not offered. With nothing failing a snapshot is queued or unchanged, and a queue that grew meets both limits or holds one entry |
| `Delivery.DeliveryClient.SubmitOne` | src/delivery/mod.rs:275-336 | Goes on only past retryable answers and one expired token, never for more than seven posts. With nothing failing it succeeds if and only if the last answer of the server is an acceptance, sets the entry aside if and only if it is a conflict, a validation error or too large a payload, and gives up if and only if it is forbidden, fatal, a second expired token or a passing failure with six attempts used up |
| `Delivery.DeliveryClient.DrainSpool` | src/delivery/mod.rs:153-210 | With nothing failing the entries taken up are a prefix of those pending at the start, oldest first; all but the last were accepted or set aside; the drain aborts if and only if the last one had vanished or got neither answer, and otherwise takes up all; it reports rejects if and only if one was set aside; the accepted digests are acknowledged in that order, and the answers are those the server gave in turn. A drain that finishes has accounted for every entry that was pending when it began, although the other task ran at every await, and remembers nothing as queued if the spool is then empty |
| `Delivery.DeliveryClient.Acknowledge` | src/delivery/mod.rs:170-190 | An acknowledged entry leaves the spool before the acceptance is persisted and remembered, in that order; with nothing failing the persisted and the remembered acceptance are this one |
| `Delivery.DeliveryClient.RemoveFromSpool` | src/delivery/spool.rs:111-132 | Removes exactly the acknowledged entry; one that is already gone counts as removed |
| `Delivery.DeliveryClient.StoreAccepted` | src/delivery/state.rs:99-149 | With nothing failing the state file holds the acceptance; otherwise draining goes on without it |
| `Delivery.DeliveryClient.QuarantineById` | src/delivery/spool.rs:136-158 | Moves exactly the refused entry out of the queue; succeeds if and only if no rename or sync fails, also for an entry that is already gone |
| `Delivery.DeliveryClient.ClearEnqueuedIfSpoolEmpty` | src/delivery/mod.rs:262-273 | After a successful check of an empty spool nothing is remembered as queued |
| `Delivery.DeliveryClient.Start` | src/delivery/mod.rs:59-82 | A new process remembers the newest pending digest and the stored acceptance, discarding an invalid one |
| `EnrollmentProtocol.EnrollmentSafe` | src/mtls.rs:114-181 | In every state of every run with crashes, failed writes, lost answers and changes of the configured server: each key whose request was sent is durable until its identity is published, requests go only to the server their key was generated for, the identity file holds a matching pair, and a remembering server issues no request twice |
| `EnrollmentProtocol.NoRequestAbandoned` | src/mtls.rs:169-180 | A request that was sent leaves the pending file only once its identity is published |
| `EnrollmentProtocol.IssuedAtMostOnce` | src/mtls.rs:139-160 | Against a server that remembers, every request is issued at most once |
| `EnrollmentProtocol.RecoveryPublishes` | src/mtls.rs:139-180 | A remembered acceptable certificate is recovered and published with the original key; nothing is issued or generated |
| `EnrollmentProtocol.InterruptedIsFinishable` | src/mtls.rs:161-168 | An interrupted enrollment can be finished at the present time if and only if its remembered certificate is acceptable now |
| `EnrollmentProtocol.ExpiredRequestStays` | src/mtls.rs:161-168 | While that certificate is unacceptable, no run, restarts and changes of the configured server included, publishes anything, makes a new key or gives up the old request |
| `EnrollmentProtocol.ExpiresWhileDown` | src/mtls.rs:139-168 | Such a request arises from the start: the certificate is issued and acceptable, its answer is lost, and it expires while the agent is down |
| `EnrollmentProtocol.OrphanedUntilRestart` | src/mtls.rs:171-180 | After a removal of the pending file that took effect but was reported as failed, the process keeps its old identity until it restarts, and the restart adopts the new one |
| `EnrollmentProtocol.OrphanedFromStart` | src/mtls.rs:171-180 | From the start a first enrollment whose last removal is left in doubt ends with no identity in memory although the file holds one |
| `EnrollmentProtocol.ForeignRequestBlocks` | src/mtls.rs:50-56 | With a request pending for one server, as long as only others are configured nothing is sent, generated or published and both files stay |
| `EnrollmentProtocol.ReconfiguredIsRefused` | src/mtls.rs:50-56 | Such a refusal is reached from the start by changing the configured server after a request was sent |
| `Enrollment.EnrollmentState.Safe` | src/mtls.rs:32-37 | Whatever an enrollment object has been through, the claims about runs hold of it |
| `Enrollment.EnrollmentState.Load` | src/mtls.rs:39-67 | Starts a process for the configured server if and only if no request is pending for another one; then both files are read back; otherwise there is no process; in no case is a file changed |
| `Enrollment.EnrollmentState.PreparePending` | src/mtls.rs:114-138 | A request that goes on to the server is durable in the pending file first |
| `Enrollment.EnrollmentState.PublishBundle` | src/mtls.rs:161-181 | Publishes only an acceptable pair, identity file before removal of the pending file; succeeds if and only if nothing fails, and memory follows only then |
| `Enrollment.EnrollmentState.Enroll` | src/mtls.rs:114-181 | Succeeds, or finds the service missing, if and only if nothing fails; on success memory and file hold a matching, currently valid identity for the pending key, or for the fresh one if none was pending, and nothing is pending; on failure memory keeps the old identity |
| `Enrollment.EnrollmentState.Ensure` | src/mtls.rs:76-113 | Due means without identity, outside its validity or past its renewal time. Nothing is sent while not due, unavailable or backing off; with nothing failing a due renewal sends a request and yields the new published identity or finds the service missing; the client presents exactly the identity valid at the end; with a usable identity only an authentication error is passed on |
| `Enrollment.EnrollmentState.Recover` | src/mtls.rs:202-206 | Forgets the identity in memory, not the file |
| `Managed.ManagedAgent.ApplySettings` | src/managed.rs:131-206 | The in-place update equals the specified one, and the loops are told exactly when an interval changed |
| `Managed.ManagedAgent.Heartbeats` | src/heartbeat.rs:262-271 | A sequence of heartbeats, each with one directive, takes the agent to the state that the claims about sequences speak of |
| `Managed.ManagedAgent.ValidateLogLevel` | src/managed.rs:247-256 | Accepts exactly the five levels, trimmed and in any case, and returns the normal form |
| `Managed.ManagedAgent.RememberRejected` | src/managed.rs:264-277 | Reports a rejection as news exactly when it differs from the last one |
| `Managed.SettingsSafe` | src/managed.rs:131-206 | Over every sequence of directives the intervals stay within 10 to 86400 seconds, and the acknowledged revision belongs to a directive that was valid or carried no settings |
| `Managed.ValidSettingsSay` | src/managed.rs:208-256 | Settings are valid if and only if the given intervals lie within 10 and 86400 seconds and a given level is one of the five, trimmed and in lower case |
| `Managed.EachSettingIsLast` | src/managed.rs:178-200 | Over every sequence each of the three settings is the last one given by a directive acted upon, or the configured one |
| `Managed.InvalidChangesNothing` | src/managed.rs:146-167 | An invalid directive changes nothing but the memory of rejections, and its repetition not even that |
| `Managed.VersionedIsPlain` | src/managed.rs:131-206 | For versioned directives whose revision determines the settings, deduplication yields the runtime of applying every valid directive in order |
| `Managed.UnversionedIsPlain` | src/managed.rs:169-177 | For unversioned directives likewise |
| `Managed.PlainUnlessRepeated` | src/managed.rs:141-177 | One directive has its plain effect if and only if it is not taken for a repeat while its settings are no longer in force |
| `Managed.MemoryLooksBack` | src/managed.rs:141-177 | The two memories hold the revision last announced and not refused, and the last valid settings without a revision |
| `Managed.PlainExactly` | src/managed.rs:131-206 | Over every sequence, versioned and unversioned mixed: the runtime is at every point that of applying every valid directive in turn if and only if each valid directive the memories cover finds its settings in force there |
| `Managed.MixedIsPlain` | src/managed.rs:131-206 | It is so whenever a revision determines its settings and, between two equal directives, no valid one of the other kind sets one of their settings to another value |
| `Managed.MixedDiffers` | src/managed.rs:169-177 | A mixed sequence whose last directive does not win |
| `Managed.BareRevisionHidesSettings` | src/managed.rs:136-143 | A revision announced without settings is acknowledged, and its settings are never applied afterwards |
| `CollectorCache.InventoryCache.Load` | src/inventory/cache.rs:70-107 | A hit exactly for a readable file of this format, version and fingerprint with a complete, unexpired result |
| `CollectorCache.InventoryCache.Store` | src/inventory/cache.rs:120-188 | Only complete results reach the file |
| `CollectorCache.InventoryCache.CollectRuntimeCached` | src/inventory/cache.rs:366-411 | Result and file after one call, for every combination of hit, miss, failed fingerprint and failed write |
| `CollectorCache.InventoryCache.CollectPlatformCached` | src/inventory/cache.rs:276-314 | The same for the platform collector, which does not degrade its result |
| `CollectorCache.CachedRuntimeIsTransparent` | src/inventory/cache.rs:366-411 | After any history of calls, expiries, upgrades and lost files, a cached call returns what the collector finds now, stamped no longer ago than the maximum age, and is complete if and only if the collector is and a fingerprint was taken |
| `CollectorCache.CachedPlatformIsTransparent` | src/inventory/cache.rs:276-314 | The platform collector likewise, with or without a fingerprint |
| `CollectorCache.CacheStaysTruthful` | src/inventory/cache.rs:120-188 | What is on disk was found, completely, on a host with the stored fingerprint |
| `CollectorCache.ChangeDuringCollection` | src/inventory/cache.rs:366-411 | A host that changes between fingerprint and collection makes the next call on the old state return the new one |
| `CollectorCache.SpoiledExactly` | src/inventory/cache.rs:366-411 | Over any history of a moving host, a call on a host that stands still returns entries other than its own if and only if it takes what the last write left (same version and fingerprint, not expired) and the host visibly moved during the call that wrote it |
| `CollectorCache.SourceHistory.ReconcileLastComplete` | src/inventory/cache.rs:234-274 | Every incomplete source is given the time it was last complete, over all reports so far and the earlier ones of this call; the stored history then reflects them all |
| `CollectorCache.LastCompleteIsLatest` | src/inventory/cache.rs:234-274 | That time is of a complete report after which the source was never complete |

## Left out

- Cryptography, X.509, JSON, zstd, HTTP, TLS and token exchange: predicates, functions or environment answers, as assumed above.
- Installer commands, service control, ownership and access-control checks, directory pins: each is an environment call that succeeds or fails.
- Partially written files, and Windows' remove-then-rename replacement, between whose two steps the state file of the delivery queue can be lost.
- Size limits of journal, ledger, state, cache and history files, and of manifests and artifacts: a write that exceeds one is a failed write.
- The set of already examined requests that the supervisor loop keeps in memory, and the files it writes to report accepted or refused requests.
- UpdateClaims.PolicyChangeReopens: gives sufficient conditions for a second install after a policy change, not the exact ones; when the list is full, the nonce known or the version active, whether a later run can still reach it is not decided.
- The supervisor's configuration is fixed during a run, except where `UpdateClaims.PolicyMayChange` and the lemmas beside it change the emergency policy. Unreadable directories and failing version or clock calls are environment refusals.
- The clock never runs backwards within one call of the supervisor; between calls it may be anything.
- Software entries are values: the loops that update them in place rebuild the list one element at a time, so aliasing between entries is not modelled.
- Schema versions other than the old and the current one, which validation refuses.
- Validation of snapshots (`src/model.rs:295-384`): the theorems about deltas ask only for the canonical rows that normalization produces.
- Corrupt spool entries and a spool directory that cannot be listed at start: a new process then remembers an older digest, or none. A failed removal of an invalid state file leaves a file that still loads as nothing.
- Which platform, path and metadata a fingerprint covers, and the merging of results of different collectors.
- The heartbeat transport, the queueing of offered packages on the endpoint's side, backoff delays, scheduling, command line, logging and packaging: they hold no state that the properties proved here depend on.
- Supervision.Supervisor.SupervisePass: which requests there are depends on the mailbox directory, which is a parameter; what one request does is stated by `AcceptRequest`.
