# Jagad backup service: a Dafny model

Jagad dumps databases, compresses and optionally encrypts the dump on the fly,
stores it in S3-compatible storage, verifies and restores it, and removes old
backups by a retention policy. This project models the parts of it in which a
mistake loses data, and proves what they guarantee.

| module | what it models |
|---|---|
| `Arithmetic`, `Bytes`, `Aead` | division, byte strings, big-endian integers, AES-GCM and Argon2id as functions with their laws |
| `FrameFormat` | the framed encryption stream as a format: encoder, decoder, truncation, nonces |
| `FrameStream` | `encryptWriter` over a writer that may fail, `decryptReader` over a reader that may fragment |
| `ErrorSlot`, `BackupPipeline` | `runFullBackup`: dump process, compressor goroutine, pipe, error channel and uploader, as interleaved steps |
| `VerificationPipeline` | `runVerification` without its decrypt branch, and what it says about a finished backup |
| `BackupRecords` | the backups table, the service's record updates, the retention listing and deletes |
| `BackupLifecycle` | all runs of backups, verifications, deletions, restores and retention sweeps |
| `Scheduler` | the map from schedules to cron entries beside the cron engine |
| `Providers` | storage providers: credentials at rest, the default flag, one request at a time |
| `ProviderRuns` | all runs of concurrent provider requests, statement by statement |
| `Sessions` | logins, logouts, password changes and session checks |
| `Decimal` | decimal numerals and `itoa` |
| `JsText`, `CronPreview` | the next-runs preview of the schedule page and its field matcher |

Goroutines are modelled as steps of a state machine; a run is any sequence of
enabled steps, so a statement about every run is a statement about every
interleaving. Classes whose methods change fields in place are Dafny classes
proved against functions on their state, and the results about runs are lemmas
about those functions. Strings and byte slices from randomness, the clock, cron
parsing, SQL, exec, MinIO and the hash function are parameters. An operation of
the environment that may fail has both outcomes in the model.

## What was found

The code differs from what one would expect in the following; each is proved
for all inputs or all runs it concerns, with the exact condition.

- The frame length is truncated to 32 bits, so a frame is read back exactly
  when its ciphertext is shorter than 2^32 bytes (`FrameFormat.FrameRoundTripIff`);
  a length that wraps to zero reads as a clean end of stream
  (`FrameFormat.WrappedLengthReadsAsEof`).
- The decoder takes the nonce from each header and keeps no count, so frames that
  are dropped, repeated or reordered decode without an error, to their texts in
  the order they come (`FrameFormat.DecodeAnyFrames`).
- `site/guide/encryption.md:114` says the checksum of an encrypted backup can be
  verified later by downloading and decrypting it. The code never sets the
  encrypted size that selects the decrypt branch, so it hashes the encrypted
  bytes, and the verification passes exactly when two different byte strings
  collide (`VerificationPipeline.EncryptedBackupVerifiesIff`).
- Clearing the default flags and writing the new default are two database
  statements, so two requests that overlap can leave two defaults
  (`ProviderRuns.TwoDefaultsPossible`). There is at most one exactly as long as
  no default write is overtaken by another between its clear and its write
  (`ProviderRuns.AtMostOneDefault`).
- An update of a provider that overlaps another request for it can be lost:
  set-default writes back the keys it read (`ProviderRuns.UpdateCanBeLost`). The
  keys last submitted are kept exactly as long as every write leaves the keys it
  should: none that it keeps was replaced meanwhile, and no plaintext stored for
  want of a nonce decrypts to something else (`ProviderRuns.CredentialsSurviveIff`).
- StartVerification reads the record and writes its copy back later. So two
  verifications can run on one record (`BackupLifecycle.TwoCheckersPossible`), and
  a failed record can become "verifying" again, or "success" at once
  (`BackupLifecycle.FailedCanBeRevived`, `BackupLifecycle.FailedCanPass`). A record has
  at most one worker exactly as long as no call marks a record under
  verification (`BackupLifecycle.OneWorkerPerRecord`); its status moves as designed
  exactly as long as none marks such a record or one that has failed since
  (`BackupLifecycle.StatusMoves`); and a failed one stays failed exactly as long as it
  is not marked and no other verification of it passes
  (`BackupLifecycle.FailedUntilDeleted`).
- For the same reason a late call can erase the checksum that a first pass
  recorded, and the next verification then passes with another hash, even when
  nothing overlaps that StatusMoves would forbid (`BackupLifecycle.ChecksumIsErased`).
  The checksum stays exactly as long as every verification update carries it
  (`BackupLifecycle.ChecksumStaysIff`), and only calls that had read the record before
  can break that (`BackupLifecycle.ChecksumSafeAfterReads`).
- StartRestore reads the status and inserts the restore later, so a restore can
  start from a backup that has failed (`BackupLifecycle.RestoreOfFailedPossible`); the
  exact condition is in `BackupLifecycle.RestoresStartFromSuccess`.
- Login compares the password before it takes the lock. A login that overlaps a
  password change can leave a live session of the old password
  (`Sessions.OldPasswordCanStayLive`); every live session is one of the password in
  force exactly if that did not change between its comparison and its opening
  (`Sessions.LivePasswordIff`). Two changes of password can overlap in the same way
  (`Sessions.ChangesCanOverlap`, `Sessions.ChangeInForceIff`).
- A retention sweep lists first and deletes later. A record it listed as
  "success" is "verifying" or "failed" when it is deleted exactly if the last
  verification update since made it so (`BackupLifecycle.SweepDeletes`), and there is
  such a run (`BackupLifecycle.SweepDeletesVerifying`). The bound on the number
  of kept backups holds all the same.
- The matcher of the schedule preview looks for a slash before it looks for a
  comma, so on a list with a step only the first step counts. That is what the
  list means exactly when every value of every item is a multiple of that step
  (`CronPreview.StepListMeansIff`).

## Model

| member | source | states |
|---|---|---|
| FrameFormat.FrameRoundTripIff | internal/encryption/service.go:199-282 | a frame followed by anything is read back, with the rest intact, if and only if its ciphertext length fits the 32-bit field |
| FrameFormat.WrappedLengthReadsAsEof | internal/encryption/service.go:207-262 | every write whose ciphertext length is a multiple of 2^32 makes the decoder stop cleanly there and drop it and all that follows |
| FrameFormat.FrameBytes | internal/encryption/service.go:130-220 | the wire format byte by byte: eight bytes of counter and four zeros, four bytes of length, most significant first, and the ciphertext under that nonce |
| FrameFormat.DecodeAnyFrames | internal/encryption/service.go:250-282 | any sequence of frames with arbitrary counters, in any order, decodes to their texts in that order and then whatever the rest decodes to |
| FrameFormat.DecodeFrames | internal/encryption/service.go:199-282 | decoding any run of frames a writer makes gives their texts in order and then whatever the rest decodes to |
| FrameFormat.UnopenedFrameStops | internal/encryption/service.go:268-276 | a frame that does not open ends the stream with an error, after the texts of the frames before it and whatever follows |
| FrameFormat.StreamRoundTrip | internal/encryption/service.go:103-282 | for any writes, empty ones included, that fit the length field, the decoded bytes are their concatenation, and everything after the first marker stays unread |
| FrameFormat.TruncatedFrames | internal/encryption/service.go:250-268 | cut anywhere before the marker ends, frames decode to a short-read error, never to a clean end, after exactly the whole frames before the cut |
| FrameFormat.TruncatedStream | internal/encryption/service.go:141-163 | the same for a whole stream with its salt; what is delivered is a prefix of the plaintext |
| FrameFormat.WholeFramesIsLargest | internal/encryption/service.go:250-268 | the number of writes delivered by a cut stream is the largest whose frames end within the cut |
| FrameFormat.NoncesUniqueIff | internal/encryption/service.go:130-203 | the nonces of the first n writes are pairwise distinct and differ from the reserved zero nonce if and only if n < 2^64 |
| FrameFormat.OnceRoundTrip | internal/encryption/service.go:39-101 | one-shot Decrypt gives back what one-shot Encrypt was given, laid out as salt, nonce and ciphertext; anything below 28 bytes is refused |
| FrameStream.ReadFull | internal/encryption/service.go:251-268 | reads exactly n bytes whatever the fragmentation, or fails exactly when fewer are left |
| FrameStream.EncryptStream | internal/encryption/service.go:107-136 | writes the salt and starts the counter at 1; on failure only part of the salt was written |
| FrameStream.EncryptWriter.Write | internal/encryption/service.go:199-220 | appends exactly one frame under the old counter, or part of it, failing exactly when the destination refuses a write; the counter and the nonce log advance in both cases |
| FrameStream.EncryptWriter.Close | internal/encryption/service.go:222-227 | appends the marker, on every call |
| FrameStream.EncryptWriter.ReadsBack | internal/encryption/service.go:187-282 | what a writer left behind after Close decodes to exactly the texts written to it; used by SendAndReceive |
| FrameStream.DecryptStream | internal/encryption/service.go:141-163 | fails exactly when the source ends within the salt; otherwise the reader will deliver what the format decodes to |
| FrameStream.DecryptReader.Read | internal/encryption/service.go:239-282 | each call delivers the front of what is left, filling the caller's buffer or emptying its own; io.EOF only when nothing is left and the marker was read; the buffer is never overwritten while bytes in it are undelivered |
| FrameStream.CopyAll | internal/backup/service.go:696-704 | copying with buffers of any sizes from a source of any fragmentation delivers what the format decodes to, and ends the same way |
| FrameStream.SendAndReceive | internal/encryption/service.go:103-282 | the whole way: open, any writes, two Closes, copy out; unless the destination refused a write the output is the concatenated writes and the second marker is not read |
| BackupPipeline.StepKeepsInv | internal/backup/service.go:176-266 | every step of every process keeps the invariant: dump bytes conserved, the pipe carries the encoding of the gzip writes, one error value |
| BackupPipeline.SuccessIsComplete | internal/backup/service.go:176-266 | in every interleaving "success" implies that the dump exited 0 and the stored object decodes and decompresses to its whole output, with SizeBytes its length and Checksum the hash of the content before encryption |
| BackupPipeline.SuccessIsStream | internal/backup/service.go:189-205 | with encryption the stored object is one stream of all gzip writes followed by the marker of the second Close |
| BackupPipeline.OutcomeIff | internal/backup/service.go:222-266 | a finished record is "success" if and only if no step of the run was a failure: not of the dump, the opening of the stream, the reading of the dump or the upload |
| BackupPipeline.OneErrorValue | internal/backup/service.go:177-239 | errChan is sent to exactly once before its close, and every receive finds that value |
| BackupPipeline.NeverStuck | internal/backup/service.go:176-256 | in every reachable state before completeBackup or failBackup some process can step, without any new failure; a blocked writer is freed by pr.Close |
| BackupPipeline.StepLessWork | internal/backup/service.go:176-256 | every step of every process lowers a lexicographic measure |
| BackupPipeline.EveryScheduleStops | internal/backup/service.go:176-256 | no schedule of the processes runs forever |
| BackupPipeline.EveryRunFinishes | internal/backup/service.go:176-266 | every run can go on to completeBackup or failBackup without a further failure, and ends in success if and only if nothing failed before |
| VerificationPipeline.VerdictIff | internal/backup/service.go:666-738 | in every interleaving "passed" holds if and only if no download error occurred and the whole object's hash is the stored checksum or there was none; a partial download always fails; a pass leaves the record with that hash |
| VerificationPipeline.NeverStuck | internal/backup/service.go:666-711 | downloader and hasher never deadlock |
| VerificationPipeline.RunsAreBounded | internal/backup/service.go:666-711 | every run takes at most twice the object's length plus six steps |
| VerificationPipeline.PassesShareOneChecksum | internal/backup/service.go:716-727 | verifications that each start from the checksum the one before left all pass if and only if every download succeeds and every object hashes to one reference: the stored checksum or the first hash; when a run keeps that checksum is stated by BackupLifecycle.ChecksumStaysIff |
| VerificationPipeline.PlainBackupVerifies | internal/backup/service.go:260-266 | after every successful unencrypted backup a complete verification passes and records the checksum |
| VerificationPipeline.EncryptedBackupVerifiesIff | internal/backup/service.go:681-727 | after every successful encrypted backup a complete verification passes if and only if the stored bytes and the content, which differ, have the same hash |
| BackupRecords.PassKeepsNewest | internal/repository/postgres/backup.go:164-185 | one pass keeps exactly the newest min(n, keep) successful backups of its schedule and type plus those whose delete failed, none older than one it removed, and every other record |
| BackupRecords.EnforcementKeepsNewest | internal/backup/service.go:752-784 | a whole enforcement with working deletes leaves each type with a positive limit exactly its newest min(n, keep), keeps all of a type whose limit is not positive, and touches no other record |
| BackupRecords.SecondEnforcementIsIdle | internal/backup/service.go:752-784 | when all deletes succeed, a second enforcement of both types deletes nothing, whatever the limits and however ties are ordered |
| BackupRecords.BackupService.ListOldestByBackupType | internal/repository/postgres/backup.go:164-185 | lists all but the newest keepCount successful backups of a schedule and type, oldest first |
| BackupRecords.BackupService.DeleteAll | internal/backup/service.go:759-765 | removes exactly the listed records whose own delete works, going on past the others |
| BackupRecords.BackupService.EnforceRetention | internal/backup/service.go:752-784 | the table after it is that of one pass for full and then one for incremental backups; a limit that is not positive or a failed listing changes nothing |
| BackupRecords.BackupService.Delete | internal/backup/service.go:496-520 | removes exactly that record; fails, and changes nothing, exactly when it is gone or the table cannot be changed |
| BackupRecords.BackupService.Update | internal/repository/postgres/backup.go:124-136 | replaces a record that exists, never creates one, and reports no error for a missing one |
| BackupRecords.BackupService.StartBackup | internal/backup/service.go:86-107 | inserts one record with the given schedule, type and time, running, pending and without a checksum, unless the insert fails |
| BackupRecords.BackupService.CompleteBackup | internal/backup/service.go:395-406 | status becomes "success", the checksum is the given one and nothing else changes, in the table only if the record is still there |
| BackupRecords.BackupService.FailBackup | internal/backup/service.go:452-459 | the record becomes "failed", in the table only if it is still there |
| BackupRecords.BackupService.StartVerification | internal/backup/service.go:609-630 | starts exactly on an existing "success" record that can be updated; both status columns say verifying and nothing else changes |
| BackupRecords.BackupService.FinishVerification | internal/backup/service.go:729-749 | "success", passed and the checksum, or "failed" in both columns; nothing else changes |
| BackupLifecycle.OneWorkerPerRecord | internal/backup/service.go:99-112 | in every reachable state at most three backups are past the semaphore and releasing a slot never blocks; a record has at most one worker and a settled one none, up to any moment, if and only if no StartVerification up to there marks a record under verification |
| BackupLifecycle.TwoCheckersPossible | internal/backup/service.go:609-630 | every run with a "success" record can go on to one with two workers on it |
| BackupLifecycle.NoOrphans | internal/backup/service.go:99-112 | unless a final table update is lost, every running or verifying record has a worker |
| BackupLifecycle.RecordGoes | internal/backup/service.go:496-520 | a record goes only by a Delete of it, or as the very record a sweep deletes next |
| BackupLifecycle.RecordComes | internal/backup/service.go:86-107 | a new record is that of one StartBackup, field by field |
| BackupLifecycle.RecordChanges | internal/repository/postgres/backup.go:124-136 | a record changes only by the final update of its own worker or by a mark |
| BackupLifecycle.BackupEnds | internal/backup/service.go:262-266 | the end of a backup sets "success" and the checksum, or "failed", on the running record and nothing else |
| BackupLifecycle.MarkWritesBack | internal/backup/service.go:609-630 | a mark writes back the record as its call had read it, with both status columns set |
| BackupLifecycle.VerificationEnds | internal/backup/service.go:716-749 | the end of a verification writes back the record as its call had read it, with its verdict; a pass keeps a checksum that was read |
| BackupLifecycle.StatusMoves | internal/backup/service.go:394-459 | status only moves from running to success or failed, from success to verifying and from verifying to success or failed, with one worker at a time, if and only if no StartVerification marks a record under verification or failed since its read |
| BackupLifecycle.DeletedStaysDeleted | internal/repository/postgres/backup.go:124-144 | no late worker brings back a deleted record |
| BackupLifecycle.FailedUntilDeleted | internal/backup/service.go:609-749 | a failed record stays failed until deleted if and only if no StartVerification marks it and no other verification of it passes; always, when no call had read it before it failed |
| BackupLifecycle.FailedCanBeRevived | internal/backup/service.go:609-630 | every run with a "success" record can go on to one where it has failed and is verifying again |
| BackupLifecycle.FailedCanPass | internal/backup/service.go:609-749 | or to one where it goes straight from failed to success |
| BackupLifecycle.ChecksumStaysIff | internal/backup/service.go:609-749 | a finished record keeps its checksum until deleted if and only if every StartVerification that marks it carries that checksum and so does every verification that was running |
| BackupLifecycle.ChecksumSafeAfterReads | internal/backup/service.go:609-749 | only a StartVerification that had read the record before the checksum was recorded can change it |
| BackupLifecycle.ChecksumIsErased | internal/repository/postgres/backup.go:124-136 | there is a run from the start, with one worker per record and every status moving as it should, in which a recorded checksum is erased and two verifications in turn pass with different hashes |
| BackupLifecycle.RestoresStartFromSuccess | internal/restore/service.go:56-97 | every restore comes from a call that read the backup as success; when it is inserted a backup still present is success if and only if no verification update since the read left it otherwise |
| BackupLifecycle.RestoreOfFailedPossible | internal/restore/service.go:56-97 | every run with a "success" record can go on to one that inserts a restore after the record has failed |
| BackupLifecycle.RestoreMoves | internal/restore/service.go:89-175 | a restore starts running, keeps its backup, is never removed, and turns to success or failed once, when its goroutine ends that way |
| BackupLifecycle.SuccessesAfterListing | internal/backup/service.go:752-784 | at any time after a listing the successful backups of that schedule and type are among the kept newest, those that became success since, and those still to be deleted or whose delete failed |
| BackupLifecycle.SuccessIff | internal/backup/service.go:394-459 | a record in the table is success if and only if a backup of it completed or a verification of it passed, and no later one marked or failed it |
| BackupLifecycle.BecameByFinishing | internal/backup/service.go:394-459 | whatever became success in a stretch of a run was completed, or passed a verification, in that stretch |
| BackupLifecycle.RetentionBound | internal/schedule/scheduler.go:108-129 | their number never exceeds the limit plus those that became success since, plus the deletes pending or failed, over every run of firings, completions and verifications |
| BackupLifecycle.RetentionAfterSweep | internal/schedule/scheduler.go:125-128 | once the sweep is done and its deletes worked, the number exceeds the limit at most by those that became success since the listing |
| BackupLifecycle.SweepAloneIsEnforcement | internal/backup/service.go:752-784 | a sweep that nothing interrupts does exactly one enforcement, the full pass under the one limit and the incremental one under the other |
| BackupLifecycle.SuccessUnlessDemoted | internal/backup/service.go:609-749 | a record that was success and is still there is not success now if and only if the last verification update since left it verifying or failed |
| BackupLifecycle.SweepDeletes | internal/backup/service.go:752-784 | a sweep deletes only what was success when listed, never a running record, and one that is no longer success exactly when the last verification update since the listing left it so; without a verification at the listing that takes a StartVerification since |
| BackupLifecycle.SweepCanDeleteVerifying | internal/backup/service.go:609-630 | every run in which a sweep holds a success record can go on so that the record is deleted while verifying |
| BackupLifecycle.SweepDeletesVerifying | internal/backup/service.go:752-784 | there is a run from the start that ends with a sweep deleting a verifying record |
| Scheduler.BackupScheduler.AddJob | internal/schedule/scheduler.go:67-82 | keeps entries a bijection onto the live cron entries and equal to what the calls so far say; reports an error exactly for an enabled schedule with a bad expression |
| Scheduler.BackupScheduler.RemoveJob | internal/schedule/scheduler.go:85-93 | keeps the bijection and silences that schedule |
| Scheduler.BackupScheduler.Start | internal/schedule/scheduler.go:41-58 | from an empty scheduler reaches the state of adding every listed schedule, bad expressions included |
| Scheduler.BackupScheduler.AddEntry | internal/schedule/scheduler.go:95-106 | adds one live entry for the schedule exactly when its expression parses, and leaves the others |
| Scheduler.LastEventDecides | internal/schedule/scheduler.go:66-106 | a schedule fires, as it was last added, if and only if the last call about it added it enabled with a good expression |
| Scheduler.UnmentionedIsSilent | internal/schedule/scheduler.go:66-106 | a schedule that was never added does not fire |
| Providers.StoredReadsBack | internal/storage/crypto.go:30-99 | a stored credential is read back as submitted when a nonce could be drawn, and otherwise as whatever its plaintext decrypts to |
| Providers.StoredIsSealed | internal/storage/crypto.go:30-52 | with a nonce what is stored is the nonce and a ciphertext that opens to the key |
| Providers.UpdateLeaves | internal/storage/provider_service.go:114-151 | after a working update every field is the submitted one, except that an empty kind or region and an empty or masked key keep the old one; of the others only a flag can go |
| Providers.CreateLeaves | internal/storage/provider_service.go:82-111 | after a working create every field is the submitted one, with "s3" and "auto" for an empty kind and region |
| Providers.SetDefaultLeaves | internal/storage/provider_handler.go:129-148 | a working set-default changes the flag and the stored form of the access key, and nothing else of that provider |
| Providers.FailureLeaves | internal/storage/provider_service.go:82-156 | a request that fails changes nothing, except that when the write of a new default fails the other flags are gone |
| Providers.DeleteLeaves | internal/repository/postgres/storage_provider.go:119-125 | a working delete removes that provider and leaves the others as they are |
| Providers.IntendedKeys | internal/storage/provider_service.go:124-135 | the keys a request is meant to leave, where empty and six bullets mean not submitted |
| ProviderRuns.AloneIsHandle | internal/storage/provider_service.go:82-156 | a request served without interruption, whichever statement fails, does to the table exactly what the service's methods are proved to do |
| ProviderRuns.ProviderComes | internal/repository/postgres/storage_provider.go:67-92 | in every run a provider comes only by the insert of a create |
| ProviderRuns.ProviderGoes | internal/repository/postgres/storage_provider.go:119-125 | and goes only by a delete of that provider |
| ProviderRuns.ProviderChanges | internal/repository/postgres/storage_provider.go:94-133 | and changes only by a write of it, which stores the prepared record, or by a clear of its flag |
| ProviderRuns.DeletedProviderStaysDeleted | internal/repository/postgres/storage_provider.go:94-117 | a deleted provider never comes back, however late the requests that read it finish |
| ProviderRuns.DefaultIff | internal/repository/postgres/storage_provider.go:65-133 | in every interleaving a provider is default if and only if some write made it so and no clear, write or delete undid that since |
| ProviderRuns.DefaultWriteWins | internal/storage/provider_handler.go:129-148 | right after a default write its provider is the only default if and only if no other default write landed, and still stands, between that request's clear and its write |
| ProviderRuns.AtMostOneDefault | internal/storage/provider_service.go:82-156 | up to any moment of any run, failures included, at most one provider is default if and only if no default write was overtaken in that way |
| ProviderRuns.TwoDefaultsPossible | internal/storage/provider_service.go:143-150 | every run with two providers can go on so that both are default |
| ProviderRuns.CredentialsSurviveIff | internal/storage/provider_service.go:54-151 | over every run, failed requests and failed nonce draws included, every provider always decrypts to the keys last submitted for it if and only if every write leaves the keys it should, the kept ones being still in force |
| ProviderRuns.CredentialsSurvive | internal/storage/provider_service.go:54-151 | in particular, with nonces drawn, as long as no key is written between another request's first read of the same provider and its write |
| ProviderRuns.LastSubmission | internal/storage/provider_service.go:82-151 | each of those keys is the one submitted, neither empty nor masked in an update, with the last write that submitted any |
| ProviderRuns.UpdateCanBeLost | internal/storage/provider_handler.go:129-148 | every run that kept the keys can go on so that a newly submitted secret key is replaced by the one before |
| Providers.HandleKeepsOneDefault | internal/storage/provider_service.go:82-156 | a request served by itself, failed or not, keeps at most one default |
| Providers.HandleKeepsKeys | internal/storage/provider_service.go:54-151 | a request served by itself with nonces drawn keeps every provider decrypting to the keys last submitted for it |
| Providers.ProviderService.Create | internal/storage/provider_service.go:82-111 | the table after it, for every way it can fail, is that of the create request; it keeps what was last submitted readable |
| Providers.ProviderService.Update | internal/storage/provider_service.go:114-151 | the same for update |
| Providers.ProviderService.SetDefault | internal/storage/provider_handler.go:129-148 | the same for set-default, through GetByID and Update |
| Providers.ProviderService.GetDefault | internal/storage/provider_service.go:68-79 | returns the masked view of the default provider, if there is one |
| Providers.ProviderService.GetDecrypted | internal/storage/provider_service.go:54-65 | returns the stored record with the keys last submitted for it, as long as those are readable, which every method keeps when nonces are drawn |
| Providers.ProviderService.ClearDefault | internal/repository/postgres/storage_provider.go:127-133 | the excepted provider keeps its flag, no other provider has it, and no record appears, vanishes or changes otherwise |
| Sessions.AcceptsIffLive | internal/auth/service.go:47-112 | after any calls with a clock that never runs back, a token is accepted if and only if a login issued it whose password was right when it was compared, no later logout of it or password change happened, and that login is at most 24 hours old |
| Sessions.LiveSinceIff | internal/auth/service.go:47-112 | a live session spelled out: the administrator, the password in force when compared, no logout or effective change of password since, 24 hours |
| Sessions.ChangesIff | internal/auth/service.go:96-112 | a change takes effect if and only if the current password was right when compared and the new one has at least six bytes; then the new one is in force |
| Sessions.LivePasswordIff | internal/auth/service.go:47-112 | a live session was opened with the password now in force if and only if the password did not change between the comparison in its login and the opening of the session |
| Sessions.OldPasswordCanStayLive | internal/auth/service.go:47-69 | a login that overlaps a password change can leave a live session of the old password |
| Sessions.ChangeInForceIff | internal/auth/service.go:96-112 | a change of password used the password in force at its effect if and only if that is the digest it was compared with, in particular if no other change came between |
| Sessions.ChangesCanOverlap | internal/auth/service.go:96-112 | two changes that compared the same password both succeed |
| Sessions.AuthService.Validate | internal/auth/service.go:72-86 | answers exactly that about the calls made so far |
| Sessions.AuthService.CheckLogin | internal/auth/service.go:48-54 | accepts exactly the admin name with the password in force at that moment |
| Sessions.AuthService.OpenSession | internal/auth/service.go:61-66 | opens the session under the lock, whatever calls came since the comparison |
| Sessions.AuthService.Login | internal/auth/service.go:47-69 | both halves: succeeds exactly for the admin name and the password in force |
| Sessions.AuthService.Logout | internal/auth/service.go:89-93 | ends that token's session and no other |
| Sessions.AuthService.ChangePassword | internal/auth/service.go:96-112 | succeeds exactly for the current password and a new one of at least six bytes, and ends every session; its halves may be apart too |
| Decimal.Itoa | internal/monitoring/store.go:494-506 | for every 64-bit int the 20-byte buffer never underflows; a non-negative one gives its decimal numeral, a negative one the empty string |
| Decimal.ParseDigits | internal/monitoring/store.go:494-506 | parsing the numeral gives the number back |
| Decimal.DigitsCanonical | internal/monitoring/store.go:494-506 | the numeral has no leading zero unless the number is zero |
| Decimal.DigitsOfParse | internal/monitoring/store.go:494-506 | every numeral without leading zeros is printed by the number it denotes |
| Decimal.DigitsInjective | internal/monitoring/store.go:494-506 | different numbers print differently |
| CronPreview.NextRuns | web/js/app.js:3236-3276 | returns exactly the first runs in increasing order among the 2000 minutes after now and before the first minute past 2099, none skipped, as many as asked for or all there are; what a run is, RunsOfExpr says |
| CronPreview.WordsOfJoin | web/js/app.js:3239-3240 | any words joined by single spaces are split into the same words in the same order |
| CronPreview.RunsOfExpr | web/js/app.js:3236-3265 | the runs of a printed expression are the minutes whose minute, hour, day, month and weekday its five fields mean, in that order |
| CronPreview.FirstRunsUnique | web/js/app.js:3236-3276 | that description fits only one sequence |
| CronPreview.PrintedFieldMatches | web/js/app.js:3278-3292 | on a printed star, number, range or step, or a list of step-free items, the matcher computes the field's meaning |
| CronPreview.SlashDecides | web/js/app.js:3280-3283 | in any pattern with a slash only the number after the first slash counts |
| CronPreview.NumberPrefixMatches | web/js/app.js:3291 | a number followed by anything else is that number |
| CronPreview.OpenLeftMatches | web/js/app.js:3287-3290 | a range whose lower end is left out starts at 0 |
| CronPreview.OpenRightMatches | web/js/app.js:3287-3290 | a range whose upper end is left out ends at 0 |
| CronPreview.OtherWordsNeverMatch | web/js/app.js:3278-3292 | a word that starts with no digit or sign matches nothing |
| CronPreview.StepHidesTheList | web/js/app.js:3280-3286 | on a printed list with a step in it the matcher looks only at the first step and ignores every other item |
| CronPreview.StepListMeansIff | web/js/app.js:3280-3286 | that is the usual meaning, for all values, if and only if every value of every item is a multiple of the first step |

## Left out

- Restoring and verifying encrypted backups end to end: restore uses the one-shot Decrypt on a framed stream, and neither path takes its decrypt branch because the encrypted size is never set.
- The decrypt branch of runVerification: the downloader can block on bytes after the first marker, so it is not claimed to terminate.
- The failures of runFullBackup before the dump is started: each goes straight to failBackup.
- Incremental backups (pgBackRest, XtraBackup, mariabackup), their "previous full" query, and the verification that passes them unchecked.
- A process that closes its stdout and goes on running: the model's dump closes stdout by exiting.
- FrameFormat.FrameRoundTripIff: is stated frame by frame; for a whole stream with an over-long write only the family of WrappedLengthReadsAsEof is decided, because whether a cut-off ciphertext opens depends on tag collisions. Go's limit of about 2^36 bytes on one Seal is not modelled.
- BackupPipeline.EveryScheduleStops: assumes a dump of finite length and an uploader that reads whenever it is offered bytes.
- Sessions.AcceptsIffLive: Validate's lookup and its removal of an expired session are one step.
- ProviderRuns.CredentialsSurvive: assumes that nonces can be drawn; without that the exact condition is CredentialsSurviveIff.
- Providers.HandleKeepsOneDefault: is about one request by itself, as is HandleKeepsKeys; overlapping requests are in ProviderRuns.
- The CHECK on verify_status in the table definition, which does not list the value written by StartVerification: the repository interface is modelled, not the SQL. Foreign keys are not modelled either; they would refuse a restore of a deleted backup and the deletion of a backup with restores.
- Deleting the stored object together with its record: its failure is only logged.
- Scheduler.BackupScheduler.Start: requires distinct schedule ids, which are primary keys, and is called once.
- CronPreview.NextRuns: minutes are numbered by a calendar function given as a parameter, so time zones and daylight saving are not modelled, and the display strings are left out. Agreement with the cron engine's own matching is not claimed.
- CronPreview.PrintedFieldMatches: JavaScript numbers are NaN or integers here; fractions, exponents, hexadecimal and Infinity are not read as numbers, and white space is space, tab, newline and carriage return.
- The secret key from the default-provider fallback, which is masked and cannot be used.
- Notifications, HTTP handlers, configuration, the monitoring collector and its queries other than itoa.
