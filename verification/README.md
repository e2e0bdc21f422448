# BackiieTUI: the backup catalogue and its bucket, verified

BackiieTUI keeps a record of every backup in a BBolt file and the backups themselves in an S3 bucket.
Backups, deletions, retention sweeps and restores all work on those two stores, and any call to either
can fail. This project models the two stores as one state (`Catalogue.Snapshot`: records by ID, objects
by full key) and proves what the operations keep, wherever they are cut off and whichever calls fail:

- in every sequential run, no log backup is ever left without its full, and no full ever comes between a
  log and its parent; when backups overlap, a full can come between exactly if, when the log read the clock,
  one that had read it after the log's parent was completed, under way or about to be saved;
- the golden rule: a sweep never takes a database below two verified fulls, or below what it had, if each
  of its deletions leaves two to every database whose objects it takes, and without failures only then;
  they all do wherever keys are as the adapters form them and live chains share none;
- the SQL Server sweep never changes a recovery point, nor the chain made from it, whatever fails; without
  failures the whole daily run keeps one exactly if neither it nor the full of its chain is outdated;
- a restore to a late enough time and "restore all" pick the same backup exactly if the newest backup belongs
  to the chain of the newest full, as it does in every sequential run;
- for each failing call a sweep that is under way leaves at most one database behind, with keys as above,
  the date-based half at most one record, and a backup run at most one database;
- synchronising lifecycle rules replaces exactly the stored rules whose IDs start with backiie-, and changes
  those of other tools only in what reading and writing them back loses;
- a log backup and a sweep that interleave call by call are safe exactly when at most one new full
  completes between the choice of the parent and the sweep's snapshot;
- a restore gives RECOVERY to the last element only, and never brings a partial chain online;
- size and hash of a completed record are those of the bytes in the bucket as long as no backup gets a key
  that is in use; that its dump exited successfully follows on every engine but SQL Server.

Every use case is a class whose methods follow the source's loops and early exits and are proved against
relations between two snapshots. `World.Backend` holds the two stores; every call on it may fail, and its
ghost fields count the failures and keep the state after every call that changed something. A method's
contract therefore speaks about every point at which it can be cut, and separately about runs without
failures, for which it gives the exact outcome, with S3 within reach and without. `Runs`, `Interleaving`
and `Overlap` prove the properties of whole executions over the relations the methods keep to.

| file | content |
|---|---|
| `Entities`, `ObjectKeys`, `Catalogue` | records, keys, the state, its invariant `Consistent`, deletion as a relation |
| `World`, `Streams` | the two stores and their calls; the hashing and the counting reader |
| `Backups`, `RunBackup` | one backup as a relation; the use case that runs backups |
| `Deletion`, `Retention`, `Sparing` | the cascade; what a sweep may do; the golden rule whatever keys are shared |
| `Sweep`, `SweepRun`, `BackupQuery` | one group's sweep, from group to group; runs of checked deletions; the use case |
| `Recovery`, `Restore` | what restore picks and which chain it makes; the use case and the database it restores |
| `Runs`, `Interleaving`, `Overlap` | all sequential runs; a log backup beside a sweep; full and log backups overlapping |
| `Lifecycle`, `FormatSize`, `Sorting` | S3 lifecycle rules; sizes; sorting by start time |

## Hypotheses

They stand as preconditions, or as conditions of single clauses, where they are used.

- A new backup has a fresh, non-empty ID and some key, and starts after every earlier one (`Backups.Fresh`,
  `Backups.JobsFresh`). The start times of the records of an installation are therefore distinct. In
  `Overlap`, where backups are not one after another, readings of the clock increase.
- That live chains share no keys (`Catalogue.KeysApart`) is not part of the invariant. It holds as long as
  no backup gets a key that a completed backup or another live chain has (`Backups.KeyUnused`), which the
  code does not ensure: keys carry the time to the minute, and the name of the instance, which need not be
  unique. The keys of deleted backups may come again. Where the code needs this, the contracts say so;
  what the golden rule needs of it is `Sparing.GoldenRuleIffKeysNotShared`.
- That keys are as the adapters form them (`Catalogue.KeysProduced`) is not part of the invariant either. It
  says that whatever lies under the SQL Server directory of the bucket was put there by the SQL Server
  adapter, with instance and database names free of slashes. Every run on such a bucket keeps it
  (`Runs.RunsKeepKeysProduced`), but names are not checked. Only what rests on the existence test, or on SQL
  Server fulls having keys of their own, asks for it; without it the test accepts other objects, as two
  lemmas show. Both conditions together are `Catalogue.KeysInOrder`.
- That no full lies between a log and its parent (`Catalogue.NoFullBetween`) is kept by sequential runs
  (`Runs.RunsAreSafe`). Only `Recovery.NewestIsInNewestChain` and `Overlap.ConsistentIsClear` ask for it.
- Where the source calls the storage factory without a check, there is one (`hasFactory`).

## Where the code and its documentation differ

The model follows the code.

- "Rules belonging to other tools are preserved" (`application/usecases/lifecycle_usecase.go:54`): they are
  read and written back through a type that keeps five fields. They are preserved exactly if each has an
  ID, a filter with at most a non-empty prefix, an expiry in days, and nothing else
  (`Lifecycle.SyncPreservesForeignIffPlain`).
- "Preserving all others" (`application/usecases/lifecycle_usecase.go:141`): deleting a lifecycle rule
  preserves the stored rules with another ID exactly if all of them are plain in that sense
  (`Lifecycle.DeletePreservesOthersIffPlain`).
- "Verify the dump process exited successfully" (`application/usecases/run_backup.go:253-255`): what is
  checked is that closing the reader returns no error. SQL Server's drops the exit status
  (`adapters/database/sqlserver/adapter.go:140-145`), so a dump that fails half way is completed with what came before.
  On the other engines a completed record means that every command exited successfully
  (`Backups.CompletedMeansExitedUnlessSqlServer`).
- "Never below two verified fulls" (`domain/entities/retention_policy.go:5-7`): two fulls of one database
  made within a minute share a key, and so do those of two instances of one name. Deleting one then removes
  the object of the other (`Sparing.SharedKeyBreaksGoldenRule`, `Sparing.SharedNameBreaksGoldenRule`). A
  deletion keeps the rule exactly if every group that loses objects with it keeps two verified fulls
  (`Sparing.GoldenRuleIffKeysNotShared`).
- "Full and logs actually applied" (`domain/entities/restore_record.go:13`): an element is recorded before
  it is applied. Unless a call fails, the recorded IDs are those applied exactly if every object of the chain
  is in the bucket (`Restore.RecordedIffPresent`); otherwise one more is recorded, the first whose object is
  missing (`Restore.MissingObjectRecorded`).
- "Removes the S3 object" (`application/usecases/backup_usecase.go:44`): when there is no storage factory,
  S3 is not configured or no client can be built, the record expires and the object stays. Unless a call
  fails, the objects are gone exactly if S3 could be reached or none was there
  (`BackupQuery.BackupQueryUseCase.DeleteBackup`, `Deletion.UnreachableLeavesObject`).
- A log is to chain from the most recent completed full (`domain/entities/backup_record.go:31-33`). That is
  so when it is chosen; with the jobs scheduled side by side another full can complete in between
  (`Overlap.NoFullBetweenIffQuiet`), and then a restore to a point in time and "restore all" can differ
  (`Recovery.PointInTimeAgrees`).
- master is excluded from "restore all" only. A restore by ID or to a point in time accepts it, although
  `docs/operaciones.md:245` says otherwise; the two then agree exactly on the other databases, and on master
  if it has no backup (`Recovery.PointInTimeAgrees`).
- A chain is said to end with the requested log (`application/usecases/restore_usecase.go:348-349`). It does
  exactly if that log is completed (`Recovery.ChainOfLog`).
- The prefix of an instance is said to cover its backups (`application/usecases/lifecycle_usecase.go:160`).
  It covers those whose instance name and rest begin with the name as whole path components, other
  instances' included (`ObjectKeys.LifecyclePrefixExact`).
- Keys of SQL Server have one more directory, the database, than `docs/s3-retencion.md:43-56` shows.

## Model

| member | source | states |
|---|---|---|
| `Runs.RunsAreSafe` | application/usecases/run_backup.go:204-286 | in every state of every run of backups, deletions and retention runs, each cut after any call, the invariant holds: completed logs have a completed parent of their database, running and failed records have no file name, and no completed full lies between a log and its parent |
| `Runs.RunsKeepKeysApart` | application/usecases/run_backup.go:242-273 | if no backup of the run gets a key that is in use, live chains never share keys, and sizes and hashes are those of the stored bytes |
| `Runs.RunsKeepKeysProduced` | adapters/database/sqlserver/adapter.go:147-151 | if no name has a slash and the bucket starts as the adapters leave it, all keys stay as the adapters form them in every state of every run |
| `Runs.RunsCompletedExited` | application/usecases/run_backup.go:253-260 | a record that is completed in any later state of any run was dumped by commands that all exited successfully, on every engine but SQL Server |
| `Runs.RecordsOnlyExpire` | application/usecases/backup_usecase.go:47-81 | from the end of the operation that wrote it on, a record is never removed, and all that happens to it over any run is that it expires; what happens to it within its backup is `BackupDatabase`'s |
| `Runs.RestorePicksAgree` | application/usecases/restore_usecase.go:197-226 | in every state of every run, restoring to a late enough time picks the backup "restore all" picks, for every database but master, and the chain ends with it and holds every completed log of its full |
| `Retention.GoldenRule` | application/usecases/backup_usecase.go:161-163 | where live chains share no keys, at any point of any sweep each group has at least two verified fulls, or exactly those it had |
| `Retention.DeletedFullsArePrefix` | application/usecases/backup_usecase.go:147-173 | whatever a sweep touches belongs to a full before the cutoff, with all older fulls of its group gone and at least two newer verified ones |
| `Retention.NewestChainUntouched` | application/usecases/backup_usecase.go:147-173 | the newest completed full of a database and its whole chain stay, records and objects |
| `Retention.SweepContinues` | application/usecases/backup_usecase.go:147-173 | any cut of deleting the oldest remaining old full, two newer verified ones being there, is a cut of the sweep |
| `Retention.SweepNextGroup` | application/usecases/backup_usecase.go:140-174 | sweeping one more group leaves the outcome of those swept before alone |
| `Retention.SweepIdempotent` | application/usecases/backup_usecase.go:140-175 | a second sweep with the same cutoffs deletes nothing |
| `Retention.SweepOneMore` | application/usecases/backup_usecase.go:140-175 | sweeping groups one by one comes to the closed form for all of them, in which no order occurs, and the counts add up |
| `Retention.SweepOrderIrrelevant` | application/usecases/backup_usecase.go:140 | two groups may be swept in either order |
| `Retention.DroppableCount` | application/usecases/backup_usecase.go:147-163 | of n distinct times, k before the cutoff, exactly max(0, min(k, n-2)) are before the cutoff with two later ones |
| `Retention.SweepCount` | application/usecases/backup_usecase.go:147-173 | with every object present, exactly max(0, min(k, n-2)) fulls of a group go |
| `Retention.RetainedThenSwept` | application/usecases/backup_usecase.go:87-105 | with keys as the adapters form them, date-based deletions followed by deletions that keep the golden rule keep it for every group |
| `Retention.FoundAreVerified` | application/usecases/backup_usecase.go:152-160 | with keys as the adapters form them the newer fulls for which the test finds an object are the newer verified ones |
| `Sparing.VerifiedAfterDeletion` | application/usecases/backup_usecase.go:47-81 | after one deletion the verified fulls of every group are those whose key is not among the deleted chain's |
| `Sparing.GoldenRuleIffKeysNotShared` | application/usecases/backup_usecase.go:161-165 | a deletion keeps the golden rule for all groups exactly if each that loses verified fulls with it keeps two whose keys are not those of the deleted chain |
| `Sparing.SparedCut` | application/usecases/backup_usecase.go:47-81 | it then holds wherever that deletion is cut |
| `Sparing.GoldenRun` | application/usecases/backup_usecase.go:140-174 | a run of such deletions, each cut anywhere, keeps the golden rule of every group at every point, whatever keys are shared |
| `Sparing.GoldenRunIffAllSpare` | application/usecases/backup_usecase.go:140-174 | if all its deletions succeed the run keeps the golden rule exactly if each of them spares every group |
| `Sparing.CheckedRunSpares` | application/usecases/backup_usecase.go:152-165 | where keys are as the adapters form them and live chains share none, the check for two newer fulls found makes every deletion of the run such a one |
| `Sparing.SharedKeyBreaksGoldenRule` | adapters/database/sqlserver/adapter.go:147-151 | a catalogue with keys of the adapter's form in which the check passes and one verified full is left |
| `Sparing.SharedNameBreaksGoldenRule` | adapters/database/sqlserver/adapter.go:147-151 | with two instances of one name, for any keys, one where the check passes, two verified fulls are left, and the other instance goes from two to one |
| `Sweep.SweepStopsRight` | application/usecases/backup_usecase.go:147-163 | stopping at the first full that is too young or has too few verified ones after it deletes exactly the doomed ones |
| `Sweep.CandidateCut` | application/usecases/backup_usecase.go:152-165 | with keys in order, two fulls having been found after the candidate, any cut of its deletion is a cut of the sweep |
| `Sweep.CountedStep` | application/usecases/backup_usecase.go:152-160 | one round of counting keeps the count equal to the number of fulls after the candidate for which the existence test finds an object, and below it if listings fail |
| `Sweep.GroupedKeys` | application/usecases/backup_usecase.go:119-127 | grouping finds every (instance, database) with a completed SQL Server full and no other, with exactly its fulls |
| `Sweep.SortedGroup` | application/usecases/backup_usecase.go:141 | a sorted group lists all its fulls once, oldest first |
| `SweepRun.CountedIsChecked` | application/usecases/backup_usecase.go:148-163 | a candidate before the cutoff after which two fulls were found has two newer ones for which the test finds an object, whatever the keys |
| `SweepRun.CheckingGolden` | application/usecases/backup_usecase.go:140-174 | at every point of a run of checked deletions the golden rule holds if each spares every group, and each does with keys in order |
| `SweepRun.SweptOneMore` | application/usecases/backup_usecase.go:138-175 | with one more group swept the counts add up, success is that of both, and in every group that is not stuck all that was to go has gone, whatever happened in the others |
| `SweepRun.DoomedGoneCarriesOver` | application/usecases/backup_usecase.go:138-175 | what a group is to lose is not changed by the sweeps of others, finished or not |
| `SweepRun.RetainedAtLast` | application/usecases/backup_usecase.go:87-105 | with keys as the adapters form them, date-based deletions and then a sweep whose deletions spare every group keep the golden rule at every point of the daily run |
| `BackupQuery.BackupQueryUseCase.DiscardObject` | application/usecases/backup_usecase.go:70-79 | at most the object of the record goes; without failures it goes if S3 can be reached; it stays, and the call succeeds, when there is no file name, storage factory, configuration or client |
| `BackupQuery.BackupQueryUseCase.DeleteOne` | application/usecases/backup_usecase.go:70-81 | on success the record is expired; if S3 refuses to delete the object the call fails and the record stays; without failures exactly the record and, if S3 can be reached, its object go; without S3 no object goes; at every point nothing else changes |
| `BackupQuery.BackupQueryUseCase.DeleteChildren` | application/usecases/backup_usecase.go:53-65 | deletes every record naming the ID as parent, stopping at the first deletion S3 refuses, touching no other record or object |
| `BackupQuery.BackupQueryUseCase.DeleteBackup` | application/usecases/backup_usecase.go:47-68 | without failures it succeeds, the record and, of a full, all its logs expire, and their objects are gone exactly if S3 could be reached or none was there; if it fails the record itself is unchanged, and nothing outside its family has changed; at no point is a log left without its full; an unknown ID changes nothing |
| `BackupQuery.BackupQueryUseCase.ExistsInS3` | application/usecases/backup_usecase.go:178-194 | answers by a matching object; on a bucket the adapters produced, without failures, exactly whether that object is there |
| `BackupQuery.BackupQueryUseCase.CountVerified` | application/usecases/backup_usecase.go:152-160 | counts the fulls after the candidate for which the test finds an object; never too many, and at most as many too few as listings failed |
| `BackupQuery.BackupQueryUseCase.SweepNext` | application/usecases/backup_usecase.go:147-173 | one round of the sweep: either it is one checked deletion further or it has ended, before a deletable full only if that many calls failed, and with keys in order, if nothing failed, at exactly the right full |
| `BackupQuery.BackupQueryUseCase.SweepGroup` | application/usecases/backup_usecase.go:141-173 | it makes checked deletions only, counts the fulls that have expired, and stops before a full with two others after it only if a deletion or that many listings failed; with keys in order every point is a cut of the sweep of this group, and without failures exactly its doomed fulls go with their chains |
| `BackupQuery.BackupQueryUseCase.GroupFulls` | application/usecases/backup_usecase.go:119-127 | each group holds exactly its completed SQL Server fulls, each once |
| `BackupQuery.BackupQueryUseCase.SweepGroups` | application/usecases/backup_usecase.go:138-175 | at most as many groups are stuck as calls failed; with keys in order, in every other group every full before its cutoff with two newer verified ones has expired, with all its logs, whatever the order of the groups; without failures the closed form is reached |
| `BackupQuery.BackupQueryUseCase.ApplySQLServerRetention` | application/usecases/backup_usecase.go:113-176 | it makes checked deletions only, and the golden rule holds at every point if each spares every group, as each does with keys in order, and without failures only then; with keys in order all that is to go has gone from all groups but at most as many as calls failed; the count is the number of fulls that have expired, and it succeeds exactly if every deletion did; without S3 it fails and changes nothing |
| `BackupQuery.BackupQueryUseCase.ExpireByDate` | application/usecases/backup_usecase.go:87-100 | at every point there have been only deletions of what is past its expiry date on other engines, and of its logs; the records of SQL Server fulls are untouched, and so are their objects if keys are as the adapters form them; all but at most as many as calls failed have expired with their logs, and those are counted |
| `BackupQuery.BackupQueryUseCase.ApplyRetention` | application/usecases/backup_usecase.go:87-105 | exactly what is past its expiry date on other engines expires by date, with its logs, but for at most as many as calls failed, and then the sweep does its work; at every point there have been only deletions, logs before fulls, those of the sweep after a check; if keys are as the adapters form them the golden rule holds if each of these spares every group, without failures only then, and each does if live chains share no keys; the count is that of both halves |
| `Catalogue.LostOnlyByDeletion` | application/usecases/backup_usecase.go:70-81 | where live chains share no keys, a completed backup is touched only by the deletion of something of its own chain |
| `Catalogue.DeletingKeepsWellFormed` | application/usecases/backup_usecase.go:44-68 | a cascade, cut anywhere, keeps the invariant, and live chains from sharing keys |
| `Catalogue.DeletingKeepsContents` | application/usecases/backup_usecase.go:70-81 | and keeps sizes and hashes of completed backups true |
| `Catalogue.WithoutWithout` | application/usecases/backup_usecase.go:58-67 | deleting in two rounds is deleting at once |
| `Deletion.CascadeCuts` | application/usecases/backup_usecase.go:53-67 | logs going first and the full last, no cut of the deletion leaves a log without its full |
| `Deletion.ObjectsGoneIffReachable` | application/usecases/backup_usecase.go:70-80 | after a deletion its objects are gone exactly if S3 could be reached, or none of them was there |
| `Deletion.UnreachableLeavesObject` | application/usecases/backup_usecase.go:71-80 | without S3, the record of any named full alone in its catalogue expires and its object stays |
| `Deletion.OutdatedListed` | adapters/persistence/bbolt/backup_record_repository.go:73-90 | the loop over what `FindExpired` lists deals with exactly the outdated records of engines other than SQL Server |
| `Deletion.ExpiredByDate` | application/usecases/backup_usecase.go:87-100 | what the date-based half has done, written out by expiry date, status and engine |
| `World.Backend.Save` | adapters/persistence/bbolt/backup_record_repository.go:16-24 | stores a copy under its ID, or fails and changes nothing; an empty ID fails |
| `World.Backend.Update` | adapters/persistence/bbolt/backup_record_repository.go:118-126 | replaces the whole record, or fails and changes nothing |
| `World.Backend.UpdateStatus` | adapters/persistence/bbolt/backup_record_repository.go:92-116 | changes status and message of the stored record, and its completion time and duration exactly if completed or failed; an unknown ID fails |
| `World.Backend.FindByID` | adapters/persistence/bbolt/backup_record_repository.go:26-39 | the record stored under the ID, or an error |
| `World.Backend.FindAll` | adapters/persistence/bbolt/backup_record_repository.go:41-54 | every record exactly once |
| `World.Backend.FindByInstance` | adapters/persistence/bbolt/backup_record_repository.go:56-71 | every record of the instance exactly once, and no other |
| `World.Backend.FindExpired` | adapters/persistence/bbolt/backup_record_repository.go:73-90 | every record with an expiry date before now that is pending, running, completed or failed, exactly once, and no other |
| `World.Backend.ListObjects` | adapters/storage/s3/adapter.go:100-123 | full keys of all objects under the full form of a bare prefix |
| `World.Backend.DeleteObject` | adapters/storage/s3/adapter.go:139-149 | takes a bare key; on success that object is gone and all others stay; a failed call may have had its effect |
| `World.Backend.Download` | adapters/storage/s3/adapter.go:126-136 | the bytes stored under the full form of the key, or an error |
| `World.Backend.Upload` | adapters/storage/s3/adapter.go:82-97 | on success exactly the bytes of the stream are stored and their number returned, however reads are chunked; a failed upload touches at most that object |
| `Streams.HashingReader.Read` | internal/hash/sha256.go:18-34 | the hasher has been fed exactly the bytes handed out so far |
| `Streams.CountingReader.Read` | adapters/storage/s3/adapter.go:167-176 | the count grows by the bytes handed out |
| `RunBackup.RunBackupUseCase.StoreDump` | application/usecases/run_backup.go:242-260 | succeeds only if upload and close did, with size and hash of the stored dump; without failures a dump that fails to close leaves no object |
| `RunBackup.RunBackupUseCase.MarkFailed` | application/usecases/run_backup.go:236-251 | at most the running record becomes failed |
| `RunBackup.RunBackupUseCase.BackupDatabase` | application/usecases/run_backup.go:204-286 | at every point there is at most one new record, running, failed without a file name, or completed with the whole stream in the bucket; without failures it is completed exactly if the reader of its engine closes without error, with identity, days, clock readings, size and hash as given and the dump under its key, and otherwise failed with nothing there |
| `RunBackup.RunBackupUseCase.LatestCompletedFull` | application/usecases/run_backup.go:185-200 | the completed full of the database with the greatest start time, or none if there is none |
| `RunBackup.RunBackupUseCase.BackupNext` | application/usecases/run_backup.go:146-171 | without failures the database is backed up, as its dump allows, if it is a full or there is a full to chain from, and then a log chains from the newest; otherwise nothing changes |
| `RunBackup.RunBackupUseCase.RunForInstance` | application/usecases/run_backup.go:87-173 | all databases but at most as many as calls failed are dealt with: one that is to be backed up has a record made as asked, completed or failed as its dump closes and, with unused keys, the dump or nothing under its key, and any other has none; at every point the invariant holds, earlier records are unchanged, and new ones are of listed, not excluded databases, a log with the newest completed full as parent; no full comes between a log and its parent if none lay there; with unused keys sizes and hashes stay true, and without slashes in names keys as the adapters form them |
| `Backups.BackupKeepsConsistent` | application/usecases/run_backup.go:204-286 | a backup with a parent so chosen, cut anywhere, keeps the invariant |
| `Backups.BackupKeepsKeysApart` | application/usecases/run_backup.go:242-273 | and live chains from sharing keys, if no completed backup or other live chain has its key |
| `Backups.BackupKeepsContents` | application/usecases/run_backup.go:242-273 | and then the sizes and hashes of completed backups true |
| `Backups.EndsBackedUp` | application/usecases/run_backup.go:228-275 | completing or failing the running record gives it the clock readings, days, size, hash and message it is to have |
| `Backups.CompletedMeansExitedUnlessSqlServer` | application/usecases/run_backup.go:253-260 | for every catalogue and backup: that a completed record means every command behind the dump exited successfully holds exactly of the engines other than SQL Server |
| `Backups.SqlServerCompletesFailedDump` | adapters/database/sqlserver/adapter.go:140-145 | on SQL Server, whatever came before the command failed, the backup is completed with it |
| `Backups.BackupKeepsKeysProduced` | adapters/database/sqlserver/adapter.go:147-151 | with slash-free names a backup, cut anywhere, keeps keys as the adapters form them |
| `Backups.GrowthKeepsNoFullBetween` | application/usecases/run_backup.go:159-165 | a new log lies directly after the newest full, and a new full after every log |
| `Backups.NextJobFresh` | application/usecases/run_backup.go:146-171 | the next backup of a run is fresh after those before it |
| `Recovery.NewestIsLatestPointIffInChain` | application/usecases/restore_usecase.go:318-344 | the newest completed backup of a database is the newest member of the chain of its newest full exactly if it belongs to that chain |
| `Recovery.NewestIsInNewestChain` | application/usecases/restore_usecase.go:318-344 | it does as long as no full lies between a log and its parent |
| `Recovery.PointInTimeAgrees` | application/usecases/restore_usecase.go:208-219 | for a late enough time, a point-in-time restore finds a backup when there is a recovery point, exactly if the database is not master or has no backup; and it is that one exactly if it belongs to the chain of the newest full |
| `Recovery.MasterIsFolded` | application/usecases/restore_usecase.go:319-321 | the names taken for master are exactly those that case folding makes equal to it |
| `Recovery.ChainOfLog` | application/usecases/restore_usecase.go:350-373 | the chain of a log is its parent full and completed logs of that full in strictly increasing time, none after the target, ending with the target exactly if that is completed |
| `Recovery.ChainOfLatestPoint` | application/usecases/restore_usecase.go:350-373 | from a recovery point it holds every completed log of the newest full |
| `Recovery.ChainWithinTime` | application/usecases/restore_usecase.go:365-370 | nothing in the chain for a point in time starts after it |
| `Recovery.SweepKeepsPoints` | application/usecases/restore_usecase.go:308-346 | recovery points are the same before and at any point of a run of checked deletions, whatever keys are shared |
| `Recovery.SweepKeepsChains` | application/usecases/restore_usecase.go:350-373 | so are the chains made from them and, where live chains share no keys, the presence of every object they need |
| `Recovery.DailyRunKeepsPointIff` | application/usecases/backup_usecase.go:87-105 | without failures the daily run keeps a recovery point exactly if neither it nor the full of its chain is outdated, as backups of SQL Server never are |
| `Restore.TargetDatabase.Restore` | adapters/database/sqlserver/adapter.go:210-243 | the full is restored with NORECOVERY exactly as asked; a failed call may or may not have reached the server |
| `Restore.TargetDatabase.RestoreLog` | adapters/database/sqlserver/adapter.go:246-276 | a log is applied only to a database waiting for logs, with RECOVERY exactly as asked |
| `Restore.RestoreUseCase.BuildChain` | application/usecases/restore_usecase.go:350-373 | the full alone, or the parent and all completed logs of it not later than the target, sorted, each once; fails if the parent is unknown |
| `Restore.RestoreUseCase.Replay` | application/usecases/restore_usecase.go:111-146 | for every chain length and failure point: statements are issued in chain order, RECOVERY with the last only; success means every object was there, the whole chain is applied and the database online; without failures it stops exactly before the first missing object |
| `Restore.ReplayOutcome` | application/usecases/restore_usecase.go:107-151 | an online database holds the whole chain, and the recorded IDs are those applied or those and the one that failed |
| `Restore.RecordedIffPresent` | application/usecases/restore_usecase.go:111-118 | unless a call fails, the recorded IDs are those applied, and the restore succeeds, exactly if every object of the chain is in the bucket; otherwise the first whose object is missing is recorded too |
| `Restore.MissingObjectRecorded` | application/usecases/restore_usecase.go:111-118 | a single backup whose object is missing is recorded with nothing applied |
| `Restore.RestoreUseCase.RestoreBackup` | application/usecases/restore_usecase.go:65-152 | replays the chain of the backup with the outcome of `Replay`; the audit record, unless it cannot be written, names the target, the backup and the chain IDs, and says completed or failed as the restore ended; no other is touched |
| `Restore.RestoreUseCase.SelectPointInTime` | application/usecases/restore_usecase.go:203-219 | the newest completed backup of the database not after the time, or none if there is none |
| `Restore.RestoreUseCase.RestorePointInTime` | application/usecases/restore_usecase.go:197-226 | what is applied ends with that backup and holds nothing later than the time; without failures a chain is made exactly if there is such a backup and S3 can be reached |
| `Restore.RestoreUseCase.LatestFulls` | application/usecases/restore_usecase.go:318-326 | for each database with a completed full whose name does not fold to master, the newest one |
| `Restore.RestoreUseCase.LatestRestorePoints` | application/usecases/restore_usecase.go:308-346 | exactly the databases with a completed full whose names do not fold to master, each with the newest member of the newest full's chain |
| `Restore.RestoreUseCase.NewestPoints` | application/usecases/restore_usecase.go:328-344 | whatever the order of the records, the newest log of the chain is chosen, or the full without logs |
| `Interleaving.InterleavingSafeIffAtMostOneFull` | application/usecases/run_backup.go:185-226 | however the calls of a log backup, of full backups and of a sweep with its checks interleave, no completed log is orphaned, exactly if at most one new full completes between the choice of its parent and the snapshot |
| `Interleaving.NextKeepsSound` | application/usecases/backup_usecase.go:147-173 | every single call keeps the chosen parent among the last two fulls of the snapshot, out of the sweep's reach |
| `Interleaving.OrphanWithTwoNewFulls` | application/usecases/run_backup.go:159-165 | with two new fulls there is an execution in which the parent is before the cutoff, two later fulls are found in the bucket, and the log completes on the expired parent |
| `Interleaving.CheckNeedsTwoAfter` | application/usecases/backup_usecase.go:161-163 | the check passes only if at least two fulls of the snapshot follow the candidate |
| `Interleaving.WellFormedStarts` | application/usecases/run_backup.go:87-173 | any state that sequential runs reach is a start of the interleaving machine |
| `Overlap.NoFullBetweenIffQuiet` | application/usecases/run_backup.go:159-228 | when a log has read the clock, no full will ever lie between a log and its parent, as long as later logs read it quietly, exactly if no full that read it after the log's parent is completed, under way or about to be saved |
| `Overlap.ConsistentIsClear` | application/usecases/run_backup.go:87-173 | any state that sequential runs reach is one from which this can be asked |
| `ObjectKeys.FullKeyInjective` | adapters/storage/s3/adapter.go:74-79 | different bare keys have different full keys, whatever the prefix |
| `ObjectKeys.OneSlashTrimmed` | adapters/storage/s3/adapter.go:63 | of the configured prefix at most one final slash goes, and nothing else |
| `ObjectKeys.EngineDirectories` | domain/entities/engine.go:7-13 | the directory of each engine |
| `ObjectKeys.SqlKeysPrefixFree` | adapters/database/sqlserver/adapter.go:147-151 | no SQL Server key is a proper prefix of another |
| `ObjectKeys.SqlFullKeysApart` | adapters/database/sqlserver/adapter.go:147-171 | a SQL Server full never shares its key with a log or with a backup of another engine |
| `ObjectKeys.ExistenceTestExact` | application/usecases/backup_usecase.go:178-194 | under any path prefix, the prefix listing and the suffix test accept an object exactly if it is the one asked for |
| `ObjectKeys.ExistenceTestNeedsSlashFreeInstances` | application/usecases/backup_usecase.go:188-191 | for every key, an instance name with slashes gives another key the test accepts |
| `ObjectKeys.ExistenceTestNeedsSlashFreeDatabases` | application/usecases/backup_usecase.go:188-191 | and so does a database name with slashes |
| `ObjectKeys.LifecyclePrefixExact` | application/usecases/lifecycle_usecase.go:162-167 | for all names and any path prefix, an object lies under the lifecycle prefix of an instance exactly if the engines are the same and its instance name and rest begin with that instance's name and a slash |
| `ObjectKeys.LifecyclePrefixOfInstance` | application/usecases/lifecycle_usecase.go:83 | for slash-free names, exactly if it belongs to that instance, with or without a trailing slash of the path prefix |
| `ObjectKeys.LifecyclePrefixNeedsSlashFreeNames` | application/usecases/lifecycle_usecase.go:162-167 | for any two names, the rule of the instance n/d covers every SQL Server backup of the database d of the instance n |
| `Lifecycle.RoundTrip` | adapters/storage/s3/lifecycle.go:19-89 | rules whose owner is what their ID says come back as they were put |
| `Lifecycle.LifecycleManager.GetLifecycleRules` | adapters/storage/s3/lifecycle.go:19-51 | every stored rule in order: an absent ID is empty, the deprecated prefix counts only without one in the filter, absent days are 0, and exactly the IDs that start with backiie- are BackiieTUI's |
| `Lifecycle.LifecycleManager.PutLifecycleRules` | adapters/storage/s3/lifecycle.go:56-89 | replaces the whole configuration, or fails with or without that effect |
| `Lifecycle.SanitizeID` | application/usecases/lifecycle_usecase.go:170-181 | letters, digits, hyphens and underscores stay in place and every other character becomes a hyphen |
| `Lifecycle.LifecycleUseCase.BuildRules` | application/usecases/lifecycle_usecase.go:101-134 | one rule for each policy of a known instance, with its ID, prefix and days, and a global rule with the days of the last global policy, or 3 |
| `Lifecycle.PolicyRulesMeaning` | application/usecases/lifecycle_usecase.go:101-134 | the rules made are, field by field, those of the policies of known instances, and a global one |
| `Lifecycle.LastGlobalWins` | application/usecases/lifecycle_usecase.go:99-105 | the last global policy decides, and the default of 3 days without one |
| `Lifecycle.Int32Wraps` | application/usecases/lifecycle_usecase.go:117 | days within 32 bits stay, others differ by a multiple of 2^32 |
| `Lifecycle.LifecycleUseCase.SyncWithRetention` | application/usecases/lifecycle_usecase.go:60-139 | the stored rules whose IDs do not start with backiie- stay, in order, as read and written back, followed by those of the policies; nothing else is left; or all stays as it was |
| `Lifecycle.SyncReplacesOurs` | application/usecases/lifecycle_usecase.go:66-138 | decided by stored ID: the rules of others are rewritten in order, with ID, status, prefix and days kept, and BackiieTUI's are replaced |
| `Lifecycle.SyncListing` | application/usecases/lifecycle_usecase.go:66-138 | afterwards the external rules are listed as before, in order, and BackiieTUI's rules are exactly those of the policies |
| `Lifecycle.SyncIdempotent` | application/usecases/lifecycle_usecase.go:60-139 | synchronising twice is synchronising once |
| `Lifecycle.PlainSurvives` | adapters/storage/s3/lifecycle.go:31-79 | a stored rule survives being read and written back exactly if it is plain |
| `Lifecycle.SyncPreservesForeignIffPlain` | application/usecases/lifecycle_usecase.go:53-54 | the stored rules of other tools are preserved exactly if all of them are plain |
| `Lifecycle.LifecycleUseCase.Compact` | application/usecases/lifecycle_usecase.go:151-156 | compacting the slice while reading it yields exactly the other rules, in order |
| `Lifecycle.LifecycleUseCase.DeleteRule` | application/usecases/lifecycle_usecase.go:141-158 | the configuration becomes the listed rules without the deleted one, or stays as it was; the stored rules of others are preserved exactly if all of them are plain |
| `Lifecycle.DeletePreservesOthersIffPlain` | application/usecases/lifecycle_usecase.go:141 | the stored rules with another ID are preserved by a deletion exactly if all of them are plain |
| `Lifecycle.DeleteRuleListing` | application/usecases/lifecycle_usecase.go:142-158 | afterwards exactly the other rules are listed, in order |
| `FormatSize.FormatSize` | internal/timeutil/format.go:9-20 | for every 64-bit size from 1024 on, the divisor is the power of 1024 of the unit without overflow, the size is between one and 1024 of it, and the letter is that of the unit, K to E |
| `FormatSize.ExponentBound` | internal/timeutil/format.go:14-19 | no 64-bit size needs a seventh unit |
| `Sorting.SortByStart` | application/usecases/restore_usecase.go:370-370 | an ordered permutation of its input |
| `Sorting.SortedUnique` | application/usecases/restore_usecase.go:370-370 | with distinct start times there is only one such order |

## Left out

- FormatSize: does not model the floating-point quotient and its one decimal; the size and the divisor stand for it.
- Sparing.SharedKeyBreaksGoldenRule: shows one state; the general condition is `Sparing.GoldenRuleIffKeysNotShared`.
- RestoreAll, its preview and the exported `LatestRestorePoints` (`application/usecases/restore_usecase.go:159-301`): loops that call the modelled operations for every instance and database.
- runForAll and the scheduler: loops and timers that call the modelled operations.
- Retention windows: `retainDaysFor` and the clock are a cutoff for each group; the day count of a backup is a parameter.
- Instances and names: looking an instance up by name, and its connection, are parameters or calls that may fail.
- A change of the bucket or of the path prefix between operations: the configuration is read anew by each call, but the model keeps one.
- The order in which BBolt lists records: every order is allowed. Go's map order likewise.
- Concurrent runs other than those of `Interleaving` and `Overlap`; manual deletion beside a log backup is not safe and not part of it.
- Self-backup and its restore, the terminal interface, notifications, logging and error texts.
- The dump tools, SQL text, Docker, gzip and Redis: only which RESTORE statements reach the server, in which order and with which clause, is kept.
- The AWS SDK: multipart uploads, tagging (a call that may fail), pagination, and S3's own checks of lifecycle rules, such as unique rule IDs.
- SHA-256, which is a parameter, and generated IDs, which are parameters assumed fresh.
- JSON and BBolt's file format: a stored record is a copy of the value. Decoding may fail like any other call.
- The saturation of Go durations beyond 292 years.
