# Verified model of CtYun Keeper

A Dafny model of the parts of CtYun Keeper whose correctness spans many steps, with the properties that those parts
exist for. `dafny verify dfyconfig.toml` checks everything.

| file | what it models |
|---|---|
| `Disk.dfy` | the file system as the updaters see it: calls that may fail or stop half-way, and a trace of every durable state, so that a power loss is a return to any of them |
| `Database.dfy` | backup and all-or-nothing restore of a stopped SQLite database with its `-wal` and `-shm` files |
| `WindowsUpdater.dfy` | the Windows executor's backup, replacement and restore of the program files |
| `WindowsTransaction.dfy` | the journal around them: completion marker, finalization, the lock's token, the gate at program start, recovery |
| `WindowsLimits.dfy` | exactly when such an update is safe whatever fails |
| `Launcher.dfy` | the Docker launcher: version selection, `pending.json`, the update lock, the link switch, health, commit and rollback, over any number of restarts |
| `Health.dfy` | the health check that decides between commit and rollback |
| `UpdateLock.dfy` | the update lock, the managers in front of it and its hand-over by token |
| `TaskGate.dfy` | which account tasks, update preparations and power batches may overlap, over all interleavings of their critical sections |
| `PowerBatch.dfy` | a power batch over the SQL tables: item status, job status, desktop holds |
| `Redemption.dfy` | one account's redemptions: the `pending` row, the orders, crashes, manual resolution |
| `Viewers.dfy` | sessions of desktop pages and the deferred resumption of a desktop's automatic connection |
| `Clink.dfy` | framing of the desktop connection, the loop over a received message, the login message |
| `Oaep.dfy` | the answer to the connection's challenge: MGF1 and EME-OAEP of RFC 8017 |
| `Keepalive.dfy` | the weekly keepalive window and its text fields |
| `Options.dfy`, `Octets.dfy` | types that several of the others share |

Objects that the program updates in place are classes whose methods have the program's branches and loops. Clocks,
random values, platform answers, failing file or database operations and the moment of a power loss are nondeterministic
or parameters. What is stated over whole runs
is stated over sequences of durable states (`trace`) or over sequences of events, one event per critical section; the
contract of each method then says which step it is. In this way the properties hold after every step, not only where
a method returns. Failures are counted (`faults`, or a `failed` result), and the contracts also say that nothing but a
failure or a stated reason keeps an operation from doing its work. Among the failing file operations the slips (`slips`)
are counted apart: the failures that the updaters pass over although what follows relies on the call. These are the
removal of a stale database copy, the removal of a stale scratch directory and the look at an optional file of the
package. All that is said of the Windows updater's states and outcomes holds whatever fails but a slip, and with slips,
too, from every state that the lemmas named below describe.

Several promises turned out to hold only under a condition. Each such case has a concrete run that breaks the promise
and, where the condition is one branch's guard, a lemma that says exactly when it holds:

- A stale `-wal` or `-shm` copy whose unchecked removal fails becomes part of the next backup. Every backup that reports
  success is the database, whatever fails, exactly when no copy stood there of a file that the database does not have:
  `Database.BackupFaithfulIff`; the run is `Database.StaleLogSurvives`.
- A stale `.update-new` directory whose unchecked removal fails is merged into the tree that takes its place. Every
  restore or replacement that reports success is exact, whatever fails on the way, exactly when no such directory with
  entries of its own stood there before the call: `WindowsUpdater.DirExactIff`, `WindowsUpdater.RestoreExactIff`; the
  run is `WindowsUpdater.StaleTreeMerged`.
- A file of the package that cannot be looked at is passed over, and the update reports success. Every replacement that
  reports success is the new program exactly when, besides, all these files were installed already:
  `WindowsUpdater.OptionalExactIff`, `WindowsUpdater.ReplaceExactIff`; the run is `WindowsUpdater.FileSkipped`.
- For a whole update, its power losses and its recoveries these add up: a committed success is the new program, a
  committed or resumed rollback the old one and the resumed database the old one, whatever fails, exactly when,
  respectively, the replacement relies on nothing of the above, the scratch directories and the package's `static` have
  no entry foreign to the installed directories, and there is no stale copy: `WindowsLimits.InstallTrueIff`,
  `WindowsLimits.RecoveryTrueIff`, `WindowsLimits.RecoveredDatabaseIff`, and for the durable states
  `WindowsLimits.SoundIff`. A package that adds a file to `static` misses the second; then a rollback relies on the
  removal of the scratch directory.
- An executor or a recovery that ends without a commit, for example because the new program cannot be stopped, releases
  its lock, and without the lock's token no recovery can take the open journal: every later start hands over to a
  recovery that refuses, and the program never runs again. `WindowsTransaction.Execute` says when that happens if no call
  fails, `WindowsTransaction.RecoverPending` which journals a recovery can take, `WindowsTransaction.Stranded` that no
  number of starts helps.
- A power loss between the two renames of the program file, and no other moment of its replacement, leaves no program to
  start, and with it no gate and no recovery: `WindowsTransaction.InterruptedReplacement`, `WindowsTransaction.Stranded`.
- The launcher's guarantee needs transactions that carry a backup, requests that go up and an image that is not lowered:
  `Launcher.RollbackSafeIff`, `Launcher.RequestSafeIff` and `Launcher.ImageSafeIff`, with a concrete run for each. A
  request for the running version itself removes that version's directory first (`Launcher.RepeatedRequestUnsafe`).
- A healthy update whose journal outlives its completion, because its removal fails or power is lost before it, is
  replayed at the next start; when the new version is unhealthy then, it is rolled back under a result that says success,
  until the recovery is over. Whether a transaction under recovery can ever read as a success is decided when its recovery
  is journaled: `Launcher.RecoveredSuccessIff`; the run is `Launcher.EarlySuccess`.
- A power loss between the journal of an image transaction and the hand-over of the lock leaves a journal that no later
  start of the launcher gets past: `Launcher.CutHandOverSticks`, `Launcher.Machine.LockForStart`.
- The release of the update lock without a token, taken as a function, lets two managers be active:
  `UpdateLock.ReleaseWithoutTokenHarmsIff`, `UpdateLock.ReleaseWithoutTokenAdmitsTwo`. The launcher calls it only after
  the program has exited and its own manager has finished, so that no manager is active then.
- A power batch may finish with an item still `validating`, when a status write is lost whose failure is ignored; in
  every other case an ended job has only ended items: `PowerBatch.JobLifetime`, `PowerBatch.LostStatusIff`; the run is
  `PowerBatch.LostStatusStaysOpen`.
- A maintenance cancelled by someone else during a preparation makes its success meaningless:
  `TaskGate.PreparationHoldsIff`, `TaskGate.ForeignCancelBreaksReady`.
- Resolving a pending redemption whose order is noted but not yet placed allows the order to be placed twice:
  `Redemption.ResolveHarmsIff`.

## Model

| member | source | states |
|---|---|---|
| Disk.Disk.CopyFile | internal/update/apply.go:15-44 | a copy succeeds only for a regular file and then equals it; a failure or a crash leaves at most the target different, possibly cut short |
| Disk.Disk.CopyDir | internal/update/apply.go:132-150 | a successful copy of a tree over a directory gives the union in which the source wins; a crash leaves at most the target different |
| Disk.Disk.RemoveAll | internal/update/apply.go:152-157 | success means the path is gone; in every durable state and after a failure what remains is part of what stood there, and nothing else changes |
| Disk.MergeIsCopyIff | internal/update/apply.go:132-150 | copying over a leftover directory equals the source exactly when the leftover has no entry the source lacks |
| Disk.Chain | internal/update/apply.go:46-108 | two consecutive stretches of durable states that stay inside a set of paths stay inside it together |
| Database.PrepareCopies | internal/update/apply.go:60-71 | while the copies are made every durable state has the old database untouched; success means each scratch file equals its backup and the main backup exists; only a failing call or an unusable backup prevents it |
| Database.MoveOne | internal/update/apply.go:86-94 | one file moved aside: in every durable state it is in its place unchanged or gone; reported moved only if its content is under the scratch name |
| Database.MoveAside | internal/update/apply.go:85-95 | every durable state holds only files of the old database; each file is either in place or aside with its content; success leaves none in place |
| Database.InstallCopies | internal/update/apply.go:96-103 | every durable state holds only files of the backup; success installs exactly the prepared ones |
| Database.Revert | internal/update/apply.go:72-84 | installed files are gone and moved ones are back unless one of its own calls fails |
| Database.Swap | internal/update/apply.go:72-103 | up to the start of an undo, no durable state mixes files of both databases; a clean failure leaves the old one |
| Database.Cleanup | internal/update/apply.go:55-59 | removal of scratch files never changes the database, in no durable state |
| Database.RestoreDatabaseFile | internal/update/apply.go:46-108 | for any distinct suffixes: success means each file of the database exists exactly if its backup does, with equal content; a failure whose undo succeeds leaves every file as before; outside the undo no durable state mixes old and restored files; nothing but the database and its scratch names is touched; only a failing call or an unusable backup makes it fail, and with at most one failing call the database is the backup or as before |
| Database.BackupOne | internal/update/apply.go:114-123 | one suffix: the copy equals the source, both missing included, unless the removal of a stale copy failed, which is a slip |
| Database.BackupStoppedDatabase | internal/update/apply.go:112-126 | success means every copy equals its source except those stale ones whose unchecked removal failed, which are as before; without a slip there are none, and without a failing call it succeeds |
| Database.BackupFaithfulIff | internal/update/apply.go:112-126 | every backup that reports success is the database, whatever fails, exactly when before the call no copy stood there of a file that the database does not have |
| Database.StaleLogSurvives | internal/update/apply.go:114-117 | a concrete backup that reports success and is not the database |
| Database.InterruptedRestore | internal/update/apply.go:46-108 | a restore cut short by a power loss at any moment changes only the database and its scratch names |
| Database.BackupUseRestore | internal/update/apply.go:46-126 | backup, any use of the database, any number of interrupted restores, one completed restore: the original database is back, whatever fails, if there was no stale copy, and without a slip in any case |
| WindowsUpdater.BackupName | cmd/ctyun-keeper-updater/main.go:239-256 | one managed name: its backup equals it, absence included |
| WindowsUpdater.Backup | cmd/ctyun-keeper-updater/main.go:234-258 | success means the backup of every managed name equals it, absence included, and only the backup directory changed; only a failing call or an irregular entry prevents it |
| WindowsUpdater.MoveIn | cmd/ctyun-keeper-updater/main.go:291-301 | success means the prepared entry is installed; at any moment only the name and its two scratch names differ, and an entry that stood there stands in its place or, unchanged, under its `.update-old` name, as it does at some moment of an undisturbed move |
| WindowsUpdater.AtomicReplaceFile | cmd/ctyun-keeper-updater/main.go:283-302 | success means the installed file equals the source; at any moment only the name and its two scratch names differ, and a file that stood there stands in its place or, unchanged, under its `.update-old` name, as it does at some moment of an undisturbed replacement; only a failing call or a source that is no file prevents it |
| WindowsUpdater.AtomicReplaceDir | cmd/ctyun-keeper-updater/main.go:304-326 | success means the name holds the source laid over part of what stood in the scratch directory before the call, and without a slip exactly the source; at any moment the scratch directory has no entries but those it had and the source's |
| WindowsUpdater.DirExactIff | cmd/ctyun-keeper-updater/main.go:304-326 | every replacement of a directory that reports success is exact, whatever fails, exactly when the scratch directory before the call has no entry that the source lacks |
| WindowsUpdater.ReplaceOptional | cmd/ctyun-keeper-updater/main.go:267-279 | success means a file the package has is installed or, which takes a slip, the name is as before; a file the package lacks is left alone |
| WindowsUpdater.OptionalExactIff | cmd/ctyun-keeper-updater/main.go:267-279 | every replacement of an optional file that reports success has installed it, whatever fails, exactly when it is installed already or the package lacks it |
| WindowsUpdater.ReplaceNext | cmd/ctyun-keeper-updater/main.go:267-279 | one more optional file is installed or skipped, skipped only by a slip, and those installed before stay so |
| WindowsUpdater.ReplaceOptionals | cmd/ctyun-keeper-updater/main.go:267-279 | every optional file is installed or, which takes a slip, as before; the program and its directory are not disturbed |
| WindowsUpdater.ReplaceStatic | cmd/ctyun-keeper-updater/main.go:264-266 | success means the package's directory is installed over part of what stood in the scratch directory, and exactly without a slip |
| WindowsUpdater.Replace | cmd/ctyun-keeper-updater/main.go:260-281 | success means the program is installed, its directory is installed over part of what stood in the scratch directory, and every other name of the package is installed or was skipped; without a slip it is exactly the new program, and with a complete package only a failing call prevents success; at any moment the scratch directories have no entries but those they had, the backups' and the package's |
| WindowsUpdater.ReplaceExactIff | cmd/ctyun-keeper-updater/main.go:260-281 | every replacement that reports success is the new program, whatever fails, exactly when the scratch directory before the call has no foreign entry and every optional file of the package is installed already |
| WindowsUpdater.RestoreName | cmd/ctyun-keeper-updater/main.go:329-348 | success means one name is gone with its backup, equals it, or holds its tree laid over part of what stood in the scratch directory; without a slip it equals the backup |
| WindowsUpdater.RestoreProgram | cmd/ctyun-keeper-updater/main.go:329-349 | the same for every managed name; nothing but these names and their scratch names is touched, in any durable state |
| WindowsUpdater.Restore | cmd/ctyun-keeper-updater/main.go:328-356 | the same for every managed name, and the database equals its backup; only a failing call or unusable backups prevent success, and without a slip every name equals its backup; at any moment the scratch directories have no entries but those they had, the backups' and the package's |
| WindowsUpdater.RestoreExactIff | cmd/ctyun-keeper-updater/main.go:328-356 | every restore that reports success is exact, whatever fails, exactly when no scratch directory before the call has an entry that the backup of its name lacks |
| WindowsUpdater.Save | cmd/ctyun-keeper-updater/main.go:125-156 | after it the program backup is exact, and the database backup is one that a backup of the database may leave: exact, whatever fails, if there was no stale copy, and in any case without a slip; without a failing call an accepted package gets there, and the backups can be restored |
| WindowsUpdater.SavedIsRestorable | cmd/ctyun-keeper-updater/main.go:125-156 | fresh backups lack nothing that a restore needs |
| WindowsUpdater.InterruptedUpdate | cmd/ctyun-keeper-updater/main.go:234-356 | backup, any interrupted prefix of the replacement, any number of interrupted restores, one completed restore: every managed name is as it was, whatever fails, if before the backup neither the scratch directories nor the package had entries foreign to the installed directories, and in any case without a slip in the last restore; the database is as it was if it had no stale copy or the backup no slip; no other path has changed |
| WindowsUpdater.RestoredFromSaved | cmd/ctyun-keeper-updater/main.go:328-349 | restoring from a backup that survived undisturbed gives back every name that is restored exactly, which all tidy ones are, and the database |
| WindowsUpdater.SavesSurvive | cmd/ctyun-keeper-updater/main.go:260-356 | neither a replacement nor a restore nor a running program disturbs the backups |
| WindowsUpdater.BoundedChain | cmd/ctyun-keeper-updater/main.go:260-356 | through replacements and restores, cut short anywhere, the entries of the scratch directories stay within those they had, the backups' and the package's |
| WindowsUpdater.QuietKept | cmd/ctyun-keeper-updater/main.go:260-356 | scratch directories that cannot spoil a restore from the backups cannot after any such replacement or restore either |
| WindowsUpdater.StaleTreeMerged | cmd/ctyun-keeper-updater/main.go:304-326 | a concrete restore that reports success and leaves a directory with an entry its backup lacks |
| WindowsUpdater.FileSkipped | cmd/ctyun-keeper-updater/main.go:267-274 | a concrete replacement of a complete package that reports success and leaves an old file |
| WindowsTransaction.WriteInstallResult | internal/update/request.go:283-305 | success means the result file holds the status; unless a call fails the progress file is gone and a failure is kept as the last one, which a success leaves alone; in every durable state only these files and the scratch file differ |
| WindowsTransaction.FinalizeCompletedWindowsTransaction | internal/update/windows_transaction.go:33-55 | in every durable state the journal is untouched, or it was completed, is gone, and the result file holds its status; an open journal is left alone, and so is everything else then |
| WindowsTransaction.CommitResult | cmd/ctyun-keeper-updater/main.go:376-385 | failure means nothing changed; afterwards and in every durable state in between the journal carries the marker, or is gone and the result file holds the status; without a failing call the latter |
| WindowsTransaction.SoundUnopened | cmd/ctyun-keeper-updater/main.go:125-159 | before the journal exists the program is the old one |
| WindowsTransaction.SoundOpen | cmd/ctyun-keeper-updater/main.go:157-172 | under an uncompleted journal both backups stay in place whatever is replaced, restored or written by the program, and the scratch directories stay harmless if they were before the update |
| WindowsTransaction.SoundCommit | internal/update/windows_transaction.go:19-29 | a marker that is true of the program files when written stays true as long as it stands, and is true of them after it is gone |
| WindowsTransaction.GroundedChain | cmd/ctyun-keeper-updater/main.go:128-143 | stretches of durable states compose in which every rolled-back marker has a state with the old program and the old database before it, from which only the live database, the records and the lock have changed |
| WindowsTransaction.GroundedLoss | cmd/ctyun-keeper-updater/main.go:182-228 | a power loss, after which an earlier state stands again, keeps that |
| WindowsTransaction.TakeOverUpdateLock | internal/update/lock.go:63-79 | only a record with the transaction's token is taken over, and nothing else changes |
| WindowsTransaction.ReleaseUpdateLock | internal/update/lock.go:113-126 | a record with the transaction's token is gone unless a call fails, and nothing else changes |
| WindowsTransaction.SoundFinalize | internal/update/windows_transaction.go:33-55 | finalizing keeps every durable state sound |
| WindowsTransaction.SoundOpened | cmd/ctyun-keeper-updater/main.go:125-159 | the state with the open journal is sound for the program from before and the database that is backed up |
| WindowsTransaction.OpenTransaction | cmd/ctyun-keeper-updater/main.go:119-159 | whatever fails: until the journal is open the old program is intact, and once open both backups are in place; the database that is backed up is the old one if there was no stale copy, and in any case without a slip |
| WindowsTransaction.RestoreSoundly | cmd/ctyun-keeper-updater/main.go:128-133 | whatever fails, every state has an open journal and both backups; a restore that reports success brings the old program and the backed-up database back if no scratch directory can spoil it, and in any case without a slip |
| WindowsTransaction.ReplaceSoundly | cmd/ctyun-keeper-updater/main.go:160-162 | whatever fails, every state has an open journal and both backups; a replacement that reports success is the new program if it relies on no unchecked call, and in any case without a slip |
| WindowsTransaction.RunAndCommit | cmd/ctyun-keeper-updater/main.go:163-179 | a status is committed only when the running program is healthy and is the one the status stands for; a rolled-back marker differs from the state in which the program was started in the live database and the records only; a healthy program is committed unless a call fails |
| WindowsTransaction.RestoreAndCommit | cmd/ctyun-keeper-updater/main.go:128-143 | the old program is started again only on the old files and the backed-up database, and every rolled-back marker rests on that state, whatever fails, if no scratch directory can spoil the restore, and in any case without a slip; restored and healthy, it is committed as rolled back unless a call fails |
| WindowsTransaction.InstallAndCommit | cmd/ctyun-keeper-updater/main.go:160-179 | success means a replacement was committed, the new program if it relied on no unchecked call or there was no slip; without a commit every state on the way is sound whatever fails, none has a rolled-back marker, and the backups are fit for a restore |
| WindowsTransaction.Proceed | cmd/ctyun-keeper-updater/main.go:160-179 | from the open journal on: committed as success or, after a restore, as rolled back, or the journal is still open; every durable state is sound, every marker true, and every rolled-back one rests on the old program and the backed-up database, whatever fails, if what was committed or restored relied on no unchecked call, and in any case without a slip |
| WindowsTransaction.Apply | cmd/ctyun-keeper-updater/main.go:99-180 | in every durable state of an update: no journal and an entirely old or entirely new program, or an open journal and both backups, or a marker that tells the truth, a rolled-back one with a state with the old program and the backed-up database before it; whatever fails, if a success could rely on the package, or anything else on the scratch directories, and in any case without a slip; the backed-up database is the old one if it had no stale copy, and without a slip; undisturbed, a healthy new program is installed and reported, an unhealthy one makes way for the old program and database and is reported as rolled back, and what can be neither leaves the journal open |
| WindowsTransaction.Execute | cmd/ctyun-keeper-updater/main.go:57-78 | the same with the lock: an update takes place only under a lock with its token; without a failing call the lock is gone at the end and the result tells the outcome, and a journal that is still open is abandoned |
| WindowsTransaction.StartPendingWindowsRecovery | internal/update/recovery_windows.go:13-38 | an open journal without an active lock never lets the program pass, whatever fails; a recovery is started only if its program is there, never while a completed journal stands, and beside an active lock only if its record cannot be read; unless a call fails, a completed journal is finalized and an open one gets its recovery |
| WindowsTransaction.RecoverLocked | cmd/ctyun-keeper-updater/main.go:196-228 | a recovery with the lock commits only the old program, started on the old files and the backed-up database, keeps every state sound and every marker grounded, whatever fails, if no scratch directory can spoil the restore, and in any case without a slip; it drops the lock |
| WindowsTransaction.RecoverPending | cmd/ctyun-keeper-updater/main.go:182-228 | without a journal, or without a lock record that carries the token, it changes nothing; otherwise every state is sound, every rolled-back marker rests on a state with the old program and the backed-up database, and so does the commit, whatever fails, if no scratch directory can spoil the restore now or could before the update, and in any case without a slip; undisturbed it commits exactly if the record carries the token, and ending without a commit abandons the journal |
| WindowsTransaction.SettledRun | internal/update/recovery_windows.go:13-38 | once the journal is completed or gone it stays so, and only records and the database change |
| WindowsTransaction.Start | internal/update/recovery_windows.go:13-38 | every durable state of one program start is sound if the first was, settled with untouched program files if the first was settled, and has no rolled-back marker that is not grounded, whatever fails, if no scratch directory can spoil a restore now or could before the update, and in any case without a slip; without a journal the program runs unless a call fails or its file is missing, with an open one only beside a live lock; without a program file, or with an abandoned journal, nothing happens at all |
| WindowsTransaction.InterruptedReplacement | cmd/ctyun-keeper-updater/main.go:283-302 | after a replacement of the program file, cut short anywhere, there is no program to start exactly if it stands under its other name, and an undisturbed replacement passes through such a moment |
| WindowsTransaction.Stranded | cmd/ctyun-keeper/main.go:53-59 | from an abandoned journal, or without a program file, no number of starts runs the program or changes anything |
| WindowsTransaction.FinalStep | internal/update/recovery_windows.go:13-38 | one more interrupted start after a settled state changes no program file |
| WindowsTransaction.Lifetime | cmd/ctyun-keeper-updater/main.go:99-228 | over one update and any number of starts, each cut short anywhere: every surviving state has no journal and an entirely old or entirely new program, or an open journal and both backups, or a marker that is true of the program files, and every surviving rolled-back marker has an earlier state with the old program and the backed-up database from which only the live database, the records and the lock have changed, whatever fails, if neither the replacement nor a restore could be spoiled from the state before the update, and in any case without a slip; the backed-up database is the old one if it had no stale copy, and without a slip; from the first completed or absent journal on no program file ever changes again |
| WindowsLimits.InstallTrueIff | cmd/ctyun-keeper-updater/main.go:99-179 | every program that an update may start and commit as the new one is that, whatever fails, exactly when the replacement relies on no unchecked call |
| WindowsLimits.RecoveryTrueIff | cmd/ctyun-keeper-updater/main.go:99-228 | every restore of an update, or of a recovery after it, that reports success brings the old program back, whatever fails, exactly when before the update neither the scratch directories nor the package's `static` have an entry foreign to the installed directories |
| WindowsLimits.RecoveredDatabaseIff | cmd/ctyun-keeper-updater/main.go:99-228 | every such restore brings the old database back, whatever fails, exactly when before the update no copy stood there of a file that the database does not have |
| WindowsLimits.SoundIff | cmd/ctyun-keeper-updater/main.go:99-228 | with a package that has the program and its directory: the states in which the journal was just opened or just completed are all sound, whatever fails, exactly when all three conditions hold |
| Launcher.Machine.SwitchCurrent | cmd/ctyun-keeper-launcher/main.go:502-515 | the link leads to the target or is as before |
| Launcher.Machine.SavePending | cmd/ctyun-keeper-launcher/main.go:715-745 | the journal is the given one or is as before |
| Launcher.Machine.BackupStoppedDatabase | internal/update/apply.go:112-126 | success makes the copy the database; an interrupted copy shows no version above the higher of the two |
| Launcher.Machine.RestoreDatabase | cmd/ctyun-keeper-launcher/main.go:529-534 | success makes the database the copy; an interrupted restore shows no version above the higher of the two |
| Launcher.Machine.TakeOverUpdateLock | internal/update/lock.go:63-79 | only a lock with the expected token becomes the launcher's, with that token; a refusal changes nothing |
| Launcher.Machine.BeginUpdate | internal/update/manager.go:26-40 | a free lock becomes the launcher's own, or is left free or unreadable by a failing write |
| Launcher.Machine.HandOff | internal/update/manager.go:70-83 | success means the lock carries the transaction's token |
| Launcher.Machine.ReleaseUpdateLock | internal/update/lock.go:113-126 | only a lock with the given token is freed, and it is unless a step fails |
| Launcher.Machine.PreparePending | cmd/ctyun-keeper-launcher/main.go:517-527 | success puts the transaction's target database in place before the link leads to its target, and the program may start; a replayed update counts as switched, a replayed recovery does not; only a failing step prevents it |
| Launcher.Machine.UseDatabase | cmd/ctyun-keeper-launcher/main.go:346-404 | a program writes the database as its version and the copy filed under its version, and may remove copies and, once healthy, version directories other than its own; as long as the launcher may still roll back, the loop's invariant holds |
| Launcher.Machine.Prune | internal/update/retention.go:20-64 | whatever version directories beside the running one go, every state is sound, and with nothing open the loop may go on |
| Launcher.Machine.UseUpdateLock | internal/update/manager.go:26-83 | no manager of a program gets past a lock of the launcher: as long as a transaction is in memory the lock stays as it is and no request is handed over; otherwise the launcher's process never stands in it |
| Launcher.Machine.CompletePending | cmd/ctyun-keeper-launcher/main.go:549-565 | success, for a transaction under which the program has proved healthy, means the result with the transaction's status is written and the journal is gone, in this order, and then the lock, unless its release fails; otherwise, which takes a failing step, transaction and lock are kept |
| Launcher.Machine.RunProgram | cmd/ctyun-keeper-launcher/main.go:181-197 | exactly one start, of the version the link leads to; the program ends with an update request only after handing the lock over, which takes that no transaction is in memory any more; the transaction leaves memory only by completion under a program that proved healthy, with its status as its result; a healthy program brings that about unless a step fails, and an unhealthy one leaves journal and results as they were |
| Launcher.Machine.Rollback | cmd/ctyun-keeper-launcher/main.go:203-229 | the launcher continues only with the recovery journal durable, which has the status rolled back, the link on the previous version and the database from the backup; a transaction without fallback gets the status failed and stops it; a missing backup is reported as failed; apart from these only a failing step stops it |
| Launcher.Machine.SwitchBack | cmd/ctyun-keeper-launcher/main.go:206-214 | success leaves the link on the previous version, the database from the backup, and a state in which the recovery may be journaled |
| Launcher.Machine.ApplyUpdate | cmd/ctyun-keeper-launcher/main.go:451-495 | success means the journal goes from the running version to the requested one, with the running version's directory to return to and its copy of the database, and the link agrees; failure, which takes a failing step or a refusal, leaves a state in which the loop may go on |
| Launcher.Machine.JournalAndSwitch | cmd/ctyun-keeper-launcher/main.go:485-494 | the link is switched only under its own journal, and a journal that it replaces is closed for good |
| Launcher.Machine.KeepBuiltin | cmd/ctyun-keeper-launcher/main.go:462-471 | success keeps the built-in version as a directory to return to |
| Launcher.Machine.InstallPackage | cmd/ctyun-keeper-launcher/main.go:472-484 | success adds the new version's directory and changes no other |
| Launcher.Machine.AbandonUpdate | cmd/ctyun-keeper-launcher/main.go:489-493 | a failed switch leaves a state in which the loop may go on, even if the journal cannot be removed |
| Launcher.Machine.FinalizeAndApply | cmd/ctyun-keeper-launcher/main.go:244-256 | success means the new transaction is journaled, the link leads to its version and its backup is the database as it was |
| Launcher.Machine.AcceptRequest | cmd/ctyun-keeper-launcher/main.go:240-243 | a request is accepted exactly with a lock that carries its token, unless a step fails, and may then be applied if it goes up; a lock with another token refuses it and nothing changes |
| Launcher.Machine.RefuseRequest | cmd/ctyun-keeper-launcher/main.go:245-257 | a failed request has its result and the lock is free, unless a step fails, and the loop may go on |
| Launcher.Machine.HandleRequest | cmd/ctyun-keeper-launcher/main.go:234-260 | a request is applied only under a lock with its token and only if it is valid, and is applied unless a step fails: journaled from the running version to the requested one, linked and backed up with the database as it was, and the lock carries its token; whatever fails, the launcher goes on without a transaction |
| Launcher.Machine.RunOnce | cmd/ctyun-keeper-launcher/main.go:169-261 | a turn starts the current version; it rolls back only an open transaction that is no recovery, and goes on after that only with the recovery journal, whose status is rolled back and whose target is the previous version; an unhealthy recovery ends the launcher and is reported as failed; it handles a request only when the transaction it began with has its result |
| Launcher.Machine.MainLoop | cmd/ctyun-keeper-launcher/main.go:169-262 | every state is sound, a compatible current version is started first, and at most one rollback happens before the first update request and after each one, which is why the retry loop ends |
| Launcher.Machine.BackupForSwitch | cmd/ctyun-keeper-launcher/main.go:115-137 | success means the copy under the right name is the database, and an incompatible switch has the image version's own copy |
| Launcher.SelectStartupVersion | cmd/ctyun-keeper-launcher/main.go:277-300 | the built-in version is selected exactly when the link leads to nothing, to the built-in version, to a version that does not fit the launcher, or to a lower one while the built-in one fits; a version that is set aside is the one to return to |
| Launcher.Machine.OpenImageTransaction | cmd/ctyun-keeper-launcher/main.go:106-144 | an opened image transaction goes from the installed version to the image's own, passes the startup checks, has no fallback exactly if the installed version does not fit the launcher, and carries a backup exactly if there is a database, which it then equals |
| Launcher.Machine.SelectAndPrepare | cmd/ctyun-keeper-launcher/main.go:102-161 | success leaves the link on the built-in version exactly when it led to nothing, to the built-in version, to a version that does not fit the launcher, or to a lower one while the built-in one fits, and else where it led; an image transaction is opened exactly when an installed version is set aside, and returns to it; only a failing step or an impossible image transaction prevents it |
| Launcher.Machine.LockForStart | cmd/ctyun-keeper-launcher/main.go:78-99 | the launcher gets past a journal only if the lock is free or carries the journal's token, and then holds it with that token; without a journal it holds a lock of its own; only a failing step or a foreign token prevents it, and a foreign token always does |
| Launcher.Machine.Boot | cmd/ctyun-keeper-launcher/main.go:60-262 | every durable state of one launcher run is sound, rollbacks are at most requests plus one, and unless a step fails, the journal is refused or the lock carries a foreign token the first program started is the journal's target or, without a journal, the built-in version exactly when the link leads to nothing, to it, to a version that does not fit the launcher, or to a lower one while it fits, and else the linked one; a journal is replayed only if its directories hold the versions it names, its copies exist and its marker agrees with its status; a foreign token stops every start before it changes anything |
| Launcher.GrowsOver | cmd/ctyun-keeper-launcher/main.go:60-262 | starts, transactions, recoveries, closings and switches are only ever added |
| Launcher.PhaseForward | cmd/ctyun-keeper-launcher/main.go:192-230 | a transaction never returns from its recovery journal to a forward journal, never reopens after it was closed, and once its recovery is durable every start under it is of the previous version |
| Launcher.RecoveredSuccess | cmd/ctyun-keeper-launcher/main.go:203-229 | in every history: a transaction under recovery that reads as a success was reported as one before its recovery was journaled, under a new version that had proved healthy |
| Launcher.RecoveredSuccessIff | cmd/ctyun-keeper-launcher/main.go:203-229 | some history lets a transaction under recovery read as a success exactly when it does so already |
| Launcher.UseKeeps | cmd/ctyun-keeper-launcher/main.go:346-404 | whatever the running program does to the database, to its own copy and to the existence of copies, the loop's invariant survives |
| Launcher.PruneKeeps | internal/update/retention.go:20-64 | with nothing open, any version directories but the running one may go |
| Launcher.CompletingKeeps | cmd/ctyun-keeper-launcher/main.go:549-556 | adding the completed result to the journal keeps the invariant |
| Launcher.ClosingKeeps | cmd/ctyun-keeper-launcher/main.go:557-564 | closing a transaction whose result is its status forgets nothing |
| Launcher.AcceptKeeps | cmd/ctyun-keeper-launcher/main.go:234-248 | an accepted request that goes up, or is for the built-in one's own version, may be applied, and no other keeps the assumptions |
| Launcher.ForwardKeeps | cmd/ctyun-keeper-launcher/main.go:485-494 | the journaled and the switched state of a request are sound, also where a journal is replaced that could not be removed, and so is the state with the journal taken away again |
| Launcher.ImageSwitchKeeps | cmd/ctyun-keeper-launcher/main.go:127-143 | the journal of an image transaction is sound when its copies are exact, and keeps the assumptions exactly when it has the copies it needs |
| Launcher.Lifetime | cmd/ctyun-keeper-launcher/main.go:102-262 | over any number of starts cut short anywhere, with images replaced in between: no version ever starts on a database written by a higher one, no failed version starts again after its recovery is durable, every switched transaction has its journal or its result, a success is reported only of a new version that proved healthy and a rollback only of a journaled recovery whose previous version did, and once a recovery is over its transaction does not read as a success |
| Launcher.RollbackSafeIff | cmd/ctyun-keeper-launcher/main.go:206-214 | what a rollback leaves can be read by the previous version exactly when the transaction has a backup or the new version has left no trace of its own |
| Launcher.RequestSafeIff | cmd/ctyun-keeper-launcher/main.go:451-495 | applying a request is safe on every database that the running version may leave, cut short at any moment, exactly when the request goes up, or asks for the running version again while that is the built-in one or one that the built-in one can stand in for |
| Launcher.ImageSafeIff | cmd/ctyun-keeper-launcher/main.go:277-300 | an image may be replaced under a link to the built-in version exactly when the new one can read the database |
| Launcher.CutHandOverSticks | cmd/ctyun-keeper-launcher/main.go:761-765 | a power loss between the journal of an image transaction and the hand-over of the lock leaves a state that no start gets past |
| Launcher.EarlySuccess | cmd/ctyun-keeper-launcher/main.go:203-229 | a concrete update that is completed and reported, outlived by its journal, and rolled back at the next start while its result says success |
| Launcher.BareTransactionUnsafe | cmd/ctyun-keeper-launcher/main.go:117-127 | a concrete transaction without a backup whose rollback starts the old version on the new database |
| Launcher.DownwardRequestUnsafe | cmd/ctyun-keeper-launcher/main.go:451-495 | a concrete request to a lower version that starts it on the higher version's database |
| Launcher.RepeatedRequestUnsafe | cmd/ctyun-keeper-launcher/main.go:472-480 | a concrete request for the running version: power fails while its directory is gone, and the next start runs the older built-in version on its database |
| Launcher.LoweredImageUnsafe | cmd/ctyun-keeper-launcher/main.go:277-300 | a concrete image replaced by an older one that starts on the newer database |
| Health.WaitForHealth | internal/update/apply.go:168-209 | the check succeeds exactly when an address is given, the count, the timeout and the interval are positive, and the required number of polls in a row finds the program healthy before the deadline; a missing address and bad parameters are told apart |
| UpdateLock.LockFile.Acquire | internal/update/lock.go:23-61 | without a failing file operation the lock is taken exactly when the file is missing or names a dead process; it never replaces a live or unreadable record |
| UpdateLock.LockFile.TakeOver | internal/update/lock.go:63-79 | only a record with the expected token gets a new process, and keeps its token; a failing write leaves it as it was or unreadable |
| UpdateLock.LockFile.HandOff | internal/update/lock.go:81-97 | only the holder's own record gets the new token |
| UpdateLock.LockFile.Release | internal/update/lock.go:99-126 | only a record with the given token vanishes, and it does unless a file operation fails |
| UpdateLock.LockFile.ReleaseWithoutToken | internal/update/lock.go:113-126 | any record vanishes |
| UpdateLock.Manager.Begin | internal/update/manager.go:26-40 | an active manager refuses; an idle one becomes active exactly with the lock |
| UpdateLock.Manager.Finish | internal/update/manager.go:61-68 | the manager is idle, and at most its own record is gone |
| UpdateLock.Manager.HandOff | internal/update/manager.go:70-83 | the manager is idle in any case; success means its record carries the new token |
| UpdateLock.NewlyActive | internal/update/lock.go:34-60 | nobody becomes active but through a beginning that finds no live record and no active manager |
| UpdateLock.StepKeeps | internal/update/lock.go:23-126 | every operation of every process keeps: an active manager's record is in the file, and at most one is active |
| UpdateLock.OneTask | internal/update/manager.go:26-68 | in every run at most one manager of all processes is active, and the file holds its record |
| UpdateLock.OthersWait | internal/update/manager.go:26-40 | while a manager is active, nobody's attempt to begin changes the file or any manager |
| UpdateLock.DeadRecordYields | internal/update/lock.go:34-60 | a process that dies with the lock keeps nobody out: the next manager begins, and is then the only active one |
| UpdateLock.NoForeignDeletion | internal/update/lock.go:55-126 | a record vanishes only through its own token, or at a new beginning after its process has died |
| UpdateLock.HandOverStarts | internal/update/manager.go:70-83 | a hand-over that changes the record leaves it with the request's token and no manager active |
| UpdateLock.HandedOverStaysTaken | internal/update/lock.go:63-126 | from the hand-over under a token until the release with that token, while the recorded process lives, no manager begins in any run, and the record keeps the token unless rewriting it failed half-way |
| UpdateLock.ReleaseWithoutTokenHarmsIff | internal/update/lock.go:113-126 | after a release without a token an idle manager can begin beside an active one exactly when there is one |
| UpdateLock.ReleaseWithoutTokenAdmitsTwo | internal/update/lock.go:113-126 | a concrete run in which the release without a token makes two managers active |
| TaskGate.Manager.StartTaskEnter | internal/service/manager.go:886-906 | the first section admits a task exactly when no maintenance is on, no batch holds its account for a `pc` or `login` task, and its key is neither starting nor active |
| TaskGate.Manager.StartTaskCommit | internal/service/manager.go:934-943 | the last section activates the task exactly when no maintenance has begun and no batch has taken the account of a `pc` or `login` task meanwhile; its key is released in any case |
| TaskGate.Manager.StartTask | internal/service/manager.go:881-946 | with anything happening between its sections: a task that is started runs without maintenance, and is `chat` or `redeem` or not of an account of a running batch; its call leaves nothing behind |
| TaskGate.Manager.FinishRun | internal/service/manager.go:1058-1061 | the run leaves the table and nothing else changes |
| TaskGate.Manager.BeginMaintenance | internal/service/manager.go:1390-1401 | maintenance starts exactly when no batch runs and none is on already |
| TaskGate.Manager.PollTasks | internal/service/manager.go:1405-1424 | the read finds a blocking or a short task exactly when there is one |
| TaskGate.Manager.CheckPendingRedeem | internal/service/manager.go:1425-1445 | success exactly when nothing short was seen and no order is uncertain |
| TaskGate.Manager.PollAndCheck | internal/service/manager.go:1405-1435 | a round ends waiting, with nothing found, or failing, whatever happens between its two reads |
| TaskGate.Manager.PrepareForUpdate | internal/service/manager.go:1390-1453 | with anything happening between its sections: success without a foreign cancellation means nothing starting, nothing active, no uncertain order, no batch; a closed gate refuses and changes nothing |
| TaskGate.Manager.CancelUpdateMaintenance | internal/service/manager.go:1478-1486 | maintenance is off |
| TaskGate.Manager.StartPowerBatch | internal/service/desktop.go:295-308 | a batch starts exactly when neither maintenance nor another batch is on, and then owns the accounts of all its targets |
| TaskGate.Manager.CancelDesktopRuns | internal/service/desktop.go:384-395 | exactly the `pc` and `login` runs of the account are cancelled, and nothing else changes but the sweep |
| TaskGate.Manager.OperateDesktop | internal/service/desktop.go:399-401 | may only be called when every desktop run of the account has been cancelled and maintenance is off |
| TaskGate.Manager.SweepAndOperate | internal/service/desktop.go:384-400 | one target: its account is swept, and its desktop is operated exactly if the submission could be recorded |
| TaskGate.Manager.RunPowerBatch | internal/service/desktop.go:291-400 | with anything happening between its sections: every call that operates a desktop meets that condition, exactly those targets are operated that are submitted before the batch ends, and a batch that is refused changes nothing |
| TaskGate.Manager.FinishPowerBatch | internal/service/desktop.go:309-319 | no batch and no accounts are left |
| TaskGate.NextKeepsKeys | internal/service/manager.go:881-946 | no key is ever held by two calls or runs |
| TaskGate.NextKeepsOwned | internal/service/manager.go:903-943 | no key is stuck in `starting` without a call that will release it |
| TaskGate.NextKeepsPower | internal/service/desktop.go:291-400 | maintenance and a batch never hold together, and the desktop runs of accounts already swept stay cancelled |
| TaskGate.NextKeepsPrepare | internal/service/manager.go:1390-1453 | what a preparation has found quiet stays quiet while maintenance is on |
| TaskGate.RunKeeps | internal/service/manager.go:881-946 | the invariant holds after every interleaving |
| TaskGate.ReadyIsQuiet | internal/service/manager.go:1390-1453 | after any interleaving, a successful preparation whose maintenance is still on means nothing starting, nothing active, no uncertain order, no batch |
| TaskGate.QuietLasts | internal/service/manager.go:1390-1486 | it stays so through every interleaving until maintenance is cancelled |
| TaskGate.OrderStopsPreparation | internal/service/manager.go:1425-1445 | an order that a redemption leaves uncertain between the two reads fails the preparation, unless it is settled |
| TaskGate.PreparationHoldsIff | internal/service/manager.go:1425-1453 | a preparation that has seen nothing running keeps its promise in every continuation exactly when maintenance is still on |
| TaskGate.ForeignCancelBreaksReady | internal/service/manager.go:1478-1486 | a concrete interleaving in which a foreign cancellation makes a preparation succeed while a task starts |
| TaskGate.BatchIsAlone | internal/service/desktop.go:384-400 | from an account's sweep until the batch ends, in every interleaving: its `pc` and `login` runs are cancelled, and none of any account of the batch is added |
| TaskGate.OperationIsAlone | internal/service/desktop.go:384-400 | at every call that operates a desktop, in every interleaving, each active `pc` or `login` run of its account has been cancelled |
| TaskGate.OneRunPerKey | internal/service/manager.go:886-943 | in every interleaving no `account:type` occurs twice across starting and active |
| PowerBatch.AcceptTargets | internal/service/desktop.go:264-290 | a request is refused exactly when it has no target, more than 2000, or an invalid one; otherwise its targets are kept once each |
| PowerBatch.Unique | internal/service/desktop.go:275-285 | the same targets as requested, none twice |
| PowerBatch.UniqueInOrder | internal/service/desktop.go:275-285 | the targets stay in the order of their first occurrence |
| PowerBatch.Tables.constructor | internal/storage/desktop.go:28-46 | a new job starts with every item queued |
| PowerBatch.Tables.Announce | internal/service/desktop.go:372-382 | a shutdown is held without end, a reboot until a deadline, a start not at all, or nothing changed; other holds are unchanged |
| PowerBatch.Tables.SubmitAndSettle | internal/service/desktop.go:399-420 | one submission, and afterwards the hold is the one the outcome calls for |
| PowerBatch.Tables.ValidateTarget | internal/service/desktop.go:336-398 | nothing is submitted; a target that fails leaves its hold exactly; otherwise the item says submitting and the hold is announced |
| PowerBatch.Tables.ProcessTarget | internal/service/desktop.go:332-423 | at most one submission, after the item said submitting; unless a write fails the item is accepted exactly when the platform accepted, unknown exactly when the result is uncertain, and failed exactly when it was invalid or refused; the hold follows the outcome |
| PowerBatch.Tables.ProcessTargets | internal/service/desktop.go:332-430 | the same over the whole list: every processed item carries its outcome, exactly the valid ones with an outcome were submitted, every hold follows its outcome, other holds are unchanged |
| PowerBatch.Tables.CloseInterrupted | internal/service/desktop.go:321-327 | unless a write fails the job is interrupted and no item is left unfinished: one being submitted becomes unknown, one not submitted cancelled, and an ended one stays as it is |
| PowerBatch.Tables.RunPowerBatch | internal/service/desktop.go:309-436 | unless a write fails whose failure is ignored: the ended job has no unfinished item; an item of a finished job is accepted exactly when the platform accepted, unknown exactly when the result is uncertain, and failed exactly when it was invalid or refused, and an accepted or unknown one was submitted; every target that reached a result has the hold its outcome fixes, and a refused one exactly the hold it had; holds of other desktops are unchanged in any case; without a failure or a stop the job finishes and exactly the listed, permitted targets are submitted |
| PowerBatch.Tables.InterruptPowerJobs | internal/storage/desktop.go:78-83 | after it no job runs and no item is unfinished: one being submitted becomes unknown, one not submitted cancelled, and an ended one stays as it is; nothing is submitted |
| PowerBatch.SubmittedOnce | internal/service/desktop.go:332-423 | distinct positions of distinct targets mean at most one submission per target, and one exactly if some position was submitted |
| PowerBatch.JobLifetime | internal/service/desktop.go:264-436 | from the request through a crash at any moment and any number of crashing restarts: every distinct target is submitted at most once, one whose item is queued, validating or cancelled never was, and in every durable state an ended job has only ended items unless a status write whose failure is ignored was lost |
| PowerBatch.LostStatusIff | internal/service/desktop.go:336-432 | when the last open target of a batch fails its validation, the finished job is closed exactly if the failure was written |
| PowerBatch.LostStatusStaysOpen | internal/service/desktop.go:362-365 | the run of table writes that does it: validating, the failure lost, finished |
| Redemption.QuantityIsProper | internal/service/manager.go:1794-1803 | an ordered quantity is affordable, within the cap, and below the cap the largest affordable one; nothing is ordered only if not even one piece is affordable and allowed |
| Redemption.StepSound | internal/service/manager.go:1673-1792 | every step keeps: orders are proper, one per run, automatic ones enabled by their run's configuration and dated after all earlier ones |
| Redemption.EveryOrderProper | internal/service/manager.go:1673-1803 | over every run with crashes: `times * price <= points`, the cap and the configured price are respected, an automatic order is enabled, no run orders twice, no date has two automatic orders |
| Redemption.RiskControlStops | internal/service/manager.go:1766-1770 | over every run after risk control has disabled automatic redemption, no automatic order is placed until somebody configures it anew |
| Redemption.StepGuarded | internal/service/manager.go:1684-1792 | every step but a premature resolution keeps: an order without a result is pending, and no run passes the check while there is one |
| Redemption.NeverResubmitted | internal/service/manager.go:1673-1792 | over every run with crashes and without a premature resolution, two orders are separated by a definite result or a resolution |
| Redemption.ResolveHarmsIff | internal/service/manager.go:1967-1986 | resolving a pending order can lead to two orders without a result between them exactly when its run has noted but not yet placed it |
| Redemption.Resubmission | internal/service/manager.go:1749-1792 | the run that does it: resolved too early, placed with an unclear result, stopped before recording, ordered again |
| Redemption.Account.Check | internal/service/manager.go:1674-1692 | a run goes on exactly when no order is pending, an automatic one only if enabled and not yet attempted today |
| Redemption.Account.WritePending | internal/service/manager.go:1706-1752 | the row is pending and dated before any order, exactly when the price is the configured one and at least one piece is affordable and allowed; otherwise nothing but the run ends |
| Redemption.Account.DisableRedeem | internal/service/manager.go:1766-1769 | risk control disables automatic redemption unless the write fails |
| Redemption.Account.WriteResult | internal/service/manager.go:1759-1791 | an accepted order becomes a success and a rejected one a failure, anything else leaves the row pending; a failing write leaves it as it was |
| Redemption.Account.ResolveRedeem | internal/service/manager.go:1967-1986 | succeeds exactly on a pending row |
| Redemption.Account.Redeem | internal/service/manager.go:1673-1792 | a run cut short anywhere, with anything happening between its steps, places at most one order, under the configuration, the date, the points and the price that it read; none if an order was pending, and none of an automatic run that is disabled or not the first of its day; it leaves the guarantees of the whole history intact |
| Viewers.Server.CreateDesktopViewer | internal/web/desktop_viewer.go:50-74 | expired sessions are dropped and queued first; a valid request is refused only if 16 sessions remain; a new one lasts an hour, has a page instance of its own, and at most 16 stay |
| Viewers.Server.OpenPage | internal/web/desktop_viewer.go:204-218 | a load gives the session a new instance and undoes a close; nothing else changes |
| Viewers.Server.DesktopViewerPulse | internal/web/desktop_viewer.go:286-340 | which of the three answers a pulse gets; an admitted heartbeat renews the session, a close of its own instance closes it, and nothing else changes anything |
| Viewers.Server.CollectViewerResumes | internal/web/desktop_lifecycle.go:34-58 | ended sessions go and are queued; the list is exactly the queued targets without a session, each once |
| Viewers.Server.Tick | internal/web/desktop_lifecycle.go:59-82 | a tick resumes exactly the queued targets without a session whose resumption succeeds, removes exactly these from the queue, and drops no session but the ended ones |
| Viewers.NeverResumesOpenPage | internal/web/desktop_lifecycle.go:70-80 | in every interleaving the loop resumes no target that has a session |
| Viewers.RemovalQueues | internal/web/desktop_lifecycle.go:37-43 | a session disappears only by collection or by expiry at an opening, and its target is then queued |
| Viewers.QueuedUntilResumed | internal/web/desktop_lifecycle.go:70-78 | a target leaves the queue only by a successful resumption |
| Viewers.RememberedUntilResumed | internal/web/desktop_lifecycle.go:25-82 | in every interleaving, once a target has had a session it has that session or is queued until the loop resumes it successfully |
| Viewers.CollectIsExact | internal/web/desktop_lifecycle.go:34-58 | the grace periods and the expiry decide exactly which sessions stay; each ended one's target is listed unless another live session shows it |
| Viewers.InstanceGrows | internal/web/desktop_viewer.go:206-213 | a session's page instance is only ever replaced by a newer one |
| Viewers.NeverOlder | internal/web/desktop_viewer.go:206-213 | through every interleaving a session, gone and opened again or not, has no page instance older than those drawn before |
| Viewers.OldInstanceIsMute | internal/web/desktop_viewer.go:302-331 | in every interleaving, after a page was loaded again no pulse of an earlier instance changes anything, whether its session stays, goes or is opened again |
| Viewers.EntryUsedOnce | internal/web/desktop_viewer.go:186-196 | the key of an entry link is accepted exactly when it is the session's, and only once |
| Viewers.ClosedStaysClosed | internal/web/desktop_viewer.go:319-331 | after a close only a new load reopens the session; no heartbeat does |
| Clink.ClinkMessage | internal/ctyun/clink.go:68-82 | the buffer filled step by step is the message's wire form, wrapped or not |
| Clink.WrappedIsOneFrame | internal/ctyun/clink.go:68-82 | a wrapped message is read as one frame whose payload holds the length and the offset of the data and then the data |
| Clink.MessageOctets | internal/ctyun/clink.go:68-82 | two concrete messages, octet by octet |
| Clink.ReadInvertsWrite | internal/ctyun/clink.go:244-249 | reading any concatenation of frames below 4 GiB, whatever follows it, yields exactly those frames first |
| Clink.ReadsAPrefix | internal/ctyun/clink.go:244-249 | on any bytes the frames read are a prefix of the data, and what remains does not start with a whole frame |
| Clink.ReadsTheLongest | internal/ctyun/clink.go:244-249 | no longer list of frames is a prefix of the data |
| Clink.AnswerFrame | internal/ctyun/clink.go:250-296 | a handshake is answered by the login messages and type 104, type 4 by type 3 with at most 12 octets, type 3 of at least 8 octets by type 1 with its first 4, nothing else; types 119, 120, 137 and a one-shot handshake stop the loop |
| Clink.Receive | internal/ctyun/clink.go:237-298 | the loop over offsets answers exactly the frames of the message in order up to the first that stops it |
| Clink.AnswersDistribute | internal/ctyun/clink.go:244-298 | frames that stop nothing are answered one after the other, independently of what follows |
| Clink.AnswersStopAt | internal/ctyun/clink.go:244-298 | a frame that stops the loop is still answered, and nothing behind it is |
| Clink.ReceiveFrames | internal/ctyun/clink.go:237-298 | a message written as frames is answered as those frames; the loop goes on exactly when none of them is a preemption or, in one-shot mode, a handshake |
| Clink.MainClientLoginInfo | internal/ctyun/clink.go:88-109 | the body filled field by field is the header, the table and the fields |
| Clink.LoginIsOneFrame | internal/ctyun/clink.go:88-109 | the login message is one frame of type 112 that names the desktop |
| Clink.LoginDecodes | internal/ctyun/clink.go:94-107 | the table finds every field again: contiguous from byte 36 to the end, each the value and a NUL |
| Clink.TableAt | internal/ctyun/clink.go:104-105 | entry `i` of the table is the length and the offset of field `i` |
| Oaep.Mgf | internal/ctyun/clink.go:27-38 | the loop computes the mask of section B.2.1 of RFC 8017, of exactly the requested length |
| Oaep.MaskAt | internal/ctyun/clink.go:27-38 | octet `i` of a mask is octet `i mod 20` of the hash of the seed followed by the counter `i / 20` in four octets, highest first |
| Oaep.ShorterMask | internal/ctyun/clink.go:27-38 | a shorter mask is a prefix of a longer one |
| Oaep.XorTwice | internal/ctyun/clink.go:52-58 | masking twice is the identity |
| Oaep.XorBitAt | internal/ctyun/clink.go:52-58 | masking is the sum without carry, bit by bit |
| Oaep.EncodedBlock | internal/ctyun/clink.go:45-61 | the block filled in place is the EME-OAEP encoding (section 7.1.1 of RFC 8017) of the one-octet message 0 |
| Oaep.UnmaskInvertsMask | internal/ctyun/clink.go:45-61 | unmasking recovers the seed and the data block, for every message, seed and 20-octet hash |
| Oaep.DecodeInvertsEncode | internal/ctyun/clink.go:45-61 | the decoding of section 7.1.2 of RFC 8017 recovers the message |
| Oaep.Redq | internal/ctyun/clink.go:39-67 | an invalid challenge is refused; otherwise a power of at most 129 octets, the length of the modulus, is sent at that length after a one and two zeros; the program fails exactly on a power of more than 132 octets |
| Oaep.ReducedFits | internal/ctyun/clink.go:43-66 | a power reduced by the challenge's modulus always has at most 129 octets |
| Oaep.LengthIff | internal/ctyun/clink.go:62-65 | a number has at most `k` octets exactly when it is below 256 to the power `k` |
| Oaep.BigEndian | internal/ctyun/clink.go:43-62 | the first octet of a number counts most |
| Oaep.AnswerDecodes | internal/ctyun/clink.go:62-66 | whoever can undo the power gets from the reply a block that decodes to the octet 0 |
| Oaep.PaddedBytes | internal/ctyun/clink.go:63-65 | right-aligning the shortest octets of a number gives its octets at full length |
| Keepalive.ClockRoundTrip | internal/storage/store.go:73-76 | every time of day is read back from its text |
| Keepalive.ClockMinuteIff | internal/storage/store.go:73-76 | exactly the texts `HH:MM`, and `H:MM` before ten, are times, up to space around them |
| Keepalive.TrimIs | internal/storage/store.go:73-76 | what is trimmed is space, and what remains neither starts nor ends with one |
| Keepalive.SplitIs | internal/storage/store.go:90-95 | the pieces joined by commas are the text, and none holds a comma |
| Keepalive.KeepaliveWeekdaySelected | internal/storage/store.go:85-96 | a day is selected exactly when a trimmed piece of the text is its digit; a blank text selects every day |
| Keepalive.ScheduledIffInWindow | internal/storage/store.go:46-71 | in scheduled mode a moment is active exactly when, counted around the week, it lies less than the window's length after the opening of a selected day |
| Keepalive.ActiveIff | internal/storage/store.go:32-71 | a moment is active exactly when the account and its keepalive are enabled, the mode is not off and, if it is scheduled, the moment lies in a window; any other mode is always active |
| Keepalive.WindowByCases | internal/storage/store.go:58-70 | the case split on the start and the end is one comparison around midnight |
| Keepalive.OneWindow | internal/storage/store.go:60-70 | no minute lies in the windows of two days |
| Keepalive.ArcSize | internal/storage/store.go:46-71 | a window around the end of the week has as many minutes as its length |
| Keepalive.ActiveMinutes | internal/storage/store.go:46-96 | a week has as many active minutes as selected days times the window's length, across midnight and from Sunday to Monday |

## Left out

- Concurrency of lock-file operations: each operation on the lock file is one step. Two processes that both read a dead record can remove each other's new one; the model does not show that.
- A recovery that races a completion: the gate keeps recoveries from completed journals, but a recovery already under way does not look at the marker again, and two recoveries at once are not modelled.
- Launcher.Machine.WriteResult: the moment between the removal of an old result file and the rename of the new one is not a state of its own; `WindowsTransaction.WriteInstallResult` has it.
- Launcher.Machine.BackupStoppedDatabase: the database is abstracted to the highest version that has written it; its files are modelled in `Database`.
- Launcher.Machine.OpenImageTransaction: the number of an image transaction comes from the clock and is assumed never to repeat; where it would, the model opens nothing.
- Launcher.Machine.SelectAndPrepare: `version.json` is assumed readable, and versions are numbers in their order; development versions, which have no order, are not modelled.
- Launcher.Machine.UseUpdateLock: history numbers, which tell requests apart, are assumed never to repeat; the token of a request and its number are one.
- Launcher.Machine.Prune: which directories are old enough to go is not modelled; any but the running one may.
- WindowsTransaction.Start: whether the process in the lock record lives is a parameter, and an executor that is still at work beside the started program is not modelled.
- The progress file that the executor writes on its way is modelled only where a result removes it.
- WindowsTransaction.Apply: it requires that no journal stands, which the gate at program start and the update lock see to.
- WindowsUpdater.Restore: the branch for a request without a database backup is not modelled, because such a request is refused before.
- Paths are structured names; links, permissions and the path checks of requests are not modelled.
- UpdateLock.Manager.Begin: the manager without a data directory, which takes no file, is not modelled; neither is a task that ends twice.
- Signatures, digests, manifests, JSON, base64, HTTP, WebSocket and TLS traffic are parameters or nondeterministic refusals.
- TaskGate.Manager.StartPowerBatch: the job is written to the database inside the same critical section; a failing write is the caller's `job` never being given.
- Keepalive connections during a batch: starting one does not check the batch's accounts, so exclusion is stated for tasks only.
- PowerBatch.Tables.RunPowerBatch: holds that a page renews or that expire while the batch runs are not modelled; messages, item names and the pause of a second between targets are not either.
- Redemption.Account.Redeem: deletion of the account, and with it of its row, is not modelled; the schedule that decides when an automatic run starts is not either, because the run checks the date itself.
- Clink.Receive: the pings, the reconnection and the waiting after a preemption are not modelled; integers have 64 bits, so the check for a negative length never applies.
- Oaep.Redq: the hash and the modular power are parameters; nothing is said of the reply to a power of 130 to 132 octets, which no modulus of 129 octets but zero allows.
- Viewers.Server.Tick: shutdown, which drops the sessions without queueing them, is not modelled.
- Keepalive.ActiveAt: daylight saving changes, at which a local week has more or fewer minutes, are not modelled.
- Cron matching, request numbers, consumption of result files, the web pages and account management are not modelled: nothing above depends on how they work.
