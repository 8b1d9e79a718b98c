# Vault session model

A Dafny 4.11 model of the application core of a card-unlocked vault: a session that lists, creates, mounts,
converts and releases encrypted containers while the driver, the file system, the durable index and the card can
fail at any call. Exceptions are results; a catch block is the branch that inspects one.

- `runtime.dfy` is the environment: every call may fail, and its contract says what it does to the volumes, the
  files and the durable index. Nothing else is assumed about it.
- `container_table.dfy`, `session_core.dfy`: the list of containers and the session object that updates it, with
  the invariant `SessionCore.Valid`. `release.dfy`, `maintenance.dfy`, `partitions.dfy`, `conversion.dfy`,
  `order.dfy`, `login.dfy`, `deletion.dfy` and `mount_monitor.dfy` are its further operations, one file per theme.
  `session_runs.dfy` puts all of them together into runs of any length.
- `container_index.dfy`, `write_ahead.dfy`: the durable index as an ordered list of records, and the order in which
  index and partitions are written, as a law on traces.
- `operation_log.dfy`: the history as a plain list, the ring that keeps its tail, and deferral. `naming.dfy`: which name
  an event bears when paths are noted while records are deferred.
- `authentication.dfy`, `card_entry.dfy`, `card_lifecycle.dfy`, `card_recheck.dfy`: the card's side.
- `activation_store.dfy` with `decimal.dfy`: the activation record, printed and read back.
- `volume_paths.dfy`, `export_plan.dfy`, `export_page.dfy`: the export selection on the page and in the session.
- `drag_order.dfy` with `permutations.dfy`: dragging rows into another order.
- `tail_scan.dfy`: the free end of a volume and the hidden volume that fits.

`dafny verify dfyconfig.toml` checks everything.

## How to read the session

`Valid` says: identifiers, targets (file path or partition) and letters of mounted rows are pairwise distinct; every
mount carries a revision of its own; every volume the session mounted is on a mounted row's letter or in `abandoned`
(its type query failed, card_login_mount_session.cpp:2600, or its mount was given up on a wrong report,
card_login_mount_session.cpp:3926; a drive leaves `abandoned` when it is mounted anew); no row disagrees with the
durable conversion state of its partition; and the trace of index and partition writes is `Legal`. Every operation
requires it and ensures it again, on failure too. `Evolves(a, b)` says that every mount of `b` whose revision was
issued before `a` was already a mount of `a`; every operation ensures it, and it composes over runs. The session keeps
its history as the plain list of `OperationLog.Log`; the ring buffer class is proved to behave as that list.

The assumptions on the environment are: a driver mount that names a drive names one that no row and no other volume of
the session is on; one that names no drive is counted in `misreports` and refused; an unmount that throws leaves the
volume up; an answer that no volume is on a drive is true; a derived key is determined by its input, and different
inputs give different keys; an index write replaces the whole index or leaves it; a creation call for a folder fails
if the folder exists; a failed creation of a file leaves no file; a helper writes to the partition only after the
consent callback returned true. What a monitor reports is arbitrary. Calls to the index that fail are counted in
`faults`, so that a contract can say what happens when none does.

## What the code does not do

These are stated as they are, each with the exact condition:

- A selection is checked for overlap on the directory text, and one separator at the end of a directory is accepted:
  `docs` and `docs/` then name the same folder but do not overlap (`ExportPlan.TestSees`).
- The page can hold an entry inside another one after a folder was ticked as a file, which happens when the file
  manager hands over a name it does not list (`ExportPage.ActionKeepsAntichain`).
- The saved order does not come back for a container at a fixed path whose record is spelled in other letter case:
  both spellings get a row (`SessionLogin.SavedOrderReturns`).
- Deferring is visible exactly when an event finds its row under another name than it would without deferral, or
  logging is switched off before settling and what was held back is lost (`SessionNaming.HistoriesAgreeExactly`). Rows
  go by other names once a path is noted that without deferral is recorded by then under a name other than the one its
  row shows - from earlier, or by an earlier mount of the same run (`SessionNaming.RecordedNameIsMissed`,
  `SessionNaming.UnrecordedNameIsKept`) - or once a renaming succeeds in one of the two runs only, because the index
  is full in the other or a write is refused that only the other needs (`SessionNaming.NamesAgreeExactly`).
- Undoing a creation also forgets a record the same path had before it (`Session.SessionCore.CreateAndUndo`).
- A mount reported gone that is still up is given up, and its volume belongs to nobody
  (`MountMonitor.ReconcileOne`).
- Deleting a container file that has no folder of its own deletes the file and then fails, and the row stays
  (`SessionDeletion.DeleteFromDisk`).
- A removal with nothing mounted does not release the retained secrets: the release is part of the forced unmount
  (`CardLifecycle.RemovalAndSecrets`).
- A hidden size can be rounded down to zero and is used nevertheless (`TailScan.AcceptedSizeMayBeZero`).
- A full activation record loses the entry of its smallest card even when the installation that needed the room cannot
  be written (`ActivationStore.Store.Install`).
- The bound on conversion runs holds per record: forgetting a partition and converting it again starts anew
  (`WriteAhead.RunsConsumeOpenings`).

## Model

| member | source | states |
|---|---|---|
| `SessionRuns.Run` | src/application/card_login_mount_session.cpp:1399-4086 | Over any sequence of session operations, logins, ends of an authentication and changes of settings among them, with any environment outcome: identifiers, files, partitions and mounted letters stay pairwise distinct; every volume the session mounted is on the letter of a mounted row, but for a volume whose type query failed right after its mount or whose mount was given up on a wrong report, and then only until the drive is mounted anew; every index and partition write obeyed the write-ahead protocol; per partition, accepted conversions are at most 1 + durable pauses + removals of its record |
| `SessionRuns.LateObservation` | src/application/card_login_mount_session.cpp:3894-3933 | An observation of targets taken from an earlier list, delivered after any runs that led over some list in between to this one: every row that was not mounted in the list in between stays as it is, even if it is mounted again on the same letter |
| `SessionRuns.UnfinishedStaysDown` | src/application/card_login_mount_session.cpp:3042-3042 | A partition whose durable record is uncertain or paused is refused by an ordinary mount, with nothing changed and no key offered to the driver |
| `SessionRuns.Step` | src/application/card_login_mount_session.cpp:2242-4086 | Every single operation keeps the session invariant and never revives a mount that had been released |
| `ContainerTable.MountKeepsTable` | src/application/card_login_mount_session.cpp:1436-1448 | Mounting a free row on a letter no row holds keeps all distinctness, adds exactly that letter, and gives the mount a revision no other mount has |
| `ContainerTable.ReleaseKeepsTable` | src/application/card_login_mount_session.cpp:1460-1467 | Releasing a mount keeps all distinctness, takes away exactly its letter, and its watch is gone from the list |
| `ContainerTable.EraseKeepsTable` | src/application/card_login_mount_session.cpp:3390-3416 | Dropping an unmounted row loses no mounted letter and keeps all distinctness |
| `ContainerTable.InsertKeepsTable` | src/application/card_login_mount_session.cpp:1400-1428 | A fresh row for a target not yet listed may go anywhere: distinctness and mounts are unchanged |
| `ContainerTable.OldWatchMeansSameMount` | src/application/card_login_mount_session.cpp:1436-1467 | Between two states of the list, a watch taken in the first answers to a row of the second exactly when that row's mount was already up in the first |
| `ContainerTable.FindsOwnId` | src/application/card_login_mount_session.cpp:1365-1372 | Looking a row up by its own identifier finds that very row |
| `Session.SessionCore.constructor` | src/application/card_login_mount_session.cpp:1497-1505 | A new session lists nothing, numbers its rows from 1 and satisfies the invariant |
| `Session.SessionCore.SwitchLogging` | src/application/card_login_mount_session_internal.h:488-491 | Logging is as asked once the setting is saved; nothing recorded or held back is lost |
| `Session.SessionCore.SwitchRemembering` | src/application/card_login_mount_session.cpp:1816-1824 | Remembering is as asked once the setting is saved; no record goes with it |
| `Session.SessionCore.HiddenPassword` | src/application/card_login_mount_session.cpp:1656-1678 | The login key is derived from the retained login password, at most once per login |
| `Session.SessionCore.ReserveLetter` | src/application/card_login_mount_session.cpp:1960-1981 | An accepted letter is A-Z and held by no mounted row |
| `Session.SessionCore.MountVolume` | src/application/card_login_mount_session.cpp:1380-1386 | A driver mount counts only when it names a drive; then exactly that volume is added, and what was once left behind on that drive no longer counts |
| `Session.SessionCore.CaptureWatch` | src/application/card_login_mount_session.cpp:1436-1448 | Every mount gets a watch of its own container and letter with a fresh revision, whether or not the driver can be asked; a known identity is taken over |
| `ContainerTable.WatchOf` | src/application/card_login_mount_session.cpp:1436-1448 | A watch carries the whole identity the driver gave for this letter, or none of it |
| `Session.SessionCore.AttachMount` | src/application/card_login_mount_session.cpp:1399-1448 | The row takes over the volume just mounted; no other row changes |
| `Session.SessionCore.Unmount` | src/application/card_login_mount_session.cpp:3264-3304 | On success the row is released, its volume gone and one succeeded event recorded; on failure row and volume stay and one failed event is recorded; an unknown id changes nothing |
| `Session.SessionCore.MountProbed` | src/application/card_login_mount_session.cpp:1905-1958 | The driver is offered the standard key first and the login key only after it; the answer says which one opened; a volume is added exactly on success |
| `Session.SessionCore.MountListedFile` | src/application/card_login_mount_session.cpp:3095-3161 | A listed file is mounted only if it is there; when its derivation is known only that key is offered, otherwise the two in order |
| `Session.SessionCore.MountListedPartition` | src/application/card_login_mount_session.cpp:3043-3094 | When its derivation is known only that key is offered, otherwise the two in order; the answer says which one opened |
| `Session.SessionCore.MountAdopted` | src/application/card_login_mount_session.cpp:3026-3161 | Exact effect on row, volumes and history for every outcome, the row marked with the key that opened it; refused without authentication, for an unknown id and for an unfinished conversion, with no driver call; nothing to do for a mounted row |
| `Session.SessionCore.MountContainer` | src/application/card_login_mount_session.cpp:3163-3208 | A path not mounted yet gets its one row, in front if new, one volume, and one event under the name the row shows once the path is noted; the row is marked as hidden if it was so before or the login key opened it, and the key offered last is the one that opened it; no other row changes; a refusal leaves at most one failed event and changes nothing else |
| `Session.SessionCore.AdoptContainer` | src/application/card_login_mount_session.cpp:3210-3234 | Listing is idempotent per path; a new row goes in front of an unchanged list; while records are deferred it shows its file name, otherwise the recorded name if there is one and it can be read |
| `Session.SessionCore.Forget` | src/application/card_login_mount_session.cpp:3390-3416 | Drops only an unmounted row; a partition goes only together with its record; a file always goes, and its record with it unless a call to the index failed |
| `Session.SessionCore.RememberPath` | src/application/card_login_mount_session.cpp:1685-1733 | While records are deferred the path is noted and nothing else changes. Otherwise, if paths are remembered and no call to the index failed: an unrecorded path gets one record with the name in front, unless the index is full, and the row of a recorded one shows the recorded name |
| `Session.SessionCore.ForgetPath` | src/application/card_login_mount_session.cpp:1735-1750 | The record of the path is removed exactly when no call to the index failed |
| `Session.SessionCore.BuildAndPublish` | src/application/card_login_mount_session.cpp:2274-2300 | On failure nothing is published and the flags tell exactly which file and folder this creation owns; on success the keys are those of the kind |
| `Session.SessionCore.AbandonUnpublished` | src/application/card_login_mount_session.cpp:1335-1354 | The staging file and the folder go; an error of the removal of the file is reported with the first error, one of the folder is not |
| `Session.SessionCore.TryToPublish` | src/application/card_login_mount_session.cpp:2274-2357 | Published with its folder and no event yet, or one failed event and nothing left but what could not be removed |
| `Session.SessionCore.ListPublished` | src/application/card_login_mount_session.cpp:2302-2311 | A published file is listed in front before the mount is tried, under its display name while records are deferred, otherwise under the recorded one if there is one and it can be read |
| `Session.SessionCore.MountNewest` | src/application/card_login_mount_session.cpp:2313-2350 | Exactly one mounted event, successful exactly when the row is mounted, and then with the given key offered last |
| `Session.SessionCore.CreateContainer` | src/application/card_login_mount_session.cpp:2242-2522 | Publish or nothing, for both kinds of file container and a failure at any step: before publication no file, row or success remains except a refused removal, reported with the original error; after it the row is first in the list, with one created event and one mounted event that is successful exactly when the row is mounted, the key offered last being the one of its kind; a container the maintenance password opens becomes a candidate |
| `Session.SessionCore.DiscardNew` | src/application/card_login_mount_session.cpp:3785-3803 | On success file, folder, row and deferred path are gone, the record unless a call to the index failed, and the log is that of a container taken down; a failure leaves the row on its volume, or free of it, or nothing changed, with the events that say so, and the index as it was |
| `Session.SessionCore.DeferOperations` | src/application/card_login_mount_session.cpp:3733-3739 | Deferring starts with nothing held back and cannot be nested |
| `Session.SessionCore.SettleOperations` | src/application/card_login_mount_session.cpp:3741-3758 | The log is settled. Kept paths are noted one after the other in the order they were held, all of them looked up and written if no call to the index fails and paths are remembered; without keep neither list nor index changes |
| `Session.NotedPathsAreKnown` | src/application/card_login_mount_session.cpp:3741-3758 | After that every kept path has a record, unless the index is full, and no record is lost |
| `Session.SessionCore.CreateAndUndo` | src/application/card_login_mount_session.cpp:2242-3803 | Defer, create, discard, settle without keep: the list, the files, the folders and the history are exactly as before; the index has lost the record the path had before, so it is as before exactly when there was none or a call to the index failed |
| `Session.CreationIsUndone` | src/application/card_login_mount_session.cpp:3741-3803 | Every event a creation and its undoing recorded while deferring bears the discarded name and is dropped |
| `OperationLog.OperationHistory.Record` | src/application/card_login_mount_session.cpp:1507-1551 | The ring records what the plain log records |
| `OperationLog.OperationHistory.History` | src/application/card_login_mount_session.cpp:1553-1562 | The history is the last min(n, N) events since the last clear, oldest first, consecutively numbered |
| `OperationLog.OperationHistory.Clear` | src/application/card_login_mount_session.cpp:1564-1576 | Clearing empties the log, blanks every slot and restarts the numbering |
| `OperationLog.OperationHistory.Settle` | src/application/card_login_mount_session.cpp:3741-3758 | Settling the ring records exactly what settling the plain log records |
| `OperationLog.TailAdvances` | src/application/card_login_mount_session.cpp:1534-1545 | Writing over the oldest slot of a full ring, or the next free one, keeps the ring equal to the tail of the plain list |
| `OperationLog.HeldIsWhatWouldBeRecorded` | src/application/card_login_mount_session.cpp:1507-1545 | For a given list of events: while deferring, exactly the events that would have been recorded are held back, in order |
| `OperationLog.DeferralIsInvisible` | src/application/card_login_mount_session.cpp:3733-3758 | For a given list of events: deferring and keeping gives the same log as not deferring, exactly when logging is on at the end or nothing was held back |
| `OperationLog.UndoingKeepsTheRest` | src/application/card_login_mount_session.cpp:3741-3758 | For a given list of events: without keep exactly those bearing a discarded name are dropped; all others stay in order |
| `SessionNaming.NamesAgreeExactly` | src/application/card_login_mount_session.cpp:1683-1733 | Over any run of things that touch names, records or history, each done to the index of the run it happens in: every row goes by the same name with and without deferral, at every moment, exactly when no path is noted that without deferral is recorded by then under a name other than the one its row shows (unless nothing is remembered or the index cannot be read), and no renaming that changes what a row shows succeeds in one of the two runs only |
| `SessionNaming.OnlyAFullIndexMatters` | src/application/card_login_mount_session.cpp:3346-3357 | A renaming whose write is not refused succeeds in one of the two runs only if an index is full |
| `SessionNaming.HistoriesAgreeExactly` | src/application/card_login_mount_session.cpp:3733-3758 | Over any such run: deferring and keeping gives the history that would have been recorded otherwise, exactly when every event told while logging was on finds its row under the same name in both runs, and logging is on at the end or nothing was held back |
| `SessionNaming.HarmlessDeferral` | src/application/card_login_mount_session.cpp:1507-1551 | Without such a note or renaming every event finds its row under the same name, and deferring and keeping gives the history that would have been recorded otherwise, exactly when logging is on at the end or nothing was held back |
| `SessionNaming.DeferralShowsExactly` | src/application/card_login_mount_session.cpp:3163-3191 | With every such note followed by the event of its mount while logging is on, as a mount by path does, and no such renaming: every event finds its row under the same name exactly when there is no such note, and the kept history is the one without deferral exactly when, besides, logging is on at the end or nothing was held back |
| `SessionNaming.KeptDeferral` | src/application/card_login_mount_session.cpp:3733-3758 | The same for the session: defer, any mounts, unmounts, listings, creations, removals, discards, renamings and switches of logging or remembering with any outcome, keep. The kept history is that of the same deeds without deferral, the same answers of the environment, and paths noted in an index that can be read and written, exactly when every event told while logging was on finds its row under the same name in both runs, and logging is on at the end or nothing was held back; with logging on, no renaming and no notes but those of mounts, exactly when no such note was made. A discard asks whether its row has a name of its own, and both runs are to answer alike |
| `SessionNaming.Do` | src/application/card_login_mount_session.cpp:2242-3803 | Each of these calls does to names, index, held paths and history exactly what the deeds it returns do, and these are of the kind the call makes |
| `SessionNaming.MountIsDeeds` | src/application/card_login_mount_session.cpp:3163-3191 | A mount by path lists the path if it is new, notes it, and tells the mount under the name the row then shows |
| `SessionNaming.RecordedNameIsMissed` | src/application/card_login_mount_session.cpp:1703-1713 | A file recorded under a name of its own: mounted while records are deferred, the event bears the file name, otherwise the recorded one |
| `SessionNaming.UnrecordedNameIsKept` | src/application/card_login_mount_session.cpp:1703-1713 | A listed file whose name could not be recorded, mounted, taken down and mounted again, with another file forgotten in between: deferred, both mounts bear the name; otherwise the first writes the path down without a name, and the second bears the file name |
| `ContainerIndex.PrependEffect` | src/application/container_index_view_v1.cpp:335-346 | A prepended record changes the state of its own partition only and keeps every record unique |
| `ContainerIndex.SetStateEffect` | src/application/container_index_view_v1.cpp:354-373 | Setting a state changes that partition's state and no other |
| `ContainerIndex.WithoutEffect` | src/application/container_index_view_v1.cpp:503-539 | Removing a record removes that record only |
| `ContainerIndex.ReorderedRecords` | src/application/container_index_view_v1.cpp:248-291 | Reordering is a permutation of the records that ranks the named ones in the given order and keeps every conversion state |
| `ContainerIndex.NumberingIsFresh` | src/application/container_index_view_v1.cpp:451-476 | Numbering leaves no partition without a number, changes nothing but missing numbers, and gives each a number that no other partition has |
| `ContainerIndex.FreeNumber` | src/application/container_index_view_v1.cpp:150-163 | The number taken is the smallest free one |
| `WriteAhead.CrashFindsTheReport` | src/application/card_login_mount_session.cpp:2053-2079 | Wherever a run is cut off after a conversion write, while the record is not removed: the index found then still has the partition, and says finished, or paused, only if the helper reported so after that write |
| `WriteAhead.WritesFollowTheRecord` | src/application/card_login_mount_session.cpp:2053-2059 | The last index written before a conversion write (or the one found at the start) records the partition as uncertain, and the last one before a destructive write records it as a container |
| `WriteAhead.RunsConsumeOpenings` | src/application/card_login_mount_session.cpp:2033-2059 | Every accepted run of a partition uses up its first record, a durable pause or a removal |
| `WriteAhead.AcceptedRunsAreBounded` | src/application/card_login_mount_session.cpp:2033-2063 | While the record is not removed, accepted runs are at most one more than durable pauses |
| `WriteAhead.RecordFollowsReport` | src/application/card_login_mount_session.cpp:2053-2064 | After consent the record is normal only after a completion report, paused only after a pause report, and uncertain while nothing was reported |
| `WriteAhead.UnreportedWriteStaysUncertain` | src/application/card_login_mount_session.cpp:2053-2079 | After a conversion write with no report behind it the record stays uncertain while it is not removed, wherever the run was cut off |
| `SessionPartitions.ConsentToErase` | src/application/card_login_mount_session.cpp:2111-2119 | The record is written before consent is given; an index that cannot be written refuses it |
| `SessionPartitions.RunFormat` | src/application/card_login_mount_session.cpp:2208-2237 | However the helper behaves, a destructive write comes after the record, and only after consent |
| `SessionPartitions.CreatePartition` | src/application/card_login_mount_session.cpp:2081-2168 | Erase-creation is write-ahead: if nothing was recorded nothing was written and the list is as before; if the record was written the row stays, in front, whatever failed later, and the trace is the record followed by destructive writes only |
| `SessionPartitions.MountWritten` | src/application/card_login_mount_session.cpp:2151-2159 | A volume mounted while the card left is taken down again or stays on its row |
| `SessionPartitions.AdoptPartition` | src/application/card_login_mount_session.cpp:1469-1493 | A partition is listed in front under its recorded number, or under a session number no recorded one shares |
| `SessionConversion.PlanChange` | src/application/card_login_mount_session.cpp:2025-2043 | Only a change the protocol allows is planned; a resumed run finds its durable pause or is refused |
| `SessionConversion.Persist` | src/application/card_login_mount_session.cpp:2025-2052 | The index and the row change together or not at all; the row shows the recorded number |
| `SessionConversion.AskConsent` | src/application/card_login_mount_session.cpp:2054-2059 | Consent is granted only after it has become durable |
| `SessionConversion.RunHelper` | src/application/card_login_mount_session.cpp:2053-2062 | For any behaviour of the helper: nothing is encrypted without durable consent, and a normal return is the report the record will follow |
| `SessionConversion.RecordOutcome` | src/application/card_login_mount_session.cpp:2063-2063 | The record becomes normal or paused only as the helper reported, or stays uncertain |
| `SessionConversion.BeginConversion` | src/application/card_login_mount_session.cpp:1983-2079 | Without durable consent the session and the disk are as before; with it the row stays in front, agrees with the record whatever fails next, and is mounted only when normal |
| `SessionConversion.ResumeConversion` | src/application/card_login_mount_session.cpp:1987-2079 | Accepted only for an unmounted row that was paused; changes only that row, which agrees with the record |
| `SessionMaintenance.MountOuter` | src/application/card_login_mount_session.cpp:2547-2659 | The row ends up with the proven outer volume, free, owning the wrong volume that would not leave, or as it was if its own volume would not leave; a volume is left to no row only if its type could not be queried; history exact for every end; the volume was opened with the given key |
| `SessionMaintenance.JudgeVolume` | src/application/card_login_mount_session.cpp:2598-2647 | Type and identity decide; a volume that must not stay leaves or is owned by its row |
| `SessionMaintenance.RejectVolume` | src/application/card_login_mount_session.cpp:2604-2618 | A refused release leaves the volume on its row, with nothing else established about it |
| `SessionMaintenance.Trial` | src/application/card_login_mount_session.cpp:2747-2763 | A trial that succeeds leaves the container unmounted; the history gains at most the unmount of the container for the trial, or its refusal |
| `SessionMaintenance.SurveyMaintenance` | src/application/card_login_mount_session.cpp:2711-2789 | Each row up to where the walk stopped is judged on its own and all others are untouched; the candidates are exactly the containers that opened, and the key of the given password is kept exactly when there are any |
| `SessionMaintenance.VerifyMaintenance` | src/application/card_login_mount_session.cpp:2963-2992 | Answers whether the password opens the container, with nothing left up on a yes; a yes was given to that password; an error leaves every other row as it was, and this one as it was, free, or on the volume that came up |
| `SessionMaintenance.OpenMaintenance` | src/application/card_login_mount_session.cpp:2661-2700 | Reopening an open container changes nothing; another password is refused while some other container is open with the current one; on success the row is the proven outer volume, opened with the key the session then works with; a failure changes at most this row, which is as it was, free, or on the volume that came up, and keeps the session's key |
| `SessionMaintenance.OpenSurveyed` | src/application/card_login_mount_session.cpp:2925-2953 | The same with the surveyed password, which must exist |
| `SessionMaintenance.EndMaintenance` | src/application/card_login_mount_session.cpp:2847-2864 | Ends by the ordinary unmount of a volume open for maintenance, or changes no row |
| `SessionRelease.ForceUnmountActive` | src/application/card_login_mount_session.cpp:4051-4086 | Every mounted row is asked exactly once, hidden-volume containers before all others, no refusal stopping the rest; secrets and history are gone; the rows still mounted are exactly the refused ones, and a failure is reported exactly then |
| `SessionRelease.ForcePass` | src/application/card_login_mount_session.cpp:4062-4079 | One pass asks the rows of its kind in list order and releases exactly those whose volume left |
| `SessionRelease.RowDecided` | src/application/card_login_mount_session.cpp:4062-4079 | Over both passes a mounted row is asked exactly once, in its own pass |
| `SessionRelease.RefusalsShow` | src/application/card_login_mount_session.cpp:4070-4085 | Something is still mounted exactly when something was refused |
| `SessionRelease.EachLetterOnce` | src/application/card_login_mount_session.cpp:4062-4066 | A pass never asks about a letter twice |
| `SessionRelease.ForgetSecrets` | src/application/card_login_mount_session.cpp:3012-3024 | All retained secrets and all maintenance identities are dropped; no mount is touched |
| `SessionRelease.UnmountActive` | src/application/card_login_mount_session.cpp:3254-4049 | Both passes in order up to the first failure; rows behind it are as before; one succeeded event for every row released, in that order, and one failed event for the failure; no failure exactly when nothing is mounted afterwards |
| `MountMonitor.ReconcileMounts` | src/application/card_login_mount_session.cpp:3901-3933 | A mount reported gone is given up, one on a lost medium may be, no other mount is touched, whether the monitor is right or not; a volume is lost to the session only if it was wrongly reported gone; unpaired input changes nothing; the answer is whether a row changed |
| `MountMonitor.ReconcileOne` | src/application/card_login_mount_session.cpp:3907-3931 | One observation can affect only the mount whose whole watch it carries; its volume is lost to the session exactly when it was reported gone and is still up |
| `MountMonitor.RemountsAreSpared` | src/application/card_login_mount_session.cpp:3914-3914 | A container that was unmounted at some moment since the targets were taken is never given up because of them |
| `MountMonitor.WatchTargets` | src/application/card_login_mount_session.cpp:3894-3899 | The targets are exactly the watches of mounted rows |
| `MountMonitor.ContainerStatuses` | src/application/card_login_mount_session.cpp:3935-3990 | A row is given up only if the driver truly has no volume on its letter; every line describes its row afterwards |
| `SessionOrder.FindPlaces` | src/application/card_login_mount_session.cpp:1755-1771 | The request is accepted exactly when it names every row once |
| `SessionOrder.SaveOrder` | src/application/card_login_mount_session.cpp:1772-1800 | The index ranks the named rows in this order and loses no record and no state, or is unchanged |
| `SessionOrder.ReorderContainers` | src/application/card_login_mount_session.cpp:1752-1810 | The list is the requested permutation, saved with it; on any failure list and index are as before |
| `Permutations.HitsEverything` | src/application/card_login_mount_session.cpp:1755-1769 | Naming as many different rows as there are names every row |
| `SessionLogin.AdoptDisks` | src/application/card_login_mount_session.cpp:1847-1856 | Partitions come in front, in saved order, each as its record says |
| `SessionLogin.SavedOrderIsStable` | src/application/card_login_mount_session.cpp:1878-1889 | The sort is a permutation by rank that keeps rows of equal rank in the order they had |
| `SessionLogin.SavedOrderReturns` | src/application/card_login_mount_session.cpp:1826-1902 | A saved order comes back at a login with everything there exactly when no row listed before goes by another spelling than its record |
| `SessionLogin.RespelledLayoutComesTwice` | src/application/card_login_mount_session.cpp:1600-1617 | A container at a fixed path whose record spells the path otherwise is listed twice, and the order does not come back |
| `SessionLogin.ReorderThenLogin` | src/application/card_login_mount_session.cpp:1752-1902 | Reordering, mounted or not, and, once all volumes are down, a fresh login: the list is in the requested order exactly when no container found at a fixed path is spelled otherwise than its record; the list of these is a function of the two paths and the files there |
| `SessionLogin.Login` | src/application/card_login_mount_session.cpp:1578-1631 | A login on an idle session authenticates, restarts the history with one event, mounts nothing and lists what is there: the containers found at fixed paths, and with them, when reading the index completes, missing recorded partitions and present recorded files, stably sorted by saved rank, with recorded names; broken off, the rows listed before stand together as they were. Otherwise nothing changes |
| `SessionLogin.CompleteInitialization` | src/application/card_login_mount_session.cpp:2994-3005 | After initialization the password is handed over exactly to a fresh authenticated session, whose history restarts with one event; otherwise nothing changes |
| `SessionLogin.AdoptLayout` | src/application/card_login_mount_session.cpp:1600-1617 | A layout container is listed once, only when its file is there, and marked with the key it is opened with |
| `SessionDeletion.DeleteFromDisk` | src/application/card_login_mount_session.cpp:3760-3783 | Success exactly when the file was there, is gone and had a folder of its own; a file deleted without such a folder stays listed |
| `SessionDeletion.RootFileHasNoFolder` | src/application/card_login_mount_session.cpp:1322-1328 | A file at a drive root is such a file |
| `SessionDeletion.RenameContainer` | src/application/card_login_mount_session.cpp:3331-3365 | The name is shown and recorded together or nothing changes, with the exact index: the name goes into the record of the container, or of a file that gets one at the end; a renaming that may reach the index succeeds exactly when there is such a record or room for it, and the write, if one is needed, is not refused |
| `SessionDeletion.NamedWhenRoom` | src/application/card_login_mount_session.cpp:3349-3357 | A name can be recorded exactly when the container has a record or is a file and the index is not full |
| `CardAuthentication.Authentication.Establish` | src/application/card_authentication_session.cpp:11-29 | Accepts one root of the right size when none is held, and counts up; otherwise changes nothing |
| `CardAuthentication.Authentication.Clear` | src/application/card_authentication_session.cpp:31-33 | Clearing ends the authentication |
| `CardLifecycle.PresenceController.HandleArrival` | src/application/card_presence_controller.cpp:10-16 | Only the first arrival counts |
| `CardLifecycle.PresenceController.HandleRemoval` | src/application/card_presence_controller.cpp:18-38 | Reports that a session remains exactly when a row is still mounted; asks every mounted row; nothing mounted means nothing changed |
| `CardLifecycle.RemovalAndSecrets` | src/application/card_presence_controller.cpp:18-38 | The login secret outlives a removal exactly when nothing was mounted |
| `CardLifecycle.DeviceLifecycle.HandleArrival` | src/application/card_device_lifecycle_controller.cpp:13-31 | An arriving card starts unauthenticated with a fresh reading; a second arrival changes nothing |
| `CardLifecycle.DeviceLifecycle.HandleUninspectedArrival` | src/application/card_device_lifecycle_controller.cpp:33-42 | An unread arrival leaves no authentication and no insertion |
| `CardLifecycle.DeviceLifecycle.HandleRemoval` | src/application/card_device_lifecycle_controller.cpp:44-54 | After a removal nothing is authenticated, no insertion and no reset is held; unless a session remains, no volume the session accounts for is up |
| `CardEntry.RouteOf` | src/application/card_entry_router.cpp:7-46 | Login is offered exactly for an initialized record, initialization exactly for an empty or provisioned card |
| `CardEntry.ResetsUsePrepares` | src/application/card_entry_context_controller.cpp:302-352 | Over any run the login-page resets are at most the successful preparations |
| `CardEntry.ResetFollowsItsPrepare` | src/application/card_entry_context_controller.cpp:336-352 | A reset directly follows the preparation of its own ticket and writes over that reading |
| `CardEntry.NoTicketTwice` | src/application/card_entry_context_controller.cpp:336-352 | No ticket is carried out twice |
| `CardEntry.EntryController.constructor` | src/application/card_entry_context_controller.cpp:40-42 | A new controller holds no insertion and no reset |
| `CardEntry.EntryController.CancelLoginReset` | src/application/card_entry_context_controller.cpp:330-334 | No reset is held afterwards, and the run records the interruption |
| `CardEntry.EntryController.HandleArrival` | src/application/card_entry_context_controller.cpp:44-65 | Any earlier insertion and held reset are dropped; the route is that of the card read, or unavailable |
| `CardEntry.EntryController.HandleRemoval` | src/application/card_entry_context_controller.cpp:67-72 | No insertion, route or held reset is left |
| `CardEntry.EntryController.InitializeAndAuthenticate` | src/application/card_entry_context_controller.cpp:74-104 | Needs a fresh card to initialize; past the guard it interrupts; at most one write to the card, and then the insertion is used up |
| `CardEntry.EntryController.SetSecondPassword` | src/application/card_entry_context_controller.cpp:106-153 | Past its guard it interrupts; at most one write, over an initialized record, and then the insertion is used up |
| `CardEntry.EntryController.ResetCardRecord` | src/application/card_entry_context_controller.cpp:155-212 | Needs an authenticated session; past the guard it interrupts; at most one reset, over an initialized reading, and then the insertion is used up |
| `CardEntry.EntryController.AuthenticateLogin` | src/application/card_entry_context_controller.cpp:214-285 | Writes nothing to the card; a root leaves only from a record that read as initialized and then the same once more, with the insertion used up; a refused password keeps it; past the guard it interrupts |
| `CardEntry.EntryController.PrepareLoginReset` | src/application/card_entry_context_controller.cpp:296-328 | A held reset is of the card in the reader on a route that offers it, bound to a reading of the expected state, under a new ticket; failure past the guard ends the insertion |
| `CardEntry.EntryController.ConfirmLoginReset` | src/application/card_entry_context_controller.cpp:336-352 | Writes the held reset once, over the reading it was prepared on, and ends the insertion; a wrong ticket drops it and writes nothing |
| `CardRecheck.RecheckPolicy.Observe` | src/application/card_identity_recheck.cpp:5-25 | The verdict is the meaning of the answer given the last judged one; busy neither confirms nor clears |
| `CardRecheck.RecheckSchedule.StartDue` | src/application/card_identity_recheck.cpp:33-50 | Starts exactly when none is under way, the session is eligible and the time has come |
| `CardRecheck.RecheckSchedule.Finish` | src/application/card_identity_recheck.cpp:52-76 | Lost exactly when eligible, in the epoch of the start, and another card, refused credentials, or unreadable after an unreadable judged last |
| `CardRecheck.RecheckSchedule.Abandon` | src/application/card_identity_recheck.cpp:78-81 | Not under way any more; the next start is an interval away |
| `CardRecheck.SoundOneMore` | src/application/card_identity_recheck.cpp:33-81 | What an event needs for a run to keep all verdicts right, one check at a time, and starts spaced by min(interval, retry) |
| `CardRecheck.UnreadableIsRetriedFirst` | src/application/card_identity_recheck.cpp:5-24 | In every run a loss by an unreadable answer was preceded by a retried unreadable answer with nothing learned in between |
| `ActivationStore.SavedRecordLoads` | src/application/activation_store_v1.cpp:194-206 | What is printed reads back: the same entries, and the same mark when it is positive |
| `ActivationStore.LoadedEntriesAreProven` | src/application/activation_store_v1.cpp:137-170 | Whatever the file contains, only verified single-line codes under their own cards are taken, at most 64 |
| `ActivationStore.Store.LoadOnce` | src/application/activation_store_v1.cpp:137-170 | Loads what the file says into a fresh store, once; an unreadable file changes nothing |
| `ActivationStore.Store.ReadRecord` | src/application/activation_store_v1.cpp:146-169 | The line loop ends where reading the text line by line ends |
| `ActivationStore.Store.Save` | src/application/activation_store_v1.cpp:194-206 | The file becomes the printed record and the saved mark the mark, or neither changes |
| `ActivationStore.Store.Observe` | src/application/activation_store_v1.cpp:172-192 | Once loaded the mark only rises and stays less than 60 above the saved mark; before that no file is written |
| `ActivationStore.Store.StateOf` | src/application/activation_store_v1.cpp:208-221 | Active only within ten minutes of every clock reading taken since the load |
| `ActivationStore.Store.Install` | src/application/activation_store_v1.cpp:236-276 | The exact entries after every outcome, relative to those held or, when this call is the first to read the file, to those of the file; accepted means verified, for this card, active now and saved; a failure that got as far as the record leaves its entries as they were found exactly unless the record could not be written and was full without this card |
| `ActivationStore.RestartKeepsRecord` | src/application/activation_store_v1.cpp:137-206 | A new process reads what the last one saved |
| `Decimal.DigitsParse` | src/application/activation_store_v1.cpp:153-162 | Decimal digits read back as their number |
| `VolumePaths.AtOrUnderIsPrefix` | src/application/card_login_mount_session.cpp:3586-3591 | Equal or continued after a separator, as strings, is the prefix order of names |
| `ExportPlan.ContainsIsPrefix` | src/application/card_login_mount_session.cpp:3586-3591 | The overlap test without letter case is the prefix order of folded names |
| `ExportPlan.TestIsExact` | src/application/card_login_mount_session.cpp:3580-3595 | Two entries whose directories do not end in a separator are refused exactly when one is or contains the other |
| `ExportPlan.TestSees` | src/application/card_login_mount_session.cpp:3579-3595 | However the directories are spelled, two entries are refused exactly when one is or contains the other and, at one place, both directories or neither ends in a separator, at two places, the outer one's does not |
| `ExportPlan.TestIsReliable` | src/application/card_login_mount_session.cpp:3579-3595 | The test is right about an entry, whatever entry without a separator at the end of its directory it is compared with, exactly when the entry's own directory does not end in one |
| `ExportPlan.OnlyRootEntriesAreSafe` | src/application/card_login_mount_session.cpp:3579-3595 | The test is right about an entry, whatever it is compared with, exactly when the entry lies in the root of its volume |
| `ExportPlan.TrailingSeparatorSlips` | src/volume/volume_entry_path.cpp:101-114 | With one, the same entry spelled without it is missed |
| `ExportPlan.SameFileAcceptedTwice` | src/application/card_login_mount_session.cpp:3579-3595 | A concrete accepted selection that publishes one file twice |
| `ExportPlan.NothingPublishedTwice` | src/application/card_login_mount_session.cpp:3580-3583 | In an accepted selection of such entries every file leaves with at most one entry |
| `ExportPlan.PlanEntries` | src/application/card_login_mount_session.cpp:3573-3598 | Accepted exactly when every entry can be exported and no two overlap; the sources are their locations |
| `ExportPlan.PlanSelectionExport` | src/application/card_login_mount_session.cpp:3556-3600 | Accepted exactly under the listed conditions, and never into a mounted container |
| `ExportPage.CoveredBy` | ui/card_session.js:2507-2514 | Says exactly whether a ticked folder at or above the directory carries it |
| `ExportPage.InsideIsBelow` | ui/card_session.js:2516-2521 | The test by text finds exactly what lies strictly below |
| `ExportPage.CoverAndClearAreDual` | ui/card_session.js:2507-2521 | An entry looks up to a folder exactly when clearing that folder meets the entry |
| `ExportPage.ActionKeepsAntichain` | ui/card_session.js:2822-2922 | After an action nothing ticked lies under anything ticked, exactly when it does not tick, as a file, something with ticked entries inside |
| `ExportPage.RunKeepsAntichain` | ui/card_session.js:2822-2922 | Over any run, nothing ticked lies under anything ticked at any moment, exactly when no action of the run ticks, as a file, something with ticked entries inside |
| `ExportPage.UnknownFolderBreaksAntichain` | ui/card_session.js:2900-2922 | A concrete run that breaks it: a folder handed over by a file manager that does not list it |
| `ExportPage.PageSelectionPasses` | src/application/card_login_mount_session.cpp:3580-3595 | With names unique up to letter case, the session's overlap test accepts whatever the page holds |
| `ExportPage.KeyTextIsInjective` | ui/card_session.js:1924-1925 | No two entries share a key text |
| `ExportPage.Page.Toggle` | ui/card_session.js:2822-2842 | Does the specified action to the selection |
| `ExportPage.Page.Offer` | ui/card_session.js:2900-2922 | Does the specified action to the selection |
| `ExportPage.Page.TickContainer` | ui/card_session.js:2861-2896 | Replaces what is ticked of one container by its root |
| `ExportPage.Page.UntickContainer` | ui/card_session.js:2853-2860 | Unticks everything of one container and nothing else |
| `ExportPage.Page.ClearInside` | ui/card_session.js:2516-2521 | Unticks exactly what the text test finds |
| `DragOrder.ContainerList.OrderedContainers` | ui/card_session.js:2153-2169 | Remembered containers first as they were put, the others as adopted: always a rearrangement |
| `DragOrder.CompleteOrderIsFollowed` | ui/card_session.js:2153-2169 | A complete order is followed to the letter |
| `DragOrder.LandsInGap` | ui/card_session.js:2402-2406 | The dragged row lands in the gap; what was above stays above, what was below below |
| `DragOrder.ContainerList.Dropped` | ui/card_session.js:2396-2414 | The result is a rearrangement in which hidden rows keep their places and other shown rows their order |
| `DragOrder.ContainerList.Remember` | ui/card_session.js:2204-2234 | A refused order is taken back exactly; an accepted one is shown |
| `DragOrder.ScatteredIsRearranged` | ui/card_session.js:2409-2411 | Rearranging the shown rows rearranges the whole list |
| `DragOrder.SessionAccepts` | src/application/card_login_mount_session.cpp:1755-1769 | Every order the page can send names each row exactly once |
| `TailScan.FreeSuffixIsLongest` | spike/spike3b_hidden.cpp:130-134 | No longer end of the bitmap is free |
| `TailScan.ScanTailFreeClusters` | spike/spike3b_hidden.cpp:102-139 | For every bitmap and every split into whole bytes the scan returns the length of the longest free end, or fails |
| `TailScan.ScanChunk` | spike/spike3b_hidden.cpp:125-134 | One chunk continues the count of the part before it |
| `TailScan.HiddenSize` | spike/spike3b_hidden.cpp:263-271 | The size is the largest whole number of clusters that leaves the end area and the reserve; refused exactly when nothing is left |
| `TailScan.AcceptedSizeMayBeZero` | spike/spike3b_hidden.cpp:267-271 | An accepted size is positive exactly when a whole cluster fits |
| `TailScan.ZeroSizeAccepted` | spike/spike3b_hidden.cpp:267-271 | A concrete tail that is accepted with size zero |
| `TailScan.MaximumHiddenVolume` | spike/spike3b_hidden.cpp:256-271 | Scan and size together |

## Left out

- Cryptography, key derivation, sealing, driver and system calls, the elevated helper's own protocol: environment contracts only; a derived key is represented by its input.
- The file format of the index (slots, padding, sealing of each record): it is an ordered list of records. A record added without a position comes last, where the source picks a random slot among the unordered ones.
- Letter case outside ASCII in path comparison, and the length limit of container paths.
- Exhaustion of 32- and 64-bit counters, allocation failure: identifiers, revisions, tickets, generations and sequence numbers are unbounded.
- Timestamps in history events, Explorer drive names, volume labels, tracing, progress numbers.
- Measuring and importing into a maintenance volume, file operations inside a mounted volume, single-entry and package exports: they change no session state except the recovery mark, which only a new maintenance mount clears here.
- `container_a_status` and the other plain getters: they would only add easy members.
- The contact book, rendering, dialogs and polling of the page. The order of the page's selection map, and reading a listing through the bridge: a listing is a parameter.
- The concurrency of card events with a running operation: they reach it as answers of the revocation queries, as in the source, and an authentication does not change during a call.
- The mutex and the poisoning of the clock in the activation store; verifying a code is a function of the code that ignores separators and letter case.
- SessionLogin.Login: does not say which of the recorded containers were found when the index or a file could not be read half-way, because the source keeps whatever it had found.
- SessionNaming.KeptDeferral: a discard looks at the folder of a file only if its row has a name of its own, and may fail there; a run in which only one of the two would look is left open. Volumes opened for maintenance, partitions, deletion from disk and reordering are not among its operations.
- CardEntry.EntryController.SetSecondPassword: models the rewriting service as a read of an initialized record and one write.
