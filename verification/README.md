# CloudSync: a verified model of the sync client's core

This project models the parts of the CloudSync client that are hard to get right, and proves what they
guarantee:

- **Metadata replication.** The `files` table is kept up to date from the provider's change feed. The
  provider is an append-only log; a cursor is a position in it. Every fallible call is one step of a
  machine, so an attempt may fail anywhere, pages may be cut anywhere, the remote may change and downloads
  may write local columns between any two steps. The loops of `MetadataSyncer` are methods of a class that
  are proved to perform runs of that machine.
- **On-demand downloads.** `ensure_downloaded` as an interleaving machine over any number of calls and
  sessions. The code itself is the setting without `waits`, `cleans` and `atomic`; the other settings are
  repairs.
- **Inodes and the FUSE view.** The persistent inode table with its restarts, `lookup`, `getattr` and
  `readdir`, and the path strings they rest on.
- **Queue and engine.** The priority queue as a multiset whose `pop` returns some first element, and the
  engine loops over it.
- **Token storage, migrations, message framing, path resolution.**

One module per file. Classes named after the source's own (`MetadataSyncer`, `InodeManager`,
`CloudSyncFS`, `Queue`, `Engine`, `SecureTokenStorage`, `Migrator`) have methods that update
fields in loops, each proved against functions; the other members are functions and lemmas about them.
`dafny verify dfyconfig.toml` checks the whole project.

Conventions: times, ids, listings, replies and failures are inputs. A failing call is chosen by a number
(`budget`, `failAt`), by an event (`Abort`, `Break`), or by a flag. A `trace`, `issued`, `seen`, `began` or
`marked` field records history and is never read by the modelled code.

Two choices in the download model: a cached file counts as complete once the call that last created it has
written everything, and every call of `ensure_downloaded` is a new call id, so a thread that calls again
is a new call.

## Where the code departs from its documentation

The model follows the code. Each case names the run that shows it and the condition under which the
documented behaviour does hold.

- `initial_sync` lists one page of what lies right below the root, lists before it takes the cursor, runs at
  every start, and replaces the saved cursor without removing rows. So a file in a subfolder is missing
  until the feed mentions it (`UnlistedFileIsLost`, `UnlistedFileStaysMissing`), a file created between listing and cursor is lost
  (`FileCreatedInTheGapIsLost`), and a file deleted while the client was stopped stays
  (`DeletionWhileStoppedIsLost`, `VanishedRowStays`). For any table and any listing the result tracks the
  provider if and only if each listed file is unchanged until the cursor is taken, each unlisted file the
  provider holds is already stored as it is, and each unlisted stored row is still held
  (`InitialSyncTracksIff`, with `FirstSyncTracksIff` and `RestartTracksIff` for the two usual starts).
- Repairs of `initial_sync`, each with its exact condition: taking the cursor first (`CursorFirstTracksIff`);
  also dropping unlisted rows within the part of the provider that the listing covers
  (`ReconcilingTracksIff`, `ReconcilingSyncTracks`; dropping them all would delete every row below a
  subfolder); and keeping a saved cursor, which is always enough for a restart (`KeptCursorTracks`).
- "Per-file locking prevents concurrent duplicate downloads" and "waits for completion": nobody waits, so
  two calls request the same file at once (`TwoRequestsInFlight`), both write it and a third gets the
  unfinished copy (`TwoDownloadsInFlight`); the leftover of a failed download, or of a process killed in the
  middle of one, is accepted later (`LeftoverIsAccepted`, `KilledCopyIsAccepted`). The exact conditions, over
  any number of sessions, are `OneCallAtATimeIff` and `EveryInterleavingIff`.
- A row can be left `Syncing` after its download has ended (`RefusedRowStaysSyncing`), if and only if the
  file is cloud-native (`NeverLeftSyncingIff`); over several sessions also if the process is killed
  (`KilledRowStaysSyncing`, `NeverStuckSyncingIff`).
- A copy removed from the cache directory is still promised: calls return the path of a file that is not
  there (`RemovedCopyIsStillPromised`), until the process restarts (`RestartForgetsThePromise`).
- A copy once cached is served for ever (`CachedCopyIsServed`), and its row stays `Synced`, also when the file
  has changed since (`StaleCopyLooksSynced`); it is the row's content if and only if the last change of the
  file, if any, has that content (`CopyIsCurrentIff`, `CopyIsCurrentAfterSyncIff`).
- `remove` of an unknown id empties the queue instead of only reporting it (`Queue.Remove`).
- Setting a token before the first read overwrites persisted tokens (`UnloadedSetLosesToken`), unless all of
  them cover the new scopes (`UnloadedSetKeepsIff`). With the fallback, either place can hide the other's
  newer token (`StaleKeyringWins`, `StaleFileWins`), and a write of the file that breaks off loses every
  token in it (`TornWriteLosesTokens`); the exact conditions are in `GetAfterSetAndReopen`. A `set` while a
  `get` is under way can be dropped from the cache (`RacingSetIsLost`, exactly when: `RacingSetIsKeptIff`) and
  then from the backend (`LostFromCacheIsLost`).
- `pending_migrations` promises ascending order but keeps list order; a list out of order runs a migration
  again (`OutOfOrderRunsAgain`), if and only if the last newer migration is not the newest
  (`RepeatIsNoOpIff`).
- Local columns written by a download are lost when a deletion of the file is replayed, although the file
  was created again before the write (`ReplayedDeletionResetsWrite`); they stay if and only if no deletion is
  applied after the write (`WriteSurvivesIff`, `WriteSurvivesAttemptIff`).
- A local component containing a backslash does not survive `resolve_local` (`LocalRoundTripIff`), nor does a
  provider slug that is not one path component survive `to_local` (`CloudRoundTripIff`, `SlashedSlugShares`).

## Model

| member | source | states |
|---|---|---|
| `ChangeReplay.LastChangeWins` | crates/cloudsync-vfs/src/metadata_sync.rs:129-192 | Replaying any log leaves each row with the provider columns of the last change that touches it; local columns survive unless the row was absent or deleted on the way, when they are those of a new `CloudOnly` row |
| `ChangeReplay.LastUpsertColumns` | crates/cloudsync-vfs/src/metadata_sync.rs:150-192 | Column by column, for any log: a row whose last change is an upsert has that item's name, path, size, hash, kind and whole seconds; its local columns are those it had, or `CloudOnly` and never synced if it was absent or deleted on the way |
| `ChangeReplay.OtherwiseGoneOrKept` | crates/cloudsync-vfs/src/metadata_sync.rs:129-147 | A row whose last change is a deletion is gone; one never touched stays as it was |
| `ChangeReplay.PageBoundariesDoNotMatter` | crates/cloudsync-vfs/src/metadata_sync.rs:94-119 | Two pagings of the same changes give the same table |
| `ChangeReplay.ReplayAbsorbsChange` | crates/cloudsync-vfs/src/metadata_sync.rs:101-104 | Any change of a log applied ahead of time, in any order, leaves no trace once the log is replayed |
| `ChangeReplay.ReplayAbsorbsPrefix` | crates/cloudsync-vfs/src/metadata_sync.rs:94-119 | A replay that stopped anywhere and started over ends where an uninterrupted one does |
| `ChangeReplay.ReplayAbsorbsListedItem` | crates/cloudsync-vfs/src/metadata_sync.rs:53-55 | Items stored by an unfinished `initial_sync` leave no trace once the feed is replayed from the saved cursor |
| `ChangeReplay.MirrorCommutes` | crates/cloudsync-vfs/src/metadata_sync.rs:154-168 | Provider columns evolve independently of local columns |
| `SyncMachine.StepKeepsInv` | crates/cloudsync-vfs/src/metadata_sync.rs:80-126 | Every step of either sync, except storing a start cursor, keeps "replay from the stored cursor gives the clean table"; a listing step does so over a table that tracks the provider |
| `SyncMachine.CursorIsSafe` | crates/cloudsync-vfs/src/metadata_sync.rs:94-119 | In every reachable state, replaying from the stored cursor gives exactly the table of one uninterrupted application from the start |
| `SyncMachine.ReplayConverges` | crates/cloudsync-vfs/src/metadata_sync.rs:80-126 | However the log is paged and wherever attempts fail, the attempt that completes leaves exactly the table of one uninterrupted application up to its cursor |
| `SyncMachine.MirrorStep` | crates/cloudsync-vfs/src/metadata_sync.rs:149-173 | Hiding local columns turns each step into the same step and each local write into none |
| `SyncMachine.MirrorConverges` | crates/cloudsync-vfs/src/metadata_sync.rs:80-126 | With downloads writing local columns at any moment, provider columns still converge, and a table that tracked the provider ends level with it |
| `LocalColumns.WriteSurvivesIff` | crates/cloudsync-vfs/src/metadata_sync.rs:129-168 | A write of local columns is still there at any later moment iff no deletion of its file was applied since, whatever pages, failures and replays came between |
| `LocalColumns.WriteSurvivesAttemptIff` | crates/cloudsync-vfs/src/metadata_sync.rs:80-126 | A write made between attempts is there after the completing attempt iff the feed between the two cursors holds no deletion of its file, even one followed by a new creation |
| `LocalColumns.ReplayedDeletionResetsWrite` | crates/cloudsync-vfs/src/metadata_sync.rs:101-114 | A run in which a page is applied, a download records `Synced`, the attempt fails before saving the cursor, and the replay resets the row to `CloudOnly` |
| `InitialSync.ListingOverlays` | crates/cloudsync-vfs/src/metadata_sync.rs:53-55 | Storing any listing, complete or not and in any order, gives listed files the provider's columns, leaves other rows alone and keeps local columns |
| `InitialSync.InitialSyncRun` | crates/cloudsync-vfs/src/metadata_sync.rs:39-74 | A completed run stores the whole listing and a cursor taken after it, whatever the remote does meanwhile |
| `InitialSync.InitialSyncTracksIff` | crates/cloudsync-vfs/src/metadata_sync.rs:45-70 | From any table, with any listing: the result tracks the provider iff listed files did not change until the cursor was taken, unlisted held files are stored as they are, and unlisted rows are still held |
| `InitialSync.FirstSyncTracksIff` | crates/cloudsync-providers/src/gdrive/provider.rs:128-173 | On an empty table: tracks iff the provider holds at the end exactly the listed files, as listed; for a complete listing, iff the provider did not change |
| `InitialSync.RestartTracksIff` | crates/cloudsync-vfs/src/metadata_sync.rs:241-244 | At a restart with a quiet provider: tracks iff every unlisted file is stored exactly as the provider has it; for a complete listing, iff no stored file is gone |
| `InitialSync.VanishedRowStays` | crates/cloudsync-vfs/src/metadata_sync.rs:241-244 | A row left behind stays until its id appears in the feed again |
| `InitialSync.UnlistedFileStaysMissing` | crates/cloudsync-vfs/src/metadata_sync.rs:45-55 | A file the listing left out stays missing until its id appears in the feed |
| `InitialSync.StartupLeavesLevelIff` | crates/cloudsync-vfs/src/metadata_sync.rs:39-74 | A completed startup over any table is at rest, and level with the provider at the saved cursor iff the listing sufficed |
| `InitialSync.StartupConverges` | crates/cloudsync-vfs/src/metadata_sync.rs:239-264 | A startup whose listing sufficed, then any failing attempts and local writes, then a completed incremental sync: the table holds exactly the provider's files |
| `InitialSync.StartupRowIff` | crates/cloudsync-vfs/src/metadata_sync.rs:239-264 | Whether or not it sufficed: each row is right after the completed incremental sync iff the startup left it right or the feed has mentioned it since |
| `InitialSync.FileCreatedInTheGapIsLost` | crates/cloudsync-vfs/src/metadata_sync.rs:45-70 | A run that loses a file created between listing and cursor |
| `InitialSync.UnlistedFileIsLost` | crates/cloudsync-providers/src/gdrive/provider.rs:138-139 | A run in which both syncs complete and a file in a subfolder is missing |
| `InitialSync.DeletionWhileStoppedIsLost` | crates/cloudsync-vfs/src/metadata_sync.rs:57-70 | A run that keeps a file deleted while the client was stopped, because the saved cursor is replaced |
| `InitialSync.CursorFirstTracksIff` | crates/cloudsync-vfs/src/metadata_sync.rs:45-70 | Cursor first: tracks iff each file is listed, mentioned since the cursor, or stored as it is; always so for an empty table and a complete listing |
| `InitialSync.ReconcilingTracksIff` | crates/cloudsync-vfs/src/metadata_sync.rs:45-70 | Cursor first and unlisted rows within any scope dropped: tracks iff each file is listed, mentioned since, or already right |
| `InitialSync.ReconcilingSyncTracks` | crates/cloudsync-vfs/src/metadata_sync.rs:45-70 | With a scope the listing covers, no row of a held file is dropped and local columns are kept; with every file in scope the result always tracks |
| `InitialSync.KeptCursorTracks` | crates/cloudsync-vfs/src/metadata_sync.rs:57-70 | A restart that keeps its saved cursor still tracks from it after storing any later listing, however partial |
| `MetadataStore.Database.CreateFile` | crates/cloudsync-db/src/files.rs:183-226 | Inserts under a row id no stored row has, refuses exactly a second row for the same account and provider id, leaves every other row with its ids and times |
| `MetadataStore.Database.UpdateFile` | crates/cloudsync-db/src/files.rs:356-394 | Rewrites exactly the existing row, keeping its row id and creation time; every other row keeps ids and times |
| `MetadataStore.Database.DeleteFile` | crates/cloudsync-db/src/files.rs:402-405 | Removes exactly that row, leaves every other row with its ids and times, and says whether there was one |
| `MetadataStore.Database.GetFileByProviderId` | crates/cloudsync-db/src/files.rs:256-274 | Finds the row of that account and provider id iff there is one |
| `MetadataStore.Database.UpsertCursor` | crates/cloudsync-db/src/sync_cursors.rs:20-29 | Sets that account's cursor and no other |
| `MetadataSyncing.MetadataSyncer.UpsertCloudItem` | crates/cloudsync-vfs/src/metadata_sync.rs:150-173 | Updates the account's rows as `Upsert` says and nothing else; the row has the item's name, path, size, hash and kind |
| `MetadataSyncing.MetadataSyncer.ApplyOneChange` | crates/cloudsync-vfs/src/metadata_sync.rs:129-147 | Updates the account's rows as `ApplyChange` says and nothing else |
| `MetadataSyncing.MetadataSyncer.InitialSync` | crates/cloudsync-vfs/src/metadata_sync.rs:39-74 | Performs a run of the machine; on success the table is the visible files over the old table, the count is the listing's length and the cursor is the end of the feed; on failure the cursor is kept |
| `MetadataSyncing.MetadataSyncer.IncrementalSync` | crates/cloudsync-vfs/src/metadata_sync.rs:80-126 | Performs a run of the machine for every reply and failure; with a cursor, on success after any failed attempts, the table is the uninterrupted replay's and the result counts the changes applied; without one it is a full sync |
| `MetadataSyncing.MetadataSyncer.BackgroundSync` | crates/cloudsync-vfs/src/metadata_sync.rs:239-264 | The sync thread over a new or kept database: after any failures, when the last attempt succeeds the table is one uninterrupted replay from the stored listing and start cursor, or, after a failed startup, from a kept table that tracks from its cursor, even one left in the middle of a page; a start that tracks ends level with the provider |
| `MetadataSyncing.Provider.GetChanges` | crates/cloudsync-providers/src/gdrive/provider.rs:384-402 | A page of the feed from the cursor; no further page only at the end |
| `MetadataSyncing.Provider.ListFolder` | crates/cloudsync-providers/src/gdrive/provider.rs:128-173 | Lists exactly the held files that the query sees |
| `DownloadProtocol.StepKeepsInv` | crates/cloudsync-vfs/src/content_cache.rs:87-178 | Each step of any call, and a restart, keeps the lock and row invariant |
| `DownloadProtocol.RowAgreesWithStatus` | crates/cloudsync-vfs/src/content_cache.rs:87-178 | For any interleaving over any sessions, once every download begun in this one has ended: row `Synced` with a sync time iff status `Complete`, row `Error` iff status `Failed` |
| `DownloadProtocol.CloudNativeFileStaysSyncing` | crates/cloudsync-vfs/src/content_cache.rs:157-166 | A cloud-native file, after every run: status `Failed`, row `Syncing` or, only with a provider that also failed otherwise, `Error`; never `Synced` |
| `DownloadReplies.ReplySaysWhatHappened` | crates/cloudsync-vfs/src/content_cache.rs:145-178 | In every interleaving and session: a returned call answered `EIO` iff its download broke, `ENOTSUP` iff the provider refused it, and otherwise the path |
| `DownloadReplies.ReliableCallsReturnThePath` | crates/cloudsync-vfs/src/content_cache.rs:145-155 | With a provider that never fails and a file it does not refuse, every returned call has the path |
| `DownloadReplies.OneCallDownloads` | crates/cloudsync-vfs/src/content_cache.rs:117-155 | In either protocol one call for an absent file can end with the path, a complete copy, status `Complete` and a `Synced` row with a sync time |
| `DownloadSafety.RefusedRowStaysSyncing` | crates/cloudsync-vfs/src/content_cache.rs:157-166 | A run that ends with the row of a cloud-native file left `Syncing` |
| `DownloadSafety.NeverLeftSyncingIff` | crates/cloudsync-vfs/src/content_cache.rs:144-166 | For a file not yet cached: every run whose downloads have ended leaves a row that is not `Syncing` iff the file is not cloud-native |
| `DownloadSafety.NeverStuckSyncingIff` | crates/cloudsync-vfs/src/content_cache.rs:122-178 | Over any sessions, for a row that did not begin `Syncing`: it is never `Syncing` with no download under way iff the file is not cloud-native and the process is not killed during a call |
| `DownloadSafety.KilledRowStaysSyncing` | crates/cloudsync-vfs/src/content_cache.rs:122-178 | A run that ends with the row left `Syncing` by a killed process |
| `DownloadSafety.TwoRequestsInFlight` | crates/cloudsync-vfs/src/content_cache.rs:90-142 | As written, for any file: a run with two calls inside `provider.download` |
| `DownloadSafety.TwoDownloadsInFlight` | crates/cloudsync-vfs/src/content_cache.rs:90-128 | As written: a run with two downloads of one file in flight and a third call returned a partial copy |
| `DownloadSafety.LeftoverIsAccepted` | crates/cloudsync-providers/src/gdrive/provider.rs:221-245 | One call after another: a failed download's partial file is returned by the next call |
| `DownloadSafety.KilledCopyIsAccepted` | crates/cloudsync-vfs/src/content_cache.rs:87-93 | A process killed while writing: the next session returns the partial file, the row still `Syncing` |
| `DownloadSafety.OneCallAtATimeIsSingleDownload` | crates/cloudsync-vfs/src/content_cache.rs:87-178 | Calls one at a time, no partial leftovers, any disk content but a partial one: at most one call inside `provider.download`, requesting or writing, and every `Ok` path a complete copy |
| `DownloadSafety.OneCallAtATimeIff` | crates/cloudsync-vfs/src/content_cache.rs:87-178 | As written, for a file not yet cached, over any sessions: all one-at-a-time runs keep the claim iff nothing can leave a partial copy behind: the file is cloud-native, or downloads are moved into place when finished, or the process is not killed and failed downloads clean up or do not happen |
| `DownloadSafety.EveryInterleavingIff` | crates/cloudsync-vfs/src/content_cache.rs:87-178 | For a file not yet cached, over any sessions: every interleaving keeps the claim iff the protocol waits and nothing can leave a partial copy behind |
| `DownloadSafety.RepairedIsSingleDownload` | crates/cloudsync-vfs/src/content_cache.rs:90-128 | Repaired (wait while in progress, look at the disk under the lock): the same for every interleaving |
| `DownloadSafety.RepairedNeverDeadlocks` | crates/cloudsync-vfs/src/content_cache.rs:28-29 | Repaired: while some call has not returned, some call can step |
| `CachedCopies.CachedCopyIsServed` | crates/cloudsync-vfs/src/content_cache.rs:90-93 | Once a file is cached, every call of every session returns that copy and no call asks the provider again |
| `CachedCopies.RemovedCopyIsStillPromised` | crates/cloudsync-vfs/src/content_cache.rs:112-120 | A copy removed from the cache after this session downloaded it: until a restart every call returns the path of the missing file and none downloads it |
| `CachedCopies.RestartForgetsThePromise` | crates/cloudsync-vfs/src/content_cache.rs:49-70 | After a restart the file is downloaded again |
| `CachedCopies.CopyIsCurrentIff` | crates/cloudsync-vfs/src/metadata_sync.rs:154-168 | The copy is the row's content after any log iff the last change of the file, if any, has that content; the row keeps its local columns unless deleted |
| `CachedCopies.CopyIsCurrentAfterSyncIff` | crates/cloudsync-vfs/src/metadata_sync.rs:80-126 | The same over any completed sync with failures, replays and local writes, for the feed between the two cursors |
| `CachedCopies.StaleCopyLooksSynced` | crates/cloudsync-vfs/src/metadata_sync.rs:154-168 | A change after which the row has a new hash and still says `Synced` |
| `CloudPaths.ParentFileNameJoin` | crates/cloudsync-core/src/types.rs:77-103 | `parent`, `file_name` and `join` drop, return and add the last component |
| `CloudPaths.RenderInjective` | crates/cloudsync-core/src/types.rs:56-64 | Distinct component lists are distinct paths |
| `CloudPaths.NewKeepsRendered` | crates/cloudsync-core/src/types.rs:56-64 | Normalising a well-formed path changes nothing |
| `CloudPaths.NewIsNormal` | crates/cloudsync-core/src/types.rs:56-64 | Whatever is normalised starts with '/' and holds no backslash |
| `CloudPaths.NewOfSpelling` | crates/cloudsync-core/src/types.rs:56-64 | A path spelt without the leading '/', or with backslashes for later ones, normalises to its components; a leading backslash becomes a second '/' |
| `CloudPaths.ExtraSlashesDoNotMatter` | crates/cloudsync-core/src/types.rs:77-103 | Slashes at the end of a path and at the start of a joined component make no difference |
| `CloudPaths.ChildIffParent` | crates/cloudsync-vfs/src/cache.rs:62-91 | A path is among a directory's children iff that directory is its `parent` |
| `CloudPaths.ExactlyOneDirectory` | crates/cloudsync-vfs/src/cache.rs:75-87 | Every file lies in exactly one directory's listing |
| `CloudPaths.AncestorsReachRoot` | crates/cloudsync-core/src/types.rs:77-87 | Repeated `parent` reaches the root in exactly as many steps as there are components |
| `Inodes.StepKeepsInv` | crates/cloudsync-vfs/src/inode.rs:32-91 | Allocating, removing a non-root id and restarting never conflict and keep the table a bijection below the counter with root at 1 |
| `Inodes.RunKeepsInv` | crates/cloudsync-vfs/src/inode.rs:32-91 | The same over every run |
| `Inodes.KeptIdsKeepTheirInode` | crates/cloudsync-vfs/src/inode.rs:55-68 | An id that is not removed keeps its inode through every run and restart |
| `Inodes.NeverReissuedInSession` | crates/cloudsync-vfs/src/inode.rs:60-65 | A number handed out in a session is never handed out again in it |
| `Inodes.RestartResumesAboveSurvivors` | crates/cloudsync-vfs/src/inode.rs:33-39 | After a restart the first new inode is the surviving maximum plus one and all later ones exceed the survivors |
| `Inodes.RemovedNumberReturnsAfterRestart` | crates/cloudsync-vfs/src/inode.rs:33-39 | A removed number above the survivors does come back |
| `Inodes.InodeManager.New` | crates/cloudsync-vfs/src/inode.rs:32-52 | Restores the counter from the maximum and ensures the root mapping; fails exactly when the root has no inode and inode 1 is taken |
| `Inodes.InodeManager.GetOrAllocate` | crates/cloudsync-db/src/vfs_inodes.rs:74-86 | Returns the stored inode or inserts the counter's value |
| `Inodes.InodeManager.GetFileId` | crates/cloudsync-db/src/vfs_inodes.rs:57-68 | The id stored under an inode, if any |
| `FileSystemView.PathWalk` | crates/cloudsync-vfs/src/filesystem.rs:155-245 | In a tree-consistent table, looking up a path's components from inode 1 ends at the inode whose `getattr` has that file's size and kind, at any depth, disturbing no inode |
| `FileSystemView.RootIsADirectory` | crates/cloudsync-vfs/src/filesystem.rs:220-224 | The root answers as a directory in every table |
| `SyncedView.SyncedItemIsFound` | crates/cloudsync-vfs/src/cache.rs:94-105 | After a completed sync whose table is a tree, walking the components of a provider item's own path from inode 1 ends at attributes with that item's size and kind |
| `DirectoryListing.ListingIsTheDirectory` | crates/cloudsync-vfs/src/filesystem.rs:260-305 | The listing of a directory is "." with its inode, ".." with the root's, and exactly the rows whose parent path it is, with their name, kind and stored inode |
| `DirectoryListing.EntriesAreDistinct` | crates/cloudsync-vfs/src/filesystem.rs:294-305 | No row is listed twice |
| `DirectoryListing.ListedNamesAreFound` | crates/cloudsync-vfs/src/filesystem.rs:155-214 | `lookup` of a listed name returns the listed inode and kind and allocates nothing |
| `DirectoryListing.FoundNamesAreListed` | crates/cloudsync-vfs/src/filesystem.rs:155-214 | Every name `lookup` finds is listed with that inode and kind; any other gets `ENOENT` |
| `DirectoryListing.UnknownInode` | crates/cloudsync-vfs/src/filesystem.rs:166-285 | An inode no id has gets `ENOENT` from `lookup`, `getattr` and `readdir` |
| `FileSystemView.PagedReadingIsOneReading` | crates/cloudsync-vfs/src/filesystem.rs:279-314 | Resumed `readdir` calls of any capacities, with other lookups in between and rows outside the directory changing, collect each entry of one listing once, in order, with one inode |
| `FileSystemView.EnoughCallsReadEverything` | crates/cloudsync-vfs/src/filesystem.rs:307-312 | Replies fitting at least one entry each read the whole listing |
| `FileSystemView.ListingStable` | crates/cloudsync-vfs/src/filesystem.rs:294-305 | A listing of an unchanged directory computed again, from a table that keeps its inodes, is the same and allocates nothing |
| `FileSystemView.CloudSyncFS.LookupName` | crates/cloudsync-vfs/src/filesystem.rs:155-214 | The reply and the allocator's new state are those of `Lookup`, error cases included |
| `FileSystemView.CloudSyncFS.Readdir` | crates/cloudsync-vfs/src/filesystem.rs:248-315 | The reply is the listing's chunk from the offset; inodes are allocated for all children |
| `FileSystemView.CloudSyncFS.FillReply` | crates/cloudsync-vfs/src/filesystem.rs:307-314 | Entries from the offset until the reply is full, none for a negative offset |
| `SyncQueue.HeapAndListAgree` | crates/cloudsync-sync/src/queue.rs:33-46 | The heap's and the list's comparisons are one total order: priority first, then age |
| `SyncQueue.PopsCharacterised` | crates/cloudsync-sync/src/queue.rs:77-83 | A sequence can be popped iff it conserves operations, is in order, and precedes everything left |
| `SyncQueue.PopsAgreeWithList` | crates/cloudsync-sync/src/queue.rs:136-147 | Popping gives the beginning of `list`, draining all of it, up to order among equals |
| `SyncQueue.RemoveKeepsOtherPops` | crates/cloudsync-sync/src/queue.rs:101-119 | Removing an operation takes exactly its place out of what later pops return |
| `SyncQueue.Queue.Pop` | crates/cloudsync-sync/src/queue.rs:77-83 | Returns and removes a first operation, or reports an empty queue |
| `SyncQueue.Queue.Remove` | crates/cloudsync-sync/src/queue.rs:101-119 | Removes exactly one operation with that id, or, as written, empties the queue |
| `SyncQueue.Queue.RemoveRepaired` | crates/cloudsync-sync/src/queue.rs:97-100 | As documented: an unknown id changes nothing |
| `SyncQueue.Queue.List` | crates/cloudsync-sync/src/queue.rs:136-147 | A sorted permutation of the heap |
| `SyncEngine.Engine.InitialSync` | crates/cloudsync-sync/src/engine.rs:61-119 | Queues one high-priority download per listed file that is not a folder, with that item's id, path and size, also when the start cursor cannot be had |
| `SyncEngine.OneDownloadPerLiveFile` | crates/cloudsync-sync/src/engine.rs:150-187 | The number queued is the number of non-deleted, non-folder changes carrying an item |
| `SyncEngine.FeedDownloads` | crates/cloudsync-sync/src/engine.rs:150-187 | The operations of a feed and the positions of its live files correspond one to one |
| `SyncEngine.ListingDownloads` | crates/cloudsync-sync/src/engine.rs:79-101 | The operations of a listing and the positions of its files correspond one to one |
| `SyncEngine.AskedAre` | crates/cloudsync-sync/src/engine.rs:136-196 | The first request carries the given cursor and each later one that of the page before it |
| `SyncEngine.Engine.RefreshSync` | crates/cloudsync-sync/src/engine.rs:128-204 | What is queued pairs off, in order, with the live files of the pages read: each a normal-priority download of that change's item, id, path, size and account; asks with the chained cursors, returns the count and the last cursor, and on failure has queued the earlier pages |
| `SyncEngine.PagesReadAre` | crates/cloudsync-sync/src/engine.rs:136-196 | Reading stops only at a page without successor or at a failed fetch |
| `SyncEngine.Engine.ExecuteOperations` | crates/cloudsync-sync/src/engine.rs:217-279 | Terminates; pops in order; returns the number of successes, at most `max` if given; below it, or without one, the queue is empty; stops as soon as the limit is met |
| `SyncEngine.SuccessesCount` | crates/cloudsync-sync/src/engine.rs:232-270 | The count is that of the positions at which a download came out and worked |
| `SyncEngine.ExecutionFollowsList` | crates/cloudsync-sync/src/engine.rs:217-279 | Conserves operations and works through `list` from its beginning, all of it unless the limit is met |
| `TokenStore.EveryEntryIsReachable` | crates/cloudsync-providers/src/gdrive/token_storage.rs:211-299 | After any run with any failures no cached entry hides a later one, so each is found by its own scopes |
| `TokenStore.GetByScopes` | crates/cloudsync-providers/src/gdrive/token_storage.rs:253-299 | Scope by scope: `get` returns the token of the first cached entry having every asked scope, else of the first such entry read, else nothing |
| `TokenStore.SetByScopes` | crates/cloudsync-providers/src/gdrive/token_storage.rs:226-238 | Scope by scope: `set` keeps exactly the earlier entries that lack one of the new scopes and puts the new token last |
| `TokenStore.GetAfterSet` | crates/cloudsync-providers/src/gdrive/token_storage.rs:226-265 | `get` after `set` returns the token just set |
| `TokenStore.GetAfterSetAndReopen` | crates/cloudsync-providers/src/gdrive/token_storage.rs:106-153 | What a new instance finds after a set, for each backend and each pattern of failures: the new token iff it was stored and reads back, nothing if the write tore the file that is read, otherwise what it would have found without the set |
| `TokenStore.TornWriteLosesTokens` | crates/cloudsync-providers/src/gdrive/token_storage.rs:184-187 | A run in which a set that fails loses the tokens persisted before |
| `TokenStore.StaleKeyringWins` | crates/cloudsync-providers/src/gdrive/token_storage.rs:138-151 | A run in which a keyring that failed once hides a newer token |
| `TokenStore.StaleFileWins` | crates/cloudsync-providers/src/gdrive/token_storage.rs:118-128 | A run in which, with the keyring down later, the file's older token is returned |
| `TokenStore.UnloadedSetKeepsIff` | crates/cloudsync-providers/src/gdrive/token_storage.rs:227-248 | For each backend: a set before loading leaves cache and backend as a loaded one would iff every persisted entry covers the new scopes |
| `TokenStore.UnloadedSetLosesToken` | crates/cloudsync-providers/src/gdrive/token_storage.rs:227-248 | For each backend and any persisted tokens: after such a set only the new token is found, only under scopes it covers |
| `TokenStore.LoadThenSetKeepsTokens` | crates/cloudsync-providers/src/gdrive/token_storage.rs:227-248 | Repaired by loading first: every entry not replaced is still found after reopening, for each backend and pattern of failures in which the set reads back |
| `TokenStore.RacingSetIsKeptIff` | crates/cloudsync-providers/src/gdrive/token_storage.rs:253-289 | `get` as its three accesses: exactly when a token set before, between, during or after them is still cached at the end |
| `TokenStore.RacingSetIsLost` | crates/cloudsync-providers/src/gdrive/token_storage.rs:253-273 | Two runs in which a stored set is overtaken by a get and the older token is returned from then on |
| `TokenStore.LostFromCacheIsLost` | crates/cloudsync-providers/src/gdrive/token_storage.rs:236-248 | A token lost from the cache is found by no new instance once another set has been stored |
| `TokenStore.SecureTokenStorage.SetToken` | crates/cloudsync-providers/src/gdrive/token_storage.rs:211-251 | Updates cache and backend as `Set` says, the cache also when storing fails, the file also when its write breaks off |
| `TokenStore.SecureTokenStorage.GetToken` | crates/cloudsync-providers/src/gdrive/token_storage.rs:253-289 | Answers and reloads as `Get` says |
| `Migrations.EveryOpeningCommitsAPrefix` | crates/cloudsync-db/src/migrations.rs:46-87 | Over any openings with growing ascending lists and failures, a prefix of the list is committed in order and the version is its last |
| `Migrations.EachCommitsAtMostOnce` | crates/cloudsync-db/src/migrations.rs:46-87 | No migration is committed twice |
| `Migrations.RepeatIsNoOp` | crates/cloudsync-db/src/migrations.rs:46-52 | For an ascending list, from any committed prefix: a repeat after a success changes nothing |
| `Migrations.RepeatIsNoOpIff` | crates/cloudsync-db/src/migrations.rs:46-87 | For any list and earlier version: a repeat after a success changes nothing iff the last migration newer than that version is the newest of the list |
| `Migrations.RepeatsSettle` | crates/cloudsync-db/src/migrations.rs:46-87 | Whatever the order, after as many successful openings as there were pending migrations none is pending |
| `Migrations.OutOfOrderRunsAgain` | crates/cloudsync-db/src/migrations.rs:76-87 | A list out of order runs its newest migration again at the next opening |
| `Migrations.Migrator.Run` | crates/cloudsync-db/src/migrations.rs:46-69 | Applies all pending migrations or, on a failure, changes nothing |
| `Framing.WrittenReadsBack` | crates/cloudsync-ipc/src/transport.rs:14-48 | Framable messages read back unchanged, in order, then end of stream |
| `Framing.TrailingSpaceIsIgnored` | crates/cloudsync-ipc/src/transport.rs:33 | White space between a message and its newline makes no difference |
| `Framing.ByteLengthByRange` | crates/cloudsync-ipc/src/transport.rs:26-31 | The limit counts UTF-8 bytes |
| `Framing.MalformedLineConsumesItself` | crates/cloudsync-ipc/src/transport.rs:19-34 | A bad line consumes only itself |
| `Framing.LinesCover` | crates/cloudsync-ipc/src/transport.rs:19-24 | The lines read are non-empty and together are the stream |
| `Framing.HandleConnection` | crates/cloudsync-ipc/src/server.rs:154-195 | Exactly one response per line, in order, up to the first turn with a shutdown, the end of the stream, a line that is too long or not UTF-8, or a failed write; that decides the ending |
| `Framing.EachMessageIsAnswered` | crates/cloudsync-ipc/src/server.rs:154-195 | Framable messages and no trouble: the k-th response is the handler's answer to the k-th message, then the client has left |
| `Framing.RespondFollowsReading` | crates/cloudsync-ipc/src/server.rs:156-193 | A line that reads as malformed is answered so, any other by what the handler makes of the message read |
| `PathResolver.CloudRoundTripIff` | crates/cloudsync-ipc/src/path_resolver.rs:50-77 | `resolve_local` undoes `to_local` iff the slug is one path component |
| `PathResolver.LocalRoundTripIff` | crates/cloudsync-ipc/src/path_resolver.rs:50-77 | `to_local` undoes `resolve_local` iff no component below the provider contains a backslash |
| `PathResolver.NoSharedLocalPaths` | crates/cloudsync-ipc/src/path_resolver.rs:70-77 | Distinct pairs of a one-component slug and a cloud path never share a local path |
| `PathResolver.SlashedSlugShares` | crates/cloudsync-ipc/src/path_resolver.rs:70-77 | Slug "a/b" with the cloud root and slug "a" with "/b" give the same local path |
| `PathResolver.ResolvesIff` | crates/cloudsync-ipc/src/path_resolver.rs:50-54 | A path resolves iff it lies strictly below the root |

## Left out

- `DownloadProtocol.RowAgreesWithStatus`: the file's row is taken to exist and its writes to succeed, because a failed write is only logged by the source and then nothing can be said about the row.
- `MetadataSyncing.MetadataSyncer.BackgroundSync`: downloads writing local columns meanwhile are events of the machine (`MirrorConverges`, `WriteSurvivesAttemptIff`) and not of this method.
- `MetadataStore.Database.UpdateFile`: rows are found by account and provider id instead of by row id, and the foreign key to accounts is not modelled.
- `Framing.HandleConnection`: a change of the shutdown flag to false, which would cancel a partly read line and go on, is not modelled, because the server only ever sends true.
- `FileSystemView.CloudSyncFS.LookupName`: names that are not UTF-8 and database errors, which only map to an error reply, are not modelled.
- Google Drive HTTP calls, OAuth and the keyring library; only the feed contract is kept.
- The daemon main loop, its request handler, the IPC client and argument parsing, which would only add one-branch members.
- Configuration, XDG paths, browser URLs, error texts and `FileState` descriptions, which are constant tables.
- The open-file handle table and `read_file_at`, whose properties are immediate from their bodies.
- Account CRUD and connection settings; accounts are keys here.
- Signed 64-bit storage of sizes and times; inodes are bounded below 2^63 instead.
- JSON serialisation of tokens and messages; the codec's own round trip is assumed where a message is framed.
- Other threads pushing to the queue while it is executed.
