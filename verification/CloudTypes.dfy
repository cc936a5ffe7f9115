/** Value types shared by the sync client: provider items, change-feed entries and file states. */
module CloudTypes {

  datatype Option<+T> = None | Some(value: T)

  datatype Result<+T, +E> = Ok(value: T) | Err(error: E)

  type FileId = string
  type AccountId = string

  /** Nanoseconds since the Unix epoch; tables store whole seconds. */
  type Timestamp = int

  const NANOS_PER_SECOND := 1_000_000_000

  /** Whole seconds, rounded towards minus infinity. */
  function Seconds(t: Timestamp): int {
    t / NANOS_PER_SECOND
  }

  datatype FileState =
    | Synced
    | CloudOnly
    | Syncing
    | Pending
    | Error
    | Excluded
    | OfflineModified
    | Conflict

  /** A file or folder as the provider describes it (only the fields that reach the database). */
  datatype CloudItem = CloudItem(
    id: FileId,
    name: string,
    path: string,
    isFolder: bool,
    size: Option<nat>,
    contentHash: Option<string>,
    modified: Timestamp
  )

  /** One entry of the provider's change feed. */
  datatype Change = Change(item: Option<CloudItem>, fileId: FileId, deleted: bool, timestamp: Timestamp)
}
