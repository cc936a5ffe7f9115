/**
 The database: the `files` table under its UNIQUE(account_id, provider_file_id) key, and `sync_cursors`.
 Row ids and the two bookkeeping times are columns here and are hidden by `Rows`.
 */
module MetadataStore {
  import opened CloudTypes
  import opened ChangeReplay

  datatype File = File(id: int, row: Row, createdAt: int, updatedAt: int)

  datatype DbError = UniqueViolation

  /** One account's rows without bookkeeping. */
  function View(files: map<FileId, File>): Table {
    map x | x in files :: files[x].row
  }

  type Files = map<AccountId, map<FileId, File>>

  function Mine(files: Files, account: AccountId): map<FileId, File> {
    if account in files then files[account] else map[]
  }

  function FindIn(files: Files, account: AccountId, fileId: FileId): Option<File> {
    if fileId in Mine(files, account) then Some(Mine(files, account)[fileId]) else None
  }

  function Put(files: Files, account: AccountId, fileId: FileId, file: File): Files {
    files[account := Mine(files, account)[fileId := file]]
  }

  /** No stored row has an id that is still to be handed out, and no two rows share one. */
  ghost predicate RowIds(files: Files, next: int) {
    && (forall a, x :: FindIn(files, a, x).Some? ==> FindIn(files, a, x).value.id < next)
    && (forall a, x, b, y ::
          FindIn(files, a, x).Some? && FindIn(files, b, y).Some? && (a != b || x != y) ==>
            FindIn(files, a, x).value.id != FindIn(files, b, y).value.id)
  }

  lemma PutRow(files: Files, account: AccountId, fileId: FileId, file: File, a: AccountId, x: FileId)
    ensures FindIn(Put(files, account, fileId, file), a, x) ==
      if a == account && x == fileId then Some(file) else FindIn(files, a, x)
  {
  }

  /** Row ids stay distinct when a row keeps its id or takes the next one. */
  lemma PutKeepsRowIds(files: Files, next: int, account: AccountId, fileId: FileId, file: File, next': int)
    requires RowIds(files, next) && next <= next'
    requires file.id == next < next' || (FindIn(files, account, fileId).Some? && FindIn(files, account, fileId).value.id == file.id)
    ensures RowIds(Put(files, account, fileId, file), next')
  {
    forall a, x ensures FindIn(Put(files, account, fileId, file), a, x) ==
      if a == account && x == fileId then Some(file) else FindIn(files, a, x)
    {
      PutRow(files, account, fileId, file, a, x);
    }
  }

  lemma RemoveKeepsRowIds(files: Files, next: int, account: AccountId, fileId: FileId)
    requires RowIds(files, next) && account in files
    ensures RowIds(files[account := files[account] - {fileId}], next)
  {
    var files' := files[account := files[account] - {fileId}];
    forall a, x ensures FindIn(files', a, x).Some? ==> FindIn(files, a, x) == FindIn(files', a, x) {}
  }

  class Database {
    var files: Files
    var nextRowId: int
    var cursors: map<AccountId, nat>

    ghost predicate Valid()
      reads `files, `nextRowId
    {
      RowIds(files, nextRowId)
    }

    /** Every row of the account but one, with its bookkeeping. */
    ghost function Others(account: AccountId, fileId: FileId): map<FileId, File>
      reads `files
    {
      Mine(files, account) - {fileId}
    }

    ghost function Rows(account: AccountId): Table
      reads `files
    {
      View(Mine(files, account))
    }

    function Find(account: AccountId, fileId: FileId): Option<File>
      reads `files
    {
      FindIn(files, account, fileId)
    }

    constructor ()
      ensures Valid()
      ensures forall a :: Rows(a) == map[]
      ensures cursors == map[]
    {
      files, nextRowId, cursors := map[], 1, map[];
    }

    method GetFileByProviderId(account: AccountId, fileId: FileId) returns (r: Option<File>)
      ensures r.Some? <==> fileId in Rows(account)
      ensures r == Find(account, fileId)
      ensures r.Some? ==> r.value.row == Rows(account)[fileId]
    {
      r := Find(account, fileId);
    }

    /** Inserts under a new row id; a second row for the same account and provider id is refused. */
    method CreateFile(account: AccountId, fileId: FileId, row: Row, now: int) returns (r: Result<int, DbError>)
      requires Valid()
      modifies `files, `nextRowId
      ensures Valid()
      ensures r.Err? <==> fileId in old(Rows(account))
      ensures r.Err? ==> files == old(files) && nextRowId == old(nextRowId)
      ensures r.Ok? ==> r.value == old(nextRowId) && nextRowId == old(nextRowId) + 1
      ensures r.Ok? ==> forall a, x ::
        FindIn(old(files), a, x).Some? ==> FindIn(old(files), a, x).value.id != r.value
      ensures r.Ok? ==> Rows(account) == old(Rows(account))[fileId := row]
      ensures r.Ok? ==> Find(account, fileId) == Some(File(r.value, row, now, now))
      ensures Others(account, fileId) == old(Others(account, fileId))
      ensures files - {account} == old(files) - {account}
    {
      var existing := GetFileByProviderId(account, fileId);
      if existing.Some? {
        return Err(UniqueViolation);
      }
      PutKeepsRowIds(files, nextRowId, account, fileId, File(nextRowId, row, now, now), nextRowId + 1);
      files := Put(files, account, fileId, File(nextRowId, row, now, now));
      r := Ok(nextRowId);
      nextRowId := nextRowId + 1;
    }

    /** Rewrites an existing row, keeping its row id and creation time. */
    method UpdateFile(account: AccountId, fileId: FileId, row: Row, now: int) returns (updated: bool)
      requires Valid()
      modifies `files
      ensures Valid()
      ensures updated <==> fileId in old(Rows(account))
      ensures !updated ==> files == old(files)
      ensures updated ==> Rows(account) == old(Rows(account))[fileId := row]
      ensures updated ==>
        && old(Find(account, fileId)).Some?
        && Find(account, fileId) == Some(old(Find(account, fileId)).value.(row := row, updatedAt := now))
      ensures Others(account, fileId) == old(Others(account, fileId))
      ensures files - {account} == old(files) - {account}
    {
      updated := account in files && fileId in files[account];
      if updated {
        var file := files[account][fileId].(row := row, updatedAt := now);
        PutKeepsRowIds(files, nextRowId, account, fileId, file, nextRowId);
        files := Put(files, account, fileId, file);
      }
    }

    method DeleteFile(account: AccountId, fileId: FileId) returns (deleted: bool)
      requires Valid()
      modifies `files
      ensures Valid()
      ensures deleted <==> fileId in old(Rows(account))
      ensures Rows(account) == old(Rows(account)) - {fileId}
      ensures Others(account, fileId) == old(Others(account, fileId))
      ensures files - {account} == old(files) - {account}
    {
      deleted := account in files && fileId in files[account];
      if deleted {
        RemoveKeepsRowIds(files, nextRowId, account, fileId);
        files := files[account := files[account] - {fileId}];
      }
    }

    method UpsertCursor(account: AccountId, cursor: nat)
      modifies `cursors
      ensures cursors == old(cursors)[account := cursor]
    {
      cursors := cursors[account := cursor];
    }
  }
}
