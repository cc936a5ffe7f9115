/**
 The files table of one account as a value, and the effect of change-feed entries on it.

 Row ids and the created_at/updated_at columns are bookkeeping and are not part of this view; the
 class in MetadataSyncer.dfy carries them and is proved to update this view.
 */
module ChangeReplay {
  import opened CloudTypes

  /** The columns that come from the provider. */
  datatype Columns = Columns(
    name: string,
    path: string,
    size: Option<nat>,
    contentHash: Option<string>,
    isFolder: bool,
    modifiedAt: int
  )

  /** The columns that record what this machine did with the file. */
  datatype Local = Local(state: FileState, syncedAt: Option<int>)

  datatype Row = Row(cols: Columns, local: Local)

  type Table = map<FileId, Row>

  /** Local columns of a row that has just been created from a cloud item. */
  const FRESH := Local(CloudOnly, None)

  function Provided(item: CloudItem): Columns {
    Columns(item.name, item.path, item.size, item.contentHash, item.isFolder, Seconds(item.modified))
  }

  function Upsert(t: Table, item: CloudItem): Table {
    t[item.id := Row(Provided(item), if item.id in t then t[item.id].local else FRESH)]
  }

  function ApplyChange(t: Table, c: Change): Table {
    if c.deleted then t - {c.fileId}
    else if c.item.Some? then Upsert(t, c.item.value)
    else t
  }

  function ApplyAll(t: Table, log: seq<Change>): Table {
    if log == [] then t
    else ApplyChange(ApplyAll(t, log[..|log| - 1]), log[|log| - 1])
  }

  function Lookup(t: Table, x: FileId): Option<Row> {
    if x in t then Some(t[x]) else None
  }

  lemma SameLookupsSameTable(t: Table, u: Table)
    requires forall x :: Lookup(t, x) == Lookup(u, x)
    ensures t == u
  {
    forall x
      ensures x in t <==> x in u
      ensures x in t ==> t[x] == u[x]
    {
      assert Lookup(t, x) == Lookup(u, x);
    }
  }

  // ---------- Replaying in parts ----------

  lemma {:induction false} ApplyConcat(t: Table, a: seq<Change>, b: seq<Change>)
    ensures ApplyAll(t, a + b) == ApplyAll(ApplyAll(t, a), b)
    decreases |b|
  {
    if b == [] {
      assert a + b == a;
    } else {
      var ab := a + b;
      assert ab[..|ab| - 1] == a + b[..|b| - 1];
      ApplyConcat(t, a, b[..|b| - 1]);
    }
  }

  function Flatten(pages: seq<seq<Change>>): seq<Change> {
    if pages == [] then [] else Flatten(pages[..|pages| - 1]) + pages[|pages| - 1]
  }

  function ApplyPages(t: Table, pages: seq<seq<Change>>): Table {
    if pages == [] then t
    else ApplyAll(ApplyPages(t, pages[..|pages| - 1]), pages[|pages| - 1])
  }

  /** Page boundaries do not matter: two pagings of the same changes give the same table. */
  lemma {:induction false} PageBoundariesDoNotMatter(t: Table, pages: seq<seq<Change>>, others: seq<seq<Change>>)
    requires Flatten(pages) == Flatten(others)
    ensures ApplyPages(t, pages) == ApplyPages(t, others)
  {
    PagesAreTheirConcatenation(t, pages);
    PagesAreTheirConcatenation(t, others);
  }

  lemma {:induction false} PagesAreTheirConcatenation(t: Table, pages: seq<seq<Change>>)
    ensures ApplyPages(t, pages) == ApplyAll(t, Flatten(pages))
  {
    if pages != [] {
      PagesAreTheirConcatenation(t, pages[..|pages| - 1]);
      ApplyConcat(t, Flatten(pages[..|pages| - 1]), pages[|pages| - 1]);
    }
  }

  // ---------- The last change wins ----------

  /** A change affects the row named by its file id when it deletes, by its item when it carries one. */
  predicate Touches(c: Change, x: FileId) {
    if c.deleted then c.fileId == x else c.item.Some? && c.item.value.id == x
  }

  ghost predicate Touched(log: seq<Change>, x: FileId) {
    exists i :: 0 <= i < |log| && Touches(log[i], x)
  }

  ghost predicate DeletedIn(log: seq<Change>, x: FileId) {
    exists i :: 0 <= i < |log| && log[i].deleted && log[i].fileId == x
  }

  ghost predicate IsLastTouch(log: seq<Change>, x: FileId, i: int) {
    && 0 <= i < |log|
    && Touches(log[i], x)
    && (forall j :: i < j < |log| ==> !Touches(log[j], x))
  }

  /** What a log does to one row, said without replaying it. */
  ghost function Outcome(before: Option<Row>, log: seq<Change>, x: FileId): Option<Row> {
    if exists i :: IsLastTouch(log, x, i) then
      var i :| IsLastTouch(log, x, i);
      if log[i].deleted then None
      else Some(Row(
        Provided(log[i].item.value),
        if before.Some? && !DeletedIn(log, x) then before.value.local else FRESH))
    else before
  }

  lemma {:induction false} TouchedHasLast(log: seq<Change>, x: FileId) returns (last: int)
    requires Touched(log, x)
    ensures IsLastTouch(log, x, last)
  {
    last := |log| - 1;
    while !Touches(log[last], x)
      invariant 0 <= last < |log|
      invariant forall j :: last < j < |log| ==> !Touches(log[j], x)
      decreases last
    {
      assert exists i :: 0 <= i <= last && Touches(log[i], x);
      last := last - 1;
    }
  }

  lemma OutcomeByLast(before: Option<Row>, log: seq<Change>, x: FileId, last: int)
    requires IsLastTouch(log, x, last)
    ensures Outcome(before, log, x) ==
      if log[last].deleted then None
      else Some(Row(
        Provided(log[last].item.value),
        if before.Some? && !DeletedIn(log, x) then before.value.local else FRESH))
  {
    forall i | IsLastTouch(log, x, i) ensures i == last {}
  }

  lemma OutcomeUntouched(before: Option<Row>, log: seq<Change>, x: FileId)
    requires !Touched(log, x)
    ensures Outcome(before, log, x) == before
  {
  }

  /**
   Replaying a log leaves each row with the provider columns of the last change that touches it;
   its local columns survive unless the row was absent or was deleted on the way.
   */
  lemma {:induction false} LastChangeWins(t: Table, log: seq<Change>, x: FileId)
    ensures Lookup(ApplyAll(t, log), x) == Outcome(Lookup(t, x), log, x)
    decreases |log|
  {
    if log == [] {
      OutcomeUntouched(Lookup(t, x), log, x);
    } else {
      var n := |log| - 1;
      var init := log[..n];
      LastChangeWins(t, init, x);
      assert forall i :: 0 <= i < n ==> log[i] == init[i];
      assert DeletedIn(log, x) <==> DeletedIn(init, x) || (log[n].deleted && log[n].fileId == x);
      if Touches(log[n], x) {
        OutcomeByLast(Lookup(t, x), log, x, n);
        if Touched(init, x) {
          var last := TouchedHasLast(init, x);
          OutcomeByLast(Lookup(t, x), init, x, last);
        } else {
          OutcomeUntouched(Lookup(t, x), init, x);
        }
      } else if Touched(init, x) {
        var last := TouchedHasLast(init, x);
        OutcomeByLast(Lookup(t, x), init, x, last);
        OutcomeByLast(Lookup(t, x), log, x, last);
      } else {
        OutcomeUntouched(Lookup(t, x), init, x);
        OutcomeUntouched(Lookup(t, x), log, x);
      }
    }
  }

  /**
   The same column by column: a row whose last change is an upsert has that item's name, path, size, hash,
   kind and whole seconds of modification. It keeps the local columns it had, or, if it was absent or deleted
   on the way, is `CloudOnly` and was never synced.
   */
  lemma {:induction false} LastUpsertColumns(t: Table, log: seq<Change>, x: FileId, last: int, item: CloudItem)
    requires IsLastTouch(log, x, last) && !log[last].deleted && log[last].item == Some(item)
    ensures x == item.id && x in ApplyAll(t, log)
    ensures var cols := ApplyAll(t, log)[x].cols;
      && cols.name == item.name && cols.path == item.path && cols.size == item.size
      && cols.contentHash == item.contentHash && cols.isFolder == item.isFolder
      && cols.modifiedAt * 1_000_000_000 <= item.modified < (cols.modifiedAt + 1) * 1_000_000_000
    ensures var local := ApplyAll(t, log)[x].local;
      if x in t && !DeletedIn(log, x) then local == t[x].local
      else local.state == CloudOnly && local.syncedAt == None
  {
    LastChangeWins(t, log, x);
    OutcomeByLast(Lookup(t, x), log, x, last);
  }

  /** A row whose last change is a deletion is gone, and one that is never touched stays as it was. */
  lemma {:induction false} OtherwiseGoneOrKept(t: Table, log: seq<Change>, x: FileId)
    ensures forall last :: IsLastTouch(log, x, last) && log[last].deleted ==> x !in ApplyAll(t, log)
    ensures !Touched(log, x) ==> (x in ApplyAll(t, log) <==> x in t) && (x in t ==> ApplyAll(t, log)[x] == t[x])
  {
    LastChangeWins(t, log, x);
    if Touched(log, x) {
      var last := TouchedHasLast(log, x);
      OutcomeByLast(Lookup(t, x), log, x, last);
      assert forall i :: IsLastTouch(log, x, i) ==> i == last;
    } else {
      OutcomeUntouched(Lookup(t, x), log, x);
    }
  }

  // ---------- Replay absorbs what was applied before ----------

  /** A change of the log applied ahead of time leaves no trace once the log is replayed. */
  lemma {:induction false} ReplayAbsorbsChange(t: Table, log: seq<Change>, i: nat)
    requires i < |log|
    ensures ApplyAll(ApplyChange(t, log[i]), log) == ApplyAll(t, log)
  {
    var early := ApplyChange(t, log[i]);
    forall x ensures Lookup(ApplyAll(early, log), x) == Lookup(ApplyAll(t, log), x) {
      LastChangeWins(t, log, x);
      LastChangeWins(early, log, x);
      if Touches(log[i], x) {
        var last := TouchedHasLast(log, x);
        OutcomeByLast(Lookup(t, x), log, x, last);
        OutcomeByLast(Lookup(early, x), log, x, last);
      } else {
        assert Lookup(early, x) == Lookup(t, x);
      }
    }
    SameLookupsSameTable(ApplyAll(early, log), ApplyAll(t, log));
  }

  /** A replay that stopped anywhere and started over ends where an uninterrupted one does. */
  lemma {:induction false} ReplayAbsorbsPrefix(t: Table, log: seq<Change>, k: nat)
    requires k <= |log|
    ensures ApplyAll(ApplyAll(t, log[..k]), log) == ApplyAll(t, log)
  {
    if k > 0 {
      assert log[..k][..k - 1] == log[..k - 1];
      ReplayAbsorbsPrefix(t, log, k - 1);
      ReplayAbsorbsChange(ApplyAll(t, log[..k - 1]), log, k - 1);
    }
  }

  // ---------- The provider's part of a table ----------

  /** The table with every local column reset; two tables with equal mirrors agree on provider columns. */
  function Mirror(t: Table): Table {
    map x | x in t :: Row(t[x].cols, FRESH)
  }

  /** What the provider holds after a log of changes. */
  function Remote(log: seq<Change>): Table {
    ApplyAll(map[], log)
  }

  lemma {:induction false} MirrorCommutes(t: Table, log: seq<Change>)
    ensures Mirror(ApplyAll(t, log)) == ApplyAll(Mirror(t), log)
  {
    if log != [] {
      MirrorCommutes(t, log[..|log| - 1]);
    }
  }

  lemma {:induction false} RemoteIsMirror(log: seq<Change>)
    ensures Mirror(Remote(log)) == Remote(log)
  {
    MirrorCommutes(map[], log);
    assert Mirror(map[]) == map[];
  }

  lemma {:induction false} ReplayKeepsUntouched(t: Table, log: seq<Change>, x: FileId)
    requires !Touched(log, x)
    ensures Lookup(ApplyAll(t, log), x) == Lookup(t, x)
  {
    LastChangeWins(t, log, x);
    OutcomeUntouched(Lookup(t, x), log, x);
  }

  lemma {:induction false} RemoteKeepsUntouched(log: seq<Change>, at: nat, x: FileId)
    requires at <= |log|
    requires !Touched(log[at..], x)
    ensures Lookup(Remote(log), x) == Lookup(Remote(log[..at]), x)
  {
    assert log == log[..at] + log[at..];
    ApplyConcat(map[], log[..at], log[at..]);
    ReplayKeepsUntouched(Remote(log[..at]), log[at..], x);
  }

  /** The item describes its file as the provider holds it in `remote`. */
  predicate Describes(item: CloudItem, remote: Table) {
    item.id in remote && remote[item.id].cols == Provided(item)
  }

  /**
   Storing an item listed at position `at` leaves no trace once the log is replayed from an earlier
   position `c`, provided that replay brings the table level with the provider.
   */
  lemma {:induction false} ReplayAbsorbsListedItem(t: Table, log: seq<Change>, c: nat, at: nat, item: CloudItem)
    requires c <= at <= |log|
    requires Mirror(ApplyAll(t, log[c..])) == Remote(log)
    requires Describes(item, Remote(log[..at]))
    ensures ApplyAll(Upsert(t, item), log[c..]) == ApplyAll(t, log[c..])
  {
    var rest := log[c..];
    var early := Upsert(t, item);
    forall x ensures Lookup(ApplyAll(early, rest), x) == Lookup(ApplyAll(t, rest), x) {
      LastChangeWins(t, rest, x);
      LastChangeWins(early, rest, x);
      if Touched(rest, x) {
        var last := TouchedHasLast(rest, x);
        OutcomeByLast(Lookup(t, x), rest, x, last);
        OutcomeByLast(Lookup(early, x), rest, x, last);
      } else {
        OutcomeUntouched(Lookup(t, x), rest, x);
        OutcomeUntouched(Lookup(early, x), rest, x);
        assert !Touched(log[at..], x) by {
          assert forall i :: 0 <= i < |log[at..]| ==> log[at..][i] == rest[i + at - c];
        }
        RemoteKeepsUntouched(log, at, x);
        assert Lookup(Mirror(ApplyAll(t, rest)), x) == Lookup(Remote(log), x);
      }
    }
    SameLookupsSameTable(ApplyAll(early, rest), ApplyAll(t, rest));
  }
}
