/**
 From the provider to the mounted file system: what a completed sync stores is what walking and reading
 attributes through inodes shows.
 */
module SyncedView {
  import opened CloudTypes
  import opened CloudPaths
  import opened ChangeReplay
  import opened SyncMachine
  import Inodes
  import View = FileSystemView
  import Listing = DirectoryListing

  /** A row as the file system sees it: an unknown size reads as zero. */
  function CachedRow(x: FileId, row: Row): View.CachedFile {
    View.CachedFile(
      x, row.cols.name, row.cols.path, if row.cols.size.Some? then row.cols.size.value else 0, row.cols.isFolder)
  }

  /** `files` are the rows of the table, each once, in some order. */
  ghost predicate IsViewOf(files: View.Files, t: Table) {
    && (forall f :: f in files ==> f.fileId in t && f == CachedRow(f.fileId, t[f.fileId]))
    && (forall x :: x in t ==> CachedRow(x, t[x]) in files)
    && Listing.DistinctRows(files)
  }

  /** The row of the view for a file, found by its path. */
  lemma RowOfPath(files: View.Files, t: Table, x: FileId, cs: seq<string>)
    requires IsViewOf(files, t) && View.TreeConsistent(files) && x in t
    requires Components(cs) && t[x].cols.path == Render(cs)
    ensures View.RowAt(files, CachedRow(x, t[x]), cs)
  {
    var f := CachedRow(x, t[x]);
    assert f in files;
    var ds :| View.RowAt(files, f, ds);
    RenderInjective(cs, ds);
  }

  /** Two tables with the same provider columns look the same. */
  lemma SameColumns(t: Table, u: Table, x: FileId)
    requires Mirror(t) == Mirror(u) && x in u
    ensures x in t && t[x].cols == u[x].cols
  {
    assert x in Mirror(u) && x in Mirror(t);
    assert Mirror(t)[x].cols == t[x].cols && Mirror(u)[x].cols == u[x].cols;
  }

  /** What `getattr` must answer for an item. */
  predicate DescribesItem(attr: View.Attr, inode: nat, item: CloudItem) {
    && attr.inode == inode
    && attr.size == (if item.size.Some? then item.size.value else 0)
    && attr.isDirectory == item.isFolder
  }

  ghost predicate FoundAt(files: View.Files, a: Inodes.Allocator, cs: seq<string>, item: CloudItem)
    requires Inodes.Inv(a)
  {
    var (b, r) := View.Walk(files, a, Inodes.ROOT_INODE, cs);
    && r.Ok?
    && View.GetAttr(files, b.table, r.value).Ok?
    && DescribesItem(View.GetAttr(files, b.table, r.value).value, r.value, item)
  }

  lemma FoundByRow(files: View.Files, t: Table, a: Inodes.Allocator, x: FileId, cs: seq<string>, item: CloudItem)
    requires IsViewOf(files, t) && View.TreeConsistent(files) && Inodes.Inv(a) && x in t
    requires Components(cs) && item.path == Render(cs)
    requires t[x].cols.path == item.path && t[x].cols.size == item.size && t[x].cols.isFolder == item.isFolder
    ensures FoundAt(files, a, cs, item)
  {
    RowOfPath(files, t, x, cs);
    View.PathWalk(files, a, CachedRow(x, t[x]), cs);
  }

  /**
   After a sync that completes, with failures, replays and local writes on the way: if the feed's last word
   on a file is an item, and the table is a tree, then walking the components of the item's own path from
   inode 1 ends at an inode whose attributes have the item's size and kind.
   */
  lemma {:induction false} SyncedItemIsFound(
    w0: World, es: seq<Event>, e: Event, x: FileId, last: int, item: CloudItem,
    w: World, files: View.Files, a: Inodes.Allocator, cs: seq<string>)
    requires AtRest(w0) && Allowed(w0, es) && Exec(w0, es).Some?
    requires Enabled(Exec(w0, es).value, e) && Completes(Exec(w0, es).value, e) && w == Next(Exec(w0, es).value, e)
    requires w.cursor.Some? && w0.seen <= w.cursor.value <= |w.log|
    requires IsLastTouch(w.log[w0.seen..w.cursor.value], x, last)
    requires var c := w.log[w0.seen..w.cursor.value][last]; !c.deleted && c.item == Some(item)
    requires IsViewOf(files, w.table) && View.TreeConsistent(files) && Inodes.Inv(a)
    requires Components(cs) && item.path == Render(cs)
    ensures FoundAt(files, a, cs, item)
  {
    var news := w.log[w0.seen..w.cursor.value];
    MirrorConverges(w0, es, e);
    LastUpsertColumns(w0.table, news, x, last, item);
    SameColumns(w.table, ApplyAll(w0.table, news), x);
    FoundByRow(files, w.table, a, x, cs, item);
  }
}
