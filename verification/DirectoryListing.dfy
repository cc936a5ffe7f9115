/**
 What `readdir` shows and how it agrees with `lookup`: in a tree-consistent table the listing of a directory
 is exactly the rows whose parent path it is, and looking up a listed name gives the listed inode and kind.
 */
module DirectoryListing {
  import opened CloudTypes
  import opened CloudPaths
  import opened Inodes
  import opened FileSystemView

  lemma ReaddirPathIs(files: Files, a: Allocator, inode: nat, cs: seq<string>)
    requires TreeConsistent(files) && Inv(a) && StandsFor(files, a.table, inode, cs)
    ensures ReaddirPath(files, a.table, inode) == Some(Render(cs))
  {
    if cs != [] {
      var f :| RowAt(files, f, cs) && f.fileId in a.table && a.table[f.fileId] == inode;
      assert f.fileId != ROOT_ID;
      FileIdOfUnique(a.table, f.fileId);
      GetFileIs(files, f);
    }
  }

  /** A row lies in the directory: its parent path is the directory's. */
  predicate LiesIn(f: CachedFile, cs: seq<string>) {
    Parent(f.path) == Some(Render(cs))
  }

  lemma ChildLiesIn(files: Files, f: CachedFile, cs: seq<string>)
    requires TreeConsistent(files) && Components(cs)
    ensures f in Children(files, Render(cs)) <==> f in files && LiesIn(f, cs)
  {
    ChildrenAre(files, Render(cs), f);
    if f in files {
      var ds :| RowAt(files, f, ds);
      ChildIffParent(cs, ds);
    }
  }

  /** The entry shows this row under the inode stored for it. */
  ghost predicate Shows(e: Entry, f: CachedFile, t: InodeTable) {
    f.fileId in t && e.inode == t[f.fileId] && e.name == f.name && e.isDirectory == f.isDirectory
  }

  ghost predicate ShownRow(files: Files, cs: seq<string>, t: InodeTable, e: Entry) {
    exists f :: f in files && LiesIn(f, cs) && Shows(e, f, t)
  }

  ghost predicate ShownOnce(es: seq<Entry>, f: CachedFile, t: InodeTable) {
    exists k :: 2 <= k < |es| && Shows(es[k], f, t)
  }

  /** The entries after the dots are the rows of the directory, each once. */
  ghost predicate ListsDirectory(files: Files, cs: seq<string>, t: InodeTable, inode: nat, es: seq<Entry>) {
    && |es| >= 2
    && es[0].inode == inode && es[0].name == "." && es[0].isDirectory
    && es[1].inode == 1 && es[1].name == ".." && es[1].isDirectory
    && (forall k :: 2 <= k < |es| ==> ShownRow(files, cs, t, es[k]))
    && (forall f :: f in files && LiesIn(f, cs) ==> ShownOnce(es, f, t))
  }

  /** No row occurs twice, as the key on account and provider id guarantees. */
  ghost predicate DistinctRows(files: Files) {
    forall i, j :: 0 <= i < j < |files| ==> files[i].fileId != files[j].fileId
  }

  lemma StandsForLater(files: Files, t: InodeTable, u: InodeTable, inode: nat, cs: seq<string>)
    requires StandsFor(files, t, inode, cs) && Extends(t, u)
    ensures StandsFor(files, u, inode, cs)
  {
    if cs != [] {
      var f :| RowAt(files, f, cs) && f.fileId in t && t[f.fileId] == inode;
      assert RowAt(files, f, cs) && f.fileId in u && u[f.fileId] == inode;
    }
  }

  /** What listing the directory computes, and which children its entries stand for. */
  lemma ListingComputes(files: Files, a: Allocator, inode: nat, cs: seq<string>)
    requires TreeConsistent(files) && Inv(a) && StandsFor(files, a.table, inode, cs)
    ensures var (b, r) := DirEntries(files, a, inode);
      && Inv(b) && Extends(a.table, b.table) && Components(cs)
      && r.Ok? && |r.value| == |Children(files, Render(cs))| + 2
      && EntriesOf(b.table, Children(files, Render(cs)), r.value[2..])
  {
    ReaddirPathIs(files, a, inode, cs);
    ChildEntriesAre(a, Children(files, Render(cs)));
    var es := ChildEntries(a, Children(files, Render(cs))).1;
    assert (DotEntries(inode) + es)[2..] == es;
  }

  /**
   The listing of a directory is "." with its own inode, ".." with the root's, and the rows whose parent path
   it is: each is shown with its name, kind and stored inode, and nothing else is shown.
   */
  lemma {:induction false} ListingIsTheDirectory(files: Files, a: Allocator, inode: nat, cs: seq<string>)
    requires TreeConsistent(files) && Inv(a) && StandsFor(files, a.table, inode, cs)
    ensures var (b, r) := DirEntries(files, a, inode);
      r.Ok? && ListsDirectory(files, cs, b.table, inode, r.value) && Extends(a.table, b.table)
  {
    ListingComputes(files, a, inode, cs);
    ReaddirPathIs(files, a, inode, cs);
    var (b, r) := DirEntries(files, a, inode);
    var es, children := r.value, Children(files, Render(cs));
    forall k | 2 <= k < |es| ensures ShownRow(files, cs, b.table, es[k]) {
      var f := children[k - 2];
      assert es[2..][k - 2] == es[k] && f in children;
      ChildLiesIn(files, f, cs);
      assert Shows(es[k], f, b.table);
    }
    forall f | f in files && LiesIn(f, cs) ensures ShownOnce(es, f, b.table) {
      ChildLiesIn(files, f, cs);
      var i :| 0 <= i < |children| && children[i] == f;
      assert es[2..][i] == es[i + 2];
      assert Shows(es[i + 2], f, b.table);
    }
  }

  lemma {:induction false} ChildrenDistinct(files: Files, dir: string)
    requires DistinctRows(files)
    ensures DistinctRows(Children(files, dir))
  {
    if files != [] {
      var tail := files[1..];
      assert forall i :: 0 <= i < |tail| ==> tail[i] == files[i + 1];
      ChildrenDistinct(tail, dir);
      var rest := Children(tail, dir);
      forall i | 0 <= i < |rest| ensures rest[i].fileId != files[0].fileId {
        assert rest[i] in rest;
        ChildrenAre(tail, dir, rest[i]);
      }
    }
  }

  /** No two entries after the dots have the same inode, so no row is shown twice. */
  lemma {:induction false} EntriesAreDistinct(files: Files, a: Allocator, inode: nat, cs: seq<string>, j: nat, k: nat)
    requires TreeConsistent(files) && DistinctRows(files) && Inv(a) && StandsFor(files, a.table, inode, cs)
    requires DirEntries(files, a, inode).1.Ok? && 2 <= j < k < |DirEntries(files, a, inode).1.value|
    ensures var es := DirEntries(files, a, inode).1.value; es[j].inode != es[k].inode
  {
    ListingComputes(files, a, inode, cs);
    ChildrenDistinct(files, Render(cs));
    var (b, r) := DirEntries(files, a, inode);
    assert r.value[2..][j - 2] == r.value[j] && r.value[2..][k - 2] == r.value[k];
  }

  lemma FirstOfChild(files: Files, f: CachedFile, cs: seq<string>)
    requires TreeConsistent(files) && Components(cs) && f in files && LiesIn(f, cs)
    ensures FirstNamed(Children(files, Render(cs)), f.name) == Some(f)
  {
    var ds :| RowAt(files, f, ds);
    ChildIffParent(cs, ds);
    ChildrenAreOneLonger(cs, ds);
    ChildIs(files, f, ds);
  }

  lemma LookupKnown(files: Files, b: Allocator, inode: nat, dir: string, f: CachedFile)
    requires Inv(b) && f.fileId in b.table && DirPath(files, b.table, inode) == Some(dir)
    requires FirstNamed(Children(files, dir), f.name) == Some(f)
    ensures Lookup(files, b, inode, f.name) == (b, Ok(Attr(b.table[f.fileId], f.size, f.isDirectory)))
  {
  }

  lemma LookupOfChild(files: Files, b: Allocator, inode: nat, cs: seq<string>, f: CachedFile)
    requires TreeConsistent(files) && Inv(b) && StandsFor(files, b.table, inode, cs) && Components(cs)
    requires f in files && LiesIn(f, cs) && f.fileId in b.table
    ensures Lookup(files, b, inode, f.name) == (b, Ok(Attr(b.table[f.fileId], f.size, f.isDirectory)))
  {
    DirPathIs(files, b, inode, cs);
    FirstOfChild(files, f, cs);
    LookupKnown(files, b, inode, Render(cs), f);
  }

  /** Looking up a listed name below the directory finds the listed inode and kind, and allocates nothing. */
  lemma {:induction false} ListedNamesAreFound(files: Files, a: Allocator, inode: nat, cs: seq<string>, k: nat)
    requires TreeConsistent(files) && Inv(a) && StandsFor(files, a.table, inode, cs)
    requires DirEntries(files, a, inode).1.Ok? && 2 <= k < |DirEntries(files, a, inode).1.value|
    ensures var (b, r) := DirEntries(files, a, inode); var e := r.value[k];
      && Inv(b)
      && var (c, found) := Lookup(files, b, inode, e.name);
      && c == b && found.Ok? && found.value.inode == e.inode && found.value.isDirectory == e.isDirectory
  {
    ListingComputes(files, a, inode, cs);
    ListingIsTheDirectory(files, a, inode, cs);
    var (b, r) := DirEntries(files, a, inode);
    assert ShownRow(files, cs, b.table, r.value[k]);
    var f :| f in files && LiesIn(f, cs) && Shows(r.value[k], f, b.table);
    StandsForLater(files, a.table, b.table, inode, cs);
    LookupOfChild(files, b, inode, cs, f);
  }

  /**
   Every name that `lookup` finds below the directory is listed, with the inode and kind found; any other name
   is answered with "no such entry" and allocates nothing.
   */
  lemma {:induction false} FoundNamesAreListed(files: Files, a: Allocator, inode: nat, cs: seq<string>, name: string)
    requires TreeConsistent(files) && Inv(a) && StandsFor(files, a.table, inode, cs)
    ensures var (b, r) := DirEntries(files, a, inode);
      && Inv(b) && r.Ok?
      && var found := Lookup(files, b, inode, name).1;
      && (found.Ok? ==> exists k ::
            2 <= k < |r.value| && r.value[k] == Entry(found.value.inode, found.value.isDirectory, name))
      && (found.Err? ==> found.error == ENOENT && Lookup(files, b, inode, name).0 == b)
  {
    ListingComputes(files, a, inode, cs);
    ListingIsTheDirectory(files, a, inode, cs);
    var (b, r) := DirEntries(files, a, inode);
    StandsForLater(files, a.table, b.table, inode, cs);
    DirPathIs(files, b, inode, cs);
    var first := FirstNamed(Children(files, Render(cs)), name);
    if first.Some? {
      var f := first.value;
      FirstNamedIn(Children(files, Render(cs)), name);
      ChildLiesIn(files, f, cs);
      assert ShownOnce(r.value, f, b.table);
      var k :| 2 <= k < |r.value| && Shows(r.value[k], f, b.table);
      LookupOfChild(files, b, inode, cs, f);
    }
  }

  /** An inode that no stored id has is answered with "no such entry" by all three operations. */
  lemma UnknownInode(files: Files, a: Allocator, inode: nat, name: string)
    requires Inv(a) && inode !in a.table.Values
    ensures Lookup(files, a, inode, name) == (a, Err(ENOENT))
    ensures GetAttr(files, a.table, inode) == Err(ENOENT)
    ensures DirEntries(files, a, inode) == (a, Err(ENOENT))
  {
    assert ROOT_INODE in a.table.Values;
    assert FileIdOf(a.table, inode) == None;
  }

  lemma {:induction false} FirstNamedIn(files: Files, name: string)
    requires FirstNamed(files, name).Some?
    ensures FirstNamed(files, name).value in files && FirstNamed(files, name).value.name == name
  {
    if files[0].name != name {
      FirstNamedIn(files[1..], name);
    }
  }
}
