/**
 The FUSE view: `lookup`, `getattr` and `readdir` over the files table and the inode allocator.

 `files` is one account's table in listing order. File attributes other than the ones a reader can check
 against the table (kind, size, inode) are left out.
 */
module FileSystemView {
  import opened CloudTypes
  import opened CloudPaths
  import opened Inodes

  datatype CachedFile = CachedFile(fileId: FileId, name: string, path: string, size: nat, isDirectory: bool)

  datatype Errno = ENOENT | EIO

  datatype Attr = Attr(inode: nat, size: nat, isDirectory: bool)

  const ROOT_ATTR := Attr(ROOT_INODE, 0, true)

  type Files = seq<CachedFile>

  function AttrOf(f: CachedFile, inode: nat): Attr {
    Attr(inode, f.size, f.isDirectory)
  }

  // ---------- Reading the table ----------

  function GetFile(files: Files, id: FileId): Option<CachedFile> {
    if files == [] then None
    else if files[0].fileId == id then Some(files[0])
    else GetFile(files[1..], id)
  }

  function Children(files: Files, dir: string): Files {
    if files == [] then []
    else (if IsChild(dir, files[0].path) then [files[0]] else []) + Children(files[1..], dir)
  }

  function FirstNamed(files: Files, name: string): Option<CachedFile> {
    if files == [] then None
    else if files[0].name == name then Some(files[0])
    else FirstNamed(files[1..], name)
  }

  lemma {:induction false} ChildrenAre(files: Files, dir: string, f: CachedFile)
    ensures f in Children(files, dir) <==> f in files && IsChild(dir, f.path)
  {
    if files != [] {
      ChildrenAre(files[1..], dir, f);
      assert f in files <==> f == files[0] || f in files[1..];
    }
  }

  lemma {:induction false} FirstNamedIs(files: Files, f: CachedFile)
    requires f in files && forall g :: g in files && g.name == f.name ==> g == f
    ensures FirstNamed(files, f.name) == Some(f)
  {
    if files[0].name != f.name {
      assert f in files[1..];
      FirstNamedIs(files[1..], f);
    }
  }

  lemma {:induction false} GetFileIs(files: Files, f: CachedFile)
    requires f in files && forall g :: g in files && g.fileId == f.fileId ==> g == f
    ensures GetFile(files, f.fileId) == Some(f)
  {
    if files[0].fileId != f.fileId {
      assert f in files[1..];
      GetFileIs(files[1..], f);
    }
  }

  lemma {:induction false} GetFileMissing(files: Files, id: FileId)
    requires forall g :: g in files ==> g.fileId != id
    ensures GetFile(files, id).None?
  {
    if files != [] {
      GetFileMissing(files[1..], id);
    }
  }

  // ---------- lookup and getattr ----------

  /** The path whose children a lookup or listing below `inode` searches. */
  function DirPath(files: Files, t: InodeTable, inode: nat): Option<string>
    requires Injective(t)
  {
    match FileIdOf(t, inode)
    case None => None
    case Some(id) =>
      match GetFile(files, id)
      case Some(f) => Some(f.path)
      case None => if inode == ROOT_INODE then Some("/") else None
  }

  function Lookup(files: Files, a: Allocator, parent: nat, name: string): (Allocator, Result<Attr, Errno>)
    requires Injective(a.table)
  {
    match DirPath(files, a.table, parent)
    case None => (a, Err(ENOENT))
    case Some(dir) =>
      match FirstNamed(Children(files, dir), name)
      case None => (a, Err(ENOENT))
      case Some(child) =>
        var (a', r) := Allocate(a, child.fileId);
        (a', if r.Ok? then Ok(AttrOf(child, r.value)) else Err(EIO))
  }

  function GetAttr(files: Files, t: InodeTable, inode: nat): Result<Attr, Errno>
    requires Injective(t)
  {
    if inode == ROOT_INODE then Ok(ROOT_ATTR)
    else
      match FileIdOf(t, inode)
      case None => Err(ENOENT)
      case Some(id) =>
        match GetFile(files, id)
        case None => Err(ENOENT)
        case Some(f) => Ok(AttrOf(f, inode))
  }

  // ---------- Walking a path name by name ----------

  ghost predicate Extends(t: InodeTable, u: InodeTable) {
    forall x :: x in t ==> x in u && u[x] == t[x]
  }

  lemma AllocateKeepsInv(a: Allocator, id: FileId)
    requires Inv(a)
    ensures var (a', r) := Allocate(a, id);
      && Inv(a') && r.Ok?
      && id in a'.table && a'.table[id] == r.value
      && Extends(a.table, a'.table)
  {
    if id !in a.table {
      assert a.next !in a.table.Values;
    }
  }

  /** Repeated `lookup`, starting below `inode`. */
  function Walk(files: Files, a: Allocator, inode: nat, names: seq<string>): (r: (Allocator, Result<nat, Errno>))
    requires Inv(a)
    ensures Inv(r.0)
  {
    if names == [] then (a, Ok(inode))
    else
      var (b, up) := Walk(files, a, inode, names[..|names| - 1]);
      if up.Err? then (b, up)
      else
        var (c, r) := Lookup(files, b, up.value, names[|names| - 1]);
        assert Inv(c) by { LookupKeepsInv(files, b, up.value, names[|names| - 1]); }
        (c, if r.Ok? then Ok(r.value.inode) else Err(r.error))
  }

  lemma LookupKeepsInv(files: Files, a: Allocator, parent: nat, name: string)
    requires Inv(a)
    ensures Inv(Lookup(files, a, parent, name).0)
  {
    var dir := DirPath(files, a.table, parent);
    if dir.Some? {
      var child := FirstNamed(Children(files, dir.value), name);
      if child.Some? {
        AllocateKeepsInv(a, child.value.fileId);
      }
    }
  }

  ghost predicate RowAt(files: Files, f: CachedFile, cs: seq<string>) {
    f in files && Components(cs) && cs != [] && f.path == Render(cs) && f.name == cs[|cs| - 1]
  }

  ghost predicate HasFolder(files: Files, cs: seq<string>) {
    exists g :: RowAt(files, g, cs) && g.isDirectory
  }

  /**
   Every row sits at a well-formed path named after its last component, ids and paths are unique, every
   row's parent (and so every ancestor) is a folder row, and no row has the root's id.
   */
  ghost predicate TreeConsistent(files: Files) {
    && (forall f :: f in files ==> exists cs :: RowAt(files, f, cs))
    && (forall f, g :: f in files && g in files && f.fileId == g.fileId ==> f == g)
    && (forall f, g :: f in files && g in files && f.path == g.path ==> f == g)
    && (forall f, cs :: RowAt(files, f, cs) && |cs| > 1 ==> HasFolder(files, cs[..|cs| - 1]))
    && (forall f :: f in files ==> f.fileId != ROOT_ID)
  }

  /** `inode` stands for the directory with these components; no components means the root. */
  ghost predicate StandsFor(files: Files, t: InodeTable, inode: nat, cs: seq<string>) {
    if cs == [] then inode == ROOT_INODE
    else exists f :: RowAt(files, f, cs) && f.fileId in t && t[f.fileId] == inode
  }

  lemma DirPathIs(files: Files, a: Allocator, inode: nat, cs: seq<string>)
    requires TreeConsistent(files) && Inv(a) && StandsFor(files, a.table, inode, cs)
    ensures DirPath(files, a.table, inode) == Some(Render(cs))
  {
    if cs == [] {
      FileIdOfUnique(a.table, ROOT_ID);
      GetFileMissing(files, ROOT_ID);
    } else {
      var f :| RowAt(files, f, cs) && f.fileId in a.table && a.table[f.fileId] == inode;
      FileIdOfUnique(a.table, f.fileId);
      GetFileIs(files, f);
    }
  }

  lemma ChildIs(files: Files, f: CachedFile, cs: seq<string>)
    requires TreeConsistent(files) && RowAt(files, f, cs)
    ensures FirstNamed(Children(files, Render(cs[..|cs| - 1])), cs[|cs| - 1]) == Some(f)
  {
    var ds, dir := cs[..|cs| - 1], Render(cs[..|cs| - 1]);
    ChildrenAreOneLonger(ds, cs);
    ChildrenAre(files, dir, f);
    forall g | g in Children(files, dir) && g.name == f.name ensures g == f {
      ChildrenAre(files, dir, g);
      var es :| RowAt(files, g, es);
      ChildrenAreOneLonger(ds, es);
      SnocSplit(cs);
      SnocSplit(es);
    }
    FirstNamedIs(Children(files, dir), f);
  }

  lemma LookupFinds(files: Files, b: Allocator, inode: nat, dir: string, name: string, f: CachedFile)
    requires Inv(b) && DirPath(files, b.table, inode) == Some(dir)
    requires FirstNamed(Children(files, dir), name) == Some(f)
    ensures var (c, r) := Lookup(files, b, inode, name);
      && Inv(c) && Extends(b.table, c.table)
      && f.fileId in c.table && r == Ok(AttrOf(f, c.table[f.fileId]))
  {
    AllocateKeepsInv(b, f.fileId);
  }

  lemma WalkOneMore(files: Files, a: Allocator, inode: nat, names: seq<string>, b: Allocator, up: nat)
    requires Inv(a) && Inv(b) && names != [] && Walk(files, a, inode, names[..|names| - 1]) == (b, Ok(up))
    ensures var (c, r) := Lookup(files, b, up, names[|names| - 1]);
      Walk(files, a, inode, names) == (c, if r.Ok? then Ok(r.value.inode) else Err(r.error))
  {
  }

  /** The walk has come to the file: its inode is the one stored for the file's id. */
  ghost predicate Reached(a: Allocator, walk: (Allocator, Result<nat, Errno>), f: CachedFile) {
    && Inv(walk.0) && Extends(a.table, walk.0.table)
    && f.fileId in walk.0.table && walk.1 == Ok(walk.0.table[f.fileId])
  }

  lemma LookupReaches(files: Files, a: Allocator, f: CachedFile, cs: seq<string>, b: Allocator, up: nat)
    requires TreeConsistent(files) && Inv(a) && Inv(b) && RowAt(files, f, cs)
    requires Walk(files, a, ROOT_INODE, cs[..|cs| - 1]) == (b, Ok(up))
    requires Extends(a.table, b.table) && StandsFor(files, b.table, up, cs[..|cs| - 1])
    ensures Reached(a, Walk(files, a, ROOT_INODE, cs), f)
  {
    var ds, c := cs[..|cs| - 1], cs[|cs| - 1];
    DirPathIs(files, b, up, ds);
    ChildIs(files, f, cs);
    LookupFinds(files, b, up, Render(ds), c, f);
    WalkOneMore(files, a, ROOT_INODE, cs, b, up);
  }

  lemma {:induction false} WalkReaches(files: Files, a: Allocator, f: CachedFile, cs: seq<string>)
    requires TreeConsistent(files) && Inv(a) && RowAt(files, f, cs)
    ensures Reached(a, Walk(files, a, ROOT_INODE, cs), f)
    decreases |cs|
  {
    var up := cs[..|cs| - 1];
    if up != [] {
      assert HasFolder(files, up);
      var g :| RowAt(files, g, up) && g.isDirectory;
      WalkReaches(files, a, g, up);
    }
    var (b, r) := Walk(files, a, ROOT_INODE, up);
    LookupReaches(files, a, f, cs, b, r.value);
  }

  /**
   Walking the components of any file's path by `lookup`, from inode 1 and to any depth, ends at an inode
   whose `getattr` describes exactly that file; inodes handed out before are not disturbed.
   */
  lemma {:induction false} PathWalk(files: Files, a: Allocator, f: CachedFile, cs: seq<string>)
    requires TreeConsistent(files) && Inv(a) && RowAt(files, f, cs)
    ensures var (b, r) := Walk(files, a, ROOT_INODE, cs);
      && r.Ok? && r.value != ROOT_INODE
      && GetAttr(files, b.table, r.value) == Ok(Attr(r.value, f.size, f.isDirectory))
      && Extends(a.table, b.table)
  {
    WalkReaches(files, a, f, cs);
    FileIdOfUnique(Walk(files, a, ROOT_INODE, cs).0.table, f.fileId);
    GetFileIs(files, f);
  }

  /** The root answers as a directory in every table, with or without rows. */
  lemma RootIsADirectory(files: Files, a: Allocator)
    requires Inv(a)
    ensures Walk(files, a, ROOT_INODE, []) == (a, Ok(1)) && GetAttr(files, a.table, 1) == Ok(Attr(1, 0, true))
  {
  }

  // ---------- readdir ----------

  datatype Entry = Entry(inode: nat, isDirectory: bool, name: string)

  /** Entries for the given children, allocating inodes for those that have none. */
  function ChildEntries(a: Allocator, children: Files): (Allocator, seq<Entry>) {
    if children == [] then (a, [])
    else
      var (b, es) := ChildEntries(a, children[..|children| - 1]);
      var child := children[|children| - 1];
      var (c, r) := Allocate(b, child.fileId);
      (c, if r.Ok? then es + [Entry(r.value, child.isDirectory, child.name)] else es)
  }

  function ReaddirPath(files: Files, t: InodeTable, inode: nat): Option<string>
    requires Injective(t)
  {
    if inode == ROOT_INODE then Some("/")
    else
      match FileIdOf(t, inode)
      case None => None
      case Some(id) => var f := GetFile(files, id); if f.Some? then Some(f.value.path) else None
  }

  function DotEntries(inode: nat): seq<Entry> {
    [Entry(inode, true, "."), Entry(ROOT_INODE, true, "..")]
  }

  /** The whole listing of a directory, as every `readdir` call computes it afresh. */
  function DirEntries(files: Files, a: Allocator, inode: nat): (Allocator, Result<seq<Entry>, Errno>)
    requires Injective(a.table)
  {
    match ReaddirPath(files, a.table, inode)
    case None => (a, Err(ENOENT))
    case Some(dir) =>
      var (b, es) := ChildEntries(a, Children(files, dir));
      (b, Ok(DotEntries(inode) + es))
  }

  /** The part of a listing a reply with room for `capacity` entries carries from `offset` on. */
  function Chunk(entries: seq<Entry>, offset: int, capacity: nat): seq<Entry> {
    if offset < 0 || offset >= |entries| then []
    else if offset + capacity < |entries| then entries[offset..offset + capacity]
    else entries[offset..]
  }

  /** One entry per child, in order, with the inode the table gives it. */
  ghost predicate EntriesOf(t: InodeTable, children: Files, es: seq<Entry>) {
    && |es| == |children|
    && forall i :: 0 <= i < |children| ==>
      && children[i].fileId in t
      && es[i] == Entry(t[children[i].fileId], children[i].isDirectory, children[i].name)
  }

  lemma EntriesOfMore(t: InodeTable, u: InodeTable, children: Files, es: seq<Entry>, child: CachedFile)
    requires EntriesOf(t, children, es) && Extends(t, u) && child.fileId in u
    ensures EntriesOf(u, children + [child], es + [Entry(u[child.fileId], child.isDirectory, child.name)])
  {
  }

  lemma {:induction false} ChildEntriesAre(a: Allocator, children: Files)
    requires Inv(a)
    ensures var (b, es) := ChildEntries(a, children);
      Inv(b) && Extends(a.table, b.table) && EntriesOf(b.table, children, es)
  {
    if children != [] {
      var init, child := children[..|children| - 1], children[|children| - 1];
      ChildEntriesAre(a, init);
      var (b, es) := ChildEntries(a, init);
      AllocateKeepsInv(b, child.fileId);
      EntriesOfMore(b.table, Allocate(b, child.fileId).0.table, init, es, child);
      assert children == init + [child];
    }
  }

  /** Once listed, a directory lists the same from every later table that keeps its inodes. */
  lemma {:induction false} ChildEntriesStable(a: Allocator, c: Allocator, children: Files)
    requires Inv(a) && Inv(c) && Extends(ChildEntries(a, children).0.table, c.table)
    ensures ChildEntries(c, children) == (c, ChildEntries(a, children).1)
  {
    ChildEntriesAre(a, children);
    var es, fs := ChildEntries(a, children).1, ChildEntries(c, children).1;
    EntriesWithoutAllocation(c, children);
    assert forall i :: 0 <= i < |es| ==> es[i] == fs[i];
    assert es == fs;
  }

  lemma {:induction false} EntriesWithoutAllocation(c: Allocator, children: Files)
    requires forall i :: 0 <= i < |children| ==> children[i].fileId in c.table
    ensures ChildEntries(c, children).0 == c && EntriesOf(c.table, children, ChildEntries(c, children).1)
  {
    if children != [] {
      var init, child := children[..|children| - 1], children[|children| - 1];
      EntriesWithoutAllocation(c, init);
      EntriesOfMore(c.table, c.table, init, ChildEntries(c, init).1, child);
      assert children == init + [child] && child.fileId in c.table;
    }
  }

  /**
   One call of a paged reading: other lookups allocate `between` first, then the call sees `files` and its
   reply has room for `capacity`.
   */
  datatype Call = Call(files: Files, between: seq<FileId>, capacity: nat)

  function AllocateAll(a: Allocator, ids: seq<FileId>): Allocator {
    if ids == [] then a else Allocate(AllocateAll(a, ids[..|ids| - 1]), ids[|ids| - 1]).0
  }

  lemma {:induction false} AllocateAllExtends(a: Allocator, ids: seq<FileId>)
    requires Inv(a)
    ensures Inv(AllocateAll(a, ids)) && Extends(a.table, AllocateAll(a, ids).table)
  {
    if ids != [] {
      AllocateAllExtends(a, ids[..|ids| - 1]);
      AllocateKeepsInv(AllocateAll(a, ids[..|ids| - 1]), ids[|ids| - 1]);
    }
  }

  datatype Reading = Reading(alloc: Allocator, collected: seq<Entry>)

  /** Each call resumes from the offset of the last entry it was given, which is how many it has. */
  function ReadPaged(a: Allocator, inode: nat, calls: seq<Call>): (r: Reading)
    requires Inv(a)
    ensures Inv(r.alloc)
  {
    if calls == [] then Reading(a, [])
    else ReadOn(ReadPaged(a, inode, calls[..|calls| - 1]), inode, calls[|calls| - 1])
  }

  lemma DirEntriesKeepInv(files: Files, a: Allocator, inode: nat)
    requires Inv(a)
    ensures Inv(DirEntries(files, a, inode).0) && Extends(a.table, DirEntries(files, a, inode).0.table)
  {
    var dir := ReaddirPath(files, a.table, inode);
    if dir.Some? {
      ChildEntriesAre(a, Children(files, dir.value));
    }
  }

  lemma ReaddirPathStable(files: Files, t: InodeTable, u: InodeTable, inode: nat)
    requires Injective(t) && Injective(u) && Extends(t, u) && ReaddirPath(files, t, inode).Some?
    ensures ReaddirPath(files, u, inode) == ReaddirPath(files, t, inode)
  {
    if inode != ROOT_INODE {
      FileIdOfUnique(u, FileIdOf(t, inode).value);
    }
  }

  function Total(calls: seq<Call>): nat {
    if calls == [] then 0 else Total(calls[..|calls| - 1]) + calls[|calls| - 1].capacity
  }

  function Min(a: nat, b: nat): nat {
    if a < b then a else b
  }

  /** The listing a call computes. */
  function ListingAt(a: Allocator, inode: nat, call: Call): (Allocator, Result<seq<Entry>, Errno>)
    requires Inv(a)
  {
    AllocateAllExtends(a, call.between);
    DirEntries(call.files, AllocateAll(a, call.between), inode)
  }

  /** Two states of the table show the same directory under an inode: the same path with the same children. */
  predicate SameDirectory(files: Files, later: Files, t: InodeTable, inode: nat)
    requires Injective(t)
  {
    var dir := ReaddirPath(files, t, inode);
    dir.Some? && ReaddirPath(later, t, inode) == dir && Children(later, dir.value) == Children(files, dir.value)
  }

  lemma SameDirectoryStable(files: Files, later: Files, t: InodeTable, u: InodeTable, inode: nat)
    requires Injective(t) && Injective(u) && Extends(t, u) && SameDirectory(files, later, t, inode)
    ensures SameDirectory(files, later, u, inode)
  {
    ReaddirPathStable(files, t, u, inode);
    ReaddirPathStable(later, t, u, inode);
  }

  /**
   A listing computed again, from any inode table that keeps the first listing's inodes, and whatever
   happened to rows outside the directory, is the same.
   */
  lemma ListingStable(files: Files, later: Files, a: Allocator, c: Allocator, inode: nat)
    requires Inv(a) && Inv(c) && SameDirectory(files, later, a.table, inode)
    requires Extends(DirEntries(files, a, inode).0.table, c.table)
    ensures DirEntries(later, c, inode) == (c, DirEntries(files, a, inode).1)
  {
    DirEntriesKeepInv(files, a, inode);
    ReaddirPathStable(later, a.table, c.table, inode);
    ChildEntriesStable(a, c, Children(files, ReaddirPath(files, a.table, inode).value));
  }

  lemma ChunkExtends(all: seq<Entry>, sofar: nat, capacity: nat)
    ensures all[..Min(sofar, |all|)] + Chunk(all, Min(sofar, |all|), capacity) == all[..Min(sofar + capacity, |all|)]
  {
  }

  ghost predicate Unchanging(a: Allocator, inode: nat, calls: seq<Call>)
    requires Inv(a)
  {
    forall i :: 0 <= i < |calls| ==> SameDirectory(calls[0].files, calls[i].files, a.table, inode)
  }

  /** `r` has collected the beginning of what `first` listed, `n` entries if there are as many. */
  ghost predicate HasRead(a: Allocator, inode: nat, first: Call, r: Reading, n: nat)
    requires Inv(a)
  {
    var (b, listing) := ListingAt(a, inode, first);
    && listing.Ok?
    && r.collected == listing.value[..Min(n, |listing.value|)]
    && Extends(b.table, r.alloc.table)
  }

  /**
   Reading an unchanging directory in any number of calls, of any capacities, with other lookups in between
   and other directories changing, collects exactly the first Total(capacities) entries of the first call's
   listing: every entry once, in order, and always with the inode it had in that listing.
   */
  lemma {:induction false} PagedReadingIsOneReading(a: Allocator, inode: nat, calls: seq<Call>)
    requires Inv(a) && calls != [] && Unchanging(a, inode, calls)
    ensures HasRead(a, inode, calls[0], ReadPaged(a, inode, calls), Total(calls))
    decreases |calls|
  {
    var init, call := calls[..|calls| - 1], calls[|calls| - 1];
    assert SameDirectory(calls[0].files, call.files, a.table, inode);
    if init == [] {
      FirstCall(a, inode, call);
      assert ReadPaged(a, inode, init) == Reading(a, []) && Total(init) == 0;
    } else {
      assert Unchanging(a, inode, init) by {
        assert forall i :: 0 <= i < |init| ==> init[i] == calls[i];
      }
      PagedReadingIsOneReading(a, inode, init);
      LaterCall(a, inode, calls[0], call, ReadPaged(a, inode, init), Total(init));
    }
  }

  /** What one more call makes of a reading. */
  function ReadOn(before: Reading, inode: nat, call: Call): (r: Reading)
    requires Inv(before.alloc)
    ensures Inv(r.alloc)
  {
    AllocateAllExtends(before.alloc, call.between);
    DirEntriesKeepInv(call.files, AllocateAll(before.alloc, call.between), inode);
    var (b, r) := ListingAt(before.alloc, inode, call);
    Reading(b, if r.Ok? then before.collected + Chunk(r.value, |before.collected|, call.capacity) else before.collected)
  }

  lemma FirstCall(a: Allocator, inode: nat, call: Call)
    requires Inv(a) && SameDirectory(call.files, call.files, a.table, inode)
    ensures HasRead(a, inode, call, ReadOn(Reading(a, []), inode, call), call.capacity)
  {
    FirstListing(a, inode, call, call);
    ChunkExtends(ListingAt(a, inode, call).1.value, 0, call.capacity);
  }

  lemma LaterCall(a: Allocator, inode: nat, first: Call, call: Call, before: Reading, n: nat)
    requires Inv(a) && Inv(before.alloc) && SameDirectory(first.files, call.files, a.table, inode)
    requires HasRead(a, inode, first, before, n)
    ensures HasRead(a, inode, first, ReadOn(before, inode, call), n + call.capacity)
  {
    LaterListing(a, inode, first, call, before.alloc);
    ChunkExtends(ListingAt(a, inode, first).1.value, n, call.capacity);
  }

  lemma FirstListing(a: Allocator, inode: nat, first: Call, call: Call)
    requires Inv(a) && SameDirectory(first.files, call.files, a.table, inode)
    ensures Inv(ListingAt(a, inode, first).0) && ListingAt(a, inode, first).1.Ok?
    ensures Inv(AllocateAll(a, first.between))
    ensures SameDirectory(first.files, call.files, AllocateAll(a, first.between).table, inode)
  {
    AllocateAllExtends(a, first.between);
    SameDirectoryStable(first.files, call.files, a.table, AllocateAll(a, first.between).table, inode);
    DirEntriesKeepInv(first.files, AllocateAll(a, first.between), inode);
  }

  lemma LaterListing(a: Allocator, inode: nat, first: Call, call: Call, b: Allocator)
    requires Inv(a) && Inv(b) && SameDirectory(first.files, call.files, a.table, inode)
    requires Extends(ListingAt(a, inode, first).0.table, b.table)
    ensures ListingAt(b, inode, call).1 == ListingAt(a, inode, first).1
    ensures Extends(b.table, ListingAt(b, inode, call).0.table)
  {
    FirstListing(a, inode, first, call);
    AllocateAllExtends(b, call.between);
    ListingStable(first.files, call.files, AllocateAll(a, first.between), AllocateAll(b, call.between), inode);
  }

  lemma {:induction false} TotalAtLeast(calls: seq<Call>)
    requires forall i :: 0 <= i < |calls| ==> calls[i].capacity >= 1
    ensures Total(calls) >= |calls|
  {
    if calls != [] {
      TotalAtLeast(calls[..|calls| - 1]);
    }
  }

  /** Replies that each fit at least one entry read the whole listing in at most as many calls as it has entries. */
  lemma EnoughCallsReadEverything(a: Allocator, inode: nat, calls: seq<Call>)
    requires Inv(a) && calls != [] && Unchanging(a, inode, calls)
    requires forall i :: 0 <= i < |calls| ==> calls[i].capacity >= 1
    requires ListingAt(a, inode, calls[0]).1.Ok? ==> |calls| >= |ListingAt(a, inode, calls[0]).1.value|
    ensures Ok(ReadPaged(a, inode, calls).collected) == ListingAt(a, inode, calls[0]).1
  {
    PagedReadingIsOneReading(a, inode, calls);
    TotalAtLeast(calls);
    var all := ListingAt(a, inode, calls[0]).1.value;
    assert all[..|all|] == all;
  }

  // ---------- The file system in the source's form ----------

  class CloudSyncFS {
    var files: Files
    const inodes: InodeManager

    constructor (files: Files, inodes: InodeManager)
      ensures this.files == files && this.inodes == inodes
    {
      this.files, this.inodes := files, inodes;
    }

    method LookupName(parent: nat, name: string) returns (r: Result<Attr, Errno>)
      requires Injective(inodes.table)
      modifies inodes
      ensures (inodes.State(), r) == Lookup(files, old(inodes.State()), parent, name)
    {
      var id := inodes.GetFileId(parent);
      if id.None? {
        return Err(ENOENT);
      }
      var dir := "/";
      var f := GetFile(files, id.value);
      if f.Some? {
        dir := f.value.path;
      } else if parent != ROOT_INODE {
        return Err(ENOENT);
      }
      var child := FindChild(Children(files, dir), name);
      if child.None? {
        return Err(ENOENT);
      }
      var inode := inodes.GetOrAllocate(child.value.fileId);
      r := if inode.Ok? then Ok(AttrOf(child.value, inode.value)) else Err(EIO);
    }

    /** The first child of that name. */
    static method FindChild(children: Files, name: string) returns (r: Option<CachedFile>)
      ensures r == FirstNamed(children, name)
    {
      var i := 0;
      while i < |children|
        invariant i <= |children|
        invariant FirstNamed(children[i..], name) == FirstNamed(children, name)
      {
        if children[i].name == name {
          return Some(children[i]);
        }
        assert children[i..][1..] == children[i + 1..];
        i := i + 1;
      }
      r := None;
    }

    method ListChildren(children: Files) returns (entries: seq<Entry>)
      modifies inodes
      ensures (inodes.State(), entries) == ChildEntries(old(inodes.State()), children)
    {
      entries := [];
      var i := 0;
      assert children[..0] == [];
      while i < |children|
        invariant i <= |children|
        invariant (inodes.State(), entries) == ChildEntries(old(inodes.State()), children[..i])
      {
        assert children[..i + 1][..i] == children[..i];
        var child := inodes.GetOrAllocate(children[i].fileId);
        if child.Ok? {
          entries := entries + [Entry(child.value, children[i].isDirectory, children[i].name)];
        }
        i := i + 1;
      }
      assert children[..|children|] == children;
    }

    /** Adds entries from `offset` on until `add` reports the reply full. */
    static method FillReply(entries: seq<Entry>, offset: int, capacity: nat) returns (page: seq<Entry>)
      ensures page == Chunk(entries, offset, capacity)
    {
      page := [];
      if offset < 0 || offset >= |entries| {
        return;
      }
      var k := offset;
      while k < |entries| && |page| < capacity
        invariant offset <= k <= |entries|
        invariant page == entries[offset..k] && |page| <= capacity
      {
        page := page + [entries[k]];
        k := k + 1;
      }
    }

    /** `capacity` is how many entries the reply buffer holds. */
    method Readdir(inode: nat, offset: int, capacity: nat) returns (r: Result<seq<Entry>, Errno>)
      requires Injective(inodes.table)
      modifies inodes
      ensures var (after, listing) := DirEntries(files, old(inodes.State()), inode);
        && inodes.State() == after
        && r == if listing.Ok? then Ok(Chunk(listing.value, offset, capacity)) else Err(listing.error)
    {
      var dir := "/";
      if inode != ROOT_INODE {
        var id := inodes.GetFileId(inode);
        if id.None? {
          return Err(ENOENT);
        }
        var f := GetFile(files, id.value);
        if f.None? {
          return Err(ENOENT);
        }
        dir := f.value.path;
      }
      var children := ListChildren(Children(files, dir));
      var page := FillReply(DotEntries(inode) + children, offset, capacity);
      r := Ok(page);
    }
  }
}
