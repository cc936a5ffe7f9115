/**
 The persistent inode table and the allocator over it.

 The table maps file ids to inodes: file ids are unique by construction, and uniqueness of inodes (the
 primary key) is checked on insertion and proved never to fail. `next` is the only in-memory state.
 */
module Inodes {
  import opened CloudTypes

  const ROOT_INODE: nat := 1
  const ROOT_ID: FileId := "root"

  /** Inodes are stored as signed 64-bit integers. */
  const INODE_LIMIT: nat := 0x8000_0000_0000_0000

  type InodeTable = map<FileId, nat>

  datatype InsertError = InodeTaken

  /** `issued` records the numbers handed out since the allocator was opened. */
  datatype Allocator = Allocator(table: InodeTable, next: nat, issued: set<nat>)

  // ---------- Table operations ----------

  function InsertInode(t: InodeTable, inode: nat, id: FileId): Result<InodeTable, InsertError> {
    if id in t || inode in t.Values then Err(InodeTaken) else Ok(t[id := inode])
  }

  ghost predicate IsMax(t: InodeTable, m: nat) {
    m in t.Values && forall id :: id in t ==> t[id] <= m
  }

  lemma {:induction false} MaxExists(t: InodeTable) returns (m: nat)
    requires t != map[]
    ensures IsMax(t, m)
    decreases |t|
  {
    var id :| id in t;
    var rest := t - {id};
    m := t[id];
    if rest != map[] {
      assert t.Keys == rest.Keys + {id};
      var r := MaxExists(rest);
      if r > m {
        var j :| j in rest && rest[j] == r;
        assert t[j] == r;
        m := r;
      }
    }
    forall j | j in t ensures t[j] <= m {
      assert j != id ==> j in rest && rest[j] == t[j];
    }
  }

  /** MAX(inode), or 0 for an empty table. */
  ghost function MaxInode(t: InodeTable): nat
    ensures t != map[] ==> IsMax(t, MaxInode(t))
    ensures t == map[] ==> MaxInode(t) == 0
  {
    if t == map[] then 0
    else
      assert exists m: nat :: IsMax(t, m) by { var m := MaxExists(t); }
      var m: nat :| IsMax(t, m);
      m
  }

  // ---------- Allocator operations ----------

  function Allocate(a: Allocator, id: FileId): (Allocator, Result<nat, InsertError>) {
    if id in a.table then (a, Ok(a.table[id]))
    else
      var counted := a.(next := a.next + 1);
      match InsertInode(a.table, a.next, id)
      case Ok(t) => (counted.(table := t, issued := a.issued + {a.next}), Ok(a.next))
      case Err(e) => (counted, Err(e))
  }

  function Remove(a: Allocator, id: FileId): Allocator {
    a.(table := a.table - {id})
  }

  /** Opening the allocator on a table: the counter is restored and the root mapping is ensured. */
  ghost function Open(t: InodeTable): Result<Allocator, InsertError> {
    var max := MaxInode(t);
    var next := if max == 0 then ROOT_INODE + 1 else max + 1;
    if ROOT_ID in t then Ok(Allocator(t, next, {}))
    else
      match InsertInode(t, ROOT_INODE, ROOT_ID)
      case Ok(t') => Ok(Allocator(t', next, {}))
      case Err(e) => Err(e)
  }

  // ---------- What every operation keeps ----------

  predicate Injective(t: InodeTable) {
    forall i, j :: i in t && j in t && t[i] == t[j] ==> i == j
  }

  predicate Inv(a: Allocator) {
    && Injective(a.table)
    && ROOT_ID in a.table && a.table[ROOT_ID] == ROOT_INODE
    && (forall id :: id in a.table ==> ROOT_INODE <= a.table[id] < a.next)
    && (forall k :: k in a.issued ==> ROOT_INODE < k < a.next)
  }

  /** The id stored under an inode. */
  function FileIdOf(t: InodeTable, inode: nat): Option<FileId>
    requires Injective(t)
  {
    if inode in t.Values then
      var id :| id in t && t[id] == inode;
      Some(id)
    else None
  }

  lemma FileIdOfUnique(t: InodeTable, id: FileId)
    requires Injective(t) && id in t
    ensures FileIdOf(t, t[id]) == Some(id)
  {
  }

  datatype Event = Alloc(id: FileId) | Drop(id: FileId) | Restart

  /** The root id is never removed, and numbers stay representable. */
  predicate Enabled(a: Allocator, e: Event) {
    match e
    case Alloc(_) => a.next < INODE_LIMIT
    case Drop(id) => id != ROOT_ID
    case Restart => true
  }

  /** None when an operation reports a conflict. */
  ghost function Next(a: Allocator, e: Event): Option<Allocator>
    requires Enabled(a, e)
  {
    match e
    case Alloc(id) => var (a', r) := Allocate(a, id); if r.Ok? then Some(a') else None
    case Drop(id) => Some(Remove(a, id))
    case Restart => var r := Open(a.table); if r.Ok? then Some(r.value) else None
  }

  /** Runs stop at the first event that is not possible or conflicts. */
  ghost function Exec(a: Allocator, es: seq<Event>): Option<Allocator> {
    if es == [] then Some(a)
    else
      var before := Exec(a, es[..|es| - 1]);
      if before.Some? && Enabled(before.value, es[|es| - 1]) then Next(before.value, es[|es| - 1]) else None
  }

  /** Every event of the run was possible when it came. */
  ghost predicate AllEnabled(a: Allocator, es: seq<Event>) {
    es != [] ==>
      var init := es[..|es| - 1];
      AllEnabled(a, init) && (Exec(a, init).Some? ==> Enabled(Exec(a, init).value, es[|es| - 1]))
  }

  lemma FreshOpen()
    ensures Open(map[]) == Ok(Allocator(map[ROOT_ID := ROOT_INODE], 2, {}))
    ensures Inv(Open(map[]).value)
  {
    var empty: InodeTable := map[];
    assert ROOT_INODE !in empty.Values;
  }

  /** No operation ever reports a conflict, and each keeps the invariant. */
  lemma StepKeepsInv(a: Allocator, e: Event)
    requires Inv(a) && Enabled(a, e)
    ensures Next(a, e).Some? && Inv(Next(a, e).value)
  {
    match e
    case Alloc(id) =>
      if id !in a.table {
        assert a.next !in a.table.Values;
      }
    case Drop(_) =>
    case Restart => assert IsMax(a.table, MaxInode(a.table));
  }

  /** Over every run from a fresh table: inodes stay a bijection below the counter, root stays 1, nothing conflicts. */
  lemma {:induction false} RunKeepsInv(a: Allocator, es: seq<Event>)
    requires Inv(a) && AllEnabled(a, es)
    ensures Exec(a, es).Some? && Inv(Exec(a, es).value)
  {
    if es != [] {
      var n := |es| - 1;
      RunKeepsInv(a, es[..n]);
      StepKeepsInv(Exec(a, es[..n]).value, es[n]);
    }
  }

  /** An id that is not removed keeps its inode through every run, restarts included. */
  lemma {:induction false} KeptIdsKeepTheirInode(a: Allocator, es: seq<Event>, x: FileId)
    requires Inv(a) && AllEnabled(a, es)
    requires x in a.table && forall i :: 0 <= i < |es| ==> es[i] != Drop(x)
    ensures Exec(a, es).Some? && x in Exec(a, es).value.table && Exec(a, es).value.table[x] == a.table[x]
  {
    RunKeepsInv(a, es);
    if es != [] {
      var n := |es| - 1;
      KeptIdsKeepTheirInode(a, es[..n], x);
      RunKeepsInv(a, es[..n]);
      StepKeepsInv(Exec(a, es[..n]).value, es[n]);
    }
  }

  /** A fresh allocation never repeats a number of its session, whatever has been removed meanwhile. */
  lemma {:induction false} NeverReissuedInSession(a: Allocator, es: seq<Event>, k: nat, id: FileId)
    requires Inv(a) && AllEnabled(a, es) && k in a.issued
    requires forall i :: 0 <= i < |es| ==> !es[i].Restart?
    ensures Exec(a, es).Some? && k in Exec(a, es).value.issued
    ensures var b := Exec(a, es).value; id !in b.table ==> Allocate(b, id).1.Ok? && Allocate(b, id).1.value != k
  {
    RunKeepsInv(a, es);
    if es != [] {
      var n := |es| - 1;
      NeverReissuedInSession(a, es[..n], k, id);
      RunKeepsInv(a, es[..n]);
      StepKeepsInv(Exec(a, es[..n]).value, es[n]);
    }
    var b := Exec(a, es).value;
    if id !in b.table {
      assert b.next !in b.table.Values;
    }
  }

  /**
   After a restart the counter stands just above the surviving maximum: the first fresh allocation gets
   exactly that number, and every number issued in the session exceeds every survivor's.
   */
  lemma {:induction false} RestartResumesAboveSurvivors(a: Allocator, es: seq<Event>, id: FileId)
    requires Inv(a) && AllEnabled(Open(a.table).value, es)
    requires forall i :: 0 <= i < |es| ==> !es[i].Restart?
    ensures var b := Open(a.table).value;
      && (id !in b.table ==> Allocate(b, id).1 == Ok(MaxInode(a.table) + 1))
      && Exec(b, es).Some?
      && forall k :: k in Exec(b, es).value.issued ==> k > MaxInode(a.table)
  {
    var b := Open(a.table).value;
    StepKeepsInv(a, Restart);
    if id !in b.table {
      assert b.next !in b.table.Values;
    }
    IssuedFrom(b, es);
  }

  lemma {:induction false} IssuedFrom(b: Allocator, es: seq<Event>)
    requires Inv(b) && b.issued == {} && AllEnabled(b, es)
    requires forall i :: 0 <= i < |es| ==> !es[i].Restart?
    ensures Exec(b, es).Some? && Exec(b, es).value.next >= b.next
    ensures forall k :: k in Exec(b, es).value.issued ==> k >= b.next
  {
    if es != [] {
      var n := |es| - 1;
      IssuedFrom(b, es[..n]);
      RunKeepsInv(b, es[..n]);
      IssuedStep(Exec(b, es[..n]).value, es[n], b.next);
    }
  }

  lemma IssuedStep(a: Allocator, e: Event, base: nat)
    requires Inv(a) && Enabled(a, e) && !e.Restart?
    requires a.next >= base && forall k :: k in a.issued ==> k >= base
    ensures Next(a, e).Some? && Next(a, e).value.next >= base
    ensures forall k :: k in Next(a, e).value.issued ==> k >= base
  {
    StepKeepsInv(a, e);
  }

  /** A number above the surviving maximum does come back: allocate, remove, restart, allocate. */
  lemma RemovedNumberReturnsAfterRestart(x: FileId, y: FileId)
    requires x != ROOT_ID && y != ROOT_ID
    ensures var a0 := Open(map[]).value;
      var (a1, r1) := Allocate(a0, x);
      var a2 := Open(Remove(a1, x).table);
      && r1 == Ok(2) && a2.Ok? && Allocate(a2.value, y).1 == Ok(2)
  {
    FreshOpen();
    var a0 := Open(map[]).value;
    assert 2 !in a0.table.Values;
    var a1 := Allocate(a0, x).0;
    assert a1.table == map[ROOT_ID := 1, x := 2];
    var t := Remove(a1, x).table;
    assert t == map[ROOT_ID := 1];
    assert IsMax(t, MaxInode(t));
    assert 2 !in t.Values;
  }

  // ---------- The manager in the source's form ----------

  class InodeManager {
    var table: InodeTable
    var nextInode: nat
    ghost var issued: set<nat>

    ghost function State(): Allocator
      reads this
    {
      Allocator(table, nextInode, issued)
    }

    /** Restores the counter from the stored table and ensures the root mapping. */
    constructor (stored: InodeTable)
      requires Open(stored).Ok?
      ensures Ok(State()) == Open(stored)
    {
      var max := 0;
      var left := stored.Keys;
      while left != {}
        invariant left <= stored.Keys
        invariant forall id :: id in stored && id !in left ==> stored[id] <= max
        invariant max == 0 || max in stored.Values
        decreases left
      {
        var id :| id in left;
        if stored[id] > max {
          max := stored[id];
        }
        left := left - {id};
      }
      assert stored != map[] ==> IsMax(stored, max) by {
        if stored != map[] {
          var id :| id in stored;
          assert max == 0 ==> stored[id] == 0 && 0 in stored.Values;
        }
      }
      assert max == MaxInode(stored);
      nextInode := if max == 0 then ROOT_INODE + 1 else max + 1;
      table := if ROOT_ID in stored then stored else stored[ROOT_ID := ROOT_INODE];
      issued := {};
    }

    /** Refuses a stored table whose inode 1 belongs to another id while the root has none. */
    static method New(stored: InodeTable) returns (r: Result<InodeManager, InsertError>)
      ensures r.Err? <==> ROOT_ID !in stored && ROOT_INODE in stored.Values
      ensures r.Err? ==> Open(stored) == Err(r.error)
      ensures r.Ok? ==> fresh(r.value) && Ok(r.value.State()) == Open(stored)
    {
      if ROOT_ID !in stored && ROOT_INODE in stored.Values {
        return Err(InodeTaken);
      }
      var manager := new InodeManager(stored);
      r := Ok(manager);
    }

    method GetOrAllocate(id: FileId) returns (r: Result<nat, InsertError>)
      modifies this
      ensures (State(), r) == Allocate(old(State()), id)
    {
      if id in table {
        return Ok(table[id]);
      }
      var inode := nextInode;
      nextInode := nextInode + 1;
      if inode in table.Values {
        return Err(InodeTaken);
      }
      table := table[id := inode];
      issued := issued + {inode};
      r := Ok(inode);
    }

    method GetFileId(inode: nat) returns (r: Option<FileId>)
      requires Injective(table)
      ensures r == FileIdOf(table, inode)
      ensures r.Some? <==> exists id :: id in table && table[id] == inode
    {
      r := None;
      if id :| id in table && table[id] == inode {
        FileIdOfUnique(table, id);
        r := Some(id);
      }
    }

    method RemoveId(id: FileId)
      modifies this
      ensures State() == Remove(old(State()), id)
    {
      table := table - {id};
    }
  }
}
