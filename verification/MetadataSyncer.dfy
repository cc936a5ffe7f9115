/**
 `MetadataSyncer` in the source's own form: loops over pages, changes and listed items that update the
 database in place. Each method is proved to perform a run of the machine in SyncMachine.dfy, so the
 theorems about runs speak about these methods.
 */
module MetadataSyncing {
  import opened CloudTypes
  import opened ChangeReplay
  import opened SyncMachine
  import opened InitialSync
  import opened MetadataStore

  datatype SyncError = Failed

  datatype PageOutcome = PageFailed | MorePages | LastPage

  /**
   What the environment does at one fetch: the remote gains `grown`, then serves up to `take` changes;
   `more` is the reply's choice when the feed is exhausted.
   */
  datatype Reply = Reply(grown: seq<Change>, take: nat, more: bool)

  function Appends(changes: seq<Change>): seq<Event> {
    if changes == [] then [] else Appends(changes[..|changes| - 1]) + [Append(changes[|changes| - 1])]
  }

  lemma {:induction false} RunAppends(w0: World, es: seq<Event>, v: World, grown: seq<Change>)
    requires Valid(w0) && Exec(w0, es) == Some(v)
    ensures Exec(w0, es + Appends(grown)) == Some(v.(log := v.log + grown))
    decreases |grown|
  {
    if grown == [] {
      assert es + Appends(grown) == es && v.log + grown == v.log;
    } else {
      var init, c := grown[..|grown| - 1], grown[|grown| - 1];
      var es1, v1 := es + Appends(init), v.(log := v.log + init);
      assert es + Appends(grown) == es1 + [Append(c)] && v.log + grown == v1.log + [c];
      assert Exec(w0, es1) == Some(v1) by { RunAppends(w0, es, v, init); }
      assert Exec(w0, es1 + [Append(c)]) == Some(v1.(log := v1.log + [c])) by { AppendOne(w0, es1, v1, c); }
    }
  }

  lemma AppendOne(w0: World, es: seq<Event>, v: World, c: Change)
    requires Valid(w0) && Exec(w0, es) == Some(v)
    ensures Exec(w0, es + [Append(c)]) == Some(v.(log := v.log + [c]))
  {
    var es', w := RunOne(w0, es, Append(c), v);
  }

  class Provider {
    var log: seq<Change>

    constructor ()
      ensures log == []
    {
      log := [];
    }

    /** A page of the feed: `hasMore` may be false only when the page reaches the end. */
    method GetChanges(cursor: nat, reply: Reply) returns (changes: seq<Change>, end: nat, hasMore: bool)
      requires cursor <= |log|
      modifies this
      ensures log == old(log) + reply.grown
      ensures cursor <= end <= |log| && changes == log[cursor..end]
      ensures !hasMore ==> end == |log|
    {
      log := log + reply.grown;
      end := if cursor + reply.take < |log| then cursor + reply.take else |log|;
      changes := log[cursor..end];
      hasMore := end < |log| || reply.more;
    }

    /** The files currently held and visible to the query (one page below the root), in some order. */
    method ListFolder(visible: set<FileId>) returns (items: seq<CloudItem>)
      ensures IsListing(items, Remote(log))
      ensures forall x :: Listed(items, x) <==> x in visible && x in Remote(log)
    {
      var remote := Remote(log);
      var left := visible * remote.Keys;
      items := [];
      while left != {}
        invariant left <= visible * remote.Keys
        invariant IsListing(items, remote)
        invariant forall x :: Listed(items, x) <==> x in visible && x in remote && x !in left
        decreases left
      {
        var x :| x in left;
        var cols := remote[x].cols;
        var item := CloudItem(
          x, cols.name, cols.path, cols.isFolder, cols.size, cols.contentHash, cols.modifiedAt * NANOS_PER_SECOND);
        ListedSnoc(items, item);
        items := items + [item];
        left := left - {x};
      }
    }
  }

  lemma ListedSnoc(items: seq<CloudItem>, item: CloudItem)
    ensures forall x :: Listed(items + [item], x) <==> Listed(items, x) || x == item.id
  {
    var more := items + [item];
    assert more[|items|] == item && forall i :: 0 <= i < |items| ==> more[i] == items[i];
  }

  /** Attempts since `w0` that only ever replay: what the convergence theorems ask of a run. */
  ghost predicate Replaying(w0: World, es: seq<Event>) {
    AtRest(w0) && Allowed(w0, es) && NoLocalWrites(es)
  }

  ghost predicate Replays(w0: World, e: Event)
    requires AtRest(w0)
  {
    !e.SaveStart? && !e.LocalWrite? && (e.List? ==> Tracking(w0))
  }

  lemma ReplayingSnoc(w0: World, es: seq<Event>, e: Event)
    requires Replaying(w0, es) && Replays(w0, e)
    ensures Replaying(w0, es + [e])
  {
    var more := es + [e];
    forall i | 0 <= i < |more| ensures !more[i].SaveStart? && !more[i].LocalWrite? {
      assert i < |es| ==> more[i] == es[i];
    }
    if e.List? || exists i :: 0 <= i < |es| && es[i].List? {
    } else {
      assert forall i :: 0 <= i < |more| ==> !more[i].List?;
    }
  }

  lemma {:induction false} ReplayingAppends(w0: World, es: seq<Event>, grown: seq<Change>)
    requires Replaying(w0, es)
    ensures Replaying(w0, es + Appends(grown))
    decreases |grown|
  {
    if grown == [] {
      assert es + Appends(grown) == es;
    } else {
      var init := grown[..|grown| - 1];
      ReplayingAppends(w0, es, init);
      ReplayingSnoc(w0, es + Appends(init), Append(grown[|grown| - 1]));
      assert es + Appends(grown) == es + Appends(init) + [Append(grown[|grown| - 1])];
    }
  }

  /** How many changes a run applied. */
  function Applied(es: seq<Event>): nat {
    if es == [] then 0 else Applied(es[..|es| - 1]) + (if es[|es| - 1].ApplyNext? then 1 else 0)
  }

  lemma AppliedSnoc(es: seq<Event>, e: Event)
    ensures Applied(es + [e]) == Applied(es) + (if e.ApplyNext? then 1 else 0)
  {
    assert (es + [e])[..|es + [e]| - 1] == es;
  }

  lemma {:induction false} AppliedAppends(es: seq<Event>, grown: seq<Change>)
    ensures Applied(es + Appends(grown)) == Applied(es)
    decreases |grown|
  {
    if grown == [] {
      assert es + Appends(grown) == es;
    } else {
      var init := grown[..|grown| - 1];
      AppliedAppends(es, init);
      assert es + Appends(grown) == es + Appends(init) + [Append(grown[|grown| - 1])];
      AppliedSnoc(es + Appends(init), Append(grown[|grown| - 1]));
    }
  }

  /** One turn of the sync thread's loop, as the environment lets it go. */
  datatype Attempt = Attempt(visible: set<FileId>, replies: seq<Reply>, budget: nat, now: int)

  /** Between attempts, with a saved cursor from which the table tracks the provider. */
  ghost predicate StartsTracking(w: World) {
    AtRest(w) && Tracking(w)
  }

  class MetadataSyncer {
    const account: AccountId
    const db: Database
    const provider: Provider

    // The run so far: from `origin`, the events of `trace` lead to `world`, which mirrors the real state.
    ghost var origin: World
    ghost var trace: seq<Event>
    ghost var world: World

    /** A client may start over a database that already holds rows and a cursor of this account. */
    constructor (account: AccountId, db: Database, provider: Provider)
      requires db.Valid()
      requires account in db.cursors ==> db.cursors[account] <= |provider.log|
      ensures this.account == account && this.db == db && this.provider == provider
      ensures Traced() && trace == [] && world == origin && world.proc.Idle?
      ensures account in db.cursors ==> AtRest(origin) && Replaying(origin, trace)
    {
      this.account, this.db, this.provider := account, db, provider;
      new;
      var cursor := if account in db.cursors then Some(db.cursors[account]) else Option.None;
      world := World(provider.log, db.Rows(account), cursor, if cursor.Some? then cursor.value else 0, Proc.Idle);
      origin, trace := world, [];
    }

    ghost predicate Coupled()
      reads this, db, provider
    {
      && db.Valid()
      && world.log == provider.log
      && world.table == db.Rows(account)
      && world.cursor == (if account in db.cursors then Some(db.cursors[account]) else None)
    }

    ghost predicate Traced()
      reads this, db, provider
    {
      Coupled() && Valid(origin) && Exec(origin, trace) == Some(world)
    }

    /** The table is that of one uninterrupted replay from `origin` up to the stored cursor. */
    ghost predicate Converged()
      reads this
    {
      && world.cursor.Some? && origin.seen <= |origin.log| <= world.cursor.value <= |world.log|
      && world.table == ApplyAll(origin.table, world.log[origin.seen..world.cursor.value])
    }

    /** The account's provider columns are exactly those of the provider at the stored cursor. */
    ghost predicate MatchesProvider()
      reads db, provider
    {
      && account in db.cursors && db.cursors[account] <= |provider.log|
      && Mirror(db.Rows(account)) == Remote(provider.log[..db.cursors[account]])
    }

    lemma ConvergedAndTracking()
      requires Traced() && Converged() && StartsTracking(origin)
      ensures MatchesProvider()
    {
      TrackingLater(origin, world.log, world.cursor.value);
    }

    /** Nothing that belongs to another account changes. */
    twostate predicate OthersKept()
      reads db
    {
      db.files - {account} == old(db.files) - {account} && db.cursors - {account} == old(db.cursors) - {account}
    }

    /** Inserts or updates one cloud item; an existing row keeps its local columns. */
    method UpsertCloudItem(item: CloudItem, now: int)
      requires db.Valid()
      modifies db
      ensures db.Valid()
      ensures db.cursors == old(db.cursors)
      ensures db.Rows(account) == Upsert(old(db.Rows(account)), item)
      ensures item.id in db.Rows(account) && var cols := db.Rows(account)[item.id].cols;
        && cols.name == item.name && cols.path == item.path && cols.size == item.size
        && cols.contentHash == item.contentHash && cols.isFolder == item.isFolder
      ensures OthersKept()
    {
      var existing := db.GetFileByProviderId(account, item.id);
      match existing
      case Some(file) =>
        var cols := file.row.cols.(
          name := item.name,
          path := item.path,
          size := item.size,
          contentHash := item.contentHash,
          isFolder := item.isFolder,
          modifiedAt := Seconds(item.modified)
        );
        var _ := db.UpdateFile(account, item.id, file.row.(cols := cols), now);
      case None =>
        var _ := db.CreateFile(account, item.id, Row(Provided(item), Local(CloudOnly, Option.None)), now);
    }

    method ApplyOneChange(change: Change, now: int)
      requires db.Valid()
      modifies db
      ensures db.Valid()
      ensures db.cursors == old(db.cursors)
      ensures db.Rows(account) == ApplyChange(old(db.Rows(account)), change)
      ensures OthersKept()
    {
      if change.deleted {
        var existing := db.GetFileByProviderId(account, change.fileId);
        if existing.Some? {
          var _ := db.DeleteFile(account, change.fileId);
        }
        return;
      }
      if change.item.Some? {
        UpsertCloudItem(change.item.value, now);
      }
    }

    // ---------- Single calls, each one step of the machine ----------

    ghost method Record(e: Event)
      requires Valid(origin) && Exec(origin, trace) == Some(world) && Enabled(world, e)
      modifies `trace, `world
      ensures Exec(origin, trace) == Some(world) && Valid(world)
      ensures trace == old(trace) + [e] && world == Next(old(world), e)
      ensures Applied(trace) == old(Applied(trace)) + (if e.ApplyNext? then 1 else 0)
      ensures Replaying(origin, old(trace)) && Replays(origin, e) ==> Replaying(origin, trace)
    {
      AppliedSnoc(trace, e);
      if Replaying(origin, trace) && Replays(origin, e) {
        ReplayingSnoc(origin, trace, e);
      }
      trace, world := RunOne(origin, trace, e, world);
    }

    ghost method Fail()
      requires Traced() && !world.proc.Idle?
      modifies `trace, `world
      ensures Traced() && trace == old(trace) + [Abort] && world == old(world).(proc := Proc.Idle)
      ensures Replaying(origin, old(trace)) ==> Replaying(origin, trace)
    {
      Record(Abort);
    }

    ghost method Grow(grown: seq<Change>)
      requires Valid(origin) && Exec(origin, trace) == Some(world)
      modifies `trace, `world
      ensures Exec(origin, trace) == Some(world)
      ensures trace == old(trace) + Appends(grown) && world == old(world).(log := old(world).log + grown)
      ensures Applied(trace) == old(Applied(trace))
      ensures Replaying(origin, old(trace)) ==> Replaying(origin, trace)
    {
      AppliedAppends(trace, grown);
      if Replaying(origin, trace) {
        ReplayingAppends(origin, trace, grown);
      }
      RunAppends(origin, trace, world, grown);
      trace, world := trace + Appends(grown), world.(log := world.log + grown);
    }

    method FetchPage(cursor: nat, reply: Reply) returns (changes: seq<Change>, end: nat, hasMore: bool)
      requires Traced() && world.proc == Proc.Ready(cursor)
      modifies `trace, `world, provider
      ensures Traced() && origin == old(origin) && old(world).log <= world.log
      ensures cursor <= end <= |world.log| && changes == world.log[cursor..end]
      ensures world.proc == Proc.Page(cursor, end, hasMore, cursor)
      ensures world.cursor == old(world).cursor && db.cursors == old(db.cursors)
      ensures Replaying(origin, old(trace)) ==> Replaying(origin, trace)
      ensures Applied(trace) == old(Applied(trace))
    {
      Grow(reply.grown);
      changes, end, hasMore := provider.GetChanges(cursor, reply);
      Record(Deliver(end, hasMore));
    }

    method ApplyNextOfPage(change: Change, now: int)
      requires Traced() && world.proc.Page? && world.proc.next < world.proc.end <= |world.log|
      requires change == world.log[world.proc.next]
      modifies `trace, `world, db
      ensures Traced() && world.log == old(world).log && world.cursor == old(world).cursor
      ensures world.proc == old(world).proc.(next := old(world).proc.next + 1)
      ensures OthersKept()
      ensures Replaying(origin, old(trace)) ==> Replaying(origin, trace)
      ensures Applied(trace) == old(Applied(trace)) + 1
    {
      Record(ApplyNext);
      ApplyOneChange(change, now);
    }

    method SavePage(end: nat)
      requires Traced() && world.proc.Page? && world.proc.next == world.proc.end == end
      modifies `trace, `world, db
      ensures Traced() && world.log == old(world).log && world.table == old(world).table
      ensures world.cursor == Some(end)
      ensures world.proc == if old(world).proc.hasMore then Proc.Ready(end) else Proc.Idle
      ensures Applied(trace) == old(Applied(trace))
      ensures OthersKept()
      ensures Replaying(origin, old(trace)) ==> Replaying(origin, trace) && (world.proc.Idle? ==> Converged())
    {
      if !world.proc.hasMore && Replaying(origin, trace) {
        ReplayConverges(origin, trace, SaveCursor);
      }
      Record(SaveCursor);
      db.UpsertCursor(account, end);
    }

    /** From here on the run is judged from its present state. */
    ghost method Rebase()
      requires Traced() && AtRest(world)
      modifies `origin, `trace
      ensures Traced() && origin == world && trace == [] && Replaying(origin, trace)
    {
      origin, trace := world, [];
    }

    method ListProvider(visible: set<FileId>) returns (items: seq<CloudItem>)
      requires Traced() && world.proc.Idle?
      modifies `trace, `world
      ensures Traced() && world.log == old(world).log
      ensures world.table == old(world).table && world.cursor == old(world).cursor
      ensures IsListing(items, Remote(world.log))
      ensures forall x :: Listed(items, x) <==> x in visible && x in Remote(world.log)
      ensures world.proc == Proc.Listing(|world.log|, items, 0)
      ensures Replaying(origin, old(trace)) && Tracking(origin) ==> Replaying(origin, trace)
    {
      items := provider.ListFolder(visible);
      Record(List(items));
    }

    method StoreNextOfListing(item: CloudItem, now: int)
      requires Traced() && world.proc.Listing? && world.proc.stored < |world.proc.items|
      requires item == world.proc.items[world.proc.stored]
      modifies `trace, `world, db
      ensures Traced() && world.log == old(world).log && world.cursor == old(world).cursor
      ensures world.proc == old(world).proc.(stored := old(world).proc.stored + 1)
      ensures world.table == Upsert(old(world).table, item)
      ensures OthersKept()
      ensures Replaying(origin, old(trace)) ==> Replaying(origin, trace)
    {
      Record(UpsertNext);
      UpsertCloudItem(item, now);
    }

    method TakeStart(grown: seq<Change>)
      requires Traced() && world.proc.Listing? && world.proc.stored == |world.proc.items|
      modifies `trace, `world, provider
      ensures Traced() && world.log == old(world).log + grown && world.proc == Proc.Start(|world.log|)
      ensures world.table == old(world).table && world.cursor == old(world).cursor
      ensures Replaying(origin, old(trace)) ==> Replaying(origin, trace)
    {
      Grow(grown);
      provider.log := provider.log + grown;
      Record(TakeCursor);
    }

    method SaveStartCursor()
      requires Traced() && world.proc == Proc.Start(|world.log|)
      modifies `trace, `world, db
      ensures Traced() && world.log == old(world).log && world.table == old(world).table
      ensures world.cursor == Some(|world.log|) && AtRest(world)
      ensures OthersKept()
    {
      Record(SaveStart);
      assert AtRest(world);
      db.UpsertCursor(account, |provider.log|);
    }

    // ---------- The two syncs ----------

    method StoreListing(items: seq<CloudItem>, budget: nat, now: int) returns (left: nat, ok: bool)
      requires Traced() && world.proc.Listing? && world.proc.items == items && world.proc.stored == 0
      modifies `trace, `world, db
      ensures Traced() && world.log == old(world).log && world.cursor == old(world).cursor
      ensures OthersKept()
      ensures ok ==> world.proc == old(world).proc.(stored := |items|)
      ensures ok ==> world.table == UpsertAll(old(world).table, items)
      ensures !ok ==> world.proc.Idle?
      ensures Replaying(origin, old(trace)) ==> Replaying(origin, trace)
    {
      left, ok := budget, true;
      var k := 0;
      assert items[..0] == [];
      while k < |items|
        invariant k <= |items|
        invariant Traced() && world.log == old(world).log && world.cursor == old(world).cursor
        invariant world.proc == old(world).proc.(stored := k)
        invariant world.table == UpsertAll(old(world).table, items[..k])
        invariant Replaying(origin, old(trace)) ==> Replaying(origin, trace)
        invariant OthersKept()
      {
        if left == 0 {
          Fail();
          ok := false;
          return;
        }
        left := left - 1;
        StoreNextOfListing(items[k], now);
        assert items[..k + 1][..k] == items[..k];
        k := k + 1;
      }
      assert items[..|items|] == items;
    }

    /** The listing `items` of the visible files was stored over `table`. */
    static ghost predicate StoredListing(table: Table, log: seq<Change>, visible: set<FileId>, items: seq<CloudItem>, result: Table) {
      && IsListing(items, Remote(log))
      && (forall x :: Listed(items, x) <==> x in visible && x in Remote(log))
      && result == UpsertAll(table, items)
    }

    /**
     One full sync. `budget` fallible calls succeed and the next one fails; `grown` is what happens
     remotely between the listing and the request for a cursor.
     */
    method InitialSync(visible: set<FileId>, grown: seq<Change>, budget: nat, now: int) returns (r: Result<nat, SyncError>)
      requires Traced() && world.proc.Idle?
      modifies this, db, provider
      ensures Traced() && world.proc.Idle?
      ensures origin == old(origin)
      ensures OthersKept()
      ensures old(world).log <= world.log
      ensures r.Ok? ==>
        && AtRest(world) && world.cursor == Some(|world.log|) && world.log == old(world).log + grown
        && exists items ::
          r.value == |items| && StoredListing(old(world).table, old(world).log, visible, items, world.table)
      ensures r.Err? ==> world.cursor == old(world).cursor
      ensures r.Err? && Replaying(origin, old(trace)) && Tracking(origin) ==>
        Replaying(origin, trace)
    {
      var left := budget;
      if left == 0 {
        return Err(Failed);
      }
      left := left - 1;
      var items := ListProvider(visible);
      var ok;
      left, ok := StoreListing(items, left, now);
      if !ok {
        return Err(Failed);
      }
      if left == 0 {
        Fail();
        return Err(Failed);
      }
      left := left - 1;
      TakeStart(grown);
      if left == 0 {
        Fail();
        return Err(Failed);
      }
      SaveStartCursor();
      assert StoredListing(old(world).table, old(world).log, visible, items, world.table);
      return Ok(|items|);
    }

    method ApplyPage(cursor: nat, end: nat, changes: seq<Change>, budget: nat, now: int) returns (left: nat, ok: bool)
      requires Traced() && cursor <= end <= |world.log| && changes == world.log[cursor..end]
      requires world.proc.Page? && world.proc == Proc.Page(cursor, end, world.proc.hasMore, cursor)
      modifies `trace, `world, db
      ensures Traced() && world.log == old(world).log && world.cursor == old(world).cursor
      ensures OthersKept()
      ensures Replaying(origin, old(trace)) ==> Replaying(origin, trace)
      ensures ok ==> world.proc == old(world).proc.(next := end)
      ensures ok ==> Applied(trace) == old(Applied(trace)) + |changes|
      ensures !ok ==> world.proc.Idle?
    {
      left, ok := budget, true;
      var k := 0;
      while k < |changes|
        invariant k <= |changes|
        invariant Traced() && world.log == old(world).log && world.cursor == old(world).cursor
        invariant world.proc == old(world).proc.(next := cursor + k)
        invariant Applied(trace) == old(Applied(trace)) + k
        invariant Replaying(origin, old(trace)) ==> Replaying(origin, trace)
        invariant OthersKept()
      {
        if left == 0 {
          Fail();
          ok := false;
          return;
        }
        left := left - 1;
        ApplyNextOfPage(changes[k], now);
        k := k + 1;
      }
    }

    /** One turn of the loop: fetch a page, apply it, save its cursor. */
    method SyncPage(cursor: nat, reply: Reply, budget: nat, now: int)
      returns (left: nat, count: nat, next: nat, outcome: PageOutcome)
      requires Traced() && world.proc == Proc.Ready(cursor)
      modifies `trace, `world, db, provider
      ensures Traced()
      ensures OthersKept()
      ensures world.cursor == (if outcome.PageFailed? then old(world).cursor else Some(next))
      ensures world.proc == if outcome.MorePages? then Proc.Ready(next) else Proc.Idle
      ensures Replaying(origin, old(trace)) ==> Replaying(origin, trace)
      ensures !outcome.PageFailed? ==> Applied(trace) == old(Applied(trace)) + count
      ensures outcome.LastPage? && Replaying(origin, old(trace)) ==> Converged()
      ensures old(world).log <= world.log
    {
      var changes, end, hasMore := FetchPage(cursor, reply);
      count, next := |changes|, end;
      var ok;
      left, ok := ApplyPage(cursor, end, changes, budget, now);
      if !ok {
        outcome := PageFailed;
        return;
      }
      if left == 0 {
        Fail();
        outcome := PageFailed;
        return;
      }
      left := left - 1;
      SavePage(end);
      outcome := if hasMore then MorePages else LastPage;
    }

    /**
     One incremental sync. The environment answers fetches with `replies` and the call after `budget`
     successful ones fails. Whatever happens, the trace stays a run of the sync machine; when the method
     succeeds after any number of failed attempts since `origin`, the table is the one an uninterrupted
     replay from `origin` gives.
     */
    method IncrementalSync(visible: set<FileId>, replies: seq<Reply>, budget: nat, now: int) returns (r: Result<nat, SyncError>)
      requires Traced() && world.proc.Idle?
      modifies this, db, provider
      ensures Traced() && world.proc.Idle?
      ensures origin == old(origin)
      ensures OthersKept()
      ensures old(world).cursor.Some? && Replaying(origin, old(trace)) ==> Replaying(origin, trace)
      ensures r.Ok? && old(world).cursor.Some? ==> r.value == Applied(trace) - old(Applied(trace))
      ensures r.Ok? && old(world).cursor.Some? && Replaying(origin, old(trace)) ==> Converged()
      ensures old(world).cursor.None? ==> (r.Ok? <==> world.cursor.Some?)
      ensures r.Ok? && old(world).cursor.None? ==>
        && AtRest(world) && world.seen == |world.log|
        && exists items ::
          r.value == |items| && StoredListing(old(world).table, old(world).log, visible, items, world.table)
      ensures old(world).cursor.Some? ==> world.cursor.Some?
      ensures old(world).log <= world.log
    {
      var left := budget;
      if left == 0 {
        return Err(Failed);
      }
      left := left - 1;
      if account !in db.cursors {
        var grown := if |replies| > 0 then replies[0].grown else [];
        r := InitialSync(visible, grown, left, now);
        return;
      }
      var cursor := db.cursors[account];
      Record(Begin);
      var total := 0;
      var i := 0;
      while true
        invariant i <= |replies|
        invariant Traced() && origin == old(origin)
        invariant world.proc == Proc.Ready(cursor) && account in db.cursors
        invariant Applied(trace) == old(Applied(trace)) + total
        invariant Replaying(origin, old(trace)) ==> Replaying(origin, trace)
        invariant OthersKept() && old(world).log <= world.log
        decreases |replies| - i
      {
        if left == 0 || i == |replies| {
          Fail();
          return Err(Failed);
        }
        left := left - 1;
        var count, outcome;
        left, count, cursor, outcome := SyncPage(cursor, replies[i], left, now);
        if outcome.PageFailed? {
          return Err(Failed);
        }
        total := total + count;
        if outcome.LastPage? {
          return Ok(total);
        }
        i := i + 1;
      }
    }

    // ---------- start_background_sync ----------

    /** One full sync and, when it completes, a new start of the run. */
    method Startup(visible: set<FileId>, grown: seq<Change>, budget: nat, now: int) returns (r: Result<nat, SyncError>)
      requires Traced() && world.proc.Idle?
      modifies this, db, provider
      ensures Traced() && world.proc.Idle? && OthersKept() && old(world).log <= world.log
      ensures r.Ok? ==>
        && origin == world && Replaying(origin, trace) && origin.log == old(world).log + grown
        && origin.cursor == Some(|origin.log|)
        && exists items :: StoredListing(old(world).table, old(world).log, visible, items, origin.table)
      ensures r.Err? ==> world.cursor == old(world).cursor
      ensures r.Err? && old(AtRest(world)) ==> origin == old(world)
      ensures r.Err? && old(StartsTracking(world)) ==> Replaying(origin, trace)
    {
      if AtRest(world) {
        Rebase();
      }
      r := InitialSync(visible, grown, budget, now);
      if r.Ok? {
        Rebase();
      }
    }

    /** One incremental sync; when it had to fall back to a full one that completes, the run starts anew there. */
    method Attempted(attempt: Attempt) returns (r: Result<nat, SyncError>)
      requires Traced() && world.proc.Idle?
      modifies this, db, provider
      ensures Traced() && world.proc.Idle? && OthersKept() && old(world).log <= world.log
      ensures old(world).cursor.Some? ==> world.cursor.Some? && origin == old(origin)
      ensures old(world).cursor.Some? && Replaying(origin, old(trace)) ==> Replaying(origin, trace) && (r.Ok? ==> Converged())
      ensures old(world).cursor.None? && world.cursor.Some? ==> Replaying(origin, trace) && Converged()
      ensures r.Ok? ==> world.cursor.Some?
    {
      ghost var hadCursor := world.cursor.Some?;
      r := IncrementalSync(attempt.visible, attempt.replies, attempt.budget, attempt.now);
      if !hadCursor && r.Ok? {
        Rebase();
        assert Converged() by {
          assert world.log[origin.seen..origin.seen] == [];
        }
      }
    }

    /**
     The sync thread: one full sync, then one attempt after another until it is told to stop, going on
     after every failure. When the last attempt succeeds, the table is that of one uninterrupted replay,
     - after a completed startup, from the stored listing and the start cursor;
     - after a failed startup over a table that tracks from its saved cursor, from that table and cursor;
     - on a machine that had no cursor, from the first full sync that completed.
     A table that tracked the provider there is then level with it.
     */
    method BackgroundSync(visible: set<FileId>, grown: seq<Change>, budget: nat, now: int, attempts: seq<Attempt>)
      returns (startup: Result<nat, SyncError>, last: Option<Result<nat, SyncError>>)
      requires Traced() && world.proc.Idle?
      modifies this, db, provider
      ensures Traced() && world.proc.Idle? && OthersKept() && old(world).log <= world.log
      ensures startup.Ok? ==>
        && Replaying(origin, trace) && origin.log == old(world).log + grown && origin.cursor == Some(|origin.log|)
        && exists items :: StoredListing(old(world).table, old(world).log, visible, items, origin.table)
      ensures startup.Err? && old(AtRest(world)) ==> origin == old(world)
      ensures last.Some? && last.value.Ok? && (startup.Ok? || old(world).cursor.None? || StartsTracking(old(world))) ==>
        Converged() && (StartsTracking(origin) ==> MatchesProvider())
    {
      startup := Startup(visible, grown, budget, now);
      last := Option.None;
      ghost var base := origin;
      var i := 0;
      while i < |attempts|
        invariant i <= |attempts|
        invariant Traced() && world.proc.Idle? && OthersKept() && old(world).log <= world.log
        invariant startup.Ok? || old(world).cursor.Some? ==> origin == base && world.cursor.Some?
        invariant (startup.Ok? || old(world).cursor.None? || StartsTracking(old(world))) && world.cursor.Some? ==>
          Replaying(origin, trace) && (last.Some? && last.value.Ok? ==> Converged())
        invariant last.Some? && last.value.Ok? ==> world.cursor.Some?
      {
        var r := Attempted(attempts[i]);
        last := Some(r);
        i := i + 1;
      }
      if Converged() && StartsTracking(origin) {
        ConvergedAndTracking();
      }
    }
  }
}
