/**
 `initial_sync`: list the provider, store every item, then take a start cursor and save it.

 A table with its cursor tracks the provider when replaying the feed from that cursor will always bring
 it level. This file says exactly when a completed `initial_sync` leaves a tracking table, exhibits the
 three ways in which it does not, and proves the repairs. A listing is any list of items the provider
 holds: `list_folder(root)` answers with one page of what lies right below the root.
 */
module InitialSync {
  import opened CloudTypes
  import opened ChangeReplay
  import opened SyncMachine

  function UpsertAll(t: Table, items: seq<CloudItem>): Table {
    if items == [] then t else Upsert(UpsertAll(t, items[..|items| - 1]), items[|items| - 1])
  }

  /** Whatever the remote does next, replaying from position `p` brings the table level with it. */
  ghost predicate Tracks(t: Table, log: seq<Change>, p: nat)
    requires p <= |log|
  {
    forall more: seq<Change> :: Mirror(ApplyAll(t, log[p..] + more)) == Remote(log + more)
  }

  lemma {:induction false} TracksMeansLevelNow(t: Table, log: seq<Change>, p: nat)
    requires p <= |log|
    ensures Tracks(t, log, p) <==> Mirror(ApplyAll(t, log[p..])) == Remote(log)
  {
    var rest := log[p..];
    if Tracks(t, log, p) {
      assert rest + [] == rest && log + [] == log;
      assert Mirror(ApplyAll(t, rest + [])) == Remote(log + []);
    }
    if Mirror(ApplyAll(t, rest)) == Remote(log) {
      forall more: seq<Change> ensures Mirror(ApplyAll(t, rest + more)) == Remote(log + more) {
        ApplyConcat(t, rest, more);
        ApplyConcat(map[], log, more);
        MirrorCommutes(ApplyAll(t, rest), more);
      }
    }
  }

  predicate Listed(items: seq<CloudItem>, x: FileId) {
    exists i :: 0 <= i < |items| && items[i].id == x
  }

  /** The listing leaves nothing out. `list_folder(root)` promises this only of files right below the root. */
  ghost predicate Complete(items: seq<CloudItem>, remote: Table) {
    forall x :: x in remote ==> Listed(items, x)
  }

  lemma {:induction false} UpsertAllRow(t: Table, items: seq<CloudItem>, x: FileId)
    ensures !Listed(items, x) ==> Lookup(UpsertAll(t, items), x) == Lookup(t, x)
    ensures Listed(items, x) ==>
      && x in UpsertAll(t, items)
      && exists i ::
        && 0 <= i < |items|
        && items[i].id == x
        && UpsertAll(t, items)[x] == Row(Provided(items[i]), if x in t then t[x].local else FRESH)
  {
    if items != [] {
      var init := items[..|items| - 1];
      UpsertAllRow(t, init, x);
      assert forall i :: 0 <= i < |init| ==> init[i] == items[i];
      if items[|items| - 1].id != x && x in UpsertAll(t, init) {
        assert UpsertAll(t, items)[x] == UpsertAll(t, init)[x];
      }
    }
  }

  /** Provider columns after storing a listing of `remote`: the listing's where it lists, the old ones elsewhere. */
  function Overlay(t: Table, items: seq<CloudItem>, remote: Table, x: FileId): Option<Row> {
    Lookup(if Listed(items, x) then remote else Mirror(t), x)
  }

  /** Storing a listing overlays it on the table and keeps the local columns of rows that were there. */
  lemma {:induction false} ListingOverlays(t: Table, items: seq<CloudItem>, remote: Table, x: FileId)
    requires IsListing(items, remote) && Mirror(remote) == remote
    ensures Lookup(Mirror(UpsertAll(t, items)), x) == Overlay(t, items, remote, x)
    ensures x in t ==> x in UpsertAll(t, items) && UpsertAll(t, items)[x].local == t[x].local
  {
    UpsertAllRow(t, items, x);
    assert x in remote ==> remote[x] == Mirror(remote)[x];
  }

  // ---------- As written: list first, cursor last ----------

  predicate InitialSyncEvent(e: Event) {
    e.Append? || e.UpsertNext? || e.TakeCursor? || e.SaveStart?
  }

  /** How far a run of `initial_sync` begun with table `t` at position `at` has come. */
  ghost predicate Progress(w: World, t: Table, at: nat, items: seq<CloudItem>) {
    && at <= |w.log|
    && match w.proc
       case Idle => w.table == UpsertAll(t, items) && w.cursor == Some(w.seen) && at <= w.seen <= |w.log|
       case Start(token) => w.table == UpsertAll(t, items) && at <= token <= |w.log| && w.seen <= token
       case Listing(_, its, stored) => its == items && stored <= |items| && w.table == UpsertAll(t, items[..stored])
       case _ => false
  }

  lemma ProgressStep(w: World, e: Event, t: Table, at: nat, items: seq<CloudItem>)
    requires Valid(w) && Enabled(w, e) && InitialSyncEvent(e) && Progress(w, t, at, items)
    ensures Progress(Next(w, e), t, at, items)
  {
    match e
    case UpsertNext =>
      assert items[..w.proc.stored + 1][..w.proc.stored] == items[..w.proc.stored];
    case TakeCursor =>
      assert items[..|items|] == items;
    case _ =>
  }

  /** A completed run of `initial_sync` stores the whole listing and a cursor taken after it. */
  lemma {:induction false} InitialSyncRun(w0: World, items: seq<CloudItem>, es: seq<Event>)
    requires Valid(w0) && Enabled(w0, List(items))
    requires forall i :: 0 <= i < |es| ==> InitialSyncEvent(es[i])
    requires Exec(Next(w0, List(items)), es).Some?
    ensures Progress(Exec(Next(w0, List(items)), es).value, w0.table, |w0.log|, items)
  {
    if es == [] {
      assert items[..0] == [];
    } else {
      var init := es[..|es| - 1];
      assert forall i :: 0 <= i < |init| ==> init[i] == es[i];
      InitialSyncRun(w0, items, init);
      ProgressStep(Exec(Next(w0, List(items)), init).value, es[|es| - 1], w0.table, |w0.log|, items);
    }
  }

  /** Row `x` is right at the moment of the cursor (`now`) after storing a listing made at `before`. */
  ghost predicate SufficesFor(t: Table, items: seq<CloudItem>, before: Table, now: Table, x: FileId) {
    Overlay(t, items, before, x) == Lookup(now, x)
  }

  /**
   What `initial_sync` needs: each listed file is unchanged until the cursor is taken, each unlisted file
   the provider holds is already stored as it is, and each unlisted stored row is still held.
   */
  ghost predicate ListingSuffices(t: Table, items: seq<CloudItem>, before: Table, now: Table) {
    && (forall x :: Listed(items, x) ==> Lookup(now, x) == Lookup(before, x))
    && (forall x :: x in now && !Listed(items, x) ==> x in t && t[x].cols == now[x].cols)
    && (forall x :: x in t && !Listed(items, x) ==> x in now)
  }

  lemma SufficesRowByRow(t: Table, items: seq<CloudItem>, before: Table, now: Table)
    requires Mirror(now) == now
    ensures ListingSuffices(t, items, before, now) <==> forall x :: SufficesFor(t, items, before, now, x)
  {
    forall x | !Listed(items, x)
      ensures SufficesFor(t, items, before, now, x) <==>
        (x in now ==> x in t && t[x].cols == now[x].cols) && (x in t ==> x in now)
    {
      assert x in now ==> now[x] == Mirror(now)[x];
    }
    if forall x :: SufficesFor(t, items, before, now, x) {
      forall x | Listed(items, x) ensures Lookup(now, x) == Lookup(before, x) {
        assert SufficesFor(t, items, before, now, x);
      }
      forall x | !Listed(items, x)
        ensures (x in now ==> x in t && t[x].cols == now[x].cols) && (x in t ==> x in now)
      {
        assert SufficesFor(t, items, before, now, x);
      }
    }
  }

  lemma {:induction false} OverlaidLevelIff(t: Table, items: seq<CloudItem>, before: Table, now: Table)
    requires IsListing(items, before) && Mirror(before) == before && Mirror(now) == now
    ensures Mirror(UpsertAll(t, items)) == now <==> ListingSuffices(t, items, before, now)
  {
    SufficesRowByRow(t, items, before, now);
    var stored := Mirror(UpsertAll(t, items));
    forall x ensures SufficesFor(t, items, before, now, x) <==> Lookup(stored, x) == Lookup(now, x) {
      ListingOverlays(t, items, before, x);
    }
    if forall x :: SufficesFor(t, items, before, now, x) {
      forall x ensures Lookup(stored, x) == Lookup(now, x) {
        assert SufficesFor(t, items, before, now, x);
      }
      SameLookupsSameTable(stored, now);
    }
  }

  /**
   From any table and with any listing, made at position `at`: `initial_sync`, taking its cursor at the
   end of `log`, leaves a tracking table exactly when the listing suffices.
   */
  lemma {:induction false} InitialSyncTracksIff(t: Table, log: seq<Change>, at: nat, items: seq<CloudItem>)
    requires at <= |log| && IsListing(items, Remote(log[..at]))
    ensures Tracks(UpsertAll(t, items), log, |log|) <==> ListingSuffices(t, items, Remote(log[..at]), Remote(log))
  {
    RemoteIsMirror(log[..at]);
    RemoteIsMirror(log);
    OverlaidLevelIff(t, items, Remote(log[..at]), Remote(log));
    TracksMeansLevelNow(UpsertAll(t, items), log, |log|);
    assert log[|log|..] == [];
  }

  /**
   Into an empty table: tracking exactly when everything the provider holds at the end was listed, as it
   is then, and nothing listed is gone. For a complete listing that is a provider that did not change.
   */
  lemma {:induction false} FirstSyncTracksIff(log: seq<Change>, at: nat, items: seq<CloudItem>)
    requires at <= |log| && IsListing(items, Remote(log[..at]))
    ensures Tracks(UpsertAll(map[], items), log, |log|) <==>
      forall x :: Lookup(Remote(log), x) == if Listed(items, x) then Lookup(Remote(log[..at]), x) else None
    ensures Complete(items, Remote(log[..at])) ==>
      (Tracks(UpsertAll(map[], items), log, |log|) <==> Remote(log[..at]) == Remote(log))
  {
    var before, now := Remote(log[..at]), Remote(log);
    InitialSyncTracksIff(map[], log, at, items);
    RemoteIsMirror(log);
    SufficesRowByRow(map[], items, before, now);
    forall x ensures SufficesFor(map[], items, before, now, x) <==>
      Lookup(now, x) == if Listed(items, x) then Lookup(before, x) else None {}
    if Complete(items, before) {
      if forall x :: SufficesFor(map[], items, before, now, x) {
        forall x ensures Lookup(before, x) == Lookup(now, x) {
          assert SufficesFor(map[], items, before, now, x);
        }
        SameLookupsSameTable(before, now);
      }
    }
  }

  /**
   Into a table kept from an earlier session, with a quiet provider: tracking exactly when every file that
   was not listed is stored as it is or neither stored nor held. For a complete listing that is: no stored
   row belongs to a file that is gone.
   */
  lemma {:induction false} RestartTracksIff(t: Table, log: seq<Change>, at: nat, items: seq<CloudItem>)
    requires at <= |log| && IsListing(items, Remote(log[..at]))
    requires Remote(log[..at]) == Remote(log)
    ensures Tracks(UpsertAll(t, items), log, |log|) <==>
      forall x :: !Listed(items, x) ==> Lookup(Mirror(t), x) == Lookup(Remote(log), x)
    ensures Complete(items, Remote(log)) ==>
      (Tracks(UpsertAll(t, items), log, |log|) <==> forall x :: x in t ==> x in Remote(log))
  {
    InitialSyncTracksIff(t, log, at, items);
    RemoteIsMirror(log);
    SufficesRowByRow(t, items, Remote(log[..at]), Remote(log));
    forall x ensures SufficesFor(t, items, Remote(log[..at]), Remote(log), x) <==>
      (!Listed(items, x) ==> Lookup(Mirror(t), x) == Lookup(Remote(log), x)) {}
    assert forall x :: Listed(items, x) ==> x in Remote(log);
  }

  /** A row left behind by such a restart stays until its own id appears in the feed again. */
  lemma {:induction false} VanishedRowStays(t: Table, log: seq<Change>, items: seq<CloudItem>, x: FileId, more: seq<Change>)
    requires IsListing(items, Remote(log))
    requires x in t && x !in Remote(log)
    requires !Touched(more, x)
    ensures x in ApplyAll(UpsertAll(t, items), more) && x !in Remote(log + more)
  {
    UpsertAllRow(t, items, x);
    UntouchedLater(UpsertAll(t, items), log, x, more);
  }

  /** A file the listing left out, and which was not stored, stays missing until its id appears in the feed. */
  lemma {:induction false} UnlistedFileStaysMissing(
    t: Table, log: seq<Change>, items: seq<CloudItem>, x: FileId, more: seq<Change>)
    requires IsListing(items, Remote(log)) && !Listed(items, x)
    requires x !in t && x in Remote(log)
    requires !Touched(more, x)
    ensures x !in ApplyAll(UpsertAll(t, items), more) && x in Remote(log + more)
  {
    UpsertAllRow(t, items, x);
    UntouchedLater(UpsertAll(t, items), log, x, more);
  }

  lemma UntouchedLater(t: Table, log: seq<Change>, x: FileId, more: seq<Change>)
    requires !Touched(more, x)
    ensures Lookup(ApplyAll(t, more), x) == Lookup(t, x)
    ensures Lookup(Remote(log + more), x) == Lookup(Remote(log), x)
  {
    ReplayKeepsUntouched(t, more, x);
    ApplyConcat(map[], log, more);
    ReplayKeepsUntouched(Remote(log), more, x);
  }

  // ---------- The whole of start_background_sync ----------

  /** A completed startup leaves the machine at rest, and level with the provider iff the listing sufficed. */
  lemma {:induction false} StartupLeavesLevelIff(w0: World, items: seq<CloudItem>, startup: seq<Event>, w1: World)
    requires Valid(w0) && Enabled(w0, List(items))
    requires forall i :: 0 <= i < |startup| ==> InitialSyncEvent(startup[i])
    requires Exec(Next(w0, List(items)), startup) == Some(w1) && w1.proc.Idle?
    ensures AtRest(w1) && w1.table == UpsertAll(w0.table, items)
    ensures LevelAt(w1.table, w1.log, w1.seen) <==>
      ListingSuffices(w0.table, items, Remote(w0.log), Remote(w1.log[..w1.seen]))
  {
    InitialSyncRun(w0, items, startup);
    RemoteIsMirror(w0.log);
    RemoteIsMirror(w1.log[..w1.seen]);
    OverlaidLevelIff(w0.table, items, Remote(w0.log), Remote(w1.log[..w1.seen]));
  }

  /**
   The whole of `start_background_sync`: a startup whose listing sufficed, then any attempts of either sync
   failing anywhere, with downloads writing local columns throughout. The incremental attempt that
   completes leaves exactly the provider's files.
   */
  lemma {:induction false} StartupConverges(
    w0: World, items: seq<CloudItem>, startup: seq<Event>, w1: World, later: seq<Event>, w2: World)
    requires Valid(w0) && Enabled(w0, List(items))
    requires forall i :: 0 <= i < |startup| ==> InitialSyncEvent(startup[i])
    requires Exec(Next(w0, List(items)), startup) == Some(w1) && w1.proc.Idle?
    requires w1.seen <= |w1.log|
    requires ListingSuffices(w0.table, items, Remote(w0.log), Remote(w1.log[..w1.seen]))
    requires forall i :: 0 <= i < |later| ==> !later[i].SaveStart?
    requires Valid(w1) && Exec(w1, later) == Some(w2) && Valid(w2)
    requires Enabled(w2, SaveCursor) && Completes(w2, SaveCursor)
    ensures var w := Next(w2, SaveCursor);
      w.cursor.Some? && w.cursor.value <= |w.log| && Mirror(w.table) == Remote(w.log[..w.cursor.value])
  {
    StartupLeavesLevelIff(w0, items, startup, w1);
    LevelTracks(w1.table, w1.log, w1.seen, |w1.log|);
    MirrorConverges(w1, later, SaveCursor);
  }

  /**
   The same whether or not the listing sufficed: file by file, a row is right after the completed
   incremental attempt exactly when the startup left it right or the feed has mentioned it since.
   */
  lemma {:induction false} StartupRowIff(
    w0: World, items: seq<CloudItem>, startup: seq<Event>, w1: World, later: seq<Event>, w2: World, x: FileId)
    requires Valid(w0) && Enabled(w0, List(items))
    requires forall i :: 0 <= i < |startup| ==> InitialSyncEvent(startup[i])
    requires Exec(Next(w0, List(items)), startup) == Some(w1) && w1.proc.Idle?
    requires forall i :: 0 <= i < |later| ==> !later[i].SaveStart? && !later[i].List?
    requires Valid(w1) && Exec(w1, later) == Some(w2) && Valid(w2)
    requires Enabled(w2, SaveCursor) && Completes(w2, SaveCursor)
    ensures var w := Next(w2, SaveCursor);
      && w.cursor.Some? && w1.seen <= w.cursor.value <= |w.log|
      && (Lookup(Mirror(w.table), x) == Lookup(Remote(w.log[..w.cursor.value]), x) <==>
          || SufficesFor(w0.table, items, Remote(w0.log), Remote(w1.log[..w1.seen]), x)
          || Touched(w.log[w1.seen..w.cursor.value], x))
  {
    StartupLeavesLevelIff(w0, items, startup, w1);
    MirrorConverges(w1, later, SaveCursor);
    var w, s := Next(w2, SaveCursor), w1.seen;
    var c := w.cursor.value;
    var known := w.log[..c];
    assert known[s..] == w.log[s..c] && known[..s] == w1.log[..s];
    RemoteIsMirror(w0.log);
    ListingOverlays(w0.table, items, Remote(w0.log), x);
    MirrorCommutes(w1.table, w.log[s..c]);
    ReplayedRowIff(w1.table, known, s, x);
  }

  /** Replaying from `p` makes a row right exactly when it was right at `p` or the feed mentions it since. */
  lemma {:induction false} ReplayedRowIff(t: Table, log: seq<Change>, p: nat, x: FileId)
    requires p <= |log|
    ensures Lookup(ApplyAll(Mirror(t), log[p..]), x) == Lookup(Remote(log), x) <==>
      Lookup(Mirror(t), x) == Lookup(Remote(log[..p]), x) || Touched(log[p..], x)
  {
    var rest, base := log[p..], Remote(log[..p]);
    assert log == log[..p] + rest;
    ApplyConcat(map[], log[..p], rest);
    if Touched(rest, x) {
      RemoteIsMirror(log[..p]);
      LastChangeWins(Mirror(t), rest, x);
      LastChangeWins(base, rest, x);
      var last := TouchedHasLast(rest, x);
      OutcomeByLast(Lookup(Mirror(t), x), rest, x, last);
      OutcomeByLast(Lookup(base, x), rest, x, last);
      assert x in base ==> base[x] == Mirror(base)[x];
    } else {
      ReplayKeepsUntouched(Mirror(t), rest, x);
      ReplayKeepsUntouched(base, rest, x);
    }
  }

  // ---------- Three losing runs ----------

  const ITEM := CloudItem("f1", "a.txt", "/a.txt", false, Some(1), None, 0)
  const CREATED := Change(Some(ITEM), "f1", false, 0)
  const DELETED := Change(None, "f1", true, 0)
  const NESTED := CloudItem("f2", "b.txt", "/docs/b.txt", false, Some(1), None, 0)
  const NESTED_CREATED := Change(Some(NESTED), "f2", false, 0)

  lemma RemoteOfOne(c: Change)
    ensures Remote([c]) == ApplyChange(map[], c)
  {
    ApplyOne(map[], c);
  }

  lemma RemoteOfTwo(c: Change, d: Change)
    ensures Remote([c, d]) == ApplyChange(ApplyChange(map[], c), d)
  {
    assert [c, d] == [c] + [d];
    ApplyConcat(map[], [c], [d]);
    ApplyOne(map[], c);
    ApplyOne(ApplyChange(map[], c), d);
  }

  /**
   A file created between the listing and the cursor is lost: `initial_sync` completes, a following
   `incremental_sync` completes with nothing to do, and the table lacks a file the provider has.
   */
  lemma FileCreatedInTheGapIsLost() returns (es: seq<Event>, w: World)
    ensures Exec(World([], map[], None, 0, Idle), es) == Some(w)
    ensures |es| > 0 && es[|es| - 1].SaveCursor? && w.proc.Idle? && w.cursor == Some(|w.log|)
    ensures ITEM.id in Remote(w.log) && ITEM.id !in w.table
  {
    var w0 := World([], map[], None, 0, Idle);
    es, w := [], w0;
    assert IsListing([], Remote([]));
    es, w := RunOne(w0, es, List([]), w);
    assert w == World([], map[], None, 0, Listing(0, [], 0));
    es, w := RunOne(w0, es, Append(CREATED), w);
    es, w := RunOne(w0, es, TakeCursor, w);
    assert w == World([CREATED], map[], None, 0, Start(1));
    es, w := RunOne(w0, es, SaveStart, w);
    es, w := CatchUpWithNothing(w0, es, w);
    RemoteOfOne(CREATED);
  }

  /** An incremental sync that has nothing to fetch completes and changes nothing. */
  lemma CatchUpWithNothing(w0: World, es: seq<Event>, v: World) returns (es': seq<Event>, w: World)
    requires Valid(w0) && Exec(w0, es) == Some(v)
    requires v.proc.Idle? && v.cursor == Some(|v.log|)
    ensures Exec(w0, es') == Some(w) && w == v
    ensures |es'| > 0 && es'[|es'| - 1].SaveCursor?
  {
    es', w := RunOne(w0, es, Begin, v);
    es', w := RunOne(w0, es', Deliver(|v.log|, false), w);
    es', w := RunOne(w0, es', SaveCursor, w);
  }

  /** A restart at the end of the feed with an empty listing: the saved cursor is replaced, rows stay. */
  lemma RestartWithEmptyListing(w0: World, es: seq<Event>, v: World) returns (es': seq<Event>, w: World)
    requires Valid(w0) && Exec(w0, es) == Some(v) && v.proc.Idle?
    ensures Exec(w0, es') == Some(w)
    ensures |es'| > 0 && es'[|es'| - 1].SaveCursor?
    ensures w == v.(cursor := Some(|v.log|), seen := |v.log|)
  {
    es', w := RunOne(w0, es, List([]), v);
    es', w := RunOne(w0, es', TakeCursor, w);
    es', w := RunOne(w0, es', SaveStart, w);
    es', w := CatchUpWithNothing(w0, es', w);
  }

  /** A file below a subfolder is not listed: both syncs complete and the table never gets it. */
  lemma UnlistedFileIsLost() returns (w0: World, es: seq<Event>, w: World)
    ensures w0 == World([NESTED_CREATED], map[], None, 0, Idle)
    ensures Exec(w0, es) == Some(w)
    ensures |es| > 0 && es[|es| - 1].SaveCursor? && w.proc.Idle? && w.cursor == Some(|w.log|)
    ensures NESTED.id in Remote(w.log) && NESTED.id !in w.table
  {
    w0 := World([NESTED_CREATED], map[], None, 0, Idle);
    es, w := RestartWithEmptyListing(w0, [], w0);
    RemoteOfOne(NESTED_CREATED);
  }

  lemma StoppedWorld() returns (w0: World)
    ensures w0 == World([CREATED], map[ITEM.id := Row(Provided(ITEM), FRESH)], Some(1), 1, Idle)
    ensures AtRest(w0) && LevelAt(w0.table, w0.log, w0.seen)
  {
    w0 := World([CREATED], map[ITEM.id := Row(Provided(ITEM), FRESH)], Some(1), 1, Idle);
    RemoteOfOne(CREATED);
    assert [CREATED][..1] == [CREATED];
  }

  /**
   A file deleted while the client was stopped is kept: the client restarts level with the provider and
   with a saved cursor, `initial_sync` replaces that cursor, and the deletion is never replayed.
   */
  lemma DeletionWhileStoppedIsLost() returns (w0: World, es: seq<Event>, w: World)
    ensures AtRest(w0) && LevelAt(w0.table, w0.log, w0.seen)
    ensures Exec(w0, es) == Some(w)
    ensures |es| > 0 && es[|es| - 1].SaveCursor? && w.proc.Idle? && w.cursor == Some(|w.log|)
    ensures ITEM.id !in Remote(w.log) && ITEM.id in w.table
  {
    w0 := StoppedWorld();
    es, w := RunOne(w0, [], Append(DELETED), w0);
    assert w.log == [CREATED, DELETED];
    es, w := RestartWithEmptyListing(w0, es, w);
    RemoteOfTwo(CREATED, DELETED);
  }

  // ---------- Repairs ----------

  /** Rows within `scope` whose ids the listing does not mention are dropped. */
  ghost function KeepListed(t: Table, items: seq<CloudItem>, scope: iset<FileId>): Table {
    map x | x in t && (x in scope ==> Listed(items, x)) :: t[x]
  }

  /**
   Taking the cursor first, at position `p`, listing at the end of `log`, and dropping unlisted rows
   within `scope`: tracking exactly when each file is listed, mentioned by the feed since `p`, or already
   right, which within `scope` means gone from the provider.
   */
  lemma {:induction false} ReconcilingTracksIff(
    t: Table, log: seq<Change>, p: nat, items: seq<CloudItem>, scope: iset<FileId>)
    requires p <= |log| && IsListing(items, Remote(log))
    ensures Tracks(KeepListed(UpsertAll(t, items), items, scope), log, p) <==>
      forall x ::
        || Listed(items, x)
        || Touched(log[p..], x)
        || Lookup(Remote(log), x) == if x in scope then None else Lookup(Mirror(t), x)
  {
    var kept, rest, remote := KeepListed(UpsertAll(t, items), items, scope), log[p..], Remote(log);
    TracksMeansLevelNow(kept, log, p);
    MirrorCommutes(kept, rest);
    var after := ApplyAll(Mirror(kept), rest);
    forall x ensures
      Lookup(after, x) == Lookup(remote, x) <==>
      Listed(items, x) || Touched(rest, x) || Lookup(remote, x) == if x in scope then None else Lookup(Mirror(t), x)
    {
      ReconciledRow(t, log, p, items, scope, x);
    }
    if forall x :: Lookup(after, x) == Lookup(remote, x) {
      SameLookupsSameTable(after, remote);
    }
  }

  lemma {:induction false} ReconciledRow(
    t: Table, log: seq<Change>, p: nat, items: seq<CloudItem>, scope: iset<FileId>, x: FileId)
    requires p <= |log| && IsListing(items, Remote(log))
    ensures
      var kept := KeepListed(UpsertAll(t, items), items, scope);
      Lookup(ApplyAll(Mirror(kept), log[p..]), x) == Lookup(Remote(log), x) <==>
      || Listed(items, x)
      || Touched(log[p..], x)
      || Lookup(Remote(log), x) == if x in scope then None else Lookup(Mirror(t), x)
  {
    var kept := KeepListed(UpsertAll(t, items), items, scope);
    ReplayedRowIff(kept, log, p, x);
    RemoteIsMirror(log);
    ListingOverlays(t, items, Remote(log), x);
    if !Touched(log[p..], x) {
      RemoteKeepsUntouched(log, p, x);
      assert Lookup(Mirror(kept), x) ==
        if x in scope && !Listed(items, x) then None else Overlay(t, items, Remote(log), x);
    }
  }

  /**
   Taking the cursor first and dropping nothing: tracking exactly when each file is listed, mentioned since
   the cursor, or already stored as it is. With a complete listing an empty table always qualifies.
   */
  lemma {:induction false} CursorFirstTracksIff(t: Table, log: seq<Change>, p: nat, items: seq<CloudItem>)
    requires p <= |log| && IsListing(items, Remote(log))
    ensures Tracks(UpsertAll(t, items), log, p) <==>
      forall x :: Listed(items, x) || Touched(log[p..], x) || Lookup(Remote(log), x) == Lookup(Mirror(t), x)
    ensures Complete(items, Remote(log)) ==>
      (Tracks(UpsertAll(t, items), log, p) <==>
       forall x :: x in t ==> x in Remote(log) || Touched(log[p..], x))
  {
    ReconcilingTracksIff(t, log, p, items, iset{});
    assert KeepListed(UpsertAll(t, items), items, iset{}) == UpsertAll(t, items);
    assert forall x :: Listed(items, x) ==> x in Remote(log);
  }

  /**
   Dropping only what a complete answer would have mentioned is safe: when the listing covers `scope`, no
   row of a file the provider holds is dropped, and its local columns are kept. When every file lies in
   the scope, the result always tracks, from any table and with the remote changing at any moment.
   */
  lemma {:induction false} ReconcilingSyncTracks(
    t: Table, log: seq<Change>, p: nat, items: seq<CloudItem>, scope: iset<FileId>)
    requires p <= |log| && IsListing(items, Remote(log))
    requires forall x :: x in Remote(log) && x in scope ==> Listed(items, x)
    ensures forall x :: x in t && x in Remote(log) ==>
      && x in KeepListed(UpsertAll(t, items), items, scope)
      && KeepListed(UpsertAll(t, items), items, scope)[x].local == t[x].local
    ensures Tracks(KeepListed(UpsertAll(t, items), items, scope), log, p) <==>
      forall x :: x in scope || Listed(items, x) || Touched(log[p..], x) || Lookup(Remote(log), x) == Lookup(Mirror(t), x)
    ensures (forall x :: x in scope) ==> Tracks(KeepListed(UpsertAll(t, items), items, scope), log, p)
  {
    RemoteIsMirror(log);
    forall x | x in t ensures x in UpsertAll(t, items) && UpsertAll(t, items)[x].local == t[x].local {
      ListingOverlays(t, items, Remote(log), x);
    }
    ReconcilingTracksIff(t, log, p, items, scope);
  }

  /**
   Keeping the saved cursor is always enough for a restart: a table that tracks from cursor `q` still
   tracks from it after any later listing, however partial, has been stored.
   */
  lemma {:induction false} KeptCursorTracks(t: Table, log: seq<Change>, q: nat, at: nat, items: seq<CloudItem>)
    requires q <= at <= |log| && IsListing(items, Remote(log[..at]))
    requires Tracks(t, log, q)
    ensures Tracks(UpsertAll(t, items), log, q)
    ensures ApplyAll(UpsertAll(t, items), log[q..]) == ApplyAll(t, log[q..])
  {
    if items != [] {
      var init := items[..|items| - 1];
      KeptCursorTracks(t, log, q, at, init);
      TracksMeansLevelNow(UpsertAll(t, init), log, q);
      ReplayAbsorbsListedItem(UpsertAll(t, init), log, q, at, items[|items| - 1]);
      TracksMeansLevelNow(UpsertAll(t, items), log, q);
    }
  }
}
