/**
 What becomes of the local columns a download writes while the sync thread works. A replay may apply a
 deletion again that was followed by a new creation, so a write can be undone long after it was made.
 */
module LocalColumns {
  import opened CloudTypes
  import opened ChangeReplay
  import opened SyncMachine
  import opened InitialSync

  predicate Holds(w: World, x: FileId, local: Local) {
    x in w.table && w.table[x].local == local
  }

  ghost predicate NoWriteTo(es: seq<Event>, x: FileId) {
    forall i :: 0 <= i < |es| && es[i].LocalWrite? ==> es[i].id != x
  }

  predicate Deletes(w: World, e: Event, x: FileId) {
    e.ApplyNext? && w.proc.Page? && w.proc.next < |w.log| && w.log[w.proc.next].deleted && w.log[w.proc.next].fileId == x
  }

  /** Some step of the run applies a deletion of `x`. */
  ghost predicate Deleted(w: World, es: seq<Event>, x: FileId)
    requires Valid(w) && Exec(w, es).Some?
    decreases |es|
  {
    es != [] &&
    (Deleted(w, es[..|es| - 1], x) || Deletes(Exec(w, es[..|es| - 1]).value, es[|es| - 1], x))
  }

  lemma StepKeepsLocal(w: World, e: Event, x: FileId)
    requires Valid(w) && Enabled(w, e) && (e.LocalWrite? ==> e.id != x)
    ensures Deletes(w, e, x) ==> x !in Next(w, e).table
    ensures !Deletes(w, e, x) && x in w.table ==> Holds(Next(w, e), x, w.table[x].local)
    ensures !Deletes(w, e, x) && x !in w.table && x in Next(w, e).table ==> Holds(Next(w, e), x, FRESH)
  {
  }

  lemma {:induction false} RunKeepsLocal(w: World, es: seq<Event>, x: FileId)
    requires Valid(w) && Exec(w, es).Some? && NoWriteTo(es, x) && x in w.table
    ensures !Deleted(w, es, x) ==> Holds(Exec(w, es).value, x, w.table[x].local)
    ensures Deleted(w, es, x) && x in Exec(w, es).value.table ==> Holds(Exec(w, es).value, x, FRESH)
    decreases |es|
  {
    if es != [] {
      var init := es[..|es| - 1];
      assert forall i :: 0 <= i < |init| ==> init[i] == es[i];
      RunKeepsLocal(w, init, x);
      StepKeepsLocal(Exec(w, init).value, es[|es| - 1], x);
    }
  }

  /** A write of local columns is still there exactly when no deletion of its file was applied since. */
  lemma {:induction false} WriteSurvivesIff(w: World, x: FileId, local: Local, es: seq<Event>)
    requires Valid(w) && Enabled(w, LocalWrite(x, local)) && local != FRESH
    requires Exec(Next(w, LocalWrite(x, local)), es).Some? && NoWriteTo(es, x)
    ensures Holds(Exec(Next(w, LocalWrite(x, local)), es).value, x, local) <==>
      !Deleted(Next(w, LocalWrite(x, local)), es, x)
  {
    RunKeepsLocal(Next(w, LocalWrite(x, local)), es, x);
  }

  // ---------- A write undone by a replay ----------

  const ROW := Row(Provided(ITEM), FRESH)
  const WRITTEN := Local(Synced, Some(5))
  const FEED := [DELETED, CREATED]

  function WorldWith(local: Local, seen: nat, proc: Proc): World {
    World(FEED, map[ITEM.id := ROW.(local := local)], Some(0), seen, proc)
  }

  /** An attempt applies a page that deletes the file and creates it again. */
  lemma ApplyFeed(w0: World, es: seq<Event>, local: Local, seen: nat) returns (es': seq<Event>, w: World)
    requires Valid(w0) && seen <= 2 && Exec(w0, es) == Some(WorldWith(local, seen, Idle))
    ensures es' == es + [Begin, Deliver(2, false), ApplyNext, ApplyNext]
    ensures Exec(w0, es') == Some(w) && w == WorldWith(FRESH, 2, Page(0, 2, false, 2))
  {
    es', w := RunOne(w0, es, Begin, WorldWith(local, seen, Idle));
    es', w := RunOne(w0, es', Deliver(2, false), w);
    assert w == WorldWith(local, 2, Page(0, 2, false, 0));
    es', w := RunOne(w0, es', ApplyNext, w);
    assert w == World(FEED, map[], Some(0), 2, Page(0, 2, false, 1));
    es', w := RunOne(w0, es', ApplyNext, w);
    assert w.table == map[ITEM.id := ROW];
  }

  lemma WriteDuringPage(w0: World) returns (es: seq<Event>, w: World)
    requires w0 == WorldWith(FRESH, 0, Idle)
    ensures Valid(w0) && Exec(w0, es) == Some(w) && w == WorldWith(WRITTEN, 2, Page(0, 2, false, 2))
  {
    es, w := ApplyFeed(w0, [], FRESH, 0);
    es, w := RunOne(w0, es, LocalWrite(ITEM.id, WRITTEN), w);
    assert w.table == map[ITEM.id := ROW.(local := WRITTEN)];
  }

  /** The page is applied, a download records `Synced`, the cursor is not saved, and the replay forgets it. */
  lemma ReplayedDeletionResetsWrite(w0: World)
    returns (es: seq<Event>, w1: World, replay: seq<Event>, w2: World)
    requires w0 == WorldWith(FRESH, 0, Idle)
    ensures Valid(w0) && Exec(w0, es) == Some(w1) && Holds(w1, ITEM.id, WRITTEN)
    ensures replay == [Abort, Begin, Deliver(2, false), ApplyNext, ApplyNext, SaveCursor]
    ensures Exec(w0, es + replay) == Some(w2) && w2 == WorldWith(FRESH, 2, Idle).(cursor := Some(2))
  {
    es, w1 := WriteDuringPage(w0);
    var all;
    all, w2 := RunOne(w0, es, Abort, w1);
    all, w2 := ApplyFeed(w0, all, WRITTEN, 2);
    all, w2 := RunOne(w0, all, SaveCursor, w2);
    replay := [Abort, Begin, Deliver(2, false), ApplyNext, ApplyNext, SaveCursor];
    assert all == es + replay;
  }

  // ---------- The same said of the feed ----------

  /** How far the current attempt has come since cursor `c`. */
  function Reached(w: World): nat
    requires w.cursor.Some?
  {
    if w.proc.Page? then w.proc.next else w.cursor.value
  }

  /** Deletions applied since cursor `c` lie in the part of the feed seen, and cover the part reached. */
  ghost predicate Replayed(w: World, c: nat, deleted: bool, x: FileId) {
    && Valid(w) && w.cursor.Some? && c <= w.cursor.value
    && (w.proc.Ready? ==> w.proc.at == w.cursor.value)
    && (w.proc.Page? ==> w.proc.at == w.cursor.value && (!w.proc.hasMore ==> w.proc.end == w.seen))
    && (DeletedIn(w.log[c..Reached(w)], x) ==> deleted)
    && (deleted ==> DeletedIn(w.log[c..w.seen], x))
  }

  lemma DeletedInMore(log: seq<Change>, c: nat, n: nat, m: nat, x: FileId)
    requires c <= n <= m <= |log| && DeletedIn(log[c..n], x)
    ensures DeletedIn(log[c..m], x)
  {
    var i :| 0 <= i < n - c && log[c..n][i].deleted && log[c..n][i].fileId == x;
    assert log[c..m][i] == log[c..n][i];
  }

  lemma DeletedInNext(log: seq<Change>, c: nat, n: nat, x: FileId)
    requires c <= n < |log|
    ensures DeletedIn(log[c..n + 1], x) <==> DeletedIn(log[c..n], x) || (log[n].deleted && log[n].fileId == x)
  {
    assert log[c..n + 1] == log[c..n] + [log[n]];
    if log[n].deleted && log[n].fileId == x {
      assert log[c..n + 1][n - c] == log[n];
    }
    if DeletedIn(log[c..n], x) {
      DeletedInMore(log, c, n, n + 1, x);
    }
  }

  lemma StepReplayed(w: World, e: Event, c: nat, deleted: bool, x: FileId)
    requires Replayed(w, c, deleted, x) && Enabled(w, e) && !e.SaveStart?
    ensures Replayed(Next(w, e), c, deleted || Deletes(w, e, x), x)
  {
    var w' := Next(w, e);
    match e
    case Append(_) =>
      assert w'.log[c..Reached(w)] == w.log[c..Reached(w)] && w'.log[c..w.seen] == w.log[c..w.seen];
    case Deliver(_, _) =>
      if deleted { DeletedInMore(w.log, c, w.seen, w'.seen, x); }
    case List(_) =>
      if deleted { DeletedInMore(w.log, c, w.seen, w'.seen, x); }
    case ApplyNext =>
      DeletedInNext(w.log, c, w.proc.next, x);
      if Deletes(w, e, x) { DeletedInMore(w.log, c, w.proc.next + 1, w.seen, x); }
    case Abort =>
      if DeletedIn(w.log[c..w.cursor.value], x) { DeletedInMore(w.log, c, w.cursor.value, Reached(w), x); }
    case _ =>
  }

  lemma {:induction false} RunReplayed(w: World, es: seq<Event>, x: FileId)
    requires Valid(w) && w.proc.Idle? && w.cursor.Some? && Exec(w, es).Some?
    requires forall i :: 0 <= i < |es| ==> !es[i].SaveStart?
    ensures Replayed(Exec(w, es).value, w.cursor.value, Deleted(w, es, x), x)
    decreases |es|
  {
    if es == [] {
      assert w.log[w.cursor.value..w.cursor.value] == [];
    } else {
      var init := es[..|es| - 1];
      assert forall i :: 0 <= i < |init| ==> init[i] == es[i];
      RunReplayed(w, init, x);
      StepReplayed(Exec(w, init).value, es[|es| - 1], w.cursor.value, Deleted(w, init, x), x);
    }
  }

  /**
   A write made between two attempts, whatever fails on the way: after the attempt that completes it is
   still there exactly when the feed holds no deletion of its file from the cursor stored when it was
   made up to the cursor stored at the end. A creation after the deletion does not bring it back.
   */
  lemma {:induction false} WriteSurvivesAttemptIff(w: World, x: FileId, local: Local, es: seq<Event>, e: Event)
    requires Valid(w) && w.proc.Idle? && w.cursor.Some?
    requires Enabled(w, LocalWrite(x, local)) && local != FRESH
    requires NoWriteTo(es, x) && forall i :: 0 <= i < |es| ==> !es[i].SaveStart?
    requires Exec(Next(w, LocalWrite(x, local)), es).Some?
    requires
      var v := Exec(Next(w, LocalWrite(x, local)), es).value;
      Enabled(v, e) && Completes(v, e)
    ensures
      var w' := Next(Exec(Next(w, LocalWrite(x, local)), es).value, e);
      && w'.cursor.Some? && w.cursor.value <= w'.cursor.value <= |w'.log|
      && (Holds(w', x, local) <==> !DeletedIn(w'.log[w.cursor.value..w'.cursor.value], x))
  {
    WriteSurvivesIff(w, x, local, es);
    RunReplayed(Next(w, LocalWrite(x, local)), es, x);
  }
}
