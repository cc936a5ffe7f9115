/**
 Which version a cached copy holds. A copy on disk is served as long as it is there, and applying a change
 of the file's content neither removes it nor takes the row out of `Synced`.
 */
module CachedCopies {
  import opened CloudTypes
  import opened ChangeReplay
  import opened SyncMachine
  import opened InitialSync
  import Download = DownloadProtocol

  // ---------- The copy is served for ever ----------

  /** Where a call can be that has a whole file in front of it. */
  predicate OnlyLooks(pc: Download.Pc) {
    pc.CheckDisk? || pc.GetEntry? || pc.AcquireFirst? || pc.Recheck? || pc.Waiting? || pc == Download.Done(Download.OkPath)
  }

  ghost predicate Serving(s: Download.State, local: Local) {
    && s.disk.Full? && s.local == local && !s.began
    && (forall t :: t in s.calls ==> OnlyLooks(s.calls[t]))
  }

  lemma StepKeepsServing(n: Download.Setting, s: Download.State, a: Download.Action, local: Local)
    requires Serving(s, local) && Download.Enabled(n, s, a)
    ensures Serving(Download.Next(n, s, a), local)
  {
    if !a.Restart? && a.call in s.calls {
      assert OnlyLooks(s.calls[a.call]);
    }
  }

  /**
   Once a file is cached, every call of every session, in either protocol and any interleaving, returns that
   copy: no call asks the provider again, and the row's local columns stay as they are.
   */
  lemma {:induction false} CachedCopyIsServed(n: Download.Setting, s0: Download.State, acts: seq<Download.Action>)
    requires Download.Initial(s0) && s0.disk.Full? && Download.Exec(n, s0, acts).Some?
    ensures var s := Download.Exec(n, s0, acts).value;
      && s.disk == s0.disk && s.local == s0.local && !s.began
      && (forall t :: t in s.calls && s.calls[t].Done? ==> s.calls[t].reply.OkPath?)
    ensures Serving(Download.Exec(n, s0, acts).value, s0.local)
  {
    if acts != [] {
      CachedCopyIsServed(n, s0, acts[..|acts| - 1]);
      StepKeepsServing(n, Download.Exec(n, s0, acts[..|acts| - 1]).value, acts[|acts| - 1], s0.local);
    }
  }

  // ---------- A copy that was removed ----------

  /**
   A session that has downloaded the file, at the moment the copy is removed from the cache directory and with
   no call under way; what begins is recorded from here on.
   */
  predicate Evicted(s: Download.State) {
    s.calls == map[] && s.entry == Some(Download.Complete) && s.holder.None? && s.disk.Absent? && !s.began
  }

  ghost predicate Promising(s: Download.State, local: Local) {
    && s.disk.Absent? && s.local == local && !s.began && s.entry == Some(Download.Complete)
    && (forall t :: t in s.calls ==> OnlyLooks(s.calls[t]) || s.calls[t].Decide?)
  }

  lemma StepKeepsPromising(n: Download.Setting, s: Download.State, a: Download.Action, local: Local)
    requires Promising(s, local) && Download.Enabled(n, s, a) && !a.Restart?
    ensures Promising(Download.Next(n, s, a), local)
  {
    if a.call in s.calls {
      assert OnlyLooks(s.calls[a.call]) || s.calls[a.call].Decide?;
    }
  }

  /**
   Until the process restarts, every call then still returns the path, although no file is there, and none
   downloads it again: the status says `Complete`.
   */
  lemma {:induction false} RemovedCopyIsStillPromised(n: Download.Setting, s0: Download.State, acts: seq<Download.Action>)
    requires Evicted(s0) && Download.Exec(n, s0, acts).Some?
    requires forall i :: 0 <= i < |acts| ==> !acts[i].Restart?
    ensures var s := Download.Exec(n, s0, acts).value;
      && s.disk.Absent? && s.local == s0.local && !s.began
      && (forall t :: t in s.calls && s.calls[t].Done? ==> s.calls[t].reply.OkPath?)
    ensures Promising(Download.Exec(n, s0, acts).value, s0.local)
  {
    if acts != [] {
      var init := acts[..|acts| - 1];
      assert forall i :: 0 <= i < |init| ==> init[i] == acts[i];
      RemovedCopyIsStillPromised(n, s0, init);
      StepKeepsPromising(n, Download.Exec(n, s0, init).value, acts[|acts| - 1], s0.local);
    }
  }

  /** After a restart the same state is a new start, from which a call downloads the file again. */
  lemma RestartForgetsThePromise(n: Download.Setting, s: Download.State)
    requires Evicted(s)
    ensures Download.Enabled(n, s, Download.Restart)
    ensures var s0 := Download.Next(n, s, Download.Restart); Download.Initial(s0) && s0.disk.Absent? && s0.entry.None?
  {
  }

  // ---------- Exactly when it is current ----------

  /** The row exists and describes the content whose hash is `hash`. */
  predicate HasContent(t: Table, x: FileId, hash: Option<string>) {
    x in t && t[x].cols.contentHash == hash
  }

  /** The log last says of the file what the copy holds, or says nothing of it. */
  ghost predicate StillSays(log: seq<Change>, x: FileId, hash: Option<string>) {
    forall i :: IsLastTouch(log, x, i) ==> !log[i].deleted && log[i].item.value.contentHash == hash
  }

  /**
   A copy that held the row's content holds it after replaying a log exactly when the last change of the
   file, if any, has that content. The row keeps its local columns all the same, unless it is deleted.
   */
  lemma {:induction false} CopyIsCurrentIff(t: Table, log: seq<Change>, x: FileId)
    requires x in t
    ensures HasContent(ApplyAll(t, log), x, t[x].cols.contentHash) <==> StillSays(log, x, t[x].cols.contentHash)
    ensures !DeletedIn(log, x) ==> x in ApplyAll(t, log) && ApplyAll(t, log)[x].local == t[x].local
  {
    LastChangeWins(t, log, x);
    if Touched(log, x) {
      var last := TouchedHasLast(log, x);
      OutcomeByLast(Lookup(t, x), log, x, last);
      assert forall i :: IsLastTouch(log, x, i) ==> i == last;
      assert log[last].deleted ==> DeletedIn(log, x);
    } else {
      OutcomeUntouched(Lookup(t, x), log, x);
    }
  }

  /**
   The same over any run of the sync thread that completes an attempt, with failures, replays and local
   writes on the way: the copy made at the start is the row's content exactly when the feed between the two
   cursors last gives the file that content or does not mention it.
   */
  lemma {:induction false} CopyIsCurrentAfterSyncIff(w0: World, es: seq<Event>, e: Event, x: FileId)
    requires AtRest(w0) && Allowed(w0, es) && x in w0.table
    requires Exec(w0, es).Some? && Enabled(Exec(w0, es).value, e) && Completes(Exec(w0, es).value, e)
    ensures var w := Next(Exec(w0, es).value, e); var hash := w0.table[x].cols.contentHash;
      && w.cursor.Some? && w0.seen <= w.cursor.value <= |w.log|
      && (HasContent(w.table, x, hash) <==> StillSays(w.log[w0.seen..w.cursor.value], x, hash))
  {
    MirrorConverges(w0, es, e);
    var w := Next(Exec(w0, es).value, e);
    var clean := ApplyAll(w0.table, w.log[w0.seen..w.cursor.value]);
    CopyIsCurrentIff(w0.table, w.log[w0.seen..w.cursor.value], x);
    SameMirrorSameContent(w.table, clean, x, w0.table[x].cols.contentHash);
  }

  lemma SameMirrorSameContent(t: Table, u: Table, x: FileId, hash: Option<string>)
    requires Mirror(t) == Mirror(u)
    ensures HasContent(t, x, hash) <==> HasContent(u, x, hash)
  {
    assert x in t <==> x in Mirror(t);
    assert x in u <==> x in Mirror(u);
    assert x in t && x in u ==> Mirror(t)[x].cols == t[x].cols && Mirror(u)[x].cols == u[x].cols;
  }

  // ---------- A copy that is not ----------

  const EDITED := ITEM.(contentHash := Some("new"))
  const EDIT := Change(Some(EDITED), ITEM.id, false, 0)
  const SYNCED_ROW := Row(Provided(ITEM), Local(Synced, Some(5)))

  /** The file changes remotely after it was downloaded: the row has the new hash and still says `Synced`. */
  lemma StaleCopyLooksSynced()
    ensures var after := ApplyAll(map[ITEM.id := SYNCED_ROW], [EDIT]);
      && ITEM.id in after && after[ITEM.id].local == SYNCED_ROW.local
      && !HasContent(after, ITEM.id, SYNCED_ROW.cols.contentHash)
  {
    ApplyOne(map[ITEM.id := SYNCED_ROW], EDIT);
  }
}
