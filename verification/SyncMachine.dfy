/**
 Change-feed replication as a step machine.

 The provider is an append-only log of changes and a cursor is a position in it. One sync thread runs
 attempts of `initial_sync` and `incremental_sync`; every fallible call is a step of its own, so an
 `Abort` between two steps is a failure of that call. The remote may change, and the download side may
 write local columns, between any two steps.
 */
module SyncMachine {
  import opened CloudTypes
  import opened ChangeReplay

  /** What the sync thread is doing. */
  datatype Proc =
    | Idle
    | Ready(at: nat)                                          // about to fetch the page at `at`
    | Page(at: nat, end: nat, hasMore: bool, next: nat)       // applying log[at..end], `next` is due
    | Listing(listedAt: nat, items: seq<CloudItem>, stored: nat) // `stored` listed items are in the table
    | Start(token: nat)                                       // holding a start cursor, not yet saved

  /** `seen` records the furthest log position whose effect ever reached this machine. */
  datatype World = World(log: seq<Change>, table: Table, cursor: Option<nat>, seen: nat, proc: Proc)

  datatype Event =
    | Append(change: Change)                   // the remote changes
    | LocalWrite(id: FileId, local: Local)     // a download updates a row's local columns
    | Begin                                    // incremental_sync reads the stored cursor
    | Deliver(end: nat, hasMore: bool)         // get_changes returns a page
    | ApplyNext                                // apply_change on the next change of the page
    | SaveCursor                               // upsert_cursor after a page
    | List(items: seq<CloudItem>)              // initial_sync lists the provider
    | UpsertNext                               // upsert_cloud_item on the next listed item
    | TakeCursor                               // initial_sync asks for a start cursor
    | SaveStart                                // initial_sync stores it
    | Abort                                    // the attempt fails here

  /** Items of files the provider holds, in some order; files below the root need not be among them. */
  predicate IsListing(items: seq<CloudItem>, remote: Table) {
    forall i :: 0 <= i < |items| ==> Describes(items[i], remote)
  }

  predicate Valid(w: World) {
    && w.seen <= |w.log|
    && (w.cursor.Some? ==> w.cursor.value <= w.seen)
    && match w.proc
       case Idle => true
       case Ready(at) => at <= |w.log|
       case Page(at, end, _, next) => at <= next <= end <= w.seen
       case Listing(listedAt, items, stored) =>
         listedAt <= w.seen && stored <= |items| && IsListing(items, Remote(w.log[..listedAt]))
       case Start(token) => token <= |w.log|
  }

  predicate Enabled(w: World, e: Event) {
    match e
    case Append(_) => true
    case LocalWrite(x, _) => x in w.table
    case Begin => w.proc.Idle? && w.cursor.Some?
    case Deliver(end, hasMore) =>
      w.proc.Ready? && w.proc.at <= end <= |w.log| && (!hasMore ==> end == |w.log|)
    case ApplyNext => w.proc.Page? && w.proc.next < w.proc.end
    case SaveCursor => w.proc.Page? && w.proc.next == w.proc.end
    case List(items) => w.proc.Idle? && IsListing(items, Remote(w.log))
    case UpsertNext => w.proc.Listing? && w.proc.stored < |w.proc.items|
    case TakeCursor => w.proc.Listing? && w.proc.stored == |w.proc.items|
    case SaveStart => w.proc.Start?
    case Abort => !w.proc.Idle?
  }

  function Max(a: nat, b: nat): nat {
    if a < b then b else a
  }

  function Next(w: World, e: Event): (w': World)
    requires Valid(w) && Enabled(w, e)
    ensures Valid(w')
    ensures w.log <= w'.log
  {
    match e
    case Append(c) =>
      assert w.proc.Listing? ==> (w.log + [c])[..w.proc.listedAt] == w.log[..w.proc.listedAt];
      w.(log := w.log + [c])
    case LocalWrite(x, local) => w.(table := w.table[x := w.table[x].(local := local)])
    case Begin => w.(proc := Ready(w.cursor.value))
    case Deliver(end, hasMore) =>
      w.(seen := Max(w.seen, end), proc := Page(w.proc.at, end, hasMore, w.proc.at))
    case ApplyNext =>
      w.(table := ApplyChange(w.table, w.log[w.proc.next]), proc := w.proc.(next := w.proc.next + 1))
    case SaveCursor =>
      w.(cursor := Some(w.proc.end), proc := if w.proc.hasMore then Ready(w.proc.end) else Idle)
    case List(items) =>
      assert w.log[..|w.log|] == w.log;
      w.(seen := |w.log|, proc := Listing(|w.log|, items, 0))
    case UpsertNext =>
      w.(table := Upsert(w.table, w.proc.items[w.proc.stored]), proc := w.proc.(stored := w.proc.stored + 1))
    case TakeCursor => w.(proc := Start(|w.log|))
    case SaveStart => w.(cursor := Some(w.proc.token), seen := Max(w.seen, w.proc.token), proc := Idle)
    case Abort => w.(proc := Idle)
  }

  /** The state after a run, or None when some event was not possible. */
  function Exec(w: World, es: seq<Event>): (r: Option<World>)
    requires Valid(w)
    ensures r.Some? ==> Valid(r.value) && w.log <= r.value.log
  {
    if es == [] then Some(w)
    else
      var before := Exec(w, es[..|es| - 1]);
      if before.Some? && Enabled(before.value, es[|es| - 1]) then Some(Next(before.value, es[|es| - 1]))
      else None
  }

  lemma RunOne(w0: World, es: seq<Event>, e: Event, v: World) returns (es': seq<Event>, w: World)
    requires Valid(w0) && Exec(w0, es) == Some(v) && Enabled(v, e)
    ensures es' == es + [e] && w == Next(v, e) && Exec(w0, es') == Some(w)
  {
    es', w := es + [e], Next(v, e);
    assert es'[..|es'| - 1] == es;
  }

  // ---------- What every step keeps ----------

  /** One uninterrupted application, from cursor `s` on, of everything up to `end`. */
  function Clean(t0: Table, log: seq<Change>, s: nat, end: nat): Table
    requires s <= end <= |log|
  {
    ApplyAll(t0, log[s..end])
  }

  /** Replaying from `p` everything this machine has seen gives the clean table. */
  ghost predicate Recovers(w: World, t0: Table, s: nat, p: nat)
    requires w.seen <= |w.log| && s <= w.seen && p <= w.seen
  {
    ApplyAll(w.table, w.log[p..w.seen]) == Clean(t0, w.log, s, w.seen)
  }

  /** The table is level with the provider at position `s`. */
  ghost predicate LevelAt(t0: Table, log: seq<Change>, s: nat)
    requires s <= |log|
  {
    Mirror(t0) == Remote(log[..s])
  }

  /** Replaying from `s` up to `n` brings the table level with the provider. */
  ghost predicate LevelFrom(t0: Table, log: seq<Change>, s: nat, n: nat)
    requires s <= n <= |log|
  {
    Mirror(ApplyAll(t0, log[s..n])) == Remote(log[..n])
  }

  ghost predicate Inv(w: World, t0: Table, s: nat) {
    && Valid(w)
    && w.cursor.Some?
    && s <= w.cursor.value
    && Recovers(w, t0, s, w.cursor.value)
    && match w.proc
       case Ready(at) => at == w.cursor.value
       case Page(at, end, hasMore, next) =>
         && at == w.cursor.value
         && (!hasMore ==> end == w.seen)
         && Recovers(w, t0, s, next)
       case Listing(listedAt, _, _) => w.cursor.value <= listedAt && LevelFrom(t0, w.log, s, w.seen)
       case _ => true
  }

  lemma {:induction false} SeenMore(t: Table, t0: Table, log: seq<Change>, s: nat, p: nat, seen: nat, seen': nat)
    requires s <= seen <= seen' <= |log| && p <= seen
    requires ApplyAll(t, log[p..seen]) == Clean(t0, log, s, seen)
    ensures ApplyAll(t, log[p..seen']) == Clean(t0, log, s, seen')
  {
    assert log[p..seen'] == log[p..seen] + log[seen..seen'];
    assert log[s..seen'] == log[s..seen] + log[seen..seen'];
    ApplyConcat(t, log[p..seen], log[seen..seen']);
    ApplyConcat(t0, log[s..seen], log[seen..seen']);
  }

  lemma AppendKeepsInv(w: World, c: Change, t0: Table, s: nat)
    requires Inv(w, t0, s)
    ensures Inv(Next(w, Append(c)), t0, s)
  {
    var log' := w.log + [c];
    assert forall p, q :: 0 <= p <= q <= |w.log| ==> log'[p..q] == w.log[p..q];
    assert log'[..w.seen] == w.log[..w.seen];
  }

  lemma ApplyNextKeepsInv(w: World, t0: Table, s: nat)
    requires Inv(w, t0, s) && Enabled(w, ApplyNext)
    ensures Inv(Next(w, ApplyNext), t0, s)
  {
    AppliedEarly(w.table, w.log, w.cursor.value, w.proc.next, w.seen);
    AppliedInTurn(w.table, w.log, w.proc.next, w.seen);
  }

  lemma AppliedEarly(t: Table, log: seq<Change>, c: nat, next: nat, seen: nat)
    requires c <= next < seen <= |log|
    ensures ApplyAll(ApplyChange(t, log[next]), log[c..seen]) == ApplyAll(t, log[c..seen])
  {
    assert log[c..seen][next - c] == log[next];
    ReplayAbsorbsChange(t, log[c..seen], next - c);
  }

  lemma AppliedInTurn(t: Table, log: seq<Change>, next: nat, seen: nat)
    requires next < seen <= |log|
    ensures ApplyAll(ApplyChange(t, log[next]), log[next + 1..seen]) == ApplyAll(t, log[next..seen])
  {
    assert log[next..seen] == [log[next]] + log[next + 1..seen];
    ApplyConcat(t, [log[next]], log[next + 1..seen]);
    ApplyOne(t, log[next]);
  }

  lemma ApplyOne(t: Table, c: Change)
    ensures ApplyAll(t, [c]) == ApplyChange(t, c)
  {
    assert [c][..0] == [];
  }

  lemma UpsertNextKeepsInv(w: World, t0: Table, s: nat)
    requires Inv(w, t0, s) && Enabled(w, UpsertNext)
    ensures Inv(Next(w, UpsertNext), t0, s)
  {
    var c, known := w.cursor.value, w.log[..w.seen];
    assert known[c..] == w.log[c..w.seen] && known[..w.proc.listedAt] == w.log[..w.proc.listedAt];
    ReplayAbsorbsListedItem(w.table, known, c, w.proc.listedAt, w.proc.items[w.proc.stored]);
  }

  /** Every step but storing a start cursor, or a write from the download side, keeps the invariant. */
  lemma StepKeepsInv(w: World, e: Event, t0: Table, s: nat)
    requires Inv(w, t0, s) && Enabled(w, e)
    requires !e.SaveStart? && !e.LocalWrite?
    requires e.List? ==> LevelFrom(t0, w.log, s, |w.log|)
    ensures Inv(Next(w, e), t0, s)
  {
    match e
    case Append(c) => AppendKeepsInv(w, c, t0, s);
    case Deliver(end, _) =>
      SeenMore(w.table, t0, w.log, s, w.cursor.value, w.seen, Max(w.seen, end));
    case ApplyNext => ApplyNextKeepsInv(w, t0, s);
    case List(_) => SeenMore(w.table, t0, w.log, s, w.cursor.value, w.seen, |w.log|);
    case UpsertNext => UpsertNextKeepsInv(w, t0, s);
    case _ =>
  }

  // ---------- Runs ----------

  /** A run starts between attempts with a stored cursor beyond which nothing has been seen. */
  predicate AtRest(w: World) {
    Valid(w) && w.proc.Idle? && w.cursor == Some(w.seen)
  }

  /** The table tracks the provider from the stored cursor; a replay cut short may have gone beyond it. */
  ghost predicate Tracking(w0: World)
    requires AtRest(w0)
  {
    LevelFrom(w0.table, w0.log, w0.seen, |w0.log|)
  }

  /** No start cursor is stored, and listings are made only over a table that tracks. */
  ghost predicate Allowed(w0: World, es: seq<Event>)
    requires AtRest(w0)
  {
    && (forall i :: 0 <= i < |es| ==> !es[i].SaveStart?)
    && ((exists i :: 0 <= i < |es| && es[i].List?) ==> Tracking(w0))
  }

  ghost predicate NoLocalWrites(es: seq<Event>) {
    forall i :: 0 <= i < |es| ==> !es[i].LocalWrite?
  }

  lemma LevelFromMore(t: Table, log: seq<Change>, s: nat, n: nat, m: nat)
    requires s <= n <= m <= |log| && LevelFrom(t, log, s, n)
    ensures LevelFrom(t, log, s, m)
  {
    var more := log[n..m];
    assert Mirror(ApplyAll(t, log[s..m])) == ApplyAll(Mirror(ApplyAll(t, log[s..n])), more) by {
      assert log[s..m] == log[s..n] + more;
      ApplyConcat(t, log[s..n], more);
      MirrorCommutes(ApplyAll(t, log[s..n]), more);
    }
    assert log[..m] == log[..n] + more;
    ApplyConcat(map[], log[..n], more);
  }

  lemma LevelTracks(t: Table, log: seq<Change>, s: nat, m: nat)
    requires s <= m <= |log| && LevelAt(t, log, s)
    ensures LevelFrom(t, log, s, m)
  {
    assert log[s..s] == [];
    LevelFromMore(t, log, s, s, m);
  }

  lemma TrackingLater(w0: World, log: seq<Change>, m: nat)
    requires AtRest(w0) && Tracking(w0) && w0.log <= log && |w0.log| <= m <= |log|
    ensures LevelFrom(w0.table, log, w0.seen, m)
  {
    var n := |w0.log|;
    assert log[..n] == w0.log && log[w0.seen..n] == w0.log[w0.seen..] && w0.log[..n] == w0.log;
    LevelFromMore(w0.table, log, w0.seen, n, m);
  }

  lemma {:induction false} RunKeepsInv(w0: World, es: seq<Event>)
    requires AtRest(w0) && Allowed(w0, es) && NoLocalWrites(es)
    requires Exec(w0, es).Some?
    ensures Inv(Exec(w0, es).value, w0.table, w0.seen)
  {
    if es != [] {
      var init, e := es[..|es| - 1], es[|es| - 1];
      assert forall i :: 0 <= i < |init| ==> init[i] == es[i];
      RunKeepsInv(w0, init);
      var w := Exec(w0, init).value;
      if e.List? {
        TrackingLater(w0, w.log, |w.log|);
      }
      StepKeepsInv(w, e, w0.table, w0.seen);
    }
  }

  /** The event completes an attempt: it stores the cursor of a page that has no successor. */
  predicate Completes(w: World, e: Event) {
    e.SaveCursor? && w.proc.Page? && !w.proc.hasMore
  }

  /**
   Cursor safety. In every reachable state, whatever failed on the way, replaying the provider's log
   from the stored cursor gives exactly the table of one uninterrupted application from the start.
   */
  lemma {:induction false} CursorIsSafe(w0: World, es: seq<Event>)
    requires AtRest(w0) && Allowed(w0, es) && NoLocalWrites(es)
    requires Exec(w0, es).Some?
    ensures var w := Exec(w0, es).value;
      && w.cursor.Some? && w0.seen <= w.cursor.value <= |w.log|
      && ApplyAll(w.table, w.log[w.cursor.value..]) == ApplyAll(w0.table, w.log[w0.seen..])
  {
    RunKeepsInv(w0, es);
    var w := Exec(w0, es).value;
    SeenMore(w.table, w0.table, w.log, w0.seen, w.cursor.value, w.seen, |w.log|);
    assert w.log[w.cursor.value..] == w.log[w.cursor.value..|w.log|];
    assert w.log[w0.seen..] == w.log[w0.seen..|w.log|];
  }

  lemma StepReaches(w: World, e: Event, n: nat)
    requires Valid(w) && Enabled(w, e) && n <= |w.log|
    requires w.proc.Page? && !w.proc.hasMore ==> n <= w.proc.end
    ensures var p := Next(w, e).proc; p.Page? && !p.hasMore ==> n <= p.end
  {
  }

  /** A page without successor reaches at least to where the log ended when the run began. */
  lemma {:induction false} LastPageReaches(w0: World, es: seq<Event>)
    requires AtRest(w0) && Exec(w0, es).Some?
    ensures var p := Exec(w0, es).value.proc; p.Page? && !p.hasMore ==> |w0.log| <= p.end
  {
    if es != [] {
      LastPageReaches(w0, es[..|es| - 1]);
      StepReaches(Exec(w0, es[..|es| - 1]).value, es[|es| - 1], |w0.log|);
    }
  }

  /**
   Replay convergence. However the log was paged and wherever earlier attempts failed, the attempt
   that completes leaves exactly the table of one uninterrupted application up to its cursor.
   */
  lemma {:induction false} ReplayConverges(w0: World, es: seq<Event>, e: Event)
    requires AtRest(w0) && Allowed(w0, es) && NoLocalWrites(es)
    requires Exec(w0, es).Some? && Enabled(Exec(w0, es).value, e) && Completes(Exec(w0, es).value, e)
    ensures var w := Next(Exec(w0, es).value, e);
      && w.cursor.Some? && w0.seen <= |w0.log| <= w.cursor.value <= |w.log|
      && w.table == ApplyAll(w0.table, w.log[w0.seen..w.cursor.value])
  {
    RunKeepsInv(w0, es);
    LastPageReaches(w0, es);
    var w := Exec(w0, es).value;
    assert w.log[w.seen..w.seen] == [];
  }

  // ---------- Downloads writing local columns at the same time ----------

  function MirrorWorld(w: World): World {
    w.(table := Mirror(w.table))
  }

  /** Hiding local columns turns every step into the same step, and local writes into no step. */
  lemma MirrorStep(w: World, e: Event)
    requires Valid(w) && Enabled(w, e)
    ensures Valid(MirrorWorld(w))
    ensures e.LocalWrite? ==> MirrorWorld(Next(w, e)) == MirrorWorld(w)
    ensures !e.LocalWrite? ==> Enabled(MirrorWorld(w), e) && Next(MirrorWorld(w), e) == MirrorWorld(Next(w, e))
  {
    if e.LocalWrite? {
      assert Mirror(w.table[e.id := w.table[e.id].(local := e.local)]) == Mirror(w.table);
    } else if e.ApplyNext? {
      assert Mirror(ApplyChange(w.table, w.log[w.proc.next])) == ApplyChange(Mirror(w.table), w.log[w.proc.next]);
    } else if e.UpsertNext? {
      var item := w.proc.items[w.proc.stored];
      assert Mirror(Upsert(w.table, item)) == Upsert(Mirror(w.table), item);
    }
  }

  function WithoutLocalWrites(es: seq<Event>): seq<Event> {
    if es == [] then []
    else
      var init := WithoutLocalWrites(es[..|es| - 1]);
      if es[|es| - 1].LocalWrite? then init else init + [es[|es| - 1]]
  }

  lemma {:induction false} WithoutLocalWritesFilters(es: seq<Event>)
    ensures NoLocalWrites(WithoutLocalWrites(es))
    ensures forall e :: e in WithoutLocalWrites(es) ==> e in es
  {
    if es != [] {
      WithoutLocalWritesFilters(es[..|es| - 1]);
    }
  }

  lemma {:induction false} MirrorRun(w0: World, es: seq<Event>)
    requires Valid(w0) && Exec(w0, es).Some?
    ensures Valid(MirrorWorld(w0))
    ensures Exec(MirrorWorld(w0), WithoutLocalWrites(es)) == Some(MirrorWorld(Exec(w0, es).value))
  {
    if es != [] {
      var init, e := es[..|es| - 1], es[|es| - 1];
      MirrorRun(w0, init);
      MirrorStep(Exec(w0, init).value, e);
      if !e.LocalWrite? {
        var kept := WithoutLocalWrites(init);
        assert (kept + [e])[..|kept + [e]| - 1] == kept;
      }
    }
  }

  lemma MirrorTracking(w0: World)
    requires AtRest(w0) && Tracking(w0)
    ensures Tracking(MirrorWorld(w0))
  {
    MirrorCommutes(w0.table, w0.log[w0.seen..|w0.log|]);
    var after := ApplyAll(w0.table, w0.log[w0.seen..|w0.log|]);
    assert Mirror(Mirror(after)) == Mirror(after);
  }

  lemma MirrorAllowed(w0: World, es: seq<Event>)
    requires AtRest(w0) && Allowed(w0, es)
    ensures AtRest(MirrorWorld(w0)) && Allowed(MirrorWorld(w0), WithoutLocalWrites(es))
    ensures NoLocalWrites(WithoutLocalWrites(es))
  {
    var kept := WithoutLocalWrites(es);
    WithoutLocalWritesFilters(es);
    if Tracking(w0) {
      MirrorTracking(w0);
    }
    forall i | 0 <= i < |kept| ensures kept[i] in es {}
  }

  /**
   With downloads writing local columns at any moment, a completed attempt still leaves the provider
   columns of one uninterrupted application; a table that tracked the provider ends level with it.
   */
  lemma {:induction false} MirrorConverges(w0: World, es: seq<Event>, e: Event)
    requires AtRest(w0) && Allowed(w0, es)
    requires Exec(w0, es).Some? && Enabled(Exec(w0, es).value, e) && Completes(Exec(w0, es).value, e)
    ensures var w := Next(Exec(w0, es).value, e);
      && w.cursor.Some? && w0.seen <= |w0.log| <= w.cursor.value <= |w.log|
      && Mirror(w.table) == Mirror(ApplyAll(w0.table, w.log[w0.seen..w.cursor.value]))
      && (Tracking(w0) ==> Mirror(w.table) == Remote(w.log[..w.cursor.value]))
  {
    MirrorRun(w0, es);
    MirrorAllowed(w0, es);
    MirrorStep(Exec(w0, es).value, e);
    ReplayConverges(MirrorWorld(w0), WithoutLocalWrites(es), e);
    var w, s := Next(Exec(w0, es).value, e), w0.seen;
    MirrorCommutes(w0.table, w.log[s..w.cursor.value]);
    if Tracking(w0) {
      TrackingLater(w0, w.log, w.cursor.value);
    }
  }
}
