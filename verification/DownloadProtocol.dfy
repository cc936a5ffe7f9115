/**
 `ContentCache::ensure_downloaded` for one file, as an interleaving step machine over any number of calls.

 Each call walks through the lines of the function; a step is one access to shared state: the cached
 file on disk, the lock entry and its mutex, or the file's row in the database. `Setting.waits` selects
 the protocol as written (false) or the repaired one (true). A restart begins a new session: calls and locks
 are gone, the file on disk and the row stay.
 */
module DownloadProtocol {
  import opened CloudTypes
  import opened ChangeReplay

  type Call = nat

  datatype Status = NotStarted | InProgress | Complete | Failed

  /** A partial file belongs to the call that last created (and so truncated) it. */
  datatype Disk = Absent | Partial(creator: Call) | Full

  /** How a provider download ended. */
  datatype Outcome = Downloaded | CloudNative | Broken

  datatype Reply = OkPath | NotSupported | IoError

  datatype Pc =
    | CheckDisk                    // fast path: does the cached file exist?
    | GetEntry                     // find or create the per-file lock
    | AcquireFirst
    | Recheck                      // holding the mutex
    | Decide                       // holding the mutex
    | Waiting                      // repaired protocol only: on the condition variable
    | MarkSyncing
    | Request                      // provider.download, before the destination file is created
    | Writing                      // provider.download, destination file created
    | AcquireSecond(outcome: Outcome)
    | SetStatus(outcome: Outcome)  // holding the mutex
    | WriteState(outcome: Outcome) // holding the mutex
    | WriteSyncedAt                // holding the mutex
    | Done(reply: Reply)

  /** What kind of file and provider this is, and which protocol runs. */
  datatype Setting = Setting(
    native: bool,  // the provider refuses to download this file
    flaky: bool,   // downloads may fail
    cleans: bool,  // a failed download removes its partial file
    atomic: bool,  // a download writes elsewhere and moves the finished file into place
    killed: bool,  // the process may end while calls are under way
    waits: bool    // the repaired protocol
  )

  /** `began` and `marked` record that in this session a call decided to download, and one wrote `Syncing`. */
  datatype State = State(
    calls: map<Call, Pc>,
    entry: Option<Status>,
    holder: Option<Call>,
    disk: Disk,
    local: Local,
    began: bool,
    marked: bool
  )

  datatype Action =
    | Begin(call: Call)            // a new call of ensure_downloaded
    | Go(call: Call)               // its next step; a download makes progress
    | Break(call: Call)            // its download fails
    | Refuse(call: Call)           // its download reports a cloud-native file
    | Restart                      // the process ends and starts again

  predicate Holds(pc: Pc) {
    pc.Recheck? || pc.Decide? || pc.SetStatus? || pc.WriteState? || pc.WriteSyncedAt?
  }

  /** Between the decision to download and the end of the call. */
  predicate Active(pc: Pc) {
    || pc.MarkSyncing? || pc.Request? || pc.Writing?
    || pc.AcquireSecond? || pc.SetStatus? || pc.WriteState? || pc.WriteSyncedAt?
  }

  predicate Enabled(n: Setting, s: State, a: Action) {
    match a
    case Begin(t) => t !in s.calls
    case Go(t) =>
      && t in s.calls
      && match s.calls[t] {
           case AcquireFirst => s.holder.None?
           case AcquireSecond(_) => s.holder.None?
           case Waiting => s.entry != Some(InProgress)
           case Request => !n.native
           case Done(_) => false
           case _ => true
         }
    case Break(t) => n.flaky && t in s.calls && (s.calls[t].Request? || s.calls[t].Writing?)
    case Refuse(t) => n.native && t in s.calls && s.calls[t].Request?
    case Restart => n.killed || forall t :: t in s.calls ==> s.calls[t].Done?
  }

  function At(s: State, t: Call, pc: Pc): State {
    s.(calls := s.calls[t := pc])
  }

  function StatusFor(o: Outcome): Status {
    if o.Downloaded? then Complete else Failed
  }

  function Next(n: Setting, s: State, a: Action): State
    requires Enabled(n, s, a)
  {
    match a
    case Begin(t) => At(s, t, if n.waits then GetEntry else CheckDisk)
    case Go(t) => Advance(n, s, t)
    case Break(t) =>
      var s' := At(s, t, AcquireSecond(Broken));
      if n.cleans && !n.atomic && s.calls[t].Writing? then s'.(disk := Absent) else s'
    case Refuse(t) => At(s, t, AcquireSecond(CloudNative))
    case Restart => State(map[], None, None, s.disk, s.local, false, false)
  }

  function Advance(n: Setting, s: State, t: Call): State
    requires Enabled(n, s, Go(t))
  {
    match s.calls[t]
    case CheckDisk => At(s, t, if s.disk.Absent? then GetEntry else Done(OkPath))
    case GetEntry =>
      var initial := if n.waits then NotStarted else InProgress;
      At(s, t, AcquireFirst).(entry := if s.entry.Some? then s.entry else Some(initial))
    case AcquireFirst => At(s, t, Recheck).(holder := Some(t))
    case Recheck =>
      if n.waits && s.entry == Some(InProgress) then At(s, t, Waiting).(holder := None)
      else if !s.disk.Absent? then At(s, t, Done(OkPath)).(holder := None)
      else At(s, t, Decide)
    case Waiting => At(s, t, AcquireFirst)
    case Decide =>
      if s.entry == Some(Complete) then At(s, t, Done(OkPath)).(holder := None)
      else At(s, t, MarkSyncing).(entry := Some(InProgress), holder := None, began := true)
    case MarkSyncing =>
      At(s, t, Request).(local := s.local.(state := FileState.Syncing), marked := true)
    case Request => At(s, t, Writing).(disk := if n.atomic then s.disk else Partial(t))
    case Writing =>
      At(s, t, AcquireSecond(Downloaded)).(disk := if n.atomic || s.disk == Partial(t) then Full else s.disk)
    case AcquireSecond(o) => At(s, t, SetStatus(o)).(holder := Some(t))
    case SetStatus(o) =>
      var s' := s.(entry := Some(StatusFor(o)));
      if o.CloudNative? then At(s', t, Done(NotSupported)).(holder := None) else At(s', t, WriteState(o))
    case WriteState(o) =>
      if o.Downloaded? then At(s, t, WriteSyncedAt).(local := s.local.(state := FileState.Synced))
      else At(s, t, Done(IoError)).(local := s.local.(state := FileState.Error), holder := None)
    case WriteSyncedAt =>
      At(s, t, Done(OkPath)).(local := s.local.(syncedAt := Some(0)), holder := None)
  }

  /** No call has been made; an earlier session may have left anything on disk and in the row. */
  predicate Initial(s: State) {
    s.calls == map[] && s.entry.None? && s.holder.None? && !s.began && !s.marked
  }

  function Exec(n: Setting, s: State, acts: seq<Action>): Option<State> {
    if acts == [] then Some(s)
    else
      var before := Exec(n, s, acts[..|acts| - 1]);
      if before.Some? && Enabled(n, before.value, acts[|acts| - 1])
      then Some(Next(n, before.value, acts[|acts| - 1]))
      else None
  }

  // ---------- What every interleaving keeps, in both protocols ----------

  ghost predicate SomeActive(s: State) {
    exists t :: t in s.calls && Active(s.calls[t])
  }

  ghost predicate OtherActive(s: State, t: Call) {
    exists u :: u != t && u in s.calls && Active(s.calls[u])
  }

  /** The row says what the per-file status says. */
  predicate Agree(status: Option<Status>, local: Local) {
    || (status == Some(Complete) && local.state.Synced? && local.syncedAt.Some?)
    || (status == Some(Failed) && local.state.Error?)
  }

  /** What a call's position says about the lock. */
  ghost predicate LockInv(s: State, t: Call)
    requires t in s.calls
  {
    var pc := s.calls[t];
    && (Holds(pc) <==> s.holder == Some(t))
    && (!pc.CheckDisk? && !pc.GetEntry? && !pc.Done? ==> s.entry.Some?)
    && (pc.WriteState? ==> s.entry == Some(StatusFor(pc.outcome)))
    && (pc.WriteSyncedAt? ==> s.entry == Some(Complete) && (s.local.state.Synced? || OtherActive(s, t)))
  }

  /** What a call's position says about the way it took. */
  predicate PathInv(n: Setting, s: State, pc: Pc) {
    && (Active(pc) ==> s.began)
    && (Active(pc) && !pc.MarkSyncing? ==> s.marked)
    && (pc.Writing? || pc.WriteSyncedAt? ==> !n.native)
    && (pc.WriteState? ==> !pc.outcome.CloudNative?)
    && (pc.AcquireSecond? || pc.SetStatus? || pc.WriteState? ==> OutcomeFits(n, pc.outcome))
  }

  predicate OutcomeFits(n: Setting, o: Outcome) {
    match o
    case Downloaded => !n.native
    case CloudNative => n.native
    case Broken => n.flaky
  }

  ghost predicate CallInv(n: Setting, s: State, t: Call)
    requires t in s.calls
  {
    LockInv(s, t) && PathInv(n, s, s.calls[t])
  }

  ghost predicate Inv(n: Setting, s: State) {
    && (forall t :: t in s.calls ==> CallInv(n, s, t))
    && (s.holder.Some? ==> s.holder.value in s.calls)
    && (s.began && !SomeActive(s) ==> s.marked)
    && (s.began && !n.native && !SomeActive(s) ==> Agree(s.entry, s.local))
    && (n.native && s.marked ==>
         s.local.state.Syncing? || (n.flaky && s.local.state.Error?))
    && (n.native && s.began && !SomeActive(s) ==> s.entry == Some(Failed))
  }

  /** What one call's step may do to state shared with other calls. */
  predicate Frame(s: State, s': State, t: Call) {
    && t in s'.calls && s'.calls == s.calls[t := s'.calls[t]]
    && (s.entry.Some? ==> s'.entry.Some?)
    && (s.began ==> s'.began)
    && (s.marked ==> s'.marked)
    && (s'.holder == s.holder || (s.holder.None? && s'.holder == Some(t)) || (s.holder == Some(t) && s'.holder.None?))
    && (s'.entry != s.entry ==> s.holder == Some(t) || s.entry.None?)
    && (s'.local.state != s.local.state ==> s.holder == Some(t) || Active(s'.calls[t]))
    && (t in s.calls && Active(s.calls[t]) && !Active(s'.calls[t]) ==> s.holder == Some(t))
  }

  lemma StepFrame(n: Setting, s: State, a: Action)
    requires Enabled(n, s, a) && !a.Restart?
    requires a.call in s.calls ==> LockInv(s, a.call)
    ensures Frame(s, Next(n, s, a), a.call)
  {
    if a.Go? && Active(s.calls[a.call]) {
      DownloadFrame(n, s, a.call);
    }
  }

  lemma DownloadFrame(n: Setting, s: State, t: Call)
    requires Enabled(n, s, Go(t)) && LockInv(s, t) && Active(s.calls[t])
    ensures Frame(s, Advance(n, s, t), t)
  {
  }

  lemma OthersKept(n: Setting, s: State, s': State, t: Call, u: Call)
    requires Frame(s, s', t)
    requires u != t && u in s.calls && CallInv(n, s, u)
    ensures CallInv(n, s', u)
  {
    if s'.calls[u].WriteSyncedAt? {
      if OtherActive(s, u) {
        var v :| v != u && v in s.calls && Active(s.calls[v]);
        assert v in s'.calls && Active(s'.calls[v]);
      } else if s'.local.state != s.local.state {
        assert Active(s'.calls[t]);
      }
    }
  }

  lemma ActiveAfter(s: State, s': State, t: Call)
    requires t in s'.calls && s'.calls == s.calls[t := s'.calls[t]]
    ensures SomeActive(s) <==> (t in s.calls && Active(s.calls[t])) || OtherActive(s, t)
    ensures SomeActive(s') <==> Active(s'.calls[t]) || OtherActive(s, t)
  {
    if OtherActive(s, t) {
      var u :| u != t && u in s.calls && Active(s.calls[u]);
      assert u in s'.calls && Active(s'.calls[u]);
    }
  }

  lemma OwnLockKept(n: Setting, s: State, a: Action)
    requires Enabled(n, s, a) && !a.Restart?
    requires s.holder.Some? ==> s.holder.value in s.calls
    requires a.call in s.calls ==> CallInv(n, s, a.call)
    ensures a.call in Next(n, s, a).calls && LockInv(Next(n, s, a), a.call)
  {
  }

  lemma OwnPathKept(n: Setting, s: State, a: Action)
    requires Enabled(n, s, a) && !a.Restart?
    requires a.call in s.calls ==> PathInv(n, s, s.calls[a.call])
    ensures a.call in Next(n, s, a).calls && PathInv(n, Next(n, s, a), Next(n, s, a).calls[a.call])
  {
  }

  lemma SharedStateKept(n: Setting, s: State, a: Action)
    requires Inv(n, s) && Enabled(n, s, a) && !a.Restart?
    ensures var s' := Next(n, s, a);
      && (s'.holder.Some? ==> s'.holder.value in s'.calls)
      && (s'.began && !SomeActive(s') ==> s'.marked)
      && (s'.began && !n.native && !SomeActive(s') ==> Agree(s'.entry, s'.local))
  {
    var t, s' := a.call, Next(n, s, a);
    assert t in s.calls ==> CallInv(n, s, t);
    ActiveAfter(s, s', t);
  }

  lemma NativeStateKept(n: Setting, s: State, a: Action)
    requires n.native && Inv(n, s) && Enabled(n, s, a) && !a.Restart?
    ensures var s' := Next(n, s, a);
      && (s'.marked ==> s'.local.state.Syncing? || (n.flaky && s'.local.state.Error?))
      && (s'.began && !SomeActive(s') ==> s'.entry == Some(Failed))
  {
    var t, s' := a.call, Next(n, s, a);
    assert t in s.calls ==> CallInv(n, s, t);
    ActiveAfter(s, s', t);
  }

  lemma StepKeepsInv(n: Setting, s: State, a: Action)
    requires Inv(n, s) && Enabled(n, s, a)
    ensures Inv(n, Next(n, s, a))
  {
    if a.Restart? {
      return;
    }
    var t, s' := a.call, Next(n, s, a);
    OwnLockKept(n, s, a);
    OwnPathKept(n, s, a);
    SharedStateKept(n, s, a);
    if n.native {
      NativeStateKept(n, s, a);
    }
    StepFrame(n, s, a);
    forall u | u in s'.calls ensures CallInv(n, s', u) {
      if u != t {
        OthersKept(n, s, s', t, u);
      }
    }
  }

  lemma {:induction false} RunKeepsInv(n: Setting, s0: State, acts: seq<Action>)
    requires Initial(s0) && Exec(n, s0, acts).Some?
    ensures Inv(n, Exec(n, s0, acts).value)
  {
    if acts != [] {
      RunKeepsInv(n, s0, acts[..|acts| - 1]);
      StepKeepsInv(n, Exec(n, s0, acts[..|acts| - 1]).value, acts[|acts| - 1]);
    }
  }

  /**
   For any number of calls, interleaved in any way over any number of sessions, on a file that can be
   downloaded: once some call has begun a download in this session and every such call has returned, the row is `Synced` with a sync time exactly
   when the status is `Complete`, and `Error` exactly when it is `Failed`.
   */
  lemma RowAgreesWithStatus(n: Setting, s0: State, acts: seq<Action>)
    requires Initial(s0) && Exec(n, s0, acts).Some?
    requires !n.native
    requires Exec(n, s0, acts).value.began && !SomeActive(Exec(n, s0, acts).value)
    ensures var s := Exec(n, s0, acts).value;
      && (s.entry == Some(Complete) <==> s.local.state.Synced? && s.local.syncedAt.Some?)
      && (s.entry == Some(Failed) <==> s.local.state.Error?)
      && (s.entry == Some(Complete) || s.entry == Some(Failed))
  {
    RunKeepsInv(n, s0, acts);
  }

  /**
   A cloud-native file, once every begun download has ended: the status is `Failed`, and the row is left
   `Syncing` or, if the provider also failed in another way, `Error`; never `Synced`.
   */
  lemma CloudNativeFileStaysSyncing(n: Setting, s0: State, acts: seq<Action>)
    requires Initial(s0) && Exec(n, s0, acts).Some?
    requires n.native
    requires Exec(n, s0, acts).value.began && !SomeActive(Exec(n, s0, acts).value)
    ensures var s := Exec(n, s0, acts).value;
      && s.entry == Some(Failed)
      && (s.local.state.Syncing? || (n.flaky && s.local.state.Error?))
  {
    RunKeepsInv(n, s0, acts);
  }
}
