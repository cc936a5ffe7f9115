/**
 Single download: "at most one download of a file is in flight, and every returned path names a complete
 copy". This file says exactly when it holds, for calls made one at a time and for every interleaving, of
 the protocol as written and of the repaired one, and exhibits the runs that break it otherwise.
 */
module DownloadSafety {
  import opened CloudTypes
  import opened DownloadProtocol

  // ---------- Running calls one at a time ----------

  ghost predicate AllDone(s: State) {
    forall t :: t in s.calls ==> s.calls[t].Done?
  }

  /** Every call begins after all earlier ones have returned. */
  ghost predicate OneAtATime(n: Setting, s0: State, acts: seq<Action>) {
    acts != [] ==>
      var init := acts[..|acts| - 1];
      && OneAtATime(n, s0, init)
      && (acts[|acts| - 1].Begin? ==> Exec(n, s0, init).Some? && AllDone(Exec(n, s0, init).value))
  }

  lemma RunOne(n: Setting, s0: State, acts: seq<Action>, a: Action, v: State) returns (acts': seq<Action>, s: State)
    requires Exec(n, s0, acts) == Some(v) && Enabled(n, v, a)
    ensures acts' == acts + [a] && s == Next(n, v, a) && Exec(n, s0, acts') == Some(s)
    ensures OneAtATime(n, s0, acts) && (a.Begin? ==> AllDone(v)) ==> OneAtATime(n, s0, acts')
  {
    acts', s := acts + [a], Next(n, v, a);
    assert acts'[..|acts'| - 1] == acts;
  }

  // ---------- Runs that break the claim ----------

  /** A fresh call gets to the per-file lock: as written by passing the fast path, repaired directly. */
  lemma ReachLock(n: Setting, s0: State, acts: seq<Action>, v: State, t: Call)
    returns (acts': seq<Action>, s: State)
    requires Exec(n, s0, acts) == Some(v)
    requires t !in v.calls && (n.waits || v.disk.Absent?)
    ensures Exec(n, s0, acts') == Some(s)
    ensures s == v.(
      calls := v.calls[t := AcquireFirst],
      entry := if v.entry.Some? then v.entry else Some(if n.waits then NotStarted else InProgress))
    ensures OneAtATime(n, s0, acts) && AllDone(v) ==> OneAtATime(n, s0, acts')
  {
    acts', s := RunOne(n, s0, acts, Begin(t), v);
    if !n.waits {
      assert s == v.(calls := v.calls[t := CheckDisk]);
      acts', s := RunOne(n, s0, acts', Go(t), s);
    }
    assert s == v.(calls := v.calls[t := GetEntry]);
    acts', s := RunOne(n, s0, acts', Go(t), s);
  }

  /** Once the lock is free the call takes it. */
  lemma ReachRecheck(n: Setting, s0: State, acts: seq<Action>, v: State, t: Call)
    returns (acts': seq<Action>, s: State)
    requires Exec(n, s0, acts) == Some(v)
    requires t !in v.calls && v.holder.None? && (n.waits || v.disk.Absent?)
    ensures Exec(n, s0, acts') == Some(s)
    ensures s == v.(
      calls := v.calls[t := Recheck],
      holder := Some(t),
      entry := if v.entry.Some? then v.entry else Some(if n.waits then NotStarted else InProgress))
    ensures OneAtATime(n, s0, acts) && AllDone(v) ==> OneAtATime(n, s0, acts')
  {
    acts', s := ReachLock(n, s0, acts, v, t);
    acts', s := RunOne(n, s0, acts', Go(t), s);
  }

  /** With nothing on disk, and unless it must wait, it walks up to its decision. */
  lemma ReachDecide(n: Setting, s0: State, acts: seq<Action>, v: State, t: Call)
    returns (acts': seq<Action>, s: State)
    requires Exec(n, s0, acts) == Some(v)
    requires t !in v.calls && v.holder.None? && v.disk.Absent? && !(n.waits && v.entry == Some(InProgress))
    ensures Exec(n, s0, acts') == Some(s)
    ensures s.calls == v.calls[t := Decide] && s.holder == Some(t) && s.disk.Absent?
    ensures v.entry != Some(Complete) ==> s.entry != Some(Complete)
    ensures OneAtATime(n, s0, acts) && AllDone(v) ==> OneAtATime(n, s0, acts')
  {
    acts', s := ReachRecheck(n, s0, acts, v, t);
    acts', s := RunOne(n, s0, acts', Go(t), s);
  }

  /** From there it goes on to its own download, whatever other calls are doing. */
  lemma ReachRequest(n: Setting, s0: State, acts: seq<Action>, v: State, t: Call)
    returns (acts': seq<Action>, s: State)
    requires Exec(n, s0, acts) == Some(v)
    requires t !in v.calls && v.holder.None? && v.disk.Absent? && v.entry != Some(Complete)
    requires !(n.waits && v.entry == Some(InProgress))
    ensures Exec(n, s0, acts') == Some(s)
    ensures s.calls == v.calls[t := Request] && s.holder.None? && s.disk.Absent? && s.entry == Some(InProgress)
    ensures s.began && s.local.state.Syncing?
    ensures OneAtATime(n, s0, acts) && AllDone(v) ==> OneAtATime(n, s0, acts')
  {
    acts', s := ReachDecide(n, s0, acts, v, t);
    acts', s := RunOne(n, s0, acts', Go(t), s);
    assert s.calls == v.calls[t := MarkSyncing] && s.holder.None? && s.disk.Absent?;
    acts', s := RunOne(n, s0, acts', Go(t), s);
  }

  /** As written, for any file: two calls are inside `provider.download` at once. */
  lemma TwoRequestsInFlight(n: Setting, s0: State) returns (acts: seq<Action>, s: State)
    requires !n.waits && Initial(s0) && s0.disk.Absent?
    ensures Exec(n, s0, acts) == Some(s)
    ensures s.calls == map[0 := Request, 1 := Request] && s.disk.Absent? && s.holder.None?
  {
    acts, s := ReachRequest(n, s0, [], s0, 0);
    acts, s := ReachRequest(n, s0, acts, s, 1);
  }

  /** As written: two calls write the same file at once, and a third is handed the unfinished copy. */
  lemma TwoDownloadsInFlight(n: Setting, s0: State) returns (acts: seq<Action>, s: State)
    requires !n.waits && !n.native && !n.atomic && Initial(s0) && s0.disk.Absent?
    ensures Exec(n, s0, acts) == Some(s)
    ensures s.calls == map[0 := Writing, 1 := Writing, 2 := Done(OkPath)] && s.disk == Partial(1)
  {
    acts, s := TwoRequestsInFlight(n, s0);
    acts, s := RunOne(n, s0, acts, Go(0), s);
    acts, s := RunOne(n, s0, acts, Go(1), s);
    assert s.calls == map[0 := Writing, 1 := Writing] && s.disk == Partial(1);
    acts, s := RunOne(n, s0, acts, Begin(2), s);
    acts, s := RunOne(n, s0, acts, Go(2), s);
  }

  /** The process is killed in the middle of a download; the next session returns its partial file. */
  lemma KilledCopyIsAccepted(n: Setting, s0: State) returns (acts: seq<Action>, s: State)
    requires !n.native && !n.atomic && n.killed && Initial(s0) && s0.disk.Absent?
    ensures Exec(n, s0, acts) == Some(s) && OneAtATime(n, s0, acts)
    ensures s.calls == map[0 := Done(OkPath)] && s.disk == Partial(0) && s.local.state.Syncing?
  {
    acts, s := KilledWhileWriting(n, s0);
    acts, s := TakeCopy(n, s0, acts, s);
  }

  lemma KilledWhileWriting(n: Setting, s0: State) returns (acts: seq<Action>, s: State)
    requires !n.native && !n.atomic && n.killed && Initial(s0) && s0.disk.Absent?
    ensures Exec(n, s0, acts) == Some(s) && OneAtATime(n, s0, acts)
    ensures Initial(s) && s.disk == Partial(0) && s.local.state.Syncing?
  {
    acts, s := ReachRequest(n, s0, [], s0, 0);
    assert s.calls == map[0 := Request];
    acts, s := RunOne(n, s0, acts, Go(0), s);
    assert s.disk == Partial(0) && s.local.state.Syncing?;
    acts, s := RunOne(n, s0, acts, Restart, s);
  }

  /** Nobody is running and something is on disk: the next call returns it, whatever it is. */
  lemma TakeCopy(n: Setting, s0: State, acts: seq<Action>, v: State) returns (acts': seq<Action>, s: State)
    requires Exec(n, s0, acts) == Some(v) && OneAtATime(n, s0, acts)
    requires Initial(v) && !v.disk.Absent?
    ensures Exec(n, s0, acts') == Some(s) && OneAtATime(n, s0, acts')
    ensures s.calls == map[0 := Done(OkPath)] && s.disk == v.disk && s.local == v.local
  {
    if n.waits {
      acts', s := ReachRecheck(n, s0, acts, v, 0);
      acts', s := RunOne(n, s0, acts', Go(0), s);
    } else {
      acts', s := RunOne(n, s0, acts, Begin(0), v);
      assert s == v.(calls := v.calls[0 := CheckDisk]);
      acts', s := RunOne(n, s0, acts', Go(0), s);
    }
  }

  lemma FailMidway(n: Setting, s0: State) returns (acts: seq<Action>, s: State)
    requires !n.native && !n.atomic && n.flaky && !n.cleans && Initial(s0) && s0.disk.Absent?
    ensures Exec(n, s0, acts) == Some(s) && OneAtATime(n, s0, acts)
    ensures s.calls == map[0 := AcquireSecond(Broken)] && s.disk == Partial(0) && s.holder.None?
  {
    acts, s := ReachRequest(n, s0, [], s0, 0);
    assert s.calls == map[0 := Request];
    acts, s := RunOne(n, s0, acts, Go(0), s);
    assert s.calls == map[0 := Writing];
    acts, s := RunOne(n, s0, acts, Break(0), s);
  }

  lemma LeaveLeftover(n: Setting, s0: State) returns (acts: seq<Action>, s: State)
    requires !n.native && !n.atomic && n.flaky && !n.cleans && Initial(s0) && s0.disk.Absent?
    ensures Exec(n, s0, acts) == Some(s) && OneAtATime(n, s0, acts)
    ensures s.calls == map[0 := Done(IoError)] && s.disk == Partial(0) && s.holder.None? && s.entry == Some(Failed)
  {
    acts, s := FailMidway(n, s0);
    acts, s := RunOne(n, s0, acts, Go(0), s);
    assert s.calls == map[0 := SetStatus(Broken)];
    acts, s := RunOne(n, s0, acts, Go(0), s);
    assert s.calls == map[0 := WriteState(Broken)] && s.entry == Some(Failed);
    acts, s := RunOne(n, s0, acts, Go(0), s);
  }

  /** One call after another, in either protocol: a download fails midway and the next call returns its partial file. */
  lemma LeftoverIsAccepted(n: Setting, s0: State) returns (acts: seq<Action>, s: State)
    requires !n.native && !n.atomic && n.flaky && !n.cleans && Initial(s0) && s0.disk.Absent?
    ensures Exec(n, s0, acts) == Some(s) && OneAtATime(n, s0, acts)
    ensures s.calls == map[0 := Done(IoError), 1 := Done(OkPath)] && s.disk == Partial(0)
  {
    acts, s := LeaveLeftover(n, s0);
    if n.waits {
      acts, s := TakeLeftoverUnderLock(n, s0, acts, s);
    } else {
      acts, s := TakeLeftoverAtOnce(n, s0, acts, s);
    }
  }

  lemma TakeLeftoverUnderLock(n: Setting, s0: State, acts: seq<Action>, v: State) returns (acts': seq<Action>, s: State)
    requires n.waits && Exec(n, s0, acts) == Some(v) && OneAtATime(n, s0, acts)
    requires v.calls == map[0 := Done(IoError)] && v.disk == Partial(0) && v.holder.None? && v.entry == Some(Failed)
    ensures Exec(n, s0, acts') == Some(s) && OneAtATime(n, s0, acts')
    ensures s.calls == map[0 := Done(IoError), 1 := Done(OkPath)] && s.disk == Partial(0)
  {
    acts', s := ReachRecheck(n, s0, acts, v, 1);
    acts', s := RunOne(n, s0, acts', Go(1), s);
    assert s.calls == v.calls[1 := Done(OkPath)];
  }

  lemma TakeLeftoverAtOnce(n: Setting, s0: State, acts: seq<Action>, v: State) returns (acts': seq<Action>, s: State)
    requires !n.waits && Exec(n, s0, acts) == Some(v) && OneAtATime(n, s0, acts)
    requires v.calls == map[0 := Done(IoError)] && v.disk == Partial(0) && v.holder.None? && v.entry == Some(Failed)
    ensures Exec(n, s0, acts') == Some(s) && OneAtATime(n, s0, acts')
    ensures s.calls == map[0 := Done(IoError), 1 := Done(OkPath)] && s.disk == Partial(0)
  {
    acts', s := RunOne(n, s0, acts, Begin(1), v);
    assert s == v.(calls := v.calls[1 := CheckDisk]);
    acts', s := RunOne(n, s0, acts', Go(1), s);
    assert s == v.(calls := v.calls[1 := Done(OkPath)]);
  }

  // ---------- What makes a state safe ----------

  /** No download of this file ever leaves a partial copy behind. */
  predicate LeavesNothing(n: Setting) {
    n.native || n.atomic || (!n.killed && (n.cleans || !n.flaky))
  }

  /** What the disk holds, by the position of a call that has decided to download or has returned. */
  predicate DiskFits(n: Setting, disk: Disk, t: Call, pc: Pc) {
    match pc
    case Decide => disk.Absent?
    case MarkSyncing => disk.Absent?
    case Request => disk.Absent?
    case Writing => if n.atomic then disk.Absent? else disk == Partial(t)
    case AcquireSecond(o) => if o.Downloaded? then disk.Full? else disk.Absent?
    case SetStatus(o) => if o.Downloaded? then disk.Full? else disk.Absent?
    case WriteState(o) => if o.Downloaded? then disk.Full? else disk.Absent?
    case WriteSyncedAt => disk.Full?
    case Done(r) => r.OkPath? ==> disk.Full?
    case _ => true
  }

  /** A call that is downloading, or about to decide, is the only one. */
  ghost predicate Sole(s: State, t: Call)
    requires t in s.calls
  {
    Active(s.calls[t]) || s.calls[t].Decide? ==> !OtherActive(s, t)
  }

  ghost predicate Safe(n: Setting, s: State) {
    && (forall t :: t in s.calls ==> Sole(s, t) && DiskFits(n, s.disk, t, s.calls[t]))
    && (!SomeActive(s) ==> !s.disk.Partial?)
    && (s.entry == Some(Complete) ==> s.disk.Full?)
  }

  /** The step looks at the disk. */
  predicate Looks(n: Setting, s: State, a: Action) {
    && a.Go? && a.call in s.calls
    && (s.calls[a.call].CheckDisk? || (s.calls[a.call].Recheck? && !(n.waits && s.entry == Some(InProgress))))
  }

  /** The step looks at the disk only while no other call is downloading. */
  ghost predicate Alone(n: Setting, s: State, a: Action) {
    Looks(n, s, a) ==> !OtherActive(s, a.call)
  }

  /** A step's effect on the disk and on its own call, with `other` for "another call is downloading". */
  lemma OwnStepSafe(n: Setting, s: State, a: Action, other: bool)
    requires LeavesNothing(n) && Enabled(n, s, a) && !a.Restart?
    requires a.call in s.calls ==>
      && LockInv(s, a.call) && PathInv(n, s, s.calls[a.call]) && DiskFits(n, s.disk, a.call, s.calls[a.call])
      && (Active(s.calls[a.call]) || s.calls[a.call].Decide? || Looks(n, s, a) ==> !other)
    requires !other && !(a.call in s.calls && Active(s.calls[a.call])) ==> !s.disk.Partial?
    requires s.entry == Some(Complete) ==> s.disk.Full?
    ensures var s' := Next(n, s, a);
      && a.call in s'.calls && DiskFits(n, s'.disk, a.call, s'.calls[a.call])
      && (Active(s'.calls[a.call]) || s'.calls[a.call].Decide? ==> !other)
      && (!other && !Active(s'.calls[a.call]) ==> !s'.disk.Partial?)
      && (s'.entry == Some(Complete) ==> s'.disk.Full?)
  {
    if a.Go? && a.call in s.calls && Active(s.calls[a.call]) {
      DownloadStepSafe(n, s, a.call);
    }
  }

  lemma DownloadStepSafe(n: Setting, s: State, t: Call)
    requires Enabled(n, s, Go(t)) && Active(s.calls[t])
    requires LockInv(s, t) && DiskFits(n, s.disk, t, s.calls[t])
    requires s.entry == Some(Complete) ==> s.disk.Full?
    ensures var s' := Advance(n, s, t);
      && t in s'.calls && DiskFits(n, s'.disk, t, s'.calls[t]) && !s'.calls[t].Decide?
      && (!Active(s'.calls[t]) ==> !s'.disk.Partial?)
      && (s'.entry == Some(Complete) ==> s'.disk.Full?)
  {
  }

  /** Only a downloading call changes the disk, and only the holder of the mutex becomes one. */
  lemma DiskFrame(n: Setting, s: State, a: Action)
    requires Enabled(n, s, a) && !a.Restart?
    requires a.call in s.calls ==> LockInv(s, a.call) && DiskFits(n, s.disk, a.call, s.calls[a.call])
    ensures var s' := Next(n, s, a); var t := a.call;
      && t in s'.calls
      && (s'.disk != s.disk ==> t in s.calls && Active(s.calls[t]) && !s.disk.Full?)
      && (Active(s'.calls[t]) ==> t in s.calls && (Active(s.calls[t]) || s.holder == Some(t)))
  {
  }

  lemma OtherStepSafe(n: Setting, s: State, s': State, t: Call, u: Call)
    requires Frame(s, s', t) && u != t && u in s.calls && LockInv(s, u)
    requires Sole(s, u) && DiskFits(n, s.disk, u, s.calls[u])
    requires t in s.calls && Active(s.calls[t]) ==> !OtherActive(s, t)
    requires Active(s'.calls[t]) ==> !OtherActive(s, t)
    requires s'.disk != s.disk ==> t in s.calls && Active(s.calls[t]) && !s.disk.Full?
    requires Active(s'.calls[t]) ==> t in s.calls && (Active(s.calls[t]) || s.holder == Some(t))
    ensures Sole(s', u) && DiskFits(n, s'.disk, u, s'.calls[u])
  {
    assert s'.calls[u] == s.calls[u];
    assert Active(s.calls[u]) ==> OtherActive(s, t);
    assert t in s.calls && Active(s.calls[t]) ==> OtherActive(s, u);
    assert OtherActive(s', u) ==> Active(s'.calls[t]) || OtherActive(s, u) by {
      if OtherActive(s', u) {
        var v :| v != u && v in s'.calls && Active(s'.calls[v]);
        assert v != t ==> v in s.calls && Active(s.calls[v]);
      }
    }
  }

  lemma OtherActiveKept(s: State, s': State, t: Call)
    requires Frame(s, s', t)
    ensures OtherActive(s', t) <==> OtherActive(s, t)
  {
    if OtherActive(s, t) {
      var u :| u != t && u in s.calls && Active(s.calls[u]);
      assert u in s'.calls && Active(s'.calls[u]);
    }
    if OtherActive(s', t) {
      var u :| u != t && u in s'.calls && Active(s'.calls[u]);
      assert u in s.calls && Active(s.calls[u]);
    }
  }

  /** A session that ends, even in the middle of a download, leaves no partial copy. */
  lemma RestartIsSafe(n: Setting, s: State)
    requires LeavesNothing(n) && Inv(n, s) && Safe(n, s) && Enabled(n, s, Restart)
    ensures Safe(n, Next(n, s, Restart))
  {
    if SomeActive(s) {
      var t :| t in s.calls && Active(s.calls[t]);
      assert CallInv(n, s, t) && DiskFits(n, s.disk, t, s.calls[t]);
    }
  }

  lemma StepKeepsSafe(n: Setting, s: State, a: Action)
    requires LeavesNothing(n) && Inv(n, s) && Safe(n, s) && Enabled(n, s, a) && Alone(n, s, a)
    ensures Safe(n, Next(n, s, a))
  {
    if a.Restart? {
      RestartIsSafe(n, s);
      return;
    }
    var t, s' := a.call, Next(n, s, a);
    assert t in s.calls ==> CallInv(n, s, t) && Sole(s, t) && DiskFits(n, s.disk, t, s.calls[t]);
    StepFrame(n, s, a);
    ActiveAfter(s, s', t);
    OtherActiveKept(s, s', t);
    OwnStepSafe(n, s, a, OtherActive(s, t));
    DiskFrame(n, s, a);
    SafeForAll(n, s, s', t);
  }

  lemma SafeForAll(n: Setting, s: State, s': State, t: Call)
    requires Inv(n, s) && Safe(n, s) && Frame(s, s', t)
    requires Sole(s', t) && DiskFits(n, s'.disk, t, s'.calls[t])
    requires Active(s'.calls[t]) ==> !OtherActive(s, t)
    requires s'.disk != s.disk ==> t in s.calls && Active(s.calls[t]) && !s.disk.Full?
    requires Active(s'.calls[t]) ==> t in s.calls && (Active(s.calls[t]) || s.holder == Some(t))
    ensures forall u :: u in s'.calls ==> Sole(s', u) && DiskFits(n, s'.disk, u, s'.calls[u])
  {
    forall u | u in s'.calls ensures Sole(s', u) && DiskFits(n, s'.disk, u, s'.calls[u]) {
      if u != t {
        assert CallInv(n, s, u);
        assert t in s.calls ==> Sole(s, t);
        OtherStepSafe(n, s, s', t, u);
      }
    }
  }

  /** Inside `provider.download`, before or after the destination file is created. */
  predicate InFlight(pc: Pc) {
    pc.Request? || pc.Writing?
  }

  /** The claim itself. */
  ghost predicate SingleDownload(s: State) {
    && (forall t, u :: t in s.calls && u in s.calls && InFlight(s.calls[t]) && InFlight(s.calls[u]) ==> t == u)
    && (forall t :: t in s.calls && s.calls[t] == Done(OkPath) ==> s.disk.Full?)
  }

  lemma SafeMeansSingleDownload(n: Setting, s: State)
    requires Safe(n, s)
    ensures SingleDownload(s)
  {
    forall t, u | t in s.calls && u in s.calls && InFlight(s.calls[t]) && InFlight(s.calls[u]) ensures t == u {
      assert Sole(s, t);
      assert t != u ==> OtherActive(s, t);
    }
    forall t | t in s.calls && s.calls[t] == Done(OkPath) ensures s.disk.Full? {
      assert DiskFits(n, s.disk, t, s.calls[t]);
    }
  }

  /** Whenever a partial copy can be left behind, some call made after it is handed that copy. */
  lemma SomePartialIsAccepted(n: Setting, s0: State) returns (acts: seq<Action>, s: State)
    requires !LeavesNothing(n) && Initial(s0) && s0.disk.Absent?
    ensures Exec(n, s0, acts) == Some(s) && OneAtATime(n, s0, acts) && !SingleDownload(s)
  {
    if n.killed {
      acts, s := KilledCopyIsAccepted(n, s0);
      assert 0 in s.calls && s.calls[0] == Done(OkPath);
    } else {
      acts, s := LeftoverIsAccepted(n, s0);
      assert 1 in s.calls && s.calls[1] == Done(OkPath);
    }
  }

  // ---------- One call at a time ----------

  ghost predicate AtMostOneRunning(s: State) {
    forall t, u :: t in s.calls && u in s.calls && !s.calls[t].Done? && !s.calls[u].Done? ==> t == u
  }

  lemma SerialStep(n: Setting, s: State, a: Action)
    requires AtMostOneRunning(s) && Enabled(n, s, a)
    requires a.Begin? ==> AllDone(s)
    ensures AtMostOneRunning(Next(n, s, a)) && Alone(n, s, a)
  {
    if a.Restart? {
      return;
    }
    var t, s' := a.call, Next(n, s, a);
    assert s'.calls == s.calls[t := s'.calls[t]];
    forall u | u in s.calls && u != t ensures s.calls[u].Done? {}
  }

  lemma {:induction false} OneCallAtATimeKeepsSafe(n: Setting, s0: State, acts: seq<Action>)
    requires LeavesNothing(n) && !n.waits && Initial(s0) && !s0.disk.Partial?
    requires Exec(n, s0, acts).Some? && OneAtATime(n, s0, acts)
    ensures Safe(n, Exec(n, s0, acts).value) && AtMostOneRunning(Exec(n, s0, acts).value)
  {
    if acts != [] {
      var init, a := acts[..|acts| - 1], acts[|acts| - 1];
      var s := Exec(n, s0, init).value;
      OneCallAtATimeKeepsSafe(n, s0, init);
      RunKeepsInv(n, s0, init);
      SerialStep(n, s, a);
      StepKeepsSafe(n, s, a);
    }
  }

  /** Calls made one at a time: at most one download in flight, and every `Ok` path is a complete copy. */
  lemma OneCallAtATimeIsSingleDownload(n: Setting, s0: State, acts: seq<Action>)
    requires LeavesNothing(n) && !n.waits && Initial(s0) && !s0.disk.Partial?
    requires Exec(n, s0, acts).Some? && OneAtATime(n, s0, acts)
    ensures SingleDownload(Exec(n, s0, acts).value)
  {
    OneCallAtATimeKeepsSafe(n, s0, acts);
    SafeMeansSingleDownload(n, Exec(n, s0, acts).value);
  }

  /**
   As written, for a file not yet cached: every sequence of calls made one at a time keeps the claim if and
   only if no download can leave a partial copy behind.
   */
  lemma OneCallAtATimeIff(n: Setting, s0: State)
    requires !n.waits && Initial(s0) && s0.disk.Absent?
    ensures LeavesNothing(n) <==>
      forall acts :: Exec(n, s0, acts).Some? && OneAtATime(n, s0, acts) ==> SingleDownload(Exec(n, s0, acts).value)
  {
    if LeavesNothing(n) {
      forall acts | Exec(n, s0, acts).Some? && OneAtATime(n, s0, acts)
        ensures SingleDownload(Exec(n, s0, acts).value)
      {
        OneCallAtATimeIsSingleDownload(n, s0, acts);
      }
    } else {
      var acts, s := SomePartialIsAccepted(n, s0);
    }
  }

  // ---------- The repaired protocol, any interleaving ----------

  /** `InProgress` is true to its name: it holds exactly while a download has not yet been settled. */
  predicate Settling(pc: Pc) {
    pc.WriteState? || pc.WriteSyncedAt?
  }

  predicate StatusFits(entry: Option<Status>, pc: Pc) {
    && (Active(pc) && !Settling(pc) ==> entry == Some(InProgress))
    && !pc.CheckDisk?
    && (pc.Decide? ==> entry != Some(InProgress))
  }

  ghost predicate StatusIsTrue(s: State) {
    && (forall t :: t in s.calls ==> StatusFits(s.entry, s.calls[t]))
    && (s.entry == Some(InProgress) ==> SomeActive(s))
  }

  lemma WaitingGivesAlone(n: Setting, s: State, a: Action)
    requires n.waits && Inv(n, s) && StatusIsTrue(s) && Enabled(n, s, a)
    ensures Alone(n, s, a)
  {
    if Looks(n, s, a) {
      var t := a.call;
      assert CallInv(n, s, t);
      forall u | u != t && u in s.calls ensures !Active(s.calls[u]) {
        assert CallInv(n, s, u);
      }
    }
  }

  lemma OwnStepStatus(n: Setting, s: State, a: Action, other: bool)
    requires n.waits && Enabled(n, s, a) && !a.Restart?
    requires a.call in s.calls ==>
      && LockInv(s, a.call) && StatusFits(s.entry, s.calls[a.call])
      && (Active(s.calls[a.call]) || s.calls[a.call].Decide? ==> !other)
    requires s.entry == Some(InProgress) ==> other || (a.call in s.calls && Active(s.calls[a.call]))
    ensures var s' := Next(n, s, a); var t := a.call;
      && t in s'.calls && StatusFits(s'.entry, s'.calls[t])
      && (s'.entry == Some(InProgress) ==> other || Active(s'.calls[t]))
      && (s'.entry != s.entry ==> !other || (s.entry.None? && s'.entry != Some(InProgress)))
  {
    if a.Go? && Active(s.calls[a.call]) {
      DownloadStepStatus(n, s, a.call);
    }
  }

  lemma DownloadStepStatus(n: Setting, s: State, t: Call)
    requires Enabled(n, s, Go(t)) && Active(s.calls[t])
    requires LockInv(s, t) && StatusFits(s.entry, s.calls[t])
    requires s.entry != Some(InProgress) ==> Settling(s.calls[t])
    ensures var s' := Advance(n, s, t);
      && t in s'.calls && StatusFits(s'.entry, s'.calls[t])
      && (s'.entry == Some(InProgress) ==> Active(s'.calls[t]))
  {
  }

  lemma StepKeepsStatusTrue(n: Setting, s: State, a: Action)
    requires n.waits && Inv(n, s) && Safe(n, s) && StatusIsTrue(s) && Enabled(n, s, a)
    ensures StatusIsTrue(Next(n, s, a))
  {
    if a.Restart? {
      return;
    }
    var t, s' := a.call, Next(n, s, a);
    assert t in s.calls ==> CallInv(n, s, t) && Sole(s, t) && StatusFits(s.entry, s.calls[t]);
    StepFrame(n, s, a);
    ActiveAfter(s, s', t);
    OwnStepStatus(n, s, a, OtherActive(s, t));
    forall u | u in s'.calls && u != t ensures StatusFits(s'.entry, s'.calls[u]) {
      assert CallInv(n, s, u);
      assert Active(s.calls[u]) ==> OtherActive(s, t);
    }
  }

  lemma {:induction false} RepairedRunKeepsSafe(n: Setting, s0: State, acts: seq<Action>)
    requires LeavesNothing(n) && n.waits && Initial(s0) && !s0.disk.Partial? && Exec(n, s0, acts).Some?
    ensures var s := Exec(n, s0, acts).value; Inv(n, s) && Safe(n, s) && StatusIsTrue(s)
  {
    RunKeepsInv(n, s0, acts);
    if acts != [] {
      var init, a := acts[..|acts| - 1], acts[|acts| - 1];
      RepairedRunKeepsSafe(n, s0, init);
      var s := Exec(n, s0, init).value;
      WaitingGivesAlone(n, s, a);
      StepKeepsSafe(n, s, a);
      StepKeepsStatusTrue(n, s, a);
    }
  }

  /** Repaired: any number of calls in any interleaving never download twice at once or return a partial copy. */
  lemma RepairedIsSingleDownload(n: Setting, s0: State, acts: seq<Action>)
    requires LeavesNothing(n) && n.waits && Initial(s0) && !s0.disk.Partial? && Exec(n, s0, acts).Some?
    ensures SingleDownload(Exec(n, s0, acts).value)
  {
    RepairedRunKeepsSafe(n, s0, acts);
    SafeMeansSingleDownload(n, Exec(n, s0, acts).value);
  }

  /** Repaired: waiting never deadlocks; while some call has not returned, some call can take a step. */
  lemma RepairedNeverDeadlocks(n: Setting, s0: State, acts: seq<Action>) returns (a: Action)
    requires LeavesNothing(n) && n.waits && Initial(s0) && !s0.disk.Partial? && Exec(n, s0, acts).Some?
    requires !AllDone(Exec(n, s0, acts).value)
    ensures !a.Begin? && !a.Restart? && Enabled(n, Exec(n, s0, acts).value, a)
  {
    RepairedRunKeepsSafe(n, s0, acts);
    var s := Exec(n, s0, acts).value;
    var t :| t in s.calls && !s.calls[t].Done?;
    if s.holder.Some? {
      t := s.holder.value;
      assert CallInv(n, s, t);
    } else if s.calls[t].Waiting? && s.entry == Some(InProgress) {
      t :| t in s.calls && Active(s.calls[t]);
    }
    a := if s.calls[t].Request? && n.native then Refuse(t) else Go(t);
  }

  // ---------- Exactly when every interleaving is safe ----------

  /**
   For a file not yet cached, every interleaving of any number of calls keeps the claim if and only if the
   protocol waits and no download can leave a partial copy behind.
   */
  lemma EveryInterleavingIff(n: Setting, s0: State)
    requires Initial(s0) && s0.disk.Absent?
    ensures n.waits && LeavesNothing(n) <==>
      forall acts :: Exec(n, s0, acts).Some? ==> SingleDownload(Exec(n, s0, acts).value)
  {
    if !n.waits {
      var acts, s := TwoRequestsInFlight(n, s0);
      assert InFlight(s.calls[0]) && InFlight(s.calls[1]) && !SingleDownload(s);
    } else if LeavesNothing(n) {
      forall acts | Exec(n, s0, acts).Some? ensures SingleDownload(Exec(n, s0, acts).value) {
        RepairedIsSingleDownload(n, s0, acts);
      }
    } else {
      var acts, s := SomePartialIsAccepted(n, s0);
    }
  }

  // ---------- Exactly when a row is left `Syncing` ----------

  /** A cloud-native file: the provider refuses, the call ends, and the row still says `Syncing`. */
  lemma RefusedRowStaysSyncing(n: Setting, s0: State) returns (acts: seq<Action>, s: State)
    requires n.native && Initial(s0) && s0.disk.Absent?
    ensures Exec(n, s0, acts) == Some(s)
    ensures s.calls == map[0 := Done(NotSupported)] && s.began && s.entry == Some(Failed) && s.local.state.Syncing?
  {
    acts, s := ReachRequest(n, s0, [], s0, 0);
    assert s.calls == map[0 := Request];
    acts, s := RunOne(n, s0, acts, Refuse(0), s);
    assert s.calls == map[0 := AcquireSecond(CloudNative)];
    acts, s := RunOne(n, s0, acts, Go(0), s);
    assert s.calls == map[0 := SetStatus(CloudNative)];
    acts, s := RunOne(n, s0, acts, Go(0), s);
  }

  /**
   For a file not yet cached, in either protocol and with any provider: every run that began a download and
   in which all of them have ended leaves the row in another state than `Syncing`, if and only if the file
   is not cloud-native.
   */
  lemma NeverLeftSyncingIff(n: Setting, s0: State)
    requires Initial(s0) && s0.disk.Absent?
    ensures !n.native <==>
      forall acts :: Exec(n, s0, acts).Some? && Exec(n, s0, acts).value.began && !SomeActive(Exec(n, s0, acts).value) ==>
        !Exec(n, s0, acts).value.local.state.Syncing?
  {
    if n.native {
      var acts, s := RefusedRowStaysSyncing(n, s0);
      assert !SomeActive(s);
    } else {
      forall acts | Exec(n, s0, acts).Some? && Exec(n, s0, acts).value.began && !SomeActive(Exec(n, s0, acts).value)
        ensures !Exec(n, s0, acts).value.local.state.Syncing?
      {
        RowAgreesWithStatus(n, s0, acts);
      }
    }
  }

  lemma StepNotSyncing(n: Setting, s: State, a: Action)
    requires !n.native && !n.killed && Inv(n, s) && Enabled(n, s, a)
    requires s.local.state.Syncing? ==> s.began
    ensures Next(n, s, a).local.state.Syncing? ==> Next(n, s, a).began
  {
    if a.Restart? {
      assert !SomeActive(s);
    } else if a.call in s.calls {
      assert CallInv(n, s, a.call);
    }
  }

  lemma {:induction false} RunNotSyncing(n: Setting, s0: State, acts: seq<Action>)
    requires !n.native && !n.killed && Initial(s0) && Exec(n, s0, acts).Some? && !s0.local.state.Syncing?
    ensures Exec(n, s0, acts).value.local.state.Syncing? ==> Exec(n, s0, acts).value.began
  {
    if acts != [] {
      var init := acts[..|acts| - 1];
      RunNotSyncing(n, s0, init);
      RunKeepsInv(n, s0, init);
      StepNotSyncing(n, Exec(n, s0, init).value, acts[|acts| - 1]);
    }
  }

  /**
   The same over any number of sessions, for a row that does not begin `Syncing`: it is never `Syncing`
   while no download is under way, if and only if the file is not cloud-native and the process is not
   killed in the middle of a call.
   */
  lemma NeverStuckSyncingIff(n: Setting, s0: State)
    requires Initial(s0) && s0.disk.Absent? && !s0.local.state.Syncing?
    ensures !n.native && !n.killed <==>
      forall acts :: Exec(n, s0, acts).Some? && !SomeActive(Exec(n, s0, acts).value) ==>
        !Exec(n, s0, acts).value.local.state.Syncing?
  {
    if n.native {
      var acts, s := RefusedRowStaysSyncing(n, s0);
      assert !SomeActive(s);
    } else if n.killed {
      var acts, s := KilledRowStaysSyncing(n, s0);
    } else {
      forall acts | Exec(n, s0, acts).Some? && !SomeActive(Exec(n, s0, acts).value)
        ensures !Exec(n, s0, acts).value.local.state.Syncing?
      {
        RunKeepsInv(n, s0, acts);
        RunNotSyncing(n, s0, acts);
      }
    }
  }

  lemma KilledRowStaysSyncing(n: Setting, s0: State) returns (acts: seq<Action>, s: State)
    requires n.killed && Initial(s0) && s0.disk.Absent?
    ensures Exec(n, s0, acts) == Some(s) && s.local.state.Syncing? && !SomeActive(s)
  {
    acts, s := ReachRequest(n, s0, [], s0, 0);
    acts, s := RunOne(n, s0, acts, Restart, s);
  }
}
