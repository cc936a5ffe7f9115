/**
 What `ensure_downloaded` answers, said by what happened to the call: its download broke, the provider
 refused it, or neither.
 */
module DownloadReplies {
  import opened CloudTypes
  import opened DownloadProtocol
  import opened DownloadSafety

  /** In the current session the download of call `t` broke. */
  predicate BrokeFor(acts: seq<Action>, t: Call) {
    acts != [] && !acts[|acts| - 1].Restart? && (acts[|acts| - 1] == Break(t) || BrokeFor(acts[..|acts| - 1], t))
  }

  /** In the current session the provider refused the download of call `t`. */
  predicate RefusedFor(acts: seq<Action>, t: Call) {
    acts != [] && !acts[|acts| - 1].Restart? && (acts[|acts| - 1] == Refuse(t) || RefusedFor(acts[..|acts| - 1], t))
  }

  /** A call's position agrees with what happened to its download. */
  predicate Remembers(pc: Pc, broke: bool, refused: bool) {
    match pc
    case AcquireSecond(o) => OutcomeIs(o, broke, refused)
    case SetStatus(o) => OutcomeIs(o, broke, refused)
    case WriteState(o) => OutcomeIs(o, broke, refused) && !refused
    case Done(r) => !(broke && refused) && r == if broke then IoError else if refused then NotSupported else OkPath
    case _ => !broke && !refused
  }

  predicate OutcomeIs(o: Outcome, broke: bool, refused: bool) {
    match o
    case Downloaded => !broke && !refused
    case Broken => broke && !refused
    case CloudNative => !broke && refused
  }

  lemma StepRemembers(n: Setting, s: State, a: Action, broke: bool, refused: bool)
    requires Enabled(n, s, a) && !a.Restart?
    requires if a.call in s.calls then Remembers(s.calls[a.call], broke, refused) else !broke && !refused
    ensures a.call in Next(n, s, a).calls
    ensures Remembers(Next(n, s, a).calls[a.call], broke || a.Break?, refused || a.Refuse?)
  {
  }

  lemma {:induction false} RunRemembers(n: Setting, s0: State, acts: seq<Action>, t: Call)
    requires Initial(s0) && Exec(n, s0, acts).Some?
    ensures var s := Exec(n, s0, acts).value; var broke := BrokeFor(acts, t); var refused := RefusedFor(acts, t);
      if t in s.calls then Remembers(s.calls[t], broke, refused) else !broke && !refused
  {
    if acts != [] {
      var init, a := acts[..|acts| - 1], acts[|acts| - 1];
      RunRemembers(n, s0, init, t);
      var s := Exec(n, s0, init).value;
      if !a.Restart? {
        if a.call == t {
          StepRemembers(n, s, a, BrokeFor(init, t), RefusedFor(init, t));
        } else {
          OtherCallsStay(n, s, a, t);
        }
      }
    }
  }

  lemma OtherCallsStay(n: Setting, s: State, a: Action, t: Call)
    requires Enabled(n, s, a) && !a.Restart? && a.call != t
    ensures t in Next(n, s, a).calls <==> t in s.calls
    ensures t in s.calls ==> Next(n, s, a).calls[t] == s.calls[t]
  {
  }

  /**
   In every interleaving, session and setting: a call that has returned answered with an I/O error exactly
   when its download broke, with "not supported" exactly when the provider refused it, and otherwise with
   the path.
   */
  lemma {:induction false} ReplySaysWhatHappened(n: Setting, s0: State, acts: seq<Action>, t: Call, r: Reply)
    requires Initial(s0) && Exec(n, s0, acts).Some?
    requires t in Exec(n, s0, acts).value.calls && Exec(n, s0, acts).value.calls[t] == Done(r)
    ensures r == IoError <==> BrokeFor(acts, t)
    ensures r == NotSupported <==> RefusedFor(acts, t)
    ensures r == OkPath <==> !BrokeFor(acts, t) && !RefusedFor(acts, t)
  {
    RunRemembers(n, s0, acts, t);
  }

  lemma {:induction false} OnlyIfPossible(n: Setting, s0: State, acts: seq<Action>, t: Call)
    requires Exec(n, s0, acts).Some?
    ensures BrokeFor(acts, t) ==> n.flaky
    ensures RefusedFor(acts, t) ==> n.native
  {
    if acts != [] {
      OnlyIfPossible(n, s0, acts[..|acts| - 1], t);
    }
  }

  /** With a provider that never fails and a file it does not refuse, every call that returns has the path. */
  lemma {:induction false} ReliableCallsReturnThePath(n: Setting, s0: State, acts: seq<Action>, t: Call)
    requires !n.flaky && !n.native && Initial(s0) && Exec(n, s0, acts).Some?
    requires t in Exec(n, s0, acts).value.calls && Exec(n, s0, acts).value.calls[t].Done?
    ensures Exec(n, s0, acts).value.calls[t] == Done(OkPath)
  {
    RunRemembers(n, s0, acts, t);
    OnlyIfPossible(n, s0, acts, t);
  }

  /** In either protocol a call for a file not yet cached can download it: whole copy, row `Synced`, path returned. */
  lemma OneCallDownloads(n: Setting, s0: State) returns (acts: seq<Action>, s: State)
    requires !n.native && Initial(s0) && s0.disk.Absent?
    ensures Exec(n, s0, acts) == Some(s)
    ensures s.calls == map[0 := Done(OkPath)] && s.disk.Full? && s.entry == Some(Complete)
    ensures s.local.state.Synced? && s.local.syncedAt.Some?
  {
    acts, s := SettleStatus(n, s0);
    acts, s := RunOne(n, s0, acts, Go(0), s);
    assert s.calls == map[0 := WriteSyncedAt] && s.local.state.Synced?;
    acts, s := RunOne(n, s0, acts, Go(0), s);
  }

  lemma SettleStatus(n: Setting, s0: State) returns (acts: seq<Action>, s: State)
    requires !n.native && Initial(s0) && s0.disk.Absent?
    ensures Exec(n, s0, acts) == Some(s)
    ensures s.calls == map[0 := WriteState(Downloaded)] && s.disk.Full? && s.entry == Some(Complete)
  {
    acts, s := FinishWriting(n, s0);
    acts, s := RunOne(n, s0, acts, Go(0), s);
    assert s.calls == map[0 := SetStatus(Downloaded)];
    acts, s := RunOne(n, s0, acts, Go(0), s);
  }

  lemma FinishWriting(n: Setting, s0: State) returns (acts: seq<Action>, s: State)
    requires !n.native && Initial(s0) && s0.disk.Absent?
    ensures Exec(n, s0, acts) == Some(s)
    ensures s.calls == map[0 := AcquireSecond(Downloaded)] && s.disk.Full? && s.holder.None?
  {
    acts, s := ReachRequest(n, s0, [], s0, 0);
    assert s.calls == map[0 := Request];
    acts, s := RunOne(n, s0, acts, Go(0), s);
    assert s.calls == map[0 := Writing];
    acts, s := RunOne(n, s0, acts, Go(0), s);
  }
}
