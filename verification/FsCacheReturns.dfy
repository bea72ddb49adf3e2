/** That flushes and the destroy of the threaded cache return: from every run in which the caller is
    inside one, there is a continuation in which it gets out. */
module FsCacheReturns {
  import opened Bytes
  import opened FsCacheRing
  import opened FsCacheSafety
  import opened FsCacheRuns
  import opened FsCacheProgress

  /** The thread has still to test the flush flag on this round. */
  predicate BeforeTest(t: Drain) {
    t.LoopReadR? || t.LoopReadW? || (t.Writing? && t.after.AgainLoop?) || t.Lock? || t.TestFlag?
  }

  /** The caller waits for a flush the thread has not reported. */
  predicate Asking(s: State) {
    s.p.FlushUnlock? || (s.p.FlushDown? && s.flushDone == 0)
  }

  /** A flush asked for will be seen, and so will the exit. */
  ghost predicate Heeds(s: State) {
    && (Asking(s) ==> s.startSem > 0 || BeforeTest(s.t) || Flushing(s.t))
    && (s.p.ExitJoin? ==> s.startSem > 0 || !s.t.Down?)
  }

  lemma ThreadHeeds(s: State)
    requires Inv(s) && Heeds(s)
    ensures Heeds(Next(s, ByThread))
  {
    if s.t.LoopReadW? { LoopBlockFits(s, s.t.r, s.wt); }
  }

  lemma CallerHeeds(s: State, op: Op)
    requires Inv(s) && Heeds(s)
    ensures Heeds(Next(s, ByCaller(op)))
  {
    CallerSafe(s);
  }

  lemma {:induction false} RunHeeds(cache: seq<byte>, schedule: seq<Choice>)
    requires cache != []
    ensures Heeds(Run(Start(cache), schedule))
    decreases |schedule|
  {
    if schedule != [] {
      var n := |schedule| - 1;
      RunHeeds(cache, schedule[..n]);
      match schedule[n] {
        case ByCaller(op) => CallerHeeds(Run(Start(cache), schedule[..n]), op);
        case ByThread => ThreadHeeds(Run(Start(cache), schedule[..n]));
      }
    }
  }

  // ----- the thread gets there -----

  /** How far the thread is from reporting a flush, a block written counting for itself. */
  function ToReport(t: Drain): nat {
    match t
    case Unlock => 20
    case TestExit => 19
    case Down => 18
    case LoopReadR => 17
    case LoopReadW(_) => 16
    case Writing(_, _, _, _, after) => if after.AgainLoop? then 15 else 10
    case Lock => 14
    case TestFlag => 13
    case FlushStart => 12
    case FlushStartW(_) => 11
    case Reset => 9
    case ResetW => 8
    case ResetR => 7
    case Up => 6
    case _ => 21
  }

  /** And from its end, once the exit flag is up. */
  function ToEnd(t: Drain): nat {
    match t
    case Down => 18
    case LoopReadR => 17
    case LoopReadW(_) => 16
    case Writing(_, _, _, _, after) => if after.AgainLoop? then 15 else 8
    case Lock => 14
    case TestFlag => 13
    case ClearFlag => 13
    case Unlock => 12
    case TestExit => 11
    case ExitStart => 10
    case ExitStartW(_) => 9
    case Ended => 0
    case _ => 21
  }

  ghost predicate Closer(s: State, s': State, before: nat, after: nat) {
    && s'.p == s.p && 0 <= Unread(s') <= Unread(s)
    && (Unread(s') < Unread(s) || after < before || (after == before && Left(s'.t) < Left(s.t)))
  }

  lemma ReportCloser(s: State)
    requires Inv(s) && Heeds(s) && s.p.FlushDown? && s.flushDone == 0
    ensures var s' := Next(s, ByThread); s'.flushDone > 0 || Closer(s, s', ToReport(s.t), ToReport(s'.t))
    ensures Next(s, ByThread).p == s.p
  {
    if s.t.LoopReadW? {
      LoopBlockFits(s, s.t.r, s.wt);
    } else if s.t.Writing? && s.t.i == s.t.len {
      PublishedContent(s);
    }
  }

  lemma EndCloser(s: State)
    requires Inv(s) && Heeds(s) && s.p.ExitJoin? && !s.t.Ended?
    ensures Closer(s, Next(s, ByThread), ToEnd(s.t), ToEnd(Next(s, ByThread).t))
  {
    if s.t.LoopReadW? {
      LoopBlockFits(s, s.t.r, s.wt);
    } else if s.t.Writing? && s.t.i == s.t.len {
      PublishedContent(s);
    }
  }

  /** How far the thread is from letting go of a lock the caller wants. */
  function ToFree(t: Drain): nat {
    match t
    case TestFlag => 2
    case ClearFlag => 2
    case Unlock => 1
    case _ => 0
  }

  lemma LockCloser(s: State)
    requires Inv(s) && s.p.FlushLock? && s.lock != FsCacheRing.Free
    ensures var s' := Next(s, ByThread); s'.p == s.p && ToFree(s'.t) < ToFree(s.t)
  {
  }

  // ----- and so does the caller -----

  /** The steps of the caller's own that a flush or the exit has left. */
  function Rest(p: Producer): nat {
    match p
    case FlushReadR(_) => 11
    case FlushReadW(_, _) => 10
    case FlushLock(_) => 9
    case FlushFlag(_) => 8
    case FlushRaise(_) => 7
    case FlushUnlock(_) => 6
    case FlushDown(_) => 5
    case FlushRecheckR(_) => 4
    case FlushRecheckW(_, _) => 3
    case Flushed(_) => 2
    case ExitFlag => 4
    case ExitRaise => 3
    case ExitJoin => 2
    case _ => 0
  }

  predicate InFlush(p: Producer) {
    || p.FlushReadR? || p.FlushReadW? || p.FlushLock? || p.FlushFlag? || p.FlushRaise? || p.FlushUnlock?
    || p.FlushDown? || p.FlushRecheckR? || p.FlushRecheckW? || p.Flushed?
  }

  predicate InExit(p: Producer) {
    p.ExitFlag? || p.ExitRaise? || p.ExitJoin?
  }

  /** The caller's next step has to wait for the thread. */
  predicate Blocked(s: State) {
    (s.p.FlushLock? && s.lock != FsCacheRing.Free) || (s.p.FlushDown? && s.flushDone == 0)
      || (s.p.ExitJoin? && !s.t.Ended?)
  }

  lemma CallerAdvances(s: State)
    requires Inv(s) && (InFlush(s.p) || InExit(s.p)) && !Blocked(s)
    ensures var p' := Next(s, ByCaller(OpFlush)).p;
      if InFlush(s.p) then p'.Idle? || (InFlush(p') && Rest(p') < Rest(s.p))
      else p'.Destroyed? || (InExit(p') && Rest(p') < Rest(s.p))
  {
    CallerSafe(s);
  }

  function ThreadRest(s: State): nat {
    if s.p.FlushLock? then ToFree(s.t) else if s.p.FlushDown? then ToReport(s.t) else ToEnd(s.t)
  }

  ghost predicate Returned(p: Producer, p': Producer) {
    if InFlush(p) then p'.Idle? else p'.Destroyed?
  }

  /** What is unread, when the thread is what the caller waits for. */
  ghost function Weight(s: State): int {
    if s.p.FlushLock? then 0 else Unread(s)
  }

  ghost function Waits(s: State): nat {
    if Blocked(s) then 1 else 0
  }

  /** The client begins no call. */
  ghost predicate Quiet(s: State, steps: seq<Choice>)
    requires Inv(s)
  {
    forall i :: 0 <= i < |steps| && steps[i].ByCaller? ==> !Run(s, steps[..i]).p.Idle?
  }

  lemma QuietFirst(s: State, c: Choice, rest: seq<Choice>)
    requires Inv(s) && (c.ByCaller? ==> !s.p.Idle?) && Quiet(Next(s, c), rest)
    ensures Quiet(s, [c] + rest)
  {
    var steps := [c] + rest;
    forall i | 0 <= i < |steps| && steps[i].ByCaller? ensures !Run(s, steps[..i]).p.Idle? {
      if i > 0 {
        RunFirst(s, c, rest[..i - 1]);
        assert steps[..i] == [c] + rest[..i - 1];
      }
    }
  }

  lemma {:induction false} CallReturns(s: State) returns (steps: seq<Choice>)
    requires Inv(s) && Heeds(s) && (InFlush(s.p) || InExit(s.p))
    ensures Returned(s.p, Run(s, steps).p) && Quiet(s, steps)
    decreases Rest(s.p), Waits(s), Weight(s), ThreadRest(s), Left(s.t)
  {
    var c := if Blocked(s) then ByThread else ByCaller(OpFlush);
    var s' := Next(s, c);
    if Blocked(s) {
      ThreadHeeds(s);
      if s.p.FlushLock? {
        LockCloser(s);
      } else if s.p.FlushDown? {
        ReportCloser(s);
      } else {
        EndCloser(s);
      }
    } else {
      CallerHeeds(s, OpFlush);
      CallerAdvances(s);
    }
    if s'.p.Idle? || s'.p.Destroyed? {
      steps := [c];
      assert [c][..0] == [];
    } else {
      var rest := CallReturns(s');
      RunFirst(s, c, rest);
      QuietFirst(s, c, rest);
      steps := [c] + rest;
    }
  }

  /** From every run with the caller inside a flush, a seek, a tell or a truncate, there is a
      continuation in which that call returns; and inside a destroy, one in which it is done and
      everything accepted is on the stream. */
  lemma CallsReturn(cache: seq<byte>, schedule: seq<Choice>) returns (more: seq<Choice>)
    requires cache != [] && var p := Run(Start(cache), schedule).p; InFlush(p) || InExit(p)
    ensures var s, s' := Run(Start(cache), schedule), Run(Start(cache), schedule + more);
      if InFlush(s.p) then s'.p.Idle? else s'.p.Destroyed? && s'.log == s'.accepted
  {
    var s := Run(Start(cache), schedule);
    RunHeeds(cache, schedule);
    more := CallReturns(s);
    RunJoin(Start(cache), schedule, more);
    if InExit(s.p) { EndedIsEmpty(Run(Start(cache), schedule + more)); }
  }
}
