/** What a client of the threaded cache gets of each call: what it does, in any run, and that it
    returns. */
module FsCacheCalls {
  import opened Bytes
  import opened StreamFile
  import opened FsCacheRing
  import opened FsCacheSafety
  import opened FsCacheRuns
  import opened FsCacheProgress
  import opened FsCacheReturns

  /** The calls that empty the ring before they do anything else. */
  predicate Flushes(op: Op) {
    op.OpFlush? || op.OpSeek? || op.OpTell? || op.OpTruncate?
  }

  predicate InWrite(p: Producer) {
    p.WriteReadR? || p.WriteReadW? || p.Copying? || p.Raising? || p.Waiting?
  }

  /** The call `op` is under way, or is back, since `before` had been accepted. A call that flushes is
      back with everything accepted on the stream; a destroy never is, and is done the same way. */
  ghost predicate Within(s: State, op: Op, before: seq<Request>) {
    if Flushes(op) then
      || (InFlush(s.p) && OfGoal(s.p.goal) == Requests(op) && s.accepted == before)
      || (s.p.Idle? && s.log == s.accepted == before + Requests(op))
    else if op.OpWrite? then
      || (InWrite(s.p) && s.p.buf == op.buf && s.accepted == before)
      || ((s.p.AfterWrite? || s.p.Idle?) && s.accepted == before + Puts(op.buf))
    else
      s.accepted == before && (InExit(s.p) || (s.p.Destroyed? && s.log == before))
  }

  lemma BeginsWithin(s: State, op: Op)
    requires Inv(s) && s.p.Idle?
    ensures Within(Next(s, ByCaller(op)), op, s.accepted)
  {
    assert s.accepted + [] == s.accepted;
  }

  /** With nothing unread and the caller idle the thread has nothing to put on the stream. */
  lemma ThreadWithin(s: State, op: Op, before: seq<Request>)
    requires Inv(s) && Within(s, op, before)
    ensures Within(Next(s, ByThread), op, before)
  {
    var s' := Next(s, ByThread);
    if s.log == s.accepted {
      assert |s'.log| >= |s.log| && s'.log == s.accepted[..|s'.log|];
    }
  }

  lemma CallerWithin(s: State, op: Op, before: seq<Request>, next: Op)
    requires Inv(s) && Within(s, op, before) && !s.p.Idle?
    ensures Within(Next(s, ByCaller(next)), op, before)
  {
    CallerSafe(s);
    var s' := Next(s, ByCaller(next));
    if s.p.Flushed? {
      assert s.log == s.accepted[..|s.accepted|];
    }
    if s.p.ExitJoin? && s'.p.Destroyed? {
      EndedIsEmpty(s');
    }
  }

  lemma {:induction false} StaysWithin(s: State, op: Op, before: seq<Request>, more: seq<Choice>)
    requires Inv(s) && Within(s, op, before) && Quiet(s, more)
    ensures Within(Run(s, more), op, before)
    decreases |more|
  {
    if more != [] {
      var n := |more| - 1;
      assert forall i :: 0 <= i < n ==> more[..n][..i] == more[..i];
      StaysWithin(s, op, before, more[..n]);
      match more[n] {
        case ByThread => ThreadWithin(Run(s, more[..n]), op, before);
        case ByCaller(next) => CallerWithin(Run(s, more[..n]), op, before, next);
      }
    }
  }

  /** In every run: once the client has begun a call and is back from it, having begun no other, what is
      accepted is what was and the requests of that call; after a flush, a seek, a tell or a truncate
      all of it is on the stream. From a destroy the client is never back, and when that is done all is
      on the stream. */
  lemma {:induction false} CallIsDone(cache: seq<byte>, schedule: seq<Choice>, op: Op, more: seq<Choice>)
    requires cache != [] && Run(Start(cache), schedule).p.Idle?
    requires Quiet(Run(Start(cache), schedule + [ByCaller(op)]), more)
    ensures var s, s' := Run(Start(cache), schedule), Run(Start(cache), schedule + [ByCaller(op)] + more);
      && (s'.p.Idle? ==> s'.accepted == s.accepted + Requests(op) && !op.OpDestroy?)
      && (s'.p.Idle? && Flushes(op) ==> s'.log == s'.accepted)
      && (s'.p.Destroyed? ==> op.OpDestroy? && s'.log == s'.accepted == s.accepted)
  {
    var s := Run(Start(cache), schedule);
    assert (schedule + [ByCaller(op)])[..|schedule|] == schedule;
    BeginsWithin(s, op);
    StaysWithin(Next(s, ByCaller(op)), op, s.accepted, more);
    RunJoin(Start(cache), schedule + [ByCaller(op)], more);
  }

  /** And it can always come back: any call but a write within 128 KiB of the ring's size, or longer. */
  lemma {:induction false} CallCanReturn(cache: seq<byte>, schedule: seq<Choice>, op: Op) returns (more: seq<Choice>)
    requires cache != [] && Run(Start(cache), schedule).p.Idle?
    requires op.OpWrite? && op.buf != [] ==> |op.buf| + 0x2_0000 <= |cache|
    ensures var p := Run(Start(cache), schedule + [ByCaller(op)] + more).p;
      if op.OpDestroy? then p.Destroyed? else p.Idle?
    ensures !op.OpWrite? ==> Quiet(Run(Start(cache), schedule + [ByCaller(op)]), more)
  {
    var begun := schedule + [ByCaller(op)];
    assert begun[..|schedule|] == schedule;
    var s := Run(Start(cache), begun);
    if op.OpWrite? {
      more := WriteCanReturn(cache, begun);
    } else {
      RunHeeds(cache, begun);
      more := CallReturns(s);
    }
    RunJoin(Start(cache), begun, more);
  }

  /** Three steps of the caller alone take a write that has no room to its wait. */
  lemma {:induction false} ComesToWait(s: State)
    requires Inv(s) && s.p.WriteReadR? && |s.p.buf| > FreeSize(s.cap, s.rd, s.wt)
    ensures var c := ByCaller(OpFlush); Run(s, [c] + [c] + [c]).p == Waiting(s.p.buf)
  {
    var c := ByCaller(OpFlush);
    RunJoin(s, [c] + [c], [c]);
    RunTwo(s, c, c);
    assert [c][..0] == [];
  }

  lemma {:induction false} StillAwake(cache: seq<byte>, schedule: seq<Choice>, asking: seq<Choice>)
    requires cache != []
    ensures var s := Run(Run(Start(cache), schedule), asking); Inv(s) && Awake(s) && s.cap == |cache|
  {
    RunJoin(Start(cache), schedule, asking);
    NoMissedWakeup(cache, schedule + asking);
    RunHeeds(cache, schedule + asking);
  }

  lemma {:induction false} WaitReturns(s: State, asking: seq<Choice>) returns (more: seq<Choice>)
    requires Inv(s)
    requires var s' := Run(s, asking);
      Inv(s') && Awake(s') && s'.p.Waiting? && |s'.p.buf| + WRITE_BLOCK_SIZE <= s'.cap
    ensures Run(s, more).p.Idle?
  {
    var rest := CompleteWrite(Run(s, asking));
    RunJoin(s, asking, rest);
    more := asking + rest;
  }

  lemma {:induction false} WriteCanReturn(cache: seq<byte>, schedule: seq<Choice>) returns (more: seq<Choice>)
    requires cache != []
    requires var p := Run(Start(cache), schedule).p;
      p.Idle? || (p.WriteReadR? && |p.buf| + WRITE_BLOCK_SIZE <= |cache|)
    ensures Run(Run(Start(cache), schedule), more).p.Idle?
  {
    var s := Run(Start(cache), schedule);
    var c := ByCaller(OpFlush);
    if s.p.Idle? {
      more := [];
    } else if |s.p.buf| <= FreeSize(s.cap, s.rd, s.wt) {
      more := RunWrite(s);
    } else {
      ComesToWait(s);
      StillAwake(cache, schedule, [c] + [c] + [c]);
      more := WaitReturns(s, [c] + [c] + [c]);
    }
  }
}
