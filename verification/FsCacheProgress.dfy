/** That the threaded cache moves on: no wake-up is lost, and a write that waits for room gets
    it from one drain pass exactly when it leaves a block's worth of the ring to spare. */
module FsCacheProgress {
  import opened Bytes
  import opened StreamFile
  import opened FsCacheRing
  import opened FsCacheSafety
  import opened FsCacheRuns

  /** The caller's next step raises the start semaphore. */
  predicate AboutToRaise(s: State) {
    s.p.Raising? || (s.p.AfterWrite? && s.cap - (s.p.free + 1 - s.p.size) >= WRITE_BLOCK_SIZE)
  }

  /** The thread is on its way to look at the write pointer, or writing what it saw. */
  predicate InDrain(t: Drain) {
    t.LoopReadR? || t.LoopReadW? || t.Writing? || t.FlushStart? || t.FlushStartW? || t.ExitStart? || t.ExitStartW?
  }

  ghost predicate Awake(s: State) {
    Unread(s) >= WRITE_BLOCK_SIZE ==> s.startSem > 0 || AboutToRaise(s) || InDrain(s.t)
  }

  lemma LoopGivesUpBelowBlock(s: State, r: nat, w: nat)
    requires r < s.cap && w < s.cap && LoopBlock(s, r, w).t == Lock
    ensures r <= w && w - r < WRITE_BLOCK_SIZE
  {
  }

  lemma DrainAwake(s: State)
    requires Inv(s) && (s.t.FlushStartW? || s.t.ExitStartW?)
    ensures Awake(ThreadStep(s))
  {
  }

  lemma IdleAwake(s: State)
    requires Inv(s) && Awake(s) && !InDrain(s.t)
    ensures Awake(ThreadStep(s))
  {
    assert Unread(ThreadStep(s)) == Unread(s);
  }

  lemma ThreadAwake(s: State)
    requires Inv(s) && Awake(s)
    ensures Awake(Next(s, ByThread))
  {
    if s.t.LoopReadW? {
      LoopBlockFits(s, s.t.r, s.wt);
      if ThreadStep(s).t == Lock { LoopGivesUpBelowBlock(s, s.t.r, s.wt); }
    } else if s.t.Writing? {
      if s.t.i == s.t.len { PublishedContent(s); }
    } else if s.t.FlushStartW? || s.t.ExitStartW? {
      DrainAwake(s);
    } else if !InDrain(s.t) {
      IdleAwake(s);
    }
  }

  lemma CallerAwake(s: State, op: Op)
    requires Inv(s) && Awake(s)
    ensures Awake(Next(s, ByCaller(op)))
  {
    CallerSafe(s);
    var s' := Next(s, ByCaller(op));
    if s.p.Copying? && s.p.i == |s.p.buf| {
      PublishedBytes(s, op);
      FreeIsRest(s.cap, s.p.r, s.p.w);
    } else {
      assert Unread(s') == Unread(s);
    }
  }

  /** No wake-up is missed: whenever a full block is unread, in any run, the start semaphore is up,
      or the caller is about to raise it, or a drain pass will still see the block. */
  lemma {:induction false} NoMissedWakeup(cache: seq<byte>, schedule: seq<Choice>)
    requires cache != []
    ensures Awake(Run(Start(cache), schedule))
    decreases |schedule|
  {
    if schedule != [] {
      var n := |schedule| - 1;
      NoMissedWakeup(cache, schedule[..n]);
      match schedule[n] {
        case ByCaller(op) => CallerAwake(Run(Start(cache), schedule[..n]), op);
        case ByThread => ThreadAwake(Run(Start(cache), schedule[..n]));
      }
    }
  }

  lemma {:induction false} RunJoin(s: State, a: seq<Choice>, b: seq<Choice>)
    requires Inv(s)
    ensures Run(s, a + b) == Run(Run(s, a), b)
    decreases |b|
  {
    if b == [] {
      assert a + b == a;
    } else {
      var k := |b| - 1;
      assert (a + b)[..|a + b| - 1] == a + b[..k];
      RunJoin(s, a, b[..k]);
    }
  }

  lemma RunFirst(s: State, c: Choice, rest: seq<Choice>)
    requires Inv(s)
    ensures Run(s, [c] + rest) == Run(Next(s, c), rest)
  {
    RunJoin(s, [c], rest);
    assert [c][..0] == [];
  }

  // ----- a waiting write gets its room -----

  /** A write fits once less than a block is unread, when it leaves a block of the ring to spare. */
  lemma FitsBelowBlock(s: State, size: nat)
    requires Inv(s) && !s.t.ResetR? && Unread(s) < WRITE_BLOCK_SIZE && size + WRITE_BLOCK_SIZE <= s.cap
    ensures size <= FreeSize(s.cap, s.rd, s.wt)
  {
    FreeIsRest(s.cap, s.rd, s.wt);
  }

  function Phase(t: Drain): nat {
    match t
    case Writing(_, _, _, _, _) => 0
    case LoopReadW(_) => 1
    case LoopReadR => 2
    case Down => 3
    case TestExit => 4
    case Unlock => 5
    case ClearFlag => 6
    case TestFlag => 6
    case _ => 7
  }

  function Left(t: Drain): nat {
    if t.Writing? && t.i <= t.len then t.len - t.i else 0
  }

  lemma WaitingPhases(s: State)
    requires Inv(s) && s.p.Waiting?
    ensures !Flushing(s.t) && !Exiting(s.t) && (s.t.TestFlag? ==> !s.flushFlag) && !s.exitFlag
      && (s.t.Lock? ==> s.lock == FsCacheRing.Free)
  {
  }

  /** With a block unread and the caller waiting, each step of the thread is progress. */
  lemma ThreadProgress(s: State)
    requires Inv(s) && Awake(s) && s.p.Waiting? && Unread(s) >= WRITE_BLOCK_SIZE
    ensures var s' := Next(s, ByThread);
      && s'.p == s.p
      && 0 <= Unread(s') <= Unread(s)
      && (Unread(s') < Unread(s) || Phase(s'.t) < Phase(s.t) || (Phase(s'.t) == Phase(s.t) && Left(s'.t) < Left(s.t)))
  {
    WaitingPhases(s);
    if s.t.LoopReadW? {
      LoopBlockFits(s, s.t.r, s.wt);
    } else if s.t.Writing? && s.t.i == s.t.len {
      PublishedContent(s);
    }
  }

  ghost predicate ThreadOnly(steps: seq<Choice>) {
    forall i :: 0 <= i < |steps| ==> steps[i] == ByThread
  }

  ghost predicate CallerOnly(steps: seq<Choice>) {
    forall i :: 0 <= i < |steps| ==> steps[i].ByCaller?
  }

  /** One drain pass by the thread alone leaves less than a block unread; it ends because each
      step shrinks what is unread, the distance to the next write, or the block being written. */
  lemma {:induction false} DrainMakesRoom(s: State) returns (steps: seq<Choice>)
    requires Inv(s) && Awake(s) && s.p.Waiting? && |s.p.buf| + WRITE_BLOCK_SIZE <= s.cap
    ensures ThreadOnly(steps)
    ensures Run(s, steps).p == s.p && !Run(s, steps).t.ResetR?
    ensures |s.p.buf| <= FreeSize(s.cap, Run(s, steps).rd, Run(s, steps).wt)
    decreases Unread(s), Phase(s.t), Left(s.t)
  {
    if Unread(s) < WRITE_BLOCK_SIZE {
      WaitingPhases(s);
      FitsBelowBlock(s, |s.p.buf|);
      steps := [];
    } else {
      ThreadProgress(s);
      ThreadAwake(s);
      var rest := DrainMakesRoom(Next(s, ByThread));
      RunFirst(s, ByThread, rest);
      steps := [ByThread] + rest;
    }
  }

  lemma RunTwo(s: State, c: Choice, d: Choice)
    requires Inv(s)
    ensures Run(s, [c] + [d]) == Next(Next(s, c), d)
  {
    RunFirst(s, c, [d]);
    assert [d][..0] == [];
  }

  lemma EndWrite(s: State)
    requires Inv(s) && s.p.Copying? && s.p.i == |s.p.buf|
    ensures var s' := Next(Next(s, ByCaller(OpFlush)), ByCaller(OpFlush));
      s'.p.Idle? && s'.accepted == s.accepted + Puts(s.p.buf) && Unread(s') == Unread(s) + |s.p.buf|
  {
    PublishedBytes(s, OpFlush);
    var s' := Next(s, ByCaller(OpFlush));
    assert Unread(Next(s', ByCaller(OpFlush))) == Unread(s');
  }

  lemma CopyStep(s: State)
    requires Inv(s) && s.p.Copying? && s.p.i < |s.p.buf|
    ensures var s' := Next(s, ByCaller(OpFlush));
      s'.p == s.p.(i := s.p.i + 1) && s'.accepted == s.accepted && Unread(s') == Unread(s)
  {
    CallerSafe(s);
  }

  /** A write that has its room finishes by the caller's steps alone. */
  lemma {:induction false} FinishCopy(s: State) returns (steps: seq<Choice>)
    requires Inv(s) && s.p.Copying?
    ensures var s' := Run(s, steps);
      s'.p.Idle? && s'.accepted == s.accepted + Puts(s.p.buf) && Unread(s') == Unread(s) + |s.p.buf|
    ensures CallerOnly(steps)
    decreases |s.p.buf| - s.p.i
  {
    var c := ByCaller(OpFlush);
    if s.p.i < |s.p.buf| {
      CopyStep(s);
      var s' := Next(s, c);
      var rest := FinishCopy(s');
      RunFirst(s, c, rest);
      steps := [c] + rest;
    } else {
      EndWrite(s);
      RunTwo(s, c, c);
      steps := [c] + [c];
    }
  }

  lemma BeginCopy(s: State) returns (s': State)
    requires Inv(s) && s.p.WriteReadR? && |s.p.buf| <= FreeSize(s.cap, s.rd, s.wt)
    ensures Run(s, [ByCaller(OpFlush), ByCaller(OpFlush)]) == s' && Inv(s')
    ensures s'.p.Copying? && s'.p.buf == s.p.buf && s'.accepted == s.accepted && Unread(s') == Unread(s)
  {
    var c := ByCaller(OpFlush);
    s' := Next(Next(s, c), c);
    RunTwo(s, c, c);
    assert [c, c] == [c] + [c];
  }

  lemma RunWrite(s: State) returns (steps: seq<Choice>)
    requires Inv(s) && s.p.WriteReadR? && |s.p.buf| <= FreeSize(s.cap, s.rd, s.wt)
    ensures CallerOnly(steps)
    ensures var s' := Run(s, steps);
      s'.p.Idle? && s'.accepted == s.accepted + Puts(s.p.buf) && Unread(s') == Unread(s) + |s.p.buf|
  {
    var s' := BeginCopy(s);
    var copy := FinishCopy(s');
    steps := [ByCaller(OpFlush), ByCaller(OpFlush)] + copy;
    RunJoin(s, [ByCaller(OpFlush), ByCaller(OpFlush)], copy);
  }

  /** In every run, a write waiting for room has a continuation in which it completes, provided it
      is at least a block smaller than the ring. */
  lemma WaitingWriteCompletes(cache: seq<byte>, schedule: seq<Choice>) returns (more: seq<Choice>)
    requires cache != []
    requires var p := Run(Start(cache), schedule).p; p.Waiting? && |p.buf| + WRITE_BLOCK_SIZE <= |cache|
    ensures var s := Run(Start(cache), schedule);
      && Run(Start(cache), schedule + more).p.Idle?
      && Run(Start(cache), schedule + more).accepted == s.accepted + Puts(s.p.buf)
  {
    var s := Run(Start(cache), schedule);
    NoMissedWakeup(cache, schedule);
    more := CompleteWrite(s);
    RunJoin(Start(cache), schedule, more);
  }

  lemma {:induction false} AcceptedStays(s: State, steps: seq<Choice>)
    requires Inv(s) && ThreadOnly(steps)
    ensures Run(s, steps).accepted == s.accepted && Run(s, steps).p == s.p
    decreases |steps|
  {
    if steps != [] {
      AcceptedStays(s, steps[..|steps| - 1]);
    }
  }

  lemma CompleteWrite(s: State) returns (more: seq<Choice>)
    requires Inv(s) && Awake(s) && s.p.Waiting? && |s.p.buf| + WRITE_BLOCK_SIZE <= s.cap
    ensures Run(s, more).p.Idle? && Run(s, more).accepted == s.accepted + Puts(s.p.buf)
  {
    var c := ByCaller(OpFlush);
    var drain := DrainMakesRoom(s);
    AcceptedStays(s, drain);
    var s1 := Run(s, drain);
    var steps := RunWrite(Next(s1, c));
    RunFirst(s1, c, steps);
    RunJoin(s, drain, [c] + steps);
    more := drain + ([c] + steps);
  }

  // ----- and otherwise it may wait for ever -----

  /** Less than a block is unread, so the thread writes nothing, and too much is for the write. */
  ghost predicate Stuck(s: State, buf: seq<byte>) {
    && Inv(s) && buf != []
    && (s.p == WriteReadR(buf) || s.p == WriteReadW(buf, s.rd) || s.p == Raising(buf) || s.p == Waiting(buf))
    && s.rd <= s.wt && s.wt - s.rd < WRITE_BLOCK_SIZE
    && s.wt - s.rd + |buf| >= s.cap
    && !s.t.Writing? && !s.t.ResetR?
  }

  lemma StuckStep(s: State, buf: seq<byte>, c: Choice)
    requires Stuck(s, buf)
    ensures Stuck(Next(s, c), buf) && Next(s, c).accepted == s.accepted
  {
    if c.ByCaller? {
      FreeIsRest(s.cap, s.rd, s.wt);
      CallerSafe(s);
    } else if s.t.LoopReadW? {
      assert LoopBlock(s, s.rd, s.wt).t == Lock;
    }
  }

  lemma {:induction false} StuckForever(s: State, buf: seq<byte>, schedule: seq<Choice>)
    requires Stuck(s, buf)
    ensures Stuck(Run(s, schedule), buf) && Run(s, schedule).accepted == s.accepted
    decreases |schedule|
  {
    if schedule != [] {
      var n := |schedule| - 1;
      StuckForever(s, buf, schedule[..n]);
      StuckStep(Run(s, schedule[..n]), buf, schedule[n]);
    }
  }

  /** As long as the thread has not moved, the read pointer has not. */
  lemma {:induction false} CallerKeepsRead(s: State, steps: seq<Choice>)
    requires Inv(s) && CallerOnly(steps)
    ensures Run(s, steps).rd == s.rd && Run(s, steps).t == s.t
    decreases |steps|
  {
    if steps != [] {
      CallerKeepsRead(s, steps[..|steps| - 1]);
    }
  }

  lemma FillBelowBlock(s: State) returns (steps: seq<Choice>)
    requires Inv(s) && s.p.Idle? && s.t.Down? && s.rd == s.wt == 0 && WRITE_BLOCK_SIZE <= s.cap
    ensures var s' := Run(s, steps);
      s'.p.Idle? && s'.t.Down? && s'.rd == 0 && s'.wt == WRITE_BLOCK_SIZE - 1
  {
    var w := ByCaller(OpWrite(Fill(WRITE_BLOCK_SIZE - 1, 0)));
    var rest := RunWrite(Next(s, w));
    RunFirst(s, w, rest);
    steps := [w] + rest;
    CallerKeepsRead(s, steps);
  }

  /** The bound is sharp: for a longer write, in any ring that can hold a block, there is a run
      (a write one byte short of a block, then this one) after which no schedule completes it. */
  lemma LongWriteCanStall(cache: seq<byte>, buf: seq<byte>) returns (schedule: seq<Choice>)
    requires WRITE_BLOCK_SIZE <= |cache| && |buf| + WRITE_BLOCK_SIZE > |cache| && buf != []
    ensures Stuck(Run(Start(cache), schedule), buf)
    ensures forall more: seq<Choice> ::
        Run(Start(cache), schedule + more).accepted == Run(Start(cache), schedule).accepted
  {
    var s0, w := Start(cache), ByCaller(OpWrite(buf));
    var lead := FillBelowBlock(s0);
    schedule := lead + [w];
    assert schedule[..|schedule| - 1] == lead;
    forall more: seq<Choice>
      ensures Run(s0, schedule + more).accepted == Run(s0, schedule).accepted
    {
      RunJoin(s0, schedule, more);
      StuckForever(Run(s0, schedule), buf, more);
    }
  }
}
