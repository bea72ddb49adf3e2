/** The results about whole runs of the threaded cache: every schedule, from an empty ring. */
module FsCacheRuns {
  import opened Bytes
  import opened StreamFile
  import opened FsCacheRing
  import opened FsCacheSafety

  function Start(cache: seq<byte>): (s: State)
    requires cache != []
    ensures Inv(s)
  {
    InitInv(cache);
    Init(cache)
  }

  /** The bytes the ring holds that no fileWriter call has taken. */
  function Pending(s: State): seq<byte>
    requires Inv(s)
  {
    seq(Unread(s) - InFlight(s),
      k requires 0 <= k < Unread(s) - InFlight(s) => s.cache[At(s.cap, s.rd, InFlight(s) + k)])
  }

  lemma PendingIsRest(s: State)
    requires Inv(s)
    ensures Puts(Pending(s)) == s.accepted[|s.log|..]
  {
    var u, i, m := Unread(s), InFlight(s), |s.accepted|;
    assert |s.log| == m - u + i;
    forall k | 0 <= k < u - i ensures Puts(Pending(s))[k] == s.accepted[m - u + i + k] {
      assert s.accepted[m - u + (i + k)] == Put(s.cache[At(s.cap, s.rd, i + k)]);
    }
  }

  /** Nothing is lost, repeated or reordered: what the stream has, then what the ring holds, is
      what was accepted, and the ring holds less than its size. */
  lemma StreamThenRing(cache: seq<byte>, schedule: seq<Choice>)
    requires cache != []
    ensures var s := Run(Start(cache), schedule);
      s.log + Puts(Pending(s)) == s.accepted && |Pending(s)| < |cache|
  {
    var s := Run(Start(cache), schedule);
    PendingIsRest(s);
    assert s.log == s.accepted[..|s.log|];
  }

  /** A memcpy never lands on a byte the drain thread has still to write, in flight or not. */
  lemma CopyHitsNothingUnread(cache: seq<byte>, schedule: seq<Choice>, k: nat)
    requires cache != []
    requires var s := Run(Start(cache), schedule);
      s.p.Copying? && s.p.i < |s.p.buf| && k < Unread(s)
    ensures var s := Run(Start(cache), schedule);
      CopySlot(s.cap, s.p.r, s.p.w, |s.p.buf|, s.p.i) != At(s.cap, s.rd, k)
  {
    var s := Run(Start(cache), schedule);
    CopyIsRing(s.cap, s.p.r, s.p.w, |s.p.buf|, s.p.i);
    FreeIsRest(s.cap, s.p.r, s.p.w);
  }

  /** When a flush has returned everything accepted is on the stream, the drain thread is not in
      fileWriter, and no flush has ever reported failure; so seek, tell and truncate have the
      stream to themselves. */
  lemma FlushIsComplete(cache: seq<byte>, schedule: seq<Choice>)
    requires cache != []
    requires Run(Start(cache), schedule).p.Flushed?
    ensures var s := Run(Start(cache), schedule);
      s.log == s.accepted && !s.t.Writing? && FlushIncomplete !in s.faults
  {
    var s := Run(Start(cache), schedule);
    assert s.log == s.accepted[..|s.accepted|];
  }

  /** The thread resets the two pointers only while the caller waits for the flush to end. */
  lemma ResetMeetsNoWriter(cache: seq<byte>, schedule: seq<Choice>)
    requires cache != []
    requires var t := Run(Start(cache), schedule).t; t.ResetW? || t.ResetR?
    ensures Run(Start(cache), schedule).p.FlushDown?
  {
  }

  // ----- what the client asked for -----

  function Requests(op: Op): seq<Request> {
    match op
    case OpWrite(buf) => Puts(buf)
    case OpFlush => []
    case OpSeek(offset, whence) => [Seek(offset, whence)]
    case OpTell => [Tell]
    case OpTruncate(length) => [Truncate(length)]
    case OpDestroy => []
  }

  /** The requests of every call begun in the run, in order: what a direct writer would by now
      have put on its stream. */
  function Asked(s: State, schedule: seq<Choice>): seq<Request>
    requires Inv(s)
    decreases |schedule|
  {
    if schedule == [] then []
    else
      var n := |schedule| - 1;
      Asked(s, schedule[..n]) + Begun(Run(s, schedule[..n]), schedule[n])
  }

  /** The requests of the call in progress that are not yet accepted. */
  function Outstanding(p: Producer): seq<Request> {
    match p
    case WriteReadR(buf) => Puts(buf)
    case WriteReadW(buf, _) => Puts(buf)
    case Copying(buf, _, _, _) => Puts(buf)
    case Raising(buf) => Puts(buf)
    case Waiting(buf) => Puts(buf)
    case FlushReadR(goal) => OfGoal(goal)
    case FlushReadW(goal, _) => OfGoal(goal)
    case FlushLock(goal) => OfGoal(goal)
    case FlushFlag(goal) => OfGoal(goal)
    case FlushRaise(goal) => OfGoal(goal)
    case FlushUnlock(goal) => OfGoal(goal)
    case FlushDown(goal) => OfGoal(goal)
    case FlushRecheckR(goal) => OfGoal(goal)
    case FlushRecheckW(goal, _) => OfGoal(goal)
    case Flushed(goal) => OfGoal(goal)
    case _ => []
  }

  function OfGoal(goal: Goal): seq<Request> {
    match goal case FlushOnly => [] case Touch(request) => [request]
  }

  /** What a choice adds to the requests begun: those of a new call, when the caller is between calls. */
  function Begun(s: State, c: Choice): seq<Request> {
    if c.ByCaller? && s.p.Idle? then Requests(c.op) else []
  }

  lemma WriteAsks(s: State, op: Op)
    requires s.wt <= s.cap && !s.p.Idle? && !s.p.Flushed? && !s.p.Copying?
    ensures var s' := CallerStep(s, op);
      s'.accepted == s.accepted && Outstanding(s'.p) == Outstanding(s.p)
  {
    assert CallerStep(s, op).accepted == s.accepted;
    if s.p.WriteReadR? || s.p.WriteReadW? || s.p.AfterWrite? || s.p.Raising? || s.p.Waiting? {
    } else if s.p.FlushReadR? || s.p.FlushReadW? || s.p.FlushLock? || s.p.FlushFlag? {
    } else {
    }
  }

  lemma StepAsks(s: State, c: Choice)
    requires Inv(s)
    ensures var s' := Next(s, c);
      s'.accepted + Outstanding(s'.p) == s.accepted + Outstanding(s.p) + Begun(s, c)
  {
    if c.ByCaller? {
      CallerSafe(s);
      var s' := CallerStep(s, c.op);
      if s.p.Idle? {
        assert Outstanding(s'.p) == Requests(c.op);
      } else {
        if !s.p.Flushed? && !s.p.Copying? { WriteAsks(s, c.op); }
        assert s'.accepted + Outstanding(s'.p) == s.accepted + Outstanding(s.p);
      }
    }
  }

  lemma {:induction false} AcceptedIsAsked(cache: seq<byte>, schedule: seq<Choice>)
    requires cache != []
    ensures var s := Run(Start(cache), schedule);
      s.accepted + Outstanding(s.p) == Asked(Start(cache), schedule)
    decreases |schedule|
  {
    if schedule != [] {
      var n := |schedule| - 1;
      AcceptedIsAsked(cache, schedule[..n]);
      StepAsks(Run(Start(cache), schedule[..n]), schedule[n]);
    }
  }

  lemma EndedIsEmpty(s: State)
    requires Inv(s) && s.p.Destroyed?
    ensures s.log == s.accepted && Outstanding(s.p) == []
  {
  }

  /** The threaded writer is the direct writer: once destroyed, the stream is what the client's
      requests make of it one by one, whatever the schedule. */
  lemma DestroyedIsDirect(cache: seq<byte>, schedule: seq<Choice>, f: File)
    requires cache != []
    requires Run(Start(cache), schedule).p.Destroyed?
    ensures Apply(f, Run(Start(cache), schedule).log) == Apply(f, Asked(Start(cache), schedule))
  {
    AcceptedIsAsked(cache, schedule);
    var s, asked := Run(Start(cache), schedule), Asked(Start(cache), schedule);
    EndedIsEmpty(s);
    assert asked == s.accepted + [] == s.log;
  }

  /** And so is each answer on the way: a seek, tell or truncate finds the stream where the
      requests before it leave a direct writer's stream. */
  lemma ReplyIsDirect(cache: seq<byte>, schedule: seq<Choice>, f: File, request: Request)
    requires cache != []
    requires Run(Start(cache), schedule).p == Flushed(Touch(request))
    ensures var asked := Asked(Start(cache), schedule);
      && |asked| > 0 && asked[|asked| - 1] == request
      && Reply(Apply(f, Run(Start(cache), schedule).log), request) == Reply(Apply(f, asked[..|asked| - 1]), request)
  {
    AcceptedIsAsked(cache, schedule);
    FlushIsComplete(cache, schedule);
    var s, asked := Run(Start(cache), schedule), Asked(Start(cache), schedule);
    assert asked == s.accepted + [request];
    assert asked[..|asked| - 1] == s.log;
  }

  // ----- whole blocks -----

  /** With a buffer of whole blocks, the read pointer stays on a block boundary except while a
      flush or the exit empties the ring, and no branch the source calls fatal is ever taken. */
  ghost predicate Aligned(s: State) {
    && s.faults == {}
    && ((!Flushing(s.t) && !Exiting(s.t)) || s.t.Up? ==> s.rd % WRITE_BLOCK_SIZE == 0)
    && (s.t.Writing? && s.t.after.AgainLoop? ==> s.t.len % WRITE_BLOCK_SIZE == 0 && s.t.next % WRITE_BLOCK_SIZE == 0)
  }

  lemma WholeBlocks(left: nat)
    requires 0 < left && left % WRITE_BLOCK_SIZE == 0
    ensures WRITE_BLOCK_SIZE * (left / WRITE_BLOCK_SIZE) == left && left / WRITE_BLOCK_SIZE > 0
  {
  }

  lemma BlocksAway(r: nat, n: nat)
    requires r % WRITE_BLOCK_SIZE == 0
    ensures (WRITE_BLOCK_SIZE * n) % WRITE_BLOCK_SIZE == 0 && (r + WRITE_BLOCK_SIZE * n) % WRITE_BLOCK_SIZE == 0
  {
    var q := r / WRITE_BLOCK_SIZE;
    assert r + WRITE_BLOCK_SIZE * n == WRITE_BLOCK_SIZE * (q + n);
  }

  lemma LoopBlockAligned(s: State, r: nat, w: nat)
    requires s.cap % WRITE_BLOCK_SIZE == 0 && r % WRITE_BLOCK_SIZE == 0 && r < s.cap
    ensures var t := LoopBlock(s, r, w);
      t.faults == s.faults && (t.t.Writing? ==> t.t.len % WRITE_BLOCK_SIZE == 0 && t.t.next % WRITE_BLOCK_SIZE == 0)
  {
    if w >= r {
      BlocksAway(r, (w - r) / WRITE_BLOCK_SIZE);
    } else {
      WholeBlocks(s.cap - r);
      BlocksAway(r, (s.cap - r) / WRITE_BLOCK_SIZE);
    }
  }

  lemma CopyFaultFree(cap: nat, r: nat, w: nat, size: nat)
    requires r < cap && w < cap
    ensures WriteFaults(cap, r, w, size) == {}
  {
  }

  lemma CallerFaultFree(s: State, op: Op)
    requires s.wt <= s.cap
    requires s.p.Copying? ==> s.p.w <= s.cap
    requires s.p.Copying? && s.p.i < |s.p.buf| ==> CopySlot(s.cap, s.p.r, s.p.w, |s.p.buf|, s.p.i) < |s.cache|
    requires s.p.WriteReadW? ==> s.p.r < s.cap && s.wt < s.cap
    requires s.p.FlushRecheckW? ==> s.p.r == s.wt
    ensures CallerStep(s, op).faults == s.faults
  {
    if s.p.WriteReadW? {
      CopyFaultFree(s.cap, s.p.r, s.wt, |s.p.buf|);
    }
  }

  lemma CallerAligned(s: State, op: Op)
    requires Inv(s) && Aligned(s)
    ensures Aligned(Next(s, ByCaller(op)))
  {
    CallerSafe(s);
    CallerFaultFree(s, op);
  }

  lemma LoopAligned(s: State)
    requires Inv(s) && Aligned(s) && s.cap % WRITE_BLOCK_SIZE == 0 && s.t.LoopReadW?
    ensures Aligned(ThreadStep(s))
  {
    LoopBlockFits(s, s.t.r, s.wt);
    LoopBlockAligned(s, s.t.r, s.wt);
  }

  lemma WritingAligned(s: State)
    requires Inv(s) && Aligned(s) && (s.t.Writing? || s.t.FlushStartW? || s.t.ExitStartW?)
    ensures Aligned(ThreadStep(s))
  {
    assert ThreadStep(s).faults == s.faults;
  }

  lemma ControlAligned(s: State)
    requires Inv(s) && Aligned(s)
    requires !s.t.Writing? && !s.t.LoopReadW? && !s.t.FlushStartW? && !s.t.ExitStartW?
    ensures Aligned(ThreadStep(s))
  {
    var s' := ThreadStep(s);
    assert s'.faults == s.faults;
    assert s'.rd == if s.t.ResetR? then 0 else s.rd;
  }

  lemma ThreadAligned(s: State)
    requires Inv(s) && Aligned(s) && s.cap % WRITE_BLOCK_SIZE == 0
    ensures Aligned(Next(s, ByThread))
  {
    if s.t.LoopReadW? {
      LoopAligned(s);
    } else if s.t.Writing? || s.t.FlushStartW? || s.t.ExitStartW? {
      WritingAligned(s);
    } else {
      ControlAligned(s);
    }
  }

  lemma StepAligned(s: State, c: Choice)
    requires Inv(s) && Aligned(s) && s.cap % WRITE_BLOCK_SIZE == 0
    ensures Aligned(Next(s, c))
  {
    match c
    case ByCaller(op) => CallerAligned(s, op);
    case ByThread => ThreadAligned(s);
  }

  lemma {:induction false} AlignedAlways(cache: seq<byte>, schedule: seq<Choice>)
    requires cache != [] && |cache| % WRITE_BLOCK_SIZE == 0
    ensures Aligned(Run(Start(cache), schedule))
    decreases |schedule|
  {
    if schedule != [] {
      var n := |schedule| - 1;
      AlignedAlways(cache, schedule[..n]);
      StepAligned(Run(Start(cache), schedule[..n]), schedule[n]);
    }
  }
}
