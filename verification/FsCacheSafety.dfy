/** What every interleaving of the caller and the drain thread keeps. */
module FsCacheSafety {
  import opened Bytes
  import opened StreamFile
  import opened FsCacheRing

  /** The slot `k` places after `p` around the ring. */
  function At(cap: nat, p: nat, k: nat): int {
    if p + k < cap then p + k else p + k - cap
  }

  /** Bytes taken from the client and not yet given up by the drain thread. While the thread is
      between its two pointer resets the ring counts as empty, which it was just before. */
  function Unread(s: State): int {
    if s.t.ResetR? then 0 else ValidSize(s.cap, s.rd, s.wt)
  }

  /** How many of those bytes the block now being written has already put on the stream. */
  function InFlight(s: State): nat {
    if s.t.Writing? then s.t.i else 0
  }

  ghost predicate Pointers(s: State) {
    0 < s.cap == |s.cache| && s.rd < s.cap && s.wt < s.cap
  }

  /** The stream has a prefix of what was accepted, and the ring holds exactly the rest. */
  ghost predicate Content(s: State) {
    var u := Unread(s);
    && InFlight(s) <= u <= |s.accepted|
    && |s.cache| == s.cap && s.rd < s.cap && u <= s.cap
    && (forall k {:trigger At(s.cap, s.rd, k)} :: 0 <= k < u ==>
         s.accepted[|s.accepted| - u + k] == Put(s.cache[At(s.cap, s.rd, k)]))
    && s.log == s.accepted[..|s.accepted| - u + InFlight(s)]
  }

  ghost predicate CallerOk(s: State) {
    match s.p
    case WriteReadR(buf) => buf != []
    case Raising(buf) => buf != []
    case Waiting(buf) => buf != []
    case WriteReadW(buf, r) => buf != [] && r < s.cap && Unread(s) <= ValidSize(s.cap, r, s.wt)
    case Copying(buf, r, w, i) =>
      && buf != [] && i <= |buf| && r < s.cap && w == s.wt < s.cap == |s.cache|
      && Unread(s) <= ValidSize(s.cap, r, w)
      && |buf| <= FreeSize(s.cap, r, w)
      && |buf| < s.cap
      && (forall k {:trigger At(s.cap, w, k)} :: 0 <= k < i ==> s.cache[At(s.cap, w, k)] == buf[k])
    case AfterWrite(size, free) => size <= free < s.cap && Unread(s) <= s.cap - (free + 1 - size)
    case FlushReadW(_, r) => r < s.cap && Unread(s) <= ValidSize(s.cap, r, s.wt)
    case FlushRecheckR(_) => Unread(s) == 0
    case FlushRecheckW(_, r) => r == s.rd && Unread(s) == 0
    case Flushed(_) => Unread(s) == 0
    case _ => true
  }

  ghost predicate ThreadOk(s: State) {
    match s.t
    case LoopReadW(r) => r == s.rd
    case FlushStartW(r) => r == s.rd
    case ExitStartW(r) => r == s.rd
    case Writing(r, len, i, next, after) =>
      && r == s.rd && i <= len && 0 < len <= Unread(s) && r + len <= s.cap && next == At(s.cap, r, len)
      && match after {
        case AgainLoop => true
        case FlushLast => next == s.wt && len == Unread(s)
        case ExitLast => next == s.wt && len == Unread(s)
        case FlushWrap(rest) => next == 0 && rest == s.wt
        case ExitWrap(rest) => next == 0 && rest == s.wt
      }
    case Reset => s.rd == s.wt
    case ResetW => s.rd == s.wt
    case ResetR => s.wt == 0
    case Up => s.rd == s.wt
    case Ended => s.rd == s.wt
    case _ => true
  }

  /** The thread is inside a flush: it has seen the flag and not yet reported. */
  predicate Flushing(t: Drain) {
    || t.FlushStart? || t.FlushStartW? || t.Reset? || t.ResetW? || t.ResetR? || t.Up?
    || (t.Writing? && (t.after.FlushLast? || t.after.FlushWrap?))
  }

  predicate Exiting(t: Drain) {
    t.ExitStart? || t.ExitStartW? || t.Ended? || (t.Writing? && (t.after.ExitLast? || t.after.ExitWrap?))
  }

  ghost predicate Handshake(s: State) {
    && (s.lock == Caller <==> s.p.FlushFlag? || s.p.FlushRaise? || s.p.FlushUnlock?)
    && (s.lock == Thread <==> Flushing(s.t) || s.t.TestFlag? || s.t.ClearFlag? || s.t.Unlock?)
    && (s.flushFlag <==> s.p.FlushRaise? || s.p.FlushUnlock? || (s.p.FlushDown? && s.flushDone == 0) || s.t.ClearFlag?)
    && (Flushing(s.t) ==> s.p.FlushDown? && s.flushDone == 0)
    && (s.t.ClearFlag? && s.p.FlushDown? ==> s.flushDone == 1)
    && (s.flushDone > 0 ==> s.flushDone == 1 && s.p.FlushDown? && Unread(s) == 0)
    && (s.exitFlag <==> s.p.ExitRaise? || s.p.ExitJoin? || s.p.Destroyed?)
    && (Exiting(s.t) ==> s.exitFlag)
    && (s.p.Destroyed? ==> s.t.Ended?)
    && s.faults <= {PartBlock}
  }

  ghost predicate Inv(s: State) {
    Pointers(s) && Content(s) && CallerOk(s) && ThreadOk(s) && Handshake(s)
  }

  // ----- the caller's arithmetic -----

  /** Both branches of the free-space test compute the same thing: all but one of the slots not unread. */
  lemma FreeIsRest(cap: nat, r: nat, w: nat)
    requires r < cap && w < cap
    ensures FreeSize(cap, r, w) == cap - 1 - ValidSize(cap, r, w)
    ensures 0 <= ValidSize(cap, r, w) < cap
  {
  }

  /** The one or two memcpys fill consecutive slots of the ring, and no branch of the test faults. */
  lemma CopyIsRing(cap: nat, r: nat, w: nat, size: nat, i: nat)
    requires r < cap && w < cap && i <= size <= FreeSize(cap, r, w)
    ensures i < size ==> CopySlot(cap, r, w, size, i) == At(cap, w, i)
    ensures 0 < size ==> NextWrite(cap, r, w, size) == At(cap, w, size)
    ensures WriteFaults(cap, r, w, size) == {}
  {
  }

  // ----- preservation -----

  lemma InitInv(cache: seq<byte>)
    requires cache != []
    ensures Inv(Init(cache))
  {
  }

  lemma CallerSafe(s: State)
    requires Inv(s)
    ensures s.p.Copying? && s.p.i < |s.p.buf| ==> CopySlot(s.cap, s.p.r, s.p.w, |s.p.buf|, s.p.i) < |s.cache|
  {
    if s.p.Copying? {
      CopyIsRing(s.cap, s.p.r, s.p.w, |s.p.buf|, s.p.i);
    }
  }

  /** Copying one byte: the slot is outside what is unread, so the ring's content stays. */
  lemma CopyByte(s: State, op: Op)
    requires Inv(s) && s.p.Copying? && s.p.i < |s.p.buf|
    requires CopySlot(s.cap, s.p.r, s.p.w, |s.p.buf|, s.p.i) < |s.cache|
    ensures Inv(CallerStep(s, op))
  {
    var cap, w, i := s.cap, s.p.w, s.p.i;
    CopyIsRing(cap, s.p.r, w, |s.p.buf|, i);
    FreeIsRest(cap, s.p.r, w);
    var s' := CallerStep(s, op);
    assert Unread(s') == Unread(s);
    forall k | 0 <= k < Unread(s) ensures At(cap, s.rd, k) != At(cap, w, i) {
    }
    assert Content(s');
    assert CallerOk(s');
  }

  lemma RingGrows(cap: nat, r: nat, w: nat, n: nat)
    requires r < cap && w < cap && ValidSize(cap, r, w) + n < cap
    ensures ValidSize(cap, r, At(cap, w, n)) == ValidSize(cap, r, w) + n
    ensures forall k {:trigger At(cap, r, k)} :: ValidSize(cap, r, w) <= k < ValidSize(cap, r, w) + n ==>
      At(cap, r, k) == At(cap, w, k - ValidSize(cap, r, w))
  {
  }

  /** Publishing the write pointer hands the copied bytes over, in order, after the unread ones. */
  lemma PublishedBytes(s: State, op: Op)
    requires Inv(s) && s.p.Copying? && s.p.i == |s.p.buf|
    ensures Content(CallerStep(s, op)) && Unread(CallerStep(s, op)) == Unread(s) + |s.p.buf|
  {
    var cap, r, w, n := s.cap, s.p.r, s.p.w, |s.p.buf|;
    CopyIsRing(cap, r, w, n, n);
    FreeIsRest(cap, r, w);
    var s' := CallerStep(s, op);
    var u, m := Unread(s), |s.accepted|;
    assert s.t != ResetR;
    RingGrows(cap, s.rd, w, n);
    assert |s'.accepted| == m + n;
    forall k | 0 <= k < u + n
      ensures s'.accepted[m - u + k] == Put(s'.cache[At(cap, s'.rd, k)])
    {
      if u <= k {
        assert s'.accepted[m + (k - u)] == Puts(s.p.buf)[k - u];
      } else {
        assert s'.accepted[m - u + k] == s.accepted[m - u + k];
      }
    }
  }

  lemma PublishWrite(s: State, op: Op)
    requires Inv(s) && s.p.Copying? && s.p.i == |s.p.buf|
    ensures Inv(CallerStep(s, op))
  {
    var cap, r, w, n := s.cap, s.p.r, s.p.w, |s.p.buf|;
    CopyIsRing(cap, r, w, n, n);
    FreeIsRest(cap, r, w);
    PublishedBytes(s, op);
  }

  lemma TouchStream(s: State, op: Op)
    requires Inv(s) && s.p.Flushed?
    ensures Inv(CallerStep(s, op))
  {
    assert s.log == s.accepted;
  }

  /** A step that moves neither pointer nor byte keeps the content. */
  lemma SameContent(s: State, s': State)
    requires Content(s)
    requires s'.cap == s.cap && s'.cache == s.cache && s'.rd == s.rd && s'.log == s.log && s'.accepted == s.accepted
    requires Unread(s') == Unread(s) && InFlight(s') == InFlight(s)
    ensures Content(s')
  {
  }

  /** A step of the thread that gives up bytes, or none, does not disturb what the caller has read:
      its copy of the read pointer only makes it see less room than there is. */
  lemma SameCaller(s: State, s': State)
    requires CallerOk(s) && s'.p == s.p && s'.cap == s.cap && s'.cache == s.cache && s'.wt == s.wt
    requires 0 <= Unread(s') <= Unread(s) && (s'.rd == s.rd || Unread(s) != 0)
    ensures CallerOk(s')
  {
  }

  lemma WriteSteps(s: State, op: Op)
    requires Inv(s)
    requires s.p.Idle? || s.p.WriteReadR? || s.p.WriteReadW? || s.p.AfterWrite? || s.p.Raising? || s.p.Waiting?
    ensures Inv(CallerStep(s, op))
  {
    if s.p.WriteReadW? {
      FreeIsRest(s.cap, s.p.r, s.wt);
      if |s.p.buf| <= FreeSize(s.cap, s.p.r, s.wt) {
        CopyIsRing(s.cap, s.p.r, s.wt, |s.p.buf|, 0);
      }
    }
    SameContent(s, CallerStep(s, op));
  }

  lemma FlushSteps(s: State, op: Op)
    requires Inv(s)
    requires s.p.FlushReadR? || s.p.FlushReadW? || s.p.FlushLock? || s.p.FlushFlag? || s.p.FlushRaise?
      || s.p.FlushUnlock?
    ensures Inv(CallerStep(s, op))
  {
    SameContent(s, CallerStep(s, op));
  }

  lemma FlushEndSteps(s: State, op: Op)
    requires Inv(s)
    requires s.p.FlushDown? || s.p.FlushRecheckR? || s.p.FlushRecheckW? || s.p.ExitFlag? || s.p.ExitRaise?
      || s.p.ExitJoin? || s.p.Destroyed?
    ensures Inv(CallerStep(s, op))
  {
    SameContent(s, CallerStep(s, op));
  }

  lemma CallerKeeps(s: State, op: Op)
    requires Inv(s)
    requires s.p.Copying? && s.p.i < |s.p.buf| ==> CopySlot(s.cap, s.p.r, s.p.w, |s.p.buf|, s.p.i) < |s.cache|
    ensures Inv(CallerStep(s, op))
  {
    if s.p.Copying? {
      if s.p.i < |s.p.buf| { CopyByte(s, op); } else { PublishWrite(s, op); }
    } else if s.p.Flushed? {
      TouchStream(s, op);
    } else if s.p.Idle? || s.p.WriteReadR? || s.p.WriteReadW? || s.p.AfterWrite? || s.p.Raising? || s.p.Waiting? {
      WriteSteps(s, op);
    } else if s.p.FlushReadR? || s.p.FlushReadW? || s.p.FlushLock? || s.p.FlushFlag? || s.p.FlushRaise?
      || s.p.FlushUnlock? {
      FlushSteps(s, op);
    } else {
      FlushEndSteps(s, op);
    }
  }

  /** One byte to fileWriter: it is the next accepted byte the stream does not have. */
  lemma WriteByte(s: State)
    requires Inv(s) && s.t.Writing? && s.t.i < s.t.len
    ensures Inv(ThreadStep(s))
  {
    var s' := ThreadStep(s);
    SameCaller(s, s');
    var u, i := Unread(s), s.t.i;
    assert At(s.cap, s.rd, i) == s.t.r + i;
    assert s.accepted[|s.accepted| - u + i] == Put(s.cache[At(s.cap, s.rd, i)]);
    assert s'.log == s'.accepted[..|s.accepted| - u + i + 1];
  }

  /** Moving the read pointer gives up exactly the block that is on the stream. */
  lemma PublishedContent(s: State)
    requires Inv(s) && s.t.Writing? && s.t.i == s.t.len
    ensures Content(ThreadStep(s)) && Unread(ThreadStep(s)) == Unread(s) - s.t.len
  {
    var s' := ThreadStep(s);
    var u, n, m := Unread(s), s.t.len, |s.accepted|;
    assert s'.rd == At(s.cap, s.rd, n) && s'.t != ResetR && s'.wt == s.wt && s'.log == s.log;
    RingSteps(s.cap, s.rd, s.wt, n);
    forall k | 0 <= k < u - n
      ensures s'.accepted[m - (u - n) + k] == Put(s'.cache[At(s.cap, s'.rd, k)])
    {
      assert At(s.cap, s'.rd, k) == At(s.cap, s.rd, n + k);
    }
  }

  lemma RingSteps(cap: nat, r: nat, w: nat, n: nat)
    requires r < cap && w < cap && n <= ValidSize(cap, r, w)
    ensures ValidSize(cap, At(cap, r, n), w) == ValidSize(cap, r, w) - n
    ensures forall k {:trigger At(cap, At(cap, r, n), k)} :: 0 <= k < ValidSize(cap, r, w) - n ==>
      At(cap, At(cap, r, n), k) == At(cap, r, n + k)
  {
  }

  lemma PublishRead(s: State)
    requires Inv(s) && s.t.Writing? && s.t.i == s.t.len
    ensures Inv(ThreadStep(s))
  {
    PublishedContent(s);
    SameCaller(s, ThreadStep(s));
    assert ThreadOk(ThreadStep(s));
  }

  /** What the drain loop decides: with less than 128 KiB before the write pointer nothing; otherwise all whole
      blocks of that size up to the write pointer, or up to the end of the buffer when that comes first, or
      what is left there when it is less than one. */
  lemma LoopBlockFits(s: State, r: nat, w: nat)
    requires r < s.cap && w < s.cap
    ensures var t := LoopBlock(s, r, w);
      && t == s.(t := t.t, faults := t.faults) && (t.faults == s.faults || t.faults == s.faults + {PartBlock})
      && (t.t == Lock || (t.t.Writing? && t.t.r == r && t.t.i == 0 && t.t.after == AgainLoop
                          && 0 < t.t.len <= ValidSize(s.cap, r, w) && r + t.t.len <= s.cap
                          && t.t.next == At(s.cap, r, t.t.len)))
    ensures LoopBlock(s, r, w).t == Lock <==> r <= w < r + 0x2_0000
    ensures var t := LoopBlock(s, r, w).t; var left := (if r <= w then w else s.cap) - r;
      t.Writing? ==> t.len == if left < 0x2_0000 then left else left - left % 0x2_0000
  {
  }

  lemma StartLoopBlock(s: State)
    requires Inv(s) && s.t.LoopReadW?
    ensures Inv(ThreadStep(s))
  {
    LoopBlockFits(s, s.t.r, s.wt);
    var s' := ThreadStep(s);
    SameContent(s, s');
    SameCaller(s, s');
    assert ThreadOk(s');
  }

  lemma StartDrain(s: State)
    requires Inv(s) && (s.t.FlushStartW? || s.t.ExitStartW?)
    ensures Inv(ThreadStep(s))
  {
    SameContent(s, ThreadStep(s));
    SameCaller(s, ThreadStep(s));
    assert ThreadOk(ThreadStep(s));
  }

  lemma ResetPointers(s: State)
    requires Inv(s) && (s.t.ResetW? || s.t.ResetR?)
    ensures Inv(ThreadStep(s))
  {
    var s' := ThreadStep(s);
    assert Unread(s') == Unread(s) == 0;
  }

  lemma ControlSteps(s: State)
    requires Inv(s)
    requires s.t.Down? || s.t.LoopReadR? || s.t.Lock?
    ensures Inv(ThreadStep(s))
  {
    SameContent(s, ThreadStep(s));
    SameCaller(s, ThreadStep(s));
  }

  lemma FlagSteps(s: State)
    requires Inv(s)
    requires s.t.TestFlag? || s.t.FlushStart? || s.t.Reset?
    ensures Inv(ThreadStep(s))
  {
    SameContent(s, ThreadStep(s));
    SameCaller(s, ThreadStep(s));
  }

  lemma ReportSteps(s: State)
    requires Inv(s)
    requires s.t.Up? || s.t.ClearFlag?
    ensures Inv(ThreadStep(s))
  {
    SameContent(s, ThreadStep(s));
    SameCaller(s, ThreadStep(s));
  }

  lemma ReleaseSteps(s: State)
    requires Inv(s)
    requires s.t.Unlock? || s.t.TestExit? || s.t.ExitStart? || s.t.Ended?
    ensures Inv(ThreadStep(s))
  {
    SameContent(s, ThreadStep(s));
    SameCaller(s, ThreadStep(s));
  }

  lemma ThreadKeeps(s: State)
    requires Inv(s)
    ensures Inv(ThreadStep(s))
  {
    match s.t
    case Writing(_, len, i, _, _) => if i < len { WriteByte(s); } else { PublishRead(s); }
    case LoopReadW(_) => StartLoopBlock(s);
    case FlushStartW(_) => StartDrain(s);
    case ExitStartW(_) => StartDrain(s);
    case ResetW => ResetPointers(s);
    case ResetR => ResetPointers(s);
    case Down => ControlSteps(s);
    case LoopReadR => ControlSteps(s);
    case Lock => ControlSteps(s);
    case TestFlag => FlagSteps(s);
    case FlushStart => FlagSteps(s);
    case Reset => FlagSteps(s);
    case Up => ReportSteps(s);
    case ClearFlag => ReportSteps(s);
    case _ => ReleaseSteps(s);
  }

  function Next(s: State, c: Choice): (s': State)
    requires Inv(s)
    ensures Inv(s') && s'.cap == s.cap
  {
    CallerSafe(s);
    match c
    case ByCaller(op) => CallerKeeps(s, op); CallerStep(s, op)
    case ByThread => ThreadKeeps(s); ThreadStep(s)
  }

  /** The state a schedule leads to. Every schedule is allowed, and none leaves the invariant. */
  function Run(s: State, schedule: seq<Choice>): (s': State)
    requires Inv(s)
    ensures Inv(s') && s'.cap == s.cap
    decreases |schedule|
  {
    if schedule == [] then s
    else Next(Run(s, schedule[..|schedule| - 1]), schedule[|schedule| - 1])
  }

  /** How the caller decides, by the pointers as it has read them: it copies exactly when what is unread and
      the block leave a slot, and has nothing to flush exactly when they are equal. */
  lemma CallerDecides(s: State, op: Op)
    requires Inv(s)
    ensures s.p.WriteReadW? ==>
      (CallerStep(s, op).p.Copying? <==> ValidSize(s.cap, s.p.r, s.wt) + |s.p.buf| < s.cap)
    ensures s.p.FlushReadW? ==> (CallerStep(s, op).p.Flushed? <==> s.p.r == s.wt)
  {
    if s.p.WriteReadW? { FreeIsRest(s.cap, s.p.r, s.wt); }
  }

  /** And after a write it raises the start semaphore exactly when 128 KiB or more are unread by them. */
  lemma CallerRaises(s: State, op: Op)
    requires Inv(s) && s.p.Copying? && s.p.i == |s.p.buf|
    ensures Inv(CallerStep(s, op))
    ensures CallerStep(CallerStep(s, op), op).startSem ==
      if s.startSem == 0 && ValidSize(s.cap, s.p.r, s.wt) + |s.p.buf| >= 0x2_0000 then 1 else s.startSem
  {
    CallerKeeps(s, op);
    FreeIsRest(s.cap, s.p.r, s.wt);
  }
}
