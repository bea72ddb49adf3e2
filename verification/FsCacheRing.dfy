/** The threaded cache writer: a byte ring filled by the caller of fsWrite and drained by one
    thread, as a machine of atomic steps. Each read or store of a shared variable is a step of
    its own, and so is each byte of a memcpy and each byte handed to fileWriter, so a schedule
    of `Next` is any interleaving of the two threads down to single bytes. */
module FsCacheRing {
  import opened Bytes
  import opened StreamFile

  const WRITE_BLOCK_SIZE := 128 * 1024

  /** What a client may ask for next. */
  datatype Op =
    | OpWrite(buf: seq<byte>)
    | OpFlush
    | OpSeek(offset: int, whence: Whence)
    | OpTell
    | OpTruncate(length: int)
    | OpDestroy

  /** What a flush was called for. */
  datatype Goal = FlushOnly | Touch(request: Request)

  /** Where the caller's thread is. */
  datatype Producer =
    | Idle
    | WriteReadR(buf: seq<byte>)
    | WriteReadW(buf: seq<byte>, r: nat)
    | Copying(buf: seq<byte>, r: nat, w: nat, i: nat)
    | AfterWrite(size: nat, free: nat)
    | Raising(buf: seq<byte>)
    | Waiting(buf: seq<byte>)
    | FlushReadR(goal: Goal)
    | FlushReadW(goal: Goal, r: nat)
    | FlushLock(goal: Goal)
    | FlushFlag(goal: Goal)
    | FlushRaise(goal: Goal)
    | FlushUnlock(goal: Goal)
    | FlushDown(goal: Goal)
    | FlushRecheckR(goal: Goal)
    | FlushRecheckW(goal: Goal, r: nat)
    | Flushed(goal: Goal)
    | ExitFlag
    | ExitRaise
    | ExitJoin
    | Destroyed

  /** What the drain thread does once a block has been written out. */
  datatype After = AgainLoop | FlushLast | FlushWrap(rest: nat) | ExitLast | ExitWrap(rest: nat)

  /** Where the drain thread is. */
  datatype Drain =
    | Down
    | LoopReadR
    | LoopReadW(r: nat)
    | Writing(r: nat, len: nat, i: nat, next: nat, after: After)
    | Lock
    | TestFlag
    | FlushStart
    | FlushStartW(r: nat)
    | Reset
    | ResetW
    | ResetR
    | Up
    | ClearFlag
    | Unlock
    | TestExit
    | ExitStart
    | ExitStartW(r: nat)
    | Ended

  datatype Owner = Free | Caller | Thread

  /** The branches the source logs as a fatal error. */
  datatype Fault =
    NoSpareByte | WriteOverrun | ReadOverrun | PartBlock | EmptySection | PointersDiffer | FlushIncomplete

  /** `log` is what has reached the stream and `accepted` what the client has been told is
      taken; both are history, no step reads them. */
  datatype State = State(
    cap: nat,
    cache: seq<byte>,
    rd: nat,
    wt: nat,
    startSem: nat,
    flushDone: nat,
    flushFlag: bool,
    exitFlag: bool,
    lock: Owner,
    p: Producer,
    t: Drain,
    log: seq<Request>,
    accepted: seq<Request>,
    faults: set<Fault>)

  function Init(cache: seq<byte>): State {
    State(|cache|, cache, 0, 0, 0, 0, false, false, Free, Idle, Down, [], [], {})
  }

  // ----- arithmetic of the two sides -----

  /** The two free sections when the write pointer is not before the read pointer, one byte kept back. */
  function FreeSections(cap: nat, r: nat, w: nat): (nat, nat)
    requires r <= w <= cap
  {
    if r > 0 then (r - 1, cap - w)
    else if cap - w > 0 then (0, cap - w - 1)
    else (0, 0)
  }

  function FreeSize(cap: nat, r: nat, w: nat): int
    requires w <= cap
  {
    if w >= r then FreeSections(cap, r, w).0 + FreeSections(cap, r, w).1 else r - w - 1
  }

  /** Where byte `i` of a block of `size` goes. */
  function CopySlot(cap: nat, r: nat, w: nat, size: nat, i: nat): nat
    requires w <= cap
  {
    if w >= r && FreeSections(cap, r, w).1 < size && FreeSections(cap, r, w).1 <= i
    then i - FreeSections(cap, r, w).1
    else w + i
  }

  /** The write pointer to publish after the copy. */
  function NextWrite(cap: nat, r: nat, w: nat, size: nat): nat
    requires w <= cap
  {
    if w < r then w + size
    else if FreeSections(cap, r, w).1 >= size then if w + size == cap then 0 else w + size
    else size - FreeSections(cap, r, w).1
  }

  /** Faults the caller's side meets on its way through a write. */
  function WriteFaults(cap: nat, r: nat, w: nat, size: nat): set<Fault>
    requires w <= cap
  {
    if w < r then {}
    else if r == 0 && cap - w == 0 then {NoSpareByte}
    else if FreeSize(cap, r, w) >= size && FreeSections(cap, r, w).1 >= size && w + size > cap then {WriteOverrun}
    else {}
  }

  /** The number of bytes from `r` up to `w` around the ring. */
  function ValidSize(cap: nat, r: nat, w: nat): int {
    if w >= r then w - r else w + cap - r
  }

  /** What the drain loop does with the pointers it read: whole blocks up to the write pointer
      or the end of the buffer, or nothing. */
  function LoopBlock(s: State, r: nat, w: nat): State
    requires r <= s.cap
  {
    if w >= r then
      var n := (w - r) / WRITE_BLOCK_SIZE;
      if n > 0 then s.(t := Writing(r, WRITE_BLOCK_SIZE * n, 0, r + WRITE_BLOCK_SIZE * n, AgainLoop))
      else s.(t := Lock)
    else
      var n := (s.cap - r) / WRITE_BLOCK_SIZE;
      if n > 0 then
        var next := r + WRITE_BLOCK_SIZE * n;
        s.(t := Writing(r, WRITE_BLOCK_SIZE * n, 0, if next == s.cap then 0 else next, AgainLoop),
           faults := if next > s.cap then s.faults + {ReadOverrun} else s.faults)
      else
        s.(t := Writing(r, s.cap - r, 0, 0, AgainLoop), faults := s.faults + {PartBlock})
  }

  /** What a flush or the exit does with the pointers it read: everything, in one or two pieces. */
  function DrainAll(s: State, r: nat, w: nat, last: After, wrap: After, done: Drain): State
    requires r <= s.cap
  {
    if w >= r then
      if w - r > 0 then s.(t := Writing(r, w - r, 0, w, last)) else s.(t := done)
    else if s.cap - r > 0 then s.(t := Writing(r, s.cap - r, 0, 0, wrap))
    else s.(faults := s.faults + {EmptySection}, t := if w > 0 then Writing(r, w, 0, r + w, last) else done)
  }

  /** Publishing the read pointer after a block, and where the thread goes from there. */
  function Published(s: State, next: nat, after: After): State {
    var s := s.(rd := next);
    match after
    case AgainLoop => s.(t := LoopReadR)
    case FlushLast => s.(t := Reset)
    case FlushWrap(rest) => s.(t := if rest > 0 then Writing(next, rest, 0, next + rest, FlushLast) else Reset)
    case ExitLast => s.(t := Ended)
    case ExitWrap(rest) => s.(t := if rest > 0 then Writing(next, rest, 0, next + rest, ExitLast) else Ended)
  }

  /** `cdx_sem_up_unique`: raise the start semaphore from 0 to 1, leave it when it is up already. */
  function UpUnique(n: nat): nat {
    if n == 0 then 1 else n
  }

  // ----- steps -----

  /** One step of the drain thread; a blocked thread stays where it is. */
  function ThreadStep(s: State): (s': State)
    requires s.rd <= s.cap
    requires s.t.LoopReadW? || s.t.FlushStartW? || s.t.ExitStartW? ==> s.t.r <= s.cap
    requires s.t.Writing? && s.t.i < s.t.len ==> s.t.r + s.t.i < |s.cache|
    ensures s'.cap == s.cap && s'.p == s.p && s'.cache == s.cache && s'.accepted == s.accepted
  {
    match s.t
    case Down => if s.startSem > 0 then s.(startSem := s.startSem - 1, t := LoopReadR) else s
    case LoopReadR => s.(t := LoopReadW(s.rd))
    case LoopReadW(r) => LoopBlock(s, r, s.wt)
    case Writing(r, len, i, next, after) =>
      if i < len then s.(log := s.log + [Put(s.cache[r + i])], t := s.t.(i := i + 1))
      else Published(s, next, after)
    case Lock => if s.lock == Free then s.(lock := Thread, t := TestFlag) else s
    case TestFlag => s.(t := if s.flushFlag then FlushStart else Unlock)
    case FlushStart => s.(t := FlushStartW(s.rd))
    case FlushStartW(r) => DrainAll(s, r, s.wt, FlushLast, FlushWrap(s.wt), Reset)
    case Reset => if s.rd == s.wt then s.(t := ResetW) else s.(t := Up, faults := s.faults + {PointersDiffer})
    case ResetW => s.(wt := 0, t := ResetR)
    case ResetR => s.(rd := 0, t := Up)
    case Up => s.(flushDone := s.flushDone + 1, t := ClearFlag)
    case ClearFlag => s.(flushFlag := false, t := Unlock)
    case Unlock => s.(lock := Free, t := TestExit)
    case TestExit => s.(t := if s.exitFlag then ExitStart else Down)
    case ExitStart => s.(t := ExitStartW(s.rd))
    case ExitStartW(r) => DrainAll(s, r, s.wt, ExitLast, ExitWrap(s.wt), Ended)
    case Ended => s
  }

  /** The first step of a client call. */
  function Begin(op: Op): Producer {
    match op
    case OpWrite(buf) => if buf == [] then Idle else WriteReadR(buf)
    case OpFlush => FlushReadR(FlushOnly)
    case OpSeek(offset, whence) => FlushReadR(Touch(Seek(offset, whence)))
    case OpTell => FlushReadR(Touch(Tell))
    case OpTruncate(length) => FlushReadR(Touch(Truncate(length)))
    case OpDestroy => ExitFlag
  }

  /** One step of the caller's thread; `op` is what it calls next when it is between calls. */
  function CallerStep(s: State, op: Op): (s': State)
    requires s.wt <= s.cap
    requires s.p.Copying? ==> s.p.w <= s.cap
    requires s.p.Copying? && s.p.i < |s.p.buf| ==> CopySlot(s.cap, s.p.r, s.p.w, |s.p.buf|, s.p.i) < |s.cache|
    ensures s'.cap == s.cap && s'.t == s.t && s'.rd == s.rd
  {
    match s.p
    case Idle => s.(p := Begin(op))
    case WriteReadR(buf) => s.(p := WriteReadW(buf, s.rd))
    case WriteReadW(buf, r) =>
      s.(p := if FreeSize(s.cap, r, s.wt) >= |buf| then Copying(buf, r, s.wt, 0) else Raising(buf),
         faults := s.faults + WriteFaults(s.cap, r, s.wt, |buf|))
    case Copying(buf, r, w, i) =>
      if i < |buf| then
        s.(cache := s.cache[CopySlot(s.cap, r, w, |buf|, i) := buf[i]], p := s.p.(i := i + 1))
      else
        s.(wt := NextWrite(s.cap, r, w, |buf|),
           accepted := s.accepted + Puts(buf),
           p := AfterWrite(|buf|, Max(0, FreeSize(s.cap, r, w))))
    case AfterWrite(size, free) =>
      var full := s.cap - (free + 1 - size) >= WRITE_BLOCK_SIZE;
      s.(startSem := if full then UpUnique(s.startSem) else s.startSem, p := Idle)
    case Raising(buf) => s.(startSem := UpUnique(s.startSem), p := Waiting(buf))
    case Waiting(buf) => s.(p := WriteReadR(buf))
    case FlushReadR(goal) => s.(p := FlushReadW(goal, s.rd))
    case FlushReadW(goal, r) => s.(p := if r == s.wt then Flushed(goal) else FlushLock(goal))
    case FlushLock(goal) => if s.lock == Free then s.(lock := Caller, p := FlushFlag(goal)) else s
    case FlushFlag(goal) => s.(flushFlag := true, p := FlushRaise(goal))
    case FlushRaise(goal) => s.(startSem := UpUnique(s.startSem), p := FlushUnlock(goal))
    case FlushUnlock(goal) => s.(lock := Free, p := FlushDown(goal))
    case FlushDown(goal) => if s.flushDone > 0 then s.(flushDone := s.flushDone - 1, p := FlushRecheckR(goal)) else s
    case FlushRecheckR(goal) => s.(p := FlushRecheckW(goal, s.rd))
    case FlushRecheckW(goal, r) =>
      s.(p := Flushed(goal), faults := if r != s.wt then s.faults + {FlushIncomplete} else s.faults)
    case Flushed(goal) =>
      match goal {
        case FlushOnly => s.(p := Idle)
        case Touch(request) => s.(log := s.log + [request], accepted := s.accepted + [request], p := Idle)
      }
    case ExitFlag => s.(exitFlag := true, p := ExitRaise)
    case ExitRaise => s.(startSem := UpUnique(s.startSem), p := ExitJoin)
    case ExitJoin => if s.t == Ended then s.(p := Destroyed) else s
    case Destroyed => s
  }

  /** Who moves, and with what next call. */
  datatype Choice = ByCaller(op: Op) | ByThread
}
