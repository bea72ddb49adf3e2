/** `fileWriter`, the only path from a writer to its stream, and the error accounting in it. */
module FsWriter {
  import opened Bytes
  import opened StreamFile

  const EIO := 5
  const ERRORS_TOLERATED := 10

  /** How the stream's own write will end: in full, short with an errno, or refused with -1, which a
      stream may say after it has stored some bytes. */
  datatype Outcome = Full | Short(written: nat, errno: int) | Refused(written: nat, errno: int)

  /** A stream as `fileWriter` sees it. `plan` says how the next writes end, in full once it is
      used up; `sizes` records the size of every write attempted. */
  datatype Sink = Sink(file: File, writeError: int, writeErrcnt: nat, callbacks: nat, plan: seq<Outcome>,
    sizes: seq<nat>)

  function NextOutcome(k: Sink): Outcome {
    if k.plan == [] then Full else k.plan[0]
  }

  function RestOfPlan(k: Sink): seq<Outcome> {
    if k.plan == [] then [] else k.plan[1..]
  }

  /** How much of `size` bytes a write with this outcome stores. */
  function Stored(o: Outcome, size: nat): (n: nat)
    ensures n <= size
  {
    if o.Full? || o.written >= size then size else o.written
  }

  /** What the write returns. */
  function Returned(o: Outcome, size: nat): int {
    if o.Refused? then -1 else Stored(o, size)
  }

  /** The stream and the return value after `fileWriter(buf)`. */
  function FileWritten(k: Sink, buf: seq<byte>): (Sink, int) {
    if k.writeError == EIO then (k, -EIO)
    else
      var o := NextOutcome(k);
      var n := Returned(o, |buf|);
      var k' := k.(file := Write(k.file, buf[..Stored(o, |buf|)]), plan := RestOfPlan(k), sizes := k.sizes + [|buf|]);
      if n != |buf| then
        var notify := k.writeErrcnt > ERRORS_TOLERATED || o.errno == EIO;
        (k'.(writeError := o.errno, writeErrcnt := k.writeErrcnt + 1,
             callbacks := if notify then k.callbacks + 1 else k.callbacks), n)
      else (k'.(writeErrcnt := 0), n)
  }

  /** Nothing has failed for good and nothing is going to fail. */
  predicate NothingFails(k: Sink) {
    k.plan == [] && k.writeError != EIO
  }

  class Stream {
    var file: File
    var writeError: int
    var writeErrcnt: nat
    var callbacks: nat
    var plan: seq<Outcome>
    var sizes: seq<nat>

    constructor (file: File, plan: seq<Outcome>)
      ensures Value() == Sink(file, 0, 0, 0, plan, [])
    {
      this.file, this.plan := file, plan;
      writeError, writeErrcnt, callbacks, sizes := 0, 0, 0, [];
    }

    function Value(): Sink
      reads this
    {
      Sink(file, writeError, writeErrcnt, callbacks, plan, sizes)
    }

    predicate Healthy()
      reads this
    {
      NothingFails(Value())
    }

    method FileWriter(buf: seq<byte>) returns (n: int)
      modifies this
      ensures (Value(), n) == FileWritten(old(Value()), buf)
      ensures old(Healthy()) ==>
        Healthy() && file == Write(old(file), buf) && n == |buf| && sizes == old(sizes) + [|buf|]
    {
      if writeError == EIO {
        return -EIO;
      }
      var o := NextOutcome(Value());
      n := Returned(o, |buf|);
      assert buf[..|buf|] == buf;
      file := Write(file, buf[..Stored(o, |buf|)]);
      plan := RestOfPlan(Value());
      sizes := sizes + [|buf|];
      if n != |buf| {
        writeError := o.errno;
        var errors := writeErrcnt;
        writeErrcnt := writeErrcnt + 1;
        if errors > ERRORS_TOLERATED || writeError == EIO {
          callbacks := callbacks + 1;
        }
      } else if writeErrcnt != 0 {
        writeErrcnt := 0;
      }
    }

    method Seek(offset: int, whence: Whence) returns (r: int)
      modifies this`file
      ensures file == Apply1(old(file), Request.Seek(offset, whence))
      ensures r == Reply(old(file), Request.Seek(offset, whence))
    {
      r := Reply(file, Request.Seek(offset, whence));
      file := Apply1(file, Request.Seek(offset, whence));
    }

    method Tell() returns (pos: int)
      ensures pos == Reply(file, Request.Tell)
    {
      pos := file.pos;
    }

    method Truncate(length: int) returns (r: int)
      modifies this`file
      ensures file == Apply1(old(file), Request.Truncate(length))
      ensures r == Reply(old(file), Request.Truncate(length))
    {
      r := Reply(file, Request.Truncate(length));
      file := Apply1(file, Request.Truncate(length));
    }
  }

  // ----- the error accounting over runs of writes -----

  /** The stream after the first `n` writes of a run. */
  function AllWritten(k: Sink, bufs: seq<seq<byte>>, n: nat): Sink
    requires n <= |bufs|
  {
    if n == 0 then k else FileWritten(AllWritten(k, bufs, n - 1), bufs[n - 1]).0
  }

  /** An I/O error is for good: whatever is written after one, the stream is not touched again,
      nor is the recorder told again. */
  lemma {:induction false} EioLatches(k: Sink, bufs: seq<seq<byte>>, n: nat)
    requires k.writeError == 5 && n <= |bufs|
    ensures AllWritten(k, bufs, n) == k
  {
    if n > 0 {
      EioLatches(k, bufs, n - 1);
    }
  }

  /** The writes all come up short or are refused, none with an I/O error. */
  ghost predicate FailsFor(k: Sink, bufs: seq<seq<byte>>) {
    && |bufs| <= |k.plan|
    && forall i :: 0 <= i < |bufs| ==> Returned(k.plan[i], |bufs[i]|) != |bufs[i]| && k.plan[i].errno != EIO
  }

  /** Failures in a row are forgiven up to eleven; each one after that is reported once. */
  lemma {:induction false} FailuresReported(k: Sink, bufs: seq<seq<byte>>, n: nat)
    requires FailsFor(k, bufs) && k.writeError != EIO && k.writeErrcnt == 0 && n <= |bufs|
    ensures var k' := AllWritten(k, bufs, n);
      && k'.writeErrcnt == n && k'.writeError != EIO
      && k'.callbacks == k.callbacks + Max(0, n - 11)
      && k'.plan == k.plan[n..]
  {
    if n > 0 {
      FailuresReported(k, bufs, n - 1);
    }
  }

  // ----- any run, told by what each of its writes was going to be -----

  /** Write `i` of the run comes up short or is refused. */
  predicate Fails(plan: seq<Outcome>, bufs: seq<seq<byte>>, i: nat)
    requires i < |bufs|
  {
    i < |plan| && Returned(plan[i], |bufs[i]|) != |bufs[i]|
  }

  predicate IoError(plan: seq<Outcome>, bufs: seq<seq<byte>>, i: nat)
    requires i < |bufs|
  {
    Fails(plan, bufs, i) && plan[i].errno == 5
  }

  /** The number of failures in a row just before write `i`. */
  function InARow(plan: seq<Outcome>, bufs: seq<seq<byte>>, i: nat): nat
    requires i <= |bufs|
  {
    if i == 0 || !Fails(plan, bufs, i - 1) then 0 else InARow(plan, bufs, i - 1) + 1
  }

  /** How many of the first `n` writes are reported: failures with more than ten before them in a row,
      and I/O errors. */
  function Reports(plan: seq<Outcome>, bufs: seq<seq<byte>>, n: nat): nat
    requires n <= |bufs|
  {
    if n == 0 then 0
    else
      var i := n - 1;
      Reports(plan, bufs, i)
      + if Fails(plan, bufs, i) && (InARow(plan, bufs, i) > 10 || IoError(plan, bufs, i)) then 1 else 0
  }

  /** What the first `n` writes put in the file. */
  function Put(plan: seq<Outcome>, bufs: seq<seq<byte>>, n: nat): seq<byte>
    requires n <= |bufs|
  {
    if n == 0 then []
    else
      var b := bufs[n - 1];
      Put(plan, bufs, n - 1) + if n - 1 < |plan| then b[..Stored(plan[n - 1], |b|)] else b
  }

  /** The stream after the first `n` writes of a run that starts with no failures behind it. */
  ghost predicate Reached(k: Sink, bufs: seq<seq<byte>>, n: nat, k': Sink)
    requires n <= |bufs|
  {
    && k'.file == Write(k.file, Put(k.plan, bufs, n)) && |k'.sizes| == |k.sizes| + n
    && k'.writeErrcnt == InARow(k.plan, bufs, n) && k'.callbacks == k.callbacks + Reports(k.plan, bufs, n)
    && k'.plan == (if n <= |k.plan| then k.plan[n..] else [])
    && (k'.writeError == 5 <==> n > 0 && IoError(k.plan, bufs, n - 1))
  }

  lemma WriteReaches(k: Sink, bufs: seq<seq<byte>>, i: nat, k': Sink)
    requires i < |bufs| && Reached(k, bufs, i, k') && k'.writeError != 5
    ensures var (k'', r) := FileWritten(k', bufs[i]);
      Reached(k, bufs, i + 1, k'') && r == if i < |k.plan| then Returned(k.plan[i], |bufs[i]|) else |bufs[i]|
  {
    var o := NextOutcome(k');
    assert i < |k.plan| ==> o == k.plan[i];
    assert bufs[i][..|bufs[i]|] == bufs[i];
    WriteJoin(k.file, Put(k.plan, bufs, i), bufs[i][..Stored(o, |bufs[i]|)]);
  }

  /** Up to and including its first I/O error a run puts in the file what each write stores, in order,
      counts the failures since the last full write, and reports as `Reports` says; the I/O error, and
      nothing else, leaves the stream refusing. */
  lemma {:induction false} RunReaches(k: Sink, bufs: seq<seq<byte>>, n: nat)
    requires k.writeError != 5 && k.writeErrcnt == 0 && n <= |bufs|
    requires forall i :: 0 <= i < n - 1 ==> !IoError(k.plan, bufs, i)
    ensures Reached(k, bufs, n, AllWritten(k, bufs, n))
  {
    if n == 0 {
      assert k.plan[0..] == k.plan;
    } else {
      RunReaches(k, bufs, n - 1);
      assert n > 1 ==> !IoError(k.plan, bufs, n - 2);
      WriteReaches(k, bufs, n - 1, AllWritten(k, bufs, n - 1));
    }
  }

  lemma {:induction false} LatchedStays(k: Sink, bufs: seq<seq<byte>>, i: nat, n: nat)
    requires i <= n <= |bufs| && AllWritten(k, bufs, i).writeError == 5
    ensures AllWritten(k, bufs, n) == AllWritten(k, bufs, i)
    decreases n
  {
    if n > i {
      LatchedStays(k, bufs, i, n - 1);
    }
  }

  /** And after its first I/O error every write is refused with -EIO and changes nothing. */
  lemma ErrorEndsRun(k: Sink, bufs: seq<seq<byte>>, i: nat, n: nat, more: seq<byte>)
    requires k.writeError != 5 && k.writeErrcnt == 0 && i < n <= |bufs| && IoError(k.plan, bufs, i)
    requires forall j :: 0 <= j < i ==> !IoError(k.plan, bufs, j)
    ensures Reached(k, bufs, i + 1, AllWritten(k, bufs, n))
    ensures FileWritten(AllWritten(k, bufs, n), more) == (AllWritten(k, bufs, n), -5)
  {
    RunReaches(k, bufs, i + 1);
    LatchedStays(k, bufs, i + 1, n);
  }
}
