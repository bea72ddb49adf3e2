/** The two writers without a thread, and that they are the same file to a client. */
module FsCachedWriters {
  import opened Bytes
  import opened StreamFile
  import opened FsWriter
  import opened FsCacheRing
  import opened FsCacheRuns

  /** Every write goes straight to the stream. */
  class DirectWriter {
    const stream: Stream

    constructor (stream: Stream)
      ensures this.stream == stream
    {
      this.stream := stream;
    }

    method Write(buf: seq<byte>) returns (n: int)
      modifies stream
      ensures (stream.Value(), n) == FileWritten(old(stream.Value()), buf)
      ensures old(stream.Healthy()) ==>
          stream.Healthy() && n == |buf| && stream.file == StreamFile.Write(old(stream.file), buf)
    {
      n := stream.FileWriter(buf);
    }

    method Flush() returns (r: int)
      ensures r == 0
    {
      r := 0;
    }

    method Seek(offset: int, whence: Whence) returns (r: int)
      modifies stream`file
      ensures stream.file == Apply1(old(stream.file), Request.Seek(offset, whence))
      ensures r == Reply(old(stream.file), Request.Seek(offset, whence))
    {
      var _ := Flush();
      r := stream.Seek(offset, whence);
    }

    method Tell() returns (pos: int)
      ensures pos == Reply(stream.file, Request.Tell)
    {
      var _ := Flush();
      pos := stream.Tell();
    }

    method Truncate(length: int) returns (r: int)
      modifies stream`file
      ensures stream.file == Apply1(old(stream.file), Request.Truncate(length))
      ensures r == Reply(old(stream.file), Request.Truncate(length))
    {
      var _ := Flush();
      r := stream.Truncate(length);
    }
  }

  /** Writes are gathered into blocks of the cache's size. */
  class SimpleCacheWriter {
    const stream: Stream
    const cache: array<byte>
    var validLen: nat

    ghost predicate Valid()
      reads this
    {
      validLen < cache.Length
    }

    /** The file the client has written: the stream with the cached bytes added. */
    ghost function Logical(): File
      requires Valid()
      reads this, cache, stream
    {
      StreamFile.Write(stream.file, cache[..validLen])
    }

    constructor (stream: Stream, cacheSize: nat)
      requires 0 < cacheSize
      ensures Valid() && fresh(cache) && cache.Length == cacheSize && this.stream == stream
      ensures Logical() == stream.file
    {
      this.stream := stream;
      cache := new byte[cacheSize](_ => 0);
      validLen := 0;
    }

    /** Copies `d` into the cache at `at`. */
    method CopyIn(at: nat, d: seq<byte>)
      requires at + |d| <= cache.Length
      modifies cache
      ensures cache[..at + |d|] == old(cache[..at]) + d
    {
      forall i | 0 <= i < |d| {
        cache[at + i] := d[i];
      }
    }

    /** Writes the full cache out, with `d` completing it. */
    method Complete(d: seq<byte>)
      requires Valid() && validLen + |d| == cache.Length
      modifies this`validLen, cache, stream
      ensures validLen == 0
      ensures old(stream.Healthy()) ==>
        && stream.Healthy() && stream.file == StreamFile.Write(old(Logical()), d)
        && stream.sizes == old(stream.sizes) + [cache.Length]
    {
      WriteJoin(stream.file, cache[..validLen], d);
      CopyIn(validLen, d);
      assert cache[..] == cache[..cache.Length];
      var _ := stream.FileWriter(cache[..]);
      validLen := 0;
    }

    method Write(buf: seq<byte>) returns (n: int)
      requires Valid()
      modifies this`validLen, cache, stream
      ensures Valid()
      ensures n == if buf == [] then -1 else |buf|
      ensures old(stream.Healthy()) ==>
        && stream.Healthy() && Logical() == StreamFile.Write(old(Logical()), buf)
        && WholeBlocksAdded(old(stream.sizes), stream.sizes, cache.Length)
    {
      if buf == [] {
        return -1;
      }
      if validLen > 0 && validLen + |buf| <= cache.Length {
        KeepAll(buf);
        return |buf|;
      }
      ghost var before, logical := stream.sizes, Logical();
      assert cache[..0] == [] && buf[..0] == [];
      var done := 0;
      if validLen > 0 {
        done := cache.Length - validLen;
        Complete(buf[..done]);
        MultipleOf(1, cache.Length);
      }
      var left := PassBlocks(buf, done, old(stream.Healthy()), logical, before);
      Keep(buf, left, logical);
      return |buf|;
    }

    /** A write that fits beside what is cached; the cache goes out if that fills it. */
    method KeepAll(buf: seq<byte>)
      requires Valid() && validLen + |buf| <= cache.Length
      modifies this`validLen, cache, stream
      ensures Valid()
      ensures old(stream.Healthy()) ==>
        && stream.Healthy() && Logical() == StreamFile.Write(old(Logical()), buf)
        && WholeBlocksAdded(old(stream.sizes), stream.sizes, cache.Length)
    {
      if validLen + |buf| == cache.Length {
        Complete(buf);
        MultipleOf(1, cache.Length);
        assert cache[..0] == [];
      } else {
        WriteJoin(stream.file, cache[..validLen], buf);
        CopyIn(validLen, buf);
        validLen := validLen + |buf|;
      }
    }

    /** The rest of a write into an empty cache: whole blocks go to the stream, `left` bytes are left over. */
    method PassBlocks(buf: seq<byte>, done: nat, ghost healthy: bool, ghost logical: File, ghost before: seq<nat>)
        returns (left: nat)
      requires 0 < cache.Length && done <= |buf|
      requires healthy ==>
        stream.Healthy() && stream.file == StreamFile.Write(logical, buf[..done])
          && WholeBlocksAdded(before, stream.sizes, cache.Length)
      modifies stream
      ensures left < cache.Length && left <= |buf|
      ensures healthy ==>
        && stream.Healthy() && stream.file == StreamFile.Write(logical, buf[..|buf| - left])
        && WholeBlocksAdded(before, stream.sizes, cache.Length)
    {
      left := |buf| - done;
      if left >= cache.Length {
        var n := left / cache.Length * cache.Length;
        BlocksFit(left, cache.Length);
        var d := buf[done..done + n];
        WriteJoin(logical, buf[..done], d);
        assert buf[..done] + d == buf[..done + n];
        var _ := stream.FileWriter(d);
        left := left - n;
      }
    }

    /** The last bytes of a write stay in the cache. */
    method Keep(buf: seq<byte>, left: nat, ghost logical: File)
      requires validLen == 0 && left < cache.Length && left <= |buf|
      modifies this`validLen, cache
      ensures Valid()
      ensures stream.file == StreamFile.Write(logical, buf[..|buf| - left]) ==>
        Logical() == StreamFile.Write(logical, buf)
    {
      var kept := buf[|buf| - left..];
      assert buf[..|buf| - left] + kept == buf;
      WriteJoin(logical, buf[..|buf| - left], kept);
      if left > 0 {
        CopyIn(0, kept);
        validLen := left;
      }
      assert cache[..validLen] == kept;
    }

    method Flush() returns (r: int)
      requires Valid()
      modifies this`validLen, stream
      ensures Valid() && r == 0 && validLen == 0
      ensures old(stream.Healthy()) ==> stream.Healthy() && stream.file == old(Logical()) == Logical()
    {
      if validLen > 0 {
        var _ := stream.FileWriter(cache[..validLen]);
        validLen := 0;
      }
      assert cache[..0] == [];
      r := 0;
    }

    method Seek(offset: int, whence: Whence) returns (r: int)
      requires Valid()
      modifies this`validLen, stream
      ensures Valid()
      ensures old(stream.Healthy()) ==>
        && stream.Healthy() && Logical() == Apply1(old(Logical()), Request.Seek(offset, whence))
        && r == Reply(old(Logical()), Request.Seek(offset, whence))
    {
      var _ := Flush();
      r := stream.Seek(offset, whence);
      assert cache[..0] == [];
    }

    method Tell() returns (pos: int)
      requires Valid()
      modifies this`validLen, stream
      ensures Valid()
      ensures old(stream.Healthy()) ==>
        stream.Healthy() && Logical() == old(Logical()) && pos == Reply(old(Logical()), Request.Tell)
    {
      var _ := Flush();
      pos := stream.Tell();
    }

    method Truncate(length: int) returns (r: int)
      requires Valid()
      modifies this`validLen, stream
      ensures Valid()
      ensures old(stream.Healthy()) ==>
        && stream.Healthy() && Logical() == Apply1(old(Logical()), Request.Truncate(length))
        && r == Reply(old(Logical()), Request.Truncate(length))
    {
      var _ := Flush();
      r := stream.Truncate(length);
      assert cache[..0] == [];
    }

    /** What is left of the cache reaches the stream before the writer goes away. */
    method Destroy()
      requires Valid()
      modifies this`validLen, stream
      ensures Valid() && validLen == 0
      ensures old(stream.Healthy()) ==> stream.Healthy() && stream.file == old(Logical())
    {
      var _ := Flush();
    }
  }

  /** `after` adds to `before` only sizes that are multiples of `block`. */
  ghost predicate WholeBlocksAdded(before: seq<nat>, after: seq<nat>, block: nat)
    requires 0 < block
  {
    && |before| <= |after| && after[..|before|] == before
    && forall i :: |before| <= i < |after| ==> after[i] % block == 0
  }

  lemma BlocksFit(left: nat, block: nat)
    requires 0 < block
    ensures var n := left / block * block; n <= left < n + block && n % block == 0
  {
    MultipleOf(left / block, block);
  }

  lemma MultipleOf(q: nat, block: nat)
    requires 0 < block
    ensures q * block % block == 0
  {
    var n := q * block;
    var p, r := n / block, n % block;
    assert (q - p) * block == r;
    assert q - p >= 1 ==> (q - p) * block >= block;
    assert q - p <= -1 ==> (q - p) * block + block <= 0;
  }

  // ----- any client, over either writer -----

  /** The requests of a script of calls, one after another. */
  function AllRequests(ops: seq<Op>): seq<Request>
    decreases |ops|
  {
    if ops == [] then [] else AllRequests(ops[..|ops| - 1]) + Requests(ops[|ops| - 1])
  }

  function Answer(f: File, op: Op): int {
    match op
    case OpWrite(buf) => |buf|
    case OpSeek(offset, whence) => Reply(f, Seek(offset, whence))
    case OpTell => Reply(f, Tell)
    case OpTruncate(length) => Reply(f, Truncate(length))
    case _ => 0
  }

  /** What each call of a script answers when the requests before it have been applied in full. */
  function Answers(f: File, ops: seq<Op>): seq<int>
    decreases |ops|
  {
    if ops == [] then []
    else
      var n := |ops| - 1;
      Answers(f, ops[..n]) + [Answer(Apply(f, AllRequests(ops[..n])), ops[n])]
  }

  lemma ApplyMore(f: File, ops: seq<Op>, n: nat)
    requires n < |ops|
    ensures Apply(f, AllRequests(ops[..n + 1])) == Apply(Apply(f, AllRequests(ops[..n])), Requests(ops[n]))
    ensures Answers(f, ops[..n + 1]) == Answers(f, ops[..n]) + [Answer(Apply(f, AllRequests(ops[..n])), ops[n])]
  {
    assert ops[..n + 1][..n] == ops[..n];
    ApplyJoin(f, AllRequests(ops[..n]), Requests(ops[n]));
  }

  lemma ApplyOne(f: File, r: Request)
    ensures Apply(f, [r]) == Apply1(f, r)
  {
    assert [r][..0] == [];
  }

  ghost predicate Script(ops: seq<Op>) {
    forall i :: 0 <= i < |ops| ==> !ops[i].OpDestroy? && (ops[i].OpWrite? ==> ops[i].buf != [])
  }

  method CallDirect(w: DirectWriter, op: Op) returns (r: int)
    requires w.stream.Healthy() && !op.OpDestroy?
    modifies w.stream
    ensures w.stream.Healthy() && w.stream.file == Apply(old(w.stream.file), Requests(op))
    ensures r == Answer(old(w.stream.file), op)
  {
    if op.OpWrite? { ApplyPuts(w.stream.file, op.buf); }
    forall q: Request { ApplyOne(w.stream.file, q); }
    match op
    case OpWrite(buf) => r := w.Write(buf);
    case OpFlush => r := w.Flush();
    case OpSeek(offset, whence) => r := w.Seek(offset, whence);
    case OpTell => r := w.Tell();
    case OpTruncate(length) => r := w.Truncate(length);
  }

  method CallSimple(w: SimpleCacheWriter, op: Op) returns (r: int)
    requires w.Valid() && w.stream.Healthy() && !op.OpDestroy? && (op.OpWrite? ==> op.buf != [])
    modifies w, w.cache, w.stream
    ensures w.Valid() && w.stream.Healthy() && w.Logical() == Apply(old(w.Logical()), Requests(op))
    ensures r == Answer(old(w.Logical()), op)
  {
    if op.OpWrite? { ApplyPuts(w.Logical(), op.buf); }
    forall q: Request { ApplyOne(w.Logical(), q); }
    match op
    case OpWrite(buf) => r := w.Write(buf);
    case OpFlush => r := w.Flush();
    case OpSeek(offset, whence) => r := w.Seek(offset, whence);
    case OpTell => r := w.Tell();
    case OpTruncate(length) => r := w.Truncate(length);
  }

  /** Any client run over the direct writer. */
  method RunDirect(w: DirectWriter, ops: seq<Op>) returns (answers: seq<int>)
    requires w.stream.Healthy() && Script(ops)
    modifies w.stream
    ensures w.stream.file == Apply(old(w.stream.file), AllRequests(ops)) && answers == Answers(old(w.stream.file), ops)
  {
    answers := [];
    for n := 0 to |ops|
      invariant w.stream.Healthy()
      invariant w.stream.file == Apply(old(w.stream.file), AllRequests(ops[..n]))
      invariant answers == Answers(old(w.stream.file), ops[..n])
    {
      ApplyMore(old(w.stream.file), ops, n);
      var r := CallDirect(w, ops[n]);
      answers := answers + [r];
    }
    assert ops[..|ops|] == ops;
  }

  /** The same client run over the simple cache, ended by a destroy: the same file and answers. */
  method RunSimple(w: SimpleCacheWriter, ops: seq<Op>) returns (answers: seq<int>)
    requires w.Valid() && w.validLen == 0 && w.stream.Healthy() && Script(ops)
    modifies w, w.cache, w.stream
    ensures w.stream.file == Apply(old(w.stream.file), AllRequests(ops)) && answers == Answers(old(w.stream.file), ops)
  {
    answers := [];
    ghost var f := w.stream.file;
    assert w.cache[..0] == [];
    for n := 0 to |ops|
      invariant w.Valid() && w.stream.Healthy()
      invariant w.Logical() == Apply(f, AllRequests(ops[..n]))
      invariant answers == Answers(f, ops[..n])
    {
      ApplyMore(f, ops, n);
      var r := CallSimple(w, ops[n]);
      answers := answers + [r];
    }
    assert ops[..|ops|] == ops;
    w.Destroy();
  }
}
