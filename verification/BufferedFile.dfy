/** The descriptor stream without direct I/O: one write call, retried until the data is stored or
    an error is final. */
module BufferedFile {
  import opened Bytes
  import opened StreamFile

  const EINTR := 4
  const EAGAIN := 11

  /** What one `write` of the operating system returns: a count, or no bytes and an errno. */
  datatype Outcome = Wrote(n: nat) | NoBytes(errno: int)

  predicate Retries(errno: int) {
    errno == EAGAIN || errno == EINTR
  }

  /** How many of `left` bytes end up stored when the writes end as planned, and in full after that. */
  function Stored(plan: seq<Outcome>, left: nat): (n: nat)
    ensures n <= left
    decreases |plan|
  {
    if left == 0 then 0
    else if plan == [] then left
    else match plan[0]
      case Wrote(n) =>
        if n >= left then left
        else if n > 0 then n + Stored(plan[1..], left - n)
        else 0
      case NoBytes(errno) => if Retries(errno) then Stored(plan[1..], left) else 0
  }

  /** An unsigned 64-bit offset stored in an `int`. */
  function AsInt32(n: nat): int {
    var m := n % 0x1_0000_0000;
    if m < 0x8000_0000 then m else m - 0x1_0000_0000
  }

  /** The offsets the first seek's result, kept in an `int`, is mistaken for a failure at. */
  predicate LooksFailed(n: nat) {
    n % 0x1_0000_0000 == 0xFFFF_FFFF
  }

  /** The descriptor a stream writes to; `plan` says how its next writes end. A count of zero comes
      with whatever errno holds, so it is planned as `NoBytes`. */
  class FdStream {
    var file: File
    var offset: nat
    var curOffset: nat
    var plan: seq<Outcome>

    constructor (file: File, offset: nat, plan: seq<Outcome>)
      ensures this.file == file && this.offset == offset == curOffset && this.plan == plan
    {
      this.file, this.offset, curOffset, this.plan := file, offset, offset, plan;
    }

    /** The operating system's write. */
    method OsWrite(d: seq<byte>) returns (n: int, errno: int)
      requires d != []
      modifies this`file, this`plan
      ensures 0 <= n <= |d| && |plan| <= |old(plan)| && (n < |d| ==> |plan| < |old(plan)|)
      ensures Stored(old(plan), |d|) == n + if n < |d| && (n > 0 || Retries(errno)) then Stored(plan, |d| - n) else 0
      ensures file == StreamFile.Write(old(file), d[..n])
    {
      var o := if plan == [] then Wrote(|d|) else plan[0];
      plan := if plan == [] then [] else plan[1..];
      match o {
        case Wrote(m) => n, errno := if m < |d| then m else |d|, 0;
        case NoBytes(e) => n, errno := 0, e;
      }
      file := StreamFile.Write(file, d[..n]);
    }

    /** `cdx_write_fd_file(ptr, size, nmemb)`; what is stored is a prefix of the data, contiguous
        from the old position, and the position moves by its length. */
    method Write(data: seq<byte>, size: nat) returns (r: int)
      requires 0 < size && offset <= curOffset
      modifies this
      ensures offset == old(offset) <= curOffset
      ensures LooksFailed(old(curOffset)) ==>
          r == -1 && file == File(old(file.content), old(curOffset)) && curOffset == old(curOffset)
      ensures !LooksFailed(old(curOffset)) ==>
        var n := Stored(old(plan), |data|);
        && file == StreamFile.Write(File(old(file.content), old(curOffset)), data[..n])
        && curOffset == old(curOffset) + n == file.pos
        && r == n / size
    {
      file := file.(pos := curOffset);
      if AsInt32(curOffset) == -1 {
        return -1;
      }
      var left := StoreAll(data);
      curOffset := Max(file.pos, offset);
      r := (|data| - left) / size;
    }

    /** One attempt at the bytes after the first `done`. */
    method StoreSome(data: seq<byte>, done: nat, ghost start: File) returns (n: nat, errno: int)
      requires done < |data| && file == StreamFile.Write(start, data[..done])
      modifies this`file, this`plan
      ensures n <= |data| - done && |plan| <= |old(plan)| && (n < |data| - done ==> |plan| < |old(plan)|)
      ensures Stored(old(plan), |data| - done) ==
        n + if n < |data| - done && (n > 0 || Retries(errno)) then Stored(plan, |data| - done - n) else 0
      ensures file == StreamFile.Write(start, data[..done + n]) && file.pos == old(file.pos) + n
    {
      n, errno := OsWrite(data[done..]);
      PrefixGrows(start, data, done, n);
    }

    /** The retry loop; `left` bytes could not be stored. */
    method StoreAll(data: seq<byte>) returns (left: nat)
      modifies this`file, this`plan
      ensures left == |data| - Stored(old(plan), |data|)
      ensures file == StreamFile.Write(old(file), data[..|data| - left]) && file.pos == old(file.pos) + |data| - left
    {
      left := |data|;
      assert data[..0] == [];
      while left > 0
        invariant left <= |data|
        invariant |data| - left + Stored(plan, left) == Stored(old(plan), |data|)
        invariant file == StreamFile.Write(old(file), data[..|data| - left])
          && file.pos == old(file.pos) + |data| - left
        decreases |plan|, left
      {
        var n, errno := StoreSome(data, |data| - left, old(file));
        if n != left {
          if n > 0 {
            left := left - n;
          } else if !Retries(errno) {
            break;
          }
        } else {
          left := left - n;
        }
      }
    }
  }

  lemma PrefixGrows(f: File, data: seq<byte>, done: nat, n: nat)
    requires done + n <= |data|
    ensures Write(Write(f, data[..done]), data[done..][..n]) == Write(f, data[..done + n])
  {
    WriteJoin(f, data[..done], data[done..][..n]);
    assert data[..done] + data[done..][..n] == data[..done + n];
  }

  /** The plan holds no final error: every failure in it is an interruption or would block. */
  predicate OnlyRetries(plan: seq<Outcome>) {
    forall i :: 0 <= i < |plan| ==> match plan[i] case Wrote(n) => n > 0 case NoBytes(errno) => errno in {4, 11}
  }

  /** Interrupted and short writes lose nothing, however many there are. */
  lemma {:induction false} RetriesStoreAll(plan: seq<Outcome>, left: nat)
    requires OnlyRetries(plan)
    ensures Stored(plan, left) == left
    decreases |plan|
  {
    if left > 0 && plan != [] {
      match plan[0] {
        case Wrote(n) => if n < left { RetriesStoreAll(plan[1..], left - n); }
        case NoBytes(_) => RetriesStoreAll(plan[1..], left);
      }
    }
  }

  /** Any other error is final, and leaves exactly the bytes the writes before it stored. */
  lemma {:induction false} FinalErrorStops(before: seq<Outcome>, errno: int, after: seq<Outcome>, left: nat)
    requires OnlyRetries(before) && errno !in {4, 11}
    ensures Stored(before + [NoBytes(errno)] + after, left) == if Total(before) < left then Total(before) else left
    decreases |before|
  {
    var plan := before + [NoBytes(errno)] + after;
    if left > 0 && before != [] {
      assert plan[1..] == before[1..] + [NoBytes(errno)] + after;
      match before[0] {
        case Wrote(n) => if n < left { FinalErrorStops(before[1..], errno, after, left - n); }
        case NoBytes(_) => FinalErrorStops(before[1..], errno, after, left);
      }
    }
  }

  function Total(plan: seq<Outcome>): nat {
    if plan == [] then 0
    else (match plan[0] case Wrote(n) => n case NoBytes(_) => 0) + Total(plan[1..])
  }

  /** The test that the first seek failed is right at every offset a file under 4 GiB less one byte
      can have, and wrong at exactly one offset in each 4 GiB: a seek never does return -1 here. */
  lemma FalseFailureIff(n: nat)
    ensures AsInt32(n) == -1 <==> LooksFailed(n)
  {
  }

  /** A stream whose position is one byte short of 4 GiB refuses to write that byte. */
  method RefusedByte(b: byte) returns (r: int, s: FdStream)
    ensures r == -1 && fresh(s) && s.file == File([], 0xFFFF_FFFF) && s.curOffset == 0xFFFF_FFFF
  {
    FalseFailureIff(0xFFFF_FFFF);
    s := new FdStream(File([], 0), 0xFFFF_FFFF, []);
    r := s.Write([b], 1);
  }
}
