/** The stream under an FsWriter, as a value: a growing byte sequence with a position,
    and the requests that can be made of it. */
module StreamFile {
  import opened Bytes

  datatype File = File(content: seq<byte>, pos: nat)

  datatype Whence = Set | Cur | End

  /** What reaches a stream. A write of a block counts as one request a byte, so that two
      request sequences are equal exactly when they differ in nothing but block boundaries. */
  datatype Request =
    | Put(b: byte)
    | Seek(offset: int, whence: Whence)
    | Tell
    | Truncate(length: int)

  function Write(f: File, d: seq<byte>): File {
    if d == [] then f
    else File(Overwrite(Grow(f.content, f.pos, 0), f.pos, d), f.pos + |d|)
  }

  function SeekTarget(f: File, offset: int, whence: Whence): int {
    match whence
    case Set => offset
    case Cur => f.pos + offset
    case End => |f.content| + offset
  }

  /** The file after one request; a seek or truncate to a negative place fails and changes nothing. */
  function Apply1(f: File, r: Request): File {
    match r
    case Put(b) => Write(f, [b])
    case Seek(offset, whence) =>
      var target := SeekTarget(f, offset, whence);
      if target < 0 then f else f.(pos := target)
    case Tell => f
    case Truncate(length) =>
      if length < 0 then f
      else if length <= |f.content| then f.(content := f.content[..length])
      else f.(content := Grow(f.content, length, 0))
  }

  /** What the caller of a seek, tell or truncate gets back. */
  function Reply(f: File, r: Request): int {
    match r
    case Put(_) => 0
    case Seek(offset, whence) => if SeekTarget(f, offset, whence) < 0 then -1 else 0
    case Tell => f.pos
    case Truncate(length) => if length < 0 then -1 else 0
  }

  function Apply(f: File, rs: seq<Request>): File {
    if rs == [] then f
    else Apply1(Apply(f, rs[..|rs| - 1]), rs[|rs| - 1])
  }

  function Puts(d: seq<byte>): (rs: seq<Request>)
    ensures |rs| == |d| && forall i :: 0 <= i < |d| ==> rs[i] == Put(d[i])
  {
    seq(|d|, i requires 0 <= i < |d| => Put(d[i]))
  }

  lemma {:induction false} ApplyJoin(f: File, a: seq<Request>, b: seq<Request>)
    ensures Apply(f, a + b) == Apply(Apply(f, a), b)
    decreases |b|
  {
    if b == [] {
      assert a + b == a;
    } else {
      var k := |b| - 1;
      assert (a + b)[..|a + b| - 1] == a + b[..k];
      ApplyJoin(f, a, b[..k]);
    }
  }

  lemma WriteJoin(f: File, a: seq<byte>, b: seq<byte>)
    ensures Write(Write(f, a), b) == Write(f, a + b)
  {
    if a == [] {
      assert a + b == b;
    } else if b == [] {
      assert a + b == a;
    } else {
      OverwriteJoin(Grow(f.content, f.pos, 0), f.pos, a, b);
      var g := Write(f, a);
      assert Grow(g.content, g.pos, 0) == g.content;
    }
  }

  /** However a block is cut up, and down to single bytes, the stream ends the same. */
  lemma {:induction false} ApplyPuts(f: File, d: seq<byte>)
    ensures Apply(f, Puts(d)) == Write(f, d)
    decreases |d|
  {
    if d != [] {
      var k := |d| - 1;
      assert Puts(d)[..k] == Puts(d[..k]);
      ApplyPuts(f, d[..k]);
      WriteJoin(f, d[..k], [d[k]]);
      assert d[..k] + [d[k]] == d;
    }
  }
}
