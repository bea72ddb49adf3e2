/** RIFF elements as bytes: how they are built, and what it means for bytes to be nothing but
    properly nested elements, said by reading them. */
module Riff {
  import opened Bytes

  type FourCC = s: seq<byte> | |s| == 4 witness [0, 0, 0, 0]

  const RIFF: FourCC := [0x52, 0x49, 0x46, 0x46]
  const LIST: FourCC := [0x4C, 0x49, 0x53, 0x54]
  const AVI: FourCC := [0x41, 0x56, 0x49, 0x20]
  const AVIX: FourCC := [0x41, 0x56, 0x49, 0x58]
  const HDRL: FourCC := [0x68, 0x64, 0x72, 0x6C]
  const AVIH: FourCC := [0x61, 0x76, 0x69, 0x68]
  const STRL: FourCC := [0x73, 0x74, 0x72, 0x6C]
  const STRH: FourCC := [0x73, 0x74, 0x72, 0x68]
  const STRF: FourCC := [0x73, 0x74, 0x72, 0x66]
  const ODML: FourCC := [0x6F, 0x64, 0x6D, 0x6C]
  const DMLH: FourCC := [0x64, 0x6D, 0x6C, 0x68]
  const MOVI: FourCC := [0x6D, 0x6F, 0x76, 0x69]
  const IDX1: FourCC := [0x69, 0x64, 0x78, 0x31]
  const INDX: FourCC := [0x69, 0x6E, 0x64, 0x78]
  const IX00: FourCC := [0x69, 0x78, 0x30, 0x30]
  const FRAME: FourCC := [0x30, 0x30, 0x64, 0x63]

  /** The tag `t` is at `p`. */
  predicate TagAt(s: seq<byte>, p: nat, t: string)
    requires |t| == 4
  {
    p + 4 <= |s| && forall i :: 0 <= i < 4 ==> s[p + i] as int == t[i] as int
  }

  /** A leaf element. */
  function Chunk(id: FourCC, data: seq<byte>): (c: seq<byte>)
    ensures |c| == 8 + |data|
  {
    id + LE32(|data|) + data
  }

  /** An element that holds elements, after a form type. */
  function List(id: FourCC, form: FourCC, body: seq<byte>): (c: seq<byte>)
    ensures |c| == 12 + |body|
  {
    id + LE32(4 + |body|) + form + body
  }

  /** The same with its size still to be filled in. */
  function OpenList(id: FourCC, form: FourCC, body: seq<byte>): (c: seq<byte>)
    ensures |c| == 12 + |body|
  {
    id + LE32(0) + form + body
  }

  predicate Holder(id: FourCC) {
    id == RIFF || id == LIST
  }

  /** `s` is a sequence of whole elements, each as long as its own size field says, and the body of
      each RIFF or LIST, after its form type, is one again. */
  ghost predicate Elements(s: seq<byte>)
    decreases |s|
  {
    s == [] ||
    (|s| >= 8 &&
     var n := Read32(s[4..8]);
     8 + n <= |s| && (Holder(s[..4]) ==> n >= 4 && Elements(s[12..8 + n])) && Elements(s[8 + n..]))
  }

  lemma ElementsOne(s: seq<byte>, n: nat)
    requires |s| >= 8 && Read32(s[4..8]) == n && 8 + n == |s|
    requires Holder(s[..4]) ==> n >= 4 && Elements(s[12..])
    ensures Elements(s)
  {
    assert n >= 4 ==> s[12..8 + n] == s[12..];
    assert s[8 + n..] == [];
  }

  /** The size field of an element, read back. */
  lemma SizeField(c: seq<byte>, n: nat)
    requires |c| >= 8 && c[4..8] == LE32(n) && n < WORD
    ensures Read32(c[4..8]) == n
  {
    Read32LE32(n);
  }

  lemma ChunkParts(id: FourCC, data: seq<byte>)
    ensures var c := Chunk(id, data);
      c[..4] == id && c[4..8] == LE32(|data|) && c[8..] == data
  {
  }

  lemma ChunkElements(id: FourCC, data: seq<byte>)
    requires !Holder(id) && |data| < WORD
    ensures Elements(Chunk(id, data))
  {
    var c := Chunk(id, data);
    ChunkParts(id, data);
    SizeField(c, |data|);
    ElementsOne(c, |data|);
  }

  lemma ListParts(id: FourCC, form: FourCC, body: seq<byte>)
    ensures var c := List(id, form, body);
      c[..4] == id && c[4..8] == LE32(4 + |body|) && c[8..12] == form && c[12..] == body
  {
  }

  lemma ListElements(id: FourCC, form: FourCC, body: seq<byte>)
    requires Elements(body) && 4 + |body| < WORD
    ensures Elements(List(id, form, body))
  {
    var c := List(id, form, body);
    ListParts(id, form, body);
    ListFrom(c, body);
  }

  lemma ListFrom(c: seq<byte>, body: seq<byte>)
    requires |c| == 12 + |body| && c[4..8] == LE32(4 + |body|) && 4 + |body| < WORD && c[12..] == body && Elements(body)
    ensures Elements(c)
  {
    SizeField(c, 4 + |body|);
    ListOne(c, body);
  }

  lemma ListOne(c: seq<byte>, body: seq<byte>)
    requires |c| == 12 + |body| && Read32(c[4..8]) == 4 + |body| && c[12..] == body && Elements(body)
    ensures Elements(c)
  {
    ElementsOne(c, 4 + |body|);
  }

  lemma SliceOfSlice(s: seq<byte>, p: nat, q: nat, i: nat, j: nat)
    requires p <= q <= |s| && i <= j <= q - p
    ensures s[p..q][i..j] == s[p + i..p + j]
  {
    forall k | 0 <= k < j - i ensures s[p..q][i..j][k] == s[p + i..p + j][k] {
      assert s[p..q][i + k] == s[p + i + k];
    }
  }

  lemma SliceLeft(a: seq<byte>, b: seq<byte>, i: nat, j: nat)
    requires i <= j <= |a|
    ensures (a + b)[i..j] == a[i..j]
  {
    forall k | 0 <= k < j - i ensures (a + b)[i..j][k] == a[i..j][k] {
    }
  }

  lemma DropLeft(a: seq<byte>, b: seq<byte>, i: nat)
    requires i <= |a|
    ensures (a + b)[i..] == a[i..] + b
  {
    forall k | 0 <= k < |a| + |b| - i ensures (a + b)[i..][k] == (a[i..] + b)[k] {
    }
  }

  /** The first element of a sequence and the rest of it, by name. */
  lemma ElementsCons(s: seq<byte>, id: seq<byte>, n: nat, body: seq<byte>, rest: seq<byte>)
    requires |s| >= 8 && Read32(s[4..8]) == n && 8 + n <= |s| && s[..4] == id && s[8 + n..] == rest && Elements(rest)
    requires Holder(id) ==> n >= 4 && s[12..8 + n] == body && Elements(body)
    ensures Elements(s)
  {
  }

  lemma {:induction false} ElementsJoin(a: seq<byte>, b: seq<byte>)
    requires Elements(a) && Elements(b)
    ensures Elements(a + b)
    decreases |a|
  {
    if a == [] {
      assert a + b == b;
    } else {
      var n := Read32(a[4..8]);
      var rest := a[8 + n..];
      SliceLeft(a, b, 0, 4);
      SliceLeft(a, b, 4, 8);
      if n >= 4 { SliceLeft(a, b, 12, 8 + n); }
      DropLeft(a, b, 8 + n);
      ElementsJoin(rest, b);
      ElementsCons(a + b, a[..4], n, if n >= 4 then a[12..8 + n] else [], rest + b);
    }
  }

  /** Filling a size field in, wherever the element lies in the file. */
  lemma FillSize(pre: seq<byte>, id: FourCC, form: FourCC, body: seq<byte>, post: seq<byte>)
    ensures Overwrite(pre + OpenList(id, form, body) + post, |pre| + 4, LE32(4 + |body|))
      == pre + List(id, form, body) + post
  {
    var l := Overwrite(pre + OpenList(id, form, body) + post, |pre| + 4, LE32(4 + |body|));
    var r := pre + List(id, form, body) + post;
    assert |l| == |r|;
    forall i | 0 <= i < |l| ensures l[i] == r[i] {
      if |pre| <= i < |pre| + 12 {
        var k := i - |pre|;
        assert OpenList(id, form, body)[k] == if k < 4 then id[k] else if k < 8 then LE32(0)[k - 4] else form[k - 8];
      }
    }
  }

  /** Replacing one part of a file by another as long. */
  lemma Replace(pre: seq<byte>, x: seq<byte>, y: seq<byte>, post: seq<byte>)
    requires |x| == |y|
    ensures Overwrite(pre + x + post, |pre|, y) == pre + y + post
  {
  }
}
