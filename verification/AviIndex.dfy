/** The OpenDML indexes a writer keeps while frames are added: for each stream a list of standard
    indexes, each with a base offset, and one current base offset shared by all streams. */
module AviIndex {
  import opened Bytes

  const STD_INDEX_SIZE := 0x4000
  const STD_HEAD := 32
  const STD_ENTRY := 8
  const SUPER_HEAD := 32
  const SUPER_ENTRY := 16

  /** The entries a standard index gets before the next one is begun, and the entries `open`
      reckons with when it reserves room: one more. */
  const PER_INDEX := 2043
  const PER_INDEX_RESERVED := (STD_INDEX_SIZE - STD_HEAD) / STD_ENTRY
  const DEFAULT_INDEXES := 128

  datatype StdEntry = StdEntry(offset: nat, size: nat)

  datatype StdIndex = StdIndex(base: nat, entries: seq<StdEntry>)

  datatype Indexes = Indexes(streams: seq<seq<StdIndex>>, currBase: nat)

  /** A frame written: its stream, where its chunk starts and the length of its data. */
  datatype Frame = Frame(stream: nat, pos: nat, len: nat)

  /** Whether the index has no room for an entry more, as the writer tests it. */
  predicate Full(i: StdIndex) {
    (|i.entries| + 1) * STD_ENTRY + STD_HEAD >= STD_INDEX_SIZE
  }

  function Initial(n: nat): Indexes {
    Indexes(seq(n, i => [StdIndex(0, [])]), 0)
  }

  /** As a new writer has them: no stream has an index yet. */
  function Unbegun(n: nat): Indexes {
    Indexes(seq(n, i => []), 0)
  }

  /** `open` begins an index for each stream; what earlier recordings left stays before it. */
  function Begun(x: Indexes): Indexes {
    Indexes(seq(|x.streams|, i requires 0 <= i < |x.streams| => x.streams[i] + [StdIndex(0, [])]), 0)
  }

  lemma BegunFirst(n: nat)
    ensures Begun(Unbegun(n)) == Initial(n)
  {
    assert [] + [StdIndex(0, [])] == [StdIndex(0, [])];
    assert Begun(Unbegun(n)).streams == Initial(n).streams;
  }

  predicate Wf(x: Indexes) {
    forall s :: 0 <= s < |x.streams| ==> x.streams[s] != []
  }

  function Last<T>(s: seq<T>): T
    requires s != []
  {
    s[|s| - 1]
  }

  /** An unsigned subtraction kept in 32 bits. */
  function Offset32(pos: nat, base: nat): nat {
    (pos + 8 - base) % WORD
  }

  /** The indexes after a frame: a new standard index first when the last one is full. */
  function AddEntry(x: Indexes, f: Frame): (x': Indexes)
    requires Wf(x) && f.stream < |x.streams|
    ensures Wf(x') && |x'.streams| == |x.streams|
  {
    var own := x.streams[f.stream];
    var rolls := Full(Last(own));
    var own' := if rolls then own + [StdIndex(f.pos, [])] else own;
    var base := if rolls then f.pos else x.currBase;
    var last := Last(own');
    var entry := StdEntry(Offset32(f.pos, base), f.len);
    Indexes(x.streams[f.stream := own'[|own'| - 1 := StdIndex(last.base, last.entries + [entry])]], base)
  }

  function Build(n: nat, frames: seq<Frame>): (x: Indexes)
    requires forall i :: 0 <= i < |frames| ==> frames[i].stream < n
    ensures Wf(x) && |x.streams| == n
    decreases |frames|
  {
    if frames == [] then Initial(n)
    else AddEntry(Build(n, frames[..|frames| - 1]), frames[|frames| - 1])
  }

  function OfStream(frames: seq<Frame>, s: nat): seq<Frame>
    decreases |frames|
  {
    if frames == [] then []
    else
      var n := |frames| - 1;
      OfStream(frames[..n], s) + if frames[n].stream == s then [frames[n]] else []
  }

  // ----- which entry is whose -----

  /** The number of standard indexes `f` frames take. */
  function IndexCount(f: nat): nat {
    if f == 0 then 1 else (f + PER_INDEX - 1) / PER_INDEX
  }

  /** Frame `k` of a stream is entry `k % 2043` of its index `k / 2043`, with its length; each index
      but the first is based at the first frame it holds. */
  ghost predicate Shape(idx: seq<StdIndex>, own: seq<Frame>) {
    && |idx| == IndexCount(|own|)
    && (forall j :: 0 <= j < |idx| ==>
         && |idx[j].entries| == (if j + 1 < |idx| then PER_INDEX else |own| - PER_INDEX * j)
         && idx[j].base == (if j == 0 then 0 else own[PER_INDEX * j].pos))
    && (forall j, e {:trigger idx[j].entries[e]} :: 0 <= j < |idx| && 0 <= e < |idx[j].entries| ==>
         idx[j].entries[e].size == own[PER_INDEX * j + e].len)
  }

  lemma Counts(f: nat)
    ensures IndexCount(f) >= 1
    ensures 0 <= f - PER_INDEX * (IndexCount(f) - 1) <= PER_INDEX
    ensures IndexCount(f + 1)
      == if f - PER_INDEX * (IndexCount(f) - 1) == PER_INDEX then IndexCount(f) + 1 else IndexCount(f)
  {
  }

  lemma AddedShape(x: Indexes, f: Frame, own: seq<Frame>)
    requires Wf(x) && f.stream < |x.streams| && Shape(x.streams[f.stream], own)
    ensures Shape(AddEntry(x, f).streams[f.stream], own + [f])
  {
    Counts(|own|);
    var idx, idx' := x.streams[f.stream], AddEntry(x, f).streams[f.stream];
    var last := |idx'| - 1;
    assert |Last(idx).entries| == |own| - PER_INDEX * (|idx| - 1);
    assert forall j {:trigger idx'[j]} :: 0 <= j < last ==> idx'[j] == idx[j];
    assert forall j, e {:trigger idx'[j].entries[e]} ::
        0 <= j < |idx'| && 0 <= e < |idx'[j].entries| && PER_INDEX * j + e < |own| ==>
          j < |idx| && e < |idx[j].entries| && idx'[j].entries[e] == idx[j].entries[e];
  }

  lemma OtherShape(x: Indexes, f: Frame, s: nat)
    requires Wf(x) && f.stream < |x.streams| && s < |x.streams| && s != f.stream
    ensures AddEntry(x, f).streams[s] == x.streams[s]
  {
  }

  /** For every stream of every run, each frame has its entry, in order, and there are exactly as
      many standard indexes as it takes at 2043 entries each. */
  lemma {:induction false} BuildShape(n: nat, frames: seq<Frame>, s: nat)
    requires s < n && forall i :: 0 <= i < |frames| ==> frames[i].stream < n
    ensures Shape(Build(n, frames).streams[s], OfStream(frames, s))
    decreases |frames|
  {
    if frames != [] {
      var k := |frames| - 1;
      var x := Build(n, frames[..k]);
      BuildShape(n, frames[..k], s);
      if frames[k].stream == s {
        AddedShape(x, frames[k], OfStream(frames[..k], s));
      } else {
        OtherShape(x, frames[k], s);
        assert OfStream(frames, s) == OfStream(frames[..k], s);
      }
    }
  }
}
