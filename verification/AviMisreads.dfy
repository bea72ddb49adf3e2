/** Recordings made with OpenDML that do not read back: what the reader returns instead. */
module AviMisreads {
  import opened Bytes
  import opened Riff
  import opened AviIndex
  import opened AviLayout
  import opened AviFilm
  import W = AviWriter
  import opened AviWriterRuns
  import opened AviClose
  import opened AviSizes
  import Runs = AviFileRuns
  import opened AviReader
  import opened AviLookup
  import opened AviWalk
  import opened AviRoundTrip
  import opened AviIndexedTrip
  import opened AviIndexedRecordings

  // ----- one read -----

  lemma StartOf(s: seq<byte>, p: nat, d: seq<byte>)
    requires |d| >= 4 && Holds(s, p, d)
    ensures s[p..p + 4] == d[..4]
  {
    SubSlice(s, p, d, 0, 4);
  }

  /** A frame whose second probe starts at or past the end of the file: the failed read is not cleared,
      so the seek back and the read of the frame fail too. */
  lemma TailReadsNothing(r: Reader, s: seq<byte>, m: nat, es: seq<Entry>, k: nat, buf: seq<byte>)
    requires |buf| == 8 && Ready(r, s, m, es, false) && k < |es| && es[k].size > 0 && |es[k].id| == 4
    requires 0 <= es[k].offset && es[k].offset + 8 <= |s| <= es[k].offset + m
      && s[es[k].offset..es[k].offset + 4] != es[k].id
    ensures var f := FrameReadFrom(r, k, 0, buf); f.result == 0 && f.data == []
  {
    var e := es[k];
    var r0 := r.(idxs := r.idxs[0 := Listed(r.idxs, 0)]);
    Probing(r0.(good := true), e, e.offset, buf);
    var r1, tag := r0.(good := true, pos := e.offset + 8), s[e.offset..e.offset + 8];
    assert Fetched(Sought(r1, e.offset + m), 8) == [];
    assert Into(tag, []) == tag;
    assert !FromMovi(r1, e, tag).good;
  }

  /** A frame with another's chunk `m` bytes after its own start: the second probe finds that chunk's
      id, and the bytes returned are the other's. */
  lemma ChunkFoundInstead(r: Reader, s: seq<byte>, m: nat, es: seq<Entry>, k: nat, other: seq<byte>, buf: seq<byte>)
    requires |buf| == 8 && Ready(r, s, m, es, false) && k < |es| && es[k].id == FRAME && 0 <= es[k].offset
    requires es[k].size == |other| > 0 && es[k].offset + 8 <= |s| && s[es[k].offset..es[k].offset + 4] != FRAME
    requires Holds(s, es[k].offset + m, Chunk(FRAME, other))
    ensures var f := FrameReadFrom(r, k, 0, buf); f.data == other && f.result == |other| && f.r.useMovi
  {
    var e := es[k];
    var r0 := r.(idxs := r.idxs[0 := Listed(r.idxs, 0)]);
    Probing(r0.(good := true), e, e.offset, buf);
    var r1, tag := r0.(good := true, pos := e.offset + 8), s[e.offset..e.offset + 8];
    assert FRAME + LE32(|other|) + other == Chunk(FRAME, other);
    ProbeFinds(r1, e, other, tag);
    ReadAt(r, k, buf, es, Located(r0, e, buf), other);
  }

  // ----- one section, frames one after another -----

  /** While there is one section its frames follow one another from its start. */
  ghost predicate Packed(g: Film) {
    g.closed == [] ==>
      && (forall k :: 0 <= k < |g.frames| - 1 ==> g.frames[k + 1].pos == g.frames[k].pos + 8 + g.frames[k].len)
      && (if g.frames == [] then g.body == [] else g.frames[0].pos == BodyStart(g.h, 0, 0))
      && (g.frames != [] ==> Last(g.frames).pos + 8 + Last(g.frames).len == BodyStart(g.h, 0, 0) + |g.body|)
  }

  lemma AddedPacked(g: Film, data: seq<byte>)
    requires Packed(g)
    ensures Packed(Added(g, data))
  {
    ContentLength(g);
    if g.closed == [] { FirstContent(g); }
  }

  lemma DataPacked(w: W.Writer, g: Film, data: seq<byte>)
    requires Packed(g)
    ensures Packed(DataAdded(w, g, data))
  {
    AddedPacked(g, data);
    AddedPacked(Rolled(g), data);
  }

  lemma {:induction false} RunPacked(w: W.Writer, g: Film, datas: seq<seq<byte>>)
    requires W.InUse(w) && Packed(g)
    ensures Packed(AllAdded(w, g, datas))
    decreases |datas|
  {
    if datas != [] {
      var n := |datas| - 1;
      RunPacked(w, g, datas[..n]);
      DataPacked(AllWritten(w, datas[..n]), AllAdded(w, g, datas[..n]), datas[n]);
    }
  }

  // ----- recordings -----

  lemma OneSection(w: W.Writer, before: W.Writer, h: Headers, datas: seq<seq<byte>>)
    requires Made(w, before, h, datas) && W.InUse(w) && AllWritten(w, datas).riffIdx == 0
    ensures var g := Runs.FilmOf(w, h, datas);
      g.closed == [] && Packed(g) && |g.old_| == |g.frames| == |datas|
  {
    Runs.OpenedAgrees(w, before, h);
    Runs.FilmGood(w, before, h, datas);
    Runs.FilmFrames(w, before, h, datas);
    RunPacked(w, Opening(h), datas);
  }

  lemma OneSectionLength(g: Film)
    requires ByIndex(g) && g.closed == []
    ensures |FinalFile(g)| == BodyStart(g.h, 0, 0) + |g.body| + IndexBytes(|g.frames|) + 8 + OLD_ENTRY * |g.old_|
  {
    ClosingSame(g);
    FileParts(g);
    UsedLength(g);
    FirstDone(Closing(g));
  }

  /** Opening `s` lists the frame `f` as number `k`, with its place and length. */
  ghost predicate Sited(s: seq<byte>, m: nat, es: seq<Entry>, f: Frame, data: seq<byte>, k: nat) {
    && OpensTo(s, m, es) && k < |es| && es[k].id == FRAME && es[k].size == |data| == f.len && es[k].offset == f.pos + 8
    && Holds(s, f.pos, Chunk(FRAME, data))
  }

  lemma FrameSited(g: Film, k: nat)
    requires ByIndex(g) && g.closed == [] && k < |g.frames| && |g.datas[k]| < HALF
    ensures Sited(FinalFile(g), BodyStart(g.h, 0, 0) - 4, AllEntries(UsedBy(g)), g.frames[k], g.datas[k], k)
  {
    FilmOpens(g);
    FilmNamed(g);
    FinishedKeepsFrames(g);
    OneSectionSmall(g);
    WithinFile(FinalFile(g), g.frames, g.datas, k);
    LengthKept(|g.datas[k]|);
  }

  lemma OneSectionSmall(g: Film)
    requires ByIndex(g) && g.closed == []
    ensures |FinalFile(g)| < WORD
  {
    ClosingSame(g);
    FirstDone(Closing(g));
    assert (Closing(g).closed + [Closing(g).body])[0] == Closing(g).body;
  }

  /** A file of one short frame: the second probe is past its end. */
  lemma LoneRead(s: seq<byte>, start: nat, es: seq<Entry>, f: Frame, data: seq<byte>, buf: seq<byte>)
    requires 4 <= start && Sited(s, start - 4, es, f, data, 0) && f.pos == start && |s| == start + |data| + 72
    requires 4 <= |data| <= start - 68 && data[..4] != FRAME && |buf| == 8
    ensures Accepted(Opened(s)) && FrameReadFrom(Opened(s), 0, 0, buf).result == 0
  {
    ChunkHeld(s, f.pos, FRAME, data);
    StartOf(s, f.pos + 8, data);
    TailReadsNothing(Opened(s), s, start - 4, es, 0, buf);
  }

  /** A recording of one frame that ends less than the first `movi`'s place after the frame's start
      reads back as nothing: a frame of up to 68 bytes less than the place of the frames does. */
  lemma LoneFrameUnread(w: W.Writer, before: W.Writer, h: Headers, data: seq<byte>, buf: seq<byte>)
    requires Made(w, before, h, [data]) && W.InUse(w) && AllWritten(w, [data]).riffIdx == 0 && |buf| == 8
    requires 4 <= |data| <= BodyStart(h, 0, 0) - 68 && data[..4] != FRAME
    ensures W.Closable(w)
    ensures var r := Opened(Runs.Recorded(w, [data])); Accepted(r) && FrameReadFrom(r, 0, 0, buf).result == 0
  {
    RecordingLeaves(w, before, h, [data]);
    OneSection(w, before, h, [data]);
    var g := Runs.FilmOf(w, h, [data]);
    OneSectionLength(g);
    FrameSited(g, 0);
    LoneRead(FinalFile(g), BodyStart(h, 0, 0), AllEntries(UsedBy(g)), g.frames[0], data, buf);
  }

  /** Two frames one after another, as long as the first `movi`'s place `m`. */
  ghost predicate PairSited(s: seq<byte>, m: nat, es: seq<Entry>, f: Frame, f': Frame, data: seq<byte>,
      data': seq<byte>, k: nat) {
    Sited(s, m, es, f, data, k) && Sited(s, m, es, f', data', k + 1) && f'.pos == f.pos + 8 + m
  }

  lemma EvenRead(s: seq<byte>, m: nat, es: seq<Entry>, f: Frame, f': Frame, data: seq<byte>, data': seq<byte>, k: nat,
      buf: seq<byte>)
    requires PairSited(s, m, es, f, f', data, data', k)
    requires 4 <= |data| == |data'| && data[..4] != FRAME && |buf| == 8
    ensures Accepted(Opened(s)) && FrameReadFrom(Opened(s), k, 0, buf).data == data'
  {
    ChunkHeld(s, f.pos, FRAME, data);
    StartOf(s, f.pos + 8, data);
    WithinChunk(s, f'.pos, data');
    ChunkFoundInstead(Opened(s), s, m, es, k, data', buf);
  }

  lemma WithinChunk(s: seq<byte>, p: nat, data: seq<byte>)
    requires Holds(s, p, Chunk(FRAME, data))
    ensures p + 8 + |data| <= |s|
  {
  }

  lemma NextPacked(g: Film, k: nat)
    requires Packed(g) && g.closed == [] && k + 1 < |g.frames|
    ensures g.frames[k + 1].pos == g.frames[k].pos + 8 + g.frames[k].len
  {
  }

  lemma FilmPair(g: Film, m: nat, k: nat)
    requires ByIndex(g) && g.closed == [] && Packed(g) && k + 1 < |g.frames|
    requires |g.datas[k]| == |g.datas[k + 1]| == m < HALF && m == BodyStart(g.h, 0, 0) - 4
    ensures PairSited(FinalFile(g), m, AllEntries(UsedBy(g)),
                      g.frames[k], g.frames[k + 1], g.datas[k], g.datas[k + 1], k)
  {
    FrameSited(g, k);
    FrameSited(g, k + 1);
    NextPacked(g, k);
  }

  lemma FilmMisreads(g: Film, k: nat, buf: seq<byte>)
    requires ByIndex(g) && g.closed == [] && Packed(g) && k + 1 < |g.frames| && |buf| == 8
    requires 4 <= |g.datas[k]| == |g.datas[k + 1]| == BodyStart(g.h, 0, 0) - 4 < HALF && g.datas[k][..4] != FRAME
    ensures var r := Opened(FinalFile(g)); Accepted(r) && FrameReadFrom(r, k, 0, buf).data == g.datas[k + 1]
  {
    var m := BodyStart(g.h, 0, 0) - 4;
    FilmPair(g, m, k);
    EvenRead(FinalFile(g), m, AllEntries(UsedBy(g)), g.frames[k], g.frames[k + 1], g.datas[k], g.datas[k + 1], k, buf);
  }

  /** A recording of frames all as long as the first `movi`'s place: read first, each frame that does
      not begin with a chunk's id comes back as the one after it. */
  lemma EvenFramesMisread(w: W.Writer, before: W.Writer, h: Headers, datas: seq<seq<byte>>, k: nat, buf: seq<byte>)
    requires Made(w, before, h, datas) && W.InUse(w) && AllWritten(w, datas).riffIdx == 0 && |buf| == 8
    requires (forall i :: 0 <= i < |datas| ==> |datas[i]| == BodyStart(h, 0, 0) - 4) && k + 1 < |datas|
    requires 4 <= |datas[k]| && datas[k][..4] != FRAME
    ensures W.Closable(w)
    ensures var r := Opened(Runs.Recorded(w, datas)); Accepted(r) && FrameReadFrom(r, k, 0, buf).data == datas[k + 1]
  {
    RecordingLeaves(w, before, h, datas);
    OneSection(w, before, h, datas);
    var g := Runs.FilmOf(w, h, datas);
    assert |datas[k]| <= SAFE_FRAME && |datas[k + 1]| == |datas[k]|;
    FilmMisreads(g, k, buf);
  }
}
