/** The old index of a recording, entry by entry, where it stands in the file. */
module AviOldIndex {
  import opened Bytes
  import opened Riff
  import opened AviIndexExact
  import opened AviLayout
  import opened AviSections
  import opened AviFilm
  import W = AviWriter
  import opened AviWriterRuns
  import opened AviClose
  import opened AviSizes
  import opened AviLookup
  import Runs = AviFileRuns
  import opened AviLimits
  import opened AviRoundTrip
  import opened AviRecordings
  import opened AviWalk

  // ----- what the entries are -----

  lemma {:induction false} TakenStays(datas: seq<seq<byte>>, data: seq<byte>, k: nat, each: nat)
    requires k <= |datas|
    ensures Taken(datas + [data], 0, k, each) == Taken(datas, 0, k, each)
  {
    if k > 0 { TakenStays(datas, data, k - 1, each); }
  }

  /** The entries count from the `movi`, over the frames before, each with the head of its chunk. */
  ghost predicate Counted(g: Film) {
    && |g.old_| <= |g.datas|
    && (g.closed == [] ==> |g.old_| == |g.datas| && |g.body| == Taken(g.datas, 0, |g.datas|, 8))
    && forall k :: 0 <= k < |g.old_| ==> g.old_[k] == OldEntry(4 + Taken(g.datas, 0, k, 8), |g.datas[k]|)
  }

  lemma {:induction false} AddedCounted(g: Film, data: seq<byte>)
    requires Counted(g)
    ensures Counted(Added(g, data))
  {
    var g' := Added(g, data);
    ContentLength(g);
    if g.closed == [] { FirstContent(g); }
    TakenStays(g.datas, data, |g.datas|, 8);
    forall k | 0 <= k < |g'.old_|
      ensures g'.old_[k] == OldEntry(4 + Taken(g'.datas, 0, k, 8), |g'.datas[k]|)
    {
      TakenStays(g.datas, data, k, 8);
    }
  }

  lemma DataCounted(w: W.Writer, g: Film, data: seq<byte>)
    requires Counted(g)
    ensures Counted(DataAdded(w, g, data))
  {
    AddedCounted(g, data);
    AddedCounted(Rolled(g), data);
  }

  lemma {:induction false} RunCounted(w: W.Writer, g: Film, datas: seq<seq<byte>>)
    requires W.InUse(w) && Counted(g)
    ensures Counted(AllAdded(w, g, datas))
    decreases |datas|
  {
    if datas != [] {
      var n := |datas| - 1;
      RunCounted(w, g, datas[..n]);
      DataCounted(AllWritten(w, datas[..n]), AllAdded(w, g, datas[..n]), datas[n]);
    }
  }

  // ----- where they are -----

  /** The old index with its tag at `t` lists the first `m` frames: each as a picture of stream 0, a key
      frame, with its place from the `movi` and its length. */
  predicate ListsFrames(s: seq<byte>, t: nat, datas: seq<seq<byte>>, m: nat)
    requires m <= |datas|
  {
    && t + 8 + 16 * m <= |s| && s[t..t + 4] == [0x69, 0x64, 0x78, 0x31] && SizeAt(s, t + 4, 16 * m)
    && forall k :: 0 <= k < m ==> ListsFrame(s, t, datas, k)
  }

  predicate ListsFrame(s: seq<byte>, t: nat, datas: seq<seq<byte>>, k: nat)
    requires k < |datas|
  {
    EntrySays(s, t + 8 + 16 * k, 4 + Taken(datas, 0, k, 8), |datas[k]|)
  }

  predicate EntrySays(s: seq<byte>, p: nat, offset: nat, size: nat) {
    && p + 16 <= |s| && s[p..p + 4] == [0x30, 0x30, 0x64, 0x63] && SizeAt(s, p + 4, 0x10)
    && SizeAt(s, p + 8, offset) && SizeAt(s, p + 12, size)
  }

  lemma EntryHeld(s: seq<byte>, p: nat, e: OldEntry)
    requires Holds(s, p, OldEntryBytes(e)) && e.offset < WORD && e.size < WORD
    ensures EntrySays(s, p, e.offset, e.size)
  {
    var d := OldEntryBytes(e);
    assert d[0..4] == FRAME && d[4..8] == LE32(KEYFRAME) && d[8..12] == LE32(e.offset) && d[12..16] == LE32(e.size);
    Within(s, p, d, 0, FRAME);
    Within(s, p, d, 4, LE32(KEYFRAME));
    Within(s, p, d, 8, LE32(e.offset));
    Within(s, p, d, 12, LE32(e.size));
    SizeFrom(s, p + 4, KEYFRAME);
    SizeFrom(s, p + 8, e.offset);
    SizeFrom(s, p + 12, e.size);
  }

  /** The entries are those of the first frames of `datas`, whose chunks end within `n` bytes. */
  ghost predicate EntriesFor(old_: seq<OldEntry>, datas: seq<seq<byte>>, n: nat) {
    && |old_| <= |datas|
    && (forall k :: 0 <= k < |old_| ==> old_[k] == OldEntry(4 + Taken(datas, 0, k, 8), |datas[k]|))
    && (forall k :: 0 <= k < |old_| ==> old_[k].offset + 4 + old_[k].size <= n)
  }

  lemma {:induction false} EntryPlaced(s: seq<byte>, p: nat, old_: seq<OldEntry>, k: nat, q: nat)
    requires Holds(s, p, OldBytes(old_)) && k < |old_| && q == p + OLD_ENTRY * k
    ensures Holds(s, q, OldEntryBytes(old_[k]))
  {
    OldEntryAt(old_, k);
    Within(s, p, OldBytes(old_), OLD_ENTRY * k, OldEntryBytes(old_[k]));
  }

  lemma {:induction false} EntryListed(s: seq<byte>, t: nat, old_: seq<OldEntry>, datas: seq<seq<byte>>, n: nat, k: nat)
    requires Holds(s, t + 8, OldBytes(old_)) && k < |old_| && n < WORD && EntriesFor(old_, datas, n)
    ensures ListsFrame(s, t, datas, k)
  {
    var q, e := t + 8 + 16 * k, OldEntry(4 + Taken(datas, 0, k, 8), |datas[k]|);
    assert old_[k] == e;
    assert Holds(s, q, OldEntryBytes(e)) by { EntryPlaced(s, t + 8, old_, k, q); }
    EntryHeld(s, q, e);
  }

  lemma {:induction false} EntriesHeld(s: seq<byte>, t: nat, old_: seq<OldEntry>, datas: seq<seq<byte>>, n: nat)
    requires Holds(s, t, Chunk(IDX1, OldBytes(old_))) && 16 * |old_| < WORD && n < WORD && EntriesFor(old_, datas, n)
    ensures ListsFrames(s, t, datas, |old_|)
  {
    assert Holds(s, t, IDX1) && SizeAt(s, t + 4, 16 * |old_|) && Holds(s, t + 8, OldBytes(old_)) by {
      ChunkHeld(s, t, IDX1, OldBytes(old_));
    }
    forall k | 0 <= k < |old_| ensures ListsFrame(s, t, datas, k) {
      EntryListed(s, t, old_, datas, n, k);
    }
  }

  /** The first section of `s` ends with the old index of the first `m` frames. */
  predicate EndsFirst(s: seq<byte>, datas: seq<seq<byte>>, m: nat) {
    && m <= |datas| && 8 <= |s| && 16 * m <= Read32(s[4..8])
    && ListsFrames(s, Read32(s[4..8]) - 16 * m, datas, m)
  }

  lemma {:induction false} FirstSectionHeld(h: Headers, closed: seq<seq<byte>>, idx1: seq<byte>)
    requires closed != []
    ensures Holds(Before(h, closed, idx1), 0, Section(h, 0, closed[0], idx1))
    decreases |closed|
  {
    var n := |closed| - 1;
    if n == 0 {
      FirstBefore(h, closed, idx1);
    } else {
      FirstSectionHeld(h, closed[..n], idx1);
      LeftHolds(Before(h, closed[..n], idx1), Section(h, n, closed[n], idx1), 0, Section(h, 0, closed[0], idx1));
    }
  }

  lemma {:induction false} TailHeld(s: seq<byte>, h: Headers, body: seq<byte>, idx1: seq<byte>) returns (t: nat)
    requires Holds(s, 0, Section(h, 0, body, idx1)) && |Section(h, 0, body, idx1)| < WORD
    ensures 8 <= |s| && Read32(s[4..8]) == t + |idx1| && |body| + |idx1| < WORD
    ensures Holds(s, t, Chunk(IDX1, idx1))
  {
    SectionHeld(s, 0, h, 0, body, idx1);
    t := 24 + |Hdrl(h)| + |body|;
  }

  lemma {:induction false} SectionLists(s: seq<byte>, h: Headers, body: seq<byte>, old_: seq<OldEntry>,
      datas: seq<seq<byte>>)
    requires Holds(s, 0, Section(h, 0, body, OldBytes(old_))) && |Section(h, 0, body, OldBytes(old_))| < WORD
    requires EntriesFor(old_, datas, |body|)
    ensures EndsFirst(s, datas, |old_|)
  {
    var t := TailHeld(s, h, body, OldBytes(old_));
    EntriesHeld(s, t, old_, datas, |body|);
  }

  lemma {:induction false} FirstEntries(g: Film)
    requires FirstAt(g) && Counted(g) && Shaped(g.h) && OneStream(g.frames) && Fits(g)
    ensures EntriesFor(g.old_, g.datas, |(Closing(g).closed + [Closing(g).body])[0]|)
  {
    ClosingSame(g);
  }

  lemma {:induction false} FileLists(g: Film)
    requires Shaped(g.h) && OneStream(g.frames) && Fits(g) && FirstAt(g) && Counted(g)
    requires SmallSections(Closing(g).h, Closing(g).closed + [Closing(g).body], OldBytes(g.old_))
    ensures EndsFirst(FinalFile(g), g.datas, |g.old_|)
  {
    ClosingSame(g);
    FirstEntries(g);
    var h, closed := Closing(g).h, Closing(g).closed + [Closing(g).body];
    FirstSectionHeld(h, closed, OldBytes(g.old_));
    SectionLists(FinalFile(g), h, closed[0], g.old_, g.datas);
  }

  lemma FilmCounted(w: W.Writer, before: W.Writer, h: Headers, datas: seq<seq<byte>>)
    requires Runs.Opened(w, before, h) && W.InUse(w) && |OpenSection(h, 0, [])| < W.FIRST_LIMIT
    requires forall i :: 0 <= i < |datas| ==> |datas[i]| <= SAFE_FRAME
    ensures var g := Runs.FilmOf(w, h, datas); Sized(g) && FirstAt(g) && Counted(g)
  {
    Runs.OpenedAgrees(w, before, h);
    OpeningSized(h);
    RunSized(w, Opening(h), datas);
    RunFirst(w, Opening(h), datas);
    RunCounted(w, Opening(h), datas);
  }

  /** A recording, of any number of sections, ends its first with the old index, whose entries are the
      frames of that section, in order, with their places and lengths. */
  lemma RecordingOldIndex(w: W.Writer, before: W.Writer, h: Headers, datas: seq<seq<byte>>)
    requires Runs.Opened(w, before, h) && |datas| <= w.reservedFrames && Runs.Room(before, |datas|)
    requires |OpenSection(h, 0, [])| < W.FIRST_LIMIT && IndexBytes(|datas|) <= WORD - W.LATER_LIMIT
    requires forall i :: 0 <= i < |datas| ==> |datas[i]| <= SAFE_FRAME
    ensures W.Closable(w)
    ensures EndsFirst(Runs.Recorded(w, datas), datas, |AllWritten(w, datas).oldIndex|)
  {
    Runs.OpenedAgrees(w, before, h);
    Runs.RecordingHoldsFrames(w, before, h, datas);
    Runs.FilmGood(w, before, h, datas);
    Runs.FilmFrames(w, before, h, datas);
    FilmCounted(w, before, h, datas);
    ClosedSmall(Runs.FilmOf(w, h, datas));
    FileLists(Runs.FilmOf(w, h, datas));
  }
}
