/** What the header of a recorded file says, byte by byte: the frame counts `close` puts in, and everything
    else as it was set up before `open`. */
module AviHeaders {
  import opened Bytes
  import opened Riff
  import opened AviIndexExact
  import opened AviLayout
  import opened AviFilm
  import W = AviWriter
  import opened AviClose
  import opened AviLookup
  import Runs = AviFileRuns
  import opened AviWalk

  /** `d` is `block` with the number `n` in place of the four bytes at `offset`. */
  predicate Recounted(d: seq<byte>, block: seq<byte>, offset: nat, n: nat)
    requires offset + 4 <= |block|
  {
    && |d| == |block| && d[..offset] == block[..offset] && d[offset + 4..] == block[offset + 4..]
    && Read32(d[offset..offset + 4]) == n % 0x1_0000_0000
  }

  lemma CountRecounts(block: seq<byte>, offset: nat, n: nat)
    requires offset + 4 <= |block|
    ensures Recounted(W.Counted(block, offset, n), block, offset, n)
    ensures Recounted(Overwrite(block, 0, LE32(n)), block, 0, n)
  {
    Read32LE32(n);
    var d := Overwrite(block, offset, LE32(n));
    assert d[..offset] == block[..offset] && d[offset..offset + 4] == LE32(n) && d[offset + 4..] == block[offset + 4..];
    var e := Overwrite(block, 0, LE32(n));
    assert e[..0] == block[..0] && e[0..4] == LE32(n) && e[4..] == block[4..];
  }

  lemma ClosingCounts(g: Film)
    requires Shaped(g.h) && OneStream(g.frames) && Fits(g)
    ensures var h := Closing(g).h; var n := |g.frames|;
      && Recounted(h.avih, g.h.avih, 24, n) && Recounted(h.strh, g.h.strh, 40, n) && h.bmi == g.h.bmi
      && (|g.h.ext| > 0 ==> Recounted(h.ext, g.h.ext, 0, n))
  {
    CountedShaped(g);
    CountRecounts(g.h.avih, 24, |g.frames|);
    CountRecounts(g.h.strh, 40, |g.frames|);
    if |g.h.ext| > 0 { CountRecounts(g.h.ext, 0, |g.frames|); }
  }

  // ----- in the file -----

  /** `block` is in `s` at `p` but for the four bytes at `offset` from there, which are the number `n`. */
  predicate CountedAt(s: seq<byte>, p: nat, block: seq<byte>, offset: nat, n: nat)
    requires offset + 4 <= |block|
  {
    p + |block| <= |s| && Recounted(s[p..p + |block|], block, offset, n)
  }

  lemma BlockCounted(s: seq<byte>, p: nat, d: seq<byte>, block: seq<byte>, offset: nat, n: nat)
    requires offset + 4 <= |block| && Holds(s, p, d) && Recounted(d, block, offset, n)
    ensures CountedAt(s, p, block, offset, n)
  {
  }

  /** The lists and chunks around the blocks, each with its size but for those that reach past the header
      list. */
  predicate TagsSay(s: seq<byte>, headers: nat, stream: nat) {
    && TagAt(s, 0, "RIFF") && TagAt(s, 8, "AVI ")
    && TagAt(s, 12, "LIST") && SizeAt(s, 16, headers) && TagAt(s, 20, "hdrl")
    && TagAt(s, 88, "LIST") && SizeAt(s, 92, stream) && TagAt(s, 96, "strl")
    && TagAt(s, 164, "strf") && SizeAt(s, 168, 40)
  }

  /** The list of the extended header, which starts at `p`. */
  predicate ExtendedTags(s: seq<byte>, p: nat) {
    && TagAt(s, p, "LIST") && SizeAt(s, p + 4, 260) && TagAt(s, p + 8, "odml")
    && TagAt(s, p + 12, "dmlh") && SizeAt(s, p + 16, 248)
  }

  lemma TagHeld(s: seq<byte>, p: nat, id: FourCC, t: string)
    requires Holds(s, p, id) && |t| == 4 && forall i :: 0 <= i < 4 ==> id[i] as int == t[i] as int
    ensures TagAt(s, p, t)
  {
    forall i | 0 <= i < 4 ensures s[p + i] == id[i] {
      assert s[p..p + 4][i] == id[i];
    }
  }

  lemma TagsHeld(s: seq<byte>, h: Headers)
    requires Shaped(h) && Holds(s, 0, RIFF) && Holds(s, 8, AVI) && Holds(s, 12, Hdrl(h)) && |Hdrl(h)| < WORD
    ensures TagsSay(s, 4 + |HdrlBody(h)|, 116 + |h.super|)
  {
    HeaderHeld(s, 12, h);
    StreamHeld(s, 88, h);
    TagHeld(s, 0, RIFF, "RIFF");
    TagHeld(s, 8, AVI, "AVI ");
    TagHeld(s, 12, LIST, "LIST");
    TagHeld(s, 20, HDRL, "hdrl");
    TagHeld(s, 88, LIST, "LIST");
    TagHeld(s, 96, STRL, "strl");
    TagHeld(s, 164, STRF, "strf");
  }

  lemma OdmlTags(s: seq<byte>, p: nat, h: Headers)
    requires Shaped(h) && |h.ext| > 0 && Holds(s, p, OdmlList(h))
    ensures ExtendedTags(s, p)
  {
    OdmlHeld(s, p, h);
    TagHeld(s, p, LIST, "LIST");
    TagHeld(s, p + 8, Riff.ODML, "odml");
    TagHeld(s, p + 12, DMLH, "dmlh");
  }

  lemma ExtendedTagsHeld(s: seq<byte>, h: Headers)
    requires Shaped(h) && Holds(s, 12, Hdrl(h)) && |h.ext| > 0
    ensures ExtendedTags(s, 212 + |h.super|)
  {
    var p := 212 + |h.super|;
    assert Holds(s, p, OdmlList(h)) by { HeaderHeld(s, 12, h); }
    OdmlTags(s, p, h);
  }

  lemma FormatHeld(s: seq<byte>, p: nat, h: Headers)
    requires Shaped(h) && Holds(s, p, List(LIST, STRL, StrlBody(h)))
    ensures Holds(s, p + 84, h.bmi)
  {
    ListHeld(s, p, LIST, STRL, StrlBody(h));
    JoinHeld(s, p + 12, h.strh, Chunk(STRF, h.bmi) + h.super);
    JoinHeld(s, p + 76, Chunk(STRF, h.bmi), h.super);
    ChunkHeld(s, p + 76, STRF, h.bmi);
  }

  lemma HeaderParts(s: seq<byte>, h: Headers)
    requires Shaped(h) && Holds(s, 12, Hdrl(h))
    ensures Holds(s, 24, h.avih) && Holds(s, 100, h.strh) && Holds(s, 172, h.bmi)
  {
    HeaderHeld(s, 12, h);
    StreamHeld(s, 88, h);
    FormatHeld(s, 88, h);
  }

  lemma TotalsPlaced(s: seq<byte>, p: nat, h: Headers)
    requires |h.ext| > 0 && Holds(s, p, OdmlList(h))
    ensures Holds(s, p + 20, h.ext)
  {
    ListHeld(s, p, LIST, Riff.ODML, Chunk(DMLH, h.ext));
    ChunkHeld(s, p + 12, DMLH, h.ext);
  }

  /** The extended header's body is 20 bytes after the super index. */
  lemma TotalsInHeader(s: seq<byte>, p: nat, h: Headers)
    requires Shaped(h) && Holds(s, 12, Hdrl(h)) && |h.ext| > 0 && p == 212 + |h.super|
    ensures Holds(s, p + 20, h.ext)
  {
    HeaderHeld(s, 12, h);
    assert Holds(s, p, OdmlList(h));
    TotalsPlaced(s, p, h);
  }

  lemma {:induction false} FormHeld(h: Headers, closed: seq<seq<byte>>, idx1: seq<byte>)
    requires closed != []
    ensures Holds(Before(h, closed, idx1), 0, RIFF) && Holds(Before(h, closed, idx1), 8, AVI)
    decreases |closed|
  {
    var n := |closed| - 1;
    if n == 0 {
      FirstBefore(h, closed, idx1);
    } else {
      FormHeld(h, closed[..n], idx1);
      LeftHolds(Before(h, closed[..n], idx1), Section(h, n, closed[n], idx1), 0, RIFF);
      LeftHolds(Before(h, closed[..n], idx1), Section(h, n, closed[n], idx1), 8, AVI);
    }
  }

  lemma HeaderInFile(g: Film)
    requires Shaped(g.h) && g.closed != []
    ensures Holds(Done(g), 12, Hdrl(g.h)) && Holds(Done(g), 0, RIFF) && Holds(Done(g), 8, AVI)
  {
    FormHeld(g.h, g.closed, OldBytes(g.old_));
    var a, z := HeaderBefore(g.h, g.h, g.closed, OldBytes(g.old_));
    Middle(a, Hdrl(g.h), z);
  }

  /** What the blocks before the frames say in a file of `n` frames, byte by byte: the number is in the
      main header and in the stream header, and all else is as given. */
  predicate HeadersSay(s: seq<byte>, avih: seq<byte>, strh: seq<byte>, bmi: seq<byte>, n: nat)
    requires |avih| == |strh| == 64 && |bmi| == 40
  {
    && 212 <= |s|
    && Read32(s[48..52]) == n % 0x1_0000_0000 && s[24..48] == avih[..24] && s[52..88] == avih[28..]
    && Read32(s[140..144]) == n % 0x1_0000_0000 && s[100..140] == strh[..40] && s[144..164] == strh[44..]
    && s[172..212] == bmi
  }

  /** The extended header, with its body at `p`: the number, and zeros. */
  predicate TotalsSay(s: seq<byte>, p: nat, n: nat) {
    && p + 248 <= |s| && Read32(s[p..p + 4]) == n % 0x1_0000_0000
    && forall i :: p + 4 <= i < p + 248 ==> s[i] == 0
  }

  /** The blocks of `h` are those of `h0` with `n` frames counted. */
  ghost predicate Counting(h: Headers, h0: Headers, n: nat)
    requires Shaped(h0)
  {
    && SameSizes(h0, h) && h.bmi == h0.bmi
    && Recounted(h.avih, h0.avih, 24, n) && Recounted(h.strh, h0.strh, 40, n)
    && (|h0.ext| > 0 ==> Recounted(h.ext, h0.ext, 0, n))
  }

  lemma BlocksSay(s: seq<byte>, h: Headers, h0: Headers, n: nat)
    requires Shaped(h) && Shaped(h0) && Holds(s, 12, Hdrl(h)) && Counting(h, h0, n)
    ensures HeadersSay(s, h0.avih, h0.strh, h0.bmi, n)
  {
    HeaderParts(s, h);
    BlockCounted(s, 24, h.avih, h0.avih, 24, n);
    BlockCounted(s, 100, h.strh, h0.strh, 40, n);
    CountPlaced(s, 24, h0.avih, 24, n);
    CountPlaced(s, 100, h0.strh, 40, n);
  }

  lemma ExtendedSays(s: seq<byte>, h: Headers, h0: Headers, n: nat)
    requires Shaped(h) && Shaped(h0) && Holds(s, 12, Hdrl(h)) && Counting(h, h0, n) && h0.ext == Fill(EXT_SIZE, 0)
    ensures TotalsSay(s, 232 + |h0.super|, n)
  {
    var p := 212 + |h0.super|;
    assert Holds(s, p + 20, h.ext) by { TotalsInHeader(s, p, h); }
    TotalsHeld(s, p + 20, h.ext, h0.ext, n);
  }

  lemma TotalsHeld(s: seq<byte>, p: nat, d: seq<byte>, block: seq<byte>, n: nat)
    requires Holds(s, p, d) && block == Fill(EXT_SIZE, 0) && Recounted(d, block, 0, n)
    ensures TotalsSay(s, p, n)
  {
    BlockCounted(s, p, d, block, 0, n);
    CountPlaced(s, p, block, 0, n);
    ZerosHeld(s, p + 4, p + 248, block[4..]);
  }

  lemma ZerosHeld(s: seq<byte>, p: nat, q: nat, zeros: seq<byte>)
    requires p <= q <= |s| && s[p..q] == zeros && forall i :: 0 <= i < |zeros| ==> zeros[i] == 0
    ensures forall i :: p <= i < q ==> s[i] == 0
  {
    forall i | p <= i < q ensures s[i] == 0 {
      assert s[p..q][i - p] == zeros[i - p];
    }
  }

  lemma FileCounts(g: Film)
    requires Shaped(g.h) && OneStream(g.frames) && Fits(g)
    ensures Counting(Closing(g).h, g.h, |g.frames|) && Shaped(Closing(g).h)
    ensures Holds(FinalFile(g), 12, Hdrl(Closing(g).h))
  {
    ClosingSame(g);
    ClosingHeaders(g);
    ClosingCounts(g);
    HeaderInFile(Rolled(Closing(g)));
  }

  lemma CountPlaced(s: seq<byte>, p: nat, block: seq<byte>, offset: nat, n: nat)
    requires offset + 4 <= |block| && CountedAt(s, p, block, offset, n)
    ensures Read32(s[p + offset..p + offset + 4]) == n % 0x1_0000_0000
    ensures s[p..p + offset] == block[..offset] && s[p + offset + 4..p + |block|] == block[offset + 4..]
  {
    var q := p + |block|;
    SliceOfSlice(s, p, q, 0, offset);
    SliceOfSlice(s, p, q, offset, offset + 4);
    SliceOfSlice(s, p, q, offset + 4, |block|);
  }

  /** The file begins with the head of the first section and the header list of `h`. */
  ghost predicate HeadedBy(s: seq<byte>, h: Headers) {
    Shaped(h) && Holds(s, 0, RIFF) && Holds(s, 8, AVI) && Holds(s, 12, Hdrl(h))
  }

  lemma RecordingHeader(w: W.Writer, before: W.Writer, h: Headers, datas: seq<seq<byte>>)
    requires Runs.Opened(w, before, h) && |datas| <= w.reservedFrames && Runs.Room(before, |datas|)
    requires forall i :: 0 <= i < |datas| ==> |datas[i]| < WORD
    ensures W.Closable(w)
    ensures exists h' :: HeadedBy(Runs.Recorded(w, datas), h') && Counting(h', h, |datas|)
  {
    Runs.OpenedAgrees(w, before, h);
    Runs.RecordingHoldsFrames(w, before, h, datas);
    Runs.FilmFrames(w, before, h, datas);
    var g := Runs.FilmOf(w, h, datas);
    FileCounts(g);
    HeaderInFile(Rolled(Closing(g)));
    assert HeadedBy(FinalFile(g), Closing(g).h);
  }

  /** The bytes of the super index's room, none without OpenDML. */
  function SuperRoom(before: W.Writer): nat {
    if before.openDml then
      32 + 16 * if before.reservedFrames == 0 then 128 else (before.reservedFrames + 2043) / 2044
    else 0
  }

  lemma OpenedHeaders(before: W.Writer, h: Headers)
    requires h == W.FirstHeaders(before.avih, before.strh, before.bmi, before.openDml, before.reservedFrames)
    ensures h.avih == before.avih && h.strh == before.strh && h.bmi == before.bmi
    ensures |h.super| == SuperRoom(before) && h.ext == if before.openDml then Fill(EXT_SIZE, 0) else []
  {
  }

  lemma CountsIn(s: seq<byte>, before: W.Writer, h: Headers, h': Headers, n: nat)
    requires h == W.FirstHeaders(before.avih, before.strh, before.bmi, before.openDml, before.reservedFrames)
    requires Shaped(h) && HeadedBy(s, h') && Counting(h', h, n)
    ensures |before.avih| == |before.strh| == 64 && |before.bmi| == 40
    ensures HeadersSay(s, before.avih, before.strh, before.bmi, n)
    ensures before.openDml ==> TotalsSay(s, 232 + SuperRoom(before), n)
  {
    OpenedHeaders(before, h);
    BlocksSay(s, h', h, n);
    if before.openDml { ExtendedSays(s, h', h, n); }
  }

  lemma TagsIn(s: seq<byte>, before: W.Writer, h: Headers, h': Headers, n: nat)
    requires h == W.FirstHeaders(before.avih, before.strh, before.bmi, before.openDml, before.reservedFrames)
    requires Shaped(h) && HeadedBy(s, h') && Counting(h', h, n) && before.reservedFrames < WORD
    ensures TagsSay(s, 192 + SuperRoom(before) + if before.openDml then 268 else 0, 116 + SuperRoom(before))
    ensures before.openDml ==> ExtendedTags(s, 212 + SuperRoom(before))
  {
    OpenedHeaders(before, h);
    HeaderHeld(s, 12, h');
    TagsHeld(s, h');
    if before.openDml { ExtendedTagsHeld(s, h'); }
  }

  /** A recording's header: the number of frames is in the main header, in the stream header and, with
      OpenDML, in the extended header, all else in them is as it was set up, and the lists and chunks
      around them have their tags and sizes. */
  lemma RecordingCounts(w: W.Writer, before: W.Writer, h: Headers, datas: seq<seq<byte>>)
    requires Runs.Opened(w, before, h) && |datas| <= w.reservedFrames && Runs.Room(before, |datas|)
    requires before.reservedFrames < WORD && forall i :: 0 <= i < |datas| ==> |datas[i]| < WORD
    ensures W.Closable(w) && HeadersSay(Runs.Recorded(w, datas), before.avih, before.strh, before.bmi, |datas|)
    ensures before.openDml ==> TotalsSay(Runs.Recorded(w, datas), 232 + SuperRoom(before), |datas|)
    ensures TagsSay(Runs.Recorded(w, datas), 192 + SuperRoom(before) + if before.openDml then 268 else 0,
      116 + SuperRoom(before))
    ensures before.openDml ==> ExtendedTags(Runs.Recorded(w, datas), 212 + SuperRoom(before))
  {
    RecordingHeader(w, before, h, datas);
    var s := Runs.Recorded(w, datas);
    var h' :| HeadedBy(s, h') && Counting(h', h, |datas|);
    CountsIn(s, before, h, h', |datas|);
    TagsIn(s, before, h, h', |datas|);
  }
}
