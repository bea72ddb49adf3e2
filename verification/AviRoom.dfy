/** What becomes of the block after the super index when a recording closes: it stands exactly when
    `open` left room for as many indexes as the frames took. */
module AviRoom {
  import opened Bytes
  import opened Riff
  import opened AviIndex
  import opened AviIndexExact
  import opened AviLayout
  import opened AviSections
  import opened AviFilm
  import W = AviWriter
  import opened AviWriterRuns
  import opened AviClose
  import opened AviSizes
  import opened AviLookup
  import Runs = AviFileRuns
  import opened AviWalk

  /** The head of the extended header list, up to its form type, is where `open` put it. */
  ghost predicate OdmlStands(s: seq<byte>, h: Headers) {
    Holds(s, SUPER_POS + |h.super|, LIST + LE32(EXT_SIZE + 12) + Riff.ODML)
  }

  // ----- with room -----

  lemma HeadHeld(s: seq<byte>, p: nat, ext: seq<byte>)
    requires Holds(s, p, List(LIST, Riff.ODML, Chunk(DMLH, ext))) && |ext| == EXT_SIZE
    ensures Holds(s, p, LIST + LE32(EXT_SIZE + 12) + Riff.ODML)
  {
    JoinHeld(s, p, LIST + LE32(EXT_SIZE + 12) + Riff.ODML, Chunk(DMLH, ext));
  }

  lemma HeadersStand(s: seq<byte>, h: Headers, a: seq<byte>, z: seq<byte>)
    requires Shaped(h) && |h.ext| > 0 && |a| == 12 && s == a + Hdrl(h) + z
    ensures OdmlStands(s, h)
  {
    Middle(a, Hdrl(h), z);
    HeaderHeld(s, 12, h);
    HeadHeld(s, SUPER_POS + |h.super|, h.ext);
  }

  lemma BeforeStands(h: Headers, closed: seq<seq<byte>>, idx1: seq<byte>)
    requires Shaped(h) && |h.ext| > 0 && closed != []
    ensures OdmlStands(Before(h, closed, idx1), h)
  {
    var a, z := HeaderBefore(h, h, closed, idx1);
    HeadersStand(Before(h, closed, idx1), h, a, z);
  }

  lemma RoomStands(g: Film)
    requires Shaped(g.h) && |g.h.ext| > 0 && OneStream(g.frames) && Fits(g)
    ensures OdmlStands(FinalFile(g), g.h)
  {
    ClosingSame(g);
    ClosingHeaders(g);
    BeforeStands(Closing(g).h, Rolled(Closing(g)).closed, OldBytes(g.old_));
  }

  // ----- without -----

  lemma PatchAway(c: seq<byte>, p: nat, d: seq<byte>, q: nat, e: seq<byte>)
    requires p <= |c| && Holds(c, q, e) && (p + |d| <= q || q + |e| <= p)
    ensures Holds(Overwrite(c, p, d), q, e)
  {
    var c' := Overwrite(c, p, d);
    forall i | 0 <= i < |e| ensures c'[q..q + |e|][i] == e[i] {
      assert c[q..q + |e|][i] == e[i];
    }
  }

  lemma PatchPut(c: seq<byte>, p: nat, d: seq<byte>)
    requires p <= |c|
    ensures Holds(Overwrite(c, p, d), p, d)
  {
  }

  /** Settling the sizes changes nothing between the first RIFF size and the first movi size. */
  lemma OldFinishedAway(c: seq<byte>, moviPos: nat, idx1: seq<byte>, q: nat, e: seq<byte>)
    requires 8 <= q && q + |e| <= moviPos && moviPos + 4 <= |c| && Holds(c, q, e)
    ensures Holds(OldFinished(c, moviPos, idx1), q, e)
  {
    var c1 := Overwrite(c, moviPos, LE32(|c| - moviPos - 4));
    PatchAway(c, moviPos, LE32(|c| - moviPos - 4), q, e);
    LeftHolds(c1, Chunk(IDX1, idx1), q, e);
    var c2 := c1 + Chunk(IDX1, idx1);
    PatchAway(c2, 4, LE32(|c2| - 8), q, e);
  }

  lemma LastFinishedAway(c: seq<byte>, riffPos: nat, moviPos: nat, q: nat, e: seq<byte>)
    requires q + |e| <= riffPos && q + |e| <= moviPos && riffPos + 4 <= |c| && moviPos + 4 <= |c| && Holds(c, q, e)
    ensures Holds(LastFinished(c, riffPos, moviPos), q, e)
  {
    PatchAway(c, moviPos, LE32(|c| - moviPos - 4), q, e);
    PatchAway(Overwrite(c, moviPos, LE32(|c| - moviPos - 4)), riffPos, LE32(|c| - riffPos - 4), q, e);
  }

  /** The size row `j` of a super index gives, which is that of a standard index, where it lies in the
      super index. */
  lemma SizeInSuper(idx: seq<StdIndex>, at: nat, block: nat, inUse: nat, j: nat)
    requires SUPER_HEAD <= block && j < |idx|
    ensures Holds(SuperHead(block, inUse) + SuperEntries(idx, at), SUPER_HEAD + SUPER_ENTRY * j + 8,
      LE32(STD_HEAD + STD_ENTRY * |idx[j].entries|))
  {
    var q, size, n := at + |AllStd(idx[..j])|, LE32(STD_HEAD + STD_ENTRY * |idx[j].entries|), LE32(|idx[j].entries|);
    SuperEntryAt(idx, at, j);
    RightHolds(SuperHead(block, inUse), SuperEntries(idx, at));
    var all := SuperHead(block, inUse) + SuperEntries(idx, at);
    Within(all, SUPER_HEAD, SuperEntries(idx, at), SUPER_ENTRY * j, SuperEntryBytes(q, idx[j]));
    Middle(LE64(q), size, n);
    Within(all, SUPER_HEAD + SUPER_ENTRY * j, SuperEntryBytes(q, idx[j]), 8, size);
  }

  /** The indexes written over the super index's room, and then the stream header. */
  lemma IndexesHold(c: seq<byte>, used: seq<StdIndex>, block: nat, inUse: nat, strh: seq<byte>, j: nat)
    requires SUPER_HEAD <= block && SUPER_POS <= |c| && j < |used| && |strh| == STRH_SIZE
    ensures Holds(W.Patch(W.IndexesClosed(c, used, SUPER_POS, block, inUse), STRH_POS, strh),
                  SUPER_POS + SUPER_HEAD + SUPER_ENTRY * j + 8, LE32(STD_HEAD + STD_ENTRY * |used[j].entries|))
  {
    var d, size := SuperHead(block, inUse) + SuperEntries(used, |c|), LE32(STD_HEAD + STD_ENTRY * |used[j].entries|);
    SizeInSuper(used, |c|, block, inUse, j);
    PatchPut(c + AllStd(used), SUPER_POS, d);
    var c1 := W.IndexesClosed(c, used, SUPER_POS, block, inUse);
    Within(c1, SUPER_POS, d, SUPER_HEAD + SUPER_ENTRY * j + 8, size);
    PatchAway(c1, STRH_POS, strh, SUPER_POS + SUPER_HEAD + SUPER_ENTRY * j + 8, size);
  }

  lemma SmallIsNotOdml(n: nat)
    requires n < 0x1_0000
    ensures LE32(n) != Riff.ODML
  {
    Read32LE32(n);
  }

  /** Bytes other than the form type's stand in its place. */
  lemma Displaced(s: seq<byte>, h: Headers, size: nat)
    requires size < 0x1_0000 && Holds(s, SUPER_POS + |h.super| + 8, LE32(size))
    ensures !OdmlStands(s, h)
  {
    SmallIsNotOdml(size);
    var q := SUPER_POS + |h.super|;
    if OdmlStands(s, h) {
      JoinHeld(s, q, LIST + LE32(EXT_SIZE + 12), Riff.ODML);
    }
  }

  lemma SizesAway(w: W.Writer, c: seq<byte>, q: nat, e: seq<byte>)
    requires W.InUse(w) && |c| >= |w.f.content| && Holds(c, q, e)
    requires 8 <= q && q + |e| <= w.posMoviListSize && (w.riffIdx != 0 ==> q + |e| <= w.posRiffSize)
    ensures Holds(W.SizesClosed(w, c), q, e)
  {
    if w.riffIdx == 0 {
      OldFinishedAway(c, w.posMoviListSize, OldBytes(w.oldIndex), q, e);
    } else {
      LastFinishedAway(c, w.posRiffSize, w.posMoviListSize, q, e);
    }
  }

  lemma HeadersHold(w: W.Writer, j: nat)
    requires W.Closable(w) && w.openDml && w.posSuperIdx == SUPER_POS && SUPER_POS <= |w.f.content| && j < |W.Used(w)|
    ensures Holds(W.HeadersClosed(w), SUPER_POS + SUPER_HEAD + SUPER_ENTRY * j + 8,
      LE32(STD_HEAD + STD_ENTRY * |W.Used(w)[j].entries|))
  {
    var c1 := W.Patch(w.f.content, AVIH_POS, W.Counted(w.avih, W.COUNT_OFFSET, w.totalFrames));
    IndexesHold(W.Patch(c1, w.posOdmlExt, LE32(w.totalFrames)), W.Used(w), w.superBlock, w.superInUse,
                W.Counted(w.strh, W.LENGTH_OFFSET, w.totalFrames), j);
  }

  lemma UsedOfWriter(w: W.Writer, g: Film)
    requires Agrees(w, g) && Shaped(g.h)
    ensures W.Closable(w) && W.Used(w) == UsedBy(g)
  {
    HeadersOfWriter(w, g);
  }

  /** Where the super index's room ends, in terms of what the writer keeps. */
  lemma RoomPlaces(w: W.Writer, g: Film)
    requires Agrees(w, g) && Shaped(g.h) && w.openDml
    ensures W.Closable(w) && w.posSuperIdx == SUPER_POS
    ensures var q := SUPER_POS + |g.h.super| + 12;
      q <= w.posMoviListSize && q <= |w.f.content| && (w.riffIdx != 0 ==> q <= w.posRiffSize)
    ensures W.Used(w) == UsedBy(g)
  {
    UsedOfWriter(w, g);
    ContentLength(g);
    HeaderRoom(g);
    if g.closed != [] { FirstInBefore(g.h, g.closed, OldBytes(g.old_)); }
  }

  /** The size in row `j` of the super index is in the file the writer closes. */
  lemma RowStays(w: W.Writer, j: nat)
    requires W.Closable(w) && w.openDml && w.posSuperIdx == SUPER_POS && j < |W.Used(w)|
    requires var q := SUPER_POS + SUPER_HEAD + SUPER_ENTRY * j + 12;
      q <= w.posMoviListSize && q <= |w.f.content| && (w.riffIdx != 0 ==> q <= w.posRiffSize)
    ensures Holds(W.SizesClosed(w, W.HeadersClosed(w)), SUPER_POS + SUPER_HEAD + SUPER_ENTRY * j + 8,
                  LE32(STD_HEAD + STD_ENTRY * |W.Used(w)[j].entries|))
  {
    HeadersHold(w, j);
    SizesAway(w, W.HeadersClosed(w), SUPER_POS + SUPER_HEAD + SUPER_ENTRY * j + 8,
      LE32(STD_HEAD + STD_ENTRY * |W.Used(w)[j].entries|));
  }

  lemma WriterDisplaces(w: W.Writer, h: Headers, room: nat)
    requires W.Closable(w) && w.openDml && w.posSuperIdx == SUPER_POS && |h.super| == SUPER_HEAD + SUPER_ENTRY * room
    requires room < |W.Used(w)| && |W.Used(w)[room].entries| <= PER_INDEX
    requires var q := SUPER_POS + |h.super| + 12;
      q <= w.posMoviListSize && q <= |w.f.content| && (w.riffIdx != 0 ==> q <= w.posRiffSize)
    ensures !OdmlStands(W.SizesClosed(w, W.HeadersClosed(w)), h)
  {
    RowStays(w, room);
    Displaced(W.SizesClosed(w, W.HeadersClosed(w)), h, STD_HEAD + STD_ENTRY * |W.Used(w)[room].entries|);
  }

  lemma NoRoomDisplaces(w: W.Writer, g: Film, room: nat)
    requires Agrees(w, g) && Shaped(g.h) && w.openDml && |g.h.super| == SUPER_HEAD + SUPER_ENTRY * room
      && room < |UsedBy(g)|
    ensures W.Closable(w) && !OdmlStands(W.SizesClosed(w, W.HeadersClosed(w)), g.h)
  {
    RoomPlaces(w, g);
    UsedShape(g.frames);
    WriterDisplaces(w, g.h, room);
  }

  /** However many frames are recorded with OpenDML, the block after the super index stands in the file
      exactly when the number of frames stays within what `open` left room for. */
  lemma RecordingRoomIff(w: W.Writer, before: W.Writer, h: Headers, datas: seq<seq<byte>>)
    requires Runs.Opened(w, before, h) && before.openDml && |datas| <= w.reservedFrames
    requires forall i :: 0 <= i < |datas| ==> |datas[i]| < WORD
    ensures W.Closable(w) && (OdmlStands(Runs.Recorded(w, datas), h) <==> Runs.Room(before, |datas|))
  {
    Runs.OpenedAgrees(w, before, h);
    Runs.FilmFrames(w, before, h, datas);
    var g := Runs.FilmOf(w, h, datas);
    if Runs.Room(before, |datas|) {
      Runs.RecordingHoldsFrames(w, before, h, datas);
      RoomStands(g);
    } else {
      RunKeeps(w, Opening(h), datas);
      FitsIff(before.reservedFrames, |datas|);
      UsedLength(g);
      NoRoomDisplaces(AllWritten(w, datas), g, Reserved(before.reservedFrames));
    }
  }
}
