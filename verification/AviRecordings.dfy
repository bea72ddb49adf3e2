/** Recordings made without OpenDML, read back by the old index: the frames of the first section. */
module AviRecordings {
  import opened Bytes
  import opened Riff
  import opened AviLayout
  import opened AviSections
  import opened AviFilm
  import W = AviWriter
  import opened AviWriterRuns
  import opened AviClose
  import opened AviSizes
  import Runs = AviFileRuns
  import opened AviReader
  import opened AviWalk
  import opened AviRoundTrip

  function FirstBody(g: Film): seq<byte> {
    if g.closed == [] then g.body else g.closed[0]
  }

  /** The first frame of a film starts where the first section's frames do, and the frames of the old
      index are all in that section. */
  ghost predicate FirstAt(g: Film) {
    && (g.old_ != [] ==> g.old_[0].offset == 4) && (g.closed == [] && g.old_ == [] ==> g.body == [])
    && (forall k :: 0 <= k < |g.old_| ==> g.old_[k].offset + 4 + g.old_[k].size <= |FirstBody(g)|)
  }

  lemma AddedFirst(g: Film, data: seq<byte>)
    requires FirstAt(g)
    ensures FirstAt(Added(g, data))
  {
    ContentLength(g);
    if g.closed == [] { FirstContent(g); }
  }

  lemma RolledFirst(g: Film)
    requires FirstAt(g)
    ensures FirstAt(Rolled(g))
  {
  }

  lemma DataFirst(w: W.Writer, g: Film, data: seq<byte>)
    requires FirstAt(g)
    ensures FirstAt(DataAdded(w, g, data))
  {
    AddedFirst(g, data);
    RolledFirst(g);
    AddedFirst(Rolled(g), data);
  }

  lemma {:induction false} RunFirst(w: W.Writer, g: Film, datas: seq<seq<byte>>)
    requires W.InUse(w) && FirstAt(g)
    ensures FirstAt(AllAdded(w, g, datas))
    decreases |datas|
  {
    if datas != [] {
      var n := |datas| - 1;
      RunFirst(w, g, datas[..n]);
      DataFirst(AllWritten(w, datas[..n]), AllAdded(w, g, datas[..n]), datas[n]);
    }
  }

  /** The old index has every frame as long as there is one section, and not the last one after. */
  ghost predicate OldHasFirst(g: Film) {
    if g.closed == [] then |g.old_| == |g.frames| else |g.old_| < |g.frames|
  }

  lemma {:induction false} RunOld(w: W.Writer, g: Film, datas: seq<seq<byte>>)
    requires W.InUse(w) && OldHasFirst(g)
    ensures OldHasFirst(AllAdded(w, g, datas))
    decreases |datas|
  {
    if datas != [] { RunOld(w, g, datas[..|datas| - 1]); }
  }

  /** A film without OpenDML whose file the reader is made for. */
  ghost predicate Simple(g: Film) {
    && Good(g) && Plain(g.h) && g.h.strh[8..12] != AUDS && FirstAt(g)
    && SmallSections(Closing(g).h, Closing(g).closed + [Closing(g).body], OldBytes(g.old_))
  }

  lemma SimpleFits(g: Film)
    requires Good(g) && Plain(g.h)
    ensures Fits(g)
  {
  }

  lemma CountedType(block: seq<byte>, n: nat)
    requires |block| == STRH_SIZE
    ensures W.Counted(block, W.LENGTH_OFFSET, n)[8..12] == block[8..12]
  {
  }

  lemma FileParts(g: Film)
    requires Simple(g)
    ensures var h, closed := Closing(g).h, Closing(g).closed + [Closing(g).body];
      && FinalFile(g) == Before(h, closed, OldBytes(g.old_)) && Plain(h) && h.strh[8..12] != AUDS
      && SameSizes(g.h, h) && closed == g.closed + [g.body] && BodyStart(h, 0, 0) == BodyStart(g.h, 0, 0)
  {
    SimpleFits(g);
    ClosingSame(g);
    ClosingHeaders(g);
    SameLengths(g.h, Closing(g).h);
    SameParts(g);
    CountedType(g.h.strh, |g.frames|);
  }

  lemma FilmReadable(g: Film)
    requires Simple(g)
    ensures Readable(FinalFile(g), Closing(g).h, g.closed + [g.body], OldBytes(g.old_), [])
  {
    FileParts(g);
    WholeHeld(FinalFile(g));
  }

  /** What the first section's RIFF size says. */
  function FirstSize(g: Film): int
    requires Simple(g)
  {
    |Section(Closing(g).h, 0, FirstBody(g), OldBytes(g.old_))| - 8
  }

  lemma SizeHeld(g: Film)
    requires Simple(g)
    ensures 4 <= FirstSize(g) < WORD && 12 <= |FinalFile(g)| && SizeAt(FinalFile(g), 4, FirstSize(g))
    ensures Small(g.old_)
  {
    FilmReadable(g);
    assert (g.closed + [g.body])[0] == FirstBody(g);
    FirstSizeHeld(FinalFile(g), Closing(g).h, g.closed + [g.body], OldBytes(g.old_), []);
  }

  lemma EntryLeads(s: seq<byte>, m: nat, e: OldEntry, f: AviIndex.Frame, data: seq<byte>)
    requires Holds(s, f.pos, Chunk(FRAME, data)) && f.len == |data| && e.offset == f.pos - m && e.size == f.len
    ensures Leads(s, m, Entry(FRAME, KEYFRAME, e.offset, e.size), data, true)
  {
  }

  /** Every entry of the old index leads to its frame's chunk, from the first `movi`. */
  lemma EntriesLead(g: Film)
    requires Simple(g)
    ensures var es := EntriesOf(g.old_);
      |es| <= |g.datas| && forall k :: 0 <= k < |es| ==> Leads(FinalFile(g), FirstMovi(g), es[k], g.datas[k], true)
  {
    SimpleFits(g);
    FinishedKeepsFrames(g);
    forall k | 0 <= k < |g.old_| ensures Leads(FinalFile(g), FirstMovi(g), EntriesOf(g.old_)[k], g.datas[k], true) {
      EntryLeads(FinalFile(g), FirstMovi(g), g.old_[k], g.frames[k], g.datas[k]);
    }
  }

  /** A later `open` of the same reader: the entries come after those left from before, unless OpenDML
      entries are left, which then take the place of all. */
  lemma LaterOpen(g: Film, idxs: map<int, seq<Entry>>, odml: map<int, seq<Entry>>)
    requires Simple(g)
    ensures var r := Reopened(FinalFile(g), idxs, odml);
      && Accepted(r) && (odml == map[] ==> r.odml == map[])
      && Ready(r, FinalFile(g), FirstMovi(g),
               if odml == map[] then Listed(idxs, 0) + EntriesOf(g.old_) else Listed(odml, 0), false)
  {
    FileParts(g);
    FilmReadable(g);
    SizeHeld(g);
    var s, h, closed, idx1 := FinalFile(g), Closing(g).h, g.closed + [g.body], OldBytes(g.old_);
    WalkOfFile(s, h, closed, idx1, [], idxs, odml);
    IndexReadBack(idxs, g.old_);
    GatheredOpens(s, Walk(Fresh(s, idxs, odml)), h, |closed|, g.old_, idxs, odml);
  }

  lemma GatheredOpens(s: seq<byte>, r: Reader, h: Headers, n: nat, old_: seq<OldEntry>,
                      idxs: map<int, seq<Entry>>, odml: map<int, seq<Entry>>)
    requires r == Walk(Fresh(s, idxs, odml)) && On(r) && r.s == s
      && Gathered(r, Fresh(s, idxs, odml), h, n, OldBytes(old_), [])
    requires WithEntries(idxs, OldBytes(old_), |OldBytes(old_)| / OLD_SIZE) == Joined(idxs, EntriesOf(old_))
    ensures var r' := Reopened(s, idxs, odml);
      && Accepted(r') && (odml == map[] ==> r'.odml == map[])
      && Ready(r', s, BodyStart(h, 0, 0) - 4,
               if odml == map[] then Listed(idxs, 0) + EntriesOf(old_) else Listed(odml, 0), false)
  {
    assert r.idxs == Joined(idxs, EntriesOf(old_));
    assert Listed(r.idxs, 0) == Listed(idxs, 0) + EntriesOf(old_);
  }

  /** So the frames of a file opened later are listed by their numbers exactly when nothing that stands
      before them, or in their place, is left. */
  lemma LaterOpenIff(g: Film, idxs: map<int, seq<Entry>>, odml: map<int, seq<Entry>>)
    requires Simple(g)
    ensures Listed(Reopened(FinalFile(g), idxs, odml).idxs, 0) == EntriesOf(g.old_)
      <==> (if odml == map[] then Listed(idxs, 0) == [] else Listed(odml, 0) == EntriesOf(g.old_))
  {
    LaterOpen(g, idxs, odml);
    assert |Listed(idxs, 0) + EntriesOf(g.old_)| == |Listed(idxs, 0)| + |EntriesOf(g.old_)|;
    if Listed(idxs, 0) == [] { assert Listed(idxs, 0) + EntriesOf(g.old_) == EntriesOf(g.old_); }
  }

  /** Opening the same file twice lists its frames twice. */
  lemma SecondOpenDoubles(g: Film)
    requires Simple(g)
    ensures var r := Opened(FinalFile(g)); var again := Reopened(FinalFile(g), r.idxs, r.odml);
      Listed(again.idxs, 0) == EntriesOf(g.old_) + EntriesOf(g.old_)
  {
    LaterOpen(g, map[], map[]);
    var r := Opened(FinalFile(g));
    assert Listed(r.idxs, 0) == EntriesOf(g.old_);
    LaterOpen(g, r.idxs, r.odml);
  }

  /** Opening the file the writer left lists the frames of its first section, in order. */
  lemma FilmOpens(g: Film)
    requires Simple(g)
    ensures OpensTo(FinalFile(g), FirstMovi(g), EntriesOf(g.old_))
  {
    LaterOpen(g, map[], map[]);
    assert Listed(map[], 0) + EntriesOf(g.old_) == EntriesOf(g.old_);
  }

  /** What reading frame 0 and then the frames `ks` of an opened file comes to: they read back as they
      were written, exactly when the first section's RIFF size `n` is not the number `00dc` makes. */
  ghost predicate ReadsBackIff(s: seq<byte>, n: int, datas: seq<seq<byte>>, ks: seq<nat>, buf: seq<byte>)
    requires |buf| == 8 && Opened(s).movis != [] && datas != []
  {
    var first := FrameReadFrom(Opened(s), 0, 0, buf);
    && (first.r.useMovi <==> n != Read32(FRAME))
    && (first.r.useMovi ==>
          first.data == datas[0] && first.result == |datas[0]| && Returned(Reads(first.r, ks, buf).1, datas, ks))
  }

  lemma OpenedReadsBack(s: seq<byte>, m: nat, es: seq<Entry>, n: nat, datas: seq<seq<byte>>, ks: seq<nat>,
      buf: seq<byte>)
    requires OpensTo(s, m, es) && 12 <= |s| && SizeAt(s, 4, n) && |buf| == 8
    requires es != [] && es[0].id == FRAME && es[0].offset == 4 && |es| <= |datas| && datas[0] != []
    requires forall k :: 0 <= k < |es| ==> Leads(s, m, es[k], datas[k], true)
    requires forall i :: 0 <= i < |ks| ==> ks[i] < |es|
    ensures ReadsBackIff(s, n, datas, ks, buf)
  {
    var r := Opened(s);
    FirstReadIff(r, buf, s, m, es, datas[0], n);
    var first := FrameReadFrom(r, 0, 0, buf);
    if first.r.useMovi {
      ReadsReturnFrames(first.r, ks, buf, s, m, es, datas, true);
    }
  }

  /** The round trip: after frame 0, which must not be empty, any frames of the first section in any
      order. */
  lemma FilmReadsBack(g: Film, ks: seq<nat>, buf: seq<byte>)
    requires Simple(g) && |buf| == 8 && g.old_ != [] && g.datas[0] != []
    requires forall i :: 0 <= i < |ks| ==> ks[i] < |g.old_|
    ensures OpensTo(FinalFile(g), FirstMovi(g), EntriesOf(g.old_))
      && ReadsBackIff(FinalFile(g), FirstSize(g), g.datas, ks, buf)
  {
    FilmOpens(g);
    SizeHeld(g);
    EntriesLead(g);
    OpenedReadsBack(FinalFile(g), FirstMovi(g), EntriesOf(g.old_), FirstSize(g), g.datas, ks, buf);
  }

  /** A file whose first section the writer kept within its limit has no such size. */
  lemma LimitAvoidsId(g: Film)
    requires Simple(g) && Sized(g)
    ensures FirstSize(g) < W.FIRST_LIMIT < Read32(FRAME)
  {
    SimpleFits(g);
    ClosingSame(g);
    SameSection(g.h, Closing(g).h, 0, FirstBody(g), OldBytes(g.old_));
    RolledSize(g);
    if g.closed != [] { assert SizeOf(g, 0) < Limit(0); }
  }

  /** A recording without OpenDML, none of its frames long enough to wrap the 32-bit count. */
  ghost predicate Made(w: W.Writer, before: W.Writer, h: Headers, datas: seq<seq<byte>>) {
    && Runs.Opened(w, before, h) && !before.openDml && h.strh[8..12] != AUDS && |OpenSection(h, 0, [])| < W.FIRST_LIMIT
    && |datas| <= w.reservedFrames && (forall i :: 0 <= i < |datas| ==> |datas[i]| <= SAFE_FRAME)
  }

  /** What a recording leaves. */
  ghost predicate Leaves(w: W.Writer, h: Headers, datas: seq<seq<byte>>, g: Film, s: seq<byte>) {
    && W.Closable(w) && g == Runs.FilmOf(w, h, datas) && s == Runs.Recorded(w, datas)
    && Simple(g) && s == FinalFile(g) && g.datas == datas && |g.frames| == |datas| && OldHasFirst(g) && Sized(g)
    && AllWritten(w, datas).riffIdx == |g.closed|
  }

  lemma RecordingLeaves(w: W.Writer, before: W.Writer, h: Headers, datas: seq<seq<byte>>)
    requires Made(w, before, h, datas)
    ensures W.Closable(w) && Leaves(w, h, datas, Runs.FilmOf(w, h, datas), Runs.Recorded(w, datas))
  {
    Runs.OpenedAgrees(w, before, h);
    Runs.RecordingHoldsFrames(w, before, h, datas);
    Runs.FilmGood(w, before, h, datas);
    Runs.FilmFrames(w, before, h, datas);
    OpeningSized(h);
    RunSized(w, Opening(h), datas);
    RunFirst(w, Opening(h), datas);
    RunOld(w, Opening(h), datas);
    ClosedSmall(Runs.FilmOf(w, h, datas));
  }

  /** So a recording of frames of sane length opens to an entry for each frame exactly when it needed
      no second section, and, frame 0 not being empty, the frames listed read back whole: frame 0, then
      any in any order. */
  lemma RecordingReadsBack(w: W.Writer, before: W.Writer, h: Headers, datas: seq<seq<byte>>, ks: seq<nat>,
      buf: seq<byte>)
    requires Made(w, before, h, datas) && |buf| == 8
    ensures W.Closable(w)
    ensures var r := Opened(Runs.Recorded(w, datas)); var n := |Listed(r.idxs, 0)|;
      && Accepted(r) && n <= |datas| && (n == |datas| <==> AllWritten(w, datas).riffIdx == 0)
      && (n > 0 && datas[0] != [] && (forall i :: 0 <= i < |ks| ==> ks[i] < n) ==>
            var first := FrameReadFrom(r, 0, 0, buf);
            first.data == datas[0] && Returned(Reads(first.r, ks, buf).1, datas, ks))
  {
    RecordingLeaves(w, before, h, datas);
    var g := Runs.FilmOf(w, h, datas);
    LimitAvoidsId(g);
    FilmOpens(g);
    if g.old_ != [] && datas[0] != [] && forall i :: 0 <= i < |ks| ==> ks[i] < |g.old_| {
      FilmReadsBack(g, ks, buf);
    }
  }

  function Total(datas: seq<seq<byte>>): nat
    decreases |datas|
  {
    if datas == [] then 0 else Total(datas[..|datas| - 1]) + |datas[|datas| - 1]|
  }

  lemma AddedTotal(g: Film, data: seq<byte>)
    ensures Total(Added(g, data).datas) == Total(g.datas) + |data|
  {
    assert (g.datas + [data])[..|g.datas|] == g.datas;
  }

  /** The first section holds all frames as long as there is no second. */
  ghost predicate HoldsTotal(g: Film) {
    g.closed == [] ==> |g.body| >= Total(g.datas)
  }

  lemma {:induction false} RunTotal(w: W.Writer, g: Film, datas: seq<seq<byte>>)
    requires W.InUse(w) && HoldsTotal(g)
    ensures HoldsTotal(AllAdded(w, g, datas))
    decreases |datas|
  {
    if datas != [] {
      var n := |datas| - 1;
      RunTotal(w, g, datas[..n]);
      AddedTotal(AllAdded(w, g, datas[..n]), datas[n]);
    }
  }

  /** A recording of a billion bytes or more, such as four frames of 250 million, needs a second section,
      so some of its frames are not listed. */
  lemma LongRecordingListsPart(w: W.Writer, before: W.Writer, h: Headers, datas: seq<seq<byte>>)
    requires Made(w, before, h, datas) && Total(datas) >= W.FIRST_LIMIT
    ensures W.Closable(w) && |Listed(Opened(Runs.Recorded(w, datas)).idxs, 0)| < |datas|
  {
    RecordingLeaves(w, before, h, datas);
    RunTotal(w, Opening(h), datas);
    var g := Runs.FilmOf(w, h, datas);
    ContentLength(g);
    FilmOpens(g);
  }
}
