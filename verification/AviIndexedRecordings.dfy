/** Recordings made with OpenDML, read back by their indexes: what `open` lists, and which frames
    `read_frame` returns. */
module AviIndexedRecordings {
  import opened Bytes
  import opened Riff
  import opened AviIndex
  import opened AviIndexExact
  import opened AviLayout
  import opened AviSections
  import opened AviFilm
  import W = AviWriter
  import opened AviWriterRuns
  import opened AviClose
  import opened AviSizes
  import opened AviLookup
  import Runs = AviFileRuns
  import opened AviReader
  import opened AviWalk
  import opened AviRoundTrip
  import opened AviIndexedTrip

  // ----- the entries, frame by frame -----

  lemma {:induction false} EntriesLength(idx: seq<StdIndex>, own: seq<Frame>, n: nat)
    requires Shape(idx, own) && n <= |idx|
    ensures |AllEntries(idx[..n])| == if n < |idx| then PER_INDEX * n else |own|
    decreases n
  {
    Counts(|own|);
    if n > 0 {
      EntriesLength(idx, own, n - 1);
      assert idx[..n][..n - 1] == idx[..n - 1];
    }
  }

  lemma {:induction false} EntryPlaced(idx: seq<StdIndex>, own: seq<Frame>, n: nat, j: nat, e: nat)
    requires Shape(idx, own) && j < n <= |idx| && e < |idx[j].entries|
    ensures var es := AllEntries(idx[..n]);
      PER_INDEX * j + e < |es| && es[PER_INDEX * j + e] == EntryFor(idx[j].base, idx[j].entries[e])
    decreases n
  {
    assert idx[..n][..n - 1] == idx[..n - 1];
    EntriesLength(idx, own, n - 1);
    if j < n - 1 { EntryPlaced(idx, own, n - 1, j, e); }
  }

  /** What a frame's entry says of it: its length, less the top bit, and where its bytes start, if that
      is within 32 bits of its index's base. */
  ghost predicate Names(e: Entry, frames: seq<Frame>, k: nat)
    requires k < |frames|
  {
    var f := frames[k];
    && e.id == FRAME && e.size == f.len % HALF && 0 <= e.offset <= f.pos + 8
    && (e.offset == f.pos + 8 <==> f.pos + 8 - GroupBase(frames, k) < WORD)
  }

  /** Where an entry's offset leads. */
  lemma {:induction false} FrameOffset(frames: seq<Frame>, idx: seq<StdIndex>, k: nat)
    requires OneStream(frames) && Ascending(frames) && k < |frames| && idx == Build(1, frames).streams[0]
    ensures var j, e := k / PER_INDEX, k % PER_INDEX;
      && j < |idx| && e < |idx[j].entries| && Names(EntryFor(idx[j].base, idx[j].entries[e]), frames, k)
  {
    EntryFits(frames, idx, k);
    GroupBelow(frames, k);
    SoleStreamOffsets(frames);
    OffsetBelow(frames[k].pos, GroupBase(frames, k));
    assert idx[k / PER_INDEX].entries[k % PER_INDEX].offset == Offset32(frames[k].pos, GroupBase(frames, k));
  }

  lemma {:induction false} FrameNamed(frames: seq<Frame>, idx: seq<StdIndex>, k: nat)
    requires OneStream(frames) && Ascending(frames) && k < |frames| && idx == Build(1, frames).streams[0]
    ensures |AllEntries(idx)| == |frames| && Names(AllEntries(idx)[k], frames, k)
  {
    UsedShape(frames);
    FrameOffset(frames, idx, k);
    EntriesLength(idx, frames, |idx|);
    EntryPlaced(idx, frames, |idx|, k / PER_INDEX, k % PER_INDEX);
    assert idx[..|idx|] == idx;
  }

  lemma OffsetBelow(pos: nat, base: nat)
    requires base <= pos
    ensures base + Offset32(pos, base) <= pos + 8
  {
  }

  lemma GroupBelow(frames: seq<Frame>, k: nat)
    requires Ascending(frames) && k < |frames|
    ensures GroupBase(frames, k) <= frames[k].pos
  {
    var j := k / PER_INDEX * PER_INDEX;
    assert j <= k;
  }

  // ----- the file -----

  lemma WithinFile(s: seq<byte>, frames: seq<Frame>, datas: seq<seq<byte>>, k: nat)
    requires HoldAll(s, frames, datas) && k < |frames|
    ensures frames[k].pos + 8 + frames[k].len <= |s| && frames[k].len == |datas[k]|
    ensures Holds(s, frames[k].pos + 8, datas[k]) && Holds(s, frames[k].pos, FRAME)
  {
    assert Holds(s, frames[k].pos, Chunk(FRAME, datas[k]));
    ChunkHeld(s, frames[k].pos, FRAME, datas[k]);
  }

  lemma {:induction false} EntrySound(s: seq<byte>, frames: seq<Frame>, datas: seq<seq<byte>>, idx: seq<StdIndex>,
      j: nat, e: nat)
    requires OneStream(frames) && Ascending(frames) && HoldAll(s, frames, datas) && |s| < LIMIT63
    requires idx == Build(1, frames).streams[0] && j < |idx| && e < |idx[j].entries|
    requires forall k :: 0 <= k < |frames| ==> frames[k].len < WORD
    ensures var i := idx[j];
      && i.entries[e].offset < WORD && i.entries[e].size < WORD
      && i.base + i.entries[e].offset < LIMIT63
  {
    SoleStreamOffsets(frames);
    Counts(|frames|);
    var k := PER_INDEX * j + e;
    assert idx[j].entries[e].offset == Offset32(frames[k].pos, idx[j].base) && idx[j].entries[e].size == frames[k].len;
    WithinFile(s, frames, datas, k);
    OffsetBelow(frames[k].pos, idx[j].base);
  }

  lemma {:induction false} IndexSound(s: seq<byte>, frames: seq<Frame>, datas: seq<seq<byte>>, idx: seq<StdIndex>,
      j: nat)
    requires OneStream(frames) && Ascending(frames) && HoldAll(s, frames, datas) && |s| < LIMIT63
    requires idx == Build(1, frames).streams[0] && j < |idx|
    requires forall k :: 0 <= k < |frames| ==> frames[k].len < WORD
    ensures Sound(idx[j])
  {
    UsedShape(frames);
    Counts(|frames|);
    if j > 0 { WithinFile(s, frames, datas, PER_INDEX * j); }
    forall e | 0 <= e < |idx[j].entries|
      ensures idx[j].entries[e].offset < WORD && idx[j].entries[e].size < WORD
        && idx[j].base + idx[j].entries[e].offset < LIMIT63
    {
      EntrySound(s, frames, datas, idx, j, e);
    }
  }

  /** A film with OpenDML whose file the reader is made for. */
  ghost predicate ByIndex(g: Film) {
    && Good(g) && |g.h.ext| > 0 && Fits(g) && g.frames != [] && g.h.strh[8..12] != AUDS && |FinalFile(g)| < LIMIT63
    && SmallSections(Closing(g).h, Closing(g).closed + [Closing(g).body], OldBytes(g.old_))
    && (forall k :: 0 <= k < |g.frames| ==> g.frames[k].len < WORD)
  }

  lemma SuperHeadHeld(block: seq<byte>, rows: seq<byte>, n: nat)
    requires SUPER_HEAD + |rows| <= |block|
    ensures Holds(Overwrite(block, 0, SuperHead(|block|, n) + rows), 0, SuperHead(|block|, n))
  {
  }

  lemma ClosingSuperHead(g: Film)
    requires Good(g) && |g.h.ext| > 0 && Fits(g) && g.frames != []
    ensures Holds(Closing(g).h.super, 0, SuperHead(|g.h.super|, |UsedBy(g)|))
  {
    CountWritten(g);
    SameParts(g);
    SuperHeadHeld(g.h.super, SuperEntries(UsedBy(g), |Content(g)|), |UsedBy(g)|);
  }

  lemma IndexesLead(g: Film)
    requires ByIndex(g)
    ensures Leading(SuperEntries(UsedBy(g), |Content(g)|), FinalFile(g), UsedBy(g))
  {
    FinishedKeepsFrames(g);
    AllStdPlaced(g);
    forall j | 0 <= j < |UsedBy(g)| ensures Sound(UsedBy(g)[j]) {
      IndexSound(FinalFile(g), g.frames, g.datas, UsedBy(g), j);
    }
    SupersLead(FinalFile(g), UsedBy(g), |Content(g)|);
  }

  /** Where the super index is in a file, and what its rows lead to. */
  ghost predicate SuperAt(s: seq<byte>, block: nat, idx: seq<StdIndex>, at: nat) {
    && SUPER_HEAD <= block < WORD && |idx| < WORD
    && Holds(s, SUPER_POS, SuperHead(block, |idx|)) && Holds(s, SUPER_POS + SUPER_HEAD, SuperEntries(idx, at))
    && Leading(SuperEntries(idx, at), s, idx)
  }

  lemma SuperTagged(s: seq<byte>, block: nat, n: nat)
    requires SUPER_HEAD <= block < WORD && n < WORD && Holds(s, SUPER_POS, SuperHead(block, n))
    ensures Holds(s, SUPER_POS, INDX)
  {
    SuperFields(block, n);
    Within(s, SUPER_POS, SuperHead(block, n), 0, INDX);
  }

  lemma SuperGoes(r: Reader, super: seq<byte>, idx: seq<StdIndex>, at: nat)
    requires On(r) && r.pos == SUPER_POS && SuperAt(r.s, |super|, idx, at)
    ensures Holds(r.s, SUPER_POS, INDX) && SuperTaken(r.(pos := r.pos + 4)) == SuperPassed(r, super, AllEntries(idx))
  {
    SuperTagged(r.s, |super|, |idx|);
    SuperRead(r.(pos := r.pos + 4), |super|, SuperEntries(idx, at), idx);
  }

  lemma SuperYields(s: seq<byte>, super: seq<byte>, idx: seq<StdIndex>, at: nat)
    requires SuperAt(s, |super|, idx, at)
    ensures Yields(s, super, AllEntries(idx))
  {
    forall r: Reader | r.s == s && On(r) && r.pos == SUPER_POS
      ensures End(r) == End(SuperPassed(r, super, AllEntries(idx)))
    {
      SuperGoes(r, super, idx, at);
      SuperStep(r, SuperPassed(r, super, AllEntries(idx)));
    }
  }

  lemma FileParts(g: Film)
    requires ByIndex(g)
    ensures var h, closed := Closing(g).h, Closing(g).closed + [Closing(g).body];
      && FinalFile(g) == Before(h, closed, OldBytes(g.old_)) && Finished(h) && h.strh[8..12] != AUDS && |h.ext| > 0
      && |h.super| == |g.h.super| && BodyStart(h, 0, 0) == BodyStart(g.h, 0, 0)
  {
    ClosingSame(g);
    ClosingHeaders(g);
    SameLengths(g.h, Closing(g).h);
    ClosingStrh(g);
  }

  lemma ClosingStrh(g: Film)
    requires Shaped(g.h) && OneStream(g.frames) && Fits(g)
    ensures Closing(g).h.strh[8..12] == g.h.strh[8..12]
  {
    CountedShaped(g);
    SameParts(g);
    assert Closing(g).h.strh == W.Counted(g.h.strh, W.LENGTH_OFFSET, |g.frames|);
  }

  lemma BlockSmall(h: Headers, closed: seq<seq<byte>>, idx1: seq<byte>)
    requires SmallSections(h, closed, idx1) && closed != []
    ensures |h.super| < WORD
  {
    assert |Section(h, 0, closed[0], idx1)| < WORD;
  }

  lemma SuperFrom(s: seq<byte>, super: seq<byte>, idx: seq<StdIndex>, at: nat)
    requires SUPER_HEAD + SUPER_ENTRY * |idx| <= |super| < WORD && Leading(SuperEntries(idx, at), s, idx)
    requires Holds(s, SUPER_POS, super) && Holds(super, 0, SuperHead(|super|, |idx|))
    requires Holds(s, SUPER_POS + SUPER_HEAD, SuperEntries(idx, at))
    ensures SuperAt(s, |super|, idx, at)
  {
    Within(s, SUPER_POS, super, 0, SuperHead(|super|, |idx|));
  }

  lemma SuperHeld(g: Film)
    requires ByIndex(g)
    ensures |Closing(g).h.super| == |g.h.super| < WORD && Holds(FinalFile(g), SUPER_POS, Closing(g).h.super)
  {
    ClosingSame(g);
    ClosingHeaders(g);
    BlockSmall(Closing(g).h, Closing(g).closed + [Closing(g).body], OldBytes(g.old_));
    SuperInFile(Rolled(Closing(g)));
  }

  lemma SuperPlaced(g: Film)
    requires ByIndex(g)
    ensures SuperAt(FinalFile(g), |g.h.super|, UsedBy(g), |Content(g)|)
  {
    SuperHeld(g);
    IndexesLead(g);
    SupersPlaced(g);
    ClosingSuperHead(g);
    SuperFrom(FinalFile(g), Closing(g).h.super, UsedBy(g), |Content(g)|);
  }

  lemma FilmReadable(g: Film)
    requires ByIndex(g)
    ensures Readable(FinalFile(g), Closing(g).h, Closing(g).closed + [Closing(g).body], OldBytes(g.old_),
      AllEntries(UsedBy(g)))
  {
    FileParts(g);
    SuperPlaced(g);
    SuperYields(FinalFile(g), Closing(g).h.super, UsedBy(g), |Content(g)|);
    WholeHeld(FinalFile(g));
  }

  lemma EntriesCount(g: Film)
    requires OneStream(g.frames) && g.frames != []
    ensures |AllEntries(UsedBy(g))| == |g.frames|
  {
    UsedShape(g.frames);
    EntriesLength(UsedBy(g), g.frames, |UsedBy(g)|);
    assert UsedBy(g)[..|UsedBy(g)|] == UsedBy(g);
  }

  lemma GatheredOpens(s: seq<byte>, r: Reader, h: Headers, n: nat, idx1: seq<byte>, es: seq<Entry>)
    requires r == Walk(Fresh(s, map[], map[])) && On(r) && r.s == s && es != []
    requires Gathered(r, Fresh(s, map[], map[]), h, n, idx1, es)
    ensures OpensTo(s, BodyStart(h, 0, 0) - 4, es)
  {
    assert Listed(map[], 0) + es == es;
    assert r.odml == map[0 := es];
    assert 0 in r.odml;
  }

  /** Opening the file the writer left, of any number of sections, lists the entries of its standard
      indexes, in order. */
  lemma FilmOpens(g: Film)
    requires ByIndex(g)
    ensures OpensTo(FinalFile(g), BodyStart(g.h, 0, 0) - 4, AllEntries(UsedBy(g)))
  {
    FileParts(g);
    FilmReadable(g);
    EntriesCount(g);
    var s, h, closed, idx1, es := FinalFile(g), Closing(g).h, Closing(g).closed + [Closing(g).body], OldBytes(g.old_),
        AllEntries(UsedBy(g));
    WalkOfFile(s, h, closed, idx1, es, map[], map[]);
    GatheredOpens(s, Walk(Fresh(s, map[], map[])), h, |closed|, idx1, es);
  }

  // ----- reading by index -----

  /** Frame `k`'s entry gives its place and its whole length. */
  ghost predicate InReach(frames: seq<Frame>, k: nat)
    requires k < |frames|
  {
    0 < frames[k].len < HALF && frames[k].pos + 8 - GroupBase(frames, k) < WORD
  }

  lemma LengthKept(n: nat)
    requires n < HALF
    ensures n % HALF == n
  {
  }

  lemma EntryLeads(s: seq<byte>, m: nat, e: Entry, frames: seq<Frame>, datas: seq<seq<byte>>, k: nat)
    requires HoldAll(s, frames, datas) && k < |frames| && Names(e, frames, k) && InReach(frames, k)
    ensures e.offset == frames[k].pos + 8 && e.size == |datas[k]|
    ensures Leads(s, m, e, datas[k], false) <==> Clear(s, m, e)
  {
    WithinFile(s, frames, datas, k);
    LengthKept(frames[k].len);
  }

  /** What the entries of a file say of its frames. */
  ghost predicate AllNamed(es: seq<Entry>, frames: seq<Frame>) {
    |es| == |frames| && forall k :: 0 <= k < |frames| ==> Names(es[k], frames, k)
  }

  lemma FilmNamed(g: Film)
    requires OneStream(g.frames) && Ascending(g.frames) && g.frames != []
    ensures AllNamed(AllEntries(UsedBy(g)), g.frames)
  {
    EntriesCount(g);
    forall k | 0 <= k < |g.frames| ensures Names(AllEntries(UsedBy(g))[k], g.frames, k) {
      FrameNamed(g.frames, UsedBy(g), k);
    }
  }

  /** Reading frame `k` first: the reader lands on its bytes exactly when the two probes miss, and then
      returns them. */
  ghost predicate ReadIff(s: seq<byte>, es: seq<Entry>, data: seq<byte>, k: nat, buf: seq<byte>)
    requires |buf| == 8 && Opened(s).movis != [] && k < |es|
  {
    var r := Opened(s);
    var at := Located(r.(idxs := r.idxs[0 := Listed(r.idxs, 0)]), es[k], buf);
    var f := FrameReadFrom(r, k, 0, buf);
    && (at.good && at.pos == es[k].offset <==> Clear(s, r.movis[0], es[k]))
    && (Clear(s, r.movis[0], es[k]) ==> f.data == data && f.result == |data|)
  }

  lemma OpenedReadIff(s: seq<byte>, m: nat, es: seq<Entry>, frames: seq<Frame>, datas: seq<seq<byte>>, k: nat,
      buf: seq<byte>)
    requires OpensTo(s, m, es) && AllNamed(es, frames) && HoldAll(s, frames, datas) && |buf| == 8
    requires k < |frames| && InReach(frames, k)
    ensures ReadIff(s, es, datas[k], k, buf)
  {
    var r := Opened(s);
    EntryLeads(s, m, es[k], frames, datas, k);
    LandsIff(r.(idxs := r.idxs[0 := Listed(r.idxs, 0)]), es[k], buf);
    if Clear(s, m, es[k]) {
      FrameReadsBack(r, k, buf, s, m, es, datas[k], false);
    }
  }

  /** The frames `ks` can be read: each is in reach and clear of both probes, or empty. */
  ghost predicate Readables(s: seq<byte>, m: nat, es: seq<Entry>, frames: seq<Frame>, ks: seq<nat>) {
    |es| == |frames| &&
    forall i :: 0 <= i < |ks| ==>
        ks[i] < |frames| && (frames[ks[i]].len > 0 ==> InReach(frames, ks[i]) && Clear(s, m, es[ks[i]]))
  }

  lemma EmptyLeads(s: seq<byte>, m: nat, e: Entry, frames: seq<Frame>, datas: seq<seq<byte>>, k: nat)
    requires HoldAll(s, frames, datas) && k < |frames| && Names(e, frames, k) && frames[k].len == 0
    ensures Leads(s, m, e, datas[k], false)
  {
    WithinFile(s, frames, datas, k);
  }

  /** Frames in reach, and clear of the probes, read back in any order and any number of times. */
  lemma OpenedReadsBack(s: seq<byte>, m: nat, es: seq<Entry>, frames: seq<Frame>, datas: seq<seq<byte>>, ks: seq<nat>,
      buf: seq<byte>)
    requires OpensTo(s, m, es) && AllNamed(es, frames) && HoldAll(s, frames, datas) && |buf| == 8
    requires Readables(s, m, es, frames, ks)
    ensures Returned(Reads(Opened(s), ks, buf).1, datas, ks)
  {
    forall i | 0 <= i < |ks| ensures Leads(s, m, es[ks[i]], datas[ks[i]], false) {
      if frames[ks[i]].len == 0 {
        EmptyLeads(s, m, es[ks[i]], frames, datas, ks[i]);
      } else {
        EntryLeads(s, m, es[ks[i]], frames, datas, ks[i]);
      }
    }
    ReadsReturnFrames(Opened(s), ks, buf, s, m, es, datas, false);
  }

  // ----- whole recordings -----

  /** A recording with OpenDML of at least one frame, which `open` left room for, none of them long
      enough to wrap the 32-bit count, with indexes below 295 MB. */
  ghost predicate Made(w: W.Writer, before: W.Writer, h: Headers, datas: seq<seq<byte>>) {
    && Runs.Opened(w, before, h) && before.openDml && h.strh[8..12] != AUDS && |OpenSection(h, 0, [])| < W.FIRST_LIMIT
    && datas != [] && |datas| <= w.reservedFrames && Runs.Room(before, |datas|)
    && IndexBytes(|datas|) <= WORD - W.LATER_LIMIT
    && (forall i :: 0 <= i < |datas| ==> |datas[i]| <= SAFE_FRAME)
  }

  /** The film a recording makes and the file it leaves. */
  ghost predicate Leaves(w: W.Writer, h: Headers, datas: seq<seq<byte>>, g: Film, s: seq<byte>) {
    && W.Closable(w) && g == Runs.FilmOf(w, h, datas) && s == Runs.Recorded(w, datas)
    && ByIndex(g) && s == FinalFile(g) && g.h == h && g.datas == datas && |g.frames| == |datas|
    && HoldAll(s, g.frames, datas)
  }

  lemma RecordingLeaves(w: W.Writer, before: W.Writer, h: Headers, datas: seq<seq<byte>>)
    requires Made(w, before, h, datas)
    ensures W.Closable(w) && Leaves(w, h, datas, Runs.FilmOf(w, h, datas), Runs.Recorded(w, datas))
  {
    Runs.OpenedAgrees(w, before, h);
    Runs.RecordingHoldsFrames(w, before, h, datas);
    Runs.FilmFrames(w, before, h, datas);
    OpeningSized(h);
    RunSized(w, Opening(h), datas);
    FewSections(w, Opening(h), datas);
    var g := Runs.FilmOf(w, h, datas);
    ClosedSmall(g);
    FileBounded(g);
    assert forall k :: 0 <= k < |g.frames| ==> g.frames[k].len == |g.datas[k]| < WORD;
  }

  /** The entries `open` lists of a recording: one a frame, in order, with the frame's length; each
      gives the place of the frame's bytes exactly when that is within 32 bits of its index's base. */
  ghost predicate ListedByIndex(s: seq<byte>, frames: seq<Frame>, datas: seq<seq<byte>>) {
    var es := Listed(Opened(s).idxs, 0);
    && Accepted(Opened(s)) && |es| == |datas| == |frames|
    && forall k :: 0 <= k < |datas| ==>
      && es[k].id == FRAME && es[k].size == |datas[k]| && Holds(s, frames[k].pos + 8, datas[k])
      && (es[k].offset == frames[k].pos + 8 <==> frames[k].pos + 8 - GroupBase(frames, k) < WORD)
  }

  lemma NamedIsListed(s: seq<byte>, m: nat, es: seq<Entry>, frames: seq<Frame>, datas: seq<seq<byte>>)
    requires OpensTo(s, m, es) && AllNamed(es, frames) && HoldAll(s, frames, datas)
    requires forall k :: 0 <= k < |datas| ==> |datas[k]| < HALF
    ensures ListedByIndex(s, frames, datas)
  {
    forall k | 0 <= k < |datas| ensures es[k].size == |datas[k]| && Holds(s, frames[k].pos + 8, datas[k]) {
      assert Names(es[k], frames, k);
      WithinFile(s, frames, datas, k);
      LengthKept(|datas[k]|);
    }
  }

  lemma RecordingOpensByIndex(w: W.Writer, before: W.Writer, h: Headers, datas: seq<seq<byte>>)
    requires Made(w, before, h, datas)
    ensures W.Closable(w) && ListedByIndex(Runs.Recorded(w, datas), Runs.FilmOf(w, h, datas).frames, datas)
  {
    RecordingLeaves(w, before, h, datas);
    var g := Runs.FilmOf(w, h, datas);
    FilmOpens(g);
    FilmNamed(g);
    NamedIsListed(FinalFile(g), BodyStart(h, 0, 0) - 4, AllEntries(UsedBy(g)), g.frames, datas);
  }

  /** Frame `k` of a recording, read first, is read from its own bytes exactly when neither probe of
      the reader takes what it finds for a chunk's id. */
  lemma RecordingReadIff(w: W.Writer, before: W.Writer, h: Headers, datas: seq<seq<byte>>, k: nat, buf: seq<byte>)
    requires Made(w, before, h, datas) && k < |datas| && |buf| == 8
    ensures W.Closable(w) && ListedByIndex(Runs.Recorded(w, datas), Runs.FilmOf(w, h, datas).frames, datas)
    ensures var s, frames := Runs.Recorded(w, datas), Runs.FilmOf(w, h, datas).frames;
      InReach(frames, k) ==> ReadIff(s, Listed(Opened(s).idxs, 0), datas[k], k, buf)
  {
    RecordingOpensByIndex(w, before, h, datas);
    RecordingLeaves(w, before, h, datas);
    var g := Runs.FilmOf(w, h, datas);
    FilmOpens(g);
    FilmNamed(g);
    if InReach(g.frames, k) {
      OpenedReadIff(FinalFile(g), BodyStart(h, 0, 0) - 4, AllEntries(UsedBy(g)), g.frames, datas, k, buf);
    }
  }

  /** So all such frames read back, over any number of sections and indexes, in any order. */
  lemma RecordingReadsByIndex(w: W.Writer, before: W.Writer, h: Headers, datas: seq<seq<byte>>, ks: seq<nat>,
      buf: seq<byte>)
    requires Made(w, before, h, datas) && |buf| == 8
    ensures W.Closable(w)
    ensures var s, frames := Runs.Recorded(w, datas), Runs.FilmOf(w, h, datas).frames; var r := Opened(s);
      && r.movis != []
      && (Readables(s, r.movis[0], Listed(r.idxs, 0), frames, ks) ==> Returned(Reads(r, ks, buf).1, datas, ks))
  {
    RecordingLeaves(w, before, h, datas);
    var g := Runs.FilmOf(w, h, datas);
    FilmOpens(g);
    FilmNamed(g);
    var s, m, es := FinalFile(g), BodyStart(h, 0, 0) - 4, AllEntries(UsedBy(g));
    if Readables(s, m, es, g.frames, ks) {
      OpenedReadsBack(s, m, es, g.frames, datas, ks, buf);
    }
  }
}
