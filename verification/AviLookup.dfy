/** Following the indexes of a finished file, byte by byte, the way the OpenDML format says a player
    does: super index entry, standard index, entry, frame. */
module AviLookup {
  import opened Bytes
  import opened Riff
  import opened AviIndex
  import opened AviIndexExact
  import opened AviLayout
  import opened AviSections
  import opened AviFilm
  import opened AviClose

  /** Where the super index at `super` says standard index `j` is. */
  function IndexPlace(s: seq<byte>, super: nat, j: nat): nat
    requires super + SUPER_HEAD + SUPER_ENTRY * (j + 1) <= |s|
  {
    var p := super + SUPER_HEAD + SUPER_ENTRY * j;
    Read64(s[p..p + 8])
  }

  datatype Found = Found(pos: nat, size: nat)

  /** What entry `e` of the standard index at `q` stands for. */
  function EntryFound(s: seq<byte>, q: nat, e: nat): Found
    requires q + STD_HEAD + STD_ENTRY * (e + 1) <= |s|
  {
    var p := q + STD_HEAD + STD_ENTRY * e;
    Found(Read64(s[q + 20..q + 28]) + Read32(s[p..p + 4]), Read32(s[p + 4..p + 8]))
  }

  // ----- the parts of the blocks -----

  lemma LeftHolds(a: seq<byte>, b: seq<byte>, p: nat, d: seq<byte>)
    requires Holds(a, p, d)
    ensures Holds(a + b, p, d)
  {
    SliceLeft(a, b, p, p + |d|);
  }

  lemma RightHolds(a: seq<byte>, b: seq<byte>)
    ensures Holds(a + b, |a|, b)
  {
  }

  lemma {:induction false} StdEntryAt(es: seq<StdEntry>, e: nat)
    requires e < |es|
    ensures Holds(StdEntries(es), STD_ENTRY * e, StdEntryBytes(es[e]))
    decreases |es|
  {
    var n := |es| - 1;
    if e < n {
      StdEntryAt(es[..n], e);
      LeftHolds(StdEntries(es[..n]), StdEntryBytes(es[n]), STD_ENTRY * e, StdEntryBytes(es[e]));
    } else {
      RightHolds(StdEntries(es[..n]), StdEntryBytes(es[n]));
    }
  }

  lemma SuperEntryStays(idx: seq<StdIndex>, at: nat, n: nat, p: nat, e: seq<byte>)
    requires n < |idx| && Holds(SuperEntries(idx[..n], at), p, e)
    ensures Holds(SuperEntries(idx[..n + 1], at), p, e)
  {
    SuperEntriesMore(idx, at, n);
    LeftHolds(SuperEntries(idx[..n], at), SuperEntryBytes(at + |AllStd(idx[..n])|, idx[n]), p, e);
  }

  lemma SuperEntryAdded(idx: seq<StdIndex>, at: nat, n: nat)
    requires n < |idx|
    ensures Holds(SuperEntries(idx[..n + 1], at), SUPER_ENTRY * n, SuperEntryBytes(at + |AllStd(idx[..n])|, idx[n]))
  {
    SuperEntriesMore(idx, at, n);
    RightHolds(SuperEntries(idx[..n], at), SuperEntryBytes(at + |AllStd(idx[..n])|, idx[n]));
  }

  lemma {:induction false} SuperEntryKept(idx: seq<StdIndex>, at: nat, n: nat, m: nat, p: nat, e: seq<byte>)
    requires n <= m <= |idx| && Holds(SuperEntries(idx[..n], at), p, e)
    ensures Holds(SuperEntries(idx[..m], at), p, e)
    decreases m
  {
    if n < m {
      SuperEntryKept(idx, at, n, m - 1, p, e);
      SuperEntryStays(idx, at, m - 1, p, e);
    }
  }

  lemma SuperEntryAt(idx: seq<StdIndex>, at: nat, j: nat)
    requires j < |idx|
    ensures Holds(SuperEntries(idx, at), SUPER_ENTRY * j, SuperEntryBytes(at + |AllStd(idx[..j])|, idx[j]))
  {
    SuperEntryAdded(idx, at, j);
    SuperEntryKept(idx, at, j + 1, |idx|, SUPER_ENTRY * j, SuperEntryBytes(at + |AllStd(idx[..j])|, idx[j]));
    assert idx[..|idx|] == idx;
  }

  lemma {:induction false} AllStdAt(idx: seq<StdIndex>, j: nat)
    requires j < |idx|
    ensures Holds(AllStd(idx), |AllStd(idx[..j])|, StdBytes(idx[j]))
    decreases |idx|
  {
    var n := |idx| - 1;
    if j < n {
      AllStdAt(idx[..n], j);
      assert idx[..n][..j] == idx[..j];
      LeftHolds(AllStd(idx[..n]), StdBytes(idx[n]), |AllStd(idx[..j])|, StdBytes(idx[j]));
    } else {
      RightHolds(AllStd(idx[..n]), StdBytes(idx[n]));
    }
  }

  lemma StdParts(i: StdIndex, e: nat)
    requires e < |i.entries|
    ensures var b := StdBytes(i);
      && Holds(b, 0, IX00) && Holds(b, 20, LE64(i.base))
      && Holds(b, STD_HEAD + STD_ENTRY * e, StdEntryBytes(i.entries[e]))
  {
    StdEntryAt(i.entries, e);
    var fields, entries := StdFields(i), StdEntries(i.entries);
    var head := IX00 + LE32(|fields + entries|);
    RightHolds(head + fields, entries);
    Regroup(head, fields, entries);
    Within(StdBytes(i), STD_HEAD, entries, STD_ENTRY * e, StdEntryBytes(i.entries[e]));
    Middle(head, fields, entries);
    Middle(LE16(2) + [0, 1] + LE32(|i.entries|) + FRAME, LE64(i.base), LE32(0));
    Within(StdBytes(i), 8, fields, 12, LE64(i.base));
  }

  // ----- where they are in the file -----

  lemma SubSlice(s: seq<byte>, p: nat, d: seq<byte>, i: nat, j: nat)
    requires Holds(s, p, d) && i <= j <= |d|
    ensures s[p + i..p + j] == d[i..j]
  {
    forall k | 0 <= k < j - i ensures s[p + i..p + j][k] == d[i..j][k] {
      assert s[p..p + |d|][i + k] == d[i + k];
    }
  }

  lemma Within(s: seq<byte>, p: nat, d: seq<byte>, q: nat, e: seq<byte>)
    requires Holds(s, p, d) && Holds(d, q, e)
    ensures Holds(s, p + q, e)
  {
    SubSlice(s, p, d, q, q + |e|);
  }

  lemma Middle(a: seq<byte>, d: seq<byte>, z: seq<byte>)
    ensures Holds(a + (d + z), |a|, d) && Holds(a + d + z, |a|, d)
  {
  }

  lemma BodyInSection(h: Headers, i: nat, body: seq<byte>, idx1: seq<byte>)
    ensures Holds(Section(h, i, body, idx1), BodyStart(h, i, 0), body)
  {
    var movi, tail := List(LIST, MOVI, body), Tail(i, idx1);
    var inner := Head(h, i) + (movi + tail);
    var size := LE32(4 + |inner|);
    Middle(RIFF + size + Form(i), inner, []);
    assert RIFF + size + Form(i) + inner + [] == Section(h, i, body, idx1);
    Middle(Head(h, i), movi, tail);
    Middle(LIST + LE32(4 + |body|) + MOVI, body, []);
    assert LIST + LE32(4 + |body|) + MOVI + body + [] == movi;
    Within(inner, |Head(h, i)|, movi, 12, body);
    Within(Section(h, i, body, idx1), 12, inner, |Head(h, i)| + 12, body);
  }

  /** The bytes of the open section stay where they are when it is finished. */
  lemma BodyInFile(g: Film)
    ensures Holds(Done(Rolled(g)), Start(g), g.body)
  {
    BeforeMore(g.h, g.closed, g.body, OldBytes(g.old_));
    var section := Section(g.h, |g.closed|, g.body, OldBytes(g.old_));
    BodyInSection(g.h, |g.closed|, g.body, OldBytes(g.old_));
    Middle(Done(g), section, []);
    assert Done(g) + section + [] == Done(Rolled(g));
    Within(Done(Rolled(g)), |Done(g)|, section, BodyStart(g.h, |g.closed|, 0), g.body);
  }

  lemma SuperInHdrl(h: Headers)
    requires Shaped(h)
    ensures Holds(Hdrl(h), SUPER_POS - 12, h.super)
  {
    var strf := Chunk(STRF, h.bmi);
    var strl := List(LIST, STRL, StrlBody(h));
    Middle(h.strh + strf, h.super, []);
    assert h.strh + strf + h.super + [] == StrlBody(h);
    Middle(LIST + LE32(4 + |StrlBody(h)|) + STRL, StrlBody(h), []);
    assert LIST + LE32(4 + |StrlBody(h)|) + STRL + StrlBody(h) + [] == strl;
    Within(strl, 12, StrlBody(h), STRH_SIZE + 8 + BMI_SIZE, h.super);
    Middle(h.avih, strl, OdmlList(h));
    Within(HdrlBody(h), AVIH_SIZE, strl, 12 + STRH_SIZE + 8 + BMI_SIZE, h.super);
    Middle(LIST + LE32(4 + |HdrlBody(h)|) + HDRL, HdrlBody(h), []);
    assert LIST + LE32(4 + |HdrlBody(h)|) + HDRL + HdrlBody(h) + [] == Hdrl(h);
    Within(Hdrl(h), 12, HdrlBody(h), AVIH_SIZE + 12 + STRH_SIZE + 8 + BMI_SIZE, h.super);
  }

  lemma SuperInFile(g: Film)
    requires Shaped(g.h) && g.closed != []
    ensures Holds(Done(g), SUPER_POS, g.h.super)
  {
    var a, z := HeaderBefore(g.h, g.h, g.closed, OldBytes(g.old_));
    Middle(a, Hdrl(g.h), z);
    SuperInHdrl(g.h);
    Within(Done(g), 12, Hdrl(g.h), SUPER_POS - 12, g.h.super);
  }

  lemma OverwriteHolds(b: seq<byte>, head: seq<byte>, tail: seq<byte>)
    requires |head| + |tail| <= |b|
    ensures Holds(Overwrite(b, 0, head + tail), |head|, tail)
  {
  }

  lemma ClosingSuper(g: Film)
    requires Good(g) && |g.h.ext| > 0 && Fits(g)
    ensures Holds(Closing(g).h.super, SUPER_HEAD, SuperEntries(UsedBy(g), |Content(g)|))
  {
    CountWritten(g);
    SameParts(g);
    OverwriteHolds(g.h.super, SuperHead(|g.h.super|, |Build(1, g.frames).streams[0]|),
      SuperEntries(UsedBy(g), |Content(g)|));
  }

  lemma SupersPlaced(g: Film)
    requires Good(g) && |g.h.ext| > 0 && Fits(g)
    ensures Holds(FinalFile(g), SUPER_POS + SUPER_HEAD, SuperEntries(UsedBy(g), |Content(g)|))
  {
    ClosingHeaders(g);
    SuperInFile(Rolled(Closing(g)));
    ClosingSuper(g);
    Within(FinalFile(g), SUPER_POS, Closing(g).h.super, SUPER_HEAD, SuperEntries(UsedBy(g), |Content(g)|));
  }

  lemma ClosingBodyPlaced(g: Film)
    requires Shaped(g.h) && OneStream(g.frames) && |g.h.ext| > 0 && Fits(g)
    ensures Holds(FinalFile(g), Start(g), g.body + AllStd(UsedBy(g)))
  {
    ClosingSame(g);
    ClosingStart(g);
    BodyInFile(Closing(g));
  }

  lemma TailPlaced(s: seq<byte>, p: nat, a: seq<byte>, b: seq<byte>)
    requires Holds(s, p, a + b)
    ensures Holds(s, p + |a|, b)
  {
    RightHolds(a, b);
    Within(s, p, a + b, |a|, b);
  }

  lemma AllStdPlaced(g: Film)
    requires Shaped(g.h) && OneStream(g.frames) && |g.h.ext| > 0 && Fits(g)
    ensures Holds(FinalFile(g), |Content(g)|, AllStd(UsedBy(g)))
  {
    ClosingBodyPlaced(g);
    var s, all := FinalFile(g), AllStd(UsedBy(g));
    TailPlaced(s, Start(g), g.body, all);
    var n := |Content(g)|;
    assert n == Start(g) + |g.body| by { ContentLength(g); }
    assert Holds(s, n, all);
  }

  // ----- reading them back -----

  lemma PlaceRead(s: seq<byte>, super: nat, j: nat, q: nat, i: StdIndex)
    requires Holds(s, super + SUPER_HEAD + SUPER_ENTRY * j, SuperEntryBytes(q, i)) && q < WORD64
    ensures IndexPlace(s, super, j) == q
  {
    var p := super + SUPER_HEAD + SUPER_ENTRY * j;
    Middle([], LE64(q), LE32(STD_HEAD + STD_ENTRY * |i.entries|) + LE32(|i.entries|));
    assert [] + (LE64(q) + (LE32(STD_HEAD + STD_ENTRY * |i.entries|) + LE32(|i.entries|))) == SuperEntryBytes(q, i);
    Within(s, p, SuperEntryBytes(q, i), 0, LE64(q));
    Read64LE64(q);
  }

  lemma BaseRead(s: seq<byte>, q: nat, i: StdIndex, e: nat)
    requires Holds(s, q, StdBytes(i)) && e < |i.entries| && i.base < WORD64
    ensures Holds(s, q + STD_HEAD + STD_ENTRY * e, StdEntryBytes(i.entries[e]))
    ensures Read64(s[q + 20..q + 28]) == i.base && s[q..q + 4] == IX00
  {
    StdParts(i, e);
    Within(s, q, StdBytes(i), 0, IX00);
    Within(s, q, StdBytes(i), 20, LE64(i.base));
    Within(s, q, StdBytes(i), STD_HEAD + STD_ENTRY * e, StdEntryBytes(i.entries[e]));
    Read64LE64(i.base);
  }

  lemma EntryRead(s: seq<byte>, p: nat, entry: StdEntry)
    requires Holds(s, p, StdEntryBytes(entry)) && entry.offset < WORD && entry.size < WORD
    ensures Read32(s[p..p + 4]) == entry.offset && Read32(s[p + 4..p + 8]) == entry.size
  {
    SubSlice(s, p, StdEntryBytes(entry), 0, 4);
    SubSlice(s, p, StdEntryBytes(entry), 4, 8);
    Read32LE32(entry.offset);
    Read32LE32(entry.size);
  }

  lemma PlaceOf(s: seq<byte>, idx: seq<StdIndex>, at: nat, j: nat)
    requires Holds(s, SUPER_POS + SUPER_HEAD, SuperEntries(idx, at)) && j < |idx| && at + |AllStd(idx[..j])| < WORD64
    ensures SUPER_POS + SUPER_HEAD + SUPER_ENTRY * (j + 1) <= |s|
      && IndexPlace(s, SUPER_POS, j) == at + |AllStd(idx[..j])|
  {
    var q := at + |AllStd(idx[..j])|;
    SuperEntryAt(idx, at, j);
    Within(s, SUPER_POS + SUPER_HEAD, SuperEntries(idx, at), SUPER_ENTRY * j, SuperEntryBytes(q, idx[j]));
    PlaceRead(s, SUPER_POS, j, q, idx[j]);
  }

  lemma StdOf(s: seq<byte>, idx: seq<StdIndex>, at: nat, j: nat)
    requires Holds(s, at, AllStd(idx)) && j < |idx|
    ensures Holds(s, at + |AllStd(idx[..j])|, StdBytes(idx[j]))
  {
    AllStdAt(idx, j);
    Within(s, at, AllStd(idx), |AllStd(idx[..j])|, StdBytes(idx[j]));
  }

  lemma EntryOf(s: seq<byte>, q: nat, i: StdIndex, e: nat)
    requires Holds(s, q, StdBytes(i)) && e < |i.entries| && i.base < WORD64 && i.entries[e].offset < WORD
      && i.entries[e].size < WORD
    ensures s[q..q + 4] == IX00 && EntryFound(s, q, e) == Found(i.base + i.entries[e].offset, i.entries[e].size)
  {
    BaseRead(s, q, i, e);
    EntryRead(s, q + STD_HEAD + STD_ENTRY * e, i.entries[e]);
  }

  /** Reading super entry `j` and then entry `e` of the index it leads to. */
  lemma IndexesRead(s: seq<byte>, idx: seq<StdIndex>, at: nat, j: nat, e: nat)
    requires Holds(s, SUPER_POS + SUPER_HEAD, SuperEntries(idx, at)) && Holds(s, at, AllStd(idx)) && |s| < WORD64
    requires j < |idx| && e < |idx[j].entries|
    requires idx[j].base < WORD64 && idx[j].entries[e].offset < WORD && idx[j].entries[e].size < WORD
    ensures SUPER_POS + SUPER_HEAD + SUPER_ENTRY * (j + 1) <= |s|
    ensures var q := IndexPlace(s, SUPER_POS, j);
      && q + STD_HEAD + STD_ENTRY * (e + 1) <= |s| && s[q..q + 4] == IX00
      && EntryFound(s, q, e) == Found(idx[j].base + idx[j].entries[e].offset, idx[j].entries[e].size)
  {
    StdOf(s, idx, at, j);
    PlaceOf(s, idx, at, j);
    EntryOf(s, at + |AllStd(idx[..j])|, idx[j], e);
  }

  lemma FinalIndexesRead(g: Film, j: nat, e: nat)
    requires Good(g) && |g.h.ext| > 0 && Fits(g) && |FinalFile(g)| < WORD64
    requires j < |UsedBy(g)| && e < |UsedBy(g)[j].entries|
    requires var i := UsedBy(g)[j]; i.base < WORD64 && i.entries[e].offset < WORD && i.entries[e].size < WORD
    ensures var s := FinalFile(g);
      && SUPER_POS + SUPER_HEAD + SUPER_ENTRY * (j + 1) <= |s|
      && var q := IndexPlace(s, SUPER_POS, j);
      && q + STD_HEAD + STD_ENTRY * (e + 1) <= |s| && s[q..q + 4] == IX00
      && EntryFound(s, q, e) == Found(UsedBy(g)[j].base + UsedBy(g)[j].entries[e].offset, UsedBy(g)[j].entries[e].size)
  {
    SupersPlaced(g);
    AllStdPlaced(g);
    IndexesRead(FinalFile(g), UsedBy(g), |Content(g)|, j, e);
  }

  lemma FramePlaced(g: Film, k: nat)
    requires Good(g) && Fits(g) && k < |g.frames|
    ensures Holds(FinalFile(g), g.frames[k].pos + 8, g.datas[k]) && |g.datas[k]| == g.frames[k].len
  {
    FinishedKeepsFrames(g);
    RightHolds(FRAME + LE32(|g.datas[k]|), g.datas[k]);
    Within(FinalFile(g), g.frames[k].pos, Chunk(FRAME, g.datas[k]), 8, g.datas[k]);
  }

  lemma FramesWithin(g: Film, k: nat)
    requires Good(g) && Fits(g) && k < |g.frames| && |FinalFile(g)| < WORD64
    ensures GroupBase(g.frames, k) < WORD64
  {
    if k >= PER_INDEX { FramePlaced(g, k / PER_INDEX * PER_INDEX); }
  }

  lemma {:induction false} EntryFits(frames: seq<Frame>, idx: seq<StdIndex>, k: nat)
    requires OneStream(frames) && Ascending(frames) && k < |frames| && idx == Build(1, frames).streams[0]
    ensures var j, e := k / PER_INDEX, k % PER_INDEX;
      && j < |idx| && e < |idx[j].entries| && idx[j].entries[e].offset < WORD && idx[j].base == GroupBase(frames, k)
      && idx[j].entries[e].size == frames[k].len
      && (idx[j].base + idx[j].entries[e].offset == frames[k].pos + 8 <==>
            frames[k].pos + 8 - GroupBase(frames, k) < WORD)
  {
    EntryExactIff(frames, k);
    SoleStreamOffsets(frames);
    EntryPlace(|frames|, k);
    assert idx[k / PER_INDEX].entries[k % PER_INDEX].offset == Offset32(frames[k].pos, idx[k / PER_INDEX].base);
  }

  lemma {:induction false} FrameEntry(g: Film, k: nat)
    requires OneStream(g.frames) && Ascending(g.frames) && k < |g.frames|
    ensures var idx, j, e := UsedBy(g), k / PER_INDEX, k % PER_INDEX;
      && j < |idx| && e < |idx[j].entries| && idx[j].entries[e].offset < WORD && idx[j].base == GroupBase(g.frames, k)
      && idx[j].entries[e].size == g.frames[k].len
      && (idx[j].base + idx[j].entries[e].offset == g.frames[k].pos + 8 <==>
            g.frames[k].pos + 8 - GroupBase(g.frames, k) < WORD)
  {
    EntryFits(g.frames, UsedBy(g), k);
  }

  /** In the file `close` leaves, over any number of index and section roll-overs: super index entry
      `k / 2043` leads to a standard index, and its entry `k % 2043` has frame `k`'s length and leads
      to frame `k`'s bytes exactly when they start within 32 bits of the index's base. */
  lemma IndexesLeadToFrames(g: Film, k: nat)
    requires Good(g) && |g.h.ext| > 0 && Fits(g) && k < |g.frames| && |FinalFile(g)| < WORD64 && |g.datas[k]| < WORD
    ensures var s := FinalFile(g); var j, e := k / PER_INDEX, k % PER_INDEX;
      && SUPER_POS + SUPER_HEAD + SUPER_ENTRY * (j + 1) <= |s|
      && var q := IndexPlace(s, SUPER_POS, j);
      && q + STD_HEAD + STD_ENTRY * (e + 1) <= |s| && s[q..q + 4] == IX00
      && var found := EntryFound(s, q, e);
      && found.size == |g.datas[k]|
      && (found.pos == g.frames[k].pos + 8 <==> g.frames[k].pos + 8 - GroupBase(g.frames, k) < WORD)
      && Holds(s, g.frames[k].pos + 8, g.datas[k])
  {
    var j, e := k / PER_INDEX, k % PER_INDEX;
    FramePlaced(g, k);
    FramesWithin(g, k);
    FrameEntry(g, k);
    FinalIndexesRead(g, j, e);
  }
}
