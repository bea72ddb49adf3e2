/** The old index read back, and frames read by it: entries count from the first `movi`. */
module AviRoundTrip {
  import opened Bytes
  import opened Riff
  import opened AviLayout
  import opened AviFilm
  import opened AviReader
  import opened AviLookup
  import opened AviWalk

  /** Plain headers: no OpenDML blocks. */
  ghost predicate Plain(h: Headers) {
    Shaped(h) && |h.ext| == 0
  }

  // ----- the index -----

  function EntriesOf(es: seq<OldEntry>): (r: seq<Entry>)
    ensures |r| == |es|
    ensures forall k :: 0 <= k < |es| ==> r[k] == Entry(FRAME, KEYFRAME, es[k].offset, es[k].size)
  {
    seq(|es|, k requires 0 <= k < |es| => Entry(FRAME, KEYFRAME, es[k].offset, es[k].size))
  }

  lemma {:induction false} OldEntryAt(es: seq<OldEntry>, k: nat)
    requires k < |es|
    ensures Holds(OldBytes(es), OLD_ENTRY * k, OldEntryBytes(es[k]))
    decreases |es|
  {
    var n := |es| - 1;
    if k < n {
      OldEntryAt(es[..n], k);
      LeftHolds(OldBytes(es[..n]), OldEntryBytes(es[n]), OLD_ENTRY * k, OldEntryBytes(es[k]));
    } else {
      RightHolds(OldBytes(es[..n]), OldEntryBytes(es[n]));
    }
  }

  lemma OldEntryRead(e: OldEntry)
    requires e.offset < WORD && e.size < WORD
    ensures OldEntryOf(OldEntryBytes(e)) == Entry(FRAME, KEYFRAME, e.offset, e.size)
  {
    var b := OldEntryBytes(e);
    assert b[4..8] == LE32(KEYFRAME) && b[8..12] == LE32(e.offset) && b[12..16] == LE32(e.size);
    Read32LE32(KEYFRAME);
    Read32LE32(e.offset);
    Read32LE32(e.size);
  }

  lemma JoinedMore(idxs: map<int, seq<Entry>>, es: seq<Entry>, e: Entry)
    requires |e.id| == 4 && e.id != REC && Atoi2(e.id[0], e.id[1]) == 0
    ensures WithEntry(Joined(idxs, es), e) == Joined(idxs, es + [e])
  {
    assert Listed(Joined(idxs, es), 0) == Listed(idxs, 0) + es;
    assert Listed(idxs, 0) + es + [e] == Listed(idxs, 0) + (es + [e]);
  }

  ghost predicate Small(es: seq<OldEntry>) {
    forall k :: 0 <= k < |es| ==> es[k].offset < WORD && es[k].size < WORD
  }

  /** `b` is, entry by entry, the old index `es`. */
  ghost predicate Tabled(b: seq<byte>, es: seq<Entry>) {
    |b| == OLD_SIZE * |es| &&
    forall k :: 0 <= k < |es| ==> OldEntryOf(b[OLD_SIZE * k..OLD_SIZE * (k + 1)]) == es[k] && es[k].id == FRAME
  }

  lemma OldBytesTabled(es: seq<OldEntry>)
    requires Small(es)
    ensures Tabled(OldBytes(es), EntriesOf(es))
  {
    var b := OldBytes(es);
    forall k | 0 <= k < |es| ensures OldEntryOf(b[OLD_SIZE * k..OLD_SIZE * (k + 1)]) == EntriesOf(es)[k] {
      OldEntryAt(es, k);
      OldEntryRead(es[k]);
    }
  }

  lemma TabledMore(idxs: map<int, seq<Entry>>, b: seq<byte>, es: seq<Entry>, n: nat)
    requires Tabled(b, es) && n < |es| && WithEntries(idxs, b, n) == Joined(idxs, es[..n])
    ensures WithEntries(idxs, b, n + 1) == Joined(idxs, es[..n + 1])
  {
    assert OldEntryOf(b[OLD_SIZE * n..OLD_SIZE * (n + 1)]) == es[n];
    JoinedMore(idxs, es[..n], es[n]);
    assert es[..n] + [es[n]] == es[..n + 1];
  }

  lemma {:induction false} TabledRead(idxs: map<int, seq<Entry>>, b: seq<byte>, es: seq<Entry>, n: nat)
    requires Tabled(b, es) && n <= |es|
    ensures WithEntries(idxs, b, n) == Joined(idxs, es[..n])
    decreases n
  {
    if n > 0 {
      TabledRead(idxs, b, es, n - 1);
      TabledMore(idxs, b, es, n - 1);
    }
  }

  lemma TabledAll(idxs: map<int, seq<Entry>>, b: seq<byte>, es: seq<Entry>, n: nat)
    requires Tabled(b, es) && n == |b| / OLD_SIZE
    ensures WithEntries(idxs, b, n) == Joined(idxs, es)
  {
    assert n == |es|;
    assert es[..n] == es;
    TabledRead(idxs, b, es, n);
  }

  /** Reading the old index puts its entries, in order, after those there are. */
  lemma IndexReadBack(idxs: map<int, seq<Entry>>, es: seq<OldEntry>)
    requires Small(es)
    ensures WithEntries(idxs, OldBytes(es), |OldBytes(es)| / OLD_SIZE) == Joined(idxs, EntriesOf(es))
  {
    OldBytesTabled(es);
    TabledAll(idxs, OldBytes(es), EntriesOf(es), |OldBytes(es)| / OLD_SIZE);
  }

  // ----- the frames -----

  /** A reader of `s` whose first `movi` is at `m` and whose entries are `es`, however far it has read:
      with the offset from `movi` in use, or not. */
  ghost predicate Ready(r: Reader, s: seq<byte>, m: nat, es: seq<Entry>, aimed: bool) {
    && r.s == s && r.movis != [] && r.movis[0] == m && Listed(r.idxs, 0) == es
    && r.useMovi == aimed && (aimed ==> r.good)
  }

  /** Neither probe takes the bytes it reads for the chunk: not those at the entry's place, nor those
      `m` further on, which must all be in the file. */
  predicate Clear(s: seq<byte>, m: nat, e: Entry) {
    0 <= e.offset && e.offset + m + 8 <= |s| && s[e.offset..e.offset + 4] != e.id
      && s[e.offset + m..e.offset + m + 4] != e.id
  }

  /** What reading `data` by the entry takes: with the offset from `movi` in use, the chunk that far;
      without, the bytes at the entry's place, clear of both probes. */
  ghost predicate Leads(s: seq<byte>, m: nat, e: Entry, data: seq<byte>, aimed: bool) {
    && e.size == |data| && |e.id| == 4 && 0 <= e.offset
    && (data != [] ==>
          if aimed then Holds(s, m + e.offset, e.id + LE32(|data|) + data)
          else Holds(s, e.offset, data) && Clear(s, m, e))
  }

  lemma FetchHeld(r: Reader, p: nat, d: seq<byte>)
    requires r.good && r.pos == p && Holds(r.s, p, d)
    ensures Fetched(r, |d|) == d && Taken(r, |d|) == r.(pos := p + |d|)
  {
  }

  /** Probing from the first `movi` finds the chunk, whatever was read before. */
  lemma ProbeFinds(r: Reader, e: Entry, data: seq<byte>, buf: seq<byte>)
    requires r.good && r.movis != [] && |e.id| == 4 && 0 <= e.offset && |buf| == 8
    requires Holds(r.s, r.movis[0] + e.offset, e.id + LE32(|data|) + data)
    ensures FromMovi(r, e, buf) == r.(pos := r.movis[0] + e.offset + 8, useMovi := true)
    ensures Holds(r.s, r.movis[0] + e.offset + 8, data)
  {
    var p := r.movis[0] + e.offset;
    var head := e.id + LE32(|data|);
    JoinHeld(r.s, p, head, data);
    FetchHeld(Sought(r, p), p, head);
    assert Into(buf, head) == head && head[..4] == e.id;
  }

  /** A probe of 8 bytes that are all in the file. */
  lemma Probing(r: Reader, e: Entry, at: nat, buf: seq<byte>)
    requires r.good && at + 8 <= |r.s| && |buf| == 8
    ensures Probed(r, e, at, buf) == (r.(pos := at + 8), r.s[at..at + 8]) && r.s[at..at + 8][..4] == r.s[at..at + 4]
  {
    var tag := r.s[at..at + 8];
    FetchHeld(Sought(r, at), at, tag);
    assert Into(buf, tag) == tag;
  }

  /** A probe past the end of the file fails, and what follows it. */
  lemma ProbingShort(r: Reader, e: Entry, at: nat, buf: seq<byte>)
    requires at + 8 > |r.s| && |buf| == 8 && |e.id| == 4 && r.movis != []
    ensures !Probed(r, e, at, buf).0.good
  {
  }

  lemma FailedStays(r: Reader, e: Entry, buf: seq<byte>)
    requires !r.good && |buf| == 8 && |e.id| == 4 && r.movis != []
    ensures !FromMovi(r, e, buf).good
  {
  }

  /** The probe from the first `movi`, when the bytes it reads are in the file. */
  lemma FromMoviIff(r: Reader, e: Entry, buf: seq<byte>)
    requires r.good && r.movis != [] && |buf| == 8 && 0 <= e.offset && e.offset + r.movis[0] + 8 <= |r.s|
    ensures var at := e.offset + r.movis[0]; var hit := r.s[at..at + 4] == e.id;
      FromMovi(r, e, buf) == r.(pos := if hit then at + 8 else e.offset, useMovi := hit)
  {
    Probing(r, e, e.offset + r.movis[0], buf);
  }

  /** Without the offset from `movi` in use, probing leads to the entry's own place exactly when both
      probes miss. */
  lemma LandsIff(r: Reader, e: Entry, buf: seq<byte>)
    requires r.movis != [] && !r.useMovi && |e.id| == 4 && |buf| == 8 && 0 <= e.offset
    ensures var r1 := Located(r, e, buf);
      && (r1.good && r1.pos == e.offset <==> Clear(r.s, r.movis[0], e))
      && (Clear(r.s, r.movis[0], e) ==> r1 == r.(pos := e.offset, good := true))
  {
    var r0 := r.(good := true);
    if e.offset + 8 > |r.s| {
      ProbingShort(r0, e, e.offset, buf);
      var (r1, tag) := Probed(r0, e, e.offset, buf);
      FailedStays(r1, e, tag);
    } else {
      Probing(r0, e, e.offset, buf);
      var r1, tag := r0.(pos := e.offset + 8), r.s[e.offset..e.offset + 8];
      if e.offset + r.movis[0] + 8 > |r.s| {
        ProbingShort(r1, e, e.offset + r.movis[0], tag);
      } else {
        FromMoviIff(r1, e, tag);
      }
    }
  }

  lemma ReadAt(r: Reader, k: nat, buf: seq<byte>, es: seq<Entry>, r1: Reader, data: seq<byte>)
    requires |buf| == 8 && r.movis != [] && Listed(r.idxs, 0) == es && k < |es| && es[k].size == |data| > 0
    requires r1 == Located(r.(idxs := r.idxs[0 := Listed(r.idxs, 0)]), es[k], buf)
    requires r1.s == r.s && r1.good && Holds(r.s, r1.pos, data) && Listed(r1.idxs, 0) == es
    ensures var f := FrameReadFrom(r, k, 0, buf);
      f.result == |data| && f.data == data && Ready(f.r, r.s, r.movis[0], es, r1.useMovi)
  {
    FetchHeld(r1, r1.pos, data);
  }

  /** A read by an entry that leads to its frame returns the frame, and the next read is as well off. */
  lemma FrameReadsBack(r: Reader, k: nat, buf: seq<byte>, s: seq<byte>, m: nat, es: seq<Entry>, data: seq<byte>,
      aimed: bool)
    requires |buf| == 8 && Ready(r, s, m, es, aimed) && k < |es| && Leads(s, m, es[k], data, aimed)
    ensures var f := FrameReadFrom(r, k, 0, buf);
      f.data == data && f.result == (if data == [] then 1 else |data|) && Ready(f.r, s, m, es, aimed)
  {
    if data != [] {
      var r0 := r.(idxs := r.idxs[0 := Listed(r.idxs, 0)]);
      if aimed {
        ProbeFinds(r0, es[k], data, buf);
      } else {
        LandsIff(r0, es[k], buf);
      }
      ReadAt(r, k, buf, es, Located(r0, es[k], buf), data);
    }
  }

  /** Whether the first 8 bytes probed, where an offset from `movi` is taken from the file's start,
      look like the chunk: for frame 0 they hold the RIFF size `n`, so only for one size. */
  lemma FirstProbe(r: Reader, e: Entry, buf: seq<byte>, n: nat)
    requires |buf| == 8 && r.good && e.id == FRAME && e.offset == 4
    requires 12 <= |r.s| && SizeAt(r.s, 4, n)
    ensures var (r1, tag) := Probed(r, e, 4, buf);
      r1 == r.(pos := 12) && |tag| == 8 && (tag[..4] == FRAME <==> n == Read32(FRAME))
  {
    var d := r.s[4..12];
    assert Fetched(Sought(r, 4), 8) == d;
    assert d[..4] == r.s[4..8];
    assert Into(buf, d) == d;
    LE32Read32(FRAME);
    LE32Read32(r.s[4..8]);
  }

  /** Reading a frame 0 that is not empty, with no offset in use yet, puts the offset from `movi` to
      use, and reads the frame, exactly when the first section's RIFF size is not the number its id
      makes. */
  lemma FirstReadIff(r: Reader, buf: seq<byte>, s: seq<byte>, m: nat, es: seq<Entry>, data: seq<byte>, n: nat)
    requires |buf| == 8 && Ready(r, s, m, es, false) && es != [] && data != [] && Leads(s, m, es[0], data, true)
    requires es[0].id == FRAME && es[0].offset == 4 && 12 <= |s| && SizeAt(s, 4, n)
    ensures var f := FrameReadFrom(r, 0, 0, buf);
      && (f.r.useMovi <==> n != Read32(FRAME))
      && (f.r.useMovi ==> f.data == data && f.result == |data| && Ready(f.r, s, m, es, true))
  {
    var e := es[0];
    var r0 := r.(idxs := r.idxs[0 := Listed(r.idxs, 0)]);
    FirstProbe(r0.(good := true), e, buf, n);
    if n != Read32(FRAME) {
      var (r1, tag) := Probed(r0.(good := true), e, 4, buf);
      ProbeFinds(r1, e, data, tag);
      ReadAt(r, 0, buf, es, Located(r0, e, buf), data);
    }
  }

  /** Any number of reads, in any order. */
  function Reads(r: Reader, ks: seq<nat>, buf: seq<byte>): (rd: (Reader, seq<seq<byte>>))
    requires |buf| == 8 && r.movis != []
    ensures rd.0.movis == r.movis && |rd.1| == |ks|
    decreases |ks|
  {
    if ks == [] then (r, [])
    else
      var (r1, ds) := Reads(r, ks[..|ks| - 1], buf);
      var f := FrameReadFrom(r1, ks[|ks| - 1], 0, buf);
      (f.r, ds + [f.data])
  }

  /** The frames `ks` all have entries that lead to them. */
  ghost predicate AllLead(s: seq<byte>, m: nat, es: seq<Entry>, datas: seq<seq<byte>>, ks: seq<nat>, aimed: bool) {
    forall i :: 0 <= i < |ks| ==> ks[i] < |es| && ks[i] < |datas| && Leads(s, m, es[ks[i]], datas[ks[i]], aimed)
  }

  /** What came of reading the frames `ks`: each one's bytes. */
  ghost predicate Returned(ds: seq<seq<byte>>, datas: seq<seq<byte>>, ks: seq<nat>) {
    |ds| == |ks| && forall i :: 0 <= i < |ks| ==> ks[i] < |datas| && ds[i] == datas[ks[i]]
  }

  lemma OneMoreRead(r: Reader, ds: seq<seq<byte>>, ks: seq<nat>, k: nat, buf: seq<byte>, s: seq<byte>, m: nat,
      es: seq<Entry>, datas: seq<seq<byte>>, aimed: bool)
    requires |buf| == 8 && Ready(r, s, m, es, aimed) && Returned(ds, datas, ks)
    requires k < |es| && k < |datas| && Leads(s, m, es[k], datas[k], aimed)
    ensures var f := FrameReadFrom(r, k, 0, buf);
      Ready(f.r, s, m, es, aimed) && Returned(ds + [f.data], datas, ks + [k])
  {
    FrameReadsBack(r, k, buf, s, m, es, datas[k], aimed);
  }

  /** Frames with entries that lead to them are read back, in any order and any number of times. */
  lemma {:induction false} ReadsReturnFrames(r: Reader, ks: seq<nat>, buf: seq<byte>, s: seq<byte>, m: nat,
      es: seq<Entry>, datas: seq<seq<byte>>, aimed: bool)
    requires |buf| == 8 && Ready(r, s, m, es, aimed) && AllLead(s, m, es, datas, ks, aimed)
    ensures var rd := Reads(r, ks, buf); Ready(rd.0, s, m, es, aimed) && Returned(rd.1, datas, ks)
    decreases |ks|
  {
    if ks != [] {
      var n := |ks| - 1;
      FewerLead(s, m, es, datas, ks, aimed);
      ReadsReturnFrames(r, ks[..n], buf, s, m, es, datas, aimed);
      var rd := Reads(r, ks[..n], buf);
      OneMoreRead(rd.0, rd.1, ks[..n], ks[n], buf, s, m, es, datas, aimed);
      assert ks[..n] + [ks[n]] == ks;
    }
  }

  lemma FewerLead(s: seq<byte>, m: nat, es: seq<Entry>, datas: seq<seq<byte>>, ks: seq<nat>, aimed: bool)
    requires AllLead(s, m, es, datas, ks, aimed) && ks != []
    ensures var n := |ks| - 1;
      AllLead(s, m, es, datas, ks[..n], aimed) && ks[n] < |es| && ks[n] < |datas|
        && Leads(s, m, es[ks[n]], datas[ks[n]], aimed)
  {
  }

  /** Opening `s` finds its first `movi` at `m` and lists the entries `es` for the first stream. */
  ghost predicate OpensTo(s: seq<byte>, m: nat, es: seq<Entry>) {
    var r := Opened(s);
    Accepted(r) && Ready(r, s, m, es, false)
  }
}
