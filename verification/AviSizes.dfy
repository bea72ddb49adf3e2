/** How large the sections get: the writer counts a section's size ahead of its frames, in 32 bits, to
    decide when to begin the next. */
module AviSizes {
  import opened Bytes
  import opened AviIndex
  import opened AviIndexExact
  import opened AviLayout
  import opened AviFilm
  import opened AviSections
  import opened AviWriter
  import opened AviWriterRuns
  import opened AviClose

  /** Frames up to this length never make the 32-bit count wrap. */
  const SAFE_FRAME := WORD - LATER_LIMIT - 8

  function Limit(i: nat): nat {
    if i == 0 then FIRST_LIMIT else LATER_LIMIT
  }

  /** What a section's RIFF size field says once it is finished. */
  function SizeOf(g: Film, i: nat): int
    requires i < |g.closed|
  {
    |Section(g.h, i, g.closed[i], OldBytes(g.old_))| - 8
  }

  ghost predicate ClosedSized(g: Film) {
    forall i :: 0 <= i < |g.closed| ==> SizeOf(g, i) < Limit(i)
  }

  ghost predicate Sized(g: Film) {
    && (if g.closed == [] then |g.old_| == |g.frames| && Accounted(g) < FIRST_LIMIT + OLD_ENTRY
         else Accounted(g) < LATER_LIMIT)
    && ClosedSized(g)
  }

  lemma CountIsAccounted(w: Writer, g: Film)
    requires CountsAgree(w, g) && Accounted(g) < WORD
    ensures w.riffSize == Accounted(g) && w.maxRiffSize == Limit(|g.closed|)
  {
    Unwrapped(w.riffSize, Accounted(g));
  }

  lemma Unwrapped(size: int, n: nat)
    requires n < WORD && size == n % WORD
    ensures size == n
  {
  }

  /** The roll-over a frame should cause is missed exactly when counting it wraps. */
  lemma RollMissedIff(w: Writer, g: Film, len: nat)
    requires Agrees(w, g) && InUse(w) && Accounted(g) + 8 < WORD && len < WORD
    ensures !RollsOver(w, len) && Accounted(g) + len + 8 >= w.maxRiffSize
      <==> WORD <= Accounted(g) + len + 8 < WORD + w.maxRiffSize
  {
    CountIsAccounted(w, g);
    Wraps(Accounted(g) + len + 8, w.maxRiffSize);
  }

  lemma Wraps(n: nat, m: nat)
    requires n < 2 * WORD && m <= WORD
    ensures n < WORD ==> n % WORD == n
    ensures n % WORD < m && n >= m <==> WORD <= n < WORD + m
  {
  }

  lemma OpeningSized(h: Headers)
    requires |OpenSection(h, 0, [])| < FIRST_LIMIT
    ensures Sized(Opening(h))
  {
    FirstContent(Opening(h));
  }

  /** In the first section the field is the count less one old index entry; later it is the count
      less its own eight bytes. */
  lemma RolledSize(g: Film)
    requires g.closed == [] ==> |g.old_| == |g.frames|
    ensures SizeOf(Rolled(g), |g.closed|) == Accounted(g) - if g.closed == [] then OLD_ENTRY else 8
  {
    ContentLength(g);
    if g.closed == [] { FirstContent(g); }
  }

  lemma RolledSized(g: Film)
    requires Sized(g)
    ensures Sized(Rolled(g))
  {
    RolledSize(g);
    RolledContent(g);
    forall i | 0 <= i < |g.closed| ensures SizeOf(Rolled(g), i) == SizeOf(g, i) {
    }
  }

  lemma AddedClosedSized(g: Film, data: seq<byte>)
    requires ClosedSized(g)
    ensures ClosedSized(Added(g, data))
  {
    forall i | 0 <= i < |g.closed| ensures SizeOf(Added(g, data), i) == SizeOf(g, i) {
    }
  }

  lemma AddedSized(g: Film, data: seq<byte>)
    requires Sized(g) && Accounted(g) + |data| + 8 < Limit(|g.closed|)
    ensures Sized(Added(g, data))
  {
    AddedAccounts(g, data);
    AddedClosedSized(g, data);
  }

  lemma DataSized(w: Writer, g: Film, data: seq<byte>)
    requires Agrees(w, g) && InUse(w) && Sized(g) && |data| <= SAFE_FRAME
    ensures Sized(DataAdded(w, g, data))
  {
    RollMissedIff(w, g, |data|);
    if RollsOver(w, |data|) {
      RolledSized(g);
      RolledContent(g);
      AddedSized(Rolled(g), data);
    } else if w.reservedFrames > w.totalFrames {
      AddedSized(g, data);
    }
  }

  /** Over any run of frames no longer than that, every section begun and ended has a size field
      below its limit: 10^9 for the first, 4 * 10^9 for the others. */
  lemma {:induction false} RunSized(w: Writer, g: Film, datas: seq<seq<byte>>)
    requires Agrees(w, g) && InUse(w) && Good(g) && Nested(g) && Sized(g)
    requires forall i :: 0 <= i < |datas| ==> |datas[i]| <= SAFE_FRAME
    ensures Sized(AllAdded(w, g, datas))
    decreases |datas|
  {
    if datas != [] {
      var n := |datas| - 1;
      RunSized(w, g, datas[..n]);
      RunKeeps(w, g, datas[..n]);
      DataSized(AllWritten(w, datas[..n]), AllAdded(w, g, datas[..n]), datas[n]);
    }
  }

  // ----- the last section -----

  lemma {:induction false} AllStdLength(idx: seq<StdIndex>, own: seq<Frame>, n: nat)
    requires Shape(idx, own) && n <= |idx|
    ensures |AllStd(idx[..n])| == STD_HEAD * n + STD_ENTRY * (if n < |idx| then PER_INDEX * n else |own|)
    decreases n
  {
    Counts(|own|);
    if n > 0 {
      AllStdLength(idx, own, n - 1);
      assert idx[..n][..n - 1] == idx[..n - 1];
    }
  }

  /** What the standard indexes of `n` frames take. */
  function IndexBytes(n: nat): nat {
    if n == 0 then 0 else STD_HEAD * IndexCount(n) + STD_ENTRY * n
  }

  lemma UsedLength(g: Film)
    requires OneStream(g.frames)
    ensures |AllStd(UsedBy(g))| == IndexBytes(|g.frames|)
    ensures |UsedBy(g)| == if g.frames == [] then 0 else IndexCount(|g.frames|)
  {
    if g.frames != [] {
      UsedShape(g.frames);
      var idx := UsedBy(g);
      AllStdLength(idx, g.frames, |idx|);
      assert idx[..|idx|] == idx;
    }
  }

  lemma SameSection(h: Headers, h': Headers, i: nat, body: seq<byte>, idx1: seq<byte>)
    requires SameSizes(h, h')
    ensures |Section(h, i, body, idx1)| == |Section(h', i, body, idx1)|
  {
    SameLengths(h, h');
  }

  /** Then all sections of the file `close` leaves are below 4 GiB, if the standard indexes leave room. */
  lemma ClosedSmall(g: Film)
    requires Shaped(g.h) && OneStream(g.frames) && Fits(g) && Sized(g)
    requires |g.h.ext| > 0 ==> IndexBytes(|g.frames|) <= WORD - LATER_LIMIT
    ensures SmallSections(Closing(g).h, Closing(g).closed + [Closing(g).body], OldBytes(g.old_))
  {
    var g' := Closing(g);
    ClosingSame(g);
    UsedLength(g);
    RolledSize(g);
    forall i | 0 <= i < |g.closed| + 1 ensures |Section(g'.h, i, (g'.closed + [g'.body])[i], OldBytes(g.old_))| < WORD {
      if i < |g.closed| {
        assert SizeOf(g, i) < Limit(i);
        SameSection(g.h, g'.h, i, g.closed[i], OldBytes(g.old_));
      } else {
        SameSection(g.h, g'.h, i, g'.body, OldBytes(g.old_));
      }
    }
  }

  // ----- the whole file -----

  /** A section is begun only for a frame. */
  lemma {:induction false} FewSections(w: Writer, g: Film, datas: seq<seq<byte>>)
    requires InUse(w) && |g.closed| <= |g.frames|
    ensures |AllAdded(w, g, datas).closed| <= |AllAdded(w, g, datas).frames|
    decreases |datas|
  {
    if datas != [] { FewSections(w, g, datas[..|datas| - 1]); }
  }

  lemma {:induction false} BeforeBounded(h: Headers, closed: seq<seq<byte>>, idx1: seq<byte>)
    requires SmallSections(h, closed, idx1)
    ensures |Before(h, closed, idx1)| <= WORD * |closed|
    decreases |closed|
  {
    if closed != [] {
      var n := |closed| - 1;
      assert forall i :: 0 <= i < n ==> closed[..n][i] == closed[i];
      BeforeBounded(h, closed[..n], idx1);
      LastOfBefore(h, closed, idx1);
      assert WORD * |closed| == WORD * n + WORD;
    }
  }

  /** As many frames as the indexes allow never make a file with positions of 63 bits. */
  lemma FileBounded(g: Film)
    requires Shaped(g.h) && OneStream(g.frames) && Fits(g) && |g.closed| <= |g.frames|
    requires IndexBytes(|g.frames|) <= WORD - LATER_LIMIT
    requires SmallSections(Closing(g).h, Closing(g).closed + [Closing(g).body], OldBytes(g.old_))
    ensures |FinalFile(g)| < WORD64 / 2
  {
    ClosingSame(g);
    BeforeBounded(Closing(g).h, Closing(g).closed + [Closing(g).body], OldBytes(g.old_));
    assert STD_ENTRY * |g.frames| <= WORD - LATER_LIMIT;
    assert WORD * (|g.closed| + 1) <= WORD * 0x1000_0000;
  }
}
