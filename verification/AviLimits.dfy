/** When a recording begins its next section, from the lengths of its frames alone, and which frames a
    recording without OpenDML then lists. */
module AviLimits {
  import opened Bytes
  import opened AviLayout
  import opened AviWriter
  import opened AviWriterRuns
  import opened AviSizes
  import Runs = AviFileRuns
  import opened AviReader
  import opened AviRecordings

  /** What the frames from `j` up to `k` take in their section, at `each` bytes beside their data. */
  function Taken(datas: seq<seq<byte>>, j: nat, k: nat, each: nat): nat
    requires j <= k <= |datas|
  {
    if j == k then 0 else Taken(datas, j, k - 1, each) + |datas[k - 1]| + each
  }

  /** Frame `k` still goes in the first section, which has `head` bytes before the frames: that, an
      old index entry, 24 bytes and the data for each frame before it and 8 and the data for this one
      stay below 10^9, in 32 bits. */
  predicate InFirst(head: nat, datas: seq<seq<byte>>, k: nat)
    requires k < |datas|
  {
    (head + 16 + Taken(datas, 0, k, 24) + |datas[k]| + 8) % 0x1_0000_0000 < 1_000_000_000
  }

  /** Frame `k` still goes in the later section begun for frame `j`, in the same sense. */
  predicate InLater(datas: seq<seq<byte>>, j: nat, k: nat)
    requires j < k < |datas|
  {
    (24 + Taken(datas, j, k, 8) + |datas[k]| + 8) % 0x1_0000_0000 < 4_000_000_000
  }

  // ----- one frame -----

  lemma FirstStep(w: Writer, n: nat, data: seq<byte>)
    requires InUse(w) && w.totalFrames < w.reservedFrames
    requires w.riffIdx == 0 && w.maxRiffSize == 1_000_000_000 && w.riffSize == n % 0x1_0000_0000
    ensures var w', rolls := DataWritten(w, data).0, (n + |data| + 8) % 0x1_0000_0000 >= 1_000_000_000;
      && w'.riffIdx == (if rolls then 1 else 0)
      && w'.maxRiffSize == (if rolls then 4_000_000_000 else 1_000_000_000)
      && w'.riffSize == (if rolls then 24 + |data| + 8 else n + |data| + 24) % 0x1_0000_0000
      && |w'.oldIndex| == |w.oldIndex| + if rolls then 0 else 1
  {
    Residues(n, |data| + 8);
    var w' := DataWritten(w, data).0;
    if (n + |data| + 8) % 0x1_0000_0000 >= 1_000_000_000 {
      assert w' == FrameAppended(RolledOver(w), data);
    } else {
      assert w' == FrameAppended(w, data);
      assert w'.riffSize == ((w.riffSize + (|data| + 8)) % WORD + OLD_ENTRY) % WORD;
    }
  }

  lemma LaterStep(w: Writer, n: nat, data: seq<byte>)
    requires InUse(w) && w.totalFrames < w.reservedFrames
    requires w.riffIdx > 0 && w.maxRiffSize == 4_000_000_000 && w.riffSize == n % 0x1_0000_0000
    ensures var w', rolls := DataWritten(w, data).0, (n + |data| + 8) % 0x1_0000_0000 >= 4_000_000_000;
      && w'.riffIdx == w.riffIdx + (if rolls then 1 else 0) && w'.maxRiffSize == 4_000_000_000
      && w'.riffSize == (if rolls then 24 + |data| + 8 else n + |data| + 8) % 0x1_0000_0000
      && w'.oldIndex == w.oldIndex
  {
    ResidueSum(n, |data| + 8);
  }

  // ----- any run of frames -----

  lemma OneMoreWritten(w: Writer, datas: seq<seq<byte>>, n: nat)
    requires InUse(w) && n < |datas|
    ensures AllWritten(w, datas[..n + 1]) == DataWritten(AllWritten(w, datas[..n]), datas[n]).0
  {
    assert datas[..n + 1][..n] == datas[..n];
  }

  lemma {:induction false} CountsGo(w: Writer, datas: seq<seq<byte>>, n: nat)
    requires InUse(w) && n <= |datas| && w.totalFrames + n <= w.reservedFrames
    ensures var w' := AllWritten(w, datas[..n]);
      w'.totalFrames == w.totalFrames + n && w'.reservedFrames == w.reservedFrames
  {
    if n > 0 {
      CountsGo(w, datas, n - 1);
      OneMoreWritten(w, datas, n - 1);
    }
  }

  /** As `open` leaves the counts, with `head` bytes in the file. */
  predicate Begins(w: Writer, head: nat) {
    && InUse(w) && w.riffIdx == 0 && w.maxRiffSize == 1_000_000_000 && w.oldIndex == []
    && w.riffSize == (head + 16) % 0x1_0000_0000
  }

  /** What `n` frames leave: all are in the first section and in the old index, or just the `c` before
      the first that was too long for it. */
  ghost predicate Split(w: Writer, head: nat, datas: seq<seq<byte>>, n: nat, c: nat) {
    && |w.oldIndex| == c <= n <= |datas| && (w.riffIdx == 0 <==> c == n)
    && (forall k :: 0 <= k < c ==> InFirst(head, datas, k)) && (c < n ==> !InFirst(head, datas, c))
    && (if c == n then
          w.maxRiffSize == 1_000_000_000 && w.riffSize == (head + 16 + Taken(datas, 0, n, 24)) % 0x1_0000_0000
        else w.maxRiffSize == 4_000_000_000)
  }

  lemma SplitStep(w: Writer, head: nat, datas: seq<seq<byte>>, n: nat, c: nat)
    requires Split(w, head, datas, n, c) && n < |datas| && InUse(w) && w.totalFrames < w.reservedFrames
    ensures var w' := DataWritten(w, datas[n]).0; Split(w', head, datas, n + 1, |w'.oldIndex|)
  {
    if c == n {
      FirstStep(w, head + 16 + Taken(datas, 0, n, 24), datas[n]);
    }
  }

  lemma {:induction false} RunSplits(w: Writer, head: nat, datas: seq<seq<byte>>, n: nat)
    requires Begins(w, head) && n <= |datas| && w.totalFrames + n <= w.reservedFrames
    ensures var w' := AllWritten(w, datas[..n]); Split(w', head, datas, n, |w'.oldIndex|)
  {
    if n > 0 {
      RunSplits(w, head, datas, n - 1);
      CountsGo(w, datas, n - 1);
      OneMoreWritten(w, datas, n - 1);
      SplitStep(AllWritten(w, datas[..n - 1]), head, datas, n - 1, |AllWritten(w, datas[..n - 1]).oldIndex|);
    }
  }

  /** After any run of frames the writer is still in its first section exactly when each of them stayed
      below the limit, counted from the lengths; otherwise the old index has those before the first that
      did not. */
  lemma FirstSectionIff(w: Writer, head: nat, datas: seq<seq<byte>>)
    requires Begins(w, head) && w.totalFrames + |datas| <= w.reservedFrames
    ensures var w' := AllWritten(w, datas); var c := |w'.oldIndex|;
      && (w'.riffIdx == 0 <==> forall k :: 0 <= k < |datas| ==> InFirst(head, datas, k))
      && c <= |datas| && (w'.riffIdx == 0 <==> c == |datas|)
      && (forall k :: 0 <= k < c ==> InFirst(head, datas, k)) && (c < |datas| ==> !InFirst(head, datas, c))
  {
    RunSplits(w, head, datas, |datas|);
    assert datas[..|datas|] == datas;
  }

  // ----- later sections -----

  /** The section numbered `m` was begun for frame `j`, and is still in hand exactly when the frames since
      stayed below the limit. */
  ghost predicate Lasts(w: Writer, datas: seq<seq<byte>>, j: nat, n: nat, m: nat) {
    && j < n <= |datas| && 0 < m <= w.riffIdx && w.maxRiffSize == 4_000_000_000
    && (w.riffIdx == m <==> forall k :: j < k < n ==> InLater(datas, j, k))
    && (w.riffIdx == m ==> w.riffSize == (24 + Taken(datas, j, n, 8)) % 0x1_0000_0000)
  }

  lemma LastsStep(w: Writer, datas: seq<seq<byte>>, j: nat, n: nat, m: nat)
    requires Lasts(w, datas, j, n, m) && n < |datas| && InUse(w) && w.totalFrames < w.reservedFrames
    ensures Lasts(DataWritten(w, datas[n]).0, datas, j, n + 1, m)
  {
    var w' := DataWritten(w, datas[n]).0;
    if w.riffIdx == m {
      LaterStep(w, 24 + Taken(datas, j, n, 8), datas[n]);
      assert w'.riffIdx == m <==> InLater(datas, j, n);
    } else {
      assert w'.riffIdx >= w.riffIdx;
    }
  }

  lemma SectionBegun(w: Writer, datas: seq<seq<byte>>, j: nat)
    requires InUse(w) && j < |datas| && (w.riffIdx == 0 || w.maxRiffSize == 4_000_000_000)
    requires DataWritten(w, datas[j]).0.riffIdx > w.riffIdx
    ensures Lasts(DataWritten(w, datas[j]).0, datas, j, j + 1, w.riffIdx + 1)
  {
    assert Taken(datas, j, j, 8) == 0 && Taken(datas, j, j + 1, 8) == |datas[j]| + 8;
  }

  lemma {:induction false} RunLasts(w: Writer, datas: seq<seq<byte>>, j: nat, n: nat, m: nat)
    requires InUse(w) && j < n <= |datas| && w.totalFrames + n <= w.reservedFrames
    requires Lasts(AllWritten(w, datas[..j + 1]), datas, j, j + 1, m)
    ensures Lasts(AllWritten(w, datas[..n]), datas, j, n, m)
    decreases n
  {
    if n > j + 1 {
      RunLasts(w, datas, j, n - 1, m);
      CountsGo(w, datas, n - 1);
      OneMoreWritten(w, datas, n - 1);
      LastsStep(AllWritten(w, datas[..n - 1]), datas, j, n - 1, m);
    }
  }

  /** A frame begins one section at most, and the section it begins lasts exactly as long as each frame
      after it stays below the limit of 4 * 10^9, counted from the lengths. */
  lemma LaterSectionIff(w: Writer, head: nat, datas: seq<seq<byte>>, j: nat, n: nat)
    requires Begins(w, head) && j < n <= |datas| && w.totalFrames + n <= w.reservedFrames
    requires AllWritten(w, datas[..j]).riffIdx < AllWritten(w, datas[..j + 1]).riffIdx
    ensures var m := AllWritten(w, datas[..j + 1]).riffIdx;
      && m == AllWritten(w, datas[..j]).riffIdx + 1
      && (AllWritten(w, datas[..n]).riffIdx == m <==> forall k :: j < k < n ==> InLater(datas, j, k))
  {
    RunSplits(w, head, datas, j);
    OneMoreWritten(w, datas, j);
    var w1 := AllWritten(w, datas[..j]);
    SectionBegun(w1, datas, j);
    assert DataWritten(w1, datas[j]).0.riffIdx == w1.riffIdx + 1;
    RunLasts(w, datas, j, n, w1.riffIdx + 1);
  }

  // ----- recordings without OpenDML -----

  /** The same bound without wrapping, for a file whose head is 224 bytes. */
  predicate Early(datas: seq<seq<byte>>, k: nat)
    requires k < |datas|
  {
    224 + 16 + Taken(datas, 0, k, 24) + |datas[k]| + 8 < 1_000_000_000
  }

  /** Up to the first frame that is too long for the first section the count does not wrap. */
  lemma {:induction false} NoWrap(datas: seq<seq<byte>>, k: nat)
    requires k < |datas| && forall i :: 0 <= i < |datas| ==> |datas[i]| <= SAFE_FRAME
    requires forall i :: 0 <= i < k ==> InFirst(224, datas, i)
    ensures 224 + 16 + Taken(datas, 0, k, 24) < 1_000_000_000 + 24
    ensures InFirst(224, datas, k) <==> Early(datas, k)
  {
    if k > 0 {
      NoWrap(datas, k - 1);
      assert InFirst(224, datas, k - 1);
    }
  }

  lemma EarlyCount(datas: seq<seq<byte>>, n: nat)
    requires forall i :: 0 <= i < |datas| ==> |datas[i]| <= SAFE_FRAME
    requires n <= |datas| && (forall k :: 0 <= k < n ==> InFirst(224, datas, k))
    requires n < |datas| ==> !InFirst(224, datas, n)
    ensures (forall k :: 0 <= k < n ==> Early(datas, k)) && (n < |datas| ==> !Early(datas, n))
  {
    forall k | 0 <= k <= n && k < |datas| ensures InFirst(224, datas, k) <==> Early(datas, k) {
      NoWrap(datas, k);
    }
  }

  /** What `open` leaves to count with: the bytes of the head, no frames, and as many reserved as were announced,
      or 128 * 2044 with OpenDML when none were. */
  lemma OpenedBegins(w: Writer, before: Writer, h: Headers)
    requires Runs.Opened(w, before, h) && InUse(w)
    ensures Begins(w, 224 + |h.super| + if before.openDml then 268 else 0) && w.totalFrames == 0
    ensures w.reservedFrames == if before.openDml && before.reservedFrames == 0 then 261_632 else before.reservedFrames
  {
  }

  lemma FilmLists(w: Writer, before: Writer, h: Headers, datas: seq<seq<byte>>)
    requires Made(w, before, h, datas)
    ensures Closable(w)
    ensures |Listed(Opened(Runs.Recorded(w, datas)).idxs, 0)| == |AllWritten(w, datas).oldIndex|
  {
    RecordingLeaves(w, before, h, datas);
    Runs.FilmGood(w, before, h, datas);
    FilmOpens(Runs.FilmOf(w, h, datas));
  }

  /** How many frames a recording without OpenDML lists: those before the first that would have
      taken the first section to 10^9 bytes, told by the lengths of the frames; so all of them exactly
      when none would. */
  lemma RecordingLists(w: Writer, before: Writer, h: Headers, datas: seq<seq<byte>>)
    requires Made(w, before, h, datas)
    ensures Closable(w)
    ensures var n := |Listed(Opened(Runs.Recorded(w, datas)).idxs, 0)|;
      && n <= |datas| && (forall k :: 0 <= k < n ==> Early(datas, k)) && (n < |datas| ==> !Early(datas, n))
      && (n == |datas| <==> forall k :: 0 <= k < |datas| ==> Early(datas, k))
  {
    FilmLists(w, before, h, datas);
    OpenedBegins(w, before, h);
    FirstSectionIff(w, 224, datas);
    EarlyCount(datas, |AllWritten(w, datas).oldIndex|);
  }
}
