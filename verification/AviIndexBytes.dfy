/** The index blocks of a recording made with OpenDML, field by field. */
module AviIndexBytes {
  import opened Bytes
  import opened Riff
  import opened AviIndex
  import opened AviLayout
  import opened AviFilm
  import W = AviWriter
  import opened AviClose
  import opened AviLookup
  import Runs = AviFileRuns
  import opened AviWalk
  import opened AviHeaders

  /** How many of `n` frames the standard index `j` lists. */
  function Entries(n: nat, j: nat): int {
    if 2043 * (j + 1) <= n then 2043 else n - 2043 * j
  }

  /** How many standard indexes list `n` frames; an empty recording has counted one all the same. */
  function Used(n: nat): nat {
    if n == 0 then 1 else (n + 2042) / 2043
  }

  /** The head of the super index at `p`: its tag, the size that follows, four longs an entry, of the
      type for indexes, `used` of them in use, for the pictures of stream 0, and zeros. */
  predicate SuperSays(s: seq<byte>, p: nat, size: nat, used: nat) {
    && p + 32 <= |s| && s[p..p + 4] == [0x69, 0x6E, 0x64, 0x78] && SizeAt(s, p + 4, size)
    && s[p + 8..p + 12] == [4, 0, 0, 0] && SizeAt(s, p + 12, used) && s[p + 16..p + 20] == [0x30, 0x30, 0x64, 0x63]
    && SizeAt(s, p + 20, 0) && SizeAt(s, p + 24, 0) && SizeAt(s, p + 28, 0)
  }

  /** A row of the super index after its place: the size of a standard index of `c` entries, and `c`. */
  predicate RowSays(s: seq<byte>, p: nat, c: nat) {
    SizeAt(s, p + 8, 32 + 8 * c) && SizeAt(s, p + 12, c)
  }

  /** The head of a standard index of `c` entries at `q`: its tag, its size, two longs an entry, of the
      type for chunks, the number of entries, for the pictures of stream 0, its base, and zero. */
  predicate StdSays(s: seq<byte>, q: nat, c: nat, base: nat) {
    && q + 32 <= |s| && s[q..q + 4] == [0x69, 0x78, 0x30, 0x30] && SizeAt(s, q + 4, 24 + 8 * c)
    && s[q + 8..q + 12] == [2, 0, 0, 1] && SizeAt(s, q + 12, c) && s[q + 16..q + 20] == [0x30, 0x30, 0x64, 0x63]
    && Read64(s[q + 20..q + 28]) == base && SizeAt(s, q + 28, 0)
  }

  // ----- the blocks -----

  lemma Shorts()
    ensures LE16(2) == [2, 0] && LE16(4) == [4, 0]
  {
  }

  /** What a block of eight fields of four bytes holds, wherever it is. */
  lemma FieldHeld(s: seq<byte>, p: nat, d: seq<byte>, i: nat, field: seq<byte>)
    requires Holds(s, p, d) && i + |field| <= |d| && d[i..i + |field|] == field
    ensures p + i + |field| <= |s| && s[p + i..p + i + |field|] == field
  {
    Within(s, p, d, i, field);
  }

  lemma SizeHeld(s: seq<byte>, p: nat, d: seq<byte>, i: nat, n: nat)
    requires Holds(s, p, d) && i + 4 <= |d| && d[i..i + 4] == LE32(n) && n < WORD
    ensures SizeAt(s, p + i, n)
  {
    FieldHeld(s, p, d, i, LE32(n));
    SizeFrom(s, p + i, n);
  }

  lemma SuperFields(block: nat, used: nat)
    requires 32 <= block
    ensures var d := SuperHead(block, used);
      && d[0..4] == [0x69, 0x6E, 0x64, 0x78] && d[4..8] == LE32(block - 8) && d[8..12] == [4, 0, 0, 0]
      && d[12..16] == LE32(used) && d[16..20] == [0x30, 0x30, 0x64, 0x63]
      && d[20..24] == LE32(0) && d[24..28] == LE32(0) && d[28..32] == LE32(0)
  {
    Shorts();
  }

  lemma SuperHeld(s: seq<byte>, p: nat, block: nat, used: nat)
    requires 32 <= block < WORD && used < WORD && Holds(s, p, SuperHead(block, used))
    ensures SuperSays(s, p, block - 8, used)
  {
    var d := SuperHead(block, used);
    SuperFields(block, used);
    FieldHeld(s, p, d, 0, [0x69, 0x6E, 0x64, 0x78]);
    SizeHeld(s, p, d, 4, block - 8);
    FieldHeld(s, p, d, 8, [4, 0, 0, 0]);
    SizeHeld(s, p, d, 12, used);
    FieldHeld(s, p, d, 16, [0x30, 0x30, 0x64, 0x63]);
    SizeHeld(s, p, d, 20, 0);
    SizeHeld(s, p, d, 24, 0);
    SizeHeld(s, p, d, 28, 0);
  }

  lemma RowHeld(s: seq<byte>, p: nat, q: nat, i: StdIndex)
    requires Holds(s, p, SuperEntryBytes(q, i)) && |i.entries| <= PER_INDEX
    ensures RowSays(s, p, |i.entries|)
  {
    var d := SuperEntryBytes(q, i);
    assert d[8..12] == LE32(STD_HEAD + STD_ENTRY * |i.entries|) && d[12..16] == LE32(|i.entries|);
    SizeHeld(s, p, d, 8, STD_HEAD + STD_ENTRY * |i.entries|);
    SizeHeld(s, p, d, 12, |i.entries|);
  }

  lemma StdFieldsAre(i: StdIndex)
    ensures var d := StdFields(i);
      && d[0..4] == [2, 0, 0, 1] && d[4..8] == LE32(|i.entries|) && d[8..12] == [0x30, 0x30, 0x64, 0x63]
      && d[12..20] == LE64(i.base) && d[20..24] == LE32(0)
  {
    Shorts();
  }

  lemma StdHeld(s: seq<byte>, q: nat, i: StdIndex)
    requires Holds(s, q, StdBytes(i)) && |i.entries| <= PER_INDEX && i.base < WORD64
    ensures StdSays(s, q, |i.entries|, i.base)
  {
    var d := StdFields(i);
    ChunkHeld(s, q, IX00, d + StdEntries(i.entries));
    JoinHeld(s, q + 8, d, StdEntries(i.entries));
    StdFieldsAre(i);
    FieldHeld(s, q + 8, d, 0, [2, 0, 0, 1]);
    SizeHeld(s, q + 8, d, 4, |i.entries|);
    FieldHeld(s, q + 8, d, 8, [0x30, 0x30, 0x64, 0x63]);
    FieldHeld(s, q + 8, d, 12, LE64(i.base));
    SizeHeld(s, q + 8, d, 20, 0);
    Read64LE64(i.base);
  }

  // ----- in the file -----

  /** The super index of `used` standard indexes in `size` bytes, its first rows, and the standard indexes
      of `n` frames those lead to. */
  ghost predicate IndexesSay(s: seq<byte>, size: nat, frames: seq<Frame>) {
    var n := |frames|;
    && SuperSays(s, 212, size, Used(n))
    && forall j :: 0 <= j < Used(n) && 0 < n ==> RowOk(s, frames, j)
  }

  ghost predicate RowOk(s: seq<byte>, frames: seq<Frame>, j: nat) {
    && 212 + 32 + 16 * (j + 1) <= |s| && 2043 * j < |frames| && RowSays(s, 244 + 16 * j, Entries(|frames|, j))
    && StdSays(s, IndexPlace(s, 212, j), Entries(|frames|, j), if j == 0 then 0 else frames[2043 * j].pos)
  }

  lemma SuperHeadHeld(g: Film)
    requires Good(g) && |g.h.ext| > 0 && Fits(g)
    ensures Holds(FinalFile(g), 212, SuperHead(|g.h.super|, |Build(1, g.frames).streams[0]|))
  {
    ClosingSuperIs(g);
    assert Holds(FinalFile(g), 212, Closing(g).h.super) by {
      ClosingHeaders(g);
      SuperInFile(Rolled(Closing(g)));
    }
    var head, rows := SuperHead(|g.h.super|, |Build(1, g.frames).streams[0]|), SuperEntries(UsedBy(g), |Content(g)|);
    HeadKept(FinalFile(g), 212, Closing(g).h.super, g.h.super, head, rows);
  }

  lemma ClosingSuperIs(g: Film)
    requires Good(g) && |g.h.ext| > 0 && Fits(g)
    ensures Closing(g).h.super == Overwrite(g.h.super, 0,
      SuperHead(|g.h.super|, |Build(1, g.frames).streams[0]|) + SuperEntries(UsedBy(g), |Content(g)|))
  {
    CountWritten(g);
    SameParts(g);
  }

  lemma HeadKept(s: seq<byte>, p: nat, d: seq<byte>, b: seq<byte>, head: seq<byte>, tail: seq<byte>)
    requires Holds(s, p, d) && d == Overwrite(b, 0, head + tail) && |head| + |tail| <= |b|
    ensures Holds(s, p, head)
  {
    assert Holds(d, 0, head);
    Within(s, p, d, 0, head);
  }

  lemma RowPlaced(s: seq<byte>, idx: seq<StdIndex>, at: nat, j: nat)
    requires Holds(s, 244, SuperEntries(idx, at)) && j < |idx| && |idx[j].entries| <= PER_INDEX
    ensures RowSays(s, 244 + 16 * j, |idx[j].entries|)
  {
    var q := at + |AllStd(idx[..j])|;
    SuperEntryAt(idx, at, j);
    Within(s, 244, SuperEntries(idx, at), 16 * j, SuperEntryBytes(q, idx[j]));
    RowHeld(s, 244 + 16 * j, q, idx[j]);
  }

  lemma IndexOk(s: seq<byte>, idx: seq<StdIndex>, at: nat, frames: seq<Frame>, j: nat)
    requires Holds(s, 244, SuperEntries(idx, at)) && Holds(s, at, AllStd(idx)) && |s| < WORD64
    requires Shape(idx, frames) && j < |idx| && frames != [] && idx[j].base < WORD64
    ensures RowOk(s, frames, j)
  {
    Counts(|frames|);
    RowPlaced(s, idx, at, j);
    StdOf(s, idx, at, j);
    PlaceOf(s, idx, at, j);
    StdHeld(s, at + |AllStd(idx[..j])|, idx[j]);
  }

  lemma BaseBelow(g: Film, j: nat)
    requires Good(g) && Fits(g) && |FinalFile(g)| < WORD64 && Shape(UsedBy(g), g.frames) && j < |UsedBy(g)|
      && g.frames != []
    ensures UsedBy(g)[j].base < WORD64
  {
    Counts(|g.frames|);
    if j > 0 { FramePlaced(g, PER_INDEX * j); }
  }

  lemma FileRow(g: Film, j: nat)
    requires Good(g) && |g.h.ext| > 0 && Fits(g) && |FinalFile(g)| < WORD64 && g.frames != [] && j < Used(|g.frames|)
    ensures RowOk(FinalFile(g), g.frames, j)
  {
    UsedShape(g.frames);
    SupersPlaced(g);
    AllStdPlaced(g);
    BaseBelow(g, j);
    IndexOk(FinalFile(g), UsedBy(g), |Content(g)|, g.frames, j);
  }

  lemma FileIndexes(g: Film)
    requires Good(g) && |g.h.ext| > 0 && Fits(g) && |FinalFile(g)| < WORD64 && |g.h.super| < WORD
    ensures IndexesSay(FinalFile(g), |g.h.super| - 8, g.frames)
  {
    UsedShape(g.frames);
    SuperHeadHeld(g);
    SuperHeld(FinalFile(g), 212, |g.h.super|, Used(|g.frames|));
    forall j | 0 <= j < Used(|g.frames|) && g.frames != [] ensures RowOk(FinalFile(g), g.frames, j) {
      FileRow(g, j);
    }
  }

  /** The index blocks of a recording made with OpenDML, each in its place: the super index says how many
      standard indexes are in use, its rows how long each is and how many frames it lists, and each
      standard index says the same of itself and counts from the first frame it lists. */
  lemma RecordingIndexes(w: W.Writer, before: W.Writer, h: Headers, datas: seq<seq<byte>>)
    requires Runs.Opened(w, before, h) && before.openDml && |datas| <= w.reservedFrames && Runs.Room(before, |datas|)
    requires before.reservedFrames < WORD && forall i :: 0 <= i < |datas| ==> |datas[i]| < WORD
    ensures W.Closable(w)
    ensures |Runs.Recorded(w, datas)| < WORD64 ==>
      var frames := Runs.FilmOf(w, h, datas).frames;
      && |frames| == |datas|
      && IndexesSay(Runs.Recorded(w, datas), SuperRoom(before) - 8, frames)
  {
    Runs.OpenedAgrees(w, before, h);
    Runs.RecordingHoldsFrames(w, before, h, datas);
    Runs.FilmFrames(w, before, h, datas);
    OpenedHeaders(before, h);
    if |Runs.Recorded(w, datas)| < WORD64 { FileIndexes(Runs.FilmOf(w, h, datas)); }
  }
}
