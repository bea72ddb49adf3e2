/** The file an AVI writer has in hand, as a value: its sections, the frames in them and where they
    lie. What adding a frame and beginning a section do to it. */
module AviFilm {
  import opened Bytes
  import opened Riff
  import opened AviIndex
  import opened AviIndexExact
  import opened AviLayout
  import opened AviSections

  /** `closed` and `body` are the movi bodies of the finished sections and of the open one. */
  datatype Film = Film(h: Headers, closed: seq<seq<byte>>, body: seq<byte>, old_: seq<OldEntry>, frames: seq<Frame>,
    datas: seq<seq<byte>>)

  function Done(g: Film): seq<byte> {
    Before(g.h, g.closed, OldBytes(g.old_))
  }

  /** The file while the last section's sizes are open. */
  function Content(g: Film): seq<byte> {
    Done(g) + OpenSection(g.h, |g.closed|, g.body)
  }

  function Start(g: Film): nat {
    BodyStart(g.h, |g.closed|, |Done(g)|)
  }

  function FirstMovi(g: Film): int {
    BodyStart(g.h, 0, 0) - 4
  }

  /** `s` holds `d` at `p`. */
  predicate Holds(s: seq<byte>, p: nat, d: seq<byte>) {
    p + |d| <= |s| && s[p..p + |d|] == d
  }

  /** Every frame's chunk is in `s` at its place. */
  ghost predicate HoldAll(s: seq<byte>, frames: seq<Frame>, datas: seq<seq<byte>>) {
    |frames| == |datas| &&
    forall k :: 0 <= k < |frames| ==> frames[k].len == |datas[k]| && Holds(s, frames[k].pos, Chunk(FRAME, datas[k]))
  }

  /** No frame's chunk touches the bytes from `lo` up to `hi`. */
  ghost predicate Apart(frames: seq<Frame>, lo: int, hi: int) {
    forall k :: 0 <= k < |frames| ==> frames[k].pos + 8 + frames[k].len <= lo || frames[k].pos >= hi
  }

  /** The old index lists the frames of the first section by their distance from its `movi`. */
  ghost predicate Indexed(frames: seq<Frame>, old_: seq<OldEntry>, movi: int) {
    |old_| <= |frames| &&
    forall k :: 0 <= k < |old_| ==> old_[k].offset == frames[k].pos - movi && old_[k].size == frames[k].len
  }

  ghost predicate Good(g: Film) {
    && Shaped(g.h)
    && HoldAll(Content(g), g.frames, g.datas)
    && Apart(g.frames, |Done(g)|, Start(g)) && Apart(g.frames, 0, BodyStart(g.h, 0, 0))
    && OneStream(g.frames) && Ascending(g.frames)
    && Indexed(g.frames, g.old_, FirstMovi(g)) && (g.closed == [] ==> |g.old_| == |g.frames|)
  }

  /** The bodies are sequences of elements. */
  ghost predicate Nested(g: Film) {
    Elements(g.body) && forall i :: 0 <= i < |g.closed| ==> Elements(g.closed[i])
  }

  /** What the writer's RIFF size counts: in the first section everything written and an old index
      entry a frame, one ahead; later exactly the section's bytes. */
  function Accounted(g: Film): int {
    if g.closed == [] then |Content(g)| + OLD_ENTRY * (|g.frames| + 1) else |Content(g)| - |Done(g)|
  }

  // ----- patches and additions leave the frames alone -----

  lemma PatchKeepsAll(s: seq<byte>, frames: seq<Frame>, datas: seq<seq<byte>>, lo: int, q: nat, e: seq<byte>, hi: int)
    requires HoldAll(s, frames, datas) && Apart(frames, lo, hi) && lo <= q <= |s| && q + |e| <= hi
    ensures HoldAll(Overwrite(s, q, e), frames, datas)
  {
    var s' := Overwrite(s, q, e);
    forall k | 0 <= k < |frames| ensures Holds(s', frames[k].pos, Chunk(FRAME, datas[k])) {
      var p, n := frames[k].pos, 8 + frames[k].len;
      assert s'[p..p + n] == s[p..p + n];
    }
  }

  lemma AppendKeepsAll(s: seq<byte>, frames: seq<Frame>, datas: seq<seq<byte>>, d: seq<byte>)
    requires HoldAll(s, frames, datas)
    ensures HoldAll(s + d, frames, datas)
  {
    forall k | 0 <= k < |frames| ensures Holds(s + d, frames[k].pos, Chunk(FRAME, datas[k])) {
      var p, n := frames[k].pos, 8 + frames[k].len;
      assert (s + d)[p..p + n] == s[p..p + n];
    }
  }

  // ----- a frame more -----

  /** More bytes at the end of the open section. */
  function Extended(g: Film, d: seq<byte>): Film {
    g.(body := g.body + d)
  }

  lemma ExtendedContent(g: Film, d: seq<byte>)
    ensures Content(Extended(g, d)) == Content(g) + d
  {
    var head := RIFF + LE32(0) + Form(|g.closed|);
    var inner := LIST + LE32(0) + MOVI;
    Regroup(inner, g.body, d);
    Regroup(Head(g.h, |g.closed|), OpenList(LIST, MOVI, g.body), d);
    Regroup(head, Head(g.h, |g.closed|) + OpenList(LIST, MOVI, g.body), d);
    Regroup(Done(g), OpenSection(g.h, |g.closed|, g.body), d);
  }

  lemma ExtendedGood(g: Film, d: seq<byte>)
    requires Good(g)
    ensures Good(Extended(g, d))
  {
    ExtendedContent(g, d);
    AppendKeepsAll(Content(g), g.frames, g.datas, d);
  }

  lemma ContentLength(g: Film)
    ensures |Content(g)| == Start(g) + |g.body| && FirstMovi(g) <= |Content(g)|
    ensures BodyStart(g.h, 0, 0) <= Start(g)
  {
    if g.closed != [] { FirstInBefore(g.h, g.closed, OldBytes(g.old_)); }
  }

  lemma {:induction false} FirstInBefore(h: Headers, closed: seq<seq<byte>>, idx1: seq<byte>)
    requires closed != []
    ensures |Before(h, closed, idx1)| >= BodyStart(h, 0, 0)
    decreases |closed|
  {
    var n := |closed| - 1;
    if n == 0 {
      FirstBefore(h, closed, idx1);
    } else {
      FirstInBefore(h, closed[..n], idx1);
    }
  }

  function Added(g: Film, data: seq<byte>): Film {
    ContentLength(g);
    var f := Frame(0, |Content(g)|, |data|);
    Film(g.h, g.closed, g.body + Chunk(FRAME, data),
         if g.closed == [] then g.old_ + [OldEntry(|Content(g)| - FirstMovi(g), |data|)] else g.old_,
         g.frames + [f], g.datas + [data])
  }

  lemma AddedContent(g: Film, data: seq<byte>)
    ensures Content(Added(g, data)) == Content(g) + Chunk(FRAME, data) && Done(Added(g, data)) == Done(g)
  {
    ExtendedContent(g, Chunk(FRAME, data));
    if g.closed == [] {
      assert Done(Added(g, data)) == [] == Done(g);
    }
    assert Content(Added(g, data)) == Content(Extended(g, Chunk(FRAME, data)));
  }

  lemma MoreFrames(s: seq<byte>, frames: seq<Frame>, datas: seq<seq<byte>>, data: seq<byte>)
    requires HoldAll(s, frames, datas)
    ensures HoldAll(s + Chunk(FRAME, data), frames + [Frame(0, |s|, |data|)], datas + [data])
    ensures forall k :: 0 <= k < |frames| ==> frames[k].pos < |s|
  {
    var c := Chunk(FRAME, data);
    AppendKeepsAll(s, frames, datas, c);
    assert (s + c)[|s|..|s| + |c|] == c;
    forall k | 0 <= k < |frames| ensures frames[k].pos < |s| {
      assert Holds(s, frames[k].pos, Chunk(FRAME, datas[k]));
    }
  }

  lemma MoreApart(frames: seq<Frame>, f: Frame, lo: int, hi: int)
    requires Apart(frames, lo, hi) && f.pos >= hi
    ensures Apart(frames + [f], lo, hi)
  {
  }

  lemma MoreIndexed(frames: seq<Frame>, old_: seq<OldEntry>, movi: int, f: Frame)
    requires Indexed(frames, old_, movi) && movi <= f.pos
    ensures Indexed(frames + [f], old_, movi)
    ensures |old_| == |frames| ==> Indexed(frames + [f], old_ + [OldEntry(f.pos - movi, f.len)], movi)
  {
  }

  lemma AddedGood(g: Film, data: seq<byte>)
    requires Good(g)
    ensures Good(Added(g, data))
  {
    ContentLength(g);
    AddedContent(g, data);
    var f := Frame(0, |Content(g)|, |data|);
    MoreFrames(Content(g), g.frames, g.datas, data);
    MoreApart(g.frames, f, |Done(g)|, Start(g));
    MoreApart(g.frames, f, 0, BodyStart(g.h, 0, 0));
    MoreIndexed(g.frames, g.old_, FirstMovi(g), f);
    assert Start(Added(g, data)) == Start(g);
  }

  lemma AddedNested(g: Film, data: seq<byte>)
    requires Nested(g) && |data| < WORD
    ensures Nested(Added(g, data))
  {
    ChunkElements(FRAME, data);
    ElementsJoin(g.body, Chunk(FRAME, data));
  }

  lemma AddedAccounts(g: Film, data: seq<byte>)
    ensures Accounted(Added(g, data)) == Accounted(g) + |data| + 8 + if g.closed == [] then OLD_ENTRY else 0
  {
    AddedContent(g, data);
  }

  // ----- a section more -----

  /** The head of a later section, its sizes open. */
  function AvixHead(): (r: seq<byte>)
    ensures |r| == 24
  {
    RIFF + LE32(0) + AVIX + LIST + LE32(0) + MOVI
  }

  function SectionFinished(g: Film): seq<byte>
    requires Start(g) <= |Content(g)|
  {
    if g.closed == [] then OldFinished(Content(g), Start(g) - 8, OldBytes(g.old_))
    else AvixFinished(Content(g), |Done(g)| + 4, Start(g) - 8)
  }

  function Rolled(g: Film): Film {
    g.(closed := g.closed + [g.body], body := [])
  }

  lemma FinishedIsDone(g: Film)
    ensures Start(g) <= |Content(g)| && SectionFinished(g) == Done(Rolled(g))
  {
    if g.closed == [] {
      FirstFinished(g);
      FirstDone(g);
    } else {
      LaterFinished(g);
    }
  }

  lemma EmptyLeft(s: seq<byte>)
    ensures [] + s == s
  {
  }

  lemma FirstContent(g: Film)
    requires g.closed == []
    ensures Done(g) == [] && Content(g) == OpenSection(g.h, 0, g.body) && Start(g) == BodyStart(g.h, 0, 0)
  {
    EmptyLeft(OpenSection(g.h, 0, g.body));
  }

  /** What finishing the first section comes to, on its own. */
  lemma FirstSection(g: Film)
    requires g.closed == []
    ensures Start(g) <= |Content(g)|
    ensures SectionFinished(g) == OldFinished(OpenSection(g.h, 0, g.body), BodyStart(g.h, 0, 0) - 8, OldBytes(g.old_))
  {
    ContentLength(g);
    FirstContent(g);
  }

  lemma FirstFinished(g: Film)
    requires g.closed == []
    ensures Start(g) <= |Content(g)| && SectionFinished(g) == Section(g.h, 0, g.body, OldBytes(g.old_))
  {
    FirstSection(g);
    FinishFirst(g.h, g.body, OldBytes(g.old_));
  }

  lemma FirstDone(g: Film)
    requires g.closed == []
    ensures Done(Rolled(g)) == Section(g.h, 0, g.body, OldBytes(g.old_))
  {
    FirstBefore(g.h, [] + [g.body], OldBytes(g.old_));
  }

  lemma LaterFinished(g: Film)
    requires g.closed != []
    ensures Start(g) <= |Content(g)| && SectionFinished(g) == Done(Rolled(g))
  {
    ContentLength(g);
    FinishLaterOf(Content(g), Done(g), g.h, g.closed, g.body, OldBytes(g.old_));
  }

  lemma RolledContent(g: Film)
    ensures Start(g) <= |Content(g)| && Content(Rolled(g)) == SectionFinished(g) + AvixHead()
    ensures Start(Rolled(g)) == |Done(Rolled(g))| + 24
  {
    FinishedIsDone(g);
    LaterSection(g.h, |g.closed| + 1, [], []);
    assert OpenList(RIFF, AVIX, OpenList(LIST, MOVI, [])) == AvixHead();
  }

  lemma OldFinishedHolds(c: seq<byte>, moviPos: nat, idx1: seq<byte>, frames: seq<Frame>, datas: seq<seq<byte>>)
    requires 8 <= moviPos && moviPos + 8 <= |c| && HoldAll(c, frames, datas) && Apart(frames, 0, moviPos + 8)
    ensures HoldAll(OldFinished(c, moviPos, idx1), frames, datas)
  {
    var c1 := Overwrite(c, moviPos, LE32(|c| - moviPos - 4));
    PatchKeepsAll(c, frames, datas, 0, moviPos, LE32(|c| - moviPos - 4), moviPos + 8);
    var c2 := c1 + Chunk(IDX1, idx1);
    AppendKeepsAll(c1, frames, datas, Chunk(IDX1, idx1));
    PatchKeepsAll(c2, frames, datas, 0, 4, LE32(|c2| - 8), moviPos + 8);
  }

  lemma AvixFinishedHolds(c: seq<byte>, riffPos: nat, moviPos: nat, frames: seq<Frame>, datas: seq<seq<byte>>)
    requires riffPos + 4 <= moviPos && moviPos + 8 <= |c| && HoldAll(c, frames, datas)
      && Apart(frames, riffPos, moviPos + 8)
    ensures HoldAll(AvixFinished(c, riffPos, moviPos), frames, datas)
  {
    var c1 := Overwrite(c, riffPos, LE32(|c| - riffPos - 4));
    PatchKeepsAll(c, frames, datas, riffPos, riffPos, LE32(|c| - riffPos - 4), moviPos + 8);
    PatchKeepsAll(c1, frames, datas, riffPos, moviPos, LE32(|c| - moviPos - 4), moviPos + 8);
  }

  lemma ApartWithin(frames: seq<Frame>, lo: int, lo': int, hi: int)
    requires Apart(frames, lo, hi) && lo <= lo'
    ensures Apart(frames, lo', hi)
  {
  }

  lemma FirstFinishedHolds(g: Film)
    requires HoldAll(Content(g), g.frames, g.datas) && Apart(g.frames, 0, BodyStart(g.h, 0, 0)) && g.closed == []
    ensures Start(g) <= |Content(g)| && HoldAll(SectionFinished(g), g.frames, g.datas)
  {
    ContentLength(g);
    FirstContent(g);
    OldFinishedHolds(Content(g), Start(g) - 8, OldBytes(g.old_), g.frames, g.datas);
  }

  lemma LaterFinishedHolds(g: Film)
    requires HoldAll(Content(g), g.frames, g.datas) && Apart(g.frames, |Done(g)|, Start(g)) && g.closed != []
    ensures Start(g) <= |Content(g)| && HoldAll(SectionFinished(g), g.frames, g.datas)
  {
    ContentLength(g);
    ApartWithin(g.frames, |Done(g)|, |Done(g)| + 4, Start(g));
    AvixFinishedHolds(Content(g), |Done(g)| + 4, Start(g) - 8, g.frames, g.datas);
  }

  lemma FinishedHolds(g: Film)
    requires Good(g)
    ensures Start(g) <= |Content(g)| && HoldAll(SectionFinished(g), g.frames, g.datas)
  {
    if g.closed == [] {
      FirstFinishedHolds(g);
    } else {
      LaterFinishedHolds(g);
    }
  }

  lemma RolledGood(g: Film)
    requires Good(g)
    ensures Good(Rolled(g)) && Accounted(Rolled(g)) == 24
  {
    FinishedHolds(g);
    FinishedIsDone(g);
    RolledContent(g);
    var g', s := Rolled(g), SectionFinished(g);
    AppendKeepsAll(s, g.frames, g.datas, AvixHead());
    forall k | 0 <= k < |g.frames| ensures g.frames[k].pos + 8 + g.frames[k].len <= |Done(g')| {
      assert Holds(s, g.frames[k].pos, Chunk(FRAME, g.datas[k]));
    }
  }

  lemma RolledNested(g: Film)
    requires Nested(g)
    ensures Nested(Rolled(g))
  {
  }
}
