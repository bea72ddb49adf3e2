/** What `close` leaves, over any run before it: a finished file, properly nested, with every frame in
    its place and indexes that lead to the frames. */
module AviClose {
  import opened Bytes
  import opened Riff
  import opened AviIndex
  import opened AviIndexExact
  import opened AviLayout
  import opened AviSections
  import opened AviFilm
  import opened AviWriter
  import opened AviWriterRuns

  // ----- patches of the header blocks, as changes of the film -----

  lemma SetAvih(g: Film, d: seq<byte>)
    requires |g.h.avih| == |d| == AVIH_SIZE
    ensures AVIH_POS + |d| <= |Content(g)| && Overwrite(Content(g), AVIH_POS, d) == Content(g.(h := g.h.(avih := d)))
  {
    var a, z := HeaderApart(g.h, g.h.(avih := d), g.closed, OldBytes(g.old_), g.body);
    PatchAvih(a, g.h, d, z);
  }

  lemma SetStrh(g: Film, d: seq<byte>)
    requires |g.h.avih| == AVIH_SIZE && |g.h.strh| == |d| == STRH_SIZE
    ensures STRH_POS + |d| <= |Content(g)| && Overwrite(Content(g), STRH_POS, d) == Content(g.(h := g.h.(strh := d)))
  {
    var a, z := HeaderApart(g.h, g.h.(strh := d), g.closed, OldBytes(g.old_), g.body);
    PatchStrh(a, g.h, d, z);
  }

  lemma SetSuper(g: Film, d: seq<byte>)
    requires Shaped(g.h) && |d| <= |g.h.super|
    ensures SUPER_POS + |d| <= |Content(g)|
      && Overwrite(Content(g), SUPER_POS, d) == Content(g.(h := g.h.(super := Overwrite(g.h.super, 0, d))))
  {
    var a, z := HeaderApart(g.h, g.h.(super := Overwrite(g.h.super, 0, d)), g.closed, OldBytes(g.old_), g.body);
    PatchSuper(a, g.h, d, z);
  }

  lemma SetExt(g: Film, d: seq<byte>)
    requires Shaped(g.h) && |d| <= |g.h.ext| && |g.h.ext| > 0
    ensures ExtPos(g.h) + |d| <= |Content(g)| && Overwrite(Content(g), ExtPos(g.h), d)
      == Content(g.(h := g.h.(ext := Overwrite(g.h.ext, 0, d))))
  {
    var a, z := HeaderApart(g.h, g.h.(ext := Overwrite(g.h.ext, 0, d)), g.closed, OldBytes(g.old_), g.body);
    PatchExt(a, g.h, d, z);
  }

  // ----- the film `close` makes of the one in hand -----

  function UsedBy(g: Film): seq<StdIndex>
    requires OneStream(g.frames)
  {
    if g.frames == [] then [] else Build(1, g.frames).streams[0]
  }

  /** The counts go into the headers; with OpenDML the standard indexes go after the last frame, and
      their places into the super index. */
  function WithCount(g: Film): Film
    requires Shaped(g.h)
  {
    g.(h := g.h.(avih := Counted(g.h.avih, COUNT_OFFSET, |g.frames|)))
  }

  function WithTotal(g: Film): Film
    requires Shaped(g.h) && |g.h.ext| > 0
  {
    g.(h := g.h.(ext := Overwrite(g.h.ext, 0, LE32(|g.frames|))))
  }

  function SuperBlock(g: Film, at: nat): seq<byte>
    requires Shaped(g.h) && |g.h.ext| > 0 && OneStream(g.frames)
  {
    SuperHead(|g.h.super|, |Build(1, g.frames).streams[0]|) + SuperEntries(UsedBy(g), at)
  }

  function WithSuper(g: Film, at: nat): Film
    requires Shaped(g.h) && |g.h.ext| > 0 && OneStream(g.frames)
  {
    g.(h := g.h.(super := Overwrite(g.h.super, 0, SuperBlock(g, at))))
  }

  function WithIndexes(g: Film): Film
    requires Shaped(g.h) && OneStream(g.frames)
  {
    if |g.h.ext| == 0 then g else WithSuper(Extended(WithTotal(g), AllStd(UsedBy(g))), |Content(g)|)
  }

  function WithLength(g: Film): Film
    requires Shaped(g.h)
  {
    g.(h := g.h.(strh := Counted(g.h.strh, LENGTH_OFFSET, |g.frames|)))
  }

  /** The super index stays inside the room left for it. */
  predicate Fits(g: Film)
    requires OneStream(g.frames)
  {
    |g.h.ext| > 0 ==> SUPER_HEAD + SUPER_ENTRY * |UsedBy(g)| <= |g.h.super|
  }

  lemma CountedShaped(g: Film)
    requires Shaped(g.h)
    ensures Shaped(WithCount(g).h) && SameSizes(g.h, WithCount(g).h)
    ensures Shaped(WithLength(g).h) && SameSizes(g.h, WithLength(g).h)
  {
    CountedHead(g.h.avih, COUNT_OFFSET, |g.frames|);
    CountedHead(g.h.strh, LENGTH_OFFSET, |g.frames|);
  }

  lemma CountedHead(block: seq<byte>, offset: nat, n: nat)
    requires 8 <= offset && offset + 4 <= |block|
    ensures Counted(block, offset, n)[..4] == block[..4] && Counted(block, offset, n)[4..8] == block[4..8]
  {
  }

  function Closing(g: Film): Film
    requires Shaped(g.h) && OneStream(g.frames) && Fits(g)
  {
    CountedShaped(g);
    WithLength(WithIndexes(WithCount(g)))
  }

  // ----- close, on the file -----

  lemma HeaderRoom(g: Film)
    requires Shaped(g.h)
    ensures STRH_POS + STRH_SIZE <= BodyStart(g.h, 0, 0) && SUPER_POS + |g.h.super| <= BodyStart(g.h, 0, 0) - 12
    ensures |g.h.ext| > 0 ==> ExtPos(g.h) + EXT_SIZE <= BodyStart(g.h, 0, 0)
  {
  }

  lemma HeadGood(g: Film, h: Headers, p: nat, d: seq<byte>)
    requires Good(g) && Shaped(h) && SameSizes(g.h, h)
    requires p + |d| <= BodyStart(g.h, 0, 0) && p <= |Content(g)| && Content(g.(h := h)) == Overwrite(Content(g), p, d)
    ensures Good(g.(h := h))
  {
    SameLengths(g.h, h);
    SameBefore(g.h, h, g.closed, OldBytes(g.old_));
    PatchKeepsAll(Content(g), g.frames, g.datas, 0, p, d, BodyStart(g.h, 0, 0));
  }

  lemma CountWritten(g: Film)
    requires Good(g)
    ensures Good(WithCount(g)) && |Content(WithCount(g))| == |Content(g)|
    ensures Patch(Content(g), AVIH_POS, Counted(g.h.avih, COUNT_OFFSET, |g.frames|)) == Content(WithCount(g))
  {
    CountedShaped(g);
    HeaderRoom(g);
    SetAvih(g, Counted(g.h.avih, COUNT_OFFSET, |g.frames|));
    HeadGood(g, WithCount(g).h, AVIH_POS, Counted(g.h.avih, COUNT_OFFSET, |g.frames|));
  }

  lemma LengthWritten(g: Film)
    requires Good(g)
    ensures Good(WithLength(g)) && |Content(WithLength(g))| == |Content(g)|
    ensures Patch(Content(g), STRH_POS, Counted(g.h.strh, LENGTH_OFFSET, |g.frames|)) == Content(WithLength(g))
  {
    CountedShaped(g);
    HeaderRoom(g);
    SetStrh(g, Counted(g.h.strh, LENGTH_OFFSET, |g.frames|));
    HeadGood(g, WithLength(g).h, STRH_POS, Counted(g.h.strh, LENGTH_OFFSET, |g.frames|));
  }

  lemma TotalWritten(g: Film)
    requires Good(g) && |g.h.ext| > 0
    ensures Good(WithTotal(g)) && |Content(WithTotal(g))| == |Content(g)|
    ensures Patch(Content(g), ExtPos(g.h), LE32(|g.frames|)) == Content(WithTotal(g))
  {
    HeaderRoom(g);
    SetExt(g, LE32(|g.frames|));
    HeadGood(g, WithTotal(g).h, ExtPos(g.h), LE32(|g.frames|));
  }

  lemma SuperWritten(g: Film, at: nat)
    requires Good(g) && |g.h.ext| > 0 && Fits(g)
    ensures Good(WithSuper(g, at)) && |Content(WithSuper(g, at))| == |Content(g)|
    ensures Patch(Content(g), SUPER_POS, SuperBlock(g, at)) == Content(WithSuper(g, at))
  {
    HeaderRoom(g);
    SetSuper(g, SuperBlock(g, at));
    HeadGood(g, WithSuper(g, at).h, SUPER_POS, SuperBlock(g, at));
  }

  /** The OpenDML blocks `close` writes into `c`. */
  function IndexesOf(c: seq<byte>, frames: seq<Frame>, openDml: bool, extPos: nat, block: nat): seq<byte>
    requires OneStream(frames) && (openDml ==> SUPER_HEAD <= block)
  {
    if !openDml then c
    else
      var idx := Build(1, frames).streams[0];
      IndexesClosed(Patch(c, extPos, LE32(|frames|)), if frames == [] then [] else idx, SUPER_POS, block, |idx|)
  }

  lemma IndexesWritten(g: Film)
    requires Good(g) && |g.h.ext| > 0 && Fits(g)
    ensures IndexesOf(Content(g), g.frames, true, ExtPos(g.h), |g.h.super|) == Content(WithIndexes(g))
    ensures Good(WithIndexes(g))
  {
    TotalWritten(g);
    var g2 := WithTotal(g);
    ExtendedContent(g2, AllStd(UsedBy(g)));
    ExtendedGood(g2, AllStd(UsedBy(g)));
    SuperWritten(Extended(g2, AllStd(UsedBy(g))), |Content(g)|);
  }

  function FilmIndexes(g: Film, c: seq<byte>): seq<byte>
    requires Shaped(g.h) && OneStream(g.frames)
  {
    IndexesOf(c, g.frames, |g.h.ext| > 0, ExtPos(g.h), |g.h.super|)
  }

  lemma IndexesOfFilm(g: Film)
    requires Good(g) && Fits(g)
    ensures Good(WithIndexes(g)) && FilmIndexes(g, Content(g)) == Content(WithIndexes(g))
    ensures WithIndexes(g).frames == g.frames && WithIndexes(g).h.strh == g.h.strh
  {
    if |g.h.ext| > 0 { IndexesWritten(g); }
  }

  /** All `close` writes before it settles the sizes, read off the film. */
  function HeadersOf(g: Film): seq<byte>
    requires Shaped(g.h) && OneStream(g.frames)
  {
    var c := FilmIndexes(g, Patch(Content(g), AVIH_POS, Counted(g.h.avih, COUNT_OFFSET, |g.frames|)));
    Patch(c, STRH_POS, Counted(g.h.strh, LENGTH_OFFSET, |g.frames|))
  }

  lemma SameParts(g: Film)
    requires Shaped(g.h)
    ensures var g1 := WithCount(g);
      g1.frames == g.frames && g1.h.strh == g.h.strh && g1.h.ext == g.h.ext && g1.h.super == g.h.super
        && ExtPos(g1.h) == ExtPos(g.h)
  {
  }

  lemma SameIndexes(g: Film, c: seq<byte>)
    requires Shaped(g.h) && OneStream(g.frames) && Fits(g)
    ensures Shaped(WithCount(g).h) && FilmIndexes(WithCount(g), c) == FilmIndexes(g, c)
    ensures WithCount(g).frames == g.frames && WithCount(g).h.strh == g.h.strh && Fits(WithCount(g))
  {
    CountedShaped(g);
    SameParts(g);
  }

  lemma HeadersOfFilm(g: Film)
    requires Good(g) && Fits(g)
    ensures Good(Closing(g)) && HeadersOf(g) == Content(Closing(g))
  {
    CountWritten(g);
    SameIndexes(g, Content(WithCount(g)));
    IndexesOfFilm(WithCount(g));
    LengthWritten(WithIndexes(WithCount(g)));
  }

  lemma HeadersOfWriter(w: Writer, g: Film)
    requires Agrees(w, g) && Shaped(g.h)
    ensures Closable(w) && HeadersClosed(w) == HeadersOf(g)
  {
    AgreesInUse(w, g);
    assert Used(w) == UsedBy(g);
  }

  // ----- the finished file -----

  lemma ClosingSame(g: Film)
    requires Shaped(g.h) && OneStream(g.frames) && Fits(g)
    ensures var g' := Closing(g);
      && SameSizes(g.h, g'.h) && g'.closed == g.closed && g'.old_ == g.old_ && g'.frames == g.frames
      && g'.datas == g.datas
      && g'.body == if |g.h.ext| == 0 then g.body else g.body + AllStd(UsedBy(g))
  {
    CountedShaped(g);
    SameParts(g);
  }

  lemma ClosingStart(g: Film)
    requires Shaped(g.h) && OneStream(g.frames) && Fits(g)
    ensures |Done(Closing(g))| == |Done(g)| && Start(Closing(g)) == Start(g)
  {
    ClosingSame(g);
    SameLengths(g.h, Closing(g).h);
    SameBefore(g.h, Closing(g).h, g.closed, OldBytes(g.old_));
  }

  function FinalFile(g: Film): seq<byte>
    requires Shaped(g.h) && OneStream(g.frames) && Fits(g)
  {
    Done(Rolled(Closing(g)))
  }

  /** The sizes `close` settles in `c`: the first section's, with the old index after it, or a later one's. */
  function SizesSettled(c: seq<byte>, first: bool, done: nat, start: nat, idx1: seq<byte>): seq<byte>
    requires 8 <= start && start <= |c| && done + 8 <= |c|
  {
    if first then OldFinished(c, start - 8, idx1) else LastFinished(c, done + 4, start - 8)
  }

  lemma FirstSettled(g: Film)
    requires g.closed == []
    ensures 8 <= Start(g) <= |Content(g)| && |Done(g)| + 8 <= |Content(g)|
    ensures SizesSettled(Content(g), true, |Done(g)|, Start(g), OldBytes(g.old_)) == Done(Rolled(g))
  {
    FinishedIsDone(g);
  }

  lemma LaterStart(g: Film)
    requires g.closed != []
    ensures Start(g) == |Done(g)| + 24 && Start(g) <= |Content(g)|
  {
    ContentLength(g);
  }

  lemma SettledLater(c: seq<byte>, done: nat, start: nat, idx1: seq<byte>)
    requires start == done + 24 && start <= |c|
    ensures SizesSettled(c, false, done, start, idx1) == LastFinished(c, done + 4, done + 16)
  {
  }

  lemma LaterSettled(g: Film)
    requires g.closed != []
    ensures 8 <= Start(g) <= |Content(g)| && |Done(g)| + 8 <= |Content(g)|
    ensures SizesSettled(Content(g), false, |Done(g)|, Start(g), OldBytes(g.old_)) == Done(Rolled(g))
  {
    LaterStart(g);
    SettledLater(Content(g), |Done(g)|, Start(g), OldBytes(g.old_));
    FinishLastOf(Content(g), Done(g), g.h, g.closed, g.body, OldBytes(g.old_));
  }

  lemma SizesOfFilm(g: Film)
    ensures 8 <= Start(g) <= |Content(g)| && |Done(g)| + 8 <= |Content(g)|
    ensures SizesSettled(Content(g), g.closed == [], |Done(g)|, Start(g), OldBytes(g.old_)) == Done(Rolled(g))
  {
    if g.closed == [] {
      FirstSettled(g);
    } else {
      LaterSettled(g);
    }
  }

  lemma SizesOfWriter(w: Writer, c: seq<byte>, first: bool, done: nat, start: nat, idx1: seq<byte>)
    requires InUse(w) && |c| >= |w.f.content| && done + 8 <= |c| && 8 <= start && start <= |c|
    requires w.posMoviListSize == start - 8 && w.posRiffSize == done + 4 && OldBytes(w.oldIndex) == idx1
      && (w.riffIdx == 0 <==> first)
    ensures SizesClosed(w, c) == SizesSettled(c, first, done, start, idx1)
  {
  }

  lemma WriterPlaces(w: Writer, g: Film)
    requires FileAgrees(w, g) && CountsAgree(w, g)
    ensures w.posMoviListSize == Start(g) - 8 && w.posRiffSize == |Done(g)| + 4 && w.oldIndex == g.old_
      && (w.riffIdx == 0 <==> g.closed == [])
    ensures w.f.content == Content(g)
  {
  }

  /** `close` leaves every section finished, the counts and indexes in their blocks, and every frame
      written where it was put. */
  lemma CloseFinishes(w: Writer, g: Film)
    requires Agrees(w, g) && Good(g) && Fits(g)
    ensures Closable(w) && SizesClosed(w, HeadersClosed(w)) == FinalFile(g)
  {
    HeadersOfWriter(w, g);
    HeadersOfFilm(g);
    ClosingSame(g);
    ClosingStart(g);
    SizesOfFilm(Closing(g));
    WriterPlaces(w, g);
    SizesOfWriter(w, Content(Closing(g)), g.closed == [], |Done(g)|, Start(g), OldBytes(g.old_));
  }

  lemma FinishedKeepsFrames(g: Film)
    requires Good(g) && Fits(g)
    ensures HoldAll(FinalFile(g), g.frames, g.datas)
  {
    HeadersOfFilm(g);
    ClosingSame(g);
    FinishedHolds(Closing(g));
    FinishedIsDone(Closing(g));
  }

  // ----- nesting -----

  lemma UsedShape(frames: seq<Frame>)
    requires OneStream(frames)
    ensures Shape(Build(1, frames).streams[0], frames)
    ensures forall j :: 0 <= j < |Build(1, frames).streams[0]| ==> |Build(1, frames).streams[0][j].entries| <= PER_INDEX
  {
    BuildShape(1, frames, 0);
    OnlyZeroRolls(1, frames);
    Counts(|frames|);
  }

  lemma SuperStarts(block: seq<byte>, supers: seq<byte>, inUse: nat)
    requires SUPER_HEAD + |supers| <= |block|
    ensures var b := Overwrite(block, 0, SuperHead(|block|, inUse) + supers);
      b[..4] == INDX && b[4..8] == LE32(|block| - 8)
  {
    var head := SuperHead(|block|, inUse);
    assert head[..4] == INDX && head[4..8] == LE32(|block| - 8);
    var b := Overwrite(block, 0, head + supers);
    assert b[..4] == head[..4] && b[4..8] == head[4..8];
  }

  lemma SuperFinished(g: Film, at: nat)
    requires Shaped(g.h) && |g.h.ext| > 0 && OneStream(g.frames) && Fits(g)
    ensures Finished(WithSuper(g, at).h)
  {
    SuperStarts(g.h.super, SuperEntries(UsedBy(g), at), |Build(1, g.frames).streams[0]|);
  }

  lemma IndexesHeaders(g: Film)
    requires Shaped(g.h) && OneStream(g.frames) && Fits(g)
    ensures Finished(WithIndexes(g).h)
  {
    if |g.h.ext| > 0 {
      SuperFinished(Extended(WithTotal(g), AllStd(UsedBy(g))), |Content(g)|);
    }
  }

  lemma ClosingHeaders(g: Film)
    requires Shaped(g.h) && OneStream(g.frames) && Fits(g)
    ensures Finished(Closing(g).h)
  {
    CountedShaped(g);
    SameParts(g);
    IndexesHeaders(WithCount(g));
    CountedShaped(WithIndexes(WithCount(g)));
  }

  /** However many sections there are, the file `close` leaves is nothing but properly nested
      elements, as long as no section reaches 4 GiB and the super index stays in its room. */
  lemma ClosedNests(g: Film)
    requires Shaped(g.h) && OneStream(g.frames) && Nested(g) && Fits(g)
    requires SmallSections(Closing(g).h, Closing(g).closed + [Closing(g).body], OldBytes(g.old_))
    ensures Elements(FinalFile(g))
  {
    ClosingSame(g);
    ClosingHeaders(g);
    UsedShape(g.frames);
    if |g.h.ext| > 0 {
      AllStdElements(UsedBy(g));
      ElementsJoin(g.body, AllStd(UsedBy(g)));
    }
    FileElements(Closing(g).h, Closing(g).closed + [Closing(g).body], OldBytes(g.old_));
  }
}
