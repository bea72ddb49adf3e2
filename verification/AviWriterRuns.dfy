/** What a writer's calls keep, over any run: the film it has in hand. */
module AviWriterRuns {
  import opened Bytes
  import opened AviIndex
  import opened AviIndexExact
  import opened AviLayout
  import opened AviFilm
  import opened AviWriter

  /** The file and the positions kept for patching are the film's. */
  ghost predicate FileAgrees(w: Writer, g: Film) {
    && w.f == AtEnd(Content(g))
    && w.posRiffSize == |Done(g)| + 4 && w.posMoviListSize == Start(g) - 8 && w.pos1stMoviStart == FirstMovi(g)
  }

  ghost predicate HeadersAgree(w: Writer, g: Film) {
    && g.h.avih == w.avih && g.h.strh == w.strh && g.h.bmi == w.bmi && (w.openDml <==> |g.h.ext| > 0)
    && (w.openDml ==> w.posSuperIdx == SUPER_POS && w.posOdmlExt == ExtPos(g.h) && w.superBlock == |g.h.super|)
  }

  ghost predicate CountsAgree(w: Writer, g: Film) {
    && w.oldIndex == g.old_ && w.totalFrames == |g.frames|
    && OneStream(g.frames) && w.idx == Build(1, g.frames) && (w.openDml ==> w.superInUse == |w.idx.streams[0]|)
    && w.riffIdx == |g.closed| && w.maxRiffSize == (if w.riffIdx == 0 then FIRST_LIMIT else LATER_LIMIT)
    && Accounted(g) >= 0 && w.riffSize == Accounted(g) % WORD
  }

  ghost predicate Agrees(w: Writer, g: Film) {
    FileAgrees(w, g) && HeadersAgree(w, g) && CountsAgree(w, g)
  }

  lemma AgreesInUse(w: Writer, g: Film)
    requires Agrees(w, g)
    ensures InUse(w)
  {
    ContentLength(g);
    if g.closed == [] { FirstContent(g); }
  }

  lemma Shifted(x: nat, q: nat)
    ensures (x + WORD * q) % WORD == x % WORD
  {
    assert (x + WORD * q) / WORD == x / WORD + q;
  }

  lemma ResidueSum(a: nat, b: nat)
    ensures (a % WORD + b) % WORD == (a + b) % WORD
  {
    Shifted(a % WORD + b, a / WORD);
  }

  lemma Residues(a: nat, b: nat)
    ensures (a % WORD + b) % WORD == (a + b) % WORD
    ensures ((a % WORD + b) % WORD + OLD_ENTRY) % WORD == (a + b + OLD_ENTRY) % WORD
  {
    ResidueSum(a, b);
    ResidueSum(a + b, OLD_ENTRY);
  }

  lemma AppendFile(w: Writer, g: Film, data: seq<byte>)
    requires Agrees(w, g) && InUse(w)
    ensures FileAgrees(FrameAppended(w, data), Added(g, data))
  {
    AddedContent(g, data);
  }

  lemma BuildMore(frames: seq<Frame>, f: Frame)
    requires OneStream(frames) && f.stream == 0
    ensures OneStream(frames + [f]) && Build(1, frames + [f]) == AddEntry(Build(1, frames), f)
    ensures var own := Build(1, frames).streams[0];
      |Build(1, frames + [f]).streams[0]| == |own| + if Full(Last(own)) then 1 else 0
  {
    assert (frames + [f])[..|frames|] == frames;
  }

  lemma AppendSize(w: Writer, g: Film, data: seq<byte>)
    requires Agrees(w, g) && InUse(w)
    ensures FrameAppended(w, data).riffSize == Accounted(Added(g, data)) % WORD && Accounted(Added(g, data)) >= 0
  {
    AddedAccounts(g, data);
    Residues(Accounted(g), |data| + 8);
  }

  lemma AppendCounts(w: Writer, g: Film, data: seq<byte>)
    requires Agrees(w, g) && InUse(w)
    ensures CountsAgree(FrameAppended(w, data), Added(g, data))
  {
    AppendSize(w, g, data);
    BuildMore(g.frames, Frame(0, |Content(g)|, |data|));
  }

  lemma AppendAgrees(w: Writer, g: Film, data: seq<byte>)
    requires Agrees(w, g) && InUse(w)
    ensures Agrees(FrameAppended(w, data), Added(g, data))
  {
    AppendFile(w, g, data);
    AppendCounts(w, g, data);
  }

  lemma RollFile(w: Writer, g: Film)
    requires Agrees(w, g) && InUse(w)
    ensures FileAgrees(RolledOver(w), Rolled(g)) && SectionEnded(w) == Done(Rolled(g))
  {
    ContentLength(g);
    FinishedIsDone(g);
    RolledContent(g);
    if g.closed == [] { FirstContent(g); }
    assert SectionEnded(w) == SectionFinished(g);
  }

  lemma RollCounts(w: Writer, g: Film)
    requires Agrees(w, g) && InUse(w)
    ensures CountsAgree(RolledOver(w), Rolled(g)) && HeadersAgree(RolledOver(w), Rolled(g))
  {
    RolledContent(g);
    assert Accounted(Rolled(g)) == 24;
  }

  lemma RollAgrees(w: Writer, g: Film)
    requires Agrees(w, g) && InUse(w)
    ensures Agrees(RolledOver(w), Rolled(g))
  {
    RollFile(w, g);
    RollCounts(w, g);
  }

  // ----- any run of frames -----

  function DataAdded(w: Writer, g: Film, data: seq<byte>): Film {
    if w.reservedFrames <= w.totalFrames then g
    else Added(if RollsOver(w, |data|) then Rolled(g) else g, data)
  }

  lemma DataKeeps(w: Writer, g: Film, data: seq<byte>)
    requires Agrees(w, g) && InUse(w) && Good(g) && Nested(g) && |data| < WORD
    ensures var g' := DataAdded(w, g, data);
      Agrees(DataWritten(w, data).0, g') && Good(g') && Nested(g')
  {
    if w.reservedFrames > w.totalFrames {
      if RollsOver(w, |data|) {
        RollAgrees(w, g);
        RolledGood(g);
        RolledNested(g);
        AppendAgrees(RolledOver(w), Rolled(g), data);
        AddedGood(Rolled(g), data);
        AddedNested(Rolled(g), data);
      } else {
        AppendAgrees(w, g, data);
        AddedGood(g, data);
        AddedNested(g, data);
      }
    }
  }

  function AllWritten(w: Writer, datas: seq<seq<byte>>): (w': Writer)
    requires InUse(w)
    ensures InUse(w')
    decreases |datas|
  {
    if datas == [] then w
    else DataWritten(AllWritten(w, datas[..|datas| - 1]), datas[|datas| - 1]).0
  }

  /** The film after a run of `write_data` calls. */
  function AllAdded(w: Writer, g: Film, datas: seq<seq<byte>>): Film
    requires InUse(w)
    decreases |datas|
  {
    if datas == [] then g
    else
      var n := |datas| - 1;
      DataAdded(AllWritten(w, datas[..n]), AllAdded(w, g, datas[..n]), datas[n])
  }

  lemma {:induction false} RunKeeps(w: Writer, g: Film, datas: seq<seq<byte>>)
    requires Agrees(w, g) && InUse(w) && Good(g) && Nested(g)
    requires forall i :: 0 <= i < |datas| ==> |datas[i]| < WORD
    ensures var g' := AllAdded(w, g, datas);
      Agrees(AllWritten(w, datas), g') && Good(g') && Nested(g')
    decreases |datas|
  {
    if datas != [] {
      var n := |datas| - 1;
      RunKeeps(w, g, datas[..n]);
      DataKeeps(AllWritten(w, datas[..n]), AllAdded(w, g, datas[..n]), datas[n]);
    }
  }

  lemma DataCounts(w: Writer, g: Film, data: seq<byte>)
    requires InUse(w)
    ensures var more := if w.totalFrames < w.reservedFrames then [data] else [];
      && DataAdded(w, g, data).datas == g.datas + more && |DataAdded(w, g, data).frames| == |g.frames| + |more|
      && DataWritten(w, data).0.totalFrames == w.totalFrames + |more|
      && (DataWritten(w, data).1 <==> more != []) && (more == [] ==> DataWritten(w, data).0 == w)
    ensures DataWritten(w, data).0.reservedFrames == w.reservedFrames
  {
  }

  /** How many of `n` frames more are taken. */
  function Admitted(w: Writer, n: nat): (r: nat)
    ensures r <= n
  {
    if w.totalFrames + n <= w.reservedFrames then n
    else if w.totalFrames <= w.reservedFrames then w.reservedFrames - w.totalFrames
    else 0
  }

  /** Once the frames reserved are written, all others are refused and change nothing. */
  lemma {:induction false} RefusedStay(w: Writer, datas: seq<seq<byte>>)
    requires InUse(w) && w.reservedFrames <= w.totalFrames
    ensures AllWritten(w, datas) == w
    decreases |datas|
  {
    if datas != [] { RefusedStay(w, datas[..|datas| - 1]); }
  }

  /** The frames in the film are those given, in order, as far as the number reserved allows. */
  lemma {:induction false} RunFrames(w: Writer, g: Film, datas: seq<seq<byte>>)
    requires InUse(w) && w.totalFrames == |g.frames|
    ensures var n := Admitted(w, |datas|);
      && AllAdded(w, g, datas).datas == g.datas + datas[..n]
      && |AllAdded(w, g, datas).frames| == |g.frames| + n == AllWritten(w, datas).totalFrames
    ensures AllWritten(w, datas).reservedFrames == w.reservedFrames
    decreases |datas|
  {
    if datas != [] {
      var n := |datas| - 1;
      RunFrames(w, g, datas[..n]);
      DataCounts(AllWritten(w, datas[..n]), AllAdded(w, g, datas[..n]), datas[n]);
      MoreAdmitted(g.datas, datas, Admitted(w, n), Admitted(w, n + 1));
    }
  }

  lemma MoreAdmitted(before: seq<seq<byte>>, datas: seq<seq<byte>>, k: nat, k': nat)
    requires datas != [] && (k' == k < |datas| || (k == |datas| - 1 && k' == |datas|))
    ensures before + datas[..|datas| - 1][..k] + (if k' > k then [datas[|datas| - 1]] else []) == before + datas[..k']
  {
    if k' > k {
      assert datas[..k'] == datas == datas[..k] + [datas[k]];
    }
    assert datas[..|datas| - 1][..k] == datas[..k];
  }

  /** The film just opened: no frames yet. */
  function Opening(h: Headers): Film {
    Film(h, [], [], [], [], [])
  }

  lemma OpeningIsGood(h: Headers)
    requires Shaped(h)
    ensures Good(Opening(h)) && Nested(Opening(h)) && Content(Opening(h)) == OpenSection(h, 0, [])
  {
    FirstContent(Opening(h));
  }

  lemma OpenAgrees(w: Writer, before: Writer, h: Headers)
    requires Shaped(h) && h == FirstHeaders(before.avih, before.strh, before.bmi, before.openDml, before.reservedFrames)
    requires OpenedFrom(w, before, OpenSection(h, 0, []), h)
    requires before.oldIndex == [] && before.idx == Unbegun(1)
    requires before.riffIdx == 0 && before.maxRiffSize == FIRST_LIMIT
    ensures Agrees(w, Opening(h)) && InUse(w)
  {
    OpeningIsGood(h);
    BegunFirst(1);
    FirstContent(Opening(h));
    ContentLength(Opening(h));
    AgreesInUse(w, Opening(h));
  }
}
