/** Whole recordings: `open`, any number of `write_data` calls, `close`. */
module AviFileRuns {
  import opened Bytes
  import opened Riff
  import opened AviIndex
  import opened AviIndexExact
  import opened AviLayout
  import opened AviFilm
  import opened AviWriter
  import opened AviWriterRuns
  import opened AviClose
  import opened AviSizes
  import opened AviLookup

  /** The file a recording leaves. */
  function Recorded(w: Writer, datas: seq<seq<byte>>): seq<byte>
    requires Closable(w)
  {
    ClosableRun(w, datas);
    var w' := AllWritten(w, datas);
    SizesClosed(w', HeadersClosed(w'))
  }

  lemma {:induction false} ClosableRun(w: Writer, datas: seq<seq<byte>>)
    requires Closable(w)
    ensures Closable(AllWritten(w, datas))
    decreases |datas|
  {
    if datas != [] {
      ClosableRun(w, datas[..|datas| - 1]);
    }
  }

  lemma {:induction false} HeadersStay(w: Writer, g: Film, datas: seq<seq<byte>>)
    requires InUse(w)
    ensures AllAdded(w, g, datas).h == g.h
    decreases |datas|
  {
    if datas != [] {
      HeadersStay(w, g, datas[..|datas| - 1]);
    }
  }

  /** `w` has just been opened, with the headers `h`. */
  ghost predicate Opened(w: Writer, before: Writer, h: Headers) {
    && Shaped(h) && h == FirstHeaders(before.avih, before.strh, before.bmi, before.openDml, before.reservedFrames)
    && OpenedFrom(w, before, OpenSection(h, 0, []), h)
    && before.oldIndex == [] && before.idx == Unbegun(1) && before.riffIdx == 0 && before.maxRiffSize == FIRST_LIMIT
  }

  lemma OpenedAgrees(w: Writer, before: Writer, h: Headers)
    requires Opened(w, before, h)
    ensures Agrees(w, Opening(h)) && Good(Opening(h)) && Nested(Opening(h)) && Closable(w)
  {
    OpenAgrees(w, before, h);
    OpeningIsGood(h);
    HeadersOfWriter(w, Opening(h));
  }

  /** The film a recording makes. */
  function FilmOf(w: Writer, h: Headers, datas: seq<seq<byte>>): Film
    requires InUse(w)
  {
    AllAdded(w, Opening(h), datas)
  }

  lemma FilmFrames(w: Writer, before: Writer, h: Headers, datas: seq<seq<byte>>)
    requires Opened(w, before, h) && InUse(w) && |datas| <= w.reservedFrames
    ensures var g := FilmOf(w, h, datas); g.h == h && g.datas == datas && |g.frames| == |datas|
  {
    HeadersStay(w, Opening(h), datas);
    RunFrames(w, Opening(h), datas);
    assert [] + datas == datas;
  }

  /** The number of frames recorded stays within what `open` left room for. */
  predicate Room(before: Writer, n: nat) {
    before.openDml ==> n <= PER_INDEX * Reserved(before.reservedFrames)
  }

  lemma FilmFits(before: Writer, h: Headers, g: Film)
    requires h == FirstHeaders(before.avih, before.strh, before.bmi, before.openDml, before.reservedFrames)
    requires g.h == h && OneStream(g.frames) && Room(before, |g.frames|)
    ensures Fits(g)
  {
    if before.openDml && g.frames != [] {
      UsedLength(g);
      FitsIff(before.reservedFrames, |g.frames|);
    }
  }

  lemma FilmGood(w: Writer, before: Writer, h: Headers, datas: seq<seq<byte>>)
    requires Opened(w, before, h) && InUse(w) && |datas| <= w.reservedFrames && Room(before, |datas|)
    requires forall i :: 0 <= i < |datas| ==> |datas[i]| < WORD
    ensures var g := FilmOf(w, h, datas); Agrees(AllWritten(w, datas), g) && Good(g) && Nested(g) && Fits(g)
  {
    OpenedAgrees(w, before, h);
    RunKeeps(w, Opening(h), datas);
    FilmFrames(w, before, h, datas);
    FilmFits(before, h, FilmOf(w, h, datas));
  }

  /** A recording of frames that `open` left room for, over any number of sections, leaves the film's
      finished file, with every frame given, in order, in its place. */
  lemma RecordingHoldsFrames(w: Writer, before: Writer, h: Headers, datas: seq<seq<byte>>)
    requires Opened(w, before, h) && |datas| <= w.reservedFrames && Room(before, |datas|)
    requires forall i :: 0 <= i < |datas| ==> |datas[i]| < WORD
    ensures Closable(w)
    ensures var g := FilmOf(w, h, datas);
      Good(g) && Fits(g) && g.datas == datas && Recorded(w, datas) == FinalFile(g)
        && HoldAll(Recorded(w, datas), g.frames, datas)
  {
    OpenedAgrees(w, before, h);
    FilmGood(w, before, h, datas);
    FilmFrames(w, before, h, datas);
    CloseFinishes(AllWritten(w, datas), FilmOf(w, h, datas));
    FinishedKeepsFrames(FilmOf(w, h, datas));
  }

  /** And when no frame is long enough to wrap the 32-bit count, and the indexes stay below 295 MB,
      that file is nothing but properly nested elements. */
  lemma RecordingNests(w: Writer, before: Writer, h: Headers, datas: seq<seq<byte>>)
    requires Opened(w, before, h) && |datas| <= w.reservedFrames && Room(before, |datas|)
    requires |OpenSection(h, 0, [])| < FIRST_LIMIT && IndexBytes(|datas|) <= WORD - LATER_LIMIT
    requires forall i :: 0 <= i < |datas| ==> |datas[i]| <= SAFE_FRAME
    ensures Closable(w) && Elements(Recorded(w, datas))
  {
    OpenedAgrees(w, before, h);
    RecordingHoldsFrames(w, before, h, datas);
    FilmGood(w, before, h, datas);
    FilmFrames(w, before, h, datas);
    OpeningSized(h);
    RunSized(w, Opening(h), datas);
    ClosedSmall(FilmOf(w, h, datas));
    ClosedNests(FilmOf(w, h, datas));
  }

  /** With OpenDML, the indexes of a recording lead from the super index to every frame's bytes, exactly
      when those start within 32 bits of the base of the frame's index. */
  lemma RecordingIndexesLead(w: Writer, before: Writer, h: Headers, datas: seq<seq<byte>>, k: nat)
    requires Opened(w, before, h) && before.openDml && |datas| <= w.reservedFrames && Room(before, |datas|)
    requires k < |datas| && forall i :: 0 <= i < |datas| ==> |datas[i]| < WORD
    ensures Closable(w)
    ensures |Recorded(w, datas)| < WORD64 ==>
      var s, frames := Recorded(w, datas), FilmOf(w, h, datas).frames; var j, e := k / PER_INDEX, k % PER_INDEX;
      && |frames| == |datas| && SUPER_POS + SUPER_HEAD + SUPER_ENTRY * (j + 1) <= |s|
      && var q := IndexPlace(s, SUPER_POS, j);
      && q + STD_HEAD + STD_ENTRY * (e + 1) <= |s|
      && var found := EntryFound(s, q, e);
      && found.size == |datas[k]| && Holds(s, frames[k].pos + 8, datas[k])
      && (found.pos == frames[k].pos + 8 <==> frames[k].pos + 8 - GroupBase(frames, k) < WORD)
  {
    RecordingHoldsFrames(w, before, h, datas);
    FilmFrames(w, before, h, datas);
    if |Recorded(w, datas)| < WORD64 {
      IndexesLeadToFrames(FilmOf(w, h, datas), k);
    }
  }
}
