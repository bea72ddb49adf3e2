/** Finishing a section by filling its sizes in, and that finished sections nest properly. */
module AviSections {
  import opened Bytes
  import opened Riff
  import opened AviIndex
  import opened AviLayout

  // ----- filling sizes in -----

  lemma FillOpen(pre: seq<byte>, id: FourCC, form: FourCC, body: seq<byte>)
    ensures Overwrite(pre + OpenList(id, form, body), |pre| + 4, LE32(4 + |body|)) == pre + List(id, form, body)
  {
    FillSize(pre, id, form, body, []);
    assert pre + OpenList(id, form, body) + [] == pre + OpenList(id, form, body);
    assert pre + List(id, form, body) + [] == pre + List(id, form, body);
  }

  /** Filling in the size of the last list of a body, open or not around it. */
  lemma FillLast(head: seq<byte>, x: seq<byte>, id: FourCC, form: FourCC, body: seq<byte>)
    ensures Overwrite(head + (x + OpenList(id, form, body)), |head| + |x| + 4, LE32(4 + |body|))
      == head + (x + List(id, form, body))
  {
    Regroup(head, x, OpenList(id, form, body));
    Regroup(head, x, List(id, form, body));
    FillOpen(head + x, id, form, body);
  }

  /** `finish_old` on a whole file: the movi size, the old index after it, the RIFF size. */
  function OldFinished(c: seq<byte>, moviPos: nat, idx1: seq<byte>): seq<byte>
    requires moviPos + 4 <= |c| && 8 <= |c|
  {
    var c1 := Overwrite(c, moviPos, LE32(|c| - moviPos - 4));
    var c2 := c1 + Chunk(IDX1, idx1);
    Overwrite(c2, 4, LE32(|c2| - 8))
  }

  /** `finish_avix` on a whole file: the RIFF size, then the movi size. */
  function AvixFinished(c: seq<byte>, riffPos: nat, moviPos: nat): seq<byte>
    requires riffPos + 4 <= |c| && moviPos + 4 <= |c|
  {
    Overwrite(Overwrite(c, riffPos, LE32(|c| - riffPos - 4)), moviPos, LE32(|c| - moviPos - 4))
  }

  /** `finish_old` finishes the first section. */
  lemma FinishFirst(h: Headers, body: seq<byte>, idx1: seq<byte>)
    ensures OldFinished(OpenSection(h, 0, body), BodyStart(h, 0, 0) - 8, idx1) == Section(h, 0, body, idx1)
  {
    var head := RIFF + LE32(0) + AVI;
    var movi, tail := List(LIST, MOVI, body), Chunk(IDX1, idx1);
    FillLast(head, Hdrl(h), LIST, MOVI, body);
    Regroup(head, Hdrl(h) + movi, tail);
    Regroup(Hdrl(h), movi, tail);
    FillFirst(RIFF, AVI, Hdrl(h) + (movi + tail));
  }

  lemma FillFirst(id: FourCC, form: FourCC, body: seq<byte>)
    ensures Overwrite(OpenList(id, form, body), 4, LE32(4 + |body|)) == List(id, form, body)
  {
    FillOpen([], id, form, body);
    assert [] + OpenList(id, form, body) == OpenList(id, form, body);
    assert [] + List(id, form, body) == List(id, form, body);
  }

  lemma LaterSection(h: Headers, i: nat, body: seq<byte>, idx1: seq<byte>)
    requires 0 < i
    ensures Section(h, i, body, idx1) == List(RIFF, AVIX, List(LIST, MOVI, body))
    ensures OpenSection(h, i, body) == OpenList(RIFF, AVIX, OpenList(LIST, MOVI, body))
  {
    assert [] + (List(LIST, MOVI, body) + []) == List(LIST, MOVI, body);
    assert [] + OpenList(LIST, MOVI, body) == OpenList(LIST, MOVI, body);
  }

  /** `finish_avix` finishes a later section, after `pre`. */
  lemma FinishLater(pre: seq<byte>, h: Headers, i: nat, body: seq<byte>, idx1: seq<byte>)
    requires 0 < i
    ensures AvixFinished(pre + OpenSection(h, i, body), |pre| + 4, |pre| + 16) == pre + Section(h, i, body, idx1)
  {
    LaterSection(h, i, body, idx1);
    var inner := OpenList(LIST, MOVI, body);
    FillOpen(pre, RIFF, AVIX, inner);
    var head := RIFF + LE32(4 + |inner|) + AVIX;
    Regroup(pre, head, inner);
    FillOpen(pre + head, LIST, MOVI, body);
    Regroup(pre, head, List(LIST, MOVI, body));
  }

  /** `close` on a whole file with later sections: the same sizes in the other order. */
  function LastFinished(c: seq<byte>, riffPos: nat, moviPos: nat): seq<byte>
    requires riffPos + 4 <= |c| && moviPos + 4 <= |c|
  {
    Overwrite(Overwrite(c, moviPos, LE32(|c| - moviPos - 4)), riffPos, LE32(|c| - riffPos - 4))
  }

  lemma FinishLast(pre: seq<byte>, h: Headers, i: nat, body: seq<byte>, idx1: seq<byte>)
    requires 0 < i
    ensures LastFinished(pre + OpenSection(h, i, body), |pre| + 4, |pre| + 16) == pre + Section(h, i, body, idx1)
  {
    LaterSection(h, i, body, idx1);
    var head := RIFF + LE32(0) + AVIX;
    Regroup(pre, head, OpenList(LIST, MOVI, body));
    FillOpen(pre + head, LIST, MOVI, body);
    Regroup(pre, head, List(LIST, MOVI, body));
    FillOpen(pre, RIFF, AVIX, List(LIST, MOVI, body));
  }

  lemma BeforeMore(h: Headers, closed: seq<seq<byte>>, body: seq<byte>, idx1: seq<byte>)
    ensures Before(h, closed + [body], idx1) == Before(h, closed, idx1) + Section(h, |closed|, body, idx1)
  {
    assert (closed + [body])[..|closed|] == closed;
  }

  /** The same on a file told by its finished sections. */
  lemma FinishLaterOf(c: seq<byte>, pre: seq<byte>, h: Headers, closed: seq<seq<byte>>, body: seq<byte>,
      idx1: seq<byte>)
    requires closed != [] && pre == Before(h, closed, idx1) && c == pre + OpenSection(h, |closed|, body)
    ensures |pre| + 24 <= |c| && AvixFinished(c, |pre| + 4, |pre| + 16) == Before(h, closed + [body], idx1)
  {
    FinishLater(pre, h, |closed|, body, idx1);
    BeforeMore(h, closed, body, idx1);
  }

  lemma FinishLastOf(c: seq<byte>, pre: seq<byte>, h: Headers, closed: seq<seq<byte>>, body: seq<byte>, idx1: seq<byte>)
    requires closed != [] && pre == Before(h, closed, idx1) && c == pre + OpenSection(h, |closed|, body)
    ensures |pre| + 24 <= |c| && LastFinished(c, |pre| + 4, |pre| + 16) == Before(h, closed + [body], idx1)
  {
    FinishLast(pre, h, |closed|, body, idx1);
    BeforeMore(h, closed, body, idx1);
  }

  // ----- nesting -----

  /** The header blocks as a finished file has them: each is an element. */
  ghost predicate Finished(h: Headers) {
    && Shaped(h)
    && (|h.ext| > 0 ==> h.super[..4] == INDX && h.super[4..8] == LE32(|h.super| - 8))
  }

  /** A block that is one leaf element already. */
  lemma BlockElements(x: seq<byte>, id: FourCC)
    requires !Holder(id) && 8 <= |x| < WORD && x[..4] == id && x[4..8] == LE32(|x| - 8)
    ensures Elements(x)
  {
    ChunkElements(id, x[8..]);
    assert x == Chunk(id, x[8..]);
  }

  lemma HeaderElements(h: Headers)
    requires Finished(h) && |Hdrl(h)| < WORD
    ensures Elements(Hdrl(h))
  {
    BlockElements(h.avih, AVIH);
    BlockElements(h.strh, STRH);
    ChunkElements(STRF, h.bmi);
    if |h.ext| > 0 {
      BlockElements(h.super, INDX);
      ChunkElements(DMLH, h.ext);
      ListElements(LIST, Riff.ODML, Chunk(DMLH, h.ext));
    }
    ElementsJoin(Chunk(STRF, h.bmi), h.super);
    ElementsJoin(h.strh, Chunk(STRF, h.bmi) + h.super);
    ListElements(LIST, STRL, StrlBody(h));
    ElementsJoin(List(LIST, STRL, StrlBody(h)), OdmlList(h));
    ElementsJoin(h.avih, List(LIST, STRL, StrlBody(h)) + OdmlList(h));
    ListElements(LIST, HDRL, HdrlBody(h));
  }

  lemma SectionElements(h: Headers, i: nat, body: seq<byte>, idx1: seq<byte>)
    requires Finished(h) && Elements(body) && |Section(h, i, body, idx1)| < WORD
    ensures Elements(Section(h, i, body, idx1))
  {
    ListElements(LIST, MOVI, body);
    if i == 0 {
      HeaderElements(h);
      ChunkElements(IDX1, idx1);
    }
    ElementsJoin(List(LIST, MOVI, body), Tail(i, idx1));
    ElementsJoin(Head(h, i), List(LIST, MOVI, body) + Tail(i, idx1));
    ListElements(RIFF, Form(i), Head(h, i) + (List(LIST, MOVI, body) + Tail(i, idx1)));
  }

  ghost predicate SmallSections(h: Headers, closed: seq<seq<byte>>, idx1: seq<byte>) {
    forall i :: 0 <= i < |closed| ==> |Section(h, i, closed[i], idx1)| < WORD
  }

  lemma LastOfBefore(h: Headers, closed: seq<seq<byte>>, idx1: seq<byte>)
    requires closed != []
    ensures var n := |closed| - 1;
      Before(h, closed, idx1) == Before(h, closed[..n], idx1) + Section(h, n, closed[n], idx1)
  {
  }

  /** A finished file, of any number of sections each under 4 GiB, is nothing but properly nested
      elements: every size field is the number of bytes to the end of its element. */
  lemma {:induction false} FileElements(h: Headers, closed: seq<seq<byte>>, idx1: seq<byte>)
    requires Finished(h) && SmallSections(h, closed, idx1)
    requires forall i :: 0 <= i < |closed| ==> Elements(closed[i])
    ensures Elements(Before(h, closed, idx1))
    decreases |closed|
  {
    if closed != [] {
      var n := |closed| - 1;
      FileElements(h, closed[..n], idx1);
      SectionElements(h, n, closed[n], idx1);
      ElementsJoin(Before(h, closed[..n], idx1), Section(h, n, closed[n], idx1));
      LastOfBefore(h, closed, idx1);
    }
  }

  lemma {:induction false} AllStdElements(idx: seq<StdIndex>)
    requires forall i :: 0 <= i < |idx| ==> |idx[i].entries| <= PER_INDEX
    ensures Elements(AllStd(idx))
    decreases |idx|
  {
    if idx != [] {
      var n := |idx| - 1;
      AllStdElements(idx[..n]);
      ChunkElements(IX00, StdFields(idx[n]) + StdEntries(idx[n].entries));
      ElementsJoin(AllStd(idx[..n]), StdBytes(idx[n]));
    }
  }
}
