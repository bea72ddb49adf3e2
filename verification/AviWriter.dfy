/** avilib's writer for one picture stream: frames go at the end of the file, and sizes and index
    blocks are patched into the places left for them. Each call is proved against a function of the
    writer's state; what those functions keep and come to is proved in `AviWriterRuns`. */
module AviWriter {
  import opened Bytes
  import opened StreamFile
  import opened Riff
  import opened AviIndex
  import opened AviIndexExact
  import opened AviLayout
  import opened AviSections
  import opened AviFilm

  const FIRST_LIMIT := 1_000_000_000
  const LATER_LIMIT := 4_000_000_000
  const COUNT_OFFSET := 24
  const LENGTH_OFFSET := 40

  /** The writer's fields. */
  datatype Writer = Writer(
    f: File,
    posRiffSize: nat,
    posMoviListSize: nat,
    posOdmlExt: nat,
    pos1stMoviStart: nat,
    posSuperIdx: nat,
    avih: seq<byte>,
    strh: seq<byte>,
    bmi: seq<byte>,
    openDml: bool,
    reservedFrames: nat,
    superBlock: nat,
    superInUse: nat,
    oldIndex: seq<OldEntry>,
    idx: Indexes,
    riffIdx: nat,
    riffSize: nat,
    maxRiffSize: nat,
    totalFrames: nat)

  /** A write anywhere in the file. */
  function Patch(c: seq<byte>, p: nat, d: seq<byte>): (r: seq<byte>)
    ensures |r| >= |c| && (p <= |c| ==> r == Overwrite(c, p, d))
  {
    Write(File(c, p), d).content
  }

  /** What calls between `open` and `close` need of the state: the file is open at its end, with the
      first sizes inside it, and the one stream has its first index. */
  predicate InUse(w: Writer) {
    && w.f.pos == |w.f.content|
    && 8 <= w.posMoviListSize && w.posMoviListSize + 4 <= |w.f.content| && w.posRiffSize + 4 <= |w.f.content|
    && w.pos1stMoviStart <= |w.f.content| && (w.riffIdx == 0 ==> w.posRiffSize == 4)
    && |w.idx.streams| == 1 && w.idx.streams[0] != []
  }

  function AtEnd(c: seq<byte>): File {
    File(c, |c|)
  }

  /** The chunk at the end, its entry in the old index while in the first section, and its entry in
      the standard index; `riffSize` is kept in 32 bits. */
  function FrameAppended(w: Writer, data: seq<byte>): (w': Writer)
    requires InUse(w)
    ensures InUse(w')
  {
    var size := (w.riffSize + |data| + 8) % WORD;
    w.(f := AtEnd(w.f.content + Chunk(FRAME, data)),
       riffSize := if w.riffIdx == 0 then (size + OLD_ENTRY) % WORD else size,
       oldIndex := if w.riffIdx == 0 then w.oldIndex + [OldEntry(|w.f.content| - w.pos1stMoviStart, |data|)]
         else w.oldIndex,
       idx := AddEntry(w.idx, Frame(0, |w.f.content|, |data|)),
       superInUse := if Full(Last(w.idx.streams[0])) then w.superInUse + 1 else w.superInUse,
       totalFrames := w.totalFrames + 1)
  }

  /** The file with its current section finished. */
  function SectionEnded(w: Writer): seq<byte>
    requires InUse(w)
  {
    if w.riffIdx == 0 then OldFinished(w.f.content, w.posMoviListSize, OldBytes(w.oldIndex))
    else AvixFinished(w.f.content, w.posRiffSize, w.posMoviListSize)
  }

  /** The section finished and the next begun. */
  function RolledOver(w: Writer): (w': Writer)
    requires InUse(w)
    ensures InUse(w')
  {
    var c := SectionEnded(w);
    w.(f := AtEnd(c + AvixHead()), posRiffSize := |c| + 4, posMoviListSize := |c| + 16,
       riffIdx := w.riffIdx + 1, riffSize := 24, maxRiffSize := if w.riffIdx == 0 then LATER_LIMIT else w.maxRiffSize)
  }

  predicate RollsOver(w: Writer, len: nat) {
    (w.riffSize + len + 8) % WORD >= w.maxRiffSize
  }

  /** `write_data`: refused once the frames reserved are written; otherwise the frame goes into
      this section, or into a new one when the size counted would reach the limit. */
  function DataWritten(w: Writer, data: seq<byte>): (r: (Writer, bool))
    requires InUse(w)
    ensures InUse(r.0)
  {
    if w.reservedFrames <= w.totalFrames then (w, false)
    else (FrameAppended(if RollsOver(w, |data|) then RolledOver(w) else w, data), true)
  }

  // ----- opening and closing -----

  /** The header blocks `open` writes: those set up before, and zeros where OpenDML blocks will go. */
  function FirstHeaders(avih: seq<byte>, strh: seq<byte>, bmi: seq<byte>, openDml: bool, reservedFrames: nat): Headers {
    Headers(avih, strh, bmi,
            if openDml then Fill(SUPER_HEAD + SUPER_ENTRY * Reserved(reservedFrames), 0) else [],
            if openDml then Fill(EXT_SIZE, 0) else [])
  }

  /** `w` as `open` leaves it, from `before`, with `c` in the file. */
  predicate OpenedFrom(w: Writer, before: Writer, c: seq<byte>, h: Headers) {
    && w.f == AtEnd(c) && w.posRiffSize == 4 && w.posMoviListSize == w.f.pos - 8 && w.pos1stMoviStart == w.f.pos - 4
    && w.riffSize == (w.f.pos + OLD_ENTRY) % WORD && w.totalFrames == 0 && w.idx == Begun(before.idx)
    && w.avih == before.avih && w.strh == before.strh && w.bmi == before.bmi && w.openDml == before.openDml
    && w.oldIndex == before.oldIndex && w.riffIdx == before.riffIdx && w.maxRiffSize == before.maxRiffSize
    && (if w.openDml then
          && w.reservedFrames == FrameLimit(before.reservedFrames) && w.superInUse == 1 && w.superBlock == |h.super|
          && w.posSuperIdx == SUPER_POS && w.posOdmlExt == ExtPos(h)
        else w.reservedFrames == before.reservedFrames)
  }

  /** The block with the number of frames put in. */
  function Counted(block: seq<byte>, offset: nat, n: nat): (r: seq<byte>)
    requires offset + 4 <= |block|
    ensures |r| == |block|
  {
    Overwrite(block, offset, LE32(n))
  }

  /** The standard indexes with entries. */
  function Used(w: Writer): seq<StdIndex>
    requires InUse(w)
  {
    if w.totalFrames == 0 then [] else w.idx.streams[0]
  }

  predicate Closable(w: Writer) {
    InUse(w) && |w.avih| == AVIH_SIZE && |w.strh| == STRH_SIZE && (w.openDml ==> w.superBlock >= SUPER_HEAD)
  }

  /** What `close` writes before it settles the sizes: the counts in the headers and, with OpenDML,
      the standard indexes at the end and the super index in its place. */
  function HeadersClosed(w: Writer): (r: seq<byte>)
    requires Closable(w)
    ensures |r| >= |w.f.content|
  {
    var c1 := Patch(w.f.content, AVIH_POS, Counted(w.avih, COUNT_OFFSET, w.totalFrames));
    var c2 :=
      if !w.openDml then c1
      else
        var c := Patch(c1, w.posOdmlExt, LE32(w.totalFrames));
        IndexesClosed(c, Used(w), w.posSuperIdx, w.superBlock, w.superInUse);
    Patch(c2, STRH_POS, Counted(w.strh, LENGTH_OFFSET, w.totalFrames))
  }

  function IndexesClosed(c: seq<byte>, used: seq<StdIndex>, posSuper: nat, block: nat, inUse: nat): (r: seq<byte>)
    requires SUPER_HEAD <= block
    ensures |r| >= |c|
  {
    Patch(c + AllStd(used), posSuper, SuperHead(block, inUse) + SuperEntries(used, |c|))
  }

  /** The file `close` leaves; `headers` is what it has written before settling the sizes. */
  function SizesClosed(w: Writer, headers: seq<byte>): seq<byte>
    requires InUse(w) && |headers| >= |w.f.content|
  {
    if w.riffIdx == 0 then OldFinished(headers, w.posMoviListSize, OldBytes(w.oldIndex))
    else LastFinished(headers, w.posRiffSize, w.posMoviListSize)
  }

  lemma HeaderParts(start: seq<byte>, h: Headers)
    ensures start + LIST + LE32(0) + HDRL + h.avih + List(LIST, STRL, StrlBody(h)) + OdmlList(h)
      == start + OpenList(LIST, HDRL, HdrlBody(h))
  {
    var a, b, c := h.avih, List(LIST, STRL, StrlBody(h)), OdmlList(h);
    var head := LIST + LE32(0) + HDRL;
    assert start + LIST + LE32(0) + HDRL == start + head;
    Regroup(start + head + a, b, c);
    Regroup(start + head, a, b + c);
    Regroup(start, head, a + (b + c));
  }

  lemma StreamParts(start: seq<byte>, h: Headers)
    requires |h.bmi| == BMI_SIZE
    ensures start + LIST + LE32(0) + STRL + h.strh + STRF + LE32(BMI_SIZE) + h.bmi + h.super
      == start + OpenList(LIST, STRL, StrlBody(h))
  {
    var head := LIST + LE32(0) + STRL;
    assert start + LIST + LE32(0) + STRL == start + head;
    assert start + head + h.strh + STRF + LE32(BMI_SIZE) + h.bmi == start + head + h.strh + Chunk(STRF, h.bmi);
    Regroup(start + head + h.strh, Chunk(STRF, h.bmi), h.super);
    Regroup(start + head, h.strh, Chunk(STRF, h.bmi) + h.super);
    Regroup(start, head, StrlBody(h));
  }

  lemma OdmlParts(start: seq<byte>, h: Headers)
    requires |h.ext| == EXT_SIZE
    ensures start + LIST + LE32(EXT_SIZE + 12) + Riff.ODML + DMLH + LE32(EXT_SIZE) + h.ext == start + OdmlList(h)
  {
    var head := LIST + LE32(EXT_SIZE + 12) + Riff.ODML;
    assert start + LIST + LE32(EXT_SIZE + 12) + Riff.ODML == start + head;
    assert start + head + DMLH + LE32(EXT_SIZE) + h.ext == start + head + Chunk(DMLH, h.ext);
    Regroup(start, head, Chunk(DMLH, h.ext));
  }

  lemma NoneYet(start: seq<byte>, used: seq<StdIndex>)
    ensures start + AllStd(used[..0]) == start && SuperEntries(used[..0], |start|) == []
  {
    assert used[..0] == [];
  }

  lemma OneMore(start: seq<byte>, used: seq<StdIndex>, i: nat)
    requires i < |used|
    ensures start + AllStd(used[..i + 1]) == start + AllStd(used[..i]) + StdBytes(used[i])
  {
    AllStdMore(used, i);
    Regroup(start, AllStd(used[..i]), StdBytes(used[i]));
  }

  lemma StdJoin(start: seq<byte>, a: seq<byte>, b: seq<byte>, c: seq<byte>, d: seq<byte>)
    ensures start + a + b + c + d == start + (a + b + (c + d))
  {
  }

  class AviWriter {
    var f: File
    var posRiffSize: nat
    var posMoviListSize: nat
    var posOdmlExt: nat
    var pos1stMoviStart: nat
    var posSuperIdx: nat
    var avih: seq<byte>
    var strh: seq<byte>
    var bmi: seq<byte>
    var openDml: bool
    var reservedFrames: nat
    var superBlock: nat
    var superInUse: nat
    var oldIndex: seq<OldEntry>
    var idx: Indexes
    var riffIdx: nat
    var riffSize: nat
    var maxRiffSize: nat
    var totalFrames: nat

    ghost function Value(): Writer
      reads this
    {
      Writer(f, posRiffSize, posMoviListSize, posOdmlExt, pos1stMoviStart, posSuperIdx, avih, strh, bmi, openDml,
             reservedFrames, superBlock, superInUse, oldIndex, idx, riffIdx, riffSize, maxRiffSize, totalFrames)
    }

    // ----- the file -----

    method PutAt(p: nat, d: seq<byte>)
      modifies this`f
      ensures f == Write(File(old(f.content), p), d) && f.content == Patch(old(f.content), p, d)
    {
      f := Write(f.(pos := p), d);
    }

    /** Puts a size in the field at `p`. */
    method PutSize(p: nat, n: nat)
      requires p + 4 <= |f.content|
      modifies this`f
      ensures f.content == Overwrite(old(f.content), p, LE32(n))
    {
      PutAt(p, LE32(n));
    }

    method Append(d: seq<byte>)
      requires f.pos == |f.content|
      modifies this`f
      ensures f == AtEnd(old(f.content) + d)
    {
      f := Write(f, d);
    }

    method ToEnd()
      modifies this`f
      ensures f == AtEnd(old(f.content))
    {
      f := f.(pos := |f.content|);
    }

    method PutMore(d: seq<byte>)
      modifies this`f
      ensures f == Write(old(f), d)
    {
      f := Write(f, d);
    }

    // ----- open -----

    /** `open`: refused without OpenDML unless a number of frames has been set. */
    method Open() returns (ok: bool)
      requires |avih| == AVIH_SIZE && |strh| == STRH_SIZE && |bmi| == BMI_SIZE
      modifies this
      ensures ok <==> old(openDml) || old(reservedFrames) != 0
      ensures !ok ==> Value() == old(Value())
      ensures ok ==> var h := FirstHeaders(avih, strh, bmi, openDml, old(reservedFrames));
        OpenedFrom(Value(), old(Value()), OpenSection(h, 0, []), h)
    {
      if !openDml && reservedFrames == 0 {
        return false;
      }
      OpenFile(FirstHeaders(avih, strh, bmi, openDml, reservedFrames));
      return true;
    }

    method OpenFile(ghost h: Headers)
      requires h == FirstHeaders(avih, strh, bmi, openDml, reservedFrames)
      requires |avih| == AVIH_SIZE && |strh| == STRH_SIZE && |bmi| == BMI_SIZE
      modifies this`f, this`posRiffSize, this`posMoviListSize, this`pos1stMoviStart, this`riffSize, this`totalFrames,
        this`idx, this`reservedFrames, this`posSuperIdx, this`superBlock, this`superInUse, this`posOdmlExt
      ensures f == AtEnd(OpenSection(h, 0, []))
      ensures posRiffSize == 4 && posMoviListSize == f.pos - 8 && pos1stMoviStart == f.pos - 4
      ensures riffSize == (f.pos + OLD_ENTRY) % WORD && totalFrames == 0 && idx == Begun(old(idx))
      ensures openDml ==>
          && reservedFrames == FrameLimit(old(reservedFrames)) && posSuperIdx == SUPER_POS
          && superBlock == |h.super| && superInUse == 1 && posOdmlExt == ExtPos(h)
      ensures !openDml ==> reservedFrames == old(reservedFrames)
    {
      OpenRiff();
      OpenHeaderList(h);
      OpenMovi(h);
      riffSize := (f.pos + OLD_ENTRY) % WORD;
      totalFrames, idx := 0, Begun(idx);
    }

    method OpenRiff()
      modifies this`f, this`posRiffSize
      ensures f == AtEnd(RIFF + LE32(0) + AVI) && |f.content| == 12 && posRiffSize == 4
    {
      f := File([], 0);
      Append(RIFF);
      posRiffSize := f.pos;
      Append(LE32(0));
      Append(AVI);
      assert [] + RIFF == RIFF;
    }

    /** The movi list, its size open. */
    method OpenMovi(ghost h: Headers)
      requires f == AtEnd(RIFF + LE32(0) + AVI + Hdrl(h))
      modifies this`f, this`posMoviListSize, this`pos1stMoviStart
      ensures f == AtEnd(OpenSection(h, 0, []))
      ensures posMoviListSize == f.pos - 8 && pos1stMoviStart == f.pos - 4
    {
      ghost var start := f.content;
      Append(LIST);
      posMoviListSize := f.pos;
      Append(LE32(0));
      pos1stMoviStart := f.pos;
      Append(MOVI);
      assert f.content == start + OpenList(LIST, MOVI, []);
      Regroup(RIFF + LE32(0) + AVI, Hdrl(h), OpenList(LIST, MOVI, []));
    }

    /** The header list, its size filled in once it is written. */
    method OpenHeaderList(ghost h: Headers)
      requires f.pos == |f.content| == 12 && h == FirstHeaders(avih, strh, bmi, openDml, reservedFrames)
      requires |avih| == AVIH_SIZE && |strh| == STRH_SIZE && |bmi| == BMI_SIZE
      modifies this`f, this`reservedFrames, this`posSuperIdx, this`superBlock, this`superInUse, this`posOdmlExt
      ensures f == AtEnd(old(f.content) + Hdrl(h))
      ensures openDml ==>
          && reservedFrames == FrameLimit(old(reservedFrames)) && posSuperIdx == SUPER_POS
          && superBlock == |h.super| && superInUse == 1 && posOdmlExt == ExtPos(h)
      ensures !openDml ==>
          && reservedFrames == old(reservedFrames) && posSuperIdx == old(posSuperIdx)
          && superBlock == old(superBlock) && superInUse == old(superInUse) && posOdmlExt == old(posOdmlExt)
    {
      ghost var start := f.content;
      Append(LIST);
      var posHdrlSize := f.pos;
      Append(LE32(0));
      Append(HDRL);
      assert f.pos == AVIH_POS;
      Append(avih);
      OpenStream(h);
      OpenOdml(h);
      HeaderParts(start, h);
      FillOpen(start, LIST, HDRL, HdrlBody(h));
      PatchSize(posHdrlSize);
    }

    /** Fills in the size of what was written since the size field at `p`. */
    method PatchSize(p: nat)
      requires f.pos == |f.content| && p + 4 <= |f.content|
      modifies this`f
      ensures f == AtEnd(Overwrite(old(f.content), p, LE32(|old(f.content)| - p - 4)))
    {
      var size := f.pos - p - 4;
      PutSize(p, size);
      ToEnd();
    }

    /** The stream list: its header, its format and, with OpenDML, room for the super index. */
    method OpenStream(ghost h: Headers)
      requires f.pos == |f.content| == AVIH_POS + AVIH_SIZE
        && h == FirstHeaders(avih, strh, bmi, openDml, reservedFrames)
      requires |strh| == STRH_SIZE && |bmi| == BMI_SIZE
      modifies this`f, this`reservedFrames, this`posSuperIdx, this`superBlock, this`superInUse
      ensures f == AtEnd(old(f.content) + List(LIST, STRL, StrlBody(h)))
      ensures openDml ==>
          && reservedFrames == FrameLimit(old(reservedFrames)) && posSuperIdx == SUPER_POS
          && superBlock == |h.super| && superInUse == 1
      ensures !openDml ==>
          && reservedFrames == old(reservedFrames) && posSuperIdx == old(posSuperIdx)
          && superBlock == old(superBlock) && superInUse == old(superInUse)
    {
      ghost var start := f.content;
      Append(LIST);
      var posStrlSize := f.pos;
      Append(LE32(0));
      Append(STRL);
      assert f.pos == STRH_POS;
      Append(strh);
      Append(STRF);
      Append(LE32(BMI_SIZE));
      Append(bmi);
      if openDml {
        var indexes := DEFAULT_INDEXES;
        if reservedFrames != 0 {
          indexes := (reservedFrames + PER_INDEX_RESERVED - 1) / PER_INDEX_RESERVED;
        } else {
          reservedFrames := indexes * PER_INDEX_RESERVED;
        }
        superBlock := SUPER_HEAD + indexes * SUPER_ENTRY;
        superInUse := 1;
        posSuperIdx := f.pos;
        var zeros := Fill(superBlock, 0);
        Append(zeros);
      }
      StreamParts(start, h);
      FillOpen(start, LIST, STRL, StrlBody(h));
      PatchSize(posStrlSize);
    }

    /** With OpenDML, the extended header. */
    method OpenOdml(ghost h: Headers)
      requires f.pos == |f.content| && (if openDml then h.ext == Fill(EXT_SIZE, 0) else h.ext == [])
      requires openDml ==> |f.content| == SUPER_POS + |h.super|
      modifies this`f, this`posOdmlExt
      ensures f == AtEnd(old(f.content) + OdmlList(h))
      ensures posOdmlExt == if openDml then ExtPos(h) else old(posOdmlExt)
    {
      ghost var start := f.content;
      if openDml {
        Append(LIST);
        Append(LE32(EXT_SIZE + 12));
        Append(Riff.ODML);
        Append(DMLH);
        Append(LE32(EXT_SIZE));
        posOdmlExt := f.pos;
        var zeros := Fill(EXT_SIZE, 0);
        Append(zeros);
        OdmlParts(start, h);
      } else {
        assert start + [] == start;
      }
    }

    // ----- frames -----

    method WriteData(data: seq<byte>) returns (ok: bool)
      requires InUse(Value())
      modifies this
      ensures (Value(), ok) == DataWritten(old(Value()), data)
    {
      if reservedFrames <= totalFrames {
        return false;
      }
      var next := (riffSize + |data| + 8) % WORD;
      if next >= maxRiffSize {
        RollOver();
      }
      AppendFrame(data);
      return true;
    }

    method AppendFrame(data: seq<byte>)
      requires InUse(Value())
      modifies this
      ensures Value() == FrameAppended(old(Value()), data)
    {
      CountFrame(|data|);
      PutChunk(data);
    }

    /** The size counted, the index entries and the number of frames. */
    method CountFrame(len: nat)
      requires |idx.streams| == 1 && idx.streams[0] != [] && pos1stMoviStart <= f.pos
      modifies this`riffSize, this`oldIndex, this`superInUse, this`idx, this`totalFrames
      ensures riffSize == (var size := (old(riffSize) + len + 8) % WORD;
        if riffIdx == 0 then (size + OLD_ENTRY) % WORD else size)
      ensures oldIndex == if riffIdx == 0 then old(oldIndex) + [OldEntry(f.pos - pos1stMoviStart, len)]
        else old(oldIndex)
      ensures superInUse == if Full(Last(old(idx).streams[0])) then old(superInUse) + 1 else old(superInUse)
      ensures idx == AddEntry(old(idx), Frame(0, f.pos, len)) && totalFrames == old(totalFrames) + 1
    {
      riffSize := (riffSize + len + 8) % WORD;
      if riffIdx == 0 {
        riffSize := (riffSize + OLD_ENTRY) % WORD;
        oldIndex := oldIndex + [OldEntry(f.pos - pos1stMoviStart, len)];
      }
      if Full(Last(idx.streams[0])) {
        superInUse := superInUse + 1;
      }
      idx := AddEntry(idx, Frame(0, f.pos, len));
      totalFrames := totalFrames + 1;
    }

    method PutChunk(data: seq<byte>)
      requires f.pos == |f.content|
      modifies this`f
      ensures f == AtEnd(old(f.content) + Chunk(FRAME, data))
    {
      Append(FRAME);
      Append(LE32(|data|));
      Append(data);
    }

    /** `finish_old`, on the first section. */
    method FinishOld()
      requires InUse(Value()) && riffIdx == 0
      modifies this`f
      ensures f.content == old(SectionEnded(Value()))
    {
      ToEnd();
      var moviSize := f.pos - posMoviListSize - 4;
      PutSize(posMoviListSize, moviSize);
      ToEnd();
      WriteOldIndex();
      PutSize(posRiffSize, f.pos - 8);
    }

    method WriteOldIndex()
      requires f.pos == |f.content|
      modifies this`f
      ensures f == AtEnd(old(f.content) + Chunk(IDX1, OldBytes(oldIndex)))
    {
      Append(IDX1);
      Append(LE32(|oldIndex| * OLD_ENTRY));
      ghost var head := f.content;
      var i := 0;
      assert oldIndex[..0] == [];
      while i < |oldIndex|
        invariant 0 <= i <= |oldIndex|
        invariant f == AtEnd(head + OldBytes(oldIndex[..i]))
      {
        assert oldIndex[..i + 1][..i] == oldIndex[..i];
        Append(OldEntryBytes(oldIndex[i]));
        i := i + 1;
      }
      assert oldIndex[..i] == oldIndex;
    }

    /** `finish_avix`, on a later section. */
    method FinishAvix()
      requires InUse(Value()) && riffIdx > 0
      modifies this`f
      ensures f.content == old(SectionEnded(Value()))
    {
      ToEnd();
      var size, moviSize := f.pos - posRiffSize - 4, f.pos - posMoviListSize - 4;
      PutSize(posRiffSize, size);
      PutSize(posMoviListSize, moviSize);
    }

    method RollOver()
      requires InUse(Value())
      modifies this
      ensures Value() == RolledOver(old(Value())) && InUse(Value())
    {
      if riffIdx == 0 {
        FinishOld();
        maxRiffSize := LATER_LIMIT;
      } else {
        FinishAvix();
      }
      ToEnd();
      riffIdx := riffIdx + 1;
      riffSize := 24;
      BeginAvix();
    }

    /** The head of a later section, its sizes still open. */
    method BeginAvix()
      requires f.pos == |f.content|
      modifies this`f, this`posRiffSize, this`posMoviListSize
      ensures f == AtEnd(old(f.content) + AvixHead())
      ensures posRiffSize == |old(f.content)| + 4 && posMoviListSize == |old(f.content)| + 16
    {
      Append(RIFF);
      posRiffSize := f.pos;
      Append(LE32(0));
      Append(AVIX);
      Append(LIST);
      posMoviListSize := f.pos;
      Append(LE32(0));
      Append(MOVI);
    }

    // ----- close -----

    method Close()
      requires Closable(Value())
      modifies this
      ensures f.content == SizesClosed(old(Value()), HeadersClosed(old(Value())))
    {
      CloseHeaders();
      if riffIdx == 0 {
        FinishOld();
      } else {
        FinishLast();
      }
    }

    method CloseHeaders()
      requires Closable(Value())
      modifies this`f
      ensures f == AtEnd(HeadersClosed(old(Value())))
    {
      PutAt(AVIH_POS, Counted(avih, COUNT_OFFSET, totalFrames));
      if openDml {
        PutAt(posOdmlExt, LE32(totalFrames));
        CloseIndexes(if totalFrames == 0 then [] else idx.streams[0]);
      }
      PutAt(STRH_POS, Counted(strh, LENGTH_OFFSET, totalFrames));
      ToEnd();
    }

    /** The standard indexes go at the very end; then the super index lists them in its place. */
    method CloseIndexes(used: seq<StdIndex>)
      requires SUPER_HEAD <= superBlock
      modifies this`f
      ensures f.content == IndexesClosed(old(f.content), used, posSuperIdx, superBlock, superInUse)
    {
      ghost var start := f.content;
      ToEnd();
      var supers := [];
      NoneYet(start, used);
      for i := 0 to |used|
        invariant f == AtEnd(start + AllStd(used[..i])) && supers == SuperEntries(used[..i], |start|)
      {
        OneMore(start, used, i);
        SuperEntriesMore(used, |start|, i);
        supers := supers + SuperEntryBytes(f.pos, used[i]);
        AppendStd(used[i]);
      }
      assert used[..|used|] == used;
      WriteSuper(supers);
    }

    /** The super index, written over the room left for it: its head, then its entries. */
    method WriteSuper(supers: seq<byte>)
      requires SUPER_HEAD <= superBlock
      modifies this`f
      ensures f.content == Patch(old(f.content), posSuperIdx, SuperHead(superBlock, superInUse) + supers)
    {
      WriteJoin(File(f.content, posSuperIdx), SuperHead(superBlock, superInUse), supers);
      PutAt(posSuperIdx, SuperHead(superBlock, superInUse));
      PutMore(supers);
    }

    method AppendEntries(es: seq<StdEntry>)
      requires f.pos == |f.content|
      modifies this`f
      ensures f == AtEnd(old(f.content) + StdEntries(es))
    {
      ghost var start := f.content;
      var k := 0;
      assert es[..0] == [] && start + [] == start;
      while k < |es|
        invariant 0 <= k <= |es|
        invariant f == AtEnd(start + StdEntries(es[..k]))
      {
        assert es[..k + 1][..k] == es[..k];
        Append(StdEntryBytes(es[k]));
        k := k + 1;
      }
      assert es[..k] == es;
    }

    /** One standard index at the end. */
    method AppendStd(i: StdIndex)
      requires f.pos == |f.content|
      modifies this`f
      ensures f == AtEnd(old(f.content) + StdBytes(i))
    {
      ghost var start := f.content;
      var cb := STD_HEAD - 8 + STD_ENTRY * |i.entries|;
      Append(IX00);
      Append(LE32(cb));
      Append(StdFields(i));
      AppendEntries(i.entries);
      StdJoin(start, IX00, LE32(cb), StdFields(i), StdEntries(i.entries));
    }

    /** The sizes of the last section when there is more than one. */
    method FinishLast()
      requires f.pos == |f.content| && posRiffSize + 4 <= |f.content| && posMoviListSize + 4 <= |f.content|
      modifies this`f
      ensures f.content == LastFinished(old(f.content), posRiffSize, posMoviListSize)
    {
      var moviSize, size := f.pos - posMoviListSize - 4, f.pos - posRiffSize - 4;
      PutSize(posMoviListSize, moviSize);
      PutSize(posRiffSize, size);
    }
  }
}
