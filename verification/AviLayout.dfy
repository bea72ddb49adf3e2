/** What an AVI file written by avilib looks like, byte for byte: while it is being written, with
    the last section's sizes still open, and when it is finished. */
module AviLayout {
  import opened Bytes
  import opened Riff
  import opened AviIndex

  /** The header blocks, with the super index and extended header empty when OpenDML is off. */
  datatype Headers = Headers(avih: seq<byte>, strh: seq<byte>, bmi: seq<byte>, super: seq<byte>, ext: seq<byte>)

  const AVIH_SIZE := 64
  const STRH_SIZE := 64
  const BMI_SIZE := 40
  const EXT_SIZE := 248
  const OLD_ENTRY := 16
  const KEYFRAME := 0x10

  ghost predicate Shaped(h: Headers) {
    && |h.avih| == AVIH_SIZE && h.avih[..4] == AVIH && h.avih[4..8] == LE32(AVIH_SIZE - 8)
    && |h.strh| == STRH_SIZE && h.strh[..4] == STRH && h.strh[4..8] == LE32(STRH_SIZE - 8)
    && |h.bmi| == BMI_SIZE
    && (if |h.ext| == 0 then |h.super| == 0 else |h.ext| == EXT_SIZE && |h.super| >= SUPER_HEAD)
  }

  function StrlBody(h: Headers): seq<byte> {
    h.strh + (Chunk(STRF, h.bmi) + h.super)
  }

  function OdmlList(h: Headers): seq<byte> {
    if |h.ext| == 0 then [] else List(LIST, Riff.ODML, Chunk(DMLH, h.ext))
  }

  function HdrlBody(h: Headers): seq<byte> {
    h.avih + (List(LIST, STRL, StrlBody(h)) + OdmlList(h))
  }

  function Hdrl(h: Headers): (r: seq<byte>)
    ensures |r| == 12 + |HdrlBody(h)|
  {
    List(LIST, HDRL, HdrlBody(h))
  }

  // ----- sections -----

  function Form(i: nat): FourCC {
    if i == 0 then AVI else AVIX
  }

  function Head(h: Headers, i: nat): seq<byte> {
    if i == 0 then Hdrl(h) else []
  }

  function Tail(i: nat, idx1: seq<byte>): seq<byte> {
    if i == 0 then Chunk(IDX1, idx1) else []
  }

  /** Section `i` while its sizes are open, and finished. */
  function OpenSection(h: Headers, i: nat, body: seq<byte>): seq<byte> {
    OpenList(RIFF, Form(i), Head(h, i) + OpenList(LIST, MOVI, body))
  }

  function Section(h: Headers, i: nat, body: seq<byte>, idx1: seq<byte>): seq<byte> {
    List(RIFF, Form(i), Head(h, i) + (List(LIST, MOVI, body) + Tail(i, idx1)))
  }

  function Before(h: Headers, closed: seq<seq<byte>>, idx1: seq<byte>): seq<byte>
    decreases |closed|
  {
    if closed == [] then []
    else
      var n := |closed| - 1;
      Before(h, closed[..n], idx1) + Section(h, n, closed[n], idx1)
  }

  /** Where in the file section `i` puts its first frame, after `before` bytes of other sections. */
  function BodyStart(h: Headers, i: nat, before: nat): nat {
    before + 12 + |Head(h, i)| + 12
  }

  datatype OldEntry = OldEntry(offset: nat, size: nat)

  function OldEntryBytes(e: OldEntry): (r: seq<byte>)
    ensures |r| == OLD_ENTRY
  {
    FRAME + LE32(KEYFRAME) + LE32(e.offset) + LE32(e.size)
  }

  function OldBytes(es: seq<OldEntry>): (r: seq<byte>)
    ensures |r| == OLD_ENTRY * |es|
    decreases |es|
  {
    if es == [] then [] else OldBytes(es[..|es| - 1]) + OldEntryBytes(es[|es| - 1])
  }

  // ----- OpenDML index blocks -----

  function LE16(n: nat): seq<byte> { LE32(n)[..2] }

  function StdEntryBytes(e: StdEntry): (r: seq<byte>)
    ensures |r| == STD_ENTRY
  {
    LE32(e.offset) + LE32(e.size)
  }

  function StdEntries(es: seq<StdEntry>): (r: seq<byte>)
    ensures |r| == STD_ENTRY * |es|
    decreases |es|
  {
    if es == [] then [] else StdEntries(es[..|es| - 1]) + StdEntryBytes(es[|es| - 1])
  }

  /** What follows the size field of a standard index, up to its entries: longs per entry, sub-type,
      type AVI_INDEX_OF_CHUNKS, count, chunk id, base, reserved. */
  function StdFields(i: StdIndex): (r: seq<byte>)
    ensures |r| == STD_HEAD - 8
  {
    LE16(2) + [0, 1] + LE32(|i.entries|) + FRAME + LE64(i.base) + LE32(0)
  }

  function StdBytes(i: StdIndex): (r: seq<byte>)
    ensures |r| == STD_HEAD + STD_ENTRY * |i.entries|
  {
    Chunk(IX00, StdFields(i) + StdEntries(i.entries))
  }

  function AllStd(idx: seq<StdIndex>): seq<byte>
    decreases |idx|
  {
    if idx == [] then [] else AllStd(idx[..|idx| - 1]) + StdBytes(idx[|idx| - 1])
  }

  function SuperEntryBytes(offset: nat, i: StdIndex): (r: seq<byte>)
    ensures |r| == SUPER_ENTRY
  {
    LE64(offset) + LE32(STD_HEAD + STD_ENTRY * |i.entries|) + LE32(|i.entries|)
  }

  /** The super index entries of indexes that lie one after another from `at` on. */
  function SuperEntries(idx: seq<StdIndex>, at: nat): (r: seq<byte>)
    ensures |r| == SUPER_ENTRY * |idx|
    decreases |idx|
  {
    if idx == [] then []
    else
      var n := |idx| - 1;
      SuperEntries(idx[..n], at) + SuperEntryBytes(at + |AllStd(idx[..n])|, idx[n])
  }

  lemma AllStdMore(idx: seq<StdIndex>, n: nat)
    requires n < |idx|
    ensures AllStd(idx[..n + 1]) == AllStd(idx[..n]) + StdBytes(idx[n])
  {
    assert idx[..n + 1][..n] == idx[..n];
  }

  /** The super entries of the first `n + 1` indexes. */
  lemma SuperEntriesMore(idx: seq<StdIndex>, at: nat, n: nat)
    requires n < |idx|
    ensures SuperEntries(idx[..n + 1], at) == SuperEntries(idx[..n], at)
      + SuperEntryBytes(at + |AllStd(idx[..n])|, idx[n])
  {
    assert idx[..n + 1][..n] == idx[..n];
  }

  /** The super index's head: its size covers the whole block reserved for it. */
  function SuperHead(block: nat, inUse: nat): (r: seq<byte>)
    requires SUPER_HEAD <= block
    ensures |r| == SUPER_HEAD
  {
    INDX + LE32(block - 8) + LE16(4) + [0, 0] + LE32(inUse) + FRAME + LE32(0) + LE32(0) + LE32(0)
  }

  // ----- changing the layout by writing over it -----

  lemma PatchLeft(x: seq<byte>, y: seq<byte>, off: nat, d: seq<byte>)
    requires off + |d| <= |x|
    ensures Overwrite(x + y, off, d) == Overwrite(x, off, d) + y
  {
  }

  lemma PatchRight(x: seq<byte>, y: seq<byte>, off: nat, d: seq<byte>)
    requires off + |d| <= |y|
    ensures Overwrite(x + y, |x| + off, d) == x + Overwrite(y, off, d)
  {
  }

  lemma PatchWhole(x: seq<byte>, d: seq<byte>)
    requires |d| == |x|
    ensures Overwrite(x, 0, d) == d
  {
  }

  lemma PatchList(id: FourCC, form: FourCC, body: seq<byte>, off: nat, d: seq<byte>)
    requires off + |d| <= |body|
    ensures Overwrite(List(id, form, body), 12 + off, d) == List(id, form, Overwrite(body, off, d))
  {
    PatchRight(id + LE32(4 + |body|) + form, body, off, d);
  }

  predicate SameSizes(h: Headers, h': Headers) {
    |h.avih| == |h'.avih| && |h.strh| == |h'.strh| && |h.bmi| == |h'.bmi| && |h.super| == |h'.super|
      && |h.ext| == |h'.ext|
  }

  lemma SameLengths(h: Headers, h': Headers)
    requires SameSizes(h, h')
    ensures |Hdrl(h)| == |Hdrl(h')| && |HdrlBody(h)| == |HdrlBody(h')| && |StrlBody(h)| == |StrlBody(h')|
  {
  }

  lemma {:induction false} SameBefore(h: Headers, h': Headers, closed: seq<seq<byte>>, idx1: seq<byte>)
    requires SameSizes(h, h')
    ensures |Before(h, closed, idx1)| == |Before(h', closed, idx1)|
    decreases |closed|
  {
    SameLengths(h, h');
    if closed != [] {
      SameBefore(h, h', closed[..|closed| - 1], idx1);
    }
  }

  lemma Regroup(x: seq<byte>, y: seq<byte>, z: seq<byte>)
    ensures (x + y) + z == x + (y + z)
  {
  }

  /** The head of section 0, up to its header list, and what follows that list in it. */
  lemma FirstSectionApart(h: Headers, body: seq<byte>, idx1: seq<byte>)
    ensures Section(h, 0, body, idx1)
      == (RIFF + LE32(4 + |Hdrl(h)| + (|List(LIST, MOVI, body)| + |Tail(0, idx1)|)) + AVI) + Hdrl(h)
        + (List(LIST, MOVI, body) + Tail(0, idx1))
    ensures OpenSection(h, 0, body) == (RIFF + LE32(0) + AVI) + Hdrl(h) + OpenList(LIST, MOVI, body)
  {
    Regroup(RIFF + LE32(4 + |Hdrl(h)| + (|List(LIST, MOVI, body)| + |Tail(0, idx1)|)) + AVI, Hdrl(h),
      List(LIST, MOVI, body) + Tail(0, idx1));
    Regroup(RIFF + LE32(0) + AVI, Hdrl(h), OpenList(LIST, MOVI, body));
  }

  /** The file is the same around the header list, whatever is in that. */
  lemma HeaderApart(h: Headers, h': Headers, closed: seq<seq<byte>>, idx1: seq<byte>, body: seq<byte>)
      returns (a: seq<byte>, z: seq<byte>)
    requires SameSizes(h, h')
    ensures |a| == 12
    ensures Before(h, closed, idx1) + OpenSection(h, |closed|, body) == a + Hdrl(h) + z
    ensures Before(h', closed, idx1) + OpenSection(h', |closed|, body) == a + Hdrl(h') + z
  {
    if closed == [] {
      a := RIFF + LE32(0) + AVI;
      z := OpenList(LIST, MOVI, body);
      FirstSectionApart(h, body, idx1);
      FirstSectionApart(h', body, idx1);
    } else {
      var z0: seq<byte>;
      a, z0 := HeaderBefore(h, h', closed, idx1);
      z := z0 + OpenSection(h, |closed|, body);
      assert OpenSection(h, |closed|, body) == OpenSection(h', |closed|, body);
      Regroup(a + Hdrl(h), z0, OpenSection(h, |closed|, body));
      Regroup(a + Hdrl(h'), z0, OpenSection(h, |closed|, body));
    }
  }

  lemma HeaderFirst(h: Headers, h': Headers, body: seq<byte>, idx1: seq<byte>)
      returns (a: seq<byte>, z: seq<byte>)
    requires SameSizes(h, h')
    ensures |a| == 12
    ensures Section(h, 0, body, idx1) == a + Hdrl(h) + z && Section(h', 0, body, idx1) == a + Hdrl(h') + z
  {
    SameLengths(h, h');
    z := List(LIST, MOVI, body) + Tail(0, idx1);
    a := RIFF + LE32(4 + |Hdrl(h)| + |z|) + AVI;
    FirstSectionApart(h, body, idx1);
    FirstSectionApart(h', body, idx1);
  }

  lemma {:induction false} HeaderBefore(h: Headers, h': Headers, closed: seq<seq<byte>>, idx1: seq<byte>)
      returns (a: seq<byte>, z: seq<byte>)
    requires SameSizes(h, h') && closed != []
    ensures |a| == 12
    ensures Before(h, closed, idx1) == a + Hdrl(h) + z && Before(h', closed, idx1) == a + Hdrl(h') + z
    decreases |closed|
  {
    var n := |closed| - 1;
    if n == 0 {
      a, z := HeaderFirst(h, h', closed[0], idx1);
      FirstBefore(h, closed, idx1);
      FirstBefore(h', closed, idx1);
    } else {
      var z0: seq<byte>;
      a, z0 := HeaderBefore(h, h', closed[..n], idx1);
      var section := Section(h, n, closed[n], idx1);
      assert section == Section(h', n, closed[n], idx1);
      z := z0 + section;
      Regroup(a + Hdrl(h), z0, section);
      Regroup(a + Hdrl(h'), z0, section);
    }
  }

  lemma FirstBefore(h: Headers, closed: seq<seq<byte>>, idx1: seq<byte>)
    requires |closed| == 1
    ensures Before(h, closed, idx1) == Section(h, 0, closed[0], idx1)
  {
    assert closed[..0] == [] && Before(h, [], idx1) == [];
  }

  const AVIH_POS := 24
  const STRH_POS := 100
  const SUPER_POS := 212

  function ExtPos(h: Headers): nat {
    SUPER_POS + |h.super| + 20
  }

  lemma PatchHdrl(a: seq<byte>, h: Headers, off: nat, d: seq<byte>, z: seq<byte>)
    requires |a| == 12 && off + |d| <= |HdrlBody(h)|
    ensures Overwrite(a + Hdrl(h) + z, 24 + off, d) == a + List(LIST, HDRL, Overwrite(HdrlBody(h), off, d)) + z
  {
    PatchLeft(a + Hdrl(h), z, 24 + off, d);
    PatchRight(a, Hdrl(h), 12 + off, d);
    PatchList(LIST, HDRL, HdrlBody(h), off, d);
  }

  lemma PatchAvih(a: seq<byte>, h: Headers, d: seq<byte>, z: seq<byte>)
    requires |a| == 12 && |h.avih| == |d| == AVIH_SIZE
    ensures Overwrite(a + Hdrl(h) + z, AVIH_POS, d) == a + Hdrl(h.(avih := d)) + z
  {
    PatchHdrl(a, h, 0, d, z);
    PatchLeft(h.avih, List(LIST, STRL, StrlBody(h)) + OdmlList(h), 0, d);
    PatchWhole(h.avih, d);
  }

  lemma PatchStrl(a: seq<byte>, h: Headers, off: nat, d: seq<byte>, z: seq<byte>)
    requires |a| == 12 && |h.avih| == AVIH_SIZE && off + |d| <= |StrlBody(h)|
    ensures Overwrite(a + Hdrl(h) + z, STRH_POS + off, d)
      == a + List(LIST, HDRL, h.avih + (List(LIST, STRL, Overwrite(StrlBody(h), off, d)) + OdmlList(h))) + z
  {
    PatchHdrl(a, h, AVIH_SIZE + 12 + off, d, z);
    PatchRight(h.avih, List(LIST, STRL, StrlBody(h)) + OdmlList(h), 12 + off, d);
    PatchLeft(List(LIST, STRL, StrlBody(h)), OdmlList(h), 12 + off, d);
    PatchList(LIST, STRL, StrlBody(h), off, d);
  }

  lemma PatchStrh(a: seq<byte>, h: Headers, d: seq<byte>, z: seq<byte>)
    requires |a| == 12 && |h.avih| == AVIH_SIZE && |h.strh| == |d| == STRH_SIZE
    ensures Overwrite(a + Hdrl(h) + z, STRH_POS, d) == a + Hdrl(h.(strh := d)) + z
  {
    PatchStrl(a, h, 0, d, z);
    PatchLeft(h.strh, Chunk(STRF, h.bmi) + h.super, 0, d);
    PatchWhole(h.strh, d);
  }

  lemma PatchSuper(a: seq<byte>, h: Headers, d: seq<byte>, z: seq<byte>)
    requires |a| == 12 && |h.avih| == AVIH_SIZE && |h.strh| == STRH_SIZE && |h.bmi| == BMI_SIZE && |d| <= |h.super|
    ensures Overwrite(a + Hdrl(h) + z, SUPER_POS, d) == a + Hdrl(h.(super := Overwrite(h.super, 0, d))) + z
  {
    PatchStrl(a, h, STRH_SIZE + 48, d, z);
    PatchRight(h.strh, Chunk(STRF, h.bmi) + h.super, 48, d);
    PatchRight(Chunk(STRF, h.bmi), h.super, 0, d);
  }

  lemma PatchOdml(h: Headers, d: seq<byte>)
    requires 0 < |h.ext| && |d| <= |h.ext|
    ensures |OdmlList(h)| == 20 + |h.ext|
      && Overwrite(OdmlList(h), 20, d) == OdmlList(h.(ext := Overwrite(h.ext, 0, d)))
  {
    PatchList(LIST, Riff.ODML, Chunk(DMLH, h.ext), 8, d);
    PatchRight(DMLH + LE32(|h.ext|), h.ext, 0, d);
  }

  lemma PatchExt(a: seq<byte>, h: Headers, d: seq<byte>, z: seq<byte>)
    requires |a| == 12 && |h.avih| == AVIH_SIZE && |h.strh| == STRH_SIZE && |h.bmi| == BMI_SIZE && |d| <= |h.ext|
      && |h.ext| > 0
    ensures Overwrite(a + Hdrl(h) + z, ExtPos(h), d) == a + Hdrl(h.(ext := Overwrite(h.ext, 0, d))) + z
  {
    var strl, odml := List(LIST, STRL, StrlBody(h)), OdmlList(h);
    PatchOdml(h, d);
    PatchHdrl(a, h, AVIH_SIZE + |strl| + 20, d, z);
    PatchRight(h.avih, strl + odml, |strl| + 20, d);
    PatchRight(strl, odml, 20, d);
  }
}
