/** The reader's walk over a file of the writer, element by element: headers with or without the
    OpenDML blocks, and any number of sections. */
module AviWalk {
  import opened Bytes
  import opened Riff
  import opened AviLayout
  import opened AviSections
  import opened AviFilm
  import opened AviReader
  import opened AviLookup

  // ----- single elements -----

  ghost predicate On(r: Reader) {
    r.outcome == Going && r.good
  }

  /** The reader stands at `tag`, still going. */
  ghost predicate At(r: Reader, tag: FourCC) {
    On(r) && Holds(r.s, r.pos, tag)
  }

  predicate Asked(t: nat) {
    true
  }

  ghost predicate EndsAt(r: Reader, e: Reader) {
    forall t: nat :: Asked(t) ==> e == Walk(r)
  }

  /** Where the walk from `r` ends: `Walk(r)`, chosen by what it is so that naming it does not unfold
      the walk. */
  ghost function End(r: Reader): Reader {
    EndExists(r);
    var e :| EndsAt(r, e);
    e
  }

  lemma EndExists(r: Reader)
    ensures exists e :: EndsAt(r, e)
  {
    assert EndsAt(r, Walk(r));
  }

  lemma EndIsWalk(r: Reader)
    ensures End(r) == Walk(r)
  {
    EndExists(r);
    assert Asked(0);
  }

  lemma StepReaches(r: Reader)
    requires More(r)
    ensures End(r) == End(Step(r))
  {
    EndIsWalk(r);
    EndIsWalk(Step(r));
  }

  lemma WalkEnd(r: Reader)
    requires r.pos >= |r.s|
    ensures Walk(r) == r
  {
  }

  lemma BareStep(r: Reader, tag: FourCC)
    requires At(r, tag) && Bare(tag)
    ensures More(r) && Step(r) == r.(pos := r.pos + 4)
  {
  }

  /** The four bytes at `p` are the size `n`. */
  predicate SizeAt(s: seq<byte>, p: nat, n: nat) {
    p + 4 <= |s| && Read32(s[p..p + 4]) == n
  }

  lemma SizeFrom(s: seq<byte>, p: nat, n: nat)
    requires Holds(s, p, LE32(n)) && n < WORD
    ensures SizeAt(s, p, n)
  {
    Read32LE32(n);
  }

  lemma SizeRead(r: Reader, n: nat)
    requires r.good && SizeAt(r.s, r.pos, n)
    ensures SizeTaken(r) == r.(pos := r.pos + 4, size := n)
  {
    var d := r.s[r.pos..r.pos + 4];
    assert Fetched(r, 4) == d;
    assert Into(LE32(r.size), d) == d;
  }

  lemma SizedStep(r: Reader, tag: FourCC, n: nat)
    requires At(r, tag) && (tag == RIFF || tag == LIST) && SizeAt(r.s, r.pos + 4, n) && n < WORD
    ensures More(r) && Step(r) == r.(pos := r.pos + 8, size := n)
  {
    SizeRead(r.(pos := r.pos + 4), n);
  }

  lemma MainStep(r: Reader)
    requires At(r, AVIH) && SizeAt(r.s, r.pos + 4, AVIH_BODY) && r.pos + 8 + AVIH_BODY <= |r.s|
    ensures More(r) && Step(r) == r.(pos := r.pos + 8 + AVIH_BODY, size := AVIH_BODY)
  {
    SizeRead(r.(pos := r.pos + 4), AVIH_BODY);
  }

  lemma StreamStep(r: Reader, header: seq<byte>)
    requires At(r, STRL) && r.headers == 0
    requires |header| == STREAM_HEADER && Holds(r.s, r.pos + 4, header) && header[8..12] != AUDS
    ensures More(r) && Step(r) == r.(pos := r.pos + 4 + STREAM_HEADER, headers := 1, audio := false)
  {
  }

  lemma FormatStep(r: Reader)
    requires At(r, STRF) && !r.audio && SizeAt(r.s, r.pos + 4, BITMAP_INFO) && r.pos + 8 + BITMAP_INFO <= |r.s|
    ensures More(r) && Step(r) == r.(pos := r.pos + 8 + BITMAP_INFO, size := BITMAP_INFO)
  {
    SizeRead(r.(pos := r.pos + 4), BITMAP_INFO);
  }

  lemma SuperElement(r: Reader)
    requires r.pos >= 4
    ensures Element(r, INDX) == SuperTaken(r)
  {
  }

  lemma SuperStep(r: Reader, r': Reader)
    requires At(r, INDX) && SuperTaken(r.(pos := r.pos + 4)) == r'
    ensures End(r) == End(r')
  {
    SuperElement(r.(pos := r.pos + 4));
    assert Step(r) == Element(r.(pos := r.pos + 4), INDX);
    StepReaches(r);
  }

  lemma TotalStep(r: Reader)
    requires At(r, DMLH) && SizeAt(r.s, r.pos + 4, EXT_SIZE)
    ensures More(r) && Step(r) == r.(pos := r.pos + 8 + EXT_SIZE, size := EXT_SIZE)
  {
    SizeRead(r.(pos := r.pos + 4), EXT_SIZE);
  }

  lemma ListBody(n: nat)
    requires n < WORD
    ensures (4 + n - 4) % WORD == n
  {
  }

  lemma MoviStep(r: Reader, n: nat)
    requires At(r, MOVI) && r.size == 4 + n && n < WORD
    ensures More(r) && Step(r) == r.(pos := r.pos + 4 + n, movis := r.movis + [r.pos])
  {
    ListBody(n);
    assert Step(r) == MoviPassed(r.(pos := r.pos + 4));
  }

  lemma IndexRead(r: Reader, b: seq<byte>)
    requires r.good && r.size == |b| && Holds(r.s, r.pos, b)
    ensures IndexTaken(r) == r.(pos := r.pos + |b|, idxs := WithEntries(r.idxs, b, |b| / OLD_SIZE))
  {
    assert Fetched(r, |b|) == b;
  }

  lemma IndexElement(r: Reader)
    requires r.pos >= 4
    ensures Element(r, IDX1) == IndexTaken(SizeTaken(r))
  {
  }

  /** Taking the old index at `p`, of `m` bytes, makes `t` of the entries `idxs`. */
  ghost predicate Lists(s: seq<byte>, p: nat, m: nat, idxs: map<int, seq<Entry>>, t: map<int, seq<Entry>>) {
    forall r: Reader :: r.s == s && On(r) && r.pos == p + 4 && r.idxs == idxs ==>
      IndexTaken(SizeTaken(r)) == r.(pos := p + 8 + m, size := m, idxs := t)
  }

  lemma IndexStep(r: Reader, m: nat, t: map<int, seq<Entry>>)
    requires At(r, IDX1) && Lists(r.s, r.pos, m, r.idxs, t)
    ensures End(r) == End(r.(pos := r.pos + 8 + m, size := m, idxs := t))
  {
    IndexElement(r.(pos := r.pos + 4));
    assert Step(r) == Element(r.(pos := r.pos + 4), IDX1);
    StepReaches(r);
  }

  // ----- the parts of the file -----

  lemma ListHeld(s: seq<byte>, p: nat, id: FourCC, form: FourCC, body: seq<byte>)
    requires Holds(s, p, List(id, form, body))
    ensures Holds(s, p, id) && Holds(s, p + 8, form) && Holds(s, p + 12, body)
    ensures 4 + |body| < WORD ==> SizeAt(s, p + 4, 4 + |body|)
  {
    var l := List(id, form, body);
    ListParts(id, form, body);
    Within(s, p, l, 0, id);
    Within(s, p, l, 4, LE32(4 + |body|));
    Within(s, p, l, 8, form);
    Within(s, p, l, 12, body);
    if 4 + |body| < WORD { SizeFrom(s, p + 4, 4 + |body|); }
  }

  lemma ChunkHeld(s: seq<byte>, p: nat, id: FourCC, data: seq<byte>)
    requires Holds(s, p, Chunk(id, data))
    ensures Holds(s, p, id) && Holds(s, p + 8, data)
    ensures |data| < WORD ==> SizeAt(s, p + 4, |data|)
  {
    var c := Chunk(id, data);
    ChunkParts(id, data);
    Within(s, p, c, 0, id);
    Within(s, p, c, 4, LE32(|data|));
    Within(s, p, c, 8, data);
    if |data| < WORD { SizeFrom(s, p + 4, |data|); }
  }

  lemma JoinHeld(s: seq<byte>, p: nat, a: seq<byte>, b: seq<byte>)
    requires Holds(s, p, a + b)
    ensures Holds(s, p, a) && Holds(s, p + |a|, b)
  {
    Middle([], a, b);
    assert [] + (a + b) == a + b;
    Within(s, p, a + b, 0, a);
    TailPlaced(s, p, a, b);
  }

  lemma IndexLists(s: seq<byte>, p: nat, b: seq<byte>, idxs: map<int, seq<Entry>>)
    requires Holds(s, p, Chunk(IDX1, b)) && |b| < WORD
    ensures Holds(s, p, IDX1) && Lists(s, p, |b|, idxs, WithEntries(idxs, b, |b| / OLD_SIZE))
  {
    ChunkHeld(s, p, IDX1, b);
    forall r: Reader | r.s == s && On(r) && r.pos == p + 4 && r.idxs == idxs
      ensures IndexTaken(SizeTaken(r))
        == r.(pos := p + 8 + |b|, size := |b|, idxs := WithEntries(idxs, b, |b| / OLD_SIZE))
    {
      SizeRead(r, |b|);
      IndexRead(r.(pos := p + 8, size := |b|), b);
    }
  }

  lemma StreamHeld(s: seq<byte>, p: nat, h: Headers)
    requires Shaped(h) && Holds(s, p, List(LIST, STRL, StrlBody(h)))
    ensures Holds(s, p, LIST) && Holds(s, p + 8, STRL)
    ensures 4 + |StrlBody(h)| < WORD ==> SizeAt(s, p + 4, 4 + |StrlBody(h)|)
    ensures Holds(s, p + 12, h.strh) && Holds(s, p + 76, STRF) && SizeAt(s, p + 80, BMI_SIZE)
    ensures Holds(s, p + 124, h.super) && |StrlBody(h)| == 112 + |h.super|
  {
    ListHeld(s, p, LIST, STRL, StrlBody(h));
    JoinHeld(s, p + 12, h.strh, Chunk(STRF, h.bmi) + h.super);
    JoinHeld(s, p + 76, Chunk(STRF, h.bmi), h.super);
    ChunkHeld(s, p + 76, STRF, h.bmi);
  }

  lemma OdmlHeld(s: seq<byte>, p: nat, h: Headers)
    requires Shaped(h) && |h.ext| > 0 && Holds(s, p, OdmlList(h))
    ensures OdmlAt(s, p) && |OdmlList(h)| == 20 + EXT_SIZE
  {
    ListHeld(s, p, LIST, Riff.ODML, Chunk(DMLH, h.ext));
    ChunkHeld(s, p + 12, DMLH, h.ext);
  }

  lemma HeaderHeld(s: seq<byte>, p: nat, h: Headers)
    requires Shaped(h) && Holds(s, p, Hdrl(h))
    ensures Holds(s, p, LIST) && Holds(s, p + 8, HDRL) && (|Hdrl(h)| < WORD ==> SizeAt(s, p + 4, 4 + |HdrlBody(h)|))
    ensures Holds(s, p + 12, h.avih) && Holds(s, p + 76, List(LIST, STRL, StrlBody(h)))
    ensures Holds(s, p + 200 + |h.super|, OdmlList(h)) && |HdrlBody(h)| == 188 + |h.super| + |OdmlList(h)|
  {
    ListHeld(s, p, LIST, HDRL, HdrlBody(h));
    JoinHeld(s, p + 12, h.avih, List(LIST, STRL, StrlBody(h)) + OdmlList(h));
    JoinHeld(s, p + 76, List(LIST, STRL, StrlBody(h)), OdmlList(h));
  }

  /** A section's parts: at `q` its list of frames, which take `n` bytes, and what follows that. */
  ghost predicate Laid(s: seq<byte>, p: nat, size: nat, form: FourCC, q: nat, n: nat, tail: seq<byte>) {
    && Holds(s, p, RIFF) && SizeAt(s, p + 4, size) && Holds(s, p + 8, form)
    && Holds(s, q, LIST) && SizeAt(s, q + 4, 4 + n) && Holds(s, q + 8, MOVI) && Holds(s, q + 12 + n, tail)
  }

  lemma PartsHeld(s: seq<byte>, p: nat, form: FourCC, head: seq<byte>, body: seq<byte>, tail: seq<byte>)
    requires Holds(s, p, List(RIFF, form, head + (List(LIST, MOVI, body) + tail)))
    requires 24 + |head| + |body| + |tail| < WORD
    ensures Holds(s, p + 12, head)
    ensures Laid(s, p, 16 + |head| + |body| + |tail|, form, p + 12 + |head|, |body|, tail)
  {
    var movi := List(LIST, MOVI, body);
    ListHeld(s, p, RIFF, form, head + (movi + tail));
    JoinHeld(s, p + 12, head, movi + tail);
    JoinHeld(s, p + 12 + |head|, movi, tail);
    ListHeld(s, p + 12 + |head|, LIST, MOVI, body);
  }

  lemma SectionHeld(s: seq<byte>, p: nat, h: Headers, i: nat, body: seq<byte>, idx1: seq<byte>)
    requires Holds(s, p, Section(h, i, body, idx1)) && |Section(h, i, body, idx1)| < WORD
    ensures var head, tail := Head(h, i), Tail(i, idx1);
      && |Section(h, i, body, idx1)| == 24 + |head| + |body| + |tail| && Holds(s, p + 12, head)
      && Laid(s, p, 16 + |head| + |body| + |tail|, Form(i), p + 12 + |head|, |body|, tail)
  {
    PartsHeld(s, p, Form(i), Head(h, i), body, Tail(i, idx1));
  }

  // ----- the walk over the headers -----

  lemma SizedReached(r: Reader, tag: FourCC, n: nat)
    requires At(r, tag) && (tag == RIFF || tag == LIST) && SizeAt(r.s, r.pos + 4, n) && n < WORD
    ensures End(r) == End(r.(pos := r.pos + 8, size := n))
  {
    SizedStep(r, tag, n);
    StepReaches(r);
  }

  lemma BareReached(r: Reader, tag: FourCC)
    requires At(r, tag) && Bare(tag)
    ensures End(r) == End(r.(pos := r.pos + 4))
  {
    BareStep(r, tag);
    StepReaches(r);
  }

  /** Past the head of a list. */
  lemma ListReached(r: Reader, id: FourCC, form: FourCC, n: nat)
    requires At(r, id) && (id == RIFF || id == LIST) && SizeAt(r.s, r.pos + 4, n) && n < WORD
    requires Holds(r.s, r.pos + 8, form) && Bare(form)
    ensures End(r) == End(r.(pos := r.pos + 12, size := n))
  {
    var r1 := r.(pos := r.pos + 8, size := n);
    SizedReached(r, id, n);
    BareReached(r1, form);
  }

  lemma MainReached(r: Reader, avih: seq<byte>)
    requires On(r) && |avih| == AVIH_SIZE && avih[..4] == AVIH && avih[4..8] == LE32(AVIH_SIZE - 8)
      && Holds(r.s, r.pos, avih)
    ensures End(r) == End(r.(pos := r.pos + AVIH_SIZE, size := AVIH_BODY))
  {
    Within(r.s, r.pos, avih, 0, AVIH);
    Within(r.s, r.pos, avih, 4, LE32(AVIH_BODY));
    SizeFrom(r.s, r.pos + 4, AVIH_BODY);
    MainStep(r);
    StepReaches(r);
  }

  lemma HeaderReached(r: Reader, header: seq<byte>)
    requires At(r, STRL) && r.headers == 0
    requires |header| == STREAM_HEADER && Holds(r.s, r.pos + 4, header) && header[8..12] != AUDS
    ensures End(r) == End(r.(pos := r.pos + 4 + STREAM_HEADER, headers := 1, audio := false))
  {
    StreamStep(r, header);
    StepReaches(r);
  }

  lemma FormatReached(r: Reader)
    requires At(r, STRF) && !r.audio && SizeAt(r.s, r.pos + 4, BITMAP_INFO) && r.pos + 8 + BITMAP_INFO <= |r.s|
    ensures End(r) == End(r.(pos := r.pos + 8 + BITMAP_INFO, size := BITMAP_INFO))
  {
    FormatStep(r);
    StepReaches(r);
  }

  /** The stream list, up to where a super index goes. */
  lemma StreamReached(r: Reader, h: Headers)
    requires On(r) && r.headers == 0 && Shaped(h) && h.strh[8..12] != AUDS && 4 + |StrlBody(h)| < WORD
    requires Holds(r.s, r.pos, List(LIST, STRL, StrlBody(h)))
    ensures End(r) == End(r.(pos := r.pos + 124, size := BITMAP_INFO, headers := 1, audio := false))
  {
    StreamHeld(r.s, r.pos, h);
    var n := 4 + |StrlBody(h)|;
    var r1 := r.(pos := r.pos + 8, size := n);
    SizedReached(r, LIST, n);
    var r2 := r1.(pos := r.pos + 76, headers := 1, audio := false);
    HeaderReached(r1, h.strh);
    var r3 := r2.(pos := r.pos + 124, size := BITMAP_INFO);
    FormatReached(r2);
  }

  lemma TotalReached(r: Reader)
    requires At(r, DMLH) && SizeAt(r.s, r.pos + 4, EXT_SIZE)
    ensures End(r) == End(r.(pos := r.pos + 8 + EXT_SIZE, size := EXT_SIZE))
  {
    TotalStep(r);
    StepReaches(r);
  }

  /** The OpenDML header list, from its place on. */
  ghost predicate OdmlAt(s: seq<byte>, p: nat) {
    && Holds(s, p, LIST) && SizeAt(s, p + 4, EXT_SIZE + 12) && Holds(s, p + 8, Riff.ODML)
    && Holds(s, p + 12, DMLH) && SizeAt(s, p + 16, EXT_SIZE)
  }

  lemma OdmlReached(r: Reader)
    requires On(r) && OdmlAt(r.s, r.pos)
    ensures End(r) == End(r.(pos := r.pos + 20 + EXT_SIZE, size := EXT_SIZE))
  {
    var r1 := r.(pos := r.pos + 12, size := EXT_SIZE + 12);
    ListReached(r, LIST, Riff.ODML, EXT_SIZE + 12);
    TotalReached(r1);
  }

  /** More entries of the first stream. */
  function Joined(odml: map<int, seq<Entry>>, es: seq<Entry>): map<int, seq<Entry>> {
    if es == [] then odml else odml[0 := Listed(odml, 0) + es]
  }

  /** The reader past a super index that has the entries `es`. */
  function SuperPassed(r: Reader, super: seq<byte>, es: seq<Entry>): Reader
    requires |super| >= 8
  {
    r.(pos := r.pos + |super|, size := |super| - 8, odml := Joined(r.odml, es))
  }

  /** Taking the super index in `s` comes to the entries `es`, whatever was read before. */
  ghost predicate Yields(s: seq<byte>, super: seq<byte>, es: seq<Entry>) {
    |super| >= 8 &&
    forall r: Reader {:trigger On(r)} ::
      r.s == s && On(r) && r.pos == SUPER_POS ==> End(r) == End(SuperPassed(r, super, es))
  }

  /** The OpenDML entries a file with the headers `h` has. */
  ghost predicate Indexing(s: seq<byte>, h: Headers, es: seq<Entry>) {
    if |h.ext| == 0 then es == [] else Yields(s, h.super, es)
  }

  function LastSize(h: Headers): nat {
    if |h.ext| == 0 then BITMAP_INFO else EXT_SIZE
  }

  /** From the end of the stream's format to the end of the header list, with OpenDML. */
  lemma BlocksReached(r: Reader, super: seq<byte>, es: seq<Entry>)
    requires On(r) && r.pos == SUPER_POS && Yields(r.s, super, es) && OdmlAt(r.s, SUPER_POS + |super|)
    ensures End(r) == End(r.(pos := SUPER_POS + |super| + 20 + EXT_SIZE, size := EXT_SIZE, odml := Joined(r.odml, es)))
  {
    var r1 := SuperPassed(r, super, es);
    var r2 := r1.(pos := r1.pos + 20 + EXT_SIZE, size := EXT_SIZE);
    OdmlReached(r1);
    assert r2 == r.(pos := SUPER_POS + |super| + 20 + EXT_SIZE, size := EXT_SIZE, odml := Joined(r.odml, es));
  }

  /** The reader past the stream's format and the blocks after it. */
  function BlocksRead(r: Reader, h: Headers, es: seq<Entry>): Reader {
    r.(pos := 12 + |Hdrl(h)|, size := LastSize(h), odml := Joined(r.odml, es))
  }

  lemma HeaderLength(h: Headers)
    requires Shaped(h)
    ensures 12 + |Hdrl(h)| == SUPER_POS + |h.super| + |OdmlList(h)|
    ensures |h.ext| == 0 ==> h.super == [] && OdmlList(h) == []
  {
  }

  lemma AnyBlocksReached(r: Reader, h: Headers, es: seq<Entry>)
    requires On(r) && r.pos == SUPER_POS && Shaped(h) && r.size == BITMAP_INFO && Indexing(r.s, h, es)
    requires Holds(r.s, SUPER_POS, h.super) && Holds(r.s, SUPER_POS + |h.super|, OdmlList(h))
    ensures End(r) == End(BlocksRead(r, h, es))
  {
    HeaderLength(h);
    if |h.ext| > 0 {
      OdmlHeld(r.s, SUPER_POS + |h.super|, h);
      BlocksReached(r, h.super, es);
      assert BlocksRead(r, h, es)
        == r.(pos := SUPER_POS + |h.super| + 20 + EXT_SIZE, size := EXT_SIZE, odml := Joined(r.odml, es));
    } else {
      assert BlocksRead(r, h, es) == r;
    }
  }

  /** The reader past the header list. */
  function HeadersRead(r: Reader, h: Headers, es: seq<Entry>): Reader {
    r.(pos := 12 + |Hdrl(h)|, size := LastSize(h), headers := 1, audio := false, odml := Joined(r.odml, es))
  }

  lemma HeadersReached(r: Reader, h: Headers, es: seq<Entry>)
    requires On(r) && r.pos == 12 && r.headers == 0 && Shaped(h) && h.strh[8..12] != AUDS && |Hdrl(h)| < WORD
    requires Holds(r.s, 12, Hdrl(h)) && Indexing(r.s, h, es)
    ensures End(r) == End(HeadersRead(r, h, es))
  {
    HeaderHeld(r.s, 12, h);
    StreamHeld(r.s, 88, h);
    var r1 := r.(pos := 24, size := 4 + |HdrlBody(h)|);
    ListReached(r, LIST, HDRL, 4 + |HdrlBody(h)|);
    var r2 := r1.(pos := 88, size := AVIH_BODY);
    MainReached(r1, h.avih);
    var r3 := r2.(pos := SUPER_POS, size := BITMAP_INFO, headers := 1, audio := false);
    StreamReached(r2, h);
    AnyBlocksReached(r3, h, es);
    assert BlocksRead(r3, h, es) == HeadersRead(r, h, es);
  }

  // ----- the walk over the sections -----

  lemma FramesReached(r: Reader, n: nat)
    requires At(r, MOVI) && r.size == 4 + n && n < WORD
    ensures End(r) == End(r.(pos := r.pos + 4 + n, movis := r.movis + [r.pos]))
  {
    MoviStep(r, n);
    StepReaches(r);
  }

  lemma MoviReached(r: Reader, n: nat)
    requires At(r, LIST) && SizeAt(r.s, r.pos + 4, 4 + n) && Holds(r.s, r.pos + 8, MOVI) && 4 + n < WORD
    ensures End(r) == End(r.(pos := r.pos + 12 + n, size := 4 + n, movis := r.movis + [r.pos + 8]))
  {
    var r1 := r.(pos := r.pos + 8, size := 4 + n);
    SizedReached(r, LIST, 4 + n);
    var r2 := r1.(pos := r1.pos + 4 + n, movis := r1.movis + [r1.pos]);
    FramesReached(r1, n);
    assert r2 == r.(pos := r.pos + 12 + n, size := 4 + n, movis := r.movis + [r.pos + 8]);
  }

  /** The frames of the first section and the old index after them, from the list's place on. */
  lemma BodyReached(r: Reader, n: nat, m: nat, t: map<int, seq<Entry>>)
    requires At(r, LIST) && SizeAt(r.s, r.pos + 4, 4 + n) && Holds(r.s, r.pos + 8, MOVI) && 4 + n < WORD
    requires Holds(r.s, r.pos + 12 + n, IDX1) && Lists(r.s, r.pos + 12 + n, m, r.idxs, t)
    ensures End(r) == End(r.(pos := r.pos + 20 + n + m, size := m, movis := r.movis + [r.pos + 8], idxs := t))
  {
    var r1 := r.(pos := r.pos + 12 + n, size := 4 + n, movis := r.movis + [r.pos + 8]);
    MoviReached(r, n);
    IndexStep(r1, m, t);
    assert r1.(pos := r1.pos + 8 + m, size := m, idxs := t)
      == r.(pos := r.pos + 20 + n + m, size := m, movis := r.movis + [r.pos + 8], idxs := t);
  }

  /** The reader past the frames of the first section, which take `n` bytes, and the old index, and
      past a later section. */
  function BodyRead(r: Reader, n: nat, m: nat, t: map<int, seq<Entry>>): Reader {
    r.(pos := r.pos + 20 + n + m, size := m, movis := r.movis + [r.pos + 8], idxs := t)
  }

  function LaterRead(r: Reader, n: nat): Reader {
    r.(pos := r.pos + 24 + n, size := 4 + n, movis := r.movis + [r.pos + 20])
  }

  /** The first section, once its headers are known to be read to `r2`. */
  lemma FirstSteps(r: Reader, r2: Reader, q: nat, size: nat, n: nat, m: nat, t: map<int, seq<Entry>>)
    requires At(r, RIFF) && SizeAt(r.s, r.pos + 4, size) && Holds(r.s, r.pos + 8, AVI) && size < WORD
    requires End(r.(pos := r.pos + 12, size := size)) == End(r2) && On(r2) && r2.s == r.s && r2.pos == q
    requires Holds(r.s, q, LIST) && SizeAt(r.s, q + 4, 4 + n) && Holds(r.s, q + 8, MOVI) && 4 + n < WORD
    requires Holds(r.s, q + 12 + n, IDX1) && Lists(r.s, q + 12 + n, m, r2.idxs, t)
    ensures End(r) == End(BodyRead(r2, n, m, t))
  {
    ListReached(r, RIFF, AVI, size);
    BodyReached(r2, n, m, t);
  }

  lemma HeadersFrom(r: Reader, h: Headers, size: nat, es: seq<Entry>)
    requires On(r) && r.headers == 0 && Shaped(h) && h.strh[8..12] != AUDS && Indexing(r.s, h, es)
    requires Holds(r.s, 12, Hdrl(h)) && |Hdrl(h)| < WORD
    ensures End(r.(pos := 12, size := size)) == End(HeadersRead(r, h, es))
  {
    var r1 := r.(pos := 12, size := size);
    HeadersReached(r1, h, es);
    assert HeadersRead(r1, h, es) == HeadersRead(r, h, es);
  }

  lemma FirstBody(r: Reader, h: Headers, q: nat, size: nat, n: nat, m: nat, t: map<int, seq<Entry>>, es: seq<Entry>)
    requires At(r, RIFF) && r.pos == 0 && r.headers == 0 && Shaped(h) && h.strh[8..12] != AUDS && Indexing(r.s, h, es)
    requires SizeAt(r.s, 4, size) && Holds(r.s, 8, AVI) && Holds(r.s, 12, Hdrl(h)) && q == 12 + |Hdrl(h)|
    requires |Hdrl(h)| < WORD && size < WORD
    requires Holds(r.s, q, LIST) && SizeAt(r.s, q + 4, 4 + n) && Holds(r.s, q + 8, MOVI) && 4 + n < WORD
    requires Holds(r.s, q + 12 + n, IDX1) && Lists(r.s, q + 12 + n, m, r.idxs, t)
    ensures End(r) == End(BodyRead(HeadersRead(r, h, es), n, m, t))
  {
    HeadersFrom(r, h, size, es);
    FirstSteps(r, HeadersRead(r, h, es), q, size, n, m, t);
  }

  lemma LaterSteps(r: Reader, n: nat)
    requires At(r, RIFF) && SizeAt(r.s, r.pos + 4, 16 + n) && Holds(r.s, r.pos + 8, AVIX) && 16 + n < WORD
    requires Holds(r.s, r.pos + 12, LIST) && SizeAt(r.s, r.pos + 16, 4 + n) && Holds(r.s, r.pos + 20, MOVI)
    ensures End(r) == End(LaterRead(r, n))
  {
    var r1 := r.(pos := r.pos + 12, size := 16 + n);
    ListReached(r, RIFF, AVIX, 16 + n);
    var r2 := r1.(pos := r1.pos + 12 + n, size := 4 + n, movis := r1.movis + [r1.pos + 8]);
    MoviReached(r1, n);
    assert r2 == LaterRead(r, n);
  }

  /** Where the parts of a first section are whose frames take `n` bytes. */
  ghost predicate FirstLaid(s: seq<byte>, h: Headers, size: nat, n: nat, idx1: seq<byte>) {
    && size == 24 + |Hdrl(h)| + n + |idx1| && Holds(s, 12, Hdrl(h))
    && Laid(s, 0, size, AVI, 12 + |Hdrl(h)|, n, Chunk(IDX1, idx1))
  }

  lemma FirstHeld(s: seq<byte>, h: Headers, body: seq<byte>, idx1: seq<byte>)
    requires Holds(s, 0, Section(h, 0, body, idx1)) && |Section(h, 0, body, idx1)| < WORD
    ensures FirstLaid(s, h, |Section(h, 0, body, idx1)| - 8, |body|, idx1)
  {
    SectionHeld(s, 0, h, 0, body, idx1);
    assert Form(0) == AVI && Head(h, 0) == Hdrl(h) && Tail(0, idx1) == Chunk(IDX1, idx1);
  }

  lemma FirstListed(s: seq<byte>, h: Headers, q: nat, size: nat, n: nat, idx1: seq<byte>,
                    idxs: map<int, seq<Entry>>)
    requires FirstLaid(s, h, size, n, idx1) && size < WORD && q == 12 + |Hdrl(h)|
    ensures var p := q + 12 + n;
      Holds(s, p, IDX1) && Lists(s, p, |idx1|, idxs, WithEntries(idxs, idx1, |idx1| / OLD_SIZE))
  {
    IndexLists(s, q + 12 + n, idx1, idxs);
  }

  lemma FirstReached(r: Reader, h: Headers, q: nat, size: nat, n: nat, idx1: seq<byte>, t: map<int, seq<Entry>>,
                     es: seq<Entry>)
    requires On(r) && r.pos == 0 && r.headers == 0 && Shaped(h) && h.strh[8..12] != AUDS && Indexing(r.s, h, es)
    requires FirstLaid(r.s, h, size, n, idx1) && size < WORD && q == 12 + |Hdrl(h)|
    requires Holds(r.s, q + 12 + n, IDX1) && Lists(r.s, q + 12 + n, |idx1|, r.idxs, t)
    ensures End(r) == End(BodyRead(HeadersRead(r, h, es), n, |idx1|, t))
  {
    FirstBody(r, h, q, size, n, |idx1|, t, es);
  }

  function FirstRead(r: Reader, h: Headers, n: nat, idx1: seq<byte>, es: seq<Entry>): Reader {
    BodyRead(HeadersRead(r, h, es), n, |idx1|, WithEntries(r.idxs, idx1, |idx1| / OLD_SIZE))
  }

  lemma OnlyReached(r: Reader, h: Headers, size: nat, n: nat, idx1: seq<byte>, es: seq<Entry>)
    requires On(r) && r.pos == 0 && r.headers == 0 && Shaped(h) && h.strh[8..12] != AUDS && Indexing(r.s, h, es)
    requires FirstLaid(r.s, h, size, n, idx1) && size < WORD
    ensures End(r) == End(FirstRead(r, h, n, idx1, es))
  {
    var q := 12 + |Hdrl(h)|;
    FirstListed(r.s, h, q, size, n, idx1, r.idxs);
    FirstReached(r, h, q, size, n, idx1, WithEntries(r.idxs, idx1, |idx1| / OLD_SIZE), es);
  }

  lemma SectionReached(r: Reader, h: Headers, body: seq<byte>, idx1: seq<byte>, es: seq<Entry>)
    requires On(r) && r.pos == 0 && r.headers == 0 && Shaped(h) && h.strh[8..12] != AUDS && Indexing(r.s, h, es)
    requires Holds(r.s, 0, Section(h, 0, body, idx1)) && |Section(h, 0, body, idx1)| < WORD
    ensures End(r) == End(FirstRead(r, h, |body|, idx1, es))
    ensures var r' := FirstRead(r, h, |body|, idx1, es); On(r') && r'.pos == |Section(h, 0, body, idx1)|
  {
    FirstHeld(r.s, h, body, idx1);
    OnlyReached(r, h, |Section(h, 0, body, idx1)| - 8, |body|, idx1, es);
  }

  lemma LaterReached(r: Reader, h: Headers, i: nat, body: seq<byte>, idx1: seq<byte>)
    requires On(r) && i > 0 && Holds(r.s, r.pos, Section(h, i, body, idx1)) && |Section(h, i, body, idx1)| < WORD
    ensures End(r) == End(LaterRead(r, |body|)) && |Section(h, i, body, idx1)| == 24 + |body|
  {
    SectionHeld(r.s, r.pos, h, i, body, idx1);
    LaterSteps(r, |body|);
  }

  function SectionsRead(r: Reader, h: Headers, closed: seq<seq<byte>>, idx1: seq<byte>, es: seq<Entry>): Reader
    decreases |closed|
  {
    if closed == [] then r
    else if |closed| == 1 then FirstRead(r, h, |closed[0]|, idx1, es)
    else LaterRead(SectionsRead(r, h, closed[..|closed| - 1], idx1, es), |closed[|closed| - 1]|)
  }

  /** What a file of the writer with these parts has: sections below 4 GiB, a picture stream. */
  ghost predicate Readable(s: seq<byte>, h: Headers, closed: seq<seq<byte>>, idx1: seq<byte>, es: seq<Entry>) {
    && Shaped(h) && h.strh[8..12] != AUDS && Indexing(s, h, es) && SmallSections(h, closed, idx1)
    && Holds(s, 0, Before(h, closed, idx1))
  }

  lemma FewerReadable(s: seq<byte>, h: Headers, closed: seq<seq<byte>>, idx1: seq<byte>, es: seq<Entry>)
    requires Readable(s, h, closed, idx1, es) && closed != []
    ensures var n := |closed| - 1;
      && Readable(s, h, closed[..n], idx1, es) && |Section(h, n, closed[n], idx1)| < WORD
      && Holds(s, |Before(h, closed[..n], idx1)|, Section(h, n, closed[n], idx1))
      && |Before(h, closed, idx1)| == |Before(h, closed[..n], idx1)| + |Section(h, n, closed[n], idx1)|
  {
    var n := |closed| - 1;
    LastOfBefore(h, closed, idx1);
    JoinHeld(s, 0, Before(h, closed[..n], idx1), Section(h, n, closed[n], idx1));
    assert forall i :: 0 <= i < n ==> closed[..n][i] == closed[i];
  }

  lemma {:induction false} SectionsReached(r: Reader, h: Headers, closed: seq<seq<byte>>, idx1: seq<byte>,
      es: seq<Entry>)
    requires Readable(r.s, h, closed, idx1, es) && On(r) && r.pos == 0 && r.headers == 0
    ensures var r' := SectionsRead(r, h, closed, idx1, es);
      End(r) == End(r') && On(r') && r'.s == r.s && r'.pos == |Before(h, closed, idx1)|
    decreases |closed|
  {
    if closed != [] {
      var n := |closed| - 1;
      FewerReadable(r.s, h, closed, idx1, es);
      if n == 0 {
        FirstBefore(h, closed, idx1);
        SectionReached(r, h, closed[0], idx1, es);
      } else {
        SectionsReached(r, h, closed[..n], idx1, es);
        var r1 := SectionsRead(r, h, closed[..n], idx1, es);
        LaterReached(r1, h, n, closed[n], idx1);
      }
    }
  }

  /** What the walk has when it ends: a place for each section's frames, the old index's entries, and
      the OpenDML entries. */
  ghost predicate Gathered(r: Reader, r0: Reader, h: Headers, n: nat, idx1: seq<byte>, es: seq<Entry>) {
    && |r.movis| == n > 0 && r.movis[0] == BodyStart(h, 0, 0) - 4 && r.useMovi == r0.useMovi
    && r.idxs == WithEntries(r0.idxs, idx1, |idx1| / OLD_SIZE) && r.odml == Joined(r0.odml, es)
  }

  lemma {:induction false} SectionsGather(r: Reader, h: Headers, closed: seq<seq<byte>>, idx1: seq<byte>,
      es: seq<Entry>)
    requires closed != [] && r.movis == []
    ensures Gathered(SectionsRead(r, h, closed, idx1, es), r, h, |closed|, idx1, es)
    decreases |closed|
  {
    if |closed| > 1 { SectionsGather(r, h, closed[..|closed| - 1], idx1, es); }
  }

  /** The walk over a whole file of the writer, of any number of sections, finds a list of frames in
      each, the old index and the OpenDML indexes, and takes nothing else for an element. */
  lemma WalkOfFile(s: seq<byte>, h: Headers, closed: seq<seq<byte>>, idx1: seq<byte>, es: seq<Entry>,
                   idxs: map<int, seq<Entry>>, odml: map<int, seq<Entry>>)
    requires s == Before(h, closed, idx1) && closed != [] && Readable(s, h, closed, idx1, es)
    ensures var r := Walk(Fresh(s, idxs, odml));
      On(r) && r.s == s && r.pos == |s| && Gathered(r, Fresh(s, idxs, odml), h, |closed|, idx1, es)
  {
    var r := Fresh(s, idxs, odml);
    SectionsReached(r, h, closed, idx1, es);
    SectionsGather(r, h, closed, idx1, es);
    EndIsWalk(r);
    EndIsWalk(SectionsRead(r, h, closed, idx1, es));
    WalkEnd(SectionsRead(r, h, closed, idx1, es));
  }

  lemma WholeHeld(s: seq<byte>)
    ensures Holds(s, 0, s)
  {
  }

  /** The first section is where the file starts. */
  lemma {:induction false} FirstInFile(s: seq<byte>, h: Headers, closed: seq<seq<byte>>, idx1: seq<byte>,
      es: seq<Entry>)
    requires Readable(s, h, closed, idx1, es) && closed != []
    ensures Holds(s, 0, Section(h, 0, closed[0], idx1))
    decreases |closed|
  {
    var n := |closed| - 1;
    FewerReadable(s, h, closed, idx1, es);
    if n == 0 {
      FirstBefore(h, closed, idx1);
    } else {
      FirstInFile(s, h, closed[..n], idx1, es);
    }
  }

  lemma FirstSizeHeld(s: seq<byte>, h: Headers, closed: seq<seq<byte>>, idx1: seq<byte>, es: seq<Entry>)
    requires Readable(s, h, closed, idx1, es) && closed != []
    ensures var n := |Section(h, 0, closed[0], idx1)|;
      32 + |closed[0]| <= n < WORD && n <= |s| && SizeAt(s, 4, n - 8)
  {
    FirstInFile(s, h, closed, idx1, es);
    FirstHeld(s, h, closed[0], idx1);
  }
}
