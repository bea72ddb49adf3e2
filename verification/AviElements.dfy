/** What the reader makes of any file: element by element, entry by entry, and read by read, whether or
    not the writer would have left such a file. */
module AviElements {
  import opened Bytes
  import opened Riff
  import opened AviIndex
  import opened AviReader
  import opened AviWalk
  import opened AviRoundTrip

  // ----- elements -----

  lemma TagIff(s: seq<byte>, p: nat, t: string, id: FourCC)
    requires |t| == 4 && p + 4 <= |s| && forall i :: 0 <= i < 4 ==> id[i] as int == t[i] as int
    ensures TagAt(s, p, t) <==> s[p..p + 4] == id
  {
    if TagAt(s, p, t) {
      forall i | 0 <= i < 4 ensures s[p..p + 4][i] == id[i] {
        assert s[p + i] as int == id[i] as int;
      }
    }
  }

  /** Form types and a few tags stand for themselves: what follows them is taken for the next element. */
  lemma BareTags(r: Reader, t: string)
    requires On(r) && t in ["AVI ", "AVIX", "hdrl", "strh", "INFO", "odml", "Tdat"] && TagAt(r.s, r.pos, t)
    ensures More(r) && Step(r) == r.(pos := r.pos + 4)
  {
    var ids := [AVI, AVIX, HDRL, STRH, INFO, Riff.ODML, TDAT];
    var ts := ["AVI ", "AVIX", "hdrl", "strh", "INFO", "odml", "Tdat"];
    var i :| 0 <= i < 7 && ts[i] == t;
    TagIff(r.s, r.pos, t, ids[i]);
  }

  /** A RIFF or a list is entered, its size kept. */
  lemma ListElement(r: Reader, t: string, n: nat)
    requires On(r) && t in ["RIFF", "LIST"] && TagAt(r.s, r.pos, t) && SizeAt(r.s, r.pos + 4, n)
    ensures More(r) && Step(r) == r.(pos := r.pos + 8, size := n)
  {
    TagIff(r.s, r.pos, t, if t == "RIFF" then RIFF else LIST);
    SizeRead(r.(pos := r.pos + 4), n);
  }

  /** A main header of any size but 56 makes `open` fail. */
  lemma MainElement(r: Reader, n: nat)
    requires On(r) && TagAt(r.s, r.pos, "avih") && SizeAt(r.s, r.pos + 4, n)
    ensures More(r)
    ensures n != 56 ==> Step(r) == r.(pos := r.pos + 8, size := n, outcome := Refused)
    ensures n == 56 && r.pos + 64 <= |r.s| ==> Step(r) == r.(pos := r.pos + 64, size := 56)
  {
    TagIff(r.s, r.pos, "avih", AVIH);
    SizeRead(r.(pos := r.pos + 4), n);
  }

  /** So does a third stream header. */
  lemma ThirdStream(r: Reader)
    requires On(r) && TagAt(r.s, r.pos, "strl") && r.headers >= 2
    ensures More(r) && Step(r) == r.(pos := r.pos + 4, outcome := Refused)
  {
    TagIff(r.s, r.pos, "strl", STRL);
  }

  /** The first two are read, and say whether the format after them is of sound. */
  lemma StreamElement(r: Reader)
    requires On(r) && TagAt(r.s, r.pos, "strl") && r.headers < 2 && r.pos + 68 <= |r.s|
    ensures More(r)
    ensures Step(r) == r.(pos := r.pos + 68, headers := r.headers + 1, audio := TagAt(r.s, r.pos + 12, "auds"))
  {
    TagIff(r.s, r.pos, "strl", STRL);
    TagIff(r.s, r.pos + 12, "auds", AUDS);
    SliceOfSlice(r.s, r.pos + 4, r.pos + 68, 8, 12);
    assert Fetched(r.(pos := r.pos + 4), 64) == r.s[r.pos + 4..r.pos + 68];
  }

  /** A format of pictures is passed over whole, however much longer than 40 bytes it is. */
  lemma FormatElement(r: Reader, n: nat)
    requires On(r) && TagAt(r.s, r.pos, "strf") && SizeAt(r.s, r.pos + 4, n) && !r.audio
    requires r.pos + 8 + (if n < 40 then n else 40) <= |r.s|
    ensures More(r) && Step(r) == r.(pos := r.pos + 8 + n, size := n)
  {
    TagIff(r.s, r.pos, "strf", STRF);
    SizeRead(r.(pos := r.pos + 4), n);
  }

  /** A stream name is left four bytes before its end, and one of less than four takes the walk 4 GiB on. */
  lemma NameElement(r: Reader, n: nat)
    requires On(r) && TagAt(r.s, r.pos, "strn") && SizeAt(r.s, r.pos + 4, n) && n < WORD
    ensures More(r) && Step(r) == r.(pos := r.pos + 4 + n + if n < 4 then WORD else 0, size := n)
  {
    TagIff(r.s, r.pos, "strn", STRN);
    SizeRead(r.(pos := r.pos + 4), n);
    FourLess(n);
  }

  lemma FourLess(n: nat)
    requires n < WORD
    ensures (n - 4) % WORD == n - 4 + if n < 4 then WORD else 0
  {
  }

  /** The list of frames is passed over by the size of the list read before it, and its place is kept. */
  lemma MoviElement(r: Reader)
    requires On(r) && TagAt(r.s, r.pos, "movi") && r.size < WORD
    ensures More(r)
    ensures Step(r) == r.(pos := r.pos + r.size + if r.size < 4 then WORD else 0, movis := r.movis + [r.pos])
  {
    TagIff(r.s, r.pos, "movi", MOVI);
    FourLess(r.size);
  }

  /** None of the tags the reader looks for is at `p`: first those that stand for themselves, then those
      of elements it takes. */
  predicate NotBare(s: seq<byte>, p: nat) {
    && !TagAt(s, p, "AVI ") && !TagAt(s, p, "AVIX") && !TagAt(s, p, "hdrl") && !TagAt(s, p, "strh")
    && !TagAt(s, p, "INFO") && !TagAt(s, p, "odml") && !TagAt(s, p, "Tdat")
  }

  predicate NotTaken(s: seq<byte>, p: nat) {
    && !TagAt(s, p, "RIFF") && !TagAt(s, p, "LIST") && !TagAt(s, p, "avih") && !TagAt(s, p, "strl")
    && !TagAt(s, p, "strf") && !TagAt(s, p, "strn") && !TagAt(s, p, "movi") && !TagAt(s, p, "idx1")
    && !TagAt(s, p, "indx") && !TagAt(s, p, "vprp")
  }

  lemma BareTag(s: seq<byte>, p: nat)
    requires p + 4 <= |s| && NotBare(s, p)
    ensures !Bare(s[p..p + 4])
  {
    TagIff(s, p, "AVI ", AVI);
    TagIff(s, p, "AVIX", AVIX);
    TagIff(s, p, "hdrl", HDRL);
    TagIff(s, p, "strh", STRH);
    TagIff(s, p, "INFO", INFO);
    TagIff(s, p, "odml", Riff.ODML);
    TagIff(s, p, "Tdat", TDAT);
  }

  lemma SkippedElement(r: Reader, s: seq<byte>, p: nat)
    requires p + 4 <= |s| && !Bare(s[p..p + 4]) && NotTaken(s, p) && r.pos >= 4
    ensures Element(r, s[p..p + 4]) == Skipped(SizeTaken(r), SizeTaken(r).size)
  {
    TagIff(s, p, "RIFF", RIFF);
    TagIff(s, p, "LIST", LIST);
    TagIff(s, p, "avih", AVIH);
    TagIff(s, p, "strl", STRL);
    TagIff(s, p, "strf", STRF);
    TagIff(s, p, "strn", STRN);
    TagIff(s, p, "movi", MOVI);
    TagIff(s, p, "idx1", IDX1);
    TagIff(s, p, "indx", INDX);
    TagIff(s, p, "vprp", VPRP);
  }

  /** An element of any other tag is passed over whole, and leaves nothing behind. */
  lemma OtherElement(r: Reader, n: nat)
    requires On(r) && SizeAt(r.s, r.pos + 4, n) && NotBare(r.s, r.pos) && NotTaken(r.s, r.pos)
    ensures More(r) && Step(r) == r.(pos := r.pos + 8 + n, size := n)
  {
    BareTag(r.s, r.pos);
    SkippedElement(r.(pos := r.pos + 4), r.s, r.pos);
    SizeRead(r.(pos := r.pos + 4), n);
  }

  // ----- what no element does -----

  lemma StdChange(r: Reader, stream: int, place: nat)
    ensures var r' := StdTaken(r, stream, place);
      && r'.movis == r.movis && r'.idxs == r.idxs && r'.useMovi == r.useMovi
      && (r.outcome != Refused ==> r'.outcome != Refused)
  {
    var r1 := Taken(Sought(r, Signed64(place)), STD_HEAD);
    assert r1.movis == r.movis && r1.idxs == r.idxs && r1.useMovi == r.useMovi && r1.outcome == r.outcome;
    var r2 := Taken(r1, Read32(HeadAt(r, place)[4..8]));
    assert r2.movis == r.movis && r2.idxs == r.idxs && r2.useMovi == r.useMovi && r2.outcome == r.outcome;
  }

  lemma {:induction false} StdsChange(r: Reader, stream: int, places: seq<nat>, n: nat)
    requires n <= |places|
    ensures var r' := StdsTaken(r, stream, places, n);
      && r'.movis == r.movis && r'.idxs == r.idxs && r'.useMovi == r.useMovi
      && (r.outcome != Refused ==> r'.outcome != Refused)
  {
    if n > 0 {
      StdsChange(r, stream, places, n - 1);
      StdChange(StdsTaken(r, stream, places, n - 1), stream, places[n - 1]);
    }
  }

  /** Whatever is in the file, only a list of frames adds a place to those kept, only an old index touches
      the entries, only a super index the OpenDML ones, and only a main header or a stream header makes
      `open` fail. */
  lemma StepChanges(r: Reader)
    requires More(r)
    ensures var r' := Step(r);
      && r'.movis == r.movis + (if TagAt(r.s, r.pos, "movi") then [r.pos] else [])
      && (!TagAt(r.s, r.pos, "idx1") ==> r'.idxs == r.idxs) && (!TagAt(r.s, r.pos, "indx") ==> r'.odml == r.odml)
      && (r'.outcome == Refused ==> TagAt(r.s, r.pos, "avih") || TagAt(r.s, r.pos, "strl"))
      && r'.useMovi == r.useMovi
  {
    TagIff(r.s, r.pos, "movi", MOVI);
    TagIff(r.s, r.pos, "idx1", IDX1);
    TagIff(r.s, r.pos, "indx", INDX);
    TagIff(r.s, r.pos, "avih", AVIH);
    TagIff(r.s, r.pos, "strl", STRL);
    ElementChanges(r.(pos := r.pos + 4), r.s[r.pos..r.pos + 4]);
  }

  lemma SuperChanges(r: Reader)
    requires r.outcome != Refused
    ensures var r' := SuperTaken(r);
      r'.movis == r.movis && r'.idxs == r.idxs && r'.useMovi == r.useMovi && r'.outcome != Refused
  {
    var r1 := SizeTaken(r);
    var head := Fetched(r1, 24);
    var r2 := Taken(r1, 24);
    if |head| == 24 && head[2] == 0 {
      var n := Read32(head[4..8]);
      var rows := Fetched(r2, 16 * n);
      if |rows| == 16 * n { StdsChange(Taken(r2, 16 * n), Atoi2(head[8], head[9]), PlacesIn(rows, n), n); }
    }
  }

  /** `r'` has the same frames, entries and offset as `r`, and has refused the file only if `may`. */
  predicate Keeps(r: Reader, r': Reader, may: bool) {
    && r'.movis == r.movis && r'.idxs == r.idxs && r'.odml == r.odml && r'.useMovi == r.useMovi
    && (r'.outcome == Refused ==> may)
  }

  lemma PartsKeep(r: Reader)
    requires r.outcome == Going
    ensures Keeps(r, SizeTaken(r), false) && Keeps(r, MainTaken(r), true) && Keeps(r, StreamTaken(r), true)
    ensures Keeps(r, FormatTaken(r), false) && forall n: nat :: Keeps(r, Skipped(SizeTaken(r), n), false)
  {
  }

  lemma PlainChanges(r: Reader, tag: FourCC)
    requires r.pos >= 4 && r.outcome == Going && tag != IDX1 && tag != INDX && tag != MOVI
    ensures Keeps(r, Element(r, tag), tag == AVIH || tag == STRL)
  {
    PartsKeep(r);
    if Bare(tag) {
      assert Element(r, tag) == r;
    } else if tag == AVIH {
      assert Element(r, tag) == MainTaken(r);
    } else if tag == STRL {
      assert Element(r, tag) == StreamTaken(r);
    }
  }

  lemma ElementChanges(r: Reader, tag: FourCC)
    requires r.pos >= 4 && r.outcome == Going
    ensures var r' := Element(r, tag);
      && r'.movis == r.movis + (if tag == MOVI then [r.pos - 4] else []) && (tag != IDX1 ==> r'.idxs == r.idxs)
      && (tag != INDX ==> r'.odml == r.odml) && (r'.outcome == Refused ==> tag == AVIH || tag == STRL)
      && r'.useMovi == r.useMovi
  {
    if tag == INDX {
      SuperElement(r);
      SuperChanges(r);
    } else if tag == IDX1 {
      IndexElement(r);
    } else if tag == MOVI {
      assert Element(r, MOVI) == MoviPassed(r);
    } else {
      PlainChanges(r, tag);
    }
  }

  /** `open` says yes exactly when the walk was not made to fail and met a list of frames. */
  lemma AcceptedIff(s: seq<byte>, idxs: map<int, seq<Entry>>, odml: map<int, seq<Entry>>)
    ensures var r := Walk(Fresh(s, idxs, odml));
      Accepted(Reopened(s, idxs, odml)) <==> r.outcome == Going && r.movis != []
    ensures !Accepted(Reopened([], idxs, odml))
  {
    assert !More(Fresh([], idxs, odml));
  }

  // ----- the old index of any file -----

  /** The number a text begins with, as C's `atoi` takes it: after blanks, a sign or none, then digits. */
  function Atoi(t: seq<byte>): int {
    if t == [] then 0
    else if t[0] == 0x20 || 0x09 <= t[0] <= 0x0D then Atoi(t[1..])
    else if t[0] == 0x2D then 0 - Digits(t[1..], 0)
    else if t[0] == 0x2B then Digits(t[1..], 0)
    else Digits(t, 0)
  }

  function Digits(t: seq<byte>, n: nat): nat {
    if t != [] && 0x30 <= t[0] <= 0x39 then Digits(t[1..], 10 * n + t[0] as int - 0x30) else n
  }

  lemma DigitsOfOne(b: byte, n: nat)
    ensures Digits([b], n) == if 0x30 <= b <= 0x39 then 10 * n + b as int - 0x30 else n
  {
    assert [b][1..] == [];
  }

  lemma AtoiOfOne(b: byte)
    ensures Atoi([b]) == Digits([b], 0)
  {
    assert [b][1..] == [];
  }

  /** The stream an entry's id begins with is the number `atoi` makes of its first two characters. */
  lemma AtoiOfTwo(a: byte, b: byte)
    ensures Atoi2(a, b) == Atoi([a, b])
  {
    assert [a, b][1..] == [b];
    DigitsOfOne(b, 0);
    AtoiOfOne(b);
    if 0x30 <= a <= 0x39 { DigitsOfOne(b, a as int - 0x30); }
  }

  /** The old index entry at `p`. */
  function EntryAt(s: seq<byte>, p: nat): Entry
    requires p + 16 <= |s|
  {
    Entry(s[p..p + 4], Read32(s[p + 4..p + 8]), Read32(s[p + 8..p + 12]), Read32(s[p + 12..p + 16]))
  }

  /** The entry at `p` if it is of stream `k`; `rec ` lists are of none. */
  function PickedAt(s: seq<byte>, p: nat, k: int): seq<Entry>
    requires p + 16 <= |s|
  {
    if !TagAt(s, p, "rec ") && Atoi(s[p..p + 2]) == k then [EntryAt(s, p)] else []
  }

  /** Those of the first `m` entries in `b` that are of stream `k`, in order. */
  function Picked(b: seq<byte>, m: nat, k: int): seq<Entry>
    requires 16 * m <= |b|
  {
    if m == 0 then [] else Picked(b, m - 1, k) + PickedAt(b, 16 * (m - 1), k)
  }

  lemma EntryIn(b: seq<byte>, p: nat)
    requires p + 16 <= |b|
    ensures OldEntryOf(b[p..p + 16]) == EntryAt(b, p)
  {
    SliceOfSlice(b, p, p + 16, 0, 4);
    SliceOfSlice(b, p, p + 16, 4, 8);
    SliceOfSlice(b, p, p + 16, 8, 12);
    SliceOfSlice(b, p, p + 16, 12, 16);
  }

  lemma EntryGoes(idxs: map<int, seq<Entry>>, s: seq<byte>, p: nat, k: int)
    requires p + 16 <= |s|
    ensures Listed(WithEntry(idxs, EntryAt(s, p)), k) == Listed(idxs, k) + PickedAt(s, p, k)
  {
    TagIff(s, p, "rec ", REC);
    AtoiOfTwo(s[p], s[p + 1]);
    assert s[p..p + 2] == [s[p], s[p + 1]];
  }

  lemma OneMoreGoes(idxs: map<int, seq<Entry>>, b: seq<byte>, m: nat)
    requires 16 * (m + 1) <= |b|
    ensures WithEntries(idxs, b, m + 1) == WithEntry(WithEntries(idxs, b, m), EntryAt(b, 16 * m))
  {
    EntryIn(b, 16 * m);
  }

  lemma {:induction false} OneMorePicked(before: seq<Entry>, b: seq<byte>, m: nat, k: int)
    requires 16 * (m + 1) <= |b|
    ensures before + Picked(b, m, k) + PickedAt(b, 16 * m, k) == before + Picked(b, m + 1, k)
  {
    Joins(before, Picked(b, m, k), PickedAt(b, 16 * m, k));
  }

  lemma {:induction false} PickedStep(x: map<int, seq<Entry>>, before: seq<Entry>, b: seq<byte>, m: nat, k: int)
    requires 16 * (m + 1) <= |b| && Listed(x, k) == before + Picked(b, m, k)
    ensures Listed(WithEntry(x, EntryAt(b, 16 * m)), k) == before + Picked(b, m + 1, k)
  {
    EntryGoes(x, b, 16 * m, k);
    OneMorePicked(before, b, m, k);
  }

  lemma {:induction false} EntriesGo(idxs: map<int, seq<Entry>>, b: seq<byte>, m: nat, k: int)
    requires 16 * m <= |b|
    ensures Listed(WithEntries(idxs, b, m), k) == Listed(idxs, k) + Picked(b, m, k)
  {
    if m == 0 {
      assert Listed(idxs, k) + [] == Listed(idxs, k);
    } else {
      var n := m - 1;
      EntriesGo(idxs, b, n, k);
      PickedStep(WithEntries(idxs, b, n), Listed(idxs, k), b, n, k);
      OneMoreGoes(idxs, b, n);
      assert m == n + 1;
    }
  }

  lemma Joins<T>(a: seq<T>, b: seq<T>, c: seq<T>)
    ensures (a + b) + c == a + (b + c)
  {
  }

  /** As many of the `n` bytes from `p` on as there are. */
  function Rest(s: seq<byte>, p: nat, n: nat): seq<byte>
    requires p <= |s|
  {
    if p + n <= |s| then s[p..p + n] else s[p..]
  }

  lemma IndexOf(r: Reader, k: int)
    requires On(r) && r.pos <= |r.s|
    ensures var b := Rest(r.s, r.pos, r.size); var r' := IndexTaken(r);
      && r' == r.(pos := r.pos + |b|, size := |b|, good := |b| == r.size, idxs := r'.idxs)
      && Listed(r'.idxs, k) == Listed(r.idxs, k) + Picked(b, |b| / 16, k)
  {
    var b := Rest(r.s, r.pos, r.size);
    assert Fetched(r, r.size) == b;
    EntriesGo(r.idxs, b, |b| / 16, k);
  }

  /** An old index of any file, all of it there or not: its whole entries go, in order, each to the stream
      its id names, for however many streams. */
  lemma OldIndexElement(r: Reader, n: nat, k: int)
    requires On(r) && TagAt(r.s, r.pos, "idx1") && SizeAt(r.s, r.pos + 4, n)
    ensures More(r)
    ensures var b := Rest(r.s, r.pos + 8, n); var r' := Step(r);
      && r' == r.(pos := r.pos + 8 + |b|, size := |b|, good := |b| == n, idxs := r'.idxs)
      && Listed(r'.idxs, k) == Listed(r.idxs, k) + Picked(b, |b| / 16, k)
  {
    TagIff(r.s, r.pos, "idx1", IDX1);
    SizeRead(r.(pos := r.pos + 4), n);
    IndexElement(r.(pos := r.pos + 4));
    assert Step(r) == IndexTaken(r.(pos := r.pos + 8, size := n));
    IndexOf(r.(pos := r.pos + 8, size := n), k);
  }

  // ----- OpenDML indexes of any file -----

  lemma SignedIs(n: nat)
    ensures Signed64(n) == (n + 0x8000_0000_0000_0000) % WORD64 - 0x8000_0000_0000_0000
  {
    assert n == n / WORD64 * WORD64 + n % WORD64;
    var q := n / WORD64;
    if n % WORD64 < 0x8000_0000_0000_0000 {
      Halves(n + 0x8000_0000_0000_0000, q, n % WORD64 + 0x8000_0000_0000_0000);
    } else {
      Halves(n + 0x8000_0000_0000_0000, q + 1, n % WORD64 - 0x8000_0000_0000_0000);
    }
  }

  lemma Halves(n: nat, q: nat, r: nat)
    requires n == q * WORD64 + r && r < WORD64
    ensures n % WORD64 == r
  {
  }

  /** Row `i` of a standard index with the base `base`: its place in 64 signed bits, its size without
      the top bit. */
  function RowAt(b: seq<byte>, i: nat, id: seq<byte>, base: nat): Entry
    requires 8 * (i + 1) <= |b|
  {
    var place := base + Read32(b[8 * i..8 * i + 4]);
    Entry(id, 0, (place + 0x8000_0000_0000_0000) % WORD64 - 0x8000_0000_0000_0000,
          Read32(b[8 * i + 4..8 * i + 8]) % 0x8000_0000)
  }

  function RowsIn(b: seq<byte>, n: nat, id: seq<byte>, base: nat): seq<Entry>
    requires 8 * n <= |b|
  {
    if n == 0 then [] else RowsIn(b, n - 1, id, base) + [RowAt(b, n - 1, id, base)]
  }

  lemma RowIs(b: seq<byte>, i: nat, id: seq<byte>, base: nat)
    requires 8 * (i + 1) <= |b|
    ensures RowOf(id, base, b[8 * i..8 * (i + 1)]) == RowAt(b, i, id, base)
  {
    SliceOfSlice(b, 8 * i, 8 * i + 8, 0, 4);
    SliceOfSlice(b, 8 * i, 8 * i + 8, 4, 8);
    SignedIs(base + Read32(b[8 * i..8 * i + 4]));
  }

  lemma RowGoes(odml: map<int, seq<Entry>>, stream: int, e: Entry, k: int)
    ensures Listed(WithRow(odml, stream, e), k) == Listed(odml, k) + if k == stream then [e] else []
  {
  }

  lemma {:induction false} RowsStep(x: map<int, seq<Entry>>, before: seq<Entry>, stream: int, id: seq<byte>, base: nat,
      b: seq<byte>, n: nat, k: int)
    requires 8 * (n + 1) <= |b| && Listed(x, k) == before + if k == stream then RowsIn(b, n, id, base) else []
    ensures Listed(WithRow(x, stream, RowAt(b, n, id, base)), k)
      == before + if k == stream then RowsIn(b, n + 1, id, base) else []
  {
    RowGoes(x, stream, RowAt(b, n, id, base), k);
    Joins(before, RowsIn(b, n, id, base), [RowAt(b, n, id, base)]);
  }

  lemma OneMoreRow(odml: map<int, seq<Entry>>, stream: int, id: seq<byte>, base: nat, b: seq<byte>, n: nat)
    requires 8 * (n + 1) <= |b|
    ensures WithRows(odml, stream, id, base, b, n + 1)
      == WithRow(WithRows(odml, stream, id, base, b, n), stream, RowAt(b, n, id, base))
  {
    RowIs(b, n, id, base);
  }

  lemma {:induction false} RowsGo(odml: map<int, seq<Entry>>, stream: int, id: seq<byte>, base: nat, b: seq<byte>,
      n: nat, k: int)
    requires 8 * n <= |b|
    ensures Listed(WithRows(odml, stream, id, base, b, n), k)
      == Listed(odml, k) + if k == stream then RowsIn(b, n, id, base) else []
  {
    if n == 0 {
      assert Listed(odml, k) + [] == Listed(odml, k);
    } else {
      var m := n - 1;
      RowsGo(odml, stream, id, base, b, m, k);
      RowsStep(WithRows(odml, stream, id, base, b, m), Listed(odml, k), stream, id, base, b, m, k);
      OneMoreRow(odml, stream, id, base, b, m);
      assert n == m + 1;
    }
  }

  predicate Wanted(s: seq<byte>, p: nat) {
    || TagAt(s, p, "00dc") || TagAt(s, p, "00db") || TagAt(s, p, "01dc") || TagAt(s, p, "01db")
    || TagAt(s, p, "00wb") || TagAt(s, p, "01wb")
  }

  lemma WantedIff(s: seq<byte>, p: nat)
    requires p + 4 <= |s|
    ensures Wanted(s, p) <==> Indexable(s[p..p + 4])
    ensures Indexable(s[p..p + 4]) ==> s[p..p + 4] != REC
  {
    TagIff(s, p, "00dc", [0x30, 0x30, 0x64, 0x63]);
    TagIff(s, p, "00db", [0x30, 0x30, 0x64, 0x62]);
    TagIff(s, p, "01dc", [0x30, 0x31, 0x64, 0x63]);
    TagIff(s, p, "01db", [0x30, 0x31, 0x64, 0x62]);
    TagIff(s, p, "00wb", [0x30, 0x30, 0x77, 0x62]);
    TagIff(s, p, "01wb", [0x30, 0x31, 0x77, 0x62]);
  }

  lemma HeadRead(r: Reader, p: nat)
    requires On(r) && p + 32 <= |r.s| && p < 0x8000_0000_0000_0000
    ensures Taken(Sought(r, Signed64(p)), 32) == r.(pos := p + 32)
    ensures var head := HeadAt(r, p);
      && head[4..8] == r.s[p + 4..p + 8] && head[12..16] == r.s[p + 12..p + 16]
      && head[16..20] == r.s[p + 16..p + 20] && head[20..28] == r.s[p + 20..p + 28]
  {
    var head := r.s[p..p + 32];
    assert Fetched(Sought(r, p), 32) == head;
    assert HeadAt(r, p) == head;
    SliceOfSlice(r.s, p, p + 32, 4, 8);
    SliceOfSlice(r.s, p, p + 32, 12, 16);
    SliceOfSlice(r.s, p, p + 32, 16, 20);
    SliceOfSlice(r.s, p, p + 32, 20, 28);
  }

  /** What comes of the entries after a standard index's head, for stream `k`. */
  lemma EntriesRead(r: Reader, stream: int, p: nat, k: int)
    requires On(r) && p + 32 <= |r.s| && p < 0x8000_0000_0000_0000 && Indexable(r.s[p + 16..p + 20])
    ensures var id, n := r.s[p + 16..p + 20], Read32(r.s[p + 12..p + 16]);
      var b := Rest(r.s, p + 32, Read32(r.s[p + 4..p + 8])); var r' := StdTaken(r, stream, p);
      if |b| < 8 * n then r'.outcome == Beyond
      else
        && r' == r.(pos := p + 32 + |b|, odml := r'.odml)
        && r'.odml == WithRows(r.odml, stream, id, Read64(r.s[p + 20..p + 28]), b, n)
  {
    HeadRead(r, p);
    WantedIff(r.s, p + 16);
    assert Fetched(r.(pos := p + 32), Read32(r.s[p + 4..p + 8])) == Rest(r.s, p + 32, Read32(r.s[p + 4..p + 8]));
  }

  /** A standard index of any file, its head there: one of pictures or sound of the first two streams has
      its rows go to the stream of the super index that led to it; others are passed over. */
  lemma StandardIndex(r: Reader, stream: int, p: nat, k: int)
    requires On(r) && p + 32 <= |r.s| && p < 0x8000_0000_0000_0000
    ensures var r', id, n := StdTaken(r, stream, p), r.s[p + 16..p + 20], Read32(r.s[p + 12..p + 16]);
      var b := Rest(r.s, p + 32, Read32(r.s[p + 4..p + 8]));
      if !Wanted(r.s, p + 16) then r' == r.(pos := p + 32)
      else if |b| < 8 * n then r'.outcome == Beyond
      else
        && r' == r.(pos := p + 32 + |b|, odml := r'.odml)
        && Listed(r'.odml, k) == Listed(r.odml, k)
          + if k == stream then RowsIn(b, n, id, Read64(r.s[p + 20..p + 28])) else []
  {
    WantedIff(r.s, p + 16);
    if Wanted(r.s, p + 16) {
      EntriesRead(r, stream, p, k);
      var b, n := Rest(r.s, p + 32, Read32(r.s[p + 4..p + 8])), Read32(r.s[p + 12..p + 16]);
      if 8 * n <= |b| { RowsGo(r.odml, stream, r.s[p + 16..p + 20], Read64(r.s[p + 20..p + 28]), b, n, k); }
    } else {
      HeadRead(r, p);
    }
  }

  lemma OtherIndex(r: Reader, stream: int, p: nat)
    requires !Indexable(HeadAt(r, p)[16..20])
    ensures var r1 := Taken(Sought(r, Signed64(p)), STD_HEAD);
      StdTaken(r, stream, p) == if HeadAt(r, p)[16..20] == REC then r1 else r1.(good := true)
  {
  }

  lemma SignedSame(p: nat)
    requires p < 0x8000_0000_0000_0000
    ensures Signed64(p) == p
  {
  }

  /** A head of which `d` is in the file. */
  lemma HeadPart(r: Reader, p: nat, d: seq<byte>)
    requires p < 0x8000_0000_0000_0000 && |d| < 32
    requires d == (if r.good && p <= |r.s| then r.s[p..] else [])
    ensures HeadAt(r, p) == d + Fill(32, 0)[|d|..]
    ensures Taken(Sought(r, Signed64(p)), STD_HEAD) == r.(pos := (if r.good then p else r.pos) + |d|, good := false)
  {
    SignedSame(p);
    assert Fetched(Sought(r, p), STD_HEAD) == d;
  }

  /** A standard index that is not in the file, or is to be read after a failure, lists nothing, and clears the
      failure. */
  lemma UnreadIndex(r: Reader, stream: int, p: nat)
    requires p < 0x8000_0000_0000_0000 && (!r.good || |r.s| <= p)
    ensures StdTaken(r, stream, p) == r.(pos := if r.good then p else r.pos, good := true)
  {
    HeadPart(r, p, []);
    assert HeadAt(r, p)[16..20] == [0, 0, 0, 0];
    OtherIndex(r, stream, p);
  }

  /** A place of 2^63 or more is before the start of the file, where there is nothing to read. */
  lemma IndexBeforeFile(r: Reader, stream: int, p: nat)
    requires On(r) && 0x8000_0000_0000_0000 <= p < WORD64
    ensures StdTaken(r, stream, p) == r
  {
    assert Signed64(p) < 0;
    assert Fetched(Sought(r, Signed64(p)), STD_HEAD) == [];
    assert HeadAt(r, p)[16..20] == [0, 0, 0, 0];
    OtherIndex(r, stream, p);
  }

  /** One cut short in its head clears the failure of reading it, unless it is of `rec ` lists. */
  lemma CutIndex(r: Reader, stream: int, p: nat)
    requires On(r) && p < 0x8000_0000_0000_0000 && p + 20 <= |r.s| < p + 32 && !Wanted(r.s, p + 16)
    ensures StdTaken(r, stream, p) == r.(pos := |r.s|, good := !TagAt(r.s, p + 16, "rec "))
  {
    var d := r.s[p..|r.s|];
    assert d == r.s[p..];
    HeadPart(r, p, d);
    SliceLeft(d, Fill(32, 0)[|d|..], 16, 20);
    SliceOfSlice(r.s, p, |r.s|, 16, 20);
    WantedIff(r.s, p + 16);
    TagIff(r.s, p + 16, "rec ", REC);
    OtherIndex(r, stream, p);
  }

  /** The places a super index's rows give, from `p` on. */
  function PlacesAt(s: seq<byte>, p: nat, n: nat): seq<nat>
    requires p + 16 * n <= |s|
  {
    seq(n, i requires 0 <= i < n => Read64(s[p + 16 * i..p + 16 * i + 8]))
  }

  lemma PlacesAre(s: seq<byte>, p: nat, n: nat)
    requires p + 16 * n <= |s|
    ensures PlacesIn(s[p..p + 16 * n], n) == PlacesAt(s, p, n)
  {
    forall i | 0 <= i < n ensures PlacesIn(s[p..p + 16 * n], n)[i] == PlacesAt(s, p, n)[i] {
      SliceOfSlice(s, p, p + 16 * n, 16 * i, 16 * i + 8);
    }
  }

  lemma SuperHeadRead(r: Reader, p: nat, n: nat)
    requires On(r) && r.pos == p && p + 24 + 16 * n <= |r.s|
    ensures Taken(r, 24) == r.(pos := p + 24) && |Fetched(r, 24)| == 24
    ensures Taken(r.(pos := p + 24), 16 * n) == r.(pos := p + 24 + 16 * n)
    ensures Fetched(r.(pos := p + 24), 16 * n) == r.s[p + 24..p + 24 + 16 * n]
    ensures var head := Fetched(r, 24);
      && head[2] == r.s[p + 2] && head[4..8] == r.s[p + 4..p + 8] && head[8] == r.s[p + 8] && head[9] == r.s[p + 9]
  {
    assert Fetched(r, 24) == r.s[p..p + 24];
    SliceOfSlice(r.s, p, p + 24, 4, 8);
  }

  /** What taking the super index whose size is at `p` comes to. */
  function SuperAt(r: Reader, p: nat, size: nat, n: nat): Reader
    requires p + 28 + 16 * n <= |r.s|
  {
    var r1 := r.(pos := p + 28 + 16 * n, size := size);
    StdsTaken(r1, Atoi(r.s[p + 12..p + 14]), PlacesAt(r.s, p + 28, n), n).(pos := p + 4 + size, good := true)
  }

  lemma SuperIs(r: Reader, p: nat, size: nat, n: nat)
    requires On(r) && r.pos == p && SizeAt(r.s, p, size) && SizeAt(r.s, p + 8, n)
    requires p + 28 + 16 * n <= |r.s| && r.s[p + 6] == 0
    ensures SuperTaken(r) == SuperAt(r, p, size, n)
  {
    SizeRead(r, size);
    SuperHeadRead(r.(pos := p + 4, size := size), p + 4, n);
    PlacesAre(r.s, p + 28, n);
    AtoiOfTwo(r.s[p + 12], r.s[p + 13]);
    assert r.s[p + 12..p + 14] == [r.s[p + 12], r.s[p + 13]];
  }

  lemma SuperAnywhere(r: Reader, p: nat, size: nat, n: nat)
    requires p + 28 + 16 * n <= |r.s|
    ensures SuperAt(r.(pos := p), p, size, n) == SuperAt(r, p, size, n)
  {
    assert r.(pos := p).(pos := p + 28 + 16 * n, size := size) == r.(pos := p + 28 + 16 * n, size := size);
  }

  lemma SuperEntered(r: Reader, r': Reader)
    requires At(r, INDX) && SuperTaken(r.(pos := r.pos + 4)) == r'
    ensures More(r) && Step(r) == r'
  {
    SuperElement(r.(pos := r.pos + 4));
    assert Step(r) == Element(r.(pos := r.pos + 4), INDX);
  }

  /** A super index of any file, its rows there: the standard indexes at its rows' places are taken one after
      another, for the stream its chunk id names, and the walk goes on after its block. */
  lemma SuperIndexElement(r: Reader, p: nat, size: nat, n: nat)
    requires On(r) && TagAt(r.s, r.pos, "indx") && p == r.pos + 4 && SizeAt(r.s, p, size) && SizeAt(r.s, p + 8, n)
    requires p + 28 + 16 * n <= |r.s| && r.s[p + 6] == 0
    ensures More(r) && Step(r) == SuperAt(r, p, size, n)
  {
    TagIff(r.s, r.pos, "indx", INDX);
    SuperIs(r.(pos := p), p, size, n);
    SuperAnywhere(r, p, size, n);
    SuperEntered(r, SuperAt(r, p, size, n));
  }

  // ----- frames of any file -----

  /** A read is of what the index lists, and leaves that as it was: for a number past the last entry it
      returns 0, for an entry of no bytes 1. */
  lemma NothingRead(r: Reader, idx: nat, stream: int, buf: seq<byte>, k: int)
    requires |buf| == 8 && r.movis != []
    requires idx >= |Listed(r.idxs, stream)| || Listed(r.idxs, stream)[idx].size == 0
    ensures var f := FrameReadFrom(r, idx, stream, buf);
      && f.data == [] && f.result == (if idx >= |Listed(r.idxs, stream)| then 0 else 1)
      && f.r == r.(idxs := f.r.idxs) && Listed(f.r.idxs, k) == Listed(r.idxs, k)
  {
  }

  /** Any other entry is tried as a place in the file, unless the last one was found from the first `movi`;
      then from there; where its id is found its chunk's bytes are read, else those at its place, as many as
      there are. */
  lemma EntryRead(r: Reader, idx: nat, stream: int, buf: seq<byte>, e: Entry, at: nat)
    requires |buf| == 8 && r.movis != [] && idx < |Listed(r.idxs, stream)| && e == Listed(r.idxs, stream)[idx]
    requires e.size > 0 && |e.id| == 4 && 0 <= e.offset && at == e.offset + r.movis[0] && at + 8 <= |r.s|
    requires r.useMovi ==> r.good
    ensures var f := FrameReadFrom(r, idx, stream, buf);
      var here, there := !r.useMovi && r.s[e.offset..e.offset + 4] == e.id, r.s[at..at + 4] == e.id;
      var p := if here then e.offset + 8 else if there then at + 8 else e.offset; var b := Rest(r.s, p, e.size);
      && f.data == b && f.result == |b|
      && f.r == r.(pos := p + |b|, good := |b| == e.size, useMovi := !here && there, idxs := f.r.idxs)
  {
    var r0 := r.(idxs := r.idxs[stream := Listed(r.idxs, stream)]);
    EntryLocated(r0, e, buf, at);
    RestFetched(Located(r0, e, buf), e.size);
  }

  /** An entry that stands before the start of the file or past its end comes back as nothing, unless its id is
      what was in the buffer before. */
  lemma EntryOutside(r: Reader, idx: nat, stream: int, buf: seq<byte>, e: Entry)
    requires |buf| == 8 && r.movis != [] && idx < |Listed(r.idxs, stream)| && e == Listed(r.idxs, stream)[idx]
    requires e.size > 0 && |e.id| == 4 && buf[..4] != e.id && !r.useMovi && (e.offset < 0 || |r.s| <= e.offset)
    ensures var f := FrameReadFrom(r, idx, stream, buf);
      f.data == [] && f.result == 0 && !f.r.good && !f.r.useMovi
  {
    var r0 := r.(idxs := r.idxs[stream := Listed(r.idxs, stream)], good := true);
    assert Fetched(Sought(r0, e.offset), 8) == [];
    assert Into(buf, []) == buf;
    var r1 := Probed(r0, e, e.offset, buf).0;
    assert Probed(r0, e, e.offset, buf) == (r1, buf) && !r1.good;
    NothingProbed(r1, e, buf);
  }

  /** After a failure nothing is read, and the buffer stays as it was. */
  lemma NothingProbed(r: Reader, e: Entry, buf: seq<byte>)
    requires |buf| == 8 && r.movis != [] && !r.good && buf[..4] != e.id
    ensures FromMovi(r, e, buf) == r.(useMovi := false)
  {
    assert Into(buf, []) == buf;
  }

  lemma RestFetched(r: Reader, n: nat)
    requires r.good && r.pos <= |r.s|
    ensures var b := Rest(r.s, r.pos, n); Fetched(r, n) == b && Taken(r, n) == r.(pos := r.pos + |b|, good := |b| == n)
  {
    assert Fetched(r, n) == Rest(r.s, r.pos, n);
  }

  lemma EntryLocated(r: Reader, e: Entry, buf: seq<byte>, at: nat)
    requires |buf| == 8 && r.movis != [] && |e.id| == 4 && 0 <= e.offset && at == e.offset + r.movis[0]
    requires at + 8 <= |r.s| && (r.useMovi ==> r.good)
    ensures var here, there := !r.useMovi && r.s[e.offset..e.offset + 4] == e.id, r.s[at..at + 4] == e.id;
      Located(r, e, buf) == r.(pos := if here then e.offset + 8 else if there then at + 8 else e.offset,
                               good := true, useMovi := !here && there)
  {
    if r.useMovi {
      FromMoviIff(r, e, buf);
    } else {
      var r1 := r.(good := true);
      Probing(r1, e, e.offset, buf);
      if r.s[e.offset..e.offset + 4] != e.id {
        FromMoviIff(r1.(pos := e.offset + 8), e, r.s[e.offset..e.offset + 8]);
      }
    }
  }
}
