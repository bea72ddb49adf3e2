/** The OpenDML index read back: what the reader makes of a super index and the standard indexes it
    leads to. */
module AviIndexedTrip {
  import opened Bytes
  import opened Riff
  import opened AviIndex
  import opened AviLayout
  import opened AviFilm
  import opened AviReader
  import opened AviLookup
  import opened AviWalk
  import opened AviRoundTrip

  const LIMIT63 := WORD64 / 2

  // ----- a standard index -----

  /** What an index entry is read as. */
  function EntryFor(base: nat, e: StdEntry): Entry {
    Entry(FRAME, 0, base + e.offset, e.size % HALF)
  }

  function EntriesFor(i: StdIndex): (es: seq<Entry>)
    ensures |es| == |i.entries|
    ensures forall k :: 0 <= k < |es| ==> es[k] == EntryFor(i.base, i.entries[k])
  {
    seq(|i.entries|, k requires 0 <= k < |i.entries| => EntryFor(i.base, i.entries[k]))
  }

  /** The index's fields fit the widths they are stored in, and its entries stand for places in a file. */
  ghost predicate Sound(i: StdIndex) {
    && i.base < LIMIT63 && |i.entries| <= PER_INDEX
    && forall k :: 0 <= k < |i.entries| ==>
      i.entries[k].offset < WORD && i.entries[k].size < WORD && i.base + i.entries[k].offset < LIMIT63
  }

  lemma SignedSmall(n: nat)
    requires n < LIMIT63
    ensures Signed64(n) == n
  {
  }

  lemma RowFields(e: StdEntry)
    requires e.offset < WORD && e.size < WORD
    ensures var b := StdEntryBytes(e); Read32(b[..4]) == e.offset && Read32(b[4..8]) == e.size
  {
    var b := StdEntryBytes(e);
    assert b[..4] == LE32(e.offset) && b[4..8] == LE32(e.size);
    Read32LE32(e.offset);
    Read32LE32(e.size);
  }

  lemma RowFrom(base: nat, b: seq<byte>, e: StdEntry)
    requires |b| == STD_ENTRY && Read32(b[..4]) == e.offset && Read32(b[4..8]) == e.size && base + e.offset < LIMIT63
    ensures RowOf(FRAME, base, b) == EntryFor(base, e)
  {
    SignedSmall(base + e.offset);
  }

  lemma RowRead(base: nat, e: StdEntry)
    requires e.offset < WORD && e.size < WORD && base + e.offset < LIMIT63
    ensures RowOf(FRAME, base, StdEntryBytes(e)) == EntryFor(base, e)
  {
    RowFields(e);
    RowFrom(base, StdEntryBytes(e), e);
  }

  /** `b` begins with the rows `es`, as the reader takes them. */
  ghost predicate Rows(b: seq<byte>, base: nat, es: seq<Entry>) {
    STD_ENTRY * |es| <= |b| &&
    forall k :: 0 <= k < |es| ==> RowOf(FRAME, base, b[STD_ENTRY * k..STD_ENTRY * (k + 1)]) == es[k]
  }

  lemma RowJoined(odml: map<int, seq<Entry>>, es: seq<Entry>, e: Entry)
    ensures WithRow(Joined(odml, es), 0, e) == Joined(odml, es + [e])
  {
    assert Listed(Joined(odml, es), 0) == Listed(odml, 0) + es;
    assert Listed(odml, 0) + es + [e] == Listed(odml, 0) + (es + [e]);
  }

  lemma {:induction false} RowsRead(odml: map<int, seq<Entry>>, base: nat, b: seq<byte>, es: seq<Entry>, n: nat)
    requires Rows(b, base, es) && n <= |es|
    ensures WithRows(odml, 0, FRAME, base, b, n) == Joined(odml, es[..n])
    decreases n
  {
    if n > 0 {
      RowsRead(odml, base, b, es, n - 1);
      assert RowOf(FRAME, base, b[STD_ENTRY * (n - 1)..STD_ENTRY * n]) == es[n - 1];
      RowJoined(odml, es[..n - 1], es[n - 1]);
      assert es[..n - 1] + [es[n - 1]] == es[..n];
    }
  }

  lemma StdRows(b: seq<byte>, i: StdIndex)
    requires Sound(i) && Holds(b, 0, StdEntries(i.entries))
    ensures Rows(b, i.base, EntriesFor(i))
  {
    forall k | 0 <= k < |i.entries|
      ensures RowOf(FRAME, i.base, b[STD_ENTRY * k..STD_ENTRY * (k + 1)]) == EntriesFor(i)[k]
    {
      StdEntryAt(i.entries, k);
      Within(b, 0, StdEntries(i.entries), STD_ENTRY * k, StdEntryBytes(i.entries[k]));
      RowRead(i.base, i.entries[k]);
    }
  }

  /** The fields of a standard index's head, by their places. */
  lemma HeadFields(i: StdIndex)
    requires |i.entries| <= PER_INDEX && i.base < WORD64
    ensures var b := StdBytes(i);
      && Read32(b[4..8]) == STD_HEAD - 8 + STD_ENTRY * |i.entries| && Read32(b[12..16]) == |i.entries|
      && b[16..20] == FRAME && Read64(b[20..28]) == i.base
      && Holds(b, STD_HEAD, StdEntries(i.entries))
  {
    var b, fields, entries := StdBytes(i), StdFields(i), StdEntries(i.entries);
    assert b[4..8] == LE32(|fields + entries|);
    FieldsOf(i);
    ChunkParts(IX00, fields + entries);
    assert b[12..16] == fields[4..8] && b[16..20] == fields[8..12] && b[20..28] == fields[12..20];
    assert b[STD_HEAD..] == entries;
    Read32LE32(|fields + entries|);
  }

  lemma FieldsOf(i: StdIndex)
    requires |i.entries| <= PER_INDEX && i.base < WORD64
    ensures var f := StdFields(i);
      Read32(f[4..8]) == |i.entries| && f[8..12] == FRAME && Read64(f[12..20]) == i.base
  {
    var f := StdFields(i);
    assert f[4..8] == LE32(|i.entries|) && f[12..20] == LE64(i.base);
    Read32LE32(|i.entries|);
    Read64LE64(i.base);
  }

  lemma HeadRead(r: Reader, place: nat, b: seq<byte>)
    requires r.good && place < LIMIT63 && STD_HEAD <= |b| && Holds(r.s, place, b)
    ensures HeadAt(r, place) == b[..STD_HEAD] && Signed64(place) == place
    ensures Taken(Sought(r, place), STD_HEAD) == r.(pos := place + STD_HEAD)
  {
    SignedSmall(place);
    SubSlice(r.s, place, b, 0, STD_HEAD);
    FetchHeld(Sought(r, place), place, b[..STD_HEAD]);
    assert Into(Fill(STD_HEAD, 0), b[..STD_HEAD]) == b[..STD_HEAD];
  }

  /** The rows after the head: as many bytes as the head says, or fewer at the end of the file, but all
      of the rows. */
  lemma RowsFetched(r: Reader, place: nat, i: StdIndex, n: nat)
    requires r.good && r.pos == place + STD_HEAD && Holds(r.s, place, StdBytes(i))
      && Holds(StdBytes(i), STD_HEAD, StdEntries(i.entries))
    requires n >= STD_ENTRY * |i.entries|
    ensures Holds(Fetched(r, n), 0, StdEntries(i.entries))
  {
    var es := StdEntries(i.entries);
    Within(r.s, place, StdBytes(i), STD_HEAD, es);
    assert Fetched(r, n)[..|es|] == es;
  }

  lemma RowsAdded(odml: map<int, seq<Entry>>, b: seq<byte>, i: StdIndex)
    requires Sound(i) && Holds(b, 0, StdEntries(i.entries))
    ensures WithRows(odml, 0, FRAME, i.base, b, |i.entries|) == Joined(odml, EntriesFor(i))
  {
    StdRows(b, i);
    RowsRead(odml, i.base, b, EntriesFor(i), |i.entries|);
    assert EntriesFor(i)[..|i.entries|] == EntriesFor(i);
  }

  /** Taking a standard index, from what is read of it. */
  lemma StdParts(r: Reader, place: nat, head: seq<byte>, r1: Reader, d: seq<byte>, base: nat, size: nat, n: nat)
    requires |head| == STD_HEAD && HeadAt(r, place) == head && r1 == Taken(Sought(r, Signed64(place)), STD_HEAD)
    requires head[16..20] == FRAME && Read64(head[20..28]) == base && Read32(head[4..8]) == size
      && Read32(head[12..16]) == n
    requires d == Fetched(r1, size) && STD_ENTRY * n <= |d|
    ensures StdTaken(r, 0, place) == Taken(r1, size).(good := true, odml := WithRows(r.odml, 0, FRAME, base, d, n))
  {
    assert FRAME != REC && Indexable(FRAME);
  }

  /** Taking a standard index of the writer adds its entries, wherever the reader stood. */
  lemma StdRead(r: Reader, place: nat, i: StdIndex)
    requires On(r) && place < LIMIT63 && Sound(i) && Holds(r.s, place, StdBytes(i))
    ensures var r' := StdTaken(r, 0, place); r' == r.(pos := r'.pos, odml := Joined(r.odml, EntriesFor(i)))
  {
    HeadFields(i);
    var b := StdBytes(i);
    HeadRead(r, place, b);
    var head := b[..STD_HEAD];
    assert head[4..8] == b[4..8] && head[12..16] == b[12..16] && head[16..20] == b[16..20] && head[20..28] == b[20..28];
    var r1 := r.(pos := place + STD_HEAD);
    var n := STD_HEAD - 8 + STD_ENTRY * |i.entries|;
    RowsFetched(r1, place, i, n);
    RowsAdded(r.odml, Fetched(r1, n), i);
    StdParts(r, place, head, r1, Fetched(r1, n), i.base, n, |i.entries|);
  }

  // ----- a super index -----

  /** The entries of the indexes, one after another. */
  function AllEntries(idx: seq<StdIndex>): seq<Entry>
    decreases |idx|
  {
    if idx == [] then [] else AllEntries(idx[..|idx| - 1]) + EntriesFor(idx[|idx| - 1])
  }

  /** The places lead to the indexes. */
  ghost predicate Placed(s: seq<byte>, places: seq<nat>, idx: seq<StdIndex>) {
    |places| == |idx| &&
    forall j :: 0 <= j < |idx| ==> places[j] < LIMIT63 && Sound(idx[j]) && Holds(s, places[j], StdBytes(idx[j]))
  }

  lemma JoinedTwice(odml: map<int, seq<Entry>>, a: seq<Entry>, b: seq<Entry>)
    ensures Joined(Joined(odml, a), b) == Joined(odml, a + b)
  {
    assert Listed(Joined(odml, a), 0) == Listed(odml, 0) + a;
    assert Listed(odml, 0) + a + b == Listed(odml, 0) + (a + b);
    if a == [] { assert a + b == b; }
    if b == [] { assert a + b == a; }
  }

  lemma {:induction false} StdsRead(r: Reader, places: seq<nat>, idx: seq<StdIndex>, n: nat)
    requires On(r) && Placed(r.s, places, idx) && n <= |idx|
    ensures var r' := StdsTaken(r, 0, places, n); r' == r.(pos := r'.pos, odml := Joined(r.odml, AllEntries(idx[..n])))
    decreases n
  {
    if n > 0 {
      StdsRead(r, places, idx, n - 1);
      StdRead(StdsTaken(r, 0, places, n - 1), places[n - 1], idx[n - 1]);
      assert idx[..n][..n - 1] == idx[..n - 1];
      JoinedTwice(r.odml, AllEntries(idx[..n - 1]), EntriesFor(idx[n - 1]));
    }
  }

  lemma AllStdsRead(r: Reader, places: seq<nat>, idx: seq<StdIndex>)
    requires On(r) && Placed(r.s, places, idx)
    ensures var r' := StdsTaken(r, 0, places, |idx|); r' == r.(pos := r'.pos, odml := Joined(r.odml, AllEntries(idx)))
  {
    StdsRead(r, places, idx, |idx|);
    assert idx[..|idx|] == idx;
  }

  /** The rows of a super index are places of standard indexes. */
  ghost predicate Leading(rows: seq<byte>, s: seq<byte>, idx: seq<StdIndex>) {
    |rows| == SUPER_ENTRY * |idx| && Placed(s, PlacesIn(rows, |idx|), idx)
  }

  lemma PlaceIn(rows: seq<byte>, n: nat, j: nat, q: nat, i: StdIndex)
    requires |rows| == SUPER_ENTRY * n && j < n && Holds(rows, SUPER_ENTRY * j, SuperEntryBytes(q, i)) && q < WORD64
    ensures PlacesIn(rows, n)[j] == q
  {
    var e := SuperEntryBytes(q, i);
    SubSlice(rows, SUPER_ENTRY * j, e, 0, 8);
    assert e[0..8] == LE64(q);
    Read64LE64(q);
  }

  lemma SupersLead(s: seq<byte>, idx: seq<StdIndex>, at: nat)
    requires Holds(s, at, AllStd(idx)) && |s| < LIMIT63 && forall j :: 0 <= j < |idx| ==> Sound(idx[j])
    ensures Leading(SuperEntries(idx, at), s, idx)
  {
    var rows := SuperEntries(idx, at);
    forall j | 0 <= j < |idx|
      ensures PlacesIn(rows, |idx|)[j] < LIMIT63 && Holds(s, PlacesIn(rows, |idx|)[j], StdBytes(idx[j]))
    {
      var q := at + |AllStd(idx[..j])|;
      StdOf(s, idx, at, j);
      SuperEntryAt(idx, at, j);
      PlaceIn(rows, |idx|, j, q, idx[j]);
    }
  }

  /** The head of a super index with `n` rows. */
  lemma SuperFields(block: nat, n: nat)
    requires SUPER_HEAD <= block && n < WORD
    ensures var b := SuperHead(block, n);
      b[..4] == INDX && b[4..8] == LE32(block - 8) && b[10] == 0 && Read32(b[12..16]) == n && Atoi2(b[16], b[17]) == 0
  {
    var b := SuperHead(block, n);
    assert b[12..16] == LE32(n);
    Read32LE32(n);
    assert b[16..20] == FRAME;
    assert b[16] == FRAME[0] && b[17] == FRAME[1];
  }

  lemma SuperStart(r: Reader, block: nat, n: nat)
    requires On(r) && r.pos >= 4 && SUPER_HEAD <= block < WORD && n < WORD && Holds(r.s, r.pos - 4, SuperHead(block, n))
    ensures var r1 := SizeTaken(r); var head := Fetched(r1, SUPER_HEAD - 8);
      && r1 == r.(pos := r.pos + 4, size := block - 8) && |head| == SUPER_HEAD - 8
      && Taken(r1, SUPER_HEAD - 8) == r1.(pos := r.pos + SUPER_HEAD - 4)
      && head[2] == 0 && Read32(head[4..8]) == n && Atoi2(head[8], head[9]) == 0
  {
    var b := SuperHead(block, n);
    SuperFields(block, n);
    SubSlice(r.s, r.pos - 4, b, 4, 8);
    SizeFrom(r.s, r.pos, block - 8);
    SizeRead(r, block - 8);
    var r1 := r.(pos := r.pos + 4, size := block - 8);
    SubSlice(r.s, r.pos - 4, b, 8, SUPER_HEAD);
    FetchHeld(r1, r1.pos, b[8..]);
    assert b[8..][4..8] == b[12..16] && b[8..][8] == b[16] && b[8..][9] == b[17] && b[8..][2] == b[10];
  }

  /** Taking a super index, from what is read of it. */
  lemma SuperParts(r: Reader, r1: Reader, head: seq<byte>, r2: Reader, rows: seq<byte>, r3: Reader, n: nat)
    requires r1 == SizeTaken(r) && head == Fetched(r1, SUPER_HEAD - 8) && |head| == SUPER_HEAD - 8
      && r2 == Taken(r1, SUPER_HEAD - 8)
    requires head[2] == 0 && Read32(head[4..8]) == n && Atoi2(head[8], head[9]) == 0
    requires rows == Fetched(r2, SUPER_ENTRY * n) && |rows| == SUPER_ENTRY * n && r3 == Taken(r2, SUPER_ENTRY * n)
    ensures SuperTaken(r) == StdsTaken(r3, 0, PlacesIn(rows, n), n).(pos := r1.pos + r1.size, good := true)
  {
  }

  lemma SuperFollowed(r: Reader, r1: Reader, head: seq<byte>, block: nat, rows: seq<byte>, idx: seq<StdIndex>)
    requires On(r) && SUPER_HEAD <= block && r1 == SizeTaken(r) == r.(pos := r.pos + 4, size := block - 8)
    requires head == Fetched(r1, SUPER_HEAD - 8) && |head| == SUPER_HEAD - 8
    requires Taken(r1, SUPER_HEAD - 8) == r1.(pos := r.pos + SUPER_HEAD - 4)
    requires head[2] == 0 && Read32(head[4..8]) == |idx| && Atoi2(head[8], head[9]) == 0
    requires Holds(r.s, r.pos + SUPER_HEAD - 4, rows) && Leading(rows, r.s, idx)
    ensures SuperTaken(r) == r.(pos := r.pos - 4 + block, size := block - 8, odml := Joined(r.odml, AllEntries(idx)))
  {
    var r2 := r1.(pos := r.pos + SUPER_HEAD - 4);
    FetchHeld(r2, r2.pos, rows);
    var r3 := r2.(pos := r2.pos + |rows|);
    AllStdsRead(r3, PlacesIn(rows, |idx|), idx);
    SuperParts(r, r1, head, r2, rows, r3, |idx|);
  }

  /** Taking a super index adds the entries of all the indexes its rows lead to, in order. */
  lemma SuperRead(r: Reader, block: nat, rows: seq<byte>, idx: seq<StdIndex>)
    requires On(r) && r.pos >= 4 && SUPER_HEAD <= block < WORD && |idx| < WORD
    requires Holds(r.s, r.pos - 4, SuperHead(block, |idx|)) && Holds(r.s, r.pos + SUPER_HEAD - 4, rows)
      && Leading(rows, r.s, idx)
    ensures SuperTaken(r) == r.(pos := r.pos - 4 + block, size := block - 8, odml := Joined(r.odml, AllEntries(idx)))
  {
    SuperStart(r, block, |idx|);
    SuperFollowed(r, SizeTaken(r), Fetched(SizeTaken(r), SUPER_HEAD - 8), block, rows, idx);
  }
}
