/** avilib's reader: the walk over a file's elements that `open` makes, the old and the OpenDML index
    it takes from there, and the reading of a frame. */
module AviReader {
  import opened Bytes
  import opened Riff
  import opened AviIndex

  const INFO: FourCC := [0x49, 0x4E, 0x46, 0x4F]
  const STRN: FourCC := [0x73, 0x74, 0x72, 0x6E]
  const VPRP: FourCC := [0x76, 0x70, 0x72, 0x70]
  const TDAT: FourCC := [0x54, 0x64, 0x61, 0x74]
  const AUDS: FourCC := [0x61, 0x75, 0x64, 0x73]
  const REC: FourCC := [0x72, 0x65, 0x63, 0x20]

  const AVIH_BODY := 56
  const STREAM_HEADER := 64
  const BITMAP_INFO := 40
  const OLD_SIZE := 16
  const HALF := 0x8000_0000

  datatype Entry = Entry(id: seq<byte>, flags: nat, offset: int, size: nat)

  /** Whether the walk goes on, has refused the file, or has met what this model does not have. */
  datatype Outcome = Going | Refused | Beyond

  /** The reader's fields. `good` says that no read or seek has failed; `size` is the last size read;
      `odml` holds the OpenDML entries until `open` has them take the place of the others. */
  datatype Reader = Reader(
    s: seq<byte>,
    pos: nat,
    good: bool,
    size: nat,
    audio: bool,
    headers: nat,
    movis: seq<nat>,
    idxs: map<int, seq<Entry>>,
    odml: map<int, seq<Entry>>,
    useMovi: bool,
    outcome: Outcome)

  // ----- the file under the cursor -----

  function Min(a: int, b: int): int {
    if a < b then a else b
  }

  /** What a read of `n` bytes gets: less at the end of the file, nothing once a read has failed. */
  function Fetched(r: Reader, n: nat): seq<byte> {
    if r.good && r.pos <= |r.s| then r.s[r.pos..Min(r.pos + n, |r.s|)] else []
  }

  function Taken(r: Reader, n: nat): (r': Reader)
    ensures r'.s == r.s && r'.pos >= r.pos
  {
    var got := |Fetched(r, n)|;
    r.(pos := r.pos + got, good := r.good && got == n)
  }

  /** A buffer after a read into its front. */
  function Into(buf: seq<byte>, d: seq<byte>): (b: seq<byte>)
    requires |d| <= |buf|
    ensures |b| == |buf|
  {
    d + buf[|d|..]
  }

  function SizeTaken(r: Reader): (r': Reader)
    ensures r'.s == r.s && r'.pos >= r.pos
  {
    Taken(r, 4).(size := Read32(Into(LE32(r.size), Fetched(r, 4))))
  }

  function Skipped(r: Reader, n: nat): (r': Reader)
    ensures r'.s == r.s && r'.pos >= r.pos
  {
    if r.good then r.(pos := r.pos + n) else r
  }

  /** A seek to a position before the file fails; one past its end does not. */
  function Sought(r: Reader, p: int): Reader {
    if !r.good then r else if p < 0 then r.(good := false) else r.(pos := p)
  }

  function Signed64(n: nat): int {
    if n % WORD64 < WORD64 / 2 then n % WORD64 else n % WORD64 - WORD64
  }

  /** Reads one after another are one read. */
  lemma TakenMore(r: Reader, a: nat, b: nat)
    ensures Taken(Taken(r, a), b) == Taken(r, a + b)
    ensures Fetched(r, a + b) == Fetched(r, a) + Fetched(Taken(r, a), b)
  {
  }

  // ----- the old index -----

  predicate Digit(b: byte) {
    0x30 <= b <= 0x39
  }

  predicate Blank(b: byte) {
    b == 0x20 || 9 <= b <= 13
  }

  /** `atoi` of two characters. */
  function Atoi2(a: byte, b: byte): int {
    var unit := if Digit(b) then b as int - 0x30 else 0;
    if Digit(a) then (if Digit(b) then 10 * (a as int - 0x30) + unit else a as int - 0x30)
    else if Blank(a) || a == 0x2B then unit
    else if a == 0x2D then -unit
    else 0
  }

  function OldEntryOf(e: seq<byte>): Entry
    requires |e| == OLD_SIZE
  {
    Entry(e[..4], Read32(e[4..8]), Read32(e[8..12]), Read32(e[12..16]))
  }

  function Listed(idxs: map<int, seq<Entry>>, stream: int): seq<Entry> {
    if stream in idxs then idxs[stream] else []
  }

  /** An entry goes to the stream its id begins with; `rec ` lists are passed over. */
  function WithEntry(idxs: map<int, seq<Entry>>, e: Entry): map<int, seq<Entry>>
    requires |e.id| == 4
  {
    var stream := Atoi2(e.id[0], e.id[1]);
    if e.id == REC then idxs else idxs[stream := Listed(idxs, stream) + [e]]
  }

  function WithEntries(idxs: map<int, seq<Entry>>, b: seq<byte>, n: nat): map<int, seq<Entry>>
    requires OLD_SIZE * n <= |b|
  {
    if n == 0 then idxs
    else WithEntry(WithEntries(idxs, b, n - 1), OldEntryOf(b[OLD_SIZE * (n - 1)..OLD_SIZE * n]))
  }

  /** A whole old index: as many bytes as there are, as many entries as they make. */
  function IndexTaken(r: Reader): (r': Reader)
    ensures r'.s == r.s && r'.pos >= r.pos
  {
    var b := Fetched(r, r.size);
    Taken(r, r.size).(size := |b|, idxs := WithEntries(r.idxs, b, |b| / OLD_SIZE))
  }

  // ----- the OpenDML index -----

  /** The chunks whose standard indexes are taken. */
  predicate Indexable(id: seq<byte>) {
    || id == [0x30, 0x30, 0x64, 0x63] || id == [0x30, 0x30, 0x64, 0x62] || id == [0x30, 0x31, 0x64, 0x63]
    || id == [0x30, 0x31, 0x64, 0x62] || id == [0x30, 0x30, 0x77, 0x62] || id == [0x30, 0x31, 0x77, 0x62]
  }

  /** An entry of a standard index: its place counted from the base, its size without the top bit. */
  function RowOf(id: seq<byte>, base: nat, b: seq<byte>): Entry
    requires |b| == STD_ENTRY
  {
    Entry(id, 0, Signed64(base + Read32(b[..4])), Read32(b[4..8]) % HALF)
  }

  function WithRow(odml: map<int, seq<Entry>>, stream: int, e: Entry): map<int, seq<Entry>> {
    odml[stream := Listed(odml, stream) + [e]]
  }

  function WithRows(odml: map<int, seq<Entry>>, stream: int, id: seq<byte>, base: nat, b: seq<byte>, n: nat)
      : map<int, seq<Entry>>
    requires STD_ENTRY * n <= |b|
  {
    if n == 0 then odml
    else
      WithRow(WithRows(odml, stream, id, base, b, n - 1), stream,
        RowOf(id, base, b[STD_ENTRY * (n - 1)..STD_ENTRY * n]))
  }

  /** A standard index's head, zeros where the file has no more. */
  function HeadAt(r: Reader, place: nat): (b: seq<byte>)
    ensures |b| == STD_HEAD
  {
    Into(Fill(STD_HEAD, 0), Fetched(Sought(r, Signed64(place)), STD_HEAD))
  }

  /** One standard index. Its size, which counts most of the head again, is what is read after the
      head; fewer bytes than its entries take would be read past the end of a buffer. A failure is
      cleared, unless the index is of `rec ` lists. */
  function StdTaken(r: Reader, stream: int, place: nat): (r': Reader)
    ensures r'.s == r.s
  {
    var head := HeadAt(r, place);
    var id, base := head[16..20], Read64(head[20..28]);
    var r1 := Taken(Sought(r, Signed64(place)), STD_HEAD);
    if id == REC then r1
    else if !Indexable(id) then r1.(good := true)
    else
      var size, n := Read32(head[4..8]), Read32(head[12..16]);
      var d := Fetched(r1, size);
      var r2 := Taken(r1, size);
      if |d| < STD_ENTRY * n then r2.(outcome := Beyond)
      else r2.(good := true, odml := WithRows(r.odml, stream, id, base, d, n))
  }

  /** The standard indexes at the first `n` places. */
  function StdsTaken(r: Reader, stream: int, places: seq<nat>, n: nat): (r': Reader)
    requires n <= |places|
    ensures r'.s == r.s
  {
    if n == 0 then r
    else
      var r1 := StdsTaken(r, stream, places, n - 1);
      if r1.outcome != Going then r1 else StdTaken(r1, stream, places[n - 1])
  }

  function PlacesIn(b: seq<byte>, n: nat): (places: seq<nat>)
    requires |b| == SUPER_ENTRY * n
    ensures |places| == n
  {
    seq(n, i requires 0 <= i < n => Read64(b[SUPER_ENTRY * i..SUPER_ENTRY * i + 8]))
  }

  lemma PlacesMore(b: seq<byte>, row: seq<byte>, n: nat)
    requires |b| == SUPER_ENTRY * n && |row| == SUPER_ENTRY
    ensures PlacesIn(b + row, n + 1) == PlacesIn(b, n) + [Read64(row[..8])]
  {
    var all := b + row;
    forall i | 0 <= i < n ensures all[SUPER_ENTRY * i..SUPER_ENTRY * i + 8] == b[SUPER_ENTRY * i..SUPER_ENTRY * i + 8] {
      SliceLeft(b, row, SUPER_ENTRY * i, SUPER_ENTRY * i + 8);
    }
    assert all[SUPER_ENTRY * n..SUPER_ENTRY * n + 8] == row[..8];
  }

  /** A row more read. */
  lemma RowTaken(r: Reader, n: nat)
    requires |Fetched(r, SUPER_ENTRY * n)| == SUPER_ENTRY * n
    ensures var row := Fetched(Taken(r, SUPER_ENTRY * n), SUPER_ENTRY); var b := Fetched(r, SUPER_ENTRY * (n + 1));
      && Taken(Taken(r, SUPER_ENTRY * n), SUPER_ENTRY) == Taken(r, SUPER_ENTRY * (n + 1))
      && |b| == SUPER_ENTRY * n + |row|
      && (|row| == SUPER_ENTRY ==> PlacesIn(b, n + 1) == PlacesIn(Fetched(r, SUPER_ENTRY * n), n) + [Read64(row[..8])])
  {
    TakenMore(r, SUPER_ENTRY * n, SUPER_ENTRY);
    var row := Fetched(Taken(r, SUPER_ENTRY * n), SUPER_ENTRY);
    if |row| == SUPER_ENTRY { PlacesMore(Fetched(r, SUPER_ENTRY * n), row, n); }
  }

  /** Nothing is read after a short read. */
  lemma ShortStays(r: Reader, a: nat, n: nat)
    requires |Fetched(r, a)| < a <= n
    ensures Taken(r, n) == Taken(r, a) && |Fetched(r, n)| < n
  {
  }

  /** A super index, all the standard indexes it names, and on to its end. */
  function SuperTaken(r: Reader): (r': Reader)
    ensures r'.s == r.s && r'.pos >= r.pos
  {
    var r1 := SizeTaken(r);
    var head := Fetched(r1, SUPER_HEAD - 8);
    var r2 := Taken(r1, SUPER_HEAD - 8);
    if |head| < SUPER_HEAD - 8 || head[2] != 0 then r2.(outcome := Beyond)
    else
      var n := Read32(head[4..8]);
      var rows := Fetched(r2, SUPER_ENTRY * n);
      var r3 := Taken(r2, SUPER_ENTRY * n);
      if |rows| < SUPER_ENTRY * n then r3.(outcome := Beyond)
      else StdsTaken(r3, Atoi2(head[8], head[9]), PlacesIn(rows, n), n).(pos := r1.pos + r1.size, good := true)
  }

  // ----- the walk -----

  predicate Bare(tag: FourCC) {
    tag == AVI || tag == AVIX || tag == HDRL || tag == STRH || tag == INFO || tag == Riff.ODML || tag == TDAT
  }

  /** A stream header: two at most; whether it is for sound decides how its format is read. */
  function StreamTaken(r: Reader): (r': Reader)
    ensures r'.s == r.s && r'.pos >= r.pos
  {
    var b := Fetched(r, STREAM_HEADER);
    if r.headers >= 2 then r.(outcome := Refused)
    else
      var audio := if |b| == STREAM_HEADER then b[8..12] == AUDS else r.audio;
      Taken(r, STREAM_HEADER).(headers := r.headers + 1, audio := audio)
  }

  function MainTaken(r: Reader): (r': Reader)
    ensures r'.s == r.s && r'.pos >= r.pos
  {
    var r1 := SizeTaken(r);
    if r1.size != AVIH_BODY then r1.(outcome := Refused) else Taken(r1, AVIH_BODY)
  }

  function FormatTaken(r: Reader): (r': Reader)
    ensures r'.s == r.s && r'.pos >= r.pos
  {
    var r1 := SizeTaken(r);
    if r.audio then r1.(outcome := Beyond)
    else
      var r2 := Taken(r1, Min(r1.size, BITMAP_INFO));
      if r1.size > BITMAP_INFO then Skipped(r2, r1.size - BITMAP_INFO) else r2
  }

  /** The frames: their place is kept, and they are passed over by the size of the list they are in. */
  function MoviPassed(r: Reader): (r': Reader)
    requires r.pos >= 4
    ensures r'.s == r.s && r'.pos >= r.pos
  {
    Skipped(r.(movis := r.movis + [r.pos - 4]), (r.size - 4) % WORD)
  }

  /** One element, its tag read already. JUNK, ISFT, dmlh, dmhl and unknown elements are passed over
      by their size. */
  function Element(r: Reader, tag: FourCC): (r': Reader)
    requires r.pos >= 4
    ensures r'.s == r.s && r'.pos >= r.pos
  {
    if Bare(tag) then r
    else if tag == RIFF || tag == LIST then SizeTaken(r)
    else if tag == AVIH then MainTaken(r)
    else if tag == STRL then StreamTaken(r)
    else if tag == STRF then FormatTaken(r)
    else if tag == STRN then Skipped(SizeTaken(r), (SizeTaken(r).size - 4) % WORD)
    else if tag == MOVI then MoviPassed(r)
    else if tag == IDX1 then IndexTaken(SizeTaken(r))
    else if tag == INDX then SuperTaken(r)
    else if tag == VPRP then r.(outcome := Beyond)
    else Skipped(SizeTaken(r), SizeTaken(r).size)
  }

  predicate More(r: Reader) {
    r.outcome == Going && r.good && r.pos + 4 <= |r.s|
  }

  function Step(r: Reader): (r': Reader)
    requires More(r)
    ensures r'.s == r.s && r'.pos >= r.pos + 4
  {
    Element(r.(pos := r.pos + 4), r.s[r.pos..r.pos + 4])
  }

  function Walk(r: Reader): Reader
    decreases |r.s| - r.pos
  {
    if More(r) then Walk(Step(r)) else r
  }

  /** At the start of `s`; the entries an earlier `open` listed are still there. */
  function Fresh(s: seq<byte>, idxs: map<int, seq<Entry>>, odml: map<int, seq<Entry>>): Reader {
    Reader(s, 0, true, 0, false, 0, [], idxs, odml, false, Going)
  }

  /** OpenDML entries, if there are any, change places with the others. */
  function Chosen(r: Reader): Reader {
    if r.odml == map[] then r else r.(idxs := r.odml, odml := r.idxs)
  }

  /** `open`: the walk and, unless it refused the file, the choice between the indexes, and back to the
      start with any failure cleared. */
  function Reopened(s: seq<byte>, idxs: map<int, seq<Entry>>, odml: map<int, seq<Entry>>): Reader {
    var r := Walk(Fresh(s, idxs, odml));
    if r.outcome != Going then r else Chosen(r).(pos := 0, good := true)
  }

  /** The first `open` of a reader. */
  function Opened(s: seq<byte>): Reader {
    Reopened(s, map[], map[])
  }

  predicate Accepted(r: Reader) {
    r.outcome == Going && r.movis != []
  }

  // ----- a frame -----

  datatype FrameRead = FrameRead(r: Reader, result: nat, data: seq<byte>)

  /** The 8 bytes read where the entry says, and whether they begin with its id. */
  function Probed(r: Reader, e: Entry, at: int, buf: seq<byte>): (Reader, seq<byte>)
    requires |buf| == 8
  {
    var r1 := Sought(r, at);
    (Taken(r1, 8), Into(buf, Fetched(r1, 8)))
  }

  /** The entry tried as an offset from the first `movi`. */
  function FromMovi(r: Reader, e: Entry, buf: seq<byte>): (r': Reader)
    requires |buf| == 8 && r.movis != []
    ensures r'.movis == r.movis
  {
    var (r1, tag) := Probed(r, e, e.offset + r.movis[0], buf);
    var hit := tag[..4] == e.id;
    var r2 := r1.(useMovi := hit);
    if hit then r2 else Sought(r2, e.offset)
  }

  function Located(r: Reader, e: Entry, buf: seq<byte>): (r': Reader)
    requires |buf| == 8 && r.movis != []
    ensures r'.movis == r.movis
  {
    if r.useMovi then FromMovi(r, e, buf)
    else
      var (r1, tag) := Probed(r.(good := true), e, e.offset, buf);
      if tag[..4] == e.id then r1 else FromMovi(r1, e, tag)
  }

  /** `read_frame`: nothing for a frame there is none of, 1 for an empty one, else the bytes. `buf` is
      what was in the 8 bytes of stack the tag is read to. */
  function FrameReadFrom(r: Reader, idx: nat, stream: int, buf: seq<byte>): (f: FrameRead)
    requires |buf| == 8 && r.movis != []
    ensures f.r.movis == r.movis
  {
    var r0 := r.(idxs := r.idxs[stream := Listed(r.idxs, stream)]);
    var es := Listed(r.idxs, stream);
    if idx >= |es| then FrameRead(r0, 0, [])
    else if es[idx].size == 0 then FrameRead(r0, 1, [])
    else
      var r1 := Located(r0, es[idx], buf);
      var d := Fetched(r1, es[idx].size);
      FrameRead(Taken(r1, es[idx].size), |d|, d)
  }

  class AviReader {
    var s: seq<byte>
    var pos: nat
    var good: bool
    var size: nat
    var audio: bool
    var headers: nat
    var movis: seq<nat>
    var idxs: map<int, seq<Entry>>
    var odml: map<int, seq<Entry>>
    var useMovi: bool

    /** A reader that has not opened a file yet. */
    constructor ()
      ensures idxs == odml == map[]
    {
      s, pos, good, size, audio, headers, movis := [], 0, true, 0, false, 0, [];
      idxs, odml, useMovi := map[], map[], false;
    }

    ghost function Value(outcome: Outcome): Reader
      reads this
    {
      Reader(s, pos, good, size, audio, headers, movis, idxs, odml, useMovi, outcome)
    }

    /** Reads up to `n` bytes. */
    method Read(n: nat) returns (d: seq<byte>)
      modifies this`pos, this`good
      ensures d == Fetched(old(Value(Going)), n)
      ensures Value(Going) == Taken(old(Value(Going)), n)
    {
      if !good || pos > |s| {
        d := [];
      } else {
        d := s[pos..Min(pos + n, |s|)];
      }
      pos, good := pos + |d|, good && |d| == n;
    }

    method ReadSize()
      modifies this`pos, this`good, this`size
      ensures Value(Going) == SizeTaken(old(Value(Going)))
    {
      var d := Read(4);
      size := Read32(Into(LE32(size), d));
    }

    method Skip(n: nat)
      modifies this`pos
      ensures Value(Going) == Skipped(old(Value(Going)), n)
    {
      if good { pos := pos + n; }
    }

    method Seek(p: int)
      modifies this`pos, this`good
      ensures Value(Going) == Sought(old(Value(Going)), p)
    {
      if !good { return; }
      if p < 0 { good := false; } else { pos := p; }
    }

    method TakeIndex()
      modifies this`pos, this`good, this`size, this`idxs
      ensures Value(Going) == IndexTaken(SizeTaken(old(Value(Going))))
    {
      ReadSize();
      var b := Read(size);
      size := |b|;
      ListEntries(b, size / OLD_SIZE);
    }

    method ListEntries(b: seq<byte>, n: nat)
      requires OLD_SIZE * n <= |b|
      modifies this`idxs
      ensures idxs == WithEntries(old(idxs), b, n)
    {
      var i := 0;
      while i < n
        invariant 0 <= i <= n && idxs == WithEntries(old(idxs), b, i)
      {
        ListEntry(OldEntryOf(b[OLD_SIZE * i..OLD_SIZE * (i + 1)]));
        i := i + 1;
      }
    }

    method ListEntry(e: Entry)
      requires |e.id| == 4
      modifies this`idxs
      ensures idxs == WithEntry(old(idxs), e)
    {
      if e.id == REC { return; }
      var stream := Atoi2(e.id[0], e.id[1]);
      idxs := idxs[stream := Listed(idxs, stream) + [e]];
    }

    method TakeSuper() returns (outcome: Outcome)
      modifies this`pos, this`good, this`size, this`odml
      ensures Value(outcome) == SuperTaken(old(Value(Going)))
    {
      ReadSize();
      var end := pos + size;
      var head := Read(SUPER_HEAD - 8);
      if |head| < SUPER_HEAD - 8 || head[2] != 0 { return Beyond; }
      var places, whole := ReadPlaces(Read32(head[4..8]));
      if !whole { return Beyond; }
      outcome := FollowPlaces(Atoi2(head[8], head[9]), places);
      pos, good := end, true;
    }

    method ReadPlaces(n: nat) returns (places: seq<nat>, whole: bool)
      modifies this`pos, this`good
      ensures Value(Going) == Taken(old(Value(Going)), SUPER_ENTRY * n)
      ensures var b := Fetched(old(Value(Going)), SUPER_ENTRY * n);
        (whole <==> |b| == SUPER_ENTRY * n) && (whole ==> places == PlacesIn(b, n))
    {
      ghost var r := Value(Going);
      var i := 0;
      places := [];
      while i < n
        invariant 0 <= i <= n && Value(Going) == Taken(r, SUPER_ENTRY * i)
        invariant |Fetched(r, SUPER_ENTRY * i)| == SUPER_ENTRY * i && places == PlacesIn(Fetched(r, SUPER_ENTRY * i), i)
      {
        RowTaken(r, i);
        var row := Read(SUPER_ENTRY);
        if |row| < SUPER_ENTRY {
          ShortStays(r, SUPER_ENTRY * (i + 1), SUPER_ENTRY * n);
          return places, false;
        }
        places := places + [Read64(row[..8])];
        i := i + 1;
      }
      return places, true;
    }

    method FollowPlaces(stream: int, places: seq<nat>) returns (outcome: Outcome)
      modifies this`pos, this`good, this`odml
      ensures Value(outcome) == StdsTaken(old(Value(Going)), stream, places, |places|)
    {
      ghost var r := Value(Going);
      outcome := Going;
      for i := 0 to |places|
        invariant Value(outcome) == StdsTaken(r, stream, places, i)
      {
        if outcome == Going { outcome := TakeStd(stream, places[i]); }
      }
    }

    method TakeStd(stream: int, place: nat) returns (outcome: Outcome)
      modifies this`pos, this`good, this`odml
      ensures Value(outcome) == StdTaken(old(Value(Going)), stream, place)
    {
      Seek(Signed64(place));
      var got := Read(STD_HEAD);
      var head := Into(Fill(STD_HEAD, 0), got);
      var id, base := head[16..20], Read64(head[20..28]);
      if id == REC { return Going; }
      if Indexable(id) {
        var n := Read32(head[12..16]);
        var b := Read(Read32(head[4..8]));
        if |b| < STD_ENTRY * n { return Beyond; }
        ListRows(stream, id, base, b, n);
      }
      good := true;
      return Going;
    }

    method ListRows(stream: int, id: seq<byte>, base: nat, b: seq<byte>, n: nat)
      requires STD_ENTRY * n <= |b|
      modifies this`odml
      ensures odml == WithRows(old(odml), stream, id, base, b, n)
    {
      var i := 0;
      while i < n
        invariant 0 <= i <= n && odml == WithRows(old(odml), stream, id, base, b, i)
      {
        odml := WithRow(odml, stream, RowOf(id, base, b[STD_ENTRY * i..STD_ENTRY * (i + 1)]));
        i := i + 1;
      }
    }

    method TakeStream() returns (outcome: Outcome)
      modifies this`pos, this`good, this`headers, this`audio
      ensures Value(outcome) == StreamTaken(old(Value(Going)))
    {
      if headers >= 2 { return Refused; }
      var b := Read(STREAM_HEADER);
      if |b| == STREAM_HEADER { audio := b[8..12] == AUDS; }
      headers := headers + 1;
      return Going;
    }

    method TakeFormat() returns (outcome: Outcome)
      modifies this`pos, this`good, this`size
      ensures Value(outcome) == FormatTaken(old(Value(Going)))
    {
      ReadSize();
      if audio { return Beyond; }
      var bitmapInfo := Read(Min(size, BITMAP_INFO));
      if size > BITMAP_INFO { Skip(size - BITMAP_INFO); }
      return Going;
    }

    method TakeElement(tag: FourCC) returns (outcome: Outcome)
      requires pos >= 4
      modifies this
      ensures Value(outcome) == Element(old(Value(Going)), tag)
    {
      outcome := Going;
      if Bare(tag) {
      } else if tag == RIFF || tag == LIST {
        ReadSize();
      } else if tag == AVIH {
        ReadSize();
        if size != AVIH_BODY { return Refused; }
        var mainHeader := Read(AVIH_BODY);
      } else if tag == STRL {
        outcome := TakeStream();
      } else if tag == STRF {
        outcome := TakeFormat();
      } else if tag == STRN {
        ReadSize();
        Skip((size - 4) % WORD);
      } else if tag == MOVI {
        movis := movis + [pos - 4];
        Skip((size - 4) % WORD);
      } else if tag == IDX1 {
        TakeIndex();
      } else if tag == INDX {
        outcome := TakeSuper();
      } else if tag == VPRP {
        outcome := Beyond;
      } else {
        ReadSize();
        Skip(size);
      }
    }

    method WalkAll() returns (outcome: Outcome)
      modifies this
      ensures Value(outcome) == Walk(old(Value(Going)))
    {
      outcome := Going;
      while outcome == Going && good && pos + 4 <= |s|
        invariant s == old(s) && Walk(Value(outcome)) == Walk(old(Value(Going)))
        decreases |s| - pos, outcome == Going
      {
        outcome := TakeOne();
      }
    }

    method TakeOne() returns (outcome: Outcome)
      requires More(Value(Going))
      modifies this
      ensures Value(outcome) == Step(old(Value(Going)))
    {
      var tag := s[pos..pos + 4];
      pos := pos + 4;
      outcome := TakeElement(tag);
    }

    /** `open` on a file with the bytes `file`. */
    method Open(file: seq<byte>) returns (ok: bool, ghost outcome: Outcome)
      modifies this
      ensures Value(outcome) == Reopened(file, old(idxs), old(odml))
      ensures outcome != Beyond ==> (ok <==> Accepted(Value(outcome)))
    {
      s, pos, good, size, audio, headers, movis, useMovi := file, 0, true, 0, false, 0, [], false;
      var at := WalkAll();
      outcome := at;
      if at != Going { return false, outcome; }
      if odml != map[] { idxs, odml := odml, idxs; }
      pos, good := 0, true;
      return movis != [], outcome;
    }

    method Probe(e: Entry, at: int, buf: seq<byte>) returns (tag: seq<byte>)
      requires |buf| == 8
      modifies this`pos, this`good
      ensures (Value(Going), tag) == Probed(old(Value(Going)), e, at, buf) && |tag| == 8
    {
      Seek(at);
      var d := Read(8);
      tag := Into(buf, d);
    }

    method ReadFrame(idx: nat, stream: int, buf: seq<byte>) returns (result: nat, data: seq<byte>)
      requires |buf| == 8 && movis != []
      modifies this
      ensures FrameRead(Value(Going), result, data) == FrameReadFrom(old(Value(Going)), idx, stream, buf)
    {
      idxs := idxs[stream := Listed(idxs, stream)];
      if idx >= |idxs[stream]| { return 0, []; }
      var e := idxs[stream][idx];
      if e.size == 0 { return 1, []; }
      Locate(e, buf);
      data := Read(e.size);
      return |data|, data;
    }

    method Locate(e: Entry, buf: seq<byte>)
      requires |buf| == 8 && movis != []
      modifies this`pos, this`good, this`useMovi
      ensures Value(Going) == Located(old(Value(Going)), e, buf)
    {
      var tag := buf;
      if !useMovi {
        good := true;
        tag := Probe(e, e.offset, tag);
        if tag[..4] == e.id { return; }
      }
      tag := Probe(e, e.offset + movis[0], tag);
      useMovi := tag[..4] == e.id;
      if !useMovi { Seek(e.offset); }
    }
  }
}
