/** Whole runs over the direct-I/O stream: the file a client believes it is writing, and exactly
    when the device ends up with that file. */
module DirectIoRuns {
  import opened Bytes
  import opened StreamFile
  import opened DirectIo

  /** The client's view: a text and a position, which may stand in the slack after the text. */
  datatype Logical = Logical(text: seq<byte>, cur: nat)

  /** The position is not past the slack of the last unit; a seek beyond that extends the text. */
  ghost predicate LogicalOk(l: Logical) {
    l.cur <= CeilUnit(|l.text|)
  }

  /** Writing nothing changes nothing; a write past the text fills the gap. */
  function LogicalWrite(l: Logical, data: seq<byte>): Logical {
    if data == [] then l
    else Logical(Overwrite(Grow(l.text, l.cur, FILLER), l.cur, data), l.cur + |data|)
  }

  function LogicalSeek(l: Logical, offset: int, whence: Whence): (Logical, int) {
    var target := match whence case Set => offset case Cur => l.cur + offset case End => |l.text| + offset;
    if target < 0 then (l, -1)
    else if target <= CeilUnit(|l.text|) then (l.(cur := target), 0)
    else (Logical(Grow(l.text, target, FILLER), target), 0)
  }

  /** How the text lies on the device: completed to a whole unit with filler. */
  function Physical(l: Logical): Disk {
    Disk(Grow(l.text, CeilUnit(|l.text|), FILLER), l.cur, |l.text|)
  }

  /** `n` bytes at `at` start inside a unit of 64 KiB and stay in it. */
  predicate Within(at: nat, n: nat) {
    at % 0x1_0000 != 0 && at % 0x1_0000 + n <= 0x1_0000
  }

  /** The guard of the branch that forgets the end: a write that starts inside a unit, stays in it,
      and reaches past the end of the file. */
  predicate Loses(d: Disk, n: nat) {
    n > 0 && Within(d.cur, n) && d.cur + n > d.endOff
  }

  /** The guard of the branch that takes the slack for text: an empty write at a unit boundary past the
      end of the file. */
  predicate Pads(d: Disk, n: nat) {
    n == 0 && d.cur % 0x1_0000 == 0 && d.cur > d.endOff
  }

  /** Where the file should end after a write. */
  function RightEnd(d: Disk, n: nat): nat {
    if n == 0 then d.endOff else Max(d.endOff, d.cur + n)
  }

  /** The guard of the branch that pulls the end back: the tail of a write falls in a last unit cut
      short by an explicit truncate, before the end of the file. */
  predicate Shrinks(d: Disk, n: nat) {
    var end := d.cur + n;
    !Within(d.cur, n) && end % 0x1_0000 != 0 && end < d.endOff && |d.content| < end - end % 0x1_0000 + 0x1_0000
  }

  /** A write leaves the end of the file where it should be exactly when no guard holds; otherwise where it
      was, or where the write ends. */
  lemma EndIsRightIff(d: Disk, data: seq<byte>)
    requires ValidDisk(d)
    ensures WriteSpec(d, data).endOff == RightEnd(d, |data|) <==>
        !Loses(d, |data|) && !Pads(d, |data|) && !Shrinks(d, |data|)
    ensures Loses(d, |data|) ==> WriteSpec(d, data).endOff == d.endOff
    ensures Pads(d, |data|) || Shrinks(d, |data|) ==> WriteSpec(d, data).endOff == d.cur + |data|
  {
    var end := d.cur + |data|;
    if !OneUnit(d.cur, |data|) && end % UNIT != 0 && |d.content| < FloorUnit(end) + UNIT {
      Units(end);
      assert end < d.endOff <==> Shrinks(d, |data|);
    }
  }

  /** What is on a device after a write, wherever it lies: the data in its place, what was there around it, and
      0xFF up to the end of the last unit of 64 KiB the write has touched. */
  lemma WriteBytes(d: Disk, data: seq<byte>)
    requires ValidDisk(d)
    ensures var end, s, r := d.cur + |data|, d.content, WriteSpec(d, data);
      && r.cur == end && |s| <= |r.content| && end <= |r.content|
      && (|r.content| == |s| || (|r.content| % 0x1_0000 == 0 && |r.content| < end + 0x1_0000))
      && (|s| % 0x1_0000 != 0 && end > |s| - |s| % 0x1_0000 ==> |r.content| % 0x1_0000 == 0)
      && forall i :: 0 <= i < |r.content| ==>
        r.content[i] == if d.cur <= i < end then data[i - d.cur] else if i < |s| then s[i] else 0xFF
  {
    var end, size := d.cur + |data|, |d.content|;
    Units(end);
    Units(size);
    if end > FloorUnit(size) { CeilMonotone(FloorUnit(size) + 1, end); UnitsAdd(FloorUnit(size), 1); }
  }

  /** Without an explicit truncate the end is never pulled back. */
  lemma NoShrinkWhenAligned(d: Disk, n: nat)
    requires ValidDisk(d) && |d.content| % UNIT == 0
    ensures !Shrinks(d, n)
  {
    var end := d.cur + n;
    Units(end);
    if |d.content| < FloorUnit(end) + UNIT {
      AlignedApart(|d.content|, FloorUnit(end));
    }
  }

  lemma PhysicalIsValid(l: Logical)
    requires LogicalOk(l)
    ensures ValidDisk(Physical(l)) && |Physical(l).content| == CeilUnit(|l.text|) && |Physical(l).content| % UNIT == 0
  {
    Units(|l.text|);
  }

  lemma CeilMonotone(a: nat, b: nat)
    requires a <= b
    ensures CeilUnit(a) <= CeilUnit(b)
  {
  }

  /** The size after a write is that of the new text, completed. */
  lemma SizeAfterIsCeil(len: nat, end: nat)
    ensures SizeAfter(CeilUnit(len), end) == CeilUnit(Max(len, end))
  {
    Units(len);
    Units(CeilUnit(len));
    Units(end);
    if end <= CeilUnit(len) {
      if len < end { CeilMonotone(len, end); AlignedApart(CeilUnit(end), CeilUnit(len)); }
    } else {
      CeilMonotone(len, end);
    }
  }

  /** The bytes on the device are always right: they are the new text, completed with filler. */
  lemma WriteContent(l: Logical, data: seq<byte>)
    requires LogicalOk(l)
    ensures WriteSpec(Physical(l), data).content == Physical(LogicalWrite(l, data)).content
    ensures LogicalOk(LogicalWrite(l, data))
  {
    if data == [] {
      EmptyWriteContent(l);
    } else {
      SomeWriteContent(l, data);
    }
  }

  lemma EmptyWriteContent(l: Logical)
    requires LogicalOk(l)
    ensures WriteSpec(Physical(l), []).content == Physical(l).content
  {
    PhysicalIsValid(l);
    SizeAfterIsCeil(|l.text|, l.cur);
    Units(|l.text|);
    Units(l.cur);
    if l.cur > |l.text| { AlignedApart(CeilUnit(l.cur), CeilUnit(|l.text|)); }
    if l.cur > |l.text| { CeilMonotone(|l.text|, l.cur); }
  }

  lemma SomeWriteContent(l: Logical, data: seq<byte>)
    requires LogicalOk(l) && data != []
    ensures WriteSpec(Physical(l), data).content == Physical(LogicalWrite(l, data)).content
    ensures LogicalOk(LogicalWrite(l, data))
  {
    PhysicalIsValid(l);
    var end := l.cur + |data|;
    var a, b := WriteSpec(Physical(l), data).content, Physical(LogicalWrite(l, data)).content;
    SizeAfterIsCeil(|l.text|, end);
    WriteAtKeepsValid(Physical(l), l.cur, data);
    assert |LogicalWrite(l, data).text| == Max(Max(|l.text|, l.cur), end) == Max(|l.text|, end);
    Units(Max(|l.text|, end));
    forall i | 0 <= i < |a| ensures a[i] == b[i] {
    }
  }

  /** A write on the device is the write on the text, exactly when it neither loses the end nor takes
      slack for text. */
  lemma WriteRefinesIff(l: Logical, data: seq<byte>)
    requires LogicalOk(l)
    ensures WriteSpec(Physical(l), data) == Physical(LogicalWrite(l, data))
      <==> !Loses(Physical(l), |data|) && !Pads(Physical(l), |data|)
  {
    PhysicalIsValid(l);
    WriteContent(l, data);
    EndIsRightIff(Physical(l), data);
    NoShrinkWhenAligned(Physical(l), |data|);
  }

  lemma ExtendEnd(size: nat, left: nat)
    requires size % UNIT == 0 && 0 < left < UNIT
    ensures EndAfter(size, size, size, left) == size + left
    ensures SizeAfter(size, size + left) == CeilUnit(size + left) == size + UNIT
  {
    UnitsAdd(size, left);
    Units(left);
    Units(size);
  }

  /** Past the slack, the device and the text are extended alike. */
  lemma ExtendRefines(l: Logical, target: nat, block: BlockSize)
    requires LogicalOk(l) && target > CeilUnit(|l.text|)
    ensures |Physical(l).content| < target
    ensures ExtendSpec(Physical(l), target, block) == Physical(Logical(Grow(l.text, target, FILLER), target))
  {
    PhysicalIsValid(l);
    var d := Physical(l);
    var size := |d.content|;
    UnitIsBlocks(size, block);
    var n := target - size;
    Units(n);
    Units(target);
    ExtendedIsFull(d, n, block);
    var size' := size + FloorUnit(n);
    UnitsAdd(size, n);
    UnitsAdd(size, FloorUnit(n));
    if n - FloorUnit(n) > 0 {
      ExtendEnd(size', n - FloorUnit(n));
    }
    var a, b := ExtendSpec(d, target, block).content, Physical(Logical(Grow(l.text, target, FILLER), target)).content;
    assert |a| == |b|;
    forall i | 0 <= i < |a| ensures a[i] == b[i] {
    }
  }

  /** A seek on the device is the seek on the text; past the slack it extends both, with filler. */
  lemma SeekRefines(l: Logical, offset: int, whence: Whence, block: BlockSize)
    requires LogicalOk(l)
    ensures var sought := LogicalSeek(l, offset, whence);
      SeekSpec(Physical(l), offset, whence, block) == (Physical(sought.0), sought.1) && LogicalOk(sought.0)
  {
    PhysicalIsValid(l);
    var d, sought := Physical(l), LogicalSeek(l, offset, whence);
    var target := SeekPos(d, offset, whence);
    if target > |d.content| {
      ExtendRefines(l, target, block);
      Units(target);
    } else if target >= 0 {
      assert sought == (l.(cur := target), 0);
    } else {
      assert sought == (l, -1);
    }
  }

  /** A seek changes no byte of the file; what it adds is 0xFF. */
  lemma SeekFills(d: Disk, offset: int, whence: Whence, block: BlockSize)
    requires ValidDisk(d)
    ensures var r, target := SeekSpec(d, offset, whence, block).0, SeekPos(d, offset, whence);
      && (target < 0 ==> r == d && SeekSpec(d, offset, whence, block).1 == -1)
      && (0 <= target <= |d.content| ==> r == d.(cur := target))
      && (target >= 0 ==> SeekSpec(d, offset, whence, block).1 == 0)
      && |d.content| <= |r.content|
      && forall i :: 0 <= i < |r.content| ==> r.content[i] == if i < |d.content| then d.content[i] else 0xFF
  {
    var target := SeekPos(d, offset, whence);
    if target > |d.content| { ExtendedIsFull(d, target - |d.content|, block); }
  }

  /** What an explicit truncate leaves of a client's text: its front, or the text, then 0xFF as far as its last
      unit goes, then zeros; and the position is where it was. */
  lemma TruncateText(l: Logical, length: nat)
    requires LogicalOk(l)
    ensures var d := TruncateSpec(Physical(l), length); var left := DestroySpec(d);
      && d.cur == l.cur && |left| == length
      && forall i :: 0 <= i < length ==>
        left[i] == if i < |l.text| then l.text[i] else if i < CeilUnit(|l.text|) then 0xFF else 0
  {
    PhysicalIsValid(l);
  }

  // ----- runs -----

  datatype Call = Written(data: seq<byte>) | Sought(offset: int, whence: Whence)

  function OnText(l: Logical, c: Call): Logical {
    match c
    case Written(data) => LogicalWrite(l, data)
    case Sought(offset, whence) => LogicalSeek(l, offset, whence).0
  }

  function OnDisk(d: Disk, c: Call, block: BlockSize): (d': Disk)
    requires ValidDisk(d)
    ensures ValidDisk(d')
  {
    match c
    case Written(data) => WriteKeepsValid(d, data); WriteSpec(d, data)
    case Sought(offset, whence) => SeekKeepsValid(d, offset, whence, block); SeekSpec(d, offset, whence, block).0
  }

  function Text(calls: seq<Call>): Logical
    decreases |calls|
  {
    if calls == [] then Logical([], 0) else OnText(Text(calls[..|calls| - 1]), calls[|calls| - 1])
  }

  function OnDevice(calls: seq<Call>, block: BlockSize): (d: Disk)
    ensures ValidDisk(d)
    decreases |calls|
  {
    if calls == [] then Disk([], 0, 0) else OnDisk(OnDevice(calls[..|calls| - 1], block), calls[|calls| - 1], block)
  }

  predicate BadCall(d: Disk, c: Call) {
    c.Written? && (Loses(d, |c.data|) || Pads(d, |c.data|))
  }

  /** No write of the run takes a branch that gets the end wrong. */
  ghost predicate Guarded(calls: seq<Call>)
    decreases |calls|
  {
    calls != [] ==> Guarded(calls[..|calls| - 1]) && !BadCall(Physical(Text(calls[..|calls| - 1])), calls[|calls| - 1])
  }

  /** Over any such run, on a device of any block size, the device holds the client's text, completed
      with filler, the stream knows its end, and destroying the stream leaves exactly the text. */
  lemma {:induction false} GuardedRunIsExact(calls: seq<Call>, block: BlockSize)
    requires Guarded(calls)
    ensures LogicalOk(Text(calls)) && OnDevice(calls, block) == Physical(Text(calls))
    ensures DestroySpec(OnDevice(calls, block)) == Text(calls).text
    decreases |calls|
  {
    if calls != [] {
      var n := |calls| - 1;
      GuardedRunIsExact(calls[..n], block);
      var l := Text(calls[..n]);
      match calls[n] {
        case Written(data) => WriteContent(l, data); WriteRefinesIff(l, data);
        case Sought(offset, whence) => SeekRefines(l, offset, whence, block);
      }
    }
  }

  /** And only then: one losing write at the end of such a run, and destroying the stream cuts the
      text back to where it ended before that write. */
  lemma LosingWriteIsCut(calls: seq<Call>, data: seq<byte>, block: BlockSize)
    requires Guarded(calls) && Loses(Physical(Text(calls)), |data|)
    ensures var more := calls + [Written(data)]; var before := |Text(calls).text|;
      DestroySpec(OnDevice(more, block)) == Text(more).text[..before] && before < |Text(more).text|
  {
    GuardedRunIsExact(calls, block);
    var l, more := Text(calls), calls + [Written(data)];
    assert more[..|more| - 1] == calls;
    WriteContent(l, data);
  }

  /** One empty write in the slack, at a unit boundary, and destroying the stream leaves filler up to
      there after the text. */
  lemma EmptyWritePads(calls: seq<Call>, block: BlockSize)
    requires Guarded(calls) && Pads(Physical(Text(calls)), 0)
    ensures var more := calls + [Written([])]; var l := Text(calls);
      && Text(more) == l && |l.text| < l.cur
      && DestroySpec(OnDevice(more, block)) == Grow(l.text, l.cur, FILLER)
  {
    GuardedRunIsExact(calls, block);
    var l, more := Text(calls), calls + [Written([])];
    assert more[..|more| - 1] == calls;
    EmptyWriteContent(l);
    PhysicalIsValid(l);
  }

  lemma OneWrite(a: seq<byte>)
    requires |a| == 10000
    ensures Guarded([Written(a)]) && Text([Written(a)]) == Logical(a, 10000)
  {
    var calls := [Written(a)];
    assert calls[..0] == [] && Text([]) == Logical([], 0) && Guarded([]);
    assert Text(calls) == LogicalWrite(Text([]), a);
    assert Text(calls).text == a;
  }

  /** The shortest story: ten thousand bytes, then a hundred more, and the hundred are gone. */
  lemma SmallAppendIsLost(a: seq<byte>, b: seq<byte>, block: BlockSize)
    requires |a| == 10000 && |b| == 100
    ensures Text([Written(a), Written(b)]).text == a + b
    ensures DestroySpec(OnDevice([Written(a), Written(b)], block)) == a
  {
    OneWrite(a);
    var calls := [Written(a)];
    assert [Written(a), Written(b)] == calls + [Written(b)] && (calls + [Written(b)])[..1] == calls;
    LosingWriteIsCut(calls, b, block);
    assert Text(calls + [Written(b)]).text == a + b;
  }

  /** Ten thousand bytes, a seek to the end of their unit, an empty write: the file has 55536 bytes more. */
  lemma EmptyWriteGrowsFile(a: seq<byte>, block: BlockSize)
    requires |a| == 10000
    ensures var calls := [Written(a), Sought(UNIT, Set), Written([])];
      Text(calls).text == a && DestroySpec(OnDevice(calls, block)) == a + Fill(55536, 0xFF)
  {
    OneWrite(a);
    var one, two := [Written(a)], [Written(a), Sought(UNIT, Set)];
    assert two[..1] == one && Text(two) == Logical(a, UNIT);
    assert Guarded(two);
    assert [Written(a), Sought(UNIT, Set), Written([])] == two + [Written([])];
    EmptyWritePads(two, block);
    assert Grow(a, UNIT, FILLER) == a + Fill(55536, FILLER);
  }

  /** After a truncate to ten thousand bytes, a hundred written at the front leave a hundred. */
  lemma TruncateThenWriteShrinks(text: seq<byte>, data: seq<byte>)
    requires |text| == 10000 && |data| == 100
    ensures DestroySpec(WriteSpec(TruncateSpec(Disk(text, 0, 10000), 10000), data)) == data
  {
    var d := WriteSpec(TruncateSpec(Disk(text, 0, 10000), 10000), data);
    assert d.endOff == 100;
  }

  /** Where a seek past the end goes: by the whole units, unless the device refuses them, and then by the rest;
      and it takes the end there with it, unless that rest starts inside a unit and stays in it. */
  lemma SeekEnds(d: Disk, offset: int, whence: Whence, block: BlockSize)
    requires ValidDisk(d) && SeekPos(d, offset, whence) > |d.content|
    ensures var r, n := SeekSpec(d, offset, whence, block).0, SeekPos(d, offset, whence) - |d.content|;
      var left := n % 0x1_0000; var from := |d.content| + if |d.content| % block == 0 then n - left else 0;
      && r.cur == from + left && r.endOff == if left > 0 && Within(from, left) then from else from + left
  {
    var n := SeekPos(d, offset, whence) - |d.content|;
    Units(n);
    ExtendedIsFull(d, n, block);
    var from := |UnitsExtended(d, n, block).content|;
    Units(from + n % UNIT);
  }

  /** A seek past the end lands where it was asked to exactly when the file ends on a block of the
      device, or the seek goes less than a unit past that. */
  lemma SeekLandsIff(d: Disk, offset: int, whence: Whence, block: BlockSize)
    requires ValidDisk(d) && SeekPos(d, offset, whence) > |d.content|
    ensures SeekSpec(d, offset, whence, block).0.cur == SeekPos(d, offset, whence)
      <==> |d.content| % block == 0 || SeekPos(d, offset, whence) - |d.content| < UNIT
  {
    var n := SeekPos(d, offset, whence) - |d.content|;
    Units(n);
    ExtendedIsFull(d, n, block);
  }

  /** Without an explicit truncate it always does. */
  lemma SeekLandsWhenWhole(d: Disk, offset: int, whence: Whence, block: BlockSize)
    requires ValidDisk(d) && |d.content| % UNIT == 0 && SeekPos(d, offset, whence) > |d.content|
    ensures SeekSpec(d, offset, whence, block).0.cur == SeekPos(d, offset, whence)
  {
    UnitIsBlocks(|d.content|, block);
    SeekLandsIff(d, offset, whence, block);
  }

  /** After a truncate to ten thousand bytes, on a device of 512-byte blocks, a seek to a unit past that
      does not move past the end. */
  lemma SeekFallsShort(text: seq<byte>, cur: nat)
    requires cur <= |text|
    ensures SeekSpec(TruncateSpec(Disk(text, cur, |text|), 10000), 10000 + UNIT, Set, BLOCK).0.cur == 10000
  {
    var d := TruncateSpec(Disk(text, cur, |text|), 10000);
    assert |d.content| == 10000;
    Units(UNIT);
    ExtendedIsFull(d, UNIT, BLOCK);
  }
}
