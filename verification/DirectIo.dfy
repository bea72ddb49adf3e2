/** The file stream on a device that takes only whole, aligned units: byte-granular writes by
    reading a unit, changing it and writing it back, with the logical end kept apart from the
    physical one. First what each call does to the file, as functions; then the calls. */
module DirectIo {
  import opened Bytes
  import opened StreamFile

  const UNIT := 64 * 1024
  const MEMORY_ALIGN := 512
  const FILLER: byte := 0xFF

  /** The device's own block: it takes accesses aligned to it, and it divides the unit. */
  type BlockSize = b: nat | 0 < b && UNIT % b == 0 witness UNIT

  const BLOCK: BlockSize := 512

  function FloorUnit(n: nat): nat { n / UNIT * UNIT }

  function CeilUnit(n: nat): nat { (n + UNIT - 1) / UNIT * UNIT }

  /** The bytes on the device, the stream's position, and where it believes the file ends. */
  datatype Disk = Disk(content: seq<byte>, cur: nat, endOff: nat)

  ghost predicate ValidDisk(d: Disk) {
    && d.endOff <= |d.content| < d.endOff + UNIT
    && d.cur <= |d.content|
    && (|d.content| % UNIT == 0 || d.endOff == |d.content|)
  }

  /** A write that starts inside a unit and does not leave it. */
  predicate OneUnit(at: nat, n: nat) {
    at % UNIT != 0 && at % UNIT + n <= UNIT
  }

  /** The physical size after a write that ends at `end`: the last unit touched is completed. */
  function SizeAfter(size: nat, end: nat): nat {
    if end <= FloorUnit(size) then size else Max(size, CeilUnit(end))
  }

  /** Where the stream believes the file ends after a write of `n` bytes at `at`. */
  function EndAfter(size: nat, endOff: nat, at: nat, n: nat): nat {
    var end := at + n;
    if OneUnit(at, n) then endOff
    else if end % UNIT != 0 && size < FloorUnit(end) + UNIT then end
    else Max(endOff, end)
  }

  function WriteAt(d: Disk, at: nat, data: seq<byte>): (r: Disk)
    requires at <= |d.content|
  {
    Disk(Grow(Overwrite(d.content, at, data), SizeAfter(|d.content|, at + |data|), FILLER),
         at + |data|,
         EndAfter(|d.content|, d.endOff, at, |data|))
  }

  function WriteSpec(d: Disk, data: seq<byte>): Disk
    requires d.cur <= |d.content|
  {
    WriteAt(d, d.cur, data)
  }

  function SeekPos(d: Disk, offset: int, whence: Whence): int {
    match whence
    case Set => offset
    case Cur => d.cur + offset
    case End => d.endOff + offset
  }

  /** The file after the whole units of an extension by `n`; the device refuses them at an end off its blocks. */
  function UnitsExtended(d: Disk, n: nat, block: BlockSize): Disk {
    var size := if |d.content| % block == 0 then |d.content| + FloorUnit(n) else |d.content|;
    Disk(Grow(d.content, size, FILLER), size, size)
  }

  /** Extending the file to `target`, past its physical end: whole units of filler, then the rest. */
  function ExtendSpec(d: Disk, target: nat, block: BlockSize): Disk
    requires |d.content| < target
  {
    var n := target - |d.content|;
    var d' := UnitsExtended(d, n, block);
    var left := n - FloorUnit(n);
    if left == 0 then d' else WriteAt(d', d'.cur, Fill(left, FILLER))
  }

  function SeekSpec(d: Disk, offset: int, whence: Whence, block: BlockSize): (Disk, int) {
    var target := SeekPos(d, offset, whence);
    if target < 0 then (d, -1)
    else if target <= |d.content| then (d.(cur := target), 0)
    else (ExtendSpec(d, target, block), 0)
  }

  function TruncateSpec(d: Disk, length: nat): Disk {
    Disk(if length <= |d.content| then d.content[..length] else Grow(d.content, length, 0), d.cur, length)
  }

  /** What is left on the device when the stream is destroyed. */
  function DestroySpec(d: Disk): seq<byte>
    requires d.endOff <= |d.content|
  {
    d.content[..d.endOff]
  }

  // ----- arithmetic of units -----

  lemma Units(n: nat)
    ensures FloorUnit(n) % UNIT == 0 && FloorUnit(n) <= n < FloorUnit(n) + UNIT && n - FloorUnit(n) == n % UNIT
    ensures CeilUnit(n) % UNIT == 0 && n <= CeilUnit(n) < n + UNIT
    ensures if n % UNIT == 0 then CeilUnit(n) == n else CeilUnit(n) == FloorUnit(n) + UNIT
  {
  }

  lemma UnitsAdd(a: nat, b: nat)
    requires a % UNIT == 0
    ensures FloorUnit(a + b) == a + FloorUnit(b) && (a + b) % UNIT == b % UNIT
    ensures CeilUnit(a + b) == a + CeilUnit(b)
  {
    var q := a / UNIT;
    assert a == UNIT * q;
    assert (a + b) / UNIT == q + b / UNIT;
    assert (a + b + UNIT - 1) / UNIT == q + (b + UNIT - 1) / UNIT;
  }

  /** Two aligned numbers less than a unit apart are the same. */
  lemma AlignedApart(a: nat, b: nat)
    requires a % UNIT == 0 && b % UNIT == 0 && a < b + UNIT
    ensures a <= b
  {
  }

  /** The part of `s` a read of one unit at `a` returns. */
  function UnitAt(s: seq<byte>, a: nat): seq<byte>
    requires a <= |s|
  {
    s[a..if a + UNIT <= |s| then a + UNIT else |s|]
  }

  /** Writing a unit back with `d` put in at `off` changes only those bytes, and completes the unit. */
  lemma UnitRewrite(s: seq<byte>, a: nat, off: nat, d: seq<byte>)
    requires a + off <= |s| && off + |d| <= UNIT
    ensures Overwrite(s, a, Overwrite(Grow(UnitAt(s, a), UNIT, FILLER), off, d))
      == Grow(Overwrite(s, a + off, d), a + UNIT, FILLER)
  {
    var l := Overwrite(s, a, Overwrite(Grow(UnitAt(s, a), UNIT, FILLER), off, d));
    var r := Grow(Overwrite(s, a + off, d), a + UNIT, FILLER);
    assert |l| == |r|;
    forall i | 0 <= i < |l| ensures l[i] == r[i] {
    }
  }

  /** Completing the unit first makes no difference to that. */
  lemma RewriteTwice(s: seq<byte>, a: nat, u: seq<byte>, v: seq<byte>)
    requires a <= |s| && |u| == |v|
    ensures Overwrite(Overwrite(s, a, u), a, v) == Overwrite(s, a, v)
  {
    var l, r := Overwrite(Overwrite(s, a, u), a, v), Overwrite(s, a, v);
    forall i | 0 <= i < |l| ensures l[i] == r[i] {
    }
  }

  // ----- how the pieces of a write add up -----

  /** The bytes of a write that go with its first unit. */
  function HeadLen(at: nat, n: nat): nat {
    if at % UNIT == 0 then 0 else if n <= UNIT - at % UNIT then n else UNIT - at % UNIT
  }

  lemma HeadMeetsUnit(at: nat, n: nat)
    requires !OneUnit(at, n)
    ensures HeadLen(at, n) <= n && (at + HeadLen(at, n)) % UNIT == 0
    ensures at % UNIT != 0 ==> at + HeadLen(at, n) == FloorUnit(at) + UNIT
    ensures at + HeadLen(at, n) + FloorUnit(n - HeadLen(at, n)) == FloorUnit(at + n)
    ensures n - HeadLen(at, n) - FloorUnit(n - HeadLen(at, n)) == (at + n) % UNIT
  {
    var k := HeadLen(at, n);
    Units(at);
    if at % UNIT != 0 {
      assert at + k == FloorUnit(at) + UNIT;
      UnitsAdd(FloorUnit(at), UNIT);
    }
    UnitsAdd(at + k, n - k);
    Units(n - k);
  }

  /** The size of the file once the last unit touched has been completed. */
  lemma CompletedSize(size: nat, at: nat, n: nat)
    requires at <= size
    ensures var end := at + n;
      SizeAfter(size, end) ==
        if OneUnit(at, n) then Max(size, FloorUnit(at) + UNIT)
        else if end % UNIT == 0 then Max(size, end)
        else Max(size, FloorUnit(end) + UNIT)
  {
    var end := at + n;
    Units(at);
    Units(end);
    Units(size);
    if OneUnit(at, n) {
      if end <= FloorUnit(size) {
        AlignedApart(FloorUnit(at) + UNIT, FloorUnit(size));
      } else {
        AlignedApart(CeilUnit(end), FloorUnit(at) + UNIT);
        AlignedApart(FloorUnit(at) + UNIT, CeilUnit(end));
      }
    } else if end % UNIT != 0 && end <= FloorUnit(size) {
      AlignedApart(FloorUnit(end) + UNIT, FloorUnit(size));
    }
  }

  /** The three pieces written one after another are the write. */
  lemma PiecesJoin(s: seq<byte>, at: nat, data: seq<byte>, k: nat, m: nat)
    requires at <= |s| && k + m <= |data|
    ensures Overwrite(Overwrite(s, at, data[..k]), at + k, data[k..k + m]) == Overwrite(s, at, data[..k + m])
    ensures Overwrite(Overwrite(s, at, data[..k + m]), at + k + m, data[k + m..]) == Overwrite(s, at, data)
  {
    OverwriteJoin(s, at, data[..k], data[k..k + m]);
    assert data[..k] + data[k..k + m] == data[..k + m];
    OverwriteJoin(s, at, data[..k + m], data[k + m..]);
    assert data[..k + m] + data[k + m..] == data;
  }

  /** Growing to any size between the two lengths involved gives the same file. */
  lemma SameGrowth(s: seq<byte>, g: nat, h: nat)
    requires Max(|s|, g) == Max(|s|, h)
    ensures Grow(s, g, FILLER) == Grow(s, h, FILLER)
  {
  }

  /** What the tail of a write decides about the end is what `EndAfter` says. */
  lemma TailEnd(d: Disk, at: nat, n: nat)
    requires ValidDisk(d) && at <= |d.content| && !OneUnit(at, n) && (at + n) % UNIT != 0
    ensures var c := FloorUnit(at + n); var before := Max(|d.content|, c);
      && (c == d.endOff ==> before == c)
      && EndAfter(|d.content|, d.endOff, at, n) ==
         if before < c + UNIT then at + n
         else if before == c + UNIT then Max(d.endOff, at + n)
         else d.endOff
  {
    var c := FloorUnit(at + n);
    Units(at + n);
    if |d.content| % UNIT == 0 {
      if c == d.endOff { AlignedApart(|d.content|, c); }
      if |d.content| > c + UNIT { AlignedFar(|d.content|, c + UNIT); }
    }
  }

  lemma AlignedFar(a: nat, b: nat)
    requires a % UNIT == 0 && b % UNIT == 0 && b < a
    ensures b + UNIT <= a
  {
  }

  /** A whole number of units of filler at the end. */
  lemma ExtendWhole(s: seq<byte>, n: nat)
    ensures Overwrite(s, |s|, Fill(n, FILLER)) == Grow(s, |s| + n, FILLER)
  {
  }

  // ----- what every call keeps -----

  lemma WriteAtKeepsValid(d: Disk, at: nat, data: seq<byte>)
    requires ValidDisk(d) && at <= |d.content|
    ensures ValidDisk(WriteAt(d, at, data)) && |WriteAt(d, at, data).content| == SizeAfter(|d.content|, at + |data|)
  {
    var end, size := at + |data|, |d.content|;
    CompletedSize(size, at, |data|);
    Units(end);
    Units(size);
    Units(at);
    UnitsAdd(FloorUnit(at), UNIT);
    UnitsAdd(FloorUnit(end), UNIT);
    if size % UNIT == 0 && end % UNIT != 0 && size > FloorUnit(end) { AlignedFar(size, FloorUnit(end)); }
    if size % UNIT == 0 && at % UNIT != 0 && size > FloorUnit(at) { AlignedFar(size, FloorUnit(at)); }
  }

  lemma WriteKeepsValid(d: Disk, data: seq<byte>)
    requires ValidDisk(d)
    ensures ValidDisk(WriteSpec(d, data))
  {
    WriteAtKeepsValid(d, d.cur, data);
  }

  /** An access on a unit boundary is on a block boundary. */
  lemma UnitIsBlocks(a: nat, block: BlockSize)
    requires a % UNIT == 0
    ensures a % block == 0
  {
    var q, k := a / UNIT, UNIT / block;
    assert a == UNIT * q && UNIT == block * k;
    Multiple(block, k, q);
    Divides(block, k * q);
  }

  lemma Multiple(b: nat, k: nat, q: nat)
    ensures b * k * q == b * (k * q)
  {
  }

  lemma Divides(b: nat, n: nat)
    requires 0 < b
    ensures b * n % b == 0
  {
    OffByMultiple(b * n, n, b * n / b, b * n % b, b);
  }

  lemma OffByMultiple(a: nat, n: int, q: int, r: nat, b: nat)
    requires a == b * n && a == b * q + r && r < b
    ensures r == 0
  {
    assert b * (n - q) == r;
    assert n - q >= 1 ==> b * (n - q) == b * (n - q - 1) + b && b * (n - q - 1) >= 0;
    assert n - q <= -1 ==> b * (n - q) == b * (n - q + 1) - b && b * (n - q + 1) <= 0;
  }

  lemma ExtendedIsFull(d: Disk, n: nat, block: BlockSize)
    ensures var d' := UnitsExtended(d, n, block);
      && ValidDisk(d') && |d'.content| == d'.cur == d'.endOff
      && d'.cur == |d.content| + if |d.content| % block == 0 then FloorUnit(n) else 0
  {
    Units(n);
  }

  lemma SeekKeepsValid(d: Disk, offset: int, whence: Whence, block: BlockSize)
    requires ValidDisk(d)
    ensures ValidDisk(SeekSpec(d, offset, whence, block).0)
  {
    var target := SeekPos(d, offset, whence);
    if target > |d.content| {
      var n := target - |d.content|;
      ExtendedIsFull(d, n, block);
      var d' := UnitsExtended(d, n, block);
      WriteAtKeepsValid(d', d'.cur, Fill(n - FloorUnit(n), FILLER));
    }
  }

  // ----- the numbers a write goes by, so that its calls need not divide -----

  /** From the last unit boundary, `m` bytes into a write of `n` at `at`: the sizes it comes to. */
  ghost predicate EndOk(d: Disk, at: nat, n: nat, m: nat, size: nat, end: nat) {
    && (at + m) % UNIT == 0 && n < m + UNIT && d.endOff <= |d.content|
    && (m == n ==> size == Max(|d.content|, at + n) && end == Max(d.endOff, at + n))
    && (m < n ==>
      var c := at + m; var before := Max(|d.content|, c);
      && size == Max(|d.content|, c + UNIT)
      && (c == d.endOff ==> before == c)
      && end == if before < c + UNIT then at + n else if before == c + UNIT then Max(d.endOff, at + n) else d.endOff)
  }

  ghost predicate PartsOk(d: Disk, at: nat, n: nat, k: nat, m: nat, size: nat, end: nat) {
    (at + k) % UNIT == 0 && m % UNIT == 0 && EndOk(d, at, n, k + m, size, end)
  }

  lemma WriteNumbers(d: Disk, at: nat, n: nat)
    requires ValidDisk(d) && at <= |d.content| && !OneUnit(at, n)
    ensures var k := HeadLen(at, n);
      && k <= n && (at % UNIT != 0 ==> at + k == FloorUnit(at) + UNIT && k == UNIT - at % UNIT)
      && k + FloorUnit(n - k) <= n && FloorUnit(n - k) <= n - k
      && PartsOk(d, at, n, k, FloorUnit(n - k), SizeAfter(|d.content|, at + n), EndAfter(|d.content|, d.endOff, at, n))
  {
    var k := HeadLen(at, n);
    HeadMeetsUnit(at, n);
    Units(n - k);
    Units(at + n);
    CompletedSize(|d.content|, at, n);
    if (at + n) % UNIT != 0 { TailEnd(d, at, n); }
  }

  lemma HeadCases(at: nat, n: nat)
    ensures var a := FloorUnit(at); var k := a + UNIT - at;
      && a % UNIT == 0 && a <= at < a + UNIT
      && (OneUnit(at, n) <==> a < at && n <= k)
      && (!OneUnit(at, n) ==> HeadLen(at, n) == if a < at then k else 0)
  {
    Units(at);
  }

  lemma WholeLen(n: nat)
    ensures FloorUnit(n) <= n && (n < UNIT ==> FloorUnit(n) == 0)
  {
    Units(n);
  }

  /** The three ways a write can lie in the units, and the numbers each goes by. */
  lemma WriteCases(d: Disk, at: nat, n: nat)
    requires ValidDisk(d) && at <= |d.content|
    ensures var size, end := SizeAfter(|d.content|, at + n), EndAfter(|d.content|, d.endOff, at, n);
      var a := FloorUnit(at); var k := a + UNIT - at;
      && a % UNIT == 0 && a <= at < a + UNIT
      && (a < at && n <= k ==> size == Max(|d.content|, a + UNIT) && end == d.endOff)
      && (a == at || n > k ==>
          var h := if a < at then k else 0;
          h + FloorUnit(n - h) <= n && (n < UNIT ==> FloorUnit(n - h) == 0)
            && PartsOk(d, at, n, h, FloorUnit(n - h), size, end))
  {
    HeadCases(at, n);
    if OneUnit(at, n) {
      CompletedSize(|d.content|, at, n);
    } else {
      WriteNumbers(d, at, n);
      WholeLen(n - HeadLen(at, n));
    }
  }
}
