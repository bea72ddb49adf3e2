/** The direct-I/O stream's calls, proved to do what the functions of `DirectIo` say. */
module DirectIoStream {
  import opened Bytes
  import opened StreamFile
  import opened DirectIo

  /** A device opened with O_DIRECT: it writes whole blocks at block boundaries from aligned memory,
      counts the writes it refuses, and those asked for that are not whole units at unit boundaries.
      It is read at unit boundaries alone. */
  class Device {
    const block: BlockSize
    var content: seq<byte>
    var pos: nat
    var refused: nat
    var strayed: nat

    constructor (block: BlockSize)
      ensures this.block == block && content == [] && pos == 0 && refused == strayed == 0
    {
      this.block := block;
      content, pos, refused, strayed := [], 0, 0, 0;
    }

    method SeekTo(offset: nat)
      modifies this`pos
      ensures pos == offset
    {
      pos := offset;
    }

    method Read(n: nat) returns (d: seq<byte>)
      requires pos % UNIT == 0 && n % UNIT == 0 && pos <= |content|
      modifies this`pos
      ensures d == content[old(pos)..if old(pos) + n <= |content| then old(pos) + n else |content|]
      ensures pos == old(pos) + |d|
    {
      d := content[pos..if pos + n <= |content| then pos + n else |content|];
      pos := pos + |d|;
    }

    /** Whether the device takes a write of `n` bytes at its position from memory at `address`. */
    predicate Takes(n: nat, address: nat)
      reads this`pos
    {
      pos % block == 0 && n % block == 0 && address % MEMORY_ALIGN == 0
    }

    method Write(d: seq<byte>, address: nat) returns (n: int)
      requires pos <= |content|
      modifies this
      ensures if old(Takes(|d|, address))
        then n == |d| && content == Overwrite(old(content), old(pos), d) && pos == old(pos) + |d|
          && refused == old(refused)
        else n == -1 && content == old(content) && pos == old(pos) && refused == old(refused) + 1
      ensures strayed == old(strayed) + if old(pos) % UNIT == 0 && |d| % UNIT == 0 then 0 else 1
    {
      if pos % UNIT != 0 || |d| % UNIT != 0 {
        strayed := strayed + 1;
      }
      if !Takes(|d|, address) {
        refused := refused + 1;
        return -1;
      }
      content := Overwrite(content, pos, d);
      pos := pos + |d|;
      n := |d|;
    }

    /** A write of whole units at a unit boundary. */
    method WriteUnits(d: seq<byte>, address: nat)
      requires pos % UNIT == 0 && |d| % UNIT == 0 && address % MEMORY_ALIGN == 0 && pos <= |content|
      modifies this
      ensures content == Overwrite(old(content), old(pos), d) && pos == old(pos) + |d|
      ensures refused == old(refused) && strayed == old(strayed)
    {
      UnitIsBlocks(pos, block);
      UnitIsBlocks(|d|, block);
      var _ := Write(d, address);
    }

    method Resize(length: nat)
      modifies this`content
      ensures content == if length <= |old(content)| then old(content)[..length] else Grow(old(content), length, 0)
    {
      content := if length <= |content| then content[..length] else Grow(content, length, 0);
    }
  }

  class DirectIoStream {
    const dev: Device
    const alignBuf: array<byte>
    var curOffset: nat
    var fileEndOffset: nat
    var fileSize: nat
    var ftruncateFlag: bool

    constructor (block: BlockSize)
      ensures Valid() && fresh(dev) && fresh(alignBuf) && dev.block == block
      ensures Value() == Disk([], 0, 0) && dev.refused == dev.strayed == 0
    {
      dev := new Device(block);
      alignBuf := new byte[UNIT](_ => 0);
      curOffset, fileEndOffset, fileSize, ftruncateFlag := 0, 0, 0, false;
    }

    ghost predicate Valid()
      reads this, dev
    {
      alignBuf.Length == UNIT && fileSize == |dev.content| && ValidDisk(Value()) && !ftruncateFlag
    }

    ghost function Value(): Disk
      reads this, dev
    {
      Disk(dev.content, curOffset, fileEndOffset)
    }

    /** Every access so far has been to whole units at unit boundaries, and none refused, since the
        counts were these. */
    ghost predicate Straight(refused: nat, strayed: nat)
      reads dev
    {
      dev.refused == refused && dev.strayed == strayed
    }

    /** What a write from `src` stores: its bytes, or filler when it stands in for ftruncate. */
    ghost predicate Source(src: seq<byte>, data: seq<byte>)
      reads this`ftruncateFlag
    {
      if ftruncateFlag then src == [] && data == Fill(|data|, FILLER) else src == data
    }

    /** The unit read, completed with filler. */
    method Load(d: seq<byte>)
      requires |d| <= alignBuf.Length
      modifies alignBuf
      ensures alignBuf[..] == Grow(d, alignBuf.Length, FILLER)
    {
      forall i | 0 <= i < alignBuf.Length {
        alignBuf[i] := if i < |d| then d[i] else FILLER;
      }
    }

    method Patch(at: nat, d: seq<byte>)
      requires at + |d| <= alignBuf.Length
      modifies alignBuf
      ensures alignBuf[..] == Overwrite(old(alignBuf[..]), at, d)
    {
      forall i | 0 <= i < |d| {
        alignBuf[at + i] := d[i];
      }
    }

    /** Puts the source bytes into the buffered unit at `off` and writes the unit to `a`. */
    method PutBack(a: nat, off: nat, src: seq<byte>, ghost data: seq<byte>)
      requires alignBuf.Length == UNIT && Source(src, data) && off + |data| <= UNIT
      requires a % UNIT == 0 && a <= |dev.content|
      requires ftruncateFlag ==> forall i :: off <= i < UNIT ==> alignBuf[i] == FILLER
      modifies dev, alignBuf
      ensures dev.content == Overwrite(old(dev.content), a, Overwrite(old(alignBuf[..]), off, data))
      ensures dev.pos == a + UNIT && Straight(old(dev.refused), old(dev.strayed))
    {
      ghost var u := alignBuf[..];
      if !ftruncateFlag {
        Patch(off, src);
      }
      assert alignBuf[..] == Overwrite(u, off, data);
      dev.SeekTo(a);
      dev.WriteUnits(alignBuf[..], 0);
    }

    /** The head of a write that starts inside the unit at `a`: read the unit, complete it on the
        device if the file ends inside it, put the bytes in and write it back. */
    method HeadUnit(a: nat, at: nat, src: seq<byte>, ghost data: seq<byte>, n: nat) returns (moved: nat)
      requires alignBuf.Length == UNIT && Source(src, data) && n == |data|
      requires a % UNIT == 0 && a < at < a + UNIT && at <= |dev.content| == fileSize
      requires fileSize % UNIT == 0 || fileEndOffset == fileSize
      requires ftruncateFlag ==> at == fileSize
      modifies this`fileEndOffset, this`fileSize, dev, alignBuf
      ensures moved == if n <= a + UNIT - at then n else a + UNIT - at
      ensures dev.content == Grow(Overwrite(old(dev.content), at, data[..moved]), a + UNIT, FILLER)
      ensures fileSize == |dev.content| && fileEndOffset == old(fileEndOffset)
      ensures dev.pos == a + UNIT && Straight(old(dev.refused), old(dev.strayed))
    {
      ghost var s := dev.content;
      var off := at - a;
      var blockLeft := UNIT - off;
      LoadHead(a);
      ghost var u := alignBuf[..];
      moved := if blockLeft >= n then n else blockLeft;
      PutBack(a, off, if ftruncateFlag then [] else src[..moved], data[..moved]);
      RewriteTwice(s, a, u, Overwrite(u, off, data[..moved]));
      UnitRewrite(s, a, off, data[..moved]);
    }

    /** Reads the unit at `a` into the buffer and, when the file ends inside it, completes it. */
    method LoadHead(a: nat)
      requires alignBuf.Length == UNIT && a % UNIT == 0 && a < |dev.content| == fileSize
      requires fileSize % UNIT == 0 || fileEndOffset == fileSize
      modifies this`fileEndOffset, this`fileSize, dev, alignBuf
      ensures alignBuf[..] == Grow(UnitAt(old(dev.content), a), UNIT, FILLER)
      ensures dev.content == old(dev.content) || dev.content == Overwrite(old(dev.content), a, alignBuf[..])
      ensures |dev.content| == fileSize == Max(|old(dev.content)|, a + UNIT)
      ensures fileEndOffset == old(fileEndOffset) && Straight(old(dev.refused), old(dev.strayed))
    {
      dev.SeekTo(a);
      var unit := dev.Read(UNIT);
      assert unit == UnitAt(dev.content, a);
      Load(unit);
      if |unit| != UNIT {
        if fileSize % UNIT == 0 { AlignedApart(fileSize, a); }
        dev.SeekTo(a);
        dev.WriteUnits(alignBuf[..], 0);
        fileEndOffset := a + |unit|;
        fileSize := a + UNIT;
      }
      dev.SeekTo(a);
    }

    /** One unit of a write from unaligned memory, through the buffer. */
    method CopyUnit(d: seq<byte>)
      requires alignBuf.Length == UNIT == |d| && dev.pos % UNIT == 0 && dev.pos <= |dev.content|
      modifies dev, alignBuf
      ensures dev.content == Overwrite(old(dev.content), old(dev.pos), d)
      ensures dev.pos == old(dev.pos) + UNIT && Straight(old(dev.refused), old(dev.strayed))
    {
      Patch(0, d);
      assert alignBuf[..] == d;
      dev.WriteUnits(alignBuf[..], 0);
    }

    /** The whole units of a write, in one piece from aligned memory and through the buffer otherwise. */
    method MiddleUnits(src: seq<byte>, address: nat)
      requires alignBuf.Length == UNIT
      requires dev.pos % UNIT == 0 && dev.pos <= |dev.content| && |src| % UNIT == 0
      modifies dev, alignBuf
      ensures dev.content == Overwrite(old(dev.content), old(dev.pos), src)
      ensures dev.pos == old(dev.pos) + |src| && Straight(old(dev.refused), old(dev.strayed))
    {
      if address % MEMORY_ALIGN != 0 {
        ghost var s, p := dev.content, dev.pos;
        var done := 0;
        while done < |src|
          invariant 0 <= done <= |src| && done % UNIT == 0
          invariant dev.content == Overwrite(s, p, src[..done])
          invariant dev.pos == p + done && dev.pos % UNIT == 0
          invariant Straight(old(dev.refused), old(dev.strayed))
        {
          AlignedApart(done + UNIT, |src|);
          OverwriteJoin(s, p, src[..done], src[done..done + UNIT]);
          assert src[..done] + src[done..done + UNIT] == src[..done + UNIT];
          CopyUnit(src[done..done + UNIT]);
          done := done + UNIT;
        }
        assert src[..done] == src;
      } else if |src| > 0 {
        dev.WriteUnits(src, address);
      }
    }

    /** The tail of a write, less than a unit: read what is there unless the file ends here, put the
        bytes in front and write the unit; then settle where the file ends. */
    method TailUnit(src: seq<byte>, ghost data: seq<byte>, n: nat)
      requires alignBuf.Length == UNIT && Source(src, data) && n == |data|
      requires 0 < n < UNIT && dev.pos % UNIT == 0 && dev.pos <= |dev.content|
      requires fileEndOffset <= fileSize <= |dev.content| && (fileSize == |dev.content| || dev.pos == |dev.content|)
      requires dev.pos == fileEndOffset ==> |dev.content| == dev.pos
      requires ftruncateFlag ==> dev.pos == |dev.content|
      modifies this`fileEndOffset, this`fileSize, this`curOffset, dev, alignBuf
      ensures dev.content == Grow(Overwrite(old(dev.content), old(dev.pos), data), old(dev.pos) + UNIT, FILLER)
      ensures dev.pos == curOffset == old(dev.pos) + n && Straight(old(dev.refused), old(dev.strayed))
      ensures fileSize == |dev.content|
      ensures fileEndOffset ==
        if |old(dev.content)| < old(dev.pos) + UNIT then old(dev.pos) + n
        else if |old(dev.content)| == old(dev.pos) + UNIT then Max(old(fileEndOffset), old(dev.pos) + n)
        else old(fileEndOffset)
    {
      ghost var s := dev.content;
      var c := dev.pos;
      var des := c + n;
      var unit := [];
      if c != fileEndOffset {
        unit := dev.Read(UNIT);
      }
      assert unit == UnitAt(s, c);
      Load(unit);
      if |unit| != UNIT {
        fileEndOffset := des;
        fileSize := c + UNIT;
      } else if c + UNIT == fileSize {
        if fileEndOffset < des {
          fileEndOffset := des;
        }
      } else {
        assert c + UNIT < fileSize;
      }
      UnitRewrite(s, c, 0, data);
      PutBack(c, 0, src, data);
      dev.SeekTo(des);
      curOffset := des;
    }

    /** A write at `at`, where the device already stands if that is aligned: the function's body
        after the branch that stands in for ftruncate. */
    method WriteFrom(at: nat, src: seq<byte>, ghost data: seq<byte>, n: nat, address: nat)
      requires alignBuf.Length == UNIT && Source(src, data) && n == |data|
      requires fileSize == |dev.content| && at <= fileSize && dev.pos == at
      requires ValidDisk(Disk(dev.content, at, fileEndOffset))
      requires ftruncateFlag ==> at == fileSize && n < UNIT
      modifies this`fileEndOffset, this`fileSize, this`curOffset, dev, alignBuf
      ensures Value() == old(WriteAt(Value(), at, data))
      ensures fileSize == |dev.content| && dev.pos == curOffset && Straight(old(dev.refused), old(dev.strayed))
    {
      ghost var size, end := SizeAfter(|dev.content|, at + n), EndAfter(|dev.content|, fileEndOffset, at, n);
      WriteCases(Disk(dev.content, at, fileEndOffset), at, n);
      var a := FloorUnit(at);
      if at == a {
        assert Overwrite(dev.content, at, data[..0]) == dev.content;
        WriteRest(Disk(dev.content, at, fileEndOffset), at, src, data, n, 0, FloorUnit(n), address, size, end);
      } else if n <= a + UNIT - at {
        WriteInUnit(a, at, src, data, n, size);
      } else {
        var k := a + UNIT - at;
        WriteAcross(a, at, src, data, n, k, FloorUnit(n - k), address, size, end);
      }
    }

    /** A write that starts inside the unit at `a` and does not leave it. The end is not moved. */
    method WriteInUnit(a: nat, at: nat, src: seq<byte>, ghost data: seq<byte>, n: nat, ghost size: nat)
      requires alignBuf.Length == UNIT && Source(src, data) && n == |data|
      requires a % UNIT == 0 && a < at && at + n <= a + UNIT && at < a + UNIT && at <= |dev.content| == fileSize
      requires fileSize % UNIT == 0 || fileEndOffset == fileSize
      requires ftruncateFlag ==> at == fileSize
      requires size == Max(|dev.content|, a + UNIT)
      modifies this`fileEndOffset, this`fileSize, this`curOffset, dev, alignBuf
      ensures Value() == old(Disk(Grow(Overwrite(dev.content, at, data), size, FILLER), at + n, fileEndOffset))
      ensures fileSize == |dev.content| && dev.pos == curOffset && Straight(old(dev.refused), old(dev.strayed))
    {
      SameGrowth(Overwrite(dev.content, at, data), a + UNIT, size);
      assert data[..n] == data;
      var _ := HeadUnit(a, at, src, data, n);
      dev.SeekTo(at + n);
      curOffset := at + n;
    }

    /** A write that starts inside the unit at `a` and leaves it after `k` bytes. */
    method WriteAcross(a: nat, at: nat, src: seq<byte>, ghost data: seq<byte>, n: nat, k: nat, m: nat, address: nat,
        ghost size: nat, ghost end: nat)
      requires alignBuf.Length == UNIT && Source(src, data) && n == |data| && k + m <= n
      requires a % UNIT == 0 && a < at < a + UNIT == at + k && at <= |dev.content| == fileSize
      requires fileSize % UNIT == 0 || fileEndOffset == fileSize
      requires PartsOk(Disk(dev.content, at, fileEndOffset), at, n, k, m, size, end)
      requires ftruncateFlag ==> at == |dev.content| && m == 0
      modifies this`fileEndOffset, this`fileSize, this`curOffset, dev, alignBuf
      ensures Value() == old(Disk(Grow(Overwrite(dev.content, at, data), size, FILLER), at + n, end))
      ensures fileSize == |dev.content| && dev.pos == curOffset && Straight(old(dev.refused), old(dev.strayed))
    {
      ghost var d := Disk(dev.content, at, fileEndOffset);
      var moved := HeadUnit(a, at, src, data, n);
      assert moved == k && dev.content == Overwrite(d.content, at, data[..k]);
      WriteRest(d, at, src, data, n, k, m, address, size, end);
    }

    /** The rest of a write, from the unit boundary `k` bytes into it: `m` bytes of whole units and
        what is then left. `size` and `end` are the physical and logical ends it comes to. */
    method WriteRest(ghost d: Disk, at: nat, src: seq<byte>, ghost data: seq<byte>, n: nat, k: nat, m: nat,
        address: nat, ghost size: nat, ghost end: nat)
      requires alignBuf.Length == UNIT && Source(src, data) && n == |data| && k + m <= n
      requires at <= |d.content| && fileEndOffset == d.endOff && PartsOk(d, at, n, k, m, size, end)
      requires dev.pos == at + k && dev.content == Overwrite(d.content, at, data[..k]) && fileSize == |dev.content|
      requires ftruncateFlag ==> at == |d.content| && m == 0
      modifies this`fileEndOffset, this`fileSize, this`curOffset, dev, alignBuf
      ensures Value() == Disk(Grow(Overwrite(d.content, at, data), size, FILLER), at + n, end)
      ensures fileSize == |dev.content| && dev.pos == curOffset && Straight(old(dev.refused), old(dev.strayed))
    {
      PiecesJoin(d.content, at, data, k, m);
      if ftruncateFlag {
        assert data[k..k + 0] == [];
        MiddleUnits([], address + k);
        WriteEnd(d, at, [], data, n, k, size, end);
      } else {
        MiddleUnits(src[k..k + m], address + k);
        WriteEnd(d, at, src[k + m..], data, n, k + m, size, end);
      }
    }

    /** The end of a write, from the last unit boundary in it: less than a unit, or nothing. */
    method WriteEnd(ghost d: Disk, at: nat, src: seq<byte>, ghost data: seq<byte>, n: nat, m: nat, ghost size: nat,
        ghost end: nat)
      requires alignBuf.Length == UNIT && n == |data| && m <= n && Source(src, data[m..])
      requires at <= |d.content| && fileEndOffset == d.endOff && EndOk(d, at, n, m, size, end)
      requires dev.pos == at + m && dev.content == Overwrite(d.content, at, data[..m])
      requires |d.content| <= fileSize <= |dev.content| && (fileSize == |dev.content| || dev.pos == |dev.content|)
      requires ftruncateFlag ==> at == |d.content|
      modifies this`fileEndOffset, this`fileSize, this`curOffset, dev, alignBuf
      ensures Value() == Disk(Grow(Overwrite(d.content, at, data), size, FILLER), at + n, end)
      ensures fileSize == |dev.content| && dev.pos == curOffset && Straight(old(dev.refused), old(dev.strayed))
    {
      PiecesJoin(d.content, at, data, m, 0);
      assert data[..m + 0] == data[..m] && data[m + 0..] == data[m..];
      if m < n {
        SameGrowth(Overwrite(d.content, at, data), dev.pos + UNIT, size);
        TailUnit(src, data[m..], n - m);
      } else {
        assert data[..m] == data;
        SameGrowth(Overwrite(d.content, at, data), 0, size);
        NoTail();
      }
    }

    /** A write that ends on a unit boundary settles both ends by where the device stands. */
    method NoTail()
      modifies this`fileEndOffset, this`fileSize, this`curOffset
      ensures curOffset == dev.pos
      ensures fileSize == Max(old(fileSize), dev.pos) && fileEndOffset == Max(old(fileEndOffset), dev.pos)
    {
      curOffset := dev.pos;
      if fileSize < curOffset { fileSize := curOffset; }
      if fileEndOffset < curOffset { fileEndOffset := curOffset; }
    }

    /** `write(ptr, 1, |data|)` from memory at `address`. */
    method Write(data: seq<byte>, address: nat) returns (r: int)
      requires Valid()
      modifies this`fileEndOffset, this`fileSize, this`curOffset, dev, alignBuf
      ensures Valid() && Value() == WriteSpec(old(Value()), data)
      ensures r == |data| && Straight(old(dev.refused), old(dev.strayed))
    {
      WriteKeepsValid(Value(), data);
      dev.SeekTo(curOffset);
      WriteFrom(curOffset, data, data, |data|, address);
      r := |data|;
    }

    /** The whole units of an extension; the device refuses them when the file ends off its blocks. */
    method ExtendUnits(whole: nat, ghost d: Disk, ghost n: nat)
      requires fileSize == |dev.content| == dev.pos == fileEndOffset && whole % UNIT == 0
      requires whole == FloorUnit(n) && d.content == dev.content
      modifies this`fileEndOffset, this`fileSize, dev
      ensures fileSize == fileEndOffset == |dev.content| == dev.pos
      ensures Disk(dev.content, fileSize, fileEndOffset) == UnitsExtended(d, n, dev.block)
      ensures dev.refused == old(dev.refused) + if old(fileSize) % dev.block == 0 || whole == 0 then 0 else 1
      ensures dev.strayed == old(dev.strayed) + if old(fileSize) % UNIT == 0 || whole == 0 then 0 else 1
    {
      if whole > 0 {
        ExtendWhole(dev.content, whole);
        UnitIsBlocks(whole, dev.block);
        var filler := Fill(whole, FILLER);
        var _ := dev.Write(filler, 0);
        fileSize := dev.pos;
        fileEndOffset := fileSize;
      }
    }

    /** `write(NULL, 1, n)` with the flag up: the file is extended by filler. */
    method Extend(n: nat)
      requires alignBuf.Length == UNIT && fileSize == |dev.content| && ftruncateFlag && 0 < n
      modifies this`fileEndOffset, this`fileSize, this`curOffset, dev, alignBuf
      ensures Value().(cur := dev.pos) == ExtendSpec(old(Value()), |old(dev.content)| + n, dev.block)
      ensures fileSize == |dev.content|
      ensures dev.refused == old(dev.refused) + if |old(dev.content)| % dev.block != 0 && UNIT <= n then 1 else 0
      ensures dev.strayed == old(dev.strayed) + if |old(dev.content)| % UNIT != 0 && UNIT <= n then 1 else 0
    {
      ghost var d := Value();
      var whole := FloorUnit(n);
      Units(n);
      dev.SeekTo(|dev.content|);
      fileEndOffset := fileSize;
      ExtendUnits(whole, d, n);
      ExtendRest(n - whole);
    }

    /** The part of an extension that is less than a unit. */
    method ExtendRest(left: nat)
      requires alignBuf.Length == UNIT && ftruncateFlag && left < UNIT
      requires fileSize == |dev.content| == fileEndOffset == dev.pos
      modifies this`fileEndOffset, this`fileSize, this`curOffset, dev, alignBuf
      ensures fileSize == |dev.content| && Straight(old(dev.refused), old(dev.strayed))
      ensures var d' := Disk(old(dev.content), old(fileSize), old(fileEndOffset));
        Value().(cur := dev.pos) == if left == 0 then d' else WriteAt(d', d'.cur, Fill(left, FILLER))
    {
      if left > 0 {
        WriteFrom(fileSize, [], Fill(left, FILLER), left, 0);
      }
    }

    method Seek(offset: int, whence: Whence) returns (r: int)
      requires Valid()
      modifies this, dev, alignBuf
      ensures (Value(), r) == SeekSpec(old(Value()), offset, whence, dev.block)
      ensures Valid()
      ensures var n := SeekPos(old(Value()), offset, whence) - |old(dev.content)|;
        && (dev.refused > old(dev.refused) <==> |old(dev.content)| % dev.block != 0 && n >= UNIT)
        && (dev.strayed > old(dev.strayed) <==> |old(dev.content)| % UNIT != 0 && n >= UNIT)
    {
      SeekKeepsValid(Value(), offset, whence, dev.block);
      var target := SeekTarget(offset, whence);
      if target > fileSize {
        ftruncateFlag := true;
        Extend(target - fileSize);
        ftruncateFlag := false;
        curOffset := dev.pos;
        r := 0;
      } else if target < 0 {
        r := -1;
      } else {
        dev.SeekTo(target);
        curOffset := dev.pos;
        r := 0;
      }
    }

    /** The absolute position a seek asks for; from the end, the slack of the last unit is taken off. */
    method SeekTarget(offset: int, whence: Whence) returns (target: int)
      requires Valid()
      ensures target == SeekPos(Value(), offset, whence)
    {
      match whence {
        case Set => target := offset;
        case Cur => target := offset + curOffset;
        case End =>
          var o := offset;
          if fileEndOffset < fileSize { o := o - (fileSize - fileEndOffset); }
          target := o + fileSize;
      }
    }

    method Tell() returns (pos: nat)
      ensures pos == curOffset
    {
      pos := curOffset;
    }

    /** An explicit truncate leaves the position where it was, which may then be past the end. */
    method Truncate(length: nat)
      requires Valid()
      modifies this`fileSize, this`fileEndOffset, dev`content
      ensures Value() == TruncateSpec(old(Value()), length)
      ensures Valid() <==> curOffset <= length
    {
      dev.Resize(length);
      fileSize := length;
      fileEndOffset := length;
    }

    /** Destroying the stream cuts the slack of the last unit off. */
    method Destroy()
      requires Valid()
      modifies this`fileSize, dev`content
      ensures dev.content == DestroySpec(old(Value()))
    {
      if fileEndOffset < fileSize {
        dev.Resize(fileEndOffset);
        fileSize := fileEndOffset;
      }
    }
  }
}
