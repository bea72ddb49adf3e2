/** When following the indexes leads to the frames, and when they fit where `open` left room. */
module AviIndexExact {
  import opened Bytes
  import opened AviIndex

  /** The file position an index entry stands for. */
  function Address(idx: seq<StdIndex>, j: nat, e: nat): nat
    requires j < |idx| && e < |idx[j].entries|
  {
    idx[j].base + idx[j].entries[e].offset
  }

  /** Frames one after another in the file, after some header. */
  ghost predicate Ascending(frames: seq<Frame>) {
    && (forall i :: 0 <= i < |frames| ==> frames[i].pos > 0)
    && forall i, j :: 0 <= i < j < |frames| ==> frames[i].pos < frames[j].pos
  }

  // ----- one stream -----

  ghost predicate OneStream(frames: seq<Frame>) {
    forall i :: 0 <= i < |frames| ==> frames[i].stream == 0
  }

  /** Each entry's offset is from the base of the index it is in. */
  ghost predicate OwnOffsets(idx: seq<StdIndex>, own: seq<Frame>) {
    Shape(idx, own) &&
    forall j, e {:trigger idx[j].entries[e]} :: 0 <= j < |idx| && 0 <= e < |idx[j].entries| ==>
      idx[j].entries[e].offset == Offset32(own[PER_INDEX * j + e].pos, idx[j].base)
  }

  lemma AddedOffsets(x: Indexes, f: Frame, own: seq<Frame>)
    requires |x.streams| == 1 && Wf(x) && f.stream == 0 && OwnOffsets(x.streams[0], own)
      && x.currBase == Last(x.streams[0]).base
    ensures OwnOffsets(AddEntry(x, f).streams[0], own + [f])
      && AddEntry(x, f).currBase == Last(AddEntry(x, f).streams[0]).base
  {
    AddedShape(x, f, own);
    Counts(|own|);
    var idx, idx' := x.streams[0], AddEntry(x, f).streams[0];
    var last := |idx'| - 1;
    assert forall j {:trigger idx'[j]} :: 0 <= j < last ==> idx'[j] == idx[j];
    forall j, e {:trigger idx'[j].entries[e]} | 0 <= j < |idx'| && 0 <= e < |idx'[j].entries|
      ensures idx'[j].entries[e].offset == Offset32((own + [f])[PER_INDEX * j + e].pos, idx'[j].base)
    {
      if PER_INDEX * j + e < |own| {
        assert idx'[j].entries[e] == idx[j].entries[e] && idx'[j].base == idx[j].base;
      }
    }
  }

  lemma {:induction false} SoleStreamOffsets(frames: seq<Frame>)
    requires OneStream(frames)
    ensures OwnOffsets(Build(1, frames).streams[0], frames)
    ensures Build(1, frames).currBase == Last(Build(1, frames).streams[0]).base
    decreases |frames|
  {
    if frames != [] {
      var k := |frames| - 1;
      SoleStreamOffsets(frames[..k]);
      AddedOffsets(Build(1, frames[..k]), frames[k], frames[..k]);
      assert frames[..k] + [frames[k]] == frames;
    }
  }

  /** The first frame of the standard index frame `k` falls in decides the base: none for the first index. */
  function GroupBase(frames: seq<Frame>, k: nat): nat
    requires k < |frames|
  {
    if k < PER_INDEX then 0 else frames[k / PER_INDEX * PER_INDEX].pos
  }

  lemma EntryAt(frames: seq<Frame>, j: nat, e: nat)
    requires OneStream(frames) && Ascending(frames)
    requires j < IndexCount(|frames|) && e < PER_INDEX && PER_INDEX * j + e < |frames|
    ensures var idx := Build(1, frames).streams[0]; var f := frames[PER_INDEX * j + e];
      && j < |idx| && e < |idx[j].entries| && idx[j].entries[e].size == f.len
      && idx[j].base == (if j == 0 then 0 else frames[PER_INDEX * j].pos)
      && (Address(idx, j, e) == f.pos + 8 <==> f.pos + 8 - idx[j].base < WORD)
  {
    SoleStreamOffsets(frames);
    var idx := Build(1, frames).streams[0];
    var f := frames[PER_INDEX * j + e];
    assert idx[j].entries[e].offset == Offset32(f.pos, idx[j].base);
    OffsetExact(f.pos, idx[j].base);
  }

  /** With one stream, over any number of index roll-overs, entry `k % 2043` of index `k / 2043`
      has frame `k`'s length, and leads to its data exactly when the data starts within 32 bits of
      the index's base. */
  lemma EntryExactIff(frames: seq<Frame>, k: nat)
    requires OneStream(frames) && Ascending(frames) && k < |frames|
    ensures var idx := Build(1, frames).streams[0]; var j, e := k / PER_INDEX, k % PER_INDEX;
      && j < |idx| && e < |idx[j].entries| && idx[j].entries[e].size == frames[k].len
      && (Address(idx, j, e) == frames[k].pos + 8 <==> frames[k].pos + 8 - GroupBase(frames, k) < WORD)
  {
    EntryPlace(|frames|, k);
    EntryAt(frames, k / PER_INDEX, k % PER_INDEX);
  }

  lemma OffsetExact(pos: nat, base: nat)
    requires base <= pos + 8
    ensures base + Offset32(pos, base) == pos + 8 <==> pos + 8 - base < WORD
  {
  }

  lemma EntryPlace(f: nat, k: nat)
    requires k < f
    ensures k / PER_INDEX < IndexCount(f)
    ensures k / PER_INDEX + 1 == IndexCount(f) ==> k % PER_INDEX < f - PER_INDEX * (k / PER_INDEX)
  {
  }

  // ----- several streams -----

  /** The stream that last began a new index, or -1. */
  function Roller(n: nat, frames: seq<Frame>): int
    requires forall i :: 0 <= i < |frames| ==> frames[i].stream < n
    decreases |frames|
  {
    if frames == [] then -1
    else
      var k := |frames| - 1;
      if Full(Last(Build(n, frames[..k]).streams[frames[k].stream])) then frames[k].stream else Roller(n, frames[..k])
  }

  /** The shared base is the base of the last roller's index, and every other stream's is lower. */
  ghost predicate BaseOfRoller(x: Indexes, roller: int, bound: nat) {
    && Wf(x) && roller < |x.streams| && x.currBase <= bound
    && (roller < 0 ==>
          x.currBase == 0 && forall s :: 0 <= s < |x.streams| ==> |x.streams[s]| == 1 && Last(x.streams[s]).base == 0)
    && (roller >= 0 ==> Last(x.streams[roller]).base == x.currBase > 0)
    && (roller >= 0 ==> forall s :: 0 <= s < |x.streams| && s != roller ==> Last(x.streams[s]).base < x.currBase)
  }

  lemma AddedBase(x: Indexes, f: Frame, roller: int, bound: nat)
    requires BaseOfRoller(x, roller, bound) && f.stream < |x.streams| && bound < f.pos
    ensures BaseOfRoller(AddEntry(x, f), if Full(Last(x.streams[f.stream])) then f.stream else roller, f.pos)
  {
    var x' := AddEntry(x, f);
    forall s | 0 <= s < |x.streams| && s != f.stream ensures x'.streams[s] == x.streams[s] {
    }
  }

  lemma {:induction false} BaseIsRollers(n: nat, frames: seq<Frame>)
    requires Ascending(frames) && forall i :: 0 <= i < |frames| ==> frames[i].stream < n
    ensures BaseOfRoller(Build(n, frames), Roller(n, frames), if frames == [] then 0 else Last(frames).pos)
    decreases |frames|
  {
    if frames != [] {
      var k := |frames| - 1;
      BaseIsRollers(n, frames[..k]);
      AddedBase(Build(n, frames[..k]), frames[k], Roller(n, frames[..k]), if k == 0 then 0 else frames[k - 1].pos);
    }
  }

  /** With several streams, the entry a frame gets leads to its data exactly when its stream was
      the last to begin a new index, or none has: the base it is counted from is shared. */
  lemma SharedBaseExactIff(n: nat, frames: seq<Frame>)
    requires frames != [] && Ascending(frames) && forall i :: 0 <= i < |frames| ==> frames[i].stream < n
    requires Last(frames).pos + 8 - Build(n, frames).currBase < WORD
    ensures var f := Last(frames); var idx := Build(n, frames).streams[f.stream]; var j := |idx| - 1;
      && idx[j].entries != []
      && (Address(idx, j, |idx[j].entries| - 1) == f.pos + 8 <==>
            Roller(n, frames) == -1 || Roller(n, frames) == f.stream)
  {
    BaseIsRollers(n, frames);
    var k := |frames| - 1;
    RollerRange(n, frames);
    LastAdded(Build(n, frames[..k]), frames[k]);
    OffsetExact(frames[k].pos, Build(n, frames).currBase);
  }

  lemma LastAdded(x: Indexes, f: Frame)
    requires Wf(x) && f.stream < |x.streams|
    ensures var x' := AddEntry(x, f); var last := Last(x'.streams[f.stream]);
      last.entries != [] && Last(last.entries).offset == Offset32(f.pos, x'.currBase)
  {
  }

  lemma {:induction false} RollerRange(n: nat, frames: seq<Frame>)
    requires forall i :: 0 <= i < |frames| ==> frames[i].stream < n
    ensures -1 <= Roller(n, frames) < n
    decreases |frames|
  {
    if frames != [] {
      RollerRange(n, frames[..|frames| - 1]);
    }
  }

  lemma {:induction false} OnlyZeroRolls(n: nat, frames: seq<Frame>)
    requires 0 < n && OneStream(frames)
    ensures Roller(n, frames) == -1 || Roller(n, frames) == 0
    ensures OfStream(frames, 0) == frames
    decreases |frames|
  {
    if frames != [] {
      OnlyZeroRolls(n, frames[..|frames| - 1]);
    }
  }

  /** So a sound chunk after a picture stream's first roll-over, at its 2044th frame, is misplaced. */
  lemma SoundAfterRollIsMisplaced(frames: seq<Frame>, sound: Frame)
    requires OneStream(frames) && |frames| > PER_INDEX && sound.stream == 1 && Ascending(frames + [sound])
    requires sound.pos + 8 - Build(2, frames + [sound]).currBase < WORD
    ensures var idx := Build(2, frames + [sound]).streams[1]; var j := |idx| - 1;
      idx[j].entries != [] && Address(idx, j, |idx[j].entries| - 1) != sound.pos + 8
  {
    var all := frames + [sound];
    assert all[..|all| - 1] == frames;
    assert forall i :: 0 <= i < |frames| ==> frames[i] == all[i];
    SharedBaseExactIff(2, all);
    PictureHasRolled(frames);
  }

  lemma PictureHasRolled(frames: seq<Frame>)
    requires OneStream(frames) && |frames| > PER_INDEX && Ascending(frames)
    ensures Roller(2, frames) == 0 && !Full(Last(Build(2, frames).streams[1]))
  {
    OnlyZeroRolls(2, frames);
    BuildShape(2, frames, 0);
    BuildShape(2, frames, 1);
    NoneOfOne(frames);
    BaseIsRollers(2, frames);
    assert IndexCount(|frames|) > 1;
  }

  lemma {:induction false} NoneOfOne(frames: seq<Frame>)
    requires OneStream(frames)
    ensures OfStream(frames, 1) == []
    decreases |frames|
  {
    if frames != [] {
      NoneOfOne(frames[..|frames| - 1]);
    }
  }

  // ----- room for the super index -----

  /** How many standard indexes `open` leaves room for, and how many frames it then allows. */
  function Reserved(frameCount: nat): nat {
    if frameCount == 0 then DEFAULT_INDEXES else (frameCount + PER_INDEX_RESERVED - 1) / PER_INDEX_RESERVED
  }

  function FrameLimit(frameCount: nat): nat {
    if frameCount == 0 then DEFAULT_INDEXES * PER_INDEX_RESERVED else frameCount
  }

  /** The super index of a file with `f` frames stays in the room left for it. */
  predicate SuperFits(frameCount: nat, f: nat) {
    SUPER_HEAD + SUPER_ENTRY * IndexCount(f) <= SUPER_HEAD + SUPER_ENTRY * Reserved(frameCount)
  }

  lemma FitsIff(frameCount: nat, f: nat)
    requires 0 < f
    ensures SuperFits(frameCount, f) <==> f <= PER_INDEX * Reserved(frameCount)
  {
  }

  /** Every number of frames the writer will take fits exactly when the limit is at most 2043 times
      the indexes reserved, though the reservation divides by 2044. */
  lemma AlwaysFitsIff(frameCount: nat)
    ensures (forall f :: 0 < f <= FrameLimit(frameCount) ==> SuperFits(frameCount, f))
      <==> FrameLimit(frameCount) <= PER_INDEX * Reserved(frameCount)
  {
    FitsIff(frameCount, FrameLimit(frameCount));
    forall f | 0 < f <= FrameLimit(frameCount) && FrameLimit(frameCount) <= PER_INDEX * Reserved(frameCount)
      ensures SuperFits(frameCount, f)
    {
      FitsIff(frameCount, f);
    }
  }

  /** It holds for up to 2043 frames announced, and not for 2044, nor when none are announced. */
  lemma ReservationGaps(frameCount: nat)
    ensures 0 < frameCount <= PER_INDEX ==> FrameLimit(frameCount) <= PER_INDEX * Reserved(frameCount)
    ensures !SuperFits(2044, 2044) && !SuperFits(0, FrameLimit(0))
    ensures Reserved(2044) == 1 && Reserved(2045) == 2 && Reserved(0) == 128 && FrameLimit(0) == 261632
  {
  }
}
