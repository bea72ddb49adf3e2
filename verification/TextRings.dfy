/** The text encoder's two rings of packets: a source puts texts in, one encoder moves them from the
    input ring to the output ring, and a consumer takes packets out and releases them. Steps are what
    happens under one lock, or between two. */
module TextRings {
  import opened Bytes

  const COUNT := 10

  /** What a source hands over: a text, or nothing (a null buffer or a size that is not positive). */
  datatype Input = Text(text: seq<byte>) | Nothing

  datatype InSlot = InSlot(text: seq<byte>, pts: int)

  datatype OutSlot = OutSlot(text: seq<byte>, pts: int, id: nat)

  const BLANK: seq<byte> := []

  /** Where the encoder is: idle, having seen a text waiting, having seen a slot free, having read the
      slot's number, having cleared the slot, having filled it. */
  datatype Encoder = Idle | InSeen | OutSeen | Chosen(wid: nat) | Cleared(wid: nat) | Filled(wid: nat)

  /** Both rings and, for what is proved about runs, their history: the texts accepted, the packets
      handed to the consumer, and how many were encoded, published and released. */
  datatype State = State(
    inSlots: seq<InSlot>, inWrite: nat, inRead: nat, inUsed: int,
    outSlots: seq<OutSlot>, outWrite: nat, outRead: nat, outUsed: int, prefetch: int,
    basePts: int, pts: int, textOn: bool,
    enc: Encoder, held: seq<nat>,
    accepted: seq<seq<byte>>, delivered: seq<OutSlot>, encoded: nat, published: nat, released: nat)

  function Init(textOn: bool): State {
    State(Fill(COUNT, InSlot(BLANK, 0)), 0, 0, 0, Fill(COUNT, OutSlot(BLANK, 0, 0)), 0, 0, 0, 0, 0, 0, textOn,
          Idle, [], [], [], 0, 0, 0)
  }

  predicate Shaped(s: State) {
    && |s.inSlots| == COUNT && |s.outSlots| == COUNT
    && s.inWrite < COUNT && s.inRead < COUNT && s.outWrite < COUNT && s.outRead < COUNT
    && ((s.enc.Chosen? || s.enc.Cleared? || s.enc.Filled?) ==> s.enc.wid < COUNT)
  }

  datatype Step = Write(input: Input) | CheckIn | CheckOut | Choose | Clear | FillSlot | Publish | Request | Release

  /** `RequestWriteBuf`, under the input lock: a full ring refuses; nothing handed over queues the slot
      with whatever it still holds. */
  function Written(s: State, input: Input): (s': State)
    requires Shaped(s)
    ensures Shaped(s') && s'.textOn == s.textOn
  {
    if s.inUsed >= COUNT then s
    else
      var slots := if input.Text? then s.inSlots[s.inWrite := InSlot(input.text, 0)] else s.inSlots;
      s.(inSlots := slots, inUsed := s.inUsed + 1, inWrite := (s.inWrite + 1) % COUNT,
         accepted := s.accepted + [slots[s.inWrite].text])
  }

  /** The steps of `TextEncodePro`; the two in the middle are outside the output lock. */
  function Encoding(s: State, step: Step): (s': State)
    requires Shaped(s)
    ensures Shaped(s') && s'.textOn == s.textOn
  {
    match (step, s.enc)
    case (CheckIn, Idle) => if s.inUsed == 0 then s else s.(enc := InSeen)
    case (CheckOut, InSeen) => if s.outUsed >= COUNT then s.(enc := Idle) else s.(enc := OutSeen)
    case (Choose, OutSeen) => s.(enc := Chosen(s.outWrite))
    case (Clear, Chosen(wid)) => s.(outSlots := s.outSlots[wid := s.outSlots[wid].(text := BLANK)], enc := Cleared(wid))
    case (FillSlot, Cleared(wid)) => SlotFilled(s, wid)
    case (Publish, Filled(wid)) => Published(s, wid)
    case _ => s
  }

  /** `FillOneFrame`, under the input lock. */
  function SlotFilled(s: State, wid: nat): (s': State)
    requires Shaped(s) && wid < COUNT
    ensures Shaped(s') && s'.textOn == s.textOn
  {
    var from := s.inSlots[s.inRead];
    var base := if s.basePts == 0 then from.pts else s.basePts;
    s.(basePts := base, pts := from.pts - base,
       outSlots := if s.textOn then s.outSlots[wid := s.outSlots[wid].(text := from.text)] else s.outSlots,
       inUsed := s.inUsed - 1, inRead := (s.inRead + 1) % COUNT, encoded := s.encoded + 1, enc := Filled(wid))
  }

  function Published(s: State, wid: nat): (s': State)
    requires Shaped(s) && wid < COUNT
    ensures Shaped(s') && s'.textOn == s.textOn
  {
    s.(outSlots := s.outSlots[wid := OutSlot(s.outSlots[wid].text, s.pts, wid)],
       outWrite := (s.outWrite + 1) % COUNT, outUsed := s.outUsed + 1, prefetch := s.prefetch + 1,
       published := s.published + 1, enc := Idle)
  }

  /** `RequestTextEncBuf`: the consumer now holds the slot. */
  function Requested(s: State): (s': State)
    requires Shaped(s)
    ensures Shaped(s') && s'.textOn == s.textOn
  {
    if s.prefetch <= 0 then s
    else s.(outRead := (s.outRead + 1) % COUNT, prefetch := s.prefetch - 1,
            held := s.held + [s.outRead], delivered := s.delivered + [s.outSlots[s.outRead]])
  }

  /** `ReleaseTextEncBuf`, by a consumer that releases what it has held longest. The check of the
      packet against the slot only logs. */
  function Released(s: State): (s': State)
    requires Shaped(s)
    ensures Shaped(s') && s'.textOn == s.textOn
  {
    if s.held == [] || s.outUsed == 0 then s
    else s.(outUsed := s.outUsed - 1, held := s.held[1..], released := s.released + 1)
  }

  function Next(s: State, step: Step): (s': State)
    requires Shaped(s)
    ensures Shaped(s') && s'.textOn == s.textOn
  {
    match step
    case Write(input) => Written(s, input)
    case Request => Requested(s)
    case Release => Released(s)
    case _ => Encoding(s, step)
  }

  function Run(s: State, steps: seq<Step>): (s': State)
    requires Shaped(s)
    ensures Shaped(s') && s'.textOn == s.textOn
    decreases |steps|
  {
    if steps == [] then s else Next(Run(s, steps[..|steps| - 1]), steps[|steps| - 1])
  }

  // ----- the invariant -----

  /** The packet text `k` becomes. */
  function Packet(s: State, k: nat): OutSlot
    requires k < |s.accepted|
  {
    OutSlot(if s.textOn then s.accepted[k] else BLANK, 0, k % COUNT)
  }

  predicate Busy(e: Encoder) {
    e.OutSeen? || e.Chosen? || e.Cleared? || e.Filled?
  }

  predicate Counts(s: State) {
    && s.inUsed == |s.accepted| - s.encoded && 0 <= s.inUsed <= COUNT
    && s.inWrite == |s.accepted| % COUNT && s.inRead == s.encoded % COUNT
    && s.outUsed == s.published - s.released && s.prefetch == s.published - |s.delivered|
    && s.released <= |s.delivered| <= s.published <= s.released + COUNT
    && s.outWrite == s.published % COUNT && s.outRead == |s.delivered| % COUNT
    && s.encoded == s.published + (if s.enc.Filled? then 1 else 0)
    && (!s.enc.Idle? && !s.enc.Filled? ==> s.inUsed > 0)
    && (Busy(s.enc) ==> s.outUsed < COUNT)
    && ((s.enc.Chosen? || s.enc.Cleared? || s.enc.Filled?) ==> s.enc.wid == s.published % COUNT)
  }

  /** Each input slot holds the last text accepted into it, or is as it was cleared. */
  ghost predicate Inputs(s: State)
    requires Shaped(s)
  {
    && (forall k :: 0 <= k < |s.accepted| && |s.accepted| - COUNT <= k ==> s.inSlots[k % COUNT].text == s.accepted[k])
    && (forall i :: 0 <= i < COUNT && |s.accepted| <= i ==> s.inSlots[i].text == BLANK)
    && (forall i :: 0 <= i < COUNT ==> s.inSlots[i].pts == 0) && s.basePts == 0 && s.pts == 0
  }

  /** Every slot published and not released holds its packet; so does what was handed out; the slot
      under way holds what has been done of it. */
  ghost predicate Outputs(s: State)
    requires Shaped(s) && Counts(s)
  {
    && (forall k :: s.released <= k < s.published ==> s.outSlots[k % COUNT] == Packet(s, k))
    && (forall k :: 0 <= k < |s.delivered| ==> s.delivered[k] == Packet(s, k))
    && |s.held| == |s.delivered| - s.released
    && (forall i :: 0 <= i < |s.held| ==> s.held[i] == (s.released + i) % COUNT)
    && (s.enc.Cleared? ==> s.outSlots[s.enc.wid].text == BLANK)
    && (s.enc.Filled? ==> s.outSlots[s.enc.wid].text == Packet(s, s.published).text)
  }

  ghost predicate Inv(s: State) {
    Shaped(s) && Counts(s) && Inputs(s) && Outputs(s)
  }

  lemma SlotsApart(a: nat, b: nat)
    requires a < b < a + COUNT
    ensures a % COUNT != b % COUNT
  {
  }

  lemma NextSlot(a: nat)
    ensures (a % COUNT + 1) % COUNT == (a + 1) % COUNT
  {
  }

  lemma InitInv(textOn: bool)
    ensures Inv(Init(textOn))
  {
  }

  // ----- each step keeps it -----

  lemma WrittenInputs(s: State, input: Input)
    requires Inv(s)
    ensures Inputs(Written(s, input))
  {
    var s' := Written(s, input);
    if s.inUsed < COUNT {
      var n := |s.accepted|;
      forall k | 0 <= k < n + 1 && n + 1 - COUNT <= k ensures s'.inSlots[k % COUNT].text == s'.accepted[k] {
        if k < n { SlotsApart(k, n); }
      }
    }
  }

  lemma WrittenKeeps(s: State, input: Input)
    requires Inv(s)
    ensures Inv(Written(s, input))
  {
    var s' := Written(s, input);
    WrittenInputs(s, input);
    NextSlot(|s.accepted|);
    forall k | 0 <= k < |s.accepted| ensures Packet(s', k) == Packet(s, k) {
    }
  }

  /** The slot under way is none that is published and not released. */
  lemma UnderWayApart(s: State, k: nat)
    requires Inv(s) && Busy(s.enc) && s.released <= k < s.published
    ensures k % COUNT != s.published % COUNT
  {
    SlotsApart(k, s.published);
  }

  /** Whatever the slot under way becomes, those published and not released stay. */
  lemma OthersStay(s: State, slots: seq<OutSlot>)
    requires Inv(s) && Busy(s.enc) && |slots| == COUNT
    requires forall i :: 0 <= i < COUNT && i != s.published % COUNT ==> slots[i] == s.outSlots[i]
    ensures forall k :: s.released <= k < s.published ==> slots[k % COUNT] == Packet(s, k)
  {
    forall k | s.released <= k < s.published ensures slots[k % COUNT] == Packet(s, k) {
      UnderWayApart(s, k);
      assert s.outSlots[k % COUNT] == Packet(s, k);
    }
  }

  lemma ClearedKeeps(s: State)
    requires Inv(s) && s.enc.Chosen?
    ensures Inv(Encoding(s, Clear))
  {
    OthersStay(s, Encoding(s, Clear).outSlots);
  }

  lemma FilledCounts(s: State)
    requires Inv(s) && s.enc.Cleared?
    ensures Counts(Encoding(s, FillSlot)) && Inputs(Encoding(s, FillSlot))
      && s.inSlots[s.inRead].text == s.accepted[s.encoded]
  {
    NextSlot(s.encoded);
    assert s.inSlots[s.inRead].text == s.accepted[s.encoded];
  }

  lemma FilledKeeps(s: State)
    requires Inv(s) && s.enc.Cleared?
    ensures Inv(Encoding(s, FillSlot))
  {
    FilledCounts(s);
    OthersStay(s, Encoding(s, FillSlot).outSlots);
  }

  lemma PublishedCounts(s: State)
    requires Inv(s) && s.enc.Filled?
    ensures Counts(Encoding(s, Publish)) && Inputs(Encoding(s, Publish))
  {
    NextSlot(s.published);
  }

  lemma PublishedKeeps(s: State)
    requires Inv(s) && s.enc.Filled?
    ensures Inv(Encoding(s, Publish))
  {
    PublishedCounts(s);
    OthersStay(s, Encoding(s, Publish).outSlots);
  }

  lemma EncodingKeeps(s: State, step: Step)
    requires Inv(s)
    ensures Inv(Encoding(s, step))
  {
    if step.Clear? && s.enc.Chosen? {
      ClearedKeeps(s);
    } else if step.FillSlot? && s.enc.Cleared? {
      FilledKeeps(s);
    } else if step.Publish? && s.enc.Filled? {
      PublishedKeeps(s);
    }
  }

  lemma RequestedCounts(s: State)
    requires Inv(s) && s.prefetch > 0
    ensures Counts(Requested(s)) && Requested(s).delivered == s.delivered + [Packet(s, |s.delivered|)]
  {
    NextSlot(|s.delivered|);
    assert s.outSlots[|s.delivered| % COUNT] == Packet(s, |s.delivered|);
  }

  lemma RequestedHeld(s: State)
    requires Inv(s) && s.prefetch > 0
    ensures var held := Requested(s).held;
      |held| == |s.held| + 1 && forall i :: 0 <= i < |held| ==> held[i] == (s.released + i) % COUNT
  {
    var held := Requested(s).held;
    forall i | 0 <= i < |held| ensures held[i] == (s.released + i) % COUNT {
      if i < |s.held| { assert held[i] == s.held[i]; }
    }
  }

  lemma RequestedKeeps(s: State)
    requires Inv(s)
    ensures Inv(Requested(s))
  {
    if s.prefetch > 0 {
      RequestedCounts(s);
      RequestedHeld(s);
    }
  }

  lemma ReleasedKeeps(s: State)
    requires Inv(s)
    ensures Inv(Released(s))
  {
    var s' := Released(s);
    forall i | 0 <= i < |s'.held| ensures s'.held[i] == (s'.released + i) % COUNT {
      if s' != s { assert s'.held[i] == s.held[i + 1]; }
    }
  }

  lemma NextKeeps(s: State, step: Step)
    requires Inv(s)
    ensures Inv(Next(s, step))
  {
    match step
    case Write(input) => WrittenKeeps(s, input);
    case Request => RequestedKeeps(s);
    case Release => ReleasedKeeps(s);
    case _ => EncodingKeeps(s, step);
  }

  /** Every reachable state: the write positions are the read positions and what lies between, modulo
      the ring; packets pending are among those not released, and those are no more than the ring has. */
  lemma {:induction false} RunKeeps(textOn: bool, steps: seq<Step>)
    ensures Inv(Run(Init(textOn), steps))
    decreases |steps|
  {
    if steps == [] {
      InitInv(textOn);
    } else {
      RunKeeps(textOn, steps[..|steps| - 1]);
      NextKeeps(Run(Init(textOn), steps[..|steps| - 1]), steps[|steps| - 1]);
    }
  }

  // ----- what that means for source and consumer -----

  /** What was handed out is, in order, the packets of the texts accepted, and what is held is still
      what was handed out. */
  ghost predicate Faithful(s: State) {
    && |s.delivered| <= |s.accepted| && |s.held| <= |s.delivered| && |s.outSlots| == COUNT
    && (forall k :: 0 <= k < |s.delivered| ==>
          s.delivered[k] == OutSlot(if s.textOn then s.accepted[k] else BLANK, 0, k % COUNT))
    && (forall i :: 0 <= i < |s.held| ==>
          s.held[i] < COUNT && s.outSlots[s.held[i]] == s.delivered[|s.delivered| - |s.held| + i])
  }

  lemma HeldIsDelivered(s: State, i: nat)
    requires Inv(s) && i < |s.held|
    ensures s.held[i] < COUNT && s.outSlots[s.held[i]] == s.delivered[|s.delivered| - |s.held| + i]
  {
    assert s.outSlots[(s.released + i) % COUNT] == Packet(s, s.released + i);
  }

  lemma InvIsFaithful(s: State)
    requires Inv(s)
    ensures Faithful(s)
  {
    forall k | 0 <= k < |s.delivered|
      ensures s.delivered[k] == OutSlot(if s.textOn then s.accepted[k] else BLANK, 0, k % COUNT)
    {
      assert s.delivered[k] == Packet(s, k);
    }
    forall i | 0 <= i < |s.held|
      ensures s.held[i] < COUNT && s.outSlots[s.held[i]] == s.delivered[|s.delivered| - |s.held| + i]
    {
      HeldIsDelivered(s, i);
    }
  }

  /** Over every run, packets leave in the order their texts arrived, each with its text, and a packet
      held does not change. Their times are all zero: no text is queued with a time. */
  lemma InOrder(textOn: bool, steps: seq<Step>)
    ensures Faithful(Run(Init(textOn), steps)) && Run(Init(textOn), steps).textOn == textOn
  {
    RunKeeps(textOn, steps);
    InvIsFaithful(Run(Init(textOn), steps));
  }

  /** No text accepted is lost: it is in the input ring, with the encoder, waiting or delivered. */
  lemma NothingLost(textOn: bool, steps: seq<Step>)
    ensures var s := Run(Init(textOn), steps);
      |s.accepted| == s.inUsed + (if s.enc.Filled? then 1 else 0) + s.prefetch + |s.delivered|
    ensures var s := Run(Init(textOn), steps);
      s.outUsed == s.prefetch + |s.held| && 0 <= s.prefetch <= s.outUsed <= COUNT
  {
    RunKeeps(textOn, steps);
  }

  // ----- what each call does, in every reachable state -----

  /** A text handed over is queued, and one more is in use, exactly when fewer than ten are; otherwise
      nothing changes. Nothing else of the state changes either way. */
  lemma WriteTakesIff(s: State, text: seq<byte>)
    requires Inv(s)
    ensures var s' := Written(s, Text(text));
      && s'.(inSlots := s.inSlots, inWrite := s.inWrite, inUsed := s.inUsed, accepted := s.accepted) == s
      && (s.inUsed < 10 ==> s'.accepted == s.accepted + [text] && s'.inUsed == s.inUsed + 1)
      && (s.inUsed >= 10 ==> s' == s)
  {
  }

  /** The texts queued by a run: those handed over with fewer than ten in use, and for nothing handed
      over the one queued ten before, or a blank. */
  function Handed(s: State, steps: seq<Step>): seq<seq<byte>>
    requires Shaped(s)
    decreases |steps|
  {
    if steps == [] then []
    else
      var n := |steps| - 1;
      var before := Handed(s, steps[..n]);
      if !steps[n].Write? || Run(s, steps[..n]).inUsed >= 10 then before
      else before + [HandedText(before, steps[n].input)]
  }

  function HandedText(before: seq<seq<byte>>, input: Input): seq<byte> {
    match input
    case Text(text) => text
    case Nothing => if |before| >= 10 then before[|before| - 10] else BLANK
  }

  lemma OthersAcceptNone(s: State, step: Step)
    requires Shaped(s) && !step.Write?
    ensures Next(s, step).accepted == s.accepted
  {
  }

  lemma {:induction false} AcceptedIsHanded(textOn: bool, steps: seq<Step>)
    ensures Run(Init(textOn), steps).accepted == Handed(Init(textOn), steps)
    decreases |steps|
  {
    if steps != [] {
      var n := |steps| - 1;
      var s := Run(Init(textOn), steps[..n]);
      AcceptedIsHanded(textOn, steps[..n]);
      RunKeeps(textOn, steps[..n]);
      match steps[n] {
        case Write(input) => if input.Text? { WriteTakesIff(s, input.text); } else { NothingRepeats(s); }
        case _ => OthersAcceptNone(s, steps[n]);
      }
    }
  }

  /** Over every run the consumer gets, in order, the texts handed over while there was room, or blanks
      with the text setting off. */
  lemma DeliveredIsHanded(textOn: bool, steps: seq<Step>, k: nat)
    requires k < |Run(Init(textOn), steps).delivered|
    ensures var s, handed := Run(Init(textOn), steps), Handed(Init(textOn), steps);
      k < |handed| && s.delivered[k].text == if textOn then handed[k] else BLANK
  {
    AcceptedIsHanded(textOn, steps);
    InOrder(textOn, steps);
  }

  /** A request hands out the next packet published exactly when there is one not handed out yet. */
  lemma RequestTakesIff(s: State)
    requires Inv(s)
    ensures var s' := Requested(s); var n := |s.delivered|;
      if n == s.published then s' == s
      else s'.delivered == s.delivered + [Packet(s, n)] && s'.held == s.held + [n % COUNT] && s'.outUsed == s.outUsed
  {
    if s.prefetch > 0 { RequestedCounts(s); }
  }

  /** A release gives back the packet held longest, exactly when one is held. */
  lemma ReleaseTakesIff(s: State)
    requires Inv(s)
    ensures var s' := Released(s);
      if s.held == [] then s' == s
      else s'.held == s.held[1..] && s'.outUsed == s.outUsed - 1 && s'.prefetch == s.prefetch
  {
  }

  /** The encoder's own steps that are left of its round. */
  function RestOfRound(e: Encoder): seq<Step> {
    match e
    case Idle => [CheckIn, CheckOut, Choose, Clear, FillSlot, Publish]
    case InSeen => [CheckOut, Choose, Clear, FillSlot, Publish]
    case OutSeen => [Choose, Clear, FillSlot, Publish]
    case Chosen(_) => [Clear, FillSlot, Publish]
    case Cleared(_) => [FillSlot, Publish]
    case Filled(_) => [Publish]
  }

  lemma RunTail(s: State, step: Step, rest: seq<Step>)
    requires Shaped(s)
    ensures Run(s, [step] + rest) == Run(Next(s, step), rest)
  {
    RunJoin(s, [step], rest);
    RunOne(s, step);
  }

  /** Wherever the encoder is, with a text waiting and a slot free, the rest of its round publishes one
      packet, and changes nothing the source or the consumer sees. */
  lemma {:induction false} RoundPublishes(s: State)
    requires Inv(s) && (s.inUsed > 0 || s.enc.Filled?) && s.outUsed < COUNT
    ensures var s' := Run(s, RestOfRound(s.enc));
      && s'.published == s.published + 1 && s'.enc.Idle? && s'.accepted == s.accepted
      && s'.delivered == s.delivered && s'.held == s.held && s'.prefetch == s.prefetch + 1
    decreases |RestOfRound(s.enc)|
  {
    var steps := RestOfRound(s.enc);
    assert steps == [steps[0]] + steps[1..];
    RunTail(s, steps[0], steps[1..]);
    NextKeeps(s, steps[0]);
    if s.enc.Filled? {
      assert Run(Next(s, Publish), []) == Next(s, Publish);
    } else {
      RoundPublishes(Next(s, steps[0]));
    }
  }

  /** The slot of the `i`-th packet waiting. */
  function Waiting(s: State, i: nat): nat {
    (s.outRead + i) % COUNT
  }

  predicate UnderWay(e: Encoder) {
    e.Chosen? || e.Cleared? || e.Filled?
  }

  lemma WaitingApart(s: State, i: nat)
    requires Inv(s) && UnderWay(s.enc) && i < s.prefetch
    ensures s.enc.wid != Waiting(s, i)
  {
    UnderWayApart(s, |s.delivered| + i);
    Shifted(|s.delivered|, i);
  }

  lemma HeldApart(s: State, i: nat)
    requires Inv(s) && UnderWay(s.enc) && i < |s.held|
    ensures s.enc.wid != s.held[i]
  {
    UnderWayApart(s, s.released + i);
  }

  /** The slot the encoder works on without a lock is none that waits and none the consumer holds. */
  lemma UnderWayIsFree(textOn: bool, steps: seq<Step>)
    ensures var s := Run(Init(textOn), steps);
      UnderWay(s.enc) ==> s.enc.wid !in s.held && forall i :: 0 <= i < s.prefetch ==> s.enc.wid != Waiting(s, i)
  {
    RunKeeps(textOn, steps);
    var s := Run(Init(textOn), steps);
    if UnderWay(s.enc) {
      forall i | 0 <= i < |s.held| ensures s.held[i] != s.enc.wid {
        HeldApart(s, i);
      }
      forall i | 0 <= i < s.prefetch ensures s.enc.wid != Waiting(s, i) {
        WaitingApart(s, i);
      }
    }
  }

  lemma Shifted(a: nat, i: nat)
    ensures (a % COUNT + i) % COUNT == (a + i) % COUNT
  {
    Around(a % COUNT + i, a / COUNT);
  }

  /** Handing over nothing still queues a text, unless the ring is full: the one queued ten before, or
      a blank. */
  lemma NothingRepeats(s: State)
    requires Inv(s)
    ensures var s' := Written(s, Nothing); var n := |s.accepted|;
      if s.inUsed == COUNT then s' == s
      else s'.accepted == s.accepted + [if n >= COUNT then s.accepted[n - COUNT] else BLANK]
  {
    if s.inUsed < COUNT && |s.accepted| >= COUNT {
      assert s.inSlots[(|s.accepted| - COUNT) % COUNT].text == s.accepted[|s.accepted| - COUNT];
      Shifted(|s.accepted| - COUNT, COUNT);
    }
  }

  // ----- calls that break it -----

  /** `ReturnTextEncBuf`: the read position steps back when the packet before it is the one named; the
      count of packets waiting does not change. */
  function PutBack(s: State, pts: int, id: nat): (State, bool)
    requires Shaped(s)
  {
    var back := (s.outRead - 1 + COUNT) % COUNT;
    if id != s.outSlots[back].id || pts != s.outSlots[back].pts then (s, false)
    else (s.(outRead := back), true)
  }

  /** Every slot's time is 0, and its number is its own once it has been published, 0 before. */
  ghost predicate Labelled(s: State)
    requires Shaped(s)
  {
    forall i :: 0 <= i < COUNT ==> s.outSlots[i].pts == 0 && s.outSlots[i].id == if i < s.published then i else 0
  }

  lemma LabelsKept(s: State, step: Step)
    requires Inv(s) && Labelled(s)
    ensures Labelled(Next(s, step))
  {
    var s' := Next(s, step);
    forall i | 0 <= i < COUNT
      ensures s'.outSlots[i].pts == 0 && s'.outSlots[i].id == if i < s'.published then i else 0
    {
      assert s.outSlots[i].pts == 0 && s.outSlots[i].id == if i < s.published then i else 0;
    }
  }

  lemma {:induction false} RunLabelled(textOn: bool, steps: seq<Step>)
    ensures Labelled(Run(Init(textOn), steps))
    decreases |steps|
  {
    if steps != [] {
      var n := |steps| - 1;
      RunLabelled(textOn, steps[..n]);
      RunKeeps(textOn, steps[..n]);
      LabelsKept(Run(Init(textOn), steps[..n]), steps[n]);
    }
  }

  /** The slot before the read position, and the number a packet put back must name. */
  function Back(s: State): nat {
    (s.outRead - 1 + COUNT) % COUNT
  }

  function BackId(s: State): nat {
    if Back(s) < s.published then Back(s) else 0
  }

  lemma PutBackDisagrees(s: State)
    requires Inv(s)
    ensures s.outWrite == (s.outRead + s.prefetch) % COUNT && s.outWrite != (Back(s) + s.prefetch) % COUNT
  {
    Shifted(|s.delivered|, s.prefetch);
    SteppedBack(|s.delivered|, s.prefetch);
  }

  /** The call is accepted exactly for time 0 and the number of the slot before the read position, or 0
      if that was never published; and exactly then do the positions disagree with the count of packets
      waiting after it. */
  ghost predicate PutBackBreaks(s: State, pts: int, id: nat)
    requires Shaped(s)
  {
    var (s', ok) := PutBack(s, pts, id);
    && (ok <==> pts == 0 && id == BackId(s))
    && (s'.outWrite != (s'.outRead + s'.prefetch) % COUNT <==> pts == 0 && id == BackId(s))
  }

  lemma PutBackIff(s: State, pts: int, id: nat)
    requires Inv(s) && Labelled(s)
    ensures PutBackBreaks(s, pts, id)
  {
    PutBackDisagrees(s);
    assert s.outSlots[Back(s)].pts == 0 && s.outSlots[Back(s)].id == BackId(s);
  }

  /** So it is in every run. */
  lemma PutBackBreaksIff(textOn: bool, steps: seq<Step>, pts: int, id: nat)
    ensures PutBackBreaks(Run(Init(textOn), steps), pts, id)
  {
    RunKeeps(textOn, steps);
    RunLabelled(textOn, steps);
    PutBackIff(Run(Init(textOn), steps), pts, id);
  }

  /** On a fresh ring, with nothing ever handed out, it is accepted, and the read position is 9. */
  lemma PutBackOnFreshRing(textOn: bool)
    ensures PutBack(Init(textOn), 0, 0) == (Init(textOn).(outRead := 9), true)
  {
  }

  lemma Around(x: nat, q: nat)
    ensures (x + COUNT * q) % COUNT == x % COUNT
  {
    assert (x + COUNT * q) / COUNT == x / COUNT + q;
  }

  lemma SteppedBack(a: nat, i: nat)
    ensures ((a % COUNT - 1 + COUNT) % COUNT + i) % COUNT == (a + i + COUNT - 1) % COUNT
    ensures (a + i + COUNT - 1) % COUNT != (a + i) % COUNT
  {
    var x := a % COUNT - 1 + COUNT;
    Shifted(x, i);
    Around(x + i, a / COUNT);
    SlotsApart(a + i, a + i + COUNT - 1);
  }

  /** The packet handed out last is put back, as the call is meant for; then the one handed out next is
      that packet again, while the last one published is left waiting past the count. */
  lemma PutBackRepeats(s: State)
    requires Inv(s) && s.held != [] && s.prefetch > 0
    ensures var last := s.delivered[|s.delivered| - 1]; var (s', ok) := PutBack(s, last.pts, last.id);
      ok && Shaped(s') && Requested(s').delivered == s.delivered + [last] && Requested(s').prefetch == s.prefetch - 1
  {
    var n := |s.delivered| - 1;
    SteppedBack(n + 1, 0);
    Shifted(n, COUNT);
    assert s.outSlots[n % COUNT] == Packet(s, n) == s.delivered[n];
  }

  /** `ReleaseTextEncBuf` whoever calls it: only an empty ring refuses. */
  function ReleasedBy(s: State): State {
    if s.outUsed == 0 then s else s.(outUsed := s.outUsed - 1)
  }

  /** What waits stays within what is in use exactly when there was something to release: a packet
      held, or a call that is refused. */
  lemma ReleaseKeepsIff(s: State)
    requires Inv(s)
    ensures ReleasedBy(s).prefetch <= ReleasedBy(s).outUsed <==> s.held != [] || s.outUsed == 0
  {
  }

  /** And with the ring full, the slot the encoder takes next is not held any more exactly when the
      packet released, the consumer's `i`-th, was the one it has held longest. */
  lemma OutOfOrderReleaseIff(s: State, i: nat)
    requires Inv(s) && s.outUsed == COUNT && i < |s.held|
    ensures s.outWrite !in s.held[..i] + s.held[i + 1..] <==> i == 0
  {
    Shifted(s.released, COUNT);
    assert s.held[0] == s.outWrite;
    if i > 0 {
      assert (s.held[..i] + s.held[i + 1..])[0] == s.held[0];
    } else {
      forall j | 1 <= j < |s.held| ensures s.held[j] != s.outWrite {
        SlotsApart(s.released, s.released + j);
      }
    }
  }

  // ----- a run in which a packet held is overwritten -----

  /** `ReleaseTextEncBuf` of the consumer's `i`-th packet. */
  function ReleasedAt(s: State, i: nat): (s': State)
    requires Shaped(s) && i < |s.held|
    ensures Shaped(s')
  {
    ReleasedBy(s).(held := s.held[..i] + s.held[i + 1..], released := s.released + 1)
  }

  /** With the ring full and a text waiting, releasing any but the packet held longest lets the encoder
      clear the slot of that one. */
  lemma HeldIsCleared(s: State, i: nat)
    requires Inv(s) && s.outUsed == COUNT && s.enc.InSeen? && 0 < i < |s.held|
    ensures var s' := Encoding(Encoding(Encoding(ReleasedAt(s, i), CheckOut), Choose), Clear);
      s'.held[0] == s.held[0] < COUNT && s'.outSlots[s'.held[0]].text == BLANK
  {
    Shifted(s.released, COUNT);
    assert s.held[0] == s.outWrite;
  }

  lemma {:induction false} RunJoin(s: State, a: seq<Step>, b: seq<Step>)
    requires Shaped(s)
    ensures Run(s, a + b) == Run(Run(s, a), b)
    decreases |b|
  {
    if b == [] {
      assert a + b == a;
    } else {
      var n := |b| - 1;
      RunJoin(s, a, b[..n]);
      assert (a + b)[..|a + b| - 1] == a + b[..n];
    }
  }

  lemma RunOne(s: State, step: Step)
    requires Shaped(s)
    ensures Run(s, [step]) == Next(s, step)
  {
    assert [step][..0] == [] && Run(s, []) == s;
  }

  lemma RunMore(textOn: bool, steps: seq<Step>, step: Step)
    ensures Run(Init(textOn), steps + [step]) == Next(Run(Init(textOn), steps), step)
  {
    RunJoin(Init(textOn), steps, [step]);
    RunOne(Run(Init(textOn), steps), step);
  }

  /** A run that has published `n` packets of the one text and left all else idle. */
  ghost predicate Waits(s: State, n: nat, text: seq<byte>) {
    && Inv(s) && s.enc.Idle? && s.inUsed == 0 && s.published == n && s.delivered == [] && s.released == 0
    && s.accepted == seq(n, _ => text)
  }

  /** The seven steps that move a text through. */
  lemma Round(textOn: bool, steps: seq<Step>, n: nat, text: seq<byte>) returns (more: seq<Step>)
    requires Waits(Run(Init(textOn), steps), n, text) && n < COUNT
    ensures Waits(Run(Init(textOn), more), n + 1, text)
  {
    var r1 := steps + [Write(Text(text))];
    var r2 := r1 + [CheckIn];
    var r3 := r2 + [CheckOut];
    var r4 := r3 + [Choose];
    var r5 := r4 + [Clear];
    var r6 := r5 + [FillSlot];
    more := r6 + [Publish];
    RunMore(textOn, steps, Write(Text(text)));
    RunMore(textOn, r1, CheckIn);
    RunMore(textOn, r2, CheckOut);
    RunMore(textOn, r3, Choose);
    RunMore(textOn, r4, Clear);
    RunMore(textOn, r5, FillSlot);
    RunMore(textOn, r6, Publish);
    RunKeeps(textOn, more);
    assert seq(n, _ => text) + [text] == seq(n + 1, _ => text);
  }

  lemma {:induction false} Rounds(textOn: bool, n: nat, text: seq<byte>) returns (steps: seq<Step>)
    requires n <= COUNT
    ensures Waits(Run(Init(textOn), steps), n, text)
    decreases n
  {
    if n == 0 {
      steps := [];
      InitInv(textOn);
    } else {
      var before := Rounds(textOn, n - 1, text);
      steps := Round(textOn, before, n - 1, text);
    }
  }

  /** A run that fills the output ring, hands two packets out and has the encoder see a text waiting. */
  lemma TwoHeld(text: seq<byte>) returns (steps: seq<Step>)
    ensures var s := Run(Init(true), steps);
      && Inv(s) && s.outUsed == COUNT && s.enc.InSeen? && |s.held| == 2 && s.outSlots[s.held[0]].text == text
  {
    var r0 := Rounds(true, COUNT, text);
    var r1 := r0 + [Request];
    var r2 := r1 + [Request];
    var r3 := r2 + [Write(Text(text))];
    steps := r3 + [CheckIn];
    RunMore(true, r0, Request);
    RunMore(true, r1, Request);
    RunMore(true, r2, Write(Text(text)));
    RunMore(true, r3, CheckIn);
    RunKeeps(true, steps);
    var s0, s := Run(Init(true), r0), Run(Init(true), steps);
    assert s0.accepted[0] == text && s.accepted == s0.accepted + [text];
    assert s.outSlots[0] == Packet(s, 0);
  }

  /** So from a run of ordinary steps, releasing the second of two packets held changes the first. */
  lemma WrongReleaseOverwrites(text: seq<byte>) returns (steps: seq<Step>)
    requires text != BLANK
    ensures var s := Run(Init(true), steps);
      && |s.held| == 2 && s.held[0] < COUNT && s.outSlots[s.held[0]].text == text
      && var s' := Encoding(Encoding(Encoding(ReleasedAt(s, 1), CheckOut), Choose), Clear);
      s'.held == [s.held[0]] && s'.outSlots[s.held[0]].text == BLANK
  {
    steps := TwoHeld(text);
    HeldIsCleared(Run(Init(true), steps), 1);
  }
}
