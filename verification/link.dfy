/** One direction of the line: what a sending device drives, and what a receiving device makes of it. */
module Link {
  import opened Bytes
  import opened Frame
  import opened RxStateMachine
  import opened ReceiverRuns
  import opened Transmitter
  import opened Device
  import opened Node

  // ---------------------------------------------------------------- the sender

  /** Level i of the frames of a byte stream. */
  function StreamLevel(bytes: seq<Byte>, i: nat): bool
    requires i < FRAME_BITS * |bytes|
  {
    FrameLevels(AsBits(bytes[i / FRAME_BITS]))[i % FRAME_BITS]
  }

  ghost predicate DrivenStream(driven: seq<bool>, bytes: seq<Byte>) {
    && |driven| <= FRAME_BITS * |bytes|
    && forall i :: 0 <= i < |driven| ==> driven[i] == StreamLevel(bytes, i)
  }

  /** How far the transmission of the last bytes of the stream has come. */
  ghost predicate SenderPhase(pc: Pc, bus: BusState, tx: Tx, drivenCount: nat, bytes: seq<Byte>) {
    var m := |tx.words|;
    && m <= |bytes|
    && tx.words == FormatAll(bytes[|bytes| - m..])
    && match pc
       case Prepared => drivenCount == FRAME_BITS * (|bytes| - m)
       case Muted => drivenCount == FRAME_BITS * (|bytes| - m)
       case BusSet => drivenCount == FRAME_BITS * (|bytes| - m)
       case BitReset => drivenCount == FRAME_BITS * (|bytes| - m) && tx.bit == 0
       case ByteReset => drivenCount == FRAME_BITS * (|bytes| - m) && tx.bit == 0 && tx.byte == 0
       case Spinning =>
         if bus.BusTx? then InRange(tx) && drivenCount == FRAME_BITS * (|bytes| - m) + Position(tx)
         else drivenCount == FRAME_BITS * |bytes|
       case _ => drivenCount == FRAME_BITS * |bytes|
  }

  /** What a comparing interrupt expects to read back is what the pin shows. */
  predicate LastBit(tx: Tx) {
    tx.collation ==> tx.lastBit == tx.din
  }

  ghost predicate Sender(a: Node) {
    && DrivenStream(a.sent.driven, a.sent.written)
    && a.dev.tx.din == (a.sent.driven == [] || a.sent.driven[|a.sent.driven| - 1])
    && LastBit(a.dev.tx)
    && SenderPhase(a.pc, a.dev.bus, a.dev.tx, |a.sent.driven|, a.sent.written)
  }

  /** Outside a write, what the rest of the device does is nothing to the sender. */
  lemma SenderKept(a: Node, a': Node)
    requires Sender(a) && !Sends(a.pc) && !Sends(a'.pc) && a'.sent == a.sent && a'.dev.tx == a.dev.tx
    ensures Sender(a')
  {}

  lemma FramesEndHigh(driven: seq<bool>, bytes: seq<Byte>)
    requires DrivenStream(driven, bytes) && driven != [] && |driven| % FRAME_BITS == 0
    ensures driven[|driven| - 1]
  {
    var last := |driven| - 1;
    assert last % FRAME_BITS == FRAME_BITS - 1;
    HighOffduty(AsBits(bytes[last / FRAME_BITS]), FRAME_BITS - 1);
    assert driven[last] == StreamLevel(bytes, last);
  }

  /** After whole frames the line is left high. */
  lemma HighAtBoundary(a: Node)
    requires Sender(a) && |a.sent.driven| % FRAME_BITS == 0
    ensures a.dev.tx.din
  {
    if a.sent.driven != [] { FramesEndHigh(a.sent.driven, a.sent.written); }
  }

  /** All is driven between writes, and the line is left high. */
  lemma SenderAtRest(a: Node)
    requires Sender(a) && !Sends(a.pc)
    ensures |a.sent.driven| == FRAME_BITS * |a.sent.written| && a.dev.tx.din
  {
    HighAtBoundary(a);
  }

  lemma StreamGrows(driven: seq<bool>, bytes: seq<Byte>, data: seq<Byte>)
    requires DrivenStream(driven, bytes)
    ensures DrivenStream(driven, bytes + data)
  {
    forall i | 0 <= i < |driven|
      ensures driven[i] == StreamLevel(bytes + data, i)
    {
      assert (bytes + data)[i / FRAME_BITS] == bytes[i / FRAME_BITS];
    }
  }

  /** New data joins the stream while nothing of it is on the line yet. */
  lemma PhaseBegins(bus: BusState, tx: Tx, drivenCount: nat, bytes: seq<Byte>, data: seq<Byte>)
    requires drivenCount == FRAME_BITS * |bytes| && tx.words == FormatAll(data)
    ensures SenderPhase(Prepared, bus, tx, drivenCount, bytes + data)
  {
    assert (bytes + data)[|bytes|..] == data;
    assert |bytes + data| - |tx.words| == |bytes|;
  }

  lemma SenderBegun(a: Node, a': Node, data: seq<Byte>)
    requires Sender(a) && a.pc.Ready?
    requires a'.pc.Prepared? && a'.dev.tx == a.dev.tx.(words := FormatAll(data))
    requires a'.sent.driven == a.sent.driven && a'.sent.written == a.sent.written + data
    ensures Sender(a')
  {
    StreamGrows(a.sent.driven, a.sent.written, data);
    PhaseBegins(a'.dev.bus, a'.dev.tx, |a.sent.driven|, a.sent.written, data);
  }

  lemma SenderBegins(a: Node, data: seq<Byte>)
    requires Sender(a) && a.pc.Ready?
    ensures Sender(Next(a, BeginWrite(data)))
  {
    SenderBegun(a, Next(a, BeginWrite(data)), data);
  }

  /** Up to the start of the timer nothing has been driven, and afterwards everything has. */
  lemma PhaseOfStart(n: Node)
    requires Safe(n) && Preparing(n.pc)
    requires SenderPhase(n.pc, n.dev.bus, n.dev.tx, |n.sent.driven|, n.sent.written)
    ensures var n' := MainStep(n);
            SenderPhase(n'.pc, n'.dev.bus, n'.dev.tx, |n.sent.driven|, n.sent.written)
  {}

  /** All that a write had to drive is on the line. */
  predicate SpinOver(pc: Pc, bus: BusState) {
    !Preparing(pc) && (pc.Spinning? ==> !bus.BusTx?)
  }

  lemma SpinStaysOver(n: Node)
    requires SpinOver(n.pc, n.dev.bus)
    ensures SpinOver(MainStep(n).pc, MainStep(n).dev.bus) && MainStep(n).dev.tx == n.dev.tx
  {}

  lemma PhaseOfRest(pc: Pc, bus: BusState, pc': Pc, bus': BusState, tx: Tx, drivenCount: nat, bytes: seq<Byte>)
    requires SpinOver(pc, bus) && SpinOver(pc', bus') && SenderPhase(pc, bus, tx, drivenCount, bytes)
    ensures SenderPhase(pc', bus', tx, drivenCount, bytes)
  {}

  lemma MainEffect(n: Node)
    ensures var n' := MainStep(n);
            && n'.sent == n.sent && n'.seen == n.seen && n'.dev.rx == n.dev.rx
            && n'.dev.tx.din == n.dev.tx.din
            && n'.dev.tx.collation == n.dev.tx.collation && n'.dev.tx.lastBit == n.dev.tx.lastBit
  {}

  lemma SenderStored(a: Node, a': Node)
    requires Sender(a) && a'.sent == a.sent && a'.dev.tx.din == a.dev.tx.din
    requires a'.dev.tx.collation == a.dev.tx.collation && a'.dev.tx.lastBit == a.dev.tx.lastBit
    requires SenderPhase(a'.pc, a'.dev.bus, a'.dev.tx, |a.sent.driven|, a.sent.written)
    ensures Sender(a')
  {}

  lemma SenderMain(a: Node)
    requires Safe(a) && Sender(a) && Enabled(a, Main)
    ensures Sender(MainStep(a))
  {
    PhaseMain(a);
    MainEffect(a);
    SenderStored(a, MainStep(a));
  }

  lemma PhaseMain(n: Node)
    requires Safe(n) && Enabled(n, Main)
    requires SenderPhase(n.pc, n.dev.bus, n.dev.tx, |n.sent.driven|, n.sent.written)
    ensures var n' := MainStep(n);
            SenderPhase(n'.pc, n'.dev.bus, n'.dev.tx, |n.sent.driven|, n.sent.written)
  {
    if Preparing(n.pc) {
      PhaseOfStart(n);
    } else {
      SpinStaysOver(n);
      PhaseOfRest(n.pc, n.dev.bus, MainStep(n).pc, MainStep(n).dev.bus, n.dev.tx, |n.sent.driven|, n.sent.written);
    }
  }

  lemma IndexSplit(q: nat, r: BitIndex)
    ensures (FRAME_BITS * q + r) / FRAME_BITS == q && (FRAME_BITS * q + r) % FRAME_BITS == r
  {}

  lemma StreamLevelAt(bytes: seq<Byte>, q: nat, r: BitIndex)
    requires q < |bytes|
    ensures FRAME_BITS * q + r < FRAME_BITS * |bytes|
    ensures StreamLevel(bytes, FRAME_BITS * q + r) == FrameLevels(AsBits(bytes[q]))[r]
  {
    IndexSplit(q, r);
  }

  /** A level of the formatted tail of a stream is a level of the stream. */
  lemma LevelOfStream(words: seq<WordLevels>, bytes: seq<Byte>, first: nat, byte: nat, bit: BitIndex)
    requires first + |words| == |bytes| && words == FormatAll(bytes[first..]) && byte < |words|
    ensures FRAME_BITS * (first + byte) + bit < FRAME_BITS * |bytes|
    ensures words[byte][bit] == StreamLevel(bytes, FRAME_BITS * (first + byte) + bit)
  {
    StreamLevelAt(bytes, first + byte, bit);
    assert bytes[first..][byte] == bytes[first + byte];
  }

  /** The next level the transmitter drives is the next level of the stream. */
  lemma NextOfStream(tx: Tx, drivenCount: nat, bytes: seq<Byte>)
    requires tx.byte < |tx.words| <= |bytes| && tx.words == FormatAll(bytes[|bytes| - |tx.words|..])
    requires drivenCount == FRAME_BITS * (|bytes| - |tx.words|) + Position(tx)
    ensures drivenCount < FRAME_BITS * |bytes|
    ensures NextLevel(tx, false) == StreamLevel(bytes, drivenCount)
  {
    var first := |bytes| - |tx.words|;
    assert drivenCount == FRAME_BITS * (first + tx.byte) + tx.bit;
    LevelOfStream(tx.words, bytes, first, tx.byte, tx.bit);
  }

  lemma NextIsDriven(tx: Tx, drivenCount: nat, bytes: seq<Byte>)
    requires SenderPhase(Spinning, BusTx, tx, drivenCount, bytes) && Drives(tx)
    ensures drivenCount < FRAME_BITS * |bytes| && NextLevel(tx, false) == StreamLevel(bytes, drivenCount)
  {
    NextOfStream(tx, drivenCount, bytes);
  }

  lemma PhaseTick(tx: Tx, drivenCount: nat, bytes: seq<Byte>)
    requires SenderPhase(Spinning, BusTx, tx, drivenCount, bytes)
    ensures if Exhausted(tx) then SenderPhase(Spinning, BusIdle, tx, drivenCount, bytes)
            else SenderPhase(Spinning, BusTx, Transmitter.Tick(tx, false), drivenCount + Weight(Drives(tx), 1), bytes)
  {
    if !Exhausted(tx) { OneTick(tx, false); }
  }

  /** What a timer interrupt in TX does to the sender. */
  ghost predicate TickedTx(a: Node, a': Node) {
    && a'.pc == a.pc && a'.sent.written == a.sent.written
    && if Exhausted(a.dev.tx) then a'.dev.bus == BusIdle && a'.dev.tx == a.dev.tx && a'.sent.driven == a.sent.driven
       else
         && a'.dev.bus == a.dev.bus && a'.dev.tx == Transmitter.Tick(a.dev.tx, false)
         && if Drives(a.dev.tx) then
              a'.sent.driven == a.sent.driven + [NextLevel(a.dev.tx, false)]
              && a'.dev.tx.din == NextLevel(a.dev.tx, false)
            else a'.sent.driven == a.sent.driven && a'.dev.tx.din == a.dev.tx.din
  }

  lemma TxTickEffect(a: Node)
    ensures TickedTx(a, TxTickStep(a, false))
  {}

  lemma DrivenOneMore(driven: seq<bool>, bytes: seq<Byte>)
    requires DrivenStream(driven, bytes) && |driven| < FRAME_BITS * |bytes|
    ensures DrivenStream(driven + [StreamLevel(bytes, |driven|)], bytes)
  {}

  /** A tick that only compares, or that finds the words exhausted. */
  lemma SenderPauses(a: Node, a': Node)
    requires Sender(a)
    requires a'.sent.written == a.sent.written && a'.sent.driven == a.sent.driven
    requires a'.dev.tx.din == a.dev.tx.din && LastBit(a'.dev.tx)
    requires SenderPhase(a'.pc, a'.dev.bus, a'.dev.tx, |a.sent.driven|, a.sent.written)
    ensures Sender(a')
  {}

  /** A tick that drives the next level of the stream. */
  lemma SenderDrives(a: Node, a': Node, level: bool)
    requires Sender(a) && |a.sent.driven| < FRAME_BITS * |a.sent.written|
    requires level == StreamLevel(a.sent.written, |a.sent.driven|)
    requires a'.sent.written == a.sent.written
    requires a'.sent.driven == a.sent.driven + [level] && a'.dev.tx.din == level && LastBit(a'.dev.tx)
    requires SenderPhase(a'.pc, a'.dev.bus, a'.dev.tx, |a.sent.driven| + 1, a.sent.written)
    ensures Sender(a')
  {
    DrivenOneMore(a.sent.driven, a.sent.written);
  }

  ghost predicate OneMoreDriven(a: Node, a': Node) {
    && |a.sent.driven| < FRAME_BITS * |a.sent.written|
    && a'.sent.driven == a.sent.driven + [StreamLevel(a.sent.written, |a.sent.driven|)]
  }

  lemma SenderTick(a: Node)
    requires Sender(a) && a.pc.Spinning? && a.dev.bus.BusTx?
    ensures var a' := TxTickStep(a, false);
            && Sender(a') && a'.sent.written == a.sent.written
            && if Drives(a.dev.tx) then OneMoreDriven(a, a')
               else a'.sent.driven == a.sent.driven && a'.dev.tx.din == a.dev.tx.din
  {
    TxTickEffect(a);
    var a' := TxTickStep(a, false);
    if Exhausted(a.dev.tx) {
      EndingTick(a, a');
    } else if a.dev.tx.collation {
      ComparingTick(a, a');
    } else {
      DrivingTick(a, a');
    }
  }

  lemma DrivingTick(a: Node, a': Node)
    requires Sender(a) && a.pc.Spinning? && a.dev.bus.BusTx? && TickedTx(a, a') && Drives(a.dev.tx)
    ensures Sender(a') && OneMoreDriven(a, a')
  {
    NextIsDriven(a.dev.tx, |a.sent.driven|, a.sent.written);
    PhaseTick(a.dev.tx, |a.sent.driven|, a.sent.written);
    SenderDrives(a, a', NextLevel(a.dev.tx, false));
  }

  lemma ComparingTick(a: Node, a': Node)
    requires Sender(a) && a.pc.Spinning? && a.dev.bus.BusTx? && TickedTx(a, a') && !Exhausted(a.dev.tx)
    requires a.dev.tx.collation
    ensures Sender(a') && a'.sent.driven == a.sent.driven && a'.dev.tx.din == a.dev.tx.din
  {
    PhaseTick(a.dev.tx, |a.sent.driven|, a.sent.written);
    SenderPauses(a, a');
  }

  lemma EndingTick(a: Node, a': Node)
    requires Sender(a) && a.pc.Spinning? && a.dev.bus.BusTx? && TickedTx(a, a') && Exhausted(a.dev.tx)
    ensures Sender(a') && a'.sent.driven == a.sent.driven && a'.dev.tx.din == a.dev.tx.din
  {
    PhaseTick(a.dev.tx, |a.sent.driven|, a.sent.written);
    SenderPauses(a, a');
  }

  // ---------------------------------------------------------------- the receiver

  /** Where a receiver stands, given how many levels have been driven and sampled. */
  ghost predicate Listening(rx: Receiver, edge: bool, drivenCount: nat, sampledCount: nat) {
    && sampledCount <= drivenCount <= sampledCount + 1
    && |rx.samples| == sampledCount % FRAME_BITS
    && if rx.ongoing then !edge && (rx.samples == [] ==> drivenCount == sampledCount + 1)
       else edge == (drivenCount == sampledCount + 1)
  }

  /** The frames of the bytes, as a receiver without errors reports them. */
  ghost predicate GoodFrames(frames: seq<FrameResult>, bytes: seq<Byte>) {
    && |frames| <= |bytes|
    && forall i :: 0 <= i < |frames| ==> frames[i] == FrameResult(AsBits(bytes[i]), NO_ERROR)
  }

  ghost predicate GoodReceiver(b: Node, bytes: seq<Byte>) {
    && Agrees(b.dev.layout)
    && Decoded(b)
    && Conserved(b)
    && GoodFrames(b.seen.frames, bytes)
    && b.dev.log[FRAME_BAD] == 0
    && (b.dev.log[RX_OVF] == 0 ==> b.seen.pushed == bytes[..|b.seen.frames|])
  }

  /** What a receiver is made of. */
  predicate SameReceiver(b: Node, b': Node) {
    && b'.seen == b.seen && b'.taken == b.taken
    && b'.dev.layout == b.dev.layout && b'.dev.rx == b.dev.rx && b'.dev.log == b.dev.log
    && b'.dev.queue == b.dev.queue && b'.dev.capacity == b.dev.capacity
  }

  lemma ReceiverKept(b: Node, b': Node, bytes: seq<Byte>)
    requires GoodReceiver(b, bytes) && SameReceiver(b, b') && InCall(b'.pc, |b'.dev.queue|)
    ensures GoodReceiver(b', bytes)
  {}

  lemma WriteKeepsReceiver(n: Node)
    requires Sends(n.pc)
    ensures SameReceiver(n, MainStep(n)) && InCall(MainStep(n).pc, |n.dev.queue|)
  {}

  lemma TxTickKeepsReceiver(n: Node)
    ensures SameReceiver(n, TxTickStep(n, false)) && TxTickStep(n, false).pc == n.pc
  {}

  lemma RxTickKeepsSender(n: Node, sample: bool)
    ensures var n' := RxTickStep(n, sample);
            n'.sent == n.sent && n'.dev.tx == n.dev.tx && n'.pc == n.pc
  {}

  lemma GoodFramesGrow(frames: seq<FrameResult>, bytes: seq<Byte>, data: seq<Byte>)
    requires GoodFrames(frames, bytes)
    ensures GoodFrames(frames, bytes + data)
    ensures (bytes + data)[..|frames|] == bytes[..|frames|]
  {}

  /** Every frame begins with a low level after a high one. */
  lemma FallsAtFrameStart(driven: seq<bool>, bytes: seq<Byte>)
    requires DrivenStream(driven, bytes) && |driven| < FRAME_BITS * |bytes| && |driven| % FRAME_BITS == 0
    ensures driven == [] || driven[|driven| - 1]
    ensures !StreamLevel(bytes, |driven|)
  {
    FrameLevelsAt(AsBits(bytes[|driven| / FRAME_BITS]), 0);
    if driven != [] {
      var last := |driven| - 1;
      HighOffduty(AsBits(bytes[last / FRAME_BITS]), last % FRAME_BITS);
    }
  }

  /** At a frame start a receiver waits for the edge; inside a frame its interrupt is off and the edges go unnoticed. */
  lemma DriveKeepsListening(rx: Receiver, edge: bool, dout: bool, falls: bool, count: nat)
    requires Listening(rx, edge, count, count)
    requires rx.ongoing <==> !dout
    requires count % FRAME_BITS == 0 ==> falls
    requires !rx.ongoing ==> rx.samples == []
    ensures Listening(rx, edge || (dout && falls), count + 1, count)
  {}

  /** The samples of a byte of the stream are its frame. */
  lemma SampledFrame(driven: seq<bool>, bytes: seq<Byte>, samples: seq<bool>, n: nat)
    requires DrivenStream(driven, bytes) && samples <= driven && (n + 1) * FRAME_BITS <= |samples|
    ensures n < |bytes| && samples[n * FRAME_BITS..(n + 1) * FRAME_BITS] == FrameLevels(AsBits(bytes[n]))
  {
    var chunk := samples[n * FRAME_BITS..(n + 1) * FRAME_BITS];
    forall k | 0 <= k < FRAME_BITS
      ensures chunk[k] == FrameLevels(AsBits(bytes[n]))[k]
    {
      IndexSplit(n, k);
      assert driven[FRAME_BITS * n + k] == StreamLevel(bytes, FRAME_BITS * n + k);
    }
  }

  /** The frame completed by the last sample of a byte is that byte without errors. */
  lemma CompletedFrame(b: Node, driven: seq<bool>, bytes: seq<Byte>, sample: bool)
    requires Decoded(b) && Agrees(b.dev.layout)
    requires DrivenStream(driven, bytes) && b.seen.sampled + [sample] <= driven
    requires WantsSample(b.dev.rx) && |b.dev.rx.samples| + 1 == FRAME_BITS
    ensures |b.seen.frames| < |bytes|
    ensures FrameOf(b.dev, sample) == Some(FrameResult(AsBits(bytes[|b.seen.frames|]), NO_ERROR))
  {
    var (all, l, n) := (b.seen.sampled + [sample], b.dev.layout, |b.seen.frames|);
    OneMoreSample(l, b.seen.sampled, sample);
    ChunkCount(l, b.seen.sampled);
    ChunkCount(l, all);
    ChunkAt(l, all, n);
    SampledFrame(driven, bytes, all, n);
    FrameRoundTrip(l, AsBits(bytes[n]));
  }

  lemma GoodFrameLogged(log: Log, room: bool)
    ensures var log' := Logged(log, NO_ERROR, room);
            log'[FRAME_BAD] == log[FRAME_BAD] && log'[RX_OVF] == log[RX_OVF] + Weight(!room, 1)
  {}

  lemma OneMoreGoodFrame(frames: seq<FrameResult>, bytes: seq<Byte>)
    requires GoodFrames(frames, bytes) && |frames| < |bytes|
    ensures GoodFrames(frames + [FrameResult(AsBits(bytes[|frames|]), NO_ERROR)], bytes)
    ensures bytes[..|frames| + 1] == bytes[..|frames|] + [bytes[|frames|]]
  {}

  /** A frame without errors is good, and unless it overflows, its byte is the next one of the stream. */
  lemma GoodFrameFiled(b: Node, b': Node, bytes: seq<Byte>, f: FrameResult)
    requires GoodReceiver(b, bytes) && |b.seen.frames| < |bytes|
    requires f == FrameResult(AsBits(bytes[|b.seen.frames|]), NO_ERROR)
    requires b'.seen.frames == b.seen.frames + [f] && b'.seen.pushed == b.seen.pushed + Queued(b.dev, f)
    requires b'.dev.log == Logged(b.dev.log, f.flags, Room(b.dev)) && b'.dev.layout == b.dev.layout
    requires Decoded(b') && Conserved(b')
    ensures GoodReceiver(b', bytes)
  {
    GoodFrameLogged(b.dev.log, Room(b.dev));
    OneMoreGoodFrame(b.seen.frames, bytes);
  }

  lemma NothingFiled(b: Node, b': Node, bytes: seq<Byte>)
    requires GoodReceiver(b, bytes)
    requires b'.seen.frames == b.seen.frames && b'.seen.pushed == b.seen.pushed
    requires OnlyInternal(b.dev.log, b'.dev.log) && b'.dev.layout == b.dev.layout
    requires Decoded(b') && Conserved(b')
    ensures GoodReceiver(b', bytes)
  {}

  lemma RxTickInvariants(b: Node, sample: bool)
    requires b.dev.bus.BusRx? && Decoded(b) && Conserved(b)
    ensures Decoded(RxTickStep(b, sample)) && Conserved(RxTickStep(b, sample))
  {
    DecodedStep(b, Tick(sample, false));
    ConservedStep(b, Tick(sample, false));
  }

  lemma GoodReceiverTick(b: Node, driven: seq<bool>, bytes: seq<Byte>, sample: bool)
    requires GoodReceiver(b, bytes) && b.dev.bus.BusRx? && DrivenStream(driven, bytes)
    requires WantsSample(b.dev.rx) ==> b.seen.sampled + [sample] <= driven
    ensures GoodReceiver(RxTickStep(b, sample), bytes)
  {
    var b' := RxTickStep(b, sample);
    RxTickInvariants(b, sample);
    RxTickEffect(b, sample);
    if WantsSample(b.dev.rx) && |b.dev.rx.samples| + 1 == FRAME_BITS {
      CompletedFrame(b, driven, bytes, sample);
      GoodFrameFiled(b, b', bytes, FrameResult(AsBits(bytes[|b.seen.frames|]), NO_ERROR));
    } else {
      NothingFiled(b, b', bytes);
    }
  }

  lemma GoodReceiverEdge(b: Node, bytes: seq<Byte>)
    requires GoodReceiver(b, bytes)
    ensures GoodReceiver(Next(b, DoutEdge), bytes)
  {
    DecodedStep(b, DoutEdge);
    ConservedStep(b, DoutEdge);
  }

  lemma PoppedNode(b: Node)
    requires b.pc.Reading? && b.dev.queue != []
    ensures var b' := MainStep(b);
            && b'.seen == b.seen && b'.sent == b.sent && b'.pc.Ready?
            && b'.dev.rx == b.dev.rx && b'.dev.tx == b.dev.tx
            && b'.dev.log == b.dev.log && b'.dev.layout == b.dev.layout
            && b'.taken.removed == b.taken.removed + [b.dev.queue[0]]
  {}

  lemma GoodReceiverPop(b: Node, bytes: seq<Byte>)
    requires GoodReceiver(b, bytes) && b.pc.Reading?
    ensures GoodReceiver(MainStep(b), bytes)
  {
    DecodedStep(b, Main);
    ConservedStep(b, Main);
    PoppedNode(b);
  }

  lemma SampleKeepsListening(rx: Receiver, rx': Receiver, bit: bool, edge: bool, drivenCount: nat, sampledCount: nat)
    requires Listening(rx, edge, drivenCount, sampledCount) && rx.ongoing && |rx.samples| < FRAME_BITS
    requires WantsSample(rx) ==> sampledCount < drivenCount
    requires rx' == if WantsSample(rx) then BitSample(rx, bit) else BitEdge(rx)
    ensures Listening(rx', edge, drivenCount, sampledCount + Weight(WantsSample(rx), 1))
  {}

  /** The level that is sampled is the last one driven. */
  lemma SampledInOrder(driven: seq<bool>, sampled: seq<bool>, line: bool)
    requires sampled <= driven && |driven| == |sampled| + 1 && line == driven[|driven| - 1]
    ensures sampled + [line] == driven
  {}

  lemma FreshSender(n: Node)
    requires Fresh(n)
    ensures Sender(n)
  {
    assert n.dev.tx.words == FormatAll(n.sent.written[0..]);
  }

  lemma FreshReceiver(n: Node)
    requires Fresh(n) && Agrees(n.dev.layout)
    ensures GoodReceiver(n, [])
  {
    FreshIsOk(n);
  }
}
