/** What holds in every reachable state of two devices on a line, in both directions. */
module Delivery {
  import opened Bytes
  import opened Frame
  import opened RxStateMachine
  import opened ReceiverRuns
  import opened Transmitter
  import opened Device
  import opened Node
  import opened Homebus
  import opened Link
  import opened Network

  // ---------------------------------------------------------------- safety at every reachable state

  lemma Reached(w: Network, steps: seq<NetStep>)
    requires FreshNetwork(w) && NetValid(w, steps)
    ensures NetOk(NetRun(w, steps))
  {
    FreshNetworkIsOk(w);
    NetRunOk(w, steps);
  }

  lemma DrivenIsFormatted(driven: seq<bool>, bytes: seq<Byte>)
    requires DrivenStream(driven, bytes)
    ensures driven <= Levels(FormatAll(bytes))
  {
    forall i | 0 <= i < |driven|
      ensures driven[i] == Levels(FormatAll(bytes))[i]
    {
      assert i / FRAME_BITS < |bytes|;
    }
  }

  /**
   * The line from x to y: x has driven a prefix of the levels of its bytes, and y has sampled all of them
   * or all but the last; every frame y completed is the next byte, without errors; every frame began with
   * one accepted edge; and between frames y's receiver is as after initialisation.
   */
  ghost predicate LineIsFaithful(x: Node, y: Node) {
    var (s, bytes) := (y.seen, x.sent.written);
    && x.sent.driven <= Levels(FormatAll(bytes))
    && s.sampled <= x.sent.driven && |x.sent.driven| <= |s.sampled| + 1
    && |s.frames| == |s.sampled| / FRAME_BITS <= |bytes|
    && (forall i :: 0 <= i < |s.frames| ==> s.frames[i] == FrameResult(AsBits(bytes[i]), NO_ERROR))
    && s.edges == |s.frames| + Weight(y.dev.rx.ongoing, 1)
    && (|s.sampled| % FRAME_BITS == 0 && |s.sampled| == |x.sent.driven| ==> y.dev.rx == INITIAL)
    && y.dev.log[FRAME_BAD] == y.dev.log[INTERNAL_ERROR] == 0
  }

  lemma ConnectedIsFaithful(x: Station, y: Station)
    requires Connected(x, y) && Safe(y.node)
    ensures LineIsFaithful(x.node, y.node)
  {
    DrivenIsFormatted(x.node.sent.driven, x.node.sent.written);
    ChunkCount(y.node.dev.layout, y.node.seen.sampled);
  }

  /** In every reachable state the line is faithful in both directions. */
  lemma LineRoundTrip(w: Network, steps: seq<NetStep>)
    requires FreshNetwork(w) && NetValid(w, steps)
    ensures LineIsFaithful(NetRun(w, steps).a.node, NetRun(w, steps).b.node)
    ensures LineIsFaithful(NetRun(w, steps).b.node, NetRun(w, steps).a.node)
  {
    Reached(w, steps);
    var n := NetRun(w, steps);
    ConnectedIsFaithful(n.a, n.b);
    ConnectedIsFaithful(n.b, n.a);
  }

  /**
   * A sending device has the line to itself: the other one rests high, its own edge interrupt is disabled
   * with nothing pending, its receiver is idle, and reading the line back shows the level it drove last,
   * so that no comparison finds a collision. And never do both have something undelivered.
   */
  ghost predicate SendsAlone(x: Station, y: Station) {
    && (Delivered(x, y) || Delivered(y, x))
    && (x.node.dev.bus.BusTx? ==>
          && y.node.dev.tx.din
          && !x.node.dev.dout && !x.edge && x.node.dev.rx == INITIAL
          && (x.node.dev.tx.collation ==> Line(x, y) == x.node.dev.tx.lastBit))
  }

  lemma PairSendsAlone(x: Station, y: Station)
    requires Pair(x, y)
    ensures SendsAlone(x, y)
  {
    if x.node.dev.bus.BusTx? { SendingAlone(x, y); }
  }

  lemma NoCollisions(w: Network, steps: seq<NetStep>)
    requires FreshNetwork(w) && NetValid(w, steps)
    ensures var n := NetRun(w, steps); SendsAlone(n.a, n.b) && SendsAlone(n.b, n.a)
  {
    Reached(w, steps);
    var n := NetRun(w, steps);
    PairSendsAlone(n.a, n.b);
    PairIsSymmetric(n.a, n.b);
    PairSendsAlone(n.b, n.a);
  }

  lemma AfterNewStack(self: Byte, p: Parsed)
    ensures After(NewStack(self), p) == Stack(self, true, p.rest, AddressedTo(self, p.packets), 0)
  {
    assert [] + AddressedTo(self, p.packets) == AddressedTo(self, p.packets);
  }

  /** y's stack stands where the pure parse of the bytes taken from y's queue ends. */
  lemma StackIsParse(x: Station, y: Station)
    requires Connected(x, y)
    ensures var p := ParseStream(y.node.taken.removed);
            y.stack == Stack(y.stack.self, true, p.rest, AddressedTo(y.stack.self, p.packets), 0)
  {
    ParserIsStreamParse(NewStack(y.stack.self), y.node.taken.removed);
    assert [] + y.node.taken.removed == y.node.taken.removed;
    AfterNewStack(y.stack.self, ParseStream(y.node.taken.removed));
  }

  /** As long as nothing overflowed, what y has taken, and queued, is a prefix of what x was given to write. */
  lemma BytesInOrder(x: Station, y: Station)
    requires Connected(x, y) && y.node.dev.log[RX_OVF] == 0
    ensures y.node.taken.removed + y.node.dev.queue <= WireAll(x.packets)
  {}

  lemma ParsedSoFar(packets: seq<Packet>, taken: seq<Byte>)
    requires taken <= WireAll(packets) && forall p <- packets :: Sendable(p)
    ensures ParseStream(taken).packets <= packets
  {
    var rest := WireAll(packets)[|taken|..];
    ParsedPrefix(taken, rest);
    assert taken + rest == WireAll(packets);
    StreamOfPackets(packets);
  }

  /** Unless something overflowed, the packets given to y's callback are the first of those sent to y. */
  ghost predicate DeliversInOrder(x: Station, y: Station) {
    y.node.dev.log[RX_OVF] == 0 ==> y.stack.delivered <= AddressedTo(y.stack.self, x.packets)
  }

  lemma ConnectedDelivers(x: Station, y: Station)
    requires Connected(x, y)
    ensures DeliversInOrder(x, y)
  {
    if y.node.dev.log[RX_OVF] == 0 {
      BytesInOrder(x, y);
      StackIsParse(x, y);
      ParsedSoFar(x.packets, y.node.taken.removed);
      AddressedPrefix(y.stack.self, ParseStream(y.node.taken.removed).packets, x.packets);
    }
  }

  lemma DeliveredIsPrefix(w: Network, steps: seq<NetStep>)
    requires FreshNetwork(w) && NetValid(w, steps)
    ensures var n := NetRun(w, steps); DeliversInOrder(n.a, n.b) && DeliversInOrder(n.b, n.a)
  {
    Reached(w, steps);
    var n := NetRun(w, steps);
    ConnectedDelivers(n.a, n.b);
    ConnectedDelivers(n.b, n.a);
  }

  // ---------------------------------------------------------------- completion

  /** A device between calls with nothing queued. */
  predicate Idle(s: Station) {
    s.node.pc.Ready? && s.node.dev.queue == []
  }

  /** Both devices are idle, and each has received all that the other one was given to send. */
  predicate Done(w: Network) {
    Idle(w.a) && Idle(w.b) && Delivered(w.a, w.b) && Delivered(w.b, w.a)
  }

  /**
   * Unless y's queue overflowed, y's callback got exactly the packets for y, in order, and y's parser is
   * in its start state.
   */
  ghost predicate AllDelivered(x: Station, y: Station) {
    && y.node.dev.rx == INITIAL
    && (y.node.dev.log[RX_OVF] == 0 ==>
          y.stack == Stack(y.stack.self, true, [], AddressedTo(y.stack.self, x.packets), 0))
  }

  lemma AllFramesSampled(x: Station, y: Station)
    requires Connected(x, y) && Delivered(x, y)
    ensures |y.node.seen.frames| == |x.node.sent.written|
  {
    ChunkCount(y.node.dev.layout, y.node.seen.sampled);
  }

  lemma DrainedMeansDelivered(x: Station, y: Station)
    requires Connected(x, y) && Delivered(x, y) && y.node.dev.queue == []
    ensures AllDelivered(x, y)
  {
    DeliveredFacts(x, y);
    AllFramesSampled(x, y);
    if y.node.dev.log[RX_OVF] == 0 {
      assert x.node.sent.written[..|x.node.sent.written|] == x.node.sent.written;
      assert y.node.taken.removed + [] == y.node.taken.removed;
      StackIsParse(x, y);
      StreamOfPackets(x.packets);
    }
  }

  // ---------------------------------------------------------------- overflow

  /** y's queue can only have overflowed if x sent more bytes than y has room for. */
  ghost predicate OverflowExplained(x: Station, y: Station) {
    y.node.dev.log[RX_OVF] > 0 ==> y.node.dev.capacity < |x.node.sent.written|
  }

  ghost predicate Explained(w: Network) {
    OverflowExplained(w.a, w.b) && OverflowExplained(w.b, w.a)
  }

  ghost predicate SameCounters(s: Station, s': Station) {
    && s'.node.dev.log == s.node.dev.log && s'.node.dev.capacity == s.node.dev.capacity
    && |s'.node.sent.written| >= |s.node.sent.written|
  }

  lemma SendCounts(me: Station, dest: Byte, opcode: Byte, data: seq<Byte>)
    ensures SameCounters(me, Sending(me, dest, opcode, data))
  {}

  lemma StoreCounts(me: Station)
    ensures SameCounters(me, Stored(me))
  {
    MainEffect(me.node);
  }

  lemma EdgeCounts(me: Station, other: Station)
    ensures SameCounters(me, Acted(me, other, EdgeInt))
  {}

  lemma StartReadCounts(me: Station, other: Station)
    ensures SameCounters(me, Acted(me, other, StartRead))
  {}

  /** Only a receiving interrupt touches the counters, and what a device was given to send only grows. */
  lemma OtherActsCount(me: Station, other: Station, act: Action)
    requires Pair(me, other) && CanAct(me, other, act) && !(act.TimerTick? && me.node.dev.bus.BusRx?)
    ensures SameCounters(me, Acted(me, other, act))
  {
    match act
    case SendPacket(dest, opcode, data) => SendCounts(me, dest, opcode, data);
    case Store => StoreCounts(me);
    case TimerTick => TxTickCounts(me, other);
    case EdgeInt => EdgeCounts(me, other);
    case StartRead => StartReadCounts(me, other);
  }

  lemma TxTickCounts(me: Station, other: Station)
    requires Pair(me, other) && CanAct(me, other, TimerTick) && !me.node.dev.bus.BusRx?
    ensures SameCounters(me, Acted(me, other, TimerTick))
  {
    TickIsTxOrRx(me.node, Line(me, other));
    TicksWhileSpinning(me.node, Line(me, other));
    TxTickKeepsReceiver(me.node);
    TxTickEffect(me.node);
  }

  lemma OverflowNeedsFullQueue(log: Log, f: FrameResult, room: bool)
    ensures Logged(log, f.flags, room)[RX_OVF] > log[RX_OVF] ==> f.flags == NO_ERROR && !room
  {}

  /** A frame that overflows finds as many bytes in the queue as it has room for, all of them sent before its own. */
  lemma RxTickOverflow(me: Station, other: Station)
    requires Pair(me, other) && CanAct(me, other, TimerTick) && me.node.dev.bus.BusRx? && OverflowExplained(other, me)
    ensures OverflowExplained(other, Acted(me, other, TimerTick))
    ensures Acted(me, other, TimerTick).node.sent == me.node.sent
  {
    RxTickOk(me, other);
    RxTickIsSilent(me, other);
    RxTickKeepsSender(me.node, Line(me, other));
    RxTickEffect(me.node, Line(me, other));
    match FrameOf(me.node.dev, Line(me, other))
    case Some(f) => OverflowNeedsFullQueue(me.node.dev.log, f, Room(me.node.dev));
    case None =>
  }

  lemma OverflowAct(me: Station, other: Station, act: Action)
    requires Pair(me, other) && CanAct(me, other, act)
    requires OverflowExplained(me, other) && OverflowExplained(other, me)
    ensures var (me', other') := (Acted(me, other, act), Affected(me, other, act));
            OverflowExplained(me', other') && OverflowExplained(other', me')
  {
    if act.TimerTick? && me.node.dev.bus.BusRx? { RxTickOverflow(me, other); } else { OtherActsCount(me, other, act); }
  }

  lemma OverflowStep(w: Network, step: NetStep)
    requires NetOk(w) && CanStep(w, step) && Explained(w)
    ensures Explained(NetNext(w, step))
  {
    match step
    case ByA(act) => OverflowAct(w.a, w.b, act);
    case ByB(act) =>
      PairIsSymmetric(w.a, w.b);
      OverflowAct(w.b, w.a, act);
  }

  lemma {:induction false} OverflowRun(w: Network, steps: seq<NetStep>)
    requires NetOk(w) && NetValid(w, steps) && Explained(w)
    ensures Explained(NetRun(w, steps))
    decreases |steps|
  {
    if steps != [] {
      NetStepOk(w, steps[0]);
      OverflowStep(w, steps[0]);
      OverflowRun(NetNext(w, steps[0]), steps[1..]);
    }
  }
}
