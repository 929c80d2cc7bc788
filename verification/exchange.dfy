/**
 * A request and its response, the response being sent from inside the callback that gets the request
 * (examples/two_nodes/main.c), and the turn-around that this needs.
 */
module Exchange {
  import opened Bytes
  import opened Frame
  import opened RxStateMachine
  import opened ReceiverRuns
  import opened Transmitter
  import opened Device
  import opened Node
  import opened Homebus
  import opened Link
  import opened Network
  import opened Delivery
  import opened Arrival

  // ---------------------------------------------------------------- who may answer

  /** The callback of y has got the last packet x sent, which is for y. */
  ghost predicate GotTheLast(x: Station, y: Station) {
    && x.packets != [] && x.packets[|x.packets| - 1].destAddr == y.stack.self
    && |y.stack.delivered| == |AddressedTo(y.stack.self, x.packets)|
  }

  lemma AllPacketsParsed(self: Byte, parsed: seq<Packet>, packets: seq<Packet>)
    requires parsed <= packets && packets != [] && packets[|packets| - 1].destAddr == self
    requires |AddressedTo(self, parsed)| == |AddressedTo(self, packets)|
    ensures parsed == packets
  {
    if |parsed| < |packets| {
      AddressedPrefix(self, parsed, packets[..|packets| - 1]);
    }
  }

  lemma AllBytesTaken(packets: seq<Packet>, taken: seq<Byte>)
    requires taken <= WireAll(packets) && ParseStream(taken).packets == packets
    ensures taken == WireAll(packets)
  {
    StreamIsRebuilt(taken);
  }

  lemma AllQueuedWereSampled(x: Station, y: Station)
    requires Connected(x, y) && |y.node.taken.removed| == |x.node.sent.written|
    ensures Delivered(x, y)
  {
    ChunkCount(y.node.dev.layout, y.node.seen.sampled);
  }

  /** Whoever has got the last packet may answer, whatever the other device is still doing. */
  lemma AnswerIsFree(x: Station, y: Station)
    requires Connected(x, y) && y.node.dev.log[RX_OVF] == 0 && GotTheLast(x, y)
    ensures LineIsFree(y, x)
  {
    var taken := y.node.taken.removed;
    BytesInOrder(x, y);
    StackIsParse(x, y);
    ParsedSoFar(x.packets, taken);
    AllPacketsParsed(y.stack.self, ParseStream(taken).packets, x.packets);
    AllBytesTaken(x.packets, taken);
    AllQueuedWereSampled(x, y);
  }

  /** In every reachable state, right after its callback has got the last packet, B can send. */
  lemma AnswerFromCallback(w: Network, steps: seq<NetStep>, dest: Byte, opcode: Byte, data: seq<Byte>)
    requires FreshNetwork(w) && NetValid(w, steps) && |data| <= HBS_MAX_DATA_LEN
    requires var n := NetRun(w, steps);
             n.b.node.pc.Ready? && n.b.node.dev.log[RX_OVF] == 0 && GotTheLast(n.a, n.b)
    ensures CanStep(NetRun(w, steps), ByB(SendPacket(dest, opcode, data)))
  {
    Reached(w, steps);
    AnswerIsFree(NetRun(w, steps).a, NetRun(w, steps).b);
  }

  // ---------------------------------------------------------------- request and response

  lemma OnePacket(self: Byte, p: Packet)
    requires Sendable(p) && p.destAddr == self
    ensures AddressedTo(self, [p]) == [p] && |WireAll([p])| == HBS_HEADER_SIZE + |p.data|
  {
    var none: seq<Packet> := [];
    assert [p][..0] == none && [p][1..] == none;
    assert AddressedTo(self, none) == none && WireAll([p]) == Wire(p) + WireAll(none);
  }

  /** The one packet x was asked to send is what y's callback got. */
  lemma OneDelivered(x: Station, y: Station, p: Packet)
    requires AllDelivered(x, y) && y.node.dev.log[RX_OVF] == 0
    requires x.packets == [p] && Sendable(p) && p.destAddr == y.stack.self
    ensures y.stack.delivered == [p]
  {
    OnePacket(y.stack.self, p);
  }

  lemma CapacityOfNode(n: Node, step: Step)
    ensures Next(n, step).dev.capacity == n.dev.capacity
  {
    if step.Tick? { RxTickEffect(n, step.sample); }
  }

  lemma CapacityOfAct(me: Station, other: Station, act: Action)
    ensures Acted(me, other, act).node.dev.capacity == me.node.dev.capacity
    ensures Affected(me, other, act).node.dev.capacity == other.node.dev.capacity
  {
    match act
    case SendPacket(dest, opcode, data) =>
      CapacityOfNode(me.node, BeginWrite(Serialize(me.stack.self, dest, opcode, data)));
    case Store => CapacityOfNode(me.node, Main);
    case TimerTick => CapacityOfNode(me.node, Tick(Line(me, other), false));
    case EdgeInt => CapacityOfNode(me.node, DoutEdge);
    case StartRead => CapacityOfNode(me.node, ReadByte);
  }

  lemma CapacityOfStep(w: Network, step: NetStep)
    ensures NetNext(w, step).a.node.dev.capacity == w.a.node.dev.capacity
    ensures NetNext(w, step).b.node.dev.capacity == w.b.node.dev.capacity
  {
    match step
    case ByA(act) => CapacityOfAct(w.a, w.b, act);
    case ByB(act) => CapacityOfAct(w.b, w.a, act);
  }

  lemma {:induction false} CapacityKept(w: Network, steps: seq<NetStep>)
    ensures NetRun(w, steps).a.node.dev.capacity == w.a.node.dev.capacity
    ensures NetRun(w, steps).b.node.dev.capacity == w.b.node.dev.capacity
    decreases |steps|
  {
    if steps != [] {
      CapacityOfStep(w, steps[0]);
      CapacityKept(NetNext(w, steps[0]), steps[1..]);
    }
  }

  /** What a request must satisfy for the theorem below. */
  ghost predicate Request(w: Network, opcode: Byte, data: seq<Byte>) {
    && FreshNetwork(w) && |data| <= HBS_MAX_DATA_LEN
    && HBS_HEADER_SIZE + |data| <= w.b.node.dev.capacity
  }

  function RequestStep(w: Network, opcode: Byte, data: seq<Byte>): NetStep {
    ByA(SendPacket(w.b.stack.self, opcode, data))
  }

  function RequestPacket(w: Network, opcode: Byte, data: seq<Byte>): Packet {
    SentPacket(w.a.stack.self, w.b.stack.self, opcode, data)
  }

  lemma FreshCanSend(w: Network, opcode: Byte, data: seq<Byte>)
    requires Request(w, opcode, data)
    ensures CanStep(w, RequestStep(w, opcode, data))
    ensures NetNext(w, RequestStep(w, opcode, data)).a.packets == [RequestPacket(w, opcode, data)]
    ensures NetNext(w, RequestStep(w, opcode, data)).b.packets == []
  {
    assert [] + [RequestPacket(w, opcode, data)] == [RequestPacket(w, opcode, data)];
  }

  lemma RequestSent(w: Network, opcode: Byte, data: seq<Byte>)
    requires Request(w, opcode, data)
    ensures var m := NetNext(w, RequestStep(w, opcode, data));
            NetOk(m) && Explained(m) && m.b.node.dev.capacity == w.b.node.dev.capacity
            && m.a.node.dev.capacity == w.a.node.dev.capacity
            && m.a.stack.self == w.a.stack.self && m.b.stack.self == w.b.stack.self
  {
    var step := RequestStep(w, opcode, data);
    FreshNetworkIsOk(w);
    FreshIsExplained(w);
    FreshCanSend(w, opcode, data);
    NetStepOk(w, step);
    OverflowStep(w, step);
    CapacityOfStep(w, step);
    StepKeepsPackets(w, step);
  }

  /** What holds after the request until the response is sent. */
  lemma RequestUnderWay(w: Network, opcode: Byte, data: seq<Byte>, first: seq<NetStep>)
    requires Request(w, opcode, data)
    requires NetValid(NetNext(w, RequestStep(w, opcode, data)), first) && forall s <- first :: NoPacket(s)
    ensures var m := NetRun(NetNext(w, RequestStep(w, opcode, data)), first);
            && NetOk(m) && Explained(m) && m.b.node.dev.log[RX_OVF] == 0
            && m.a.packets == [RequestPacket(w, opcode, data)] && m.b.packets == []
            && m.a.stack.self == w.a.stack.self && m.b.stack.self == w.b.stack.self
            && m.a.node.dev.capacity == w.a.node.dev.capacity && m.b.node.dev.capacity == w.b.node.dev.capacity
  {
    var sent := NetNext(w, RequestStep(w, opcode, data));
    RequestSent(w, opcode, data);
    FreshCanSend(w, opcode, data);
    NetRunOk(sent, first);
    OverflowRun(sent, first);
    SchedulesAreBounded(sent, first);
    RunKeepsSelf(sent, first);
    CapacityKept(sent, first);
    OnePacket(w.b.stack.self, RequestPacket(w, opcode, data));
  }

  /** A response to a request that was delivered, and everything after it. */
  lemma ResponseArrives(m: Network, request: Packet, opcode: Byte, data: seq<Byte>, second: seq<NetStep>)
    requires NetOk(m) && Explained(m) && m.b.node.dev.log[RX_OVF] == 0 && m.b.node.pc.Ready?
    requires m.a.packets == [request] == m.b.stack.delivered && m.b.packets == []
    requires Sendable(request) && request.destAddr == m.b.stack.self
    requires HBS_HEADER_SIZE + |request.data| <= m.b.node.dev.capacity
    requires |data| <= HBS_MAX_DATA_LEN && HBS_HEADER_SIZE + |data| <= m.a.node.dev.capacity
    requires RunsOut(NetNext(m, ByB(SendPacket(m.a.stack.self, opcode, data))), second)
    ensures CanStep(m, ByB(SendPacket(m.a.stack.self, opcode, data)))
    ensures var n := NetRun(NetNext(m, ByB(SendPacket(m.a.stack.self, opcode, data))), second);
            && n.b.stack.delivered == [request]
            && n.a.stack.delivered == [SentPacket(m.b.stack.self, m.a.stack.self, opcode, data)]
  {
    var send := ByB(SendPacket(m.a.stack.self, opcode, data));
    var p := SentPacket(m.b.stack.self, m.a.stack.self, opcode, data);
    var sent := NetNext(m, send);
    OnePacket(m.b.stack.self, request);
    AnswerIsFree(m.a, m.b);
    NetStepOk(m, send);
    OverflowStep(m, send);
    RestArrives(sent, second);
    CapacityOfStep(m, send);
    CapacityKept(sent, second);
    assert sent.b.packets == [p] && sent.a.packets == [request];
    OnePacket(m.a.stack.self, p);
    OneDelivered(NetRun(sent, second).a, NetRun(sent, second).b, request);
    OneDelivered(NetRun(sent, second).b, NetRun(sent, second).a, p);
  }

  /**
   * The exchange of the example program. A sends a request; after any schedule at whose end B's callback has got
   * it, even if A is still inside its write, B can send its response; and when nothing more can happen, B's
   * callback has got exactly the request and A's exactly the response, each with the right fields.
   */
  lemma RequestAndResponseArrive(w: Network, op1: Byte, data1: seq<Byte>, first: seq<NetStep>,
                                 op2: Byte, data2: seq<Byte>, second: seq<NetStep>)
    requires Request(w, op1, data1) && |data2| <= HBS_MAX_DATA_LEN && HBS_HEADER_SIZE + |data2| <= w.a.node.dev.capacity
    requires NetValid(NetNext(w, RequestStep(w, op1, data1)), first) && forall s <- first :: NoPacket(s)
    requires var m := NetRun(NetNext(w, RequestStep(w, op1, data1)), first);
             && m.b.node.pc.Ready? && m.b.stack.delivered == [RequestPacket(w, op1, data1)]
             && RunsOut(NetNext(m, ByB(SendPacket(w.a.stack.self, op2, data2))), second)
    ensures var m := NetRun(NetNext(w, RequestStep(w, op1, data1)), first);
            var n := NetRun(NetNext(m, ByB(SendPacket(w.a.stack.self, op2, data2))), second);
            && CanStep(w, RequestStep(w, op1, data1)) && CanStep(m, ByB(SendPacket(w.a.stack.self, op2, data2)))
            && n.b.stack.delivered == [RequestPacket(w, op1, data1)]
            && n.a.stack.delivered == [SentPacket(w.b.stack.self, w.a.stack.self, op2, data2)]
  {
    FreshCanSend(w, op1, data1);
    RequestUnderWay(w, op1, data1, first);
    var m := NetRun(NetNext(w, RequestStep(w, op1, data1)), first);
    ResponseArrives(m, RequestPacket(w, op1, data1), op2, data2, second);
  }

  // ---------------------------------------------------------------- turn-around

  /** A device is about to drive the first level of a frame, when all before it is sampled. */
  ghost predicate BeginsFrame(me: Station, other: Station) {
    && Pair(me, other) && me.node.dev.bus.BusTx? && Drives(me.node.dev.tx)
    && Enabled(me.node, Tick(Line(me, other), false)) && Timely(me.node, Tick(Line(me, other), false))
    && |other.node.seen.sampled| == |me.node.sent.driven| && |me.node.sent.driven| % FRAME_BITS == 0
  }

  lemma LineFalls(me: Station, other: Station)
    requires BeginsFrame(me, other)
    ensures Falls(me, other)
  {
    var node' := TxTickStep(me.node, false);
    TicksWhileSpinning(me.node, Line(me, other));
    SendingAlone(me, other);
    SenderTick(me.node);
    QuietLine(me, other, node');
    FallsAtFrameStart(me.node.sent.driven, me.node.sent.written);
  }

  /**
   * The line falls then, whatever the other device does; and this raises the other device's interrupt if and only
   * if that one is outside the part of a write that disables it.
   */
  lemma TurnAround(me: Station, other: Station)
    requires BeginsFrame(me, other)
    ensures Falls(me, other) && !other.edge && Affected(me, other, TimerTick).edge == !InWrite(other.node.pc)
  {
    LineFalls(me, other);
    BoundaryListens(other.node.dev.rx, other.edge, |me.node.sent.driven|);
    ListensOutsideWrites(other.node);
  }

  lemma BoundaryListens(rx: Receiver, edge: bool, count: nat)
    requires Listening(rx, edge, count, count) && count % FRAME_BITS == 0
    ensures !rx.ongoing && !edge
  {}

  lemma ListensOutsideWrites(n: Node)
    requires Safe(n) && !n.dev.rx.ongoing
    ensures n.dev.dout == !InWrite(n.pc)
  {}

  // ---------------------------------------------------------------- that it is needed

  /** A schedule without new packets. */
  ghost predicate Schedule(w: Network, steps: seq<NetStep>) {
    NetValid(w, steps) && forall s <- steps :: NoPacket(s)
  }

  lemma OneMoreStep(w: Network, step: NetStep, rest: seq<NetStep>)
    requires CanStep(w, step) && NoPacket(step) && Schedule(NetNext(w, step), rest)
    ensures Schedule(w, [step] + rest) && NetRun(w, [step] + rest) == NetRun(NetNext(w, step), rest)
  {
    assert ([step] + rest)[1..] == rest;
  }

  lemma {:induction false} ScheduleThen(w: Network, first: seq<NetStep>, second: seq<NetStep>)
    requires Schedule(w, first) && Schedule(NetRun(w, first), second)
    ensures Schedule(w, first + second) && NetRun(w, first + second) == NetRun(NetRun(w, first), second)
    decreases |first|
  {
    if first == [] {
      assert first + second == second;
    } else {
      ScheduleThen(NetNext(w, first[0]), first[1..], second);
      OneMoreStep(w, first[0], first[1..] + second);
      assert first + second == [first[0]] + (first[1..] + second);
    }
  }

  lemma StaysInWrite(x: Station, y: Station, act: Action)
    requires Pair(x, y) && Sends(x.node.pc) && !Delivered(x, y) && |y.node.seen.sampled| == |x.node.sent.driven|
    requires CanAct(x, y, act) && (act.Store? || act.TimerTick?)
    ensures Sends(Acted(x, y, act).node.pc)
  {
    if act.TimerTick? {
      TickIsTxOrRx(x.node, Line(x, y));
      SendingAlone(x, y);
      TxTickKeepsReceiver(x.node);
    }
  }

  /** B goes first, and A only when B has sampled all there is. */
  lemma TowardsDelivery(w: Network) returns (step: NetStep)
    requires NetOk(w) && Sends(w.a.node.pc) && !Delivered(w.a, w.b)
    ensures CanStep(w, step) && NoPacket(step) && Sends(NetNext(w, step).a.node.pc)
  {
    NeverAhead(w.a, w.b);
    PairIsSymmetric(w.a, w.b);
    if |w.b.node.seen.sampled| < |w.a.node.sent.driven| {
      ReceiverMoves(w.a, w.b);
      step := ByB(SomeAct(w.b, w.a));
    } else if Sends(w.b.node.pc) {
      FinisherMoves(w.b, w.a);
      step := ByB(SomeAct(w.b, w.a));
    } else {
      SenderMoves(w.a, w.b);
      WriterMoves(w.a.node, Line(w.a, w.b));
      var act := if CanAct(w.a, w.b, Store) then Store else TimerTick;
      StaysInWrite(w.a, w.b, act);
      step := ByA(act);
    }
  }

  lemma {:induction false} DeliveredWhileSending(w: Network) returns (steps: seq<NetStep>)
    requires NetOk(w) && Sends(w.a.node.pc)
    ensures Schedule(w, steps)
    ensures var n := NetRun(w, steps); NetOk(n) && Sends(n.a.node.pc) && Delivered(n.a, n.b)
    decreases Work(w)
  {
    if Delivered(w.a, w.b) {
      steps := [];
    } else {
      var step := TowardsDelivery(w);
      WorkShrinks(w, step);
      NetStepOk(w, step);
      WorkIsNatural(w);
      WorkIsNatural(NetNext(w, step));
      var rest := DeliveredWhileSending(NetNext(w, step));
      OneMoreStep(w, step, rest);
      steps := [step] + rest;
    }
  }

  lemma StoreOfRead(me: Station, other: Station)
    requires me.node.pc.Reading?
    ensures !Sends(Acted(me, other, Store).node.pc) && Acted(me, other, Store).node.seen == me.node.seen
    ensures Affected(me, other, Store) == other
  {
    MainEffect(me.node);
  }

  lemma StartOfRead(me: Station, other: Station)
    requires me.node.pc.Ready?
    ensures !Sends(Acted(me, other, StartRead).node.pc) && Acted(me, other, StartRead).node.seen == me.node.seen
    ensures Affected(me, other, StartRead) == other
  {}

  lemma ReadStep(w: Network) returns (step: NetStep)
    requires NetOk(w) && !Sends(w.b.node.pc) && !Idle(w.b)
    ensures CanStep(w, step) && NoPacket(step)
    ensures NetNext(w, step).a == w.a && !Sends(NetNext(w, step).b.node.pc)
    ensures NetNext(w, step).b.node.seen == w.b.node.seen
  {
    ReadyOrReading(w.b.node);
    if w.b.node.pc.Ready? {
      StartOfRead(w.b, w.a);
      step := ByB(StartRead);
    } else {
      StoreOfRead(w.b, w.a);
      step := ByB(Store);
    }
  }

  /** B reads its queue, while A stays where it is. */
  lemma {:induction false} ReadAll(w: Network) returns (steps: seq<NetStep>)
    requires NetOk(w) && !Sends(w.b.node.pc)
    ensures Schedule(w, steps)
    ensures var n := NetRun(w, steps); NetOk(n) && n.a == w.a && Idle(n.b) && n.b.node.seen == w.b.node.seen
    decreases Work(w)
  {
    if Idle(w.b) {
      steps := [];
    } else {
      var step := ReadStep(w);
      WorkShrinks(w, step);
      NetStepOk(w, step);
      WorkIsNatural(w);
      WorkIsNatural(NetNext(w, step));
      var rest := ReadAll(NetNext(w, step));
      OneMoreStep(w, step, rest);
      steps := [step] + rest;
    }
  }

  /** Without a new packet, a device that is not sending does not begin to, and its transmitter rests. */
  lemma {:induction false} NobodyElseSends(w: Network, steps: seq<NetStep>)
    requires NetOk(w) && Schedule(w, steps) && !Sends(w.b.node.pc)
    ensures var b := NetRun(w, steps).b.node;
            !Sends(b.pc) && b.dev.tx == w.b.node.dev.tx && b.sent == w.b.node.sent
    decreases |steps|
  {
    if steps != [] {
      StepStartsNoWrite(w, steps[0]);
      NetStepOk(w, steps[0]);
      NobodyElseSends(NetNext(w, steps[0]), steps[1..]);
    }
  }

  lemma StoreStartsNoWrite(n: Node)
    requires !Sends(n.pc)
    ensures !Sends(MainStep(n).pc) && MainStep(n).dev.tx == n.dev.tx && MainStep(n).sent == n.sent
  {}

  lemma TickStartsNoWrite(n: Node, sample: bool)
    requires Safe(n) && !Sends(n.pc)
    ensures var n' := TickStep(n, sample, false); n'.pc == n.pc && n'.dev.tx == n.dev.tx && n'.sent == n.sent
  {
    if n.dev.bus.BusRx? { RxTickKeepsSender(n, sample); }
  }

  lemma ActStartsNoWrite(me: Station, other: Station, act: Action)
    requires Safe(me.node) && CanAct(me, other, act) && !act.SendPacket? && !Sends(me.node.pc)
    ensures var n := Acted(me, other, act).node;
            !Sends(n.pc) && n.dev.tx == me.node.dev.tx && n.sent == me.node.sent
  {
    match act
    case Store => StoreStartsNoWrite(me.node);
    case TimerTick => TickStartsNoWrite(me.node, Line(me, other));
    case EdgeInt => EdgeKeepsSender(me.node);
    case StartRead =>
  }

  lemma StepStartsNoWrite(w: Network, step: NetStep)
    requires NetOk(w) && CanStep(w, step) && NoPacket(step) && !Sends(w.b.node.pc)
    ensures var b := NetNext(w, step).b.node;
            !Sends(b.pc) && b.dev.tx == w.b.node.dev.tx && b.sent == w.b.node.sent
  {
    match step
    case ByA(act) =>
    case ByB(act) => ActStartsNoWrite(w.b, w.a, act);
  }

  /**
   * The turn-around is not idle: after a request there is a schedule by which B's callback has got it, and B may
   * send, while A is still inside its write.
   */
  lemma AnswerCanBeEarly(w: Network, opcode: Byte, data: seq<Byte>) returns (steps: seq<NetStep>)
    requires Request(w, opcode, data)
    ensures Schedule(NetNext(w, RequestStep(w, opcode, data)), steps)
    ensures var m := NetRun(NetNext(w, RequestStep(w, opcode, data)), steps);
            && m.b.node.pc.Ready? && m.b.stack.delivered == [RequestPacket(w, opcode, data)]
            && LineIsFree(m.b, m.a) && InWrite(m.a.node.pc)
  {
    var sent := NetNext(w, RequestStep(w, opcode, data));
    RequestSent(w, opcode, data);
    FreshStandsBy(w, opcode, data);
    var first := DeliveredWhileSending(sent);
    var m := NetRun(sent, first);
    NobodyElseSends(sent, first);
    var second := ReadAll(m);
    ScheduleThen(sent, first, second);
    steps := first + second;
    RequestUnderWay(w, opcode, data, steps);
    EarlyDelivery(NetRun(m, second), RequestPacket(w, opcode, data));
  }

  lemma FreshStandsBy(w: Network, opcode: Byte, data: seq<Byte>)
    requires Request(w, opcode, data)
    ensures var m := NetNext(w, RequestStep(w, opcode, data)); Sends(m.a.node.pc) && m.b == w.b && !Sends(m.b.node.pc)
  {}

  lemma EarlyDelivery(n: Network, request: Packet)
    requires NetOk(n) && Idle(n.b) && Sends(n.a.node.pc) && Delivered(n.a, n.b) && n.b.node.dev.log[RX_OVF] == 0
    requires n.a.packets == [request] && Sendable(request) && request.destAddr == n.b.stack.self
    ensures n.b.stack.delivered == [request] && LineIsFree(n.b, n.a) && InWrite(n.a.node.pc)
  {
    DrainedMeansDelivered(n.a, n.b);
    OneDelivered(n.a, n.b, request);
    if n.a.node.pc.Prepared? { PreparedIsUndelivered(n.a, n.b); }
  }

  // ---------------------------------------------------------------- the response that is lost without it

  /** A store before the spin leaves the data alone, and the last of them comes to its first level. */
  lemma PreparingStore(me: Station, other: Station)
    requires Pair(me, other) && Preparing(me.node.pc) && me.node.dev.tx.words != []
    ensures CanAct(me, other, Store) && Affected(me, other, Store) == other
    ensures var n := Acted(me, other, Store).node;
            && n.sent == me.node.sent && n.dev.tx.words == me.node.dev.tx.words
            && n.dev.tx.collation == me.node.dev.tx.collation
            && (if me.node.pc.ByteReset? then
                  n.pc.Spinning? && n.dev.bus.BusTx? && n.dev.timer && !Exhausted(n.dev.tx)
                else Preparing(n.pc))
  {}

  /** B makes the stores of its write up to the spin, while A stays where it is. */
  lemma {:induction false} UpToTheSpin(w: Network) returns (steps: seq<NetStep>)
    requires NetOk(w) && Preparing(w.b.node.pc) && w.b.node.dev.tx.words != [] && !w.b.node.dev.tx.collation
    ensures Schedule(w, steps)
    ensures var n := NetRun(w, steps); var b := n.b.node;
            && NetOk(n) && n.a == w.a && b.sent == w.b.node.sent
            && b.pc.Spinning? && b.dev.bus.BusTx? && b.dev.timer && Drives(b.dev.tx)
    decreases Work(w)
  {
    var step := ByB(Store);
    PairIsSymmetric(w.a, w.b);
    PreparingStore(w.b, w.a);
    WorkShrinks(w, step);
    NetStepOk(w, step);
    WorkIsNatural(w);
    WorkIsNatural(NetNext(w, step));
    var rest: seq<NetStep> := [];
    if !w.b.node.pc.ByteReset? { rest := UpToTheSpin(NetNext(w, step)); }
    OneMoreStep(w, step, rest);
    steps := [step] + rest;
  }

  /** B is about to drive its first level, and A will not notice. */
  ghost predicate Missed(n: Network) {
    && BeginsFrame(n.b, n.a) && n.b.node.sent.driven == [] && InWrite(n.a.node.pc)
    && Falls(n.b, n.a) && !Affected(n.b, n.a, TimerTick).edge
  }

  lemma FirstLevelIsMissed(n: Network)
    requires NetOk(n) && InWrite(n.a.node.pc) && n.b.node.sent.driven == []
    requires n.b.node.pc.Spinning? && n.b.node.dev.bus.BusTx? && n.b.node.dev.timer && Drives(n.b.node.dev.tx)
    ensures Missed(n)
  {
    PairIsSymmetric(n.a, n.b);
    assert |n.a.node.seen.sampled| <= |n.b.node.sent.driven|;
    TurnAround(n.b, n.a);
  }

  lemma AnswerBegun(me: Station, other: Station, dest: Byte, opcode: Byte, data: seq<Byte>)
    requires me.node.pc.Ready?
    ensures var n := Acted(me, other, SendPacket(dest, opcode, data)).node;
            && n.pc.Prepared? && n.dev.tx.words != [] && n.dev.tx.collation == me.node.dev.tx.collation
            && n.sent.driven == me.node.sent.driven
    ensures Affected(me, other, SendPacket(dest, opcode, data)) == other
  {
    assert |Serialize(me.stack.self, dest, opcode, data)| > 0;
  }

  lemma HastyAnswer(m: Network, dest: Byte, opcode: Byte, data: seq<Byte>) returns (steps: seq<NetStep>)
    requires NetOk(m) && CanStep(m, ByB(SendPacket(dest, opcode, data))) && InWrite(m.a.node.pc)
    requires m.b.node.sent.driven == [] && !m.b.node.dev.tx.collation
    ensures var begun := NetNext(m, ByB(SendPacket(dest, opcode, data)));
            Schedule(begun, steps) && Missed(NetRun(begun, steps))
  {
    var begun := NetNext(m, ByB(SendPacket(dest, opcode, data)));
    NetStepOk(m, ByB(SendPacket(dest, opcode, data)));
    AnswerBegun(m.b, m.a, dest, opcode, data);
    steps := UpToTheSpin(begun);
    FirstLevelIsMissed(NetRun(begun, steps));
  }

  /**
   * The run in which the turn-around is not kept: the callback answers at once, and when the line falls for the
   * first level of the response, the requester is still in its write and no interrupt is raised in it.
   */
  lemma HastyAnswerIsMissed(w: Network, op1: Byte, data1: seq<Byte>, op2: Byte, data2: seq<Byte>)
    returns (first: seq<NetStep>, second: seq<NetStep>)
    requires Request(w, op1, data1) && |data2| <= HBS_MAX_DATA_LEN
    ensures Schedule(NetNext(w, RequestStep(w, op1, data1)), first)
    ensures var m := NetRun(NetNext(w, RequestStep(w, op1, data1)), first);
            var begun := NetNext(m, ByB(SendPacket(w.a.stack.self, op2, data2)));
            && m.b.stack.delivered == [RequestPacket(w, op1, data1)]
            && CanStep(m, ByB(SendPacket(w.a.stack.self, op2, data2)))
            && Schedule(begun, second) && Missed(NetRun(begun, second))
  {
    var sent := NetNext(w, RequestStep(w, op1, data1));
    first := AnswerCanBeEarly(w, op1, data1);
    RequestSent(w, op1, data1);
    RequestUnderWay(w, op1, data1, first);
    FreshStandsBy(w, op1, data1);
    NobodyElseSends(sent, first);
    second := HastyAnswer(NetRun(sent, first), w.a.stack.self, op2, data2);
  }

  /** The exchange can be completed, from initialisation. */
  lemma TheExchangeHappens(w: Network, op1: Byte, data1: seq<Byte>, op2: Byte, data2: seq<Byte>)
    returns (first: seq<NetStep>, second: seq<NetStep>)
    requires Request(w, op1, data1) && |data2| <= HBS_MAX_DATA_LEN && HBS_HEADER_SIZE + |data2| <= w.a.node.dev.capacity
    ensures Schedule(NetNext(w, RequestStep(w, op1, data1)), first)
    ensures var m := NetRun(NetNext(w, RequestStep(w, op1, data1)), first);
            && InWrite(m.a.node.pc) && CanStep(m, ByB(SendPacket(w.a.stack.self, op2, data2)))
            && NetValid(NetNext(m, ByB(SendPacket(w.a.stack.self, op2, data2))), second)
            && var n := NetRun(NetNext(m, ByB(SendPacket(w.a.stack.self, op2, data2))), second);
               && n.b.stack.delivered == [RequestPacket(w, op1, data1)]
               && n.a.stack.delivered == [SentPacket(w.b.stack.self, w.a.stack.self, op2, data2)]
  {
    first := AnswerCanBeEarly(w, op1, data1);
    var m := NetRun(NetNext(w, RequestStep(w, op1, data1)), first);
    RequestUnderWay(w, op1, data1, first);
    NetStepOk(m, ByB(SendPacket(w.a.stack.self, op2, data2)));
    second := ItDoesRunOut(NetNext(m, ByB(SendPacket(w.a.stack.self, op2, data2))));
    ResponseArrives(m, RequestPacket(w, op1, data1), op2, data2, second);
  }
}
