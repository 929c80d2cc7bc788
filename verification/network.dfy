/**
 * Two devices on one line, each sending packets and receiving them: the whole path from adi_hbs_Send
 * through the line to the user callback, over any schedule of both devices' interrupts and main loops.
 */
module Network {
  import opened Bytes
  import opened Frame
  import opened RxStateMachine
  import opened ReceiverRuns
  import opened Transmitter
  import opened Node
  import opened Homebus
  import opened Link

  /**
   * A device with its packet stack. `edge` is a pending falling-edge interrupt, `packets` are the ones it
   * was asked to send. Its main loop sends, or reads a byte and gives it to the stack.
   */
  datatype Station = Station(node: Node, edge: bool, stack: Stack, packets: seq<Packet>)

  datatype Network = Network(a: Station, b: Station)

  datatype Action =
    | SendPacket(dest: Byte, opcode: Byte, data: seq<Byte>)
    | Store        // next store of the main code, inside a write or a read
    | TimerTick
    | EdgeInt
    | StartRead

  datatype NetStep = ByA(act: Action) | ByB(act: Action)

  predicate FreshStation(s: Station) {
    Fresh(s.node) && Agrees(s.node.dev.layout) && !s.edge && s.stack == NewStack(s.stack.self) && s.packets == []
  }

  /** Both devices initialised, and both stacks with a callback registered. */
  predicate FreshNetwork(w: Network) {
    FreshStation(w.a) && FreshStation(w.b)
  }

  function NewStack(self: Byte): Stack {
    Stack(self, true, [], [], 0)
  }

  /** The level on the line, which both devices read back: low if either one drives it low. */
  predicate Line(x: Station, y: Station) {
    x.node.dev.tx.din && y.node.dev.tx.din
  }

  /** All that x was given to send has been sampled by y. */
  predicate Delivered(x: Station, y: Station) {
    |y.node.seen.sampled| == FRAME_BITS * |x.node.sent.written|
  }

  /** Half duplex: a device begins to send only when it has received all that the other one was given to send. */
  predicate LineIsFree(me: Station, other: Station) {
    Delivered(other, me)
  }

  /**
   * The order assumptions on the line. A level is sampled after it is driven, and before the next one is.
   * Turn-around: a device does not drive while the other one, at the end of its own write, still has its
   * falling-edge interrupt disabled.
   */
  predicate InOrder(me: Station, other: Station) {
    && (me.node.dev.bus.BusTx? && Drives(me.node.dev.tx) ==>
          |other.node.seen.sampled| == |me.node.sent.driven| && !InWrite(other.node.pc))
    && (me.node.dev.bus.BusRx? && WantsSample(me.node.dev.rx) ==> |me.node.seen.sampled| < |other.node.sent.driven|)
  }

  /** What a device can do next. */
  predicate CanAct(me: Station, other: Station, act: Action) {
    match act
    case SendPacket(_, _, data) => me.node.pc.Ready? && |data| <= HBS_MAX_DATA_LEN && LineIsFree(me, other)
    case Store => Enabled(me.node, Main)
    case TimerTick =>
      var tick := Tick(Line(me, other), false);
      Enabled(me.node, tick) && Timely(me.node, tick) && InOrder(me, other)
    case EdgeInt => me.edge && Enabled(me.node, DoutEdge)
    case StartRead => me.node.pc.Ready? && me.node.dev.queue != []
  }

  function Sending(me: Station, dest: Byte, opcode: Byte, data: seq<Byte>): Station {
    me.(node := Next(me.node, BeginWrite(Serialize(me.stack.self, dest, opcode, data))),
        packets := me.packets + [SentPacket(me.stack.self, dest, opcode, data)])
  }

  /** The store that ends a pop hands the byte to the stack. */
  function Stored(me: Station): Station {
    me.(node := MainStep(me.node),
        stack := if me.node.pc.Reading? && me.node.dev.queue != [] then Receive(me.stack, me.node.dev.queue[0])
                 else me.stack)
  }

  function Ticked(me: Station, sample: bool): Station {
    me.(node := Next(me.node, Tick(sample, false)))
  }

  /** A falling line raises the interrupt of every device that has it enabled. */
  function Notified(s: Station, fell: bool): Station {
    s.(edge := s.edge || (s.node.dev.dout && fell))
  }

  predicate Falls(me: Station, other: Station) {
    Line(me, other) && !Line(Ticked(me, Line(me, other)), other)
  }

  /** This device after an action of its own. */
  function Acted(me: Station, other: Station, act: Action): Station {
    match act
    case SendPacket(dest, opcode, data) => Sending(me, dest, opcode, data)
    case Store => Stored(me)
    case TimerTick => Ticked(Notified(me, Falls(me, other)), Line(me, other))
    case EdgeInt => me.(node := Next(me.node, DoutEdge), edge := false)
    case StartRead => me.(node := Next(me.node, ReadByte))
  }

  /** The other device after it. */
  function Affected(me: Station, other: Station, act: Action): Station {
    if act.TimerTick? then Notified(other, Falls(me, other)) else other
  }

  predicate CanStep(w: Network, step: NetStep) {
    match step
    case ByA(act) => CanAct(w.a, w.b, act)
    case ByB(act) => CanAct(w.b, w.a, act)
  }

  function NetNext(w: Network, step: NetStep): Network {
    match step
    case ByA(act) => Network(Acted(w.a, w.b, act), Affected(w.a, w.b, act))
    case ByB(act) => Network(Affected(w.b, w.a, act), Acted(w.b, w.a, act))
  }

  function NetRun(w: Network, steps: seq<NetStep>): Network
    decreases |steps|
  {
    if steps == [] then w else NetRun(NetNext(w, steps[0]), steps[1..])
  }

  predicate NetValid(w: Network, steps: seq<NetStep>)
    decreases |steps|
  {
    steps == [] || (CanStep(w, steps[0]) && NetValid(NetNext(w, steps[0]), steps[1..]))
  }

  // ---------------------------------------------------------------- the invariant

  /**
   * From x to y: x drives the stream of its packets, y samples it one level behind at most, and what y's
   * stack has seen is what y's queue has given up.
   */
  ghost predicate Connected(x: Station, y: Station) {
    && Sender(x.node)
    && GoodReceiver(y.node, x.node.sent.written)
    && y.node.seen.sampled <= x.node.sent.driven
    && Listening(y.node.dev.rx, y.edge, |x.node.sent.driven|, |y.node.seen.sampled|)
    && x.node.sent.written == WireAll(x.packets)
    && (forall p <- x.packets :: Sendable(p))
    && y.stack == ReceiveAll(NewStack(y.stack.self), y.node.taken.removed)
  }

  /** A device that sends has nothing left to sample; as it begins, it has received everything. */
  ghost predicate OneSide(x: Station, y: Station) {
    && (Sends(x.node.pc) ==> |x.node.seen.sampled| == |y.node.sent.driven|)
    && (x.node.pc.Prepared? ==> Delivered(y, x) && x.node.dev.tx.words != [])
  }

  predicate NeverFlushes(pc: Pc) {
    !pc.Clearing? && !pc.ClearingTo?
  }

  ghost predicate Pair(x: Station, y: Station) {
    && Safe(x.node) && Safe(y.node)
    && NeverFlushes(x.node.pc) && NeverFlushes(y.node.pc)
    && Connected(x, y) && Connected(y, x)
    && (Delivered(x, y) || Delivered(y, x))
    && OneSide(x, y) && OneSide(y, x)
  }

  ghost predicate NetOk(w: Network) {
    Pair(w.a, w.b)
  }

  lemma PairIsSymmetric(x: Station, y: Station)
    requires Pair(x, y)
    ensures Pair(y, x)
  {}

  lemma ListeningAtRest(rx: Receiver, edge: bool, frames: nat)
    requires Listening(rx, edge, FRAME_BITS * frames, FRAME_BITS * frames) && ReceiverOk(rx)
    ensures rx == INITIAL && !edge
  {
    assert (FRAME_BITS * frames) % FRAME_BITS == 0;
  }

  /** Everything delivered: the receiver is as after initialisation, and the sender leaves the line high. */
  lemma DeliveredFacts(x: Station, y: Station)
    requires Connected(x, y) && Delivered(x, y)
    ensures y.node.dev.rx == INITIAL && !y.edge
    ensures |x.node.sent.driven| == FRAME_BITS * |x.node.sent.written| && x.node.dev.tx.din
  {
    ListeningAtRest(y.node.dev.rx, y.edge, |x.node.sent.written|);
    HighAtBoundary(x.node);
  }

  lemma PreparedIsUndelivered(x: Station, y: Station)
    requires Connected(x, y) && x.node.pc.Prepared? && x.node.dev.tx.words != []
    ensures !Delivered(x, y)
  {}

  lemma FreshConnected(x: Station, y: Station)
    requires FreshStation(x) && FreshStation(y)
    ensures Connected(x, y) && Delivered(x, y) && OneSide(x, y)
  {
    FreshSender(x.node);
    FreshReceiver(y.node);
  }

  lemma FreshNetworkIsOk(w: Network)
    requires FreshNetwork(w)
    ensures NetOk(w)
  {
    FreshIsOk(w.a.node);
    FreshIsOk(w.b.node);
    FreshConnected(w.a, w.b);
    FreshConnected(w.b, w.a);
  }

  // ---------------------------------------------------------------- sending a packet

  /** A device changes only what is nothing to its receiving side. */
  lemma ReceivingSideKept(x: Station, y: Station, y': Station)
    requires Connected(x, y)
    requires SameReceiver(y.node, y'.node) && InCall(y'.node.pc, |y'.node.dev.queue|)
    requires y'.edge == y.edge && y'.stack == y.stack
    ensures Connected(x, y')
  {
    ReceiverKept(y.node, y'.node, x.node.sent.written);
  }

  /** A device changes only what is nothing to its sending side. */
  lemma SendingSideKept(x: Station, y: Station, x': Station)
    requires Connected(x, y) && !Sends(x.node.pc) && !Sends(x'.node.pc)
    requires x'.node.sent == x.node.sent && x'.node.dev.tx == x.node.dev.tx && x'.packets == x.packets
    ensures Connected(x', y)
  {
    SenderKept(x.node, x'.node);
  }

  lemma SendJoinsStream(me: Station, other: Station, dest: Byte, opcode: Byte, data: seq<Byte>)
    requires Connected(me, other) && me.node.pc.Ready? && |data| <= HBS_MAX_DATA_LEN
    ensures Connected(Sending(me, dest, opcode, data), other)
  {
    var raw := Serialize(me.stack.self, dest, opcode, data);
    SenderBegins(me.node, raw);
    GoodFramesGrow(other.node.seen.frames, me.node.sent.written, raw);
    WireOfSent(me.stack.self, dest, opcode, data);
    WireAllAppend(me.packets, SentPacket(me.stack.self, dest, opcode, data));
  }

  lemma BeginKeepsReceiver(n: Node, data: seq<Byte>)
    ensures SameReceiver(n, Next(n, BeginWrite(data))) && InCall(Next(n, BeginWrite(data)).pc, |n.dev.queue|)
  {}

  lemma SendOk(me: Station, other: Station, dest: Byte, opcode: Byte, data: seq<Byte>)
    requires Pair(me, other) && CanAct(me, other, SendPacket(dest, opcode, data))
    ensures Pair(Sending(me, dest, opcode, data), other)
  {
    var raw := Serialize(me.stack.self, dest, opcode, data);
    SafeStep(me.node, BeginWrite(raw));
    SendJoinsStream(me, other, dest, opcode, data);
    BeginKeepsReceiver(me.node, raw);
    ReceivingSideKept(other, me, Sending(me, dest, opcode, data));
    DeliveredFacts(other, me);
    if other.node.pc.Prepared? { PreparedIsUndelivered(other, me); }
  }

  // ---------------------------------------------------------------- stores of the main code

  lemma NothingToHear(rx: Receiver, edge: bool, count: nat)
    requires Listening(rx, edge, count, count) && ReceiverOk(rx) && !rx.ongoing
    ensures rx == INITIAL && !edge && count % FRAME_BITS == 0
  {}

  /** A sending device hears nothing, so that its write starts with no frame in progress. */
  lemma SendingAlone(me: Station, other: Station)
    requires Pair(me, other) && Sends(me.node.pc)
    ensures me.node.dev.rx == INITIAL && !me.edge && other.node.dev.tx.din
  {
    if me.node.pc.Prepared? {
      DeliveredFacts(other, me);
    } else {
      NothingToHear(me.node.dev.rx, me.edge, |other.node.sent.driven|);
      HighAtBoundary(other.node);
    }
  }

  lemma WriteStoreKeepsSending(me: Station, other: Station)
    requires Connected(me, other) && Safe(me.node) && Sends(me.node.pc) && Enabled(me.node, Main)
    ensures Connected(Stored(me), other)
  {
    SenderMain(me.node);
    MainEffect(me.node);
  }

  lemma WriteStoreOk(me: Station, other: Station)
    requires Pair(me, other) && CanAct(me, other, Store) && Sends(me.node.pc)
    ensures Pair(Stored(me), other)
  {
    SendingAlone(me, other);
    SafeStep(me.node, Main);
    WriteStoreKeepsSending(me, other);
    WriteKeepsReceiver(me.node);
    ReceivingSideKept(other, me, Stored(me));
    StoreKeepsTurns(me, other);
  }

  lemma StoreKeepsTurns(me: Station, other: Station)
    requires Sends(me.node.pc) && OneSide(me, other)
    ensures OneSide(Stored(me), other)
    ensures OneSide(other, me) ==> OneSide(other, Stored(me))
  {
    MainEffect(me.node);
    StoreLeavesPrepared(me.node);
  }

  lemma StoreLeavesPrepared(n: Node)
    ensures !MainStep(n).pc.Prepared?
    ensures Sends(MainStep(n).pc) ==> Sends(n.pc)
  {}

  lemma {:induction false} StackKeepsSelf(s: Stack, bytes: seq<Byte>)
    ensures ReceiveAll(s, bytes).self == s.self && ReceiveAll(s, bytes).hasCb == s.hasCb
  {
    if bytes != [] { StackKeepsSelf(s, bytes[..|bytes| - 1]); }
  }

  lemma OneMoreReceived(self: Byte, removed: seq<Byte>, value: Byte)
    ensures ReceiveAll(NewStack(self), removed + [value]) == Receive(ReceiveAll(NewStack(self), removed), value)
    ensures Receive(ReceiveAll(NewStack(self), removed), value).self == self
  {
    assert (removed + [value])[..|removed|] == removed;
    StackKeepsSelf(NewStack(self), removed);
  }

  lemma ReadReachesStack(x: Station, y: Station)
    requires Connected(x, y) && y.node.pc.Reading?
    ensures Connected(x, Stored(y))
  {
    GoodReceiverPop(y.node, x.node.sent.written);
    PoppedNode(y.node);
    OneMoreReceived(y.stack.self, y.node.taken.removed, y.node.dev.queue[0]);
  }

  lemma ReadStoreOk(me: Station, other: Station)
    requires Pair(me, other) && me.node.pc.Reading?
    ensures Pair(Stored(me), other)
  {
    SafeStep(me.node, Main);
    ReadReachesStack(other, me);
    PoppedNode(me.node);
    SendingSideKept(me, other, Stored(me));
  }

  lemma StartReadOk(me: Station, other: Station)
    requires Pair(me, other) && CanAct(me, other, StartRead)
    ensures Pair(me.(node := Next(me.node, ReadByte)), other)
  {
    var me' := me.(node := Next(me.node, ReadByte));
    SafeStep(me.node, ReadByte);
    ReceivingSideKept(other, me, me');
    SendingSideKept(me, other, me');
  }

  // ---------------------------------------------------------------- driving

  /** In TX the timer interrupts of a spinning write come with the falling-edge interrupt disabled. */
  lemma TicksWhileSpinning(n: Node, sample: bool)
    requires Safe(n) && n.dev.bus.BusTx? && Enabled(n, Tick(sample, false)) && Timely(n, Tick(sample, false))
    ensures n.pc.Spinning? && !n.dev.dout && Next(n, Tick(sample, false)) == TxTickStep(n, false)
  {}

  lemma DriveReaches(me: Station, other: Station, node': Node, fell: bool)
    requires Connected(me, other) && Safe(other.node) && Sender(node') && OneMoreDriven(me.node, node')
    requires node'.sent.written == me.node.sent.written && |other.node.seen.sampled| == |me.node.sent.driven|
    requires fell == (me.node.dev.tx.din && !node'.dev.tx.din) && !InWrite(other.node.pc)
    ensures Connected(me.(node := node'), Notified(other, fell))
  {
    var count := |me.node.sent.driven|;
    if count % FRAME_BITS == 0 { FallsAtFrameStart(me.node.sent.driven, me.node.sent.written); }
    DriveKeepsListening(other.node.dev.rx, other.edge, other.node.dev.dout, fell, count);
  }

  lemma PauseReaches(me: Station, other: Station, node': Node)
    requires Connected(me, other) && Sender(node') && node'.sent == me.node.sent
    ensures Connected(me.(node := node'), other)
  {}

  lemma QuietLine(me: Station, other: Station, node': Node)
    requires other.node.dev.tx.din && node' == TxTickStep(me.node, false)
    requires Next(me.node, Tick(Line(me, other), false)) == node'
    ensures Falls(me, other) == (me.node.dev.tx.din && !node'.dev.tx.din)
  {}

  lemma TxTickReaches(me: Station, other: Station)
    requires Pair(me, other) && CanAct(me, other, TimerTick) && me.node.dev.bus.BusTx?
    requires me.node.pc.Spinning? && other.node.dev.tx.din
    requires Next(me.node, Tick(Line(me, other), false)) == TxTickStep(me.node, false)
    ensures Connected(me.(node := TxTickStep(me.node, false)), Notified(other, Falls(me, other)))
  {
    var node' := TxTickStep(me.node, false);
    SenderTick(me.node);
    QuietLine(me, other, node');
    if Drives(me.node.dev.tx) {
      DriveReaches(me, other, node', Falls(me, other));
    } else {
      PauseReaches(me, other, node');
      assert Notified(other, false) == other;
    }
  }

  /** What is being driven is not delivered, so that the other device has not begun to send. */
  lemma DrivesInTurn(me: Station, other: Station)
    requires Pair(me, other) && CanAct(me, other, TimerTick) && me.node.dev.bus.BusTx? && Drives(me.node.dev.tx)
    requires me.node.pc.Spinning?
    ensures !Sends(other.node.pc)
  {
    SenderTick(me.node);
    if other.node.pc.Prepared? { DeliveredFacts(me, other); }
  }

  lemma TxTickKeepsTurns(me: Station, other: Station, fell: bool)
    requires OneSide(me, other) && OneSide(other, me)
    requires Drives(me.node.dev.tx) ==> !Sends(other.node.pc)
    ensures var (me', other') := (me.(node := TxTickStep(me.node, false)), Notified(other, fell));
            OneSide(me', other') && OneSide(other', me')
  {
    TxTickEffect(me.node);
    TxTickKeepsReceiver(me.node);
  }

  lemma TxTickOk(me: Station, other: Station)
    requires Pair(me, other) && CanAct(me, other, TimerTick) && me.node.dev.bus.BusTx?
    ensures Pair(Acted(me, other, TimerTick), Affected(me, other, TimerTick))
  {
    var (me', other') := (me.(node := TxTickStep(me.node, false)), Notified(other, Falls(me, other)));
    TicksWhileSpinning(me.node, Line(me, other));
    SendingAlone(me, other);
    SafeStep(me.node, Tick(Line(me, other), false));
    TxTickReaches(me, other);
    TxTickKeepsReceiver(me.node);
    TxTickEffect(me.node);
    ReceivingSideKept(other, me, me');
    if Drives(me.node.dev.tx) { DrivesInTurn(me, other); }
    TxTickKeepsTurns(me, other, Falls(me, other));
    assert Acted(me, other, TimerTick) == me';
    NotifiedKeepsSending(other, me', Falls(me, other));
  }

  lemma NotifiedKeepsSending(x: Station, y: Station, fell: bool)
    requires Connected(x, y)
    ensures Connected(Notified(x, fell), y)
  {}

  // ---------------------------------------------------------------- listening

  /** In RX the device is not sending, and the line is what the other one drives. */
  lemma Hearing(me: Station, other: Station)
    requires Pair(me, other) && me.node.dev.rx.ongoing
    ensures !Sends(me.node.pc) && me.node.dev.tx.din && Line(me, other) == other.node.dev.tx.din
    ensures Delivered(me, other)
  {
    if Delivered(other, me) { DeliveredFacts(other, me); }
    SenderAtRest(me.node);
  }

  lemma SampleReaches(x: Station, y: Station, line: bool)
    requires Connected(x, y) && y.node.dev.bus.BusRx? && ReceiverOk(y.node.dev.rx) && y.node.dev.rx.ongoing
    requires line == x.node.dev.tx.din
    requires WantsSample(y.node.dev.rx) ==> |y.node.seen.sampled| < |x.node.sent.driven|
    ensures Connected(x, y.(node := RxTickStep(y.node, line)))
  {
    if WantsSample(y.node.dev.rx) { SampledInOrder(x.node.sent.driven, y.node.seen.sampled, line); }
    GoodReceiverTick(y.node, x.node.sent.driven, x.node.sent.written, line);
    RxTickReceives(y.node, line);
    RxTickEffect(y.node, line);
    SampleKeepsListening(y.node.dev.rx, RxTickStep(y.node, line).dev.rx, line, y.edge,
                         |x.node.sent.driven|, |y.node.seen.sampled|);
  }

  /** A receiving interrupt leaves the line alone. */
  lemma RxTickIsSilent(me: Station, other: Station)
    requires me.node.dev.bus.BusRx?
    ensures !Falls(me, other)
    ensures Acted(me, other, TimerTick) == me.(node := RxTickStep(me.node, Line(me, other)))
    ensures Affected(me, other, TimerTick) == other
  {
    RxTickKeepsSender(me.node, Line(me, other));
  }

  lemma RxTickOk(me: Station, other: Station)
    requires Pair(me, other) && CanAct(me, other, TimerTick) && me.node.dev.bus.BusRx?
    ensures Pair(Acted(me, other, TimerTick), Affected(me, other, TimerTick))
  {
    var me' := me.(node := RxTickStep(me.node, Line(me, other)));
    Hearing(me, other);
    RxTickIsSilent(me, other);
    SafeStep(me.node, Tick(Line(me, other), false));
    SampleReaches(other, me, Line(me, other));
    RxTickKeepsSender(me.node, Line(me, other));
    SendingSideKept(me, other, me');
  }

  lemma TickIsTxOrRx(n: Node, sample: bool)
    requires Safe(n) && Enabled(n, Tick(sample, false)) && Timely(n, Tick(sample, false))
    ensures n.dev.bus.BusTx? || n.dev.bus.BusRx?
  {}

  lemma TickOk(me: Station, other: Station)
    requires Pair(me, other) && CanAct(me, other, TimerTick)
    ensures Pair(Acted(me, other, TimerTick), Affected(me, other, TimerTick))
  {
    TickIsTxOrRx(me.node, Line(me, other));
    if me.node.dev.bus.BusTx? { TxTickOk(me, other); } else { RxTickOk(me, other); }
  }

  /** An edge interrupt is accepted, and starts a frame. */
  lemma EdgeReaches(x: Station, y: Station)
    requires Connected(x, y) && y.edge && !y.node.dev.rx.ongoing
    ensures Connected(x, y.(node := Next(y.node, DoutEdge), edge := false))
  {
    GoodReceiverEdge(y.node, x.node.sent.written);
    EdgeStartsFrame(y.node.dev.rx, |x.node.sent.driven|, |y.node.seen.sampled|);
  }

  lemma EdgeStartsFrame(rx: Receiver, drivenCount: nat, sampledCount: nat)
    requires Listening(rx, true, drivenCount, sampledCount) && !rx.ongoing
    ensures Listening(StartBitEdge(rx), false, drivenCount, sampledCount)
  {}

  lemma EdgeKeepsSender(n: Node)
    ensures var n' := Next(n, DoutEdge);
            n'.sent == n.sent && n'.dev.tx == n.dev.tx && n'.pc == n.pc
  {}

  lemma EdgeOk(me: Station, other: Station)
    requires Pair(me, other) && CanAct(me, other, EdgeInt)
    ensures Pair(me.(node := Next(me.node, DoutEdge), edge := false), other)
    ensures !me.node.dev.rx.ongoing
  {
    var me' := me.(node := Next(me.node, DoutEdge), edge := false);
    SafeStep(me.node, DoutEdge);
    EdgeReaches(other, me);
    EdgeKeepsSender(me.node);
    SendingSideKept(me, other, me');
  }

  // ---------------------------------------------------------------- every reachable state

  lemma StoreIsWriteOrRead(n: Node)
    requires Enabled(n, Main) && NeverFlushes(n.pc)
    ensures Sends(n.pc) || n.pc.Reading?
  {}

  lemma StoreOk(me: Station, other: Station)
    requires Pair(me, other) && CanAct(me, other, Store)
    ensures Pair(Stored(me), other)
  {
    StoreIsWriteOrRead(me.node);
    if Sends(me.node.pc) { WriteStoreOk(me, other); } else { ReadStoreOk(me, other); }
  }

  lemma ActOk(me: Station, other: Station, act: Action)
    requires Pair(me, other) && CanAct(me, other, act)
    ensures Pair(Acted(me, other, act), Affected(me, other, act))
  {
    match act
    case SendPacket(dest, opcode, data) => SendOk(me, other, dest, opcode, data);
    case Store => StoreOk(me, other);
    case TimerTick => TickOk(me, other);
    case EdgeInt => EdgeOk(me, other);
    case StartRead => StartReadOk(me, other);
  }

  lemma NetStepOk(w: Network, step: NetStep)
    requires NetOk(w) && CanStep(w, step)
    ensures NetOk(NetNext(w, step))
  {
    match step
    case ByA(act) => ActOk(w.a, w.b, act);
    case ByB(act) =>
      PairIsSymmetric(w.a, w.b);
      ActOk(w.b, w.a, act);
      PairIsSymmetric(Acted(w.b, w.a, act), Affected(w.b, w.a, act));
  }

  lemma {:induction false} NetRunOk(w: Network, steps: seq<NetStep>)
    requires NetOk(w) && NetValid(w, steps)
    ensures NetOk(NetRun(w, steps))
    decreases |steps|
  {
    if steps != [] {
      NetStepOk(w, steps[0]);
      NetRunOk(NetNext(w, steps[0]), steps[1..]);
    }
  }
}
