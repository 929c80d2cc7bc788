/** Two devices on a line never get stuck, and everything sent does arrive, in both directions. */
module Arrival {
  import opened Bytes
  import opened Frame
  import opened RxStateMachine
  import opened Transmitter
  import opened Device
  import opened Node
  import opened Homebus
  import opened Link
  import opened Network
  import opened Delivery

  // ---------------------------------------------------------------- progress

  /** Something other than a new packet is possible for a device. */
  ghost predicate CanMove(me: Station, other: Station) {
    || CanAct(me, other, Store) || CanAct(me, other, TimerTick)
    || CanAct(me, other, EdgeInt) || CanAct(me, other, StartRead)
  }

  /** A receiver that is behind is either in a frame, with the timer running, or has an edge to take. */
  lemma BehindReceiver(b: Node, edge: bool, drivenCount: nat)
    requires Safe(b) && !Sends(b.pc) && Listening(b.dev.rx, edge, drivenCount, |b.seen.sampled|)
    requires |b.seen.sampled| < drivenCount
    ensures if b.dev.rx.ongoing then b.dev.timer && b.dev.bus.BusRx? else edge && b.dev.dout
  {}

  lemma ReceiverMoves(x: Station, y: Station)
    requires Pair(x, y) && |y.node.seen.sampled| < |x.node.sent.driven|
    ensures CanMove(y, x)
  {
    BehindReceiver(y.node, y.edge, |x.node.sent.driven|);
    if y.node.dev.rx.ongoing { assert CanAct(y, x, TimerTick); } else { assert CanAct(y, x, EdgeInt); }
  }

  lemma WriterMoves(n: Node, sample: bool)
    requires Safe(n) && Sends(n.pc)
    ensures Enabled(n, Main) || (n.dev.bus.BusTx? && Enabled(n, Tick(sample, false)) && Timely(n, Tick(sample, false)))
  {}

  /** Once everything is on the line, a spinning write has nothing left to drive. */
  lemma NothingToDrive(n: Node)
    requires Sender(n) && n.pc.Spinning? && n.dev.bus.BusTx? && |n.sent.driven| == FRAME_BITS * |n.sent.written|
    ensures !Drives(n.dev.tx)
  {}

  /** A device whose bytes are all delivered can finish its write. */
  lemma FinisherMoves(x: Station, y: Station)
    requires Pair(x, y) && Sends(x.node.pc) && Delivered(x, y)
    ensures CanMove(x, y)
  {
    WriterMoves(x.node, Line(x, y));
    DeliveredFacts(x, y);
    if !CanAct(x, y, Store) {
      TicksWhileSpinning(x.node, Line(x, y));
      NothingToDrive(x.node);
      assert CanAct(x, y, TimerTick);
    }
  }

  lemma SenderMoves(x: Station, y: Station)
    requires Pair(x, y) && Sends(x.node.pc) && !Sends(y.node.pc) && |y.node.seen.sampled| == |x.node.sent.driven|
    ensures CanMove(x, y)
  {
    WriterMoves(x.node, Line(x, y));
    if !CanAct(x, y, Store) { assert CanAct(x, y, TimerTick); }
  }

  lemma NeverAhead(x: Station, y: Station)
    requires Connected(x, y)
    ensures |y.node.seen.sampled| <= |x.node.sent.driven|
  {}

  /** What is undelivered can go on: to be sampled, to be driven, or once the other device is back from its write. */
  lemma OnItsWayMoves(x: Station, y: Station)
    requires Pair(x, y) && !Delivered(x, y)
    ensures CanMove(x, y) || CanMove(y, x)
  {
    NeverAhead(x, y);
    PairIsSymmetric(x, y);
    if |y.node.seen.sampled| < |x.node.sent.driven| {
      ReceiverMoves(x, y);
    } else if Sends(y.node.pc) {
      FinisherMoves(y, x);
    } else {
      if !Sends(x.node.pc) { SenderAtRest(x.node); }
      SenderMoves(x, y);
    }
  }

  lemma ReadyOrReading(n: Node)
    requires !Sends(n.pc) && NeverFlushes(n.pc)
    ensures n.pc.Ready? || n.pc.Reading?
  {}

  lemma ReaderMoves(x: Station, y: Station)
    requires NeverFlushes(x.node.pc) && !Sends(x.node.pc) && !Idle(x)
    ensures CanMove(x, y)
  {
    ReadyOrReading(x.node);
    if x.node.pc.Ready? { assert CanAct(x, y, StartRead); } else { assert CanAct(x, y, Store); }
  }

  lemma BusyMoves(x: Station, y: Station)
    requires Pair(x, y) && Delivered(x, y) && !Idle(x)
    ensures CanMove(x, y)
  {
    if Sends(x.node.pc) { FinisherMoves(x, y); } else { ReaderMoves(x, y); }
  }

  /** Nothing is ever stuck: unless everything is done, some step is possible. */
  lemma Progress(w: Network)
    requires NetOk(w) && !Done(w)
    ensures CanMove(w.a, w.b) || CanMove(w.b, w.a)
  {
    PairIsSymmetric(w.a, w.b);
    if !Delivered(w.a, w.b) {
      OnItsWayMoves(w.a, w.b);
    } else if !Delivered(w.b, w.a) {
      OnItsWayMoves(w.b, w.a);
    } else if !Idle(w.a) {
      BusyMoves(w.a, w.b);
    } else {
      BusyMoves(w.b, w.a);
    }
  }

  /** Stores of the main code that are left until it is between calls, counted double, and one while it is. */
  function StoresLeft(pc: Pc): nat {
    match pc
    case Ready => 1
    case Prepared => 20
    case Muted => 18
    case BusSet => 16
    case BitReset => 14
    case ByteReset => 12
    case Spinning => 10
    case Left => 8
    case Idled => 6
    case Halted => 4
    case _ => 0
  }

  function SenderWork(n: Node): int {
    StoresLeft(n.pc) + Weight(n.dev.bus.BusTx?, 1) + Weight(n.dev.tx.collation, 1)
    + 4 * (FRAME_BITS * |n.sent.written| - |n.sent.driven|)
  }

  function ReceiverWork(s: Station, total: nat): int {
    Weight(s.edge, 1) + Weight(WantsEdge(s.node.dev.rx), 1) + 2 * |s.node.dev.queue|
    + 4 * (total - |s.node.seen.sampled|)
  }

  function StationWork(x: Station, y: Station): int {
    SenderWork(x.node) + ReceiverWork(x, FRAME_BITS * |y.node.sent.written|)
  }

  /** An upper bound on the number of steps left. */
  function Work(w: Network): int {
    StationWork(w.a, w.b) + StationWork(w.b, w.a)
  }

  lemma WorkIsNatural(w: Network)
    requires NetOk(w)
    ensures Work(w) >= 0
  {}

  lemma WriteStoreWork(n: Node)
    requires Safe(n) && Sends(n.pc) && Enabled(n, Main)
    ensures SenderWork(MainStep(n)) < SenderWork(n)
    ensures MainStep(n).dev.queue == n.dev.queue
  {}

  lemma ReadStoreWork(n: Node)
    requires Conserved(n) && n.pc.Reading?
    ensures SenderWork(MainStep(n)) == SenderWork(n) + 1
    ensures |MainStep(n).dev.queue| == |n.dev.queue| - 1
  {}

  lemma StoreWork(me: Station, other: Station)
    requires Pair(me, other) && CanAct(me, other, Store)
    ensures StationWork(Stored(me), other) < StationWork(me, other)
    ensures StationWork(other, Stored(me)) == StationWork(other, me)
  {
    StoreIsWriteOrRead(me.node);
    MainEffect(me.node);
    if Sends(me.node.pc) { WriteStoreWork(me.node); } else { ReadStoreWork(me.node); }
  }

  lemma TxWork(n: Node, n': Node)
    requires TickedTx(n, n') && n.dev.bus.BusTx?
    ensures SenderWork(n') <= SenderWork(n) - (if Drives(n.dev.tx) then 3 else 1)
    ensures n'.sent.written == n.sent.written
  {}

  lemma TxTickWork(me: Station, other: Station)
    requires Pair(me, other) && CanAct(me, other, TimerTick) && me.node.dev.bus.BusTx?
    ensures var (me', other') := (Acted(me, other, TimerTick), Affected(me, other, TimerTick));
            StationWork(me', other') + StationWork(other', me') < StationWork(me, other) + StationWork(other, me)
  {
    TicksWhileSpinning(me.node, Line(me, other));
    SendingAlone(me, other);
    TxTickEffect(me.node);
    TxTickKeepsReceiver(me.node);
    TxWork(me.node, TxTickStep(me.node, false));
    QuietLine(me, other, TxTickStep(me.node, false));
  }

  lemma RxWork(n: Node, sample: bool)
    requires n.dev.rx.ongoing && ReceiverOk(n.dev.rx)
    ensures var n' := RxTickStep(n, sample);
            Weight(WantsEdge(n'.dev.rx), 1) + 2 * |n'.dev.queue| - 4 * |n'.seen.sampled|
            < Weight(WantsEdge(n.dev.rx), 1) + 2 * |n.dev.queue| - 4 * |n.seen.sampled|
  {
    RxTickReceives(n, sample);
    RxTickEffect(n, sample);
  }

  lemma RxTickSenderWork(n: Node, sample: bool)
    requires n.dev.bus.BusRx?
    ensures SenderWork(RxTickStep(n, sample)) == SenderWork(n)
  {
    RxTickKeepsSender(n, sample);
  }

  lemma RxTickWork(me: Station, other: Station)
    requires Pair(me, other) && CanAct(me, other, TimerTick) && me.node.dev.bus.BusRx?
    ensures var (me', other') := (Acted(me, other, TimerTick), Affected(me, other, TimerTick));
            StationWork(me', other') + StationWork(other', me') < StationWork(me, other) + StationWork(other, me)
  {
    RxTickIsSilent(me, other);
    RxTickKeepsSender(me.node, Line(me, other));
    RxTickSenderWork(me.node, Line(me, other));
    RxWork(me.node, Line(me, other));
  }

  lemma EdgeWork(me: Station, other: Station)
    requires Pair(me, other) && CanAct(me, other, EdgeInt)
    ensures var me' := Acted(me, other, EdgeInt);
            StationWork(me', other) < StationWork(me, other) && StationWork(other, me') == StationWork(other, me)
  {
    EdgeOk(me, other);
  }

  lemma StartReadWork(me: Station, other: Station)
    requires CanAct(me, other, StartRead)
    ensures var me' := Acted(me, other, StartRead);
            StationWork(me', other) < StationWork(me, other) && StationWork(other, me') == StationWork(other, me)
  {}

  lemma ActWork(me: Station, other: Station, act: Action)
    requires Pair(me, other) && CanAct(me, other, act) && !act.SendPacket?
    ensures var (me', other') := (Acted(me, other, act), Affected(me, other, act));
            StationWork(me', other') + StationWork(other', me') < StationWork(me, other) + StationWork(other, me)
  {
    match act
    case Store => StoreWork(me, other);
    case TimerTick =>
      TickIsTxOrRx(me.node, Line(me, other));
      if me.node.dev.bus.BusTx? { TxTickWork(me, other); } else { RxTickWork(me, other); }
    case EdgeInt => EdgeWork(me, other);
    case StartRead => StartReadWork(me, other);
  }

  predicate NoPacket(step: NetStep) {
    !step.act.SendPacket?
  }

  lemma WorkShrinks(w: Network, step: NetStep)
    requires NetOk(w) && CanStep(w, step) && NoPacket(step)
    ensures Work(NetNext(w, step)) < Work(w)
  {
    match step
    case ByA(act) => ActWork(w.a, w.b, act);
    case ByB(act) =>
      PairIsSymmetric(w.a, w.b);
      ActWork(w.b, w.a, act);
  }

  lemma ActKeepsPackets(me: Station, other: Station, act: Action)
    ensures !act.SendPacket? ==> Acted(me, other, act).packets == me.packets
    ensures Acted(me, other, act).stack.self == me.stack.self
    ensures Affected(me, other, act).packets == other.packets && Affected(me, other, act).stack.self == other.stack.self
  {}

  lemma StepKeepsPackets(w: Network, step: NetStep)
    ensures NoPacket(step) ==> NetNext(w, step).a.packets == w.a.packets && NetNext(w, step).b.packets == w.b.packets
    ensures NetNext(w, step).a.stack.self == w.a.stack.self && NetNext(w, step).b.stack.self == w.b.stack.self
  {
    match step
    case ByA(act) => ActKeepsPackets(w.a, w.b, act);
    case ByB(act) => ActKeepsPackets(w.b, w.a, act);
  }

  lemma {:induction false} RunKeepsSelf(w: Network, steps: seq<NetStep>)
    ensures NetRun(w, steps).a.stack.self == w.a.stack.self && NetRun(w, steps).b.stack.self == w.b.stack.self
    decreases |steps|
  {
    if steps != [] {
      StepKeepsPackets(w, steps[0]);
      RunKeepsSelf(NetNext(w, steps[0]), steps[1..]);
    }
  }

  /** A schedule without new packets is never longer than the work there is, and keeps the packets. */
  lemma {:induction false} SchedulesAreBounded(w: Network, steps: seq<NetStep>)
    requires NetOk(w) && NetValid(w, steps) && forall s <- steps :: NoPacket(s)
    ensures |steps| <= Work(w) - Work(NetRun(w, steps))
    ensures NetRun(w, steps).a.packets == w.a.packets && NetRun(w, steps).b.packets == w.b.packets
    decreases |steps|
  {
    if steps != [] {
      WorkShrinks(w, steps[0]);
      NetStepOk(w, steps[0]);
      StepKeepsPackets(w, steps[0]);
      SchedulesAreBounded(NetNext(w, steps[0]), steps[1..]);
    }
  }

  // ---------------------------------------------------------------- everything arrives

  /** Nothing but a new packet can happen. */
  ghost predicate Stuck(w: Network) {
    !CanMove(w.a, w.b) && !CanMove(w.b, w.a)
  }

  /** A schedule without new packets that runs until nothing but a new packet can happen. */
  ghost predicate RunsOut(w: Network, rest: seq<NetStep>) {
    NetValid(w, rest) && (forall s <- rest :: NoPacket(s)) && Stuck(NetRun(w, rest))
  }

  lemma StuckMeansDone(w: Network)
    requires NetOk(w) && Stuck(w)
    ensures Done(w)
  {
    if !Done(w) { Progress(w); }
  }

  lemma DoneMeansDelivered(w: Network)
    requires NetOk(w) && Done(w)
    ensures AllDelivered(w.a, w.b) && AllDelivered(w.b, w.a)
  {
    DrainedMeansDelivered(w.a, w.b);
    DrainedMeansDelivered(w.b, w.a);
  }

  lemma FreshIsExplained(w: Network)
    requires FreshNetwork(w)
    ensures Explained(w)
  {}

  /** n is m with everything arrived in both directions; what fits into a queue did not overflow it. */
  ghost predicate Arrived(m: Network, n: Network) {
    && n.a.packets == m.a.packets && n.b.packets == m.b.packets
    && n.a.stack.self == m.a.stack.self && n.b.stack.self == m.b.stack.self
    && Done(n) && AllDelivered(n.a, n.b) && AllDelivered(n.b, n.a)
    && (|WireAll(m.a.packets)| <= n.b.node.dev.capacity ==> n.b.node.dev.log[RX_OVF] == 0)
    && (|WireAll(m.b.packets)| <= n.a.node.dev.capacity ==> n.a.node.dev.log[RX_OVF] == 0)
  }

  lemma StuckMeansArrived(m: Network, n: Network)
    requires NetOk(n) && Explained(n) && Stuck(n)
    requires n.a.packets == m.a.packets && n.b.packets == m.b.packets
    requires n.a.stack.self == m.a.stack.self && n.b.stack.self == m.b.stack.self
    ensures Arrived(m, n)
  {
    StuckMeansDone(n);
    DoneMeansDelivered(n);
  }

  lemma RestArrives(m: Network, rest: seq<NetStep>)
    requires NetOk(m) && Explained(m) && RunsOut(m, rest)
    ensures NetOk(NetRun(m, rest)) && Explained(NetRun(m, rest)) && |rest| <= Work(m)
    ensures Arrived(m, NetRun(m, rest))
  {
    NetRunOk(m, rest);
    OverflowRun(m, rest);
    SchedulesAreBounded(m, rest);
    RunKeepsSelf(m, rest);
    WorkIsNatural(NetRun(m, rest));
    StuckMeansArrived(m, NetRun(m, rest));
  }

  lemma SendsReach(w: Network, sends: seq<NetStep>)
    requires FreshNetwork(w) && NetValid(w, sends)
    ensures NetOk(NetRun(w, sends)) && Explained(NetRun(w, sends))
  {
    FreshNetworkIsOk(w);
    FreshIsExplained(w);
    NetRunOk(w, sends);
    OverflowRun(w, sends);
  }

  /**
   * After any schedule of packets and steps on both sides, let any schedule without new packets run until
   * it cannot go on. It takes a bounded number of steps, and then, in both directions, unless the
   * receiver's queue overflowed, the receiver's callback got exactly the packets sent to it, in order, and
   * its parser and decoder are back in their start states. A queue with room for all the bytes sent to it
   * did not overflow.
   */
  lemma EverythingArrives(w: Network, sends: seq<NetStep>, rest: seq<NetStep>)
    requires FreshNetwork(w) && NetValid(w, sends) && RunsOut(NetRun(w, sends), rest)
    ensures |rest| <= Work(NetRun(w, sends))
    ensures Arrived(NetRun(w, sends), NetRun(NetRun(w, sends), rest))
  {
    SendsReach(w, sends);
    RestArrives(NetRun(w, sends), rest);
  }

  ghost function SomeAct(me: Station, other: Station): (act: Action)
    requires CanMove(me, other)
    ensures CanAct(me, other, act) && !act.SendPacket?
  {
    if CanAct(me, other, Store) then Store
    else if CanAct(me, other, TimerTick) then TimerTick
    else if CanAct(me, other, EdgeInt) then EdgeInt
    else StartRead
  }

  ghost function SomeStep(w: Network): (step: NetStep)
    requires !Stuck(w)
    ensures CanStep(w, step) && NoPacket(step)
  {
    if CanMove(w.a, w.b) then ByA(SomeAct(w.a, w.b)) else ByB(SomeAct(w.b, w.a))
  }

  lemma RunsOutOneMore(w: Network, step: NetStep, more: seq<NetStep>)
    requires CanStep(w, step) && NoPacket(step) && RunsOut(NetNext(w, step), more)
    ensures RunsOut(w, [step] + more)
  {
    assert ([step] + more)[1..] == more;
  }

  /** From every reachable state there is such a schedule. */
  lemma {:induction false} ItDoesRunOut(w: Network) returns (rest: seq<NetStep>)
    requires NetOk(w)
    ensures RunsOut(w, rest)
    decreases Work(w)
  {
    if Stuck(w) {
      rest := [];
    } else {
      var step := SomeStep(w);
      WorkShrinks(w, step);
      NetStepOk(w, step);
      WorkIsNatural(w);
      WorkIsNatural(NetNext(w, step));
      var more := ItDoesRunOut(NetNext(w, step));
      RunsOutOneMore(w, step, more);
      rest := [step] + more;
    }
  }
}
