/**
 * One device over whole runs: interrupts run to completion between any two stores of the main code
 * (src/max22x88_bitbang.c, src/max22x88.c).
 */
module Node {
  import opened Bytes
  import opened Frame
  import opened RxStateMachine
  import opened ReceiverRuns
  import opened Transmitter
  import opened Device

  /** Where the main code is inside max22x88_write_bitbang, or inside a pop or a clear of the queue. */
  datatype Pc =
    | Ready      // outside
    | Prepared   // data formatted
    | Muted      // falling-edge interrupt disabled
    | BusSet     // bus_state is TX
    | BitReset   // tx_current_bit is 0
    | ByteReset  // tx_current_byte is 0
    | Spinning   // timer started
    | Left       // spin left
    | Idled      // bus_state is IDLE
    | Halted     // timer stopped
    | Reading    // the queue was not empty
    | Clearing   // the queue was not empty
    | ClearingTo(count: nat)  // head read, that many elements after the tail

  /**
   * A device with its main code, and three histories the code does not keep: what the receiver took
   * from the line, what left the queue, and what was sent.
   */
  datatype Node = Node(dev: Device, pc: Pc, seen: Seen, taken: Taken, sent: Sent)

  /** Accepted start edges and samples, completed frames, and the bytes queued from them. */
  datatype Seen = Seen(edges: nat, sampled: seq<bool>, frames: seq<FrameResult>, pushed: seq<Byte>)

  /** Bytes that left the queue, and how many of them were read and flushed. */
  datatype Taken = Taken(removed: seq<Byte>, popped: nat, flushed: nat)

  /** Bytes given to writes, and levels put on the line. */
  datatype Sent = Sent(written: seq<Byte>, driven: seq<bool>)

  datatype Step =
    | DoutEdge                              // falling-edge interrupt
    | Tick(sample: bool, stray: bool)       // timer interrupt
    | BeginWrite(data: seq<Byte>)
    | Main                                  // next store of a call in progress
    | ReadByte                              // up to the test for an empty queue
    | FlushRx                               // up to the test for an empty queue

  predicate Fresh(n: Node) {
    && InitialDevice(n.dev) && n.pc.Ready?
    && n.seen.frames == [] && n.seen.edges == 0 && n.seen.sampled == [] && n.sent.driven == [] && n.sent.written == []
    && n.seen.pushed == [] && n.taken.removed == [] && n.taken.popped == 0 && n.taken.flushed == 0
  }

  /** What the hardware and the order of statements allow. */
  predicate Enabled(n: Node, step: Step) {
    match step
    case DoutEdge => n.dev.dout
    case Tick(_, _) => n.dev.timer
    case BeginWrite(_) => n.pc.Ready?
    case Main => !n.pc.Ready? && (n.pc.Spinning? ==> !n.dev.bus.BusTx?)
    case ReadByte => n.pc.Ready?
    case FlushRx => n.pc.Ready?
  }

  /** Environment assumption: the main code leaves its spin and stops the timer before the next tick. */
  predicate Timely(n: Node, step: Step) {
    step.Tick? ==> !n.pc.Left? && !n.pc.Idled? && (n.pc.Spinning? ==> n.dev.bus.BusTx?)
  }

  /** Caller's guard: no frame is being received when a write disables the falling-edge interrupt. */
  predicate Quiet(n: Node, step: Step) {
    step.Main? && n.pc.Prepared? ==> !n.dev.rx.ongoing
  }

  function MainStep(n: Node): Node {
    var d := n.dev;
    match n.pc
    case Ready => n
    case Prepared => n.(pc := Muted, dev := d.(dout := false))
    case Muted => n.(pc := BusSet, dev := d.(bus := BusTx))
    case BusSet => n.(pc := BitReset, dev := d.(tx := d.tx.(bit := 0)))
    case BitReset => n.(pc := ByteReset, dev := d.(tx := d.tx.(byte := 0)))
    case ByteReset => n.(pc := Spinning, dev := d.(timer := true))
    case Spinning => n.(pc := Left)
    case Left => n.(pc := Idled, dev := d.(bus := BusIdle))
    case Idled => n.(pc := Halted, dev := d.(timer := false))
    case Halted => n.(pc := Ready, dev := d.(dout := true))
    case Reading => Popped(n)
    case Clearing => n.(pc := ClearingTo(|d.queue|))
    case ClearingTo(count) => Cleared(n, count)
  }

  /** The store to tail that ends a pop. */
  function Popped(n: Node): Node {
    if n.dev.queue == [] then n.(pc := Ready)
    else
      n.(pc := Ready, dev := Dropped(n.dev, 1),
         taken := n.taken.(removed := n.taken.removed + [n.dev.queue[0]], popped := n.taken.popped + 1))
  }

  /** The store to tail that ends a clear. */
  function Cleared(n: Node, count: nat): Node {
    if count > |n.dev.queue| then n.(pc := Ready)
    else
      n.(pc := Ready, dev := Dropped(n.dev, count),
         taken := n.taken.(removed := n.taken.removed + n.dev.queue[..count], flushed := n.taken.flushed + count))
  }

  function TxTickStep(n: Node, stray: bool): Node {
    var more := if Drives(n.dev.tx) then [NextLevel(n.dev.tx, stray)] else [];
    n.(dev := TxTick(n.dev, stray), sent := n.sent.(driven := n.sent.driven + more))
  }

  function RxTickStep(n: Node, sample: bool): Node {
    var (d, s) := (n.dev, n.seen);
    var sampled := s.sampled + if WantsSample(d.rx) then [sample] else [];
    n.(dev := RxTick(d, sample),
       seen := match FrameOf(d, sample)
               case Some(f) => s.(sampled := sampled, frames := s.frames + [f], pushed := s.pushed + Queued(d, f))
               case None => s.(sampled := sampled))
  }

  function TickStep(n: Node, sample: bool, stray: bool): Node {
    match n.dev.bus
    case BusTx => TxTickStep(n, stray)
    case BusRx => RxTickStep(n, sample)
    case _ => n.(dev := InternalError(n.dev))
  }

  function Next(n: Node, step: Step): Node {
    var d := n.dev;
    match step
    case DoutEdge =>
      n.(dev := FallingEdge(d), seen := n.seen.(edges := n.seen.edges + Weight(!d.rx.ongoing, 1)))
    case Tick(sample, stray) => TickStep(n, sample, stray)
    case BeginWrite(data) =>
      n.(pc := Prepared, dev := d.(tx := d.tx.(words := FormatAll(data))),
         sent := n.sent.(written := n.sent.written + data))
    case Main => MainStep(n)
    case ReadByte => if d.queue == [] then n else n.(pc := Reading)
    case FlushRx => if d.queue == [] then n else n.(pc := Clearing)
  }

  function Run(n: Node, steps: seq<Step>): Node
    decreases |steps|
  {
    if steps == [] then n else Run(Next(n, steps[0]), steps[1..])
  }

  /** Every step is possible when it is taken. */
  ghost predicate Possible(n: Node, steps: seq<Step>)
    decreases |steps|
  {
    steps == [] || (Enabled(n, steps[0]) && Possible(Next(n, steps[0]), steps[1..]))
  }

  /** Every step is possible, the environment is timely, and every write starts with no frame in progress. */
  ghost predicate Guarded(n: Node, steps: seq<Step>)
    decreases |steps|
  {
    steps == [] ||
    (Enabled(n, steps[0]) && Timely(n, steps[0]) && Quiet(n, steps[0]) && Guarded(Next(n, steps[0]), steps[1..]))
  }

  // ---------------------------------------------------------------- the interrupts and calls of the driver

  /** A timer interrupt of a run does to the device what signal_timer_isr does. */
  lemma TickIsTimerTick(n: Node, sample: bool, stray: bool)
    ensures Next(n, Tick(sample, stray)).dev == TimerTick(n.dev, sample, stray)
  {}

  /** The next timer interrupt takes its level from past the end of data_to_tx. */
  predicate ReadsPast(n: Node) {
    n.dev.timer && n.dev.bus.BusTx? && !n.dev.tx.collation && n.dev.tx.byte > |n.dev.tx.words|
  }

  /** That is, if one can come and what is found there makes a difference. */
  lemma ReadsPastExactlyWhenItMatters(n: Node, sample: bool)
    ensures ReadsPast(n)
        <==> Enabled(n, Tick(sample, true)) && Next(n, Tick(sample, true)) != Next(n, Tick(sample, false))
  {}

  /** A read that nothing interrupts removes the oldest byte, or finds the queue empty and removes nothing. */
  lemma ReadIsARun(n: Node)
    requires n.pc.Ready?
    ensures n.dev.queue == [] ==> Possible(n, [ReadByte]) && Run(n, [ReadByte]) == n
    ensures n.dev.queue != [] ==>
              && Possible(n, [ReadByte, Main])
              && Run(n, [ReadByte, Main])
                 == n.(dev := n.dev.(queue := n.dev.queue[1..]),
                       taken := n.taken.(removed := n.taken.removed + [n.dev.queue[0]], popped := n.taken.popped + 1))
  {
    var n1 := Next(n, ReadByte);
    assert [ReadByte, Main][1..] == [Main] && Run(n1, [Main]) == Next(n1, Main);
  }

  /** A flush that nothing interrupts removes all bytes. */
  lemma FlushIsARun(n: Node)
    requires n.pc.Ready?
    ensures n.dev.queue == [] ==> Possible(n, [FlushRx]) && Run(n, [FlushRx]) == n
    ensures n.dev.queue != [] ==>
              && Possible(n, [FlushRx, Main, Main])
              && Run(n, [FlushRx, Main, Main])
                 == n.(dev := n.dev.(queue := []),
                       taken := n.taken.(removed := n.taken.removed + n.dev.queue,
                                         flushed := n.taken.flushed + |n.dev.queue|))
  {
    var n1 := Next(n, FlushRx);
    var n2 := Next(n1, Main);
    assert [FlushRx, Main, Main][1..] == [Main, Main] && [Main, Main][1..] == [Main];
    assert Run(n2, [Main]) == Next(n2, Main);
    assert n.dev.queue[..|n.dev.queue|] == n.dev.queue && n.dev.queue[|n.dev.queue|..] == [];
  }

  // ---------------------------------------------------------------- bus-mode safety

  /** The states of the receiver the interrupts can leave behind. */
  predicate ReceiverOk(r: Receiver) {
    |r.samples| < FRAME_BITS && (!r.ongoing ==> r == INITIAL)
  }

  /** Between the disabling and the enabling of the falling-edge interrupt. */
  predicate InWrite(pc: Pc) {
    pc.Muted? || pc.BusSet? || pc.BitReset? || pc.ByteReset? || pc.Spinning? || pc.Left? || pc.Idled? || pc.Halted?
  }

  /** Inside a write, from the call to its return. */
  predicate Sends(pc: Pc) {
    pc.Prepared? || InWrite(pc)
  }

  /** From the call of a write to its spin. */
  predicate Preparing(pc: Pc) {
    pc.Prepared? || pc.Muted? || pc.BusSet? || pc.BitReset? || pc.ByteReset?
  }

  ghost predicate Safe(n: Node) {
    var d := n.dev;
    && ReceiverOk(d.rx)
    && (d.rx.ongoing <==> d.bus.BusRx?)
    && (d.bus.BusRx? ==> d.timer && !d.dout)
    && (d.bus.BusTx? ==> !d.dout && (n.pc.BusSet? || n.pc.BitReset? || n.pc.ByteReset? || n.pc.Spinning?))
    && (n.pc.BusSet? || n.pc.BitReset? || n.pc.ByteReset? ==> d.bus.BusTx?)
    && (n.pc.Spinning? ==> d.bus.BusTx? || d.bus.BusIdle?)
    && (InWrite(n.pc) ==> !d.dout && !d.rx.ongoing)
    && (d.timer <==> d.bus.BusRx? || n.pc.Spinning? || n.pc.Left? || n.pc.Idled?)
    && (n.pc.Left? || n.pc.Idled? || n.pc.Halted? ==> d.bus.BusIdle?)
    && (!InWrite(n.pc) ==> d.dout == !d.bus.BusRx?)
    && (n.pc.ByteReset? ==> d.tx.byte == 0)
    && (n.pc.Spinning? ==> d.tx.byte <= |d.tx.words|)
    && d.log[INTERNAL_ERROR] == 0
  }

  lemma SafeStep(n: Node, step: Step)
    requires Safe(n) && Enabled(n, step) && Timely(n, step) && Quiet(n, step)
    ensures Safe(Next(n, step))
  {}

  lemma SafeReadsInside(n: Node)
    requires Safe(n)
    ensures !ReadsPast(n)
  {}

  /**
   * If every write starts with no frame in progress, then in every reachable state a frame is in
   * progress exactly when the bus state is RX, RX and TX have the falling-edge interrupt disabled, no
   * interrupt was ever counted as an internal error, and none in TX reads past the words.
   */
  lemma {:induction false} BusModeSafety(n: Node, steps: seq<Step>)
    requires Safe(n) && Guarded(n, steps)
    ensures Safe(Run(n, steps)) && !ReadsPast(Run(n, steps))
    decreases |steps|
  {
    if steps == [] {
      SafeReadsInside(n);
    } else {
      SafeStep(n, steps[0]);
      BusModeSafety(Next(n, steps[0]), steps[1..]);
    }
  }

  /** In a safe state every timer interrupt in RX is an accepted sample or an accepted edge. */
  lemma RxTicksAreAccepted(n: Node, sample: bool, stray: bool)
    requires Safe(n) && n.dev.bus.BusRx?
    ensures WantsSample(n.dev.rx) || WantsEdge(n.dev.rx)
    ensures WantsSample(n.dev.rx) ==> Next(n, Tick(sample, stray)).seen.sampled == n.seen.sampled + [sample]
    ensures WantsEdge(n.dev.rx) ==> Next(n, Tick(sample, stray)).dev == n.dev.(rx := n.dev.rx.(expectingEdge := false))
  {}

  // ---------------------------------------------------------------- conservation

  /** At most the counter of internal errors differs. */
  predicate OnlyInternal(log: Log, log': Log) {
    forall c: LogCode :: c != INTERNAL_ERROR ==> log'[c] == log[c]
  }

  predicate CountsAgree(log: Log, frames: nat, pushed: nat) {
    && frames == log[FRAME_VALID] + log[RX_OVF] + log[FRAME_BAD]
    && pushed == log[FRAME_VALID]
  }

  ghost predicate Conserved(n: Node) {
    && CountsAgree(n.dev.log, |n.seen.frames|, |n.seen.pushed|)
    && n.seen.pushed == n.taken.removed + n.dev.queue
    && |n.taken.removed| == n.taken.popped + n.taken.flushed
    && |n.dev.queue| <= n.dev.capacity
    && InCall(n.pc, |n.dev.queue|)
  }

  /** What a pop or a clear in progress knows about the queue. */
  predicate InCall(pc: Pc, len: nat) {
    match pc
    case Reading => len >= 1
    case Clearing => len >= 1
    case ClearingTo(count) => count <= len
    case _ => true
  }

  /** As coded, the error counters other than these two stay at zero. */
  predicate CodedErrors(log: Log) {
    && log[FRAME_BAD_PARITY] == 0 && log[FRAME_BAD_STOP] == 0
    && log[FRAME_BAD] <= log[FRAME_BAD_OFFDUTY] + log[FRAME_BAD_START] <= 2 * log[FRAME_BAD]
  }

  /** A timer interrupt in RX files the frame it completes; otherwise it only may count an internal error. */
  lemma RxTickEffect(n: Node, sample: bool)
    ensures var (d, n') := (n.dev, RxTickStep(n, sample));
            && n'.taken == n.taken && n'.pc == n.pc
            && n'.dev.layout == d.layout && n'.dev.capacity == d.capacity
            && match FrameOf(d, sample)
               case Some(f) =>
                 && n'.seen.frames == n.seen.frames + [f] && n'.seen.pushed == n.seen.pushed + Queued(d, f)
                 && n'.dev.queue == d.queue + Queued(d, f) && n'.dev.log == Logged(d.log, f.flags, Room(d))
               case None =>
                 && n'.seen.frames == n.seen.frames && n'.seen.pushed == n.seen.pushed && n'.dev.queue == d.queue
                 && OnlyInternal(d.log, n'.dev.log)
  {}

  lemma ConservedByFiling(n: Node, n': Node, f: FrameResult)
    requires Conserved(n)
    requires n'.seen.frames == n.seen.frames + [f] && n'.seen.pushed == n.seen.pushed + Queued(n.dev, f)
    requires n'.dev.queue == n.dev.queue + Queued(n.dev, f) && n'.dev.log == Logged(n.dev.log, f.flags, Room(n.dev))
    requires n'.taken == n.taken && n'.pc == n.pc && n'.dev.capacity == n.dev.capacity
    ensures Conserved(n')
  {
    assert (n.taken.removed + n.dev.queue) + Queued(n.dev, f) == n.taken.removed + (n.dev.queue + Queued(n.dev, f));
  }

  lemma ConservedRxTick(n: Node, sample: bool)
    requires Conserved(n)
    ensures Conserved(RxTickStep(n, sample))
  {
    RxTickEffect(n, sample);
    match FrameOf(n.dev, sample)
    case Some(f) => ConservedByFiling(n, RxTickStep(n, sample), f);
    case None =>
  }

  lemma ConservedTick(n: Node, sample: bool, stray: bool)
    requires Conserved(n)
    ensures Conserved(TickStep(n, sample, stray))
  {
    if n.dev.bus.BusRx? { ConservedRxTick(n, sample); }
  }

  /** A pop in progress removes what is the oldest element when it ends, however much was queued meanwhile. */
  lemma ConservedPop(n: Node)
    requires Conserved(n) && n.pc.Reading?
    ensures Conserved(Popped(n)) && Popped(n).taken.removed == n.taken.removed + [n.dev.queue[0]]
  {
    assert n.dev.queue == [n.dev.queue[0]] + n.dev.queue[1..];
  }

  /** A clear in progress removes what was queued when it read head; what was queued since stays. */
  lemma ConservedClear(n: Node)
    requires Conserved(n) && n.pc.ClearingTo?
    ensures Conserved(Cleared(n, n.pc.count))
    ensures n.pc.count <= |n.dev.queue| && Cleared(n, n.pc.count).dev.queue == n.dev.queue[n.pc.count..]
  {
    assert n.dev.queue == n.dev.queue[..n.pc.count] + n.dev.queue[n.pc.count..];
  }

  lemma ConservedMain(n: Node)
    requires Conserved(n)
    ensures Conserved(MainStep(n))
  {
    match n.pc
    case Reading => ConservedPop(n);
    case ClearingTo(_) => ConservedClear(n);
    case _ =>
  }

  lemma ConservedStep(n: Node, step: Step)
    requires Conserved(n)
    ensures Conserved(Next(n, step))
  {
    match step
    case Tick(sample, stray) => ConservedTick(n, sample, stray);
    case Main => ConservedMain(n);
    case _ =>
  }

  /**
   * In every run from a conserved state, frames completed are frames valid, overflowed or bad; valid
   * frames are bytes read, flushed or still queued; and bytes leave the queue in the order they came.
   */
  lemma {:induction false} Conservation(n: Node, steps: seq<Step>)
    requires Conserved(n)
    ensures Conserved(Run(n, steps))
    decreases |steps|
  {
    if steps != [] {
      ConservedStep(n, steps[0]);
      Conservation(Next(n, steps[0]), steps[1..]);
    }
  }

  /** The frame has what the counter counts. */
  predicate Blames(f: FrameResult, code: LogCode) {
    if code == FRAME_BAD then f.flags != NO_ERROR
    else if code == FRAME_BAD_START then f.flags.startBit
    else if code == FRAME_BAD_OFFDUTY then f.flags.offduty
    else if code == FRAME_BAD_PARITY then f.flags.parity
    else code == FRAME_BAD_STOP && f.flags.stopBit
  }

  function FramesBlamed(frames: seq<FrameResult>, code: LogCode): nat {
    if frames == [] then 0
    else FramesBlamed(frames[..|frames| - 1], code) + Weight(Blames(frames[|frames| - 1], code), 1)
  }

  /** Each error counter is the number of completed frames that have its error. */
  ghost predicate CountersAreCounts(n: Node) {
    forall code: LogCode :: FRAME_BAD <= code <= FRAME_BAD_STOP ==> n.dev.log[code] == FramesBlamed(n.seen.frames, code)
  }

  lemma LoggedBlame(log: Log, f: FrameResult, room: bool, code: LogCode)
    requires FRAME_BAD <= code <= FRAME_BAD_STOP
    ensures Logged(log, f.flags, room)[code] == log[code] + Weight(Blames(f, code), 1)
  {}

  lemma CountersTick(n: Node, n': Node, f: FrameResult)
    requires CountersAreCounts(n)
    requires n'.seen.frames == n.seen.frames + [f] && n'.dev.log == Logged(n.dev.log, f.flags, Room(n.dev))
    ensures CountersAreCounts(n')
  {
    forall code: LogCode | FRAME_BAD <= code <= FRAME_BAD_STOP
      ensures n'.dev.log[code] == FramesBlamed(n'.seen.frames, code)
    {
      LoggedBlame(n.dev.log, f, Room(n.dev), code);
      assert n'.seen.frames[..|n.seen.frames|] == n.seen.frames;
    }
  }

  lemma FramesUntouched(n: Node, step: Step)
    requires !(step.Tick? && n.dev.bus.BusRx?)
    ensures Next(n, step).seen.frames == n.seen.frames
  {}

  lemma CountersStep(n: Node, step: Step)
    requires CountersAreCounts(n)
    ensures CountersAreCounts(Next(n, step))
  {
    if step.Tick? && n.dev.bus.BusRx? {
      RxTickEffect(n, step.sample);
      match FrameOf(n.dev, step.sample)
      case Some(f) => CountersTick(n, RxTickStep(n, step.sample), f);
      case None =>
    } else {
      LogUntouched(n, step);
      FramesUntouched(n, step);
    }
  }

  /** In every run, with whichever positions for parity and stop, error counters count the frames with that error. */
  lemma {:induction false} ErrorsAreCounted(n: Node, steps: seq<Step>)
    requires CountersAreCounts(n)
    ensures CountersAreCounts(Run(n, steps))
    decreases |steps|
  {
    if steps != [] {
      CountersStep(n, steps[0]);
      ErrorsAreCounted(Next(n, steps[0]), steps[1..]);
    }
  }

  lemma CodedLogged(log: Log, samples: seq<bool>, room: bool)
    requires CodedErrors(log)
    ensures CodedErrors(Logged(log, FlagsOf(AS_CODED, samples), room))
  {
    CodedNeverFlagsParityOrStop(samples);
  }

  lemma CodedErrorsTick(n: Node, sample: bool)
    requires n.dev.layout == AS_CODED && CodedErrors(n.dev.log)
    ensures RxTickStep(n, sample).dev.layout == AS_CODED && CodedErrors(RxTickStep(n, sample).dev.log)
  {
    RxTickEffect(n, sample);
    CodedLogged(n.dev.log, n.dev.rx.samples + [sample], Room(n.dev));
  }

  /** Only a timer interrupt in RX counts anything but internal errors. */
  lemma LogUntouched(n: Node, step: Step)
    requires !(step.Tick? && n.dev.bus.BusRx?)
    ensures var log' := Next(n, step).dev.log;
            Next(n, step).dev.layout == n.dev.layout && OnlyInternal(n.dev.log, log')
  {}

  lemma CodedErrorsStep(n: Node, step: Step)
    requires n.dev.layout == AS_CODED && CodedErrors(n.dev.log)
    ensures Next(n, step).dev.layout == AS_CODED && CodedErrors(Next(n, step).dev.log)
  {
    if step.Tick? && n.dev.bus.BusRx? { CodedErrorsTick(n, step.sample); } else { LogUntouched(n, step); }
  }

  /** With the coded positions, parity and stop errors are never counted; a bad frame has one or two counted causes. */
  lemma {:induction false} CodedErrorCounters(n: Node, steps: seq<Step>)
    requires n.dev.layout == AS_CODED && CodedErrors(n.dev.log)
    ensures CodedErrors(Run(n, steps).dev.log)
    decreases |steps|
  {
    if steps != [] {
      CodedErrorsStep(n, steps[0]);
      CodedErrorCounters(Next(n, steps[0]), steps[1..]);
    }
  }

  /** A timer interrupt outside TX that is neither an accepted sample nor an accepted edge. */
  predicate Unexpected(n: Node, step: Step) {
    step.Tick? && !n.dev.bus.BusTx? && (n.dev.bus.BusRx? ==> !WantsSample(n.dev.rx) && !WantsEdge(n.dev.rx))
  }

  function UnexpectedIn(n: Node, steps: seq<Step>): nat
    decreases |steps|
  {
    if steps == [] then 0
    else Weight(Unexpected(n, steps[0]), 1) + UnexpectedIn(Next(n, steps[0]), steps[1..])
  }

  lemma InternalErrorsStep(n: Node, step: Step)
    ensures Next(n, step).dev.log[INTERNAL_ERROR] == n.dev.log[INTERNAL_ERROR] + Weight(Unexpected(n, step), 1)
  {}

  /** In every run, the internal errors counted are exactly those interrupts. */
  lemma {:induction false} InternalErrorsAreCounted(n: Node, steps: seq<Step>)
    ensures Run(n, steps).dev.log[INTERNAL_ERROR] == n.dev.log[INTERNAL_ERROR] + UnexpectedIn(n, steps)
    decreases |steps|
  {
    if steps != [] {
      InternalErrorsStep(n, steps[0]);
      InternalErrorsAreCounted(Next(n, steps[0]), steps[1..]);
    }
  }

  // ---------------------------------------------------------------- what was received

  /** Completed frames are the samples taken, cut into chunks of 22, and each one began with one accepted edge. */
  ghost predicate DecodedAs(l: Layout, rx: Receiver, frames: seq<FrameResult>, sampled: seq<bool>, edges: nat) {
    && frames == DecodeChunks(l, sampled)
    && rx.samples == Leftover(sampled)
    && ReceiverOk(rx)
    && edges == |frames| + Weight(rx.ongoing, 1)
  }

  ghost predicate Decoded(n: Node) {
    DecodedAs(n.dev.layout, n.dev.rx, n.seen.frames, n.seen.sampled, n.seen.edges)
  }

  /** All invariants hold after initialisation. */
  lemma FreshIsOk(n: Node)
    requires Fresh(n)
    ensures Safe(n) && Conserved(n) && Decoded(n) && CodedErrors(n.dev.log) && CountersAreCounts(n)
  {
    assert n.taken.removed + n.dev.queue == n.seen.pushed;
  }

  lemma SampleDecodes(l: Layout, rx: Receiver, frames: seq<FrameResult>, sampled: seq<bool>, edges: nat, bit: bool)
    requires DecodedAs(l, rx, frames, sampled, edges) && WantsSample(rx)
    ensures var more := match SampleResult(l, rx, bit) case Some(f) => [f] case None => [];
            DecodedAs(l, BitSample(rx, bit), frames + more, sampled + [bit], edges)
  {
    OneMoreSample(l, sampled, bit);
    assert frames + [] == frames;
  }

  /** Only an edge or a timer interrupt in RX touches the receiver. */
  lemma ReceiverUntouched(n: Node, step: Step)
    requires !step.DoutEdge? && !(step.Tick? && n.dev.bus.BusRx?)
    ensures var n' := Next(n, step);
            n'.dev.layout == n.dev.layout && n'.dev.rx == n.dev.rx && n'.seen == n.seen
  {}

  lemma {:induction false} OneMoreSample(l: Layout, samples: seq<bool>, bit: bool)
    ensures var chunk := Leftover(samples) + [bit];
            && |chunk| <= FRAME_BITS
            && if |chunk| == FRAME_BITS then
                 && DecodeChunks(l, samples + [bit]) == DecodeChunks(l, samples) + [Decode(l, chunk)]
                 && Leftover(samples + [bit]) == []
               else
                 DecodeChunks(l, samples + [bit]) == DecodeChunks(l, samples) && Leftover(samples + [bit]) == chunk
    decreases |samples|
  {
    if |samples| < FRAME_BITS {
      assert (samples + [bit])[0..] == samples + [bit];
      if |samples| + 1 == FRAME_BITS {
        CompletedChunk(l, samples + [bit], []);
        assert (samples + [bit]) + [] == samples + [bit];
      }
    } else {
      OneMoreSample(l, samples[FRAME_BITS..], bit);
      assert (samples + [bit])[..FRAME_BITS] == samples[..FRAME_BITS];
      assert (samples + [bit])[FRAME_BITS..] == samples[FRAME_BITS..] + [bit];
    }
  }

  lemma RxTickReceives(n: Node, sample: bool)
    ensures var (d, n') := (n.dev, RxTickStep(n, sample));
            && n'.seen.edges == n.seen.edges && n'.dev.layout == d.layout
            && n'.seen.frames == n.seen.frames + (match FrameOf(d, sample) case Some(f) => [f] case None => [])
            && if WantsSample(d.rx) then
                 n'.dev.rx == BitSample(d.rx, sample) && n'.seen.sampled == n.seen.sampled + [sample]
               else n'.dev.rx == BitEdge(d.rx) && n'.seen.sampled == n.seen.sampled
  {}

  lemma DecodedStep(n: Node, step: Step)
    requires Decoded(n)
    ensures Decoded(Next(n, step))
  {
    if step.Tick? && n.dev.bus.BusRx? {
      RxTickReceives(n, step.sample);
      if WantsSample(n.dev.rx) {
        SampleDecodes(n.dev.layout, n.dev.rx, n.seen.frames, n.seen.sampled, n.seen.edges, step.sample);
      }
    } else if !step.DoutEdge? {
      ReceiverUntouched(n, step);
    }
  }

  /** In every run, with or without the guards, frames decode consecutive chunks of the samples taken. */
  lemma {:induction false} FramesDecodeSamples(n: Node, steps: seq<Step>)
    requires Decoded(n)
    ensures Decoded(Run(n, steps))
    decreases |steps|
  {
    if steps != [] {
      DecodedStep(n, steps[0]);
      FramesDecodeSamples(Next(n, steps[0]), steps[1..]);
    }
  }
}
