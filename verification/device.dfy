/**
 * What src/max22x88_bitbang.c and src/max22x88.c do to the state of one device, one interrupt or one
 * store of the main code at a time.
 */
module Device {
  import opened Bytes
  import opened RxStateMachine
  import opened Transmitter

  datatype BusState = BusIdle | BusWait | BusRx | BusTx | BusUnknown

  /** The codes of error_log, in the order of the source. */
  const FRAME_VALID: nat := 0
  const FRAME_BAD: nat := 1
  const FRAME_BAD_START: nat := 2
  const FRAME_BAD_OFFDUTY: nat := 3
  const FRAME_BAD_PARITY: nat := 4
  const FRAME_BAD_STOP: nat := 5
  const RX_OVF: nat := 6
  const INTERNAL_ERROR: nat := 7
  const BITBANG_LOG_MAX: nat := 8

  /** The counters of error_log, taken not to reach INT_MAX. */
  type Log = log: seq<nat> | |log| == BITBANG_LOG_MAX witness seq(BITBANG_LOG_MAX, _ => 0)

  type LogCode = c: nat | c < BITBANG_LOG_MAX

  function Counted(log: Log, code: LogCode): Log {
    log[code := log[code] + 1]
  }

  /**
   * The driver and its bitbang context, with the two interrupt sources: whether the bit timer runs and
   * whether falling edges on DOUT interrupt. `queue` is the content of the receive ring buffer, oldest
   * byte first.
   */
  datatype Device = Device(layout: Layout, bus: BusState, rx: Receiver, tx: Tx, log: Log,
                           queue: seq<Byte>, capacity: nat, timer: bool, dout: bool)

  /** After max22x88_gpio_bitbang_init: the line is high, edges interrupt, the timer is stopped. */
  predicate InitialDevice(d: Device) {
    && d.bus.BusUnknown? && d.rx == INITIAL
    && d.tx.words == [] && d.tx.byte == 0 && d.tx.bit == 0 && !d.tx.collation && !d.tx.lastBit && d.tx.din
    && (forall c: LogCode :: d.log[c] == 0) && d.queue == [] && !d.timer && d.dout
  }

  // ---------------------------------------------------------------- falling edge on DOUT

  /** adi_max22x88_FallingEdgeIntCallback: the timer is started first and stopped again on a rejected edge. */
  function FallingEdge(d: Device): Device {
    if d.rx.ongoing then d.(timer := false)
    else d.(rx := StartBitEdge(d.rx), dout := false, bus := BusRx, timer := true)
  }

  // ---------------------------------------------------------------- receiving

  function CountedIf(log: Log, c: bool, code: LogCode): Log {
    if c then Counted(log, code) else log
  }

  function Blamed(log: Log, flags: ErrorFlags): Log {
    CountedIf(CountedIf(CountedIf(CountedIf(log, flags.offduty, FRAME_BAD_OFFDUTY), flags.parity, FRAME_BAD_PARITY),
                        flags.startBit, FRAME_BAD_START), flags.stopBit, FRAME_BAD_STOP)
  }

  /** What a completed frame does to the counters, given whether there is room for its byte. */
  function Logged(log: Log, flags: ErrorFlags, room: bool): Log {
    if flags != NO_ERROR then Blamed(Counted(log, FRAME_BAD), flags)
    else if room then Counted(log, FRAME_VALID)
    else Counted(log, RX_OVF)
  }

  predicate Room(d: Device) {
    |d.queue| < d.capacity
  }

  /** The byte a completed frame puts into the queue, if it does. */
  function Queued(d: Device, f: FrameResult): seq<Byte> {
    if f.flags == NO_ERROR && Room(d) then [AsByte(f.data)] else []
  }

  /** A completed frame: the byte is queued or not, the outcome counted, and the device listens again. */
  function Filed(d: Device, f: FrameResult): Device {
    d.(queue := d.queue + Queued(d, f), log := Logged(d.log, f.flags, Room(d)),
       bus := BusIdle, timer := false, dout := true)
  }

  function InternalError(d: Device): Device {
    d.(log := Counted(d.log, INTERNAL_ERROR))
  }

  /** The frame a timer interrupt in the receiving state completes, if any. */
  function FrameOf(d: Device, sample: bool): Option<FrameResult> {
    SampleResult(d.layout, d.rx, sample)
  }

  /** max22x88_handle_interrupt_rx. */
  function RxTick(d: Device, sample: bool): Device {
    if WantsSample(d.rx) then
      var sampled := d.(rx := BitSample(d.rx, sample));
      match FrameOf(d, sample)
      case Some(f) => Filed(sampled, f)
      case None => sampled
    else if WantsEdge(d.rx) then d.(rx := BitEdge(d.rx))
    else InternalError(d)
  }

  // ---------------------------------------------------------------- transmitting

  /** max22x88_handle_interrupt_tx. */
  function TxTick(d: Device, stray: bool): Device {
    if Exhausted(d.tx) then d.(bus := BusIdle) else d.(tx := Transmitter.Tick(d.tx, stray))
  }

  /** signal_timer_isr. */
  function TimerTick(d: Device, sample: bool, stray: bool): Device {
    match d.bus
    case BusTx => TxTick(d, stray)
    case BusRx => RxTick(d, sample)
    case _ => InternalError(d)
  }

  // ---------------------------------------------------------------- main code

  /** start_transmission, all of it at once, after the data has been formatted. */
  function Started(d: Device, data: seq<Byte>): Device {
    d.(tx := Start(d.tx, data), bus := BusTx, timer := true)
  }

  /** stop_hbs_timing. */
  function StopTiming(d: Device): Device {
    d.(bus := BusIdle, timer := false)
  }

  /** What a write leaves, once it returns: only the transmitter has moved on, and the device listens for edges. */
  function Written(d: Device, data: seq<Byte>): Device {
    StopTiming(d).(tx := AfterWrite(d.tx, data), dout := true)
  }

  /** A store to tail that skips the oldest elements. */
  function Dropped(d: Device, count: nat): Device
    requires count <= |d.queue|
  {
    d.(queue := d.queue[count..])
  }
}
