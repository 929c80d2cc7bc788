/** src/max22x88_bitbang.c and src/max22x88.c: the driver object, its interrupt handlers and its calls. */
module Bitbang {
  import opened Bytes
  import opened BitbangHelper
  import opened Frame
  import opened RxStateMachine
  import opened RingBuffer
  import opened Fifo
  import opened Transmitter
  import opened Device

  datatype Result = Ok | RxBufferEmpty | RxBufferFull | BadParam | UserFn | Internal

  /** The single bytes of one-byte elements. */
  function Flat(es: seq<Elem>): (bytes: seq<Byte>)
    ensures |bytes| == |es|
  {
    seq(|es|, i requires 0 <= i < |es| => if |es[i]| == 1 then es[i][0] else 0)
  }

  lemma FlatPush(es: seq<Elem>, b: Byte)
    ensures Flat(es + [[b]]) == Flat(es) + [b]
  {}

  lemma FlatPop(es: seq<Elem>)
    requires es != []
    ensures Flat(es[1..]) == Flat(es)[1..]
  {}

  function WordsOf(words: seq<bv32>): (levels: seq<WordLevels>)
    ensures |levels| == |words|
    ensures forall i :: 0 <= i < |words| ==> levels[i] == LevelsOfWord(words[i])
  {
    seq(|words|, i requires 0 <= i < |words| => LevelsOfWord(words[i]))
  }

  /** format_byte_for_hbs_tx on every byte is the formatted stream. */
  lemma FormattedWords(words: seq<bv32>, data: seq<Byte>)
    requires |words| == |data| && forall i :: 0 <= i < |data| ==> words[i] == FormatByteForHbsTx(AsBits(data[i]))
    ensures WordsOf(words) == FormatAll(data)
  {
    forall i | 0 <= i < |data|
      ensures WordsOf(words)[i] == FormatAll(data)[i]
    {
      FormattedLevels(AsBits(data[i]));
    }
  }

  /** What the interrupts of a spin leave. */
  function Spun(d: Device, data: seq<Byte>): Device {
    d.(tx := AfterWrite(d.tx, data), bus := BusIdle, timer := true)
  }

  /** A spin that began in Started(before, data), after some interrupts and the levels they drove. */
  ghost predicate InSpin(d: Device, before: Device, data: seq<Byte>, ticks: nat, driven: seq<bool>) {
    var (start, total) := (Start(before.tx, data), SpinTicks(|data|, before.tx.collation));
    if d.bus.BusTx? then
      ticks < total && d == Started(before, data).(tx := TickMany(start, ticks)) && driven == DrivenBy(start, ticks)
    else
      ticks == total && d == Spun(before, data) && driven == Levels(FormatAll(data))
  }

  lemma SpinStarts(before: Device, data: seq<Byte>)
    ensures InSpin(Started(before, data), before, data, 0, [])
  {}

  lemma SpinStep(d: Device, before: Device, data: seq<Byte>, ticks: nat, driven: seq<bool>, sample: bool)
    requires InSpin(d, before, data, ticks, driven) && d.bus.BusTx?
    ensures d.tx.byte <= |d.tx.words| && ticks < SpinTicks(|data|, before.tx.collation)
    ensures var d' := TimerTick(d, sample, false);
            InSpin(d', before, data, ticks + 1, if Drives(d.tx) then driven + [d'.tx.din] else driven)
  {
    ExactTransmission(before.tx, data, ticks);
    TicksToTheEnd(Start(before.tx, data), ticks);
    OneTickMore(Start(before.tx, data), ticks);
    if Exhausted(d.tx) {
      SpinEnds(d, before, data, ticks, driven);
    } else {
      SpinGoesOn(d, before, data, ticks, driven);
    }
  }

  lemma SpinGoesOn(d: Device, before: Device, data: seq<Byte>, ticks: nat, driven: seq<bool>)
    requires InSpin(d, before, data, ticks, driven) && d.bus.BusTx? && !Exhausted(d.tx)
    ensures var d' := TxTick(d, false);
            InSpin(d', before, data, ticks + 1, if Drives(d.tx) then driven + [d'.tx.din] else driven)
  {
    var start := Start(before.tx, data);
    ExactTransmission(before.tx, data, ticks);
    OneTickMore(start, ticks);
    assert driven + [] == driven;
  }

  lemma SpinEnds(d: Device, before: Device, data: seq<Byte>, ticks: nat, driven: seq<bool>)
    requires InSpin(d, before, data, ticks, driven) && d.bus.BusTx? && Exhausted(d.tx)
    ensures InSpin(TxTick(d, false), before, data, ticks + 1, driven)
  {
    ExactTransmission(before.tx, data, ticks);
  }

  class Max22x88 {
    const rxSm: BitbangSm
    const rxQueue: Queue
    const errorLog: array<nat>
    var dataToTx: array<bv32>
    var txCurrentByte: nat
    var txCurrentBit: nat
    var busState: BusState
    var performBitCollation: bool
    var lastBitTx: bool
    var txState: bool
    // pins and interrupt sources
    var din: bool
    var rst: bool
    var timer: bool
    var dout: bool

    ghost predicate Valid()
      reads this, rxSm, rxQueue, rxQueue.buf, errorLog
    {
      && rxSm.Valid()
      && rxQueue.Valid() && rxQueue.elemSize == 1
      && errorLog.Length == BITBANG_LOG_MAX
      && txCurrentBit < FRAME_BITS && rst == !txState
      && dataToTx as object != errorLog && dataToTx as object != rxQueue.buf
    }

    ghost function ViewTx(): Tx
      reads this, dataToTx
      requires txCurrentBit < FRAME_BITS
    {
      Tx(WordsOf(dataToTx[..]), txCurrentByte, txCurrentBit, performBitCollation, lastBitTx, din)
    }

    ghost function View(): Device
      reads this, rxSm, rxQueue, rxQueue.buf, errorLog, dataToTx
      requires Valid()
    {
      Device(rxSm.layout, busState, rxSm.Rx(), ViewTx(), errorLog[..],
             Flat(rxQueue.Contents()), Capacity(rxQueue.View()), timer, dout)
    }

    /** max22x88_gpio_bitbang_init with a fresh context, given the receive buffer. */
    constructor (queue: Queue, layout: Layout)
      requires queue.Valid() && queue.elemSize == 1 && queue.Contents() == [] && Sensible(layout)
      ensures Valid() && fresh(rxSm) && fresh(errorLog) && rxQueue == queue
      ensures InitialDevice(View()) && View().layout == layout && View().capacity == Capacity(queue.View())
      ensures !txState && rst
    {
      rxSm := new BitbangSm(layout);
      rxQueue := queue;
      errorLog := new nat[BITBANG_LOG_MAX](_ => 0);
      dataToTx := new bv32[0];
      txCurrentByte, txCurrentBit := 0, 0;
      performBitCollation, lastBitTx := false, false;
      busState := BusUnknown;
      rst, din := true, true;
      timer, dout := false, true;
      txState := false;
    }

    /** adi_max22x88_FallingEdgeIntCallback on an initialised driver. */
    method FallingEdgeIntCallback() returns (err: Result)
      requires Valid()
      modifies `timer, `dout, `busState, rxSm
      ensures Valid() && View() == FallingEdge(old(View()))
      ensures err == if old(rxSm.ongoing) then Internal else Ok
    {
      timer := true;
      var ok := rxSm.EventStartBitEdge();
      if !ok {
        timer := false;
        return Internal;
      }
      dout := false;
      busState := BusRx;
      return Ok;
    }

    method BitbangLog(code: LogCode)
      requires errorLog.Length == BITBANG_LOG_MAX
      modifies errorLog
      ensures errorLog[..] == Counted(old(errorLog[..]), code)
    {
      ghost var before := errorLog[..];
      errorLog[code] := errorLog[code] + 1;
      assert errorLog[..] == before[code := before[code] + 1];
    }

    method BitbangLogIf(c: bool, code: LogCode)
      requires errorLog.Length == BITBANG_LOG_MAX
      modifies errorLog
      ensures errorLog[..] == CountedIf(old(errorLog[..]), c, code)
    {
      if c {
        BitbangLog(code);
      }
    }

    /** The counters of a frame with error flags. */
    method LogBadFrame(flags: ErrorFlags)
      requires errorLog.Length == BITBANG_LOG_MAX
      modifies errorLog
      ensures errorLog[..] == Blamed(Counted(old(errorLog[..]), FRAME_BAD), flags)
    {
      BitbangLog(FRAME_BAD);
      BitbangLogIf(flags.offduty, FRAME_BAD_OFFDUTY);
      BitbangLogIf(flags.parity, FRAME_BAD_PARITY);
      BitbangLogIf(flags.startBit, FRAME_BAD_START);
      BitbangLogIf(flags.stopBit, FRAME_BAD_STOP);
    }

    method StopHbsTiming()
      requires Valid()
      modifies `busState, `timer
      ensures Valid() && View() == StopTiming(old(View()))
    {
      busState := BusIdle;
      timer := false;
    }

    method RestartRxing()
      requires Valid()
      modifies `busState, `timer, `dout
      ensures Valid() && View() == StopTiming(old(View())).(dout := true)
    {
      StopHbsTiming();
      dout := true;
    }

    /** adi_max22x88_DataReceived. */
    method DataReceived(data: Byte) returns (err: Result)
      requires Valid()
      modifies rxQueue`head, rxQueue.buf
      ensures Valid() && err == if Room(old(View())) then Ok else RxBufferFull
      ensures View() == old(View()).(queue := old(View()).queue + if Room(old(View())) then [data] else [])
    {
      var cell := new Byte[1];
      cell[0] := data;
      ghost var before := rxQueue.Contents();
      var pushed := rxQueue.Push(cell);
      if pushed == FifoOk {
        assert cell[..rxQueue.elemSize] == [data];
        FlatPush(before, data);
        return Ok;
      }
      assert before + [] == before;
      return RxBufferFull;
    }

    /** The outcome of a completed frame, up to and including restart_rxing. */
    method FrameReceived(result: FrameResult)
      requires Valid()
      modifies errorLog, rxQueue`head, rxQueue.buf, `busState, `timer, `dout
      ensures Valid() && View() == Filed(old(View()), result)
    {
      if result.flags == NO_ERROR {
        var err := DataReceived(AsByte(result.data));
        match err {
          case Ok => BitbangLog(FRAME_VALID);
          case RxBufferFull => BitbangLog(RX_OVF);
          case _ => assert false;
        }
      } else {
        LogBadFrame(result.flags);
      }
      RestartRxing();
    }

    /** The interrupt that takes a sample, of which the last one completes a frame. */
    method SampleReceived(sample: bool) returns (smStatus: bool)
      requires Valid() && WantsSample(View().rx)
      modifies rxSm, errorLog, rxQueue`head, rxQueue.buf, `busState, `timer, `dout
      ensures Valid() && smStatus && View() == RxTick(old(View()), sample)
    {
      var finished;
      smStatus, finished := rxSm.EventSample(sample);
      if smStatus && finished.Some? {
        FrameReceived(finished.value);
      }
    }

    method HandleInterruptRx(sample: bool)
      requires Valid()
      modifies rxSm, errorLog, rxQueue`head, rxQueue.buf, `busState, `timer, `dout
      ensures Valid() && View() == RxTick(old(View()), sample)
    {
      var smStatus := false;
      if rxSm.WantSample() {
        smStatus := SampleReceived(sample);
      } else {
        smStatus := rxSm.EventEdge();
      }
      if !smStatus {
        BitbangLog(INTERNAL_ERROR);
      }
    }

    /**
     * max22x88_handle_interrupt_tx. handle_collision is empty, so what `sample` reads back does not matter.
     * `stray` is the level the code would read past the end of data_to_tx.
     */
    method HandleInterruptTx(sample: bool, stray: bool)
      requires Valid()
      modifies `busState, `performBitCollation, `lastBitTx, `din, `txCurrentBit, `txCurrentByte
      ensures Valid() && View() == TxTick(old(View()), stray)
    {
      if txCurrentByte == dataToTx.Length {
        busState := BusIdle;
        return;
      }
      if performBitCollation {
        performBitCollation := false;
      } else {
        DriveNextBit(stray);
      }
    }

    method NextBit(stray: bool) returns (bit: bool)
      requires Valid()
      ensures bit == NextLevel(ViewTx(), stray)
    {
      if txCurrentByte < dataToTx.Length {
        assert dataToTx[..][txCurrentByte] == dataToTx[txCurrentByte];
        return TestBit32(dataToTx[txCurrentByte], txCurrentBit);
      }
      return stray;
    }

    method DriveNextBit(stray: bool)
      requires Valid()
      modifies `performBitCollation, `lastBitTx, `din, `txCurrentBit, `txCurrentByte
      ensures Valid() && ViewTx() == Drive(old(ViewTx()), NextLevel(old(ViewTx()), stray))
    {
      var bitToTx := NextBit(stray);
      din := bitToTx;
      performBitCollation := true;
      lastBitTx := bitToTx;
      txCurrentBit := txCurrentBit + 1;
      if txCurrentBit == FRAME_BITS {
        txCurrentBit := 0;
        txCurrentByte := txCurrentByte + 1;
      }
    }

    /** signal_timer_isr, where `sample` is the level read from DOUT. */
    method SignalTimerIsr(sample: bool, stray: bool)
      requires Valid()
      modifies rxSm, errorLog, rxQueue`head, rxQueue.buf, `timer, `dout
      modifies `busState, `performBitCollation, `lastBitTx, `din, `txCurrentBit, `txCurrentByte
      ensures Valid() && View() == TimerTick(old(View()), sample, stray)
    {
      match busState {
        case BusTx => HandleInterruptTx(sample, stray);
        case BusRx => HandleInterruptRx(sample);
        case _ => BitbangLog(INTERNAL_ERROR);
      }
    }

    method StartTransmission()
      requires Valid()
      modifies `busState, `txCurrentBit, `txCurrentByte, `timer
      ensures Valid() && View() == old(View()).(bus := BusTx, timer := true, tx := old(View()).tx.(bit := 0, byte := 0))
    {
      busState := BusTx;
      txCurrentBit := 0;
      txCurrentByte := 0;
      timer := true;
    }

    /** The loop that fills data_to_tx. */
    method FormatData(data: array<Byte>, count: nat) returns (words: array<bv32>)
      requires count <= data.Length
      ensures fresh(words) && words.Length == count
      ensures WordsOf(words[..]) == FormatAll(data[..count])
    {
      words := new bv32[count];
      var i := 0;
      while i < count
        invariant 0 <= i <= count
        invariant forall k :: 0 <= k < i ==> words[k] == FormatByteForHbsTx(AsBits(data[k]))
      {
        words[i] := FormatByteForHbsTx(AsBits(data[i]));
        i := i + 1;
      }
      FormattedWords(words[..], data[..count]);
    }

    /**
     * max22x88_write_bitbang, called with the transmitter enabled. Timer interrupts run while the main code
     * spins: `ticks` counts them and `driven` are the levels they put on the line.
     */
    method WriteBitbang(data: array<Byte>, count: nat) returns (err: Result, ticks: nat, driven: seq<bool>)
      requires Valid() && !rst && count <= data.Length
      modifies rxSm, errorLog, rxQueue`head, rxQueue.buf, `dataToTx, `timer, `dout
      modifies `busState, `performBitCollation, `lastBitTx, `din, `txCurrentBit, `txCurrentByte
      ensures Valid() && err == Ok
      ensures View() == Written(old(View()), old(data[..count]))
      ensures ticks == SpinTicks(count, old(performBitCollation))
      ensures driven == Levels(FormatAll(old(data[..count])))
    {
      ghost var (before, bytes) := (View().(dout := false), data[..count]);
      PrepareTransmission(data, count);
      ticks, driven := Spin(before, bytes);
      RestartRxing();
      err := Ok;
    }

    /** Everything before the spin: format, disable the falling-edge interrupt, start. */
    method PrepareTransmission(data: array<Byte>, count: nat)
      requires Valid() && count <= data.Length
      modifies `dataToTx, `dout, `busState, `txCurrentBit, `txCurrentByte, `timer
      ensures Valid() && View() == Started(old(View()).(dout := false), data[..count])
    {
      dataToTx := FormatData(data, count);
      dout := false;
      StartTransmission();
    }

    /** The spin on bus_state, with the transmitter enabled and the falling-edge interrupt disabled. */
    method Spin(ghost before: Device, ghost bytes: seq<Byte>) returns (ticks: nat, driven: seq<bool>)
      requires Valid() && !rst && !dout && View() == Started(before, bytes)
      modifies rxSm, errorLog, rxQueue`head, rxQueue.buf, `timer, `dout
      modifies `busState, `performBitCollation, `lastBitTx, `din, `txCurrentBit, `txCurrentByte
      ensures Valid() && View() == Spun(before, bytes)
      ensures ticks == SpinTicks(|bytes|, before.tx.collation)
      ensures driven == Levels(FormatAll(bytes))
    {
      ticks, driven := 0, [];
      SpinStarts(before, bytes);
      while busState.BusTx?
        invariant Valid() && InSpin(View(), before, bytes, ticks, driven)
        decreases SpinTicks(|bytes|, before.tx.collation) - ticks
      {
        var sample: bool := *;
        SpinStep(View(), before, bytes, ticks, driven, sample);
        var drives := txCurrentByte < dataToTx.Length && !performBitCollation;
        SignalTimerIsr(sample, false);
        ticks := ticks + 1;
        if drives {
          driven := driven + [din];
        }
      }
    }

    /** adi_max22x88_SetTxState with the GPIO layer, whose RST line enables the transmitter when low. */
    method SetTxState(state: bool) returns (err: Result)
      requires Valid()
      modifies `txState, `rst
      ensures Valid() && View() == old(View())
      ensures err == Ok && txState == state && rst == !state
    {
      rst := !state;
      txState := state;
      return Ok;
    }

    method Write(data: array<Byte>, len: nat) returns (err: Result, ticks: nat, driven: seq<bool>)
      requires Valid() && len <= data.Length
      modifies rxSm, errorLog, rxQueue`head, rxQueue.buf, `dataToTx, `timer, `dout
      modifies `busState, `performBitCollation, `lastBitTx, `din, `txCurrentBit, `txCurrentByte
      ensures Valid() && err == if txState then Ok else Internal
      ensures txState ==>
                && View() == Written(old(View()), old(data[..len]))
                && ticks == SpinTicks(len, old(performBitCollation))
                && driven == Levels(FormatAll(old(data[..len])))
      ensures !txState ==> View() == old(View()) && ticks == 0 && driven == []
    {
      if !txState {
        return Internal, 0, [];
      }
      err, ticks, driven := WriteBitbang(data, len);
    }

    /** adi_max22x88_Transmit: the transmitter is enabled just for the write, which is never empty. */
    method Transmit(data: array?<Byte>, len: nat) returns (err: Result, ticks: nat, driven: seq<bool>)
      requires Valid() && (data != null ==> len <= data.Length)
      modifies rxSm, errorLog, rxQueue`head, rxQueue.buf, `dataToTx, `timer, `dout, `txState, `rst
      modifies `busState, `performBitCollation, `lastBitTx, `din, `txCurrentBit, `txCurrentByte
      ensures Valid() && err == if data == null || len == 0 then BadParam else Ok
      ensures err == Ok ==>
                && View() == Written(old(View()), old(data[..len]))
                && ticks == 44 * len + Weight(old(performBitCollation), 1)
                && driven == Levels(FormatAll(old(data[..len])))
                && !txState && rst
      ensures err != Ok ==>
                && View() == old(View()) && txState == old(txState) && rst == old(rst)
                && ticks == 0 && driven == []
    {
      ticks, driven := 0, [];
      if data == null || len == 0 {
        err := BadParam;
        return;
      }
      err := SetTxState(true);
      if err != Ok {
        return;
      }
      err, ticks, driven := Write(data, len);
      if err != Ok {
        return;
      }
      err := SetTxState(false);
    }

    method IsAvailable() returns (available: bool)
      requires Valid()
      ensures available <==> View().queue != []
    {
      var empty := rxQueue.IsEmpty();
      return !empty;
    }

    /** adi_max22x88_Read. A NULL destination discards the oldest byte, or, on an empty queue, makes it look full. */
    method Read(data: array?<Byte>) returns (err: Result)
      requires Valid() && (data != null ==> data != rxQueue.buf && data as object != dataToTx && data.Length >= 1)
      modifies rxQueue`tail, data
      ensures Valid() && err == if data != null && old(View()).queue == [] then RxBufferEmpty else Ok
      ensures old(View()).queue != [] ==> View() == old(View()).(queue := old(View()).queue[1..])
      ensures data != null && old(View()).queue != [] ==>
                data[0] == old(View()).queue[0] && data[1..] == old(data[1..])
      ensures data != null && old(View()).queue == [] ==> View() == old(View()) && data[..] == old(data[..])
      ensures data == null && old(View()).queue == [] ==> |View().queue| == View().capacity
    {
      ghost var before := rxQueue.Contents();
      var popped := rxQueue.Pop(data);
      if before != [] { FlatPop(before); }
      if popped == FifoBufferEmpty {
        return RxBufferEmpty;
      }
      return Ok;
    }

    method FlushRx() returns (err: Result)
      requires Valid()
      modifies rxQueue`tail
      ensures Valid() && err == Ok
      ensures View() == old(View()).(queue := [])
    {
      var cleared := rxQueue.Clear();
      return Ok;
    }
  }

  /** adi_max22x88_InitBitbang. `params` says whether there are any, `inUse` whether a driver is initialised already. */
  method InitBitbang(rxBufferLen: SizeT, params: bool, inUse: bool, layout: Layout)
    returns (err: Result, driver: Max22x88?)
    requires Sensible(layout)
    ensures err == if !(1 <= rxBufferLen < SIZE_MAX) then Internal else if inUse || !params then UserFn else Ok
    ensures (driver != null) == (err == Ok)
    ensures driver != null ==>
              && fresh(driver) && driver.Valid() && InitialDevice(driver.View())
              && driver.View().layout == layout && driver.View().capacity == rxBufferLen
              && !driver.txState && driver.rst
  {
    var initialised, queue := Init(rxBufferLen, 1);
    if initialised != FifoOk {
      return Internal, null;
    }
    if inUse || !params {
      return UserFn, null;
    }
    driver := new Max22x88(queue, layout);
    err := driver.SetTxState(false);
  }
}
