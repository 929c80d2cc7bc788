/** src/max22x88_bitbang_rx_state_machine.c: the frame decoder as an event machine, and what a frame means. */
module RxStateMachine {
  import opened Bytes
  import opened BitbangHelper
  import opened Frame

  datatype ErrorFlags = ErrorFlags(startBit: bool, stopBit: bool, offduty: bool, parity: bool)

  const NO_ERROR := ErrorFlags(false, false, false, false)

  datatype FrameResult = FrameResult(data: Bits, flags: ErrorFlags)

  /** Where the machine looks for the parity and stop bits among the 22 samples. */
  datatype Layout = Layout(parityPos: nat, stopPos: nat)

  const AS_CODED := Layout(19, 21)
  const AS_MEANT := Layout(18, 20)

  /** The position constants are past the last data sample. */
  predicate Sensible(l: Layout) {
    17 <= l.parityPos && 17 <= l.stopPos
  }

  // ---------------------------------------------------------------- what samples mean

  /** `data |= (1 << cnt)` on a uint8_t: the shift is done in an int and the store truncates. */
  function OrBit(data: Bits, cnt: nat): Bits
    requires cnt < 31
  {
    (((data as bv32) | ((1 as bv32) << cnt)) & 0xFF) as bv8
  }

  function DataUpTo(samples: seq<bool>, i: nat): Bits
    requires i <= 8
  {
    if i == 0 then 0
    else if 2 * i < |samples| && samples[2 * i] then OrBit(DataUpTo(samples, i - 1), i - 1)
    else DataUpTo(samples, i - 1)
  }

  /** The byte collected so far: the sample at 2 + 2i sets bit i. */
  function DataOf(samples: seq<bool>): Bits {
    DataUpTo(samples, 8)
  }

  predicate SampledAt(samples: seq<bool>, position: nat) {
    position % 2 == 0 && position < |samples|
  }

  /** Some off-duty sample, at an odd position, is low. */
  predicate LowOffduty(samples: seq<bool>) {
    samples != [] &&
    (LowOffduty(samples[..|samples| - 1]) || (|samples| % 2 == 0 && !samples[|samples| - 1]))
  }

  lemma {:induction false} LowOffdutyAt(samples: seq<bool>)
    ensures LowOffduty(samples) <==> exists k :: 0 <= k < |samples| && k % 2 == 1 && !samples[k]
  {
    if samples != [] {
      var front := samples[..|samples| - 1];
      LowOffdutyAt(front);
      if k :| 0 <= k < |front| && k % 2 == 1 && !front[k] { assert !samples[k]; }
      if k :| 0 <= k < |samples| && k % 2 == 1 && !samples[k] { assert k < |front| ==> !front[k]; }
    }
  }

  /** Bit samples sit at even positions, so a position constant that is odd is never looked at. */
  function FlagsOf(l: Layout, samples: seq<bool>): ErrorFlags {
    ErrorFlags(
      SampledAt(samples, 0) && samples[0],
      l.stopPos != l.parityPos && SampledAt(samples, l.stopPos) && !samples[l.stopPos],
      LowOffduty(samples),
      SampledAt(samples, l.parityPos) && samples[l.parityPos] != (Ones(DataOf(samples)) % 2 == 1))
  }

  function Decode(l: Layout, samples: seq<bool>): FrameResult {
    FrameResult(DataOf(samples), FlagsOf(l, samples))
  }

  // ---------------------------------------------------------------- the machine

  /** Below bit 8, the assignment sets bit cnt and leaves the others. */
  lemma OrBitInside(data: Bits, cnt: nat, i: nat)
    requires cnt < 8 && i < 8
    ensures TestBit8(OrBit(data, cnt), i) == (i == cnt || TestBit8(data, i))
  {
    EachBit(i);
    if cnt == 0 {} else if cnt == 1 {} else if cnt == 2 {} else if cnt == 3 {}
    else if cnt == 4 {} else if cnt == 5 {} else if cnt == 6 {} else {}
  }

  lemma EachBit(i: nat)
    requires i < 8
    ensures i == 0 || i == 1 || i == 2 || i == 3 || i == 4 || i == 5 || i == 6 || i == 7
  {}

  /** The parity sample of the coded constants is shifted out of the byte. */
  lemma OrBitOutside(data: Bits, cnt: nat)
    requires 8 <= cnt <= 10
    ensures OrBit(data, cnt) == data
  {
    if cnt == 8 {} else if cnt == 9 {} else {}
  }

  /** After n samples: the next data bit, or anything from 8 on once the data bits are over. */
  predicate DataBitCount(n: nat, cnt: nat) {
    if n == 0 then cnt == 0
    else if n <= 17 then cnt == (n - 1) / 2
    else 8 <= cnt <= (n - 1) / 2
  }

  class BitbangSm {
    const layout: Layout
    var data: Bits
    var errorFlags: ErrorFlags
    var sampledDataBitCnt: nat
    var sampledTotalBitCnt: nat
    var expectingEdge: bool
    var ongoing: bool
    var expectingOffdutyBit: bool
    /** The samples accepted since the last completed frame. */
    ghost var samples: seq<bool>

    ghost predicate Valid()
      reads this
    {
      && Sensible(layout)
      && |samples| < FRAME_BITS
      && sampledTotalBitCnt == |samples|
      && expectingOffdutyBit == (|samples| % 2 == 1)
      && data == DataOf(samples)
      && errorFlags == FlagsOf(layout, samples)
      && DataBitCount(|samples|, sampledDataBitCnt)
      && (!ongoing ==> expectingEdge && samples == [])
    }

    /** _adi_bitbang_sm_Init on a new machine. */
    constructor (l: Layout)
      requires Sensible(l)
      ensures Valid() && layout == l
      ensures Rx() == INITIAL
    {
      layout := l;
      data, errorFlags := 0, NO_ERROR;
      sampledDataBitCnt, sampledTotalBitCnt := 0, 0;
      expectingEdge, ongoing, expectingOffdutyBit := true, false, false;
      samples := [];
    }

    /** The machine as a receiver that only remembers the accepted samples. */
    ghost function Rx(): Receiver
      reads this
    {
      Receiver(ongoing, expectingEdge, samples)
    }

    method Init()
      requires Sensible(layout)
      modifies this
      ensures Valid()
      ensures Rx() == INITIAL
    {
      data, errorFlags := 0, NO_ERROR;
      sampledDataBitCnt, sampledTotalBitCnt := 0, 0;
      expectingEdge, ongoing, expectingOffdutyBit := true, false, false;
      samples := [];
    }

    method EventStartBitEdge() returns (ok: bool)
      requires Valid()
      modifies this
      ensures Valid()
      ensures ok == !old(ongoing)
      ensures Rx() == StartBitEdge(old(Rx()))
    {
      if ongoing {
        return false;
      }
      ongoing := true;
      expectingEdge := false;
      return true;
    }

    predicate WantSample()
      reads this
    {
      !expectingEdge
    }

    method EventEdge() returns (ok: bool)
      requires Valid()
      modifies this
      ensures Valid()
      ensures ok == WantsEdge(old(Rx()))
      ensures Rx() == BitEdge(old(Rx()))
    {
      if !ongoing || !expectingEdge {
        return false;
      }
      expectingEdge := false;
      return true;
    }

    /** The branch on the position of the sample. */
    method Absorb(bit: bool)
      requires Valid() && ongoing
      modifies `data, `errorFlags, `sampledDataBitCnt, `expectingOffdutyBit
      ensures expectingOffdutyBit == (|samples| % 2 == 0)
      ensures data == DataOf(samples + [bit])
      ensures errorFlags == FlagsOf(layout, samples + [bit])
      ensures DataBitCount(|samples| + 1, sampledDataBitCnt)
    {
      MoreSamples(layout, samples, bit);
      if expectingOffdutyBit {
        if !bit {
          errorFlags := errorFlags.(offduty := true);
        }
        expectingOffdutyBit := false;
      } else {
        if sampledTotalBitCnt == 0 {
          if bit {
            errorFlags := errorFlags.(startBit := true);
            sampledDataBitCnt := 0;
          }
        } else if sampledTotalBitCnt == layout.parityPos {
          ParityOfOnes(data);
          var expectedParityBit := CalcEvenParityU8(data);
          if bit != expectedParityBit {
            errorFlags := errorFlags.(parity := true);
          }
        } else if sampledTotalBitCnt == layout.stopPos {
          if !bit {
            errorFlags := errorFlags.(stopBit := true);
          }
        } else if 0 < sampledTotalBitCnt < layout.parityPos {
          if 8 <= sampledDataBitCnt { OrBitOutside(data, sampledDataBitCnt); }
          if bit {
            data := OrBit(data, sampledDataBitCnt);
          }
          sampledDataBitCnt := sampledDataBitCnt + 1;
        }
        expectingOffdutyBit := true;
      }
    }

    /** `finished` is Some result exactly when the 22nd sample completes the frame. */
    method EventSample(bit: bool) returns (ok: bool, finished: Option<FrameResult>)
      requires Valid()
      modifies this
      ensures Valid()
      ensures ok == WantsSample(old(Rx()))
      ensures Rx() == BitSample(old(Rx()), bit)
      ensures finished == SampleResult(layout, old(Rx()), bit)
    {
      if !ongoing || expectingEdge {
        return false, None;
      }
      Absorb(bit);
      samples := samples + [bit];
      sampledTotalBitCnt := sampledTotalBitCnt + 1;
      if sampledTotalBitCnt == FRAME_BITS {
        finished := Some(FrameResult(data, errorFlags));
        Init();
      } else {
        finished := None;
        expectingEdge := true;
      }
      ok := true;
    }
  }

  /** One more sample changes the meaning of a frame in at most one place. */
  lemma MoreSamples(l: Layout, before: seq<bool>, bit: bool)
    requires Sensible(l) && |before| < FRAME_BITS
    ensures var n := |before|;
            var (f, g) := (FlagsOf(l, before), FlagsOf(l, before + [bit]));
            && DataOf(before + [bit])
               == (if n % 2 == 0 && 2 <= n <= 16 && bit then OrBit(DataOf(before), n / 2 - 1) else DataOf(before))
            && g.offduty == (f.offduty || (n % 2 == 1 && !bit))
            && g.startBit == (f.startBit || (n == 0 && bit))
            && g.parity == (f.parity || (n % 2 == 0 && n == l.parityPos && bit != (Ones(DataOf(before)) % 2 == 1)))
            && g.stopBit == (f.stopBit || (n % 2 == 0 && n == l.stopPos && n != l.parityPos && !bit))
  {
    MoreData(before, bit, 8);
    assert (before + [bit])[..|before|] == before;
  }

  lemma {:induction false} MoreData(before: seq<bool>, bit: bool, i: nat)
    requires |before| < FRAME_BITS && i <= 8
    ensures var n := |before|;
            var data := DataUpTo(before, i);
            DataUpTo(before + [bit], i)
            == (if n % 2 == 0 && 2 <= n <= 2 * i && bit then OrBit(data, n / 2 - 1) else data)
  {
    if i > 0 {
      MoreData(before, bit, i - 1);
    }
  }

  /** Bit i of a decoded frame is sample 2 + 2i. */
  lemma {:induction false} DecodedBit(samples: seq<bool>, upTo: nat, i: nat)
    requires upTo <= 8 && i < 8
    ensures TestBit8(DataUpTo(samples, upTo), i) == (i < upTo && 2 + 2 * i < |samples| && samples[2 + 2 * i])
  {
    if upTo > 0 {
      DecodedBit(samples, upTo - 1, i);
      OrBitInside(DataUpTo(samples, upTo - 1), upTo - 1, i);
    } else {
      EachBit(i);
    }
  }

  // ---------------------------------------------------------------- the receiver without the bookkeeping

  datatype Receiver = Receiver(ongoing: bool, expectingEdge: bool, samples: seq<bool>)

  const INITIAL := Receiver(false, true, [])

  function StartBitEdge(r: Receiver): Receiver {
    if r.ongoing then r else Receiver(true, false, r.samples)
  }

  predicate WantsEdge(r: Receiver) {
    r.ongoing && r.expectingEdge
  }

  function BitEdge(r: Receiver): Receiver {
    if WantsEdge(r) then r.(expectingEdge := false) else r
  }

  predicate WantsSample(r: Receiver) {
    r.ongoing && !r.expectingEdge
  }

  function BitSample(r: Receiver, bit: bool): Receiver {
    if !WantsSample(r) then r
    else if |r.samples| + 1 == FRAME_BITS then INITIAL
    else Receiver(true, true, r.samples + [bit])
  }

  function SampleResult(l: Layout, r: Receiver, bit: bool): Option<FrameResult> {
    if WantsSample(r) && |r.samples| + 1 == FRAME_BITS then Some(Decode(l, r.samples + [bit])) else None
  }
}
