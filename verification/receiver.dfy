/** What the frame decoder does over whole event sequences, and what it recovers from a transmitted frame. */
module ReceiverRuns {
  import opened Bytes
  import opened BitbangHelper
  import opened Frame
  import opened RxStateMachine

  // ---------------------------------------------------------------- every finite event sequence

  datatype Event = StartEdge | Edge | Sample(bit: bool)

  function StepReceiver(r: Receiver, e: Event): Receiver {
    match e
    case StartEdge => StartBitEdge(r)
    case Edge => BitEdge(r)
    case Sample(bit) => BitSample(r, bit)
  }

  function RunReceiver(r: Receiver, events: seq<Event>): Receiver
    decreases |events|
  {
    if events == [] then r else RunReceiver(StepReceiver(r, events[0]), events[1..])
  }

  /** The samples the machine took, out of all the events. */
  function Accepted(r: Receiver, events: seq<Event>): seq<bool>
    decreases |events|
  {
    if events == [] then []
    else
      (if events[0].Sample? && WantsSample(r) then [events[0].bit] else [])
      + Accepted(StepReceiver(r, events[0]), events[1..])
  }

  /** The frame results the machine handed out, oldest first. */
  function Emitted(l: Layout, r: Receiver, events: seq<Event>): seq<FrameResult>
    decreases |events|
  {
    if events == [] then []
    else
      (match events[0]
       case Sample(bit) => (match SampleResult(l, r, bit) case Some(f) => [f] case None => [])
       case _ => [])
      + Emitted(l, StepReceiver(r, events[0]), events[1..])
  }

  function DecodeChunks(l: Layout, samples: seq<bool>): seq<FrameResult> {
    if |samples| < FRAME_BITS then []
    else [Decode(l, samples[..FRAME_BITS])] + DecodeChunks(l, samples[FRAME_BITS..])
  }

  function Leftover(samples: seq<bool>): seq<bool> {
    if |samples| < FRAME_BITS then samples else Leftover(samples[FRAME_BITS..])
  }

  lemma CompletedChunk(l: Layout, chunk: seq<bool>, rest: seq<bool>)
    requires |chunk| == FRAME_BITS
    ensures DecodeChunks(l, chunk + rest) == [Decode(l, chunk)] + DecodeChunks(l, rest)
    ensures Leftover(chunk + rest) == Leftover(rest)
  {
    assert (chunk + rest)[..FRAME_BITS] == chunk;
    assert (chunk + rest)[FRAME_BITS..] == rest;
  }

  /**
   * Whatever the order of edges and samples, the results are the decodings of consecutive chunks of
   * 22 accepted samples, and the machine keeps exactly the incomplete chunk.
   */
  lemma {:induction false} ReceiverDecodesChunks(l: Layout, r: Receiver, events: seq<Event>)
    requires |r.samples| < FRAME_BITS
    ensures Emitted(l, r, events) == DecodeChunks(l, r.samples + Accepted(r, events))
    ensures RunReceiver(r, events).samples == Leftover(r.samples + Accepted(r, events))
    decreases |events|
  {
    if events == [] {
      assert r.samples + Accepted(r, events) == r.samples;
    } else {
      var r' := StepReceiver(r, events[0]);
      var rest := Accepted(r', events[1..]);
      ReceiverDecodesChunks(l, r', events[1..]);
      if events[0].Sample? && WantsSample(r) {
        var chunk := r.samples + [events[0].bit];
        assert r.samples + Accepted(r, events) == chunk + rest;
        if |chunk| == FRAME_BITS {
          CompletedChunk(l, chunk, rest);
          assert r'.samples + rest == rest;
        }
      } else {
        assert Accepted(r, events) == rest;
      }
    }
  }

  /** From a boundary, frame i of the results is samples 22i to 22i + 21. */
  lemma {:induction false} ChunkAt(l: Layout, samples: seq<bool>, i: nat)
    requires (i + 1) * FRAME_BITS <= |samples|
    ensures |DecodeChunks(l, samples)| == |samples| / FRAME_BITS
    ensures DecodeChunks(l, samples)[i] == Decode(l, samples[i * FRAME_BITS..(i + 1) * FRAME_BITS])
  {
    var rest := samples[FRAME_BITS..];
    ChunkCount(l, samples);
    if i > 0 {
      ChunkAt(l, rest, i - 1);
      assert rest[(i - 1) * FRAME_BITS..i * FRAME_BITS] == samples[i * FRAME_BITS..(i + 1) * FRAME_BITS];
    }
  }

  lemma {:induction false} ChunkCount(l: Layout, samples: seq<bool>)
    ensures |DecodeChunks(l, samples)| == |samples| / FRAME_BITS
  {
    if |samples| >= FRAME_BITS { ChunkCount(l, samples[FRAME_BITS..]); }
  }

  // ---------------------------------------------------------------- frames off the transmitter

  lemma SameBits(a: Bits, b: Bits)
    requires forall i :: 0 <= i < 8 ==> TestBit8(a, i) == TestBit8(b, i)
    ensures a == b
  {
    assert TestBit8(a, 0) == TestBit8(b, 0) && TestBit8(a, 1) == TestBit8(b, 1);
    assert TestBit8(a, 2) == TestBit8(b, 2) && TestBit8(a, 3) == TestBit8(b, 3);
    assert TestBit8(a, 4) == TestBit8(b, 4) && TestBit8(a, 5) == TestBit8(b, 5);
    assert TestBit8(a, 6) == TestBit8(b, 6) && TestBit8(a, 7) == TestBit8(b, 7);
  }

  lemma FrameData(value: Bits)
    ensures DataOf(FrameLevels(value)) == value
  {
    forall i | 0 <= i < 8
      ensures TestBit8(DataOf(FrameLevels(value)), i) == TestBit8(value, i)
    {
      DecodedBit(FrameLevels(value), 8, i);
      FrameLevelsAt(value, 2 + 2 * i);
    }
    SameBits(DataOf(FrameLevels(value)), value);
  }

  /** Looks for the parity and stop bits where the transmitter puts them, or not at all. */
  predicate Agrees(l: Layout) {
    && Sensible(l)
    && (l.parityPos == 18 || l.parityPos % 2 == 1)
    && (l.stopPos == 20 || l.stopPos % 2 == 1)
  }

  /** A transmitted frame decodes to its byte with no error flag, with the coded and the intended positions. */
  lemma FrameRoundTrip(l: Layout, value: Bits)
    requires Agrees(l)
    ensures Agrees(AS_CODED) && Agrees(AS_MEANT)
    ensures Decode(l, FrameLevels(value)) == FrameResult(value, NO_ERROR)
  {
    FrameData(value);
    var c := FrameLevels(value);
    OffdutyFlag(l, c);
    FrameLevelsAt(value, 0);
    FrameLevelsAt(value, 18);
    FrameLevelsAt(value, 20);
    forall k | 0 <= k < FRAME_BITS && k % 2 == 1 ensures c[k] { HighOffduty(value, k); }
  }

  /** With the coded constants neither flag is ever raised, because both positions are odd. */
  lemma CodedNeverFlagsParityOrStop(samples: seq<bool>)
    ensures !FlagsOf(AS_CODED, samples).parity && !FlagsOf(AS_CODED, samples).stopBit
  {}

  /** With the coded constants the parity and stop samples have no influence on the result. */
  lemma CodedIgnoresParityAndStop(samples: seq<bool>, parity: bool, stop: bool)
    requires |samples| == FRAME_BITS
    ensures Decode(AS_CODED, samples[18 := parity][20 := stop]) == Decode(AS_CODED, samples)
  {
    var changed := samples[18 := parity][20 := stop];
    SameDataSamples(samples, changed);
    OffdutyFlag(AS_CODED, samples);
    OffdutyFlag(AS_CODED, changed);
    assert forall k :: 0 <= k < FRAME_BITS && k % 2 == 1 ==> changed[k] == samples[k];
  }

  lemma SameDataSamples(a: seq<bool>, b: seq<bool>)
    requires |a| == |b| == FRAME_BITS
    requires forall i :: 0 <= i < 8 ==> a[2 + 2 * i] == b[2 + 2 * i]
    ensures DataOf(a) == DataOf(b)
  {
    forall i | 0 <= i < 8
      ensures TestBit8(DataOf(a), i) == TestBit8(DataOf(b), i)
    {
      DecodedBit(a, 8, i);
      DecodedBit(b, 8, i);
      assert a[2 + 2 * i] == b[2 + 2 * i];
    }
    SameBits(DataOf(a), DataOf(b));
  }

  lemma OffdutyFlag(l: Layout, samples: seq<bool>)
    ensures FlagsOf(l, samples).offduty <==> exists k :: 0 <= k < |samples| && k % 2 == 1 && !samples[k]
  {
    LowOffdutyAt(samples);
  }

  /** The data samples weighted by the powers of two. */
  function SampleSum(samples: seq<bool>, i: nat): nat
    requires |samples| == FRAME_BITS && i <= 8
  {
    if i == 0 then 0 else SampleSum(samples, i - 1) + Weight(samples[2 + 2 * (i - 1)], Pow2(i - 1))
  }

  lemma {:induction false} DataIsSum(samples: seq<bool>, i: nat)
    requires |samples| == FRAME_BITS && i <= 8
    ensures ValueUpTo(DataOf(samples), i) == SampleSum(samples, i)
  {
    if i > 0 {
      DataIsSum(samples, i - 1);
      DecodedBit(samples, 8, i - 1);
    }
  }

  /**
   * What a complete frame means as coded: the byte is the sum of the data samples, START says the first
   * sample was high, OFFDUTY says an odd one was low, and PARITY and STOP say nothing.
   */
  lemma CodedMeaning(samples: seq<bool>)
    requires |samples| == FRAME_BITS
    ensures var f := Decode(AS_CODED, samples);
            && AsByte(f.data) == SampleSum(samples, 8)
            && f.flags.startBit == samples[0]
            && (f.flags.offduty <==> exists k :: 0 <= k < FRAME_BITS && k % 2 == 1 && !samples[k])
            && !f.flags.parity && !f.flags.stopBit
  {
    DataIsSum(samples, 8);
    OffdutyFlag(AS_CODED, samples);
    CodedNeverFlagsParityOrStop(samples);
  }

  /** With the intended constants, what a complete frame flags. */
  lemma MeantFlags(samples: seq<bool>)
    requires |samples| == FRAME_BITS
    ensures FlagsOf(AS_MEANT, samples).parity == (samples[18] != (Ones(DataOf(samples)) % 2 == 1))
    ensures FlagsOf(AS_MEANT, samples).stopBit == !samples[20]
  {}

  /** Away from the parity and stop positions, samples without START or OFFDUTY are the frame of their byte. */
  lemma FramedAt(l: Layout, samples: seq<bool>, k: nat)
    requires |samples| == FRAME_BITS && k < FRAME_BITS && k != 18 && k != 20
    requires !FlagsOf(l, samples).startBit && !FlagsOf(l, samples).offduty
    ensures samples[k] == FrameLevels(DataOf(samples))[k]
  {
    OffdutyFlag(l, samples);
    FrameLevelsAt(DataOf(samples), k);
    if k % 2 == 0 && k != 0 { DecodedBit(samples, 8, k / 2 - 1); }
  }

  lemma FramedIsClean(l: Layout, samples: seq<bool>)
    requires |samples| == FRAME_BITS
    requires forall k :: 0 <= k < FRAME_BITS && k != 18 && k != 20 ==> samples[k] == FrameLevels(DataOf(samples))[k]
    ensures !FlagsOf(l, samples).startBit && !FlagsOf(l, samples).offduty
  {
    FrameLevelsAt(DataOf(samples), 0);
    OffdutyFlag(l, samples);
    forall k | 0 <= k < FRAME_BITS && k % 2 == 1 ensures samples[k] { HighOffduty(DataOf(samples), k); }
  }

  /** With the intended constants, a frame is accepted if and only if it is what the transmitter sends for its byte. */
  lemma MeantAcceptsExactlyFrames(samples: seq<bool>)
    requires |samples| == FRAME_BITS
    ensures Decode(AS_MEANT, samples).flags == NO_ERROR <==> samples == FrameLevels(Decode(AS_MEANT, samples).data)
  {
    var data := DataOf(samples);
    MeantFlags(samples);
    FrameLevelsAt(data, 18);
    FrameLevelsAt(data, 20);
    if Decode(AS_MEANT, samples).flags == NO_ERROR {
      forall k | 0 <= k < FRAME_BITS
        ensures samples[k] == FrameLevels(data)[k]
      {
        if k != 18 && k != 20 { FramedAt(AS_MEANT, samples, k); }
      }
    }
    if samples == FrameLevels(data) { FramedIsClean(AS_MEANT, samples); }
  }

  /** As coded, a frame is accepted if and only if it is that, but for any parity and stop bits. */
  lemma CodedAcceptsExactly(samples: seq<bool>)
    requires |samples| == FRAME_BITS
    ensures Decode(AS_CODED, samples).flags == NO_ERROR
        <==> samples == FrameLevels(Decode(AS_CODED, samples).data)[18 := samples[18]][20 := samples[20]]
  {
    var data := DataOf(samples);
    CodedNeverFlagsParityOrStop(samples);
    if Decode(AS_CODED, samples).flags == NO_ERROR {
      forall k | 0 <= k < FRAME_BITS
        ensures samples[k] == FrameLevels(data)[18 := samples[18]][20 := samples[20]][k]
      {
        if k != 18 && k != 20 { FramedAt(AS_CODED, samples, k); }
      }
    }
    if samples == FrameLevels(data)[18 := samples[18]][20 := samples[20]] { FramedIsClean(AS_CODED, samples); }
  }

  // ---------------------------------------------------------------- what the parity bit was for

  function CountUpTo(p: seq<bool>, i: nat): nat
    requires i <= |p|
  {
    if i == 0 then 0 else CountUpTo(p, i - 1) + Weight(p[i - 1], 1)
  }

  lemma {:induction false} OnesAreCounted(a: Bits, p: seq<bool>, i: nat)
    requires i <= 8 == |p| && forall k :: 0 <= k < 8 ==> p[k] == TestBit8(a, k)
    ensures OnesUpTo(a, i) == CountUpTo(p, i)
  {
    if i > 0 { OnesAreCounted(a, p, i - 1); }
  }

  lemma {:induction false} FlippedCount(p: seq<bool>, q: seq<bool>, j: nat, i: nat)
    requires |p| == |q| && j < |p| && i <= |p|
    requires forall k :: 0 <= k < |p| ==> (p[k] == q[k]) == (k != j)
    ensures (CountUpTo(p, i) % 2 == CountUpTo(q, i) % 2) == (i <= j)
  {
    if i > 0 { FlippedCount(p, q, j, i - 1); }
  }

  /** Two bytes that differ in exactly one bit have different parities. */
  lemma FlippedOnes(a: Bits, b: Bits, j: nat)
    requires j < 8
    requires forall k :: 0 <= k < 8 ==> (TestBit8(a, k) == TestBit8(b, k)) == (k != j)
    ensures Ones(a) % 2 != Ones(b) % 2
  {
    var p := seq(8, k requires 0 <= k < 8 => TestBit8(a, k));
    var q := seq(8, k requires 0 <= k < 8 => TestBit8(b, k));
    OnesAreCounted(a, p, 8);
    OnesAreCounted(b, q, 8);
    FlippedCount(p, q, j, 8);
  }

  /**
   * One wrong level among the data bits of a transmitted frame: with the intended constants it is
   * always reported as a parity error, as coded it is always delivered as a good frame with a wrong byte.
   */
  lemma OneWrongDataBit(value: Bits, j: nat)
    requires j < 8
    ensures var wrong := FrameLevels(value)[2 + 2 * j := !FrameLevels(value)[2 + 2 * j]];
            && Decode(AS_MEANT, wrong).flags.parity
            && Decode(AS_CODED, wrong).flags == NO_ERROR
            && Decode(AS_CODED, wrong).data != value
  {
    var good := FrameLevels(value);
    var wrong := good[2 + 2 * j := !good[2 + 2 * j]];
    FrameData(value);
    forall i | 0 <= i < 8
      ensures (TestBit8(DataOf(wrong), i) == TestBit8(value, i)) == (i != j)
    {
      DecodedBit(good, 8, i);
      DecodedBit(wrong, 8, i);
    }
    FlippedOnes(DataOf(wrong), value, j);
    FrameLevelsAt(value, 0);
    FrameLevelsAt(value, 18);
    OffdutyFlag(AS_CODED, wrong);
    forall k | 0 <= k < FRAME_BITS && k % 2 == 1 ensures wrong[k] { HighOffduty(value, k); }
  }
}
