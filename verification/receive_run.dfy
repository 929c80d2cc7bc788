/**
 * A frame taken interrupt by interrupt: an edge and 43 timer interrupts, of which every second one samples the
 * line, receive exactly what the line shows (src/max22x88_bitbang.c).
 */
module ReceiveRun {
  import opened Bytes
  import opened Frame
  import opened RxStateMachine
  import opened ReceiverRuns
  import opened Device
  import opened Node
  import opened WriteRun

  /** Timer interrupts of one frame: its samples, and the ones between them. */
  const FRAME_TICKS: nat := 2 * FRAME_BITS - 1

  /** Timer interrupts that find these levels on the line. */
  function LineTicks(levels: seq<bool>): seq<Step> {
    if levels == [] then [] else [Tick(levels[0], false)] + LineTicks(levels[1..])
  }

  /** Every second level, from the first or, after a sample, from the second one on. */
  function EverySecond(levels: seq<bool>, skip: bool): seq<bool> {
    if levels == [] then []
    else (if skip then [] else [levels[0]]) + EverySecond(levels[1..], !skip)
  }

  lemma {:induction false} EverySecondAt(levels: seq<bool>, skip: bool, i: nat)
    ensures |EverySecond(levels, skip)| == (|levels| + Weight(!skip, 1)) / 2
    ensures i < |EverySecond(levels, skip)| ==> EverySecond(levels, skip)[i] == levels[2 * i + Weight(skip, 1)]
  {
    if levels != [] { EverySecondAt(levels[1..], !skip, if skip || i == 0 then i else i - 1); }
  }

  /** A device in the middle of a frame, with that many timer interrupts to go. */
  predicate Receiving(n: Node, left: nat) {
    var d := n.dev;
    && d.bus.BusRx? && d.timer && d.rx.ongoing && n.pc.Ready?
    && left >= 1 && 2 * |d.rx.samples| + left == FRAME_TICKS + Weight(d.rx.expectingEdge, 1)
  }

  /** What receiving those samples makes of it. */
  function AfterFrame(n: Node, bits: seq<bool>): Node {
    var f := Decode(n.dev.layout, n.dev.rx.samples + bits);
    n.(dev := Filed(n.dev.(rx := INITIAL), f),
       seen := n.seen.(sampled := n.seen.sampled + bits, frames := n.seen.frames + [f],
                       pushed := n.seen.pushed + Queued(n.dev, f)))
  }

  lemma LastTick(n: Node, level: bool)
    requires Receiving(n, 1)
    ensures !n.dev.rx.expectingEdge && Next(n, Tick(level, false)) == AfterFrame(n, [level])
  {}

  lemma TickBetween(n: Node, left: nat, level: bool)
    requires Receiving(n, left) && left >= 2
    ensures var n' := Next(n, Tick(level, false));
            Receiving(n', left - 1) && n'.dev.rx.expectingEdge == !n.dev.rx.expectingEdge
  {}

  lemma SampleJoins(n: Node, left: nat, level: bool, bits: seq<bool>)
    requires Receiving(n, left) && left >= 2
    ensures AfterFrame(Next(n, Tick(level, false)), bits)
         == AfterFrame(n, (if n.dev.rx.expectingEdge then [] else [level]) + bits)
  {
    var first := if n.dev.rx.expectingEdge then [] else [level];
    assert n.dev.rx.samples + (first + bits) == (n.dev.rx.samples + first) + bits;
    assert n.seen.sampled + (first + bits) == (n.seen.sampled + first) + bits;
    assert n.dev.rx.samples + [] == n.dev.rx.samples && n.seen.sampled + [] == n.seen.sampled;
  }

  lemma {:induction false} RestOfFrame(n: Node, levels: seq<bool>)
    requires Receiving(n, |levels|)
    ensures Guarded(n, LineTicks(levels))
    ensures Run(n, LineTicks(levels)) == AfterFrame(n, EverySecond(levels, n.dev.rx.expectingEdge))
    decreases |levels|
  {
    var (tick, skip) := (Tick(levels[0], false), n.dev.rx.expectingEdge);
    if |levels| == 1 {
      LastTick(n, levels[0]);
      assert levels[1..] == [] && EverySecond(levels, false) == [levels[0]];
    } else {
      TickBetween(n, |levels|, levels[0]);
      RestOfFrame(Next(n, tick), levels[1..]);
      SampleJoins(n, |levels|, levels[0], EverySecond(levels[1..], !skip));
    }
    Prepended(n, tick, LineTicks(levels[1..]));
  }

  /**
   * An edge between frames, and 43 timer interrupts: the levels found by every second one, from the first on, are
   * decoded as a frame, which is queued or counted, and the device listens again.
   */
  lemma FrameIsARun(n: Node, levels: seq<bool>)
    requires n.pc.Ready? && n.dev.dout && n.dev.rx == INITIAL && |levels| == FRAME_TICKS
    ensures Guarded(n, [DoutEdge] + LineTicks(levels))
    ensures Run(n, [DoutEdge] + LineTicks(levels))
            == AfterFrame(n.(seen := n.seen.(edges := n.seen.edges + 1)), EverySecond(levels, false))
  {
    var n1 := Next(n, DoutEdge);
    RestOfFrame(n1, levels);
    Prepended(n, DoutEdge, LineTicks(levels));
  }

  lemma FrameFound(levels: seq<bool>, value: Byte)
    requires |levels| == FRAME_TICKS
    requires forall i :: 0 <= i < FRAME_BITS ==> levels[2 * i] == FrameLevels(AsBits(value))[i]
    ensures EverySecond(levels, false) == FrameLevels(AsBits(value))
  {
    EverySecondAt(levels, false, 0);
    forall i | 0 <= i < FRAME_BITS
      ensures EverySecond(levels, false)[i] == levels[2 * i]
    {
      EverySecondAt(levels, false, i);
    }
  }

  /** If those levels are the frame of a byte, the byte is queued, provided there is room. */
  lemma ByteIsARun(n: Node, levels: seq<bool>, value: Byte)
    requires n.pc.Ready? && n.dev.dout && n.dev.rx == INITIAL && |levels| == FRAME_TICKS
    requires Agrees(n.dev.layout)
    requires forall i :: 0 <= i < FRAME_BITS ==> levels[2 * i] == FrameLevels(AsBits(value))[i]
    ensures var d := Run(n, [DoutEdge] + LineTicks(levels)).dev;
            && d.queue == n.dev.queue + (if Room(n.dev) then [value] else [])
            && d.bus.BusIdle? && !d.timer && d.dout && d.rx == INITIAL
  {
    FrameIsARun(n, levels);
    FrameFound(levels, value);
    FrameRoundTrip(n.dev.layout, AsBits(value));
    assert [] + FrameLevels(AsBits(value)) == FrameLevels(AsBits(value));
  }
}
