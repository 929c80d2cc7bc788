/**
 * A device that misses a frame: when it never receives again, and what makes it so
 * (src/max22x88_bitbang.c, without the guards on its callers).
 */
module Deafness {
  import opened RxStateMachine
  import opened Transmitter
  import opened Node
  import opened Frame

  /** Before the timer start of a write. */
  predicate Starting(pc: Pc) {
    pc.BusSet? || pc.BitReset? || pc.ByteReset?
  }

  /** A frame is in progress that no interrupt will continue: not in RX, or in RX with the timer stopped. */
  predicate Deaf(n: Node) {
    n.dev.rx.ongoing && (!n.dev.bus.BusRx? || (!n.dev.timer && !Starting(n.pc)))
  }

  /**
   * During a frame: a store to bus_state by the main code, be it at the start of a write or at its end,
   * the stop of the timer at its end, or a rejected edge, which stops the timer too.
   */
  predicate Loses(n: Node, step: Step) {
    n.dev.rx.ongoing && match step
                        case Main => n.pc.Muted? || n.pc.Left? || n.pc.Idled?
                        case DoutEdge => true
                        case _ => false
  }

  ghost predicate SomeLoss(n: Node, steps: seq<Step>)
    decreases |steps|
  {
    steps != [] && (Loses(n, steps[0]) || SomeLoss(Next(n, steps[0]), steps[1..]))
  }

  lemma DeafStep(n: Node, step: Step)
    requires Deaf(n) && Enabled(n, step)
    ensures Deaf(Next(n, step)) && Next(n, step).seen == n.seen && Next(n, step).dev.rx == n.dev.rx
  {}

  /**
   * A deaf device never receives again: whatever possible edges, ticks, writes, reads and flushes follow,
   * no start edge is accepted, no sample is taken, no frame completes and no byte is queued.
   */
  lemma {:induction false} DeafnessIsAbsorbing(n: Node, steps: seq<Step>)
    requires Deaf(n) && Possible(n, steps)
    ensures Deaf(Run(n, steps)) && Run(n, steps).seen == n.seen && Run(n, steps).dev.rx == n.dev.rx
    decreases |steps|
  {
    if steps != [] {
      DeafStep(n, steps[0]);
      DeafnessIsAbsorbing(Next(n, steps[0]), steps[1..]);
    }
  }

  /** What holds, without any guard on the caller, until a frame is lost. */
  ghost predicate Sound(n: Node) {
    var d := n.dev;
    && ReceiverOk(d.rx)
    && (d.rx.ongoing <==> d.bus.BusRx?)
    && (d.bus.BusRx? ==> d.timer)
    && (d.timer ==> d.bus.BusRx? || n.pc.Spinning? || n.pc.Left? || n.pc.Idled?)
    && (InWrite(n.pc) && d.rx.ongoing ==> !d.dout)
    && (!InWrite(n.pc) && !d.rx.ongoing ==> d.dout)
    && (d.bus.BusTx? ==> Starting(n.pc) || n.pc.Spinning?)
    && (n.pc.Spinning? && d.bus.BusTx? ==> d.timer && d.tx.byte <= |d.tx.words|)
    && (n.pc.ByteReset? ==> d.tx.byte == 0)
  }

  lemma SoundMain(n: Node)
    requires Sound(n) && Enabled(n, Main)
    ensures if Loses(n, Main) then Deaf(MainStep(n)) else Sound(MainStep(n))
  {}

  lemma SoundTick(n: Node, sample: bool, stray: bool)
    requires Sound(n) && Enabled(n, Tick(sample, stray))
    ensures Sound(TickStep(n, sample, stray))
  {}

  lemma SoundEdge(n: Node)
    requires Sound(n) && Enabled(n, DoutEdge)
    ensures if n.dev.rx.ongoing then Deaf(Next(n, DoutEdge)) else Sound(Next(n, DoutEdge))
  {}

  lemma SoundStep(n: Node, step: Step)
    requires Sound(n) && Enabled(n, step)
    ensures if Loses(n, step) then Deaf(Next(n, step)) else Sound(Next(n, step))
  {
    match step
    case Main => SoundMain(n);
    case Tick(sample, stray) => SoundTick(n, sample, stray);
    case DoutEdge => SoundEdge(n);
    case _ =>
  }

  /** A device is deaf after a run exactly if a frame was lost in one of those four ways during the run. */
  lemma {:induction false} DeafExactlyByLoss(n: Node, steps: seq<Step>)
    requires Sound(n) && Possible(n, steps)
    ensures Deaf(Run(n, steps)) <==> SomeLoss(n, steps)
    ensures !Deaf(Run(n, steps)) ==> Sound(Run(n, steps))
    decreases |steps|
  {
    if steps != [] {
      SoundStep(n, steps[0]);
      if Loses(n, steps[0]) {
        DeafnessIsAbsorbing(Next(n, steps[0]), steps[1..]);
      } else {
        DeafExactlyByLoss(Next(n, steps[0]), steps[1..]);
      }
    }
  }

  lemma FreshIsSound(n: Node)
    requires Fresh(n)
    ensures Sound(n)
  {}

  // ---------------------------------------------------------------- a device that is not deaf does hear

  lemma {:induction false} PossibleOneMore(n: Node, step: Step, rest: seq<Step>)
    requires Enabled(n, step) && Possible(Next(n, step), rest)
    ensures Possible(n, [step] + rest) && Run(n, [step] + rest) == Run(Next(n, step), rest)
  {
    assert ([step] + rest)[1..] == rest;
  }

  function StoresToGo(pc: Pc): nat {
    match pc
    case Muted => 8
    case BusSet => 7
    case BitReset => 6
    case ByteReset => 5
    case Spinning => 4
    case Left => 3
    case Idled => 2
    case Halted => 1
    case _ => 0
  }

  /** Inside a write with no frame in progress. */
  ghost predicate Writing(n: Node) {
    Sound(n) && !n.dev.rx.ongoing && InWrite(n.pc)
  }

  /** What a receiver would notice. */
  ghost predicate Unheard(n: Node, m: Node) {
    m.seen == n.seen && m.dev.rx == n.dev.rx && m.dev.dout == n.dev.dout
  }

  function WordsLeft(t: Tx): int {
    |t.words| - t.byte
  }

  lemma WritingStore(n: Node)
    requires Writing(n) && !n.pc.Halted? && !(n.pc.Spinning? && n.dev.bus.BusTx?)
    ensures Enabled(n, Main) && Writing(MainStep(n)) && StoresToGo(MainStep(n).pc) < StoresToGo(n.pc)
    ensures Unheard(n, MainStep(n))
  {
    SoundStep(n, Main);
  }

  lemma WritingTick(n: Node)
    requires Writing(n) && n.pc.Spinning? && n.dev.bus.BusTx?
    ensures var n' := Next(n, Tick(true, false));
            && Enabled(n, Tick(true, false)) && Writing(n') && n'.pc == n.pc && Unheard(n, n')
            && 0 <= WordsLeft(n.dev.tx)
            && if Exhausted(n.dev.tx) then n'.dev.bus.BusIdle?
               else n'.dev.bus.BusTx? && n'.dev.tx == Transmitter.Tick(n.dev.tx, false)
  {
    SoundStep(n, Tick(true, false));
  }

  /** Every write comes to its last store, whatever went on before it. */
  lemma {:induction false} WriteRunsOut(n: Node) returns (steps: seq<Step>)
    requires Writing(n)
    ensures Possible(n, steps) && Writing(Run(n, steps)) && Run(n, steps).pc.Halted? && Unheard(n, Run(n, steps))
    decreases StoresToGo(n.pc), n.dev.bus.BusTx?, WordsLeft(n.dev.tx), FRAME_BITS - n.dev.tx.bit, n.dev.tx.collation
  {
    if n.pc.Halted? {
      steps := [];
    } else {
      var step := if n.pc.Spinning? && n.dev.bus.BusTx? then Tick(true, false) else Main;
      if step.Main? { WritingStore(n); } else { WritingTick(n); }
      var rest := WriteRunsOut(Next(n, step));
      PossibleOneMore(n, step, rest);
      steps := [step] + rest;
    }
  }

  lemma {:induction false} PossibleThen(n: Node, first: seq<Step>, second: seq<Step>)
    requires Possible(n, first) && Possible(Run(n, first), second)
    ensures Possible(n, first + second) && Run(n, first + second) == Run(Run(n, first), second)
    decreases |first|
  {
    if first == [] {
      assert first + second == second;
    } else {
      PossibleThen(Next(n, first[0]), first[1..], second);
      assert (first + second)[1..] == first[1..] + second;
    }
  }

  lemma OneStep(n: Node, step: Step)
    requires Enabled(n, step)
    ensures Possible(n, [step]) && Run(n, [step]) == Next(n, step)
  {
    PossibleOneMore(n, step, []);
    assert [step] + [] == [step];
  }

  /** A live frame takes its next sample after one interrupt or two. */
  lemma FrameGoesOn(n: Node) returns (steps: seq<Step>)
    requires Sound(n) && n.dev.rx.ongoing
    ensures Possible(n, steps) && |Run(n, steps).seen.sampled| == |n.seen.sampled| + 1
  {
    var tick := Tick(true, false);
    RxTickReceives(n, true);
    OneStep(n, tick);
    steps := [tick];
    if WantsEdge(n.dev.rx) {
      EdgeThenSample(n);
      var m := Next(n, tick);
      RxTickReceives(m, true);
      OneStep(m, tick);
      PossibleOneMore(n, tick, [tick]);
      steps := [tick] + [tick];
    }
  }

  lemma EdgeThenSample(n: Node)
    requires Sound(n) && n.dev.rx.ongoing && WantsEdge(n.dev.rx)
    ensures var m := Next(n, Tick(true, false));
            m.dev.bus.BusRx? && m.dev.timer && WantsSample(m.dev.rx) && m.seen.sampled == n.seen.sampled
  {}

  lemma HearsEdge(n: Node)
    requires Sound(n) && !n.dev.rx.ongoing && n.dev.dout
    ensures Possible(n, [DoutEdge]) && Run(n, [DoutEdge]).seen.edges == n.seen.edges + 1
  {
    OneStep(n, DoutEdge);
  }

  lemma HearsAgain(n: Node) returns (steps: seq<Step>)
    requires Sound(n)
    ensures Possible(n, steps) && Run(n, steps).seen != n.seen
  {
    if n.dev.rx.ongoing {
      steps := FrameGoesOn(n);
    } else if n.dev.dout {
      HearsEdge(n);
      steps := [DoutEdge];
    } else {
      var before := WriteRunsOut(n);
      var last := Run(n, before);
      SoundStep(last, Main);
      HearsEdge(Next(last, Main));
      PossibleOneMore(last, Main, [DoutEdge]);
      PossibleThen(n, before, [Main] + [DoutEdge]);
      steps := before + ([Main] + [DoutEdge]);
    }
  }

  ghost predicate HearsNothing(n: Node) {
    forall steps :: Possible(n, steps) ==> Run(n, steps).seen == n.seen
  }

  /**
   * Deafness is exactly what the name says: in every state a device can reach, it is deaf if and only if
   * nothing that can still happen makes it accept an edge, take a sample, or queue a byte.
   */
  lemma DeafMeansHearsNothing(n: Node, steps: seq<Step>)
    requires Fresh(n) && Possible(n, steps)
    ensures Deaf(Run(n, steps)) <==> HearsNothing(Run(n, steps))
  {
    var m := Run(n, steps);
    FreshIsSound(n);
    DeafExactlyByLoss(n, steps);
    if Deaf(m) {
      forall more | Possible(m, more)
        ensures Run(m, more).seen == m.seen
      {
        DeafnessIsAbsorbing(m, more);
      }
    } else {
      var more := HearsAgain(m);
    }
  }

  // ---------------------------------------------------------------- the caller's guard

  /** Every step is possible, and every write disables the interrupt only while no frame is in progress. */
  ghost predicate QuietRun(n: Node, steps: seq<Step>)
    decreases |steps|
  {
    steps == [] || (Enabled(n, steps[0]) && Quiet(n, steps[0]) && QuietRun(Next(n, steps[0]), steps[1..]))
  }

  /** In a write nothing is heard, and outside one the interrupt is enabled exactly between frames. */
  ghost predicate Attentive(n: Node) {
    && Sound(n)
    && (if InWrite(n.pc) then !n.dev.rx.ongoing && !n.dev.dout else n.dev.rx.ongoing == !n.dev.dout)
  }

  lemma AttentiveStep(n: Node, step: Step)
    requires Attentive(n) && Enabled(n, step) && Quiet(n, step)
    ensures !Loses(n, step) && Attentive(Next(n, step))
  {
    SoundStep(n, step);
    match step
    case Main => AttentiveMain(n);
    case Tick(sample, stray) => AttentiveTick(n, sample, stray);
    case _ =>
  }

  lemma AttentiveMain(n: Node)
    requires Attentive(n) && Enabled(n, Main) && Quiet(n, Main)
    ensures Attentive(MainStep(n))
  {
    SoundStep(n, Main);
  }

  lemma AttentiveTick(n: Node, sample: bool, stray: bool)
    requires Attentive(n) && Enabled(n, Tick(sample, stray))
    ensures Attentive(TickStep(n, sample, stray))
  {
    SoundStep(n, Tick(sample, stray));
  }

  /** With that guard alone nothing is lost, whenever the main code leaves its spins and stops its timers. */
  lemma {:induction false} QuietNeverLoses(n: Node, steps: seq<Step>)
    requires Attentive(n) && QuietRun(n, steps)
    ensures !SomeLoss(n, steps) && !Deaf(Run(n, steps)) && Attentive(Run(n, steps))
    decreases |steps|
  {
    if steps != [] {
      AttentiveStep(n, steps[0]);
      QuietNeverLoses(Next(n, steps[0]), steps[1..]);
    }
  }

  lemma FreshIsAttentive(n: Node)
    requires Fresh(n)
    ensures Attentive(n)
  {}

  /**
   * Checking for a frame in progress before calling the write is not enough: an edge between the call
   * and the disabling of the interrupt makes the device deaf.
   */
  lemma QuietAtTheCallIsNotEnough(n: Node)
    requires Fresh(n)
    ensures var steps := [BeginWrite([7])] + ([DoutEdge] + ([Main] + [Main]));
            !n.dev.rx.ongoing && Possible(n, steps) && Deaf(Run(n, steps))
  {
    var n1 := Next(n, BeginWrite([7]));
    var n2 := Next(n1, DoutEdge);
    var n3 := Next(n2, Main);
    OneStep(n3, Main);
    PossibleOneMore(n2, Main, [Main]);
    PossibleOneMore(n1, DoutEdge, [Main] + [Main]);
    PossibleOneMore(n, BeginWrite([7]), [DoutEdge] + ([Main] + [Main]));
  }

  // ---------------------------------------------------------------- deaf without a store to bus_state

  /** A live frame with a sample due. */
  ghost predicate Sampling(n: Node) {
    Sound(n) && n.dev.rx.ongoing && WantsSample(n.dev.rx)
  }

  lemma OneSampleMore(n: Node)
    requires Sampling(n) && |n.dev.rx.samples| + 1 < FRAME_BITS
    ensures var (tick, m) := (Tick(true, false), Next(Next(n, Tick(true, false)), Tick(true, false)));
            && Possible(n, [tick] + [tick]) && Run(n, [tick] + [tick]) == m
            && Sampling(m) && m.pc == n.pc && |m.dev.rx.samples| == |n.dev.rx.samples| + 1
  {
    var next := Next(n, Tick(true, false));
    SoundStep(n, Tick(true, false));
    SoundStep(next, Tick(true, false));
    OneStep(next, Tick(true, false));
    PossibleOneMore(n, Tick(true, false), [Tick(true, false)]);
  }

  lemma {:induction false} AllButOneSample(n: Node) returns (steps: seq<Step>)
    requires Sampling(n)
    ensures Possible(n, steps) && Sampling(Run(n, steps)) && Run(n, steps).pc == n.pc
    ensures |Run(n, steps).dev.rx.samples| + 1 == FRAME_BITS
    decreases FRAME_BITS - |n.dev.rx.samples|
  {
    if |n.dev.rx.samples| + 1 == FRAME_BITS {
      steps := [];
    } else {
      var (tick, m) := (Tick(true, false), Next(Next(n, Tick(true, false)), Tick(true, false)));
      OneSampleMore(n);
      var rest := AllButOneSample(m);
      PossibleThen(n, [tick] + [tick], rest);
      steps := ([tick] + [tick]) + rest;
    }
  }

  /** A frame that ends just inside a write leaves the interrupt enabled for the whole write. */
  lemma FrameEndsInsideWrite(n: Node)
    requires Sampling(n) && n.pc.Ready? && |n.dev.rx.samples| + 1 == FRAME_BITS
    ensures var steps := [BeginWrite([7])] + ([Main] + [Tick(true, false)]);
            Possible(n, steps) && Writing(Run(n, steps)) && Run(n, steps).dev.dout
  {
    var n1 := Next(n, BeginWrite([7]));
    var n2 := Next(n1, Main);
    SoundStep(n, BeginWrite([7]));
    SoundStep(n1, Main);
    SoundStep(n2, Tick(true, false));
    OneStep(n2, Tick(true, false));
    PossibleOneMore(n1, Main, [Tick(true, false)]);
    PossibleOneMore(n, BeginWrite([7]), [Main] + [Tick(true, false)]);
  }

  /** An edge before the interrupt is enabled again at the end of a write, and one right after. */
  lemma TwoEdgesAtTheEnd(n: Node)
    requires Writing(n) && n.pc.Halted? && n.dev.dout
    ensures var steps := [DoutEdge] + ([Main] + [DoutEdge]);
            Possible(n, steps) && Deaf(Run(n, steps)) && Run(n, steps).dev.bus.BusRx?
  {
    var n1 := Next(n, DoutEdge);
    var n2 := Next(n1, Main);
    OneStep(n2, DoutEdge);
    PossibleOneMore(n1, Main, [DoutEdge]);
    PossibleOneMore(n, DoutEdge, [Main] + [DoutEdge]);
  }

  /**
   * A fresh device can go deaf although nothing is stored to bus_state during the frame it loses: one
   * frame ends just inside a write, and of two edges at the end of the write the second one stops the timer.
   */
  lemma RejectedEdgeDeafens(n: Node) returns (steps: seq<Step>)
    requires Fresh(n)
    ensures Possible(n, steps) && Deaf(Run(n, steps)) && Run(n, steps).dev.bus.BusRx?
  {
    FreshIsSound(n);
    SoundStep(n, DoutEdge);
    OneStep(n, DoutEdge);
    var n1 := Next(n, DoutEdge);
    var first := AllButOneSample(n1);
    var n2 := Run(n1, first);
    var second := [BeginWrite([7])] + ([Main] + [Tick(true, false)]);
    FrameEndsInsideWrite(n2);
    var third := WriteRunsOut(Run(n2, second));
    var fourth := [DoutEdge] + ([Main] + [DoutEdge]);
    TwoEdgesAtTheEnd(Run(Run(n2, second), third));
    PossibleThen(Run(n2, second), third, fourth);
    PossibleThen(n2, second, third + fourth);
    PossibleThen(n1, first, second + (third + fourth));
    PossibleOneMore(n, DoutEdge, first + (second + (third + fourth)));
    steps := [DoutEdge] + (first + (second + (third + fourth)));
  }
}
