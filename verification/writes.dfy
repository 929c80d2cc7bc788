/**
 * Writes on a device that nobody guards: every one of them ends, and exactly when its transmit interrupts read
 * past the end of data_to_tx (src/max22x88_bitbang.c).
 */
module Writes {
  import opened Bytes
  import opened Frame
  import opened Transmitter
  import opened Node
  import opened Deafness
  import opened WriteRun

  /** What holds in every state a device can reach, deaf or not. */
  ghost predicate Lasting(n: Node) {
    var d := n.dev;
    && ReceiverOk(d.rx)
    && (InWrite(n.pc) && d.rx.ongoing ==> !d.dout)
    && (d.bus.BusTx? ==> Starting(n.pc) || n.pc.Spinning?)
    && (n.pc.Spinning? && d.bus.BusTx? ==> d.timer)
    && (n.pc.ByteReset? || n.pc.Spinning? ==> d.tx.byte <= |d.tx.words|)
  }

  lemma LastingMain(n: Node)
    requires Lasting(n) && Enabled(n, Main)
    ensures Lasting(MainStep(n))
  {}

  lemma LastingTick(n: Node, sample: bool, stray: bool)
    requires Lasting(n) && Enabled(n, Tick(sample, stray))
    ensures Lasting(TickStep(n, sample, stray))
  {}

  lemma LastingStep(n: Node, step: Step)
    requires Lasting(n) && Enabled(n, step)
    ensures Lasting(Next(n, step))
  {
    match step
    case Main => LastingMain(n);
    case Tick(sample, stray) => LastingTick(n, sample, stray);
    case _ =>
  }

  lemma FreshIsLasting(n: Node)
    requires Fresh(n)
    ensures Lasting(n)
  {}

  lemma {:induction false} LastingRun(n: Node, steps: seq<Step>)
    requires Lasting(n) && Possible(n, steps)
    ensures Lasting(Run(n, steps))
    decreases |steps|
  {
    if steps != [] {
      LastingStep(n, steps[0]);
      LastingRun(Next(n, steps[0]), steps[1..]);
    }
  }

  // ---------------------------------------------------------------- every write ends

  /** A bound on the transmit interrupts before a spin ends. */
  function SpinWork(t: Tx): int {
    45 * (|t.words| - t.byte) + 2 * (FRAME_BITS - t.bit) + Weight(t.collation, 1)
  }

  /** A bound on the stores and spinning interrupts before a write returns. */
  function Remaining(n: Node): int {
    var most := 45 * |n.dev.tx.words| + 2 * FRAME_BITS + 1;
    match n.pc
    case Prepared => 11 + most
    case Muted => 10 + most
    case BusSet => 9 + most
    case BitReset => 8 + most
    case ByteReset => 7 + most
    case Spinning => 4 + if n.dev.bus.BusTx? then 1 + SpinWork(n.dev.tx) else 0
    case Left => 3
    case Idled => 2
    case Halted => 1
    case _ => 0
  }

  /** A store of the write, or a transmit interrupt of its spin. */
  predicate Advances(n: Node, step: Step) {
    Sends(n.pc) && (step.Main? || (step.Tick? && n.pc.Spinning? && n.dev.bus.BusTx?))
  }

  lemma StoreAdvances(n: Node)
    requires Lasting(n) && Sends(n.pc) && Enabled(n, Main)
    ensures Remaining(MainStep(n)) < Remaining(n)
  {}

  lemma SpinTickAdvances(n: Node, sample: bool, stray: bool)
    requires Lasting(n) && n.pc.Spinning? && n.dev.bus.BusTx?
    ensures Remaining(TickStep(n, sample, stray)) < Remaining(n) && TickStep(n, sample, stray).pc == n.pc
  {}

  lemma OthersDoNotDelay(n: Node, step: Step)
    requires Lasting(n) && Sends(n.pc) && Enabled(n, step) && !Advances(n, step)
    ensures Remaining(Next(n, step)) <= Remaining(n) && Next(n, step).pc == n.pc
  {}

  lemma RemainingIsNatural(n: Node)
    requires Lasting(n)
    ensures Remaining(n) >= 0
  {}

  /** Stores and spinning interrupts up to the return of the write in progress. */
  function OwnSteps(n: Node, steps: seq<Step>): nat
    decreases |steps|
  {
    if steps == [] || !Sends(n.pc) then 0
    else Weight(Advances(n, steps[0]), 1) + OwnSteps(Next(n, steps[0]), steps[1..])
  }

  /**
   * No interrupt, before or inside a write, makes it longer than a bound known at its call; and no write is ever
   * stuck: its next store is possible, or it spins in TX with the timer running.
   */
  lemma {:induction false} WritesAreBounded(n: Node, steps: seq<Step>)
    requires Lasting(n) && Possible(n, steps)
    ensures OwnSteps(n, steps) <= Remaining(n)
    decreases |steps|
  {
    RemainingIsNatural(n);
    if steps != [] && Sends(n.pc) {
      if Advances(n, steps[0]) {
        if steps[0].Main? { StoreAdvances(n); } else { SpinTickAdvances(n, steps[0].sample, steps[0].stray); }
      } else {
        OthersDoNotDelay(n, steps[0]);
      }
      LastingStep(n, steps[0]);
      WritesAreBounded(Next(n, steps[0]), steps[1..]);
    }
  }

  lemma WriteNeverSticks(n: Node, sample: bool, stray: bool)
    requires Lasting(n) && Sends(n.pc)
    ensures Enabled(n, Main) || (Enabled(n, Tick(sample, stray)) && Advances(n, Tick(sample, stray)))
  {}

  /** A write that is left alone from here on returns. */
  lemma {:induction false} WriteReturns(n: Node) returns (steps: seq<Step>)
    requires Lasting(n) && (Sends(n.pc) || n.pc.Ready?)
    ensures Possible(n, steps) && Run(n, steps).pc.Ready?
    decreases Remaining(n)
  {
    if n.pc.Ready? {
      steps := [];
    } else {
      var step := if Enabled(n, Main) then Main else Tick(true, false);
      WriteNeverSticks(n, true, false);
      if step.Main? { StoreAdvances(n); } else { SpinTickAdvances(n, true, false); }
      LastingStep(n, step);
      RemainingIsNatural(n);
      RemainingIsNatural(Next(n, step));
      var rest := WriteReturns(Next(n, step));
      PossibleOneMore(n, step, rest);
      steps := [step] + rest;
    }
  }

  /** In every state a device can reach inside a write, deaf or not: it is bounded and can return. */
  lemma EveryWriteEnds(n: Node, before: seq<Step>, after: seq<Step>) returns (home: seq<Step>)
    requires Fresh(n) && Possible(n, before) && Sends(Run(n, before).pc) && Possible(Run(n, before), after)
    ensures OwnSteps(Run(n, before), after) <= Remaining(Run(n, before))
    ensures Possible(Run(n, before), home) && Run(Run(n, before), home).pc.Ready?
  {
    FreshIsLasting(n);
    LastingRun(n, before);
    WritesAreBounded(Run(n, before), after);
    home := WriteReturns(Run(n, before));
  }

  // ---------------------------------------------------------------- reading past the words

  /** The steps of the write in progress and the interrupts, up to the next call. */
  ghost predicate BeforeNextWrite(steps: seq<Step>) {
    forall step <- steps :: !step.BeginWrite?
  }

  ghost predicate CanReadPast(n: Node) {
    exists steps :: Possible(n, steps) && BeforeNextWrite(steps) && ReadsPast(Run(n, steps))
  }

  /** Past the store of TX to bus_state, no transmit interrupt before the spin finds its index too large. */
  ghost predicate Inside(n: Node) {
    && Lasting(n) && !n.pc.Prepared? && !n.pc.Muted?
    && (Starting(n.pc) && n.dev.bus.BusTx? && n.dev.timer ==> n.dev.tx.byte <= |n.dev.tx.words|)
  }

  lemma InsideMain(n: Node)
    requires Inside(n) && Enabled(n, Main)
    ensures Inside(MainStep(n))
  {
    LastingMain(n);
  }

  lemma InsideTick(n: Node, sample: bool, stray: bool)
    requires Inside(n) && Enabled(n, Tick(sample, stray))
    ensures Inside(TickStep(n, sample, stray))
  {
    LastingTick(n, sample, stray);
  }

  lemma InsideStep(n: Node, step: Step)
    requires Inside(n) && Enabled(n, step) && !step.BeginWrite?
    ensures Inside(Next(n, step))
  {
    LastingStep(n, step);
    match step
    case Main => InsideMain(n);
    case Tick(sample, stray) => InsideTick(n, sample, stray);
    case _ =>
  }

  lemma {:induction false} InsideRun(n: Node, steps: seq<Step>)
    requires Inside(n) && Possible(n, steps) && BeforeNextWrite(steps)
    ensures Inside(Run(n, steps)) && !ReadsPast(Run(n, steps))
    decreases |steps|
  {
    if steps != [] {
      assert !steps[0].BeginWrite?;
      InsideStep(n, steps[0]);
      InsideRun(Next(n, steps[0]), steps[1..]);
    }
  }

  /** With the timer running and the index of a longer write before it, one interrupt or two are enough. */
  lemma ReadsPastSoon(n: Node) returns (steps: seq<Step>)
    requires n.pc.BusSet? && n.dev.bus.BusTx? && n.dev.timer && n.dev.tx.byte > |n.dev.tx.words|
    ensures Possible(n, steps) && BeforeNextWrite(steps) && ReadsPast(Run(n, steps))
  {
    if n.dev.tx.collation {
      OneStep(n, Tick(true, false));
      steps := [Tick(true, false)];
    } else {
      steps := [];
    }
  }

  lemma ReadsPastFrom(n: Node)
    requires Lasting(n) && n.pc.Muted?
    ensures CanReadPast(MainStep(n)) <==> n.dev.timer && n.dev.tx.byte > |n.dev.tx.words|
  {
    var m := MainStep(n);
    LastingMain(n);
    if n.dev.timer && n.dev.tx.byte > |n.dev.tx.words| {
      var steps := ReadsPastSoon(m);
    } else {
      forall steps | Possible(m, steps) && BeforeNextWrite(steps)
        ensures !ReadsPast(Run(m, steps))
      {
        InsideRun(m, steps);
      }
    }
  }

  /**
   * In every run, a transmit interrupt of a write can read past the end of its words if and only if, as the write
   * stores TX to bus_state, the timer is running and an earlier write has left an index beyond them.
   */
  lemma ReadsPastExactlyWhen(n: Node, before: seq<Step>)
    requires Fresh(n) && Possible(n, before) && Run(n, before).pc.Muted?
    ensures var m := Run(n, before);
            CanReadPast(Next(m, Main)) <==> m.dev.timer && m.dev.tx.byte > |m.dev.tx.words|
  {
    FreshIsLasting(n);
    LastingRun(n, before);
    ReadsPastFrom(Run(n, before));
  }

  /** Before a frame is lost no transmit interrupt does. */
  lemma NoLossReadsInside(n: Node, steps: seq<Step>)
    requires Fresh(n) && Possible(n, steps) && !SomeLoss(n, steps)
    ensures !ReadsPast(Run(n, steps))
  {
    FreshIsSound(n);
    DeafExactlyByLoss(n, steps);
  }

  lemma {:induction false} GuardedIsPossible(n: Node, steps: seq<Step>)
    requires Guarded(n, steps)
    ensures Possible(n, steps)
    decreases |steps|
  {
    if steps != [] { GuardedIsPossible(Next(n, steps[0]), steps[1..]); }
  }

  lemma WholeWriteLeavesIndex(n: Node, data: seq<Byte>)
    requires Fresh(n)
    ensures var m := AfterWholeWrite(n, data);
            m.dev.tx.byte == |data| && m.pc.Ready? && m.dev.dout && !m.dev.rx.ongoing
  {
    var k := SpinTicks(|data|, n.dev.tx.collation) - 1;
    TicksToTheEnd(Start(n.dev.tx, data), k);
  }

  /** After a write, a frame that begins before a shorter write disables the interrupt. */
  lemma EdgeBeforeShorterWrite(m: Node, short: seq<Byte>) returns (steps: seq<Step>)
    requires m.pc.Ready? && m.dev.dout && !m.dev.rx.ongoing && m.dev.tx.byte > |short|
    ensures Possible(m, steps) && ReadsPast(Run(m, steps))
  {
    var m1 := Next(m, DoutEdge);
    var m2 := Next(m1, BeginWrite(short));
    var m3 := Next(m2, Main);
    var m4 := Next(m3, Main);
    var rest := ReadsPastSoon(m4);
    PossibleOneMore(m3, Main, rest);
    PossibleOneMore(m2, Main, [Main] + rest);
    PossibleOneMore(m1, BeginWrite(short), [Main] + ([Main] + rest));
    PossibleOneMore(m, DoutEdge, [BeginWrite(short)] + ([Main] + ([Main] + rest)));
    steps := [DoutEdge] + ([BeginWrite(short)] + ([Main] + ([Main] + rest)));
  }

  /** From initialisation, a write and a shorter one after it, with an edge in between, come to that. */
  lemma ShorterWriteReadsPast(n: Node, long: seq<Byte>, short: seq<Byte>) returns (steps: seq<Step>)
    requires Fresh(n) && |short| < |long|
    ensures Possible(n, steps) && ReadsPast(Run(n, steps))
  {
    var first := WriteSteps(n, long);
    WriteIsARun(n, long);
    GuardedIsPossible(n, first);
    WholeWriteLeavesIndex(n, long);
    var second := EdgeBeforeShorterWrite(Run(n, first), short);
    PossibleThen(n, first, second);
    steps := first + second;
  }
}
