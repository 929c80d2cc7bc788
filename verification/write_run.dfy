/** A write taken store by store and interrupt by interrupt does what max22x88_write_bitbang does as a whole. */
module WriteRun {
  import opened Bytes
  import opened Transmitter
  import opened Device
  import opened Node

  lemma Prepended(n: Node, step: Step, rest: seq<Step>)
    requires Enabled(n, step) && Timely(n, step) && Quiet(n, step) && Guarded(Next(n, step), rest)
    ensures Guarded(n, [step] + rest) && Run(n, [step] + rest) == Run(Next(n, step), rest)
  {
    assert ([step] + rest)[1..] == rest;
  }

  function Ticks(k: nat, rest: seq<Step>): seq<Step> {
    if k == 0 then rest else [Tick(true, false)] + Ticks(k - 1, rest)
  }

  function Stores(k: nat, rest: seq<Step>): seq<Step> {
    if k == 0 then rest else [Main] + Stores(k - 1, rest)
  }

  /** A write with its interrupts and nothing else. */
  function WriteSteps(n: Node, data: seq<Byte>): seq<Step> {
    [BeginWrite(data)] + Stores(5, Ticks(SpinTicks(|data|, n.dev.tx.collation), Stores(4, [])))
  }

  lemma OneStore(n: Node, k: nat, rest: seq<Step>)
    requires k > 0 && Enabled(n, Main) && Quiet(n, Main) && Guarded(MainStep(n), Stores(k - 1, rest))
    ensures Guarded(n, Stores(k, rest)) && Run(n, Stores(k, rest)) == Run(MainStep(n), Stores(k - 1, rest))
  {
    Prepended(n, Main, Stores(k - 1, rest));
  }

  // ---------------------------------------------------------------- the spin

  /** k timer interrupts of a spin. */
  function Ticked(n: Node, k: nat): Node {
    n.(dev := n.dev.(tx := TickMany(n.dev.tx, k)), sent := n.sent.(driven := n.sent.driven + DrivenBy(n.dev.tx, k)))
  }

  lemma OneTicked(n: Node, k: nat)
    requires n.dev.bus.BusTx? && !Exhausted(n.dev.tx) && k > 0
    ensures Ticked(Next(n, Tick(true, false)), k - 1) == Ticked(n, k)
  {
    var first := if Drives(n.dev.tx) then [NextLevel(n.dev.tx, false)] else [];
    var rest := DrivenBy(Transmitter.Tick(n.dev.tx, false), k - 1);
    assert n.sent.driven + (first + rest) == (n.sent.driven + first) + rest;
  }

  predicate InSpin(n: Node) {
    n.pc.Spinning? && n.dev.bus.BusTx? && n.dev.timer && InRange(n.dev.tx)
  }

  lemma TickInSpin(n: Node)
    requires InSpin(n) && !Exhausted(n.dev.tx)
    ensures InSpin(Next(n, Tick(true, false)))
    ensures TicksLeft(Next(n, Tick(true, false)).dev.tx) == TicksLeft(n.dev.tx) - 1
  {
    OneTick(n.dev.tx, false);
  }

  lemma NoTick(n: Node)
    ensures Ticked(n, 0) == n
  {
    assert n.sent.driven + [] == n.sent.driven;
  }

  lemma {:induction false} TicksOfASpin(n: Node, k: nat, rest: seq<Step>)
    requires InSpin(n) && k < TicksLeft(n.dev.tx) && Guarded(Ticked(n, k), rest)
    ensures Guarded(n, Ticks(k, rest)) && Run(n, Ticks(k, rest)) == Run(Ticked(n, k), rest)
    decreases k
  {
    if k == 0 {
      NoTick(n);
    } else {
      TickInSpin(n);
      OneTicked(n, k);
      TicksOfASpin(Next(n, Tick(true, false)), k - 1, rest);
      Prepended(n, Tick(true, false), Ticks(k - 1, rest));
    }
  }

  lemma {:induction false} TicksSplit(j: nat, k: nat, rest: seq<Step>)
    ensures Ticks(j + k, rest) == Ticks(j, Ticks(k, rest))
  {
    if j > 0 { TicksSplit(j - 1, k, rest); }
  }

  // ---------------------------------------------------------------- the stores around it

  function Finished(m: Node): Node {
    m.(pc := Ready, dev := StopTiming(m.dev).(dout := true))
  }

  lemma Leaves(m: Node)
    requires m.pc.Spinning? && m.dev.bus.BusIdle? && !m.dev.rx.ongoing
    ensures Guarded(m, Stores(4, [])) && Run(m, Stores(4, [])) == Finished(m)
  {
    var m1 := MainStep(m);
    var m2 := MainStep(m1);
    var m3 := MainStep(m2);
    OneStore(m3, 1, []);
    OneStore(m2, 2, []);
    OneStore(m1, 3, []);
    OneStore(m, 4, []);
  }

  /** The interrupt that finds the words exhausted, and the stores after the spin. */
  lemma Ends(m: Node)
    requires InSpin(m) && Exhausted(m.dev.tx) && !m.dev.rx.ongoing
    ensures Guarded(m, Ticks(1, Stores(4, []))) && Run(m, Ticks(1, Stores(4, []))) == Finished(m)
  {
    Leaves(Next(m, Tick(true, false)));
    Prepended(m, Tick(true, false), Stores(4, []));
  }

  /** The node once its data is formatted and its timer started. */
  function Spinner(n: Node, data: seq<Byte>): Node {
    n.(pc := Spinning, dev := Started(n.dev, data).(dout := false), sent := n.sent.(written := n.sent.written + data))
  }

  lemma Begins(n: Node, data: seq<Byte>, rest: seq<Step>)
    requires n.pc.Ready? && !n.dev.rx.ongoing && Guarded(Spinner(n, data), rest)
    ensures Guarded(Next(n, BeginWrite(data)), Stores(5, rest))
    ensures Run(Next(n, BeginWrite(data)), Stores(5, rest)) == Run(Spinner(n, data), rest)
  {
    var n0 := Next(n, BeginWrite(data));
    var n1 := MainStep(n0);
    var n2 := MainStep(n1);
    var n3 := MainStep(n2);
    var n4 := MainStep(n3);
    assert MainStep(n4) == Spinner(n, data);
    OneStore(n4, 1, rest);
    OneStore(n3, 2, rest);
    OneStore(n2, 3, rest);
    OneStore(n1, 4, rest);
    OneStore(n0, 5, rest);
  }

  /** The node after a whole write. */
  function AfterWholeWrite(n: Node, data: seq<Byte>): Node {
    n.(dev := Written(n.dev, data),
       sent := Sent(n.sent.written + data, n.sent.driven + Levels(FormatAll(data))))
  }

  lemma SpinValue(n: Node, data: seq<Byte>, k: nat)
    requires k == SpinTicks(|data|, n.dev.tx.collation) - 1
    ensures var m := Spinner(n, data);
            && InSpin(m) && k < TicksLeft(m.dev.tx)
            && InSpin(Ticked(m, k)) && Exhausted(Ticked(m, k).dev.tx)
            && Finished(Ticked(m, k)).dev == Written(n.dev, data)
            && Ticked(m, k).sent == Sent(n.sent.written + data, n.sent.driven + Levels(FormatAll(data)))
  {
    ExactTransmission(n.dev.tx, data, k);
    TicksToTheEnd(Start(n.dev.tx, data), k);
  }

  lemma SpinAndEnd(n: Node, data: seq<Byte>)
    requires n.pc.Ready? && !n.dev.rx.ongoing
    ensures var steps := Ticks(SpinTicks(|data|, n.dev.tx.collation), Stores(4, []));
            Guarded(Spinner(n, data), steps) && Run(Spinner(n, data), steps) == AfterWholeWrite(n, data)
  {
    var k := SpinTicks(|data|, n.dev.tx.collation) - 1;
    SpinValue(n, data, k);
    SpinRuns(n, data, Spinner(n, data), k);
  }

  lemma SpinRuns(n: Node, data: seq<Byte>, m: Node, k: nat)
    requires InSpin(m) && k < TicksLeft(m.dev.tx) && !m.dev.rx.ongoing
    requires InSpin(Ticked(m, k)) && Exhausted(Ticked(m, k).dev.tx)
    requires Finished(Ticked(m, k)) == AfterWholeWrite(n, data)
    ensures Guarded(m, Ticks(k + 1, Stores(4, []))) && Run(m, Ticks(k + 1, Stores(4, []))) == AfterWholeWrite(n, data)
  {
    Ends(Ticked(m, k));
    TicksOfASpin(m, k, Ticks(1, Stores(4, [])));
    TicksSplit(k, 1, Stores(4, []));
  }

  /**
   * With no frame in progress, the stores and interrupts of an undisturbed write are a run within the
   * guards, and leave what the write as a whole leaves: the line has shown exactly the levels of the
   * data, and only the transmitter has changed.
   */
  lemma WriteIsARun(n: Node, data: seq<Byte>)
    requires n.pc.Ready? && !n.dev.rx.ongoing
    ensures Guarded(n, WriteSteps(n, data))
    ensures Run(n, WriteSteps(n, data)) == AfterWholeWrite(n, data)
  {
    var spin := Ticks(SpinTicks(|data|, n.dev.tx.collation), Stores(4, []));
    SpinAndEnd(n, data);
    Begins(n, data, spin);
    Prepended(n, BeginWrite(data), Stores(5, spin));
  }
}
