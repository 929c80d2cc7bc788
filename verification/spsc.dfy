/**
 * The ring buffer between an interrupt and the main loop: pushes run to completion between any two
 * micro-steps of a consumer that pops, clears or reads several elements without a lock (src/fifo.c, used
 * by src/max22x88.c).
 */
module Spsc {
  import opened Bytes
  import opened RingBuffer

  /** Where the consumer is inside _adi_fifo_Pop with a destination, _adi_fifo_Clear or _adi_fifo_ReadN. */
  datatype Pc =
    | Outside
    | PopTest(head: nat, wasEmpty: bool)
    | PopCopy(copied: seq<Byte>)
    | ClearTest(head: nat, wasEmpty: bool)
    | ClearLoad
    | ClearStore(head: nat, mark: nat)
    | ReadFirstLen(start: Ring, len: nat)
    | ReadSecondLen(start: Ring, len: nat)
    | ReadCopy(start: Ring, len: nat, count: nat, out: seq<Elem>)

  /**
   * `wasEmpty` records whether the queue was empty when head was read, `mark` in ClearStore how many
   * elements had been pushed then, and `start` the queue as it was when a read took its two indices; the
   * code has only the indices. A read is asked for `len` elements, settles on `count`, and has handed out `out`.
   */
  datatype State = State(ring: Ring, pc: Pc, pushed: seq<Elem>, removed: seq<Elem>)

  datatype Step =
    | IsrPush(e: Elem)
    | StartPop
    | StartClear
    | StartRead(len: nat)
    | Continue

  predicate InRead(pc: Pc) {
    pc.ReadFirstLen? || pc.ReadSecondLen? || pc.ReadCopy?
  }

  predicate Enabled(s: State, step: Step) {
    match step
    case IsrPush(e) => |e| == s.ring.elemSize
    case StartPop => s.pc.Outside?
    case StartClear => s.pc.Outside?
    case StartRead(len) => s.pc.Outside? && len >= 1
    case Continue => !s.pc.Outside?
  }

  ghost function Next(s: State, step: Step): State
    requires ValidRing(s.ring) && Enabled(s, step)
  {
    match step
    case IsrPush(e) =>
      if Full(s.ring) then s else s.(ring := Pushed(s.ring, e), pushed := s.pushed + [e])
    case StartPop => s.(pc := PopTest(s.ring.head, Elems(s.ring) == []))
    case StartClear => s.(pc := ClearTest(s.ring.head, Elems(s.ring) == []))
    case StartRead(len) => s.(pc := ReadFirstLen(s.ring, len))
    case Continue => Continued(s)
  }

  /** The slot _adi_fifo_ReadN copies its next element from. */
  ghost function ReadSlotAt(start: Ring, count: nat, i: nat): (slot: nat)
    requires ValidRing(start) && i < count
  {
    SlotFacts(start);
    CopiedSlot(HeadSlot(start), TailSlot(start), Slots(start), count, i)
  }

  ghost function SlotBytes(r: Ring, slot: nat): Elem
    requires ValidRing(r)
  {
    if slot < Slots(r) then ElemAt(r, slot) else []
  }

  /** One memory access of the consumer: a comparison, one copied byte or element, or a store to tail. */
  ghost function Continued(s: State): State
    requires ValidRing(s.ring) && !s.pc.Outside?
  {
    match s.pc
    case PopTest(head, _) => if head == s.ring.tail then s.(pc := Outside) else s.(pc := PopCopy([]))
    case PopCopy(copied) =>
      if |copied| < s.ring.elemSize then
        var from := s.ring.tail + |copied|;
        s.(pc := PopCopy(copied + if from < |s.ring.buf| then [s.ring.buf[from]] else []))
      else
        s.(pc := Outside, ring := Advanced(s.ring), removed := s.removed + [copied])
    case ClearTest(head, _) => if head == s.ring.tail then s.(pc := Outside) else s.(pc := ClearLoad)
    case ClearLoad => s.(pc := ClearStore(s.ring.head, |s.pushed|))
    case ClearStore(head, mark) =>
      s.(pc := Outside, ring := s.ring.(tail := head), removed := s.pushed[..if mark <= |s.pushed| then mark else 0])
    case ReadFirstLen(start, len) =>
      s.(pc := if len > |Elems(s.ring)| then ReadSecondLen(start, len) else ReadCopy(start, len, len, []))
    case ReadSecondLen(start, len) => s.(pc := ReadCopy(start, len, |Elems(s.ring)|, []))
    case ReadCopy(start, len, count, out) =>
      if |out| < count && ValidRing(start) then
        s.(pc := ReadCopy(start, len, count, out + [SlotBytes(s.ring, ReadSlotAt(start, count, |out|))]))
      else
        s.(pc := Outside)
  }

  /** The byte index of the slot k elements after the tail. */
  ghost predicate AheadOfTail(r: Ring, idx: nat, k: nat)
    requires ValidRing(r)
  {
    && k <= |Elems(r)|
    && TailSlot(r) + k < 2 * Slots(r)
    && idx == Offset(r.elemSize, Wrap(TailSlot(r) + k, Slots(r)))
  }

  /** Pushes have happened between a and b. */
  ghost predicate Grown(a: Ring, b: Ring)
    requires ValidRing(a) && ValidRing(b)
  {
    && b.tail == a.tail && b.elemSize == a.elemSize && Slots(b) == Slots(a) && TailSlot(b) == TailSlot(a)
    && Elems(a) <= Elems(b)
  }

  /** Elements a read finds where it looks for them, whatever was pushed since it took its indices. */
  ghost predicate InSequence(start: Ring, i: nat)
    requires ValidRing(start)
  {
    SlotFacts(start);
    i < SequentialSlots(HeadSlot(start), TailSlot(start), Slots(start))
  }

  /**
   * A read of that many elements finds all of them where it looks: its indices were wrapped, or all elements
   * lay in sequence, or the head was at the front of the buffer.
   */
  ghost predicate InOwnSlots(start: Ring, count: nat)
    requires ValidRing(start)
  {
    HeadSlot(start) < TailSlot(start) || count <= HeadSlot(start) - TailSlot(start) || HeadSlot(start) == 0
  }

  /** What a read has copied so far: the oldest elements, except where it looks in the wrong place. */
  ghost predicate Reading(start: Ring, count: nat, out: seq<Elem>, now: Ring)
    requires ValidRing(start) && ValidRing(now)
  {
    && |out| <= count <= |Elems(now)|
    && forall i {:trigger out[i]} :: 0 <= i < |out| && (InOwnSlots(start, count) || InSequence(start, i)) ==>
         out[i] == Elems(now)[i]
  }

  ghost predicate Inv(s: State) {
    && ValidRing(s.ring)
    && s.removed + Elems(s.ring) == s.pushed
    && match s.pc
       case Outside => true
       case PopTest(head, wasEmpty) => wasEmpty == (head == s.ring.tail) && (!wasEmpty ==> Elems(s.ring) != [])
       case PopCopy(copied) =>
         && !Empty(s.ring) && Elems(s.ring) != []
         && |copied| <= s.ring.elemSize && copied == Elems(s.ring)[0][..|copied|]
       case ClearTest(head, wasEmpty) => wasEmpty == (head == s.ring.tail) && (!wasEmpty ==> Elems(s.ring) != [])
       case ClearLoad => true
       case ClearStore(head, mark) => |s.removed| <= mark && AheadOfTail(s.ring, head, mark - |s.removed|)
       case ReadFirstLen(start, _) => ValidRing(start) && Grown(start, s.ring)
       case ReadSecondLen(start, _) => ValidRing(start) && Grown(start, s.ring)
       case ReadCopy(start, _, count, out) =>
         ValidRing(start) && Grown(start, s.ring) && Reading(start, count, out, s.ring)
  }

  lemma InvPush(s: State, e: Elem)
    requires Inv(s) && |e| == s.ring.elemSize && !InRead(s.pc)
    ensures Inv(Next(s, IsrPush(e)))
  {
    if !Full(s.ring) {
      var r := s.ring;
      PushAppends(r, e);
      PushedSlots(r, e);
      EmptyAndFull(r);
      EmptyAndFull(Pushed(r, e));
      assert s.removed + (Elems(r) + [e]) == s.pushed + [e];
    }
  }

  lemma PushGrows(a: Ring, b: Ring, e: Elem)
    requires ValidRing(a) && ValidRing(b) && Grown(a, b) && |e| == b.elemSize && !Full(b)
    ensures Grown(a, Pushed(b, e))
  {
    PushAppends(b, e);
    PushedSlots(b, e);
  }

  lemma ReadingGrows(start: Ring, count: nat, out: seq<Elem>, now: Ring, e: Elem)
    requires ValidRing(start) && ValidRing(now) && Reading(start, count, out, now) && |e| == now.elemSize && !Full(now)
    ensures Reading(start, count, out, Pushed(now, e))
  {
    PushAppends(now, e);
  }

  lemma InvPushReading(s: State, e: Elem)
    requires Inv(s) && |e| == s.ring.elemSize && InRead(s.pc)
    ensures Inv(Next(s, IsrPush(e)))
  {
    if !Full(s.ring) {
      PushAppends(s.ring, e);
      PushGrows(s.pc.start, s.ring, e);
      if s.pc.ReadCopy? { ReadingGrows(s.pc.start, s.pc.count, s.pc.out, s.ring, e); }
      assert s.removed + (Elems(s.ring) + [e]) == s.pushed + [e];
    }
  }

  lemma HeadIsAhead(r: Ring)
    requires ValidRing(r)
    ensures AheadOfTail(r, r.head, |Elems(r)|)
  {
    SlotFacts(r);
  }

  lemma InvStart(s: State, step: Step)
    requires Inv(s) && Enabled(s, step) && (step.StartPop? || step.StartClear?)
    ensures Inv(Next(s, step))
  {
    EmptyAndFull(s.ring);
  }

  /** A pop or clear reports an empty queue exactly when the queue was empty as it read head. */
  lemma TestAnswers(s: State)
    requires Inv(s) && (s.pc.PopTest? || s.pc.ClearTest?)
    ensures Inv(Next(s, Continue))
    ensures Next(s, Continue).pc.Outside? <==> s.pc.wasEmpty
    ensures Next(s, Continue).ring == s.ring && Next(s, Continue).removed == s.removed
  {
    EmptyAndFull(s.ring);
  }

  lemma CopyOneByte(s: State)
    requires Inv(s) && s.pc.PopCopy? && |s.pc.copied| < s.ring.elemSize
    ensures Inv(Next(s, Continue))
  {
    var (r, copied) := (s.ring, s.pc.copied);
    OldestAtTail(r);
    assert Elems(r)[0][..|copied| + 1] == copied + [Elems(r)[0][|copied|]];
  }

  /** The last step of a pop removes the oldest element, and the bytes copied are that element. */
  lemma FinishPop(s: State)
    requires Inv(s) && s.pc.PopCopy? && |s.pc.copied| == s.ring.elemSize
    ensures Inv(Next(s, Continue))
    ensures Elems(s.ring) != [] && s.pc.copied == Elems(s.ring)[0]
    ensures Elems(Next(s, Continue).ring) == Elems(s.ring)[1..]
  {
    AdvanceRemovesOldest(s.ring);
    var oldest := Elems(s.ring)[0];
    assert oldest[..|oldest|] == oldest;
    assert s.removed + [oldest] + Elems(s.ring)[1..] == s.removed + Elems(s.ring);
  }

  /**
   * The store of a clear removes exactly the elements pushed before head was read;
   * the ones pushed since are what the queue holds afterwards.
   */
  lemma FinishClear(s: State)
    requires Inv(s) && s.pc.ClearStore?
    ensures s.pc.mark <= |s.pushed|
    ensures Inv(Next(s, Continue))
    ensures Next(s, Continue).removed == s.pushed[..s.pc.mark]
    ensures Elems(Next(s, Continue).ring) == s.pushed[s.pc.mark..]
  {
    var k := s.pc.mark - |s.removed|;
    SkipRemoves(s.ring, k, s.pc.head);
    assert s.pushed[s.pc.mark..] == Elems(s.ring)[k..];
  }

  /** A read takes an element that is where it looks for it. */
  lemma ReadOneElement(start: Ring, now: Ring, count: nat, i: nat)
    requires ValidRing(start) && ValidRing(now) && Grown(start, now)
    requires i < count <= |Elems(now)| && (InOwnSlots(start, count) || InSequence(start, i))
    ensures SlotBytes(now, ReadSlotAt(start, count, i)) == Elems(now)[i]
  {
    SlotFacts(start);
    SlotFacts(now);
    if InOwnSlots(start, count) {
      CopyIsRightExactlyWhen(HeadSlot(start), TailSlot(start), Slots(now), count);
      assert CopiedSlot(HeadSlot(start), TailSlot(start), Slots(now), count, i) == Wrap(TailSlot(now) + i, Slots(now));
    }
  }

  lemma ReadingOneMore(start: Ring, count: nat, out: seq<Elem>, now: Ring)
    requires ValidRing(start) && ValidRing(now) && Grown(start, now)
    requires Reading(start, count, out, now) && |out| < count
    ensures Reading(start, count, out + [SlotBytes(now, ReadSlotAt(start, count, |out|))], now)
  {
    if InOwnSlots(start, count) || InSequence(start, |out|) { ReadOneElement(start, now, count, |out|); }
  }

  lemma CopyOneElement(s: State)
    requires Inv(s) && s.pc.ReadCopy? && |s.pc.out| < s.pc.count
    ensures Inv(Next(s, Continue))
  {
    ReadingOneMore(s.pc.start, s.pc.count, s.pc.out, s.ring);
  }

  lemma InvRead(s: State)
    requires Inv(s) && InRead(s.pc)
    ensures Inv(Next(s, Continue))
  {
    if s.pc.ReadCopy? && |s.pc.out| < s.pc.count { CopyOneElement(s); }
  }

  lemma InvContinue(s: State)
    requires Inv(s) && !s.pc.Outside?
    ensures Inv(Next(s, Continue))
  {
    match s.pc
    case PopTest(_, _) => TestAnswers(s);
    case PopCopy(copied) => if |copied| < s.ring.elemSize { CopyOneByte(s); } else { FinishPop(s); }
    case ClearTest(_, _) => TestAnswers(s);
    case ClearLoad => HeadIsAhead(s.ring);
    case ClearStore(_, _) => FinishClear(s);
    case _ => InvRead(s);
  }

  lemma InvStep(s: State, step: Step)
    requires Inv(s) && Enabled(s, step)
    ensures Inv(Next(s, step))
  {
    match step
    case IsrPush(e) =>
      if InRead(s.pc) { InvPushReading(s, e); } else { InvPush(s, e); }
    case StartPop => InvStart(s, step);
    case StartClear => InvStart(s, step);
    case StartRead(_) =>
    case Continue => InvContinue(s);
  }

  // ---------------------------------------------------------------- every run

  /** Every step is possible when it is taken. */
  ghost predicate ValidRun(s: State, steps: seq<Step>)
    decreases |steps|
  {
    steps == [] || (ValidRing(s.ring) && Enabled(s, steps[0]) && ValidRun(Next(s, steps[0]), steps[1..]))
  }

  ghost function Run(s: State, steps: seq<Step>): State
    requires ValidRun(s, steps)
    decreases |steps|
  {
    if steps == [] then s else Run(Next(s, steps[0]), steps[1..])
  }

  ghost predicate Initial(s: State) {
    ValidRing(s.ring) && Empty(s.ring) && s.pc.Outside? && s.pushed == [] && s.removed == []
  }

  lemma {:induction false} InvRun(s: State, steps: seq<Step>)
    requires Inv(s) && ValidRun(s, steps)
    ensures Inv(Run(s, steps))
    decreases |steps|
  {
    if steps != [] {
      InvStep(s, steps[0]);
      InvRun(Next(s, steps[0]), steps[1..]);
    }
  }

  /**
   * However pushes fall between the micro-steps of pops and clears, nothing is lost, duplicated or
   * reordered: what was removed is a prefix of what was pushed, and the queue holds the rest.
   */
  lemma RemovedIsPrefixOfPushed(s: State, steps: seq<Step>)
    requires Initial(s) && ValidRun(s, steps)
    ensures var t := Run(s, steps);
            && ValidRing(t.ring)
            && t.removed <= t.pushed
            && Elems(t.ring) == t.pushed[|t.removed|..]
  {
    EmptyAndFull(s.ring);
    InvRun(s, steps);
    var t := Run(s, steps);
    assert t.pushed == t.removed + Elems(t.ring);
  }

  // ---------------------------------------------------------------- an atomic queue

  /** What a step does to a queue whose operations are not taken apart. */
  datatype QueueOp = Nothing | Append(e: Elem) | RemoveOldest(n: nat)

  function Apply(q: seq<Elem>, op: QueueOp): seq<Elem> {
    match op
    case Nothing => q
    case Append(e) => q + [e]
    case RemoveOldest(n) => if n <= |q| then q[n..] else []
  }

  /** A push takes effect at once if there is room, a pop and a clear with their store to tail. */
  ghost function OpOf(s: State, step: Step): QueueOp
    requires ValidRing(s.ring)
  {
    match step
    case IsrPush(e) => if |Elems(s.ring)| < Capacity(s.ring) then Append(e) else Nothing
    case Continue =>
      if s.pc.PopCopy? && |s.pc.copied| == s.ring.elemSize then RemoveOldest(1)
      else if s.pc.ClearStore? && |s.removed| <= s.pc.mark then RemoveOldest(s.pc.mark - |s.removed|)
      else Nothing
    case _ => Nothing
  }

  ghost function OpsOf(s: State, steps: seq<Step>): seq<QueueOp>
    requires ValidRun(s, steps)
    decreases |steps|
  {
    if steps == [] then [] else [OpOf(s, steps[0])] + OpsOf(Next(s, steps[0]), steps[1..])
  }

  function ApplyAll(q: seq<Elem>, ops: seq<QueueOp>): seq<Elem>
    decreases |ops|
  {
    if ops == [] then q else ApplyAll(Apply(q, ops[0]), ops[1..])
  }

  lemma PushIsAtomic(s: State, e: Elem)
    requires Inv(s) && |e| == s.ring.elemSize
    ensures Elems(Next(s, IsrPush(e)).ring) == Apply(Elems(s.ring), OpOf(s, IsrPush(e)))
  {
    EmptyAndFull(s.ring);
    if !Full(s.ring) { PushAppends(s.ring, e); }
  }

  lemma StepIsAtomic(s: State, step: Step)
    requires Inv(s) && Enabled(s, step)
    ensures ValidRing(Next(s, step).ring)
    ensures Elems(Next(s, step).ring) == Apply(Elems(s.ring), OpOf(s, step))
  {
    InvStep(s, step);
    if step.IsrPush? {
      PushIsAtomic(s, step.e);
    } else if step.Continue? && s.pc.PopCopy? && |s.pc.copied| == s.ring.elemSize {
      FinishPop(s);
    } else if step.Continue? && s.pc.ClearStore? {
      ClearIsAtomic(s);
    }
  }

  lemma ClearIsAtomic(s: State)
    requires Inv(s) && s.pc.ClearStore?
    ensures ValidRing(Next(s, Continue).ring)
    ensures Elems(Next(s, Continue).ring) == Apply(Elems(s.ring), OpOf(s, Continue))
  {
    FinishClear(s);
    assert s.pushed[s.pc.mark..] == Elems(s.ring)[s.pc.mark - |s.removed|..];
  }

  /** Every interleaving is a sequence of operations on a queue that appends and removes in one step. */
  lemma {:induction false} RefinesAtomicQueue(s: State, steps: seq<Step>)
    requires Inv(s) && ValidRun(s, steps)
    ensures ValidRing(Run(s, steps).ring)
    ensures Elems(Run(s, steps).ring) == ApplyAll(Elems(s.ring), OpsOf(s, steps))
    decreases |steps|
  {
    if steps != [] {
      InvStep(s, steps[0]);
      StepIsAtomic(s, steps[0]);
      RefinesAtomicQueue(Next(s, steps[0]), steps[1..]);
      assert OpsOf(s, steps)[1..] == OpsOf(Next(s, steps[0]), steps[1..]);
    }
  }

  /** A push never touches the slot a pop is copying from. */
  lemma PushSparesCopiedSlot(s: State, e: Elem)
    requires Inv(s) && s.pc.PopCopy? && |e| == s.ring.elemSize
    ensures var r' := Next(s, IsrPush(e)).ring;
            && r'.tail == s.ring.tail && |r'.buf| == |s.ring.buf| && s.ring.tail + s.ring.elemSize <= |s.ring.buf|
            && r'.buf[s.ring.tail..s.ring.tail + s.ring.elemSize]
               == s.ring.buf[s.ring.tail..s.ring.tail + s.ring.elemSize]
  {
    OldestAtTail(s.ring);
    if !Full(s.ring) {
      PushAppends(s.ring, e);
      EmptyAndFull(Pushed(s.ring, e));
      OldestAtTail(Pushed(s.ring, e));
    }
  }
}
