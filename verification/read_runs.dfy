/**
 * _adi_fifo_ReadN with pushes between its memory accesses: what it hands out, and exactly when that is
 * right whatever is pushed (src/fifo.c).
 */
module ReadRuns {
  import opened RingBuffer
  import opened Spsc
  import opened Calls

  // ---------------------------------------------------------------- the slots a read looks at

  /** A read looks for every element in its own slot exactly if they are where InOwnSlots says. */
  lemma InOwnSlotsExactlyWhen(start: Ring, count: nat)
    requires ValidRing(start) && count <= Capacity(start)
    ensures TailSlot(start) + count < 2 * Slots(start)
    ensures InOwnSlots(start, count)
        <==> forall i :: 0 <= i < count ==> ReadSlotAt(start, count, i) == Wrap(TailSlot(start) + i, Slots(start))
  {
    SlotFacts(start);
    CopyIsRightExactlyWhen(HeadSlot(start), TailSlot(start), Slots(start), count);
    assert forall i :: 0 <= i < count ==>
      ReadSlotAt(start, count, i) == CopiedSlot(HeadSlot(start), TailSlot(start), Slots(start), count, i);
  }

  /**
   * Otherwise it copies the first element pushed after it took its indices from slot 0, where that element
   * is not: what it hands out is right exactly if the two slots happen to hold the same bytes.
   */
  lemma WrongElement(s: State)
    requires Inv(s) && s.pc.ReadCopy? && |s.pc.out| < s.pc.count && !InOwnSlots(s.pc.start, s.pc.count)
    requires |s.pc.out| == |Elems(s.pc.start)|
    ensures HeadSlot(s.pc.start) != 0 && HeadSlot(s.pc.start) < Slots(s.ring)
    ensures Next(s, Continue).pc.out[|s.pc.out|] == ElemAt(s.ring, 0)
    ensures Elems(s.ring)[|s.pc.out|] == ElemAt(s.ring, HeadSlot(s.pc.start))
    ensures Next(s, Continue).pc.out[|s.pc.out|] == Elems(s.ring)[|s.pc.out|]
        <==> ElemAt(s.ring, 0) == ElemAt(s.ring, HeadSlot(s.pc.start))
  {
    SlotFacts(s.pc.start);
    SlotFacts(s.ring);
  }

  // ---------------------------------------------------------------- one read, whatever is pushed

  /** The read that was asked for len elements when the queue was r has come to t. */
  ghost predicate FromRead(r: Ring, len: nat, t: State)
    requires ValidRing(r)
  {
    && Inv(t)
    && match t.pc
       case Outside => true
       case ReadFirstLen(start, l) => start == r && l == len
       case ReadSecondLen(start, l) => start == r && l == len && |Elems(r)| < len
       case ReadCopy(start, l, count, _) =>
         start == r && l == len && (count == len || (|Elems(r)| < len && |Elems(r)| <= count))
       case _ => false
  }

  lemma FromReadPush(r: Ring, len: nat, t: State, e: Elem)
    requires ValidRing(r) && FromRead(r, len, t) && |e| == t.ring.elemSize
    ensures FromRead(r, len, Next(t, IsrPush(e)))
  {
    InvStep(t, IsrPush(e));
  }

  lemma FromReadContinue(r: Ring, len: nat, t: State)
    requires ValidRing(r) && FromRead(r, len, t) && !t.pc.Outside?
    ensures FromRead(r, len, Next(t, Continue))
  {
    InvStep(t, Continue);
  }

  lemma {:induction false} FromReadRun(r: Ring, len: nat, t: State, steps: seq<Step>)
    requires ValidRing(r) && FromRead(r, len, t) && CallSteps(t, steps)
    ensures FromRead(r, len, Run(t, steps))
    decreases |steps|
  {
    if steps != [] {
      assert WithinCall(steps[0]) && Enabled(t, steps[0]);
      if steps[0].IsrPush? { FromReadPush(r, len, t, steps[0].e); } else { FromReadContinue(r, len, t); }
      FromReadRun(r, len, Next(t, steps[0]), steps[1..]);
    }
  }

  lemma CountIsBounded(r: Ring, len: nat, t: State)
    requires ValidRing(r) && FromRead(r, len, t) && t.pc.ReadCopy?
    ensures t.pc.count <= Capacity(r)
  {}

  // ---------------------------------------------------------------- schedules that exist

  lemma PushOne(s: State, e: Elem)
    requires Inv(s) && |Elems(s.ring)| < Capacity(s.ring) && |e| == s.ring.elemSize
    ensures Inv(Next(s, IsrPush(e))) && Next(s, IsrPush(e)).pc == s.pc
    ensures Elems(Next(s, IsrPush(e)).ring) == Elems(s.ring) + [e]
    ensures Capacity(Next(s, IsrPush(e)).ring) == Capacity(s.ring)
    ensures Next(s, IsrPush(e)).ring == Pushed(s.ring, e)
  {
    InvStep(s, IsrPush(e));
    EmptyAndFull(s.ring);
    PushAppends(s.ring, e);
  }

  /** As many pushes as there is room for. */
  lemma {:induction false} PushMany(s: State, k: nat) returns (steps: seq<Step>)
    requires Inv(s) && |Elems(s.ring)| + k <= Capacity(s.ring)
    ensures CallSteps(s, steps) && Inv(Run(s, steps)) && Run(s, steps).pc == s.pc
    ensures |Elems(Run(s, steps).ring)| == |Elems(s.ring)| + k
    decreases k
  {
    if k == 0 {
      steps := [];
    } else {
      var e: Elem := seq(s.ring.elemSize, _ => 0);
      PushOne(s, e);
      var rest := PushMany(Next(s, IsrPush(e)), k - 1);
      CallOne(s, IsrPush(e), rest);
      steps := [IsrPush(e)] + rest;
    }
  }

  /** The next elements of a read with nothing in between. */
  lemma {:induction false} CopyMany(s: State, k: nat) returns (steps: seq<Step>)
    requires Inv(s) && s.pc.ReadCopy? && |s.pc.out| + k <= s.pc.count
    ensures CallSteps(s, steps) && Inv(Run(s, steps))
    ensures var t := Run(s, steps);
            t.ring == s.ring && t.pc.ReadCopy? && t.pc == s.pc.(out := t.pc.out) && |t.pc.out| == |s.pc.out| + k
    decreases k
  {
    if k == 0 {
      steps := [];
    } else {
      InvStep(s, Continue);
      var rest := CopyMany(Next(s, Continue), k - 1);
      CallOne(s, Continue, rest);
      steps := [Continue] + rest;
    }
  }

  // ---------------------------------------------------------------- more than was asked for

  /** A read is about to hand out more elements than it was asked for, which is what its destination holds. */
  predicate Exceeds(t: State) {
    t.pc.ReadCopy? && t.pc.count > t.pc.len
  }

  ghost predicate CanExceed(s: State, len: nat)
    requires ValidRing(s.ring) && s.pc.Outside? && len >= 1
  {
    var t := Next(s, StartRead(len));
    exists steps :: CallSteps(t, steps) && Exceeds(Run(t, steps))
  }

  lemma StartsFromRead(s: State, len: nat)
    requires Inv(s) && s.pc.Outside? && len >= 1
    ensures FromRead(s.ring, len, Next(s, StartRead(len)))
  {}

  /** Between its two calls of Len, pushes take the queue past the request. */
  lemma ExceedingRead(s: State, len: nat) returns (steps: seq<Step>)
    requires Inv(s) && s.pc.Outside? && |Elems(s.ring)| < len < Capacity(s.ring)
    ensures CallSteps(Next(s, StartRead(len)), steps)
    ensures Run(Next(s, StartRead(len)), steps).pc == ReadCopy(s.ring, len, len + 1, [])
  {
    var t := Next(s, StartRead(len));
    var t1 := Next(t, Continue);
    StartsFromRead(s, len);
    FromReadContinue(s.ring, len, t);
    var pushes := PushMany(t1, len + 1 - |Elems(s.ring)|);
    var t2 := Run(t1, pushes);
    var last: seq<Step> := [];
    CallOne(t2, Continue, last);
    CallThen(t1, pushes, [Continue] + last);
    CallOne(t, Continue, pushes + ([Continue] + last));
    steps := [Continue] + (pushes + ([Continue] + last));
  }

  /**
   * A read can hand out more elements than it was asked for if and only if, as it is called, the queue holds
   * fewer than that and has room for more than that.
   */
  lemma ExceedsExactlyWhen(s: State, len: nat)
    requires Inv(s) && s.pc.Outside? && len >= 1
    ensures CanExceed(s, len) <==> |Elems(s.ring)| < len < Capacity(s.ring)
  {
    var t := Next(s, StartRead(len));
    if CanExceed(s, len) {
      var steps :| CallSteps(t, steps) && Exceeds(Run(t, steps));
      StartsFromRead(s, len);
      FromReadRun(s.ring, len, t, steps);
      CountIsBounded(s.ring, len, Run(t, steps));
    }
    if |Elems(s.ring)| < len < Capacity(s.ring) {
      var steps := ExceedingRead(s, len);
    }
  }

  // ---------------------------------------------------------------- exactly when a read is right

  /** What has been handed out is within the request and is the oldest elements, in order. */
  ghost predicate HandsOutOldest(t: State)
    requires ValidRing(t.ring)
  {
    t.pc.ReadCopy? ==>
      && t.pc.count <= t.pc.len
      && |t.pc.out| <= |Elems(t.ring)| && t.pc.out == Elems(t.ring)[..|t.pc.out|]
  }

  /** It settles on the request, or at least on all that was queued as it was called. */
  ghost predicate Enough(r: Ring, len: nat, t: State)
    requires ValidRing(r)
  {
    t.pc.ReadCopy? ==> t.pc.count == len || |Elems(r)| <= t.pc.count
  }

  /** Whatever is pushed while it runs, and at every moment of it. */
  ghost predicate AlwaysRight(s: State, len: nat)
    requires Inv(s) && s.pc.Outside? && len >= 1
  {
    var t := Next(s, StartRead(len));
    forall steps :: CallSteps(t, steps) ==>
      ValidRing(Run(t, steps).ring) && HandsOutOldest(Run(t, steps)) && Enough(s.ring, len, Run(t, steps))
  }

  /**
   * What a caller can check before the call: there is enough in the queue; or the request is for all it can
   * ever hold, and the indices are wrapped, the head is at the front, or the queue is full.
   */
  ghost predicate Foreseen(r: Ring, len: nat)
    requires ValidRing(r)
  {
    || len <= |Elems(r)|
    || (Capacity(r) <= len && (r.head < r.tail || r.head == 0 || |Elems(r)| == Capacity(r)))
  }

  /** The order of the indices is the order of their slots. */
  lemma IndexOrder(r: Ring)
    requires ValidRing(r)
    ensures r.head < r.tail <==> HeadSlot(r) < TailSlot(r)
    ensures r.head == 0 <==> HeadSlot(r) == 0
  {
    var e := r.elemSize;
    if HeadSlot(r) < TailSlot(r) {
      OffsetLess(e, HeadSlot(r), TailSlot(r));
    } else {
      OffsetAtMost(e, TailSlot(r), HeadSlot(r));
    }
    if HeadSlot(r) > 0 { OffsetLess(e, 0, HeadSlot(r)); }
  }

  lemma ForeseenIsRight(r: Ring, len: nat, t: State)
    requires ValidRing(r) && Foreseen(r, len) && FromRead(r, len, t)
    ensures HandsOutOldest(t)
  {
    if t.pc.ReadCopy? {
      IndexOrder(r);
      SlotFacts(r);
      CountIsBounded(r, len, t);
      assert InOwnSlots(r, t.pc.count);
    }
  }

  lemma OtherBytes(e: Elem) returns (other: Elem)
    requires |e| >= 1
    ensures |other| == |e| && other != e
  {
    other := e[0 := if e[0] == 0 then 1 else 0];
    assert other[0] != e[0];
  }

  /** One push after the indices are read makes the read settle on one element more than there was. */
  lemma ReadPastSequence(s: State, len: nat, e: Elem) returns (steps: seq<Step>)
    requires Inv(s) && s.pc.Outside? && |Elems(s.ring)| < Capacity(s.ring) <= len && |e| == s.ring.elemSize
    ensures var t := Next(s, StartRead(len));
            && CallSteps(t, steps) && Inv(Run(t, steps)) && Run(t, steps).ring == Pushed(s.ring, e)
            && Run(t, steps).pc == ReadCopy(s.ring, len, |Elems(s.ring)| + 1, [])
  {
    var t := Next(s, StartRead(len));
    var t1 := Next(t, IsrPush(e));
    var t2 := Next(t1, Continue);
    var none: seq<Step> := [];
    StartsFromRead(s, len);
    PushOne(t, e);
    InvStep(t1, Continue);
    if t2.pc.ReadCopy? {
      CallOne(t1, Continue, none);
      CallOne(t, IsrPush(e), [Continue] + none);
      steps := [IsrPush(e)] + ([Continue] + none);
    } else {
      InvStep(t2, Continue);
      CallOne(t2, Continue, none);
      CallOne(t1, Continue, [Continue] + none);
      CallOne(t, IsrPush(e), [Continue] + ([Continue] + none));
      steps := [IsrPush(e)] + ([Continue] + ([Continue] + none));
    }
  }

  /** The element after those that lay in sequence is taken from slot 0, which holds other bytes. */
  lemma MisplacedCopy(v: State, e: Elem)
    requires Inv(v) && v.pc.ReadCopy? && v.pc.count == |v.pc.out| + 1 && |v.pc.out| == |Elems(v.pc.start)|
    requires !InOwnSlots(v.pc.start, v.pc.count)
    requires Elems(v.ring)[|v.pc.out|] == e != ElemAt(v.ring, 0)
    ensures Inv(Next(v, Continue)) && !HandsOutOldest(Next(v, Continue))
  {
    InvStep(v, Continue);
    WrongElement(v);
    LastDiffers(Next(v, Continue), |v.pc.out|);
  }

  lemma LastDiffers(t: State, k: nat)
    requires Inv(t) && t.pc.ReadCopy? && |t.pc.out| == k + 1 <= |Elems(t.ring)| && t.pc.out[k] != Elems(t.ring)[k]
    ensures !HandsOutOldest(t)
  {
    assert Elems(t.ring)[..k + 1][k] == Elems(t.ring)[k];
  }

  /** A push that differs from the first slot, on a queue whose head is neither there nor wrapped. */
  lemma MisplacedPush(r: Ring) returns (e: Elem)
    requires ValidRing(r) && |Elems(r)| < Capacity(r) && r.tail <= r.head && r.head != 0
    ensures |e| == r.elemSize && !InOwnSlots(r, |Elems(r)| + 1)
    ensures var r' := Pushed(r, e); Elems(r') == Elems(r) + [e] && e != ElemAt(r', 0)
  {
    SlotFacts(r);
    IndexOrder(r);
    EmptyAndFull(r);
    e := OtherBytes(ElemAt(r, 0));
    StoredSlot(r, e, 0);
    PushAppends(r, e);
    assert |Elems(r)| == HeadSlot(r) - TailSlot(r);
  }

  lemma MisplacedRead(s: State, len: nat) returns (steps: seq<Step>)
    requires Inv(s) && s.pc.Outside? && |Elems(s.ring)| < Capacity(s.ring) <= len
    requires s.ring.tail <= s.ring.head && s.ring.head != 0
    ensures var t := Next(s, StartRead(len));
            CallSteps(t, steps) && Inv(Run(t, steps)) && !HandsOutOldest(Run(t, steps))
  {
    var t := Next(s, StartRead(len));
    var e := MisplacedPush(s.ring);
    var first := ReadPastSequence(s, len, e);
    var u := Run(t, first);
    var second := CopyMany(u, |Elems(s.ring)|);
    var v := Run(u, second);
    var none: seq<Step> := [];
    MisplacedCopy(v, e);
    CallOne(v, Continue, none);
    CallThen(u, second, [Continue] + none);
    CallThen(t, first, second + ([Continue] + none));
    steps := first + (second + ([Continue] + none));
  }

  lemma ForeseenIsAlwaysRight(s: State, len: nat)
    requires Inv(s) && s.pc.Outside? && len >= 1 && Foreseen(s.ring, len)
    ensures AlwaysRight(s, len)
  {
    var t := Next(s, StartRead(len));
    StartsFromRead(s, len);
    forall steps | CallSteps(t, steps)
      ensures ValidRing(Run(t, steps).ring) && HandsOutOldest(Run(t, steps)) && Enough(s.ring, len, Run(t, steps))
    {
      FromReadRun(s.ring, len, t, steps);
      ForeseenIsRight(s.ring, len, Run(t, steps));
    }
  }

  lemma OneWrongRun(s: State, len: nat, steps: seq<Step>)
    requires Inv(s) && s.pc.Outside? && len >= 1 && CallSteps(Next(s, StartRead(len)), steps)
    requires var t := Run(Next(s, StartRead(len)), steps); ValidRing(t.ring) ==> !HandsOutOldest(t)
    ensures !AlwaysRight(s, len)
  {}

  /**
   * A read hands out the oldest elements, in order and no more than it was asked for, and up to that at least
   * what was queued as it was called, whatever is pushed while it runs, if and only if one of the conditions
   * held as it was called.
   */
  lemma AlwaysRightExactlyWhen(s: State, len: nat)
    requires Inv(s) && s.pc.Outside? && len >= 1
    ensures AlwaysRight(s, len) <==> Foreseen(s.ring, len)
  {
    if Foreseen(s.ring, len) {
      ForeseenIsAlwaysRight(s, len);
    } else if len < Capacity(s.ring) {
      var steps := ExceedingRead(s, len);
      OneWrongRun(s, len, steps);
    } else {
      var steps := MisplacedRead(s, len);
      OneWrongRun(s, len, steps);
    }
  }

  /** In every run from an empty queue, both conditions are exact for a read that starts at its end. */
  lemma ReadsInEveryRun(s: State, before: seq<Step>, len: nat)
    requires Initial(s) && ValidRun(s, before) && Run(s, before).pc.Outside? && len >= 1
    ensures var t := Run(s, before);
            && Inv(t)
            && (AlwaysRight(t, len) <==> Foreseen(t.ring, len))
            && (CanExceed(t, len) <==> |Elems(t.ring)| < len < Capacity(t.ring))
  {
    EmptyAndFull(s.ring);
    InvRun(s, before);
    AlwaysRightExactlyWhen(Run(s, before), len);
    ExceedsExactlyWhen(Run(s, before), len);
  }

  /** A read that is under way in any run started with the indices it holds. */
  ghost predicate Underway(t: State) {
    Inv(t) && (InRead(t.pc) ==> FromRead(t.pc.start, t.pc.len, t))
  }

  lemma UnderwayStep(t: State, step: Step)
    requires Underway(t) && Enabled(t, step)
    ensures Underway(Next(t, step))
  {
    InvStep(t, step);
    if InRead(t.pc) {
      if step.IsrPush? {
        FromReadPush(t.pc.start, t.pc.len, t, step.e);
      } else {
        FromReadContinue(t.pc.start, t.pc.len, t);
      }
    } else if step.StartRead? {
      StartsFromRead(t, step.len);
    }
  }

  lemma {:induction false} UnderwayRun(t: State, steps: seq<Step>)
    requires Underway(t) && ValidRun(t, steps)
    ensures Underway(Run(t, steps))
    decreases |steps|
  {
    if steps != [] {
      UnderwayStep(t, steps[0]);
      UnderwayRun(Next(t, steps[0]), steps[1..]);
    }
  }

  /** All elements a read has handed out are where they were pushed, if the condition held as it was called. */
  ghost predicate HandedOut(t: State)
    requires t.pc.ReadCopy? && ValidRing(t.pc.start)
  {
    var (start, len, out, from) := (t.pc.start, t.pc.len, t.pc.out, |t.removed|);
    && from + |out| <= |t.pushed|
    && (Foreseen(start, len) ==> |out| <= len && out == t.pushed[from..from + |out|])
    && (forall i :: 0 <= i < |out| && InSequence(start, i) ==> out[i] == t.pushed[from + i])
  }

  lemma QueueInPushed(removed: seq<Elem>, queue: seq<Elem>, pushed: seq<Elem>, k: nat)
    requires pushed == removed + queue && k <= |queue|
    ensures |removed| + k <= |pushed| && pushed[|removed|..|removed| + k] == queue[..k]
    ensures forall i :: 0 <= i < k ==> pushed[|removed| + i] == queue[i]
  {}

  lemma OutIsPushed(t: State)
    requires Underway(t) && t.pc.ReadCopy?
    ensures ValidRing(t.pc.start) && HandedOut(t)
  {
    QueueInPushed(t.removed, Elems(t.ring), t.pushed, |t.pc.out|);
    if Foreseen(t.pc.start, t.pc.len) { ForeseenIsRight(t.pc.start, t.pc.len, t); }
  }

  /**
   * What a read has handed out at any moment of any run from an empty queue. If one of the conditions held as it
   * was called: no more than it was asked for, and exactly the oldest elements that were pushed and not removed.
   * In any case it settles on the request or at least on all that was queued at the call, and is right as far as
   * that lay in sequence.
   */
  lemma ReadInAnyRun(s: State, steps: seq<Step>)
    requires Initial(s) && ValidRun(s, steps) && Run(s, steps).pc.ReadCopy?
    ensures var t := Run(s, steps);
            && Inv(t) && ValidRing(t.pc.start) && HandedOut(t)
            && (t.pc.count == t.pc.len || |Elems(t.pc.start)| <= t.pc.count)
  {
    EmptyAndFull(s.ring);
    UnderwayRun(s, steps);
    OutIsPushed(Run(s, steps));
  }

  // ---------------------------------------------------------------- two runs

  /** Four one-byte slots, nothing in them. */
  ghost predicate Blank(r: Ring) {
    r == Ring([0, 0, 0, 0], 1, 0, 0)
  }

  lemma SmallOffsets()
    ensures Offset(1, 0) == 0 && Offset(1, 1) == 1 && Offset(1, 4) == 4
  {
    OffsetIsProduct(1, 4);
  }

  lemma BlankRing(r: Ring)
    requires Blank(r)
    ensures ValidRing(r) && Slots(r) == 4 && HeadSlot(r) == 0 && TailSlot(r) == 0 && Elems(r) == []
  {
    SmallOffsets();
    SlotIs(1, 0, 0);
    SlotIs(1, 4, 4);
  }

  /** On an empty queue of capacity three, a read of one element can hand out two. */
  lemma ReadOfOneHandsOutTwo(s: State) returns (steps: seq<Step>)
    requires Blank(s.ring) && Initial(s)
    ensures Inv(s) && CallSteps(Next(s, StartRead(1)), steps)
    ensures Run(Next(s, StartRead(1)), steps).pc == ReadCopy(s.ring, 1, 2, [])
  {
    BlankRing(s.ring);
    EmptyAndFull(s.ring);
    steps := ExceedingRead(s, 1);
  }

  /** With one element in the first of the four slots, a read of three can hand out a wrong second one. */
  lemma ReadOfThreeGoesWrong(s: State) returns (steps: seq<Step>)
    requires Blank(s.ring) && Initial(s)
    ensures Inv(s) && Inv(Next(s, IsrPush([10])))
    ensures var t := Next(Next(s, IsrPush([10])), StartRead(3));
            CallSteps(t, steps) && Inv(Run(t, steps)) && !HandsOutOldest(Run(t, steps))
  {
    BlankRing(s.ring);
    EmptyAndFull(s.ring);
    PushOne(s, [10]);
    PushedSlots(s.ring, [10]);
    IndexOrder(Pushed(s.ring, [10]));
    steps := MisplacedRead(Next(s, IsrPush([10])), 3);
  }
}
