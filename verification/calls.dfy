/**
 * A pop, clear or read of several elements from its call to its return, with pushes between its memory
 * accesses: it returns after a bounded number of them, and a pop or clear has then removed what it must
 * (src/fifo.c).
 */
module Calls {
  import opened RingBuffer
  import opened Spsc

  // ---------------------------------------------------------------- the steps of one call

  /** No new call: the steps of the one that is under way, and pushes. */
  predicate WithinCall(step: Step) {
    step.IsrPush? || step.Continue?
  }

  ghost predicate CallSteps(s: State, steps: seq<Step>) {
    ValidRun(s, steps) && forall step <- steps :: WithinCall(step)
  }

  lemma RunOne(s: State, step: Step, rest: seq<Step>)
    requires ValidRing(s.ring) && Enabled(s, step) && ValidRun(Next(s, step), rest)
    ensures ValidRun(s, [step] + rest) && Run(s, [step] + rest) == Run(Next(s, step), rest)
  {
    assert ([step] + rest)[1..] == rest;
  }

  lemma FirstOfBoth(first: seq<Step>, second: seq<Step>)
    requires first != []
    ensures first + second != [] && (first + second)[0] == first[0] && (first + second)[1..] == first[1..] + second
  {}

  lemma {:induction false} RunThen(s: State, first: seq<Step>, second: seq<Step>)
    requires ValidRun(s, first) && ValidRun(Run(s, first), second)
    ensures ValidRun(s, first + second) && Run(s, first + second) == Run(Run(s, first), second)
    decreases |first|
  {
    if first == [] {
      assert first + second == second;
    } else {
      FirstOfBoth(first, second);
      RunThen(Next(s, first[0]), first[1..], second);
    }
  }

  lemma CallOne(s: State, step: Step, rest: seq<Step>)
    requires ValidRing(s.ring) && Enabled(s, step) && WithinCall(step) && CallSteps(Next(s, step), rest)
    ensures CallSteps(s, [step] + rest) && Run(s, [step] + rest) == Run(Next(s, step), rest)
  {
    RunOne(s, step, rest);
  }

  lemma CallThen(s: State, first: seq<Step>, second: seq<Step>)
    requires CallSteps(s, first) && CallSteps(Run(s, first), second)
    ensures CallSteps(s, first + second) && Run(s, first + second) == Run(Run(s, first), second)
  {
    RunThen(s, first, second);
  }

  // ---------------------------------------------------------------- how long a call takes

  /** Memory accesses of the consumer. */
  function Accesses(steps: seq<Step>): nat {
    if steps == [] then 0 else (if steps[0].Continue? then 1 else 0) + Accesses(steps[1..])
  }

  /** Those left before the call in progress returns: exactly for a pop or clear, at most for a read. */
  ghost function AccessesLeft(s: State): int
    requires ValidRing(s.ring)
  {
    match s.pc
    case Outside => 0
    case PopTest(_, wasEmpty) => if wasEmpty then 1 else s.ring.elemSize + 2
    case PopCopy(copied) => s.ring.elemSize - |copied| + 1
    case ClearTest(_, wasEmpty) => if wasEmpty then 1 else 3
    case ClearLoad => 2
    case ClearStore(_, _) => 1
    case ReadFirstLen(_, _) => Capacity(s.ring) + 3
    case ReadSecondLen(_, _) => Capacity(s.ring) + 2
    case ReadCopy(_, _, count, out) => count - |out| + 1
  }

  lemma AccessesLeftIsExact(s: State)
    requires Inv(s)
    ensures AccessesLeft(s) >= 0 && (AccessesLeft(s) == 0 <==> s.pc.Outside?)
  {}

  lemma PushTakesNone(s: State, e: Elem)
    requires Inv(s) && |e| == s.ring.elemSize
    ensures var s' := Next(s, IsrPush(e));
            && Inv(s') && s'.pc == s.pc && s'.removed == s.removed && s.pushed <= s'.pushed
            && AccessesLeft(s') == AccessesLeft(s)
  {
    InvStep(s, IsrPush(e));
    if !Full(s.ring) { PushedSlots(s.ring, e); }
  }

  lemma PopTakesOne(s: State)
    requires Inv(s) && (s.pc.PopTest? || s.pc.PopCopy?)
    ensures ValidRing(Next(s, Continue).ring) && AccessesLeft(Next(s, Continue)) == AccessesLeft(s) - 1
  {
    InvStep(s, Continue);
    if s.pc.PopCopy? { OldestAtTail(s.ring); } else { TestAnswers(s); }
  }

  lemma ClearTakesOne(s: State)
    requires Inv(s) && (s.pc.ClearTest? || s.pc.ClearLoad? || s.pc.ClearStore?)
    ensures ValidRing(Next(s, Continue).ring) && AccessesLeft(Next(s, Continue)) == AccessesLeft(s) - 1
  {
    InvStep(s, Continue);
  }

  lemma ReadTakesOne(s: State)
    requires Inv(s) && InRead(s.pc)
    ensures ValidRing(Next(s, Continue).ring) && AccessesLeft(Next(s, Continue)) < AccessesLeft(s)
  {
    EmptyAndFull(s.ring);
  }

  lemma ContinueTakesOne(s: State)
    requires Inv(s) && !s.pc.Outside?
    ensures Inv(Next(s, Continue)) && Next(s, Continue).pushed == s.pushed
    ensures AccessesLeft(Next(s, Continue)) < AccessesLeft(s)
    ensures !InRead(s.pc) ==> AccessesLeft(Next(s, Continue)) == AccessesLeft(s) - 1
  {
    InvStep(s, Continue);
    if InRead(s.pc) {
      ReadTakesOne(s);
    } else if s.pc.PopTest? || s.pc.PopCopy? {
      PopTakesOne(s);
    } else {
      ClearTakesOne(s);
    }
  }

  /** A call that nothing interrupts any more returns. */
  lemma {:induction false} CallReturns(s: State) returns (steps: seq<Step>)
    requires Inv(s)
    ensures CallSteps(s, steps) && Run(s, steps).pc.Outside?
    decreases AccessesLeft(s)
  {
    AccessesLeftIsExact(s);
    if s.pc.Outside? {
      steps := [];
    } else {
      ContinueTakesOne(s);
      AccessesLeftIsExact(Next(s, Continue));
      var rest := CallReturns(Next(s, Continue));
      CallOne(s, Continue, rest);
      steps := [Continue] + rest;
    }
  }

  // ---------------------------------------------------------------- a pop

  /** The oldest element, if there is one. */
  ghost function Oldest(r: Ring): seq<Elem>
    requires ValidRing(r)
  {
    if Elems(r) == [] then [] else [Elems(r)[0]]
  }

  /** A pop that was called in s has come to t. */
  ghost predicate FromPop(s: State, t: State)
    requires ValidRing(s.ring)
  {
    && Inv(t) && s.pushed <= t.pushed
    && match t.pc
       case PopTest(_, wasEmpty) => wasEmpty == (Elems(s.ring) == []) && t.removed == s.removed
       case PopCopy(_) => Elems(s.ring) != [] && t.removed == s.removed
       case Outside => t.removed == s.removed + Oldest(s.ring)
       case _ => false
  }

  lemma FromPopContinue(s: State, t: State)
    requires Inv(s) && FromPop(s, t) && !t.pc.Outside?
    ensures FromPop(s, Next(t, Continue))
  {
    ContinueTakesOne(t);
    if t.pc.PopTest? {
      TestAnswers(t);
      assert s.removed + [] == s.removed;
    } else if |t.pc.copied| == t.ring.elemSize {
      FinishPop(t);
      SameOldest(s, t);
    }
  }

  /** Nothing was removed and more was pushed: the oldest element is the same. */
  lemma SameOldest(s: State, t: State)
    requires Inv(s) && Inv(t) && s.pushed <= t.pushed && t.removed == s.removed && Elems(s.ring) != []
    ensures Elems(t.ring) != [] && Elems(t.ring)[0] == Elems(s.ring)[0]
  {
    assert t.pushed[|s.removed|] == s.pushed[|s.removed|];
  }

  lemma {:induction false} FromPopRun(s: State, t: State, steps: seq<Step>)
    requires Inv(s) && FromPop(s, t) && CallSteps(t, steps)
    ensures FromPop(s, Run(t, steps))
    ensures Accesses(steps) + AccessesLeft(Run(t, steps)) == AccessesLeft(t)
    decreases |steps|
  {
    if steps != [] {
      assert WithinCall(steps[0]) && Enabled(t, steps[0]);
      if steps[0].IsrPush? {
        PushTakesNone(t, steps[0].e);
      } else {
        FromPopContinue(s, t);
        ContinueTakesOne(t);
      }
      FromPopRun(s, Next(t, steps[0]), steps[1..]);
    }
  }

  /** Accesses of a pop, and of a clear. */
  ghost function PopAccesses(r: Ring): nat
    requires ValidRing(r)
  {
    if Elems(r) == [] then 1 else r.elemSize + 2
  }

  ghost function ClearAccesses(r: Ring): nat
    requires ValidRing(r)
  {
    if Elems(r) == [] then 1 else 3
  }

  /**
   * Whatever is pushed inside it, a pop returns exactly after its test, or after that, one access for each byte
   * and its store; it has then removed exactly the element that was the oldest at the call, if there was one,
   * and nothing before.
   */
  lemma PopRemovesOldest(s: State, steps: seq<Step>)
    requires Inv(s) && s.pc.Outside? && CallSteps(Next(s, StartPop), steps)
    ensures var t := Run(Next(s, StartPop), steps);
            && Accesses(steps) <= PopAccesses(s.ring)
            && (t.pc.Outside? <==> Accesses(steps) == PopAccesses(s.ring))
            && t.removed == s.removed + (if t.pc.Outside? then Oldest(s.ring) else [])
  {
    InvStep(s, StartPop);
    FromPopRun(s, Next(s, StartPop), steps);
    AccessesLeftIsExact(Run(Next(s, StartPop), steps));
    assert s.removed + [] == s.removed;
  }

  // ---------------------------------------------------------------- a clear

  /** A clear that was called in s has come to t. */
  ghost predicate FromClear(s: State, t: State)
    requires ValidRing(s.ring)
  {
    && Inv(t) && s.pushed <= t.pushed
    && match t.pc
       case ClearTest(_, wasEmpty) => wasEmpty == (Elems(s.ring) == []) && t.removed == s.removed
       case ClearLoad => Elems(s.ring) != [] && t.removed == s.removed
       case ClearStore(_, mark) => Elems(s.ring) != [] && t.removed == s.removed && |s.pushed| <= mark
       case Outside => if Elems(s.ring) == [] then t.removed == s.removed else s.pushed <= t.removed
       case _ => false
  }

  lemma FromClearContinue(s: State, t: State)
    requires Inv(s) && FromClear(s, t) && !t.pc.Outside?
    ensures FromClear(s, Next(t, Continue))
  {
    ContinueTakesOne(t);
    if t.pc.ClearTest? {
      TestAnswers(t);
    } else if t.pc.ClearStore? {
      FinishClear(t);
    }
  }

  lemma {:induction false} FromClearRun(s: State, t: State, steps: seq<Step>)
    requires Inv(s) && FromClear(s, t) && CallSteps(t, steps)
    ensures FromClear(s, Run(t, steps))
    ensures Accesses(steps) + AccessesLeft(Run(t, steps)) == AccessesLeft(t)
    decreases |steps|
  {
    if steps != [] {
      assert WithinCall(steps[0]) && Enabled(t, steps[0]);
      if steps[0].IsrPush? {
        PushTakesNone(t, steps[0].e);
      } else {
        FromClearContinue(s, t);
        ContinueTakesOne(t);
      }
      FromClearRun(s, Next(t, steps[0]), steps[1..]);
    }
  }

  /**
   * Whatever is pushed inside it, a clear returns exactly after its test, or after that, its load of head and its
   * store; if there was anything in the queue at the call, it has then removed at least all of that, and nothing
   * before.
   */
  lemma ClearRemovesAll(s: State, steps: seq<Step>)
    requires Inv(s) && s.pc.Outside? && CallSteps(Next(s, StartClear), steps)
    ensures var t := Run(Next(s, StartClear), steps);
            && Accesses(steps) <= ClearAccesses(s.ring)
            && (t.pc.Outside? <==> Accesses(steps) == ClearAccesses(s.ring))
            && (if t.pc.Outside? && Elems(s.ring) != [] then s.removed + Elems(s.ring) <= t.removed <= t.pushed
                else t.removed == s.removed)
  {
    InvStep(s, StartClear);
    FromClearRun(s, Next(s, StartClear), steps);
    AccessesLeftIsExact(Run(Next(s, StartClear), steps));
  }

  // ---------------------------------------------------------------- a read

  /** A read returns only when it has handed out all it settled on, and it removes nothing. */
  lemma ReadIsComplete(s: State)
    requires Inv(s) && InRead(s.pc)
    ensures Next(s, Continue).removed == s.removed
    ensures Next(s, Continue).pc.Outside? <==> s.pc.ReadCopy? && |s.pc.out| == s.pc.count
  {}

  ghost predicate FromReadCall(s: State, t: State) {
    Inv(t) && (InRead(t.pc) || t.pc.Outside?) && t.removed == s.removed
  }

  lemma {:induction false} FromReadCallRun(s: State, t: State, steps: seq<Step>)
    requires FromReadCall(s, t) && CallSteps(t, steps)
    ensures FromReadCall(s, Run(t, steps))
    ensures Accesses(steps) + AccessesLeft(Run(t, steps)) <= AccessesLeft(t)
    decreases |steps|
  {
    if steps != [] {
      assert WithinCall(steps[0]) && Enabled(t, steps[0]);
      if steps[0].IsrPush? {
        PushTakesNone(t, steps[0].e);
      } else {
        ReadIsComplete(t);
        ContinueTakesOne(t);
      }
      FromReadCallRun(s, Next(t, steps[0]), steps[1..]);
    }
  }

  /** Whatever is pushed inside it, a read removes nothing and returns within its tests and one access an element. */
  lemma ReadsAreBounded(s: State, len: nat, steps: seq<Step>)
    requires Inv(s) && s.pc.Outside? && len >= 1 && CallSteps(Next(s, StartRead(len)), steps)
    ensures var t := Run(Next(s, StartRead(len)), steps);
            t.removed == s.removed && Accesses(steps) <= Capacity(s.ring) + 3
  {
    InvStep(s, StartRead(len));
    FromReadCallRun(s, Next(s, StartRead(len)), steps);
    AccessesLeftIsExact(Run(Next(s, StartRead(len)), steps));
  }
}
