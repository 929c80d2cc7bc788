/** The ring buffer of src/fifo.c as a value: bytes, two byte indices, and the elements they delimit. */
module RingBuffer {
  import opened Bytes

  type Elem = seq<Byte>

  datatype Ring = Ring(buf: seq<Byte>, elemSize: nat, head: nat, tail: nat)

  /** NEXT_IDX. */
  function NextIdx(r: Ring, idx: nat): nat
    requires |r.buf| > 0
  {
    (idx + r.elemSize) % |r.buf|
  }

  // ---------------------------------------------------------------- byte indices are slot numbers

  /** The byte index of slot k: k * elemSize, added up so that proofs stay linear. */
  function Offset(e: nat, k: nat): nat {
    if k == 0 then 0 else Offset(e, k - 1) + e
  }

  lemma {:induction false} OffsetIsProduct(e: nat, k: nat)
    ensures Offset(e, k) == k * e
  {
    if k > 0 {
      OffsetIsProduct(e, k - 1);
      assert k * e == (k - 1) * e + e;
    }
  }

  lemma {:induction false} OffsetLess(e: nat, a: nat, b: nat)
    requires a < b
    ensures Offset(e, a) + e <= Offset(e, b)
  {
    if a < b - 1 { OffsetLess(e, a, b - 1); }
  }

  lemma OffsetAtMost(e: nat, a: nat, b: nat)
    requires a <= b
    ensures Offset(e, a) <= Offset(e, b)
  {
    if a < b { OffsetLess(e, a, b); }
  }

  lemma OffsetOrder(e: nat, a: nat, b: nat)
    requires Offset(e, a) < Offset(e, b)
    ensures a < b
  {
    if b < a { OffsetLess(e, b, a); }
  }

  lemma OffsetInjective(e: nat, a: nat, b: nat)
    requires e >= 1 && Offset(e, a) == Offset(e, b)
    ensures a == b
  {
    if a < b { OffsetLess(e, a, b); } else if b < a { OffsetLess(e, b, a); }
  }

  lemma {:induction false} OffsetSum(e: nat, a: nat, b: nat)
    ensures Offset(e, a + b) == Offset(e, a) + Offset(e, b)
  {
    if b > 0 { OffsetSum(e, a, b - 1); }
  }

  ghost predicate Aligned(e: nat, idx: nat) {
    exists k: nat :: Offset(e, k) == idx
  }

  /** Aligned indices are the multiples of the element size. */
  lemma AlignedIsMultiple(e: nat, idx: nat)
    requires e >= 1
    ensures Aligned(e, idx) <==> idx % e == 0
    ensures Aligned(e, idx) ==> SlotOf(e, idx) == idx / e
  {
    if Aligned(e, idx) {
      OffsetIsProduct(e, SlotOf(e, idx));
      ProductInverse(SlotOf(e, idx), e);
    }
    if idx % e == 0 {
      OffsetIsProduct(e, idx / e);
      assert Offset(e, idx / e) == idx;
    }
  }

  lemma ProductLess(a: nat, b: nat, e: nat)
    requires a < b
    ensures a * e + e <= b * e
  {
    OffsetIsProduct(e, a);
    OffsetIsProduct(e, b);
    OffsetLess(e, a, b);
  }

  lemma ProductInverse(k: nat, e: nat)
    requires e >= 1
    ensures (k * e) / e == k && (k * e) % e == 0
  {
    var (q, m) := ((k * e) / e, (k * e) % e);
    assert k * e == q * e + m;
    if q < k { ProductLess(q, k, e); } else if k < q { ProductLess(k, q, e); }
  }

  ghost function SlotOf(e: nat, idx: nat): (k: nat)
    requires Aligned(e, idx)
    ensures Offset(e, k) == idx
  {
    var k: nat :| Offset(e, k) == idx;
    k
  }

  /** The indices are multiples of the element size inside the buffer, which has room for an element. */
  ghost predicate ValidRing(r: Ring) {
    && r.elemSize >= 1
    && |r.buf| >= r.elemSize && Aligned(r.elemSize, |r.buf|)
    && r.head < |r.buf| && Aligned(r.elemSize, r.head)
    && r.tail < |r.buf| && Aligned(r.elemSize, r.tail)
  }

  ghost function Slots(r: Ring): nat
    requires ValidRing(r)
  {
    SlotOf(r.elemSize, |r.buf|)
  }

  ghost function HeadSlot(r: Ring): nat
    requires ValidRing(r)
  {
    SlotOf(r.elemSize, r.head)
  }

  ghost function TailSlot(r: Ring): nat
    requires ValidRing(r)
  {
    SlotOf(r.elemSize, r.tail)
  }

  /** The two indices are slots below the number of slots, of which there is at least one. */
  lemma SlotFacts(r: Ring)
    requires ValidRing(r)
    ensures Slots(r) >= 1
    ensures HeadSlot(r) < Slots(r)
    ensures TailSlot(r) < Slots(r)
  {
    var e := r.elemSize;
    OffsetOrder(e, HeadSlot(r), Slots(r));
    OffsetOrder(e, TailSlot(r), Slots(r));
  }

  lemma SlotIs(e: nat, idx: nat, k: nat)
    requires e >= 1 && idx == Offset(e, k)
    ensures Aligned(e, idx) && SlotOf(e, idx) == k
  {
    OffsetInjective(e, SlotOf(e, idx), k);
  }

  lemma SmallMod(x: nat, m: nat)
    requires 1 <= m && x <= m
    ensures x % m == if x == m then 0 else x
  {}

  function Wrap(k: nat, n: nat): nat
    requires k < 2 * n
  {
    if k < n then k else k - n
  }

  /** Advancing an index moves it to the next slot, back to the first after the last. */
  lemma NextSlot(r: Ring, idx: nat, k: nat)
    requires ValidRing(r) && idx == Offset(r.elemSize, k) && k < Slots(r)
    ensures idx + r.elemSize <= |r.buf|
    ensures NextIdx(r, idx) == Offset(r.elemSize, Wrap(k + 1, Slots(r)))
    ensures NextIdx(r, idx) < |r.buf| && Aligned(r.elemSize, NextIdx(r, idx))
    ensures SlotOf(r.elemSize, NextIdx(r, idx)) == Wrap(k + 1, Slots(r))
  {
    var (e, n) := (r.elemSize, Slots(r));
    OffsetLess(e, k, n);
    if k + 1 < n { OffsetLess(e, k + 1, n); }
    SmallMod(idx + e, |r.buf|);
    SlotIs(e, NextIdx(r, idx), Wrap(k + 1, n));
  }

  // ---------------------------------------------------------------- contents

  /** Elements between two slots, going forward and around. */
  function Distance(tail: nat, head: nat, n: nat): (d: nat)
    requires tail < n && head < n
    ensures d < n
  {
    if head >= tail then head - tail else n - tail + head
  }

  ghost function Count(r: Ring): nat
    requires ValidRing(r)
  {
    SlotFacts(r);
    Distance(TailSlot(r), HeadSlot(r), Slots(r))
  }

  ghost function Capacity(r: Ring): nat
    requires ValidRing(r)
  {
    SlotFacts(r);
    Slots(r) - 1
  }

  ghost function ElemAt(r: Ring, k: nat): (e: Elem)
    requires ValidRing(r) && k < Slots(r)
    ensures |e| == r.elemSize
  {
    OffsetLess(r.elemSize, k, Slots(r));
    r.buf[Offset(r.elemSize, k)..Offset(r.elemSize, k) + r.elemSize]
  }

  /** Oldest first. */
  ghost function Elems(r: Ring): (es: seq<Elem>)
    requires ValidRing(r)
    ensures |es| == Count(r) <= Capacity(r)
    ensures forall i {:trigger es[i]} :: 0 <= i < |es| ==>
              TailSlot(r) + i < 2 * Slots(r) && es[i] == ElemAt(r, Wrap(TailSlot(r) + i, Slots(r)))
  {
    SlotFacts(r);
    seq(Count(r), i requires 0 <= i < Count(r) => ElemAt(r, Wrap(TailSlot(r) + i, Slots(r))))
  }

  predicate Empty(r: Ring) {
    r.head == r.tail
  }

  predicate Full(r: Ring)
    requires |r.buf| > 0
  {
    NextIdx(r, r.head) == r.tail
  }

  /** The two index comparisons decide emptiness and fullness; one slot always stays unused. */
  lemma EmptyAndFull(r: Ring)
    requires ValidRing(r)
    ensures Empty(r) <==> Elems(r) == []
    ensures Full(r) <==> |Elems(r)| == Capacity(r)
  {
    SlotFacts(r);
    NextSlot(r, r.head, HeadSlot(r));
  }

  lemma HeadRoom(r: Ring)
    requires ValidRing(r)
    ensures r.head + r.elemSize <= |r.buf|
  {
    SlotFacts(r);
    OffsetLess(r.elemSize, HeadSlot(r), Slots(r));
  }

  lemma OffsetQuotient(e: nat, k: nat)
    requires e >= 1
    ensures Offset(e, k) / e == k
  {
    OffsetIsProduct(e, k);
    ProductInverse(k, e);
  }

  /** The byte distance between the indices, around the end if need be, is the number of elements. */
  lemma LenInBytes(r: Ring)
    requires ValidRing(r)
    ensures r.head >= r.tail ==> r.head - r.tail == Offset(r.elemSize, Count(r))
    ensures r.head < r.tail ==>
              |r.buf| - r.tail + r.head == Offset(r.elemSize, Count(r)) && |r.buf| - r.tail + r.head < |r.buf|
    ensures Offset(r.elemSize, Count(r)) / r.elemSize == Count(r)
  {
    SlotFacts(r);
    var (h, t, n, e) := (HeadSlot(r), TailSlot(r), Slots(r), r.elemSize);
    if r.head >= r.tail {
      if h < t { OffsetLess(e, h, t); }
      OffsetSum(e, t, h - t);
    } else {
      OffsetOrder(e, h, t);
      OffsetSum(e, t, n - t);
      OffsetSum(e, n - t, h);
    }
    OffsetQuotient(e, Count(r));
  }

  // ---------------------------------------------------------------- operations

  function Stored(buf: seq<Byte>, at: nat, e: Elem): seq<Byte>
    requires at + |e| <= |buf|
  {
    buf[..at] + e + buf[at + |e|..]
  }

  ghost function Pushed(r: Ring, e: Elem): (r': Ring)
    requires ValidRing(r) && |e| == r.elemSize
    ensures ValidRing(r')
  {
    SlotFacts(r);
    NextSlot(r, r.head, HeadSlot(r));
    r.(buf := Stored(r.buf, r.head, e), head := NextIdx(r, r.head))
  }

  ghost function Advanced(r: Ring): (r': Ring)
    requires ValidRing(r)
    ensures ValidRing(r')
  {
    SlotFacts(r);
    NextSlot(r, r.tail, TailSlot(r));
    r.(tail := NextIdx(r, r.tail))
  }

  /** Storing an element at the head changes that slot and no other. */
  lemma StoredSlot(r: Ring, e: Elem, k: nat)
    requires ValidRing(r) && |e| == r.elemSize && k < Slots(r)
    ensures Slots(Pushed(r, e)) == Slots(r)
    ensures ElemAt(Pushed(r, e), k) == if k == HeadSlot(r) then e else ElemAt(r, k)
  {
    HeadRoom(r);
    OffsetLess(r.elemSize, k, Slots(r));
    if k < HeadSlot(r) { OffsetLess(r.elemSize, k, HeadSlot(r)); }
    if k > HeadSlot(r) { OffsetLess(r.elemSize, HeadSlot(r), k); }
    StoredBytes(r.buf, r.head, e, Offset(r.elemSize, k));
  }

  lemma StoredBytes(buf: seq<Byte>, at: nat, e: Elem, from: nat)
    requires at + |e| <= |buf| && from + |e| <= |buf|
    requires from == at || from + |e| <= at || at + |e| <= from
    ensures Stored(buf, at, e)[from..from + |e|] == if from == at then e else buf[from..from + |e|]
  {
    var after := Stored(buf, at, e);
    assert forall i :: 0 <= i < |buf| ==> after[i] == if at <= i < at + |e| then e[i - at] else buf[i];
    if from != at {
      assert after[from..from + |e|] == buf[from..from + |e|];
    }
  }

  lemma PushedSlots(r: Ring, e: Elem)
    requires ValidRing(r) && |e| == r.elemSize
    ensures var r' := Pushed(r, e);
            && Slots(r') == Slots(r) && TailSlot(r') == TailSlot(r)
            && HeadSlot(r) < Slots(r) && HeadSlot(r') == Wrap(HeadSlot(r) + 1, Slots(r))
  {
    SlotFacts(r);
    NextSlot(r, r.head, HeadSlot(r));
  }

  lemma PushedCount(r: Ring, e: Elem)
    requires ValidRing(r) && |e| == r.elemSize && !Full(r)
    ensures Count(Pushed(r, e)) == Count(r) + 1 && Capacity(Pushed(r, e)) == Capacity(r)
    ensures TailSlot(r) < Slots(r) && Count(r) < Slots(r) && HeadSlot(r) == Wrap(TailSlot(r) + Count(r), Slots(r))
  {
    SlotFacts(r);
    PushedSlots(r, e);
    EmptyAndFull(r);
  }

  lemma OldElemKept(r: Ring, e: Elem, i: nat)
    requires ValidRing(r) && |e| == r.elemSize && !Full(r) && i < Count(r)
    ensures Count(Pushed(r, e)) == Count(r) + 1
    ensures Elems(Pushed(r, e))[i] == Elems(r)[i]
  {
    PushedSlots(r, e);
    PushedCount(r, e);
    OldSlotIsNotHead(TailSlot(r), Count(r), i, Slots(r));
    StoredSlot(r, e, Wrap(TailSlot(r) + i, Slots(r)));
  }

  lemma OldSlotIsNotHead(tail: nat, count: nat, i: nat, n: nat)
    requires tail < n && i < count < n
    ensures Wrap(tail + i, n) < n && Wrap(tail + i, n) != Wrap(tail + count, n)
  {}

  lemma NewElemLast(r: Ring, e: Elem)
    requires ValidRing(r) && |e| == r.elemSize && !Full(r)
    ensures Count(Pushed(r, e)) == Count(r) + 1
    ensures Elems(Pushed(r, e))[Count(r)] == e
  {
    PushedSlots(r, e);
    PushedCount(r, e);
    StoredSlot(r, e, HeadSlot(r));
  }

  /** A push on a queue that is not full appends one element. */
  lemma PushAppends(r: Ring, e: Elem)
    requires ValidRing(r) && |e| == r.elemSize && !Full(r)
    ensures Elems(Pushed(r, e)) == Elems(r) + [e]
    ensures Capacity(Pushed(r, e)) == Capacity(r)
  {
    PushedCount(r, e);
    forall i | 0 <= i <= Count(r)
      ensures Elems(Pushed(r, e))[i] == (Elems(r) + [e])[i]
    {
      if i < Count(r) { OldElemKept(r, e, i); } else { NewElemLast(r, e); }
    }
  }

  lemma AdvancedSlots(r: Ring)
    requires ValidRing(r)
    ensures var r' := Advanced(r);
            && Slots(r') == Slots(r) && HeadSlot(r') == HeadSlot(r)
            && TailSlot(r) < Slots(r) && TailSlot(r') == Wrap(TailSlot(r) + 1, Slots(r))
  {
    SlotFacts(r);
    NextSlot(r, r.tail, TailSlot(r));
  }

  /** Advancing the tail of a queue that is not empty removes the oldest element. */
  lemma AdvanceRemovesOldest(r: Ring)
    requires ValidRing(r) && !Empty(r)
    ensures Elems(r) != [] && Elems(Advanced(r)) == Elems(r)[1..]
    ensures Capacity(Advanced(r)) == Capacity(r)
  {
    var r' := Advanced(r);
    SlotFacts(r);
    AdvancedSlots(r);
    EmptyAndFull(r);
    assert Count(r') == Count(r) - 1;
    forall i | 0 <= i < Count(r')
      ensures Elems(r')[i] == Elems(r)[1..][i]
    {
      assert Wrap(TailSlot(r') + i, Slots(r)) == Wrap(TailSlot(r) + (i + 1), Slots(r));
    }
  }

  /** Advancing the tail of an empty queue makes it look full, whatever the capacity and the position. */
  lemma AdvanceOnEmptyFills(r: Ring)
    requires ValidRing(r) && Empty(r)
    ensures |Elems(r)| == 0
    ensures |Elems(Advanced(r))| == Capacity(Advanced(r)) == Capacity(r)
  {
    SlotFacts(r);
    AdvancedSlots(r);
    EmptyAndFull(r);
  }

  /** The oldest element is the bytes at the tail. */
  lemma OldestAtTail(r: Ring)
    requires ValidRing(r) && !Empty(r)
    ensures r.tail + r.elemSize <= |r.buf|
    ensures Elems(r) != [] && Elems(r)[0] == r.buf[r.tail..r.tail + r.elemSize]
  {
    SlotFacts(r);
    EmptyAndFull(r);
    OffsetLess(r.elemSize, TailSlot(r), Slots(r));
  }

  /** Moving the tail to the slot k elements ahead removes the k oldest elements. */
  lemma SkipRemoves(r: Ring, k: nat, idx: nat)
    requires ValidRing(r) && k <= |Elems(r)|
    requires TailSlot(r) + k < 2 * Slots(r)
    requires idx == Offset(r.elemSize, Wrap(TailSlot(r) + k, Slots(r)))
    ensures ValidRing(r.(tail := idx)) && Elems(r.(tail := idx)) == Elems(r)[k..]
  {
    SlotFacts(r);
    var (n, t) := (Slots(r), Wrap(TailSlot(r) + k, Slots(r)));
    SlotIs(r.elemSize, idx, t);
    OffsetLess(r.elemSize, t, n);
    var r' := r.(tail := idx);
    assert Count(r') == Count(r) - k;
    forall i | 0 <= i < Count(r')
      ensures Elems(r')[i] == Elems(r)[k..][i]
    {
      WrapTwice(TailSlot(r), k, i, n);
      assert Elems(r)[k..][i] == Elems(r)[k + i];
    }
  }

  lemma WrapTwice(t: nat, k: nat, i: nat, n: nat)
    requires t < n && k + i < n
    ensures Wrap(t + k, n) + i < 2 * n && t + (k + i) < 2 * n
    ensures Wrap(Wrap(t + k, n) + i, n) == Wrap(t + (k + i), n)
  {}

  // ---------------------------------------------------------------- reading several elements

  /** Slots that lie one after the other from the tail, as _adi_fifo_ReadN counts them. */
  function SequentialSlots(head: nat, tail: nat, n: nat): nat
    requires tail < n && head < n
  {
    if head >= tail then head - tail else n - tail
  }

  /** The slot _adi_fifo_ReadN copies element i from, given the indices it read at its start. */
  function CopiedSlot(head: nat, tail: nat, n: nat, count: nat, i: nat): nat
    requires tail < n && head < n && i < count
  {
    var first := if SequentialSlots(head, tail, n) > count then count else SequentialSlots(head, tail, n);
    if i < first then tail + i else i - first
  }

  lemma SequentialInBytes(r: Ring)
    requires ValidRing(r)
    ensures HeadSlot(r) < Slots(r) && TailSlot(r) < Slots(r)
    ensures (if r.head >= r.tail then r.head - r.tail else |r.buf| - r.tail)
         == Offset(r.elemSize, SequentialSlots(HeadSlot(r), TailSlot(r), Slots(r)))
  {
    SlotFacts(r);
    var (h, t, n, e) := (HeadSlot(r), TailSlot(r), Slots(r), r.elemSize);
    if r.head >= r.tail {
      if h < t { OffsetLess(e, h, t); }
      OffsetSum(e, t, h - t);
    } else {
      OffsetOrder(e, h, t);
      OffsetSum(e, t, n - t);
    }
  }

  /**
   * The two-segment copy takes every element from its own slot exactly when the indices it started
   * from were wrapped, or no more elements are copied than lay in sequence then, or the queue was
   * empty at the start of the buffer. Pushes that arrive after the indices are read can break this.
   */
  lemma CopyIsRightExactlyWhen(head: nat, tail: nat, n: nat, count: nat)
    requires tail < n && head < n && count < n
    ensures (forall i :: 0 <= i < count ==> CopiedSlot(head, tail, n, count, i) == Wrap(tail + i, n))
        <==> head < tail || count <= head - tail || head == 0
  {
    if head >= tail && count > head - tail && head != 0 {
      assert CopiedSlot(head, tail, n, count, head - tail) == 0;
    }
  }

  /** n bytes of dst, starting at `at`, are those of src starting at `from`. */
  ghost predicate Copied(dst: seq<Byte>, at: nat, src: seq<Byte>, from: nat, n: nat) {
    && at + n <= |dst| && from + n <= |src|
    && forall j :: at <= j < at + n ==> dst[j] == src[from + (j - at)]
  }

  /** Element i of a copied segment of n elements, where the copy starts at slot a and its origin at slot b. */
  lemma CopiedElement(dst: seq<Byte>, a: nat, src: seq<Byte>, b: nat, n: nat, e: nat, i: nat)
    requires Copied(dst, Offset(e, a), src, Offset(e, b), Offset(e, n)) && i < n
    ensures Offset(e, a + i) + e <= |dst| && Offset(e, b + i) + e <= |src|
    ensures dst[Offset(e, a + i)..Offset(e, a + i) + e] == src[Offset(e, b + i)..Offset(e, b + i) + e]
  {
    OffsetSum(e, a, i);
    OffsetSum(e, b, i);
    OffsetLess(e, i, n);
  }

  ghost function Chunk(bytes: seq<Byte>, e: nat, i: nat): seq<Byte> {
    if Offset(e, i) + e <= |bytes| then bytes[Offset(e, i)..Offset(e, i) + e] else []
  }

  ghost predicate ReadSplit(r: Ring, first: nat, count: nat)
    requires ValidRing(r)
  {
    && HeadSlot(r) < Slots(r) && TailSlot(r) < Slots(r)
    && count <= Count(r)
    && first == (if SequentialSlots(HeadSlot(r), TailSlot(r), Slots(r)) > count then count
                 else SequentialSlots(HeadSlot(r), TailSlot(r), Slots(r)))
  }

  lemma SegmentRoom(e: nat, from: nat, count: nat, n: nat)
    requires from + count <= n
    ensures Offset(e, from) + Offset(e, count) <= Offset(e, n)
  {
    OffsetSum(e, from, count);
    OffsetAtMost(e, from + count, n);
  }

  /** Both segments lie inside the buffer. */
  lemma ReadRoom(r: Ring, first: nat, count: nat)
    requires ValidRing(r) && ReadSplit(r, first, count)
    ensures r.tail + Offset(r.elemSize, first) <= |r.buf|
    ensures Offset(r.elemSize, count - first) <= |r.buf|
    ensures Offset(r.elemSize, count) == Offset(r.elemSize, first) + Offset(r.elemSize, count - first)
  {
    SegmentRoom(r.elemSize, TailSlot(r), first, Slots(r));
    SegmentRoom(r.elemSize, 0, count - first, Slots(r));
    OffsetSum(r.elemSize, first, count - first);
  }

  lemma ReadSlot(r: Ring, first: nat, count: nat, i: nat)
    requires ValidRing(r) && ReadSplit(r, first, count) && i < count
    ensures (i < first ==> TailSlot(r) + i < Slots(r)) && (i >= first ==> i - first < Slots(r))
    ensures Elems(r)[i] == ElemAt(r, if i < first then TailSlot(r) + i else i - first)
  {
    SlotFacts(r);
    CopyIsRightExactlyWhen(HeadSlot(r), TailSlot(r), Slots(r), count);
    assert CopiedSlot(HeadSlot(r), TailSlot(r), Slots(r), count, i) == Wrap(TailSlot(r) + i, Slots(r));
  }

  /** Element i of the first copied segment is the i-th oldest element. */
  lemma ReadFirst(r: Ring, out: seq<Byte>, first: nat, count: nat, i: nat)
    requires ValidRing(r) && ReadSplit(r, first, count) && i < first
    requires Copied(out, Offset(r.elemSize, 0), r.buf, Offset(r.elemSize, TailSlot(r)), Offset(r.elemSize, first))
    ensures i < count && Chunk(out, r.elemSize, i) == Elems(r)[i]
  {
    ReadSlot(r, first, count, i);
    CopiedElement(out, 0, r.buf, TailSlot(r), first, r.elemSize, i);
  }

  /** Past the first segment, the elements continue with the second one. */
  lemma ReadSecond(r: Ring, out: seq<Byte>, first: nat, count: nat, i: nat)
    requires ValidRing(r) && ReadSplit(r, first, count) && first <= i < count
    requires Copied(out, Offset(r.elemSize, first), r.buf, Offset(r.elemSize, 0), Offset(r.elemSize, count - first))
    ensures Chunk(out, r.elemSize, i) == Elems(r)[i]
  {
    ReadSlot(r, first, count, i);
    CopiedElement(out, first, r.buf, 0, count - first, r.elemSize, i - first);
  }
}
