/** src/fifo.c: the ring buffer, working in place on a byte array. */
module Fifo {
  import opened Bytes
  import opened RingBuffer

  /** SIZE_MAX of the 32-bit target. */
  const SIZE_MAX: nat := 0xFFFF_FFFF

  type SizeT = x: nat | x <= SIZE_MAX

  datatype FifoErr = FifoOk | FifoInternal | FifoBadParam | FifoBufferEmpty | FifoBufferFull

  // ---------------------------------------------------------------- sizing

  /** An arithmetic result stored in a size_t. */
  function Wrapped(x: nat, sizeMax: nat): nat {
    x % (sizeMax + 1)
  }

  /** The checks of _adi_fifo_Init and fifo_init_buf, in their order. Only the last product can wrap around. */
  predicate InitAccepts(len: nat, elemSize: nat, sizeMax: nat) {
    && len != sizeMax && elemSize != 0
    && len + 1 <= sizeMax / elemSize
    && (len + 1) * elemSize >= Wrapped(2 * elemSize, sizeMax)
  }

  lemma ProductOrder(a: nat, b: nat, c: nat)
    requires a <= b
    ensures a * c <= b * c
  {
    assert b * c - a * c == (b - a) * c;
  }

  lemma DivisionGuard(a: nat, b: nat, m: nat)
    requires b >= 1
    ensures a <= m / b <==> a * b <= m
  {
    var (q, r) := (m / b, m % b);
    assert m == q * b + r;
    if a <= q { ProductOrder(a, q, b); } else { ProductOrder(q + 1, a, b); }
  }

  lemma WrappedTwice(elemSize: nat, sizeMax: nat)
    requires elemSize <= sizeMax
    ensures Wrapped(2 * elemSize, sizeMax)
         == if 2 * elemSize <= sizeMax then 2 * elemSize else 2 * elemSize - (sizeMax + 1)
  {
    WrapsOnce(2 * elemSize, sizeMax + 1);
  }

  lemma WrapsOnce(x: nat, m: nat)
    requires x < 2 * m
    ensures x % m == if x < m then x else x - m
  {
    var (q, r) := (x / m, x % m);
    assert x == q * m + r;
    if q >= 2 { ProductOrder(2, q, m); }
    assert q == 0 || q == 1;
  }

  /** No index computation of an accepted queue wraps around: see NextSlot and LenInBytes. */
  predicate FitsSizeT(len: nat, elemSize: nat, sizeMax: nat) {
    elemSize >= 1 && (len + 1) * elemSize <= sizeMax
  }

  /**
   * Init accepts exactly the sizes whose buffer does not wrap around and that have room for an element,
   * and, because twice the element size wraps around, every capacity of zero with an element size above
   * half of SIZE_MAX.
   */
  lemma SizingIsExact(len: nat, elemSize: nat, sizeMax: nat)
    requires len <= sizeMax && elemSize <= sizeMax
    ensures InitAccepts(len, elemSize, sizeMax)
        <==> FitsSizeT(len, elemSize, sizeMax) && (len >= 1 || 2 * elemSize > sizeMax)
  {
    if elemSize >= 1 {
      DivisionGuard(len + 1, elemSize, sizeMax);
      WrappedTwice(elemSize, sizeMax);
      if len >= 1 { ProductOrder(2, len + 1, elemSize); }
      if len == sizeMax { ProductOrder(1, elemSize, len + 1); }
    }
  }

  /** A queue without room for an element is refused only if its element size is small. */
  lemma EmptyCapacityIsAccepted()
    ensures InitAccepts(0, 0x8000_0000, SIZE_MAX) && InitAccepts(0, SIZE_MAX, SIZE_MAX)
    ensures !InitAccepts(0, 0x7FFF_FFFF, SIZE_MAX) && !InitAccepts(0, 1, SIZE_MAX)
  {
    SizingIsExact(0, 0x8000_0000, SIZE_MAX);
    SizingIsExact(0, SIZE_MAX, SIZE_MAX);
    SizingIsExact(0, 0x7FFF_FFFF, SIZE_MAX);
    SizingIsExact(0, 1, SIZE_MAX);
  }

  // ---------------------------------------------------------------- the queue

  /** memcpy between different arrays. */
  method Memcpy(dst: array<Byte>, at: nat, src: array<Byte>, from: nat, n: nat)
    requires dst != src && at + n <= dst.Length && from + n <= src.Length
    modifies dst
    ensures Copied(dst[..], at, src[..], from, n)
    ensures forall i :: 0 <= i < at || at + n <= i < dst.Length ==> dst[i] == old(dst[i])
  {
    forall i | 0 <= i < n {
      dst[at + i] := src[from + i];
    }
  }

  /** _adi_fifo_Init: the queue, or why there is none. Allocation is taken to succeed. */
  method Init(len: SizeT, elemSize: SizeT) returns (err: FifoErr, queue: Queue?)
    ensures err == if FitsSizeT(len, elemSize, SIZE_MAX) && (len >= 1 || 2 * elemSize > SIZE_MAX) then FifoOk
                   else FifoBadParam
    ensures (queue != null) == (err == FifoOk)
    ensures queue != null ==>
              && fresh(queue) && fresh(queue.buf) && queue.Valid()
              && Capacity(queue.View()) == len && queue.elemSize == elemSize && queue.Contents() == []
  {
    SizingIsExact(len, elemSize, SIZE_MAX);
    if len == SIZE_MAX || elemSize == 0 {
      return FifoBadParam, null;
    }
    var bufLen: SizeT := len + 1;
    if bufLen > SIZE_MAX / elemSize {
      return FifoBadParam, null;
    }
    DivisionGuard(bufLen, elemSize, SIZE_MAX);
    var bufSize: SizeT := bufLen * elemSize;
    if bufSize < Wrapped(2 * elemSize, SIZE_MAX) {
      return FifoBadParam, null;
    }
    OffsetIsProduct(elemSize, bufLen);
    queue := new Queue(bufSize, elemSize, bufLen);
    err := FifoOk;
  }

  class Queue {
    const buf: array<Byte>
    const bufSize: SizeT
    const elemSize: SizeT
    var head: SizeT
    var tail: SizeT

    ghost function View(): Ring
      reads this, buf
    {
      Ring(buf[..], elemSize, head, tail)
    }

    ghost predicate Valid()
      reads this, buf
    {
      bufSize == buf.Length && ValidRing(View())
    }

    ghost function Contents(): seq<Elem>
      reads this, buf
      requires Valid()
    {
      Elems(View())
    }

    /** fifo_init_buf. */
    constructor (size: SizeT, elem: SizeT, ghost slots: nat)
      requires elem >= 1 && slots >= 1 && size == Offset(elem, slots)
      ensures Valid() && fresh(buf)
      ensures bufSize == size && elemSize == elem && Contents() == []
      ensures Capacity(View()) == slots - 1
    {
      buf := new Byte[size];
      bufSize, elemSize := size, elem;
      head, tail := 0, 0;
      new;
      SlotIs(elem, 0, 0);
      SlotIs(elem, size, slots);
      EmptyAndFull(View());
    }

    /** The macro NEXT_IDX, whose sum stays in a size_t. */
    method Next(idx: SizeT) returns (next: SizeT)
      requires ValidRing(View()) && bufSize == buf.Length
      requires idx < bufSize && Aligned(elemSize, idx)
      ensures next == NextIdx(View(), idx)
    {
      OffsetOrder(elemSize, SlotOf(elemSize, idx), Slots(View()));
      NextSlot(View(), idx, SlotOf(elemSize, idx));
      var sum: SizeT := idx + elemSize;
      return sum % bufSize;
    }

    method IsEmpty() returns (empty: bool)
      requires Valid()
      ensures empty <==> Contents() == []
      ensures empty <==> Empty(View())
    {
      EmptyAndFull(View());
      return head == tail;
    }

    method IsFull() returns (full: bool)
      requires Valid()
      ensures full <==> |Contents()| == Capacity(View())
      ensures full <==> Full(View())
    {
      EmptyAndFull(View());
      var next := Next(head);
      return next == tail;
    }

    method CapacityOf() returns (capacity: SizeT)
      requires Valid()
      ensures capacity == Capacity(View())
    {
      SlotFacts(View());
      OffsetQuotient(elemSize, Slots(View()));
      return bufSize / elemSize - 1;
    }

    method Len() returns (len: SizeT)
      requires Valid()
      ensures len == |Contents()|
    {
      LenInBytes(View());
      if head >= tail {
        return (head - tail) / elemSize;
      } else {
        var sum: SizeT := bufSize - tail + head;
        return sum / elemSize;
      }
    }

    method StoreAtHead(data: array<Byte>)
      requires Valid() && data != buf && data.Length >= elemSize
      modifies `head, buf
      ensures Valid() && View() == Pushed(old(View()), data[..elemSize])
    {
      ghost var after := Pushed(View(), data[..elemSize]);
      HeadRoom(View());
      Memcpy(buf, head, data, 0, elemSize);
      assert buf[..] == after.buf;
      head := Next(head);
      assert View() == after;
    }

    method Push(data: array<Byte>) returns (err: FifoErr)
      requires Valid() && data != buf && data.Length >= elemSize
      modifies `head, buf
      ensures Valid() && Capacity(View()) == old(Capacity(View()))
      ensures err == if |old(Contents())| == old(Capacity(View())) then FifoBufferFull else FifoOk
      ensures Contents() == old(Contents()) + (if err == FifoOk then [data[..elemSize]] else [])
    {
      var full := IsFull();
      if full {
        return FifoBufferFull;
      }
      PushAppends(View(), data[..elemSize]);
      StoreAtHead(data);
      return FifoOk;
    }

    method Read(data: array<Byte>) returns (err: FifoErr)
      requires Valid() && data != buf && data.Length >= elemSize
      modifies data
      ensures View() == old(View())
      ensures err == if Contents() == [] then FifoBufferEmpty else FifoOk
      ensures err == FifoOk ==> data[..elemSize] == Contents()[0] && data[elemSize..] == old(data[elemSize..])
      ensures err != FifoOk ==> data[..] == old(data[..])
    {
      var empty := IsEmpty();
      if empty {
        return FifoBufferEmpty;
      }
      OldestAtTail(View());
      Memcpy(data, 0, buf, tail, elemSize);
      return FifoOk;
    }

    /** The advance of the tail that ends every pop. */
    method AdvanceTail()
      requires Valid()
      modifies `tail
      ensures Valid() && View() == Advanced(old(View()))
    {
      ghost var after := Advanced(View());
      tail := Next(tail);
      assert View() == after;
    }

    /**
     * _adi_fifo_Pop. With a destination it removes the oldest element or reports an empty queue;
     * with NULL it does not look whether there is an element.
     */
    method Pop(data: array?<Byte>) returns (err: FifoErr)
      requires Valid() && (data != null ==> data != buf && data.Length >= elemSize)
      modifies `tail, data
      ensures Valid() && Capacity(View()) == old(Capacity(View()))
      ensures err == if data != null && old(Contents()) == [] then FifoBufferEmpty else FifoOk
      ensures old(Contents()) != [] ==> Contents() == old(Contents())[1..]
      ensures old(Contents()) != [] && data != null ==>
                data[..elemSize] == old(Contents())[0] && data[elemSize..] == old(data[elemSize..])
      ensures old(Contents()) == [] && data != null ==> View() == old(View()) && data[..] == old(data[..])
      ensures old(Contents()) == [] && data == null ==> |Contents()| == Capacity(View())
    {
      err := FifoOk;
      if data != null {
        err := Read(data);
      }
      if err == FifoOk {
        ghost var before := View();
        EmptyAndFull(before);
        if Empty(before) { AdvanceOnEmptyFills(before); } else { AdvanceRemovesOldest(before); }
        AdvanceTail();
      }
    }

    method Clear() returns (err: FifoErr)
      requires Valid()
      modifies `tail
      ensures Valid() && Capacity(View()) == old(Capacity(View()))
      ensures err == if old(Contents()) == [] then FifoBufferEmpty else FifoOk
      ensures Contents() == []
    {
      var empty := IsEmpty();
      if empty {
        return FifoBufferEmpty;
      }
      tail := head;
      EmptyAndFull(View());
      return FifoOk;
    }

    /** How many bytes of a segment _adi_fifo_ReadN can take from the tail on. */
    method SequentialCount(h: SizeT, t: SizeT) returns (count: SizeT)
      requires Valid() && h == head && t == tail
      ensures HeadSlot(View()) < Slots(View()) && TailSlot(View()) < Slots(View())
      ensures count == SequentialSlots(HeadSlot(View()), TailSlot(View()), Slots(View()))
    {
      SlotFacts(View());
      SequentialInBytes(View());
      OffsetQuotient(elemSize, SequentialSlots(HeadSlot(View()), TailSlot(View()), Slots(View())));
      var bytes: SizeT := if h >= t then h - t else bufSize - t;
      return bytes / elemSize;
    }

    /** _adi_fifo_ReadN: it copies the oldest elements and removes none of them. */
    method ReadN(outBuf: array<Byte>, len: SizeT) returns (err: FifoErr, read: SizeT)
      requires Valid() && outBuf != buf && outBuf.Length >= Offset(elemSize, len)
      modifies outBuf
      ensures View() == old(View())
      ensures err == if len == 0 then FifoBadParam else FifoOk
      ensures read == if len <= |Contents()| then len else |Contents()|
      ensures Offset(elemSize, read) <= outBuf.Length
      ensures forall i :: 0 <= i < read ==> Chunk(outBuf[..], elemSize, i) == Contents()[i]
      ensures forall i :: Offset(elemSize, read) <= i < outBuf.Length ==> outBuf[i] == old(outBuf[i])
    {
      if len == 0 {
        return FifoBadParam, 0;
      }
      var h, t := head, tail;
      var count := len;
      var available := Len();
      if count > available {
        count := Len();
      }
      var first := SequentialCount(h, t);
      if first > count {
        first := count;
      }
      OffsetAtMost(elemSize, count, len);
      CopySegments(outBuf, t, first, count);
      forall i | 0 <= i < count
        ensures Chunk(outBuf[..], elemSize, i) == Contents()[i]
      {
        if i < first {
          ReadFirst(View(), outBuf[..], first, count, i);
        } else {
          ReadSecond(View(), outBuf[..], first, count, i);
        }
      }
      return FifoOk, count;
    }

    /** The two memcpy calls of _adi_fifo_ReadN. */
    method CopySegments(outBuf: array<Byte>, t: SizeT, first: nat, count: nat)
      requires Valid() && outBuf != buf && t == tail
      requires ReadSplit(View(), first, count) && Offset(elemSize, count) <= outBuf.Length
      modifies outBuf
      ensures Copied(outBuf[..], 0, View().buf, t, Offset(elemSize, first))
      ensures Copied(outBuf[..], Offset(elemSize, first), View().buf, 0, Offset(elemSize, count - first))
      ensures forall i :: Offset(elemSize, count) <= i < outBuf.Length ==> outBuf[i] == old(outBuf[i])
    {
      ReadRoom(View(), first, count);
      OffsetIsProduct(elemSize, first);
      OffsetIsProduct(elemSize, count - first);
      Memcpy(outBuf, 0, buf, t, first * elemSize);
      if count > first {
        Memcpy(outBuf, first * elemSize, buf, 0, (count - first) * elemSize);
      }
    }
  }
}
