/** The transmit half of the timer interrupt in src/max22x88_bitbang.c, over a whole transmission. */
module Transmitter {
  import opened Bytes
  import opened Frame

  type BitIndex = k: nat | k < FRAME_BITS

  /** The transmit fields of the context, with data_to_tx as the levels of its words, and the DIN pin. */
  datatype Tx = Tx(words: seq<WordLevels>, byte: nat, bit: BitIndex, collation: bool, lastBit: bool, din: bool)

  predicate Exhausted(t: Tx) {
    t.byte == |t.words|
  }

  /** The next timer interrupt puts a bit on the line. */
  predicate Drives(t: Tx) {
    !Exhausted(t) && !t.collation
  }

  /** `stray` is the level the code would read past the end of data_to_tx. */
  predicate NextLevel(t: Tx, stray: bool) {
    if t.byte < |t.words| then t.words[t.byte][t.bit] else stray
  }

  function Drive(t: Tx, level: bool): Tx {
    var last := t.bit + 1 == FRAME_BITS;
    t.(din := level, lastBit := level, collation := true,
       bit := if last then 0 else t.bit + 1,
       byte := if last then t.byte + 1 else t.byte)
  }

  /**
   * A timer interrupt with words left. Reading back a level other than the last one driven only calls
   * the empty handle_collision, so the sample has no effect.
   */
  function Tick(t: Tx, stray: bool): Tx {
    if t.collation then t.(collation := false) else Drive(t, NextLevel(t, stray))
  }

  function FormatAll(data: seq<Byte>): (words: seq<WordLevels>)
    ensures |words| == |data|
    ensures forall i :: 0 <= i < |data| ==> words[i] == FrameLevels(AsBits(data[i]))
  {
    seq(|data|, i requires 0 <= i < |data| => FrameLevels(AsBits(data[i])))
  }

  // ---------------------------------------------------------------- levels of whole arrays

  /** The levels of a formatted array, one after the other. */
  predicate LevelAt(words: seq<WordLevels>, i: nat)
    requires i < FRAME_BITS * |words|
  {
    words[i / FRAME_BITS][i % FRAME_BITS]
  }

  function Levels(words: seq<WordLevels>): (levels: seq<bool>)
    ensures |levels| == FRAME_BITS * |words|
    ensures forall i :: 0 <= i < FRAME_BITS * |words| ==> levels[i] == LevelAt(words, i)
  {
    seq(FRAME_BITS * |words|, i requires 0 <= i < FRAME_BITS * |words| => LevelAt(words, i))
  }

  /** Level i of formatted data is that of the frame layout of its byte. */
  lemma FormattedLevel(data: seq<Byte>, i: nat)
    requires i < FRAME_BITS * |data|
    ensures LevelAt(FormatAll(data), i) == FrameLevel(AsBits(data[i / FRAME_BITS]), i % FRAME_BITS)
  {
    FrameLevelsAt(AsBits(data[i / FRAME_BITS]), i % FRAME_BITS);
  }

  // ---------------------------------------------------------------- a whole transmission

  /** The next bit is inside the words, or all of them are done. */
  predicate InRange(t: Tx) {
    t.byte < |t.words| || (Exhausted(t) && t.bit == 0)
  }

  function Position(t: Tx): nat {
    FRAME_BITS * t.byte + t.bit
  }

  function BitsLeft(t: Tx): nat
    requires InRange(t)
  {
    FRAME_BITS * |t.words| - Position(t)
  }

  /** Timer interrupts up to and including the one that finds the words exhausted. */
  function TicksLeft(t: Tx): nat
    requires InRange(t)
  {
    if Exhausted(t) then 1 else 2 * BitsLeft(t) + Weight(t.collation, 1)
  }

  function TickMany(t: Tx, n: nat): Tx
    decreases n
  {
    if n == 0 then t else TickMany(Tick(t, false), n - 1)
  }

  /** The levels n timer interrupts put on the line. */
  function DrivenBy(t: Tx, n: nat): seq<bool>
    decreases n
  {
    if n == 0 then [] else (if Drives(t) then [NextLevel(t, false)] else []) + DrivenBy(Tick(t, false), n - 1)
  }

  lemma {:induction false} OneTickMore(t: Tx, n: nat)
    ensures TickMany(t, n + 1) == Tick(TickMany(t, n), false)
    ensures DrivenBy(t, n + 1)
         == DrivenBy(t, n) + if Drives(TickMany(t, n)) then [NextLevel(TickMany(t, n), false)] else []
    decreases n
  {
    if n > 0 {
      OneTickMore(Tick(t, false), n - 1);
      var first := if Drives(t) then [NextLevel(t, false)] else [];
      var last := if Drives(TickMany(t, n)) then [NextLevel(TickMany(t, n), false)] else [];
      assert first + (DrivenBy(Tick(t, false), n - 1) + last) == (first + DrivenBy(Tick(t, false), n - 1)) + last;
    }
  }

  lemma NextLevelAt(t: Tx, stray: bool)
    requires t.byte < |t.words|
    ensures Position(t) < FRAME_BITS * |t.words|
    ensures NextLevel(t, stray) == LevelAt(t.words, Position(t))
  {
    assert Position(t) / FRAME_BITS == t.byte && Position(t) % FRAME_BITS == t.bit;
  }

  lemma OneTick(t: Tx, stray: bool)
    requires InRange(t) && !Exhausted(t)
    ensures var t' := Tick(t, stray);
            && InRange(t') && t'.words == t.words
            && TicksLeft(t') == TicksLeft(t) - 1
            && Position(t') == Position(t) + Weight(Drives(t), 1)
  {}

  /** The words are exhausted after exactly TicksLeft - 1 interrupts. */
  lemma {:induction false} TicksToTheEnd(t: Tx, n: nat)
    requires InRange(t) && n < TicksLeft(t)
    ensures InRange(TickMany(t, n)) && TickMany(t, n).words == t.words
    ensures Exhausted(TickMany(t, n)) <==> n == TicksLeft(t) - 1
    ensures Position(TickMany(t, n)) == Position(t) + |DrivenBy(t, n)|
    decreases n
  {
    if n > 0 {
      OneTick(t, false);
      TicksToTheEnd(Tick(t, false), n - 1);
    }
  }

  /** The levels continue those of the words at the given position. */
  ghost predicate Continues(levels: seq<bool>, words: seq<WordLevels>, position: nat) {
    && position + |levels| <= FRAME_BITS * |words|
    && forall i :: 0 <= i < |levels| ==> levels[i] == LevelAt(words, position + i)
  }

  lemma ContinuesOneMore(level: bool, levels: seq<bool>, words: seq<WordLevels>, position: nat)
    requires Continues(levels, words, position + 1) && level == LevelAt(words, position)
    ensures Continues([level] + levels, words, position)
  {
    forall i | 0 < i < |levels| + 1
      ensures ([level] + levels)[i] == LevelAt(words, position + i)
    {
      assert ([level] + levels)[i] == levels[i - 1];
    }
  }

  /** The level an interrupt drives, if it does, comes right before those of the interrupts after it. */
  lemma ContinuesOneTick(t: Tx, rest: seq<bool>)
    requires InRange(t) && !Exhausted(t) && Continues(rest, t.words, Position(t) + Weight(Drives(t), 1))
    ensures Continues((if Drives(t) then [NextLevel(t, false)] else []) + rest, t.words, Position(t))
  {
    if Drives(t) {
      NextLevelAt(t, false);
      ContinuesOneMore(NextLevel(t, false), rest, t.words, Position(t));
    } else {
      assert [] + rest == rest;
    }
  }

  lemma {:induction false} DrivenInOrder(t: Tx, n: nat)
    requires InRange(t) && n < TicksLeft(t)
    ensures Continues(DrivenBy(t, n), t.words, Position(t))
    decreases n
  {
    if n > 0 {
      OneTick(t, false);
      DrivenInOrder(Tick(t, false), n - 1);
      ContinuesOneTick(t, DrivenBy(Tick(t, false), n - 1));
    }
  }

  /** The pin, and the level a comparison expects to read back, are the last level driven. */
  lemma {:induction false} PinShowsLastLevel(t: Tx, n: nat)
    requires InRange(t) && n < TicksLeft(t)
    ensures var (t', levels) := (TickMany(t, n), DrivenBy(t, n));
            if levels == [] then t'.din == t.din && t'.lastBit == t.lastBit
            else t'.din == t'.lastBit == levels[|levels| - 1]
    decreases n
  {
    if n > 0 {
      OneTick(t, false);
      PinShowsLastLevel(Tick(t, false), n - 1);
      var first := if Drives(t) then [NextLevel(t, false)] else [];
      assert DrivenBy(t, n) == first + DrivenBy(Tick(t, false), n - 1);
    }
  }

  /** What driving leaves behind: the flag is set and the pin shows the last level. */
  predicate Settled(t: Tx) {
    Exhausted(t) && |t.words| >= 1 ==> t.collation && t.din == LevelAt(t.words, FRAME_BITS * |t.words| - 1)
  }

  lemma {:induction false} TicksSettle(t: Tx, n: nat)
    requires InRange(t) && n < TicksLeft(t) && Settled(t)
    ensures Settled(TickMany(t, n))
    decreases n
  {
    if n > 0 {
      OneTick(t, false);
      NextLevelAt(t, false);
      TicksSettle(Tick(t, false), n - 1);
    }
  }

  /** start_transmission on freshly formatted data. */
  function Start(t: Tx, data: seq<Byte>): Tx {
    t.(words := FormatAll(data), byte := 0, bit := 0)
  }

  /** Interrupts a write of n bytes keeps the main code spinning for. */
  function SpinTicks(n: nat, collation: bool): nat {
    if n == 0 then 1 else 2 * FRAME_BITS * n + Weight(collation, 1)
  }

  /**
   * A write of n bytes drives exactly its 22n levels, in order, and the interrupt that ends the spin is
   * exactly number 44n, or 44n + 1 if the flag was left over from an earlier write.
   */
  lemma ExactTransmission(t: Tx, data: seq<Byte>, n: nat)
    requires n < SpinTicks(|data|, t.collation)
    ensures Exhausted(TickMany(Start(t, data), n)) <==> n == SpinTicks(|data|, t.collation) - 1
    ensures n == SpinTicks(|data|, t.collation) - 1 ==> DrivenBy(Start(t, data), n) == Levels(FormatAll(data))
  {
    TicksToTheEnd(Start(t, data), n);
    DrivenInOrder(Start(t, data), n);
  }

  /** It leaves the flag set and the line high, so every write after the first nonempty one is one tick longer. */
  lemma TransmissionLeaves(t: Tx, data: seq<Byte>, n: nat)
    requires |data| >= 1 && n == SpinTicks(|data|, t.collation) - 1
    ensures TickMany(Start(t, data), n).collation
    ensures TickMany(Start(t, data), n).din
  {
    TicksToTheEnd(Start(t, data), n);
    TicksSettle(Start(t, data), n);
    FormattedLevel(data, FRAME_BITS * |data| - 1);
    assert (FRAME_BITS * |data| - 1) % FRAME_BITS == FRAME_BITS - 1;
  }

  // ---------------------------------------------------------------- one write after the other

  function AfterWrite(t: Tx, data: seq<Byte>): Tx {
    TickMany(Start(t, data), SpinTicks(|data|, t.collation) - 1)
  }

  function AfterWrites(t: Tx, writes: seq<seq<Byte>>): Tx {
    if writes == [] then t else AfterWrite(AfterWrites(t, writes[..|writes| - 1]), writes[|writes| - 1])
  }

  predicate SomeNonempty(writes: seq<seq<Byte>>) {
    writes != [] && (SomeNonempty(writes[..|writes| - 1]) || writes[|writes| - 1] != [])
  }

  lemma WriteLeaves(t: Tx, data: seq<Byte>)
    ensures AfterWrite(t, data).collation == (t.collation || data != [])
    ensures t.din ==> AfterWrite(t, data).din
  {
    if data != [] { TransmissionLeaves(t, data, SpinTicks(|data|, t.collation) - 1); }
  }

  /** The flag left over from initialisation is false; it is set by the first write with data and never cleared. */
  lemma {:induction false} FlagAfterWrites(t: Tx, writes: seq<seq<Byte>>)
    requires !t.collation && t.din
    ensures AfterWrites(t, writes).collation == SomeNonempty(writes)
    ensures AfterWrites(t, writes).din
  {
    if writes != [] {
      FlagAfterWrites(t, writes[..|writes| - 1]);
      WriteLeaves(AfterWrites(t, writes[..|writes| - 1]), writes[|writes| - 1]);
    }
  }

  /** After initialisation, the first write of n >= 1 bytes spins for 44n interrupts, every later one for 44n + 1. */
  lemma OnlyTheFirstWriteIsShort(t: Tx, writes: seq<seq<Byte>>, data: seq<Byte>)
    requires !t.collation && t.din && data != []
    ensures SpinTicks(|data|, AfterWrites(t, writes).collation) == 44 * |data| + (if SomeNonempty(writes) then 1 else 0)
  {
    FlagAfterWrites(t, writes);
  }
}
