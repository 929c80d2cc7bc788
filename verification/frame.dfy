/** The frame of src/max22x88_bitbang.c: how one byte becomes 22 line levels. */
module Frame {
  import opened Bytes
  import opened BitbangHelper

  /** HOMEBUS_DATA_BITS + 3 bits, each followed by its off-duty time. */
  const FRAME_BITS: nat := 22

  function FormatByteForHbsTx(value: Bits): bv32 {
    var parity: bv16 := if CalcEvenParityU8(value) then 1 else 0;
    var withParity: bv16 := (value as bv16) | (parity << 8);
    var withStop: bv16 := withParity | (1 << 9);
    StuffByteU32(withStop << 1)
  }

  /**
   * The frame layout by itself: start bit low, eight data bits least significant first, the parity bit,
   * the stop bit high, and a high off-duty level after every one of them.
   */
  function FrameLevel(value: Bits, k: nat): bool
    requires k < FRAME_BITS
  {
    if k % 2 == 1 then true
    else if k == 0 then false
    else if k == 20 then true
    else if k == 18 then Ones(value) % 2 == 1
    else TestBit8(value, k / 2 - 1)
  }

  lemma PreparedBit(value: Bits, parity: bool, j: nat)
    requires j < 11
    ensures TestBit16((((value as bv16) | ((if parity then 1 else 0) << 8)) | (1 << 9)) << 1, j)
         == (if j == 0 then false else if j == 10 then true else if j == 9 then parity else TestBit8(value, j - 1))
  {
    if j == 0 {} else if j == 1 {} else if j == 2 {} else if j == 3 {} else if j == 4 {}
    else if j == 5 {} else if j == 6 {} else if j == 7 {} else if j == 8 {} else if j == 9 {} else {}
  }

  /** The shifts and masks of the transmitter produce exactly the frame layout. */
  lemma FormatLayout(value: Bits, k: nat)
    requires k < FRAME_BITS
    ensures TestBit32(FormatByteForHbsTx(value), k) == FrameLevel(value, k)
  {
    ParityOfOnes(value);
    var parity := CalcEvenParityU8(value);
    var prepared: bv16 := (((value as bv16) | ((if parity then 1 else 0) << 8)) | (1 << 9)) << 1;
    assert FormatByteForHbsTx(value) == StuffByteU32(prepared);
    StuffedBit(prepared, k);
    if k % 2 == 0 { PreparedBit(value, parity, k / 2); }
  }

  function FrameUpTo(value: Bits, n: nat): (levels: seq<bool>)
    requires n <= FRAME_BITS
    ensures |levels| == n
  {
    if n == 0 then [] else FrameUpTo(value, n - 1) + [FrameLevel(value, n - 1)]
  }

  function FrameLevels(value: Bits): (levels: seq<bool>)
    ensures |levels| == FRAME_BITS
  {
    FrameUpTo(value, FRAME_BITS)
  }

  lemma {:induction false} FrameUpToAt(value: Bits, n: nat, k: nat)
    requires k < n <= FRAME_BITS
    ensures FrameUpTo(value, n)[k] == FrameLevel(value, k)
  {
    if k < n - 1 { FrameUpToAt(value, n - 1, k); }
  }

  lemma FrameLevelsAt(value: Bits, k: nat)
    requires k < FRAME_BITS
    ensures FrameLevels(value)[k] == FrameLevel(value, k)
  {
    FrameUpToAt(value, FRAME_BITS, k);
  }

  lemma HighOffduty(value: Bits, k: nat)
    requires k < FRAME_BITS && k % 2 == 1
    ensures FrameLevels(value)[k]
  {
    FrameLevelsAt(value, k);
  }

  /** The levels of one word of data_to_tx, as many as the transmitter takes from it. */
  type WordLevels = levels: seq<bool> | |levels| == FRAME_BITS witness FrameLevels(0)

  function LevelsOfWord(word: bv32): (levels: WordLevels)
    ensures forall k :: 0 <= k < FRAME_BITS ==> levels[k] == TestBit32(word, k)
  {
    seq(FRAME_BITS, k requires 0 <= k < FRAME_BITS => TestBit32(word, k))
  }

  /** The levels of a formatted byte are the frame layout. */
  lemma FormattedLevels(value: Bits)
    ensures LevelsOfWord(FormatByteForHbsTx(value)) == FrameLevels(value)
  {
    forall k | 0 <= k < FRAME_BITS
      ensures LevelsOfWord(FormatByteForHbsTx(value))[k] == FrameLevels(value)[k]
    {
      FormatLayout(value, k);
      FrameLevelsAt(value, k);
    }
  }
}
