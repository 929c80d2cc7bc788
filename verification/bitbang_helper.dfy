/** src/bitbang_helper.c: bit stuffing and the parity table. */
module BitbangHelper {
  import opened Bytes

  predicate TestBit32(word: bv32, k: nat)
    requires k < 32
  {
    word & ((1 as bv32) << k) != 0
  }

  predicate TestBit16(word: bv16, k: nat)
    requires k < 16
  {
    word & ((1 as bv16) << k) != 0
  }

  const HBS_32_BIT_PATTERN: bv32 := 0xAAAA_AAAA

  function StuffByteU32(value: bv16): bv32 {
    var v := value as bv32;
    ((v & (1 << 0)) << 0) |
    ((v & (1 << 1)) << 1) |
    ((v & (1 << 2)) << 2) |
    ((v & (1 << 3)) << 3) |
    ((v & (1 << 4)) << 4) |
    ((v & (1 << 5)) << 5) |
    ((v & (1 << 6)) << 6) |
    ((v & (1 << 7)) << 7) |
    ((v & (1 << 8)) << 8) |
    ((v & (1 << 9)) << 9) |
    ((v & (1 << 10)) << 10) |
    ((v & (1 << 11)) << 11) |
    ((v & (1 << 12)) << 12) |
    ((v & (1 << 13)) << 13) |
    ((v & (1 << 14)) << 14) |
    ((v & (1 << 15)) << 15) |
    HBS_32_BIT_PATTERN
  }

  /** Every odd bit of a stuffed word is the off-duty 1, every even bit is the next bit of the value. */
  lemma StuffedBit(value: bv16, k: nat)
    requires k < 32
    ensures TestBit32(StuffByteU32(value), k) == (k % 2 == 1 || TestBit16(value, k / 2))
  {
    if k < 16 { StuffedBitLow(value, k); } else { StuffedBitHigh(value, k); }
  }

  lemma StuffedBitLow(value: bv16, k: nat)
    requires k < 16
    ensures TestBit32(StuffByteU32(value), k) == (k % 2 == 1 || TestBit16(value, k / 2))
  {
    if k == 0 {} else if k == 1 {} else if k == 2 {} else if k == 3 {}
    else if k == 4 {} else if k == 5 {} else if k == 6 {} else if k == 7 {}
    else if k == 8 {} else if k == 9 {} else if k == 10 {} else if k == 11 {}
    else if k == 12 {} else if k == 13 {} else if k == 14 {} else if k == 15 {}
  }

  lemma StuffedBitHigh(value: bv16, k: nat)
    requires 16 <= k < 32
    ensures TestBit32(StuffByteU32(value), k) == (k % 2 == 1 || TestBit16(value, k / 2))
  {
    if k == 16 {} else if k == 17 {} else if k == 18 {} else if k == 19 {}
    else if k == 20 {} else if k == 21 {} else if k == 22 {} else if k == 23 {}
    else if k == 24 {} else if k == 25 {} else if k == 26 {} else if k == 27 {}
    else if k == 28 {} else if k == 29 {} else if k == 30 {} else if k == 31 {}
  }

  /** The two distinct rows of the lookup table, named for the parity of their row index. */
  const EVEN_ROW: seq<bool> :=
    [false, true, true, false, true, false, false, true, true, false, false, true, false, true, true, false]
  const ODD_ROW: seq<bool> :=
    [true, false, false, true, false, true, true, false, false, true, true, false, true, false, false, true]

  const PARITY_LOOKUP_TABLE_256: seq<seq<bool>> :=
    [EVEN_ROW, ODD_ROW, ODD_ROW, EVEN_ROW, ODD_ROW, EVEN_ROW, EVEN_ROW, ODD_ROW,
     ODD_ROW, EVEN_ROW, EVEN_ROW, ODD_ROW, EVEN_ROW, ODD_ROW, ODD_ROW, EVEN_ROW]

  /** The table is laid out as in the source, sixteen rows of sixteen entries. */
  function CalcEvenParityU8(value: Bits): bool {
    PARITY_LOOKUP_TABLE_256[(value >> 4) as int][(value & 15) as int]
  }

  function OnesUpTo(b: Bits, i: nat): (ones: nat)
    requires i <= 8
    ensures ones <= i
  {
    if i == 0 then 0 else OnesUpTo(b, i - 1) + Weight(TestBit8(b, i - 1), 1)
  }

  function Ones(b: Bits): nat {
    OnesUpTo(b, 8)
  }

  lemma OnesAsSum(b: Bits)
    ensures Ones(b) == Weight(b & 1 != 0, 1) + Weight(b & 2 != 0, 1) + Weight(b & 4 != 0, 1) + Weight(b & 8 != 0, 1)
                       + Weight(b & 16 != 0, 1) + Weight(b & 32 != 0, 1) + Weight(b & 64 != 0, 1)
                       + Weight(b & 128 != 0, 1)
  {
    assert OnesUpTo(b, 1) == Weight(b & 1 != 0, 1);
    assert OnesUpTo(b, 2) == OnesUpTo(b, 1) + Weight(b & 2 != 0, 1);
    assert OnesUpTo(b, 3) == OnesUpTo(b, 2) + Weight(b & 4 != 0, 1);
    assert OnesUpTo(b, 4) == OnesUpTo(b, 3) + Weight(b & 8 != 0, 1);
    assert OnesUpTo(b, 5) == OnesUpTo(b, 4) + Weight(b & 16 != 0, 1);
    assert OnesUpTo(b, 6) == OnesUpTo(b, 5) + Weight(b & 32 != 0, 1);
    assert OnesUpTo(b, 7) == OnesUpTo(b, 6) + Weight(b & 64 != 0, 1);
    assert OnesUpTo(b, 8) == OnesUpTo(b, 7) + Weight(b & 128 != 0, 1);
  }

  /** Ones of a value below 16. */
  function NibbleOnes(n: Bits): nat {
    Weight(n & 1 != 0, 1) + Weight(n & 2 != 0, 1) + Weight(n & 4 != 0, 1) + Weight(n & 8 != 0, 1)
  }

  lemma NibbleParity(n: Bits)
    requires n < 16
    ensures EVEN_ROW[n as int] == (NibbleOnes(n) % 2 == 1)
    ensures ODD_ROW[n as int] == (NibbleOnes(n) % 2 == 0)
    ensures PARITY_LOOKUP_TABLE_256[n as int] == if NibbleOnes(n) % 2 == 1 then ODD_ROW else EVEN_ROW
  {
    if n == 0 {} else if n == 1 {} else if n == 2 {} else if n == 3 {}
    else if n == 4 {} else if n == 5 {} else if n == 6 {} else if n == 7 {}
    else if n == 8 {} else if n == 9 {} else if n == 10 {} else if n == 11 {}
    else if n == 12 {} else if n == 13 {} else if n == 14 {} else {}
  }

  lemma OnesByNibbles(b: Bits)
    ensures Ones(b) == NibbleOnes(b >> 4) + NibbleOnes(b & 15)
  {
    OnesAsSum(b);
  }

  /** The table holds the parity of the one-bits: the nine bits together have an even number of ones. */
  lemma ParityOfOnes(b: Bits)
    ensures CalcEvenParityU8(b) == (Ones(b) % 2 == 1)
  {
    NibbleParity(b >> 4);
    NibbleParity(b & 15);
    OnesByNibbles(b);
  }

  lemma ZeroesFromOnes(ones: nat, parity: bool)
    requires ones <= 8 && parity == (ones % 2 == 1)
    ensures ((8 - ones) + (if parity then 0 else 1)) % 2 == 1
  {}

  /**
   * The header promises an even number of zeroes among the eight bits and the returned one;
   * the table gives an odd number for every byte.
   */
  lemma ZeroesAreAlwaysOdd(b: Bits)
    ensures ((8 - Ones(b)) + (if CalcEvenParityU8(b) then 0 else 1)) % 2 == 1
  {
    ParityOfOnes(b);
    ZeroesFromOnes(Ones(b), CalcEvenParityU8(b));
  }
}
