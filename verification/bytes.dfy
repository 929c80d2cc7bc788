/** The C byte type, as a number and as eight bits, and the one option type used throughout. */
module Bytes {

  /** uint8_t as a value. */
  type Byte = x: int | 0 <= x < 256

  /** uint8_t where the driver works on its bits. */
  type Bits = bv8

  datatype Option<+T> = None | Some(value: T)

  function Weight(c: bool, n: nat): nat {
    if c then n else 0
  }

  predicate TestBit8(b: Bits, k: nat)
    requires k < 8
  {
    b & ((1 as bv8) << k) != 0
  }

  function Pow2(i: nat): nat {
    if i == 0 then 1 else 2 * Pow2(i - 1)
  }

  function ValueUpTo(bits: Bits, i: nat): nat
    requires i <= 8
  {
    if i == 0 then 0 else ValueUpTo(bits, i - 1) + Weight(TestBit8(bits, i - 1), Pow2(i - 1))
  }

  /** The value of eight bits is the sum of the weights of the set ones. */
  lemma ByteValue(y: Bits)
    ensures ValueUpTo(y, 8) == y as int
  {
    assert Pow2(1) == 2 && Pow2(2) == 4 && Pow2(3) == 8 && Pow2(4) == 16;
    assert Pow2(5) == 32 && Pow2(6) == 64 && Pow2(7) == 128;
    assert ValueUpTo(y, 1) == Weight(y & 1 != 0, 1);
    assert ValueUpTo(y, 2) == ValueUpTo(y, 1) + Weight(y & 2 != 0, 2);
    assert ValueUpTo(y, 3) == ValueUpTo(y, 2) + Weight(y & 4 != 0, 4);
    assert ValueUpTo(y, 4) == ValueUpTo(y, 3) + Weight(y & 8 != 0, 8);
    assert ValueUpTo(y, 5) == ValueUpTo(y, 4) + Weight(y & 16 != 0, 16);
    assert ValueUpTo(y, 6) == ValueUpTo(y, 5) + Weight(y & 32 != 0, 32);
    assert ValueUpTo(y, 7) == ValueUpTo(y, 6) + Weight(y & 64 != 0, 64);
    assert ValueUpTo(y, 8) == ValueUpTo(y, 7) + Weight(y & 128 != 0, 128);
    SumOfBits(y);
  }

  lemma SumOfBits(y: Bits)
    ensures y as int == Weight(y & 1 != 0, 1) + Weight(y & 2 != 0, 2) + Weight(y & 4 != 0, 4) + Weight(y & 8 != 0, 8)
                        + Weight(y & 16 != 0, 16) + Weight(y & 32 != 0, 32) + Weight(y & 64 != 0, 64)
                        + Weight(y & 128 != 0, 128)
  {}

  function AsByte(bits: Bits): Byte {
    ByteValue(bits);
    ValueUpTo(bits, 8)
  }

  lemma NextBits(b: Bits)
    ensures AsByte(b + 1) == (AsByte(b) + 1) % 256
  {
    ByteValue(b);
    ByteValue(b + 1);
    NextCast(b);
  }

  lemma NextCast(b: Bits)
    ensures (b + 1) as int == (b as int + 1) % 256
  {}

  /** The eight bits of a byte, counted up from zero. */
  function AsBits(value: Byte): (bits: Bits)
    ensures AsByte(bits) == value
  {
    ByteValue(0);
    if value == 0 then 0
    else
      var previous := AsBits(value - 1);
      NextBits(previous);
      previous + 1
  }

  /** Storing a size_t in a uint8_t. */
  function Truncate8(n: nat): Byte {
    n % 256
  }
}
