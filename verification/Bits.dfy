/** The exclusive or of bytes. */
module Bits {
  import opened Bytes

  function XorByte(a: byte, b: byte): byte
  {
    ((a as bv8) ^ (b as bv8)) as int
  }

  lemma BvOfInt(a: int)
    requires 0 <= a < 0x100
    ensures (a as bv8) as int == a
  {
  }

  lemma IntOfBv(x: bv8)
    ensures (x as int) as bv8 == x
  {
  }

  lemma XorTwice(a: bv8, b: bv8)
    ensures (a ^ b) ^ b == a
    ensures a ^ b == b ^ a
  {
  }

  lemma XorByteBits(a: byte, b: byte, x: bv8, y: bv8)
    requires x == a as bv8 && y == b as bv8
    ensures XorByte(a, b) as bv8 == x ^ y
  {
    IntOfBv(x ^ y);
  }

  lemma XorByteBack(a: byte, b: byte)
    ensures XorByte(XorByte(a, b), b) == a
  {
    XorByteBits(a, b, a as bv8, b as bv8);
    XorTwice(a as bv8, b as bv8);
    BvOfInt(a);
  }

  lemma XorByteSwap(a: byte, b: byte)
    ensures XorByte(a, b) == XorByte(b, a)
  {
    XorTwice(a as bv8, b as bv8);
  }

  lemma XorByteApart(x: byte, y: byte, b: byte, c: byte)
    ensures XorByte(x, b) == XorByte(x, c) ==> b == c
    ensures XorByte(x, b) == XorByte(y, b) ==> x == y
  {
    hide XorByte;
    XorByteBack(x, b);
    XorByteBack(y, b);
    XorByteBack(b, x);
    XorByteBack(c, x);
    XorByteSwap(x, b);
    XorByteSwap(x, c);
  }
}
