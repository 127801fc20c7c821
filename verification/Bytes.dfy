/** Bounds-checked byte access (src/core/bytes.h), and the little-endian fields
    every header in the engine is made of.

    A C++ struct that is read by memcpy, edited and appended again is kept here
    as the bytes it occupies: Get reads a field of it and Put overwrites one, so
    "every other byte is copied through" can be said about bytes. */
module Bytes {
  type byte = i: int | 0 <= i < 0x100

  datatype Option<+T> = None | Some(value: T)

  // The size bytes at offset, or None when they do not fit.
  function Slice(data: seq<byte>, offset: nat, size: nat): (slice: Option<seq<byte>>)
    ensures slice.Some? <==> offset + size <= |data|
    ensures slice.Some? ==> |slice.value| == size
  {
    if offset > |data| || |data| - offset < size then None else Some(data[offset..offset + size])
  }

  function Pow256(width: nat): (p: nat)
    ensures p > 0
  {
    if width == 0 then 1 else 0x100 * Pow256(width - 1)
  }

  function FromLe(b: seq<byte>): (v: nat)
  {
    if b == [] then 0 else b[0] + 0x100 * FromLe(b[1..])
  }

  // The low `width` bytes of v: a wider value wraps, as a store does.
  function ToLe(v: nat, width: nat): (b: seq<byte>)
    ensures |b| == width
  {
    if width == 0 then [] else [v % 0x100] + ToLe(v / 0x100, width - 1)
  }

  // Both directions of the little-endian encoding.
  lemma {:induction false} LeRoundTrip(v: nat, width: nat)
    requires v < Pow256(width)
    ensures FromLe(ToLe(v, width)) == v
  {
    if width > 0 {
      LeRoundTrip(v / 0x100, width - 1);
      assert ToLe(v, width)[1..] == ToLe(v / 0x100, width - 1);
    }
  }

  lemma {:induction false} LeBound(b: seq<byte>)
    ensures FromLe(b) < Pow256(|b|)
  {
    if b != [] {
      LeBound(b[1..]);
      assert Pow256(|b|) == 0x100 * Pow256(|b[1..]|);
    }
  }

  lemma ToLeStep(low: byte, high: nat, width: nat)
    ensures ToLe(low + 0x100 * high, width + 1) == [low] + ToLe(high, width)
  {
    assert (low + 0x100 * high) % 0x100 == low && (low + 0x100 * high) / 0x100 == high;
  }

  lemma {:induction false} LeBack(b: seq<byte>)
    ensures ToLe(FromLe(b), |b|) == b
  {
    if b != [] {
      LeBack(b[1..]);
      ToLeStep(b[0], FromLe(b[1..]), |b[1..]|);
    }
  }

  lemma LeInjective(b: seq<byte>)
    ensures FromLe(b) < Pow256(|b|)
    ensures ToLe(FromLe(b), |b|) == b
  {
    LeBound(b);
    LeBack(b);
  }

  lemma Widths()
    ensures Pow256(1) == 0x100 && Pow256(2) == 0x1_0000 && Pow256(4) == 0x1_0000_0000
    ensures Pow256(8) == 0x1_0000_0000_0000_0000
  {
  }

  predicate IsAscii(text: string)
  {
    forall i :: 0 <= i < |text| ==> text[i] <= '~'
  }

  // Text as the source spells it.
  function Ascii(text: string): (b: seq<byte>)
    requires IsAscii(text)
    ensures |b| == |text|
  {
    seq(|text|, i requires 0 <= i < |text| => text[i] as int)
  }

  // A little-endian field of `width` bytes.
  function Get(b: seq<byte>, offset: nat, width: nat): nat
    requires offset + width <= |b|
  {
    FromLe(b[offset..offset + width])
  }

  function Put(b: seq<byte>, offset: nat, v: nat, width: nat): (r: seq<byte>)
    requires offset + width <= |b|
    ensures |r| == |b|
    ensures forall i :: 0 <= i < |b| && !(offset <= i < offset + width) ==> r[i] == b[i]
    ensures r[offset..offset + width] == ToLe(v, width)
  {
    b[..offset] + ToLe(v, width) + b[offset + width..]
  }

  lemma GetPut(b: seq<byte>, offset: nat, v: nat, width: nat)
    requires offset + width <= |b| && v < Pow256(width)
    ensures Get(Put(b, offset, v, width), offset, width) == v
  {
    LeRoundTrip(v, width);
  }

  // A field is untouched by a Put beside it.
  lemma GetPutOther(b: seq<byte>, offset: nat, v: nat, width: nat, at: nat, w: nat)
    requires offset + width <= |b| && at + w <= |b|
    requires at + w <= offset || offset + width <= at
    ensures Get(Put(b, offset, v, width), at, w) == Get(b, at, w)
  {
    assert Put(b, offset, v, width)[at..at + w] == b[at..at + w];
  }

  lemma ConcatAssoc<T>(a: seq<T>, b: seq<T>, c: seq<T>)
    ensures a + (b + c) == (a + b) + c
  {
  }
}
