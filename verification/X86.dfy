/** What the engine asks of an instruction (src/core/x86.cpp:20-59, 114-192).

    Only the byte stores are decoded here: an optional REX prefix, opcode C6 (group 11) or
    88, and a ModRM byte that names memory (Intel 64 SDM Vol. 2A, sections 2.1.3 and 2.2.1). What
    the decoder makes of everything else is a parameter. */
module X86 {
  import opened Bytes

  // ---- Fields of a byte --------------------------------------------------------------

  const MOV_IMMEDIATE := 0xC6
  const MOV_REGISTER := 0x88
  const GROUP_MOV := 0

  predicate IsRex(b: byte) { 0x40 <= b < 0x50 }
  predicate RexX(b: byte) { b / 2 % 2 == 1 }
  predicate RexB(b: byte) { b % 2 == 1 }

  function Mod(modrm: byte): nat { modrm / 64 }
  function Reg(modrm: byte): nat { modrm / 8 % 8 }
  function Rm(modrm: byte): nat { modrm % 8 }

  // The ModRM byte with its reg field cleared.
  function ClearReg(modrm: byte): (r: byte)
    ensures Mod(r) == Mod(modrm) && Rm(r) == Rm(modrm) && Reg(r) == 0
  {
    Mod(modrm) * 64 + Rm(modrm)
  }

  // REX.WRXB: of its four low bits the second lowest extends an index register, the lowest the
  // base register.
  lemma RexIs(w: nat, r: nat, x: nat, b: nat)
    requires w < 2 && r < 2 && x < 2 && b < 2
    ensures IsRex(0x40 + 8 * w + 4 * r + 2 * x + b)
    ensures RexX(0x40 + 8 * w + 4 * r + 2 * x + b) <==> x == 1
    ensures RexB(0x40 + 8 * w + 4 * r + 2 * x + b) <==> b == 1
  {
  }

  // Two's complement of the given width.
  function Signed(v: nat, width: nat): int
  {
    if 2 * v < Pow256(width) then v else v - Pow256(width)
  }

  lemma SignedIs(v: nat, width: nat)
    requires v < Pow256(width)
    ensures Signed(v, width) == v || Signed(v, width) + Pow256(width) == v
    ensures 2 * Signed(v, width) < Pow256(width) && 0 <= 2 * Signed(v, width) + Pow256(width)
  {
  }

  // The ModRM byte of these fields.
  function ModRm(mode: nat, reg: nat, rm: nat): byte
    requires mode < 4 && reg < 8 && rm < 8
  {
    64 * mode + 8 * reg + rm
  }

  // ---- Decoding ----------------------------------------------------------------------

  // What HDE64 reports of one instruction, as far as the engine looks.
  datatype Decoded = Decoded(
    length: nat,
    opcode: byte,
    opcode2: byte,
    modrm: Option<byte>,
    sib: bool,
    displacement: seq<byte>, // none, 1 or 4 bytes
    imm8: Option<byte>,
    rex: Option<byte>,
    otherPrefix: bool)

  type Decoder = seq<byte> -> Option<Decoded>

  // How many bytes behind the ModRM byte belong to the memory operand's SIB byte, and how
  // many to its displacement.
  predicate HasSib(modrm: byte) { Mod(modrm) != 3 && Rm(modrm) == 4 }
  function DisplacementSize(modrm: byte): nat { if Mod(modrm) == 1 then 1 else if Mod(modrm) == 2 then 4 else 0 }

  // The byte stores to [register + displacement], with or without a SIB byte, behind `skip`
  // prefix bytes. Group 11 has no operation but mov.
  predicate IsStoreAt(code: seq<byte>, skip: nat)
  {
    skip + 2 <= |code| && (code[skip] == MOV_IMMEDIATE || code[skip] == MOV_REGISTER) &&
    (Mod(code[skip + 1]) == 1 || Mod(code[skip + 1]) == 2) &&
    (code[skip] == MOV_IMMEDIATE ==> Reg(code[skip + 1]) == GROUP_MOV) &&
    StoreLength(code, skip) <= |code|
  }

  function StoreLength(code: seq<byte>, skip: nat): nat
    requires skip + 2 <= |code|
  {
    var modrm := code[skip + 1];
    skip + 2 + (if HasSib(modrm) then 1 else 0) + DisplacementSize(modrm) +
      (if code[skip] == MOV_IMMEDIATE then 1 else 0)
  }

  function DecodeStore(code: seq<byte>, skip: nat): (d: Decoded)
    requires IsStoreAt(code, skip)
    ensures d.length == StoreLength(code, skip)
  {
    var modrm := code[skip + 1];
    var at := skip + 2 + (if HasSib(modrm) then 1 else 0);
    var size := DisplacementSize(modrm);
    Decoded(StoreLength(code, skip), code[skip], 0, Some(modrm), HasSib(modrm), code[at..at + size],
            if code[skip] == MOV_IMMEDIATE then Some(code[at + size]) else None,
            if skip == 0 then None else Some(code[0]), false)
  }

  // Where the opcode of a byte store is, behind an optional REX prefix.
  function StoreAt(code: seq<byte>): Option<nat>
  {
    if IsStoreAt(code, 0) then Some(0)
    else if code != [] && IsRex(code[0]) && IsStoreAt(code, 1) then Some(1)
    else None
  }

  // The decoder: a byte store is read as one, anything else as `other` reads it. An empty
  // answer, or one of length 0, is an error.
  function Decode(other: Decoder, code: seq<byte>): (d: Option<Decoded>)
    ensures d.Some? ==> d.value.length > 0
  {
    if StoreAt(code).Some? then Some(DecodeStore(code, StoreAt(code).value))
    else
      var d := other(code);
      if d.Some? && d.value.length > 0 then d else None
  }

  // ---- Classifying -------------------------------------------------------------------

  datatype ByteField = ByteField(base: nat, displacement: int)
  datatype ByteStore = ByteStore(field: ByteField, value: byte)

  function BaseRegister(d: Decoded): nat
    requires d.modrm.Some?
  {
    Rm(d.modrm.value) + (if d.rex.Some? && RexB(d.rex.value) then 8 else 0)
  }

  function Displacement(d: Decoded): int
  {
    if |d.displacement| == 4 || |d.displacement| == 1 then Signed(FromLe(d.displacement), |d.displacement|) else 0
  }

  // A constant stored to [register + displacement].
  function AsByteStore(d: Decoded): (store: Option<ByteStore>)
    ensures store.Some? ==> d.modrm.Some? && d.imm8.Some? && !d.sib && d.opcode == MOV_IMMEDIATE
  {
    if d.opcode == MOV_IMMEDIATE && d.modrm.Some? && Reg(d.modrm.value) == GROUP_MOV && d.imm8.Some? &&
       (Mod(d.modrm.value) == 1 || Mod(d.modrm.value) == 2) && !d.sib
    then Some(ByteStore(ByteField(BaseRegister(d), Displacement(d)), d.imm8.value))
    else None
  }

  predicate IsPlainRegisterStore(d: Decoded)
  {
    d.opcode == MOV_REGISTER && d.modrm.Some? && Mod(d.modrm.value) == 2 && !d.sib && !d.otherPrefix
  }

  // A byte register stored to [register + disp32].
  function AsRegisterByteStore(d: Decoded): Option<ByteField>
  {
    if IsPlainRegisterStore(d) then Some(ByteField(BaseRegister(d), Displacement(d))) else None
  }

  // The part of REX that the memory operand needs.
  function MemoryRex(d: Decoded): (rex: seq<byte>)
    ensures |rex| <= 1
  {
    if d.rex.Some? && (RexX(d.rex.value) || RexB(d.rex.value))
    then [0x40 + (if RexX(d.rex.value) then 2 else 0) + (if RexB(d.rex.value) then 1 else 0)]
    else []
  }

  // The store of a constant to the same field, before its length is looked at.
  function Reencoded(d: Decoded, value: byte): seq<byte>
    requires d.modrm.Some?
  {
    MemoryRex(d) + [MOV_IMMEDIATE, ClearReg(d.modrm.value)] + ToLe(FromLe(d.displacement), 4) + [value]
  }

  // The register store rewritten to store `value`, when that is exactly as long.
  method AsImmediateByteStore(d: Decoded, value: byte) returns (bytes: Option<seq<byte>>)
    ensures bytes.Some? <==> IsPlainRegisterStore(d) && |MemoryRex(d)| + 7 == d.length
    ensures bytes.Some? ==> bytes.value == Reencoded(d, value)
  {
    if !IsPlainRegisterStore(d) {
      return None;
    }
    var encoded := MemoryRex(d) + [MOV_IMMEDIATE] + [ClearReg(d.modrm.value)];
    ghost var front := encoded;
    var displacement := FromLe(d.displacement);
    for i := 0 to 4
      invariant encoded == front + ToLe(displacement, 4)[..i]
    {
      LeAt(displacement, i);
      encoded := encoded + [displacement / Pow256(i) % 0x100];
    }
    assert ToLe(displacement, 4)[..4] == ToLe(displacement, 4);
    encoded := encoded + [value];
    assert encoded == Reencoded(d, value);
    bytes := if |encoded| == d.length then Some(encoded) else None;
  }

  // Byte i of a 32-bit value is what is left of it shifted by 8 * i bits, and cut.
  lemma LeAt(v: nat, i: nat)
    requires i < 4
    ensures ToLe(v, 4)[i] == v / Pow256(i) % 0x100
  {
    assert Pow256(0) == 1 && Pow256(1) == 0x100 && Pow256(2) == 0x1_0000 && Pow256(3) == 0x100_0000;
    assert v / 0x100 / 0x100 == v / 0x1_0000 && v / 0x1_0000 / 0x100 == v / 0x100_0000;
    assert ToLe(v, 4)[1..] == ToLe(v / 0x100, 3);
    assert ToLe(v / 0x100, 3)[1..] == ToLe(v / 0x1_0000, 2);
    assert ToLe(v / 0x1_0000, 2)[1..] == ToLe(v / 0x100_0000, 1);
  }

  // ---- What the re-encoding does ------------------------------------------------------

  // The instruction at the start of `code`, a byte store as its bytes say.
  ghost predicate Reads(other: Decoder, code: seq<byte>, d: Decoded)
  {
    StoreAt(code).Some? && Decode(other, code) == Some(d)
  }

  // The new encoding fits exactly when the old one needs its REX prefix for the source
  // register only: it is there, and neither X nor B is set.
  lemma FitsExactly(other: Decoder, code: seq<byte>, d: Decoded)
    requires Reads(other, code, d) && IsPlainRegisterStore(d)
    ensures |MemoryRex(d)| + 7 == d.length <==> d.rex.Some? && !RexX(d.rex.value) && !RexB(d.rex.value)
  {
  }

  // C6, a ModRM byte that names [register + displacement], the displacement, of 8 or 32 bits
  // and signed, and the value, behind an optional REX prefix, read as that store.
  lemma ReadsAsStore(other: Decoder, code: seq<byte>, skip: nat, displacement: seq<byte>)
    requires skip <= 1 && skip + 2 <= |code| && (skip == 1 ==> IsRex(code[0]))
    requires code[skip] == MOV_IMMEDIATE && Reg(code[skip + 1]) == 0 && Rm(code[skip + 1]) != 4
    requires (Mod(code[skip + 1]) == 1 && |displacement| == 1) || (Mod(code[skip + 1]) == 2 && |displacement| == 4)
    requires skip + 3 + |displacement| <= |code| && code[skip + 2..skip + 2 + |displacement|] == displacement
    ensures var d := Decode(other, code);
      var base := Rm(code[skip + 1]) + (if skip == 1 && RexB(code[0]) then 8 else 0);
            d.Some? && d.value.length == skip + 3 + |displacement| &&
            AsByteStore(d.value) == Some(ByteStore(ByteField(base, Signed(FromLe(displacement), |displacement|)),
                                                   code[skip + 2 + |displacement|]))
  {
    hide Signed, FromLe, Mod, Reg, Rm, RexB;
    assert IsStoreAt(code, skip) && StoreLength(code, skip) == skip + 3 + |displacement|;
    assert StoreAt(code) == Some(skip);
  }

  // 88, a ModRM byte that names [register + disp32], and the displacement, behind an optional REX
  // prefix, read as the store of a byte register to that field.
  lemma ReadsAsRegisterStore(other: Decoder, code: seq<byte>, skip: nat, displacement: seq<byte>)
    requires skip <= 1 && skip + 6 <= |code| && (skip == 1 ==> IsRex(code[0]))
    requires code[skip] == MOV_REGISTER && Mod(code[skip + 1]) == 2 && Rm(code[skip + 1]) != 4
    requires code[skip + 2..skip + 6] == displacement
    ensures var d := Decode(other, code);
            var base := Rm(code[skip + 1]) + (if skip == 1 && RexB(code[0]) then 8 else 0);
            d.Some? && d.value.length == skip + 6 && Reads(other, code, d.value) &&
            AsRegisterByteStore(d.value) == Some(ByteField(base, Signed(FromLe(displacement), 4)))
  {
    hide Signed, FromLe, Mod, Reg, Rm, RexB;
    assert IsStoreAt(code, skip) && StoreLength(code, skip) == skip + 6;
    assert StoreAt(code) == Some(skip);
  }

  lemma ReencodedAt(d: Decoded, value: byte, rest: seq<byte>)
    requires d.modrm.Some? && |d.displacement| == 4
    ensures var code := Reencoded(d, value) + rest; var skip := |MemoryRex(d)|;
            |Reencoded(d, value)| == skip + 7 && code[skip] == MOV_IMMEDIATE &&
              code[skip + 1] == ClearReg(d.modrm.value) &&
            code[skip + 2..skip + 6] == d.displacement && code[skip + 6] == value &&
              (skip == 1 ==> code[0] == MemoryRex(d)[0])
  {
    hide ClearReg, RexX, RexB;
    LeInjective(d.displacement);
  }

  // Whatever follows it, the new encoding reads as the store of `value` to the field the
  // old one stored its register to.
  lemma SameField(other: Decoder, code: seq<byte>, d: Decoded, value: byte, rest: seq<byte>)
    requires Reads(other, code, d) && IsPlainRegisterStore(d)
    ensures var out := Reencoded(d, value); var now := Decode(other, out + rest);
            now.Some? && now.value.length == |out| &&
            AsByteStore(now.value) == Some(ByteStore(AsRegisterByteStore(d).value, value))
  {
    hide Signed, FromLe, Reencoded;
    ReencodedAt(d, value, rest);
    ReadsAsStore(other, Reencoded(d, value) + rest, |MemoryRex(d)|, d.displacement);
  }

  // So the bytes that replace a register store are as long as it and store `value` to the
  // same field, for every register, displacement and value.
  lemma InPlace(other: Decoder, code: seq<byte>, d: Decoded, value: byte, rest: seq<byte>)
    requires Reads(other, code, d) && IsPlainRegisterStore(d)
    requires d.rex.Some? && !RexX(d.rex.value) && !RexB(d.rex.value)
    ensures var out := Reencoded(d, value);
            |out| == d.length == 7 && out == [MOV_IMMEDIATE, ClearReg(d.modrm.value)] + d.displacement + [value] &&
            var now := Decode(other, out + rest);
            now.Some? && now.value.length == d.length &&
            AsByteStore(now.value) == Some(ByteStore(AsRegisterByteStore(d).value, value))
  {
    FitsExactly(other, code, d);
    SameField(other, code, d, value, rest);
    LeInjective(d.displacement);
  }

  // ---- Conditions ------------------------------------------------------------------------

  datatype Condition = NotConditional | Ordering | Equality | Other

  function FromConditionCode(code: nat): Condition
  {
    if code in {0x2, 0x3, 0x6, 0x7, 0xC, 0xD, 0xE, 0xF} then Ordering
    else if code in {0x4, 0x5} then Equality
    else Other
  }

  // What Jcc rel8, or Jcc rel32, SETcc and CMOVcc behind the two-byte escape, ask of the flags.
  function ConditionTested(d: Decoded): Condition
  {
    if 0x70 <= d.opcode <= 0x7F then FromConditionCode(d.opcode % 16)
    else if d.opcode != 0x0F then NotConditional
    else if 0x40 <= d.opcode2 <= 0x4F || 0x80 <= d.opcode2 <= 0x9F then FromConditionCode(d.opcode2 % 16)
    else NotConditional
  }
}
