/** Forcing the plugin's flip-metering flag off (src/streamline/plugin_patch.cpp:89-207,
    222-257), and writing code that may be running (src/core/pe.cpp:25-54). */
module FlipMetering {
  import opened Bytes
  import opened X86

  const INT8_MAX := 127
  const INSTRUCTIONS_AFTER_MARKER := 64
  const INSTRUCTIONS_AFTER_MODEL_VERSION := 32

  // ---- The signature -------------------------------------------------------------------

  // mov byte ptr [register + disp32], value: C6, ModRM 10 000 ???, the displacement's bytes,
  // the value.
  predicate MatchAt(code: seq<byte>, d: seq<byte>, value: byte, p: int)
    requires |d| == 4
  {
    0 <= p && p + 7 <= |code| && code[p] == MOV_IMMEDIATE && 0x80 <= code[p + 1] < 0x88 &&
    code[p + 2] == d[0] && code[p + 3] == d[1] && code[p + 4] == d[2] && code[p + 5] == d[3] && code[p + 6] == value
  }

  // A displacement's bytes, when it is not negative.
  predicate NotNegative(d: seq<byte>)
  {
    |d| == 4 && d[3] < 0x80
  }

  predicate OnOff(value: byte) { value <= 1 }

  // ---- What the rewrites leave ----------------------------------------------------------

  // The re-encoded store of the model version, at `at`: register `rm` in its ModRM byte.
  datatype Store = Store(at: nat, rm: nat)

  function StoreBytes(store: Store, d: seq<byte>, off: byte): seq<byte>
    requires |d| == 4 && store.rm < 8
  {
    [MOV_IMMEDIATE, 0x80 + store.rm] + d + [off]
  }

  predicate InStore(store: Option<Store>, q: int)
  {
    store.Some? && store.value.at <= q < store.value.at + 7
  }

  // Byte q after the immediates of the matches in `flips` are written, and then the store.
  function PatchedByte(code: seq<byte>, d: seq<byte>, off: byte, flips: set<int>, store: Option<Store>, q: int): byte
    requires |d| == 4 && (store.Some? ==> store.value.rm < 8) && 0 <= q < |code|
  {
    if InStore(store, q) then StoreBytes(store.value, d, off)[q - store.value.at]
    else if q - 6 in flips then off
    else code[q]
  }

  // `now` is the code with any of the rewrites applied: those that could be written.
  ghost predicate Patched(code: seq<byte>, now: seq<byte>, d: seq<byte>, off: byte, flips: set<int>,
                          store: Option<Store>)
    requires |d| == 4
  {
    |now| == |code| && (store.Some? ==> store.value.rm < 8 && store.value.at + 7 <= |code|) &&
    forall q :: 0 <= q < |code| ==> now[q] == PatchedByte(code, d, off, flips, store, q)
  }

  ghost predicate AllMatch(code: seq<byte>, d: seq<byte>, on: byte, flips: set<int>)
    requires |d| == 4
  {
    forall m :: m in flips ==> MatchAt(code, d, on, m)
  }

  // Two stores of the flag never overlap.
  lemma MatchesApart(code: seq<byte>, d: seq<byte>, value: byte, p: int, q: int)
    requires NotNegative(d) && OnOff(value) && MatchAt(code, d, value, p) && MatchAt(code, d, value, q) && p < q
    ensures p + 7 <= q
  {
  }

  // Whichever of the rewrites could be written, no store of the on value is made, and each
  // one left was there before, untouched: it is not among those rewritten.
  lemma NoNewMatch(code: seq<byte>, now: seq<byte>, d: seq<byte>, on: byte, off: byte, flips: set<int>,
                   store: Option<Store>, p: int)
    requires NotNegative(d) && OnOff(on) && OnOff(off) && on != off && AllMatch(code, d, on, flips)
    requires Patched(code, now, d, off, flips, store) && MatchAt(now, d, on, p)
    ensures MatchAt(code, d, on, p) && p !in flips
    ensures store.Some? ==> p + 7 <= store.value.at || store.value.at + 7 <= p
  {
  }

  // And the other way round: a store of the on value that is not rewritten, and that the
  // re-encoded store does not cover, is left as it was.
  lemma OldMatchStays(code: seq<byte>, now: seq<byte>, d: seq<byte>, on: byte, off: byte, flips: set<int>,
                      store: Option<Store>, p: int)
    requires NotNegative(d) && OnOff(on) && OnOff(off) && on != off && AllMatch(code, d, on, flips)
    requires Patched(code, now, d, off, flips, store) && MatchAt(code, d, on, p) && p !in flips
    requires store.Some? ==> p + 7 <= store.value.at || store.value.at + 7 <= p
    ensures MatchAt(now, d, on, p)
  {
  }

  // With a negative displacement it would not hold: here rewriting the store at 0 makes
  // another at 4. The displacement is the plugin's, and larger than an int8 reaches.
  lemma NegativeMakesOne()
    ensures var code: seq<byte> := [0xC6, 0x80, 0x00, 0x00, 0xC6, 0x80, 0x01, 0x00, 0xC6, 0x80, 0x01];
            var d: seq<byte> := [0x00, 0x00, 0xC6, 0x80];
            && MatchAt(code, d, 1, 0) && !MatchAt(code, d, 1, 4)
            && MatchAt(code[6 := 0], d, 1, 4)
  {
  }

  // ---- What the signature matches ---------------------------------------------------------

  // It is the seven bytes of a byte store of the value through any register.
  lemma MatchesAre(code: seq<byte>, d: seq<byte>, value: byte, p: nat)
    requires |d| == 4
    ensures MatchAt(code, d, value, p) <==>
            p + 7 <= |code| &&
            exists rm :: 0 <= rm < 8 && code[p..p + 7] == [0xC6, ModRm(2, 0, rm)] + d + [value]
  {
    if p + 7 <= |code| {
      var here := code[p..p + 7];
      assert here == [code[p], code[p + 1], code[p + 2], code[p + 3], code[p + 4], code[p + 5], code[p + 6]];
      assert 0x80 <= code[p + 1] < 0x88 ==> code[p + 1] == ModRm(2, 0, code[p + 1] - 0x80);
      assert d == [d[0], d[1], d[2], d[3]];
      if MatchAt(code, d, value, p) {
        assert here == [0xC6, ModRm(2, 0, code[p + 1] - 0x80)] + d + [value];
      }
    }
  }

  // So it misses no store that needs no prefix: what decodes, without one, as the store of the
  // value to that displacement is a match.
  lemma StoresMatch(other: Decoder, code: seq<byte>, displacement: nat, value: byte, p: nat)
    requires p <= |code| && INT8_MAX < displacement < 0x8000_0000 && StoreAt(code[p..]) == Some(0)
    requires var store := AsByteStore(Decode(other, code[p..]).value);
             store.Some? && store.value.field.displacement == displacement && store.value.value == value
    ensures MatchAt(code, DisplacementBytes(displacement), value, p) && Rm(code[p + 1]) != 4
  {
    var here := code[p..];
    var d := Decode(other, here).value;
    assert here[0] == code[p] && here[1] == code[p + 1];
    ShortDisplacement(d.displacement);
    DisplacementIs(d.displacement, displacement);
    assert d.displacement == here[2..6];
  }

  lemma ShortDisplacement(d: seq<byte>)
    ensures |d| == 1 ==> Signed(FromLe(d), 1) <= INT8_MAX
  {
    assert Pow256(1) == 0x100;
    LeInjective(d);
  }

  // ---- Finding the stores ----------------------------------------------------------------

  // The flag's displacement as the signature carries it.
  function DisplacementBytes(displacement: nat): (d: seq<byte>)
    ensures |d| == 4
  {
    ToLe(displacement, 4)
  }

  lemma DisplacementNotNegative(displacement: nat)
    requires displacement < 0x8000_0000
    ensures NotNegative(DisplacementBytes(displacement))
    ensures Signed(FromLe(DisplacementBytes(displacement)), 4) == displacement
  {
    Widths();
    LeRoundTrip(displacement, 4);
    LeAt(displacement, 3);
    assert Pow256(3) == 0x100_0000;
  }

  lemma DisplacementIs(d: seq<byte>, displacement: nat)
    requires |d| == 4 && Signed(FromLe(d), 4) == displacement
    ensures d == DisplacementBytes(displacement)
  {
    Widths();
    LeInjective(d);
  }

  function DecodeAt(other: Decoder, code: seq<byte>, at: nat): (d: Option<Decoded>)
    ensures d.Some? ==> d.value.length > 0
  {
    if at <= |code| then Decode(other, code[at..]) else None
  }

  // What is taken from the decoder that is not modelled: it reads no other instruction as a
  // plain register store, nothing that opens like the signature as a constant store, and
  // displacements of 32 bits at most.
  ghost predicate Trusted(other: Decoder)
  {
    forall code :: other(code).Some? ==>
      !IsPlainRegisterStore(other(code).value) && |other(code).value.displacement| <= 4 &&
      (OpensLikeStore(code) ==> AsByteStore(other(code).value) == None)
  }

  predicate OpensLikeStore(code: seq<byte>)
  {
    |code| >= 2 && code[0] == MOV_IMMEDIATE && 0x80 <= code[1] < 0x88
  }

  // Decoding at the match confirms the store it looks like.
  predicate Confirmed(other: Decoder, code: seq<byte>, displacement: nat, on: byte, p: nat)
  {
    var d := DecodeAt(other, code, p);
    d.Some? && AsByteStore(d.value).Some? &&
    AsByteStore(d.value).value.field.displacement == displacement && AsByteStore(d.value).value.value == on
  }

  // It does so for every match but those whose ModRM byte asks for a SIB byte.
  lemma ConfirmedUnlessSib(other: Decoder, code: seq<byte>, displacement: nat, on: byte, p: nat)
    requires Trusted(other) && displacement < 0x8000_0000 && MatchAt(code, DisplacementBytes(displacement), on, p)
    ensures Confirmed(other, code, displacement, on, p) <==> Rm(code[p + 1]) != 4
    ensures Confirmed(other, code, displacement, on, p) ==> DecodeAt(other, code, p).value.length == 7
  {
    DisplacementNotNegative(displacement);
    var here := code[p..];
    assert here[0] == MOV_IMMEDIATE && here[1] == code[p + 1] && Mod(here[1]) == 2 && Reg(here[1]) == 0;
    assert Rm(here[1]) != 4 ==> here[2..6] == DisplacementBytes(displacement) && here[6] == on;
    assert p + 8 <= |code| || Rm(here[1]) != 4 ==> StoreAt(here) == Some(0);
  }

  datatype Rewrite = Rewrite(at: nat, bytes: seq<byte>)

  function Immediates(ats: seq<nat>, off: byte): (r: seq<Rewrite>)
    ensures |r| == |ats| && forall k :: 0 <= k < |ats| ==> r[k] == Rewrite(ats[k] + 6, [off])
  {
    seq(|ats|, k requires 0 <= k < |ats| => Rewrite(ats[k] + 6, [off]))
  }

  // The stores of the on value to the flag, each rewritten in its last byte.
  method FindStores(other: Decoder, code: seq<byte>, displacement: nat, on: byte, off: byte)
      returns (rewrites: seq<Rewrite>, ghost ats: seq<nat>)
    requires Trusted(other) && displacement < 0x8000_0000
    ensures forall r: Rewrite :: r in rewrites <==>
      r.at >= 6 && r.bytes == [off] && MatchAt(code, DisplacementBytes(displacement), on, r.at - 6) &&
        Rm(code[r.at - 5]) != 4
    ensures forall p :: p in ats <==> MatchAt(code, DisplacementBytes(displacement), on, p) && Rm(code[p + 1]) != 4
    ensures rewrites == Immediates(ats, off)
  {
    var d := DisplacementBytes(displacement);
    rewrites, ats := [], [];
    for p := 0 to |code|
      invariant forall q :: q in ats <==> q < p && MatchAt(code, d, on, q) && Rm(code[q + 1]) != 4
      invariant rewrites == Immediates(ats, off)
    {
      if MatchAt(code, d, on, p) {
        ConfirmedUnlessSib(other, code, displacement, on, p);
        if Confirmed(other, code, displacement, on, p) {
          rewrites := rewrites + [Rewrite(p + DecodeAt(other, code, p).value.length - 1, [off])];
          ats := ats + [p];
        }
      }
    }
    ImmediatesIn(ats, off);
  }

  lemma ImmediatesIn(ats: seq<nat>, off: byte)
    ensures forall r: Rewrite :: r in Immediates(ats, off) <==> r.at >= 6 && r.bytes == [off] && r.at - 6 in ats
  {
    forall r: Rewrite | r.at >= 6 && r.bytes == [off] && r.at - 6 in ats
      ensures r in Immediates(ats, off)
    {
      var k :| 0 <= k < |ats| && ats[k] == r.at - 6;
      assert Immediates(ats, off)[k] == r;
    }
  }

  // ---- The fallback's store, and the model version's ---------------------------------------

  predicate IsFlagStore(store: Option<ByteStore>)
  {
    store.Some? && OnOff(store.value.value) && store.value.field.displacement > INT8_MAX
  }

  // A store of 0 or 1 to a displacement beyond what eight bits can hold.
  lemma FlagStoreIs(store: ByteStore)
    ensures IsFlagStore(Some(store)) <==>
            store.value in {0, 1} && forall b: byte :: Signed(b, 1) < store.field.displacement
  {
    assert Pow256(1) == 0x100;
    assert Signed(0x7F, 1) == INT8_MAX;
  }

  // The first such store among the next n instructions.
  function FallbackFrom(other: Decoder, code: seq<byte>, cursor: nat, n: nat): (store: Option<ByteStore>)
    ensures store.Some? ==> IsFlagStore(store)
    decreases n
  {
    var d := DecodeAt(other, code, cursor);
    if n == 0 || d == None then None
    else if IsFlagStore(AsByteStore(d.value)) then AsByteStore(d.value)
    else FallbackFrom(other, code, cursor + d.value.length, n - 1)
  }

  // Where the code is after k instructions, if they all decode.
  function Walk(other: Decoder, code: seq<byte>, cursor: nat, k: nat): Option<nat>
    decreases k
  {
    if k == 0 then Some(cursor)
    else
      var d := DecodeAt(other, code, cursor);
      if d == None then None else Walk(other, code, cursor + d.value.length, k - 1)
  }

  // The instruction k instructions on is a store to a flag.
  predicate FlagStoreAfter(other: Decoder, code: seq<byte>, cursor: nat, k: nat)
  {
    var at := Walk(other, code, cursor, k);
    at.Some? && DecodeAt(other, code, at.value).Some? && IsFlagStore(AsByteStore(DecodeAt(other, code, at.value).value))
  }

  lemma FlagStoreLater(other: Decoder, code: seq<byte>, cursor: nat, j: nat)
    requires j > 0
    ensures FlagStoreAfter(other, code, cursor, j) <==>
            DecodeAt(other, code, cursor).Some? &&
            FlagStoreAfter(other, code, cursor + DecodeAt(other, code, cursor).value.length, j - 1)
  {
  }

  // The fallback's store is the first one among the next n instructions, and there is one
  // exactly when one of them is.
  lemma {:induction false} FallbackIsFirst(other: Decoder, code: seq<byte>, cursor: nat, n: nat) returns (k: nat)
    ensures k <= n && (k < n ==> FlagStoreAfter(other, code, cursor, k))
    ensures FallbackFrom(other, code, cursor, n).Some? <==> k < n
    ensures forall j: nat :: j < n && FlagStoreAfter(other, code, cursor, j) ==> k <= j
    ensures FallbackFrom(other, code, cursor, n).Some? ==>
      FallbackFrom(other, code, cursor, n) ==
        AsByteStore(DecodeAt(other, code, Walk(other, code, cursor, k).value).value)
    decreases n
  {
    hide AsByteStore, DecodeAt;
    var d := DecodeAt(other, code, cursor);
    if n == 0 || (d.Some? && IsFlagStore(AsByteStore(d.value))) {
      k := 0;
    } else if d == None {
      k := n;
    } else {
      var rest := FallbackIsFirst(other, code, cursor + d.value.length, n - 1);
      k := rest + 1;
      FlagStoreLater(other, code, cursor, k);
    }
    forall j: nat | j < n && FlagStoreAfter(other, code, cursor, j)
      ensures k <= j
    {
      if j > 0 {
        FlagStoreLater(other, code, cursor, j);
      }
    }
  }

  method FallbackStore(other: Decoder, code: seq<byte>, reference: nat) returns (store: Option<ByteStore>)
    ensures store == FallbackFrom(other, code, reference, 64)
  {
    var cursor: nat := reference;
    for i := 0 to INSTRUCTIONS_AFTER_MARKER
      invariant FallbackFrom(other, code, cursor, INSTRUCTIONS_AFTER_MARKER - i) ==
                FallbackFrom(other, code, reference, INSTRUCTIONS_AFTER_MARKER)
    {
      var d := DecodeAt(other, code, cursor);
      if d == None {
        return None;
      }
      store := AsByteStore(d.value);
      if IsFlagStore(store) {
        return;
      }
      cursor := cursor + d.value.length;
    }
    store := None;
  }

  function FirstFallback(other: Decoder, code: seq<byte>, references: seq<nat>): (store: Option<ByteStore>)
    ensures store.Some? ==> IsFlagStore(store)
  {
    if references == [] then None
    else
      var store := FallbackFrom(other, code, references[0], INSTRUCTIONS_AFTER_MARKER);
      if store.Some? then store else FirstFallback(other, code, references[1..])
  }

  datatype ModelStore = Constant | Register(at: nat, d: Decoded)

  predicate IsReturnOrJump(d: Decoded)
  {
    d.opcode in {0xC3, 0xC2, 0xE9, 0xEB} || (d.opcode == 0xFF && d.modrm.Some? && Reg(d.modrm.value) == 4)
  }

  lemma OperationFour(modrm: byte)
    ensures Reg(modrm) == 4 <==> exists mode, rm :: 0 <= mode < 4 && 0 <= rm < 8 && modrm == ModRm(mode, 4, rm)
  {
    assert Reg(modrm) == 4 ==> modrm == ModRm(Mod(modrm), 4, Rm(modrm));
  }

  // ret, ret imm16, jmp rel32, jmp rel8, and jmp through a register or memory, which is group 5's
  // fourth operation.
  lemma ReturnsAndJumpsAre(d: Decoded)
    ensures IsReturnOrJump(d) <==>
            d.opcode == 0xC3 || d.opcode == 0xC2 || d.opcode == 0xE9 || d.opcode == 0xEB ||
            (d.opcode == 0xFF && exists mode, rm :: 0 <= mode < 4 && 0 <= rm < 8 && d.modrm == Some(ModRm(mode, 4, rm)))
  {
    if d.modrm.Some? {
      OperationFour(d.modrm.value);
    }
    hide Reg, ModRm;
  }

  // The first store to the flag in the straight-line code of the next n instructions.
  function ModelStoreFrom(other: Decoder, code: seq<byte>, cursor: nat, n: nat,
                          flag: ByteField): (store: Option<ModelStore>)
    ensures store.Some? && store.value.Register? ==>
      DecodeAt(other, code, store.value.at) == Some(store.value.d) && AsRegisterByteStore(store.value.d) == Some(flag)
    decreases n
  {
    var d := DecodeAt(other, code, cursor);
    if n == 0 || d == None || IsReturnOrJump(d.value) then None
    else if AsByteStore(d.value).Some? && AsByteStore(d.value).value.field == flag then Some(Constant)
    else if AsRegisterByteStore(d.value) == Some(flag) then Some(Register(cursor, d.value))
    else ModelStoreFrom(other, code, cursor + d.value.length, n - 1, flag)
  }

  function FirstModelStore(other: Decoder, code: seq<byte>, references: seq<nat>,
                           flag: ByteField): (store: Option<ModelStore>)
    ensures store.Some? && store.value.Register? ==>
      DecodeAt(other, code, store.value.at) == Some(store.value.d) && AsRegisterByteStore(store.value.d) == Some(flag)
  {
    if references == [] then None
    else
      var store := ModelStoreFrom(other, code, references[0], INSTRUCTIONS_AFTER_MODEL_VERSION, flag);
      if store.Some? then store else FirstModelStore(other, code, references[1..], flag)
  }

  // The instruction k instructions on is a store to this flag, a constant's or a register's.
  predicate FieldStoreAfter(other: Decoder, code: seq<byte>, cursor: nat, k: nat, flag: ByteField)
  {
    var at := Walk(other, code, cursor, k);
    at.Some? && DecodeAt(other, code, at.value).Some? &&
    var d := DecodeAt(other, code, at.value).value;
    (AsByteStore(d).Some? && AsByteStore(d).value.field == flag) || AsRegisterByteStore(d) == Some(flag)
  }

  // None of the next k instructions leaves the straight line.
  predicate Straight(other: Decoder, code: seq<byte>, cursor: nat, k: nat)
    decreases k
  {
    k == 0 ||
    (DecodeAt(other, code, cursor).Some? && !IsReturnOrJump(DecodeAt(other, code, cursor).value) &&
     Straight(other, code, cursor + DecodeAt(other, code, cursor).value.length, k - 1))
  }

  // Straight-line code reaches such a store after k instructions.
  predicate ReachesStore(other: Decoder, code: seq<byte>, cursor: nat, k: nat, flag: ByteField)
  {
    FieldStoreAfter(other, code, cursor, k, flag) && Straight(other, code, cursor, k + 1)
  }

  lemma StoreLater(other: Decoder, code: seq<byte>, cursor: nat, j: nat, flag: ByteField)
    requires j > 0
    ensures ReachesStore(other, code, cursor, j, flag) <==>
            DecodeAt(other, code, cursor).Some? && !IsReturnOrJump(DecodeAt(other, code, cursor).value) &&
            ReachesStore(other, code, cursor + DecodeAt(other, code, cursor).value.length, j - 1, flag)
  {
    hide IsReturnOrJump, AsByteStore, AsRegisterByteStore, DecodeAt;
  }

  // The store to the flag that is there: a constant's, or else a register's.
  function StoreThere(other: Decoder, code: seq<byte>, at: nat, flag: ByteField): ModelStore
    requires DecodeAt(other, code, at).Some?
  {
    var d := DecodeAt(other, code, at).value;
    if AsByteStore(d).Some? && AsByteStore(d).value.field == flag then Constant else Register(at, d)
  }

  // The model version's store is the first to the flag that straight-line code reaches among
  // the next n instructions, and there is one exactly when it reaches one.
  lemma {:induction false} ModelStoreIsFirst(other: Decoder, code: seq<byte>, cursor: nat, n: nat, flag: ByteField)
      returns (k: nat)
    ensures k <= n && (k < n ==> ReachesStore(other, code, cursor, k, flag))
    ensures ModelStoreFrom(other, code, cursor, n, flag).Some? <==> k < n
    ensures forall j: nat :: j < n && ReachesStore(other, code, cursor, j, flag) ==> k <= j
    ensures ModelStoreFrom(other, code, cursor, n, flag).Some? ==>
      ModelStoreFrom(other, code, cursor, n, flag) ==
      Some(StoreThere(other, code, Walk(other, code, cursor, k).value, flag))
    decreases n
  {
    hide IsReturnOrJump, AsByteStore, AsRegisterByteStore, DecodeAt;
    var d := DecodeAt(other, code, cursor);
    if n == 0 || ReachesStore(other, code, cursor, 0, flag) {
      k := 0;
    } else if d == None || IsReturnOrJump(d.value) {
      k := n;
    } else {
      assert Straight(other, code, cursor + d.value.length, 0) && Straight(other, code, cursor, 1);
      assert Walk(other, code, cursor, 0) == Some(cursor);
      var rest := ModelStoreIsFirst(other, code, cursor + d.value.length, n - 1, flag);
      k := rest + 1;
      StoreLater(other, code, cursor, k, flag);
    }
    forall j: nat | j < n && ReachesStore(other, code, cursor, j, flag)
      ensures k <= j
    {
      if j > 0 {
        StoreLater(other, code, cursor, j, flag);
      }
    }
  }

  method ModelStoreAfter(other: Decoder, code: seq<byte>, reference: nat, flag: ByteField)
      returns (store: Option<ModelStore>)
    ensures store == ModelStoreFrom(other, code, reference, 32, flag)
  {
    var cursor: nat := reference;
    for i := 0 to INSTRUCTIONS_AFTER_MODEL_VERSION
      invariant ModelStoreFrom(other, code, cursor, INSTRUCTIONS_AFTER_MODEL_VERSION - i, flag) ==
                ModelStoreFrom(other, code, reference, INSTRUCTIONS_AFTER_MODEL_VERSION, flag)
    {
      var d := DecodeAt(other, code, cursor);
      if d == None || IsReturnOrJump(d.value) {
        return None;
      }
      var constant := AsByteStore(d.value);
      if constant.Some? && constant.value.field == flag {
        return Some(Constant);
      }
      if AsRegisterByteStore(d.value) == Some(flag) {
        return Some(Register(cursor, d.value));
      }
      cursor := cursor + d.value.length;
    }
    store := None;
  }

  method FindModelStore(other: Decoder, code: seq<byte>, references: seq<nat>, flag: ByteField)
      returns (store: Option<ModelStore>)
    ensures store == FirstModelStore(other, code, references, flag)
  {
    for k := 0 to |references|
      invariant FirstModelStore(other, code, references[k..], flag) == FirstModelStore(other, code, references, flag)
    {
      store := ModelStoreAfter(other, code, references[k], flag);
      if store.Some? {
        return;
      }
      assert references[k..][1..] == references[k + 1..];
    }
    store := None;
  }

  method FindFallback(other: Decoder, code: seq<byte>, references: seq<nat>) returns (store: Option<ByteStore>)
    ensures store == FirstFallback(other, code, references)
  {
    for k := 0 to |references|
      invariant FirstFallback(other, code, references[k..]) == FirstFallback(other, code, references)
    {
      store := FallbackStore(other, code, references[k]);
      if store.Some? {
        return;
      }
      assert references[k..][1..] == references[k + 1..];
    }
    store := None;
  }

  // ---- The analysis ------------------------------------------------------------------------

  // How the store after the model version's check was handled.
  datatype ModelHandling = Absent | AmongTheStores | InPlaceStore | Unfit

  datatype Flip = Flip(flagOffset: nat, off: byte, rewrites: seq<Rewrite>, modelStore: ModelHandling)

  function Handling(store: Option<ModelStore>): ModelHandling
  {
    match store
    case None => Absent
    case Some(Constant) => AmongTheStores
    case Some(Register(at, d)) => if d.modrm.Some? && |MemoryRex(d)| + 7 == d.length then InPlaceStore else Unfit
  }

  function On(off: byte): byte { if off != 0 then 0 else 1 }

  // The flag is on or off.
  lemma OnIs(off: byte)
    ensures OnOff(off) ==> OnOff(On(off)) && {On(off), off} == {0, 1}
  {
  }

  function Stores(store: Option<Store>, d: seq<byte>, off: byte): seq<Rewrite>
    requires |d| == 4 && (store.Some? ==> store.value.rm < 8)
  {
    if store.Some? then [Rewrite(store.value.at, StoreBytes(store.value, d, off))] else []
  }

  // The rewrites are the immediates of every confirmed store of the on value, and then at
  // most one store of the model version, re-encoded where it is.
  ghost predicate Analysed(code: seq<byte>, flip: Flip, ats: seq<nat>, store: Option<Store>)
  {
    && INT8_MAX < flip.flagOffset < 0x8000_0000 && OnOff(flip.off)
    && (forall p :: p in ats <==>
        MatchAt(code, DisplacementBytes(flip.flagOffset), On(flip.off), p) && Rm(code[p + 1]) != 4)
    && (store.Some? ==> store.value.rm < 8 && store.value.at + 7 <= |code|)
    && flip.rewrites == Immediates(ats, flip.off) + Stores(store, DisplacementBytes(flip.flagOffset), flip.off)
  }

  // The re-encoded store is where the model version's register store is, to the same base.
  predicate ReencodesWhereFound(found: Option<ModelStore>, store: Store)
  {
    found.Some? && found.value.Register? && found.value.d.modrm.Some? &&
    store == Store(found.value.at, Rm(found.value.d.modrm.value))
  }

  // A re-encoded register store of the flag is the seven bytes of StoreBytes.
  lemma RegisterRewrite(other: Decoder, code: seq<byte>, at: nat, d: Decoded, base: nat, offset: nat, off: byte)
    requires Trusted(other) && DecodeAt(other, code, at) == Some(d) && offset < 0x8000_0000
    requires AsRegisterByteStore(d) == Some(ByteField(base, offset)) && |MemoryRex(d)| + 7 == d.length
    ensures at + 7 <= |code|
    ensures d.modrm.Some? && Rm(d.modrm.value) < 8
    ensures Reencoded(d, off) == StoreBytes(Store(at, Rm(d.modrm.value)), DisplacementBytes(offset), off)
  {
    var here := code[at..];
    assert StoreAt(here).Some?;
    assert Reads(other, here, d);
    FitsExactly(other, here, d);
    InPlace(other, here, d, off, []);
    DisplacementIs(d.displacement, offset);
  }

  // The flag is where the marker's fallback stores it, and off is what it stores there,
  // unless the settings force a value; a negative one forces none.
  method AnalyzeFlipMetering(other: Decoder, code: seq<byte>, markers: seq<nat>, parameters: seq<nat>, forced: int)
      returns (flip: Option<Flip>, ghost ats: seq<nat>, ghost store: Option<Store>)
    requires Trusted(other) && forced <= 1
    ensures flip.Some? <==> FirstFallback(other, code, markers).Some?
    ensures flip.Some? ==>
      var fallback := FirstFallback(other, code, markers).value;
      && flip.value.flagOffset == fallback.field.displacement
      && flip.value.off == (if forced >= 0 then forced else fallback.value)
      && flip.value.modelStore == Handling(FirstModelStore(other, code, parameters, fallback.field))
      && Analysed(code, flip.value, ats, store)
      && (flip.value.modelStore.InPlaceStore? <==> store.Some?)
      && (store.Some? ==> ReencodesWhereFound(FirstModelStore(other, code, parameters, fallback.field), store.value))
  {
    hide MatchAt, DecodeAt, StoreBytes, Reencoded, MemoryRex, BaseRegister, Displacement, FirstFallback,
      FirstModelStore, NotNegative, DisplacementBytes, Rm;
    ats, store := [], None;
    var fallback := FindFallback(other, code, markers);
    if fallback == None {
      return None, ats, store;
    }
    var field := fallback.value.field;
    FallbackBound(other, code, markers);
    var offset: nat := field.displacement;
    var off := if forced >= 0 then forced else fallback.value.value;
    var rewrites;
    rewrites, ats := FindStores(other, code, offset, On(off), off);
    var model := FindModelStore(other, code, parameters, field);
    if model.Some? && model.value.Register? {
      var bytes := AsImmediateByteStore(model.value.d, off);
      if bytes.Some? {
        RegisterRewrite(other, code, model.value.at, model.value.d, field.base, offset, off);
        store := Some(Store(model.value.at, Rm(model.value.d.modrm.value)));
        rewrites := rewrites + [Rewrite(model.value.at, bytes.value)];
      }
    }
    flip := Some(Flip(offset, off, rewrites, Handling(model)));
    assert store == None ==> rewrites == Immediates(ats, off) + [];
  }

  lemma {:induction false} FallbackBound(other: Decoder, code: seq<byte>, references: seq<nat>)
    requires Trusted(other) && FirstFallback(other, code, references).Some?
    ensures FirstFallback(other, code, references).value.field.displacement < 0x8000_0000
  {
    if FallbackFrom(other, code, references[0], INSTRUCTIONS_AFTER_MARKER).Some? {
      FallbackFromBound(other, code, references[0], INSTRUCTIONS_AFTER_MARKER);
    } else {
      FallbackBound(other, code, references[1..]);
    }
  }

  lemma {:induction false} FallbackFromBound(other: Decoder, code: seq<byte>, cursor: nat, n: nat)
    requires Trusted(other) && FallbackFrom(other, code, cursor, n).Some?
    ensures FallbackFrom(other, code, cursor, n).value.field.displacement < 0x8000_0000
    decreases n
  {
    var d := DecodeAt(other, code, cursor).value;
    if IsFlagStore(AsByteStore(d)) {
      Widths();
      LeInjective(d.displacement);
    } else {
      FallbackFromBound(other, code, cursor + d.length, n - 1);
    }
  }

  // ---- Writing -------------------------------------------------------------------------------

  function Written(code: seq<byte>, at: nat, bytes: seq<byte>): (r: seq<byte>)
    requires at + |bytes| <= |code|
    ensures |r| == |code|
    ensures forall q :: 0 <= q < |code| ==> r[q] == if at <= q < at + |bytes| then bytes[q - at] else code[q]
  {
    code[..at] + bytes + code[at + |bytes|..]
  }

  // Writes code that nothing is running yet. `unprotects`: the pages can be made writable.
  method PatchCode(memory: array<byte>, at: nat, bytes: seq<byte>, unprotects: bool) returns (ok: bool)
    requires at + |bytes| <= memory.Length
    modifies memory
    ensures ok == unprotects
    ensures memory[..] == if ok then Written(old(memory[..]), at, bytes) else old(memory[..])
  {
    ok := unprotects;
    if ok {
      forall k | 0 <= k < |bytes| {
        memory[at + k] := bytes[k];
      }
    }
  }

  // Code is mapped in whole words; `base` is its address.
  predicate WholeWords(memory: array<byte>, base: nat)
  {
    base % 8 == 0 && memory.Length % 8 == 0
  }

  // Writes code that may be running: in one exchange of one aligned word, or not at all.
  method PatchRunningCode(memory: array<byte>, base: nat, at: nat, bytes: seq<byte>, unprotects: bool)
      returns (ok: bool)
    requires at + |bytes| <= memory.Length && WholeWords(memory, base)
    modifies memory
    ensures ok <==> bytes != [] && (base + at) % 8 + |bytes| <= 8 && unprotects
    ensures memory[..] == if ok then Written(old(memory[..]), at, bytes) else old(memory[..])
  {
    var start := base + at;
    var wordStart := start - start % 8;
    if bytes == [] || start + |bytes| > wordStart + 8 || !unprotects {
      return false;
    }
    var w := wordStart - base;
    WordInside(memory.Length, base, at);
    var word := memory[w..w + 8];
    var replaced := Written(word, start - wordStart, bytes);
    forall k | 0 <= k < 8 {
      memory[w + k] := replaced[k];
    }
    ok := true;
  }

  lemma WordInside(length: nat, base: nat, at: nat)
    requires base % 8 == 0 && length % 8 == 0 && at < length
    ensures 0 <= base + at - (base + at) % 8 - base && base + at - (base + at) % 8 - base + 8 <= length
  {
  }

  // The code after those of the rewrites that `done` says could be written, in order.
  function Applied(code: seq<byte>, rewrites: seq<Rewrite>, done: seq<bool>): (r: seq<byte>)
    requires |done| == |rewrites| && Inside(rewrites, |code|)
    ensures |r| == |code|
  {
    if rewrites == [] then code
    else
      var n := |rewrites| - 1;
      var before := Applied(code, rewrites[..n], done[..n]);
      if done[n] then Written(before, rewrites[n].at, rewrites[n].bytes) else before
  }

  predicate Inside(rewrites: seq<Rewrite>, length: nat)
  {
    forall k :: 0 <= k < |rewrites| ==> rewrites[k].at + |rewrites[k].bytes| <= length
  }

  // At load any length goes; later only what fits in one aligned word.
  predicate Writable(r: Rewrite, base: nat, atLoad: bool, unprotects: bool)
  {
    unprotects && (atLoad || (r.bytes != [] && (base + r.at) % 8 + |r.bytes| <= 8))
  }

  method WritePatch(memory: array<byte>, base: nat, r: Rewrite, atLoad: bool, unprotects: bool) returns (ok: bool)
    requires WholeWords(memory, base) && r.at + |r.bytes| <= memory.Length
    modifies memory
    ensures ok == Writable(r, base, atLoad, unprotects)
    ensures memory[..] == if ok then Written(old(memory[..]), r.at, r.bytes) else old(memory[..])
  {
    if atLoad {
      ok := PatchCode(memory, r.at, r.bytes, unprotects);
    } else {
      ok := PatchRunningCode(memory, base, r.at, r.bytes, unprotects);
    }
  }

  // The first rewrites are in the code, as far as `done` says.
  ghost predicate AppliedTo(code: seq<byte>, now: seq<byte>, rewrites: seq<Rewrite>, done: seq<bool>)
  {
    Inside(rewrites, |code|) && |done| <= |rewrites| && now == Applied(code, rewrites[..|done|], done)
  }

  lemma InsideAt(rewrites: seq<Rewrite>, length: nat, k: nat)
    requires Inside(rewrites, length) && k < |rewrites|
    ensures rewrites[k].at + |rewrites[k].bytes| <= length
  {
  }

  lemma AppliedStart(code: seq<byte>, rewrites: seq<Rewrite>)
    requires Inside(rewrites, |code|)
    ensures AppliedTo(code, code, rewrites, [])
  {
  }

  lemma AppliedNext(code: seq<byte>, now: seq<byte>, rewrites: seq<Rewrite>, done: seq<bool>, ok: bool)
    requires AppliedTo(code, now, rewrites, done) && |done| < |rewrites|
    ensures rewrites[|done|].at + |rewrites[|done|].bytes| <= |now| == |code|
    ensures AppliedTo(code, if ok then Written(now, rewrites[|done|].at, rewrites[|done|].bytes) else now, rewrites,
                      done + [ok])
  {
    var k := |done|;
    assert rewrites[..k + 1][..k] == rewrites[..k] && (done + [ok])[..k] == done;
  }

  lemma AppliedEnd(code: seq<byte>, now: seq<byte>, rewrites: seq<Rewrite>, done: seq<bool>)
    requires AppliedTo(code, now, rewrites, done) && |done| == |rewrites|
    ensures Inside(rewrites, |code|) && now == Applied(code, rewrites, done)
  {
    assert rewrites[..|rewrites|] == rewrites;
  }

  // Each was written if it could be.
  ghost predicate DoneAs(rewrites: seq<Rewrite>, base: nat, atLoad: bool, unprotects: nat -> bool, done: seq<bool>)
  {
    |done| <= |rewrites| && forall k :: 0 <= k < |done| ==>
      done[k] == Writable(rewrites[k], base, atLoad, unprotects(k))
  }

  lemma DoneNext(rewrites: seq<Rewrite>, base: nat, atLoad: bool, unprotects: nat -> bool, done: seq<bool>, ok: bool)
    requires DoneAs(rewrites, base, atLoad, unprotects, done) && |done| < |rewrites|
    requires ok == Writable(rewrites[|done|], base, atLoad, unprotects(|done|))
    ensures DoneAs(rewrites, base, atLoad, unprotects, done + [ok])
  {
  }

  lemma DoneNone(rewrites: seq<Rewrite>, base: nat, atLoad: bool, unprotects: nat -> bool)
    ensures DoneAs(rewrites, base, atLoad, unprotects, [])
  {
  }

  // Writes the rewrites one after another, and skips what cannot be written.
  method PatchFlipMetering(memory: array<byte>, base: nat, rewrites: seq<Rewrite>, atLoad: bool,
                           unprotects: nat -> bool)
      returns (done: seq<bool>)
    requires WholeWords(memory, base) && Inside(rewrites, memory.Length)
    modifies memory
    ensures |done| == |rewrites| && memory[..] == Applied(old(memory[..]), rewrites, done)
    ensures DoneAs(rewrites, base, atLoad, unprotects, done)
  {
    hide *;
    done := [];
    ghost var code := memory[..];
    AppliedStart(code, rewrites);
    DoneNone(rewrites, base, atLoad, unprotects);
    for k := 0 to |rewrites|
      invariant |done| == k && AppliedTo(code, memory[..], rewrites, done)
      invariant DoneAs(rewrites, base, atLoad, unprotects, done)
    {
      ghost var before := memory[..];
      InsideAt(rewrites, memory.Length, k);
      var ok := WritePatch(memory, base, rewrites[k], atLoad, unprotects(k));
      AppliedNext(code, before, rewrites, done, ok);
      DoneNext(rewrites, base, atLoad, unprotects, done, ok);
      done := done + [ok];
    }
    AppliedEnd(code, memory[..], rewrites, done);
  }

  // ---- What is left ----------------------------------------------------------------------------

  // The matches whose immediates have been written.
  ghost function Flipped(ats: seq<nat>, done: seq<bool>): set<int>
    requires |ats| <= |done|
  {
    set k: nat | k < |ats| && done[k] :: ats[k]
  }

  lemma {:induction false} ImmediatesPatch(code: seq<byte>, d: seq<byte>, off: byte, ats: seq<nat>, done: seq<bool>)
    requires |d| == 4 && |done| == |ats| && Inside(Immediates(ats, off), |code|)
    ensures Patched(code, Applied(code, Immediates(ats, off), done), d, off, Flipped(ats, done), None)
  {
    if ats != [] {
      var n := |ats| - 1;
      var r := Immediates(ats, off);
      assert r[..n] == Immediates(ats[..n], off);
      ImmediatesPatch(code, d, off, ats[..n], done[..n]);
      var before := Flipped(ats[..n], done[..n]);
      assert Flipped(ats, done) == if done[n] then before + {ats[n]} else before by {
        assert forall k: nat :: k < n ==> ats[..n][k] == ats[k] && done[..n][k] == done[k];
      }
    }
  }

  // Every rewrite lies inside the code.
  lemma RewritesInside(code: seq<byte>, flip: Flip, ats: seq<nat>, store: Option<Store>)
    requires Analysed(code, flip, ats, store)
    ensures Inside(flip.rewrites, |code|)
  {
    assert forall k :: 0 <= k < |ats| ==> ats[k] in ats;
  }

  // The re-encoded store, if it could be written.
  ghost function StoreDone(store: Option<Store>, done: seq<bool>): Option<Store>
  {
    if store.Some? && done != [] && done[|done| - 1] then store else None
  }

  // The store comes last: it is written over whatever the immediates left.
  lemma StorePatches(code: seq<byte>, before: seq<byte>, d: seq<byte>, off: byte, flips: set<int>, store: Store)
    requires |d| == 4 && store.rm < 8 && store.at + 7 <= |code| && Patched(code, before, d, off, flips, None)
    ensures Patched(code, Written(before, store.at, StoreBytes(store, d, off)), d, off, flips, Some(store))
  {
  }

  lemma RewritesPatch(code: seq<byte>, flip: Flip, ats: seq<nat>, store: Option<Store>, done: seq<bool>)
    requires Analysed(code, flip, ats, store) && |done| == |flip.rewrites| && Inside(flip.rewrites, |code|)
    ensures |ats| <= |done|
    ensures Patched(code, Applied(code, flip.rewrites, done), DisplacementBytes(flip.flagOffset), flip.off,
                    Flipped(ats, done), StoreDone(store, done))
  {
    hide Patched, MatchAt, Written;
    var n := |ats|;
    var d := DisplacementBytes(flip.flagOffset);
    var first := Immediates(ats, flip.off);
    assert flip.rewrites[..n] == first;
    ImmediatesPatch(code, d, flip.off, ats, done[..n]);
    assert Flipped(ats, done[..n]) == Flipped(ats, done);
    if store == None {
      assert flip.rewrites == first && done[..n] == done;
    } else {
      assert flip.rewrites[..|flip.rewrites| - 1] == first && done[..|done| - 1] == done[..n];
      StorePatches(code, Applied(code, first, done[..n]), d, flip.off, Flipped(ats, done), store.value);
    }
  }

  // However many of the rewrites could be written, no store of the on value to the flag
  // appears that was not there, and none that was rewritten is left. With all of them
  // written, what is left is exactly what the decoder turned down, as stores through a SIB
  // byte, and the re-encoded store does not cover.
  lemma OnlyTurnedDownLeft(code: seq<byte>, flip: Flip, ats: seq<nat>, store: Option<Store>, done: seq<bool>, p: int)
    requires Analysed(code, flip, ats, store) && |done| == |flip.rewrites| && Inside(flip.rewrites, |code|)
    ensures |ats| <= |done|
    ensures var d, on := DisplacementBytes(flip.flagOffset), On(flip.off);
            var now := Applied(code, flip.rewrites, done);
            && (MatchAt(now, d, on, p) ==> MatchAt(code, d, on, p) && forall k :: 0 <= k < |ats| && done[k] ==>
                ats[k] != p)
            && ((forall k :: 0 <= k < |done| ==> done[k]) ==>
                  (MatchAt(now, d, on, p) <==>
                     MatchAt(code, d, on, p) && Rm(code[p + 1]) == 4 &&
                     (store.Some? ==> p + 7 <= store.value.at || store.value.at + 7 <= p)))
  {
    var d, on, off := DisplacementBytes(flip.flagOffset), On(flip.off), flip.off;
    var now := Applied(code, flip.rewrites, done);
    var flips, written := Flipped(ats, done), StoreDone(store, done);
    RewritesPatch(code, flip, ats, store, done);
    DisplacementNotNegative(flip.flagOffset);
    assert AllMatch(code, d, on, flips);
    hide Patched, Applied;
    if MatchAt(now, d, on, p) {
      NoNewMatch(code, now, d, on, off, flips, written, p);
      assert forall k :: 0 <= k < |ats| && done[k] ==> ats[k] in flips;
    }
    if forall k :: 0 <= k < |done| ==> done[k] {
      assert forall k :: 0 <= k < |ats| ==> done[k];
      assert written == store;
      if MatchAt(code, d, on, p) && Rm(code[p + 1]) == 4 &&
         (store.Some? ==> p + 7 <= store.value.at || store.value.at + 7 <= p) {
        OldMatchStays(code, now, d, on, off, flips, written, p);
      }
      assert MatchAt(now, d, on, p) && Rm(code[p + 1]) != 4 ==> p in ats;
    }
  }
}
