/** Kernels that look alike, told apart by the indexes of src/kernels/provider_index.cpp:62-112
    and 138-254: concrete runtimes. */
module KernelsApart {
  import opened Bytes
  import opened Bits
  import opened Fatbin
  import opened Cubin
  import opened ProviderIndex
  import opened IndexBuild
  import opened Samples
  import opened Refusals

  // ---- Hashes of a few bytes -----------------------------------------------------------------

  lemma XorByteIs(a: byte, b: byte, x: bv8, y: bv8)
    requires x as int == a && y as int == b
    ensures XorByte(a, b) == (x ^ y) as int
  {
    IntOfBv(x);
    IntOfBv(y);
  }

  lemma XorIs(h: nat, low: bv8, b: bv8)
    requires h % 0x100 == low as int
    ensures Xor(h, b as int) == h - (low as int) + ((low ^ b) as int)
  {
    XorByteIs(h % 0x100, b as int, low, b);
    hide XorByte;
  }

  // One step of the hash, in numbers: the low byte of h is `low`, and q the quotient of the product.
  lemma HashCons(h: nat, low: bv8, b: bv8, bytes: seq<byte>, rest: seq<byte>, q: nat, g: nat)
    requires h % 0x100 == low as int && bytes == [b as int] + rest
    requires (h - (low as int) + ((low ^ b) as int)) * FNV_PRIME == q * TWO_64 + g && g < TWO_64
    ensures HashFrom(bytes, h) == HashFrom(rest, g)
  {
    XorIs(h, low, b);
    hide Xor;
    Remainder(Xor(h, b as int) * FNV_PRIME, q, g);
    assert bytes[1..] == rest;
  }

  lemma HashNone(h: nat)
    ensures HashFrom([], h) == h
  {
  }

  lemma NamesHash()
    ensures HashFrom([0x2E, 0x74, 0x65, 0x78, 0x74, 0x2E, 0x6B], 0x14650FB0739D0383) == 0x9E09DFC309CB02A3
  {
    hide HashFrom;
    HashCons(0x14650FB0739D0383, 0x83, 0x2E, [0x2E, 0x74, 0x65, 0x78, 0x74, 0x2E, 0x6B],
             [0x74, 0x65, 0x78, 0x74, 0x2E, 0x6B], 0x14650FB096, 0x44BD55D473CD3EF7);
    HashCons(0x44BD55D473CD3EF7, 0xF7, 0x74, [0x74, 0x65, 0x78, 0x74, 0x2E, 0x6B],
             [0x65, 0x78, 0x74, 0x2E, 0x6B], 0x44BD55D4E8, 0x9AF75B00C5C13899);
    HashCons(0x9AF75B00C5C13899, 0x99, 0x65, [0x65, 0x78, 0x74, 0x2E, 0x6B],
             [0x78, 0x74, 0x2E, 0x6B], 0x9AF75B01CD, 0x13889E500753D434);
    HashCons(0x13889E500753D434, 0x34, 0x78, [0x78, 0x74, 0x2E, 0x6B],
             [0x74, 0x2E, 0x6B], 0x13889E5028, 0x84F94DFC7371BD24);
    HashCons(0x84F94DFC7371BD24, 0x24, 0x74, [0x74, 0x2E, 0x6B], [0x2E, 0x6B], 0x84F94DFD55, 0x655CD3F82A44AEF0);
    HashCons(0x655CD3F82A44AEF0, 0xF0, 0x2E, [0x2E, 0x6B], [0x6B], 0x655CD3F8D6, 0x816B0CAFD2B5233A);
    HashCons(0x816B0CAFD2B5233A, 0x3A, 0x6B, [0x6B], [], 0x816B0CB0AE, 0x9E09DFC309CB02A3);
    HashNone(0x9E09DFC309CB02A3);
  }

  lemma NamesHashWithNul()
    ensures HashFrom([0x2E, 0x74, 0x65, 0x78, 0x74, 0x2E, 0x6B, 0x00], 0x14650FB0739D0383) == 0x55C9DB69A3F57AF9
  {
    hide HashFrom;
    HashCons(0x14650FB0739D0383, 0x83, 0x2E, [0x2E, 0x74, 0x65, 0x78, 0x74, 0x2E, 0x6B, 0x00],
             [0x74, 0x65, 0x78, 0x74, 0x2E, 0x6B, 0x00], 0x14650FB096, 0x44BD55D473CD3EF7);
    HashCons(0x44BD55D473CD3EF7, 0xF7, 0x74, [0x74, 0x65, 0x78, 0x74, 0x2E, 0x6B, 0x00],
             [0x65, 0x78, 0x74, 0x2E, 0x6B, 0x00], 0x44BD55D4E8, 0x9AF75B00C5C13899);
    HashCons(0x9AF75B00C5C13899, 0x99, 0x65, [0x65, 0x78, 0x74, 0x2E, 0x6B, 0x00],
             [0x78, 0x74, 0x2E, 0x6B, 0x00], 0x9AF75B01CD, 0x13889E500753D434);
    HashCons(0x13889E500753D434, 0x34, 0x78, [0x78, 0x74, 0x2E, 0x6B, 0x00],
             [0x74, 0x2E, 0x6B, 0x00], 0x13889E5028, 0x84F94DFC7371BD24);
    HashCons(0x84F94DFC7371BD24, 0x24, 0x74, [0x74, 0x2E, 0x6B, 0x00],
             [0x2E, 0x6B, 0x00], 0x84F94DFD55, 0x655CD3F82A44AEF0);
    HashCons(0x655CD3F82A44AEF0, 0xF0, 0x2E, [0x2E, 0x6B, 0x00], [0x6B, 0x00], 0x655CD3F8D6, 0x816B0CAFD2B5233A);
    HashCons(0x816B0CAFD2B5233A, 0x3A, 0x6B, [0x6B, 0x00], [0x00], 0x816B0CB0AE, 0x9E09DFC309CB02A3);
    HashCons(0x9E09DFC309CB02A3, 0xA3, 0x00, [0x00], [], 0x9E09DFC416, 0x55C9DB69A3F57AF9);
    HashNone(0x55C9DB69A3F57AF9);
  }

  lemma NameHash()
    ensures HashFrom([0x6B], 0x14650FB0739D0383) == 0x44BD90D473CDA338
  {
    hide HashFrom;
    HashCons(0x14650FB0739D0383, 0x83, 0x6B, [0x6B], [], 0x14650FB096, 0x44BD90D473CDA338);
    HashNone(0x44BD90D473CDA338);
  }

  lemma ShortKey()
    ensures HashFrom([0xA3, 0x02, 0xCB, 0x09, 0xC3, 0xDF, 0x09, 0x9E], 0x44BD90D473CDA338) == 0xE6ABF35D0C0BC224
  {
    hide HashFrom;
    HashCons(0x44BD90D473CDA338, 0x38, 0xA3, [0xA3, 0x02, 0xCB, 0x09, 0xC3, 0xDF, 0x09, 0x9E],
             [0x02, 0xCB, 0x09, 0xC3, 0xDF, 0x09, 0x9E], 0x44BD90D4E8, 0x9BC0B400C66D0061);
    HashCons(0x9BC0B400C66D0061, 0x61, 0x02, [0x02, 0xCB, 0x09, 0xC3, 0xDF, 0x09, 0x9E],
             [0xCB, 0x09, 0xC3, 0xDF, 0x09, 0x9E], 0x9BC0B401CF, 0x157240512B37A839);
    HashCons(0x157240512B37A839, 0x39, 0xCB, [0xCB, 0x09, 0xC3, 0xDF, 0x09, 0x9E],
             [0x09, 0xC3, 0xDF, 0x09, 0x9E], 0x157240514F, 0xA8CC3BEC6F941336);
    HashCons(0xA8CC3BEC6F941336, 0x36, 0x09, [0x09, 0xC3, 0xDF, 0x09, 0x9E],
             [0xC3, 0xDF, 0x09, 0x9E], 0xA8CC3BED8E, 0x671D11C1989CB40D);
    HashCons(0x671D11C1989CB40D, 0x0D, 0xC3, [0xC3, 0xDF, 0x09, 0x9E],
             [0xDF, 0x09, 0x9E], 0x671D11C247, 0xD319F9F652473A0A);
    HashCons(0xD319F9F652473A0A, 0x0A, 0xDF, [0xDF, 0x09, 0x9E], [0x09, 0x9E], 0xD319F9F7B8, 0xFC5E928DCF08F7EF);
    HashCons(0xFC5E928DCF08F7EF, 0xEF, 0x09, [0x09, 0x9E], [0x9E], 0xFC5E928F7B, 0xDDAAECF6CC3D3BD2);
    HashCons(0xDDAAECF6CC3D3BD2, 0xD2, 0x9E, [0x9E], [], 0xDDAAECF844, 0xE6ABF35D0C0BC224);
    HashNone(0xE6ABF35D0C0BC224);
  }

  lemma LongKey()
    ensures HashFrom([0xF9, 0x7A, 0xF5, 0xA3, 0x69, 0xDB, 0xC9, 0x55], 0x44BD90D473CDA338) == 0x364EA5EB96D4E2BD
  {
    hide HashFrom;
    HashCons(0x44BD90D473CDA338, 0x38, 0xF9, [0xF9, 0x7A, 0xF5, 0xA3, 0x69, 0xDB, 0xC9, 0x55],
             [0x7A, 0xF5, 0xA3, 0x69, 0xDB, 0xC9, 0x55], 0x44BD90D4E8, 0x9BC0DA00C66D40F3);
    HashCons(0x9BC0DA00C66D40F3, 0xF3, 0x7A, [0x7A, 0xF5, 0xA3, 0x69, 0xDB, 0xC9, 0x55],
             [0xF5, 0xA3, 0x69, 0xDB, 0xC9, 0x55], 0x9BC0DA01CF, 0x15F2F8512BA4A8CB);
    HashCons(0x15F2F8512BA4A8CB, 0xCB, 0xF5, [0xF5, 0xA3, 0x69, 0xDB, 0xC9, 0x55],
             [0xA3, 0x69, 0xDB, 0xC9, 0x55], 0x15F2F85150, 0xF0842FED28C9E15A);
    HashCons(0xF0842FED28C9E15A, 0x5A, 0xA3, [0xA3, 0x69, 0xDB, 0xC9, 0x55],
             [0x69, 0xDB, 0xC9, 0x55], 0xF0842FEEC1, 0x7A7F68FC4F0AFA1B);
    HashCons(0x7A7F68FC4F0AFA1B, 0x1B, 0x69, [0x69, 0xDB, 0xC9, 0x55],
             [0xDB, 0xC9, 0x55], 0x7A7F68FD1F, 0x3179D6BA4FA78FB6);
    HashCons(0x3179D6BA4FA78FB6, 0xB6, 0xDB, [0xDB, 0xC9, 0x55], [0xC9, 0x55], 0x3179D6BAA3, 0xB9974B9559B8B637);
    HashCons(0xB9974B9559B8B637, 0x37, 0xC9, [0xC9, 0x55], [0x55], 0xB9974B9695, 0x14CC6CC774DEF19A);
    HashCons(0x14CC6CC774DEF19A, 0x9A, 0x55, [0x55], [], 0x14CC6CC798, 0x364EA5EB96D4E2BD);
    HashNone(0x364EA5EB96D4E2BD);
  }


  // ---- Two variants of one kernel ----------------------------------------------------------------

  // The same kernel as the small cubin, with code that is one byte shorter.
  function OtherCode(arch: byte): (cubin: seq<byte>)
    ensures |cubin| == CUBIN_SIZE
  {
    SmallCubin(arch)[104 := 7]
  }

  lemma OtherCodeHeader(arch: byte)
    requires arch > 0
    ensures CubinHeader(OtherCode(arch)) && CubinArch(OtherCode(arch)) == arch &&
      CubinSize(OtherCode(arch)) == CUBIN_SIZE
    ensures ELF_MAGIC <= OtherCode(arch)
  {
    var cubin, other := SmallCubin(arch), OtherCode(arch);
    SmallCubinHeader(arch);
    SameSizeBehindHeader(cubin, 104, 7);
    assert cubin[..ELF_HEADER] == other[..ELF_HEADER];
    SameElfHeader(cubin[..ELF_HEADER], cubin);
    SameElfHeader(cubin[..ELF_HEADER], other);
    assert other[..4] == ELF_MAGIC;
  }

  lemma OtherCodeTables(arch: byte)
    ensures var cubin := OtherCode(arch);
            Get(cubin, 40, 8) == 72 && Get(cubin, 58, 2) == SECTION_HEADER && Get(cubin, 60, 2) == 1 &&
            Get(cubin, 62, 2) == 0
  {
    SmallCubinTables(arch);
    var cubin, other := SmallCubin(arch), OtherCode(arch);
    assert cubin[40..48] == other[40..48] && cubin[58..60] == other[58..60];
    assert cubin[60..62] == other[60..62] && cubin[62..64] == other[62..64];
  }

  lemma NameIsWhole(names: seq<byte>)
    requires names == TEXT_K
    ensures UntilNul(names[0..]) == TEXT_K
  {
    UntilEnd(TEXT_K);
    assert names[0..] == TEXT_K;
  }

  lemma {:induction false} UntilEnd(name: seq<byte>)
    requires forall i :: 0 <= i < |name| ==> name[i] != 0
    ensures UntilNul(name) == name
  {
    if name != [] {
      UntilEnd(name[1..]);
    }
  }

  lemma OtherCodeBytes(arch: byte, header: seq<byte>)
    requires header == OtherCode(arch)[72..CUBIN_SIZE]
    ensures Get(header, 0, 4) == 0 && Get(header, 24, 8) == 64 && Get(header, 32, 8) == 7
  {
    assert forall k :: 0 <= k < SECTION_HEADER ==> header[k] == if k == 32 then 7 else CubinByte(arch, 72 + k);
    Field(header, 0, 4);
    Field(header, 24, 8);
    Field(header, 32, 8);
    hide Get;
  }

  lemma OtherCodeNames(arch: byte)
    ensures OtherCode(arch)[64..71] == TEXT_K
  {
    var names := OtherCode(arch)[64..71];
    assert forall k :: 0 <= k < 7 ==> names[k] == TEXT_K[k];
  }

  lemma OtherCodeSections(arch: byte)
    requires arch > 0
    ensures CubinSize(OtherCode(arch)) == CUBIN_SIZE && SectionsOf(OtherCode(arch)) == [Section(TEXT_K, TEXT_K)]
  {
    hide Get, OtherCode, SmallCubin, CubinHeader, CubinSize, UntilNul;
    OtherCodeHeader(arch);
    OtherCodeTables(arch);
    var cubin := OtherCode(arch);
    var header := cubin[72..CUBIN_SIZE];
    OtherCodeBytes(arch, header);
    assert cubin[..CUBIN_SIZE] == cubin;
    OtherCodeNames(arch);
    NameIsWhole(TEXT_K);
    assert SectionHeader(cubin, 0) == Some(header);
    assert SectionNames(cubin) == Some(TEXT_K);
    assert SectionAt(cubin, TEXT_K, 0) == [Section(TEXT_K, TEXT_K)];
    assert SectionsFrom(cubin, TEXT_K, 1) == [];
  }

  const LONG_CODE := 0x55C9DB69A3F57AF9
  const SHORT_CODE := 0x9E09DFC309CB02A3

  lemma OtherCodeIdentity(arch: byte)
    requires arch > 0
    ensures IdentifyOf(OtherCode(arch)) == Some(Identity([0x6B], SHORT_CODE, arch, CUBIN_SIZE))
  {
    hide OtherCode, CubinSize, CubinArch, CubinHeader, SectionsOf, HashFrom;
    OtherCodeHeader(arch);
    OtherCodeSections(arch);
    NamesHash();
    var cubin := OtherCode(arch);
    assert cubin[..CUBIN_SIZE] == cubin;
    assert TEXT_K[|TEXT|..] == [0x6B];
    assert TEXT <= TEXT_K;
  }

  lemma LongCodeIdentity(arch: byte)
    requires arch > 0
    ensures IdentifyOf(SmallCubin(arch)) == Some(Identity([0x6B], LONG_CODE, arch, CUBIN_SIZE))
  {
    SmallCubinIdentity(arch);
    NamesHashWithNul();
    assert TEXT_K + [0] == [0x2E, 0x74, 0x65, 0x78, 0x74, 0x2E, 0x6B, 0x00];
    hide IdentifyOf, HashFrom;
  }

  lemma ToLeCons(v: nat, width: nat)
    requires width > 0
    ensures ToLe(v, width) == [v % 0x100] + ToLe(v / 0x100, width - 1)
  {
  }

  lemma ToLeNone(v: nat)
    ensures ToLe(v, 0) == []
  {
  }

  lemma LongBytes()
    ensures ToLe(LONG_CODE, 8) == [0xF9, 0x7A, 0xF5, 0xA3, 0x69, 0xDB, 0xC9, 0x55]
  {
    hide ToLe;
    ToLeNone(0);
    ToLeCons(0x55, 1);
    ToLeCons(0x55C9, 2);
    ToLeCons(0x55C9DB, 3);
    ToLeCons(0x55C9DB69, 4);
    ToLeCons(0x55C9DB69A3, 5);
    ToLeCons(0x55C9DB69A3F5, 6);
    ToLeCons(0x55C9DB69A3F57A, 7);
    ToLeCons(0x55C9DB69A3F57AF9, 8);
  }

  lemma ShortBytes()
    ensures ToLe(SHORT_CODE, 8) == [0xA3, 0x02, 0xCB, 0x09, 0xC3, 0xDF, 0x09, 0x9E]
  {
    hide ToLe;
    ToLeNone(0);
    ToLeCons(0x9E, 1);
    ToLeCons(0x9E09, 2);
    ToLeCons(0x9E09DF, 3);
    ToLeCons(0x9E09DFC3, 4);
    ToLeCons(0x9E09DFC309, 5);
    ToLeCons(0x9E09DFC309CB, 6);
    ToLeCons(0x9E09DFC309CB02, 7);
    ToLeCons(0x9E09DFC309CB02A3, 8);
  }

  lemma KeysDiffer()
    ensures VariantKey([0x6B], LONG_CODE) != VariantKey([0x6B], SHORT_CODE)
  {
    hide HashFrom, ToLe;
    LongBytes();
    ShortBytes();
    NameHash();
    ShortKey();
    LongKey();
  }

  // Two standalone cubins for sm_86 of one name, with different code.
  function TwoVariants(): seq<Span>
  {
    [Span(0x1000, SmallCubin(86)), Span(0x2000, OtherCode(86))]
  }

  lemma NoContainerMagic(arch: byte)
    requires arch != FATBIN_BYTES[0]
    ensures forall i :: 0 <= i < CUBIN_SIZE ==> SmallCubin(arch)[i] != FATBIN_BYTES[0]
    ensures forall i :: 0 <= i < CUBIN_SIZE ==> OtherCode(arch)[i] != FATBIN_BYTES[0]
    ensures ELF_MAGIC <= SmallCubin(arch)
  {
  }

  lemma TwoVariantsScanned()
    ensures ContainersOf(TwoVariants()) == []
    ensures IdentifyOf(SmallCubin(86)).Some? && IdentifyOf(OtherCode(86)).Some?
    ensures CubinsOf(TwoVariants(), []) == [Found(Blob(0x1000, SmallCubin(86)), IdentifyOf(SmallCubin(86)).value),
                                            Found(Blob(0x2000, OtherCode(86)), IdentifyOf(OtherCode(86)).value)]
  {
    hide SmallCubin, OtherCode, ContainersFrom, CubinsFrom, IdentifyOf, CubinSize, CubinArch, CubinHeader;
    var first, second := Span(0x1000, SmallCubin(86)), Span(0x2000, OtherCode(86));
    NoContainerMagic(86);
    NoContainerIn(first, 0);
    NoContainerIn(second, 0);
    SmallCubinHeader(86);
    SmallCubinIdentity(86);
    OtherCodeHeader(86);
    OtherCodeIdentity(86);
    WholeCubin(0x1000, SmallCubin(86), []);
    WholeCubin(0x2000, OtherCode(86), []);
    OneSpan(second, []);
    assert TwoVariants()[1..] == [second];
  }

  // Each is the native twin of the cubin for sm_89 with its own code, and of no other.
  lemma EachItsOwnVariant(index: Index)
    requires IsIndexOf(index, TwoVariants())
    ensures NativeIn(index, SmallCubin(89), 86) == Some(SmallCubin(86))
    ensures NativeIn(index, OtherCode(89), 86) == Some(OtherCode(86))
  {
    hide SmallCubin, OtherCode, ContainersOf, CubinsOf, IdentifyOf, IsIndexOf, NativeIn, TwoVariants, VariantKey;
    LongCodeIdentity(86);
    LongCodeIdentity(89);
    OtherCodeIdentity(86);
    OtherCodeIdentity(89);
    KeysDiffer();
    TwoVariantsScanned();
    NativeSearch(TwoVariants(), index, SmallCubin(89), 86);
    NativeSearch(TwoVariants(), index, OtherCode(89), 86);
    var long := Found(Blob(0x1000, SmallCubin(86)), IdentifyOf(SmallCubin(86)).value);
    var short := Found(Blob(0x2000, OtherCode(86)), IdentifyOf(OtherCode(86)).value);
    LastOfTwo(long, short, VariantKey([0x6B], LONG_CODE), 86);
    LastOfTwo(long, short, VariantKey([0x6B], SHORT_CODE), 86);
  }

  lemma LastOfTwo(a: Found, b: Found, key: nat, arch: nat)
    ensures LastMatch([a, b], key, arch) ==
            if Matches(b, key, arch) then Some(b.blob) else if Matches(a, key, arch) then Some(a.blob) else None
  {
    hide Matches;
    assert [a, b][..1] == [a] && [a][..0] == [];
    assert LastMatch([], key, arch) == None;
  }

  // ---- Two kernels that differ in a letter -----------------------------------------------------------

  // The small cubin of kernel "j".
  function OtherName(): (cubin: seq<byte>)
    ensures |cubin| == CUBIN_SIZE
  {
    SmallCubin(89)[70 := 0x6A]
  }

  function Holder(cubin: seq<byte>): seq<byte>
    requires |cubin| == CUBIN_SIZE
  {
    TwoImages(Sample(KIND_CUBIN, 89, 0, cubin), Sample(KIND_CUBIN, 90, 0, []))
  }

  lemma HolderIs(cubin: seq<byte>)
    requires |cubin| == CUBIN_SIZE
    ensures var data := Holder(cubin);
            && WholeContainer(data) && data != [] && FATBIN_BYTES <= data && |data| == 280
            && KeysOf(data) == if Fingerprint(cubin).Some? then {Fingerprint(cubin).value} else {}
  {
    hide TwoImages, DescribeOf, ContainerSize, CubinArch, Fingerprint;
    var a, b := Sample(KIND_CUBIN, 89, 0, cubin), Sample(KIND_CUBIN, 90, 0, []);
    TwoImagesAre(a, b);
    EmptyCubin();
    var data := Holder(cubin);
    assert data[280..280] == [];
    assert ImageKey(data, a.At(16)) == Fingerprint(cubin) && ImageKey(data, b.At(216)) == None;
    var images := DescribeOf(data);
    assert images[0] == a.At(16) && images[1] == b.At(216);
    assert forall image :: image in images <==> image == a.At(16) || image == b.At(216);
  }

  function TwoHolders(): seq<Span>
  {
    [Span(0, Holder(SmallCubin(89))), Span(0x1000, Holder(OtherName()))]
  }

  lemma TwoHoldersScanned()
    ensures ContainersOf(TwoHolders()) == [Blob(0, Holder(SmallCubin(89))), Blob(0x1000, Holder(OtherName()))]
  {
    hide SmallCubin, OtherName, ContainersFrom, Holder, WholeContainer;
    HolderIs(SmallCubin(89));
    HolderIs(OtherName());
    WholeSpan(0, Holder(SmallCubin(89)));
    WholeSpan(0x1000, Holder(OtherName()));
    OneSpan(Span(0x1000, Holder(OtherName())), []);
    assert TwoHolders()[1..] == [Span(0x1000, Holder(OtherName()))];
  }

  // Each cubin leads to its own container.
  lemma EachItsOwnContainer(index: Index)
    requires IsIndexOf(index, TwoHolders())
    ensures ContainerIn(index, SmallCubin(89)) == Some(Holder(SmallCubin(89)))
    ensures ContainerIn(index, OtherName()) == Some(Holder(OtherName()))
  {
    NamesTold();
    hide SmallCubin, OtherName, ContainersOf, CubinsOf, Holder, TwoHolders, Fingerprint, KeysOf, WholeContainer;
    HolderIs(SmallCubin(89));
    HolderIs(OtherName());
    TwoHoldersScanned();
    var all := ContainersOf(TwoHolders());
    assert forall c :: c in all <==> c == all[0] || c == all[1];
    assert SoleHolder(all, Fingerprint(SmallCubin(89)).value, all[0]);
    assert SoleHolder(all, Fingerprint(OtherName()).value, all[1]);
  }

  lemma LetterAt()
    ensures SmallCubin(89)[70] == 0x6B
  {
  }

  lemma NamesTold()
    ensures Fingerprint(SmallCubin(89)).Some? && Fingerprint(OtherName()).Some?
    ensures Fingerprint(SmallCubin(89)) != Fingerprint(OtherName())
  {
    hide SmallCubin, CubinSize, CubinHeader, CubinArch, Fingerprint;
    SmallCubinHeader(89);
    LetterAt();
    FingerprintTells(SmallCubin(89), 70, 0x6A);
  }
}
