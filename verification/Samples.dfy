/** Small containers and cubins, byte by byte, in the layouts of src/kernels/fatbin.cpp:23-51
    and src/kernels/cubin.cpp:10-60. */
module Samples {
  import opened Bytes
  import opened Images
  import opened Fatbin
  import opened Cubin
  import opened ProviderIndex
  import opened Substitute

  // ---- Fields --------------------------------------------------------------------------

  lemma {:induction false} ZerosCountNothing(b: seq<byte>)
    requires forall i :: 0 <= i < |b| ==> b[i] == 0
    ensures FromLe(b) == 0
  {
    if b != [] {
      ZerosCountNothing(b[1..]);
    }
  }

  // A field whose bytes are zero but for the first two.
  lemma Field(b: seq<byte>, offset: nat, width: nat)
    requires 2 <= width && offset + width <= |b|
    requires forall i :: offset + 2 <= i < offset + width ==> b[i] == 0
    ensures Get(b, offset, width) == b[offset] as int + 0x100 * (b[offset + 1] as int)
  {
    var f := b[offset..offset + width];
    ZerosCountNothing(f[1..][1..]);
    assert FromLe(f[1..]) == f[1..][0];
    assert f[0] == b[offset] && f[1..][0] == b[offset + 1];
  }

  lemma Middle(a: seq<byte>, b: seq<byte>, c: seq<byte>)
    ensures |a + (b + c)| == |a| + |b| + |c|
    ensures (a + (b + c))[|a|..|a| + |b|] == b
  {
  }

  // ---- Containers of two images -----------------------------------------------------------

  // The header of an image: compressed when `packed` says to how many bytes.
  function Entry(kind: byte, arch: byte, packed: byte, size: byte): (e: seq<byte>)
    ensures |e| == ENTRY_HEADER
  {
    seq(ENTRY_HEADER, i =>
      if i == 0 then kind else if i == 4 then ENTRY_HEADER else if i == 8 then size
      else if i == 16 then packed else if i == 28 then arch else if i == 41 && packed > 0 then 0x20 else 0)
  }

  lemma EntryFields(kind: byte, arch: byte, packed: byte, size: byte)
    ensures var e := Entry(kind, arch, packed, size);
            EntryHeaderSize(e) == ENTRY_HEADER && PayloadSize(e) == size
    ensures forall at: nat ::
      ImageFrom(Entry(kind, arch, packed, size), at) ==
      Image(kind == KIND_PTX, arch, packed > 0, at, at + ENTRY_HEADER, size, packed, 0)
  {
    var e := Entry(kind, arch, packed, size);
    Field(e, 0, 2);
    Field(e, 4, 4);
    Field(e, 8, 8);
    Field(e, 16, 4);
    Field(e, 28, 4);
    Field(e, 40, 8);
    Field(e, 56, 8);
    hide Get, Entry;
  }

  function FileHead(body: nat): (f: seq<byte>)
    requires body < 0x1_0000
    ensures |f| == FILE_HEADER && f[..4] == FATBIN_BYTES
  {
    FATBIN_BYTES + [1, 0, FILE_HEADER, 0, body % 0x100, body / 0x100, 0, 0, 0, 0, 0, 0]
  }

  function Pair(e1: seq<byte>, p1: seq<byte>, e2: seq<byte>, p2: seq<byte>): seq<byte>
    requires |e1| == |e2| == ENTRY_HEADER && |p1| + |p2| < 0x1000
  {
    FileHead(2 * ENTRY_HEADER + |p1| + |p2|) + (e1 + (p1 + (e2 + p2)))
  }

  lemma PairHeader(e1: seq<byte>, p1: seq<byte>, e2: seq<byte>, p2: seq<byte>)
    requires |e1| == |e2| == ENTRY_HEADER && |p1| + |p2| < 0x1000
    ensures var data := Pair(e1, p1, e2, p2);
            && |data| == FILE_HEADER + 2 * ENTRY_HEADER + |p1| + |p2|
            && ContainerHeader(data) && FileHeaderSize(data) == FILE_HEADER && ContainerSize(data) == |data|
            && CubinArch(data) == 0
  {
    var data := Pair(e1, p1, e2, p2);
    MagicValues();
    assert data[0..4] == FATBIN_BYTES;
    Field(data, 6, 2);
    Field(data, 8, 8);
    OneMagic(data);
    hide Get, CubinArch;
  }

  lemma PairSlices(e1: seq<byte>, p1: seq<byte>, e2: seq<byte>, p2: seq<byte>)
    requires |e1| == |e2| == ENTRY_HEADER && |p1| + |p2| < 0x1000
    ensures var data := Pair(e1, p1, e2, p2); var second := FILE_HEADER + ENTRY_HEADER + |p1|;
            && |data| == second + ENTRY_HEADER + |p2|
            && data[FILE_HEADER..FILE_HEADER + ENTRY_HEADER] == e1 && data[FILE_HEADER + ENTRY_HEADER..second] == p1
            && data[second..second + ENTRY_HEADER] == e2 && data[second + ENTRY_HEADER..] == p2
  {
    var f := FileHead(2 * ENTRY_HEADER + |p1| + |p2|);
    var rest := p1 + (e2 + p2);
    Middle(f, e1, rest);
    assert f + (e1 + rest) == (f + e1) + (p1 + (e2 + p2));
    Middle(f + e1, p1, e2 + p2);
    assert f + (e1 + rest) == (f + e1 + p1) + (e2 + p2);
    Middle(f + e1 + p1, e2, p2);
    hide FileHead;
  }

  // The images of such a container, and what their payloads are.
  lemma PairDescribed(e1: seq<byte>, p1: seq<byte>, e2: seq<byte>, p2: seq<byte>)
    requires |e1| == |e2| == ENTRY_HEADER && |p1| + |p2| < 0x1000
    requires EntryHeaderSize(e1) == EntryHeaderSize(e2) == ENTRY_HEADER
    requires PayloadSize(e1) == |p1| && PayloadSize(e2) == |p2|
    ensures var data := Pair(e1, p1, e2, p2); var second := FILE_HEADER + ENTRY_HEADER + |p1|;
            DescribeOf(data) == [ImageFrom(e1, FILE_HEADER), ImageFrom(e2, second)]
  {
    PairHeader(e1, p1, e2, p2);
    PairSlices(e1, p1, e2, p2);
    var data := Pair(e1, p1, e2, p2);
    var second := FILE_HEADER + ENTRY_HEADER + |p1|;
    hide Pair, Get, ContainerHeader, PayloadSize, EntryHeaderSize;
    assert data[..|data|] == data;
    assert EntryAt(data, FILE_HEADER) == Some(ImageFrom(e1, FILE_HEADER));
    assert EntryAt(data, second) == Some(ImageFrom(e2, second));
    assert EntryAt(data, |data|) == None;
    assert EntriesFrom(data, second) == [ImageFrom(e2, second)] + EntriesFrom(data, |data|);
  }

  // Two images of given kind, architecture, packed length and payload.
  datatype Sample = Sample(kind: byte, arch: byte, packed: byte, payload: seq<byte>)
  {
    predicate Short() { |payload| < 0x100 }

    function Header(): seq<byte>
      requires Short()
    {
      Entry(kind, arch, packed, |payload|)
    }

    function At(offset: nat): Image
    {
      Image(kind == KIND_PTX, arch, packed > 0, offset, offset + ENTRY_HEADER, |payload|, packed, 0)
    }
  }

  function TwoImages(a: Sample, b: Sample): seq<byte>
    requires a.Short() && b.Short()
  {
    Pair(a.Header(), a.payload, b.Header(), b.payload)
  }

  lemma OpensAsContainer(a: Sample, b: Sample)
    requires a.Short() && b.Short()
    ensures FATBIN_BYTES <= TwoImages(a, b)
  {
  }

  lemma TwoImagesAre(a: Sample, b: Sample)
    requires a.Short() && b.Short()
    ensures var data := TwoImages(a, b); var second := FILE_HEADER + ENTRY_HEADER + |a.payload|;
            && |data| == second + ENTRY_HEADER + |b.payload|
            && CubinArch(data) == 0 && ContainerSize(data) == |data|
            && DescribeOf(data) == [a.At(FILE_HEADER), b.At(second)]
            && data[FILE_HEADER + ENTRY_HEADER..second] == a.payload && data[second + ENTRY_HEADER..|data|] == b.payload
            && FATBIN_BYTES <= data
  {
    OpensAsContainer(a, b);
    EntryFields(a.kind, a.arch, a.packed, |a.payload|);
    EntryFields(b.kind, b.arch, b.packed, |b.payload|);
    hide Entry, Pair, ImageFrom, PayloadSize, EntryHeaderSize, DescribeOf, ContainerHeader, CubinArch;
    PairHeader(a.Header(), a.payload, b.Header(), b.payload);
    PairSlices(a.Header(), a.payload, b.Header(), b.payload);
    PairDescribed(a.Header(), a.payload, b.Header(), b.payload);
  }

  // ---- Cubins of one kernel ------------------------------------------------------------------

  const CUBIN_SIZE := 136

  // The ELF header, the names with one section's in them, and the table of that one section, whose
  // data is the names.
  function SmallCubin(arch: byte): (cubin: seq<byte>)
    ensures |cubin| == CUBIN_SIZE
  {
    ELF_MAGIC + seq(CUBIN_SIZE - 4, k => CubinByte(arch, k + 4))
  }

  // ".text.k"
  const TEXT_K: seq<byte> := [0x2E, 0x74, 0x65, 0x78, 0x74, 0x2E, 0x6B]

  function CubinByte(arch: byte, i: int): byte
  {
    if i == 4 then CLASS_64 else if i == 18 then MACHINE_CUDA
    else if i == 40 then 72 else if i == 48 then arch
    else if i == 58 then SECTION_HEADER else if i == 60 then 1
    else if 64 <= i < 71 then TEXT_K[i - 64]
    else if i == 96 then 64 else if i == 104 then 8
    else 0
  }

  lemma SmallCubinTables(arch: byte)
    ensures var cubin := SmallCubin(arch);
            && Get(cubin, 40, 8) == 72 && Get(cubin, 58, 2) == SECTION_HEADER && Get(cubin, 60, 2) == 1 &&
               Get(cubin, 62, 2) == 0
            && Get(cubin, 32, 8) == Get(cubin, 54, 2) == Get(cubin, 56, 2) == 0
  {
    var cubin := SmallCubin(arch);
    Field(cubin, 32, 8);
    Field(cubin, 40, 8);
    Field(cubin, 54, 2);
    Field(cubin, 56, 2);
    Field(cubin, 58, 2);
    Field(cubin, 60, 2);
    Field(cubin, 62, 2);
    hide Get;
  }

  lemma SmallCubinHeader(arch: byte)
    requires arch > 0
    ensures CubinHeader(SmallCubin(arch)) && CubinArch(SmallCubin(arch)) == arch &&
      CubinSize(SmallCubin(arch)) == CUBIN_SIZE
  {
    var cubin := SmallCubin(arch);
    Field(cubin, 18, 2);
    Field(cubin, 48, 4);
    assert cubin[..4] == ELF_MAGIC;
    SmallCubinTables(arch);
    hide Get, SmallCubin;
  }

  // The same kernel for any architecture.
  lemma SmallCubinSections(arch: byte)
    requires arch > 0
    ensures CubinSize(SmallCubin(arch)) == CUBIN_SIZE && SectionsOf(SmallCubin(arch)) == [Section(TEXT_K, TEXT_K + [0])]
  {
    SmallCubinHeader(arch);
    SmallCubinTables(arch);
    var cubin := SmallCubin(arch);
    var header := cubin[72..CUBIN_SIZE];
    var names := TEXT_K + [0];
    Field(header, 0, 4);
    Field(header, 24, 8);
    Field(header, 32, 8);
    assert cubin[..CUBIN_SIZE] == cubin;
    assert cubin[64..72] == names;
    NameIsText(names);
    hide Get, SmallCubin, CubinHeader, CubinSize, UntilNul;
    assert SectionHeader(cubin, 0) == Some(header);
    assert SectionNames(cubin) == Some(names);
    assert SectionAt(cubin, names, 0) == [Section(TEXT_K, names)];
    assert SectionsFrom(cubin, names, 1) == [];
  }

  lemma NameIsText(names: seq<byte>)
    requires names == TEXT_K + [0]
    ensures UntilNul(names[0..]) == TEXT_K
  {
    UntilIs(TEXT_K, [0]);
    assert names[0..] == TEXT_K + [0];
  }

  lemma {:induction false} UntilIs(name: seq<byte>, rest: seq<byte>)
    requires (forall i :: 0 <= i < |name| ==> name[i] != 0) && rest != [] && rest[0] == 0
    ensures UntilNul(name + rest) == name
  {
    if name == [] {
      assert name + rest == rest;
    } else {
      UntilIs(name[1..], rest);
      assert (name + rest)[1..] == name[1..] + rest;
    }
  }

  lemma SmallCubinIdentity(arch: byte)
    requires arch > 0
    ensures IdentifyOf(SmallCubin(arch)) == Some(Identity([0x6B], HashFrom(TEXT_K + [0], FNV_BASIS), arch, CUBIN_SIZE))
    ensures Fingerprint(SmallCubin(arch)).Some?
  {
    SmallCubinHeader(arch);
    SmallCubinSections(arch);
    var cubin := SmallCubin(arch);
    assert cubin[..CUBIN_SIZE] == cubin;
    assert TEXT_K[|TEXT|..] == [0x6B];
    assert TEXT <= TEXT_K;
    hide SmallCubin, CubinSize, CubinArch, SectionsOf, HashFrom;
  }
}
