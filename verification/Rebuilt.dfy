/** The container Retarget prints is the one Describe parses back
    (src/kernels/fatbin.cpp:162-193, 239-265). */
module Rebuilt {
  import opened Bytes
  import opened PtxTarget
  import opened Images
  import opened Fatbin
  import opened Retarget

  // ---- The printed headers -----------------------------------------------------

  lemma GetBound(b: seq<byte>, offset: nat, width: nat)
    requires offset + width <= |b|
    ensures Get(b, offset, width) < Pow256(width)
  {
    LeInjective(b[offset..offset + width]);
  }

  // Every Put of NewEntry seen through a field it does not overlap.
  lemma PutsAside(e: seq<byte>, size: nat, arch: nat, at: nat, w: nat)
    requires |e| == ENTRY_HEADER && at + w <= ENTRY_HEADER
    requires at + w <= 8 || (20 <= at && at + w <= 28) || (32 <= at && at + w <= 40) || (48 <= at && at + w <= 56)
    ensures Get(NewEntry(e, size, arch), at, w) == Get(e, at, w)
  {
    var e1 := Put(e, 8, size, 8);
    var e2 := Put(e1, 16, 0, 4);
    var e3 := Put(e2, 28, arch, 4);
    var e4 := Put(e3, 40, ClearFlag(Flags(e3)), 8);
    hide Put, Get;
    GetPutOther(e, 8, size, 8, at, w);
    GetPutOther(e1, 16, 0, 4, at, w);
    GetPutOther(e2, 28, arch, 4, at, w);
    GetPutOther(e3, 40, ClearFlag(Flags(e3)), 8, at, w);
    GetPutOther(e4, 56, 0, 8, at, w);
  }

  lemma FlagsKept(e: seq<byte>, size: nat, arch: nat)
    requires |e| == ENTRY_HEADER
    ensures Flags(Put(Put(Put(e, 8, size, 8), 16, 0, 4), 28, arch, 4)) == Flags(e)
  {
    var e1 := Put(e, 8, size, 8);
    var e2 := Put(e1, 16, 0, 4);
    hide Put, Get;
    GetPutOther(e, 8, size, 8, 40, 8);
    GetPutOther(e1, 16, 0, 4, 40, 8);
    GetPutOther(e2, 28, arch, 4, 40, 8);
  }

  // The fields NewEntry sets, read back.
  lemma NewEntryFields(e: seq<byte>, size: nat, arch: nat)
    requires |e| == ENTRY_HEADER && size < Pow256(8) && arch < Pow256(4)
    ensures var r := NewEntry(e, size, arch);
            && Kind(r) == Kind(e) && EntryHeaderSize(r) == EntryHeaderSize(e)
            && PayloadSize(r) == size && Arch(r) == arch && Flags(r) == ClearFlag(Flags(e))
            && CompressedSize(r) == 0 && DecompressedSize(r) == 0
  {
    PutsAside(e, size, arch, 0, 2);
    PutsAside(e, size, arch, 4, 4);
    FlagsKept(e, size, arch);
    Widths();
    GetBound(e, 40, 8);
    var e1 := Put(e, 8, size, 8);
    var e2 := Put(e1, 16, 0, 4);
    var e3 := Put(e2, 28, arch, 4);
    var flags := ClearFlag(Flags(e3));
    var e4 := Put(e3, 40, flags, 8);
    hide Put, Get, Pow256;
    SetThenKept(e, e1, e2, e3, e4, size, arch, flags);
  }

  lemma SetThenKept(e: seq<byte>, e1: seq<byte>, e2: seq<byte>, e3: seq<byte>, e4: seq<byte>, size: nat, arch: nat,
                    flags: nat)
    requires |e| == ENTRY_HEADER && size < Pow256(8) && arch < Pow256(4) && flags < Pow256(8)
    requires e1 == Put(e, 8, size, 8) && e2 == Put(e1, 16, 0, 4) && e3 == Put(e2, 28, arch, 4) &&
      e4 == Put(e3, 40, flags, 8)
    ensures var r := Put(e4, 56, 0, 8);
            && Get(r, 8, 8) == size && Get(r, 16, 4) == 0 && Get(r, 28, 4) == arch && Get(r, 40, 8) == flags &&
               Get(r, 56, 8) == 0
  {
    hide Put, Get, Pow256;
    GetPut(e, 8, size, 8);
    GetPutOther(e1, 16, 0, 4, 8, 8);
    GetPutOther(e2, 28, arch, 4, 8, 8);
    GetPutOther(e3, 40, flags, 8, 8, 8);
    GetPutOther(e4, 56, 0, 8, 8, 8);
    GetPut(e1, 16, 0, 4);
    GetPutOther(e2, 28, arch, 4, 16, 4);
    GetPutOther(e3, 40, flags, 8, 16, 4);
    GetPutOther(e4, 56, 0, 8, 16, 4);
    GetPut(e2, 28, arch, 4);
    GetPutOther(e3, 40, flags, 8, 28, 4);
    GetPutOther(e4, 56, 0, 8, 28, 4);
    GetPut(e3, 40, flags, 8);
    GetPutOther(e4, 56, 0, 8, 40, 8);
    GetPut(e4, 56, 0, 8);
  }

  // Offsets within an entry header, and behind it, that Retarget does not write.
  predicate Copied(j: int) { !(8 <= j < 20) && !(28 <= j < 32) && !(40 <= j < 48) && !(56 <= j < 64) }

  // The fields nothing here interprets are copied through.
  lemma NewEntryCopies(e: seq<byte>, size: nat, arch: nat, i: nat)
    requires |e| == ENTRY_HEADER && i < ENTRY_HEADER && Copied(i)
    ensures NewEntry(e, size, arch)[i] == e[i]
  {
  }

  lemma NewFileFields(f: seq<byte>, fatSize: nat)
    requires |f| == FILE_HEADER && fatSize < Pow256(8)
    ensures var r := NewFile(f, fatSize);
            Get(r, 0, 4) == Get(f, 0, 4) && Get(r, 6, 2) == Get(f, 6, 2) && Get(r, 8, 8) == fatSize
  {
    GetPut(f, 8, fatSize, 8);
    GetPutOther(f, 8, fatSize, 8, 0, 4);
    GetPutOther(f, 8, fatSize, 8, 6, 2);
  }

  // ---- Parsing one printed entry --------------------------------------------------

  // The pieces of a container with one image, consistent with each other.
  ghost predicate OneImage(f: seq<byte>, fx: seq<byte>, e: seq<byte>, ex: seq<byte>, p: seq<byte>)
  {
    && |f| == FILE_HEADER && |e| == ENTRY_HEADER
    && Get(f, 0, 4) == MAGIC && FileHeaderSize(f) == FILE_HEADER + |fx|
    && FatSize(f) == ENTRY_HEADER + |ex| + |p|
    && EntryHeaderSize(e) == ENTRY_HEADER + |ex| <= MAX_ENTRY_HEADER && PayloadSize(e) == |p|
  }

  function Laid(f: seq<byte>, fx: seq<byte>, e: seq<byte>, ex: seq<byte>, p: seq<byte>): (out: seq<byte>)
    ensures |out| == |f| + |fx| + |e| + |ex| + |p|
  {
    f + (fx + (e + (ex + p)))
  }

  lemma LaidParts(f: seq<byte>, fx: seq<byte>, e: seq<byte>, ex: seq<byte>, p: seq<byte>)
    ensures var out := Laid(f, fx, e, ex, p);
            && out[..|f|] == f
            && out[|f| + |fx|..|f| + |fx| + |e|] == e
            && out[|f| + |fx| + |e| + |ex|..] == p
  {
  }

  lemma LaidHeader(f: seq<byte>, fx: seq<byte>, e: seq<byte>, ex: seq<byte>, p: seq<byte>)
    requires OneImage(f, fx, e, ex, p)
    ensures var out := Laid(f, fx, e, ex, p);
            && (ContainerHeader(out) <==> FatSize(f) <= MAX_CONTAINER)
            && FileHeaderSize(out) == FILE_HEADER + |fx|
            && ContainerSize(out) == (if FatSize(f) <= MAX_CONTAINER then |out| else 0)
  {
    var out := Laid(f, fx, e, ex, p);
    LaidParts(f, fx, e, ex, p);
    assert f[..FILE_HEADER] == f;
    SameHeader(out, f);
  }

  lemma LaidEntry(f: seq<byte>, fx: seq<byte>, e: seq<byte>, ex: seq<byte>, p: seq<byte>)
    requires OneImage(f, fx, e, ex, p)
    ensures var out := Laid(f, fx, e, ex, p); var image := ImageFrom(e, FILE_HEADER + |fx|);
            EntriesFrom(out, FILE_HEADER + |fx|) == [image] && End(image) == |out|
            && out[image.payloadOffset..End(image)] == p
  {
    var out := Laid(f, fx, e, ex, p);
    LaidParts(f, fx, e, ex, p);
    hide Laid, Get;
    var at := FILE_HEADER + |fx|;
    assert Slice(out, at, ENTRY_HEADER) == Some(e);
    var image := ImageFrom(e, at);
    assert EntryAt(out, at) == Some(image);
    assert End(image) == |out|;
    assert EntryAt(out, |out|) == None;
    assert EntriesFrom(out, |out|) == [];
    assert out[image.payloadOffset..|out|] == out[image.payloadOffset..];
  }

  // Parsing gives the one image back, exactly when the length is one Describe accepts.
  lemma LaidDescribed(f: seq<byte>, fx: seq<byte>, e: seq<byte>, ex: seq<byte>, p: seq<byte>)
    requires OneImage(f, fx, e, ex, p)
    ensures DescribeOf(Laid(f, fx, e, ex, p)) ==
            if FatSize(f) <= MAX_CONTAINER then [ImageFrom(e, FILE_HEADER + |fx|)] else []
  {
    LaidHeader(f, fx, e, ex, p);
    LaidEntry(f, fx, e, ex, p);
    var out := Laid(f, fx, e, ex, p);
    hide EntriesFrom, Laid;
    assert out[..|out|] == out;
  }

  // ---- The round trip ----------------------------------------------------------------

  // A buffer a 64-bit process can hold.
  predicate Addressable(ptx: seq<byte>) { |ptx| < 0x8000_0000_0000_0000 }

  // What the rebuilt container states as its body: the source's header and the PTX.
  function RebuiltFatSize(image: Image, ptx: seq<byte>): nat
    requires image.payloadOffset >= image.headerOffset
  {
    image.payloadOffset - image.headerOffset + |ptx|
  }

  lemma NewImage(data: seq<byte>, image: Image, size: nat, arch: nat, start: nat)
    requires image in DescribeOf(data) && arch < 0x1_0000_0000 && size < 0x8000_0000_0000_0000
    ensures image.headerOffset + ENTRY_HEADER <= image.payloadOffset <= |data|
    ensures ImageFrom(NewEntry(HeaderOf(data, image), size, arch), start) ==
            Image(image.isPtx, arch, false, start, start + (image.payloadOffset - image.headerOffset), size, 0, 0)
    ensures EntryHeaderSize(NewEntry(HeaderOf(data, image), size, arch)) == image.payloadOffset - image.headerOffset <=
      MAX_ENTRY_HEADER
    ensures PayloadSize(NewEntry(HeaderOf(data, image), size, arch)) == size
  {
    hide DescribeOf, Get, NewEntry;
    ImageInside(data, image);
    Widths();
    NewEntryFields(HeaderOf(data, image), size, arch);
  }

  lemma BuildLaid(data: seq<byte>, image: Image, ptx: seq<byte>, arch: nat)
    returns (f: seq<byte>, fx: seq<byte>, e: seq<byte>, ex: seq<byte>)
    requires image in DescribeOf(data) && arch < 0x1_0000_0000 && Addressable(ptx)
    ensures Build(data, image, ptx, arch) == Laid(f, fx, e, ex, ptx)
    ensures OneImage(f, fx, e, ex, ptx) && fx == data[FILE_HEADER..FileHeaderSize(data)]
    ensures image.payloadOffset >= image.headerOffset && FatSize(f) == RebuiltFatSize(image, ptx)
    ensures image.headerOffset + ENTRY_HEADER <= |data| && e == NewEntry(HeaderOf(data, image), |ptx|, arch)
    ensures ImageFrom(e, FILE_HEADER + |fx|) ==
            Image(image.isPtx, arch, false, FileHeaderSize(data),
                  FileHeaderSize(data) + (image.payloadOffset - image.headerOffset), |ptx|, 0, 0)
  {
    ImageInside(data, image);
    var start := FileHeaderSize(data);
    var was := HeaderOf(data, image);
    var fat := RebuiltFatSize(image, ptx);
    f := NewFile(data[..FILE_HEADER], fat);
    fx := data[FILE_HEADER..start];
    e := NewEntry(was, |ptx|, arch);
    ex := data[image.headerOffset + ENTRY_HEADER..image.payloadOffset];
    Widths();
    NewImage(data, image, |ptx|, arch, start);
    NewFileFields(data[..FILE_HEADER], fat);
    HeaderPrefix(data);
    hide Get, NewEntry, NewFile, EntriesFrom, ImageFrom, PayloadSize, EntryHeaderSize;
  }

  lemma HeaderPrefix(data: seq<byte>)
    requires ContainerHeader(data)
    ensures Get(data[..FILE_HEADER], 0, 4) == MAGIC && Get(data[..FILE_HEADER], 6, 2) == FileHeaderSize(data)
  {
    assert data[..FILE_HEADER][0..4] == data[0..4];
    assert data[..FILE_HEADER][6..8] == data[6..8];
  }

  // A container of which Describe reads back exactly one plain PTX image for `arch`.
  ghost predicate HoldsJust(out: seq<byte>, ptx: seq<byte>, arch: nat)
  {
    && ContainerSize(out) == |out|
    && |DescribeOf(out)| == 1
    && var image := DescribeOf(out)[0];
       && image.isPtx && image.arch == arch && !image.compressed
       && image.compressedSize == 0 && image.decompressedSize == 0
       && End(image) == |out| && image.payloadOffset <= |out| && out[image.payloadOffset..] == ptx
  }

  // Within the length bound the printed container parses back to the PTX that went
  // in; beyond it, Describe and ContainerSize refuse it.
  lemma BuildParses(data: seq<byte>, image: Image, ptx: seq<byte>, arch: nat)
    requires image in DescribeOf(data) && image.isPtx && arch < 0x1_0000_0000 && Addressable(ptx)
    ensures image.payloadOffset >= image.headerOffset
    ensures var out := Build(data, image, ptx, arch);
            if RebuiltFatSize(image, ptx) <= MAX_CONTAINER then HoldsJust(out, ptx, arch)
            else ContainerSize(out) == 0 && DescribeOf(out) == []
  {
    hide Build, Laid, EntriesFrom, ImageFrom, DescribeOf;
    var f, fx, e, ex := BuildLaid(data, image, ptx, arch);
    LaidDescribed(f, fx, e, ex, ptx);
    LaidHeader(f, fx, e, ex, ptx);
    LaidEntry(f, fx, e, ex, ptx);
    var out, from := Build(data, image, ptx, arch), FILE_HEADER + |fx| + ENTRY_HEADER + |ex|;
    assert out[from..|out|] == out[from..];
  }

  lemma LaidAt(f: seq<byte>, fx: seq<byte>, e: seq<byte>, ex: seq<byte>, p: seq<byte>, i: nat)
    requires i < |f| + |fx| + |e| + |ex|
    ensures var k := |f| + |fx|;
            Laid(f, fx, e, ex, p)[i] ==
            if i < |f| then f[i] else if i < k then fx[i - |f|] else if i < k + |e| then e[i - k] else ex[i - k - |e|]
  {
  }

  lemma BuildPieces(data: seq<byte>, image: Image, ptx: seq<byte>, arch: nat)
    returns (f: seq<byte>, fx: seq<byte>, e: seq<byte>, ex: seq<byte>)
    requires image in DescribeOf(data)
    ensures Build(data, image, ptx, arch) == Laid(f, fx, e, ex, ptx)
    ensures |f| == FILE_HEADER && |e| == ENTRY_HEADER && FILE_HEADER + |fx| == FileHeaderSize(data) <= |data|
    ensures image.headerOffset + ENTRY_HEADER + |ex| == image.payloadOffset <= |data|
    ensures forall i :: 0 <= i < FILE_HEADER && !(8 <= i < 16) ==> f[i] == data[i]
    ensures forall i :: 0 <= i < |fx| ==> fx[i] == data[FILE_HEADER + i]
    ensures e == NewEntry(HeaderOf(data, image), |ptx|, arch)
    ensures forall i :: 0 <= i < |ex| ==> ex[i] == data[image.headerOffset + ENTRY_HEADER + i]
  {
    ImageInside(data, image);
    f := NewFile(data[..FILE_HEADER], (image.payloadOffset - image.headerOffset) + |ptx|);
    e := NewEntry(HeaderOf(data, image), |ptx|, arch);
    fx, ex := data[FILE_HEADER..FileHeaderSize(data)], data[image.headerOffset + ENTRY_HEADER..image.payloadOffset];
    hide NewEntry, DescribeOf, Get;
  }

  // Byte j of the new image header, and of what follows it up to the payload.
  lemma CopyAt(data: seq<byte>, image: Image, ptx: seq<byte>, arch: nat, j: nat,
               f: seq<byte>, fx: seq<byte>, e: seq<byte>, ex: seq<byte>)
    requires image.headerOffset + ENTRY_HEADER <= |data| && |f| == FILE_HEADER && |e| == ENTRY_HEADER && Copied(j)
    requires e == NewEntry(HeaderOf(data, image), |ptx|, arch)
    requires image.headerOffset + ENTRY_HEADER + |ex| <= |data| && j < ENTRY_HEADER + |ex|
    requires forall i :: 0 <= i < |ex| ==> ex[i] == data[image.headerOffset + ENTRY_HEADER + i]
    ensures Laid(f, fx, e, ex, ptx)[FILE_HEADER + |fx| + j] == data[image.headerOffset + j]
  {
    hide *;
    LaidAt(f, fx, e, ex, ptx, FILE_HEADER + |fx| + j);
    if j < ENTRY_HEADER {
      NewEntryCopies(HeaderOf(data, image), |ptx|, arch, j);
      HeaderAt(data, image, j);
    } else {
      assert ex[j - ENTRY_HEADER] == data[image.headerOffset + ENTRY_HEADER + (j - ENTRY_HEADER)];
    }
  }

  // The new container differs from the old one's headers only in the fields that
  // describe the payload: every other byte of the file header, of the bytes behind
  // it and of the image's header is copied.
  lemma BuildCopies(data: seq<byte>, image: Image, ptx: seq<byte>, arch: nat)
    requires image in DescribeOf(data)
    ensures image.headerOffset <= image.payloadOffset <= |data| && FileHeaderSize(data) <= |data|
    ensures |Build(data, image, ptx, arch)| == FileHeaderSize(data) + (image.payloadOffset - image.headerOffset) + |ptx|
    ensures forall i :: 0 <= i < FileHeaderSize(data) && !(8 <= i < 16) ==> Build(data, image, ptx, arch)[i] == data[i]
    ensures forall i :: (0 <= i - FileHeaderSize(data) < image.payloadOffset - image.headerOffset
                         && Copied(i - FileHeaderSize(data))) ==>
                          Build(data, image, ptx, arch)[i] == data[image.headerOffset + (i - FileHeaderSize(data))]
  {
    hide NewEntry, DescribeOf, Build, Laid, HeaderOf, FileHeaderSize, Copied;
    var f, fx, e, ex := BuildPieces(data, image, ptx, arch);
    var start := FileHeaderSize(data);
    forall i | 0 <= i < start && !(8 <= i < 16) ensures Build(data, image, ptx, arch)[i] == data[i] {
      LaidAt(f, fx, e, ex, ptx, i);
    }
    forall i | 0 <= i - start < image.payloadOffset - image.headerOffset && Copied(i - start)
      ensures Build(data, image, ptx, arch)[i] == data[image.headerOffset + (i - start)]
    {
      CopyAt(data, image, ptx, arch, i - start, f, fx, e, ex);
    }
  }

  lemma HeaderAt(data: seq<byte>, image: Image, j: nat)
    requires image.headerOffset + ENTRY_HEADER <= |data| && j < ENTRY_HEADER
    ensures HeaderOf(data, image)[j] == data[image.headerOffset + j]
  {
  }

  // ---- What a successful Retarget is ---------------------------------------------------

  // The facts about a source that the rest of the project uses.
  lemma SourceFacts(env: Env, data: seq<byte>, arch: nat, choice: PtxSource)
    requires Sorts(env) && RetargetOf(env, data, arch, choice).out.Some?
    ensures var images := DescribeOf(data); var source := SourceOf(env, data, choice);
      var r := RetargetOf(env, data, arch, choice);
            && images != [] && !HoldsRunnable(images, arch)
            && source.Some? && source.value.image in images && source.value.image.isPtx
            && r.report == Report(|images|, source.value.image.arch, false, false)
            && source.value.image.payloadOffset >= source.value.image.headerOffset
            && r.out.value == Build(data, source.value.image, Padded(Retargeted(source.value.ptx, arch)), arch)
  {
    hide Build, DescribeOf, SourceOf;
    SourceInside(env, data, choice);
    ImageInside(data, SourceOf(env, data, choice).value.image);
  }

  predicate SizeBound(image: Image, ptx: seq<byte>)
  {
    image.payloadOffset - image.headerOffset + |ptx| <= MAX_CONTAINER
  }

  // The PTX a successful Retarget puts in the new container.
  ghost function NewPtx(env: Env, data: seq<byte>, arch: nat, choice: PtxSource): seq<byte>
    requires Sorts(env) && SourceOf(env, data, choice).Some?
  {
    Padded(Retargeted(SourceOf(env, data, choice).value.ptx, arch))
  }

  // The text, and then as few zeros as fill up eight bytes.
  ghost predicate IsPadded(p: seq<byte>, text: seq<byte>)
  {
    text <= p && |p| - |text| < 8 && |p| % 8 == 0 && forall i :: |text| <= i < |p| ==> p[i] == 0
  }

  lemma PaddedIs(text: seq<byte>)
    ensures IsPadded(Padded(text), text)
  {
  }

  // A payload is no longer than a container can be.
  lemma PayloadShort(env: Env, data: seq<byte>, image: Image)
    requires image in DescribeOf(data)
    ensures End(image) <= |data|
    ensures Payload(env, data, image).Some? ==> |Payload(env, data, image).value| <= MAX_CONTAINER + 0x1_0000
    ensures FileHeaderSize(data) < 0x1_0000 && image.payloadOffset - image.headerOffset <= MAX_ENTRY_HEADER
  {
    ImageInside(data, image);
    FirstImage(data);
    GetBound(data, 6, 2);
    Widths();
    hide DescribeOf, Get, ImageFrom, Pow256;
  }

  // The PTX that goes in: the rewrite at most doubles it, and the padding adds 7 bytes.
  lemma NewPtxShort(env: Env, data: seq<byte>, arch: nat, choice: PtxSource)
    requires Sorts(env) && SourceOf(env, data, choice).Some? && arch < 0x1_0000_0000
    ensures |NewPtx(env, data, arch, choice)| <= 2 * (MAX_CONTAINER + 0x1_0000) + 7
    ensures Addressable(NewPtx(env, data, arch, choice))
  {
    hide SourceOf, Rewrite, DescribeOf, Payload;
    SourcePayload(env, data, choice);
    var source := SourceOf(env, data, choice).value;
    PayloadShort(env, data, source.image);
    DecimalShort(arch);
    AtMostDoubles(source.ptx, DIRECTIVE, Decimal(arch));
  }

  lemma SourcePayload(env: Env, data: seq<byte>, choice: PtxSource)
    requires Sorts(env) && SourceOf(env, data, choice).Some?
    ensures var source := SourceOf(env, data, choice).value;
            source.image in DescribeOf(data) && End(source.image) <= |data| &&
            Payload(env, data, source.image) == Some(source.ptx)
  {
    SourceIsBest(env, data, choice);
    hide Payload, DescribeOf, Choose;
  }

  // An image that states no more than half of what a container may hold, less its headers.
  const SMALL := MAX_CONTAINER / 2 - 0x100_0000

  predicate SmallImages(images: seq<Image>)
  {
    forall image :: image in images ==> image.payloadSize <= SMALL && image.decompressedSize <= SMALL
  }

  // A container of such images is always rebuilt within the bound.
  lemma SmallImagesFit(env: Env, data: seq<byte>, arch: nat, choice: PtxSource)
    requires Sorts(env) && SourceOf(env, data, choice).Some? && arch < 0x1_0000_0000
    requires SmallImages(DescribeOf(data))
    ensures SizeBound(SourceOf(env, data, choice).value.image, NewPtx(env, data, arch, choice))
  {
    hide SourceOf, Rewrite, DescribeOf;
    SourcePayload(env, data, choice);
    var source := SourceOf(env, data, choice).value;
    PayloadShort(env, data, source.image);
    DecimalShort(arch);
    AtMostDoubles(source.ptx, DIRECTIVE, Decimal(arch));
  }

  // So a rebuilt container is always shorter than a 32-bit length can say.
  lemma RebuiltShort(env: Env, data: seq<byte>, arch: nat, choice: PtxSource)
    requires Sorts(env) && arch < 0x1_0000_0000
    ensures RetargetOf(env, data, arch, choice).out.Some? ==>
      |RetargetOf(env, data, arch, choice).out.value| < 0x1_0000_0000
  {
    hide SourceOf, DescribeOf, RetargetOf, Build, HoldsRunnable, Padded, Retargeted;
    if RetargetOf(env, data, arch, choice).out.Some? {
      SourceFacts(env, data, arch, choice);
      NewPtxShort(env, data, arch, choice);
      var source := SourceOf(env, data, choice).value;
      PayloadShort(env, data, source.image);
      BuildCopies(data, source.image, NewPtx(env, data, arch, choice), arch);
    }
  }

  // A successful Retarget prints a container that parses back to exactly one plain
  // PTX image for `arch`, whose bytes are the rewritten PTX and fewer than 8 zeros:
  // so it is runnable, and retargeting it again finds nothing to do. The one
  // condition is the length bound Describe checks; beyond it the result is refused.
  lemma RoundTrip(env: Env, data: seq<byte>, arch: nat, choice: PtxSource)
    requires Sorts(env) && 0 < arch < 0x1_0000_0000
    requires RetargetOf(env, data, arch, choice).out.Some?
    requires SourceOf(env, data, choice).Some?
    ensures var source := SourceOf(env, data, choice).value; var out := RetargetOf(env, data, arch, choice).out.value;
            var ptx := NewPtx(env, data, arch, choice);
            && IsPadded(ptx, Retargeted(source.ptx, arch))
            && (SizeBound(source.image, ptx) <==> ContainerSize(out) != 0)
            && (SizeBound(source.image, ptx) ==>
                  && HoldsJust(out, ptx, arch)
                  && HoldsRunnable(DescribeOf(out), arch)
                  && RetargetOf(env, out, arch, choice) == RetargetResult(None, Report(1, 0, true, false)))
            && (!SizeBound(source.image, ptx) ==> DescribeOf(out) == [])
  {
    SourceFacts(env, data, arch, choice);
    NewPtxShort(env, data, arch, choice);
    var source := SourceOf(env, data, choice).value;
    var ptx := Padded(Retargeted(source.ptx, arch));
    PaddedIs(Retargeted(source.ptx, arch));
    BuildParses(data, source.image, ptx, arch);
    var out := RetargetOf(env, data, arch, choice).out.value;
    hide Build, DescribeOf, SourceOf, Padded, Retargeted, IsPadded;
    if SizeBound(source.image, ptx) {
      assert CanRun(DescribeOf(out)[0].isPtx, DescribeOf(out)[0].arch, arch);
    }
  }

  // ---- The result is another container -------------------------------------------------

  lemma NewEntryArch(e: seq<byte>, size: nat, arch: nat)
    requires |e| == ENTRY_HEADER && arch < Pow256(4)
    ensures Arch(NewEntry(e, size, arch)) == arch && Kind(NewEntry(e, size, arch)) == Kind(e)
  {
    PutsAside(e, size, arch, 0, 2);
    var e2 := Put(Put(e, 8, size, 8), 16, 0, 4);
    var e3 := Put(e2, 28, arch, 4);
    var flags := ClearFlag(Flags(e3));
    var e4 := Put(e3, 40, flags, 8);
    GetPut(e2, 28, arch, 4);
    GetPutOther(e3, 40, flags, 8, 28, 4);
    GetPutOther(e4, 56, 0, 8, 28, 4);
    hide Put, Get;
  }

  // The first image of a container is the one whose header follows the file header.
  lemma FirstImage(data: seq<byte>)
    requires DescribeOf(data) != []
    ensures ContainerHeader(data) && FileHeaderSize(data) + ENTRY_HEADER <= |data|
    ensures DescribeOf(data)[0] ==
            ImageFrom(data[FileHeaderSize(data)..FileHeaderSize(data) + ENTRY_HEADER], FileHeaderSize(data))
  {
    var start := FileHeaderSize(data);
    var body := data[..ContainerSize(data)];
    assert EntryAt(body, start).Some?;
    assert body[start..start + ENTRY_HEADER] == data[start..start + ENTRY_HEADER];
  }

  // A container that were its own rebuild would have held a runnable image already.
  lemma BuildFixpoint(data: seq<byte>, image: Image, ptx: seq<byte>, arch: nat)
    requires image in DescribeOf(data) && image.isPtx && 0 < arch < 0x1_0000_0000
    requires Build(data, image, ptx, arch) == data
    ensures HoldsRunnable(DescribeOf(data), arch)
  {
    Widths();
    ImageInside(data, image);
    var f, fx, e, ex := BuildPieces(data, image, ptx, arch);
    LaidParts(f, fx, e, ex, ptx);
    FirstImage(data);
    NewEntryArch(HeaderOf(data, image), |ptx|, arch);
    hide Build, DescribeOf, Get, NewEntry, Laid;
    var first := DescribeOf(data)[0];
    assert CanRun(first.isPtx, first.arch, arch);
  }
}
