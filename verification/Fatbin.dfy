/** Reading fatbin containers (src/kernels/fatbin.cpp:23-75, 157-193). */
module Fatbin {
  import opened Bytes
  import opened Images

  const MAGIC := 0xBA55ED50
  const KIND_PTX := 1
  const FLAG_COMPRESSED := 0x2000
  const FILE_HEADER := 16
  const ENTRY_HEADER := 64
  const MAX_ENTRY_HEADER := 0x200
  const MAX_CONTAINER := 0x1000_0000

  // ---- The two headers -----------------------------------------------------

  function FileHeaderSize(data: seq<byte>): nat requires |data| >= FILE_HEADER { Get(data, 6, 2) }
  function FatSize(data: seq<byte>): nat requires |data| >= FILE_HEADER { Get(data, 8, 8) }

  predicate ContainerHeader(data: seq<byte>)
  {
    && |data| >= FILE_HEADER
    && Get(data, 0, 4) == MAGIC
    && FileHeaderSize(data) >= FILE_HEADER
    && 0 < FatSize(data) <= MAX_CONTAINER
  }

  // Length the container states for itself, 0 when its header does not validate.
  function ContainerSize(data: seq<byte>): nat
  {
    if ContainerHeader(data) then FileHeaderSize(data) + FatSize(data) else 0
  }

  function Kind(e: seq<byte>): nat requires |e| == ENTRY_HEADER { Get(e, 0, 2) }
  function EntryHeaderSize(e: seq<byte>): nat requires |e| == ENTRY_HEADER { Get(e, 4, 4) }
  function PayloadSize(e: seq<byte>): nat requires |e| == ENTRY_HEADER { Get(e, 8, 8) }
  function CompressedSize(e: seq<byte>): nat requires |e| == ENTRY_HEADER { Get(e, 16, 4) }
  function Arch(e: seq<byte>): nat requires |e| == ENTRY_HEADER { Get(e, 28, 4) }
  function Flags(e: seq<byte>): nat requires |e| == ENTRY_HEADER { Get(e, 40, 8) }
  function DecompressedSize(e: seq<byte>): nat requires |e| == ENTRY_HEADER { Get(e, 56, 8) }

  predicate HasFlag(flags: nat) { flags / FLAG_COMPRESSED % 2 == 1 }

  // One bit of the flags, whatever the others are.
  lemma FlagIsOneBit(low: nat, bit: nat, high: nat)
    requires low < FLAG_COMPRESSED && bit < 2
    ensures HasFlag(low + FLAG_COMPRESSED * bit + 2 * FLAG_COMPRESSED * high) <==> bit == 1
  {
    var flags := low + FLAG_COMPRESSED * bit + 2 * FLAG_COMPRESSED * high;
    assert flags / FLAG_COMPRESSED == bit + 2 * high;
  }

  function ImageFrom(e: seq<byte>, offset: nat): Image
    requires |e| == ENTRY_HEADER
  {
    var compressed := HasFlag(Flags(e));
    Image(Kind(e) == KIND_PTX, Arch(e), compressed, offset, offset + EntryHeaderSize(e), PayloadSize(e),
          if compressed then CompressedSize(e) else 0,
          if compressed then DecompressedSize(e) else 0)
  }

  // The image whose header is at `offset`, if one fits there.
  function EntryAt(body: seq<byte>, offset: nat): (image: Option<Image>)
    ensures image.Some? ==> image.value.headerOffset == offset
    ensures image.Some? ==> offset + ENTRY_HEADER <= image.value.payloadOffset <= offset + MAX_ENTRY_HEADER
    ensures image.Some? ==> End(image.value) <= |body|
  {
    match Slice(body, offset, ENTRY_HEADER)
    case None => None
    case Some(e) =>
      if EntryHeaderSize(e) < ENTRY_HEADER || EntryHeaderSize(e) > MAX_ENTRY_HEADER
         || Slice(body, offset + EntryHeaderSize(e), PayloadSize(e)) == None
      then None
      else Some(ImageFrom(e, offset))
  }

  function End(image: Image): nat { image.payloadOffset + image.payloadSize }

  function EntriesFrom(body: seq<byte>, offset: nat): seq<Image>
    decreases |body| - offset
  {
    match EntryAt(body, offset)
    case None => []
    case Some(image) => [image] + EntriesFrom(body, End(image))
  }

  // The images of a container; none when the header or its length does not hold.
  function DescribeOf(data: seq<byte>): seq<Image>
  {
    if !ContainerHeader(data) || ContainerSize(data) > |data| then []
    else EntriesFrom(data[..ContainerSize(data)], FileHeaderSize(data))
  }

  // ---- The loop ------------------------------------------------------------

  ghost predicate Described(body: seq<byte>, start: nat, images: seq<Image>, offset: nat)
  {
    images + EntriesFrom(body, offset) == EntriesFrom(body, start)
  }

  lemma DescribedStep(body: seq<byte>, start: nat, images: seq<Image>, offset: nat)
    requires Described(body, start, images, offset)
    ensures EntryAt(body, offset).Some? ==>
              Described(body, start, images + [EntryAt(body, offset).value], End(EntryAt(body, offset).value))
    ensures EntryAt(body, offset).None? ==> images == EntriesFrom(body, start)
  {
    var entry := EntryAt(body, offset);
    if entry.Some? {
      ConcatAssoc(images, [entry.value], EntriesFrom(body, End(entry.value)));
    } else {
      assert images + [] == images;
    }
  }

  method Describe(data: seq<byte>) returns (ok: bool, images: seq<Image>)
    ensures images == DescribeOf(data)
    ensures ok <==> images != []
  {
    images := [];
    if !ContainerHeader(data) || FileHeaderSize(data) > |data| || FatSize(data) > |data| - FileHeaderSize(data) {
      return false, [];
    }
    var start := FileHeaderSize(data);
    var body := data[..start + FatSize(data)];
    var offset := start;
    assert [] + EntriesFrom(body, start) == EntriesFrom(body, start);
    assert DescribeOf(data) == EntriesFrom(body, start);
    hide EntriesFrom, EntryAt;
    var entry := EntryAt(body, offset);
    while entry.Some?
      invariant entry == EntryAt(body, offset)
      invariant Described(body, start, images, offset)
      decreases |body| - offset
    {
      DescribedStep(body, start, images, offset);
      images := images + [entry.value];
      offset := End(entry.value);
      entry := EntryAt(body, offset);
    }
    DescribedStep(body, start, images, offset);
    ok := images != [];
  }

  // ---- What a description is -------------------------------------------------

  // Images laid end to end from `start`, with nothing between them.
  ghost predicate Tiles(images: seq<Image>, start: nat, end: nat)
  {
    && (images != [] ==> images[0].headerOffset == start)
    && (forall i :: 0 < i < |images| ==> images[i].headerOffset == End(images[i - 1]))
    && (forall i :: 0 <= i < |images| ==>
          images[i].headerOffset + ENTRY_HEADER <= images[i].payloadOffset && End(images[i]) <= end)
  }

  lemma {:induction false} EntriesTile(body: seq<byte>, start: nat)
    requires start <= |body|
    ensures var images := EntriesFrom(body, start);
            && Tiles(images, start, |body|)
            && ENTRY_HEADER * |images| <= |body| - start
            && EntryAt(body, if images == [] then start else End(images[|images| - 1])) == None
    decreases |body| - start
  {
    var entry := EntryAt(body, start);
    if entry.Some? {
      EntriesTile(body, End(entry.value));
      var rest := EntriesFrom(body, End(entry.value));
      var images := EntriesFrom(body, start);
      hide EntriesFrom, EntryAt;
      assert images == [entry.value] + rest;
      assert forall i :: 0 < i < |images| ==> images[i] == rest[i - 1];
    }
  }

  // The images tile the body: the first entry starts where the file header ends,
  // each next one where the last payload ends, all inside the stated length, until
  // no further entry fits.
  lemma DescribeTiles(data: seq<byte>)
    requires DescribeOf(data) != []
    ensures var images := DescribeOf(data);
            && ContainerSize(data) <= |data|
            && Tiles(images, FileHeaderSize(data), ContainerSize(data))
            && ENTRY_HEADER * |images| <= FatSize(data)
            && EntryAt(data[..ContainerSize(data)], End(images[|images| - 1])) == None
  {
    EntriesTile(data[..ContainerSize(data)], FileHeaderSize(data));
  }

  lemma SameHeader(data: seq<byte>, other: seq<byte>)
    requires |data| >= FILE_HEADER && |other| >= FILE_HEADER && data[..FILE_HEADER] == other[..FILE_HEADER]
    ensures ContainerHeader(data) <==> ContainerHeader(other)
    ensures ContainerSize(data) == ContainerSize(other) && FileHeaderSize(data) == FileHeaderSize(other)
  {
    assert data[0..4] == data[..16][0..4] == other[0..4];
    assert data[6..8] == data[..16][6..8] == other[6..8];
    assert data[8..16] == data[..16][8..16] == other[8..16];
  }

  // Bytes past the stated length are never looked at.
  lemma DescribeIsLocal(data: seq<byte>, other: seq<byte>)
    requires ContainerHeader(data) && ContainerSize(data) <= |data| && ContainerSize(data) <= |other|
    requires data[..ContainerSize(data)] == other[..ContainerSize(data)]
    ensures DescribeOf(data) == DescribeOf(other)
  {
    var n := ContainerSize(data);
    assert data[..FILE_HEADER] == data[..n][..FILE_HEADER] == other[..n][..FILE_HEADER] == other[..FILE_HEADER];
    SameHeader(data, other);
    hide EntriesFrom;
  }

  // Every image of a container comes from a header read at its offset.
  lemma {:induction false} EntriesRead(body: seq<byte>, start: nat, i: nat)
    requires i < |EntriesFrom(body, start)|
    ensures EntryAt(body, EntriesFrom(body, start)[i].headerOffset) == Some(EntriesFrom(body, start)[i])
    decreases |body| - start
  {
    var entry := EntryAt(body, start);
    if entry.Some? && i > 0 {
      EntriesRead(body, End(entry.value), i - 1);
      assert EntriesFrom(body, start)[i] == EntriesFrom(body, End(entry.value))[i - 1];
    }
  }

  // Where an image's header and payload lie in the container.
  lemma ImageInside(data: seq<byte>, image: Image)
    requires image in DescribeOf(data)
    ensures image.headerOffset + ENTRY_HEADER <= image.payloadOffset <= End(image) <= ContainerSize(data) <= |data|
    ensures ImageFrom(data[image.headerOffset..image.headerOffset + ENTRY_HEADER], image.headerOffset) == image
    ensures image.payloadOffset <= image.headerOffset + MAX_ENTRY_HEADER
  {
    var body := data[..ContainerSize(data)];
    var start := FileHeaderSize(data);
    var images := EntriesFrom(body, start);
    var i :| 0 <= i < |images| && images[i] == image;
    EntriesRead(body, start, i);
    SliceInside(data, |body|, image.headerOffset);
    hide EntriesFrom, ImageFrom, ContainerHeader, Get;
  }

  lemma SliceInside(data: seq<byte>, n: nat, at: nat)
    requires n <= |data|
    ensures at + ENTRY_HEADER <= n ==> data[..n][at..at + ENTRY_HEADER] == data[at..at + ENTRY_HEADER]
  {
  }
}
