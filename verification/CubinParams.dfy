/** The D3D12 cubin route: the parameter block whose layout is found, rewritten for the call
    and restored (src/kernels/cubin_params.cpp, src/kernels/substitute.cpp:78-107, 373-382,
    src/spoof/nvapi.cpp:218-248). */
module CubinParams {
  import opened Bytes
  import opened Fatbin
  import opened Retarget
  import opened ProviderIndex
  import opened IndexBuild
  import opened Substitute
  import opened Engines
  import opened DriverRoutes

  const MIN_STRUCT := 0x20
  const MAX_STRUCT := 0x400
  const FALLBACK_WINDOW := 0x80
  const PROBE := 32
  const MAX_NAME := 96
  const ADDRESS_SIZE := 8

  // nameOffset is 0 when the block carries no entry-point name.
  datatype BlobFields = BlobFields(
    valid: bool,
    structSize: nat,
    dataOffset: nat,
    sizeOffset: nat,
    nameOffset: nat,
    sizeIs64Bit: bool)

  const NO_FIELDS := BlobFields(false, 0, 0, 0, 0, false)

  type uint64 = i: int | 0 <= i < 0x1_0000_0000_0000_0000

  // The n bytes at an address, when they can be read.
  type Memory = (nat, nat) -> Option<seq<byte>>

  function ReadField(block: seq<byte>, offset: nat, width: nat): Option<nat>
  {
    if offset + width <= |block| then Some(Get(block, offset, width)) else None
  }

  // ---- Finding the layout --------------------------------------------------------------------

  predicate Letter(c: byte) { 0x41 <= c <= 0x5A || 0x61 <= c <= 0x7A || c == 0x5F }
  predicate NameByte(c: byte) { Letter(c) || 0x30 <= c <= 0x39 }

  lemma NameBytesAre(c: char)
    requires c <= '~'
    ensures Letter(c as int) <==> 'A' <= c <= 'Z' || 'a' <= c <= 'z' || c == '_'
    ensures NameByte(c as int) <==> 'A' <= c <= 'Z' || 'a' <= c <= 'z' || c == '_' || '0' <= c <= '9'
  {
  }

  // A C identifier of at least three characters, terminated.
  predicate IsEntryName(text: seq<byte>)
  {
    |text| >= 3 && Letter(text[0]) &&
    exists i :: 3 <= i < |text| && text[i] == 0 && forall j :: 0 <= j < i ==> NameByte(text[j])
  }

  method LooksLikeEntryName(text: seq<byte>) returns (name: bool)
    ensures name <==> IsEntryName(text)
  {
    if |text| < 3 || !Letter(text[0]) {
      return false;
    }
    for i := 0 to |text|
      invariant forall j :: 0 <= j < i ==> NameByte(text[j])
    {
      if text[i] == 0 {
        return i >= 3;
      }
      if !NameByte(text[i]) {
        return false;
      }
    }
    name := false;
  }

  // The block states its own size; anything else falls back to a fixed window.
  function StructSize(block: seq<byte>): nat
  {
    var declared := ReadField(block, 0, 8);
    if declared == None then 0
    else if MIN_STRUCT <= declared.value <= MAX_STRUCT then declared.value
    else FALLBACK_WINDOW
  }

  // The length of the container a pointer field points at, 0 when it points at none.
  function ContainerBehind(block: seq<byte>, memory: Memory, offset: nat): nat
  {
    var candidate := ReadField(block, offset, ADDRESS_SIZE);
    if candidate == None || candidate.value == 0 || memory(candidate.value, PROBE) == None then 0
    else ContainerSize(memory(candidate.value, PROBE).value)
  }

  predicate IsDataField(block: seq<byte>, memory: Memory, window: nat, offset: nat)
  {
    offset % 8 == 0 && 8 <= offset && offset + ADDRESS_SIZE <= window && ContainerBehind(block, memory, offset) != 0
  }

  // A pointer that is not null to bytes that can be read and open a container.
  lemma DataFieldIs(block: seq<byte>, memory: Memory, window: nat, offset: nat)
    requires window <= |block|
    ensures IsDataField(block, memory, window, offset) <==>
            8 <= offset && offset % 8 == 0 && offset + ADDRESS_SIZE <= window &&
            Get(block, offset, ADDRESS_SIZE) != 0 && memory(Get(block, offset, ADDRESS_SIZE), PROBE).Some? &&
            ContainerHeader(memory(Get(block, offset, ADDRESS_SIZE), PROBE).value)
  {
    hide Get;
  }

  method FindDataField(block: seq<byte>, memory: Memory, window: nat) returns (field: Option<(nat, nat)>)
    ensures field.Some? ==> IsDataField(block, memory, window, field.value.0)
    ensures field.Some? ==> field.value.1 == ContainerBehind(block, memory, field.value.0)
    ensures field.Some? ==> forall o: nat :: o < field.value.0 ==> !IsDataField(block, memory, window, o)
    ensures field == None ==> forall o: nat :: !IsDataField(block, memory, window, o)
  {
    var offset := 8;
    while offset + ADDRESS_SIZE <= window
      invariant offset % 8 == 0
      invariant forall o: nat :: o < offset ==> !IsDataField(block, memory, window, o)
    {
      var total := ContainerBehind(block, memory, offset);
      if total != 0 {
        return Some((offset, total));
      }
      offset := offset + ADDRESS_SIZE;
    }
    field := None;
  }

  predicate IsNameField(block: seq<byte>, memory: Memory, window: nat, dataOffset: nat, offset: nat)
  {
    var candidate := ReadField(block, offset, ADDRESS_SIZE);
    offset % 8 == 0 && 8 <= offset && offset + ADDRESS_SIZE <= window && offset != dataOffset &&
    candidate.Some? && candidate.value != 0 && memory(candidate.value, MAX_NAME).Some? &&
    IsEntryName(memory(candidate.value, MAX_NAME).value)
  }

  method FindNameField(block: seq<byte>, memory: Memory, window: nat, dataOffset: nat) returns (offset: nat)
    ensures offset != 0 ==> IsNameField(block, memory, window, dataOffset, offset)
    ensures forall o: nat :: (offset == 0 || o < offset) ==> !IsNameField(block, memory, window, dataOffset, o)
  {
    offset := 8;
    while offset + ADDRESS_SIZE <= window
      invariant offset % 8 == 0 && offset >= 8
      invariant forall o: nat :: o < offset ==> !IsNameField(block, memory, window, dataOffset, o)
    {
      if offset != dataOffset {
        var candidate := ReadField(block, offset, ADDRESS_SIZE);
        if candidate.Some? && candidate.value != 0 && memory(candidate.value, MAX_NAME).Some? {
          var named := LooksLikeEntryName(memory(candidate.value, MAX_NAME).value);
          if named {
            return;
          }
        }
      }
      offset := offset + ADDRESS_SIZE;
    }
    offset := 0;
  }

  predicate IsSizeField(block: seq<byte>, window: nat, size: nat, offset: nat)
  {
    offset % 4 == 0 && 8 <= offset && offset + 4 <= window && ReadField(block, offset, 4) == Some(size)
  }

  method FindSizeField(block: seq<byte>, window: nat, size: nat) returns (field: Option<(nat, bool)>)
    ensures field.Some? ==> IsSizeField(block, window, size, field.value.0)
    ensures field.Some? ==> (field.value.1 <==>
                             field.value.0 + 8 <= window && ReadField(block, field.value.0, 8) == Some(size))
    ensures field.Some? ==> forall o: nat :: o < field.value.0 ==> !IsSizeField(block, window, size, o)
    ensures field == None ==> forall o: nat :: !IsSizeField(block, window, size, o)
  {
    var offset := 8;
    while offset + 4 <= window
      invariant offset % 4 == 0 && offset >= 8
      invariant forall o: nat :: o < offset ==> !IsSizeField(block, window, size, o)
    {
      if ReadField(block, offset, 4) == Some(size) {
        return Some((offset, offset + 8 <= window && ReadField(block, offset, 8) == Some(size)));
      }
      offset := offset + 4;
    }
    field := None;
  }

  function SizeWidth(fields: BlobFields): nat { if fields.sizeIs64Bit then 8 else 4 }

  // The two fields lie inside the block.
  predicate FieldsInside(fields: BlobFields, block: seq<byte>)
  {
    fields.dataOffset + ADDRESS_SIZE <= |block| && fields.sizeOffset + SizeWidth(fields) <= |block|
  }

  // The first pointer to a container, and the first field holding the length that
  // container states for itself, taken as 64 bits wide exactly when it holds that as such.
  ghost predicate Located(block: seq<byte>, memory: Memory, fields: BlobFields)
  {
    && fields.valid && FieldsInside(fields, block) && fields.structSize == StructSize(block)
    && IsDataField(block, memory, fields.structSize, fields.dataOffset)
    && (forall o: nat :: o < fields.dataOffset ==> !IsDataField(block, memory, fields.structSize, o))
    && IsSizeField(block, fields.structSize, ContainerBehind(block, memory, fields.dataOffset), fields.sizeOffset)
    && (fields.sizeIs64Bit <==>
          fields.sizeOffset + 8 <= fields.structSize &&
          ReadField(block, fields.sizeOffset, 8) == Some(ContainerBehind(block, memory, fields.dataOffset)))
    && Get(block, fields.sizeOffset, SizeWidth(fields)) == ContainerBehind(block, memory, fields.dataOffset)
    && (forall o: nat :: o < fields.sizeOffset ==>
          !IsSizeField(block, fields.structSize, ContainerBehind(block, memory, fields.dataOffset), o))
    && (fields.nameOffset != 0 ==> IsNameField(block, memory, fields.structSize, fields.dataOffset, fields.nameOffset))
    && (forall o: nat :: fields.nameOffset == 0 || o < fields.nameOffset ==>
          !IsNameField(block, memory, fields.structSize, fields.dataOffset, o))
  }

  // No pointer to a container comes with a field for its length.
  ghost predicate NoLayout(block: seq<byte>, memory: Memory)
  {
    forall d: nat, n: nat :: !(IsDataField(block, memory, StructSize(block), d) &&
      (forall o: nat :: o < d ==> !IsDataField(block, memory, StructSize(block), o)) &&
      IsSizeField(block, StructSize(block), ContainerBehind(block, memory, d), n))
  }

  method LocateBlob(block: seq<byte>, memory: Memory) returns (fields: BlobFields)
    ensures fields.valid ==> Located(block, memory, fields)
    ensures !fields.valid ==> NoLayout(block, memory)
  {
    fields := NO_FIELDS;
    var window := StructSize(block);
    if window == 0 {
      return;
    }
    fields := fields.(structSize := window);
    var data := FindDataField(block, memory, window);
    if data == None {
      return;
    }
    var name := FindNameField(block, memory, window, data.value.0);
    fields := fields.(dataOffset := data.value.0, nameOffset := name);
    var size := FindSizeField(block, window, data.value.1);
    if size.Some? {
      fields := fields.(valid := true, sizeOffset := size.value.0, sizeIs64Bit := size.value.1);
    }
  }

  // ---- Reading and writing the two fields ----------------------------------------------------

  datatype Extent = Extent(data: nat, size: nat)

  function ReadBlob(block: seq<byte>, fields: BlobFields): Option<Extent>
  {
    if fields.valid && FieldsInside(fields, block)
    then Some(Extent(Get(block, fields.dataOffset, ADDRESS_SIZE), Get(block, fields.sizeOffset, SizeWidth(fields))))
    else None
  }

  // The pointer first, then the length, cut to the width of its field.
  function Wrote(block: seq<byte>, fields: BlobFields, blob: Extent): (r: seq<byte>)
    requires FieldsInside(fields, block)
    ensures |r| == |block|
  {
    Put(Put(block, fields.dataOffset, blob.data, ADDRESS_SIZE), fields.sizeOffset, blob.size, SizeWidth(fields))
  }

  method StoreField(block: array<byte>, offset: nat, v: nat, width: nat)
    requires offset + width <= block.Length
    modifies block
    ensures block[..] == Put(old(block[..]), offset, v, width)
  {
    var bytes := ToLe(v, width);
    forall k | 0 <= k < width {
      block[offset + k] := bytes[k];
    }
  }

  method WriteBlob(block: array<byte>, fields: BlobFields, blob: Extent)
    requires fields.valid && FieldsInside(fields, block[..])
    modifies block
    ensures block[..] == Wrote(old(block[..]), fields, blob)
  {
    StoreField(block, fields.dataOffset, blob.data, ADDRESS_SIZE);
    StoreField(block, fields.sizeOffset, blob.size, SizeWidth(fields));
  }

  predicate InFields(fields: BlobFields, q: int)
  {
    fields.dataOffset <= q < fields.dataOffset + ADDRESS_SIZE ||
    fields.sizeOffset <= q < fields.sizeOffset + SizeWidth(fields)
  }

  lemma PutBack(was: seq<byte>, now: seq<byte>, offset: nat, width: nat)
    requires offset + width <= |was| && |now| == |was|
    ensures var r := Put(now, offset, Get(was, offset, width), width);
            |r| == |was| && forall q :: 0 <= q < |was| ==> r[q] == if offset <= q < offset + width then was[q]
              else now[q]
  {
    var field := was[offset..offset + width];
    LeInjective(field);
    assert Put(now, offset, Get(was, offset, width), width) == now[..offset] + field + now[offset + width..];
  }

  function Carried(block: seq<byte>, fields: BlobFields): (extent: Extent)
    requires fields.valid && FieldsInside(fields, block)
    ensures ReadBlob(block, fields) == Some(extent)
  {
    ReadBlob(block, fields).value
  }

  // Writing back what was read restores both fields byte for byte, though they overlap, and
  // touches nothing else.
  lemma Restored(was: seq<byte>, now: seq<byte>, fields: BlobFields)
    requires fields.valid && FieldsInside(fields, was) && |now| == |was|
    ensures var r := Wrote(now, fields, ReadBlob(was, fields).value);
            forall q :: 0 <= q < |was| ==> r[q] == if InFields(fields, q) then was[q] else now[q]
  {
    hide Put, Get;
    PutBack(was, now, fields.dataOffset, ADDRESS_SIZE);
    var mid := Put(now, fields.dataOffset, Get(was, fields.dataOffset, ADDRESS_SIZE), ADDRESS_SIZE);
    PutBack(was, mid, fields.sizeOffset, SizeWidth(fields));
  }

  // The length fits its field, and where the two fields overlap the pointer and the length
  // have the same bytes: so in particular when they do not overlap.
  predicate FitsFields(fields: BlobFields, extent: Extent)
  {
    extent.data < Pow256(ADDRESS_SIZE) && extent.size < Pow256(SizeWidth(fields)) &&
    forall i, j ::
      0 <= i < ADDRESS_SIZE && 0 <= j < SizeWidth(fields) && fields.dataOffset + i == fields.sizeOffset + j ==>
      ToLe(extent.data, ADDRESS_SIZE)[i] == ToLe(extent.size, SizeWidth(fields))[j]
  }

  predicate FieldsApart(fields: BlobFields)
  {
    fields.dataOffset + ADDRESS_SIZE <= fields.sizeOffset || fields.sizeOffset + SizeWidth(fields) <= fields.dataOffset
  }

  // A field reads as a value exactly when its bytes are the value's.
  lemma ReadsAs(b: seq<byte>, offset: nat, width: nat, v: nat)
    requires offset + width <= |b|
    ensures Get(b, offset, width) == v <==> v < Pow256(width) && b[offset..offset + width] == ToLe(v, width)
  {
    LeInjective(b[offset..offset + width]);
    if v < Pow256(width) {
      LeRoundTrip(v, width);
    }
  }

  lemma PutAt(b: seq<byte>, offset: nat, v: nat, width: nat, q: nat)
    requires offset + width <= |b| && q < |b|
    ensures Put(b, offset, v, width)[q] == if offset <= q < offset + width then ToLe(v, width)[q - offset] else b[q]
  {
    assert Put(b, offset, v, width)[offset..offset + width] == ToLe(v, width);
  }

  lemma WroteAt(block: seq<byte>, fields: BlobFields, extent: Extent, q: nat)
    requires FieldsInside(fields, block) && q < |block|
    ensures Wrote(block, fields, extent)[q] ==
            if fields.sizeOffset <= q < fields.sizeOffset + SizeWidth(fields)
              then ToLe(extent.size, SizeWidth(fields))[q - fields.sizeOffset]
            else if fields.dataOffset <= q < fields.dataOffset + ADDRESS_SIZE
              then ToLe(extent.data, ADDRESS_SIZE)[q - fields.dataOffset]
            else block[q]
  {
    hide Put, ToLe;
    PutAt(block, fields.dataOffset, extent.data, ADDRESS_SIZE, q);
    PutAt(Put(block, fields.dataOffset, extent.data, ADDRESS_SIZE), fields.sizeOffset, extent.size, SizeWidth(fields),
          q);
  }

  // What is written is what is read, exactly when it fits the fields.
  lemma ReadsWritten(block: seq<byte>, fields: BlobFields, extent: Extent)
    requires fields.valid && FieldsInside(fields, block)
    ensures ReadBlob(Wrote(block, fields, extent), fields) == Some(extent) <==> FitsFields(fields, extent)
  {
    hide Wrote, ToLe, Get;
    var r, w := Wrote(block, fields, extent), SizeWidth(fields);
    var d, s := fields.dataOffset, fields.sizeOffset;
    ReadsAs(r, d, ADDRESS_SIZE, extent.data);
    ReadsAs(r, s, w, extent.size);
    forall j | 0 <= j < w
      ensures r[s..s + w][j] == ToLe(extent.size, w)[j]
    {
      WroteAt(block, fields, extent, s + j);
    }
    forall i | 0 <= i < ADDRESS_SIZE
      ensures r[d..d + ADDRESS_SIZE][i] == if s <= d + i < s + w then ToLe(extent.size, w)[d + i - s]
        else ToLe(extent.data, ADDRESS_SIZE)[i]
    {
      WroteAt(block, fields, extent, d + i);
    }
    assert r[s..s + w] == ToLe(extent.size, w);
    if r[d..d + ADDRESS_SIZE] == ToLe(extent.data, ADDRESS_SIZE) {
      forall i, j | 0 <= i < ADDRESS_SIZE && 0 <= j < w && d + i == s + j
        ensures ToLe(extent.data, ADDRESS_SIZE)[i] == ToLe(extent.size, w)[j]
      {
        assert r[d..d + ADDRESS_SIZE][i] == ToLe(extent.size, w)[d + i - s];
      }
    }
  }

  // Fields that do not overlap hold any pointer and any length of their width.
  lemma ApartFits(fields: BlobFields, extent: Extent)
    requires FieldsApart(fields) && extent.data < Pow256(ADDRESS_SIZE) && extent.size < Pow256(SizeWidth(fields))
    ensures FitsFields(fields, extent)
  {
  }

  // ---- Fields that overlap -----------------------------------------------------------------

  function Zeros(n: nat): (z: seq<byte>)
    ensures |z| == n
  {
    seq(n, i => 0)
  }

  // The header of a container of 32 bytes, and a block whose pointer to it has that length for
  // its low half.
  function SmallContainer(): (header: seq<byte>)
    ensures |header| == PROBE
  {
    ToLe(MAGIC, 4) + Zeros(2) + ToLe(16, 2) + ToLe(16, 8) + Zeros(16)
  }

  function OverlappingBlock(): (block: seq<byte>)
    ensures |block| == 32
  {
    ToLe(MIN_STRUCT, 8) + ToLe(32, 4) + ToLe(1, 4) + Zeros(16)
  }

  lemma SmallContainerSize()
    ensures ContainerSize(SmallContainer()) == 32
  {
    hide ToLe, FromLe;
    Widths();
    var h := SmallContainer();
    assert h[0..4] == ToLe(MAGIC, 4) && h[6..8] == ToLe(16, 2) && h[8..16] == ToLe(16, 8);
    LeRoundTrip(MAGIC, 4);
    LeRoundTrip(16, 2);
    LeRoundTrip(16, 8);
  }

  lemma ToLeHead(v: nat, width: nat)
    requires width > 0
    ensures ToLe(v, width)[0] == v % 0x100
  {
  }

  lemma OverlappingBytes(block: seq<byte>)
    requires block == OverlappingBlock()
    ensures block[8] == 32 && block[12] == 1
  {
    hide ToLe;
    ToLeHead(32, 4);
    ToLeHead(1, 4);
  }

  // The field at 8 is neither a null pointer nor, in 64 bits, the length.
  lemma OverlappingPointer(block: seq<byte>)
    requires |block| == 32 && block[8] == 32 && block[12] == 1
    ensures Get(block, 8, ADDRESS_SIZE) !in {0, 32}
  {
    assert ToLe(0, 8)[0] == 0 && ToLe(32, 8)[4] == 0;
    hide ToLe, Get;
    ReadsAs(block, 8, ADDRESS_SIZE, 0);
    ReadsAs(block, 8, ADDRESS_SIZE, 32);
    assert block[8..16][0] == 32 && block[8..16][4] == 1;
  }

  lemma OverlappingFields()
    ensures var block := OverlappingBlock();
            Get(block, 0, 8) == MIN_STRUCT && Get(block, 8, 4) == 32 && Get(block, 8, ADDRESS_SIZE) !in {0, 32}
  {
    hide OverlappingBlock, Get;
    OverlappingBytes(OverlappingBlock());
    OverlappingPointer(OverlappingBlock());
    OverlappingNumbers(OverlappingBlock());
  }

  lemma OverlappingNumbers(block: seq<byte>)
    requires block == OverlappingBlock()
    ensures Get(block, 0, 8) == MIN_STRUCT && Get(block, 8, 4) == 32
  {
    hide ToLe, FromLe;
    Widths();
    assert block[0..8] == ToLe(MIN_STRUCT, 8) && block[8..12] == ToLe(32, 4);
    LeRoundTrip(MIN_STRUCT, 8);
    LeRoundTrip(32, 4);
  }

  const OVERLAPPING := BlobFields(true, MIN_STRUCT, 8, 8, 0, false)

  // The container is all that can be read, and no name.
  function SmallMemory(): Memory
  {
    (p: nat, n: nat) => if n == PROBE then Some(SmallContainer()) else None
  }

  lemma OverlappingLocated()
    ensures Located(OverlappingBlock(), SmallMemory(), OVERLAPPING)
  {
    hide Get, ContainerSize, SmallContainer, OverlappingBlock;
    OverlappingFields();
    SmallContainerSize();
  }

  lemma OverlappingDoesNotFit()
    ensures !FitsFields(OVERLAPPING, Extent(32, 33))
  {
    assert ToLe(32, 8)[0] == 32 && ToLe(33, 4)[0] == 33;
    hide ToLe, Pow256;
    assert OVERLAPPING.dataOffset + 0 == OVERLAPPING.sizeOffset + 0;
  }

  // The search can settle on fields that overlap, and the length then overwrites the pointer:
  // whatever block is written through them, it does not name 33 bytes at address 32.
  lemma OverlapLosesThePointer(block: seq<byte>)
    requires FieldsInside(OVERLAPPING, block)
    ensures Located(OverlappingBlock(), SmallMemory(), OVERLAPPING) && !FieldsApart(OVERLAPPING)
    ensures ReadBlob(Wrote(block, OVERLAPPING, Extent(32, 33)), OVERLAPPING) != Some(Extent(32, 33))
  {
    hide Located, FitsFields, ReadBlob, Wrote;
    OverlappingLocated();
    OverlappingDoesNotFit();
    ReadsWritten(block, OVERLAPPING, Extent(32, 33));
  }

  // ---- The hook ----------------------------------------------------------------------------

  // The driver reads the block and may write its own parts of it: the attempt's status, and
  // the block as it leaves it.
  type BlockDriver = (nat, seq<byte>) -> (int, seq<byte>)

  ghost predicate KeepsLength(driver: BlockDriver)
  {
    forall n, b :: |driver(n, b).1| == |b|
  }

  // The driver leaves this byte alone.
  ghost predicate LeavesByte(driver: BlockDriver, q: nat)
    requires KeepsLength(driver)
  {
    forall n, b :: q < |b| ==> driver(n, b).1[q] == b[q]
  }

  method CallDriver(block: array<byte>, driver: BlockDriver, n: nat) returns (status: int)
    requires |driver(n, block[..]).1| == block.Length
    modifies block
    ensures status == driver(n, old(block[..])).0 && block[..] == driver(n, old(block[..])).1
  {
    var answer := driver(n, block[..]);
    forall k | 0 <= k < block.Length {
      block[k] := answer.1[k];
    }
    status := answer.0;
  }

  // Where an image's bytes lie, and how many they are.
  function ExtentOf(place: seq<byte> -> uint64, image: seq<byte>): Extent
  {
    Extent(place(image), |image|)
  }

  // The block as the driver finds it when it is called with an image.
  function Naming(block: seq<byte>, layout: BlobFields, place: seq<byte> -> uint64, image: seq<byte>): (r: seq<byte>)
    requires FieldsInside(layout, block)
    ensures |r| == |block|
  {
    Wrote(block, layout, ExtentOf(place, image))
  }

  // The block as the driver leaves it after the first n calls.
  ghost function LeftAfter(was: seq<byte>, layout: BlobFields, place: seq<byte> -> uint64, driver: BlockDriver,
                           handed: seq<seq<byte>>, n: nat): (left: seq<byte>)
    requires KeepsLength(driver) && FieldsInside(layout, was) && n <= |handed|
    ensures |left| == |was|
  {
    if n == 0 then was
    else driver(n - 1, Naming(LeftAfter(was, layout, place, driver, handed, n - 1), layout, place, handed[n - 1])).1
  }

  // Outside the fields, a byte the driver leaves alone stays what it was through all calls.
  lemma {:induction false} NoOtherByte(was: seq<byte>, layout: BlobFields, place: seq<byte> -> uint64,
                                       driver: BlockDriver, handed: seq<seq<byte>>, n: nat, q: nat)
    requires KeepsLength(driver) && FieldsInside(layout, was) && n <= |handed| && q < |was|
    requires LeavesByte(driver, q) && !InFields(layout, q)
    ensures LeftAfter(was, layout, place, driver, handed, n)[q] == was[q]
  {
    if n > 0 {
      NoOtherByte(was, layout, place, driver, handed, n - 1, q);
      WroteAt(LeftAfter(was, layout, place, driver, handed, n - 1), layout, ExtentOf(place, handed[n - 1]), q);
      hide Wrote;
    }
  }

  // Both fields are what they were, and every other byte what the last call left.
  ghost predicate PutBackOnly(was: seq<byte>, left: seq<byte>, now: seq<byte>, layout: BlobFields)
  {
    |now| == |left| == |was| && forall q :: 0 <= q < |was| ==> now[q] == if InFields(layout, q) then was[q] else left[q]
  }

  // So no byte the driver leaves alone has changed.
  lemma LeftBytesStay(was: seq<byte>, now: seq<byte>, layout: BlobFields, place: seq<byte> -> uint64,
                      driver: BlockDriver, handed: seq<seq<byte>>)
    requires KeepsLength(driver) && FieldsInside(layout, was)
    requires PutBackOnly(was, LeftAfter(was, layout, place, driver, handed, |handed|), now, layout)
    ensures forall q :: 0 <= q < |was| && LeavesByte(driver, q) ==> now[q] == was[q]
  {
    hide LeavesByte, LeftAfter;
    forall q | 0 <= q < |was| && LeavesByte(driver, q)
      ensures now[q] == was[q]
    {
      if !InFields(layout, q) {
        NoOtherByte(was, layout, place, driver, handed, |handed|, q);
      }
    }
  }

  // The calls made with a replacement, what the block names at each, and what the last of
  // them answered.
  ghost predicate Attempts(env: Env, after: Views, request: Request, target: uint32, multiFrame: bool, active: bool,
                           first: Substitution, was: seq<byte>, layout: BlobFields, place: seq<byte> -> uint64,
                           driver: BlockDriver, status: int, handed: seq<seq<byte>>, named: seq<Option<Extent>>)
    requires Sorts(env) && KeepsLength(driver) && FieldsInside(layout, was)
  {
    var fallback := FallbackOf(env, after, request, target, multiFrame, first, active);
    var block := Naming(was, layout, place, first.image);
    var one := driver(0, block);
    if one.0 != 0 && fallback.Some? then
      var again := Naming(one.1, layout, place, fallback.value.image);
      handed == [first.image, fallback.value.image] &&
      named == [ReadBlob(block, layout), ReadBlob(again, layout)] && status == driver(1, again).0
    else handed == [first.image] && named == [ReadBlob(block, layout)] && status == one.0
  }

  lemma OneAttempt(env: Env, after: Views, request: Request, target: uint32, multiFrame: bool, active: bool,
                   first: Substitution, was: seq<byte>, layout: BlobFields, place: seq<byte> -> uint64,
                   driver: BlockDriver, block: seq<byte>)
    requires Sorts(env) && KeepsLength(driver) && FieldsInside(layout, was)
    requires block == Naming(was, layout, place, first.image)
    requires driver(0, block).0 == 0 || FallbackOf(env, after, request, target, multiFrame, first, active) == None
    ensures Attempts(env, after, request, target, multiFrame, active, first, was, layout, place, driver,
                     driver(0, block).0, [first.image], [ReadBlob(block, layout)])
    ensures LeftAfter(was, layout, place, driver, [first.image], 1) == driver(0, block).1
  {
    hide FallbackOf, Naming, ReadBlob;
    assert LeftAfter(was, layout, place, driver, [first.image], 0) == was;
  }

  lemma TwoAttempts(env: Env, after: Views, request: Request, target: uint32, multiFrame: bool, active: bool,
                    first: Substitution, second: Substitution, was: seq<byte>, layout: BlobFields,
                    place: seq<byte> -> uint64, driver: BlockDriver, block: seq<byte>, again: seq<byte>)
    requires Sorts(env) && KeepsLength(driver) && FieldsInside(layout, was)
    requires block == Naming(was, layout, place, first.image) && driver(0, block).0 != 0
    requires FallbackOf(env, after, request, target, multiFrame, first, active) == Some(second)
    requires again == Naming(driver(0, block).1, layout, place, second.image)
    ensures Attempts(env, after, request, target, multiFrame, active, first, was, layout, place, driver,
                     driver(1, again).0, [first.image, second.image],
                     [ReadBlob(block, layout), ReadBlob(again, layout)])
    ensures LeftAfter(was, layout, place, driver, [first.image, second.image], 2) == driver(1, again).1
  {
    hide FallbackOf, Naming, ReadBlob;
    var handed := [first.image, second.image];
    assert LeftAfter(was, layout, place, driver, handed, 0) == was;
    assert LeftAfter(was, layout, place, driver, handed, 1) == driver(0, block).1;
  }

  // A second replacement is of an older build than the first.
  ghost predicate SecondOlder(env: Env, before: Views, after: Views, request: Request, target: uint32, multiFrame: bool,
                              active: bool, first: Substitution, handed: seq<seq<byte>>)
    requires Sorts(env)
  {
    var fallback := FallbackOf(env, after, request, target, multiFrame, first, active);
    |handed| > 1 ==>
      fallback.Some? && handed[1] == fallback.value.image &&
      Older(before, after, request, target, first, fallback.value)
  }

  // What the calls carry is never the original, and as safe as on the other routes.
  lemma AttemptsSafely(env: Env, memory: Module -> seq<Span>, before: Views, after: Views, options: Options,
                       request: Request, target: uint32, active: bool, was: seq<byte>, layout: BlobFields,
                       place: seq<byte> -> uint64, driver: BlockDriver, status: int, handed: seq<seq<byte>>,
                       named: seq<Option<Extent>>)
    requires Sorts(env) && KeepsLength(driver) && FieldsInside(layout, was)
    requires Built(memory, before) && Built(memory, after) && Extends(before.refused, after.asked)
    requires var outcome := DecideFromOf(env, before, request, target, PreferredSource(options), active);
             var first := Substitution(outcome.image, outcome.report.sourceArch);
             && outcome.decision == Substituted && options.enabled
             && Attempts(env, after, request, target, options.multiFrame, active, first, was, layout, place, driver,
                         status, handed, named)
    ensures var outcome := DecideFromOf(env, before, request, target, PreferredSource(options), active);
            var first := Substitution(outcome.image, outcome.report.sourceArch);
            SecondOlder(env, before, after, request, target, options.multiFrame, active, first, handed)
    ensures request.blob !in handed && HandedSafely(env, before, after, options, request, target, active, handed)
  {
    hide DecideFromOf, Naming, FallbackOf, StaysRecognisable, Runs, DriverSafe, Older, ReadBlob, IsIndexOf;
    var outcome := DecideFromOf(env, before, request, target, PreferredSource(options), active);
    var first := Substitution(outcome.image, outcome.report.sourceArch);
    Replaced(env, memory, before, request, target, PreferredSource(options), active);
    var fallback := FallbackOf(env, after, request, target, options.multiFrame, first, active);
    if fallback.Some? {
      Retried(env, memory, before, after, request, target, options.multiFrame, active, first, fallback.value);
    }
  }

  // The driver receives each of the images: it is what the block names when it is called.
  ghost predicate Receives(place: seq<byte> -> uint64, handed: seq<seq<byte>>, named: seq<Option<Extent>>)
  {
    |named| == |handed| && forall k :: 0 <= k < |handed| ==> named[k] == Some(ExtentOf(place, handed[k]))
  }

  ghost predicate AllFit(layout: BlobFields, place: seq<byte> -> uint64, handed: seq<seq<byte>>)
  {
    forall k :: 0 <= k < |handed| ==> FitsFields(layout, ExtentOf(place, handed[k]))
  }

  // It does so exactly when their pointers and lengths fit the fields.
  lemma ReceivesWhatFits(env: Env, after: Views, request: Request, target: uint32, multiFrame: bool, active: bool,
                         first: Substitution, was: seq<byte>, layout: BlobFields, place: seq<byte> -> uint64,
                         driver: BlockDriver, status: int, handed: seq<seq<byte>>, named: seq<Option<Extent>>)
    requires Sorts(env) && KeepsLength(driver) && layout.valid && FieldsInside(layout, was)
    requires Attempts(env, after, request, target, multiFrame, active, first, was, layout, place, driver, status,
                      handed, named)
    ensures Receives(place, handed, named) <==> AllFit(layout, place, handed)
  {
    hide FallbackOf, FitsFields, ReadBlob, Wrote;
    var block := Naming(was, layout, place, first.image);
    ReadsWritten(was, layout, ExtentOf(place, first.image));
    if |handed| == 2 {
      ReadsWritten(driver(0, block).1, layout, ExtentOf(place, handed[1]));
    }
  }

  // They fit when the fields do not overlap and nothing they are made from is too long.
  lemma ShortFits(env: Env, memory: Module -> seq<Span>, before: Views, after: Views, request: Request, target: uint32,
                  source: PtxSource, multiFrame: bool, active: bool, was: seq<byte>, layout: BlobFields,
                  place: seq<byte> -> uint64, driver: BlockDriver, status: int, handed: seq<seq<byte>>,
                  named: seq<Option<Extent>>)
    requires Sorts(env) && KeepsLength(driver) && FieldsInside(layout, was)
    requires Built(memory, before) && Built(memory, after)
    requires FieldsApart(layout) && ShortSources(memory, request.blob)
    requires var outcome := DecideFromOf(env, before, request, target, source, active);
             Attempts(env, after, request, target, multiFrame, active,
                      Substitution(outcome.image, outcome.report.sourceArch), was, layout, place, driver, status,
                      handed, named)
    ensures AllFit(layout, place, handed)
  {
    hide DecideFromOf, ShortSources, Built, FitsFields, ReadBlob, Wrote;
    Widths();
    ReplacementShort(env, memory, before, request, target, source, active);
    ReplacementShort(env, memory, after, request, target, Closest, active);
    forall k | 0 <= k < |handed|
      ensures FitsFields(layout, ExtentOf(place, handed[k]))
    {
      ApartFits(layout, ExtentOf(place, handed[k]));
    }
  }

  // How one creation ends, when the block names an image at `extent`: `was` is the block before
  // and `now` after it.
  ghost predicate ShaderAnswered(env: Env, memory: Module -> seq<Span>, before: Views, after: Views, options: Options,
                                 request: Request, target: uint32, active: bool, extent: Extent, was: seq<byte>,
                                 now: seq<byte>, layout: BlobFields, place: seq<byte> -> uint64, driver: BlockDriver,
                                 status: int, handed: seq<seq<byte>>, named: seq<Option<Extent>>)
    requires Sorts(env) && KeepsLength(driver) && FieldsInside(layout, was)
  {
    var outcome := DecideFromOf(env, before, request, target, PreferredSource(options), active);
    match Verdict(outcome, options.enabled)
    case Unchanged => handed == [request.blob] && named == [Some(extent)] && (status, now) == driver(0, was)
    case Refused => handed == [] && status == NVAPI_ERROR && now == was
    case Substituted =>
      var first := Substitution(outcome.image, outcome.report.sourceArch);
      && request.blob !in handed
      && SecondOlder(env, before, after, request, target, options.multiFrame, active, first, handed)
      && Attempts(env, after, request, target, options.multiFrame, active, first, was, layout, place, driver, status,
                  handed, named)
      && PutBackOnly(was, LeftAfter(was, layout, place, driver, handed, |handed|), now, layout)
      && (Receives(place, handed, named) <==> AllFit(layout, place, handed))
      && (FieldsApart(layout) && ShortSources(memory, request.blob) ==> Receives(place, handed, named))
  }

  lemma UnchangedSafely(env: Env, before: Views, after: Views, options: Options, request: Request, target: uint32,
                        active: bool)
    requires Sorts(env)
    requires DecideFromOf(env, before, request, target, PreferredSource(options), active).decision == Unchanged
    ensures HandedSafely(env, before, after, options, request, target, active, [request.blob])
  {
    PassedOn(env, before, request, target, PreferredSource(options), active);
    hide DecideFromOf, DriverSafe, Runs, StaysRecognisable;
  }

  lemma RefusedSafely(env: Env, before: Views, after: Views, options: Options, request: Request, target: uint32,
                      active: bool)
    requires Sorts(env)
    ensures HandedSafely(env, before, after, options, request, target, active, [])
  {
    hide DecideFromOf, DriverSafe, Runs, StaysRecognisable;
  }

  // The image a block names: none without a layout, a pointer or a length.
  function CarriedBy(block: seq<byte>, fields: Option<BlobFields>): Option<Extent>
  {
    if fields == None then None
    else
      var extent := ReadBlob(block, fields.value);
      if extent.Some? && extent.value.data != 0 && extent.value.size != 0 then extent else None
  }

  // The route's own state: the layout, once it has been found.
  class CubinRoute {
    var fields: Option<BlobFields>

    constructor ()
      ensures fields == None
    {
      fields := None;
    }

    // A search that fails is made again on the next call; a layout that is found stays.
    method Fields(block: seq<byte>, memory: Memory) returns (found: Option<BlobFields>)
      modifies this
      ensures found == fields
      ensures old(fields).Some? ==> fields == old(fields)
      ensures old(fields) == None ==> if fields.Some? then Located(block, memory, fields.value)
        else NoLayout(block, memory)
    {
      if fields == None {
        var located := LocateBlob(block, memory);
        if located.valid {
          fields := Some(located);
        }
      }
      found := fields;
    }

    // The image the block carries, if the layout is known and says so.
    method ReadCubinCall(block: seq<byte>, memory: Memory) returns (extent: Option<Extent>)
      modifies this
      ensures old(fields).Some? ==> fields == old(fields)
      ensures old(fields) == None ==> if fields.Some? then Located(block, memory, fields.value)
        else NoLayout(block, memory)
      ensures extent == CarriedBy(block, fields)
    {
      var found := Fields(block, memory);
      extent := None;
      if found.Some? {
        extent := ReadBlob(block, found.value);
        if extent.Some? && (extent.value.data == 0 || extent.value.size == 0) {
          extent := None;
        }
      }
    }

    // One attempt: the image is put where the block says its image is.
    method Attempt(block: array<byte>, layout: BlobFields, place: seq<byte> -> uint64, image: seq<byte>,
                   driver: BlockDriver, n: nat) returns (status: int, ghost named: Option<Extent>)
      requires layout.valid && FieldsInside(layout, block[..]) && KeepsLength(driver)
      modifies block
      ensures (status, block[..]) == driver(n, Naming(old(block[..]), layout, place, image))
      ensures named == ReadBlob(Naming(old(block[..]), layout, place, image), layout)
    {
      WriteBlob(block, layout, ExtentOf(place, image));
      named := ReadBlob(block[..], layout);
      status := CallDriver(block, driver, n);
    }

    // The calls with a replacement.
    method MakeCalls(engine: Engine, block: array<byte>, layout: BlobFields, place: seq<byte> -> uint64,
                     driver: BlockDriver, request: Request, substitution: Substitution, meanwhile: Meanwhile)
        returns (status: int, handed: seq<seq<byte>>, ghost named: seq<Option<Extent>>, ghost after: Views)
      requires engine.Valid() && KeepsLength(driver) && layout.valid && FieldsInside(layout, block[..])
      modifies block, engine`target, engine.providers`indexes
      ensures engine.Valid() && engine.Target() == old(engine.Target())
      ensures block[..] == LeftAfter(old(block[..]), layout, place, driver, handed, |handed|)
      ensures SeenBetween(old(engine.providers.indexes), after, engine.providers.indexes)
      ensures Attempts(engine.env, after, request, engine.Target(), engine.options.multiFrame, engine.Active(),
                       substitution, old(block[..]), layout, place, driver, status, handed, named)
    {
      hide Attempts, LeftAfter, DecideFromOf, Naming, FallbackOf, ReadBlob, Get, IsIndexOf, Apart;
      ghost var was := block[..];
      ghost var one;
      ghost var given := Naming(was, layout, place, substitution.image);
      status, one := Attempt(block, layout, place, substitution.image, driver, 0);
      handed, named := [substitution.image], [one];
      engine.providers.WorkerIndexes(meanwhile(0));
      after := Still(engine.providers.indexes);
      if status != 0 {
        var fallback;
        fallback, after := engine.Fallback(request, substitution, n => meanwhile(n + 1));
        if fallback.Some? {
          ghost var two;
          ghost var again := Naming(block[..], layout, place, fallback.value.image);
          status, two := Attempt(block, layout, place, fallback.value.image, driver, 1);
          handed, named := handed + [fallback.value.image], named + [two];
          TwoAttempts(engine.env, after, request, engine.Target(), engine.options.multiFrame, engine.Active(),
                      substitution, fallback.value, was, layout, place, driver, given, again);
          assert handed == [substitution.image, fallback.value.image] && named == [one, two];
          return;
        }
      }
      OneAttempt(engine.env, after, request, engine.Target(), engine.options.multiFrame, engine.Active(), substitution,
                 was, layout, place, driver, given);
    }

    // The calls, and the block put back.
    method Replace(engine: Engine, block: array<byte>, layout: BlobFields, place: seq<byte> -> uint64,
                   driver: BlockDriver, request: Request, substitution: Substitution, meanwhile: Meanwhile)
        returns (status: int, handed: seq<seq<byte>>, ghost named: seq<Option<Extent>>, ghost after: Views)
      requires engine.Valid() && KeepsLength(driver) && layout.valid && FieldsInside(layout, block[..])
      modifies block, engine`target, engine.providers`indexes
      ensures engine.Valid() && engine.Target() == old(engine.Target())
      ensures PutBackOnly(old(block[..]), LeftAfter(old(block[..]), layout, place, driver, handed, |handed|),
                          block[..], layout)
      ensures SeenBetween(old(engine.providers.indexes), after, engine.providers.indexes)
      ensures Attempts(engine.env, after, request, engine.Target(), engine.options.multiFrame, engine.Active(),
                       substitution, old(block[..]), layout, place, driver, status, handed, named)
    {
      hide Attempts, LeftAfter, Wrote, InFields, ReadBlob, IsIndexOf, Apart;
      ghost var was := block[..];
      var extent := Carried(block[..], layout);
      status, handed, named, after := MakeCalls(engine, block, layout, place, driver, request, substitution, meanwhile);
      Restored(was, block[..], layout);
      WriteBlob(block, layout, extent);
    }

    // One creation whose image is known.
    method DecideCall(engine: Engine, block: array<byte>, layout: BlobFields, place: seq<byte> -> uint64,
                      driver: BlockDriver, request: Request, extent: Extent, meanwhile: Meanwhile)
        returns (status: int, handed: seq<seq<byte>>, ghost named: seq<Option<Extent>>, ghost before: Views,
                 ghost after: Views)
      requires engine.Valid() && KeepsLength(driver) && layout.valid && FieldsInside(layout, block[..])
      modifies block
      modifies engine`target, engine`decisions, engine`native, engine`retargeted, engine`refusals,
        engine`unchangedImages
      modifies engine.providers`indexes
      ensures engine.Valid() && engine.Target() == old(engine.Target())
      ensures forall q :: 0 <= q < block.Length && LeavesByte(driver, q) ==> block[q] == old(block[..])[q]
      ensures SeenBetween(old(engine.providers.indexes), before, after.asked)
      ensures SeenBetween(before.refused, after, engine.providers.indexes)
      ensures ShaderAnswered(engine.env, engine.providers.memory, before, after, engine.options, request,
                             engine.Target(), engine.Active(), extent, old(block[..]), block[..], layout, place, driver,
                             status, handed, named)
      ensures HandedSafely(engine.env, before, after, engine.options, request, engine.Target(), engine.Active(), handed)
    {
      hide DecideFromOf, StaysRecognisable, DriverSafe, Runs, SecondOlder, HandedSafely, Wrote, Attempts, ShortSources,
        FitsFields, Receives, AllFit, IsIndexOf, Apart, LeftAfter, PutBackOnly;
      ghost var memory, source, active, was := engine.providers.memory, engine.Source(), engine.Active(), block[..];
      handed, named := [], [];
      var decision, substitution;
      decision, substitution, before := engine.Decide(request, meanwhile);
      after := Still(engine.providers.indexes);
      ghost var target := engine.Target();
      match decision
      case Unchanged =>
        UnchangedSafely(engine.env, before, after, engine.options, request, target, active);
        status := CallDriver(block, driver, 0);
        handed, named := [request.blob], [Some(extent)];
      case Refused =>
        RefusedSafely(engine.env, before, after, engine.options, request, target, active);
        status := NVAPI_ERROR;
      case Substituted =>
        status, handed, named, after := Replace(engine, block, layout, place, driver, request, substitution,
                                                n => meanwhile(n + 4));
        LeftBytesStay(was, block[..], layout, place, driver, handed);
        AttemptsSafely(engine.env, memory, before, after, engine.options, request, target, active, was, layout, place,
                       driver, status, handed, named);
        ReceivesWhatFits(engine.env, after, request, target, engine.options.multiFrame, active, substitution, was,
                         layout, place, driver, status, handed, named);
        if FieldsApart(layout) && ShortSources(memory, request.blob) {
          ShortFits(engine.env, memory, before, after, request, target, source, engine.options.multiFrame, active, was,
                    layout, place, driver, status, handed, named);
        }
    }

    // One creation. `place` is where an image's bytes lie; `handed` is the image of each call
    // that is decided on, `named` what the block names at it, and `passed` says the block names
    // none. After a replacement the two fields hold what they held, byte for byte, though they
    // overlap and whatever was written into them, and every other byte is what the driver's last
    // call left. So whatever becomes of a call, no byte that the driver leaves alone has changed.
    //
    // What is passed on is safe, and a replacement runs while it reads as the image it is. The
    // driver receives it exactly when its pointer and length fit the fields: so always when the
    // fields do not overlap and no section of a runtime takes 4 GB nor a text half of that.
    method CreateCubinShader(engine: Engine, block: array<byte>, memory: Memory, place: seq<byte> -> uint64,
                             original: Option<BlockDriver>, caller: Option<Module>, meanwhile: Meanwhile)
        returns (status: int, handed: seq<seq<byte>>, passed: bool, ghost named: seq<Option<Extent>>,
                 ghost before: Views, ghost after: Views)
      requires engine.Valid() && (original.Some? ==> KeepsLength(original.value))
      modifies this, block
      modifies engine`target, engine`decisions, engine`native, engine`retargeted, engine`refusals,
        engine`unchangedImages
      modifies engine.providers`indexes
      ensures engine.Valid() && engine.Target() == old(engine.Target())
      ensures original == None ==> status == NVAPI_ERROR && block[..] == old(block[..])
      ensures original.Some? ==>
        forall q :: 0 <= q < block.Length && LeavesByte(original.value, q) ==> block[q] == old(block[..])[q]
      ensures original.Some? ==> (passed <==> !(engine.Active() && CarriedBy(old(block[..]), fields).Some?))
      ensures original.Some? && passed ==> handed == [] && (status, block[..]) == original.value(0, old(block[..]))
      ensures original.Some? && !passed ==>
        var extent := CarriedBy(old(block[..]), fields).value;
        var request := Request(caller, Behind(memory, extent));
        && SeenBetween(old(engine.providers.indexes), before, after.asked)
        && SeenBetween(before.refused, after, engine.providers.indexes)
        && ShaderAnswered(engine.env, engine.providers.memory, before, after, engine.options, request, engine.Target(),
                          engine.Active(), extent, old(block[..]), block[..], fields.value, place, original.value,
                          status, handed, named)
        && HandedSafely(engine.env, before, after, engine.options, request, engine.Target(), engine.Active(), handed)
    {
      hide ShaderAnswered, HandedSafely, Wrote;
      status, handed, passed, named := NVAPI_ERROR, [], false, [];
      before, after := Still(engine.providers.indexes), Still(engine.providers.indexes);
      if original == None {
        return;
      }
      var extent: Option<Extent> := None;
      if engine.Active() {
        extent := ReadCubinCall(block[..], memory);
      }
      if extent == None {
        status := CallDriver(block, original.value, 0);
        passed := true;
        return;
      }
      var request := Request(caller, Behind(memory, extent.value));
      status, handed, named, before, after :=
        DecideCall(engine, block, fields.value, place, original.value, request, extent.value, meanwhile);
    }
  }

  // What is named is what lies there.
  lemma BehindIs(memory: Memory, extent: Extent, bytes: seq<byte>)
    requires memory(extent.data, extent.size) == Some(bytes)
    ensures Behind(memory, extent) == bytes
  {
  }

  // The bytes of the image a block names.
  function Behind(memory: Memory, extent: Extent): seq<byte>
  {
    var image := memory(extent.data, extent.size);
    if image.Some? then image.value else []
  }
}
