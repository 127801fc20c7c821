/** Cubins: machine code for one architecture in an ELF64 image
    (src/kernels/cubin.cpp). */
module Cubin {
  import opened Bytes

  const ELF_HEADER := 64
  const SECTION_HEADER := 64
  // 7F 'E' 'L' 'F'
  const ELF_MAGIC: seq<byte> := [0x7F, 0x45, 0x4C, 0x46]
  const CLASS_64 := 2
  const MACHINE_CUDA := 190

  predicate CubinHeader(image: seq<byte>)
  {
    && |image| >= ELF_HEADER
    && image[..4] == ELF_MAGIC
    && image[4] == CLASS_64
    && Get(image, 18, 2) == MACHINE_CUDA
  }

  // An ELF header of 64-bit class, for CUDA.
  lemma HeaderIs(image: seq<byte>)
    ensures CubinHeader(image) <==>
            |image| >= 64 && image[..5] == [0x7F] + Ascii("ELF") + [2] && image[18..20] == ToLe(190, 2)
  {
    if |image| >= 64 {
      LeInjective(image[18..20]);
      LeRoundTrip(190, 2);
      assert Pow256(2) == 0x1_0000;
      assert image[..5] == image[..4] + [image[4]];
      assert [0x7F] + Ascii("ELF") == ELF_MAGIC;
    }
  }

  // The SM number is the low byte of e_flags; 0 for anything but a cubin.
  function CubinArch(image: seq<byte>): nat
  {
    if CubinHeader(image) then Get(image, 48, 4) % 0x100 else 0
  }

  // Whatever the flags above it say.
  lemma ArchIsLowByte(image: seq<byte>)
    ensures CubinArch(image) == if CubinHeader(image) then image[48] else 0
  {
    if CubinHeader(image) {
      assert image[48..52][0] == image[48];
    }
  }

  function TableEnd(offset: nat, entrySize: nat, count: nat, limit: nat): (end: Option<nat>)
    ensures end.Some? <==> offset + entrySize * count <= limit
    ensures end.Some? ==> end.value == offset + entrySize * count
  {
    var length := entrySize * count;
    if offset > limit || length > limit - offset then None else Some(offset + length)
  }

  function Max(a: nat, b: nat): nat { if a < b then b else a }

  // Length of the cubin, from its own headers, 0 when it does not fit.
  function CubinSize(image: seq<byte>): nat
  {
    if !CubinHeader(image) then 0
    else
      var sections := TableEnd(Get(image, 40, 8), Get(image, 58, 2), Get(image, 60, 2), |image|);
      var programs := TableEnd(Get(image, 32, 8), Get(image, 54, 2), Get(image, 56, 2), |image|);
      if sections == None || programs == None then 0
      else
        var size := Max(sections.value, programs.value);
        if size > ELF_HEADER then size else 0
  }

  // ---- The length is a step function -------------------------------------------

  // What the headers say, however much of the image is there.
  function StatedSize(image: seq<byte>): nat
    requires |image| >= ELF_HEADER
  {
    Max(Get(image, 40, 8) + Get(image, 58, 2) * Get(image, 60, 2),
        Get(image, 32, 8) + Get(image, 54, 2) * Get(image, 56, 2))
  }

  lemma SizeIsStated(image: seq<byte>)
    ensures CubinSize(image) == if CubinHeader(image) && ELF_HEADER < StatedSize(image) <= |image|
      then StatedSize(image) else 0
  {
  }

  lemma SameElfHeader(image: seq<byte>, longer: seq<byte>)
    requires image <= longer && |image| >= ELF_HEADER
    ensures CubinHeader(image) <==> CubinHeader(longer)
    ensures StatedSize(image) == StatedSize(longer) && CubinArch(image) == CubinArch(longer)
  {
    PrefixField(image, longer, 18, 2);
    PrefixField(image, longer, 32, 8);
    PrefixField(image, longer, 40, 8);
    PrefixField(image, longer, 48, 4);
    PrefixField(image, longer, 54, 2);
    PrefixField(image, longer, 56, 2);
    PrefixField(image, longer, 58, 2);
    PrefixField(image, longer, 60, 2);
    assert image[..4] == longer[..4];
    hide Get;
  }

  lemma PrefixField(image: seq<byte>, longer: seq<byte>, at: nat, w: nat)
    requires image <= longer && at + w <= |image|
    ensures Get(image, at, w) == Get(longer, at, w)
  {
    assert image[at..at + w] == longer[at..at + w];
  }

  // Of a longer and a shorter view of the same bytes: below the cubin's length the
  // answer is 0, and from there on it is that length.
  lemma CubinSizeStep(image: seq<byte>, longer: seq<byte>)
    requires image <= longer
    ensures CubinSize(image) == if |image| < CubinSize(longer) then 0 else CubinSize(longer)
  {
    SizeIsStated(image);
    SizeIsStated(longer);
    if |image| >= ELF_HEADER {
      SameElfHeader(image, longer);
    }
  }

  lemma CubinPart(image: seq<byte>)
    requires CubinSize(image) != 0
    ensures ELF_HEADER < CubinSize(image) <= |image|
    ensures CubinSize(image[..CubinSize(image)]) == CubinSize(image)
    ensures CubinArch(image[..CubinSize(image)]) == CubinArch(image)
  {
    SizeIsStated(image);
    CubinSizeStep(image[..CubinSize(image)], image);
    SameElfHeader(image[..CubinSize(image)], image);
  }

  // ---- Sections ------------------------------------------------------------------

  datatype Section = Section(name: seq<byte>, data: seq<byte>)

  // strnlen: the bytes before the first NUL.
  function UntilNul(text: seq<byte>): seq<byte>
  {
    if text == [] || text[0] == 0 then [] else [text[0]] + UntilNul(text[1..])
  }

  function SectionHeader(image: seq<byte>, index: nat): Option<seq<byte>>
    requires CubinHeader(image)
  {
    Slice(image, Get(image, 40, 8) + index * Get(image, 58, 2), SECTION_HEADER)
  }

  function SectionCount(image: seq<byte>): nat requires CubinHeader(image) { Get(image, 60, 2) }

  // The section-name table, when the headers hold together.
  function SectionNames(image: seq<byte>): Option<seq<byte>>
  {
    if !CubinHeader(image) || Get(image, 58, 2) < SECTION_HEADER || Get(image, 62, 2) >= SectionCount(image) then None
    else
      match SectionHeader(image, Get(image, 62, 2))
      case None => None
      case Some(h) => Slice(image, Get(h, 24, 8), Get(h, 32, 8))
  }

  // Section `index`, unless its header, its name or its data falls outside.
  function SectionAt(image: seq<byte>, names: seq<byte>, index: nat): seq<Section>
    requires CubinHeader(image)
  {
    match SectionHeader(image, index)
    case None => []
    case Some(h) =>
      var data := Slice(image, Get(h, 24, 8), Get(h, 32, 8));
      if Get(h, 0, 4) >= |names| || data == None then []
      else [Section(UntilNul(names[Get(h, 0, 4)..]), data.value)]
  }

  function SectionsFrom(image: seq<byte>, names: seq<byte>, index: nat): seq<Section>
    requires CubinHeader(image)
    decreases SectionCount(image) - index
  {
    if index >= SectionCount(image) then []
    else SectionAt(image, names, index) + SectionsFrom(image, names, index + 1)
  }

  // The sections of the cubin that `data` opens with.
  function SectionsOf(data: seq<byte>): seq<Section>
    requires CubinSize(data) <= |data|
  {
    var image := data[..CubinSize(data)];
    var names := SectionNames(image);
    if names == None then [] else SectionsFrom(image, names.value, 0)
  }

  lemma SizeFits(data: seq<byte>)
    ensures CubinSize(data) <= |data|
  {
  }

  method CubinSections(data: seq<byte>) returns (sections: seq<Section>)
    ensures CubinSize(data) <= |data| && sections == SectionsOf(data)
  {
    SizeFits(data);
    sections := [];
    var image := data[..CubinSize(data)];
    var names := SectionNames(image);
    if names == None {
      return;
    }
    var i := 0;
    ghost var all := SectionsFrom(image, names.value, 0);
    assert [] + all == all;
    hide SectionAt, CubinHeader, SectionNames;
    while i < SectionCount(image)
      invariant 0 <= i <= SectionCount(image)
      invariant sections + SectionsFrom(image, names.value, i) == all
    {
      ConcatAssoc(sections, SectionAt(image, names.value, i), SectionsFrom(image, names.value, i + 1));
      sections := sections + SectionAt(image, names.value, i);
      i := i + 1;
    }
    assert sections + [] == sections;
  }

  // ---- What the sections are ---------------------------------------------------------------

  lemma {:induction false} UntilNulIs(name: seq<byte>, rest: seq<byte>)
    requires (forall i :: 0 <= i < |name| ==> name[i] != 0) && (rest == [] || rest[0] == 0)
    ensures UntilNul(name + rest) == name
  {
    if name == [] {
      assert name + rest == rest;
    } else {
      UntilNulIs(name[1..], rest);
      assert (name + rest)[1..] == name[1..] + rest;
    }
  }

  // Section i of the image is this one: header i of the table says where in the image its data is
  // and where in the names its name begins, which a NUL or their end ends.
  ghost predicate HasSection(image: seq<byte>, names: seq<byte>, i: nat, section: Section)
    requires CubinHeader(image)
  {
    var at := Get(image, 40, 8) + i * Get(image, 58, 2);
    at + SECTION_HEADER <= |image| &&
    var name, data, size := Get(image, at, 4), Get(image, at + 24, 8), Get(image, at + 32, 8);
    && name < |names| && section.name <= names[name..] && (forall k :: 0 <= k < |section.name| ==> section.name[k] != 0)
    && (name + |section.name| < |names| ==> names[name + |section.name|] == 0)
    && data + size <= |image| && section.data == image[data..data + size]
  }

  // The section names are those of the section the ELF header says.
  ghost predicate HasNames(image: seq<byte>, names: seq<byte>)
    requires CubinHeader(image)
  {
    var at := Get(image, 40, 8) + Get(image, 62, 2) * Get(image, 58, 2);
    Get(image, 58, 2) >= SECTION_HEADER && Get(image, 62, 2) < Get(image, 60, 2) && at + SECTION_HEADER <= |image| &&
    var data, size := Get(image, at + 24, 8), Get(image, at + 32, 8);
    data + size <= |image| && names == image[data..data + size]
  }

  lemma FieldOfPart(image: seq<byte>, at: nat, offset: nat, width: nat)
    requires offset + width <= SECTION_HEADER && at + SECTION_HEADER <= |image|
    ensures Get(image[at..at + SECTION_HEADER], offset, width) == Get(image, at + offset, width)
  {
    var part := image[at..at + SECTION_HEADER];
    var a, b := part[offset..offset + width], image[at + offset..at + offset + width];
    assert forall k :: 0 <= k < width ==> a[k] == part[offset + k] == image[at + (offset + k)] == b[k];
    assert a == b;
  }

  lemma SectionIs(image: seq<byte>, names: seq<byte>, i: nat, section: Section)
    requires CubinHeader(image) && HasSection(image, names, i, section)
    ensures SectionAt(image, names, i) == [section]
  {
    hide Get, UntilNul;
    var at := Get(image, 40, 8) + i * Get(image, 58, 2);
    FieldOfPart(image, at, 0, 4);
    FieldOfPart(image, at, 24, 8);
    FieldOfPart(image, at, 32, 8);
    var tail := names[Get(image, at, 4)..];
    assert tail == section.name + tail[|section.name|..];
    UntilNulIs(section.name, tail[|section.name|..]);
  }

  lemma {:induction false} SectionsAre(image: seq<byte>, names: seq<byte>, i: nat, sections: seq<Section>)
    requires CubinHeader(image) && i + |sections| == SectionCount(image)
    requires forall k :: 0 <= k < |sections| ==> HasSection(image, names, i + k, sections[k])
    ensures SectionsFrom(image, names, i) == sections
    decreases |sections|
  {
    hide HasSection, SectionAt, SectionCount;
    if sections != [] {
      assert HasSection(image, names, i + 0, sections[0]);
      SectionIs(image, names, i, sections[0]);
      forall k | 0 <= k < |sections[1..]|
        ensures HasSection(image, names, i + 1 + k, sections[1..][k])
      {
        assert HasSection(image, names, i + (k + 1), sections[k + 1]);
      }
      SectionsAre(image, names, i + 1, sections[1..]);
    }
  }

  // A cubin whose headers lay out these sections has them, in order.
  lemma CubinHasSections(image: seq<byte>, names: seq<byte>, sections: seq<Section>)
    requires CubinHeader(image) && CubinSize(image) == |image| && HasNames(image, names)
    requires |sections| == Get(image, 60, 2)
    requires forall k :: 0 <= k < |sections| ==> HasSection(image, names, k, sections[k])
    ensures SectionsOf(image) == sections
  {
    hide CubinHeader, CubinSize, HasSection, SectionsFrom, Get;
    var at := Get(image, 40, 8) + Get(image, 62, 2) * Get(image, 58, 2);
    FieldOfPart(image, at, 24, 8);
    FieldOfPart(image, at, 32, 8);
    assert image[..|image|] == image;
    assert SectionHeader(image, Get(image, 62, 2)) == Some(image[at..at + SECTION_HEADER]);
    assert SectionNames(image) == Some(names);
    forall k | 0 <= k < |sections|
      ensures HasSection(image, names, 0 + k, sections[k])
    {
    }
    SectionsAre(image, names, 0, sections);
  }
}
