/** Rebuilding a container around one PTX image for another architecture
    (src/kernels/fatbin.cpp:62-75, 101-116, 195-265). */
module Retarget {
  import opened Bytes
  import opened PtxTarget
  import opened PtxInterface
  import opened Images
  import opened Fatbin

  // ---- Code this model does not see ------------------------------------------

  // lz4(in, capacity) is what LZ4_decompress_safe writes, or None when it fails.
  // sort is std::sort by architecture, which leaves ties in any order.
  datatype Env = Env(lz4: (seq<byte>, nat) -> Option<seq<byte>>, sort: seq<Image> -> seq<Image>)

  ghost predicate SortOf(sorted: seq<Image>, images: seq<Image>)
  {
    && multiset(sorted) == multiset(images)
    && forall i, j :: 0 <= i < j < |sorted| ==> sorted[i].arch <= sorted[j].arch
  }

  ghost predicate Sorts(env: Env)
  {
    forall images: seq<Image> :: SortOf(env.sort(images), images)
  }

  // ---- Payloads ----------------------------------------------------------------

  function Decompress(env: Env, input: seq<byte>, outSize: nat): (out: Option<seq<byte>>)
    ensures out.Some? ==> |out.value| == outSize <= MAX_CONTAINER
  {
    if |input| > MAX_CONTAINER || outSize > MAX_CONTAINER then None
    else
      var written := env.lz4(input, outSize);
      if written.Some? && |written.value| == outSize then written else None
  }

  function Payload(env: Env, data: seq<byte>, image: Image): Option<seq<byte>>
    requires End(image) <= |data|
  {
    var payload := data[image.payloadOffset..End(image)];
    if !image.compressed then Some(payload)
    else if image.compressedSize > |payload| then None
    else Decompress(env, payload[..image.compressedSize], image.decompressedSize)
  }

  // A packed image unpacks from its packed bytes, which are the first of those stored, to as many
  // bytes as it says; and a plain one is the bytes stored.
  lemma PayloadIs(env: Env, data: seq<byte>, image: Image, ptx: seq<byte>)
    requires End(image) <= |data|
    ensures !image.compressed ==> Payload(env, data, image) == Some(data[image.payloadOffset..][..image.payloadSize])
    ensures image.compressed && image.compressedSize > image.payloadSize ==> Payload(env, data, image) == None
    ensures image.compressed && image.compressedSize <= image.payloadSize ==>
      (Payload(env, data, image) == Some(ptx) <==>
       image.compressedSize <= MAX_CONTAINER && image.decompressedSize <= MAX_CONTAINER &&
       |ptx| == image.decompressedSize &&
       env.lz4(data[image.payloadOffset..][..image.compressedSize], image.decompressedSize) == Some(ptx))
  {
    var stored := data[image.payloadOffset..End(image)];
    assert stored == data[image.payloadOffset..][..image.payloadSize];
    if image.compressedSize <= image.payloadSize {
      assert stored[..image.compressedSize] == data[image.payloadOffset..][..image.compressedSize];
    }
  }

  // Bytes stored behind the packed ones have no influence.
  lemma PayloadIsPacked(env: Env, data: seq<byte>, other: seq<byte>, image: Image)
    requires End(image) <= |data| && End(image) <= |other| && image.compressed &&
      image.compressedSize <= image.payloadSize
    requires data[image.payloadOffset..][..image.compressedSize] == other[image.payloadOffset..][..image.compressedSize]
    ensures Payload(env, data, image) == Payload(env, other, image)
  {
    var a, b := Payload(env, data, image), Payload(env, other, image);
    if a.Some? {
      PayloadIs(env, data, image, a.value);
      PayloadIs(env, other, image, a.value);
    }
    if b.Some? {
      PayloadIs(env, data, image, b.value);
      PayloadIs(env, other, image, b.value);
    }
    hide Payload;
  }

  // Two bytes packed in four, stored in six: LZ4 is given the four.
  lemma PayloadUnpacks(sort: seq<Image> -> seq<Image>)
    ensures var env := Env((packed: seq<byte>, n: nat) => if packed == [1, 2, 3, 4] &&
                           n == 2 then Some([7, 8]) else None, sort);
            Payload(env, [1, 2, 3, 4, 0, 0], Image(true, 89, true, 0, 0, 6, 4, 2)) == Some([7, 8])
  {
    assert [1, 2, 3, 4, 0, 0][..6] == [1, 2, 3, 4, 0, 0];
    assert [1, 2, 3, 4, 0, 0][..4] == [1, 2, 3, 4];
  }

  // ---- Which PTX -----------------------------------------------------------------

  datatype PtxSource = Closest | Newest
  datatype Chosen = Chosen(image: Image, ptx: seq<byte>)

  function PtxImages(images: seq<Image>): (ptx: seq<Image>)
    ensures forall image :: image in ptx <==> image in images && image.isPtx
  {
    if images == [] then []
    else (if images[0].isPtx then [images[0]] else []) + PtxImages(images[1..])
  }

  ghost predicate Inside(images: seq<Image>, data: seq<byte>)
  {
    forall image :: image in images ==> End(image) <= |data|
  }

  // Launched the way `interface` says.
  predicate Fits(env: Env, data: seq<byte>, image: Image, interface: seq<byte>)
    requires End(image) <= |data|
  {
    var ptx := Payload(env, data, image);
    ptx.Some? && InterfaceOf(ptx.value) == interface
  }

  // The last of sorted[1..i] that fits, else the closest.
  function NewestFitting(env: Env, data: seq<byte>, sorted: seq<Image>, closest: Chosen, i: nat): Chosen
    requires i < |sorted| && Inside(sorted, data)
  {
    if i == 0 then closest
    else if Fits(env, data, sorted[i], InterfaceOf(closest.ptx))
      then Chosen(sorted[i], Payload(env, data, sorted[i]).value)
    else NewestFitting(env, data, sorted, closest, i - 1)
  }

  function Choose(env: Env, data: seq<byte>, sorted: seq<Image>, choice: PtxSource): Option<Chosen>
    requires sorted != [] && Inside(sorted, data)
  {
    var ptx := Payload(env, data, sorted[0]);
    if ptx == None then None
    else
      var closest := Chosen(sorted[0], ptx.value);
      match choice
      case Closest => Some(closest)
      case Newest => Some(NewestFitting(env, data, sorted, closest, |sorted| - 1))
  }

  lemma {:induction false} NewestFittingBest(env: Env, data: seq<byte>, sorted: seq<Image>, closest: Chosen, i: nat)
    requires i < |sorted| && Inside(sorted, data)
    requires forall a, b :: 0 <= a < b < |sorted| ==> sorted[a].arch <= sorted[b].arch
    requires closest.image == sorted[0] && Payload(env, data, closest.image) == Some(closest.ptx)
    ensures var best := NewestFitting(env, data, sorted, closest, i);
            && best.image in sorted && Payload(env, data, best.image) == Some(best.ptx)
            && InterfaceOf(best.ptx) == InterfaceOf(closest.ptx)
            && forall k :: 0 <= k <= i && Fits(env, data, sorted[k], InterfaceOf(closest.ptx)) ==>
                 sorted[k].arch <= best.image.arch
  {
    hide InterfaceOf, Payload;
    if i > 0 && !Fits(env, data, sorted[i], InterfaceOf(closest.ptx)) {
      NewestFittingBest(env, data, sorted, closest, i - 1);
    }
  }

  // The choice, told without an order: the closest build is one of lowest
  // architecture, and the choice is one of highest architecture among the images
  // that decode and are launched as the closest is.
  lemma ChoiceIsBest(env: Env, data: seq<byte>, images: seq<Image>, sorted: seq<Image>, choice: PtxSource)
    requires SortOf(sorted, images) && images != [] && Inside(images, data)
    ensures sorted != [] && Inside(sorted, data)
    ensures sorted[0] in images && forall image :: image in images ==> sorted[0].arch <= image.arch
    ensures var chosen := Choose(env, data, sorted, choice); var closest := Payload(env, data, sorted[0]);
            && (chosen.Some? <==> closest.Some?)
            && (chosen.Some? ==>
                  && chosen.value.image in images
                  && Payload(env, data, chosen.value.image) == Some(chosen.value.ptx)
                  && InterfaceOf(chosen.value.ptx) == InterfaceOf(closest.value)
                  && (choice == Closest ==> chosen.value.image == sorted[0])
                  && (choice == Newest ==>
                        forall image :: image in images && Fits(env, data, image, InterfaceOf(closest.value)) ==>
                          image.arch <= chosen.value.image.arch))
  {
    hide InterfaceOf, Payload;
    SortKeeps(sorted, images);
    forall image | image in images ensures sorted[0].arch <= image.arch {
      var k :| 0 <= k < |sorted| && sorted[k] == image;
    }
    var ptx := Payload(env, data, sorted[0]);
    if ptx.Some? && choice == Newest {
      NewestFittingBest(env, data, sorted, Chosen(sorted[0], ptx.value), |sorted| - 1);
      forall image | image in images && Fits(env, data, image, InterfaceOf(ptx.value))
        ensures image.arch <= Choose(env, data, sorted, choice).value.image.arch
      {
        var k :| 0 <= k < |sorted| && sorted[k] == image;
      }
    }
  }

  lemma SortKeeps(sorted: seq<Image>, images: seq<Image>)
    requires SortOf(sorted, images)
    ensures |sorted| == |images|
    ensures forall image :: image in sorted <==> image in images
  {
    assert |sorted| == |multiset(sorted)| == |multiset(images)|;
    forall image ensures image in sorted <==> image in images {
      assert image in sorted <==> image in multiset(sorted);
      assert image in images <==> image in multiset(images);
    }
  }

  // ---- The container that is built -------------------------------------------------

  // The payload is padded with zeros to a multiple of 8 bytes.
  function Padding(n: nat): (k: nat)
    ensures k < 8 && (n + k) % 8 == 0
  {
    (8 - n % 8) % 8
  }

  function Padded(ptx: seq<byte>): seq<byte>
  {
    ptx + seq(Padding(|ptx|), i => 0)
  }

  function ClearFlag(flags: nat): (r: nat)
    ensures !HasFlag(r) && r <= flags && (r == flags || r == flags - FLAG_COMPRESSED)
  {
    if HasFlag(flags) then flags - FLAG_COMPRESSED else flags
  }

  // The source's header, rewritten to describe `size` bytes of plain PTX.
  function NewEntry(e: seq<byte>, size: nat, arch: nat): (r: seq<byte>)
    requires |e| == ENTRY_HEADER
    ensures |r| == ENTRY_HEADER
  {
    var e1 := Put(e, 8, size, 8);
    var e2 := Put(e1, 16, 0, 4);
    var e3 := Put(e2, 28, arch, 4);
    var e4 := Put(e3, 40, ClearFlag(Flags(e3)), 8);
    Put(e4, 56, 0, 8)
  }

  function NewFile(f: seq<byte>, fatSize: nat): (r: seq<byte>)
    requires |f| == FILE_HEADER
    ensures |r| == FILE_HEADER
  {
    Put(f, 8, fatSize, 8)
  }

  function HeaderOf(data: seq<byte>, image: Image): (e: seq<byte>)
    requires image.headerOffset + ENTRY_HEADER <= |data|
    ensures |e| == ENTRY_HEADER
  {
    data[image.headerOffset..image.headerOffset + ENTRY_HEADER]
  }

  function Build(data: seq<byte>, image: Image, ptx: seq<byte>, arch: nat): seq<byte>
    requires image in DescribeOf(data)
  {
    ImageInside(data, image);
    var start := FileHeaderSize(data);
    var fatSize := (image.payloadOffset - image.headerOffset) + |ptx|;
    NewFile(data[..FILE_HEADER], fatSize)
    + (data[FILE_HEADER..start]
       + (NewEntry(HeaderOf(data, image), |ptx|, arch)
          + (data[image.headerOffset + ENTRY_HEADER..image.payloadOffset] + ptx)))
  }

  // ---- Retargeting -------------------------------------------------------------------

  datatype RetargetResult = RetargetResult(out: Option<seq<byte>>, report: Report)

  predicate HoldsRunnable(images: seq<Image>, arch: nat)
  {
    exists i :: 0 <= i < |images| && CanRun(images[i].isPtx, images[i].arch, arch)
  }

  lemma DescribedInside(data: seq<byte>)
    ensures Inside(DescribeOf(data), data)
  {
    forall image | image in DescribeOf(data) ensures End(image) <= |data| {
      ImageInside(data, image);
    }
  }

  // The PTX a container would be rebuilt from.
  ghost function SourceOf(env: Env, data: seq<byte>, choice: PtxSource): Option<Chosen>
    requires Sorts(env)
  {
    var candidates := PtxImages(DescribeOf(data));
    DescribedInside(data);
    if candidates == [] then None
    else
      SortKeeps(env.sort(candidates), candidates);
      Choose(env, data, env.sort(candidates), choice)
  }

  lemma SourceInside(env: Env, data: seq<byte>, choice: PtxSource)
    requires Sorts(env) && SourceOf(env, data, choice).Some?
    ensures var source := SourceOf(env, data, choice).value;
            source.image in DescribeOf(data) && source.image.isPtx
  {
    DescribedInside(data);
    var candidates := PtxImages(DescribeOf(data));
    ChoiceIsBest(env, data, candidates, env.sort(candidates), choice);
  }

  // The source, told without an order: of the PTX images of the container, the
  // closest is one of lowest architecture; Closest takes it, and Newest takes one
  // of highest architecture among those that decode and are launched as it is.
  lemma SourceIsBest(env: Env, data: seq<byte>, choice: PtxSource)
    requires Sorts(env) && PtxImages(DescribeOf(data)) != []
    ensures Inside(DescribeOf(data), data)
    ensures var images := DescribeOf(data); var candidates := PtxImages(images);
      var source := SourceOf(env, data, choice);
            && env.sort(candidates) != []
            && var closest := env.sort(candidates)[0];
               && closest in images && closest.isPtx
               && (forall image :: image in images && image.isPtx ==> closest.arch <= image.arch)
               && (source.Some? <==> Payload(env, data, closest).Some?)
               && (source.Some? ==>
                     && source.value.image in images && source.value.image.isPtx
                     && Payload(env, data, source.value.image) == Some(source.value.ptx)
                     && InterfaceOf(source.value.ptx) == InterfaceOf(Payload(env, data, closest).value)
                     && (choice == Closest ==> source.value.image == closest)
                     && (choice == Newest ==>
                           forall image :: (image in images && image.isPtx
                                            && Fits(env, data, image, InterfaceOf(Payload(env, data, closest).value)))
                                           ==> image.arch <= source.value.image.arch))
  {
    DescribedInside(data);
    var candidates := PtxImages(DescribeOf(data));
    ChoiceIsBest(env, data, candidates, env.sort(candidates), choice);
    hide Payload, InterfaceOf, DescribeOf, Choose;
  }

  ghost function RetargetOf(env: Env, data: seq<byte>, arch: nat, choice: PtxSource): RetargetResult
    requires Sorts(env)
  {
    var images := DescribeOf(data);
    if images == [] then RetargetResult(None, NO_REPORT)
    else if HoldsRunnable(images, arch) then RetargetResult(None, Report(|images|, 0, true, false))
    else
      var source := SourceOf(env, data, choice);
      if source == None then RetargetResult(None, Report(|images|, 0, false, false))
      else
        SourceInside(env, data, choice);
        var report := Report(|images|, source.value.image.arch, false, false);
        if !HasTarget(source.value.ptx, DIRECTIVE) then RetargetResult(None, report)
        else RetargetResult(Some(Build(data, source.value.image, Padded(Retargeted(source.value.ptx, arch)), arch)),
                            report)
  }

  // ---- When there is something to give ---------------------------------------------------

  // A PTX image that decodes and whose text names an architecture to replace.
  ghost predicate Usable(env: Env, data: seq<byte>, image: Image)
  {
    image.isPtx && End(image) <= |data| && Payload(env, data, image).Some? &&
    HasTarget(Payload(env, data, image).value, DIRECTIVE)
  }

  ghost predicate HoldsPtx(images: seq<Image>)
  {
    exists image :: image in images && image.isPtx
  }

  ghost predicate HoldsUsable(env: Env, data: seq<byte>)
  {
    exists image :: image in DescribeOf(data) && Usable(env, data, image)
  }

  ghost predicate AllUsable(env: Env, data: seq<byte>)
  {
    forall image :: image in DescribeOf(data) && image.isPtx ==> Usable(env, data, image)
  }

  // The PTX image of lowest architecture, as std::sort has it.
  ghost function ClosestOf(env: Env, data: seq<byte>): (closest: Image)
    requires Sorts(env) && HoldsPtx(DescribeOf(data))
    ensures closest in DescribeOf(data) && closest.isPtx && End(closest) <= |data|
    ensures forall image :: image in DescribeOf(data) && image.isPtx ==> closest.arch <= image.arch
  {
    ClosestIs(env, data);
    env.sort(PtxImages(DescribeOf(data)))[0]
  }

  lemma ClosestIs(env: Env, data: seq<byte>)
    requires Sorts(env) && HoldsPtx(DescribeOf(data))
    ensures PtxImages(DescribeOf(data)) != [] && env.sort(PtxImages(DescribeOf(data))) != []
    ensures var closest := env.sort(PtxImages(DescribeOf(data)))[0];
            && closest in DescribeOf(data) && closest.isPtx && End(closest) <= |data|
            && forall image :: image in DescribeOf(data) && image.isPtx ==> closest.arch <= image.arch
  {
    SomePtx(DescribeOf(data));
    SourceIsBest(env, data, Closest);
    hide DescribeOf, Payload, InterfaceOf, SourceOf;
  }

  lemma SomePtx(images: seq<Image>)
    ensures HoldsPtx(images) <==> PtxImages(images) != []
  {
    var ptx := PtxImages(images);
    if ptx != [] {
      assert ptx[0] in ptx;
    }
  }

  // The container can be rebuilt: there is PTX, the closest of it decodes, and the text chosen
  // names an architecture.
  ghost predicate Yields(env: Env, data: seq<byte>, choice: PtxSource)
    requires Sorts(env)
  {
    && HoldsPtx(DescribeOf(data))
    && Payload(env, data, ClosestOf(env, data)).Some?
    && SourceOf(env, data, choice).Some?
    && HasTarget(SourceOf(env, data, choice).value.ptx, DIRECTIVE)
  }

  // Which is exactly when Retarget gives something for a container without a runnable image.
  lemma GivesWhenItYields(env: Env, data: seq<byte>, arch: nat, choice: PtxSource)
    requires Sorts(env)
    ensures RetargetOf(env, data, arch, choice).out.Some? <==>
            !HoldsRunnable(DescribeOf(data), arch) && Yields(env, data, choice)
    ensures HoldsPtx(DescribeOf(data)) ==>
              (SourceOf(env, data, choice).Some? <==> Payload(env, data, ClosestOf(env, data)).Some?)
  {
    hide Payload, InterfaceOf, Build, Retargeted, HasTarget, Choose, DescribeOf, HoldsRunnable;
    SomePtx(DescribeOf(data));
    if HoldsPtx(DescribeOf(data)) {
      SourceIsBest(env, data, choice);
    }
  }

  // The closest build decides alone for itself.
  lemma ClosestYields(env: Env, data: seq<byte>)
    requires Sorts(env)
    ensures Yields(env, data, Closest) <==> HoldsPtx(DescribeOf(data)) && Usable(env, data, ClosestOf(env, data))
  {
    hide Payload, InterfaceOf, HasTarget, DescribeOf;
    if HoldsPtx(DescribeOf(data)) {
      ClosestIs(env, data);
      SourceIsBest(env, data, Closest);
    }
  }

  // What is given is made from usable PTX, and where all PTX is usable, any will do.
  lemma YieldsOnlyUsable(env: Env, data: seq<byte>, choice: PtxSource)
    requires Sorts(env)
    ensures Yields(env, data, choice) ==> HoldsUsable(env, data)
    ensures AllUsable(env, data) ==> (Yields(env, data, choice) <==> HoldsPtx(DescribeOf(data)))
    ensures AllUsable(env, data) ==> (HoldsUsable(env, data) <==> HoldsPtx(DescribeOf(data)))
  {
    hide Payload, InterfaceOf, HasTarget, DescribeOf;
    if HoldsPtx(DescribeOf(data)) {
      ClosestIs(env, data);
      SourceIsBest(env, data, choice);
      var source := SourceOf(env, data, choice);
      if source.Some? {
        assert HasTarget(source.value.ptx, DIRECTIVE) <==> Usable(env, data, source.value.image);
      }
    }
  }

  // The PTX images, unless one of the images can run as it is.
  method Candidates(images: seq<Image>, arch: nat) returns (runnable: bool, candidates: seq<Image>)
    ensures runnable <==> HoldsRunnable(images, arch)
    ensures !runnable ==> candidates == PtxImages(images)
  {
    runnable, candidates := false, [];
    var n := 0;
    PtxImagesEnds(images);
    while n < |images|
      invariant 0 <= n <= |images|
      invariant candidates == PtxImages(images[..n])
      invariant forall i :: 0 <= i < n ==> !CanRun(images[i].isPtx, images[i].arch, arch)
    {
      var image := images[n];
      if CanRun(image.isPtx, image.arch, arch) {
        return true, [];
      }
      PtxImagesStep(images, n);
      if image.isPtx {
        candidates := candidates + [image];
      }
      n := n + 1;
    }
  }

  // Looks for the newest build that is launched as the closest one is.
  method PickNewest(env: Env, data: seq<byte>, sorted: seq<Image>, closest: Chosen) returns (chosen: Chosen)
    requires sorted != [] && Inside(sorted, data)
    ensures chosen == NewestFitting(env, data, sorted, closest, |sorted| - 1)
  {
    hide InterfaceOf, Payload;
    var interface := Interface(closest.ptx);
    var i := |sorted| - 1;
    while i > 0
      invariant 0 <= i < |sorted|
      invariant NewestFitting(env, data, sorted, closest, i) == NewestFitting(env, data, sorted, closest, |sorted| - 1)
    {
      var newer := Payload(env, data, sorted[i]);
      if newer.Some? {
        var its := Interface(newer.value);
        if its == interface {
          return Chosen(sorted[i], newer.value);
        }
      }
      i := i - 1;
    }
    chosen := closest;
  }

  lemma SortedInside(env: Env, candidates: seq<Image>, data: seq<byte>)
    requires Sorts(env) && candidates != [] && Inside(candidates, data)
    ensures env.sort(candidates) != [] && Inside(env.sort(candidates), data)
  {
    SortKeeps(env.sort(candidates), candidates);
  }

  lemma FirstInside(images: seq<Image>, data: seq<byte>)
    requires images != [] && Inside(images, data)
    ensures End(images[0]) <= |data|
  {
  }

  method PickSource(env: Env, data: seq<byte>, candidates: seq<Image>, choice: PtxSource)
      returns (chosen: Option<Chosen>)
    requires Sorts(env) && candidates != [] && Inside(candidates, data)
    ensures env.sort(candidates) != [] && Inside(env.sort(candidates), data)
    ensures chosen == Choose(env, data, env.sort(candidates), choice)
  {
    hide SortOf, Sorts, Inside, Payload, InterfaceOf, NewestFitting;
    SortedInside(env, candidates, data);
    var sorted := env.sort(candidates);
    FirstInside(sorted, data);
    var ptx := Payload(env, data, sorted[0]);
    if ptx == None {
      return None;
    }
    var closest := Chosen(sorted[0], ptx.value);
    if choice == Newest {
      var newest := PickNewest(env, data, sorted, closest);
      return Some(newest);
    }
    chosen := Some(closest);
  }

  lemma BuildBounds(data: seq<byte>, image: Image)
    requires image in DescribeOf(data)
    ensures |data| >= FILE_HEADER && FILE_HEADER <= FileHeaderSize(data) <= |data|
    ensures image.headerOffset + ENTRY_HEADER <= image.payloadOffset <= |data|
  {
    ImageInside(data, image);
    hide EntriesFrom, ImageFrom, Get;
  }

  lemma BuildIs(data: seq<byte>, image: Image, ptx: seq<byte>, arch: nat)
    requires image in DescribeOf(data)
    ensures |data| >= FILE_HEADER && FILE_HEADER <= FileHeaderSize(data) <= |data|
    ensures image.headerOffset + ENTRY_HEADER <= image.payloadOffset <= |data|
    ensures Build(data, image, ptx, arch) ==
            NewFile(data[..FILE_HEADER], (image.payloadOffset - image.headerOffset) + |ptx|)
            + (data[FILE_HEADER..FileHeaderSize(data)]
               + (NewEntry(HeaderOf(data, image), |ptx|, arch)
                  + (data[image.headerOffset + ENTRY_HEADER..image.payloadOffset] + ptx)))
  {
    hide NewFile, NewEntry, HeaderOf, Get, DescribeOf, FileHeaderSize, ContainerSize, ImageFrom;
    BuildBounds(data, image);
  }

  // Appends the parts of the new container one after the other.
  method Assemble(data: seq<byte>, image: Image, ptx: seq<byte>, arch: nat) returns (out: seq<byte>)
    requires image in DescribeOf(data)
    ensures out == Build(data, image, ptx, arch)
  {
    hide *;
    BuildIs(data, image, ptx, arch);
    var file := NewFile(data[..FILE_HEADER], (image.payloadOffset - image.headerOffset) + |ptx|);
    var fileExtra := data[FILE_HEADER..FileHeaderSize(data)];
    var entry := NewEntry(HeaderOf(data, image), |ptx|, arch);
    var entryExtra := data[image.headerOffset + ENTRY_HEADER..image.payloadOffset];
    out := file;
    out := out + fileExtra;
    out := out + entry;
    out := out + entryExtra;
    out := out + ptx;
    Flatten(file, fileExtra, entry, entryExtra, ptx);
  }

  lemma Flatten(a: seq<byte>, b: seq<byte>, c: seq<byte>, d: seq<byte>, e: seq<byte>)
    ensures (((a + b) + c) + d) + e == a + (b + (c + (d + e)))
  {
  }

  method Retarget(env: Env, data: seq<byte>, arch: nat, choice: PtxSource)
    returns (out: Option<seq<byte>>, report: Report)
    requires Sorts(env) && arch < 0x1_0000_0000
    ensures RetargetResult(out, report) == RetargetOf(env, data, arch, choice)
  {
    out, report := None, NO_REPORT;
    var ok, images := Describe(data);
    if !ok {
      return;
    }
    DescribedInside(data);
    PtxInside(images, data);
    hide DescribeOf, PtxImages, Choose;
    report := report.(images := |images|);
    var runnable, candidates := Candidates(images, arch);
    if runnable {
      report := report.(alreadyRunnable := true);
      return;
    }
    if candidates == [] {
      return;
    }
    var source := PickSource(env, data, candidates, choice);
    if source == None {
      return;
    }
    SourceInside(env, data, choice);
    report := report.(sourceArch := source.value.image.arch);
    var ptx, rewritten := RewriteTargetDirective(source.value.ptx, arch);
    if !rewritten {
      return;
    }
    var built := Assemble(data, source.value.image, Padded(ptx), arch);
    out := Some(built);
  }

  lemma PtxImagesEnds(images: seq<Image>)
    ensures PtxImages(images[..0]) == [] && images[..|images|] == images
  {
  }

  lemma {:induction false} PtxImagesAppend(images: seq<Image>, image: Image)
    ensures PtxImages(images + [image]) == PtxImages(images) + (if image.isPtx then [image] else [])
  {
    if images != [] {
      assert (images + [image])[1..] == images[1..] + [image];
      PtxImagesAppend(images[1..], image);
    } else {
      assert images + [image] == [image] && [image][1..] == [];
    }
  }

  lemma PtxImagesStep(images: seq<Image>, n: nat)
    requires n < |images|
    ensures PtxImages(images[..n + 1]) ==
            if images[n].isPtx then PtxImages(images[..n]) + [images[n]] else PtxImages(images[..n])
  {
    assert images[..n + 1] == images[..n] + [images[n]];
    PtxImagesAppend(images[..n], images[n]);
  }

  lemma PtxInside(images: seq<Image>, data: seq<byte>)
    requires Inside(images, data)
    ensures Inside(PtxImages(images), data)
  {
  }
}
