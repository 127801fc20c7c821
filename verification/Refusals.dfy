/** Inputs for which a decision falls short of what src/kernels/substitute.h:15-23 and its
    comments promise. */
module Refusals {
  import opened Bytes
  import opened Images
  import opened PtxTarget
  import opened PtxText
  import opened PtxInterface
  import opened Fatbin
  import opened Retarget
  import opened Rebuilt
  import opened Cubin
  import opened ProviderIndex
  import opened IndexBuild
  import opened Substitute
  import opened Samples

  // ".target sm_" and two digits.
  function TargetText(digits: seq<byte>): seq<byte> { DIRECTIVE + digits }

  const EIGHTY: seq<byte> := [0x38, 0x30]

  lemma NamesATarget(digits: seq<byte>)
    requires |digits| == 2 && AllDigits(digits)
    ensures |TargetText(digits)| == 13 && HasTarget(TargetText(digits), DIRECTIVE)
  {
    var text := TargetText(digits);
    assert text[0..11] == DIRECTIVE;
    assert TargetAt(text, DIRECTIVE, 0);
  }

  lemma NamesNoTarget()
    ensures !HasTarget([], DIRECTIVE)
  {
  }

  // Such a text declares nothing.
  lemma NoInterface(digits: seq<byte>)
    requires |digits| == 2 && AllDigits(digits)
    ensures InterfaceOf(TargetText(digits)) == [] == InterfaceOf([])
  {
    var text := TargetText(digits);
    OneLine(text);
    TargetTextTrimmed(digits);
    NoKeyword(digits);
    hide Trim, LineEnd;
    assert text[..|text|] == text;
  }

  lemma {:induction false} OneLine(text: seq<byte>)
    requires forall i :: 0 <= i < |text| ==> text[i] != NEWLINE
    ensures LineEnd(text) == |text|
  {
    if text != [] {
      OneLine(text[1..]);
    }
  }

  lemma TargetTextTrimmed(digits: seq<byte>)
    requires |digits| == 2 && AllDigits(digits)
    ensures Trim(TargetText(digits)) == TargetText(digits)
  {
  }

  lemma StartsWith(text: seq<byte>, w: seq<byte>, i: nat)
    ensures Starts(text, w) && i < |w| ==> i < |text| && text[i] == w[i]
  {
    assert Starts(text, w) && i < |w| ==> text[..|w|][i] == w[i];
  }

  lemma NoKeyword(digits: seq<byte>)
    requires |digits| == 2
    ensures forall i :: 0 <= i < |KEYWORDS| ==> !Starts(TargetText(digits), KEYWORDS[i])
  {
    forall i | 0 <= i < |KEYWORDS|
      ensures !Starts(TargetText(digits), KEYWORDS[i])
    {
      assert TargetText(digits)[1] == DIRECTIVE[1];
      StartsWith(TargetText(digits), KEYWORDS[i], 1);
      hide KEYWORDS;
    }
  }

  // ---- Two PTX images ----------------------------------------------------------------------

  ghost predicate TwoPtx(data: seq<byte>, a: Image, b: Image)
  {
    DescribeOf(data) == [a, b] && a.isPtx && b.isPtx && End(a) <= |data| && End(b) <= |data| && a.arch < b.arch
  }

  lemma TwoPtxHeld(env: Env, data: seq<byte>, a: Image, b: Image, target: uint32)
    requires Sorts(env) && TwoPtx(data, a, b) && 0 < target < a.arch
    ensures HoldsPtx(DescribeOf(data)) && ClosestOf(env, data) == a && !HoldsRunnable(DescribeOf(data), target)
    ensures HoldsUsable(env, data) <==> Usable(env, data, a) || Usable(env, data, b)
  {
    var images := DescribeOf(data);
    assert images[0] == a && images[1] == b;
    assert forall image :: image in images <==> image == a || image == b;
    hide DescribeOf, Payload, HasTarget;
  }

  // The closest decides that the container is refused, though the other could be used.
  lemma RefusedForTheClosest(env: Env, views: Views, request: Request, a: Image, b: Image, target: uint32,
                             source: PtxSource)
    requires Sorts(env) && TwoPtx(request.blob, a, b) && 0 < target < a.arch
    requires CubinArch(request.blob) == 0 && ContainerSize(request.blob) != 0
    requires Payload(env, request.blob, a) == None && Usable(env, request.blob, b)
    ensures DecideFromOf(env, views, request, target, source, true).decision == Refused
    ensures DecideFromOf(env, views, request, target, source, true).reason == ContainerUseless
    ensures Suppliable(env, views, request, target)
  {
    hide DescribeOf, Payload, HasTarget, CubinArch, ContainerSize, TwoPtx, DecideFromOf, PtxTextArch, HoldsRunnable,
      SourceOf, HoldsUsable, HoldsPtx;
    TwoPtxHeld(env, request.blob, a, b, target);
    RefusedAllTheSame(env, views, request, target, source);
    ContainerDecided(env, views, request, target, source);
  }

  // The newest text names no number, and Newest refuses what Closest supplies.
  lemma RefusedForTheNewest(env: Env, views: Views, request: Request, a: Image, b: Image, target: uint32)
    requires Sorts(env) && TwoPtx(request.blob, a, b) && 0 < target < a.arch
    requires CubinArch(request.blob) == 0 && ContainerSize(request.blob) != 0
    requires Usable(env, request.blob, a) && Payload(env, request.blob, b).Some? && !Usable(env, request.blob, b)
    requires InterfaceOf(Payload(env, request.blob, a).value) == InterfaceOf(Payload(env, request.blob, b).value)
    ensures DecideFromOf(env, views, request, target, Newest, true).decision == Refused
    ensures DecideFromOf(env, views, request, target, Closest, true).decision == Substituted
    ensures Suppliable(env, views, request, target)
  {
    hide DescribeOf, Payload, HasTarget, CubinArch, ContainerSize, DecideFromOf, PtxTextArch, HoldsRunnable, SourceOf,
      HoldsUsable, InterfaceOf;
    var data := request.blob;
    TwoPtxHeld(env, data, a, b, target);
    ClosestYields(env, data);
    NewestChosen(env, data, a, b);
    RefusedAllTheSame(env, views, request, target, Newest);
    RefusedOnlyForWant(env, views, request, target, Closest);
    ContainerDecided(env, views, request, target, Closest);
  }

  lemma NewestChosen(env: Env, data: seq<byte>, a: Image, b: Image)
    requires Sorts(env) && TwoPtx(data, a, b) && ClosestOf(env, data) == a
    requires Payload(env, data, a).Some? && Payload(env, data, b).Some?
    requires InterfaceOf(Payload(env, data, a).value) == InterfaceOf(Payload(env, data, b).value)
    ensures SourceOf(env, data, Newest) == Some(Chosen(b, Payload(env, data, b).value))
  {
    hide Payload, InterfaceOf, SourceOf;
    var images := DescribeOf(data);
    assert images[0] == a && images[1] == b;
    SomePtx(images);
    hide DescribeOf;
    SourceIsBest(env, data, Newest);
  }

  lemma ContainerDecided(env: Env, views: Views, request: Request, target: uint32, source: PtxSource)
    requires Sorts(env) && target != 0 && CubinArch(request.blob) == 0 && ContainerSize(request.blob) != 0
    ensures DecideFromOf(env, views, request, target, source, true).decision == Unchanged <==>
              HoldsRunnable(DescribeOf(request.blob), target)
    ensures DecideFromOf(env, views, request, target, source, true).decision == Refused ==>
              DecideFromOf(env, views, request, target, source, true).reason == ContainerUseless
  {
    hide DescribeOf, RetargetOf, HoldsRunnable, ContainerSize, CubinArch;
    NothingIsNoImage();
    RunnableIsNotRetargeted(env, request.blob, target, source);
  }

  // ---- The closest does not decode ---------------------------------------------------------

  // PTX for sm_89 said to be packed in one byte of none, and plain PTX for sm_90.
  function Undecodable(): seq<byte>
  {
    TwoImages(Sample(KIND_PTX, 89, 1, []), Sample(KIND_PTX, 90, 0, TargetText(NINETY)))
  }

  // For sm_86 it is refused, whichever source is preferred, with the reason that it holds no PTX.
  lemma ClosestDoesNotDecode(env: Env, views: Views, caller: Option<Module>, source: PtxSource)
    requires Sorts(env)
    ensures var request := Request(caller, Undecodable());
      var outcome := DecideFromOf(env, views, request, 86, source, true);
            && outcome.decision == Refused && outcome.reason == ContainerUseless
            && Suppliable(env, views, request, 86)
  {
    hide DescribeOf, TwoImages, HasTarget, CubinArch, ContainerSize, DecideFromOf, Suppliable, TargetText;
    var a, b := Sample(KIND_PTX, 89, 1, []), Sample(KIND_PTX, 90, 0, TargetText(NINETY));
    NamesATarget(NINETY);
    TwoImagesAre(a, b);
    var data := TwoImages(a, b);
    RefusedForTheClosest(env, views, Request(caller, data), a.At(16), b.At(80), 86, source);
  }

  // ---- The newest names no number -------------------------------------------------------------

  // PTX for sm_89, and PTX for sm_90 with nothing in it.
  function Nameless(): seq<byte>
  {
    TwoImages(Sample(KIND_PTX, 89, 0, TargetText(EIGHTY_NINE)), Sample(KIND_PTX, 90, 0, []))
  }

  // For sm_86 it is refused where the newest source is preferred, and supplied otherwise.
  lemma NewestNamesNoTarget(env: Env, views: Views, caller: Option<Module>)
    requires Sorts(env)
    ensures var request := Request(caller, Nameless());
            && DecideFromOf(env, views, request, 86, Newest, true).decision == Refused
            && DecideFromOf(env, views, request, 86, Closest, true).decision == Substituted
            && Suppliable(env, views, request, 86)
  {
    hide DescribeOf, TwoImages, HasTarget, CubinArch, ContainerSize, DecideFromOf, Suppliable, TargetText, InterfaceOf;
    var a, b := Sample(KIND_PTX, 89, 0, TargetText(EIGHTY_NINE)), Sample(KIND_PTX, 90, 0, []);
    NamesATarget(EIGHTY_NINE);
    NamesNoTarget();
    NoInterface(EIGHTY_NINE);
    TwoImagesAre(a, b);
    var data := TwoImages(a, b);
    RefusedForTheNewest(env, views, Request(caller, data), a.At(16), b.At(93), 86);
  }

  // ---- A runtime of one container -----------------------------------------------------------

  lemma WholeSpan(base: nat, data: seq<byte>)
    requires WholeContainer(data) && data != [] && FATBIN_BYTES <= data
    ensures ContainersFrom(Span(base, data), 0) == [Blob(base, data)]
  {
    hide DescribeOf, ContainerSize;
    assert data[0..] == data && data[..|data|] == data;
    assert ContainersFrom(Span(base, data), |data|) == [];
  }

  lemma {:induction false} NoCubinsInside(span: Span, containers: seq<Blob>, at: nat)
    requires forall address :: span.base + at <= address < span.base + |span.data| ==> InsideAny(containers, address)
    ensures CubinsFrom(span, containers, at) == []
    decreases |span.data| - at
  {
    hide InsideAny, IdentifyOf, MagicAt;
    if at < |span.data| {
      NoCubinsInside(span, containers, at + 1);
    }
  }

  lemma InsideOne(base: nat, data: seq<byte>)
    ensures forall address :: base <= address < base + |data| ==> InsideAny([Blob(base, data)], address)
    ensures forall address :: base + |data| <= address ==> !InsideAny([Blob(base, data)], address)
  {
    assert [Blob(base, data)][0] == Blob(base, data);
  }

  // The container is found for the cubin it holds as one of its plain images.
  lemma FoundInOne(spans: seq<Span>, index: Index, base: nat, data: seq<byte>, image: Image, cubin: seq<byte>)
    requires IsIndexOf(index, spans) && ContainersOf(spans) == [Blob(base, data)]
    requires image in DescribeOf(data) && !image.isPtx && !image.compressed && End(image) <= |data|
    requires data[image.payloadOffset..End(image)] == cubin && Fingerprint(cubin).Some?
    ensures ContainerIn(index, cubin) == Some(data)
  {
    hide Fingerprint, DescribeOf, CubinsOf;
    var key := Fingerprint(cubin).value;
    assert ImageKey(data, image) == Some(key);
    assert SoleHolder(ContainersOf(spans), key, Blob(base, data));
  }

  // ---- The container holds a runnable image ------------------------------------------------------

  const KIND_CUBIN := 2

  lemma OneSpan(span: Span, containers: seq<Blob>)
    ensures ContainersOf([span]) == ContainersFrom(span, 0)
    ensures CubinsOf([span], containers) == CubinsFrom(span, containers, 0)
  {
    hide ContainersFrom, CubinsFrom;
    assert [span][1..] == [];
    assert ContainersOf([]) == [] && CubinsOf([], containers) == [];
  }

  lemma NoCubinIn(base: nat, data: seq<byte>, index: Index, cubin: seq<byte>, arch: nat)
    requires WholeContainer(data) && data != [] && FATBIN_BYTES <= data
    requires IsIndexOf(index, [Span(base, data)]) && IdentifyOf(cubin).Some?
    ensures ContainersOf([Span(base, data)]) == [Blob(base, data)] && NativeIn(index, cubin, arch) == None
  {
    hide ContainersFrom, CubinsFrom, ContainersOf, CubinsOf, IdentifyOf, InsideAny, WholeContainer, IsIndexOf, NativeIn;
    var span := Span(base, data);
    OneSpan(span, [Blob(base, data)]);
    WholeSpan(base, data);
    InsideOne(base, data);
    NoCubinsInside(span, [Blob(base, data)], 0);
    NativeSearch([span], index, cubin, arch);
  }

  // A cubin for sm_89 and an image for sm_86 in one container.
  function Both(): seq<byte>
  {
    TwoImages(Sample(KIND_CUBIN, 89, 0, SmallCubin(89)), Sample(KIND_CUBIN, 86, 0, []))
  }

  lemma BothAre()
    ensures var data := Both(); var a, b := Sample(KIND_CUBIN, 89, 0, SmallCubin(89)), Sample(KIND_CUBIN, 86, 0, []);
            && WholeContainer(data) && data != [] && FATBIN_BYTES <= data && DescribeOf(data) == [a.At(16), b.At(216)]
            && |data| == 280 && data[80..216] == SmallCubin(89) && HoldsRunnable(DescribeOf(data), 86)
  {
    var a, b := Sample(KIND_CUBIN, 89, 0, SmallCubin(89)), Sample(KIND_CUBIN, 86, 0, []);
    hide TwoImages, DescribeOf, ContainerSize, SmallCubin, CubinArch;
    TwoImagesAre(a, b);
    assert [a.At(16), b.At(216)][1] == b.At(216);
  }

  lemma BothFound(base: nat, index: Index)
    requires IsIndexOf(index, [Span(base, Both())])
    ensures NativeIn(index, SmallCubin(89), 86) == None && ContainerIn(index, SmallCubin(89)) == Some(Both())
  {
    hide DescribeOf, IsIndexOf, NativeIn, ContainerIn, IdentifyOf, Fingerprint, SmallCubin, ContainersOf,
      WholeContainer, Both, HoldsRunnable;
    BothAre();
    SmallCubinIdentity(89);
    NoCubinIn(base, Both(), index, SmallCubin(89), 86);
    var a := Sample(KIND_CUBIN, 89, 0, SmallCubin(89));
    assert DescribeOf(Both())[0] == a.At(16);
    FoundInOne([Span(base, Both())], index, base, Both(), a.At(16), SmallCubin(89));
  }

  // A cubin that cannot run and has no native twin is refused beside an image that can.
  lemma RefusedBeside(env: Env, views: Views, request: Request, target: uint32, source: PtxSource)
    requires Sorts(env) && target != 0 && CubinArch(request.blob) != 0 &&
      !CanRun(false, CubinArch(request.blob), target)
    requires NativeFound(views, request, target) == None && ContainerFound(views, request).Some?
    requires HoldsRunnable(DescribeOf(ContainerFound(views, request).value), target)
    ensures DecideFromOf(env, views, request, target, source, true).decision == Refused
    ensures DecideFromOf(env, views, request, target, source, true).reason ==
              RefusalReason(views.refused, Answering(views, request))
    ensures Suppliable(env, views, request, target)
  {
    hide DecideFromOf, NativeFound, ContainerFound, CubinArch, HoldsRunnable, DescribeOf, HoldsUsable, Answering,
      RefusalReason;
    RefusedAllTheSame(env, views, request, target, source);
    CubinRefusedAs(env, views, request, target, source);
  }

  // In a runtime that is this container and nothing else, the cubin is refused for sm_86, with
  // the reason that there is no runnable image; and yet its container holds one.
  lemma RunnableBesideIt(env: Env, base: nat, index: Index, runtime: Module, source: PtxSource)
      returns (request: Request)
    requires Sorts(env) && IsIndexOf(index, [Span(base, Both())])
    ensures request == Request(Some(runtime), SmallCubin(89))
    ensures var views := Still(map[runtime := index]);
      var outcome := DecideFromOf(env, views, request, 86, source, true);
            && outcome.decision == Refused && outcome.reason == NoRunnableImage
            && Suppliable(env, views, request, 86)
  {
    hide DescribeOf, DecideFromOf, IsIndexOf, NativeIn, ContainerIn, CubinArch, SmallCubin, HoldsRunnable, Suppliable,
      Both;
    request := Request(Some(runtime), SmallCubin(89));
    BesideFacts(base, index, request.blob);
    RefusedBeside(env, Still(map[runtime := index]), request, 86, source);
  }

  lemma BesideFacts(base: nat, index: Index, cubin: seq<byte>)
    requires IsIndexOf(index, [Span(base, Both())]) && cubin == SmallCubin(89)
    ensures CubinArch(cubin) == 89 && NativeIn(index, cubin, 86) == None && ContainerIn(index, cubin).Some?
    ensures HoldsRunnable(DescribeOf(ContainerIn(index, cubin).value), 86)
  {
    hide DescribeOf, IsIndexOf, NativeIn, ContainerIn, CubinArch, SmallCubin, HoldsRunnable, Both;
    BothAre();
    BothFound(base, index);
    SmallCubinHeader(89);
  }

  lemma CubinRefusedAs(env: Env, views: Views, request: Request, target: uint32, source: PtxSource)
    requires Sorts(env) && CubinArch(request.blob) != 0
    requires DecideFromOf(env, views, request, target, source, true).decision == Refused
    ensures DecideFromOf(env, views, request, target, source, true).reason ==
              RefusalReason(views.refused, Answering(views, request))
  {
    hide RetargetOf, CubinArch, NativeFound, ContainerFound, Answering, RefusalReason;
  }

  // ---- A runtime indexed between two lookups ----------------------------------------------------

  // A cubin for sm_89 and PTX for sm_80 in one container.
  function WithPtx(): seq<byte>
  {
    TwoImages(Sample(KIND_CUBIN, 89, 0, SmallCubin(89)), Sample(KIND_PTX, 80, 0, TargetText(EIGHTY)))
  }

  // That container, and apart from it the same kernel for sm_75.
  function TwoSpans(): seq<Span>
  {
    [Span(0, WithPtx()), Span(0x1000, SmallCubin(75))]
  }

  lemma WithPtxIs()
    ensures var data := WithPtx();
            var a, b := Sample(KIND_CUBIN, 89, 0, SmallCubin(89)), Sample(KIND_PTX, 80, 0, TargetText(EIGHTY));
            && WholeContainer(data) && data != [] && FATBIN_BYTES <= data && DescribeOf(data) == [a.At(16), b.At(216)]
            && |data| == 293 && data[80..216] == SmallCubin(89) && data[280..293] == TargetText(EIGHTY)
  {
    var a, b := Sample(KIND_CUBIN, 89, 0, SmallCubin(89)), Sample(KIND_PTX, 80, 0, TargetText(EIGHTY));
    hide TwoImages, DescribeOf, ContainerSize, SmallCubin, CubinArch, TargetText;
    NamesATarget(EIGHTY);
    TwoImagesAre(a, b);
  }

  // For sm_75 it yields a container from either source, which says it is from sm_80.
  lemma WithPtxYields(env: Env, source: PtxSource)
    requires Sorts(env)
    ensures RetargetOf(env, WithPtx(), 75, source).out.Some?
    ensures RetargetOf(env, WithPtx(), 75, source).report == Report(2, 80, false, false)
  {
    hide DescribeOf, WithPtx, SmallCubin, TargetText, RetargetOf, HasTarget, SourceOf, WholeContainer, Build;
    var data := WithPtx();
    NamesATarget(EIGHTY);
    WithPtxIs();
    var images := DescribeOf(data);
    assert images[1].isPtx && !images[0].isPtx && images[1] in images;
    assert AllUsable(env, data);
    YieldsOnlyUsable(env, data, source);
    GivesWhenItYields(env, data, 75, source);
    SourceFacts(env, data, 75, source);
  }

  lemma MagicOpens(span: Span, magic: seq<byte>, at: nat)
    requires magic != []
    ensures MagicAt(span, magic, at) ==> at < |span.data| && span.data[at] == magic[0]
  {
    assert MagicAt(span, magic, at) ==> span.data[at..at + |magic|][0] == span.data[at];
  }

  lemma {:induction false} NoContainerIn(span: Span, at: nat)
    requires forall i :: 0 <= i < |span.data| ==> span.data[i] != FATBIN_BYTES[0]
    ensures ContainersFrom(span, at) == []
    decreases |span.data| - at
  {
    if at < |span.data| {
      NoContainerIn(span, at + 1);
      MagicOpens(span, FATBIN_BYTES, at);
    }
    hide TakeContainer, MagicAt;
  }

  lemma SmallCubinPlain()
    ensures forall i :: 0 <= i < CUBIN_SIZE ==> SmallCubin(75)[i] != FATBIN_BYTES[0]
    ensures ELF_MAGIC <= SmallCubin(75)
  {
  }

  // A section that is a cubin.
  lemma WholeCubin(base: nat, cubin: seq<byte>, containers: seq<Blob>)
    requires IdentifyOf(cubin).Some? && CubinSize(cubin) == |cubin| && cubin != [] && ELF_MAGIC <= cubin
    requires !InsideAny(containers, base)
    ensures CubinsFrom(Span(base, cubin), containers, 0) == [Found(Blob(base, cubin), IdentifyOf(cubin).value)]
  {
    hide IdentifyOf, CubinSize, InsideAny;
    IdentityOfPart(cubin);
    assert cubin[0..] == cubin && cubin[..|cubin|] == cubin && cubin[0..|cubin|] == cubin;
    assert CubinsFrom(Span(base, cubin), containers, |cubin|) == [];
  }

  lemma TwoSpansScanned()
    ensures ContainersOf(TwoSpans()) == [Blob(0, WithPtx())]
    ensures IdentifyOf(SmallCubin(75)).Some?
    ensures CubinsOf(TwoSpans(), [Blob(0, WithPtx())]) ==
      [Found(Blob(0x1000, SmallCubin(75)), IdentifyOf(SmallCubin(75)).value)]
  {
    hide WithPtx, SmallCubin, ContainersFrom, CubinsFrom, InsideAny, IdentifyOf, DescribeOf, WholeContainer, CubinSize,
      CubinArch, TargetText;
    var first, second, containers := Span(0, WithPtx()), Span(0x1000, SmallCubin(75)), [Blob(0, WithPtx())];
    WithPtxIs();
    SmallCubinPlain();
    SmallCubinHeader(75);
    SmallCubinIdentity(75);
    InsideOne(0, WithPtx());
    WholeSpan(0, WithPtx());
    NoContainerIn(second, 0);
    NoCubinsInside(first, containers, 0);
    WholeCubin(0x1000, SmallCubin(75), containers);
    OneSpan(second, containers);
    assert TwoSpans()[1..] == [second];
  }

  // In that runtime the cubin has a native twin, and its container.
  lemma TwinFound(index: Index)
    requires IsIndexOf(index, TwoSpans())
    ensures NativeIn(index, SmallCubin(89), 75) == Some(SmallCubin(75))
    ensures ContainerIn(index, SmallCubin(89)) == Some(WithPtx())
  {
    hide WithPtx, SmallCubin, ContainersOf, CubinsOf, IdentifyOf, DescribeOf, Fingerprint, IsIndexOf, NativeIn,
      ContainerIn, WholeContainer, TwoSpans, VariantKey, TargetText;
    WithPtxIs();
    SmallCubinIdentity(75);
    SmallCubinIdentity(89);
    TwoSpansScanned();
    NativeSearch(TwoSpans(), index, SmallCubin(89), 75);
    var a := Sample(KIND_CUBIN, 89, 0, SmallCubin(89));
    assert DescribeOf(WithPtx())[0] == a.At(16);
    FoundInOne(TwoSpans(), index, 0, WithPtx(), a.At(16), SmallCubin(89));
  }

  // What is decided of a cubin that has both, by which of them the lookups find.
  lemma DecidedByLookups(env: Env, views: Views, request: Request, target: uint32, source: PtxSource)
    requires Sorts(env) && target != 0 && CubinArch(request.blob) != 0 &&
      !CanRun(false, CubinArch(request.blob), target)
    ensures var outcome := DecideFromOf(env, views, request, target, source, true);
            && (NativeFound(views, request, target).Some? ==>
                  outcome == Outcome(Substituted, NativeFound(views, request, target).value,
                                     Report(0, CubinArch(request.blob), false, true), Supplied))
            && (NativeFound(views, request, target) == None && ContainerFound(views, request).Some? &&
                RetargetOf(env, ContainerFound(views, request).value, target, source).out.Some? ==>
                  outcome.decision == Substituted && !outcome.report.native &&
                  outcome.report.sourceArch == RetargetOf(env, ContainerFound(views, request).value, target,
                                                          source).report.sourceArch)
  {
    hide RetargetOf, NativeFound, ContainerFound, CubinArch;
    NothingIsNoImage();
  }

  // The runtime is indexed between the two lookups of the first decision. The replacement is then
  // built from PTX, though there is a native image; and when the driver refuses it, the fallback
  // is that image.
  lemma NativeComesSecond(env: Env, index: Index, runtime: Module, cubin: seq<byte>, target: uint32)
    requires Sorts(env) && target != 0 && CubinArch(cubin) != 0 && !CanRun(false, CubinArch(cubin), target)
    requires NativeIn(index, cubin, target).Some? && ContainerIn(index, cubin).Some?
    requires var built := RetargetOf(env, ContainerIn(index, cubin).value, target, Newest);
             built.out.Some? && built.report.sourceArch != 0 && built.report.sourceArch != CubinArch(cubin)
    ensures var request := Request(Some(runtime), cubin);
            var first := Views(map[], map[], map[runtime := index], map[runtime := index]);
            var outcome := DecideFromOf(env, first, request, target, Newest, true);
            var rejected := Substitution(outcome.image, outcome.report.sourceArch);
            var second := Still(map[runtime := index]);
            && InOrder(first) && !Settled(first, request)
            && outcome.decision == Substituted && !outcome.report.native
            && outcome.report.sourceArch == RetargetOf(env, ContainerIn(index, cubin).value, target,
                                                       Newest).report.sourceArch
            && FallbackOf(env, second, request, target, true, rejected, true) ==
               Some(Substitution(NativeIn(index, cubin, target).value, CubinArch(cubin)))
  {
    hide DecideFromOf, RetargetOf, NativeIn, ContainerIn, CubinArch;
    var request := Request(Some(runtime), cubin);
    DecidedByLookups(env, Views(map[], map[], map[runtime := index], map[runtime := index]), request, target, Newest);
    DecidedByLookups(env, Still(map[runtime := index]), request, target, Closest);
  }

  lemma TwinFacts(env: Env, index: Index, cubin: seq<byte>)
    requires Sorts(env) && IsIndexOf(index, TwoSpans()) && cubin == SmallCubin(89)
    ensures CubinArch(cubin) == 89
    ensures NativeIn(index, cubin, 75) == Some(SmallCubin(75)) && ContainerIn(index, cubin).Some?
    ensures RetargetOf(env, ContainerIn(index, cubin).value, 75, Newest).out.Some?
    ensures RetargetOf(env, ContainerIn(index, cubin).value, 75, Newest).report.sourceArch == 80
  {
    hide RetargetOf, IsIndexOf, NativeIn, ContainerIn, SmallCubin, CubinArch, WithPtx, TwoSpans;
    SmallCubinHeader(89);
    TwinFound(index);
    WithPtxYields(env, Newest);
  }

  // So in this runtime a replacement from sm_80, and then one that goes by the cubin's sm_89.
  lemma IndexedBetweenLookups(env: Env, index: Index, runtime: Module) returns (request: Request)
    requires Sorts(env) && IsIndexOf(index, TwoSpans())
    ensures request == Request(Some(runtime), SmallCubin(89))
    ensures var first := Views(map[], map[], map[runtime := index], map[runtime := index]);
            var outcome := DecideFromOf(env, first, request, 75, Newest, true);
            var rejected := Substitution(outcome.image, outcome.report.sourceArch);
            var second := Still(map[runtime := index]);
            && InOrder(first) && !Settled(first, request)
            && outcome.decision == Substituted && !outcome.report.native && outcome.report.sourceArch == 80
            && FindNative(first.container, Some(runtime), request.blob, 75) == Some(SmallCubin(75))
            && FallbackOf(env, second, request, 75, true, rejected, true) == Some(Substitution(SmallCubin(75), 89))
  {
    hide DecideFromOf, RetargetOf, IsIndexOf, NativeIn, ContainerIn, SmallCubin, CubinArch, FallbackOf, Settled,
      InOrder, TwoSpans;
    request := Request(Some(runtime), SmallCubin(89));
    TwinFacts(env, index, request.blob);
    NativeComesSecond(env, index, runtime, request.blob, 75);
  }
}
