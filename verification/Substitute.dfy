/** The kernel decision (src/kernels/substitute.cpp:179-339): what the driver receives
    for an image the runtime hands over. */
module Substitute {
  import opened Bytes
  import opened Images
  import opened PtxTarget
  import opened PtxText
  import opened Fatbin
  import opened Retarget
  import opened Rebuilt
  import opened Cubin
  import opened ProviderIndex
  import opened IndexBuild

  type uint32 = i: int | 0 <= i < 0x1_0000_0000

  datatype Decision = Unchanged | Substituted | Refused

  datatype Reason =
    | Supplied
    | Inactive | Empty | NoTarget
    | Runnable | NotKernelImage
    | NoRunnableImage | NotIndexed | CallerUnknown
    | ContainerUseless
    | RetargetingOff

  // image is meaningful when the decision is Substituted.
  datatype Outcome = Outcome(decision: Decision, image: seq<byte>, report: Report, reason: Reason)

  // Who is asking for what: an attributed caller names its runtime. A null or empty
  // image is [].
  datatype Request = Request(caller: Option<Module>, blob: seq<byte>)

  // ---- The decision, as a function ---------------------------------------------------

  function AnsweringProvider(indexes: Indexes, caller: Option<Module>): Option<Module>
  {
    if caller.Some? then caller else SoleIndexed(indexes)
  }

  // What is indexed at each lookup one cubin's decision makes: for the runtime that answers, for
  // a native image, for a container, and for the reason of a refusal. Each takes the lock of
  // its own, and the worker may add an index in between.
  datatype Views = Views(asked: Indexes, native: Indexes, container: Indexes, refused: Indexes)

  ghost predicate InOrder(views: Views)
  {
    Extends(views.asked, views.native) && Extends(views.native, views.container) &&
      Extends(views.container, views.refused)
  }

  function Still(indexes: Indexes): Views
  {
    Views(indexes, indexes, indexes, indexes)
  }

  // Seen one after the other, when `before` was already indexed and `after` is by now.
  ghost predicate SeenBetween(before: Indexes, views: Views, after: Indexes)
  {
    Extends(before, views.asked) && InOrder(views) && Extends(views.refused, after)
  }

  // Every index is of its runtime's image; what is true of the last view is of the others.
  ghost predicate Built(memory: Module -> seq<Span>, views: Views)
  {
    InOrder(views) && forall p :: p in views.refused ==> IsIndexOf(views.refused[p], memory(p))
  }

  // The runtime that answers, and what it finds.
  function Answering(views: Views, request: Request): Option<Module>
  {
    AnsweringProvider(views.asked, request.caller)
  }

  function NativeFound(views: Views, request: Request, target: uint32): Option<seq<byte>>
  {
    FindNative(views.native, Answering(views, request), request.blob, target)
  }

  function ContainerFound(views: Views, request: Request): Option<seq<byte>>
  {
    FindContainer(views.container, Answering(views, request), request.blob)
  }

  function RefusalReason(indexes: Indexes, provider: Option<Module>): Reason
  {
    if provider.Some? && provider.value in indexes then NoRunnableImage
    else if provider.Some? then NotIndexed
    else CallerUnknown
  }

  function WithSource(report: Report, arch: nat): Report
  {
    report.(sourceArch := arch)
  }

  ghost function CubinDecision(env: Env, views: Views, request: Request, target: uint32, source: PtxSource): Outcome
    requires Sorts(env)
  {
    var arch := CubinArch(request.blob);
    var report := WithSource(NO_REPORT, arch);
    var native := NativeFound(views, request, target);
    var container := ContainerFound(views, request);
    if CanRun(false, arch, target) then Outcome(Unchanged, [], report, Runnable)
    else if native.Some? then Outcome(Substituted, native.value, report.(native := true), Supplied)
    else if container.Some? && RetargetOf(env, container.value, target, source).out.Some? then
      var r := RetargetOf(env, container.value, target, source);
      Outcome(Substituted, r.out.value, WithSource(NO_REPORT, r.report.sourceArch), Supplied)
    else Outcome(Refused, [], report, RefusalReason(views.refused, Answering(views, request)))
  }

  ghost function ContainerDecision(env: Env, blob: seq<byte>, target: uint32, source: PtxSource): Outcome
    requires Sorts(env)
  {
    var r := RetargetOf(env, blob, target, source);
    if r.out.Some? then Outcome(Substituted, r.out.value, r.report, Supplied)
    else if r.report.alreadyRunnable then Outcome(Unchanged, [], r.report, Runnable)
    else Outcome(Refused, [], r.report, ContainerUseless)
  }

  function TextDecision(blob: seq<byte>, target: uint32): Outcome
  {
    var r := RetargetTextResult(blob, target);
    if r.out.Some? then Outcome(Substituted, r.out.value, r.report, Supplied)
    else Outcome(Unchanged, [], r.report, if r.report.alreadyRunnable then Runnable else NotKernelImage)
  }

  ghost function DecideFromOf(env: Env, views: Views, request: Request, target: uint32, source: PtxSource,
                              active: bool): Outcome
    requires Sorts(env)
  {
    if target == 0 || request.blob == [] then
      Outcome(Unchanged, [], NO_REPORT, if !active then Inactive else if target != 0 then Empty else NoTarget)
    else if CubinArch(request.blob) != 0 then CubinDecision(env, views, request, target, source)
    else if ContainerSize(request.blob) != 0 then ContainerDecision(env, request.blob, target, source)
    else TextDecision(request.blob, target)
  }

  // ---- What is handed over can run ---------------------------------------------------

  // The image is runnable as it is, whichever of the three kinds it is.
  predicate RunsAsIs(blob: seq<byte>, target: uint32)
  {
    if CubinArch(blob) != 0 then CanRun(false, CubinArch(blob), target)
    else if ContainerSize(blob) != 0 then HoldsRunnable(DescribeOf(blob), target)
    else PtxTextArch(blob) != 0 && CanRun(true, PtxTextArch(blob), target)
  }

  // Neither a cubin, a container nor PTX text.
  predicate Unrecognised(blob: seq<byte>)
  {
    CubinArch(blob) == 0 && ContainerSize(blob) == 0 && PtxTextArch(blob) == 0
  }

  // An image is left alone exactly when there is nothing to it, when it can run, or when
  // it is no kernel image; the reason says which.
  lemma UnchangedIsSafe(env: Env, views: Views, request: Request, target: uint32, source: PtxSource)
    requires Sorts(env) && target != 0
    ensures var outcome := DecideFromOf(env, views, request, target, source, true);
            && (outcome.decision == Unchanged <==>
                  request.blob == [] || RunsAsIs(request.blob, target) || Unrecognised(request.blob))
            && (outcome.reason == Runnable <==> request.blob != [] && RunsAsIs(request.blob, target))
            && (outcome.reason == NotKernelImage <==> request.blob != [] && Unrecognised(request.blob))
  {
    hide DescribeOf, SourceOf, Build, NativeFound, ContainerFound, Retargeted, PtxTextArch, CubinArch;
    RunnableIsNotRetargeted(env, request.blob, target, source);
  }

  // A kernel image the GPU cannot run.
  predicate Foreign(blob: seq<byte>, target: uint32)
  {
    !RunsAsIs(blob, target) && (CubinArch(blob) != 0 || ContainerSize(blob) != 0)
  }

  ghost predicate HasNative(views: Views, request: Request, target: uint32)
  {
    CubinArch(request.blob) != 0 && NativeFound(views, request, target).Some?
  }

  // The container a rebuild is tried from: the one the cubin came from, or the image itself.
  function Tried(views: Views, request: Request): Option<seq<byte>>
  {
    if CubinArch(request.blob) != 0 then ContainerFound(views, request) else Some(request.blob)
  }

  // A container to rebuild one from for this GPU.
  ghost predicate Rebuildable(env: Env, data: seq<byte>, target: uint32, source: PtxSource)
    requires Sorts(env)
  {
    !HoldsRunnable(DescribeOf(data), target) && Yields(env, data, source)
  }

  // A kernel image that cannot run is replaced if there is a native one, which is then taken, or
  // its container yields one, and refused if not; text is never refused.
  lemma RefusedOnlyForWant(env: Env, views: Views, request: Request, target: uint32, source: PtxSource)
    requires Sorts(env) && target != 0
    ensures var outcome := DecideFromOf(env, views, request, target, source, true); var tried := Tried(views, request);
            && (outcome.decision == Refused <==>
                  && Foreign(request.blob, target) && !HasNative(views, request, target)
                  && (tried.Some? ==> !Rebuildable(env, tried.value, target, source)))
            && (outcome.decision == Substituted ==> (outcome.report.native <==> HasNative(views, request, target)))
  {
    hide DescribeOf, SourceOf, Build, NativeFound, ContainerFound, Retargeted, PtxTextArch, CubinArch, RetargetOf,
      Yields, HoldsRunnable;
    RunnableIsNotRetargeted(env, request.blob, target, source);
    var tried := Tried(views, request);
    if tried.Some? {
      GivesWhenItYields(env, tried.value, target, source);
    }
    NothingIsNoImage();
  }

  // Something that would run can be had from this container: it holds an image that can, or PTX
  // that decodes and names an architecture to replace.
  ghost predicate CanSupply(env: Env, data: seq<byte>, target: uint32)
  {
    HoldsRunnable(DescribeOf(data), target) || HoldsUsable(env, data)
  }

  // Something runnable can be supplied for this image.
  ghost predicate Suppliable(env: Env, views: Views, request: Request, target: uint32)
  {
    var tried := Tried(views, request);
    HasNative(views, request, target) || (tried.Some? && CanSupply(env, tried.value, target))
  }

  // The promise is that only what nothing can be supplied for is refused. It is kept where the
  // container tried holds no runnable image, which a container the driver cannot run never does,
  // and all its PTX decodes and names an architecture; a container is then refused exactly when
  // it holds no PTX.
  lemma RefusedAsPromised(env: Env, views: Views, request: Request, target: uint32, source: PtxSource)
    requires Sorts(env) && target != 0
    requires var tried := Tried(views, request);
             tried.Some? ==> AllUsable(env, tried.value) &&
                             (CubinArch(request.blob) != 0 ==> !HoldsRunnable(DescribeOf(tried.value), target))
    ensures var outcome := DecideFromOf(env, views, request, target, source, true);
            && (outcome.decision == Refused <==>
                Foreign(request.blob, target) && !Suppliable(env, views, request, target))
            && (CubinArch(request.blob) == 0 ==>
                  (outcome.decision == Refused <==>
                   Foreign(request.blob, target) && !HoldsPtx(DescribeOf(request.blob))))
  {
    hide DescribeOf, NativeFound, ContainerFound, CubinArch, DecideFromOf, Yields, HoldsRunnable, HoldsUsable,
      AllUsable;
    RefusedOnlyForWant(env, views, request, target, source);
    var tried := Tried(views, request);
    if tried.Some? {
      YieldsOnlyUsable(env, tried.value, source);
    }
  }

  // It is broken exactly here: by a container that a cubin came from and that holds a runnable
  // image, or by usable PTX beside a closest one that does not decode or a chosen one that names
  // no architecture.
  lemma RefusedAllTheSame(env: Env, views: Views, request: Request, target: uint32, source: PtxSource)
    requires Sorts(env) && target != 0
    ensures var outcome := DecideFromOf(env, views, request, target, source, true);
            outcome.decision == Refused && Suppliable(env, views, request, target) <==>
            && Foreign(request.blob, target) && !HasNative(views, request, target) && Tried(views, request).Some?
            && var data := Tried(views, request).value;
               if HoldsRunnable(DescribeOf(data), target) then CubinArch(request.blob) != 0
               else HoldsUsable(env, data) && !Yields(env, data, source)
  {
    hide DescribeOf, NativeFound, ContainerFound, CubinArch, DecideFromOf, Yields, HoldsRunnable, HoldsUsable;
    RefusedOnlyForWant(env, views, request, target, source);
  }

  lemma NothingIsNoImage()
    ensures CubinArch([]) == 0 && ContainerSize([]) == 0
  {
  }

  lemma RunnableIsNotRetargeted(env: Env, blob: seq<byte>, target: uint32, source: PtxSource)
    requires Sorts(env)
    ensures RetargetOf(env, blob, target, source).report.alreadyRunnable <==> HoldsRunnable(DescribeOf(blob), target)
    ensures HoldsRunnable(DescribeOf(blob), target) ==> RetargetOf(env, blob, target, source).out.None?
    ensures !RetargetOf(env, blob, target, source).report.native
  {
    hide DescribeOf, SourceOf, Build, Retargeted;
  }

  // ---- What is handed over can run -----------------------------------------------------

  // The container rebuilt from this one is within the length Describe accepts.
  ghost predicate ContainerStays(env: Env, data: seq<byte>, target: uint32, source: PtxSource)
    requires Sorts(env)
  {
    var chosen := SourceOf(env, data, source);
    chosen.Some? ==> SizeBound(chosen.value.image, NewPtx(env, data, target, source))
  }

  // The text's version directive stays in the opening bytes, and it does not open like one
  // of the other two kinds of image.
  predicate TextStays(blob: seq<byte>, target: uint32)
  {
    VersionStays(blob, target) && !Starts(blob, ELF_MAGIC) && !Starts(blob, FATBIN_BYTES)
  }

  // The condition under which a replacement still reads as the kind of image it is.
  ghost predicate StaysRecognisable(env: Env, views: Views, request: Request, target: uint32, source: PtxSource)
    requires Sorts(env)
  {
    if CubinArch(request.blob) != 0 then
      var container := ContainerFound(views, request);
      NativeFound(views, request, target).Some? ||
      (container.Some? ==> ContainerStays(env, container.value, target, source))
    else if ContainerSize(request.blob) != 0 then ContainerStays(env, request.blob, target, source)
    else TextStays(request.blob, target)
  }

  lemma MagicValues()
    ensures FromLe(ELF_MAGIC) == 0x464C457F && FromLe(FATBIN_BYTES) == MAGIC
  {
    assert ELF_MAGIC[1..] == [0x45, 0x4C, 0x46] && [0x45, 0x4C, 0x46][1..] == [0x4C, 0x46] &&
      [0x4C, 0x46][1..] == [0x46];
    assert FATBIN_BYTES[1..] == [0xED, 0x55, 0xBA] && [0xED, 0x55, 0xBA][1..] == [0x55, 0xBA] &&
      [0x55, 0xBA][1..] == [0xBA];
  }

  // An image opens with one magic number at most.
  lemma OneMagic(blob: seq<byte>)
    requires |blob| >= 4 && Get(blob, 0, 4) == MAGIC
    ensures CubinArch(blob) == 0
  {
  }

  lemma NoMagic(blob: seq<byte>)
    requires !Starts(blob, ELF_MAGIC) && !Starts(blob, FATBIN_BYTES)
    ensures CubinArch(blob) == 0 && ContainerSize(blob) == 0
  {
    hide FromLe;
    MagicValues();
    if |blob| >= 4 {
      LeInjective(blob[0..4]);
      LeInjective(FATBIN_BYTES);
      assert blob[..4] == blob[0..4];
    }
  }

  // ---- The three kinds of replacement --------------------------------------------------

  lemma SameMagic(a: seq<byte>, b: seq<byte>)
    requires |a| >= 16 && |b| >= 16 && forall i :: 0 <= i < 8 ==> a[i] == b[i]
    ensures Get(a, 0, 4) == Get(b, 0, 4)
  {
    assert a[0..4] == b[0..4];
  }

  lemma RebuiltMagic(env: Env, data: seq<byte>, target: uint32, source: PtxSource)
    requires Sorts(env) && RetargetOf(env, data, target, source).out.Some?
    ensures var out := RetargetOf(env, data, target, source).out.value;
            |data| >= 16 && |out| >= 16 && Get(data, 0, 4) == MAGIC && Get(out, 0, 4) == MAGIC
  {
    hide Build, SourceOf, DescribeOf, NewPtx, RetargetOf, Padded, Retargeted, HoldsRunnable;
    SourceFacts(env, data, target, source);
    var chosen := SourceOf(env, data, source).value;
    var ptx := Padded(Retargeted(chosen.ptx, target));
    BuildCopies(data, chosen.image, ptx, target);
    FirstImage(data);
    SameMagic(data, Build(data, chosen.image, ptx, target));
  }

  // A rebuilt container: never the one it was built from, never a cubin, and within the
  // length bound, and only there, a container that holds a runnable image.
  lemma RebuiltContainer(env: Env, data: seq<byte>, target: uint32, source: PtxSource)
    requires Sorts(env) && target != 0 && RetargetOf(env, data, target, source).out.Some?
    ensures var out := RetargetOf(env, data, target, source).out.value;
            && out != data && out != [] && CubinArch(out) == 0 && CubinArch(data) == 0
            && (ContainerStays(env, data, target, source) ==> ContainerSize(out) != 0 && RunsAsIs(out, target))
  {
    hide Build, DescribeOf, SourceOf, NewPtx, Get, CubinArch;
    SourceFacts(env, data, target, source);
    RebuiltMagic(env, data, target, source);
    var out := RetargetOf(env, data, target, source).out.value;
    OneMagic(data);
    OneMagic(out);
    if out == data {
      var chosen := SourceOf(env, data, source).value;
      BuildFixpoint(data, chosen.image, Padded(Retargeted(chosen.ptx, target)), target);
    }
    if ContainerStays(env, data, target, source) {
      RoundTrip(env, data, target, source);
    }
  }

  // Rewritten text: never the text it was, and as long as it does not open like another
  // kind of image, runnable exactly when its version directive is still in the window.
  lemma RewrittenText(blob: seq<byte>, target: uint32)
    requires target != 0 && RetargetTextResult(blob, target).out.Some?
    ensures var out := RetargetTextResult(blob, target).out.value;
            && out != blob && out != []
            && (!Starts(blob, ELF_MAGIC) && !Starts(blob, FATBIN_BYTES) ==>
                  (VersionStays(blob, target) <==> RunsAsIs(out, target)))
  {
    hide Rewrite, Head, Find, CubinArch, ContainerSize;
    TextChanges(blob, target);
    ReadsBack(blob, target);
    FrontPreserved(blob, DIRECTIVE, Decimal(target), ELF_MAGIC);
    FrontPreserved(blob, DIRECTIVE, Decimal(target), FATBIN_BYTES);
    var out := Retargeted(blob, target);
    if !Starts(blob, ELF_MAGIC) && !Starts(blob, FATBIN_BYTES) {
      NoMagic(out);
    }
    TextStaysText(blob, target);
  }

  lemma TextStaysText(blob: seq<byte>, target: uint32)
    requires PtxTextArch(blob) != 0
    ensures Retargeted(blob, target) != []
  {
  }

  // ---- What the decision hands over --------------------------------------------------

  // A replacement is never the image it replaces, and wherever it is still recognised it
  // runs as it is: fed back, whoever asks and whatever is indexed by then, it is left alone.
  lemma SubstitutedRuns(env: Env, memory: Module -> seq<Span>, views: Views, request: Request, target: uint32,
                        source: PtxSource)
    requires Sorts(env) && target != 0 && Built(memory, views)
    requires DecideFromOf(env, views, request, target, source, true).decision == Substituted
    ensures var image := DecideFromOf(env, views, request, target, source, true).image;
            && image != request.blob && image != []
            && (StaysRecognisable(env, views, request, target, source) ==>
                  && RunsAsIs(image, target)
                  && forall later: Views, caller, any ::
                       DecideFromOf(env, later, Request(caller, image), target, any, true).decision == Unchanged
                       && DecideFromOf(env, later, Request(caller, image), target, any, true).reason == Runnable)
  {
    hide Retargeted, DescribeOf, SourceOf, NewPtx, CubinArch, PtxTextArch, VersionStays, SoleIndexed, IsIndexOf,
      ContainerStays, RetargetOf, NativeIn, ContainerIn, Starts;
    var blob, image := request.blob, DecideFromOf(env, views, request, target, source, true).image;
    if CubinArch(blob) != 0 {
      if NativeFound(views, request, target).Some? {
        var provider := Answering(views, request).value;
        NativeRuns(memory(provider), views.native[provider], blob, target);
      } else {
        RebuiltContainer(env, ContainerFound(views, request).value, target, source);
      }
    } else if ContainerSize(blob) != 0 {
      RebuiltContainer(env, blob, target, source);
    } else {
      RewrittenText(blob, target);
    }
    if StaysRecognisable(env, views, request, target, source) {
      forall later: Views, caller, any: PtxSource
        ensures DecideFromOf(env, later, Request(caller, image), target, any, true).decision == Unchanged
        ensures DecideFromOf(env, later, Request(caller, image), target, any, true).reason == Runnable
      {
        UnchangedIsSafe(env, later, Request(caller, image), target, any);
      }
    }
  }

  // ---- The retry ------------------------------------------------------------------------

  // A cubin's answering runtime was indexed at the first lookup, or not at the second either: its
  // own index did not come in between. An unattributed caller's always was.
  predicate Settled(views: Views, request: Request)
  {
    var provider := Answering(views, request);
    CubinArch(request.blob) != 0 && provider.Some? && provider.value in views.container ==>
      provider.value in views.native
  }

  lemma UnattributedSettled(views: Views, request: Request)
    requires InOrder(views) && request.caller == None
    ensures Settled(views, request)
  {
  }

  // Then the replacement is native whenever the runtime has a native image by the end of the
  // decision; otherwise it is not, though it has.
  lemma NativeFirst(env: Env, views: Views, request: Request, target: uint32, source: PtxSource)
    requires Sorts(env) && InOrder(views) && target != 0 && CubinArch(request.blob) != 0
    requires DecideFromOf(env, views, request, target, source, true).decision == Substituted
    ensures DecideFromOf(env, views, request, target, source, true).report.native <==>
            Settled(views, request) &&
              FindNative(views.container, Answering(views, request), request.blob, target).Some?
  {
    hide RetargetOf, NativeIn, ContainerIn, CubinArch, ContainerSize, PtxTextArch, RetargetTextResult;
  }

  // Whoever answered with something finds it again; what it did not find can have come in between.
  lemma FoundAgain(before: Views, after: Views, request: Request, target: uint32)
    requires InOrder(before) && InOrder(after) && Extends(before.refused, after.asked)
    requires NativeFound(before, request, target).Some? || ContainerFound(before, request).Some?
    ensures Settled(after, request) && Answering(before, request).Some?
    ensures Answering(after, request) == Answering(before, request) ||
            (Answering(after, request) == None && request.caller == None && |after.asked| != 1)
    ensures Answering(after, request).Some? ==>
      && (ContainerFound(before, request).Some? ==> ContainerFound(after, request) == ContainerFound(before, request))
      && (NativeFound(before, request, target).Some? ==>
          NativeFound(after, request, target) == NativeFound(before, request, target))
      && (CubinArch(request.blob) != 0 && Settled(before, request) ==>
            NativeFound(after, request, target) == NativeFound(before, request, target))
    ensures Answering(after, request) == None ==>
      NativeFound(after, request, target) == None && ContainerFound(after, request) == None
  {
    hide NativeIn, ContainerIn, CubinArch;
    if request.caller == None && SoleIndexed(before.asked).Some? {
      UnattributedNeedsOne(before.asked, after.asked, SoleIndexed(before.asked).value);
    }
  }

  // Once there is a replacement, more runtimes being indexed changes nothing, except that an
  // unattributed caller's cubin is refused when there are several to choose from, and that a
  // runtime indexed between two lookups may have a native image after all.
  lemma DecisionSettles(env: Env, before: Views, after: Views, request: Request, target: uint32, source: PtxSource)
    requires Sorts(env) && InOrder(before) && InOrder(after) && Extends(before.refused, after.asked)
    requires DecideFromOf(env, before, request, target, source, true).decision == Substituted
    ensures var was, now := DecideFromOf(env, before, request, target, source, true),
      DecideFromOf(env, after, request, target, source, true);
            || now == was
            || (now.decision == Refused && request.caller == None && |after.asked| != 1 && CubinArch(request.blob) != 0)
            || (now.decision == Substituted && now.report == Report(0, CubinArch(request.blob), false, true) &&
                HasNative(after, request, target) && !Settled(before, request))
    ensures Settled(after, request)
  {
    hide RetargetOf, NativeFound, ContainerFound, Answering, Settled, InOrder, CubinArch, ContainerSize, PtxTextArch,
      RetargetTextResult;
    if CubinArch(request.blob) != 0 {
      FoundAgain(before, after, request, target);
    } else {
      OnlyCubinsSettle(after, request);
    }
  }

  lemma OnlyCubinsSettle(views: Views, request: Request)
    ensures CubinArch(request.blob) == 0 ==> Settled(views, request)
  {
  }

  // Among the answers to one request, a replacement from the closest PTX is built from no
  // newer an architecture than one from the newest.
  lemma ClosestIsLowest(env: Env, views: Views, request: Request, target: uint32)
    requires Sorts(env)
    requires DecideFromOf(env, views, request, target, Newest, true).decision == Substituted
    requires DecideFromOf(env, views, request, target, Closest, true).decision == Substituted
    ensures DecideFromOf(env, views, request, target, Closest, true).report.sourceArch <=
            DecideFromOf(env, views, request, target, Newest, true).report.sourceArch
    ensures HasNative(views, request, target) ==>
      DecideFromOf(env, views, request, target, Closest, true) ==
      DecideFromOf(env, views, request, target, Newest, true)
  {
    hide RetargetOf, NativeIn, ContainerIn, CubinArch, ContainerSize, PtxTextArch, RetargetTextResult, SoleIndexed;
    if CubinArch(request.blob) != 0 {
      var container := ContainerFound(views, request);
      if container.Some? {
        ClosestContainer(env, container.value, target);
      }
    } else {
      ClosestContainer(env, request.blob, target);
    }
  }

  lemma ClosestContainer(env: Env, data: seq<byte>, target: uint32)
    requires Sorts(env)
    ensures RetargetOf(env, data, target, Newest).out.Some? && RetargetOf(env, data, target, Closest).out.Some? ==>
              RetargetOf(env, data, target, Closest).report.sourceArch <=
              RetargetOf(env, data, target, Newest).report.sourceArch
  {
    if RetargetOf(env, data, target, Newest).out.Some? && RetargetOf(env, data, target, Closest).out.Some? {
      SourceFacts(env, data, target, Newest);
      SourceFacts(env, data, target, Closest);
      SourceIsBest(env, data, Newest);
      SourceIsBest(env, data, Closest);
    }
    hide Build, DescribeOf, SourceOf, Retargeted, RetargetOf;
  }

  datatype Substitution = Substitution(image: seq<byte>, sourceArch: nat)

  // The rebuild after the driver rejected a replacement, or None when there is nothing
  // different to try.
  ghost function FallbackOf(env: Env, views: Views, request: Request, target: uint32, multiFrame: bool,
                            rejected: Substitution, active: bool): Option<Substitution>
    requires Sorts(env)
  {
    var again := DecideFromOf(env, views, request, target, Closest, active);
    if !multiFrame || rejected.sourceArch == 0 then None
    else if again.decision != Substituted || again.report.sourceArch == rejected.sourceArch then None
    else Some(Substitution(again.image, again.report.sourceArch))
  }

  // A cubin no runtime can be named for is never replaced.
  lemma UnattributedRefused(env: Env, views: Views, request: Request, target: uint32)
    requires Sorts(env)
    ensures request.caller == None && |views.asked| != 1 && CubinArch(request.blob) != 0 ==>
              DecideFromOf(env, views, request, target, Closest, true).decision != Substituted
  {
    hide RetargetOf, NativeIn, ContainerIn, CubinArch;
  }

  // The second of two replacements is of a strictly older build, unless the runtime was indexed
  // between two lookups of the first decision: then it can be the runtime's native image, which
  // is for the cubin's own architecture.
  ghost predicate Older(before: Views, between: Views, request: Request, target: uint32, first: Substitution,
                        second: Substitution)
  {
    second.sourceArch < first.sourceArch ||
    (!Settled(before, request) && HasNative(between, request, target) &&
     second.sourceArch == CubinArch(request.blob) > first.sourceArch)
  }

  // There is at most one retry: after it, whatever is indexed by then, there is nothing left to
  // try.
  lemma FallbackOnce(env: Env, before: Views, between: Views, after: Views, request: Request, target: uint32,
                     multiFrame: bool, first: Substitution, second: Substitution)
    requires Sorts(env) && target != 0 && InOrder(before) && InOrder(between) && InOrder(after)
    requires Extends(before.refused, between.asked) && Extends(between.refused, after.asked)
    requires DecideFromOf(env, before, request, target, Newest, true).decision == Substituted
    requires first.sourceArch == DecideFromOf(env, before, request, target, Newest, true).report.sourceArch
    requires FallbackOf(env, between, request, target, multiFrame, first, true) == Some(second)
    ensures Older(before, between, request, target, first, second)
    ensures FallbackOf(env, after, request, target, multiFrame, second, true) == None
  {
    hide DecideFromOf;
    DecisionSettles(env, before, between, request, target, Newest);
    UnattributedRefused(env, between, request, target);
    ClosestIsLowest(env, between, request, target);
    DecisionSettles(env, between, after, request, target, Closest);
  }

  // ---- How long a replacement is ------------------------------------------------------------

  // What keeps a replacement within 32 bits, known before it is built: no section of a runtime
  // takes 4 GB, and a text not half of that. A rebuilt container needs neither.
  ghost predicate ShortSources(memory: Module -> seq<Span>, blob: seq<byte>)
  {
    (forall p, k :: 0 <= k < |memory(p)| ==> |memory(p)[k].data| < 0x1_0000_0000) &&
    (CubinArch(blob) == 0 && ContainerSize(blob) == 0 ==> |blob| < 0x8000_0000)
  }

  lemma ReplacementShort(env: Env, memory: Module -> seq<Span>, views: Views, request: Request, target: uint32,
                         source: PtxSource, active: bool)
    requires Sorts(env) && Built(memory, views)
    requires ShortSources(memory, request.blob)
    ensures |DecideFromOf(env, views, request, target, source, active).image| < 0x1_0000_0000
  {
    hide Retargeted, RetargetOf, CubinArch, ContainerSize, PtxTextArch, SoleIndexed, IsIndexOf, NativeIn, ContainerIn;
    var blob := request.blob;
    if CubinArch(blob) != 0 {
      if NativeFound(views, request, target).Some? {
        var provider := Answering(views, request).value;
        NativeShort(memory(provider), views.native[provider], blob, target, 0x1_0000_0000);
      }
      if ContainerFound(views, request).Some? {
        RebuiltShort(env, ContainerFound(views, request).value, target, source);
      }
    } else if ContainerSize(blob) != 0 {
      RebuiltShort(env, blob, target, source);
    } else {
      RewrittenShort(blob, target);
    }
  }

  lemma TwoTargetsPlain(first: seq<byte>, second: seq<byte>, n: nat, m: nat)
    ensures var text := TwoTargets(first, second, n, m);
            text != [] && CubinArch(text) == 0 && ContainerSize(text) == 0
  {
    var text := TwoTargets(first, second, n, m);
    assert text[0] == DOT;
    NoMagic(text);
    hide CubinArch, ContainerSize;
  }

  // A text of 4 GB less a byte whose replacement takes all of 4 GB.
  lemma TextCanOutgrow(env: Env, views: Views, caller: Option<Module>, source: PtxSource) returns (blob: seq<byte>)
    requires Sorts(env)
    ensures |blob| == 0xFFFF_FFFF
    ensures var outcome := DecideFromOf(env, views, Request(caller, blob), 89, source, true);
            outcome.decision == Substituted && |outcome.image| == 0x1_0000_0000
  {
    hide TwoTargets, Retargeted, PtxTextArch, CubinArch, ContainerSize;
    var m := 0xFFFF_FFFF - 34;
    blob := TwoTargets(NINETY, ONE, 0, m);
    TwoTargetsLength(NINETY, ONE, 0, m);
    TwoTargetsLength(EIGHTY_NINE, EIGHTY_NINE, 0, m);
    TwoTargetsRead(0, m);
    TwoTargetsGrow(0, m);
    TwoTargetsPlain(NINETY, ONE, 0, m);
  }
}
