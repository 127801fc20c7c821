/** The two routes that hand the driver a whole module (src/kernels/substitute.h:96-109,
    src/spoof/nvapi.cpp:257-288, src/kernels/vulkan_route.cpp:45-73). */
module DriverRoutes {
  import opened Bytes
  import opened Retarget
  import opened Cubin
  import opened ProviderIndex
  import opened IndexBuild
  import opened Substitute
  import opened Engines

  // The driver's entry point: its status for the image it is given in each attempt, 0 for
  // success. None: the entry point was never resolved.
  type Driver = (nat, seq<byte>) -> int

  const NVAPI_ERROR := 0xFFFF_FFFF
  const VK_ERROR_INITIALIZATION_FAILED := -3
  const VK_ERROR_UNKNOWN := -13

  // Nothing for the GPU to choke on: no image, one it can run, or none it knows.
  predicate DriverSafe(blob: seq<byte>, target: uint32)
  {
    blob == [] || RunsAsIs(blob, target) || Unrecognised(blob)
  }

  // Hands the driver a replacement, and once more the fallback when it is refused. The worker
  // indexes runtimes while the driver is busy, and ahead of each lookup of the fallback. `handed`
  // is the image of each call, in order.
  method CreateSubstituted(engine: Engine, request: Request, substitution: Substitution, driver: Driver,
                           meanwhile: Meanwhile)
      returns (status: int, handed: seq<seq<byte>>, last: Substitution, ghost views: Views)
    requires engine.Valid()
    modifies engine`target, engine.providers`indexes
    ensures engine.Valid() && engine.Target() == old(engine.Target())
    ensures old(engine.target).Some? ==> engine.target == old(engine.target)
    ensures SeenBetween(old(engine.providers.indexes), views, engine.providers.indexes)
    ensures var fallback := FallbackOf(engine.env, views, request, engine.Target(),
                                       engine.options.multiFrame, substitution, engine.Active());
            if driver(0, substitution.image) != 0 && fallback.Some?
            then last == fallback.value && handed == [substitution.image, last.image] && status == driver(1, last.image)
            else last == substitution && handed == [substitution.image] && status == driver(0, last.image)
  {
    hide DecideFromOf, FallbackOf;
    last := substitution;
    status := driver(0, last.image);
    handed := [last.image];
    engine.providers.WorkerIndexes(meanwhile(0));
    views := Still(engine.providers.indexes);
    if status != 0 {
      var fallback;
      fallback, views := engine.Fallback(request, last, n => meanwhile(n + 1));
      if fallback.Some? {
        last := fallback.value;
        status := driver(1, last.image);
        handed := handed + [last.image];
      }
    }
  }

  // How one creation ends. What is not replaced is passed on, or refused without the driver
  // seeing it. What is replaced never reaches the driver as it came; the driver is called
  // once more exactly when it refuses the replacement and there is a fallback, which is of an
  // older build. `before` and `after` are what the decision and the fallback saw indexed.
  ghost predicate Answered(env: Env, before: Views, after: Views, options: Options, request: Request, target: uint32,
                           active: bool, driver: Driver, refusal: int, status: int, handed: seq<seq<byte>>)
    requires Sorts(env)
  {
    var outcome := DecideFromOf(env, before, request, target, PreferredSource(options), active);
    match Verdict(outcome, options.enabled)
    case Unchanged => handed == [request.blob] && status == driver(0, request.blob)
    case Refused => handed == [] && status == refusal
    case Substituted =>
      var first := Substitution(outcome.image, outcome.report.sourceArch);
      var fallback := FallbackOf(env, after, request, target, options.multiFrame, first, active);
      request.blob !in handed &&
      if driver(0, first.image) != 0 && fallback.Some?
      then handed == [first.image, fallback.value.image] && status == driver(1, fallback.value.image) &&
           Older(before, after, request, target, first, fallback.value)
      else handed == [first.image] && status == driver(0, first.image)
  }

  // What the driver is handed: an image passed on is safe, and a replacement runs as it is, as
  // long as it still reads as the image it is. The first was decided on by what `before` saw,
  // the second rebuilt from the closest PTX by what `after` saw.
  ghost predicate HandedSafely(env: Env, before: Views, after: Views, options: Options, request: Request,
                               target: uint32, active: bool, handed: seq<seq<byte>>)
    requires Sorts(env)
  {
    var source := PreferredSource(options);
    var verdict := Verdict(DecideFromOf(env, before, request, target, source, active), options.enabled);
    target != 0 ==>
      if verdict == Substituted then
        (|handed| > 0 && StaysRecognisable(env, before, request, target, source) ==> Runs(handed[0], target)) &&
        (|handed| > 1 && StaysRecognisable(env, after, request, target, Closest) ==> Runs(handed[1], target))
      else forall k :: 0 <= k < |handed| ==> DriverSafe(handed[k], target)
  }

  predicate Runs(image: seq<byte>, target: uint32)
  {
    image != [] && RunsAsIs(image, target)
  }

  // One creation as every route makes it. `before` and `after` are what is seen indexed by its
  // decision and by its fallback.
  method Create(engine: Engine, request: Request, driver: Driver, refusal: int, meanwhile: Meanwhile)
      returns (status: int, handed: seq<seq<byte>>, ghost before: Views, ghost after: Views)
    requires engine.Valid()
    modifies engine`target, engine`decisions, engine`native, engine`retargeted, engine`refusals, engine`unchangedImages
    modifies engine.providers`indexes
    ensures engine.Valid() && engine.Target() == old(engine.Target())
    ensures SeenBetween(old(engine.providers.indexes), before, after.asked)
    ensures SeenBetween(before.refused, after, engine.providers.indexes)
    ensures Answered(engine.env, before, after, engine.options, request, engine.Target(), engine.Active(), driver,
                     refusal, status, handed)
    ensures HandedSafely(engine.env, before, after, engine.options, request, engine.Target(), engine.Active(), handed)
  {
    hide DecideFromOf, FallbackOf, StaysRecognisable, RunsAsIs, Unrecognised, Older, IsIndexOf, Apart;
    ghost var active := engine.Active();
    ghost var source := engine.Source();
    ghost var memory := engine.providers.memory;
    var decision, substitution;
    decision, substitution, before := engine.Decide(request, meanwhile);
    after := Still(engine.providers.indexes);
    ghost var target := engine.Target();
    match decision
    case Unchanged =>
      status := driver(0, request.blob);
      handed := [request.blob];
      PassedOn(engine.env, before, request, target, source, active);
    case Refused =>
      status := refusal;
      handed := [];
    case Substituted =>
      Replaced(engine.env, memory, before, request, target, source, active);
      ghost var last: Substitution;
      status, handed, last, after := CreateSubstituted(engine, request, substitution, driver, n => meanwhile(n + 4));
      if |handed| == 2 {
        Retried(engine.env, memory, before, after, request, target, engine.options.multiFrame, active, substitution,
                last);
      }
  }

  // What the decision says of an image that is passed on as it came.
  lemma PassedOn(env: Env, views: Views, request: Request, target: uint32, source: PtxSource, active: bool)
    requires Sorts(env) && DecideFromOf(env, views, request, target, source, active).decision == Unchanged
    ensures target != 0 ==> DriverSafe(request.blob, target)
  {
    if target != 0 {
      UnchangedIsSafe(env, views, request, target, source);
    }
    hide CubinDecision, ContainerDecision, TextDecision, CubinArch, RunsAsIs, Unrecognised;
  }

  lemma Replaced(env: Env, memory: Module -> seq<Span>, views: Views, request: Request, target: uint32,
                 source: PtxSource, active: bool)
    requires Sorts(env) && Built(memory, views)
    requires DecideFromOf(env, views, request, target, source, active).decision == Substituted
    ensures target != 0
    ensures var image := DecideFromOf(env, views, request, target, source, active).image;
            image != request.blob && (StaysRecognisable(env, views, request, target, source) ==> Runs(image, target))
    ensures DecideFromOf(env, views, request, target, source, active) ==
            DecideFromOf(env, views, request, target, source, true)
  {
    hide DecideFromOf, StaysRecognisable, RunsAsIs, IsIndexOf, Unrecognised;
    ActiveWhenSubstituted(env, views, request, target, source, active);
    SubstitutedRuns(env, memory, views, request, target, source);
  }

  lemma Retried(env: Env, memory: Module -> seq<Span>, before: Views, after: Views, request: Request, target: uint32,
                multiFrame: bool, active: bool, first: Substitution, second: Substitution)
    requires Sorts(env) && target != 0 && InOrder(before) && Extends(before.refused, after.asked) &&
      Built(memory, after)
    requires var source := if multiFrame then Newest else Closest;
             var outcome := DecideFromOf(env, before, request, target, source, active);
             outcome.decision == Substituted && first.sourceArch == outcome.report.sourceArch
    requires FallbackOf(env, after, request, target, multiFrame, first, active) == Some(second)
    ensures Older(before, after, request, target, first, second) && second.image != request.blob
    ensures StaysRecognisable(env, after, request, target, Closest) ==> Runs(second.image, target)
    ensures var again := DecideFromOf(env, after, request, target, Closest, active);
            again.decision == Substituted && second == Substitution(again.image, again.report.sourceArch)
  {
    hide DecideFromOf, StaysRecognisable, RunsAsIs, IsIndexOf, Unrecognised, Older;
    ActiveWhenSubstituted(env, before, request, target, Newest, active);
    ActiveWhenSubstituted(env, after, request, target, Closest, active);
    Replaced(env, memory, after, request, target, Closest, active);
    StillInOrder(after.refused);
    FallbackOnce(env, before, after, Still(after.refused), request, target, multiFrame, first, second);
  }

  lemma StillInOrder(indexes: Indexes)
    ensures InOrder(Still(indexes)) && Extends(indexes, indexes)
  {
  }

  lemma ActiveWhenSubstituted(env: Env, views: Views, request: Request, target: uint32, source: PtxSource, active: bool)
    requires Sorts(env) && DecideFromOf(env, views, request, target, source, active).decision == Substituted
    ensures target != 0
    ensures DecideFromOf(env, views, request, target, source, active) ==
            DecideFromOf(env, views, request, target, source, true)
  {
    hide CubinDecision, ContainerDecision, TextDecision, CubinArch;
  }

  // The length NVAPI takes is 32 bits wide, whatever is passed.
  function Narrow(image: seq<byte>): seq<byte>
  {
    image[..|image| % 0x1_0000_0000]
  }

  function Narrowed(driver: Driver): Driver
  {
    (n: nat, image: seq<byte>) => driver(n, Narrow(image))
  }

  // NVAPI's module creation: `images` are what the driver is meant to receive, and `handed`
  // what the length lets it, which is all of it unless a section of a runtime takes 4 GB or a
  // text half of that. An absent image is passed on without a decision.
  method NvapiCreateCuModule(engine: Engine, original: Option<Driver>, request: Request, meanwhile: Meanwhile)
      returns (status: int, handed: seq<seq<byte>>, ghost images: seq<seq<byte>>, ghost before: Views,
               ghost after: Views)
    requires engine.Valid() && |request.blob| < 0x1_0000_0000
    modifies engine`target, engine`decisions, engine`native, engine`retargeted, engine`refusals, engine`unchangedImages
    modifies engine.providers`indexes
    ensures original == None ==> status == NVAPI_ERROR && handed == []
    ensures (original.Some? && request.blob == []) ==> handed == [[]] && status == original.value(0, [])
    ensures original.Some? && request.blob != [] ==>
      && |handed| == |images| && (forall k :: 0 <= k < |handed| ==> handed[k] == Narrow(images[k]))
      && (ShortSources(engine.providers.memory, request.blob) ==> handed == images)
      && SeenBetween(old(engine.providers.indexes), before, after.asked)
      && SeenBetween(before.refused, after, engine.providers.indexes)
      && Answered(engine.env, before, after, engine.options, request, engine.Target(), engine.Active(),
                  Narrowed(original.value), NVAPI_ERROR, status, images)
      && HandedSafely(engine.env, before, after, engine.options, request, engine.Target(), engine.Active(), images)
  {
    hide DecideFromOf, FallbackOf, StaysRecognisable, RunsAsIs, Unrecognised, ShortSources, Older, IsIndexOf, Apart;
    ghost var memory := engine.providers.memory;
    before, after := Still(engine.providers.indexes), Still(engine.providers.indexes);
    status, handed, images := NVAPI_ERROR, [], [];
    if original == None {
      return;
    }
    if request.blob == [] {
      status := original.value(0, request.blob);
      handed := [request.blob];
      return;
    }
    var whole: seq<seq<byte>>;
    status, whole, before, after := Create(engine, request, Narrowed(original.value), NVAPI_ERROR, meanwhile);
    images := whole;
    for k := 0 to |whole|
      invariant |handed| == k && forall j :: 0 <= j < k ==> handed[j] == Narrow(whole[j])
    {
      handed := handed + [Narrow(whole[k])];
    }
    if ShortSources(memory, request.blob) {
      NoneNarrowed(engine.env, memory, before, after, engine.options, request, engine.Target(), engine.Active(),
                   Narrowed(original.value), NVAPI_ERROR, status, whole);
      assert handed == whole;
    }
  }

  lemma NoneNarrowed(env: Env, memory: Module -> seq<Span>, before: Views, after: Views, options: Options,
                     request: Request, target: uint32, active: bool, driver: Driver, refusal: int, status: int,
                     images: seq<seq<byte>>)
    requires Sorts(env) && |request.blob| < 0x1_0000_0000 && ShortSources(memory, request.blob)
    requires Built(memory, before) && Built(memory, after)
    requires Answered(env, before, after, options, request, target, active, driver, refusal, status, images)
    ensures forall k :: 0 <= k < |images| ==> |images[k]| < 0x1_0000_0000 && Narrow(images[k]) == images[k]
  {
    hide DecideFromOf, ShortSources, Built, Older;
    ReplacementShort(env, memory, before, request, target, PreferredSource(options), active);
    ReplacementShort(env, memory, after, request, target, Closest, active);
    forall k | 0 <= k < |images|
      ensures |images[k]| < 0x1_0000_0000 && Narrow(images[k]) == images[k]
    {
      NarrowIsWhole(images[k]);
    }
  }

  // The 32-bit length says all of an image exactly when it is shorter than 4 GB.
  lemma NarrowIsWhole(image: seq<byte>)
    ensures Narrow(image) == image <==> |image| < 0x1_0000_0000
  {
  }

  // Were a text longer, the length could say nothing: a replacement of which the driver is
  // handed not one byte.
  lemma TextCutToNothing(env: Env, views: Views, caller: Option<Module>, source: PtxSource) returns (blob: seq<byte>)
    requires Sorts(env)
    ensures |blob| < 0x1_0000_0000
    ensures var outcome := DecideFromOf(env, views, Request(caller, blob), 89, source, true);
            outcome.decision == Substituted && outcome.image != [] && Narrow(outcome.image) == []
  {
    hide DecideFromOf;
    blob := TextCanOutgrow(env, views, caller, source);
  }

  // VK_NVX_binary_import's module creation. A call without create info is passed on; the
  // length is a size_t, so nothing is narrowed.
  method VulkanCreateCuModule(engine: Engine, original: Option<Driver>, info: Option<Request>, meanwhile: Meanwhile)
      returns (status: int, handed: seq<seq<byte>>, ghost before: Views, ghost after: Views)
    requires engine.Valid()
    modifies engine`target, engine`decisions, engine`native, engine`retargeted, engine`refusals, engine`unchangedImages
    modifies engine.providers`indexes
    ensures original == None ==> status == VK_ERROR_UNKNOWN && handed == []
    ensures original.Some? && info == None ==> handed == [[]] && status == original.value(0, [])
    ensures original.Some? && info.Some? ==>
      && SeenBetween(old(engine.providers.indexes), before, after.asked)
      && SeenBetween(before.refused, after, engine.providers.indexes)
      && Answered(engine.env, before, after, engine.options, info.value, engine.Target(), engine.Active(),
                  original.value, VK_ERROR_INITIALIZATION_FAILED, status, handed)
      && HandedSafely(engine.env, before, after, engine.options, info.value, engine.Target(), engine.Active(), handed)
  {
    hide DecideFromOf, FallbackOf, StaysRecognisable, RunsAsIs, Unrecognised, Older;
    before, after := Still(engine.providers.indexes), Still(engine.providers.indexes);
    if original == None {
      return VK_ERROR_UNKNOWN, [], before, after;
    }
    if info == None {
      return original.value(0, []), [[]], before, after;
    }
    status, handed, before, after := Create(engine, info.value, original.value, VK_ERROR_INITIALIZATION_FAILED,
                                            meanwhile);
  }
}
