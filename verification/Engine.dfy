/** The engine that makes the decisions, with the state it keeps between them
    (src/kernels/substitute.cpp:127-190, 263-339). */
module Engines {
  import opened Bytes
  import opened Images
  import opened PtxText
  import opened Fatbin
  import opened Retarget
  import opened Cubin
  import opened ProviderIndex
  import opened IndexBuild
  import opened Substitute

  datatype Options = Options(enabled: bool, targetSm: uint32, multiFrame: bool)

  function PreferredSource(options: Options): PtxSource
  {
    if options.multiFrame then Newest else Closest
  }

  // Withholding replacements turns them into refusals.
  function Verdict(outcome: Outcome, enabled: bool): Decision
  {
    if outcome.decision == Substituted && !enabled then Refused else outcome.decision
  }

  class Engine {
    const env: Env
    const providers: ProviderIndexes
    // The architecture CUDA reports and the one NVAPI's ids stand for, 0 for none.
    const deviceSm: uint32
    const fromNvapi: (uint32, uint32) -> uint32

    var options: Options
    var configured: bool
    var active: bool
    var fallbackArch: uint32
    var fallbackImpl: uint32
    var target: Option<uint32>

    var decisions: nat
    var native: nat
    var retargeted: nat
    var refusals: nat
    var unchangedImages: nat

    ghost predicate Valid()
      reads this, providers
    {
      Sorts(env) && providers.Valid()
    }

    constructor (env: Env, providers: ProviderIndexes, deviceSm: uint32, fromNvapi: (uint32, uint32) -> uint32)
      requires Sorts(env) && providers.Valid()
      ensures Valid() && !Active() && Target() == 0
      ensures this.env == env && this.providers == providers
    {
      this.env := env;
      this.providers := providers;
      this.deviceSm := deviceSm;
      this.fromNvapi := fromNvapi;
      options := Options(true, 0, false);
      configured, active := false, false;
      fallbackArch, fallbackImpl := 0, 0;
      target := None;
      decisions, native, retargeted, refusals, unchangedImages := 0, 0, 0, 0, 0;
    }

    predicate Active()
      reads this`configured, this`active
    {
      configured && active
    }

    function Source(): PtxSource
      reads this`options
    {
      PreferredSource(options)
    }

    // The architecture as it would be resolved now: the configured one, else the GPU's own,
    // else the one NVAPI named.
    function Resolved(): uint32
      reads this`options, this`fallbackArch, this`fallbackImpl
    {
      if options.targetSm != 0 then options.targetSm
      else if deviceSm != 0 then deviceSm
      else fromNvapi(fallbackArch, fallbackImpl)
    }

    function Target(): uint32
      reads this
    {
      if !Active() then 0 else if target.Some? then target.value else Resolved()
    }

    method Configure(options: Options)
      modifies this`options, this`configured
      ensures this.options == options && configured
    {
      this.options := options;
      configured := true;
    }

    method Activate(architecture: uint32, implementation: uint32)
      modifies this`fallbackArch, this`fallbackImpl, this`active
      ensures active && fallbackArch == architecture && fallbackImpl == implementation
    {
      fallbackArch := architecture;
      fallbackImpl := implementation;
      active := true;
    }

    // Resolved once: whatever is configured or activated later, the answer stays.
    method TargetSm() returns (sm: uint32)
      modifies this`target
      ensures sm == old(Target()) && Target() == sm
      ensures Active() && old(target) == None ==>
        (options.targetSm != 0 ==> sm == options.targetSm) &&
        (options.targetSm == 0 && deviceSm != 0 ==> sm == deviceSm) &&
        (options.targetSm == 0 && deviceSm == 0 ==> sm == fromNvapi(fallbackArch, fallbackImpl))
      ensures Active() ==> target == Some(sm)
      ensures !Active() || old(target).Some? ==> target == old(target)
    {
      if !Active() {
        return 0;
      }
      if target == None {
        sm := options.targetSm;
        if sm == 0 {
          sm := deviceSm;
        }
        if sm == 0 {
          sm := fromNvapi(fallbackArch, fallbackImpl);
        }
        target := Some(sm);
      }
      sm := target.value;
    }

    method AnsweringModule(caller: Option<Module>) returns (provider: Option<Module>)
      ensures provider == AnsweringProvider(providers.indexes, caller)
    {
      if caller.Some? {
        return caller;
      }
      provider := providers.SoleIndexedProvider();
      assert SoleIndexed(providers.indexes).Some? ==> providers.indexes.Keys == {SoleIndexed(providers.indexes).value};
      assert provider.Some? ==> |providers.indexes.Keys| == 1;
    }

    // The worker may index runtimes ahead of each lookup; `views` is what is indexed at each.
    method DecideCubin(request: Request, arch: uint32, target: uint32, source: PtxSource, meanwhile: Meanwhile)
        returns (outcome: Outcome, ghost views: Views)
      requires Valid() && arch == CubinArch(request.blob)
      modifies providers`indexes
      ensures Valid() && SeenBetween(old(providers.indexes), views, providers.indexes)
      ensures outcome == CubinDecision(env, views, request, target, source)
    {
      hide RetargetOf, NativeIn, ContainerIn, CubinArch, IsIndexOf, Apart, CanRun, SoleIndexed, SortOf, Sorts;
      var report := NO_REPORT.(sourceArch := arch);
      views := Still(providers.indexes);
      if CanRun(false, arch, target) {
        return Outcome(Unchanged, [], report, Runnable), views;
      }
      providers.WorkerIndexes(meanwhile(0));
      views := Still(providers.indexes);
      var provider := AnsweringModule(request.caller);
      providers.WorkerIndexes(meanwhile(1));
      views := Views(views.asked, providers.indexes, providers.indexes, providers.indexes);
      var image := providers.FindNativeCubin(provider, request.blob, target);
      if image.Some? {
        return Outcome(Substituted, image.value, report.(native := true), Supplied), views;
      }
      providers.WorkerIndexes(meanwhile(2));
      views := Views(views.asked, views.native, providers.indexes, providers.indexes);
      var container := providers.FindContainerForCubin(provider, request.blob);
      if container.Some? {
        var out, retarget := Retarget.Retarget(env, container.value, target, source);
        if out.Some? {
          return Outcome(Substituted, out.value, report.(sourceArch := retarget.sourceArch), Supplied), views;
        }
      }
      providers.WorkerIndexes(meanwhile(3));
      views := Views(views.asked, views.native, views.container, providers.indexes);
      var reason := CallerUnknown;
      if provider.Some? {
        var indexed := providers.ProviderIndexed(provider.value);
        reason := if indexed then NoRunnableImage else NotIndexed;
      }
      outcome := Outcome(Refused, [], report, reason);
    }

    method DecideFrom(request: Request, target: uint32, source: PtxSource, meanwhile: Meanwhile)
        returns (outcome: Outcome, ghost views: Views)
      requires Valid()
      modifies providers`indexes
      ensures Valid() && SeenBetween(old(providers.indexes), views, providers.indexes)
      ensures outcome == DecideFromOf(env, views, request, target, source, Active())
    {
      var blob := request.blob;
      views := Still(providers.indexes);
      if target == 0 || blob == [] {
        var reason := if !Active() then Inactive else if target != 0 then Empty else NoTarget;
        return Outcome(Unchanged, [], NO_REPORT, reason), views;
      }
      var arch := CubinArch(blob);
      if arch != 0 {
        CubinArchByte(blob);
        outcome, views := DecideCubin(request, arch, target, source, meanwhile);
        return;
      }
      if ContainerSize(blob) != 0 {
        var out, report := Retarget.Retarget(env, blob, target, source);
        if out.Some? {
          return Outcome(Substituted, out.value, report, Supplied), views;
        }
        if report.alreadyRunnable {
          return Outcome(Unchanged, [], report, Runnable), views;
        }
        return Outcome(Refused, [], report, ContainerUseless), views;
      }
      var out, report := RetargetPtxText(blob, target);
      if out.Some? {
        return Outcome(Substituted, out.value, report, Supplied), views;
      }
      outcome := Outcome(Unchanged, [], report, if report.alreadyRunnable then Runnable else NotKernelImage);
    }

    method Count(decision: Decision, report: Report)
      modifies this`native, this`retargeted, this`refusals, this`unchangedImages
      ensures native == old(native) + (if decision == Substituted && report.native then 1 else 0)
      ensures retargeted == old(retargeted) + (if decision == Substituted && !report.native then 1 else 0)
      ensures refusals == old(refusals) + (if decision == Refused then 1 else 0)
      ensures unchangedImages == old(unchangedImages) + (if decision == Unchanged then 1 else 0)
    {
      match decision
      case Substituted =>
        if report.native { native := native + 1; } else { retargeted := retargeted + 1; }
      case Refused => refusals := refusals + 1;
      case Unchanged => unchangedImages := unchangedImages + 1;
    }

    // Decides what the driver receives, and counts every decision once.
    method Decide(request: Request, meanwhile: Meanwhile)
        returns (decision: Decision, out: Substitution, ghost views: Views)
      requires Valid()
      modifies this`target, this`decisions, this`native, this`retargeted, this`refusals, this`unchangedImages
      modifies providers`indexes
      ensures Valid() && Target() == old(Target()) && (Active() ==> target == Some(Target()))
      ensures SeenBetween(old(providers.indexes), views, providers.indexes)
      ensures var outcome := DecideFromOf(env, views, request, Target(), Source(), Active());
              && decision == Verdict(outcome, options.enabled)
              && (decision == Substituted ==> out == Substitution(outcome.image, outcome.report.sourceArch))
              && (decision != Substituted ==> out.sourceArch == 0)
      ensures decisions == old(decisions) + 1
      ensures native + retargeted + refusals + unchangedImages ==
              old(native + retargeted + refusals + unchangedImages) + 1
    {
      hide DecideFromOf;
      var sm := TargetSm();
      decisions := decisions + 1;
      var outcome;
      outcome, views := DecideFrom(request, sm, Source(), meanwhile);
      decision := outcome.decision;
      if decision == Substituted && !options.enabled {
        decision := Refused;
      }
      out := Substitution(outcome.image, if decision == Substituted then outcome.report.sourceArch else 0);
      Count(decision, outcome.report);
    }

    // After the driver rejected `rejected`: the rebuild from the closest PTX, when that is
    // something else.
    method Fallback(request: Request, rejected: Substitution, meanwhile: Meanwhile)
        returns (out: Option<Substitution>, ghost views: Views)
      requires Valid()
      modifies this`target, providers`indexes
      ensures Valid() && Target() == old(Target())
      ensures old(target).Some? ==> target == old(target)
      ensures SeenBetween(old(providers.indexes), views, providers.indexes)
      ensures out == FallbackOf(env, views, request, Target(), options.multiFrame, rejected, Active())
    {
      hide DecideFromOf;
      views := Still(providers.indexes);
      if !options.multiFrame || rejected.sourceArch == 0 {
        return None, views;
      }
      var sm := TargetSm();
      var outcome;
      outcome, views := DecideFrom(request, sm, Closest, meanwhile);
      if outcome.decision != Substituted || outcome.report.sourceArch == rejected.sourceArch {
        return None, views;
      }
      out := Some(Substitution(outcome.image, outcome.report.sourceArch));
    }
  }

  lemma CubinArchByte(blob: seq<byte>)
    ensures 0 <= CubinArch(blob) < 0x100
  {
  }
}
