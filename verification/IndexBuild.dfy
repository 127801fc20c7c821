/** Building and querying the per-runtime indexes
    (src/kernels/provider_index.cpp:138-254). */
module IndexBuild {
  import opened Bytes
  import opened Images
  import opened Fatbin
  import opened Cubin
  import opened ProviderIndex

  // ---- Containers -----------------------------------------------------------------

  // A fingerprint, and a container that holds an image of it.
  type Pairs = set<(nat, Blob)>

  function PairsOf(containers: seq<Blob>): Pairs
  {
    set c, key | c in containers && key in KeysOf(c.bytes) :: (key, c)
  }

  // What try_emplace and the ambiguity test have built from the pairs seen.
  ghost predicate Collected(contained: map<nat, Blob>, ambiguous: set<nat>, pairs: Pairs)
  {
    && (forall key :: key in contained ==> (key, contained[key]) in pairs)
    && (forall key, c :: (key, c) in pairs ==>
        key in contained && (c.address == contained[key].address || key in ambiguous))
    && (forall key :: key in ambiguous ==>
        key in contained && exists c :: (key, c) in pairs && c.address != contained[key].address)
  }

  lemma CollectStep(contained: map<nat, Blob>, ambiguous: set<nat>, pairs: Pairs, key: nat, c: Blob)
    requires Collected(contained, ambiguous, pairs)
    ensures key !in contained ==> Collected(contained[key := c], ambiguous, pairs + {(key, c)})
    ensures key in contained && contained[key].address == c.address ==>
      Collected(contained, ambiguous, pairs + {(key, c)})
    ensures key in contained && contained[key].address != c.address ==>
              Collected(contained, ambiguous + {key}, pairs + {(key, c)})
  {
    var more := pairs + {(key, c)};
    assert (key, c) in more;
    assert forall k, b :: (k, b) in pairs ==> (k, b) in more;
  }

  // The same, when `seen` of one more container's keys have been added.
  ghost predicate CollectedWith(contained: map<nat, Blob>, ambiguous: set<nat>, pairs: Pairs, seen: set<nat>,
                                blob: Blob)
  {
    Collected(contained, ambiguous, pairs + Tagged(seen, blob))
  }

  lemma CollectedEnds(contained: map<nat, Blob>, ambiguous: set<nat>, pairs: Pairs, blob: Blob)
    ensures Collected(contained, ambiguous, pairs) ==> CollectedWith(contained, ambiguous, pairs, {}, blob)
  {
  }

  lemma CollectKey(contained: map<nat, Blob>, ambiguous: set<nat>, pairs: Pairs, seen: set<nat>, blob: Blob, key: nat)
    requires CollectedWith(contained, ambiguous, pairs, seen, blob)
    ensures key !in contained ==> CollectedWith(contained[key := blob], ambiguous, pairs, seen + {key}, blob)
    ensures key in contained && contained[key].address == blob.address ==>
              CollectedWith(contained, ambiguous, pairs, seen + {key}, blob)
    ensures key in contained && contained[key].address != blob.address ==>
              CollectedWith(contained, ambiguous + {key}, pairs, seen + {key}, blob)
  {
    CollectStep(contained, ambiguous, pairs + Tagged(seen, blob), key, blob);
    hide Collected;
    assert pairs + Tagged(seen, blob) + {(key, blob)} == pairs + Tagged(seen + {key}, blob);
  }

  // Adds the plain images of one container.
  method CollectContainer(contained0: map<nat, Blob>, ambiguous0: set<nat>, blob: Blob, ghost pairs: Pairs)
    returns (contained: map<nat, Blob>, ambiguous: set<nat>)
    requires Collected(contained0, ambiguous0, pairs)
    ensures CollectedWith(contained, ambiguous, pairs, KeysOf(blob.bytes), blob)
  {
    hide *;
    contained, ambiguous := contained0, ambiguous0;
    var ok, images := Describe(blob.bytes);
    var i := 0;
    AllKeysSeen(blob.bytes, images);
    CollectedEnds(contained, ambiguous, pairs, blob);
    KeysSeenNone(blob.bytes, images);
    while i < |images|
      invariant 0 <= i <= |images|
      invariant CollectedWith(contained, ambiguous, pairs, KeysSeen(blob.bytes, images, i), blob)
    {
      var key := ImageKey(blob.bytes, images[i]);
      KeysSeenStep(blob.bytes, images, i);
      if key.Some? {
        CollectKey(contained, ambiguous, pairs, KeysSeen(blob.bytes, images, i), blob, key.value);
        if key.value !in contained {
          contained := contained[key.value := blob];
        } else if contained[key.value].address != blob.address {
          ambiguous := ambiguous + {key.value};
        }
      }
      i := i + 1;
    }
  }

  ghost function Tagged(keys: set<nat>, blob: Blob): Pairs { set key | key in keys :: (key, blob) }

  ghost function KeysSeen(container: seq<byte>, images: seq<Image>, n: nat): set<nat>
    requires n <= |images|
  {
    set i | 0 <= i < n && ImageKey(container, images[i]).Some? :: ImageKey(container, images[i]).value
  }

  lemma KeysSeenStep(container: seq<byte>, images: seq<Image>, n: nat)
    requires n < |images|
    ensures var key := ImageKey(container, images[n]); var seen := KeysSeen(container, images, n);
            KeysSeen(container, images, n + 1) == if key.Some? then seen + {key.value} else seen
  {
  }

  lemma KeysSeenNone(container: seq<byte>, images: seq<Image>)
    ensures KeysSeen(container, images, 0) == {}
  {
  }

  lemma AllKeysSeen(container: seq<byte>, images: seq<Image>)
    requires images == DescribeOf(container)
    ensures KeysSeen(container, images, |images|) == KeysOf(container)
  {
  }

  // Dropping the ambiguous keys leaves exactly the keys one container holds.
  lemma ErasedIsSole(contained: map<nat, Blob>, ambiguous: set<nat>, containers: seq<Blob>, key: nat, c: Blob)
    requires Collected(contained, ambiguous, PairsOf(containers))
    requires forall a, b :: a in containers && b in containers && a.address == b.address ==> a == b
    ensures (key in contained - ambiguous && contained[key] == c) <==> SoleHolder(containers, key, c)
  {
    hide KeysOf;
    var pairs := PairsOf(containers);
    assert forall k: nat, b: Blob :: (k, b) in pairs <==> Holds(containers, k, b);
    if SoleHolder(containers, key, c) {
      assert (key, c) in pairs;
      assert (key, contained[key]) in pairs;
    }
    if key in contained - ambiguous && contained[key] == c {
      assert (key, c) in pairs;
      forall other | Holds(containers, key, other) ensures other == c {
        assert (key, other) in pairs;
      }
    }
  }

  // ---- The first scan ----------------------------------------------------------------

  // How many bytes the visit at `at` takes.
  function ConsumedAt(span: Span, at: nat): (n: nat)
    requires at <= |span.data|
    ensures at + n <= |span.data|
  {
    if MagicAt(span, FATBIN_BYTES, at) then TakeContainer(span.data[at..]) else 0
  }

  function BlobAt(span: Span, at: nat, n: nat): Blob
    requires at + n <= |span.data|
  {
    Blob(span.base + at, span.data[at..at + n])
  }

  ghost predicate ScannedTo(span: Span, containers: seq<Blob>, at: nat)
  {
    containers + ContainersFrom(span, at) == ContainersFrom(span, 0)
  }

  lemma ScanStart(span: Span)
    ensures ScannedTo(span, [], 0)
  {
  }

  lemma ScanStep(span: Span, containers: seq<Blob>, at: nat)
    requires ScannedTo(span, containers, at)
    ensures at >= |span.data| ==> containers == ContainersFrom(span, 0)
    ensures at < |span.data| && ConsumedAt(span, at) > 0 ==>
              ScannedTo(span, containers + [BlobAt(span, at, ConsumedAt(span, at))], at + ConsumedAt(span, at))
    ensures at < |span.data| && ConsumedAt(span, at) == 0 ==> ScannedTo(span, containers, at + 1)
  {
    hide TakeContainer, MagicAt;
    if at >= |span.data| {
      assert containers + [] == containers;
    } else if ConsumedAt(span, at) > 0 {
      var n := ConsumedAt(span, at);
      ConcatAssoc(containers, [BlobAt(span, at, n)], ContainersFrom(span, at + n));
    }
  }

  method ScanContainers(span: Span) returns (containers: seq<Blob>)
    ensures containers == ContainersFrom(span, 0)
  {
    hide *;
    containers := [];
    var at := 0;
    ScanStart(span);
    while at < |span.data|
      invariant 0 <= at <= |span.data|
      invariant ScannedTo(span, containers, at)
    {
      ScanStep(span, containers, at);
      var consumed := ConsumedAt(span, at);
      if consumed > 0 {
        containers := containers + [BlobAt(span, at, consumed)];
        at := at + consumed;
      } else {
        at := at + 1;
      }
    }
    ScanStep(span, containers, at);
  }

  ghost predicate SpansTo(spans: seq<Span>, containers: seq<Blob>, i: nat)
  {
    i <= |spans| && containers + ContainersOf(spans[i..]) == ContainersOf(spans)
  }

  lemma SpansStep(spans: seq<Span>, containers: seq<Blob>, i: nat)
    ensures SpansTo(spans, [], 0)
    ensures i == |spans| && SpansTo(spans, containers, i) ==> containers == ContainersOf(spans)
    ensures i < |spans| && SpansTo(spans, containers, i) ==>
      SpansTo(spans, containers + ContainersFrom(spans[i], 0), i + 1)
  {
    hide ContainersFrom;
    assert spans[0..] == spans && [] + ContainersOf(spans) == ContainersOf(spans);
    assert containers + [] == containers;
    if i < |spans| {
      assert spans[i..][1..] == spans[i + 1..];
      ConcatAssoc(containers, ContainersFrom(spans[i], 0), ContainersOf(spans[i + 1..]));
    }
  }

  method ScanAllContainers(spans: seq<Span>) returns (containers: seq<Blob>)
    ensures containers == ContainersOf(spans)
  {
    hide *;
    containers := [];
    var i := 0;
    SpansStep(spans, [], 0);
    while i < |spans|
      invariant 0 <= i <= |spans| && SpansTo(spans, containers, i)
    {
      var more := ScanContainers(spans[i]);
      SpansStep(spans, containers, i);
      containers := containers + more;
      i := i + 1;
    }
    SpansStep(spans, containers, i);
  }

  method CollectAll(containers: seq<Blob>) returns (contained: map<nat, Blob>, ambiguous: set<nat>)
    ensures Collected(contained, ambiguous, PairsOf(containers))
  {
    hide *;
    contained, ambiguous := map[], {};
    var i := 0;
    NothingCollected(containers);
    while i < |containers|
      invariant 0 <= i <= |containers|
      invariant Collected(contained, ambiguous, PairsOf(containers[..i]))
    {
      ghost var pairs := PairsOf(containers[..i]);
      contained, ambiguous := CollectContainer(contained, ambiguous, containers[i], pairs);
      PairsStep(containers, i);
      CollectedIs(contained, ambiguous, pairs, KeysOf(containers[i].bytes), containers[i]);
      i := i + 1;
    }
  }

  lemma CollectedIs(contained: map<nat, Blob>, ambiguous: set<nat>, pairs: Pairs, keys: set<nat>, blob: Blob)
    requires CollectedWith(contained, ambiguous, pairs, keys, blob)
    ensures Collected(contained, ambiguous, pairs + Tagged(keys, blob))
  {
  }

  lemma NothingCollected(containers: seq<Blob>)
    ensures Collected(map[], {}, PairsOf(containers[..0]))
    ensures containers[..|containers|] == containers
  {
  }

  lemma PairsStep(containers: seq<Blob>, i: nat)
    requires i < |containers|
    ensures PairsOf(containers[..i + 1]) == PairsOf(containers[..i]) + Tagged(KeysOf(containers[i].bytes),
      containers[i])
  {
    hide KeysOf;
    assert containers[..i + 1] == containers[..i] + [containers[i]];
  }

  // ---- The second scan ---------------------------------------------------------------

  ghost predicate Variants(variants: map<nat, map<nat, Blob>>, found: seq<Found>)
  {
    forall key, arch :: Lookup(variants, key, arch) == LastMatch(found, key, arch)
  }

  function AddVariant(variants: map<nat, map<nat, Blob>>, f: Found): map<nat, map<nat, Blob>>
  {
    var key := VariantKey(f.identity.name, f.identity.code);
    variants[key := (if key in variants then variants[key] else map[])[f.identity.arch := f.blob]]
  }

  lemma VariantsStep(variants: map<nat, map<nat, Blob>>, found: seq<Found>, f: Found)
    requires Variants(variants, found)
    ensures Variants(AddVariant(variants, f), found + [f])
  {
    hide VariantKey;
    assert (found + [f])[..|found|] == found;
    forall key, arch ensures Lookup(AddVariant(variants, f), key, arch) == LastMatch(found + [f], key, arch) {
      assert Lookup(variants, key, arch) == LastMatch(found, key, arch);
    }
  }

  // The cubin the visit at `at` takes, if any.
  function CubinAt(span: Span, containers: seq<Blob>, at: nat): Option<Identity>
    requires at <= |span.data|
  {
    if MagicAt(span, ELF_MAGIC, at) && !InsideAny(containers, span.base + at) then IdentifyOf(span.data[at..]) else None
  }

  lemma CubinFits(span: Span, containers: seq<Blob>, at: nat)
    requires at <= |span.data| && CubinAt(span, containers, at).Some?
    ensures 0 < CubinAt(span, containers, at).value.size && at + CubinAt(span, containers, at).value.size <= |span.data|
  {
    IdentityOfPart(span.data[at..]);
    hide IdentifyOf, MagicAt, InsideAny, CubinSize, CubinArch;
  }

  ghost predicate CubinsTo(span: Span, containers: seq<Blob>, found: seq<Found>, at: nat)
  {
    found + CubinsFrom(span, containers, at) == CubinsFrom(span, containers, 0)
  }

  lemma CubinsStart(span: Span, containers: seq<Blob>, before: seq<Found>)
    ensures CubinsTo(span, containers, [], 0) && before + [] == before
  {
  }

  lemma CubinsEnd(span: Span, containers: seq<Blob>, found: seq<Found>, at: nat)
    requires at >= |span.data| && CubinsTo(span, containers, found, at)
    ensures found == CubinsFrom(span, containers, 0)
  {
  }

  lemma CubinsStep(span: Span, containers: seq<Blob>, found: seq<Found>, at: nat, f: Found)
    requires at < |span.data| && CubinsTo(span, containers, found, at)
    requires CubinAt(span, containers, at) == Some(f.identity)
    requires at + f.identity.size <= |span.data| && f.blob == BlobAt(span, at, f.identity.size)
    ensures CubinsTo(span, containers, found + [f], at + f.identity.size)
  {
    hide IdentifyOf, MagicAt, InsideAny;
    ConcatAssoc(found, [f], CubinsFrom(span, containers, at + f.identity.size));
  }

  lemma CubinsSkip(span: Span, containers: seq<Blob>, found: seq<Found>, at: nat)
    requires at < |span.data| && CubinsTo(span, containers, found, at) && CubinAt(span, containers, at) == None
    ensures CubinsTo(span, containers, found, at + 1)
  {
  }

  // Standalone cubins of one section: later ones replace earlier ones of the same key.
  method ScanCubins(span: Span, containers: seq<Blob>, variants0: map<nat, map<nat, Blob>>, ghost before: seq<Found>)
    returns (variants: map<nat, map<nat, Blob>>)
    requires Variants(variants0, before)
    ensures Variants(variants, before + CubinsFrom(span, containers, 0))
  {
    hide *;
    variants := variants0;
    var at := 0;
    ghost var found: seq<Found> := [];
    CubinsStart(span, containers, before);
    while at < |span.data|
      invariant 0 <= at <= |span.data|
      invariant CubinsTo(span, containers, found, at)
      invariant Variants(variants, before + found)
    {
      var identity := CubinAt(span, containers, at);
      if identity.Some? {
        CubinFits(span, containers, at);
        var size := identity.value.size;
        var f := Found(BlobAt(span, at, size), identity.value);
        CubinsStep(span, containers, found, at, f);
        VariantsStep(variants, before + found, f);
        ConcatAssoc(before, found, [f]);
        variants := AddVariant(variants, f);
        found := found + [f];
        at := at + size;
      } else {
        CubinsSkip(span, containers, found, at);
        at := at + 1;
      }
    }
    CubinsEnd(span, containers, found, at);
  }

  ghost predicate CubinSpansTo(spans: seq<Span>, containers: seq<Blob>, found: seq<Found>, i: nat)
  {
    i <= |spans| && found + CubinsOf(spans[i..], containers) == CubinsOf(spans, containers)
  }

  lemma CubinSpansStep(spans: seq<Span>, containers: seq<Blob>, found: seq<Found>, i: nat)
    ensures CubinSpansTo(spans, containers, [], 0)
    ensures i == |spans| && CubinSpansTo(spans, containers, found, i) ==> found == CubinsOf(spans, containers)
    ensures i < |spans| && CubinSpansTo(spans, containers, found, i) ==>
              CubinSpansTo(spans, containers, found + CubinsFrom(spans[i], containers, 0), i + 1)
  {
    hide CubinsFrom;
    assert spans[0..] == spans && [] + CubinsOf(spans, containers) == CubinsOf(spans, containers);
    assert found + [] == found;
    if i < |spans| {
      assert spans[i..][1..] == spans[i + 1..];
      ConcatAssoc(found, CubinsFrom(spans[i], containers, 0), CubinsOf(spans[i + 1..], containers));
    }
  }

  lemma NoVariants()
    ensures Variants(map[], [])
  {
  }

  method ScanAllCubins(spans: seq<Span>, containers: seq<Blob>) returns (variants: map<nat, map<nat, Blob>>)
    ensures Variants(variants, CubinsOf(spans, containers))
  {
    hide *;
    variants := map[];
    var i := 0;
    ghost var found: seq<Found> := [];
    CubinSpansStep(spans, containers, [], 0);
    NoVariants();
    while i < |spans|
      invariant 0 <= i <= |spans| && CubinSpansTo(spans, containers, found, i)
      invariant Variants(variants, found)
    {
      variants := ScanCubins(spans[i], containers, variants, found);
      CubinSpansStep(spans, containers, found, i);
      found := found + CubinsFrom(spans[i], containers, 0);
      i := i + 1;
    }
    CubinSpansStep(spans, containers, found, i);
  }

  method BuildIndex(spans: seq<Span>) returns (index: Index)
    requires Apart(spans)
    ensures IsIndexOf(index, spans)
  {
    var containers := ScanAllContainers(spans);
    var contained, ambiguous := CollectAll(containers);
    var variants := ScanAllCubins(spans, containers);
    index := Index(contained - ambiguous, variants);
    hide ContainersOf, KeysOf, Collected, CubinsOf, SoleHolder;
    forall a, b | a in containers && b in containers && a.address == b.address ensures a == b {
      OneContainerPerAddress(spans, a, b);
    }
    forall key, c ensures (key in index.containers && index.containers[key] == c) <==> SoleHolder(containers, key, c) {
      ErasedIsSole(contained, ambiguous, containers, key, c);
    }
  }

  // ---- The indexes of all runtimes -------------------------------------------------------

  // What one index answers.
  function NativeIn(index: Index, cubin: seq<byte>, arch: nat): Option<seq<byte>>
  {
    var identity := IdentifyOf(cubin);
    if identity == None then None
    else
      var key := VariantKey(identity.value.name, identity.value.code);
      match Lookup(index.variants, key, arch)
      case None => None
      case Some(blob) => Some(blob.bytes)
  }

  function ContainerIn(index: Index, cubin: seq<byte>): Option<seq<byte>>
  {
    var key := Fingerprint(cubin);
    if key == None || key.value !in index.containers then None else Some(index.containers[key.value].bytes)
  }

  type Indexes = map<Module, Index>

  function FindNative(indexes: Indexes, provider: Option<Module>, cubin: seq<byte>, arch: nat): Option<seq<byte>>
  {
    if provider == None || provider.value !in indexes then None else NativeIn(indexes[provider.value], cubin, arch)
  }

  function FindContainer(indexes: Indexes, provider: Option<Module>, cubin: seq<byte>): Option<seq<byte>>
  {
    if provider == None || provider.value !in indexes then None else ContainerIn(indexes[provider.value], cubin)
  }

  // The one indexed runtime, when exactly one is.
  function SoleIndexed(indexes: Indexes): (sole: Option<Module>)
    ensures sole.Some? <==> |indexes| == 1
    ensures sole.Some? ==> indexes.Keys == {sole.value}
  {
    if |indexes| == 1 then Some(Only(indexes.Keys)) else None
  }

  function Only(modules: set<Module>): (m: Module)
    requires |modules| == 1
    ensures modules == {m}
  {
    OneElement(modules);
    var m :| m in modules; m
  }

  lemma OneElement(modules: set<Module>)
    requires |modules| == 1
    ensures exists m :: m in modules
    ensures forall a, b :: a in modules && b in modules ==> a == b
    ensures forall m :: m in modules ==> modules == {m}
  {
    var m :| m in modules;
    assert |modules - {m}| == 0;
    assert modules == {m};
  }

  // Indexes are added and never changed.
  ghost predicate Extends(before: Indexes, after: Indexes)
  {
    forall p: Module :: p in before ==> p in after && after[p] == before[p]
  }

  // What the worker indexes of its own accord ahead of each moment of a call.
  type Meanwhile = nat -> seq<Module>

  class ProviderIndexes {
    // The readable sections of each pinned runtime.
    const memory: Module -> seq<Span>
    var indexes: Indexes

    ghost predicate Valid()
      reads this
    {
      && (forall p :: Apart(memory(p)))
      && (forall p :: p in indexes ==> IsIndexOf(indexes[p], memory(p)))
    }

    constructor (memory: Module -> seq<Span>)
      requires forall p :: Apart(memory(p))
      ensures Valid() && this.memory == memory && indexes == map[]
    {
      this.memory := memory;
      indexes := map[];
    }

    method ProviderIndexed(provider: Module) returns (indexed: bool)
      ensures indexed <==> provider in indexes
    {
      indexed := provider in indexes;
    }

    method SoleIndexedProvider() returns (provider: Option<Module>)
      ensures provider.Some? <==> exists p: Module :: indexes.Keys == {p}
      ensures provider.Some? ==> indexes.Keys == {provider.value}
    {
      provider := SoleIndexed(indexes);
      if exists p: Module :: indexes.Keys == {p} {
        var p: Module :| indexes.Keys == {p};
        assert |indexes.Keys| == 1;
      }
    }

    // Indexes a runtime once; every other runtime keeps its own index.
    method BuildProviderIndex(provider: Module) returns (built: bool)
      requires Valid()
      modifies this`indexes
      ensures Valid() && built == (provider !in old(indexes))
      ensures indexes.Keys == old(indexes.Keys) + {provider} && Extends(old(indexes), indexes)
    {
      if provider in indexes {
        return false;
      }
      var index := BuildIndex(memory(provider));
      indexes := indexes[provider := index];
      built := true;
    }

    method WorkerIndexes(runtimes: seq<Module>)
      requires Valid()
      modifies this`indexes
      ensures Valid() && Extends(old(indexes), indexes)
    {
      for k := 0 to |runtimes|
        invariant Valid() && Extends(old(indexes), indexes)
      {
        var built := BuildProviderIndex(runtimes[k]);
      }
    }

    method FindNativeCubin(provider: Option<Module>, cubin: seq<byte>, arch: nat) returns (image: Option<seq<byte>>)
      ensures image == FindNative(indexes, provider, cubin, arch)
    {
      if provider == None || cubin == [] {
        EmptyCubin();
        return None;
      }
      var identity := Identify(cubin);
      if identity == None || provider.value !in indexes {
        return None;
      }
      var variants: map<nat, map<nat, Blob>> := indexes[provider.value].variants;
      var key := VariantKey(identity.value.name, identity.value.code);
      if key !in variants || arch !in variants[key] {
        return None;
      }
      image := Some(variants[key][arch].bytes);
    }

    method FindContainerForCubin(provider: Option<Module>, cubin: seq<byte>) returns (container: Option<seq<byte>>)
      ensures container == FindContainer(indexes, provider, cubin)
    {
      EmptyCubin();
      if provider == None || cubin == [] {
        return None;
      }
      var key := Fingerprint(cubin);
      if key == None || provider.value !in indexes {
        return None;
      }
      var containers: map<nat, Blob> := indexes[provider.value].containers;
      if key.value !in containers {
        return None;
      }
      container := Some(containers[key.value].bytes);
    }
  }

  lemma EmptyCubin()
    ensures IdentifyOf([]) == None && Fingerprint([]) == None
  {
  }

  // ---- What the answers mean ---------------------------------------------------------------

  // A container the scan can take starts here.
  predicate StartsContainer(span: Span, at: nat)
  {
    at <= |span.data| && MagicAt(span, FATBIN_BYTES, at) && TakeContainer(span.data[at..]) > 0
  }

  predicate WholeContainer(bytes: seq<byte>)
  {
    ContainerSize(bytes) == |bytes| && DescribeOf(bytes) != []
  }

  lemma TakenIsWhole(data: seq<byte>)
    requires TakeContainer(data) > 0
    ensures WholeContainer(data[..TakeContainer(data)])
  {
    var part := data[..ContainerSize(data)];
    assert data[..FILE_HEADER] == part[..FILE_HEADER];
    SameHeader(data, part);
    hide DescribeOf, ContainerHeader;
  }

  lemma CoversLater(first: seq<Blob>, rest: seq<Blob>, address: nat)
    ensures InsideAny(first, address) || InsideAny(rest, address) ==> InsideAny(first + rest, address)
  {
    var all := first + rest;
    assert forall i :: 0 <= i < |first| ==> all[i] == first[i];
    assert forall i :: 0 <= i < |rest| ==> all[|first| + i] == rest[i];
  }

  lemma {:induction false} ContainersComplete(span: Span, from: nat)
    ensures forall blob :: blob in ContainersFrom(span, from) ==> WholeContainer(blob.bytes)
    ensures forall at: nat :: from <= at && StartsContainer(span, at) ==>
      InsideAny(ContainersFrom(span, from), span.base + at)
    decreases |span.data| - from
  {
    hide TakeContainer, MagicAt, InsideAny, WholeContainer;
    if from < |span.data| {
      var n := if MagicAt(span, FATBIN_BYTES, from) then TakeContainer(span.data[from..]) else 0;
      if n > 0 {
        ContainersComplete(span, from + n);
        TakenIsWhole(span.data[from..]);
        assert span.data[from..][..n] == span.data[from..from + n];
        var blob := Blob(span.base + from, span.data[from..from + n]);
        forall at: nat | from <= at && StartsContainer(span, at)
          ensures InsideAny(ContainersFrom(span, from), span.base + at)
        {
          CoversIts(blob, span.base + at);
          CoversLater([blob], ContainersFrom(span, from + n), span.base + at);
        }
      } else {
        ContainersComplete(span, from + 1);
      }
    } else {
      NothingStartsBehind(span);
    }
  }

  lemma CoversIts(blob: Blob, address: nat)
    ensures blob.address <= address < blob.address + |blob.bytes| ==> InsideAny([blob], address)
  {
    assert [blob][0] == blob;
  }

  lemma NothingStartsBehind(span: Span)
    ensures forall at: nat :: at >= |span.data| ==> !StartsContainer(span, at)
    ensures forall at: nat, magic: seq<byte> :: at >= |span.data| && MagicAt(span, magic, at) ==> magic == []
  {
  }

  // The scan records whole containers only, and wherever one could be taken there is one
  // recorded: that one, or one it lies in.
  lemma {:induction false} EveryContainerRecorded(spans: seq<Span>)
    ensures forall blob :: blob in ContainersOf(spans) ==> WholeContainer(blob.bytes)
    ensures forall k, at: nat :: 0 <= k < |spans| && StartsContainer(spans[k], at) ==>
              InsideAny(ContainersOf(spans), spans[k].base + at)
  {
    hide StartsContainer, InsideAny, WholeContainer;
    if spans != [] {
      var first, rest := ContainersFrom(spans[0], 0), ContainersOf(spans[1..]);
      ContainersComplete(spans[0], 0);
      EveryContainerRecorded(spans[1..]);
      forall k, at: nat | 0 <= k < |spans| && StartsContainer(spans[k], at)
        ensures InsideAny(ContainersOf(spans), spans[k].base + at)
      {
        CoversLater(first, rest, spans[k].base + at);
        if k > 0 {
          assert spans[1..][k - 1] == spans[k];
        }
      }
    }
  }

  // A cubin the scan can identify starts here, outside every container.
  predicate StartsCubin(span: Span, containers: seq<Blob>, at: nat)
  {
    at <= |span.data| && MagicAt(span, ELF_MAGIC, at) && !InsideAny(containers, span.base + at) &&
    IdentifyOf(span.data[at..]).Some?
  }

  predicate InsideFound(found: seq<Found>, address: nat)
  {
    exists i :: 0 <= i < |found| && found[i].blob.address <= address < found[i].blob.address + |found[i].blob.bytes|
  }

  lemma FoundLater(first: seq<Found>, rest: seq<Found>, address: nat)
    ensures InsideFound(first, address) || InsideFound(rest, address) ==> InsideFound(first + rest, address)
  {
    var all := first + rest;
    assert forall i :: 0 <= i < |first| ==> all[i] == first[i];
    assert forall i :: 0 <= i < |rest| ==> all[|first| + i] == rest[i];
  }

  lemma FoundHere(f: Found, address: nat)
    ensures f.blob.address <= address < f.blob.address + |f.blob.bytes| ==> InsideFound([f], address)
  {
    assert [f][0] == f;
  }

  lemma {:induction false} CubinsComplete(span: Span, containers: seq<Blob>, from: nat)
    ensures forall at: nat :: from <= at && StartsCubin(span, containers, at) ==>
              InsideFound(CubinsFrom(span, containers, from), span.base + at)
    decreases |span.data| - from
  {
    hide IdentifyOf, MagicAt, InsideAny, InsideFound;
    if from < |span.data| {
      var data := span.data[from..];
      var identity := if MagicAt(span, ELF_MAGIC, from) && !InsideAny(containers, span.base + from)
        then IdentifyOf(data) else None;
      if identity.Some? {
        IdentityOfPart(data);
        var n := identity.value.size;
        CubinsComplete(span, containers, from + n);
        var f := Found(Blob(span.base + from, span.data[from..from + n]), identity.value);
        forall at: nat | from <= at && StartsCubin(span, containers, at)
          ensures InsideFound(CubinsFrom(span, containers, from), span.base + at)
        {
          FoundHere(f, span.base + at);
          FoundLater([f], CubinsFrom(span, containers, from + n), span.base + at);
        }
      } else {
        CubinsComplete(span, containers, from + 1);
      }
    } else {
      NothingStartsBehind(span);
    }
  }

  // The scan records every cubin outside the containers that it can identify, unless it lies in
  // one it has recorded.
  lemma {:induction false} EveryCubinRecorded(spans: seq<Span>, containers: seq<Blob>)
    ensures forall k, at: nat :: 0 <= k < |spans| && StartsCubin(spans[k], containers, at) ==>
              InsideFound(CubinsOf(spans, containers), spans[k].base + at)
  {
    hide StartsCubin, InsideFound;
    if spans != [] {
      var first, rest := CubinsFrom(spans[0], containers, 0), CubinsOf(spans[1..], containers);
      CubinsComplete(spans[0], containers, 0);
      EveryCubinRecorded(spans[1..], containers);
      forall k, at: nat | 0 <= k < |spans| && StartsCubin(spans[k], containers, at)
        ensures InsideFound(CubinsOf(spans, containers), spans[k].base + at)
      {
        FoundLater(first, rest, spans[k].base + at);
        if k > 0 {
          assert spans[1..][k - 1] == spans[k];
        }
      }
    }
  }

  // The container found is the only one recorded with a plain image of the cubin's
  // fingerprint, and it is found whenever there is exactly one, for any length
  // passed at or above the cubin's own.
  lemma ContainerSearch(spans: seq<Span>, index: Index, cubin: seq<byte>, n: nat, c: Blob)
    requires IsIndexOf(index, spans) && CubinSize(cubin) <= n <= |cubin|
    ensures (Fingerprint(cubin).Some? && SoleHolder(ContainersOf(spans), Fingerprint(cubin).value, c)) <==>
            (Fingerprint(cubin[..n]).Some? && Fingerprint(cubin[..n]).value in index.containers
             && index.containers[Fingerprint(cubin[..n]).value] == c)
  {
    FingerprintOfAnyLength(cubin, n);
    hide ContainersOf, CubinsOf, SoleHolder, Fingerprint;
  }

  // The cubin found is the last standalone one in scan order of the same kernel and
  // of exactly this architecture.
  lemma NativeSearch(spans: seq<Span>, index: Index, cubin: seq<byte>, arch: nat)
    requires IsIndexOf(index, spans) && IdentifyOf(cubin).Some?
    ensures var identity := IdentifyOf(cubin).value;
            NativeIn(index, cubin, arch) ==
            match LastMatch(CubinsOf(spans, ContainersOf(spans)), VariantKey(identity.name, identity.code), arch)
            case None => None
            case Some(blob) => Some(blob.bytes)
  {
    hide ContainersOf, CubinsOf, SoleHolder, IdentifyOf, VariantKey;
    var identity := IdentifyOf(cubin).value;
    var key := VariantKey(identity.name, identity.code);
    assert Lookup(index.variants, key, arch) == LastMatch(CubinsOf(spans, ContainersOf(spans)), key, arch);
  }

  // A standalone cubin as the scan records it.
  ghost predicate Standalone(f: Found, containers: seq<Blob>)
  {
    && 0 < |f.blob.bytes| && CubinSize(f.blob.bytes) == |f.blob.bytes| == f.identity.size
    && IdentifyOf(f.blob.bytes) == Some(f.identity) && CubinArch(f.blob.bytes) == f.identity.arch
    && !InsideAny(containers, f.blob.address)
  }

  lemma {:induction false} CubinsStandalone(span: Span, containers: seq<Blob>, at: nat)
    ensures forall f :: f in CubinsFrom(span, containers, at) ==> Standalone(f, containers)
    decreases |span.data| - at
  {
    hide IdentifyOf, CubinArch, CubinSize, InsideAny, MagicAt;
    if at < |span.data| {
      var data := span.data[at..];
      var identity := if MagicAt(span, ELF_MAGIC, at) && !InsideAny(containers, span.base + at) then IdentifyOf(data)
        else None;
      if identity.Some? {
        IdentityOfPart(data);
        var n := identity.value.size;
        assert data[..n] == span.data[at..at + n];
        CubinsStandalone(span, containers, at + n);
      } else {
        CubinsStandalone(span, containers, at + 1);
      }
    }
  }

  lemma {:induction false} AllStandalone(spans: seq<Span>, containers: seq<Blob>)
    ensures forall f :: f in CubinsOf(spans, containers) ==> Standalone(f, containers)
  {
    if spans != [] {
      CubinsStandalone(spans[0], containers, 0);
      AllStandalone(spans[1..], containers);
      hide Standalone, CubinsFrom;
    }
  }

  lemma {:induction false} LastMatchFound(found: seq<Found>, key: nat, arch: nat)
    requires LastMatch(found, key, arch).Some?
    ensures exists f :: f in found && f.blob == LastMatch(found, key, arch).value && Matches(f, key, arch)
  {
    var last := found[|found| - 1];
    if !Matches(last, key, arch) {
      LastMatchFound(found[..|found| - 1], key, arch);
    }
  }

  // A native image is a whole cubin for exactly the architecture asked for, of the same
  // kernel, recorded at an address outside every container.
  lemma NativeRuns(spans: seq<Span>, index: Index, cubin: seq<byte>, arch: nat)
    requires IsIndexOf(index, spans) && NativeIn(index, cubin, arch).Some?
    ensures var image := NativeIn(index, cubin, arch).value;
            && image != [] && CubinArch(image) == arch && CubinSize(image) == |image|
            && IdentifyOf(image).Some? && IdentifyOf(cubin).Some?
            && VariantKey(IdentifyOf(image).value.name, IdentifyOf(image).value.code) ==
               VariantKey(IdentifyOf(cubin).value.name, IdentifyOf(cubin).value.code)
    ensures exists f ::
      f in CubinsOf(spans, ContainersOf(spans)) && f.blob.bytes == NativeIn(index, cubin, arch).value &&
      !InsideAny(ContainersOf(spans), f.blob.address)
  {
    NativeSearch(spans, index, cubin, arch);
    var identity := IdentifyOf(cubin).value;
    var key := VariantKey(identity.name, identity.code);
    var containers := ContainersOf(spans);
    LastMatchFound(CubinsOf(spans, containers), key, arch);
    AllStandalone(spans, containers);
    hide IdentifyOf, ContainersOf, CubinsOf, CubinArch, CubinSize, VariantKey, InsideAny;
  }

  lemma {:induction false} CubinsShort(span: Span, containers: seq<Blob>, at: nat)
    ensures forall f :: f in CubinsFrom(span, containers, at) ==> |f.blob.bytes| <= |span.data|
    decreases |span.data| - at
  {
    hide IdentifyOf, InsideAny, MagicAt;
    if at < |span.data| {
      var data := span.data[at..];
      var identity := if MagicAt(span, ELF_MAGIC, at) && !InsideAny(containers, span.base + at) then IdentifyOf(data)
        else None;
      if identity.Some? {
        IdentityOfPart(data);
        CubinsShort(span, containers, at + identity.value.size);
      } else {
        CubinsShort(span, containers, at + 1);
      }
    }
  }

  lemma {:induction false} AllShort(spans: seq<Span>, containers: seq<Blob>, limit: nat)
    requires forall k :: 0 <= k < |spans| ==> |spans[k].data| < limit
    ensures forall f :: f in CubinsOf(spans, containers) ==> |f.blob.bytes| < limit
  {
    if spans != [] {
      CubinsShort(spans[0], containers, 0);
      AllShort(spans[1..], containers, limit);
      hide CubinsFrom;
    }
  }

  // A native image is part of a section.
  lemma NativeShort(spans: seq<Span>, index: Index, cubin: seq<byte>, arch: nat, limit: nat)
    requires IsIndexOf(index, spans) && NativeIn(index, cubin, arch).Some?
    requires forall k :: 0 <= k < |spans| ==> |spans[k].data| < limit
    ensures |NativeIn(index, cubin, arch).value| < limit
  {
    NativeSearch(spans, index, cubin, arch);
    var identity := IdentifyOf(cubin).value;
    var containers := ContainersOf(spans);
    LastMatchFound(CubinsOf(spans, containers), VariantKey(identity.name, identity.code), arch);
    AllShort(spans, containers, limit);
    hide IdentifyOf, ContainersOf, CubinsOf, VariantKey, InsideAny;
  }

  // A call that names its runtime is answered the same however many other runtimes
  // are indexed later; one that does not is answered only while exactly one is.
  lemma AnswersIsolated(before: Indexes, after: Indexes, provider: Module, cubin: seq<byte>, arch: nat)
    requires Extends(before, after) && (provider in after ==> provider in before)
    ensures FindNative(after, Some(provider), cubin, arch) == FindNative(before, Some(provider), cubin, arch)
    ensures FindContainer(after, Some(provider), cubin) == FindContainer(before, Some(provider), cubin)
  {
  }

  lemma UnattributedNeedsOne(before: Indexes, after: Indexes, provider: Module)
    requires SoleIndexed(before) == Some(provider) && Extends(before, after)
    ensures SoleIndexed(after) == (if after.Keys == {provider} then Some(provider) else None)
  {
  }
}
