/** The index of a mapped runtime's images (src/kernels/provider_index.cpp).

    A pinned runtime's readable sections do not change while it is indexed and
    queried, so an image found in them is kept here with its bytes. */
module ProviderIndex {
  import opened Bytes
  import opened Bits
  import opened Images
  import opened Fatbin
  import opened Cubin

  type Module = nat

  // A readable section: where it is mapped, and what it holds.
  datatype Span = Span(base: nat, data: seq<byte>)
  datatype Blob = Blob(address: nat, bytes: seq<byte>)

  // The fatbin magic as it appears in memory.
  const FATBIN_BYTES: seq<byte> := [0x50, 0xED, 0x55, 0xBA]

  // ---- Hashing -------------------------------------------------------------------

  const FNV_BASIS := 1469598103934665603
  const FNV_PRIME := 1099511628211
  const TWO_64 := 0x1_0000_0000_0000_0000

  function Xor(h: nat, b: byte): nat
  {
    hide XorByte;
    h - h % 0x100 + XorByte(h % 0x100, b)
  }

  function HashStep(h: nat, b: byte): nat { Xor(h, b) * FNV_PRIME % TWO_64 }

  function HashFrom(bytes: seq<byte>, h: nat): nat
  {
    if bytes == [] then h else HashFrom(bytes[1..], HashStep(h, bytes[0]))
  }

  method Hash(bytes: seq<byte>, basis: nat) returns (hash: nat)
    ensures hash == HashFrom(bytes, basis)
  {
    hash := basis;
    var i := 0;
    assert bytes[0..] == bytes;
    hide HashStep;
    while i < |bytes|
      invariant 0 <= i <= |bytes|
      invariant HashFrom(bytes[i..], hash) == HashFrom(bytes, basis)
    {
      assert bytes[i..][1..] == bytes[i + 1..];
      hash := HashStep(hash, bytes[i]);
      i := i + 1;
    }
  }

  // ---- What a hash tells apart ----------------------------------------------------------

  // The inverse of the prime: a product can be divided by it, modulo 2^64.
  const FNV_INVERSE := 0xCE965057AFF6957B

  lemma Remainder(v: int, q: int, r: nat)
    requires r < TWO_64 && v == q * TWO_64 + r
    ensures v % TWO_64 == r && v / TWO_64 == q
  {
  }

  lemma Divides(x: nat, a: nat, r: nat)
    requires x < TWO_64 && x * FNV_PRIME == a * TWO_64 + r
    ensures r * FNV_INVERSE % TWO_64 == x
  {
    Remainder(r * FNV_INVERSE, 887285111055 * x - a * FNV_INVERSE, x);
  }

  lemma ProductsApart(x: nat, y: nat)
    requires x < TWO_64 && y < TWO_64 && x * FNV_PRIME % TWO_64 == y * FNV_PRIME % TWO_64
    ensures x == y
  {
    var r := x * FNV_PRIME % TWO_64;
    Divides(x, x * FNV_PRIME / TWO_64, r);
    Divides(y, y * FNV_PRIME / TWO_64, r);
  }

  lemma XorApart(h: nat, g: nat, b: byte, c: byte)
    ensures Xor(h, b) == Xor(h, c) ==> b == c
    ensures Xor(h, b) == Xor(g, b) ==> h == g
    ensures h < TWO_64 ==> Xor(h, b) < TWO_64
  {
    hide XorByte;
    XorByteApart(h % 0x100, g % 0x100, b, c);
  }

  // A step loses nothing: from one hash different bytes lead to different hashes, and one byte
  // from different hashes.
  lemma StepApart(h: nat, g: nat, b: byte, c: byte)
    requires h < TWO_64 && g < TWO_64
    ensures HashStep(h, b) < TWO_64
    ensures b != c ==> HashStep(h, b) != HashStep(h, c)
    ensures h != g ==> HashStep(h, b) != HashStep(g, b)
  {
    XorApart(h, g, b, c);
    XorApart(h, g, c, b);
    XorApart(g, h, b, c);
    hide Xor;
    if HashStep(h, b) == HashStep(h, c) {
      ProductsApart(Xor(h, b), Xor(h, c));
    }
    if HashStep(h, b) == HashStep(g, b) {
      ProductsApart(Xor(h, b), Xor(g, b));
    }
  }

  lemma {:induction false} HashesStayApart(bytes: seq<byte>, h: nat, g: nat)
    requires h < TWO_64 && g < TWO_64 && h != g
    ensures HashFrom(bytes, h) != HashFrom(bytes, g)
  {
    if bytes != [] {
      hide HashStep;
      StepApart(h, g, bytes[0], bytes[0]);
      StepApart(g, h, bytes[0], bytes[0]);
      HashesStayApart(bytes[1..], HashStep(h, bytes[0]), HashStep(g, bytes[0]));
    }
  }

  lemma {:induction false} HashFits(bytes: seq<byte>, h: nat)
    requires h < TWO_64
    ensures HashFrom(bytes, h) < TWO_64
  {
    if bytes != [] {
      hide HashStep;
      StepApart(h, h, bytes[0], bytes[0]);
      HashFits(bytes[1..], HashStep(h, bytes[0]));
    }
  }

  // Bytes that differ in one place have different hashes.
  lemma {:induction false} HashTells(bytes: seq<byte>, i: nat, c: byte, h: nat)
    requires i < |bytes| && c != bytes[i] && h < TWO_64
    ensures HashFrom(bytes[i := c], h) != HashFrom(bytes, h)
  {
    hide HashStep;
    var other := bytes[i := c];
    StepApart(h, h, bytes[0], c);
    StepApart(h, h, c, bytes[0]);
    if i == 0 {
      assert other[1..] == bytes[1..];
      HashesStayApart(bytes[1..], HashStep(h, c), HashStep(h, bytes[0]));
    } else {
      assert other[1..] == bytes[1..][i - 1 := c];
      HashTells(bytes[1..], i - 1, c, HashStep(h, bytes[0]));
    }
  }

  // A cubin is known by a hash of exactly the length its headers state.
  function Fingerprint(data: seq<byte>): Option<nat>
  {
    SizeFits(data);
    if CubinSize(data) == 0 then None else Some(HashFrom(data[..CubinSize(data)], FNV_BASIS))
  }

  // Any length at or above the true one gives the same fingerprint.
  lemma FingerprintOfAnyLength(data: seq<byte>, n: nat)
    requires CubinSize(data) <= n <= |data|
    ensures Fingerprint(data[..n]) == Fingerprint(data)
  {
    CubinSizeStep(data[..n], data);
    SizeFits(data);
    assert data[..n][..CubinSize(data)] == data[..CubinSize(data)];
    hide CubinSize, HashFrom;
  }

  // And it depends on the whole of the image: another byte anywhere behind the header is
  // another fingerprint.
  lemma FingerprintTells(data: seq<byte>, i: nat, c: byte)
    requires ELF_HEADER <= i < CubinSize(data) && c != data[i]
    ensures |data[i := c]| == |data| && Fingerprint(data).Some? && Fingerprint(data[i := c]).Some?
    ensures Fingerprint(data[i := c]) != Fingerprint(data)
  {
    var other, n := data[i := c], CubinSize(data);
    SizeFits(data);
    SameSizeBehindHeader(data, i, c);
    assert other[..n] == data[..n][i := c];
    HashTells(data[..n], i, c, FNV_BASIS);
    hide CubinSize, HashFrom;
  }

  lemma SameSizeBehindHeader(data: seq<byte>, i: nat, c: byte)
    requires ELF_HEADER <= i < |data|
    ensures CubinSize(data[i := c]) == CubinSize(data)
  {
    var other := data[i := c];
    assert other[..ELF_HEADER] == data[..ELF_HEADER];
    SizeIsStated(data);
    SizeIsStated(other);
    SameElfHeader(data[..ELF_HEADER], data);
    SameElfHeader(data[..ELF_HEADER], other);
  }

  // ---- Identity --------------------------------------------------------------------

  datatype Identity = Identity(name: seq<byte>, code: nat, arch: nat, size: nat)

  // ".text."
  const TEXT: seq<byte> := [0x2E, 0x74, 0x65, 0x78, 0x74, 0x2E]

  predicate IsAlnum(b: byte) { 0x30 <= b <= 0x39 || 0x41 <= b <= 0x5A || 0x61 <= b <= 0x7A }
  lemma AlnumIs(c: char)
    requires c <= '~'
    ensures IsAlnum(c as int) <==> '0' <= c <= '9' || 'A' <= c <= 'Z' || 'a' <= c <= 'z'
    ensures TEXT == Ascii(".text.")
  {
  }

  predicate IsIdentifier(name: seq<byte>)
  {
    name != [] && forall i :: 0 <= i < |name| ==> IsAlnum(name[i]) || name[i] == 0x5F
  }

  // The kernel the first `.text.` section names, and a hash of its code.
  function KernelOf(sections: seq<Section>): Option<(seq<byte>, nat)>
  {
    if sections == [] then None
    else if !(TEXT <= sections[0].name) then KernelOf(sections[1..])
    else
      var kernel := sections[0].name[|TEXT|..];
      if !IsIdentifier(kernel) then None else Some((kernel, HashFrom(sections[0].data, FNV_BASIS)))
  }

  function IdentifyOf(data: seq<byte>): Option<Identity>
  {
    SizeFits(data);
    var cubin := data[..CubinSize(data)];
    SizeFits(cubin);
    match KernelOf(SectionsOf(cubin))
    case None => None
    case Some((name, code)) => Some(Identity(name, code, CubinArch(cubin), CubinSize(data)))
  }

  method Identify(data: seq<byte>) returns (identity: Option<Identity>)
    ensures identity == IdentifyOf(data)
  {
    SizeFits(data);
    var size := CubinSize(data);
    var sections := CubinSections(data[..size]);
    var i := 0;
    assert sections[0..] == sections;
    hide CubinSize, SectionsOf, HashStep, HashFrom;
    while i < |sections|
      invariant 0 <= i <= |sections|
      invariant KernelOf(sections[i..]) == KernelOf(sections)
    {
      var section := sections[i];
      assert sections[i..][1..] == sections[i + 1..];
      if TEXT <= section.name {
        var kernel := section.name[|TEXT|..];
        if !IsIdentifier(kernel) {
          return None;
        }
        var code := Hash(section.data, FNV_BASIS);
        return Some(Identity(kernel, code, CubinArch(data[..size]), size));
      }
      i := i + 1;
    }
    identity := None;
  }

  // The key of a kernel variant: its name and its code.
  function VariantKey(name: seq<byte>, code: nat): nat
  {
    HashFrom(ToLe(code, 8), HashFrom(name, FNV_BASIS))
  }

  // Under one name, codes that differ in one of their bytes have different keys; and so have
  // names that differ in one character, under one code.
  lemma VariantKeyTells(name: seq<byte>, code: nat, other: nat, i: nat)
    requires i < 8 && ToLe(other, 8) == ToLe(code, 8)[i := ToLe(other, 8)[i]] && ToLe(other, 8)[i] != ToLe(code, 8)[i]
    ensures VariantKey(name, other) != VariantKey(name, code)
  {
    HashFits(name, FNV_BASIS);
    HashTells(ToLe(code, 8), i, ToLe(other, 8)[i], HashFrom(name, FNV_BASIS));
    hide HashFrom, ToLe;
  }

  lemma VariantKeyNames(name: seq<byte>, code: nat, i: nat, c: byte)
    requires i < |name| && c != name[i]
    ensures VariantKey(name[i := c], code) != VariantKey(name, code)
  {
    HashFits(name, FNV_BASIS);
    HashFits(name[i := c], FNV_BASIS);
    HashTells(name, i, c, FNV_BASIS);
    HashesStayApart(ToLe(code, 8), HashFrom(name[i := c], FNV_BASIS), HashFrom(name, FNV_BASIS));
    hide HashFrom, ToLe;
  }

  // Only the cubin itself decides what it is, not what is mapped behind it.
  lemma IdentityOfPart(data: seq<byte>)
    requires IdentifyOf(data).Some?
    ensures var size := CubinSize(data); var identity := IdentifyOf(data).value;
            && 0 < size <= |data| && identity.size == size
            && CubinSize(data[..size]) == size && IdentifyOf(data[..size]) == Some(identity)
            && CubinArch(data[..size]) == identity.arch
  {
    SizeFits(data);
    var size := CubinSize(data);
    if size == 0 {
      NoCubin(data[..0]);
    } else {
      CubinPart(data);
      assert data[..size][..size] == data[..size];
    }
  }

  lemma NoCubin(data: seq<byte>)
    requires data == []
    ensures CubinSize(data) == 0 && SectionsOf(data) == []
  {
  }

  // ---- Scanning for containers ---------------------------------------------------------

  predicate MagicAt(span: Span, magic: seq<byte>, at: nat)
  {
    at + |magic| <= |span.data| && span.data[at..at + |magic|] == magic
  }

  // How many bytes a container that starts the data takes, 0 when none does.
  function TakeContainer(data: seq<byte>): (n: nat)
    ensures n <= |data|
  {
    var total := ContainerSize(data);
    if total == 0 || total > |data| || DescribeOf(data[..total]) == [] then 0 else total
  }

  // A container starts the data exactly when its header states a length that is there and an
  // image is described.
  lemma TakesContainers(data: seq<byte>)
    ensures TakeContainer(data) > 0 <==> DescribeOf(data) != []
    ensures TakeContainer(data) > 0 ==> TakeContainer(data) == ContainerSize(data)
  {
    hide EntriesFrom;
    if ContainerHeader(data) && ContainerSize(data) <= |data| {
      DescribeIsLocal(data, data[..ContainerSize(data)]);
    }
  }

  // The containers of a span from `at` on. A match inside one already taken is skipped.
  function ContainersFrom(span: Span, at: nat): seq<Blob>
    decreases |span.data| - at
  {
    if at >= |span.data| then []
    else
      var n := if MagicAt(span, FATBIN_BYTES, at) then TakeContainer(span.data[at..]) else 0;
      if n > 0 then [Blob(span.base + at, span.data[at..at + n])] + ContainersFrom(span, at + n)
      else ContainersFrom(span, at + 1)
  }

  function ContainersOf(spans: seq<Span>): seq<Blob>
  {
    if spans == [] then [] else ContainersFrom(spans[0], 0) + ContainersOf(spans[1..])
  }

  // The fingerprint an image of a container is found by.
  function ImageKey(container: seq<byte>, image: Image): Option<nat>
  {
    if image.isPtx || image.compressed || End(image) > |container| then None
    else Fingerprint(container[image.payloadOffset..End(image)])
  }

  function KeysOf(container: seq<byte>): set<nat>
  {
    set image | image in DescribeOf(container) && ImageKey(container, image).Some? :: ImageKey(container, image).value
  }

  // By the fingerprints of its plain images, those neither PTX nor packed.
  lemma KeysAre(container: seq<byte>, key: nat)
    ensures key in KeysOf(container) <==>
            exists image :: image in DescribeOf(container) && !image.isPtx && !image.compressed &&
              End(image) <= |container| && Fingerprint(container[image.payloadOffset..End(image)]) == Some(key)
  {
    hide DescribeOf, Fingerprint;
    assert forall image :: image in DescribeOf(container) && ImageKey(container, image) == Some(key) ==>
      key in KeysOf(container);
  }

  ghost predicate Holds(containers: seq<Blob>, key: nat, c: Blob)
  {
    c in containers && key in KeysOf(c.bytes)
  }

  // The one recorded container with an image of this fingerprint.
  ghost predicate SoleHolder(containers: seq<Blob>, key: nat, c: Blob)
  {
    Holds(containers, key, c) && forall other :: Holds(containers, key, other) ==> other == c
  }

  // ---- Scanning for cubins outside the containers ------------------------------------------

  datatype Found = Found(blob: Blob, identity: Identity)

  predicate InsideAny(containers: seq<Blob>, address: nat)
  {
    exists i :: 0 <= i < |containers| &&
      containers[i].address <= address < containers[i].address + |containers[i].bytes|
  }

  function CubinsFrom(span: Span, containers: seq<Blob>, at: nat): seq<Found>
    decreases |span.data| - at
  {
    if at >= |span.data| then []
    else
      var identity := if MagicAt(span, ELF_MAGIC, at) && !InsideAny(containers, span.base + at)
                      then IdentifyOf(span.data[at..]) else None;
      if identity.Some? then
        IdentityOfPart(span.data[at..]);
        var n := identity.value.size;
        [Found(Blob(span.base + at, span.data[at..at + n]), identity.value)] + CubinsFrom(span, containers, at + n)
      else CubinsFrom(span, containers, at + 1)
  }

  function CubinsOf(spans: seq<Span>, containers: seq<Blob>): seq<Found>
  {
    if spans == [] then [] else CubinsFrom(spans[0], containers, 0) + CubinsOf(spans[1..], containers)
  }

  predicate Matches(found: Found, key: nat, arch: nat)
  {
    VariantKey(found.identity.name, found.identity.code) == key && found.identity.arch == arch
  }

  // The last cubin in scan order with this kernel key and architecture.
  function LastMatch(found: seq<Found>, key: nat, arch: nat): Option<Blob>
  {
    if found == [] then None
    else
      var last := found[|found| - 1];
      if Matches(last, key, arch) then Some(last.blob) else LastMatch(found[..|found| - 1], key, arch)
  }

  // ---- The index -----------------------------------------------------------------------------

  datatype Index = Index(containers: map<nat, Blob>, variants: map<nat, map<nat, Blob>>)

  function Lookup(variants: map<nat, map<nat, Blob>>, key: nat, arch: nat): Option<Blob>
  {
    if key in variants && arch in variants[key] then Some(variants[key][arch]) else None
  }

  // The index answers as a search of the whole image would.
  ghost predicate IsIndexOf(index: Index, spans: seq<Span>)
  {
    var containers := ContainersOf(spans);
    && (forall key, c :: (key in index.containers && index.containers[key] == c) <==> SoleHolder(containers, key, c))
    && (forall key, arch :: Lookup(index.variants, key, arch) == LastMatch(CubinsOf(spans, containers), key, arch))
  }

  predicate SpansApart(a: Span, b: Span)
  {
    a.base + |a.data| <= b.base || b.base + |b.data| <= a.base
  }

  // Sections of one image are mapped apart from each other.
  ghost predicate Apart(spans: seq<Span>)
  {
    forall i, j :: 0 <= i < j < |spans| ==> SpansApart(spans[i], spans[j])
  }

  // ---- Recorded containers do not overlap ------------------------------------------------------

  ghost predicate WithinFrom(blobs: seq<Blob>, low: nat, high: nat)
  {
    && (forall i :: 0 <= i < |blobs| ==>
        low <= blobs[i].address && blobs[i].address + |blobs[i].bytes| <= high && |blobs[i].bytes| > 0)
    && (forall i, j :: 0 <= i < j < |blobs| ==> blobs[i].address + |blobs[i].bytes| <= blobs[j].address)
  }

  lemma {:induction false} ContainersWithin(span: Span, at: nat)
    ensures WithinFrom(ContainersFrom(span, at), span.base + at, span.base + |span.data|)
    decreases |span.data| - at
  {
    hide TakeContainer, MagicAt, WithinFrom;
    if at < |span.data| {
      var n := if MagicAt(span, FATBIN_BYTES, at) then TakeContainer(span.data[at..]) else 0;
      if n > 0 {
        ContainersWithin(span, at + n);
        WithinJoin(Blob(span.base + at, span.data[at..at + n]), ContainersFrom(span, at + n), span.base + |span.data|);
      } else {
        ContainersWithin(span, at + 1);
        WithinLower(ContainersFrom(span, at + 1), span.base + at + 1, span.base + at, span.base + |span.data|);
      }
    } else {
      WithinNone(span.base + at, span.base + |span.data|);
    }
  }

  lemma WithinNone(low: nat, high: nat)
    ensures WithinFrom([], low, high)
  {
  }

  lemma WithinLower(blobs: seq<Blob>, low: nat, lower: nat, high: nat)
    requires WithinFrom(blobs, low, high) && lower <= low
    ensures WithinFrom(blobs, lower, high)
  {
  }

  lemma WithinJoin(blob: Blob, rest: seq<Blob>, high: nat)
    requires |blob.bytes| > 0 && blob.address + |blob.bytes| <= high &&
      WithinFrom(rest, blob.address + |blob.bytes|, high)
    ensures WithinFrom([blob] + rest, blob.address, high)
  {
  }

  predicate TwoApart(a: Blob, b: Blob)
  {
    a.address + |a.bytes| <= b.address || b.address + |b.bytes| <= a.address
  }

  ghost predicate BlobsApart(blobs: seq<Blob>)
  {
    forall i, j :: 0 <= i < j < |blobs| ==> TwoApart(blobs[i], blobs[j])
  }

  predicate InSpan(blob: Blob, span: Span)
  {
    |blob.bytes| > 0 && span.base <= blob.address && blob.address + |blob.bytes| <= span.base + |span.data|
  }

  ghost predicate InSomeSpan(blob: Blob, spans: seq<Span>)
  {
    exists i :: 0 <= i < |spans| && InSpan(blob, spans[i])
  }

  lemma InLaterSpan(blob: Blob, spans: seq<Span>)
    requires spans != [] && InSomeSpan(blob, spans[1..])
    ensures InSomeSpan(blob, spans)
    ensures Apart(spans) ==> forall other :: InSpan(other, spans[0]) ==> TwoApart(other, blob)
  {
  }

  lemma {:induction false} ContainersApart(spans: seq<Span>)
    requires Apart(spans)
    ensures BlobsApart(ContainersOf(spans))
    ensures forall blob :: blob in ContainersOf(spans) ==> InSomeSpan(blob, spans)
  {
    if spans != [] {
      var first, rest := ContainersFrom(spans[0], 0), ContainersOf(spans[1..]);
      ContainersWithin(spans[0], 0);
      ContainersApart(spans[1..]);
      assert ContainersOf(spans) == first + rest;
      hide ContainersFrom, ContainersOf;
      forall blob | blob in first ensures InSpan(blob, spans[0]) && InSomeSpan(blob, spans) {
      }
      forall blob | blob in rest
        ensures InSomeSpan(blob, spans) && forall other :: InSpan(other, spans[0]) ==> TwoApart(other, blob)
      {
        InLaterSpan(blob, spans);
      }
      hide InSomeSpan, InSpan, Apart;
      JoinApart(first, rest);
    }
  }

  lemma JoinApart(first: seq<Blob>, rest: seq<Blob>)
    requires BlobsApart(first) && BlobsApart(rest)
    requires forall a, b :: a in first && b in rest ==> TwoApart(a, b)
    ensures BlobsApart(first + rest)
  {
  }

  // So an address names one recorded container.
  lemma OneContainerPerAddress(spans: seq<Span>, a: Blob, b: Blob)
    requires Apart(spans) && a in ContainersOf(spans) && b in ContainersOf(spans) && a.address == b.address
    ensures a == b
  {
    ContainersApart(spans);
    var all := ContainersOf(spans);
    var i :| 0 <= i < |all| && all[i] == a;
    var j :| 0 <= j < |all| && all[j] == b;
  }
}
