/** The multi-frame gates of a runtime: comparisons with Blackwell's id, rewritten to
    compare with the one that is reported (src/provider/multi_frame.cpp). */
module MultiFrame {
  import opened Bytes
  import opened X86
  import opened Flags
  import opened FlipMetering

  const MAX_GATES := 4
  const INSTRUCTIONS_TO_PUBLICATION := 8
  const MULTI_FRAME_PARAMETER := "DLSSG.MultiFrameCountMax"

  // The id reported, Ada's 0x190, as it stands in memory.
  const ADA: seq<byte> := [0x90, 0x01, 0x00, 0x00]

  // cmp eax, imm32 and cmp r32, imm32.
  datatype Encoding = Eax | Register32

  function ImmediateOffset(e: Encoding): nat { if e.Eax? then 1 else 2 }

  // Blackwell's id, 0x1B0.
  predicate IdAt(code: seq<byte>, i: int)
  {
    0 <= i && i + 4 <= |code| && code[i] == 0xB0 && code[i + 1] == 0x01 && code[i + 2] == 0 && code[i + 3] == 0
  }

  // The pattern of an encoding at p: 3D id, or 81 and a ModRM byte 11 111 ??? and id.
  predicate CompareAt(code: seq<byte>, e: Encoding, p: int)
  {
    0 <= p && IdAt(code, p + ImmediateOffset(e)) &&
    (if e.Eax? then code[p] == 0x3D else code[p] == 0x81 && 0xF8 <= code[p + 1])
  }

  // cmp eax, Blackwell's id, or cmp of any register with it: group 1's seventh operation.
  lemma ComparesAre(code: seq<byte>, p: nat)
    ensures CompareAt(code, Eax, p) <==> p + 5 <= |code| && code[p..p + 5] == [0x3D] + ToLe(0x1B0, 4)
    ensures CompareAt(code, Register32, p) <==>
            p + 6 <= |code| &&
            exists register :: 0 <= register < 8 && code[p..p + 6] == [0x81, ModRm(3, 7, register)] + ToLe(0x1B0, 4)
  {
    assert ToLe(0x1B0, 4) == [0xB0, 0x01, 0, 0];
    if p + 5 <= |code| {
      assert code[p..p + 5] == [code[p], code[p + 1], code[p + 2], code[p + 3], code[p + 4]];
    }
    if p + 6 <= |code| {
      assert code[p..p + 6] == [code[p], code[p + 1], code[p + 2], code[p + 3], code[p + 4], code[p + 5]];
      assert 0xF8 <= code[p + 1] ==> code[p + 1] == ModRm(3, 7, code[p + 1] - 0xF8);
    }
  }

  // ---- Gates -----------------------------------------------------------------------------

  datatype Gate = Gate(immediate: nat, condition: Condition, publishes: Option<string>, unlock: bool)

  // How the code at a position decodes, and which published parameter's name, if any, the
  // instruction there loads.
  datatype Reader = Reader(decode: (seq<byte>, nat) -> Option<Decoded>, names: (seq<byte>, nat) -> Option<string>)

  // The first parameter named in the next n instructions.
  function PublishedFrom(reader: Reader, code: seq<byte>, cursor: nat, n: nat): Option<string>
    decreases n
  {
    var d := reader.decode(code, cursor);
    if n == 0 || d == None then None
    else if reader.names(code, cursor).Some? then reader.names(code, cursor)
    else PublishedFrom(reader, code, cursor + d.value.length, n - 1)
  }

  // Where the code is after k instructions, if they all decode.
  function Along(reader: Reader, code: seq<byte>, cursor: nat, k: nat): Option<nat>
    decreases k
  {
    if k == 0 then Some(cursor)
    else
      var d := reader.decode(code, cursor);
      if d == None then None else Along(reader, code, cursor + d.value.length, k - 1)
  }

  // The name loaded by the instruction k instructions on, which decodes.
  function NameAfter(reader: Reader, code: seq<byte>, cursor: nat, k: nat): Option<string>
  {
    var at := Along(reader, code, cursor, k);
    if at.Some? && reader.decode(code, at.value).Some? then reader.names(code, at.value) else None
  }

  lemma NameLater(reader: Reader, code: seq<byte>, cursor: nat, j: nat)
    requires j > 0
    ensures NameAfter(reader, code, cursor, j) ==
      var d := reader.decode(code, cursor);
      if d.Some? then NameAfter(reader, code, cursor + d.value.length, j - 1) else None
  {
  }

  // The parameter published is the first one named within n instructions, and there is one
  // exactly when one of them names any.
  lemma {:induction false} PublishedIsFirst(reader: Reader, code: seq<byte>, cursor: nat, n: nat) returns (k: nat)
    ensures k <= n && (k < n ==> NameAfter(reader, code, cursor, k).Some?)
    ensures PublishedFrom(reader, code, cursor, n).Some? <==> k < n
    ensures forall j: nat :: j < n && NameAfter(reader, code, cursor, j).Some? ==> k <= j
    ensures k < n ==> PublishedFrom(reader, code, cursor, n) == NameAfter(reader, code, cursor, k)
    decreases n
  {
    var d := reader.decode(code, cursor);
    if n == 0 || (d.Some? && reader.names(code, cursor).Some?) {
      k := 0;
    } else if d == None {
      k := n;
    } else {
      var rest := PublishedIsFirst(reader, code, cursor + d.value.length, n - 1);
      k := rest + 1;
      NameLater(reader, code, cursor, k);
    }
    forall j: nat | j < n && NameAfter(reader, code, cursor, j).Some?
      ensures k <= j
    {
      if j > 0 {
        NameLater(reader, code, cursor, j);
      }
    }
  }

  method PublishedParameter(reader: Reader, code: seq<byte>, compare: nat) returns (name: Option<string>)
    ensures name == PublishedFrom(reader, code, compare, 8)
  {
    var cursor: nat := compare;
    for i := 0 to INSTRUCTIONS_TO_PUBLICATION
      invariant PublishedFrom(reader, code, cursor, INSTRUCTIONS_TO_PUBLICATION - i) ==
                PublishedFrom(reader, code, compare, INSTRUCTIONS_TO_PUBLICATION)
    {
      var d := reader.decode(code, cursor);
      if d == None {
        return None;
      }
      name := reader.names(code, cursor);
      if name.Some? {
        return;
      }
      cursor := cursor + d.value.length;
    }
    name := None;
  }

  // A match reads as a comparison of the expected length.
  predicate IsCompare(reader: Reader, code: seq<byte>, e: Encoding, p: nat)
  {
    CompareAt(code, e, p) && reader.decode(code, p).Some? &&
      reader.decode(code, p).value.length == ImmediateOffset(e) + 4
  }

  // What is to be done with it: an ordering test of its result that publishes no other
  // capability is unlocked.
  function GateAt(reader: Reader, code: seq<byte>, e: Encoding, p: nat): Gate
  {
    var next := p + ImmediateOffset(e) + 4;
    var consumer := reader.decode(code, next);
    var condition := if consumer.Some? then ConditionTested(consumer.value) else NotConditional;
    var publishes := PublishedFrom(reader, code, next, INSTRUCTIONS_TO_PUBLICATION);
    Gate(p + ImmediateOffset(e), condition, publishes,
         condition == Ordering && (publishes == None || publishes == Some(MULTI_FRAME_PARAMETER)))
  }

  // The gates of one encoding below position n, in order.
  function GatesBelow(reader: Reader, code: seq<byte>, e: Encoding, n: nat): seq<Gate>
  {
    if n == 0 then []
    else
      GatesBelow(reader, code, e, n - 1) +
      (if IsCompare(reader, code, e, n - 1) then [GateAt(reader, code, e, n - 1)] else [])
  }

  function Gates(reader: Reader, code: seq<byte>): seq<Gate>
  {
    GatesBelow(reader, code, Eax, |code|) + GatesBelow(reader, code, Register32, |code|)
  }

  method FindGates(reader: Reader, code: seq<byte>, e: Encoding) returns (gates: seq<Gate>)
    ensures gates == GatesBelow(reader, code, e, |code|)
  {
    gates := [];
    for p := 0 to |code|
      invariant gates == GatesBelow(reader, code, e, p)
    {
      if CompareAt(code, e, p) {
        var compare := reader.decode(code, p);
        if compare.Some? && compare.value.length == ImmediateOffset(e) + 4 {
          var consumer := reader.decode(code, p + compare.value.length);
          var condition := if consumer.Some? then ConditionTested(consumer.value) else NotConditional;
          var publishes := PublishedParameter(reader, code, p + compare.value.length);
          var unlock := condition == Ordering && (publishes == None || publishes == Some(MULTI_FRAME_PARAMETER));
          gates := gates + [Gate(p + ImmediateOffset(e), condition, publishes, unlock)];
        }
      }
    }
  }

  method FindMultiFrameGates(reader: Reader, code: seq<byte>) returns (gates: seq<Gate>)
    ensures gates == Gates(reader, code)
  {
    var eax := FindGates(reader, code, Eax);
    var others := FindGates(reader, code, Register32);
    gates := eax + others;
  }

  // ---- Unlocking ---------------------------------------------------------------------------

  function Unlocks(gates: seq<Gate>): (n: nat)
    ensures n <= |gates|
    ensures n == 0 <==> forall k :: 0 <= k < |gates| ==> !gates[k].unlock
  {
    if gates == [] then 0
    else
      assert gates == [gates[0]] + gates[1..];
      (if gates[0].unlock then 1 else 0) + Unlocks(gates[1..])
  }

  predicate Acceptable(gates: seq<Gate>)
  {
    Unlocks(gates) > 0 && |gates| <= MAX_GATES
  }

  // The immediates of the unlock gates, of which `writable` says which could be written.
  function Rewritten(gates: seq<Gate>, writable: nat -> bool): set<int>
  {
    set k: nat | k < |gates| && gates[k].unlock && writable(k) :: gates[k].immediate
  }

  // The id at each of these positions is now the one reported; nothing else has changed.
  ghost predicate Unlocked(code: seq<byte>, now: seq<byte>, rewritten: set<int>)
  {
    |now| == |code| && forall q :: 0 <= q < |code| ==> now[q] == if q in rewritten then 0x90 else code[q]
  }

  ghost predicate Ids(code: seq<byte>, positions: set<int>)
  {
    forall i :: i in positions ==> IdAt(code, i)
  }

  ghost predicate IsGateOf(reader: Reader, code: seq<byte>, e: Encoding, n: nat, g: Gate)
  {
    exists p: nat :: p < n && IsCompare(reader, code, e, p) && g == GateAt(reader, code, e, p)
  }

  // The gates are what reads as a comparison, of either encoding, and nothing else.
  lemma {:induction false} GatesBelowAre(reader: Reader, code: seq<byte>, e: Encoding, n: nat)
    ensures forall g :: g in GatesBelow(reader, code, e, n) <==> IsGateOf(reader, code, e, n, g)
  {
    if n > 0 {
      GatesBelowAre(reader, code, e, n - 1);
      forall g
        ensures IsGateOf(reader, code, e, n, g) <==>
                IsGateOf(reader, code, e, n - 1, g) ||
                  (IsCompare(reader, code, e, n - 1) && g == GateAt(reader, code, e, n - 1))
      {
      }
    }
  }

  lemma GatesAre(reader: Reader, code: seq<byte>, g: Gate)
    ensures g in Gates(reader, code) <==>
            IsGateOf(reader, code, Eax, |code|, g) || IsGateOf(reader, code, Register32, |code|, g)
    ensures g in Gates(reader, code) ==> IdAt(code, g.immediate)
  {
    GatesBelowAre(reader, code, Eax, |code|);
    GatesBelowAre(reader, code, Register32, |code|);
  }

  lemma GatesMatch(reader: Reader, code: seq<byte>)
    ensures forall g :: g in Gates(reader, code) ==> IdAt(code, g.immediate)
  {
    forall g | g in Gates(reader, code)
      ensures IdAt(code, g.immediate)
    {
      GatesAre(reader, code, g);
    }
  }

  // Moves the gates, if there is one to move and not too many to be it.
  method UnlockMultiFrame(reader: Reader, memory: array<byte>, enabled: bool, writable: nat -> bool)
    modifies memory
    ensures var code := old(memory[..]); var gates := Gates(reader, code);
            if enabled && (exists k :: 0 <= k < |gates| && gates[k].unlock) && |gates| <= 4
            then Unlocked(code, memory[..], Rewritten(gates, writable))
            else memory[..] == code
  {
    if !enabled {
      return;
    }
    var gates := FindMultiFrameGates(reader, memory[..]);
    if !Acceptable(gates) {
      return;
    }
    ghost var code := memory[..];
    GatesMatch(reader, code);
    for k := 0 to |gates|
      invariant Unlocked(code, memory[..], Rewritten(gates[..k], writable))
    {
      assert gates[k] in gates;
      RewrittenStep(gates, writable, k);
      if gates[k].unlock {
        ghost var before := memory[..];
        var ok := PatchCode(memory, gates[k].immediate, ADA, writable(k));
        if ok {
          WrittenOnce(code, before, memory[..], Rewritten(gates[..k], writable), gates[k].immediate);
        }
      }
    }
    assert gates[..|gates|] == gates;
  }

  lemma RewrittenStep(gates: seq<Gate>, writable: nat -> bool, k: nat)
    requires k < |gates|
    ensures Rewritten(gates[..k + 1], writable) ==
            Rewritten(gates[..k], writable) + (if gates[k].unlock && writable(k) then {gates[k].immediate} else {})
  {
  }

  // Only the low byte of the id is another one.
  lemma WrittenOnce(code: seq<byte>, before: seq<byte>, now: seq<byte>, rewritten: set<int>, i: nat)
    requires Unlocked(code, before, rewritten) && IdAt(code, i) && now == Written(before, i, ADA)
    requires Ids(code, rewritten)
    ensures Unlocked(code, now, rewritten + {i})
  {
    assert forall q :: i < q < i + 4 ==> q !in rewritten;
  }

  // ---- What is left ------------------------------------------------------------------------

  // Across both encodings and every overlap, the comparisons left are the old ones less
  // those whose id was rewritten: none is made, and none is disturbed.
  lemma ComparesLeft(code: seq<byte>, now: seq<byte>, rewritten: set<int>, e: Encoding, p: int)
    requires Unlocked(code, now, rewritten) && Ids(code, rewritten)
    ensures CompareAt(now, e, p) <==> CompareAt(code, e, p) && p + ImmediateOffset(e) !in rewritten
  {
  }

  // An id belongs to one comparison: what unlocks one gate touches no other.
  lemma OneComparePerId(code: seq<byte>, e: Encoding, f: Encoding, p: int, q: int)
    requires CompareAt(code, e, p) && CompareAt(code, f, q)
    requires p + ImmediateOffset(e) - 4 < q + ImmediateOffset(f) < p + ImmediateOffset(e) + 4
    ensures e == f && p == q
  {
  }

  // All of it: whichever writes succeed, only unlock gates' ids change, and the comparisons
  // left are exactly the others.
  lemma UnlockKeepsTheRest(reader: Reader, code: seq<byte>, now: seq<byte>, writable: nat -> bool, e: Encoding, p: int)
    requires Unlocked(code, now, Rewritten(Gates(reader, code), writable))
    ensures CompareAt(now, e, p) <==>
              CompareAt(code, e, p) && p + ImmediateOffset(e) !in Rewritten(Gates(reader, code), writable)
    ensures forall q :: 0 <= q < |code| && now[q] != code[q] ==>
              exists k :: 0 <= k < |Gates(reader, code)| && Gates(reader, code)[k].unlock &&
                q == Gates(reader, code)[k].immediate
  {
    var gates := Gates(reader, code);
    GatesMatch(reader, code);
    assert forall k :: 0 <= k < |gates| ==> gates[k] in gates;
    ComparesLeft(code, now, Rewritten(gates, writable), e, p);
  }

  // ---- Whose answers change ------------------------------------------------------------------

  const BLACKWELL: word := 0x1B0
  const REPORTED: word := 0x190

  // The instruction here is a jump, set or move on an order of the words compared.
  ghost predicate OrderTestAt(reader: Reader, code: seq<byte>, at: nat)
  {
    reader.decode(code, at).Some? &&
    exists c, r :: Carries(reader.decode(code, at).value, c) && Orders(r) && Is(c, r)
  }

  // Of the parameters named within n instructions the first, if any, is this one.
  predicate NamesNoneButFirst(reader: Reader, code: seq<byte>, at: nat, n: nat, name: string)
  {
    forall k: nat :: k < n && FirstNamed(reader, code, at, k) ==> NameAfter(reader, code, at, k) == Some(name)
  }

  predicate FirstNamed(reader: Reader, code: seq<byte>, at: nat, k: nat)
  {
    NameAfter(reader, code, at, k).Some? && forall j: nat :: j < k ==> NameAfter(reader, code, at, j) == None
  }

  // A comparison is unlocked exactly when the instruction behind it tests an order of what was
  // compared, and no parameter but the multi-frame count's is named first behind it.
  lemma UnlockedWhen(reader: Reader, code: seq<byte>, e: Encoding, p: nat)
    ensures var next := p + ImmediateOffset(e) + 4;
            GateAt(reader, code, e, p).unlock <==>
            OrderTestAt(reader, code, next) &&
            NamesNoneButFirst(reader, code, next, 8, MULTI_FRAME_PARAMETER)
  {
    hide ConditionTested, FromConditionCode, Is, Carries, PublishedFrom, NameAfter;
    var next := p + ImmediateOffset(e) + 4;
    FirstNameIs(reader, code, next, INSTRUCTIONS_TO_PUBLICATION, MULTI_FRAME_PARAMETER);
    if reader.decode(code, next).Some? {
      OrderTested(reader.decode(code, next).value);
    }
  }

  lemma OrderTested(d: Decoded)
    ensures ConditionTested(d) == Ordering <==> exists c, r :: Carries(d, c) && Orders(r) && Is(c, r)
  {
    hide ConditionTested, FromConditionCode, Is;
    TestedIs(d, 0);
    forall c: nat | Carries(d, c)
      ensures ConditionTested(d) == Ordering <==> exists r :: Orders(r) && Is(c, r)
    {
      TestedIs(d, c);
      Classified(c);
    }
  }

  lemma FirstNameIs(reader: Reader, code: seq<byte>, at: nat, n: nat, name: string)
    ensures NamesNoneButFirst(reader, code, at, n, name) <==>
            PublishedFrom(reader, code, at, n) == None || PublishedFrom(reader, code, at, n) == Some(name)
  {
    hide PublishedFrom, NameAfter;
    var k := PublishedIsFirst(reader, code, at, n);
    forall i: nat | i < n && FirstNamed(reader, code, at, i)
      ensures i == k
    {
      assert forall j: nat :: j < i ==> NameAfter(reader, code, at, j) == None;
    }
    if PublishedFrom(reader, code, at, n).Some? {
      forall j: nat | j < k
        ensures NameAfter(reader, code, at, j) == None
      {
        assert NameAfter(reader, code, at, j).Some? ==> k <= j;
      }
      assert FirstNamed(reader, code, at, k);
    }
  }

  // Where it is rewritten, the test answers for the id reported as it did for Blackwell's, and
  // for no id that is older than the one or newer than the other differently from before.
  lemma AnswersAsBlackwell(reader: Reader, code: seq<byte>, now: seq<byte>, rewritten: set<int>, e: Encoding, p: nat,
                           c: nat, id: word)
    requires IsCompare(reader, code, e, p) && GateAt(reader, code, e, p).unlock
    requires Unlocked(code, now, rewritten) && Ids(code, rewritten) && p + ImmediateOffset(e) in rewritten
    requires reader.decode(code, p + ImmediateOffset(e) + 4).Some?
    requires Carries(reader.decode(code, p + ImmediateOffset(e) + 4).value, c)
    ensures p + ImmediateOffset(e) + 4 <= |code|
    ensures Get(code, p + ImmediateOffset(e), 4) == BLACKWELL && Get(now, p + ImmediateOffset(e), 4) == REPORTED
    ensures Taken(c, REPORTED, REPORTED) == Taken(c, BLACKWELL, BLACKWELL)
    ensures id < REPORTED || id > BLACKWELL ==> Taken(c, id, REPORTED) == Taken(c, id, BLACKWELL)
  {
    var at := p + ImmediateOffset(e);
    IdReads(code, at, 0xB0);
    assert forall q :: at < q < at + 4 ==> q !in rewritten;
    IdReads(now, at, 0x90);
    hide Taken, FromConditionCode, ConditionTested, Carries, PublishedFrom, Get;
    TestedIs(reader.decode(code, at + 4).value, c);
    CodeIsSmall(reader.decode(code, at + 4).value, c);
    BoundMoved(c, BLACKWELL, REPORTED, id);
  }

  lemma CodeIsSmall(d: Decoded, c: nat)
    ensures Carries(d, c) ==> c < 16
  {
  }

  lemma IdReads(code: seq<byte>, at: nat, low: byte)
    requires at + 4 <= |code| && code[at] == low && code[at + 1] == 1 && code[at + 2] == 0 && code[at + 3] == 0
    ensures Get(code, at, 4) == 0x100 + low as int
  {
    var f := code[at..at + 4];
    assert FromLe(f[1..][1..][1..]) == 0;
    assert f[1..][1..] == code[at + 2..at + 4];
    assert FromLe(f[1..][1..]) == 0;
    assert f[1..][0] == 1 && FromLe(f[1..]) == 1;
  }
}
