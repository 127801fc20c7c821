/** Which patches a mapped plugin has received: the claim, pin and erase of PatchPlugin
    under any interleaving (src/streamline/plugin_patch.cpp:66-87, 300-339).

    Each step is one critical section of the record lock, one pin, or one patch. As in
    Loader, an Inst is one mapping of an image, and an address is reused until it is pinned. */
module PluginRecords {
  type Addr = nat
  type Inst = nat
  type Id = nat

  datatype Patch = FlipMetering | FrameClamp

  // The patches an image's record says are claimed, and those a call has claimed.
  type Patches = set<Patch>

  const FLIP: Patches := {FlipMetering}
  const CLAMP: Patches := {FrameClamp}
  const BOTH: Patches := {FlipMetering, FrameClamp}

  datatype Stage =
    | Claim    // about to take the lock
    | Pin      // has claimed, about to pin
    | Erase    // the pin failed, about to take the lock again
    | Write    // has pinned, about to write the first of what it has left

  datatype Call = Call(plugin: Addr, at: Stage, left: Patches)

  datatype Receipt = Receipt(plugin: Addr, inst: Inst, patch: Patch)

  datatype State = State(
    mapped: map<Addr, Inst>,
    pinned: set<Inst>,
    nextInst: Inst,
    enabled: Patches,
    records: map<Addr, Patches>,
    calls: map<Id, Call>,
    received: seq<Receipt>)

  datatype Action =
    | Enter(id: Id, plugin: Addr)
    | Go(id: Id, pins: bool)
    | Map(address: Addr)
    | Unmap(address: Addr)
    | PinElsewhere(address: Addr)
    | Enable(patches: Patches)

  // ---- Steps -------------------------------------------------------------------------------

  function Recorded(s: State, plugin: Addr): Patches
  {
    if plugin in s.records then s.records[plugin] else {}
  }

  // What a call takes: what is enabled and not claimed already.
  function Taken(s: State, plugin: Addr): Patches
  {
    s.enabled - Recorded(s, plugin)
  }

  function Claims(s: State, id: Id, plugin: Addr): State
  {
    var taken := Taken(s, plugin);
    s.(records := s.records[plugin := Recorded(s, plugin) + taken],
       calls := if taken == {} then s.calls - {id} else s.calls[id := Call(plugin, Pin, taken)])
  }

  function Pins(s: State, id: Id, call: Call, pins: bool): State
  {
    if pins && call.plugin in s.mapped
    then s.(pinned := s.pinned + {s.mapped[call.plugin]}, calls := s.calls[id := call.(at := Write)])
    else s.(calls := s.calls[id := call.(at := Erase)])
  }

  function Erases(s: State, id: Id, plugin: Addr): State
  {
    s.(records := s.records - {plugin}, calls := s.calls - {id})
  }

  // Flip metering first, then the frame clamp.
  function First(left: Patches): Patch
  {
    if FlipMetering in left then FlipMetering else FrameClamp
  }

  function Writes(s: State, id: Id, call: Call): State
  {
    var patch := First(call.left);
    var rest := call.left - {patch};
    s.(received := if call.plugin in s.mapped then s.received + [Receipt(call.plugin, s.mapped[call.plugin], patch)]
       else s.received,
       calls := if rest == {} then s.calls - {id} else s.calls[id := call.(left := rest)])
  }

  function Step(s: State, id: Id, pins: bool): State
    requires id in s.calls
  {
    var call := s.calls[id];
    match call.at
    case Claim => Claims(s, id, call.plugin)
    case Pin => Pins(s, id, call, pins)
    case Erase => Erases(s, id, call.plugin)
    case Write => Writes(s, id, call)
  }

  predicate Allowed(s: State, a: Action)
  {
    match a
    case Enter(id, plugin) => id !in s.calls
    case Go(id, pins) => id in s.calls
    case Map(address) => address !in s.mapped
    case Unmap(address) => address in s.mapped && s.mapped[address] !in s.pinned
    case PinElsewhere(address) => address in s.mapped
    case Enable(patches) => true
  }

  function Apply(s: State, a: Action): State
    requires Allowed(s, a)
  {
    match a
    case Enter(id, plugin) => s.(calls := s.calls[id := Call(plugin, Claim, {})])
    case Go(id, pins) => Step(s, id, pins)
    case Map(address) => s.(mapped := s.mapped[address := s.nextInst], nextInst := s.nextInst + 1)
    case Unmap(address) => s.(mapped := s.mapped - {address})
    case PinElsewhere(address) => s.(pinned := s.pinned + {s.mapped[address]})
    case Enable(patches) => s.(enabled := patches)
  }

  // What is enabled is settled before the first plugin is seen, as it is at startup.
  predicate AtStartup(s: State, a: Action)
  {
    a.Enable? ==> s.records == map[] && s.calls == map[]
  }

  ghost predicate Initial(s: State)
  {
    s.records == map[] && s.calls == map[] && s.received == [] &&
    (forall a :: a in s.mapped ==> s.mapped[a] < s.nextInst) &&
    (forall a, b :: a in s.mapped && b in s.mapped && s.mapped[a] == s.mapped[b] ==> a == b)
  }

  ghost predicate Next(s: State, a: Action, t: State)
  {
    Allowed(s, a) && t == Apply(s, a)
  }

  // A run of any calls in any order, whatever is enabled when.
  ghost predicate AnyRun(states: seq<State>, actions: seq<Action>)
  {
    |states| == |actions| + 1 && Initial(states[0]) &&
    forall k :: 0 <= k < |actions| ==> Next(states[k], actions[k], states[k + 1])
  }

  // One in which that is settled beforehand.
  ghost predicate Run(states: seq<State>, actions: seq<Action>)
  {
    AnyRun(states, actions) && forall k :: 0 <= k < |actions| ==> AtStartup(states[k], actions[k])
  }

  // ---- What every reachable state keeps -----------------------------------------------------

  // A call that has claimed something and not yet finished with it.
  predicate Owns(call: Call)
  {
    !call.at.Claim?
  }

  predicate Pinned(s: State, plugin: Addr)
  {
    plugin in s.mapped && s.mapped[plugin] in s.pinned
  }

  // A claimed record is an owner's, or a pinned image's.
  ghost predicate Held(s: State, plugin: Addr)
  {
    Pinned(s, plugin) || exists id :: id in s.calls && Owns(s.calls[id]) && s.calls[id].plugin == plugin
  }

  ghost predicate Memory(s: State)
  {
    (forall a :: a in s.mapped ==> s.mapped[a] < s.nextInst) &&
    (forall a, b :: a in s.mapped && b in s.mapped && s.mapped[a] == s.mapped[b] ==> a == b)
  }

  ghost predicate Owners(s: State)
  {
    (forall id :: id in s.calls && Owns(s.calls[id]) ==>
      s.calls[id].left != {} && s.calls[id].left <= s.enabled &&
      Recorded(s, s.calls[id].plugin) == s.enabled) &&
    (forall id :: id in s.calls && s.calls[id].at.Write? ==> Pinned(s, s.calls[id].plugin)) &&
    (forall id :: id in s.calls && (s.calls[id].at.Pin? || s.calls[id].at.Erase?) ==> s.calls[id].left == s.enabled) &&
    (forall i, j :: i in s.calls && j in s.calls && i != j && Owns(s.calls[i]) && Owns(s.calls[j]) ==>
      s.calls[i].plugin != s.calls[j].plugin)
  }

  ghost predicate Records(s: State)
  {
    forall a :: a in s.records && s.records[a] != {} ==> s.records[a] == s.enabled && Held(s, a)
  }

  // What an image has received, its record claims, and nobody is still to write.
  predicate Spent(s: State, r: Receipt)
  {
    Pinned(s, r.plugin) && s.mapped[r.plugin] == r.inst && r.patch in Recorded(s, r.plugin) &&
    forall id :: id in s.calls && Owns(s.calls[id]) && s.calls[id].plugin == r.plugin ==>
      s.calls[id].at.Write? && r.patch !in s.calls[id].left
  }

  ghost predicate Receipts(s: State)
  {
    (forall k :: 0 <= k < |s.received| ==> Spent(s, s.received[k])) &&
    (forall j, k :: 0 <= j < k < |s.received| ==> s.received[j] != s.received[k])
  }

  ghost predicate Inv(s: State)
  {
    Memory(s) && Owners(s) && Records(s) && Receipts(s)
  }

  lemma HeldKept(s: State, t: State, plugin: Addr)
    requires Held(s, plugin) && (Pinned(s, plugin) ==> Pinned(t, plugin))
    requires forall id :: id in s.calls && Owns(s.calls[id]) && s.calls[id].plugin == plugin ==>
      Pinned(t, plugin) || (id in t.calls && Owns(t.calls[id]) && t.calls[id].plugin == plugin)
    ensures Held(t, plugin)
  {
  }

  lemma AllHeld(s: State, t: State)
    requires forall a :: Pinned(s, a) ==> Pinned(t, a)
    requires forall id :: id in s.calls && Owns(s.calls[id]) ==>
      Pinned(t, s.calls[id].plugin) || (id in t.calls && Owns(t.calls[id]) && t.calls[id].plugin == s.calls[id].plugin)
    ensures forall a :: Held(s, a) ==> Held(t, a)
  {
  }

  // A record claims all that is enabled, or nothing; and what is there to take, no call owns.
  lemma TakesAll(s: State, plugin: Addr)
    requires Owners(s) && Records(s)
    ensures Taken(s, plugin) == {} || (Taken(s, plugin) == s.enabled && Recorded(s, plugin) == {})
    ensures Taken(s, plugin) != {} ==> forall i :: i in s.calls && Owns(s.calls[i]) ==> s.calls[i].plugin != plugin
    ensures Recorded(s, plugin) + Taken(s, plugin) == s.enabled
  {
    hide Held;
  }

  lemma ClaimOwners(s: State, id: Id)
    requires Inv(s) && id in s.calls && s.calls[id].at.Claim?
    ensures Owners(Claims(s, id, s.calls[id].plugin)) && Memory(Claims(s, id, s.calls[id].plugin))
  {
    hide Receipts, Records, Taken;
    var t, plugin := Claims(s, id, s.calls[id].plugin), s.calls[id].plugin;
    TakesAll(s, plugin);
    assert forall a :: Recorded(t, a) == if a == plugin then s.enabled else Recorded(s, a);
  }

  lemma ClaimRecords(s: State, id: Id)
    requires Inv(s) && id in s.calls && s.calls[id].at.Claim?
    ensures Records(Claims(s, id, s.calls[id].plugin))
  {
    hide Receipts, Owners;
    var t, plugin := Claims(s, id, s.calls[id].plugin), s.calls[id].plugin;
    AllHeld(s, t);
    assert Recorded(s, plugin) == {} || Recorded(s, plugin) == s.enabled;
    if Taken(s, plugin) != {} {
      assert id in t.calls && Owns(t.calls[id]);
      assert Held(t, plugin);
    }
  }

  lemma ClaimReceipts(s: State, id: Id)
    requires Inv(s) && id in s.calls && s.calls[id].at.Claim?
    ensures Receipts(Claims(s, id, s.calls[id].plugin))
  {
    hide Held;
    var t, plugin := Claims(s, id, s.calls[id].plugin), s.calls[id].plugin;
    forall k | 0 <= k < |s.received|
      ensures Spent(t, s.received[k])
    {
      var r := s.received[k];
      assert Spent(s, r);
      assert r.plugin == plugin ==> Recorded(s, plugin) == s.enabled && Taken(s, plugin) == {};
    }
  }

  // A call takes nothing that is claimed: it takes all that is enabled, or nothing.
  lemma ClaimKept(s: State, id: Id)
    requires Inv(s) && id in s.calls && s.calls[id].at.Claim?
    ensures Inv(Claims(s, id, s.calls[id].plugin))
  {
    hide Receipts, Owners, Records, Memory;
    ClaimOwners(s, id);
    ClaimRecords(s, id);
    ClaimReceipts(s, id);
  }

  lemma PinReceipts(s: State, id: Id, pins: bool)
    requires Inv(s) && id in s.calls && s.calls[id].at.Pin?
    ensures Receipts(Pins(s, id, s.calls[id], pins))
  {
    hide Held, Records, Memory;
    var t := Pins(s, id, s.calls[id], pins);
    forall k | 0 <= k < |s.received|
      ensures Spent(t, s.received[k])
    {
      assert Spent(s, s.received[k]);
    }
  }

  lemma PinOwners(s: State, id: Id, pins: bool)
    requires Memory(s) && Owners(s) && id in s.calls && s.calls[id].at.Pin?
    ensures Owners(Pins(s, id, s.calls[id], pins)) && Memory(Pins(s, id, s.calls[id], pins))
  {
  }

  lemma PinRecords(s: State, id: Id, pins: bool)
    requires Records(s) && id in s.calls && s.calls[id].at.Pin?
    ensures Records(Pins(s, id, s.calls[id], pins))
  {
    hide Held;
    AllHeld(s, Pins(s, id, s.calls[id], pins));
  }

  lemma PinKept(s: State, id: Id, pins: bool)
    requires Inv(s) && id in s.calls && s.calls[id].at.Pin?
    ensures Inv(Pins(s, id, s.calls[id], pins))
  {
    hide Owners, Records, Memory, Receipts;
    PinOwners(s, id, pins);
    PinRecords(s, id, pins);
    PinReceipts(s, id, pins);
  }

  // What an erase removes is what the call that erases claimed: no other call has a claim
  // on the address.
  lemma ErasedClaim(s: State, id: Id)
    requires Owners(s) && id in s.calls && s.calls[id].at.Erase?
    ensures Recorded(s, s.calls[id].plugin) == s.calls[id].left
    ensures forall i :: i in s.calls && i != id && Owns(s.calls[i]) ==> s.calls[i].plugin != s.calls[id].plugin
    ensures forall a :: a != s.calls[id].plugin ==> Recorded(Erases(s, id, s.calls[id].plugin), a) == Recorded(s, a)
  {
  }

  lemma EraseOwners(s: State, id: Id)
    requires Memory(s) && Owners(s) && id in s.calls && s.calls[id].at.Erase?
    ensures Owners(Erases(s, id, s.calls[id].plugin)) && Memory(Erases(s, id, s.calls[id].plugin))
  {
    hide Recorded;
    ErasedClaim(s, id);
  }

  lemma EraseRecords(s: State, id: Id)
    requires Records(s) && id in s.calls && s.calls[id].at.Erase?
    ensures Records(Erases(s, id, s.calls[id].plugin))
  {
    hide Held;
    var t := Erases(s, id, s.calls[id].plugin);
    forall a | a != s.calls[id].plugin && Held(s, a)
      ensures Held(t, a)
    {
      HeldKept(s, t, a);
    }
  }

  lemma EraseReceipts(s: State, id: Id)
    requires Receipts(s) && id in s.calls && s.calls[id].at.Erase?
    ensures Receipts(Erases(s, id, s.calls[id].plugin))
  {
    var t := Erases(s, id, s.calls[id].plugin);
    forall k | 0 <= k < |s.received|
      ensures Spent(t, s.received[k])
    {
      assert Spent(s, s.received[k]);
    }
  }

  lemma EraseKept(s: State, id: Id)
    requires Inv(s) && id in s.calls && s.calls[id].at.Erase?
    ensures Inv(Erases(s, id, s.calls[id].plugin))
  {
    hide Owners, Records, Memory, Receipts;
    EraseOwners(s, id);
    EraseRecords(s, id);
    EraseReceipts(s, id);
  }

  lemma FirstLeft(left: Patches)
    requires left != {}
    ensures First(left) in left
  {
    var patch :| patch in left;
    assert patch == FlipMetering || patch == FrameClamp;
  }

  lemma WriteReceipts(s: State, id: Id)
    requires Inv(s) && id in s.calls && s.calls[id].at.Write?
    ensures Receipts(Writes(s, id, s.calls[id]))
  {
    hide Held;
    var t, call := Writes(s, id, s.calls[id]), s.calls[id];
    FirstLeft(call.left);
    forall k | 0 <= k < |t.received|
      ensures Spent(t, t.received[k])
      ensures k < |s.received| ==> t.received[k] != t.received[|s.received|]
    {
      if k < |s.received| {
        assert Spent(s, s.received[k]);
      }
    }
  }

  lemma WriteOwners(s: State, id: Id)
    requires Memory(s) && Owners(s) && id in s.calls && s.calls[id].at.Write?
    ensures Owners(Writes(s, id, s.calls[id])) && Memory(Writes(s, id, s.calls[id]))
  {
    FirstLeft(s.calls[id].left);
  }

  lemma WriteRecords(s: State, id: Id)
    requires Owners(s) && Records(s) && id in s.calls && s.calls[id].at.Write?
    ensures Records(Writes(s, id, s.calls[id]))
  {
    hide Held;
    AllHeld(s, Writes(s, id, s.calls[id]));
  }

  lemma WriteKept(s: State, id: Id)
    requires Inv(s) && id in s.calls && s.calls[id].at.Write?
    ensures Inv(Writes(s, id, s.calls[id]))
  {
    hide Owners, Records, Memory, Receipts;
    WriteOwners(s, id);
    WriteRecords(s, id);
    WriteReceipts(s, id);
  }

  lemma OtherMemory(s: State, a: Action)
    requires Memory(s) && Allowed(s, a) && !a.Go? && !a.Enable?
    ensures Memory(Apply(s, a))
  {
  }

  lemma OtherOwners(s: State, a: Action)
    requires Owners(s) && Allowed(s, a) && !a.Go? && !a.Enable?
    ensures Owners(Apply(s, a))
  {
  }

  lemma OtherRecords(s: State, a: Action)
    requires Records(s) && Allowed(s, a) && !a.Go? && !a.Enable?
    ensures Records(Apply(s, a))
  {
    hide Held;
    AllHeld(s, Apply(s, a));
  }

  lemma OtherReceipts(s: State, a: Action)
    requires Receipts(s) && Allowed(s, a) && !a.Go? && !a.Enable?
    ensures Receipts(Apply(s, a))
  {
    forall k | 0 <= k < |s.received|
      ensures Spent(Apply(s, a), s.received[k])
    {
      assert Spent(s, s.received[k]);
    }
  }

  // A call coming in, and what becomes of the images meanwhile.
  lemma OtherKept(s: State, a: Action)
    requires Inv(s) && Allowed(s, a) && !a.Go? && !a.Enable?
    ensures Inv(Apply(s, a))
  {
    hide Owners, Records, Memory, Receipts;
    OtherMemory(s, a);
    OtherOwners(s, a);
    OtherRecords(s, a);
    OtherReceipts(s, a);
  }

  lemma EnableKept(s: State, patches: Patches)
    requires Inv(s) && AtStartup(s, Enable(patches))
    ensures Inv(Apply(s, Enable(patches)))
  {
    assert s.received != [] ==> Spent(s, s.received[0]);
  }

  lemma Kept(s: State, a: Action)
    requires Inv(s) && Allowed(s, a) && AtStartup(s, a)
    ensures Inv(Apply(s, a))
  {
    hide Inv, Claims, Pins, Erases, Writes;
    match a
    case Enable(patches) => EnableKept(s, patches);
    case Go(id, pins) =>
      match s.calls[id].at {
        case Claim => ClaimKept(s, id);
        case Pin => PinKept(s, id, pins);
        case Erase => EraseKept(s, id);
        case Write => WriteKept(s, id);
      }
    case _ => OtherKept(s, a);
  }

  lemma {:induction false} Invariant(states: seq<State>, actions: seq<Action>, k: nat)
    requires Run(states, actions) && k < |states|
    ensures Inv(states[k])
  {
    if k > 0 {
      Invariant(states, actions, k - 1);
      assert Next(states[k - 1], actions[k - 1], states[k]);
      Kept(states[k - 1], actions[k - 1]);
    }
  }

  // ---- The promises ----------------------------------------------------------------------------

  // No image receives a patch twice.
  lemma EachPatchOnce(states: seq<State>, actions: seq<Action>, n: nat, j: nat, k: nat)
    requires Run(states, actions) && n < |states| && j < k < |states[n].received|
    ensures states[n].received[j].inst != states[n].received[k].inst ||
      states[n].received[j].patch != states[n].received[k].patch
  {
    Invariant(states, actions, n);
    var s := states[n];
    assert Spent(s, s.received[j]) && Spent(s, s.received[k]);
  }

  // A claimed patch is in the hands of one call, between its claim and its last write, or
  // of a pinned image; and what was written, was written to a pinned image.
  lemma ClaimsAreHeld(states: seq<State>, actions: seq<Action>, n: nat, plugin: Addr)
    requires Run(states, actions) && n < |states| && Recorded(states[n], plugin) != {}
    ensures Pinned(states[n], plugin) ||
            exists id :: id in states[n].calls && Owns(states[n].calls[id]) && states[n].calls[id].plugin == plugin
    ensures forall i, j ::
      (i in states[n].calls && j in states[n].calls && Owns(states[n].calls[i]) && Owns(states[n].calls[j]) &&
       states[n].calls[i].plugin == plugin && states[n].calls[j].plugin == plugin) ==> i == j
    ensures forall k :: 0 <= k < |states[n].received| && states[n].received[k].plugin == plugin ==>
      Pinned(states[n], plugin)
  {
    Invariant(states, actions, n);
    assert Held(states[n], plugin);
    assert forall k :: 0 <= k < |states[n].received| ==> Spent(states[n], states[n].received[k]);
  }

  // An erase takes back the eraser's own claim and nothing else, and the next call for the
  // address takes all that is enabled.
  lemma EraseTakesItsOwn(states: seq<State>, actions: seq<Action>, n: nat, id: Id)
    requires Run(states, actions) && n < |states| && id in states[n].calls && states[n].calls[id].at.Erase?
    ensures var s := states[n]; var t := Step(s, id, false);
            && Recorded(s, s.calls[id].plugin) == s.calls[id].left
            && (forall i :: i in s.calls && i != id && Owns(s.calls[i]) ==> s.calls[i].plugin != s.calls[id].plugin)
            && (forall a :: Recorded(t, a) == if a == s.calls[id].plugin then {} else Recorded(s, a))
            && Taken(t, s.calls[id].plugin) == s.enabled
            && (forall k :: 0 <= k < |s.received| && Pinned(s, s.calls[id].plugin) ==>
                s.received[k].inst != s.mapped[s.calls[id].plugin])
  {
    Invariant(states, actions, n);
    var s := states[n];
    ErasedClaim(s, id);
    assert forall k :: 0 <= k < |s.received| ==> Spent(s, s.received[k]);
  }

  // ---- Until the erase ------------------------------------------------------------------------------

  // A call that is about to claim takes all that is enabled or nothing; and for an image that is
  // not pinned it takes nothing exactly while another call has the address claimed, whichever
  // image that call was made for.
  lemma TurnedAway(states: seq<State>, actions: seq<Action>, n: nat, id: Id)
    requires Run(states, actions) && n < |states| && id in states[n].calls && states[n].calls[id].at.Claim?
    requires states[n].enabled != {}
    ensures var s := states[n]; var plugin := s.calls[id].plugin;
            && (Taken(s, plugin) == {} || Taken(s, plugin) == s.enabled)
            && (!Pinned(s, plugin) ==>
                  (Taken(s, plugin) == {} <==>
                   exists j :: j in s.calls && Owns(s.calls[j]) && s.calls[j].plugin == plugin))
  {
    Invariant(states, actions, n);
    var s := states[n];
    var plugin := s.calls[id].plugin;
    TakesAll(s, plugin);
    assert Recorded(s, plugin) == {} ==> Taken(s, plugin) == s.enabled;
    assert Recorded(s, plugin) != {} ==> Held(s, plugin);
  }

  // So between a claim and the erase after its failed pin, an image that has been mapped at the
  // address meanwhile is taken for the one that is gone: its call returns, and it stays as it is.
  function Mistaken(k: nat): State
    requires k <= 8
  {
    match k
    case 0 => State(map[0 := 0], {}, 1, FLIP, map[], map[], [])
    case 1 => State(map[0 := 0], {}, 1, FLIP, map[], map[1 := Call(0, Claim, {})], [])
    case 2 => State(map[0 := 0], {}, 1, FLIP, map[0 := FLIP], map[1 := Call(0, Pin, FLIP)], [])
    case 3 => State(map[], {}, 1, FLIP, map[0 := FLIP], map[1 := Call(0, Pin, FLIP)], [])
    case 4 => State(map[], {}, 1, FLIP, map[0 := FLIP], map[1 := Call(0, Erase, FLIP)], [])
    case 5 => State(map[0 := 1], {}, 2, FLIP, map[0 := FLIP], map[1 := Call(0, Erase, FLIP)], [])
    case 6 => State(map[0 := 1], {}, 2, FLIP, map[0 := FLIP], map[1 := Call(0, Erase, FLIP), 2 := Call(0, Claim, {})],
                    [])
    case 7 => State(map[0 := 1], {}, 2, FLIP, map[0 := FLIP], map[1 := Call(0, Erase, FLIP)], [])
    case _ => State(map[0 := 1], {}, 2, FLIP, map[], map[], [])
  }

  function MistakenAction(k: nat): Action
    requires k < 8
  {
    match k
    case 0 => Enter(1, 0)
    case 1 => Go(1, true)
    case 2 => Unmap(0)
    case 3 => Go(1, true)
    case 4 => Map(0)
    case 5 => Enter(2, 0)
    case 6 => Go(2, true)
    case _ => Go(1, true)
  }

  lemma MistakenStarts(k: nat)
    requires k < 4
    ensures Next(Mistaken(k), MistakenAction(k), Mistaken(k + 1))
  {
    match k
    case 0 => assert Next(Mistaken(0), MistakenAction(0), Mistaken(1));
    case 1 =>
      assert Taken(Mistaken(1), 0) == FLIP;
      assert Recorded(Mistaken(1), 0) + Taken(Mistaken(1), 0) == FLIP;
      assert Step(Mistaken(1), 1, true) == Mistaken(2);
    case 2 => assert Mistaken(2).mapped - {0} == map[];
    case _ => assert Next(Mistaken(3), MistakenAction(3), Mistaken(4));
  }

  lemma MistakenEnds(k: nat)
    requires 4 <= k < 8
    ensures Next(Mistaken(k), MistakenAction(k), Mistaken(k + 1))
  {
    match k
    case 4 => assert Next(Mistaken(4), MistakenAction(4), Mistaken(5));
    case 5 => assert Next(Mistaken(5), MistakenAction(5), Mistaken(6));
    case 6 =>
      assert Taken(Mistaken(6), 0) == {};
      assert Recorded(Mistaken(6), 0) + Taken(Mistaken(6), 0) == FLIP;
      assert Step(Mistaken(6), 2, true) == Mistaken(7);
    case _ => assert Step(Mistaken(7), 1, true) == Mistaken(8);
  }

  // A run that ends with that image mapped, no call under way, and nothing received.
  lemma MistakenForTheOneGone() returns (states: seq<State>, actions: seq<Action>)
    ensures Run(states, actions) && |states| == 9 && states[6].enabled == FLIP
    ensures states[6].mapped == map[0 := 1] && 2 in states[6].calls && states[6].calls[2] == Call(0, Claim, {}) &&
      Taken(states[6], 0) == {}
    ensures states[8].mapped == map[0 := 1] && states[8].calls == map[] && states[8].received == []
  {
    hide MistakenAction, Next;
    states := seq(9, k requires 0 <= k < 9 => Mistaken(k));
    actions := seq(8, k requires 0 <= k < 8 => MistakenAction(k));
    forall k | 0 <= k < 8
      ensures Next(states[k], actions[k], states[k + 1]) && AtStartup(states[k], actions[k])
    {
      if k < 4 { MistakenStarts(k); } else { MistakenEnds(k); }
      NoneEnables(k);
    }
  }

  lemma NoneEnables(k: nat)
    requires k < 8
    ensures !MistakenAction(k).Enable?
  {
  }

  // ---- Were it not settled beforehand ------------------------------------------------------------

  // One image, at address 0.
  function OneImage(pinned: set<Inst>, enabled: Patches, records: map<Addr, Patches>, calls: map<Id, Call>,
                    received: seq<Receipt>): State
  {
    State(map[0 := 0], pinned, 1, enabled, records, calls, received)
  }

  // Two calls claim the address, and between their claims the frame clamp is switched on. The
  // first call's pin fails and it erases the record, with the second call's claim, after the
  // second has pinned and patched the image. A third call finds nothing claimed.
  function Clash(k: nat): State
    requires k <= 14
  {
    var once := [Receipt(0, 0, FrameClamp)];
    match k
    case 0 => OneImage({}, FLIP, map[], map[], [])
    case 1 => OneImage({}, FLIP, map[], map[1 := Call(0, Claim, {})], [])
    case 2 => OneImage({}, FLIP, map[], map[1 := Call(0, Claim, {}), 2 := Call(0, Claim, {})], [])
    case 3 => OneImage({}, FLIP, map[0 := FLIP], map[1 := Call(0, Pin, FLIP), 2 := Call(0, Claim, {})], [])
    case 4 => OneImage({}, BOTH, map[0 := FLIP], map[1 := Call(0, Pin, FLIP), 2 := Call(0, Claim, {})], [])
    case 5 => OneImage({}, BOTH, map[0 := BOTH], map[1 := Call(0, Pin, FLIP), 2 := Call(0, Pin, CLAMP)], [])
    case 6 => OneImage({}, BOTH, map[0 := BOTH], map[1 := Call(0, Erase, FLIP), 2 := Call(0, Pin, CLAMP)], [])
    case 7 => OneImage({0}, BOTH, map[0 := BOTH], map[1 := Call(0, Erase, FLIP), 2 := Call(0, Write, CLAMP)], [])
    case 8 => OneImage({0}, BOTH, map[0 := BOTH], map[1 := Call(0, Erase, FLIP)], once)
    case 9 => OneImage({0}, BOTH, map[], map[], once)
    case 10 => OneImage({0}, BOTH, map[], map[3 := Call(0, Claim, {})], once)
    case 11 => OneImage({0}, BOTH, map[0 := BOTH], map[3 := Call(0, Pin, BOTH)], once)
    case 12 => OneImage({0}, BOTH, map[0 := BOTH], map[3 := Call(0, Write, BOTH)], once)
    case 13 => OneImage({0}, BOTH, map[0 := BOTH], map[3 := Call(0, Write, CLAMP)],
                        once + [Receipt(0, 0, FlipMetering)])
    case _ => OneImage({0}, BOTH, map[0 := BOTH], map[],
                       once + [Receipt(0, 0, FlipMetering), Receipt(0, 0, FrameClamp)])
  }

  function ClashAction(k: nat): Action
    requires k < 14
  {
    match k
    case 0 => Enter(1, 0)
    case 1 => Enter(2, 0)
    case 2 => Go(1, true)
    case 3 => Enable(BOTH)
    case 4 => Go(2, true)
    case 5 => Go(1, false)
    case 6 => Go(2, true)
    case 7 => Go(2, true)
    case 8 => Go(1, true)
    case 9 => Enter(3, 0)
    case 10 => Go(3, true)
    case 11 => Go(3, true)
    case 12 => Go(3, true)
    case _ => Go(3, true)
  }

  lemma ClashClaims(k: nat)
    requires 0 <= k < 4
    ensures Next(Clash(k), ClashAction(k), Clash(k + 1))
  {
    match k
    case 0 => assert Next(Clash(0), ClashAction(0), Clash(1));
    case 1 => assert Next(Clash(1), ClashAction(1), Clash(2));
    case 2 =>
      assert Taken(Clash(2), 0) == FLIP;
      assert Recorded(Clash(2), 0) + Taken(Clash(2), 0) == FLIP;
      assert Step(Clash(2), 1, true) == Clash(3);
    case _ => assert Next(Clash(3), ClashAction(3), Clash(4));
  }

  lemma ClashOverlaps(k: nat)
    requires 4 <= k < 6
    ensures Next(Clash(k), ClashAction(k), Clash(k + 1))
  {
    match k
    case 4 =>
      assert Taken(Clash(4), 0) == CLAMP;
      assert Recorded(Clash(4), 0) + Taken(Clash(4), 0) == BOTH;
      assert Step(Clash(4), 2, true) == Clash(5);
    case _ => assert Next(Clash(5), ClashAction(5), Clash(6));
  }

  lemma ClashPatches(k: nat)
    requires 6 <= k < 8
    ensures Next(Clash(k), ClashAction(k), Clash(k + 1))
  {
    match k
    case 6 => assert Next(Clash(6), ClashAction(6), Clash(7));
    case _ => assert Next(Clash(7), ClashAction(7), Clash(8));
  }

  lemma ClashErases(k: nat)
    requires 8 <= k < 10
    ensures Next(Clash(k), ClashAction(k), Clash(k + 1))
  {
    match k
    case 8 => assert Next(Clash(8), ClashAction(8), Clash(9));
    case _ => assert Next(Clash(9), ClashAction(9), Clash(10));
  }

  lemma ClashReclaims(k: nat)
    requires 10 <= k < 12
    ensures Next(Clash(k), ClashAction(k), Clash(k + 1))
  {
    match k
    case 10 =>
      assert Taken(Clash(10), 0) == BOTH;
      assert Recorded(Clash(10), 0) + Taken(Clash(10), 0) == BOTH;
      assert Step(Clash(10), 3, true) == Clash(11);
    case _ => assert Next(Clash(11), ClashAction(11), Clash(12));
  }

  lemma ClashRepeats(k: nat)
    requires 12 <= k < 14
    ensures Next(Clash(k), ClashAction(k), Clash(k + 1))
  {
    match k
    case 12 =>
      assert BOTH - FLIP == CLAMP;
      assert Step(Clash(12), 3, true) == Clash(13);
    case _ => assert Next(Clash(13), ClashAction(13), Clash(14));
  }

  // So that run, which settles nothing beforehand, patches an image with the frame clamp twice.
  lemma SettledBeforehand() returns (states: seq<State>, actions: seq<Action>)
    ensures AnyRun(states, actions) && !Run(states, actions)
    ensures states[|actions|].received == [Receipt(0, 0, FrameClamp), Receipt(0, 0, FlipMetering),
                                           Receipt(0, 0, FrameClamp)]
  {
    hide ClashAction, Next;
    states := seq(15, k requires 0 <= k < 15 => Clash(k));
    actions := seq(14, k requires 0 <= k < 14 => ClashAction(k));
    forall k | 0 <= k < 14
      ensures Next(states[k], actions[k], states[k + 1])
    {
      if k < 4 { ClashClaims(k); } else if k < 6 { ClashOverlaps(k); } else if k < 8 { ClashPatches(k); }
      else if k < 10 { ClashErases(k); } else if k < 12 { ClashReclaims(k); } else { ClashRepeats(k); }
    }
    LateEnable();
    assert actions[3] == ClashAction(3) && states[3] == Clash(3);
  }

  lemma LateEnable()
    ensures !AtStartup(Clash(3), ClashAction(3))
  {
    assert 0 in Clash(3).records;
  }

  // ---- The list as the code keeps it -----------------------------------------------------------

  datatype PatchedPlugin = PatchedPlugin(plugin: Addr, flipMetering: bool, frameClamp: bool)

  function PatchesIn(entry: PatchedPlugin): Patches
  {
    (if entry.flipMetering then {FlipMetering} else {}) + (if entry.frameClamp then {FrameClamp} else {})
  }

  // What the first entry of `plugin` claims.
  function Listed(entries: seq<PatchedPlugin>, plugin: Addr): Patches
  {
    if entries == [] then {}
    else if entries[0].plugin == plugin then PatchesIn(entries[0])
    else Listed(entries[1..], plugin)
  }

  // g_patched: each method is one critical section of its lock, and does to the list what
  // the steps above do to the records.
  class PatchedList {
    var entries: seq<PatchedPlugin>

    constructor ()
      ensures entries == []
    {
      entries := [];
    }

    // Takes what is enabled and not claimed already.
    method Claim(plugin: Addr, enabled: Patches) returns (taken: Patches)
      modifies this
      ensures taken == enabled - Listed(old(entries), plugin)
      ensures forall a :: Listed(entries, a) == Listed(old(entries), a) + (if a == plugin then taken else {})
    {
      var at := 0;
      while at < |entries| && entries[at].plugin != plugin
        invariant at <= |entries|
        invariant forall j :: 0 <= j < at ==> entries[j].plugin != plugin
      {
        at := at + 1;
      }
      ListedAt(entries, plugin, at);
      if at == |entries| {
        ghost var before := entries;
        entries := entries + [PatchedPlugin(plugin, false, false)];
        forall a
          ensures Listed(entries, a) == Listed(before, a)
        {
          ListedAppend(before, PatchedPlugin(plugin, false, false), a);
        }
      }
      ghost var before := entries;
      var flip := FlipMetering in enabled && !entries[at].flipMetering;
      var clamp := FrameClamp in enabled && !entries[at].frameClamp;
      entries := entries[at := PatchedPlugin(plugin, entries[at].flipMetering || flip,
                                             entries[at].frameClamp || clamp)];
      taken := (if flip then {FlipMetering} else {}) + (if clamp then {FrameClamp} else {});
      forall a
        ensures Listed(entries, a) == if a == plugin then PatchesIn(entries[at]) else Listed(before, a)
      {
        ListedUpdate(before, at, entries[at], a);
      }
      ListedAt(before, plugin, at);
      assert forall p :: p in enabled ==> p == FlipMetering || p == FrameClamp;
    }

    // Drops every entry of `plugin`.
    method Erase(plugin: Addr)
      modifies this
      ensures forall a :: Listed(entries, a) == if a == plugin then {} else Listed(old(entries), a)
    {
      var kept: seq<PatchedPlugin> := [];
      for k := 0 to |entries|
        invariant forall e :: e in kept ==> e.plugin != plugin
        invariant forall a :: a != plugin ==>
          Listed(kept, a) == Listed(entries[..k], a) && (Has(kept, a) <==> Has(entries[..k], a))
      {
        assert entries[..k + 1] == entries[..k] + [entries[k]];
        forall a | a != plugin
          ensures Listed(kept + [entries[k]], a) == Listed(entries[..k + 1], a)
          ensures entries[k].plugin == plugin ==> Listed(entries[..k + 1], a) == Listed(entries[..k], a)
          ensures Has(kept + [entries[k]], a) <==> Has(entries[..k + 1], a)
          ensures entries[k].plugin == plugin ==> (Has(entries[..k + 1], a) <==> Has(entries[..k], a))
        {
          HasAppend(kept, entries[k], a);
          HasAppend(entries[..k], entries[k], a);
          ListedAppend(kept, entries[k], a);
          ListedAppend(entries[..k], entries[k], a);
        }
        if entries[k].plugin != plugin {
          kept := kept + [entries[k]];
        }
      }
      assert entries[..|entries|] == entries;
      NotListed(kept, plugin);
      entries := kept;
    }
  }

  lemma {:induction false} NotListed(entries: seq<PatchedPlugin>, plugin: Addr)
    requires forall e :: e in entries ==> e.plugin != plugin
    ensures Listed(entries, plugin) == {}
  {
    if entries != [] {
      NotListed(entries[1..], plugin);
    }
  }

  predicate Has(entries: seq<PatchedPlugin>, plugin: Addr)
  {
    exists e :: e in entries && e.plugin == plugin
  }

  lemma HasAppend(entries: seq<PatchedPlugin>, entry: PatchedPlugin, plugin: Addr)
    ensures Has(entries + [entry], plugin) <==> Has(entries, plugin) || entry.plugin == plugin
  {
  }

  lemma {:induction false} ListedAppend(entries: seq<PatchedPlugin>, entry: PatchedPlugin, plugin: Addr)
    ensures Listed(entries + [entry], plugin) ==
            if Has(entries, plugin) then Listed(entries, plugin) else if entry.plugin == plugin then PatchesIn(entry)
              else {}
    ensures !Has(entries, plugin) ==> Listed(entries, plugin) == {}
  {
    if entries != [] {
      assert (entries + [entry])[1..] == entries[1..] + [entry];
      ListedAppend(entries[1..], entry, plugin);
      assert Has(entries, plugin) <==> entries[0].plugin == plugin || Has(entries[1..], plugin) by {
        assert entries == [entries[0]] + entries[1..];
      }
    }
  }

  lemma {:induction false} ListedAt(entries: seq<PatchedPlugin>, plugin: Addr, at: nat)
    requires at <= |entries| && (at < |entries| ==> entries[at].plugin == plugin)
    requires forall j :: 0 <= j < at ==> entries[j].plugin != plugin
    ensures Listed(entries, plugin) == if at < |entries| then PatchesIn(entries[at]) else {}
  {
    if at > 0 {
      assert forall j :: 0 <= j < at - 1 ==> entries[1..][j] == entries[j + 1];
      ListedAt(entries[1..], plugin, at - 1);
    }
  }

  // Rewriting the first entry of its plugin changes what is listed for that plugin only.
  lemma {:induction false} ListedUpdate(entries: seq<PatchedPlugin>, at: nat, entry: PatchedPlugin, plugin: Addr)
    requires at < |entries| && entry.plugin == entries[at].plugin
    requires forall j :: 0 <= j < at ==> entries[j].plugin != entry.plugin
    ensures Listed(entries[at := entry], plugin) == if plugin == entry.plugin then PatchesIn(entry)
      else Listed(entries, plugin)
  {
    if at > 0 {
      assert entries[at := entry][1..] == entries[1..][at - 1 := entry];
      assert forall j :: 0 <= j < at - 1 ==> entries[1..][j] == entries[j + 1];
      ListedUpdate(entries[1..], at - 1, entry, plugin);
    } else {
      assert entries[at := entry][1..] == entries[1..];
    }
  }

  // ---- What a call gets done ----------------------------------------------------------------------

  function Rank(call: Call): nat
  {
    match call.at
    case Claim => 5
    case Pin => 4
    case Erase => 1
    case Write => if call.left == {FlipMetering, FrameClamp} then 3 else if call.left == {} then 1 else 2
  }

  // Every step brings a call nearer to its return.
  lemma CallGoesDown(s: State, id: Id, pins: bool)
    requires id in s.calls
    ensures id in Step(s, id, pins).calls ==> Rank(Step(s, id, pins).calls[id]) < Rank(s.calls[id])
  {
    var call := s.calls[id];
    FewPatches(call.left);
    if call.at.Write? {
      var rest := call.left - {First(call.left)};
      assert FlipMetering in call.left ==> FlipMetering !in rest;
      assert rest == {FlipMetering, FrameClamp} ==> FlipMetering in rest && FrameClamp in rest;
    }
  }

  lemma FewPatches(left: Patches)
    ensures left == {} || left == {FlipMetering} || left == {FrameClamp} || left == {FlipMetering, FrameClamp}
  {
    forall p | p in left ensures p == FlipMetering || p == FrameClamp {
    }
    if FlipMetering in left && FrameClamp in left {
      assert left == {FlipMetering, FrameClamp};
    } else if FlipMetering in left {
      assert left == {FlipMetering};
    } else if FrameClamp in left {
      assert left == {FrameClamp};
    }
  }

  predicate Got(s: State, plugin: Addr, patch: Patch)
  {
    plugin in s.mapped && Receipt(plugin, s.mapped[plugin], patch) in s.received
  }

  // What a call took it still has left to write, or the image has received.
  predicate GettingDone(s: State, id: Id, plugin: Addr, taken: Patches)
  {
    plugin in s.mapped &&
    if id in s.calls then
      s.calls[id].plugin == plugin && s.calls[id].left <= taken &&
      ((s.calls[id].at.Pin? && s.calls[id].left == taken) ||
       (s.calls[id].at.Write? && forall p :: p in taken && p !in s.calls[id].left ==> Got(s, plugin, p)))
    else forall p :: p in taken ==> Got(s, plugin, p)
  }

  lemma WriteGetsDone(s: State, id: Id, plugin: Addr, taken: Patches)
    requires GettingDone(s, id, plugin, taken) && id in s.calls && s.calls[id].at.Write? && s.calls[id].left != {}
    ensures GettingDone(Writes(s, id, s.calls[id]), id, plugin, taken)
  {
    var call, t := s.calls[id], Writes(s, id, s.calls[id]);
    var patch := First(call.left);
    FirstLeft(call.left);
    assert t.received[|s.received|] == Receipt(plugin, s.mapped[plugin], patch);
    assert Got(t, plugin, patch);
    forall p | Got(s, plugin, p)
      ensures Got(t, plugin, p)
    {
    }
    var rest := call.left - {patch};
    assert forall p :: p in call.left ==> p == patch || p in rest;
  }

  lemma StepGetsDone(s: State, a: Action, id: Id, plugin: Addr, taken: Patches)
    requires Inv(s) && Allowed(s, a) && AtStartup(s, a) && GettingDone(s, id, plugin, taken) && id in s.calls
    requires plugin in Apply(s, a).mapped && (a.Go? && a.id == id ==> a.pins)
    ensures GettingDone(Apply(s, a), id, plugin, taken)
  {
    if a.Go? && a.id == id && s.calls[id].at.Write? {
      WriteGetsDone(s, id, plugin, taken);
    } else if a.Go? && a.id != id {
      OtherStep(s, a.id, a.pins);
    }
    hide Held, Records, Receipts, Memory;
  }

  lemma OtherStep(s: State, id: Id, pins: bool)
    requires id in s.calls
    ensures var t := Step(s, id, pins);
            t.mapped == s.mapped && s.received <= t.received && forall i :: i in s.calls && i != id ==>
              i in t.calls && t.calls[i] == s.calls[i]
  {
  }

  // The image stays mapped.
  ghost predicate Stays(states: seq<State>, plugin: Addr, j: nat, k: nat)
    requires k < |states|
  {
    forall i :: j <= i <= k ==> plugin in states[i].mapped
  }

  // The call goes on, and its pin succeeds.
  ghost predicate Pinning(states: seq<State>, actions: seq<Action>, id: Id, j: nat, k: nat)
    requires k <= |actions| < |states|
  {
    forall i :: j <= i < k ==> id in states[i].calls && (actions[i].Go? && actions[i].id == id ==> actions[i].pins)
  }

  lemma {:induction false} KeepsGettingDone(states: seq<State>, actions: seq<Action>, j: nat, k: nat, id: Id,
                                            plugin: Addr, taken: Patches)
    requires Run(states, actions) && j <= k < |states| && GettingDone(states[j], id, plugin, taken)
    requires Stays(states, plugin, j, k) && Pinning(states, actions, id, j, k)
    ensures GettingDone(states[k], id, plugin, taken)
    decreases k - j
  {
    hide Inv, GettingDone, Allowed;
    if j < k {
      Invariant(states, actions, j);
      assert Next(states[j], actions[j], states[j + 1]);
      StepGetsDone(states[j], actions[j], id, plugin, taken);
      KeepsGettingDone(states, actions, j + 1, k, id, plugin, taken);
    }
  }

  // A call claims what it takes. If the image stays mapped and can be pinned, it has received all
  // of that by the time the call returns.
  lemma TakenIsReceived(states: seq<State>, actions: seq<Action>, j: nat, k: nat, id: Id, patch: Patch)
    requires Run(states, actions) && j < k < |states| && id in states[j].calls && states[j].calls[id].at.Claim?
    requires actions[j] == Go(id, true) && patch in Taken(states[j], states[j].calls[id].plugin)
    requires Stays(states, states[j].calls[id].plugin, j, k) && Pinning(states, actions, id, j + 1, k)
    requires id !in states[k].calls
    ensures Got(states[k], states[j].calls[id].plugin, patch)
  {
    var plugin := states[j].calls[id].plugin;
    assert Next(states[j], actions[j], states[j + 1]);
    ClaimsToDo(states[j], id, plugin);
    KeepsGettingDone(states, actions, j + 1, k, id, plugin, Taken(states[j], plugin));
  }

  lemma ClaimsToDo(s: State, id: Id, plugin: Addr)
    requires id in s.calls && s.calls[id].at.Claim? && s.calls[id].plugin == plugin && Taken(s, plugin) != {}
    requires plugin in s.mapped
    ensures GettingDone(Claims(s, id, plugin), id, plugin, Taken(s, plugin))
  {
  }
}
