/** The load/scan protocol of src/app/loader.cpp:94-156, 196-250 and 320-381.

    Any number of threads run hooked loads, nested ones included, while one worker
    rescans. They share the runtime list and its mutex, the OS loader lock, the
    counter of component loads under way, and the process's memory map, in which an
    address can be unmapped and mapped again until the module at it is pinned.

    An Inst is one mapping of an image: addresses are reused, instances are not. */
module Loader {
  import opened Bytes

  type Addr = nat
  type Inst = nat
  type Tid = nat
  type Id = nat // one activation: a hooked load, or the worker's loop

  datatype Architecture = Unknown | Supported | NotNeeded

  datatype Runtime = Runtime(handle: Addr, gatesClaimed: bool)

  datatype GateClaim = GateClaim(handle: Addr, at: Option<Inst>, claimer: Id, worker: bool)

  // What the loaded file's name says it is.
  datatype Kind = RuntimeLoad | PluginLoad | OtherLoad

  // images: the instances this load mapped first, its own and those it imported.
  // settled: the module whose gates it has asked for.
  datatype Job =
    | Load(kind: Kind, images: set<Inst>, settled: Option<Addr>)
    | Worker(listed: seq<Addr>, loading: bool)

  datatype Stage =
    | Idle                   // worker, waiting
    | Enter                  // load, before its fetch_add
    | Map(again: bool)       // load, about to call the loader; again: a redirect that can fail comes first
    | InLoader(again: bool)  // load, inside the loader: images are mapped and DllMain runs
    | Prepare(handle: Addr)
    | Check(handle: Addr) | Checking(handle: Addr)
    | Pin(handle: Addr) | Pinning(handle: Addr)
    | Push(handle: Addr) | Pushing(handle: Addr)
    | Ask(handle: Addr) | Asking(handle: Addr)
    | List | Listing
    | Count
    | Visit
    | Gate(handle: Addr)
    | Claim(handle: Addr) | Claiming(handle: Addr)
    | Write(handle: Addr)
    | Leave                  // load, before its fetch_sub

  datatype Frame = Frame(thread: Tid, job: Job, at: Stage)

  datatype State = State(
    mapped: map<Addr, Inst>,
    pinned: set<Inst>,
    nextInst: Inst,
    runtimes: seq<Runtime>,
    loads: int,
    mutex: Option<Id>,
    lock: set<Id>, // the activations inside the (recursive) loader lock
    architecture: Architecture,
    frames: map<Id, Frame>,
    stacks: map<Tid, seq<Id>>, // each thread's activations, the running one last
    nextId: Id,
    claims: seq<GateClaim>,
    written: set<Inst>)

  // answer: what a call into code that is not modelled says, such as whether the module is
  // a runtime or the pin succeeds. listing: what the worker's enumeration finds.
  datatype Action =
    | Begin(thread: Tid, kind: Kind)                  // a load is called, from inside another or not
    | Go(frame: Id, answer: bool, listing: seq<Addr>) // an activation makes its next step
    | MapInside(frame: Id, address: Addr)             // a load maps an image, its own or an import
    | Return(frame: Id, result: Option<Addr>)         // the loader returns a module, or fails
    | MapElsewhere(address: Addr)                     // an image is mapped in some other way
    | Unmap(address: Addr)
    | Identify(architecture: Architecture)            // NVAPI has said what the GPU is

  const WORKER: Id := 0

  // ---- The runtime list ----

  predicate Known(runtimes: seq<Runtime>, handle: Addr)
  {
    exists k :: 0 <= k < |runtimes| && runtimes[k].handle == handle
  }

  predicate Claimed(runtimes: seq<Runtime>, handle: Addr)
  {
    exists k :: 0 <= k < |runtimes| && runtimes[k] == Runtime(handle, true)
  }

  predicate Distinct(runtimes: seq<Runtime>)
  {
    forall j, k :: 0 <= j < k < |runtimes| ==> runtimes[j].handle != runtimes[k].handle
  }

  function Modules(runtimes: seq<Runtime>): (modules: seq<Addr>)
    ensures |modules| == |runtimes|
    ensures forall k :: 0 <= k < |runtimes| ==> modules[k] == runtimes[k].handle
  {
    seq(|runtimes|, k requires 0 <= k < |runtimes| => runtimes[k].handle)
  }

  // The index of the first record of `handle`, or the length.
  function Position(runtimes: seq<Runtime>, handle: Addr): (k: nat)
    ensures k <= |runtimes|
    ensures k < |runtimes| ==> runtimes[k].handle == handle
    ensures forall j :: 0 <= j < k ==> runtimes[j].handle != handle
  {
    if runtimes == [] || runtimes[0].handle == handle then 0 else 1 + Position(runtimes[1..], handle)
  }

  // The list with that record claimed.
  function WithClaim(runtimes: seq<Runtime>, handle: Addr): (r: seq<Runtime>)
    ensures |r| == |runtimes|
    ensures forall k :: 0 <= k < |r| ==> r[k].handle == runtimes[k].handle
    ensures forall m :: Known(r, m) <==> Known(runtimes, m)
    ensures forall m :: Claimed(r, m) <==> Claimed(runtimes, m) || (m == handle && Known(runtimes, m))
  {
    var k := Position(runtimes, handle);
    if k == |runtimes| then runtimes
    else
      var r := runtimes[k := Runtime(handle, true)];
      assert forall m :: Known(runtimes, m) ==> Known(r, m) by {
        assert forall j :: 0 <= j < |r| ==> r[j].handle == runtimes[j].handle;
      }
      assert r[k] == Runtime(handle, true);
      assert forall j :: 0 <= j < |r| && j != k ==> r[j] == runtimes[j];
      r
  }

  // ---- What each stage waits for ----

  predicate WantsMutex(at: Stage)
  {
    at.Check? || at.Push? || at.Ask? || at.List? || at.Claim?
  }

  predicate HoldsMutex(at: Stage)
  {
    at.Checking? || at.Pushing? || at.Asking? || at.Listing? || at.Claiming?
  }

  predicate WantsLoader(at: Stage)
  {
    at.Map? || at.Pin?
  }

  predicate HoldsLoader(at: Stage)
  {
    at.InLoader? || at.Pinning?
  }

  // Where an activation can be interrupted by a load of its own thread.
  predicate CanNest(at: Stage)
  {
    at.InLoader? || at.Idle?
  }

  // Between its fetch_add and its fetch_sub.
  predicate Counted(frame: Frame)
  {
    frame.job.Load? && !frame.job.kind.OtherLoad? && !frame.at.Enter?
  }

  function InFlight(s: State): set<Id>
  {
    set f | f in s.frames && Counted(s.frames[f])
  }

  // ---- Steps ----

  // f is not kept out of a lock it waits for. The loader lock is recursive.
  predicate Free(s: State, f: Id)
    requires f in s.frames
  {
    (WantsMutex(s.frames[f].at) ==> s.mutex.None?) &&
    (WantsLoader(s.frames[f].at) ==>
      forall g :: g in s.lock ==> g in s.frames && s.frames[g].thread == s.frames[f].thread)
  }

  predicate Running(s: State, f: Id)
  {
    f in s.frames && Stack(s, s.frames[f].thread) != [] && Top(Stack(s, s.frames[f].thread)) == f
  }

  function Stack(s: State, thread: Tid): seq<Id>
  {
    if thread in s.stacks then s.stacks[thread] else []
  }

  function Top(stack: seq<Id>): Id
    requires stack != []
  {
    stack[|stack| - 1]
  }

  predicate Allowed(s: State, a: Action)
  {
    match a
    case Begin(thread, kind) =>
      Stack(s, thread) != [] ==> Top(Stack(s, thread)) in s.frames && CanNest(s.frames[Top(Stack(s, thread))].at)
    case Go(f, answer, listing) =>
      Running(s, f) && !s.frames[f].at.InLoader? && Free(s, f) &&
      (s.frames[f].at.Idle? ==> forall k :: 0 <= k < |listing| ==> listing[k] in s.mapped)
    case MapInside(f, address) => Running(s, f) && s.frames[f].at.InLoader? && address !in s.mapped
    case Return(f, result) =>
      Running(s, f) && s.frames[f].at.InLoader? && (result.Some? ==> result.value in s.mapped)
    case MapElsewhere(address) => address !in s.mapped
    case Unmap(address) => address in s.mapped && s.mapped[address] !in s.pinned
    case Identify(architecture) => true
  }

  function Enters(s: State, f: Id, frame: Frame): State
  {
    s.(frames := s.frames[f := frame])
  }

  // f goes on as `frame`. It takes and gives back the locks its stages say.
  function GoesOn(s: State, f: Id, frame: Frame): State
    requires f in s.frames
  {
    var p, q := s.frames[f].at, frame.at;
    Enters(s, f, frame).(
      mutex := if HoldsMutex(q) then Some(f) else if HoldsMutex(p) then None else s.mutex,
      lock := if HoldsLoader(q) then s.lock + {f} else s.lock - {f})
  }

  // The next module the worker listed, then the record list.
  function NextListed(frame: Frame): Frame
    requires frame.job.Worker?
  {
    if frame.job.listed == [] then frame.(at := List)
    else frame.(job := frame.job.(listed := frame.job.listed[1..]), at := Check(frame.job.listed[0]))
  }

  function AfterRecord(frame: Frame, handle: Addr): Frame
  {
    if frame.job.Worker? then NextListed(frame) else frame.(at := Ask(handle))
  }

  function AfterGates(frame: Frame): Frame
  {
    frame.(at := if frame.job.Worker? then Visit else Leave)
  }

  predicate Recording(at: Stage)
  {
    at.Check? || at.Checking? || at.Pin? || at.Pinning? || at.Push? || at.Pushing?
  }

  predicate Unlocking(at: Stage)
  {
    at.Gate? || at.Claim? || at.Claiming? || at.Write?
  }

  // RecordRuntime: check, pin outside the mutex, check again.
  function RecordFlow(s: State, frame: Frame, pins: bool): Frame
    requires Recording(frame.at)
  {
    var h := frame.at.handle;
    if frame.at.Check? then frame.(at := Checking(h))
    else if frame.at.Checking? && !Known(s.runtimes, h) then frame.(at := Pin(h))
    else if frame.at.Pin? then frame.(at := Pinning(h))
    else if frame.at.Pinning? && pins && h in s.mapped then frame.(at := Push(h))
    else if frame.at.Push? then frame.(at := Pushing(h))
    else AfterRecord(frame, h)
  }

  // ClaimGates takes the gates.
  predicate Takes(s: State, handle: Addr)
  {
    Known(s.runtimes, handle) && !Claimed(s.runtimes, handle)
  }

  // MaybeUnlockMultiFrame: the architecture, the claim, then the write.
  function GateFlow(s: State, frame: Frame): Frame
    requires Unlocking(frame.at)
  {
    var h := frame.at.handle;
    if frame.at.Gate? && s.architecture.Supported? then frame.(at := Claim(h))
    else if frame.at.Claim? then frame.(at := Claiming(h))
    else if frame.at.Claiming? && Takes(s, h) then frame.(job := Asked(frame.job, h), at := Write(h))
    else if frame.at.Claiming? then AfterGates(frame.(job := Asked(frame.job, h)))
    else AfterGates(frame)
  }

  function Asked(job: Job, handle: Addr): Job
  {
    if job.Load? then job.(settled := Some(handle)) else job
  }

  // A hooked load, outside the calls above and the loader's own.
  function LoadFlow(s: State, frame: Frame, answer: bool): Frame
    requires frame.job.Load?
  {
    match frame.at
    case Enter => frame.(at := Map(answer && frame.job.kind.RuntimeLoad?))
    case Map(again) => frame.(at := InLoader(again))
    case Prepare(h) => frame.(at := if answer then Check(h) else Leave)
    case Ask(h) => frame.(at := Asking(h))
    case Asking(h) => frame.(at := if Known(s.runtimes, h) then Gate(h) else Leave)
    case _ => frame
  }

  // The worker's scan, outside the calls above.
  function ScanFlow(s: State, frame: Frame, answer: bool, listing: seq<Addr>): Frame
    requires frame.job.Worker?
  {
    match frame.at
    case Idle => NextListed(frame.(job := frame.job.(listed := listing)))
    case List => frame.(at := Listing)
    case Listing => frame.(job := frame.job.(listed := Modules(s.runtimes)), at := Count)
    case Count => frame.(job := frame.job.(loading := s.loads > 0), at := Visit)
    case Visit =>
      if frame.job.listed == [] then frame.(at := Idle)
      else
        frame.(
          job := frame.job.(listed := frame.job.listed[1..]),
          at := if answer && !frame.job.loading then Gate(frame.job.listed[0]) else Visit)
    case _ => frame
  }

  function Flow(s: State, frame: Frame, answer: bool, listing: seq<Addr>): Frame
  {
    if Recording(frame.at) then RecordFlow(s, frame, answer)
    else if Unlocking(frame.at) then GateFlow(s, frame)
    else if frame.job.Load? then LoadFlow(s, frame, answer)
    else ScanFlow(s, frame, answer, listing)
  }

  // What f's stage does to the data it shares.
  function Effect(s: State, f: Id, answer: bool): State
    requires f in s.frames
  {
    var frame := s.frames[f];
    match frame.at
    case Enter => if frame.job.Load? && frame.job.kind.OtherLoad? then s else s.(loads := s.loads + 1)
    case Pinning(h) => if answer && h in s.mapped then s.(pinned := s.pinned + {s.mapped[h]}) else s
    case Pushing(h) => if Known(s.runtimes, h) then s else s.(runtimes := s.runtimes + [Runtime(h, false)])
    case Claiming(h) =>
      if !Takes(s, h) then s
      else
        s.(runtimes := WithClaim(s.runtimes, h),
           claims := s.claims + [GateClaim(h, InstAt(s, h), f, frame.job.Worker?)])
    case Write(h) => if h in s.mapped then s.(written := s.written + {s.mapped[h]}) else s
    case _ => s
  }

  function InstAt(s: State, handle: Addr): Option<Inst>
  {
    if handle in s.mapped then Some(s.mapped[handle]) else None
  }

  function Step(s: State, f: Id, answer: bool, listing: seq<Addr>): State
    requires f in s.frames
  {
    GoesOn(Effect(s, f, answer), f, Flow(s, s.frames[f], answer, listing))
  }

  // The load's fetch_sub and its return, to the load it is nested in if there is one.
  function Left(s: State, f: Id): State
    requires f in s.frames
  {
    var stack := Stack(s, s.frames[f].thread);
    s.(frames := s.frames - {f},
       stacks := s.stacks[s.frames[f].thread := if stack == [] then [] else stack[..|stack| - 1]],
       loads := if Counted(s.frames[f]) then s.loads - 1 else s.loads)
  }

  function Began(s: State, thread: Tid, kind: Kind): State
  {
    s.(frames := s.frames[s.nextId := Frame(thread, Load(kind, {}, None), Enter)],
       stacks := s.stacks[thread := Stack(s, thread) + [s.nextId]],
       nextId := s.nextId + 1)
  }

  // An image appears at an address, as an instance no one has seen.
  function MappedAt(s: State, address: Addr): State
  {
    s.(mapped := s.mapped[address := s.nextInst], nextInst := s.nextInst + 1)
  }

  function MappedInside(s: State, f: Id, address: Addr): State
    requires f in s.frames
  {
    var frame := s.frames[f];
    var job := if frame.job.Load? then frame.job.(images := frame.job.images + {s.nextInst}) else frame.job;
    GoesOn(MappedAt(s, address), f, frame.(job := job))
  }

  // The loader returns. A redirect that gave nothing is followed by the real load.
  function Returned(s: State, f: Id, result: Option<Addr>): State
    requires f in s.frames
  {
    var frame := s.frames[f];
    var at :=
      if result.None? then (if frame.at.InLoader? && frame.at.again then Map(false) else Leave)
      else if frame.job.Load? && frame.job.kind.RuntimeLoad? then Prepare(result.value)
      else Leave;
    GoesOn(s, f, frame.(at := at))
  }

  function Apply(s: State, a: Action): State
    requires Allowed(s, a)
  {
    match a
    case Begin(thread, kind) => Began(s, thread, kind)
    case Go(f, answer, listing) =>
      if s.frames[f].at.Leave? then Left(s, f) else Step(s, f, answer, listing)
    case MapInside(f, address) => MappedInside(s, f, address)
    case Return(f, result) => Returned(s, f, result)
    case MapElsewhere(address) => MappedAt(s, address)
    case Unmap(address) => s.(mapped := s.mapped - {address})
    case Identify(architecture) => s.(architecture := architecture)
  }

  // The engine has started on a process with some modules mapped already.
  function Start(mapped: map<Addr, Inst>, nextInst: Inst, thread: Tid): State
  {
    State(mapped, {}, nextInst, [], 0, None, {}, Unknown,
          map[WORKER := Frame(thread, Worker([], false), Idle)], map[thread := [WORKER]], WORKER + 1, [], {})
  }

  ghost predicate Initial(s: State)
  {
    exists mapped: map<Addr, Inst>, nextInst: Inst, thread: Tid ::
      s == Start(mapped, nextInst, thread) &&
      (forall a :: a in mapped ==> mapped[a] < nextInst) &&
      (forall a, b :: a in mapped && b in mapped && mapped[a] == mapped[b] ==> a == b)
  }

  ghost predicate Next(s: State, a: Action, t: State)
  {
    Allowed(s, a) && t == Apply(s, a)
  }

  // A run: an initial state and one action after another, by any thread in any order.
  ghost predicate Run(states: seq<State>, actions: seq<Action>)
  {
    |states| == |actions| + 1 && Initial(states[0]) &&
    forall k :: 0 <= k < |actions| ==> Next(states[k], actions[k], states[k + 1])
  }

  // ---- What one step of one activation changes ----

  // A load goes through a load's stages and the worker through a scan's.
  predicate Fits(frame: Frame)
  {
    if frame.job.Load?
    then !(frame.at.Idle? || frame.at.List? || frame.at.Listing? || frame.at.Count? || frame.at.Visit?)
    else !(frame.at.Enter? || frame.at.Map? || frame.at.InLoader? || frame.at.Prepare? || frame.at.Ask? ||
           frame.at.Asking? || frame.at.Leave?)
  }

  // p can go on: it is not inside the loader and not at its end.
  predicate GoesOnFrom(p: Frame)
  {
    Fits(p) && !p.at.InLoader? && !p.at.Leave?
  }

  function Weight(frame: Frame): int
  {
    if Counted(frame) then 1 else 0
  }

  // A lock is entered from the stage that waits for it, and the job stays what it is.
  predicate SameJob(p: Frame, q: Frame)
  {
    Fits(q) && !q.at.Enter? && q.thread == p.thread && (q.job.Load? <==> p.job.Load?) &&
    (q.job.Load? ==> q.job.images == p.job.images && q.job.kind == p.job.kind)
  }

  lemma FlowJob(s: State, p: Frame, answer: bool, listing: seq<Addr>)
    requires GoesOnFrom(p)
    ensures SameJob(p, Flow(s, p, answer, listing))
    ensures HoldsMutex(Flow(s, p, answer, listing).at) ==> WantsMutex(p.at)
    ensures HoldsLoader(Flow(s, p, answer, listing).at) ==> WantsLoader(p.at)
    ensures Weight(Flow(s, p, answer, listing)) - Weight(p) ==
            (if p.at.Enter? && !p.job.kind.OtherLoad? then 1 else 0)
  {
  }

  // A record is pushed only of a module that has just been pinned.
  lemma FlowPush(s: State, p: Frame, answer: bool, listing: seq<Addr>)
    requires GoesOnFrom(p)
    ensures Flow(s, p, answer, listing).at.Push? ==>
      p.at == Pinning(Flow(s, p, answer, listing).at.handle) && answer && p.at.handle in s.mapped
    ensures Flow(s, p, answer, listing).at.Pushing? ==> p.at == Push(Flow(s, p, answer, listing).at.handle)
  {
  }

  // Where the module whose gates are asked for comes from.
  predicate GateFrom(s: State, p: Frame, q: Frame)
  {
    Unlocking(q.at) ==>
      (Unlocking(p.at) && q.at.handle == p.at.handle) ||
      (p.at.Asking? && p.job.Load? && Known(s.runtimes, q.at.handle)) ||
      (p.at.Visit? && p.job.Worker? && p.job.listed != [] && q.at.handle == p.job.listed[0] && !p.job.loading)
  }

  // Past its copy of the list, the worker handles recorded modules only.
  predicate Scanning(at: Stage)
  {
    at.Count? || at.Visit? || Unlocking(at)
  }

  predicate ListFrom(s: State, p: Frame, q: Frame)
  {
    p.job.Worker? && q.job.Worker? && Scanning(q.at) ==>
      if p.at.Listing? then q.at.Count? && q.job.listed == Modules(s.runtimes)
      else
        Scanning(p.at) && !q.at.Count? &&
        (q.job.listed == p.job.listed || (p.at.Visit? && p.job.listed != [] && q.job.listed == p.job.listed[1..])) &&
        q.job.loading == (if p.at.Count? then s.loads > 0 else p.job.loading) &&
        (p.at.Count? ==> q.at.Visit?)
  }

  lemma FlowScan(s: State, p: Frame, answer: bool, listing: seq<Addr>)
    requires GoesOnFrom(p)
    ensures GateFrom(s, p, Flow(s, p, answer, listing))
    ensures ListFrom(s, p, Flow(s, p, answer, listing))
  {
  }

  predicate Pinned(s: State, handle: Addr)
  {
    handle in s.mapped && s.mapped[handle] in s.pinned
  }

  // ---- What every reachable state keeps ----

  // Every activation is in its thread's stack once, and all but the last wait inside a load.
  ghost predicate Threads(s: State)
  {
    (forall t, k :: t in s.stacks && 0 <= k < |s.stacks[t]| ==> OnStack(s, t, s.stacks[t][k])) &&
    (forall t, k :: t in s.stacks && 0 <= k < |s.stacks[t]| - 1 ==> CanNest(s.frames[s.stacks[t][k]].at)) &&
    (forall t, j, k :: t in s.stacks && 0 <= j < k < |s.stacks[t]| ==> s.stacks[t][j] != s.stacks[t][k]) &&
    (forall f :: f in s.frames ==> f < s.nextId && f in Stack(s, s.frames[f].thread))
  }

  predicate OnStack(s: State, thread: Tid, f: Id)
  {
    f in s.frames && s.frames[f].thread == thread
  }

  // Each lock is held by exactly those whose stage says so.
  ghost predicate Locks(s: State)
  {
    (forall f :: f in s.frames && HoldsMutex(s.frames[f].at) ==> s.mutex == Some(f)) &&
    (s.mutex.Some? ==> s.mutex.value in s.frames && HoldsMutex(s.frames[s.mutex.value].at)) &&
    (forall f :: f in s.lock <==> f in s.frames && HoldsLoader(s.frames[f].at)) &&
    (forall f, g :: f in s.lock && g in s.lock ==> s.frames[f].thread == s.frames[g].thread)
  }

  ghost predicate Counter(s: State)
  {
    s.loads == |InFlight(s)|
  }

  // Instances are fresh when they appear, and a pinned one stays where it is.
  ghost predicate Memory(s: State)
  {
    (forall a :: a in s.mapped ==> s.mapped[a] < s.nextInst) &&
    (forall a, b :: a in s.mapped && b in s.mapped && s.mapped[a] == s.mapped[b] ==> a == b) &&
    (forall f :: f in s.frames && s.frames[f].job.Load? && s.frames[f].at.Enter? ==> s.frames[f].job.images == {}) &&
    (forall f, i :: f in s.frames && s.frames[f].job.Load? && i in s.frames[f].job.images ==> i < s.nextInst)
  }

  // Every record is pinned, and there is one per module.
  ghost predicate Records(s: State)
  {
    Distinct(s.runtimes) &&
    (forall k :: 0 <= k < |s.runtimes| ==> Pinned(s, s.runtimes[k].handle)) &&
    (forall f :: f in s.frames && (s.frames[f].at.Push? || s.frames[f].at.Pushing?) ==>
      Pinned(s, s.frames[f].at.handle))
  }

  // Gates are asked for of recorded modules only, and by the worker only with no load
  // under way.
  ghost predicate Scans(s: State)
  {
    (forall f :: f in s.frames ==> (s.frames[f].job.Worker? <==> f == WORKER)) &&
    (forall f :: f in s.frames && s.frames[f].job.Worker? && Scanning(s.frames[f].at) ==>
      forall k :: 0 <= k < |s.frames[f].job.listed| ==> Known(s.runtimes, s.frames[f].job.listed[k])) &&
    (forall f :: f in s.frames && Unlocking(s.frames[f].at) ==> Known(s.runtimes, s.frames[f].at.handle)) &&
    (forall f :: f in s.frames && s.frames[f].job.Worker? && Unlocking(s.frames[f].at) ==> !s.frames[f].job.loading) &&
    (forall f :: f in s.frames ==> Fits(s.frames[f]))
  }

  // No load under way mapped this instance.
  predicate Settled(s: State, inst: Inst)
  {
    forall f :: f in s.frames && Counted(s.frames[f]) ==> inst !in s.frames[f].job.images
  }

  // What is mapped there now was mapped by no load that is still under way.
  predicate Quiet(s: State, handle: Addr)
  {
    handle in s.mapped && Settled(s, s.mapped[handle])
  }

  // Having found no load under way, the worker is left with modules no load is mapping.
  predicate ClearedFrame(s: State, frame: Frame)
  {
    frame.job.Worker? && !frame.job.loading && (frame.at.Visit? || Unlocking(frame.at)) ==>
      (forall k :: 0 <= k < |frame.job.listed| ==> Quiet(s, frame.job.listed[k])) &&
      (Unlocking(frame.at) ==> Quiet(s, frame.at.handle))
  }

  predicate Cleared(s: State)
  {
    forall f :: f in s.frames ==> ClearedFrame(s, s.frames[f])
  }

  // One claim per claimed record, written before its claimer goes on, and none of a
  // load's own runtime by the worker.
  ghost predicate Claims(s: State)
  {
    (forall k :: 0 <= k < |s.claims| ==> ClaimHolds(s, s.claims[k])) &&
    (forall j, k :: 0 <= j < k < |s.claims| ==> s.claims[j].handle != s.claims[k].handle) &&
    (forall h :: Claimed(s.runtimes, h) <==> ClaimOn(s.claims, h)) &&
    (forall f :: f in s.frames && s.frames[f].at.Write? ==> ClaimBy(s.claims, s.frames[f].at.handle, f)) &&
    (forall f :: f in s.frames && s.frames[f].job.Load? && s.frames[f].job.settled.Some? ==>
      Claimed(s.runtimes, s.frames[f].job.settled.value))
  }

  predicate ClaimHolds(s: State, c: GateClaim)
  {
    Known(s.runtimes, c.handle) && Pinned(s, c.handle) && c.at == Some(s.mapped[c.handle]) &&
    (c.worker ==> Settled(s, c.at.value)) && (c.worker <==> c.claimer == WORKER) &&
    (c.at.value in s.written || (c.claimer in s.frames && s.frames[c.claimer].at == Write(c.handle)))
  }

  ghost predicate ClaimOn(claims: seq<GateClaim>, handle: Addr)
  {
    exists k :: 0 <= k < |claims| && claims[k].handle == handle
  }

  ghost predicate ClaimBy(claims: seq<GateClaim>, handle: Addr, f: Id)
  {
    exists k :: 0 <= k < |claims| && claims[k].handle == handle && claims[k].claimer == f
  }

  ghost predicate Inv(s: State)
  {
    WORKER < s.nextId &&
    Threads(s) && Locks(s) && Counter(s) && Memory(s) && Records(s) && Scans(s) && Cleared(s) && Claims(s)
  }

  // ---- One activation moves: what that changes ----

  ghost predicate Changed(s: State, t: State, f: Id)
  {
    Running(s, f) && f in t.frames && t.frames == s.frames[f := t.frames[f]] &&
    t.frames[f].thread == s.frames[f].thread && t.stacks == s.stacks && t.nextId == s.nextId
  }

  ghost predicate LocksChanged(s: State, t: State, f: Id)
  {
    Changed(s, t, f) &&
    t.mutex == GoesOn(s, f, t.frames[f]).mutex && t.lock == GoesOn(s, f, t.frames[f]).lock &&
    (HoldsMutex(t.frames[f].at) ==> s.mutex.None?) &&
    (HoldsLoader(t.frames[f].at) && !HoldsLoader(s.frames[f].at) ==>
      forall g :: g in s.lock ==> g in s.frames && s.frames[g].thread == s.frames[f].thread)
  }

  ghost predicate LoadsChanged(s: State, t: State, f: Id)
  {
    Changed(s, t, f) && t.loads - s.loads == Weight(t.frames[f]) - Weight(s.frames[f])
  }

  // Images may be mapped, as new instances that f may own, and none goes away.
  ghost predicate MemoryChanged(s: State, t: State, f: Id)
  {
    Changed(s, t, f) && s.pinned <= t.pinned && s.nextInst <= t.nextInst &&
    (forall h :: h in s.mapped ==> h in t.mapped && t.mapped[h] == s.mapped[h]) &&
    (forall h :: h in t.mapped && h !in s.mapped ==> t.mapped[h] == s.nextInst < t.nextInst) &&
    (forall g, h :: g in t.mapped && h in t.mapped && g !in s.mapped && h !in s.mapped ==> g == h) &&
    (t.frames[f].job.Load? <==> s.frames[f].job.Load?) && !t.frames[f].at.Enter? && Fits(t.frames[f]) &&
    (t.frames[f].job.Load? ==>
      t.frames[f].job.kind == s.frames[f].job.kind &&
      s.frames[f].job.images <= t.frames[f].job.images &&
      forall i :: i in t.frames[f].job.images && i !in s.frames[f].job.images ==> s.nextInst <= i < t.nextInst)
  }

  lemma ThreadsMoved(s: State, t: State, f: Id)
    requires Threads(s) && Changed(s, t, f)
    ensures Threads(t)
  {
    var th := s.frames[f].thread;
    var top := |s.stacks[th]| - 1;
    forall u, k | u in t.stacks && 0 <= k < |t.stacks[u]| - 1
      ensures CanNest(t.frames[t.stacks[u][k]].at)
    {
      assert OnStack(s, u, s.stacks[u][k]);
      assert s.stacks[th][top] == f;
      assert s.stacks[u][k] != f;
    }
    assert forall u, k :: u in s.stacks && 0 <= k < |s.stacks[u]| && OnStack(s, u, s.stacks[u][k]) ==>
                            OnStack(t, u, s.stacks[u][k]);
  }

  lemma LocksMoved(s: State, t: State, f: Id)
    requires Locks(s) && LocksChanged(s, t, f)
    ensures Locks(t)
  {
  }

  lemma CounterMoved(s: State, t: State, f: Id)
    requires Counter(s) && LoadsChanged(s, t, f)
    ensures Counter(t)
  {
    if Counted(t.frames[f]) {
      assert InFlight(t) == InFlight(s) + {f};
    } else {
      assert InFlight(t) == InFlight(s) - {f};
    }
  }

  lemma MemoryMoved(s: State, t: State, f: Id)
    requires Memory(s) && MemoryChanged(s, t, f)
    ensures Memory(t)
  {
    forall g | g in t.frames && t.frames[g].job.Load?
      ensures t.frames[g].at.Enter? ==> t.frames[g].job.images == {}
      ensures forall i :: i in t.frames[g].job.images ==> i < t.nextInst
    {
      assert g != f ==> t.frames[g] == s.frames[g];
    }
    forall a, b | a in t.mapped && b in t.mapped && t.mapped[a] == t.mapped[b]
      ensures a == b
    {
      assert a in s.mapped ==> t.mapped[a] == s.mapped[a];
      assert b in s.mapped ==> t.mapped[b] == s.mapped[b];
    }
  }

  // ---- A load begins ----

  lemma StacksBegun(s: State, thread: Tid, kind: Kind, u: Tid, k: nat)
    requires Threads(s) && Allowed(s, Begin(thread, kind))
    requires u in Began(s, thread, kind).stacks && k < |Began(s, thread, kind).stacks[u]|
    ensures var t := Began(s, thread, kind);
            OnStack(t, u, t.stacks[u][k]) && (k < |t.stacks[u]| - 1 ==> CanNest(t.frames[t.stacks[u][k]].at)) &&
            (if u == thread && k == |t.stacks[u]| - 1 then t.stacks[u][k] == s.nextId
             else u in s.stacks && k < |s.stacks[u]| && t.stacks[u][k] == s.stacks[u][k] < s.nextId)
  {
    if u in s.stacks && k < |s.stacks[u]| {
      assert OnStack(s, u, s.stacks[u][k]);
    }
  }

  lemma OnStackBegun(s: State, thread: Tid, kind: Kind, f: Id)
    requires Threads(s) && f in Began(s, thread, kind).frames
    ensures f in Stack(Began(s, thread, kind), Began(s, thread, kind).frames[f].thread)
  {
  }

  lemma ThreadsBegun(s: State, thread: Tid, kind: Kind)
    requires Threads(s) && Allowed(s, Begin(thread, kind))
    ensures Threads(Began(s, thread, kind))
  {
    var t := Began(s, thread, kind);
    forall u, k | u in t.stacks && 0 <= k < |t.stacks[u]|
      ensures OnStack(t, u, t.stacks[u][k]) && (k < |t.stacks[u]| - 1 ==> CanNest(t.frames[t.stacks[u][k]].at))
      ensures if u == thread && k == |t.stacks[u]| - 1 then t.stacks[u][k] == s.nextId
              else u in s.stacks && k < |s.stacks[u]| && t.stacks[u][k] == s.stacks[u][k] < s.nextId
    {
      StacksBegun(s, thread, kind, u, k);
    }
    forall f | f in t.frames
      ensures f in Stack(t, t.frames[f].thread)
    {
      OnStackBegun(s, thread, kind, f);
    }
  }

  lemma LocksBegun(s: State, thread: Tid, kind: Kind)
    requires Threads(s) && Locks(s)
    ensures Locks(Began(s, thread, kind))
  {
  }

  lemma CounterBegun(s: State, thread: Tid, kind: Kind)
    requires Threads(s) && Counter(s)
    ensures Counter(Began(s, thread, kind))
  {
    assert InFlight(Began(s, thread, kind)) == InFlight(s);
  }

  lemma MemoryBegun(s: State, thread: Tid, kind: Kind)
    requires Memory(s)
    ensures Memory(Began(s, thread, kind))
  {
  }

  // ---- A load ends ----

  // Taking f off its thread's stack leaves the stacks' other entries as they were.
  lemma StacksLeft(s: State, f: Id, u: Tid, k: nat)
    requires Threads(s) && Running(s, f)
    requires u in Left(s, f).stacks && k < |Left(s, f).stacks[u]|
    ensures u in s.stacks && k < |s.stacks[u]| && Left(s, f).stacks[u][k] == s.stacks[u][k]
    ensures u == s.frames[f].thread ==> k < |s.stacks[u]| - 1
    ensures s.stacks[u][k] != f && OnStack(Left(s, f), u, s.stacks[u][k])
    ensures Left(s, f).frames[s.stacks[u][k]] == s.frames[s.stacks[u][k]]
  {
    var th := s.frames[f].thread;
    assert s.stacks[th][|s.stacks[th]| - 1] == f;
    assert OnStack(s, u, s.stacks[u][k]);
  }

  lemma OnStackLeft(s: State, f: Id, g: Id)
    requires Threads(s) && Running(s, f) && g in s.frames && g != f
    ensures g in Stack(Left(s, f), s.frames[g].thread)
  {
    var th := s.frames[g].thread;
    var k :| 0 <= k < |Stack(s, th)| && Stack(s, th)[k] == g;
    assert s.stacks[s.frames[f].thread][|s.stacks[s.frames[f].thread]| - 1] == f;
    assert Stack(Left(s, f), th)[k] == g;
  }

  lemma ThreadsLeft(s: State, f: Id)
    requires Threads(s) && Running(s, f)
    ensures Threads(Left(s, f))
  {
    var t := Left(s, f);
    forall u, k | u in t.stacks && 0 <= k < |t.stacks[u]|
      ensures OnStack(t, u, t.stacks[u][k])
      ensures k < |t.stacks[u]| - 1 ==> CanNest(t.frames[t.stacks[u][k]].at)
      ensures u in s.stacks && k < |s.stacks[u]| && t.stacks[u][k] == s.stacks[u][k]
    {
      StacksLeft(s, f, u, k);
    }
    forall g | g in t.frames
      ensures g in Stack(t, t.frames[g].thread)
    {
      OnStackLeft(s, f, g);
    }
  }

  lemma LocksLeft(s: State, f: Id)
    requires Locks(s) && f in s.frames && s.frames[f].at.Leave?
    ensures Locks(Left(s, f))
  {
  }

  lemma CounterLeft(s: State, f: Id)
    requires Counter(s) && f in s.frames
    ensures Counter(Left(s, f))
  {
    assert InFlight(Left(s, f)) == InFlight(s) - {f};
  }

  lemma MemoryLeft(s: State, f: Id)
    requires Memory(s) && f in s.frames
    ensures Memory(Left(s, f))
  {
  }

  // ---- Going on changes as much as that, and no more ----

  // An effect touches neither threads, locks nor the memory map.
  lemma EffectOf(s: State, f: Id, answer: bool)
    requires f in s.frames
    ensures var t := Effect(s, f, answer);
            t.frames == s.frames && t.stacks == s.stacks && t.nextId == s.nextId && t.mutex == s.mutex &&
            t.lock == s.lock && t.mapped == s.mapped && t.nextInst == s.nextInst && s.pinned <= t.pinned
  {
    hide Known, Claimed, WithClaim, Takes, InstAt;
  }

  lemma LoadsOf(s: State, f: Id, answer: bool)
    requires f in s.frames && Fits(s.frames[f])
    ensures Effect(s, f, answer).loads - s.loads ==
      (if s.frames[f].at.Enter? && !s.frames[f].job.kind.OtherLoad? then 1 else 0)
  {
    hide Known, Claimed, WithClaim, Takes, InstAt;
  }

  lemma GoChanges(s: State, f: Id, answer: bool, listing: seq<Addr>)
    requires Allowed(s, Go(f, answer, listing)) && GoesOnFrom(s.frames[f])
    ensures LocksChanged(s, Step(s, f, answer, listing), f)
    ensures LoadsChanged(s, Step(s, f, answer, listing), f)
    ensures MemoryChanged(s, Step(s, f, answer, listing), f)
  {
    hide Flow, Effect, Known, Claimed;
    FlowJob(s, s.frames[f], answer, listing);
    EffectOf(s, f, answer);
    LoadsOf(s, f, answer);
  }

  lemma MapInsideChanges(s: State, f: Id, address: Addr)
    requires Allowed(s, MapInside(f, address)) && Fits(s.frames[f])
    ensures LocksChanged(s, MappedInside(s, f, address), f)
    ensures LoadsChanged(s, MappedInside(s, f, address), f)
    ensures MemoryChanged(s, MappedInside(s, f, address), f)
  {
  }

  lemma ReturnChanges(s: State, f: Id, result: Option<Addr>)
    requires Allowed(s, Return(f, result)) && Fits(s.frames[f])
    ensures LocksChanged(s, Returned(s, f, result), f)
    ensures LoadsChanged(s, Returned(s, f, result), f)
    ensures MemoryChanged(s, Returned(s, f, result), f)
  {
  }

  // ---- The list ----

  // The list grows by a pinned module that was not on it, or has one record claimed.
  ghost predicate RecordsChanged(s: State, t: State, f: Id)
  {
    MemoryChanged(s, t, f) &&
    (t.runtimes == s.runtimes ||
      (s.frames[f].at.Claiming? && Takes(s, s.frames[f].at.handle) &&
        t.runtimes == WithClaim(s.runtimes, s.frames[f].at.handle)) ||
      (s.frames[f].at.Pushing? && !Known(s.runtimes, s.frames[f].at.handle) &&
        t.runtimes == s.runtimes + [Runtime(s.frames[f].at.handle, false)])) &&
    (t.frames[f].at.Push? ==> Pinned(t, t.frames[f].at.handle)) &&
    (t.frames[f].at.Pushing? ==> s.frames[f].at == Push(t.frames[f].at.handle))
  }

  lemma RecordsMoved(s: State, t: State, f: Id)
    requires Records(s) && RecordsChanged(s, t, f)
    ensures Records(t)
  {
    hide Takes;
    assert forall h :: Pinned(s, h) ==> Pinned(t, h);
    assert forall k :: 0 <= k < |s.runtimes| ==> t.runtimes[k].handle == s.runtimes[k].handle;
  }

  lemma KnownGrows(s: State, t: State, f: Id)
    requires RecordsChanged(s, t, f)
    ensures forall m :: Known(s.runtimes, m) ==> Known(t.runtimes, m)
  {
    forall m | Known(s.runtimes, m)
      ensures Known(t.runtimes, m)
    {
      var k :| 0 <= k < |s.runtimes| && s.runtimes[k].handle == m;
      assert t.runtimes[k].handle == m;
    }
  }

  lemma ScansMoved(s: State, t: State, f: Id)
    requires Scans(s) && RecordsChanged(s, t, f)
    requires GateFrom(s, s.frames[f], t.frames[f]) && ListFrom(s, s.frames[f], t.frames[f])
    requires Unlocking(t.frames[f].at) && t.frames[f].job.Worker? ==> !t.frames[f].job.loading
    ensures Scans(t)
  {
    KnownGrows(s, t, f);
    hide RecordsChanged;
    var p, q := s.frames[f], t.frames[f];
    forall k | q.job.Worker? && Scanning(q.at) && 0 <= k < |q.job.listed|
      ensures Known(t.runtimes, q.job.listed[k])
    {
      if p.at.Listing? {
        assert s.runtimes[k].handle == q.job.listed[k];
      } else if q.job.listed != p.job.listed {
        assert q.job.listed[k] == p.job.listed[k + 1];
      }
    }
  }

  // What no load under way has mapped, none will.
  lemma SettledMoved(s: State, t: State, f: Id, inst: Inst)
    requires Memory(s) && MemoryChanged(s, t, f) && Settled(s, inst) && inst < s.nextInst
    ensures Settled(t, inst)
  {
  }

  lemma QuietMoved(s: State, t: State, f: Id)
    requires Memory(s) && MemoryChanged(s, t, f)
    ensures forall h :: Quiet(s, h) ==> Quiet(t, h)
  {
  }

  // The counter read: no load is under way, so every recorded module is quiet.
  lemma NoneLoading(s: State, t: State, f: Id)
    requires Counter(s) && s.loads <= 0 && Memory(s) && Records(s) && MemoryChanged(s, t, f)
    ensures forall h :: Known(s.runtimes, h) ==> Quiet(t, h)
  {
    assert InFlight(s) == {};
    assert forall g :: g in s.frames && Counted(s.frames[g]) ==> g in InFlight(s);
    QuietMoved(s, t, f);
    forall h | Known(s.runtimes, h)
      ensures Quiet(s, h)
    {
      var k :| 0 <= k < |s.runtimes| && s.runtimes[k].handle == h;
      assert Pinned(s, s.runtimes[k].handle);
    }
  }

  lemma ClearedMoved(s: State, t: State, f: Id)
    requires Memory(s) && Records(s) && Scans(s) && Cleared(s) && Counter(s) && MemoryChanged(s, t, f)
    requires GateFrom(s, s.frames[f], t.frames[f]) && ListFrom(s, s.frames[f], t.frames[f])
    ensures Cleared(t)
  {
    hide Known, Quiet, Memory, Records, Counter;
    QuietMoved(s, t, f);
    var p, q := s.frames[f], t.frames[f];
    assert ClearedFrame(s, p);
    if q.job.Worker? && Scanning(q.at) && !q.job.loading {
      if p.at.Count? {
        NoneLoading(s, t, f);
      }
      assert forall k :: 0 <= k < |q.job.listed| && q.job.listed != p.job.listed && !p.at.Listing? ==>
                           q.job.listed[k] == p.job.listed[k + 1];
    }
    assert ClearedFrame(t, q);
  }

  // ---- The claims ----

  // f claims h's gates, which were there to claim, and goes on to write them.
  ghost predicate Taken(s: State, t: State, f: Id)
  {
    RecordsChanged(s, t, f) && s.frames[f].at.Claiming? &&
    (var h := s.frames[f].at.handle;
     Takes(s, h) && t.runtimes == WithClaim(s.runtimes, h) && t.frames[f].at == Write(h) &&
     t.claims == s.claims + [GateClaim(h, InstAt(s, h), f, s.frames[f].job.Worker?)] && t.written == s.written)
  }

  // No gates change hands; those f was writing are written.
  ghost predicate NotTaken(s: State, t: State, f: Id)
  {
    RecordsChanged(s, t, f) && t.claims == s.claims && !t.frames[f].at.Write? &&
    (t.runtimes == s.runtimes || t.runtimes == s.runtimes + [Runtime(s.frames[f].at.handle, false)]) &&
    t.written == (if s.frames[f].at.Write? && s.frames[f].at.handle in s.mapped
                  then s.written + {s.mapped[s.frames[f].at.handle]} else s.written)
  }

  // A load has settled a module once its gates have been claimed.
  ghost predicate SettledFrom(s: State, t: State, f: Id)
    requires f in s.frames && f in t.frames
  {
    t.frames[f].job.Load? && s.frames[f].job.Load? ==>
      t.frames[f].job.settled == s.frames[f].job.settled ||
      (t.frames[f].job.settled.Some? && Claimed(t.runtimes, t.frames[f].job.settled.value))
  }

  lemma ClaimedAppend(r: seq<Runtime>, h: Addr)
    ensures forall m :: Claimed(r + [Runtime(h, false)], m) <==> Claimed(r, m)
  {
    var n := r + [Runtime(h, false)];
    forall m
      ensures Claimed(n, m) <==> Claimed(r, m)
    {
      if Claimed(n, m) {
        var k :| 0 <= k < |n| && n[k] == Runtime(m, true);
        assert r[k] == Runtime(m, true);
      }
      if Claimed(r, m) {
        var k :| 0 <= k < |r| && r[k] == Runtime(m, true);
        assert n[k] == Runtime(m, true);
      }
    }
  }

  // A claim keeps holding: its module stays recorded, pinned and where it is.
  lemma ClaimMoved(s: State, t: State, f: Id, c: GateClaim)
    requires Memory(s) && RecordsChanged(s, t, f) && ClaimHolds(s, c)
    requires s.written <= t.written
    requires s.frames[f].at == Write(c.handle) && c.claimer == f ==> s.mapped[c.handle] in t.written
    ensures ClaimHolds(t, c)
  {
    KnownGrows(s, t, f);
    if c.worker {
      SettledMoved(s, t, f, c.at.value);
    }
  }

  lemma ClaimsNotTaken(s: State, t: State, f: Id)
    requires Memory(s) && Claims(s) && NotTaken(s, t, f) && SettledFrom(s, t, f)
    ensures Claims(t)
  {
    forall k | 0 <= k < |t.claims|
      ensures ClaimHolds(t, t.claims[k])
    {
      ClaimMoved(s, t, f, t.claims[k]);
    }
    if t.runtimes != s.runtimes {
      ClaimedAppend(s.runtimes, s.frames[f].at.handle);
    }
  }

  // The claim that is made: the module is recorded, so pinned, and when the worker makes
  // it, quiet.
  lemma NewClaim(s: State, t: State, f: Id)
    requires Memory(s) && Records(s) && Scans(s) && Cleared(s) && Taken(s, t, f)
    ensures ClaimHolds(t, t.claims[|s.claims|])
  {
    var h := s.frames[f].at.handle;
    KnownGrows(s, t, f);
    var k :| 0 <= k < |s.runtimes| && s.runtimes[k].handle == h;
    assert Pinned(s, s.runtimes[k].handle);
    QuietMoved(s, t, f);
    assert ClearedFrame(s, s.frames[f]);
  }

  lemma ClaimsTaken(s: State, t: State, f: Id)
    requires Memory(s) && Records(s) && Scans(s) && Cleared(s) && Claims(s)
    requires Taken(s, t, f) && SettledFrom(s, t, f)
    ensures Claims(t)
  {
    hide Memory, Records, Scans, Cleared, ClaimHolds, ClaimBy, ClaimOn, Known, Claimed;
    NewClaim(s, t, f);
    TakenClaims(s, t, f);
    var h := s.frames[f].at.handle;
    forall k | 0 <= k < |s.claims|
      ensures ClaimHolds(t, t.claims[k])
    {
      assert s.claims[k].handle != h;
      ClaimMoved(s, t, f, s.claims[k]);
    }
  }

  lemma TakenClaims(s: State, t: State, f: Id)
    requires Claims(s) && Taken(s, t, f)
    ensures forall k :: 0 <= k < |s.claims| ==> s.claims[k].handle != s.frames[f].at.handle
    ensures forall m :: Claimed(t.runtimes, m) <==> ClaimOn(t.claims, m)
    ensures forall m :: Claimed(s.runtimes, m) ==> Claimed(t.runtimes, m)
    ensures forall g :: g in t.frames && t.frames[g].at.Write? ==> ClaimBy(t.claims, t.frames[g].at.handle, g)
  {
    hide ClaimHolds;
    var h := s.frames[f].at.handle;
    assert !ClaimOn(s.claims, h);
    assert t.claims[|s.claims|].handle == h;
    forall m
      ensures ClaimOn(t.claims, m) <==> ClaimOn(s.claims, m) || m == h
    {
      if ClaimOn(s.claims, m) {
        var k :| 0 <= k < |s.claims| && s.claims[k].handle == m;
        assert t.claims[k].handle == m;
      }
    }
    forall g | g in t.frames && t.frames[g].at.Write?
      ensures ClaimBy(t.claims, t.frames[g].at.handle, g)
    {
      if g != f {
        var k :| 0 <= k < |s.claims| && s.claims[k].handle == s.frames[g].at.handle && s.claims[k].claimer == g;
        assert t.claims[k] == s.claims[k];
      }
    }
  }

  // ---- Each action keeps the list, the scan and the claims ----

  lemma GoRecords(s: State, f: Id, answer: bool, listing: seq<Addr>)
    requires Allowed(s, Go(f, answer, listing)) && GoesOnFrom(s.frames[f])
    ensures RecordsChanged(s, Step(s, f, answer, listing), f)
  {
    hide Flow, Known, Claimed, Takes;
    FlowPush(s, s.frames[f], answer, listing);
    GoChanges(s, f, answer, listing);
  }

  // Only ClaimGates adds a claim, and only the write of the gates writes them.
  lemma EffectClaims(s: State, f: Id, answer: bool)
    requires f in s.frames
    ensures var t, p := Effect(s, f, answer), s.frames[f];
            if p.at.Claiming? && Takes(s, p.at.handle)
            then t.claims == s.claims + [GateClaim(p.at.handle, InstAt(s, p.at.handle), f, p.job.Worker?)] &&
                 t.runtimes == WithClaim(s.runtimes, p.at.handle) && t.written == s.written
            else t.claims == s.claims &&
                 (t.runtimes == s.runtimes ||
                  (p.at.Pushing? && t.runtimes == s.runtimes + [Runtime(p.at.handle, false)])) &&
                 t.written == (if p.at.Write? && p.at.handle in s.mapped then s.written + {s.mapped[p.at.handle]}
                               else s.written)
  {
    hide Known, Claimed, WithClaim, Takes, InstAt;
  }

  lemma GoClaims(s: State, f: Id, answer: bool, listing: seq<Addr>)
    requires Allowed(s, Go(f, answer, listing)) && GoesOnFrom(s.frames[f]) && Scans(s)
    ensures Taken(s, Step(s, f, answer, listing), f) || NotTaken(s, Step(s, f, answer, listing), f)
  {
    hide Flow, Effect, RecordsChanged, Claimed, Known, Takes, WithClaim, InstAt, Scans;
    EffectClaims(s, f, answer);
    GoRecords(s, f, answer, listing);
    FlowWrite(s, s.frames[f], answer, listing);
  }

  lemma GoSettled(s: State, f: Id, answer: bool, listing: seq<Addr>)
    requires Allowed(s, Go(f, answer, listing)) && GoesOnFrom(s.frames[f]) && Scans(s)
    ensures SettledFrom(s, Step(s, f, answer, listing), f)
  {
    hide Flow, Claimed, Known, WithClaim, InstAt;
    FlowWrite(s, s.frames[f], answer, listing);
  }

  // The gates are written by who claimed them, and settled once asked for.
  lemma FlowWrite(s: State, p: Frame, answer: bool, listing: seq<Addr>)
    requires GoesOnFrom(p)
    ensures var q := Flow(s, p, answer, listing);
            (q.at.Write? <==> p.at.Claiming? && Takes(s, p.at.handle)) &&
            (p.at.Claiming? && Takes(s, p.at.handle) ==> q.at == Write(p.at.handle)) &&
            (q.job.Load? && p.job.Load? && q.job.settled != p.job.settled ==>
              p.at.Claiming? && q.job.settled == Some(p.at.handle))
  {
    hide Known, Claimed;
  }

  // Inside the loader, the engine's own records are left alone.
  lemma InsideLoader(s: State, t: State, f: Id)
    requires MemoryChanged(s, t, f) && s.frames[f].at.InLoader? && t.runtimes == s.runtimes
    requires t.claims == s.claims && t.written == s.written && t.frames[f].job.Load? && s.frames[f].job.Load?
    requires t.frames[f].job.settled == s.frames[f].job.settled
    requires LoadOnly(t.frames[f].at)
    ensures RecordsChanged(s, t, f) && NotTaken(s, t, f) && SettledFrom(s, t, f)
    ensures GateFrom(s, s.frames[f], t.frames[f]) && ListFrom(s, s.frames[f], t.frames[f])
  {
    hide Known, Claimed, MemoryChanged;
  }

  predicate LoadOnly(at: Stage)
  {
    at.Map? || at.InLoader? || at.Prepare? || at.Leave?
  }

  // A load comes or goes, or the process's memory map changes: no activation moves.
  ghost predicate Aside(s: State, t: State)
  {
    t.runtimes == s.runtimes && t.claims == s.claims && t.written == s.written && t.pinned == s.pinned &&
    (forall g :: g in t.frames ==> (g in s.frames && t.frames[g] == s.frames[g]) || NewLoad(s, g, t.frames[g])) &&
    (forall g :: g in s.frames && g !in t.frames ==> s.frames[g].at.Leave?) &&
    (forall h :: Pinned(s, h) ==> h in t.mapped && t.mapped[h] == s.mapped[h])
  }

  predicate NewLoad(s: State, g: Id, frame: Frame)
  {
    g !in s.frames && frame.at.Enter? && frame.job.Load? && frame.job.images == {} && frame.job.settled.None? &&
    g != WORKER
  }

  lemma RecordsAside(s: State, t: State)
    requires Records(s) && Aside(s, t)
    ensures Records(t)
  {
    assert forall h :: Pinned(s, h) ==> Pinned(t, h);
  }

  lemma ScansAside(s: State, t: State)
    requires Scans(s) && Aside(s, t)
    ensures Scans(t)
  {
    hide Known, Pinned;
  }

  lemma SettledAside(s: State, t: State, inst: Inst)
    requires Aside(s, t) && Settled(s, inst)
    ensures Settled(t, inst)
  {
  }

  lemma ClearedAside(s: State, t: State)
    requires Scans(s) && Cleared(s) && Records(s) && Aside(s, t)
    ensures Cleared(t)
  {
    forall h | Quiet(s, h) && Known(s.runtimes, h)
      ensures Quiet(t, h)
    {
      var k :| 0 <= k < |s.runtimes| && s.runtimes[k].handle == h;
      assert Pinned(s, s.runtimes[k].handle);
      SettledAside(s, t, s.mapped[h]);
    }
    forall f | f in t.frames
      ensures ClearedFrame(t, t.frames[f])
    {
      if f in s.frames && t.frames[f] == s.frames[f] {
        assert ClearedFrame(s, s.frames[f]);
      }
    }
  }

  lemma ClaimsAside(s: State, t: State)
    requires Claims(s) && Aside(s, t)
    ensures Claims(t)
  {
    hide Claimed, ClaimOn, Known;
    forall k | 0 <= k < |s.claims|
      ensures ClaimHolds(t, s.claims[k])
    {
      var c := s.claims[k];
      assert ClaimHolds(s, c);
      if c.worker {
        SettledAside(s, t, c.at.value);
      }
    }
  }

  lemma BegunAside(s: State, thread: Tid, kind: Kind)
    requires Threads(s) && WORKER < s.nextId
    ensures Aside(s, Began(s, thread, kind))
  {
    hide Known, Claimed;
  }

  lemma MapAside(s: State, a: Action)
    requires (a.MapElsewhere? || a.Unmap? || a.Identify?) && Allowed(s, a) && Memory(s)
    ensures Aside(s, Apply(s, a))
    ensures Memory(Apply(s, a))
  {
    hide Known, Claimed;
  }

  // ---- Every reachable state ----

  lemma MovedKept(s: State, t: State, f: Id)
    requires Inv(s) && LocksChanged(s, t, f) && LoadsChanged(s, t, f) && MemoryChanged(s, t, f)
    requires RecordsChanged(s, t, f) && (Taken(s, t, f) || NotTaken(s, t, f)) && SettledFrom(s, t, f)
    requires GateFrom(s, s.frames[f], t.frames[f]) && ListFrom(s, s.frames[f], t.frames[f])
    requires Unlocking(t.frames[f].at) && t.frames[f].job.Worker? ==> !t.frames[f].job.loading
    ensures Inv(t)
  {
    hide Threads, Locks, Counter, Memory, Records, Scans, Cleared, Claims, RecordsChanged, Taken, NotTaken, SettledFrom,
      GateFrom, ListFrom;
    ThreadsMoved(s, t, f);
    LocksMoved(s, t, f);
    CounterMoved(s, t, f);
    MemoryMoved(s, t, f);
    RecordsMoved(s, t, f);
    ScansMoved(s, t, f);
    ClearedMoved(s, t, f);
    if Taken(s, t, f) {
      ClaimsTaken(s, t, f);
    } else {
      ClaimsNotTaken(s, t, f);
    }
  }

  lemma GoKept(s: State, f: Id, answer: bool, listing: seq<Addr>)
    requires Inv(s) && Allowed(s, Go(f, answer, listing)) && !s.frames[f].at.Leave?
    ensures Inv(Step(s, f, answer, listing))
  {
    hide Threads, Locks, Counter, Memory, Records, Cleared, Claims, RecordsChanged, LocksChanged, LoadsChanged,
      MemoryChanged, Taken, NotTaken, Flow, Effect, GateFrom, ListFrom;
    GoChanges(s, f, answer, listing);
    GoClaims(s, f, answer, listing);
    GoSettled(s, f, answer, listing);
    GoRecords(s, f, answer, listing);
    FlowScan(s, s.frames[f], answer, listing);
    GateQuiet(s, s.frames[f], answer, listing);
    MovedKept(s, Step(s, f, answer, listing), f);
  }

  lemma GateQuiet(s: State, p: Frame, answer: bool, listing: seq<Addr>)
    requires GoesOnFrom(p) && (p.job.Worker? && Unlocking(p.at) ==> !p.job.loading)
    ensures var q := Flow(s, p, answer, listing); q.job.Worker? && Unlocking(q.at) ==> !q.job.loading
  {
    hide Known, Claimed;
  }

  lemma LeftAside(s: State, f: Id)
    requires f in s.frames && s.frames[f].at.Leave?
    ensures Aside(s, Left(s, f))
  {
  }

  lemma LeftKept(s: State, f: Id)
    requires Inv(s) && Running(s, f) && s.frames[f].at.Leave?
    ensures Inv(Left(s, f))
  {
    hide Threads, Locks, Counter, Memory, Records, Scans, Cleared, Claims, Aside;
    ThreadsLeft(s, f);
    LocksLeft(s, f);
    CounterLeft(s, f);
    MemoryLeft(s, f);
    LeftAside(s, f);
    RecordsAside(s, Left(s, f));
    ScansAside(s, Left(s, f));
    ClearedAside(s, Left(s, f));
    ClaimsAside(s, Left(s, f));
  }

  lemma BegunKept(s: State, thread: Tid, kind: Kind)
    requires Inv(s) && Allowed(s, Begin(thread, kind))
    ensures Inv(Began(s, thread, kind))
  {
    hide Locks, Counter, Memory, Records, Scans, Cleared, Claims;
    ThreadsBegun(s, thread, kind);
    LocksBegun(s, thread, kind);
    CounterBegun(s, thread, kind);
    MemoryBegun(s, thread, kind);
    BegunAside(s, thread, kind);
    RecordsAside(s, Began(s, thread, kind));
    ScansAside(s, Began(s, thread, kind));
    ClearedAside(s, Began(s, thread, kind));
    ClaimsAside(s, Began(s, thread, kind));
  }

  ghost predicate SameActivations(s: State, t: State)
  {
    t.frames == s.frames && t.stacks == s.stacks && t.nextId == s.nextId && t.mutex == s.mutex && t.lock == s.lock &&
    t.loads == s.loads
  }

  lemma ThreadsSame(s: State, t: State)
    requires Threads(s) && SameActivations(s, t)
    ensures Threads(t)
  {
    assert forall u, f :: OnStack(s, u, f) <==> OnStack(t, u, f);
    assert forall u :: Stack(t, u) == Stack(s, u);
  }

  lemma LocksSame(s: State, t: State)
    requires Locks(s) && SameActivations(s, t)
    ensures Locks(t)
  {
  }

  lemma CounterSame(s: State, t: State)
    requires Counter(s) && SameActivations(s, t)
    ensures Counter(t)
  {
  }

  lemma MapRest(s: State, a: Action)
    requires (a.MapElsewhere? || a.Unmap? || a.Identify?) && Allowed(s, a)
    requires Threads(s) && Locks(s) && Counter(s)
    ensures Threads(Apply(s, a)) && Locks(Apply(s, a)) && Counter(Apply(s, a)) && Apply(s, a).nextId == s.nextId
  {
    hide Threads, Locks, Counter, Known, Claimed;
    ThreadsSame(s, Apply(s, a));
    LocksSame(s, Apply(s, a));
    CounterSame(s, Apply(s, a));
  }

  lemma MapKept(s: State, a: Action)
    requires Inv(s) && (a.MapElsewhere? || a.Unmap? || a.Identify?) && Allowed(s, a)
    ensures Inv(Apply(s, a))
  {
    hide Threads, Locks, Counter, Memory, Records, Scans, Cleared, Claims, Aside, Apply;
    MapAside(s, a);
    MapRest(s, a);
    RecordsAside(s, Apply(s, a));
    ScansAside(s, Apply(s, a));
    ClearedAside(s, Apply(s, a));
    ClaimsAside(s, Apply(s, a));
  }

  lemma InsideKept(s: State, a: Action)
    requires Inv(s) && (a.MapInside? || a.Return?) && Allowed(s, a)
    ensures Inv(Apply(s, a))
  {
    hide Threads, Locks, Counter, Memory, Records, Cleared, Claims, LocksChanged, LoadsChanged, MemoryChanged;
    match a
    case MapInside(f, address) =>
      MapInsideChanges(s, f, address);
      InsideLoader(s, Apply(s, a), f);
      MovedKept(s, Apply(s, a), f);
    case Return(f, result) =>
      ReturnChanges(s, f, result);
      InsideLoader(s, Apply(s, a), f);
      MovedKept(s, Apply(s, a), f);
  }

  lemma Kept(s: State, a: Action)
    requires Inv(s) && Allowed(s, a)
    ensures Inv(Apply(s, a))
  {
    hide Inv, Step, Left, Began;
    match a
    case Begin(thread, kind) => BegunKept(s, thread, kind);
    case Go(f, answer, listing) =>
      if s.frames[f].at.Leave? {
        LeftKept(s, f);
      } else {
        GoKept(s, f, answer, listing);
      }
    case MapInside(f, address) => InsideKept(s, a);
    case Return(f, result) => InsideKept(s, a);
    case _ => MapKept(s, a);
  }

  lemma StartedThreads(s: State)
    requires Initial(s)
    ensures WORKER < s.nextId && Threads(s) && Locks(s) && Counter(s) && Memory(s)
  {
    assert InFlight(s) == {};
  }

  lemma Started(s: State)
    requires Initial(s)
    ensures Inv(s)
  {
    hide Threads, Locks, Counter, Memory;
    StartedThreads(s);
    assert s.runtimes == [] && s.claims == [] && s.frames == map[WORKER := s.frames[WORKER]];
  }

  lemma {:induction false} Invariant(states: seq<State>, actions: seq<Action>, k: nat)
    requires Run(states, actions) && k < |states|
    ensures Inv(states[k])
  {
    hide Inv;
    if k == 0 {
      Started(states[0]);
    } else {
      Invariant(states, actions, k - 1);
      assert Next(states[k - 1], actions[k - 1], states[k]);
      Kept(states[k - 1], actions[k - 1]);
    }
  }

  // ---- The promises ----

  // The worker never claims the gates of a runtime that a load under way mapped first:
  // in no reachable state is there such a claim.
  lemma WorkerNeverBeatsALoad(states: seq<State>, actions: seq<Action>, k: nat, c: nat, f: Id)
    requires Run(states, actions) && k < |states|
    requires c < |states[k].claims| && states[k].claims[c].worker
    requires f in states[k].frames && Counted(states[k].frames[f])
    ensures states[k].claims[c].at.Some?
    ensures states[k].claims[c].at.value !in states[k].frames[f].job.images
  {
    Invariant(states, actions, k);
    assert ClaimHolds(states[k], states[k].claims[c]);
  }

  // Despite check-pin-recheck every recorded runtime is pinned and recorded once, and no
  // instance is claimed twice.
  lemma RecordedOnceClaimedOnce(states: seq<State>, actions: seq<Action>, k: nat)
    requires Run(states, actions) && k < |states|
    ensures Distinct(states[k].runtimes)
    ensures forall j :: 0 <= j < |states[k].runtimes| ==> Pinned(states[k], states[k].runtimes[j].handle)
    ensures forall i, j :: 0 <= i < j < |states[k].claims| ==> states[k].claims[i].at != states[k].claims[j].at
    ensures forall j :: 0 <= j < |states[k].claims| ==>
              (states[k].claims[j].at.Some? && states[k].claims[j].at.value in states[k].pinned)
  {
    Invariant(states, actions, k);
    var s := states[k];
    assert forall j :: 0 <= j < |s.claims| ==> ClaimHolds(s, s.claims[j]);
  }

  // When a load is about to report itself done, the gates of the module it asked for are
  // claimed, by a load if it was this one that mapped it, and written unless another
  // activation, a load or the worker, that took them is still at it.
  lemma LoadLeavesGatesMoved(states: seq<State>, actions: seq<Action>, k: nat, f: Id, h: Addr) returns (c: nat)
    requires Run(states, actions) && k < |states|
    requires f in states[k].frames && Counted(states[k].frames[f]) && states[k].frames[f].at.Leave?
    requires states[k].frames[f].job.settled == Some(h)
    ensures c < |states[k].claims| && states[k].claims[c].handle == h && h in states[k].mapped
    ensures states[k].claims[c].at == Some(states[k].mapped[h])
    ensures states[k].mapped[h] in states[k].frames[f].job.images ==> !states[k].claims[c].worker
    ensures states[k].mapped[h] in states[k].written ||
            (states[k].claims[c].claimer != f && states[k].claims[c].claimer in states[k].frames &&
             states[k].frames[states[k].claims[c].claimer].at == Write(h))
  {
    Invariant(states, actions, k);
    var s := states[k];
    assert ClaimOn(s.claims, h);
    c :| 0 <= c < |s.claims| && s.claims[c].handle == h;
    assert ClaimHolds(s, s.claims[c]);
  }

  // The worker is past its copy of the list and has h still to handle.
  predicate Handles(frame: Frame, h: Addr)
  {
    frame.job.Worker? && Scanning(frame.at) &&
    (h in frame.job.listed || (Unlocking(frame.at) && h == frame.at.handle))
  }

  // What the worker reads is pinned: its image cannot be unmapped under it.
  lemma WorkerReadsPinned(states: seq<State>, actions: seq<Action>, k: nat, f: Id, h: Addr)
    requires Run(states, actions) && k < |states|
    requires f in states[k].frames && Handles(states[k].frames[f], h)
    ensures Pinned(states[k], h)
  {
    Invariant(states, actions, k);
    var s := states[k];
    assert Known(s.runtimes, h);
    var j :| 0 <= j < |s.runtimes| && s.runtimes[j].handle == h;
  }

  // What f waits for is held by g's thread, and g is what that thread runs.
  ghost predicate BlockedBy(s: State, f: Id, g: Id)
    requires f in s.frames
  {
    Running(s, g) &&
    ((WantsMutex(s.frames[f].at) && s.mutex == Some(g)) ||
     (WantsLoader(s.frames[f].at) &&
      exists o :: o in s.lock && o in s.frames && s.frames[o].thread == s.frames[g].thread))
  }

  // f's thread can make a step now.
  predicate CanMove(s: State, f: Id)
  {
    Running(s, f) &&
    (if s.frames[f].at.InLoader? then Allowed(s, Return(f, None)) else Allowed(s, Go(f, false, [])))
  }

  lemma MutexHolder(s: State, g: Id)
    requires Locks(s) && s.mutex == Some(g)
    ensures g in s.frames && HoldsMutex(s.frames[g].at)
  {
  }

  // Whoever holds the mutex can go on: it never waits for the loader lock, or at all.
  lemma MutexHolderMoves(s: State, g: Id)
    requires Threads(s) && Locks(s) && s.mutex == Some(g)
    ensures CanMove(s, g)
  {
    hide Threads, Locks, Running, Stack, Top;
    MutexHolder(s, g);
    RunsOrNests(s, g);
  }

  lemma RunsOrNests(s: State, g: Id)
    requires Threads(s) && g in s.frames
    ensures Running(s, g) || CanNest(s.frames[g].at)
  {
  }

  // The running activation of the thread g is on.
  lemma TopRuns(s: State, g: Id) returns (top: Id)
    requires Threads(s) && g in s.frames
    ensures Running(s, top) && s.frames[top].thread == s.frames[g].thread
  {
    var stack := Stack(s, s.frames[g].thread);
    assert g in stack;
    top := Top(stack);
    assert OnStack(s, s.frames[g].thread, s.stacks[s.frames[g].thread][|stack| - 1]);
  }

  lemma Waits(s: State, f: Id)
    requires Inv(s) && Running(s, f) && !CanMove(s, f)
    ensures (WantsMutex(s.frames[f].at) && s.mutex.Some?) || (WantsLoader(s.frames[f].at) && s.lock != {})
  {
    hide Counter, Memory, Records, Cleared, Claims, Threads;
    assert s.frames[f].at.InLoader? ==> Allowed(s, Return(f, None));
  }

  // No deadlock on the two locks: whatever waits, waits for a thread that can move, or
  // for one that waits for a thread that can.
  lemma NoDeadlock(states: seq<State>, actions: seq<Action>, k: nat, f: Id) returns (g: Id, h: Id)
    requires Run(states, actions) && k < |states| && Running(states[k], f)
    ensures CanMove(states[k], f) ||
            (BlockedBy(states[k], f, g) &&
             (CanMove(states[k], g) || (BlockedBy(states[k], g, h) && CanMove(states[k], h))))
  {
    Invariant(states, actions, k);
    g, h := Unblocked(states[k], f);
  }

  lemma Unblocked(s: State, f: Id) returns (g: Id, h: Id)
    requires Inv(s) && Running(s, f)
    ensures CanMove(s, f) ||
            (BlockedBy(s, f, g) && (CanMove(s, g) || (BlockedBy(s, g, h) && CanMove(s, h))))
  {
    hide Counter, Memory, Records, Scans, Cleared, Claims, CanMove;
    g, h := f, f;
    if CanMove(s, f) {
      return;
    }
    Waits(s, f);
    if WantsMutex(s.frames[f].at) {
      g := s.mutex.value;
      MutexHolderMoves(s, g);
      RunsOrNests(s, g);
    } else {
      g := LoaderHolder(s, f);
      if !CanMove(s, g) {
        Waits(s, g);
        LoaderHolderWaits(s, f, g);
        h := s.mutex.value;
        MutexHolderMoves(s, h);
        RunsOrNests(s, h);
      }
    }
  }

  lemma LoaderHolder(s: State, f: Id) returns (g: Id)
    requires Threads(s) && Locks(s) && f in s.frames && WantsLoader(s.frames[f].at) && s.lock != {}
    ensures BlockedBy(s, f, g)
  {
    var o :| o in s.lock;
    g := TopRuns(s, o);
  }

  // The lock is recursive: who runs on the holder's thread is not kept out of it.
  lemma LoaderHolderWaits(s: State, f: Id, g: Id)
    requires Inv(s) && f in s.frames && !WantsMutex(s.frames[f].at) && BlockedBy(s, f, g) && !CanMove(s, g)
    ensures WantsMutex(s.frames[g].at) && s.mutex.Some?
  {
    hide Counter, Memory, Records, Cleared, Claims, Threads;
    Waits(s, g);
    var o :| o in s.lock && o in s.frames && s.frames[o].thread == s.frames[g].thread;
    assert forall p :: p in s.lock ==> s.frames[p].thread == s.frames[o].thread;
  }

  // What is recorded stays recorded, where it is, and claimed once claimed.
  ghost predicate Stays(s: State, t: State)
  {
    forall h :: Known(s.runtimes, h) ==>
      Known(t.runtimes, h) && h in s.mapped && h in t.mapped && t.mapped[h] == s.mapped[h] &&
      (Claimed(s.runtimes, h) ==> Claimed(t.runtimes, h))
  }

  lemma StaysMoved(s: State, t: State, f: Id)
    requires Records(s) && RecordsChanged(s, t, f)
    ensures Stays(s, t)
  {
    KnownGrows(s, t, f);
    if s.frames[f].at.Pushing? {
      ClaimedAppend(s.runtimes, s.frames[f].at.handle);
    }
    forall h | Known(s.runtimes, h)
      ensures h in s.mapped && h in t.mapped && t.mapped[h] == s.mapped[h]
    {
      var k :| 0 <= k < |s.runtimes| && s.runtimes[k].handle == h;
      assert Pinned(s, s.runtimes[k].handle);
    }
  }

  lemma StaysAside(s: State, t: State)
    requires Records(s) && Aside(s, t)
    ensures Stays(s, t)
  {
  }

  lemma StepStays(s: State, a: Action)
    requires Inv(s) && Allowed(s, a)
    ensures Stays(s, Apply(s, a))
  {
    hide Stays, Threads, Locks, Counter, Memory, Records, Cleared, Claims, Aside, Step, Left, Began, RecordsChanged,
      LocksChanged, LoadsChanged, MemoryChanged;
    match a
    case Begin(thread, kind) =>
      BegunAside(s, thread, kind);
      StaysAside(s, Apply(s, a));
    case Go(f, answer, listing) =>
      if s.frames[f].at.Leave? {
        LeftAside(s, f);
        StaysAside(s, Apply(s, a));
      } else {
        GoRecords(s, f, answer, listing);
        StaysMoved(s, Apply(s, a), f);
      }
    case MapInside(f, address) =>
      MapInsideChanges(s, f, address);
      InsideLoader(s, Apply(s, a), f);
      StaysMoved(s, Apply(s, a), f);
    case Return(f, result) =>
      ReturnChanges(s, f, result);
      InsideLoader(s, Apply(s, a), f);
      StaysMoved(s, Apply(s, a), f);
    case _ =>
      MapAside(s, a);
      StaysAside(s, Apply(s, a));
  }

  // A recorded runtime is the same mapping for the rest of the run: its address is never
  // reused, its record never dropped and its claim never taken back.
  lemma {:induction false} RecordsStay(states: seq<State>, actions: seq<Action>, j: nat, k: nat)
    requires Run(states, actions) && j <= k < |states|
    ensures forall h :: Known(states[j].runtimes, h) ==>
              (Known(states[k].runtimes, h) && h in states[j].mapped && h in states[k].mapped &&
               states[k].mapped[h] == states[j].mapped[h] &&
               (Claimed(states[j].runtimes, h) ==> Claimed(states[k].runtimes, h)))
    decreases k - j
  {
    hide Inv, Known, Claimed;
    Invariant(states, actions, j);
    if j == k {
      Recorded(states[j]);
    } else {
      assert Next(states[j], actions[j], states[j + 1]);
      StepStays(states[j], actions[j]);
      RecordsStay(states, actions, j + 1, k);
    }
  }

  lemma Recorded(s: State)
    requires Inv(s)
    ensures Stays(s, s)
  {
    forall h | Known(s.runtimes, h)
      ensures h in s.mapped
    {
      var k :| 0 <= k < |s.runtimes| && s.runtimes[k].handle == h;
      assert Pinned(s, s.runtimes[k].handle);
    }
  }

  // ---- The list as the code keeps it ----

  // g_runtimes: each method is one critical section, and what it does to the list is what
  // the steps above do.
  class RuntimeList {
    var runtimes: seq<Runtime>

    constructor ()
      ensures runtimes == []
    {
      runtimes := [];
    }

    method Find(handle: Addr) returns (at: nat)
      ensures at <= |runtimes| && (at < |runtimes| <==> Known(runtimes, handle))
      ensures at == Position(runtimes, handle)
    {
      at := 0;
      while at < |runtimes|
        invariant at <= |runtimes|
        invariant forall j :: 0 <= j < at ==> runtimes[j].handle != handle
      {
        if runtimes[at].handle == handle {
          break;
        }
        at := at + 1;
      }
      FirstPosition(runtimes, handle, at);
    }

    // The last step of RecordRuntime.
    method Push(handle: Addr) returns (added: bool)
      modifies this
      ensures added == !Known(old(runtimes), handle)
      ensures runtimes == if added then old(runtimes) + [Runtime(handle, false)] else old(runtimes)
    {
      var at := Find(handle);
      added := at == |runtimes|;
      if added {
        runtimes := runtimes + [Runtime(handle, false)];
      }
    }

    method KnownRuntimes() returns (modules: seq<Addr>)
      ensures modules == Modules(runtimes)
    {
      modules := [];
      for k := 0 to |runtimes|
        invariant modules == Modules(runtimes[..k])
      {
        assert Modules(runtimes[..k + 1]) == Modules(runtimes[..k]) + [runtimes[k].handle];
        modules := modules + [runtimes[k].handle];
      }
      assert runtimes[..|runtimes|] == runtimes;
    }

    // True for exactly one caller per runtime.
    method ClaimGates(handle: Addr) returns (claimed: bool)
      requires Distinct(runtimes)
      modifies this
      ensures claimed == (Known(old(runtimes), handle) && !Claimed(old(runtimes), handle))
      ensures runtimes == if claimed then WithClaim(old(runtimes), handle) else old(runtimes)
    {
      var at := Find(handle);
      claimed := at < |runtimes| && !runtimes[at].gatesClaimed;
      assert at < |runtimes| && runtimes[at].gatesClaimed ==> runtimes[at] == Runtime(handle, true);
      if claimed {
        runtimes := runtimes[at := runtimes[at].(gatesClaimed := true)];
      }
    }
  }

  lemma FirstPosition(r: seq<Runtime>, handle: Addr, at: nat)
    requires at <= |r| && (at < |r| ==> r[at].handle == handle)
    requires forall j :: 0 <= j < at ==> r[j].handle != handle
    ensures Position(r, handle) == at
  {
  }
}
