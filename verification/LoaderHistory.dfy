/** Why the loads and scans of Loader do what they do: nothing is recorded, claimed or written
    but for a reason in the run so far (src/app/loader.cpp:116-156, 188-250 and 320-381). */
module LoaderHistory {
  import opened Bytes
  import opened Loader
  import opened LoaderProgress

  // ---- Every activation comes to its end --------------------------------------------------

  // How far a load has to go; the loader's returns bring it on like its own steps.
  function LoadRank(at: Stage): nat
  {
    match at
    case Enter => 20
    case Map(again) => if again then 19 else 17
    case InLoader(again) => if again then 18 else 16
    case Prepare(h) => 15
    case Check(h) => 14
    case Checking(h) => 13
    case Pin(h) => 12
    case Pinning(h) => 11
    case Push(h) => 10
    case Pushing(h) => 9
    case Ask(h) => 8
    case Asking(h) => 7
    case Gate(h) => 6
    case Claim(h) => 5
    case Claiming(h) => 4
    case Write(h) => 3
    case _ => 0
  }

  lemma FlowGoesDown(s: State, p: Frame, answer: bool, listing: seq<Addr>)
    requires GoesOnFrom(p) && p.job.Load?
    ensures LoadRank(Flow(s, p, answer, listing).at) < LoadRank(p.at)
  {
    hide Known, Claimed, Takes;
  }

  lemma ReturnGoesDown(s: State, f: Id, result: Option<Addr>)
    requires f in s.frames && s.frames[f].at.InLoader?
    ensures f in Returned(s, f, result).frames
    ensures LoadRank(Returned(s, f, result).frames[f].at) < LoadRank(s.frames[f].at)
  {
  }

  // Every step and every return brings a load nearer to its own return.
  lemma LoadGoesDown(s: State, a: Action, f: Id)
    requires Inv(s) && Allowed(s, a) && (a.Go? || a.Return?) && a.frame == f && s.frames[f].job.Load?
    ensures f in Apply(s, a).frames ==> LoadRank(Apply(s, a).frames[f].at) < LoadRank(s.frames[f].at)
  {
    hide Inv, Free, Flow, Step, LoadRank;
    if a.Return? {
      ReturnGoesDown(s, f, a.result);
    } else if !s.frames[f].at.Leave? {
      FrameFits(s, f);
      GoFrame(s, f, a.answer, a.listing);
      FlowGoesDown(s, s.frames[f], a.answer, a.listing);
    }
  }

  lemma FrameFits(s: State, f: Id)
    requires Inv(s) && f in s.frames
    ensures Fits(s.frames[f]) && (s.frames[f].job.Worker? <==> f == WORKER)
  {
  }

  // How far a scan has to go: the part it is in, what it has left of its list, and where it is
  // with the module at hand.
  function ScanPart(at: Stage): nat
  {
    if Recording(at) then 5 else if at.List? then 4 else if at.Listing? then 3 else if at.Count? then 2
    else if at.Idle? then 0 else 1
  }

  ghost predicate ScanBefore(q: Frame, p: Frame)
    requires q.job.Worker? && p.job.Worker?
  {
    ScanPart(q.at) < ScanPart(p.at) ||
    (ScanPart(q.at) == ScanPart(p.at) &&
     (|q.job.listed| < |p.job.listed| ||
      (|q.job.listed| == |p.job.listed| && LoadRank(q.at) < LoadRank(p.at))))
  }

  lemma FlowScanDown(s: State, p: Frame, answer: bool, listing: seq<Addr>)
    requires GoesOnFrom(p) && p.job.Worker? && !p.at.Idle?
    ensures Flow(s, p, answer, listing).job.Worker? && ScanBefore(Flow(s, p, answer, listing), p)
  {
    hide Known, Claimed, Takes, Modules;
  }

  // Every step of a scan brings it nearer to its end.
  lemma ScanGoesDown(s: State, answer: bool, listing: seq<Addr>)
    requires Inv(s) && Allowed(s, Go(WORKER, answer, listing)) && !s.frames[WORKER].at.Idle?
    ensures var t := Apply(s, Go(WORKER, answer, listing));
            WORKER in t.frames && t.frames[WORKER].job.Worker? && s.frames[WORKER].job.Worker? &&
            ScanBefore(t.frames[WORKER], s.frames[WORKER])
  {
    hide Inv, Free, Flow, Step, ScanBefore;
    FrameFits(s, WORKER);
    GoFrame(s, WORKER, answer, listing);
    FlowScanDown(s, s.frames[WORKER], answer, listing);
  }

  lemma StartsEmpty(s: State)
    requires Initial(s)
    ensures s.frames.Keys == {WORKER} && s.frames[WORKER].job.Worker? && s.frames[WORKER].at.Idle?
    ensures s.claims == [] && s.written == {}
    ensures forall h :: !Known(s.runtimes, h) && !ToRecord(s.frames[WORKER], h)
  {
  }

  // ---- What a module is asked for ------------------------------------------------------------

  // f, a load, is told that the module it was returned is a runtime; or the worker that the next
  // on its copy of the list is.
  predicate Wanted(s: State, a: Action, f: Id, h: Addr)
  {
    a.Go? && a.frame == f && a.answer && f in s.frames &&
    (s.frames[f].at == Prepare(h) ||
     (s.frames[f].at.Visit? && s.frames[f].job.Worker? && s.frames[f].job.listed != [] &&
      s.frames[f].job.listed[0] == h))
  }

  // Past that question, of the module at hand.
  predicate Past(frame: Frame)
  {
    Unlocking(frame.at) || (frame.job.Load? && (Recording(frame.at) || frame.at.Ask? || frame.at.Asking?))
  }

  predicate PastOf(frame: Frame, h: Addr)
  {
    Past(frame) && frame.at.handle == h
  }

  lemma FlowWanted(s: State, p: Frame, answer: bool, listing: seq<Addr>, h: Addr)
    requires GoesOnFrom(p) && PastOf(Flow(s, p, answer, listing), h)
    ensures PastOf(p, h) ||
            (answer && (p.at == Prepare(h) ||
                        (p.at.Visit? && p.job.Worker? && p.job.listed != [] && p.job.listed[0] == h)))
  {
    hide Known, Claimed, Takes;
  }

  // What f has at hand was at hand before, or the step was f's own.
  lemma StepBack(s: State, a: Action, f: Id)
    requires Inv(s) && Allowed(s, a) && f in Apply(s, a).frames
    ensures (f in s.frames && Apply(s, a).frames[f] == s.frames[f]) ||
            (a.Begin? && Apply(s, a).frames[f].at.Enter? && Apply(s, a).frames[f].job == Load(a.kind, {}, None)) ||
            (Mine(a, f) && f in s.frames)
  {
    hide Free, Flow, Effect, Known, Claimed, Locks, Counter, Memory, Records, Scans, Cleared, Claims;
    if a.Go? && !s.frames[a.frame].at.Leave? {
      EffectOf(s, a.frame, a.answer);
    }
  }

  lemma OwnStep(s: State, a: Action, f: Id)
    requires Inv(s) && Allowed(s, a) && f in s.frames && f in Apply(s, a).frames && Mine(a, f)
    ensures GoesOnFrom(s.frames[f]) || s.frames[f].at.InLoader?
    ensures a.Go? ==> GoesOnFrom(s.frames[f]) && Apply(s, a).frames[f] == Flow(s, s.frames[f], a.answer, a.listing)
    ensures a.MapInside? || a.Return? ==> s.frames[f].at.InLoader?
  {
    hide Free, Flow, Effect, Known, Claimed, Threads, Locks, Counter, Memory, Records, Cleared, Claims;
    if a.Go? && !s.frames[f].at.Leave? {
      GoFrame(s, f, a.answer, a.listing);
      hide Step;
    }
  }

  lemma WantedBack(s: State, a: Action, f: Id, h: Addr)
    requires Inv(s) && Allowed(s, a) && f in Apply(s, a).frames && PastOf(Apply(s, a).frames[f], h)
    ensures Wanted(s, a, f, h) || (f in s.frames && PastOf(s.frames[f], h))
  {
    hide Inv, Allowed, Flow, Step, Left, PastOf;
    StepBack(s, a, f);
    NewIsNotPast(Apply(s, a).frames[f], h);
    if Mine(a, f) && f in s.frames {
      OwnStep(s, a, f);
      if a.Go? {
        FlowWanted(s, s.frames[f], a.answer, a.listing, h);
      } else {
        InsideIsNotPast(s, a, f, h);
      }
    }
  }

  lemma NewIsNotPast(frame: Frame, h: Addr)
    ensures frame.at.Enter? ==> !PastOf(frame, h)
  {
  }

  lemma InsideIsNotPast(s: State, a: Action, f: Id, h: Addr)
    requires Allowed(s, a) && (a.MapInside? || a.Return?) && a.frame == f
    ensures f in Apply(s, a).frames ==> !PastOf(Apply(s, a).frames[f], h)
  {
  }

  // Whatever is recorded by a load or unlocked by anyone, its claimer was told is a runtime.
  lemma {:induction false} BecauseWanted(states: seq<State>, actions: seq<Action>, k: nat, f: Id, h: Addr)
      returns (i: nat)
    requires Run(states, actions) && k < |states| && f in states[k].frames && PastOf(states[k].frames[f], h)
    ensures i < k && Wanted(states[i], actions[i], f, h)
  {
    hide Inv, Wanted, PastOf, Initial, Allowed;
    NothingPast(states[0], f, h);
    Invariant(states, actions, k - 1);
    assert Next(states[k - 1], actions[k - 1], states[k]);
    WantedBack(states[k - 1], actions[k - 1], f, h);
    if Wanted(states[k - 1], actions[k - 1], f, h) {
      i := k - 1;
    } else {
      i := BecauseWanted(states, actions, k - 1, f, h);
    }
  }

  lemma NothingPast(s: State, f: Id, h: Addr)
    ensures Initial(s) && f in s.frames ==> !PastOf(s.frames[f], h)
  {
  }

  // ---- What the loader returned ---------------------------------------------------------------

  // A load has h at hand.
  predicate AtHand(frame: Frame, h: Addr)
  {
    frame.job.Load? && (frame.at == Prepare(h) || PastOf(frame, h))
  }

  lemma FlowAtHand(s: State, p: Frame, answer: bool, listing: seq<Addr>, h: Addr)
    requires GoesOnFrom(p) && AtHand(Flow(s, p, answer, listing), h)
    ensures AtHand(p, h)
  {
    hide Known, Claimed, Takes;
  }

  lemma InsideAtHand(s: State, a: Action, f: Id, h: Addr)
    requires Allowed(s, a) && (a.MapInside? || a.Return?) && a.frame == f
    requires f in Apply(s, a).frames && AtHand(Apply(s, a).frames[f], h)
    ensures a == Return(f, Some(h)) && s.frames[f].job.Load? && s.frames[f].job.kind.RuntimeLoad?
  {
  }

  lemma AtHandBack(s: State, a: Action, f: Id, h: Addr)
    requires Inv(s) && Allowed(s, a) && f in Apply(s, a).frames && AtHand(Apply(s, a).frames[f], h)
    ensures a == Return(f, Some(h)) || (f in s.frames && AtHand(s.frames[f], h))
  {
    hide Inv, Allowed, Flow, Step, Left, AtHand;
    StepBack(s, a, f);
    NewHasNothing(Apply(s, a).frames[f], h);
    if Mine(a, f) && f in s.frames {
      OwnStep(s, a, f);
      if a.Go? {
        FlowAtHand(s, s.frames[f], a.answer, a.listing, h);
      } else {
        InsideAtHand(s, a, f, h);
      }
    }
  }

  lemma NewHasNothing(frame: Frame, h: Addr)
    ensures frame.at.Enter? || frame.job.Worker? ==> !AtHand(frame, h)
  {
  }

  // A load prepares the module the loader returned to it, and no other.
  lemma {:induction false} BecauseReturned(states: seq<State>, actions: seq<Action>, k: nat, f: Id, h: Addr)
      returns (i: nat)
    requires Run(states, actions) && k < |states| && f in states[k].frames && AtHand(states[k].frames[f], h)
    ensures i < k && actions[i] == Return(f, Some(h))
  {
    hide Inv, AtHand, Allowed;
    StartsWithNothing(states[0], f, h);
    hide Initial;
    Invariant(states, actions, k - 1);
    assert Next(states[k - 1], actions[k - 1], states[k]);
    AtHandBack(states[k - 1], actions[k - 1], f, h);
    if actions[k - 1] == Return(f, Some(h)) {
      i := k - 1;
    } else {
      i := BecauseReturned(states, actions, k - 1, f, h);
    }
  }

  lemma StartsWithNothing(s: State, f: Id, h: Addr)
    ensures Initial(s) && f in s.frames ==> !AtHand(s.frames[f], h)
  {
  }

  // The loader has given f its answer: a module, or none where there is no other try.
  predicate Answers(s: State, a: Action, f: Id)
  {
    a.Return? && a.frame == f && f in s.frames && (a.result.Some? || s.frames[f].at == InLoader(false))
  }

  predicate AfterLoader(frame: Frame)
  {
    frame.job.Load? && (frame.at.Leave? || frame.at.Prepare? || Past(frame))
  }

  lemma FlowAfterLoader(s: State, p: Frame, answer: bool, listing: seq<Addr>)
    requires GoesOnFrom(p) && AfterLoader(Flow(s, p, answer, listing))
    ensures AfterLoader(p)
  {
    hide Known, Claimed, Takes;
  }

  lemma AfterLoaderBack(s: State, a: Action, f: Id)
    requires Inv(s) && Allowed(s, a) && f in Apply(s, a).frames && AfterLoader(Apply(s, a).frames[f])
    ensures Answers(s, a, f) || (f in s.frames && AfterLoader(s.frames[f]))
  {
    hide Inv, Flow, Step, Left, Free;
    StepBack(s, a, f);
    if Mine(a, f) && f in s.frames {
      OwnStep(s, a, f);
      if a.Go? {
        hide AfterLoader;
        FlowAfterLoader(s, s.frames[f], a.answer, a.listing);
      }
    }
  }

  // A load leaves with the loader's answer: a redirect that gave nothing is not one.
  lemma {:induction false} LeavesWithAnAnswer(states: seq<State>, actions: seq<Action>, k: nat, f: Id) returns (i: nat)
    requires Run(states, actions) && k < |states| && f in states[k].frames && AfterLoader(states[k].frames[f])
    ensures i < k && Answers(states[i], actions[i], f)
  {
    hide Inv, AfterLoader, Allowed, Answers;
    StartsBeforeLoader(states[0], f);
    hide Initial;
    Invariant(states, actions, k - 1);
    assert Next(states[k - 1], actions[k - 1], states[k]);
    AfterLoaderBack(states[k - 1], actions[k - 1], f);
    if Answers(states[k - 1], actions[k - 1], f) {
      i := k - 1;
    } else {
      i := LeavesWithAnAnswer(states, actions, k - 1, f);
    }
  }

  lemma StartsBeforeLoader(s: State, f: Id)
    ensures Initial(s) && f in s.frames ==> !AfterLoader(s.frames[f])
  {
  }

  // ---- The GPU -----------------------------------------------------------------------------------

  // f asks whether the GPU is supported, and it is.
  predicate Supports(s: State, a: Action, f: Id, h: Addr)
  {
    a.Go? && a.frame == f && f in s.frames && s.frames[f].at == Gate(h) && s.architecture.Supported?
  }

  predicate Moving(frame: Frame, h: Addr)
  {
    frame.at == Claim(h) || frame.at == Claiming(h) || frame.at == Write(h)
  }

  lemma FlowMoving(s: State, p: Frame, answer: bool, listing: seq<Addr>, h: Addr)
    requires GoesOnFrom(p) && Moving(Flow(s, p, answer, listing), h)
    ensures Moving(p, h) || (p.at == Gate(h) && s.architecture.Supported?)
  {
    hide Known, Claimed, Takes;
  }

  lemma MovingBack(s: State, a: Action, f: Id, h: Addr)
    requires Inv(s) && Allowed(s, a) && f in Apply(s, a).frames && Moving(Apply(s, a).frames[f], h)
    ensures Supports(s, a, f, h) || (f in s.frames && Moving(s.frames[f], h))
  {
    hide Inv, Flow, Step, Left, Free;
    StepBack(s, a, f);
    if Mine(a, f) && f in s.frames {
      OwnStep(s, a, f);
      if a.Go? {
        hide Moving;
        FlowMoving(s, s.frames[f], a.answer, a.listing, h);
      }
    }
  }

  // Gates are claimed only where the GPU was found supported.
  lemma {:induction false} BecauseSupported(states: seq<State>, actions: seq<Action>, k: nat, f: Id, h: Addr)
      returns (i: nat)
    requires Run(states, actions) && k < |states| && f in states[k].frames && Moving(states[k].frames[f], h)
    ensures i < k && Supports(states[i], actions[i], f, h)
  {
    hide Inv, Moving, Allowed, Supports;
    StartsStill(states[0], f, h);
    hide Initial;
    Invariant(states, actions, k - 1);
    assert Next(states[k - 1], actions[k - 1], states[k]);
    MovingBack(states[k - 1], actions[k - 1], f, h);
    if Supports(states[k - 1], actions[k - 1], f, h) {
      i := k - 1;
    } else {
      i := BecauseSupported(states, actions, k - 1, f, h);
    }
  }

  lemma StartsStill(s: State, f: Id, h: Addr)
    ensures Initial(s) && f in s.frames ==> !Moving(s.frames[f], h)
  {
  }

  // ---- What is claimed and written ---------------------------------------------------------------

  // f takes the gates of h.
  predicate TakesThem(s: State, a: Action, f: Id, h: Addr)
  {
    a.Go? && a.frame == f && f in s.frames && s.frames[f].at == Claiming(h) && Takes(s, h)
  }

  lemma ClaimBack(s: State, a: Action, c: GateClaim)
    requires Inv(s) && Allowed(s, a) && c in Apply(s, a).claims
    ensures c in s.claims || TakesThem(s, a, c.claimer, c.handle)
  {
    hide Inv, Known, Claimed, WithClaim, Takes, Free, Flow;
    if a.Go? && !s.frames[a.frame].at.Leave? {
      EffectClaims(s, a.frame, a.answer);
      hide Effect;
    }
  }

  // Every claim was made by one who was told that the module is a runtime, and found the GPU
  // supported.
  lemma {:induction false} ClaimedForAReason(states: seq<State>, actions: seq<Action>, k: nat, c: GateClaim)
      returns (i: nat, j: nat, n: nat)
    requires Run(states, actions) && k < |states| && c in states[k].claims
    ensures i < n && j < n < k && TakesThem(states[n], actions[n], c.claimer, c.handle)
    ensures Wanted(states[i], actions[i], c.claimer, c.handle) && Supports(states[j], actions[j], c.claimer, c.handle)
  {
    hide Inv, Allowed, Wanted, Supports, Known, Claimed, Initial;
    StartsEmpty(states[0]);
    Invariant(states, actions, k - 1);
    assert Next(states[k - 1], actions[k - 1], states[k]);
    ClaimBack(states[k - 1], actions[k - 1], c);
    if c in states[k - 1].claims {
      i, j, n := ClaimedForAReason(states, actions, k - 1, c);
    } else {
      n := k - 1;
      i := BecauseWanted(states, actions, n, c.claimer, c.handle);
      j := BecauseSupported(states, actions, n, c.claimer, c.handle);
    }
  }

  // f writes the gates of the instance.
  predicate WritesThem(s: State, a: Action, f: Id, inst: Inst)
  {
    a.Go? && a.frame == f && f in s.frames && s.frames[f].at.Write? &&
    s.frames[f].at.handle in s.mapped && s.mapped[s.frames[f].at.handle] == inst
  }

  lemma WrittenBack(s: State, a: Action, inst: Inst)
    requires Inv(s) && Allowed(s, a) && inst in Apply(s, a).written
    ensures inst in s.written || (a.Go? && WritesThem(s, a, a.frame, inst))
  {
    hide Inv, Known, Claimed, WithClaim, Takes, Free, Flow;
    if a.Go? && !s.frames[a.frame].at.Leave? {
      EffectClaims(s, a.frame, a.answer);
      hide Effect;
    }
  }

  // What counts as written was written, by one who had claimed it.
  lemma {:induction false} WrittenByAClaimer(states: seq<State>, actions: seq<Action>, k: nat, inst: Inst)
      returns (n: nat, f: Id, h: Addr)
    requires Run(states, actions) && k < |states| && inst in states[k].written
    ensures n < k && WritesThem(states[n], actions[n], f, inst) && states[n].frames[f].at == Write(h)
    ensures ClaimBy(states[n].claims, h, f)
  {
    hide Inv, Allowed, Known, Claimed, Initial;
    StartsEmpty(states[0]);
    Invariant(states, actions, k - 1);
    assert Next(states[k - 1], actions[k - 1], states[k]);
    WrittenBack(states[k - 1], actions[k - 1], inst);
    if inst in states[k - 1].written {
      n, f, h := WrittenByAClaimer(states, actions, k - 1, inst);
    } else {
      n, f := k - 1, actions[k - 1].frame;
      h := states[n].frames[f].at.handle;
      WriterClaimed(states[n], f, h);
    }
  }

  lemma WriterClaimed(s: State, f: Id, h: Addr)
    requires Inv(s) && f in s.frames && s.frames[f].at == Write(h)
    ensures ClaimBy(s.claims, h, f)
  {
  }

  // ---- What is recorded -----------------------------------------------------------------------------

  // The worker's enumeration finds h.
  predicate Enumerated(s: State, a: Action, h: Addr)
  {
    a.Go? && a.frame == WORKER && WORKER in s.frames && s.frames[WORKER].at.Idle? && h in a.listing
  }

  // The worker has h to record.
  predicate ToRecord(frame: Frame, h: Addr)
  {
    frame.job.Worker? && Recording(frame.at) && (frame.at.handle == h || h in frame.job.listed)
  }

  lemma FlowToRecord(s: State, p: Frame, answer: bool, listing: seq<Addr>, h: Addr)
    requires GoesOnFrom(p) && ToRecord(Flow(s, p, answer, listing), h)
    ensures ToRecord(p, h) || (p.job.Worker? && p.at.Idle? && h in listing)
  {
    hide Known, Claimed, Takes;
  }

  lemma ToRecordBack(s: State, a: Action, h: Addr)
    requires Inv(s) && Allowed(s, a) && WORKER in Apply(s, a).frames && ToRecord(Apply(s, a).frames[WORKER], h)
    ensures Enumerated(s, a, h) || (WORKER in s.frames && ToRecord(s.frames[WORKER], h))
  {
    hide Inv, Flow, Step, Left, Free;
    StepBack(s, a, WORKER);
    if Mine(a, WORKER) && WORKER in s.frames {
      OwnStep(s, a, WORKER);
      if a.Go? {
        hide ToRecord;
        FlowToRecord(s, s.frames[WORKER], a.answer, a.listing, h);
      }
    }
  }

  lemma {:induction false} BecauseEnumerated(states: seq<State>, actions: seq<Action>, k: nat, h: Addr) returns (i: nat)
    requires Run(states, actions) && k < |states| && WORKER in states[k].frames && ToRecord(states[k].frames[WORKER], h)
    ensures i < k && Enumerated(states[i], actions[i], h)
  {
    hide Inv, ToRecord, Allowed, Enumerated, Initial;
    StartsEmpty(states[0]);
    Invariant(states, actions, k - 1);
    assert Next(states[k - 1], actions[k - 1], states[k]);
    ToRecordBack(states[k - 1], actions[k - 1], h);
    if Enumerated(states[k - 1], actions[k - 1], h) {
      i := k - 1;
    } else {
      i := BecauseEnumerated(states, actions, k - 1, h);
    }
  }

  lemma KnownBack(s: State, a: Action, h: Addr)
    requires Inv(s) && Allowed(s, a) && Known(Apply(s, a).runtimes, h)
    ensures Known(s.runtimes, h) || (a.Go? && a.frame in s.frames && s.frames[a.frame].at == Pushing(h))
  {
    hide Inv, Takes, Free, Flow, Claimed;
    if a.Go? && !s.frames[a.frame].at.Leave? {
      EffectClaims(s, a.frame, a.answer);
      hide Effect;
    }
  }

  // A runtime is recorded because a load was told that what it was returned is one, or because
  // the worker's enumeration found it.
  lemma {:induction false} RecordedForAReason(states: seq<State>, actions: seq<Action>, k: nat, h: Addr)
      returns (i: nat, f: Id)
    requires Run(states, actions) && k < |states| && Known(states[k].runtimes, h)
    ensures i < k && (Wanted(states[i], actions[i], f, h) || Enumerated(states[i], actions[i], h))
  {
    hide Inv, Allowed, Wanted, Enumerated, Initial, Known;
    StartsEmpty(states[0]);
    Invariant(states, actions, k - 1);
    assert Next(states[k - 1], actions[k - 1], states[k]);
    KnownBack(states[k - 1], actions[k - 1], h);
    if Known(states[k - 1].runtimes, h) {
      i, f := RecordedForAReason(states, actions, k - 1, h);
    } else {
      f := actions[k - 1].frame;
      PushedAtHand(states[k - 1], f, h);
      if f == WORKER {
        i := BecauseEnumerated(states, actions, k - 1, h);
      } else {
        i := BecauseWanted(states, actions, k - 1, f, h);
      }
    }
  }

  lemma PushedAtHand(s: State, f: Id, h: Addr)
    requires Inv(s) && f in s.frames && s.frames[f].at == Pushing(h)
    ensures if f == WORKER then ToRecord(s.frames[f], h) else PastOf(s.frames[f], h)
  {
  }

  // ---- What a load mapped -----------------------------------------------------------------------------

  // f maps the instance.
  predicate Maps(s: State, a: Action, f: Id, inst: Inst)
  {
    a.MapInside? && a.frame == f && s.nextInst == inst
  }

  predicate OwnsImage(s: State, f: Id, inst: Inst)
  {
    f in s.frames && s.frames[f].job.Load? && inst in s.frames[f].job.images
  }

  lemma ImageBack(s: State, a: Action, f: Id, inst: Inst)
    requires Inv(s) && Allowed(s, a) && f in Apply(s, a).frames && Apply(s, a).frames[f].job.Load?
    ensures OwnsImage(Apply(s, a), f, inst) <==> Maps(s, a, f, inst) || OwnsImage(s, f, inst)
  {
    hide Inv, Flow, Step, Left, Free;
    StepBack(s, a, f);
    NextIdFree(s);
    if Mine(a, f) && f in s.frames {
      OwnStep(s, a, f);
      if a.Go? {
        FlowJob(s, s.frames[f], a.answer, a.listing);
      }
    }
  }

  lemma NextIdFree(s: State)
    requires Inv(s)
    ensures forall f :: f in s.frames ==> f < s.nextId
  {
  }

  lemma {:induction false} NotBefore(states: seq<State>, actions: seq<Action>, i: nat, k: nat, f: Id)
    requires Run(states, actions) && i <= k < |states| && f >= states[k].nextId
    ensures f !in states[i].frames
    decreases k - i
  {
    hide Inv, Allowed;
    Invariant(states, actions, i);
    NextIdFree(states[i]);
    if i < k {
      hide Initial;
      assert Next(states[k - 1], actions[k - 1], states[k]);
      NextIds(states[k - 1], actions[k - 1]);
      NotBefore(states, actions, i, k - 1, f);
    }
  }

  lemma NewIsNext(s: State, a: Action, f: Id)
    requires Inv(s) && Allowed(s, a) && f in Apply(s, a).frames && f !in s.frames
    ensures f == s.nextId
  {
    hide Free, Flow, Effect, Known, Claimed, Locks, Counter, Memory, Records, Scans, Cleared, Claims;
    if a.Go? && !s.frames[a.frame].at.Leave? {
      EffectOf(s, a.frame, a.answer);
    }
  }

  ghost predicate HasMapped(states: seq<State>, actions: seq<Action>, k: nat, f: Id, inst: Inst)
    requires k <= |actions| < |states|
  {
    exists i :: 0 <= i < k && f in states[i].frames && Maps(states[i], actions[i], f, inst)
  }

  // The images of a load are those it has mapped itself so far.
  lemma {:induction false} ImagesAreItsOwn(states: seq<State>, actions: seq<Action>, k: nat, f: Id, inst: Inst)
    requires Run(states, actions) && k < |states| && f in states[k].frames && states[k].frames[f].job.Load?
    ensures OwnsImage(states[k], f, inst) <==> HasMapped(states, actions, k, f, inst)
  {
    hide Inv, Allowed, Initial, OwnsImage, Maps;
    StartsEmpty(states[0]);
    if k > 0 {
      var s, a := states[k - 1], actions[k - 1];
      Invariant(states, actions, k - 1);
      assert Next(s, a, states[k]);
      ImageBack(s, a, f, inst);
      MapperIsThere(s, a, f, inst);
      if f in s.frames {
        SameKind(s, a, f);
        ImagesAreItsOwn(states, actions, k - 1, f, inst);
      } else {
        NewIsNext(s, a, f);
        OwnerIsThere(s, f, inst);
        forall i | 0 <= i < k - 1
          ensures f !in states[i].frames
        {
          NotBefore(states, actions, i, k - 1, f);
        }
      }
    }
  }

  lemma MapperIsThere(s: State, a: Action, f: Id, inst: Inst)
    requires Allowed(s, a)
    ensures Maps(s, a, f, inst) ==> f in s.frames
  {
  }

  lemma OwnerIsThere(s: State, f: Id, inst: Inst)
    ensures OwnsImage(s, f, inst) ==> f in s.frames
  {
  }

  lemma SameKind(s: State, a: Action, f: Id)
    requires Inv(s) && Allowed(s, a) && f in s.frames && f in Apply(s, a).frames
    ensures Apply(s, a).frames[f].job.Load? <==> s.frames[f].job.Load?
  {
    hide Inv, Flow, Step, Left, Free;
    StepBack(s, a, f);
    NextIdFree(s);
    if Mine(a, f) {
      OwnStep(s, a, f);
      if a.Go? {
        FlowJob(s, s.frames[f], a.answer, a.listing);
      }
    }
  }
}
