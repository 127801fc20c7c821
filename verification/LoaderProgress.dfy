/** What the loads and scans of Loader get done (src/app/loader.cpp:107-156, 188-244 and
    320-381): whose gates are moved, and what for. */
module LoaderProgress {
  import opened Bytes
  import opened Loader

  // ---- An activation's own steps ----

  // A step of f itself.
  predicate Mine(a: Action, f: Id)
  {
    (a.Go? || a.MapInside? || a.Return?) && a.frame == f
  }

  lemma OthersKeep(s: State, a: Action, f: Id)
    requires Inv(s) && Allowed(s, a) && f in s.frames && !Mine(a, f)
    ensures f in Apply(s, a).frames && Apply(s, a).frames[f] == s.frames[f]
  {
    hide Free, Flow, Effect, Known, Claimed, Locks, Counter, Memory, Records, Scans, Cleared, Claims;
    if a.Go? && !s.frames[a.frame].at.Leave? {
      EffectOf(s, a.frame, a.answer);
    }
  }

  // The next frame of an activation that goes on.
  lemma GoFrame(s: State, f: Id, answer: bool, listing: seq<Addr>)
    requires f in s.frames
    ensures var t := Step(s, f, answer, listing);
            f in t.frames && t.frames[f] == Flow(s, s.frames[f], answer, listing) &&
            t.runtimes == Effect(s, f, answer).runtimes
  {
    hide Flow;
    EffectOf(s, f, answer);
    hide Effect;
  }

  lemma NextIds(s: State, a: Action)
    requires Allowed(s, a)
    ensures s.nextId <= Apply(s, a).nextId
  {
    hide Free, Flow, Effect, Known, Claimed;
    if a.Go? && !s.frames[a.frame].at.Leave? {
      EffectOf(s, a.frame, a.answer);
    }
  }

  // An activation that is gone does not come back.
  lemma GoneStays(s: State, a: Action, f: Id)
    requires Allowed(s, a) && f !in s.frames && f < s.nextId
    ensures f !in Apply(s, a).frames
  {
    hide Free, Flow, Effect, Known, Claimed;
    if a.Go? && !s.frames[a.frame].at.Leave? {
      EffectOf(s, a.frame, a.answer);
    }
  }

  // ---- A load of the runtime ----

  // f is on its way from the loader's return of h to its own, with h recorded by the time it
  // asks, and asked for by the time it leaves.
  predicate OnItsWay(s: State, f: Id, h: Addr)
  {
    f in s.frames ==>
      var frame := s.frames[f];
      frame.job.Load? &&
      if frame.at.Leave? then frame.job.settled == Some(h)
      else if frame.at.Prepare? then frame.at.handle == h
      else if Recording(frame.at) then frame.at.handle == h
      else if frame.at.Ask? || frame.at.Asking? then frame.at.handle == h && Known(s.runtimes, h)
      else Unlocking(frame.at) && frame.at.handle == h && (frame.at.Write? ==> frame.job.settled == Some(h))
  }

  // What the next step of f does, when the module is mapped, answered for and wanted.
  lemma GoOnItsWay(s: State, f: Id, h: Addr, listing: seq<Addr>)
    requires f in s.frames && OnItsWay(s, f, h) && !s.frames[f].at.Leave?
    requires h in s.mapped && s.architecture.Supported?
    ensures OnItsWay(Step(s, f, true, listing), f, h)
  {
    GoFrame(s, f, true, listing);
    PushKnown(s, f);
    hide Known, Claimed, Step;
  }

  lemma PushKnown(s: State, f: Id)
    requires f in s.frames
    ensures s.frames[f].at.Pushing? ==> Known(Effect(s, f, true).runtimes, s.frames[f].at.handle)
  {
    if s.frames[f].at.Pushing? && !Known(s.runtimes, s.frames[f].at.handle) {
      assert Effect(s, f, true).runtimes[|s.runtimes|].handle == s.frames[f].at.handle;
    }
  }

  lemma KnownStays(s: State, a: Action, h: Addr)
    requires Inv(s) && Allowed(s, a)
    ensures Known(s.runtimes, h) ==> Known(Apply(s, a).runtimes, h)
    ensures Known(s.runtimes, h) && Claimed(s.runtimes, h) ==> Claimed(Apply(s, a).runtimes, h)
  {
    hide Inv, Known, Claimed;
    StepStays(s, a);
  }

  lemma OthersOnItsWay(s: State, a: Action, f: Id, h: Addr)
    requires Inv(s) && Allowed(s, a) && f in s.frames && !Mine(a, f) && OnItsWay(s, f, h)
    ensures OnItsWay(Apply(s, a), f, h)
  {
    hide Known, Claimed, Apply, Allowed, Inv;
    KnownStays(s, a, h);
    OthersKeep(s, a, f);
  }

  lemma NotInside(s: State, f: Id, h: Addr)
    requires f in s.frames && OnItsWay(s, f, h)
    ensures !s.frames[f].at.InLoader?
  {
  }

  lemma LeftIsGone(s: State, f: Id, h: Addr)
    requires f in s.frames
    ensures OnItsWay(Left(s, f), f, h)
  {
  }

  lemma GoneOnItsWay(s: State, f: Id, h: Addr)
    ensures f !in s.frames ==> OnItsWay(s, f, h)
  {
  }

  lemma StepOnItsWay(s: State, a: Action, f: Id, h: Addr)
    requires Inv(s) && Allowed(s, a) && f < s.nextId && OnItsWay(s, f, h)
    requires h in s.mapped && s.architecture.Supported? && (a.Go? && a.frame == f ==> a.answer)
    ensures OnItsWay(Apply(s, a), f, h) && f < Apply(s, a).nextId
  {
    hide OnItsWay, Inv, Step, Left;
    NextIds(s, a);
    GoneOnItsWay(Apply(s, a), f, h);
    if f !in s.frames {
      GoneStays(s, a, f);
    } else if !Mine(a, f) {
      OthersOnItsWay(s, a, f, h);
    } else {
      NotInside(s, f, h);
      if s.frames[f].at.Leave? {
        LeftIsGone(s, f, h);
      } else {
        GoOnItsWay(s, f, h, a.listing);
      }
    }
  }

  // Between two states of a run h stays mapped, the GPU supported, and each of f's questions
  // answered yes.
  ghost predicate Helped(states: seq<State>, actions: seq<Action>, f: Id, h: Addr, j: nat, k: nat)
    requires k <= |actions| < |states|
  {
    forall i :: j <= i < k ==>
      h in states[i].mapped && states[i].architecture.Supported? &&
      (actions[i].Go? && actions[i].frame == f ==> actions[i].answer)
  }

  lemma {:induction false} StaysOnItsWay(states: seq<State>, actions: seq<Action>, j: nat, k: nat, f: Id, h: Addr)
    requires Run(states, actions) && j <= k < |states| && f < states[j].nextId && OnItsWay(states[j], f, h)
    requires Helped(states, actions, f, h, j, k)
    ensures OnItsWay(states[k], f, h)
    decreases k - j
  {
    hide Inv, OnItsWay;
    if j < k {
      Invariant(states, actions, j);
      assert Next(states[j], actions[j], states[j + 1]);
      StepOnItsWay(states[j], actions[j], f, h);
      StaysOnItsWay(states, actions, j + 1, k, f, h);
    }
  }

  lemma ReturnedOnItsWay(s: State, f: Id, h: Addr)
    requires Threads(s) && Allowed(s, Return(f, Some(h))) && s.frames[f].job.Load? && s.frames[f].job.kind.RuntimeLoad?
    ensures OnItsWay(Apply(s, Return(f, Some(h))), f, h) && f < Apply(s, Return(f, Some(h))).nextId
  {
  }

  // The loader returns a runtime to a load that asked for one. If the GPU is supported and the
  // module stays, is a runtime and can be pinned, then by the time the load leaves its gates are
  // claimed, and written unless another activation is at it.
  lemma LoadMovesTheGates(states: seq<State>, actions: seq<Action>, j: nat, k: nat, f: Id, h: Addr)
    requires Run(states, actions) && j < k < |states| && actions[j] == Return(f, Some(h))
    requires f in states[j].frames && states[j].frames[f].job.Load? && states[j].frames[f].job.kind.RuntimeLoad?
    requires Helped(states, actions, f, h, j + 1, k)
    requires f in states[k].frames && states[k].frames[f].at.Leave?
    ensures Claimed(states[k].runtimes, h) && h in states[k].mapped
    ensures states[k].mapped[h] in states[k].written || WrittenByAnother(states[k], f, h)
  {
    Invariant(states, actions, j);
    assert Next(states[j], actions[j], states[j + 1]);
    ReturnedOnItsWay(states[j], f, h);
    StaysOnItsWay(states, actions, j + 1, k, f, h);
    Invariant(states, actions, k);
    hide Helped, Threads, Locks, Counter, Memory, Records, Scans, Cleared, Known, Run, Next;
    ClaimedIsWritten(states[k], f, h);
  }

  // Another activation is about to write them.
  ghost predicate WrittenByAnother(s: State, f: Id, h: Addr)
  {
    exists g :: g in s.frames && g != f && s.frames[g].at == Write(h)
  }

  lemma ClaimedIsWritten(s: State, f: Id, h: Addr)
    requires Claims(s) && Claimed(s.runtimes, h) && (f in s.frames ==> s.frames[f].at != Write(h))
    ensures h in s.mapped && (s.mapped[h] in s.written || WrittenByAnother(s, f, h))
  {
    hide Known, Claimed;
    var c :| 0 <= c < |s.claims| && s.claims[c].handle == h;
    assert ClaimHolds(s, s.claims[c]);
  }

  // ---- A scan ----------------------------------------------------------------------------

  // h is still to be recorded, or on the list; from the copy of the list on it is on the copy
  // and still to be visited, or claimed; and at the end it is claimed.
  predicate StillToDo(s: State, h: Addr)
  {
    WORKER in s.frames && s.frames[WORKER].job.Worker? &&
    var frame := s.frames[WORKER];
    if Recording(frame.at) then h in frame.job.listed || frame.at.handle == h || Known(s.runtimes, h)
    else
      Known(s.runtimes, h) &&
      (frame.at.List? || frame.at.Listing? || Claimed(s.runtimes, h) ||
       (frame.at.Count? && h in frame.job.listed) ||
       (frame.at.Visit? && h in frame.job.listed && !frame.job.loading) ||
       (Unlocking(frame.at) && !frame.job.loading &&
        (h in frame.job.listed || (frame.at.handle == h && !frame.at.Write?))))
  }

  lemma ModulesHold(runtimes: seq<Runtime>, h: Addr)
    ensures h in Modules(runtimes) <==> Known(runtimes, h)
  {
    assert forall k :: 0 <= k < |runtimes| ==> Modules(runtimes)[k] == runtimes[k].handle;
  }

  lemma ClaimingClaims(s: State, h: Addr)
    requires WORKER in s.frames && s.frames[WORKER].at == Claiming(h) && Known(s.runtimes, h)
    ensures Claimed(Effect(s, WORKER, true).runtimes, h)
  {
  }

  // The worker's next step, when its questions are answered yes and no load is under way.
  lemma GoStillToDo(s: State, h: Addr, listing: seq<Addr>)
    requires Inv(s) && Allowed(s, Go(WORKER, true, listing)) && StillToDo(s, h)
    requires h in s.mapped && s.architecture.Supported?
    requires WORKER in s.frames && (s.frames[WORKER].at.Count? ==> s.loads == 0)
    ensures StillToDo(Step(s, WORKER, true, listing), h)
  {
    hide Known, Claimed, Inv, Allowed, Step, StillToDo;
    WorkerIs(s, h);
    GoFrame(s, WORKER, true, listing);
    PushKnown(s, WORKER);
    WorkerFits(s);
    StepKnown(s, h, listing);
    ModulesHold(s.runtimes, h);
    if s.frames[WORKER].at == Claiming(h) && Known(s.runtimes, h) {
      ClaimingClaims(s, h);
    }
    FlowStillToDo(s, Step(s, WORKER, true, listing), h, listing);
  }

  lemma StepKnown(s: State, h: Addr, listing: seq<Addr>)
    requires Inv(s) && Allowed(s, Go(WORKER, true, listing)) && WORKER in s.frames && s.frames[WORKER].job.Worker?
    ensures var t := Step(s, WORKER, true, listing);
            (Known(s.runtimes, h) ==> Known(t.runtimes, h)) &&
            (Known(s.runtimes, h) && Claimed(s.runtimes, h) ==> Claimed(t.runtimes, h))
  {
    hide Known, Claimed, Inv, Step;
    WorkerFits(s);
    KnownStays(s, Go(WORKER, true, listing), h);
  }

  lemma WorkerIs(s: State, h: Addr)
    requires StillToDo(s, h)
    ensures WORKER in s.frames && s.frames[WORKER].job.Worker?
  {
  }

  lemma WorkerFits(s: State)
    requires Inv(s) && WORKER in s.frames
    ensures Fits(s.frames[WORKER])
  {
  }

  lemma FlowStillToDo(s: State, t: State, h: Addr, listing: seq<Addr>)
    requires StillToDo(s, h) && WORKER in t.frames && Fits(s.frames[WORKER])
    requires h in s.mapped && s.architecture.Supported? && (s.frames[WORKER].at.Count? ==> s.loads == 0)
    requires t.frames[WORKER] == Flow(s, s.frames[WORKER], true, listing)
    requires Known(s.runtimes, h) ==> Known(t.runtimes, h)
    requires Known(s.runtimes, h) && Claimed(s.runtimes, h) ==> Claimed(t.runtimes, h)
    requires s.frames[WORKER].at == Pushing(h) ==> Known(t.runtimes, h)
    requires s.frames[WORKER].at == Claiming(h) && Known(s.runtimes, h) ==> Claimed(t.runtimes, h)
    requires h in Modules(s.runtimes) <==> Known(s.runtimes, h)
    ensures StillToDo(t, h)
  {
    hide Known, Claimed;
  }

  // The worker reads the counter.
  predicate Counts(s: State, a: Action)
  {
    a.Go? && a.frame == WORKER && WORKER in s.frames && s.frames[WORKER].at.Count?
  }

  ghost predicate HelpedScan(states: seq<State>, actions: seq<Action>, h: Addr, j: nat, k: nat)
    requires k <= |actions| < |states|
  {
    Helped(states, actions, WORKER, h, j, k) &&
    forall i :: j <= i < k && Counts(states[i], actions[i]) ==> states[i].loads == 0
  }

  lemma OthersStillToDo(s: State, a: Action, h: Addr)
    requires Inv(s) && Allowed(s, a) && StillToDo(s, h) && !Mine(a, WORKER)
    ensures StillToDo(Apply(s, a), h)
  {
    hide Known, Claimed, Apply, Allowed, Inv;
    KnownStays(s, a, h);
    OthersKeep(s, a, WORKER);
  }

  lemma WorkerOnlyGoes(s: State, a: Action)
    requires Inv(s) && Allowed(s, a) && Mine(a, WORKER) && s.frames[WORKER].job.Worker?
    ensures a.Go? && !s.frames[WORKER].at.Leave?
  {
    WorkerFits(s);
    hide Inv;
  }

  lemma StepStillToDo(s: State, a: Action, h: Addr)
    requires Inv(s) && Allowed(s, a) && StillToDo(s, h) && h in s.mapped && s.architecture.Supported?
    requires a.Go? && a.frame == WORKER ==> a.answer && (s.frames[WORKER].at.Count? ==> s.loads == 0)
    ensures StillToDo(Apply(s, a), h)
  {
    hide Known, Claimed, Inv, Step;
    if Mine(a, WORKER) {
      WorkerOnlyGoes(s, a);
      hide StillToDo;
      GoStillToDo(s, h, a.listing);
    } else {
      OthersStillToDo(s, a, h);
    }
  }

  lemma {:induction false} StaysToDo(states: seq<State>, actions: seq<Action>, j: nat, k: nat, h: Addr)
    requires Run(states, actions) && j <= k < |states| && StillToDo(states[j], h)
    requires HelpedScan(states, actions, h, j, k)
    ensures StillToDo(states[k], h)
    decreases k - j
  {
    hide Inv, StillToDo;
    if j < k {
      Invariant(states, actions, j);
      assert Next(states[j], actions[j], states[j + 1]);
      StepStillToDo(states[j], actions[j], h);
      StaysToDo(states, actions, j + 1, k, h);
    }
  }

  // The worker takes its copy of the list with h on it. If it finds no load under way, and h is
  // a runtime of a supported GPU, the gates of h are claimed when the scan is over, and written
  // unless a load is at it.
  lemma ScanMovesTheGates(states: seq<State>, actions: seq<Action>, j: nat, k: nat, h: Addr)
    requires Run(states, actions) && j <= k < |states| && HelpedScan(states, actions, h, j, k)
    requires WORKER in states[j].frames && states[j].frames[WORKER].at.Listing? && Known(states[j].runtimes, h)
    requires WORKER in states[k].frames && states[k].frames[WORKER].at.Idle?
    ensures Claimed(states[k].runtimes, h) && h in states[k].mapped
    ensures states[k].mapped[h] in states[k].written || WrittenByAnother(states[k], WORKER, h)
  {
    hide HelpedScan, Run, Known, Claimed, Inv, StillToDo, WrittenByAnother;
    Invariant(states, actions, j);
    Invariant(states, actions, k);
    ListingToDo(states[j], h);
    StaysToDo(states, actions, j, k, h);
    DoneIsWritten(states[k], h);
  }

  lemma ListingToDo(s: State, h: Addr)
    requires Inv(s) && WORKER in s.frames && s.frames[WORKER].at.Listing? && Known(s.runtimes, h)
    ensures StillToDo(s, h)
  {
    WorkerFits(s);
    hide Inv, Known;
  }

  lemma DoneIsWritten(s: State, h: Addr)
    requires Inv(s) && WORKER in s.frames && StillToDo(s, h)
    ensures s.frames[WORKER].at.Listing? ==> Known(s.runtimes, h)
    ensures s.frames[WORKER].at.Idle? ==>
      Claimed(s.runtimes, h) && h in s.mapped && (s.mapped[h] in s.written || WrittenByAnother(s, WORKER, h))
  {
    hide Known, Claimed, Threads, Locks, Counter, Memory, Records, Scans, Cleared, WrittenByAnother;
    if s.frames[WORKER].at.Idle? {
      ClaimedIsWritten(s, WORKER, h);
    }
  }

  // And it records every module it enumerates that stays and can be pinned, so a scan that finds
  // h mapped has claimed its gates when it is over.
  lemma ScanFindsAndMoves(states: seq<State>, actions: seq<Action>, j: nat, k: nat, h: Addr)
    requires Run(states, actions) && j < k < |states| && HelpedScan(states, actions, h, j + 1, k)
    requires WORKER in states[j].frames && states[j].frames[WORKER].at.Idle?
    requires actions[j].Go? && actions[j].frame == WORKER && h in actions[j].listing
    requires WORKER in states[k].frames
    ensures states[k].frames[WORKER].at.Listing? ==> Known(states[k].runtimes, h)
    ensures states[k].frames[WORKER].at.Idle? ==>
      Claimed(states[k].runtimes, h) && h in states[k].mapped &&
      (states[k].mapped[h] in states[k].written || WrittenByAnother(states[k], WORKER, h))
  {
    assert Next(states[j], actions[j], states[j + 1]);
    hide HelpedScan, Run, Known, Claimed, Inv, StillToDo, WrittenByAnother, Allowed, Step;
    Invariant(states, actions, j);
    Invariant(states, actions, k);
    WorkerFits(states[j]);
    StartsToDo(states[j], h, actions[j].answer, actions[j].listing);
    StaysToDo(states, actions, j + 1, k, h);
    DoneIsWritten(states[k], h);
  }

  lemma StartsToDo(s: State, h: Addr, answer: bool, listing: seq<Addr>)
    requires WORKER in s.frames && s.frames[WORKER].at.Idle? && s.frames[WORKER].job.Worker? && h in listing
    ensures StillToDo(Step(s, WORKER, answer, listing), h)
  {
    GoFrame(s, WORKER, answer, listing);
    hide Step;
  }
}
