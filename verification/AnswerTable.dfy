/** The lock-free table of last answers (src/streamline/streamline.cpp:271-296).

    A call walks the slots, claims the first empty one by compare-exchange, and exchanges
    the result in the slot of its feature. Each atomic operation is a step, and the steps of
    any number of calls interleave. */
module AnswerTable {
  import opened Bytes

  const TRACKED := 8
  const UINT32_MAX: nat := 0xFFFF_FFFF

  type Feature = nat
  type Id = nat

  datatype Slot = Slot(owner: Option<Feature>, result: nat)

  datatype Stage = Load | CompareExchange | Exchange

  datatype Call = Call(feature: Feature, state: nat, slot: nat, at: Stage)

  // An exchange, and whether it answered that the state had changed.
  datatype Answer = Answer(feature: Feature, state: nat, changed: bool)

  datatype State = State(
    slots: seq<Slot>,
    calls: map<Id, Call>,
    asked: set<Feature>,     // the features ever asked about
    answers: seq<Answer>,    // the exchanges so far, in order
    dropped: set<Feature>)   // the features that found no slot

  datatype Action = Ask(id: Id, feature: Feature, state: nat) | Go(id: Id)

  // ---- Steps -------------------------------------------------------------------------------

  predicate Shaped(s: State)
  {
    |s.slots| == TRACKED && forall id :: id in s.calls ==>
      s.calls[id].slot <= TRACKED && (!s.calls[id].at.Load? ==> s.calls[id].slot < TRACKED)
  }

  predicate Allowed(s: State, a: Action)
  {
    Shaped(s) && if a.Ask? then a.id !in s.calls else a.id in s.calls
  }

  // `owner` is what the call knows of the slot: it is its own, or the next one is tried.
  function Compared(call: Call, owner: Feature): Call
  {
    if owner == call.feature then call.(at := Exchange) else call.(slot := call.slot + 1, at := Load)
  }

  // No slot is left for the feature.
  function Drop(s: State, id: Id, call: Call): State
  {
    s.(calls := s.calls - {id}, dropped := s.dropped + {call.feature})
  }

  // The slot is read, and if it is empty the call goes on to claim it.
  function Look(s: State, id: Id, call: Call): State
    requires call.slot < |s.slots|
  {
    var owner := s.slots[call.slot].owner;
    s.(calls := s.calls[id := if owner.Some? then Compared(call, owner.value) else call.(at := CompareExchange)])
  }

  // The slot is claimed if it is still empty; if not, its owner is known now.
  function Claim(s: State, id: Id, call: Call): State
    requires call.slot < |s.slots|
  {
    var slot := s.slots[call.slot];
    if slot.owner.Some? then s.(calls := s.calls[id := Compared(call, slot.owner.value)])
    else
      s.(slots := s.slots[call.slot := slot.(owner := Some(call.feature))],
         calls := s.calls[id := call.(at := Exchange)])
  }

  function Swap(s: State, id: Id, call: Call): State
    requires call.slot < |s.slots|
  {
    var slot := s.slots[call.slot];
    s.(slots := s.slots[call.slot := slot.(result := call.state)],
       calls := s.calls - {id},
       answers := s.answers + [Answer(call.feature, call.state, slot.result != call.state)])
  }

  function Asked(s: State, id: Id, feature: Feature, state: nat): State
  {
    s.(calls := s.calls[id := Call(feature, state, 0, Load)], asked := s.asked + {feature})
  }

  function Apply(s: State, a: Action): State
    requires Allowed(s, a)
  {
    match a
    case Ask(id, feature, state) => Asked(s, id, feature, state)
    case Go(id) =>
      var call := s.calls[id];
      if call.slot == TRACKED then Drop(s, id, call)
      else
        match call.at
        case Load => Look(s, id, call)
        case CompareExchange => Claim(s, id, call)
        case Exchange => Swap(s, id, call)
  }

  function Start(): State
  {
    State(seq(TRACKED, k => Slot(None, UINT32_MAX)), map[], {}, [], {})
  }

  ghost predicate Next(s: State, a: Action, t: State)
  {
    Allowed(s, a) && t == Apply(s, a)
  }

  ghost predicate Run(states: seq<State>, actions: seq<Action>)
  {
    |states| == |actions| + 1 && states[0] == Start() &&
    forall k :: 0 <= k < |actions| ==> Next(states[k], actions[k], states[k + 1])
  }

  // ---- What every reachable state keeps ------------------------------------------------------

  predicate OwnedBy(s: State, k: int, feature: Feature)
  {
    0 <= k < |s.slots| && s.slots[k].owner == Some(feature)
  }

  // Slots fill from the front, each for another feature.
  predicate Filled(s: State)
  {
    (forall j, k :: 0 <= j < k < |s.slots| && s.slots[k].owner.Some? ==>
      s.slots[j].owner.Some? && s.slots[j].owner != s.slots[k].owner) &&
    (forall k :: 0 <= k < |s.slots| && s.slots[k].owner.Some? ==> s.slots[k].owner.value in s.asked)
  }

  // A call has seen other features' slots only, so far.
  predicate Passed(s: State, call: Call)
  {
    call.feature in s.asked && call.slot <= |s.slots| &&
    (forall k :: 0 <= k < call.slot ==> s.slots[k].owner.Some? && s.slots[k].owner != Some(call.feature)) &&
    (call.at.Exchange? ==> OwnedBy(s, call.slot, call.feature))
  }

  // What the feature's previous exchange left, or the initial value.
  function Previous(answers: seq<Answer>, feature: Feature): nat
  {
    if answers == [] then UINT32_MAX
    else
      var last := answers[|answers| - 1];
      if last.feature == feature then last.state else Previous(answers[..|answers| - 1], feature)
  }

  // A slot's result is what its feature's last exchange left, and each exchange answered
  // whether it differed.
  ghost predicate Answers(s: State)
  {
    (forall k :: 0 <= k < |s.slots| && s.slots[k].owner.Some? ==>
     s.slots[k].result == Previous(s.answers, s.slots[k].owner.value)) &&
    (forall k :: 0 <= k < |s.slots| && s.slots[k].owner.None? ==> s.slots[k].result == UINT32_MAX) &&
    (forall a :: a in s.answers ==> HasSlot(s, a.feature)) &&
    (forall k :: 0 <= k < |s.answers| ==> Truthful(s.answers, k))
  }

  ghost predicate HasSlot(s: State, feature: Feature)
  {
    exists k :: OwnedBy(s, k, feature)
  }

  predicate Truthful(answers: seq<Answer>, k: nat)
    requires k < |answers|
  {
    answers[k].changed <==> answers[k].state != Previous(answers[..k], answers[k].feature)
  }

  // A feature is dropped only when all the slots are others'.
  predicate Drops(s: State)
  {
    forall f :: f in s.dropped ==> f in s.asked && forall k :: 0 <= k < |s.slots| ==>
      s.slots[k].owner.Some? && s.slots[k].owner != Some(f)
  }

  // What no exchange has been made for has its initial value.
  lemma {:induction false} NoPrevious(answers: seq<Answer>, feature: Feature)
    requires forall a :: a in answers ==> a.feature != feature
    ensures Previous(answers, feature) == UINT32_MAX
  {
    if answers != [] {
      NoPrevious(answers[..|answers| - 1], feature);
    }
  }

  ghost predicate Walks(s: State)
  {
    Shaped(s) && Filled(s) && Drops(s) && forall id :: id in s.calls ==> Passed(s, s.calls[id])
  }

  lemma AskWalks(s: State, id: Id, feature: Feature, state: nat)
    requires Walks(s)
    ensures Walks(Asked(s, id, feature, state))
  {
  }

  lemma DropWalks(s: State, id: Id)
    requires Walks(s) && id in s.calls && s.calls[id].slot == TRACKED
    ensures Walks(Drop(s, id, s.calls[id]))
  {
  }

  lemma LookWalks(s: State, id: Id)
    requires Walks(s) && id in s.calls && s.calls[id].slot < TRACKED && s.calls[id].at.Load?
    ensures Walks(Look(s, id, s.calls[id]))
  {
  }

  // The claimed slot is the first empty one: no later slot can be the feature's.
  lemma ClaimWalks(s: State, id: Id)
    requires Walks(s) && id in s.calls && s.calls[id].slot < TRACKED && s.calls[id].at.CompareExchange?
    ensures Walks(Claim(s, id, s.calls[id]))
  {
    var call := s.calls[id];
    assert Passed(s, call);
    if s.slots[call.slot].owner.None? {
      var t := Claim(s, id, call);
      assert forall k :: call.slot <= k < |s.slots| ==> s.slots[k].owner.None?;
      forall i | i in t.calls
        ensures Passed(t, t.calls[i])
      {
        assert Passed(s, s.calls[i]);
      }
    }
  }

  lemma SwapWalks(s: State, id: Id)
    requires Walks(s) && id in s.calls && s.calls[id].slot < TRACKED && s.calls[id].at.Exchange?
    ensures Walks(Swap(s, id, s.calls[id]))
  {
    var t := Swap(s, id, s.calls[id]);
    assert forall k :: 0 <= k < |s.slots| ==> t.slots[k].owner == s.slots[k].owner;
    forall i | i in t.calls
      ensures Passed(t, t.calls[i])
    {
      assert Passed(s, s.calls[i]);
    }
  }

  lemma ClaimAnswers(s: State, id: Id)
    requires Walks(s) && Answers(s) && id in s.calls && s.calls[id].slot < TRACKED && s.calls[id].at.CompareExchange?
    ensures Answers(Claim(s, id, s.calls[id]))
  {
    var call, t := s.calls[id], Claim(s, id, s.calls[id]);
    assert Passed(s, call);
    if s.slots[call.slot].owner.None? {
      forall a | a in s.answers
        ensures a.feature != call.feature && HasSlot(t, a.feature)
      {
        var k :| OwnedBy(s, k, a.feature);
        assert OwnedBy(t, k, a.feature);
      }
      NoPrevious(s.answers, call.feature);
    } else {
      SameAnswers(s, t);
    }
  }

  lemma SwapAnswers(s: State, id: Id)
    requires Walks(s) && Answers(s) && id in s.calls && s.calls[id].slot < TRACKED && s.calls[id].at.Exchange?
    ensures Answers(Swap(s, id, s.calls[id]))
  {
    var call, t := s.calls[id], Swap(s, id, s.calls[id]);
    assert Passed(s, call);
    var n := |s.answers|;
    assert t.answers[..n] == s.answers;
    assert forall f :: Previous(t.answers, f) == if f == call.feature then call.state else Previous(s.answers, f);
    assert OwnedBy(t, call.slot, call.feature);
    forall f | HasSlot(s, f)
      ensures HasSlot(t, f)
    {
      var k :| OwnedBy(s, k, f);
      assert OwnedBy(t, k, f);
    }
    forall k | 0 <= k < |t.answers|
      ensures Truthful(t.answers, k)
    {
      assert k < n ==> t.answers[..k] == s.answers[..k] && Truthful(s.answers, k);
    }
    assert forall k :: 0 <= k < |s.slots| && k != call.slot ==> s.slots[k].owner != Some(call.feature);
  }

  lemma SameAnswers(s: State, t: State)
    requires Answers(s) && t.slots == s.slots && t.answers == s.answers
    ensures Answers(t)
  {
    forall f | HasSlot(s, f)
      ensures HasSlot(t, f)
    {
      var k :| OwnedBy(s, k, f);
      assert OwnedBy(t, k, f);
    }
  }

  ghost predicate Inv(s: State)
  {
    Walks(s) && Answers(s)
  }

  lemma Kept(s: State, a: Action)
    requires Inv(s) && Allowed(s, a)
    ensures Inv(Apply(s, a))
  {
    hide Walks, Answers;
    match a
    case Ask(id, feature, state) =>
      AskWalks(s, id, feature, state);
      SameAnswers(s, Apply(s, a));
    case Go(id) =>
      if s.calls[id].slot == TRACKED {
        DropWalks(s, id);
        SameAnswers(s, Apply(s, a));
      } else {
        match s.calls[id].at {
          case Load =>
            LookWalks(s, id);
            SameAnswers(s, Apply(s, a));
          case CompareExchange =>
            ClaimWalks(s, id);
            ClaimAnswers(s, id);
          case Exchange =>
            SwapWalks(s, id);
            SwapAnswers(s, id);
        }
      }
  }

  lemma {:induction false} Invariant(states: seq<State>, actions: seq<Action>, k: nat)
    requires Run(states, actions) && k < |states|
    ensures Inv(states[k])
  {
    if k > 0 {
      Invariant(states, actions, k - 1);
      assert Next(states[k - 1], actions[k - 1], states[k]);
      hide Inv;
      Kept(states[k - 1], actions[k - 1]);
    }
  }

  // ---- The promises ------------------------------------------------------------------------------

  // A feature never owns two slots.
  lemma OneSlotEach(states: seq<State>, actions: seq<Action>, n: nat, j: int, k: int, feature: Feature)
    requires Run(states, actions) && n < |states| && OwnedBy(states[n], j, feature) && OwnedBy(states[n], k, feature)
    ensures j == k
  {
    Invariant(states, actions, n);
  }

  // A slot's owner is its owner for good.
  lemma {:induction false} OwnerStays(states: seq<State>, actions: seq<Action>, m: nat, n: nat, k: int,
                                      feature: Feature)
    requires Run(states, actions) && m <= n < |states| && OwnedBy(states[m], k, feature)
    ensures OwnedBy(states[n], k, feature)
  {
    if m < n {
      OwnerStays(states, actions, m, n - 1, k, feature);
      assert Next(states[n - 1], actions[n - 1], states[n]);
    }
  }

  // A call answers that the state has changed exactly when it is not what the feature's
  // previous exchange left, counting the initial value as the first.
  lemma AnswersTruthfully(states: seq<State>, actions: seq<Action>, n: nat, k: nat)
    requires Run(states, actions) && n < |states| && k < |states[n].answers|
    ensures states[n].answers[k].changed <==>
            states[n].answers[k].state != Previous(states[n].answers[..k], states[n].answers[k].feature)
  {
    Invariant(states, actions, n);
    assert Truthful(states[n].answers, k);
  }

  function Owners(slots: seq<Slot>, n: nat): (owners: set<Feature>)
    requires n <= |slots| && forall k :: 0 <= k < n ==> slots[k].owner.Some?
  {
    set k | 0 <= k < n :: slots[k].owner.value
  }

  lemma {:induction false} OwnersCount(slots: seq<Slot>, n: nat)
    requires n <= |slots| && forall k :: 0 <= k < n ==> slots[k].owner.Some?
    requires forall j, k :: 0 <= j < k < n ==> slots[j].owner != slots[k].owner
    ensures |Owners(slots, n)| == n
  {
    if n > 0 {
      OwnersCount(slots, n - 1);
      assert Owners(slots, n) == Owners(slots, n - 1) + {slots[n - 1].owner.value};
    }
  }

  // Nothing is dropped while no more features than slots have been asked about.
  lemma NoneDropped(states: seq<State>, actions: seq<Action>, n: nat)
    requires Run(states, actions) && n < |states| && |states[n].asked| <= TRACKED
    ensures states[n].dropped == {}
  {
    Invariant(states, actions, n);
    var s := states[n];
    if f :| f in s.dropped {
      OwnersCount(s.slots, TRACKED);
      var others := Owners(s.slots, TRACKED);
      assert others + {f} <= s.asked;
      SubsetSize(others + {f}, s.asked);
    }
  }

  lemma {:induction false} SubsetSize(a: set<Feature>, b: set<Feature>)
    requires a <= b
    ensures |a| <= |b|
  {
    if a != {} {
      var x :| x in a;
      SubsetSize(a - {x}, b - {x});
    }
  }

  // ---- Every call comes to its end --------------------------------------------------------------

  function Rank(call: Call): int
  {
    3 * (TRACKED - call.slot) + (if call.at.Load? then 2 else if call.at.CompareExchange? then 1 else 0)
  }

  // A step brings a call nearer to its end, and to no end but these: the state it was asked with
  // is exchanged for its feature's previous one and answered for, or its feature has no slot.
  lemma StepConcludes(s: State, id: Id)
    requires Inv(s) && Allowed(s, Go(id))
    ensures var t := Apply(s, Go(id)); var call := s.calls[id];
            if id in t.calls then
              t.calls[id].feature == call.feature && t.calls[id].state == call.state &&
              0 <= Rank(t.calls[id]) < Rank(call) && t.answers == s.answers && t.dropped == s.dropped
            else
              (t.dropped == s.dropped && OneMore(s, t, call)) ||
              (t.answers == s.answers && t.dropped == s.dropped + {call.feature} && !HasSlot(s, call.feature))
  {
    hide Answers;
    assert Passed(s, s.calls[id]);
    if s.calls[id].slot < TRACKED && s.calls[id].at.Exchange? {
      SwapAnswers(s, id);
      ExchangeAnswers(s, Swap(s, id, s.calls[id]), s.calls[id]);
    }
  }

  // One more answer: for this call, and whether its state is another than the previous one.
  predicate OneMore(s: State, t: State, call: Call)
  {
    t.answers ==
    s.answers + [Answer(call.feature, call.state, call.state != Previous(s.answers, call.feature))]
  }

  lemma ExchangeAnswers(s: State, t: State, call: Call)
    requires Answers(t) && |t.answers| == |s.answers| + 1 && t.answers[..|s.answers|] == s.answers
    requires t.answers[|s.answers|].feature == call.feature && t.answers[|s.answers|].state == call.state
    ensures OneMore(s, t, call)
  {
    assert Truthful(t.answers, |s.answers|);
    assert t.answers == t.answers[..|s.answers|] + [t.answers[|s.answers|]];
  }
}
