/** What a condition code asks of a comparison, and so which comparisons src/core/x86.cpp:62-121
    tells apart (Intel 64 SDM Vol. 1, appendix B, for the flags each code tests). */
module Flags {
  import opened X86

  type word = v: int | 0 <= v < 0x1_0000_0000

  // ---- The flags of cmp a, b -----------------------------------------------------------

  function Difference(a: word, b: word): word { (a - b) % 0x1_0000_0000 }
  function Signed32(v: word): int { if v < 0x8000_0000 then v else v - 0x1_0000_0000 }

  function Ones(v: nat): nat { if v == 0 then 0 else v % 2 + Ones(v / 2) }

  predicate Carry(a: word, b: word) { a < b }
  predicate Zero(a: word, b: word) { Difference(a, b) == 0 }
  predicate Sign(a: word, b: word) { Difference(a, b) >= 0x8000_0000 }
  predicate Overflow(a: word, b: word) { !(-0x8000_0000 <= Signed32(a) - Signed32(b) < 0x8000_0000) }
  predicate Parity(a: word, b: word) { Ones(Difference(a, b) % 0x100) % 2 == 0 }

  // What the instruction that carries the code does after cmp a, b. An odd code is the negation
  // of the even one before it.
  predicate Taken(code: nat, a: word, b: word)
  {
    if code % 2 == 1 && code > 0 then !Taken(code - 1, a, b)
    else if code == 0x0 then Overflow(a, b)
    else if code == 0x2 then Carry(a, b)
    else if code == 0x4 then Zero(a, b)
    else if code == 0x6 then Carry(a, b) || Zero(a, b)
    else if code == 0x8 then Sign(a, b)
    else if code == 0xA then Parity(a, b)
    else if code == 0xC then Sign(a, b) != Overflow(a, b)
    else Zero(a, b) || Sign(a, b) != Overflow(a, b)
  }

  // ---- The relations it can be --------------------------------------------------------

  datatype Relation =
    | Equal | NotEqual
    | Below | AboveEqual | BelowEqual | Above     // of the words as they are
    | Less | GreaterEqual | LessEqual | Greater   // of the words as signed numbers

  predicate Holds(r: Relation, a: word, b: word)
  {
    match r
    case Equal => a == b
    case NotEqual => a != b
    case Below => a < b
    case AboveEqual => a >= b
    case BelowEqual => a <= b
    case Above => a > b
    case Less => Signed32(a) < Signed32(b)
    case GreaterEqual => Signed32(a) >= Signed32(b)
    case LessEqual => Signed32(a) <= Signed32(b)
    case Greater => Signed32(a) > Signed32(b)
  }

  predicate Orders(r: Relation) { !r.Equal? && !r.NotEqual? }

  // The code is taken exactly where the relation holds.
  ghost predicate Is(code: nat, r: Relation)
  {
    forall a: word, b: word :: Taken(code, a, b) <==> Holds(r, a, b)
  }

  function RelationOf(code: nat): Relation
    requires code in {0x2, 0x3, 0x4, 0x5, 0x6, 0x7, 0xC, 0xD, 0xE, 0xF}
  {
    if code == 0x2 then Below else if code == 0x3 then AboveEqual
    else if code == 0x4 then Equal else if code == 0x5 then NotEqual
    else if code == 0x6 then BelowEqual else if code == 0x7 then Above
    else if code == 0xC then Less else if code == 0xD then GreaterEqual
    else if code == 0xE then LessEqual else Greater
  }

  lemma IsItsRelation(code: nat, a: word, b: word)
    requires code in {0x2, 0x3, 0x4, 0x5, 0x6, 0x7, 0xC, 0xD, 0xE, 0xF}
    ensures Taken(code, a, b) <==> Holds(RelationOf(code), a, b)
  {
    Even(code, a, b);
    SignedLess(a, b);
  }

  lemma Even(code: nat, a: word, b: word)
    ensures code % 2 == 1 ==> (Taken(code, a, b) <==> !Taken(code - 1, a, b))
  {
  }

  lemma SignedLess(a: word, b: word)
    ensures Sign(a, b) != Overflow(a, b) <==> Signed32(a) < Signed32(b)
    ensures Zero(a, b) <==> a == b
  {
  }

  lemma IsAll(code: nat)
    requires code in {0x2, 0x3, 0x4, 0x5, 0x6, 0x7, 0xC, 0xD, 0xE, 0xF}
    ensures Is(code, RelationOf(code))
  {
    forall a: word, b: word
      ensures Taken(code, a, b) <==> Holds(RelationOf(code), a, b)
    {
      IsItsRelation(code, a, b);
    }
  }

  // ---- And only those ------------------------------------------------------------------

  // Pairs of words that tell the relations, and the other codes, from each other.
  const PROBES: seq<(word, word)> :=
    [(0, 0), (0, 1), (1, 0), (0x8000_0000, 0), (0x8000_0000, 1), (3, 0)]

  ghost predicate Alike(r: Relation, q: Relation)
  {
    forall k :: 0 <= k < |PROBES| ==> (Holds(r, PROBES[k].0, PROBES[k].1) <==> Holds(q, PROBES[k].0, PROBES[k].1))
  }

  lemma RelationsDiffer(r: Relation, q: Relation)
    ensures Alike(r, q) ==> r == q
  {
    assert Alike(r, q) ==> forall k :: 0 <= k < 4 ==>
      (Holds(r, PROBES[k].0, PROBES[k].1) <==> Holds(q, PROBES[k].0, PROBES[k].1));
    assert PROBES[0] == (0, 0) && PROBES[1] == (0, 1) && PROBES[2] == (1, 0) && PROBES[3] == (0x8000_0000, 0);
  }

  lemma OneRelation(code: nat, r: Relation, q: Relation)
    requires Is(code, r) && Is(code, q)
    ensures r == q
  {
    forall k | 0 <= k < |PROBES|
      ensures Holds(r, PROBES[k].0, PROBES[k].1) <==> Holds(q, PROBES[k].0, PROBES[k].1)
    {
      assert Taken(code, PROBES[k].0, PROBES[k].1) <==> Holds(r, PROBES[k].0, PROBES[k].1);
    }
    RelationsDiffer(r, q);
  }

  lemma OnesOf()
    ensures Ones(0) == 0 && Ones(1) == 1 && Ones(3) == 2 && Ones(0xFF) == 8
  {
    assert Ones(7) == 1 + Ones(3);
    assert Ones(0xF) == 1 + Ones(7);
    assert Ones(0x1F) == 1 + Ones(0xF);
    assert Ones(0x3F) == 1 + Ones(0x1F);
    assert Ones(0x7F) == 1 + Ones(0x3F);
    assert Ones(0xFF) == 1 + Ones(0x7F);
  }

  lemma ParityAt()
    ensures Parity(0, 0) && Parity(0, 1) && !Parity(1, 0)
    ensures Parity(0x8000_0000, 0) && Parity(0x8000_0000, 1) && Parity(3, 0)
  {
    hide Ones;
    OnesOf();
  }

  // What overflow, sign and parity are after comparing each of the pairs.
  function ProbeAnswers(code: nat): seq<bool>
  {
    if code == 0x0 then [false, false, false, false, true, false]
    else if code == 0x8 then [false, true, false, true, false, false]
    else [true, true, false, true, true, true]
  }

  lemma ProbesTaken(code: nat)
    requires code in {0x0, 0x8, 0xA}
    ensures var answers := ProbeAnswers(code);
            Taken(code, 0, 0) == answers[0] && Taken(code, 0, 1) == answers[1] && Taken(code, 1, 0) == answers[2] &&
            Taken(code, 0x8000_0000, 0) == answers[3] && Taken(code, 0x8000_0000, 1) == answers[4] &&
            Taken(code, 3, 0) == answers[5]
  {
    ParityAt();
    hide Parity;
  }

  lemma IsAt(code: nat, r: Relation, a: word, b: word)
    requires Is(code, r)
    ensures Taken(code, a, b) <==> Holds(r, a, b)
  {
  }

  // Overflow, sign and parity are no relation of the two, nor are their negations.
  lemma NoRelation(code: nat, r: Relation)
    requires code in {0x0, 0x1, 0x8, 0x9, 0xA, 0xB}
    ensures !Is(code, r)
  {
    hide Taken, Is;
    var even := if code % 2 == 1 then code - 1 else code;
    ProbesTaken(even);
    if Is(code, r) {
      IsAt(code, r, 0, 0);
      IsAt(code, r, 0, 1);
      IsAt(code, r, 1, 0);
      IsAt(code, r, 0x8000_0000, 0);
      IsAt(code, r, 0x8000_0000, 1);
      IsAt(code, r, 3, 0);
      Even(code, 0, 0);
      Even(code, 0, 1);
      Even(code, 1, 0);
      Even(code, 0x8000_0000, 0);
      Even(code, 0x8000_0000, 1);
      Even(code, 3, 0);
      assert false;
    }
  }

  // The classes are what the codes are: an equality test is one that is taken for equal words
  // only, or for different ones only, and an ordering test is one of the eight orders.
  lemma Classified(code: nat)
    requires code < 16
    ensures FromConditionCode(code) == Equality <==> Is(code, Equal) || Is(code, NotEqual)
    ensures FromConditionCode(code) == Ordering <==> exists r :: Orders(r) && Is(code, r)
  {
    hide Is;
    if code in {0x0, 0x1, 0x8, 0x9, 0xA, 0xB} {
      forall r: Relation ensures !Is(code, r) { NoRelation(code, r); }
    } else {
      IsAll(code);
      assert code in {0x2, 0x3, 0x6, 0x7, 0xC, 0xD, 0xE, 0xF} ==> Orders(RelationOf(code));
      forall r: Relation | Is(code, r) ensures r == RelationOf(code) { OneRelation(code, r, RelationOf(code)); }
    }
  }

  // ---- Moving the bound of an order ----------------------------------------------------

  // An order test of the new bound answers for it as that of the old bound did for that, and
  // for no id below the new or above the old is the answer another one.
  lemma BoundMoved(code: nat, was: word, now: word, id: word)
    requires code < 16 && FromConditionCode(code) == Ordering && now <= was < 0x8000_0000
    ensures Taken(code, now, now) == Taken(code, was, was)
    ensures id < now || id > was ==> Taken(code, id, now) == Taken(code, id, was)
  {
    hide Taken;
    IsItsRelation(code, now, now);
    IsItsRelation(code, was, was);
    IsItsRelation(code, id, now);
    IsItsRelation(code, id, was);
  }

  // Of an equality test the new bound changes the answer for both.
  lemma EqualityMoved(code: nat, was: word, now: word)
    requires code < 16 && FromConditionCode(code) == Equality && now != was
    ensures Taken(code, now, now) != Taken(code, now, was) && Taken(code, was, now) != Taken(code, was, was)
  {
    hide Taken;
    IsItsRelation(code, now, now);
    IsItsRelation(code, was, was);
    IsItsRelation(code, now, was);
    IsItsRelation(code, was, now);
  }

  // ---- Which instructions carry a code --------------------------------------------------

  // Jcc rel8, Jcc rel32, SETcc or CMOVcc with this code.
  predicate Carries(d: Decoded, code: nat)
  {
    code < 16 &&
    (d.opcode == 0x70 + code ||
     (d.opcode == 0x0F && (d.opcode2 == 0x80 + code || d.opcode2 == 0x90 + code || d.opcode2 == 0x40 + code)))
  }

  lemma TestedIs(d: Decoded, code: nat)
    ensures Carries(d, code) ==> ConditionTested(d) == FromConditionCode(code)
    ensures ConditionTested(d) == NotConditional <==> forall c: nat :: !Carries(d, c)
  {
    if 0x70 <= d.opcode <= 0x7F {
      assert Carries(d, d.opcode - 0x70);
    } else if d.opcode == 0x0F && 0x40 <= d.opcode2 <= 0x4F {
      assert Carries(d, d.opcode2 - 0x40);
    } else if d.opcode == 0x0F && 0x80 <= d.opcode2 <= 0x8F {
      assert Carries(d, d.opcode2 - 0x80);
    } else if d.opcode == 0x0F && 0x90 <= d.opcode2 <= 0x9F {
      assert Carries(d, d.opcode2 - 0x90);
    }
  }
}
