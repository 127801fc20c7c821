/** The `.target sm_NN` rewriter and the plain-PTX route of src/kernels/fatbin.cpp. */
module PtxTarget {
  import opened Bytes

  // A directive opens with the one dot it has and holds no digit or line end.
  // Everything about the rewrite follows from that, whatever the text.
  type Directive = d: seq<byte> | IsDirective(d) witness [0x2E]

  predicate IsDirective(d: seq<byte>)
  {
    |d| > 0 && d[0] == DOT && forall i :: 0 < i < |d| ==> d[i] != DOT && !IsDigit(d[i]) && d[i] != NEWLINE
  }

  // ".target sm_"
  const DIRECTIVE: Directive := [0x2E, 0x74, 0x61, 0x72, 0x67, 0x65, 0x74, 0x20, 0x73, 0x6D, 0x5F]
  // ".version "
  const VERSION: Directive := [0x2E, 0x76, 0x65, 0x72, 0x73, 0x69, 0x6F, 0x6E, 0x20]
  const HEADER_WINDOW := 4096
  const DOT: byte := 0x2E
  const NEWLINE: byte := 0x0A

  lemma DirectivesSpelled()
    ensures DIRECTIVE == Ascii(".target sm_") && VERSION == Ascii(".version ")
  {
  }

  predicate IsDigit(b: byte) { 0x30 <= b <= 0x39 }

  predicate AllDigits(s: seq<byte>) { forall i :: 0 <= i < |s| ==> IsDigit(s[i]) }

  // ---- Searching ----------------------------------------------------------

  predicate OccursAt(text: seq<byte>, pattern: seq<byte>, p: nat)
  {
    p + |pattern| <= |text| && text[p..p + |pattern|] == pattern
  }

  ghost predicate NoneIn(text: seq<byte>, pattern: seq<byte>, from: nat, to: nat)
  {
    forall q :: from <= q < to ==> !OccursAt(text, pattern, q)
  }

  // The first occurrence at or after `from`.
  ghost predicate NextAt(text: seq<byte>, pattern: seq<byte>, from: nat, at: nat)
  {
    from <= at && OccursAt(text, pattern, at) && NoneIn(text, pattern, from, at)
  }

  // std::string::find
  function Find(text: seq<byte>, pattern: seq<byte>, from: nat): (at: Option<nat>)
    ensures at.Some? ==> from <= at.value && at.value + |pattern| <= |text|
    ensures at.Some? ==> NextAt(text, pattern, from, at.value)
    ensures at.None? ==> NoneIn(text, pattern, from, |text| + 1)
    decreases |text| - from
  {
    if from + |pattern| > |text| then None
    else if OccursAt(text, pattern, from) then Some(from)
    else Find(text, pattern, from + 1)
  }

  // Length of the digit run that opens the text.
  function DigitRun(text: seq<byte>): (n: nat)
    ensures n <= |text|
  {
    if text == [] || !IsDigit(text[0]) then 0 else 1 + DigitRun(text[1..])
  }

  lemma {:induction false} DigitsRun(text: seq<byte>, i: nat)
    requires i < DigitRun(text)
    ensures IsDigit(text[i])
  {
    if i > 0 {
      DigitsRun(text[1..], i - 1);
    }
  }

  lemma {:induction false} DigitRunEnds(text: seq<byte>)
    ensures DigitRun(text) < |text| ==> !IsDigit(text[DigitRun(text)])
  {
    if text != [] && IsDigit(text[0]) {
      DigitRunEnds(text[1..]);
    }
  }

  lemma DigitRunSpec(text: seq<byte>)
    ensures AllDigits(text[..DigitRun(text)])
    ensures DigitRun(text) < |text| ==> !IsDigit(text[DigitRun(text)])
  {
    hide DigitRun;
    DigitRunEnds(text);
    forall i | 0 <= i < DigitRun(text)
      ensures IsDigit(text[i])
    {
      DigitsRun(text, i);
    }
  }

  lemma DigitRunIs(text: seq<byte>, n: nat)
    requires n <= |text| && AllDigits(text[..n]) && (n < |text| ==> !IsDigit(text[n]))
    ensures DigitRun(text) == n
  {
    hide DigitRun;
    var m := DigitRun(text);
    DigitRunSpec(text);
    assert forall i :: 0 <= i < n ==> text[..n][i] == text[i];
    assert forall i :: 0 <= i < m ==> text[..m][i] == text[i];
  }

  // ---- Decimal numbers ----------------------------------------------------

  // std::to_string
  function Decimal(v: nat): (s: seq<byte>)
    ensures |s| > 0 && AllDigits(s)
    ensures v > 0 ==> s[0] != 0x30
  {
    if v < 10 then [0x30 + v] else Decimal(v / 10) + [0x30 + v % 10]
  }

  function Value(digits: seq<byte>): nat
    requires AllDigits(digits)
  {
    if digits == [] then 0
    else 10 * Value(digits[..|digits| - 1]) + (digits[|digits| - 1] - 0x30)
  }

  lemma {:induction false} DecimalValue(v: nat)
    ensures Value(Decimal(v)) == v
  {
    if v < 10 {
      assert Decimal(v)[..0] == [];
    } else {
      DecimalValue(v / 10);
      assert Decimal(v)[..|Decimal(v)| - 1] == Decimal(v / 10);
    }
  }

  // A uint32 has at most ten digits, one fewer than the directive has characters.
  lemma DecimalShort(v: nat)
    requires v < 0x1_0000_0000
    ensures |Decimal(v)| <= 10 < |DIRECTIVE|
  {
    assert Pow10(5) == 100_000;
    assert Pow10(10) == 10_000_000_000;
    DecimalWidth(v, 10);
  }

  lemma {:induction false} DecimalWidth(v: nat, width: nat)
    requires width > 0 && v < Pow10(width)
    ensures |Decimal(v)| <= width
  {
    if v >= 10 {
      DecimalWidth(v / 10, width - 1);
    }
  }

  function Pow10(n: nat): nat { if n == 0 then 1 else 10 * Pow10(n - 1) }

  // A leading part of a number written in digits is no larger than the number,
  // and is not zero when the number does not open with one.
  lemma {:induction false} PrefixValue(digits: seq<byte>, m: nat)
    requires AllDigits(digits) && 0 < m <= |digits|
    ensures AllDigits(digits[..m]) && Value(digits[..m]) <= Value(digits)
    ensures digits[0] != 0x30 ==> Value(digits[..m]) > 0
  {
    if m == |digits| {
      assert digits[..m] == digits;
      if |digits| > 1 {
        PrefixValue(digits[..m - 1], m - 1);
        assert digits[..m - 1][..m - 1] == digits[..m - 1];
      } else {
        assert Value(digits[..0]) == 0;
      }
    } else {
      PrefixValue(digits[..|digits| - 1], m);
      assert digits[..|digits| - 1][..m] == digits[..m];
    }
  }

  // std::from_chars into a uint32: no digits or a value out of range leaves 0.
  function FromChars(text: seq<byte>): (v: nat)
    ensures v < 0x1_0000_0000
  {
    DigitRunSpec(text);
    var n := DigitRun(text);
    var v := Value(text[..n]);
    if v < 0x1_0000_0000 then v else 0
  }

  // The digits of a number, up to where they end, are that number if it is of 32 bits.
  lemma NumberRead(v: nat, rest: seq<byte>)
    requires !DigitFirst(rest)
    ensures FromChars(Decimal(v) + rest) == if v < 0x1_0000_0000 then v else 0
  {
    DecimalValue(v);
    var text := Decimal(v) + rest;
    assert text[..|Decimal(v)|] == Decimal(v);
    DigitRunIs(text, |Decimal(v)|);
  }

  // ---- The rewrite --------------------------------------------------------

  predicate Starts(text: seq<byte>, w: seq<byte>)
  {
    |w| <= |text| && text[..|w|] == w
  }

  // What stands behind a directive in the result, when n digits stood there.
  function Mid(n: nat, digits: seq<byte>): seq<byte> { if n > 0 then digits else [] }

  // Replaces the maximal digit run after each directive by `digits`, and
  // copies everything else.
  function Rewrite(text: seq<byte>, d: Directive, digits: seq<byte>): seq<byte>
    decreases |text|
  {
    if text == [] then []
    else if Starts(text, d) then
      var rest := text[|d|..];
      var n := DigitRun(rest);
      d + (Mid(n, digits) + Rewrite(rest[n..], d, digits))
    else [text[0]] + Rewrite(text[1..], d, digits)
  }

  predicate DigitFirst(text: seq<byte>) { text != [] && IsDigit(text[0]) }
  predicate DotFree(w: seq<byte>) { forall i :: 0 <= i < |w| ==> w[i] != DOT }

  // The lemmas below take a text apart by concatenation: a copied character, or a
  // directive with the digits behind it, and the rest.

  lemma StartsCat(w: seq<byte>, rest: seq<byte>)
    ensures Starts(w + rest, w) && (w + rest)[|w|..] == rest
  {
  }

  lemma StartsCons(c: byte, text: seq<byte>, w: seq<byte>)
    requires w != []
    ensures Starts([c] + text, w) <==> c == w[0] && Starts(text, w[1..])
  {
  }

  lemma RunIs(run: seq<byte>, rest: seq<byte>)
    requires AllDigits(run) && !DigitFirst(rest)
    ensures DigitRun(run + rest) == |run| && (run + rest)[|run|..] == rest
  {
    assert (run + rest)[..|run|] == run;
    DigitRunIs(run + rest, |run|);
  }

  lemma Copy(c: byte, text: seq<byte>, d: Directive, digits: seq<byte>)
    requires !Starts([c] + text, d)
    ensures Rewrite([c] + text, d, digits) == [c] + Rewrite(text, d, digits)
  {
  }

  lemma Hit(d: Directive, run: seq<byte>, rest: seq<byte>, digits: seq<byte>)
    requires AllDigits(run) && !DigitFirst(rest)
    ensures Rewrite(d + (run + rest), d, digits) == d + (Mid(|run|, digits) + Rewrite(rest, d, digits))
  {
    StartsCat(d, run + rest);
    RunIs(run, rest);
  }

  // The three shapes a text can have.
  lemma Shape(text: seq<byte>, d: Directive) returns (run: seq<byte>, rest: seq<byte>)
    requires text != []
    ensures Starts(text, d) ==> text == d + (run + rest) && AllDigits(run) && !DigitFirst(rest)
    ensures Starts(text, d) ==> |run| == DigitRun(text[|d|..]) && rest == text[|d| + |run|..]
    ensures !Starts(text, d) ==> text == [text[0]] + rest && rest == text[1..]
    ensures |rest| < |text|
  {
    if Starts(text, d) {
      var tail := text[|d|..];
      var n := DigitRun(tail);
      DigitRunSpec(tail);
      run, rest := tail[..n], tail[n..];
      assert tail == run + rest;
      assert text == d + tail;
      assert rest == text[|d| + n..];
    } else {
      run, rest := [], text[1..];
    }
  }

  // Text in which no directive starts, whatever follows it.
  predicate Clear(pre: seq<byte>, rest: seq<byte>, d: Directive)
  {
    pre == [] || (!Starts(pre + rest, d) && Clear(pre[1..], rest, d))
  }

  lemma {:induction false} Skip(pre: seq<byte>, rest: seq<byte>, d: Directive, digits: seq<byte>)
    requires Clear(pre, rest, d)
    ensures Rewrite(pre + rest, d, digits) == pre + Rewrite(rest, d, digits)
  {
    if pre == [] {
      assert pre + rest == rest && pre + Rewrite(rest, d, digits) == Rewrite(rest, d, digits);
    } else {
      Skip(pre[1..], rest, d, digits);
      assert pre + rest == [pre[0]] + (pre[1..] + rest);
      Copy(pre[0], pre[1..] + rest, d, digits);
      hide *;
      assert [pre[0]] + pre[1..] == pre;
      ConcatAssoc([pre[0]], pre[1..], Rewrite(rest, d, digits));
    }
  }

  // A directive opens with a dot, so none starts in text without dots.
  lemma {:induction false} DotFreeClear(pre: seq<byte>, rest: seq<byte>, d: Directive)
    requires DotFree(pre)
    ensures Clear(pre, rest, d)
  {
    if pre != [] {
      NeedsDot(pre + rest, d);
      DotFreeClear(pre[1..], rest, d);
    }
  }

  lemma NeedsDot(text: seq<byte>, d: Directive)
    requires text != [] && text[0] != DOT
    ensures !Starts(text, d)
  {
  }

  lemma SkipDotFree(pre: seq<byte>, rest: seq<byte>, d: Directive, digits: seq<byte>)
    requires DotFree(pre)
    ensures Rewrite(pre + rest, d, digits) == pre + Rewrite(rest, d, digits)
  {
    DotFreeClear(pre, rest, d);
    Skip(pre, rest, d, digits);
  }

  // A directive that names an architecture.
  ghost predicate HasTarget(text: seq<byte>, d: Directive)
  {
    exists p: nat :: TargetAt(text, d, p)
  }

  predicate TargetAt(text: seq<byte>, d: Directive, p: nat)
  {
    OccursAt(text, d, p) && p + |d| < |text| && IsDigit(text[p + |d|])
  }

  // ---- The loop ------------------------------------------------------------

  // std::string::replace
  function ReplaceRange(text: seq<byte>, at: nat, count: nat, with: seq<byte>): (r: seq<byte>)
    requires at + count <= |text|
    ensures |r| == |text| - count + |with|
  {
    text[..at] + with + text[at + count..]
  }

  // What the loop keeps: `done` is final, the search resumes in `todo`.
  ghost predicate Scanned(ptx: seq<byte>, done: seq<byte>, todo: seq<byte>, d: Directive, digits: seq<byte>,
                          rewritten: bool)
  {
    && done + Rewrite(todo, d, digits) == Rewrite(ptx, d, digits)
    && (rewritten ==> HasTarget(ptx, d))
    && (!rewritten ==> done + todo == ptx && NoTargetBefore(ptx, d, |done|))
  }

  ghost predicate NoTargetBefore(text: seq<byte>, d: Directive, from: nat)
  {
    forall p: nat :: TargetAt(text, d, p) ==> from <= p
  }

  lemma FromStart(ptx: seq<byte>, d: Directive, digits: seq<byte>)
    ensures [] + ptx == ptx && Scanned(ptx, [], ptx, d, digits, false)
  {
  }

  // Occurrences in the second half of a text.
  lemma OccursBehind(pre: seq<byte>, rest: seq<byte>, w: seq<byte>, q: nat)
    ensures OccursAt(pre + rest, w, |pre| + q) <==> OccursAt(rest, w, q)
  {
  }

  lemma OccursFront(text: seq<byte>, w: seq<byte>)
    ensures OccursAt(text, w, 0) <==> Starts(text, w)
  {
  }

  // The text up to the next occurrence is clear.
  lemma {:induction false} ClearTo(done: seq<byte>, pre: seq<byte>, rest: seq<byte>, d: Directive)
    requires NoneIn(done + (pre + rest), d, |done|, |done| + |pre|)
    ensures Clear(pre, rest, d)
    decreases |pre|
  {
    if pre != [] {
      OccursBehind(done, pre + rest, d, 0);
      assert !OccursAt(done + (pre + rest), d, |done|);
      OccursFront(pre + rest, d);
      assert done + [pre[0]] + (pre[1..] + rest) == done + (pre + rest);
      ClearTo(done + [pre[0]], pre[1..], rest, d);
    }
  }

  // Takes the text apart at the next occurrence.
  lemma TakeApart(done: seq<byte>, todo: seq<byte>, d: Directive, at: nat)
    returns (pre: seq<byte>, run: seq<byte>, rest: seq<byte>)
    requires NextAt(done + todo, d, |done|, at)
    ensures todo == pre + (d + (run + rest)) && |done| + |pre| == at
    ensures AllDigits(run) && !DigitFirst(rest) && Clear(pre, d + (run + rest), d)
    ensures |run| == DigitRun((done + todo)[at + |d|..])
  {
    var p := at - |done|;
    pre := todo[..p];
    var tail := todo[p..];
    OccursBehind(done, todo, d, p);
    OccursBehind(pre, tail, d, 0);
    assert todo == pre + tail;
    OccursFront(tail, d);
    run, rest := Shape(tail, d);
    assert tail[|d|..] == (done + todo)[at + |d|..];
    ClearTo(done, pre, tail, d);
  }

  lemma AllDigitsDotFree(s: seq<byte>)
    requires AllDigits(s)
    ensures DotFree(s)
  {
  }

  // One step: the digits behind the directive are replaced, and the search
  // resumes right behind the directive.
  lemma StepValue(pre: seq<byte>, d: Directive, run: seq<byte>, rest: seq<byte>, digits: seq<byte>)
    requires AllDigits(run) && !DigitFirst(rest) && Clear(pre, d + (run + rest), d) && AllDigits(digits)
    ensures Rewrite(pre + (d + (run + rest)), d, digits) ==
            (pre + d) + Rewrite(Mid(|run|, digits) + rest, d, digits)
  {
    Skip(pre, d + (run + rest), d, digits);
    Hit(d, run, rest, digits);
    AllDigitsDotFree(digits);
    SkipDotFree(Mid(|run|, digits), rest, d, digits);
    hide *;
    ConcatAssoc(pre, d, Rewrite(Mid(|run|, digits) + rest, d, digits));
  }

  lemma StepTarget(text: seq<byte>, d: Directive, from: nat, at: nat)
    requires NextAt(text, d, from, at) && NoTargetBefore(text, d, from)
    ensures at + |d| < |text| && IsDigit(text[at + |d|]) ==> HasTarget(text, d)
    ensures !(at + |d| < |text| && IsDigit(text[at + |d|])) ==> NoTargetBefore(text, d, at + |d|)
  {
    if at + |d| < |text| && IsDigit(text[at + |d|]) {
      assert TargetAt(text, d, at);
    }
    NoOverlap(text, d, at);
  }

  lemma OpensWithDot(text: seq<byte>, d: Directive)
    ensures forall p: nat :: OccursAt(text, d, p) ==> text[p] == DOT
  {
  }

  // No directive starts inside another one.
  lemma NoOverlap(text: seq<byte>, d: Directive, at: nat)
    requires OccursAt(text, d, at)
    ensures forall q: nat :: at < q < at + |d| ==> !OccursAt(text, d, q)
  {
    OpensWithDot(text, d);
    forall q: nat | at < q < at + |d| ensures !OccursAt(text, d, q) {
      assert text[q] == text[at..at + |d|][q - at] == d[q - at];
    }
  }

  lemma Regroup(a: seq<byte>, b: seq<byte>, c: seq<byte>, e: seq<byte>)
    ensures a + (b + (c + e)) == (a + (b + c)) + e
  {
  }

  lemma BehindIsDigit(a: seq<byte>, run: seq<byte>, rest: seq<byte>)
    requires AllDigits(run) && !DigitFirst(rest)
    ensures var text := a + (run + rest);
            run != [] <==> |a| < |text| && IsDigit(text[|a|])
  {
  }

  lemma ScanTarget(ptx: seq<byte>, done: seq<byte>, d: Directive, pre: seq<byte>, run: seq<byte>, rest: seq<byte>)
    requires AllDigits(run) && !DigitFirst(rest)
    requires ptx == done + (pre + (d + (run + rest))) && NextAt(ptx, d, |done|, |done| + |pre|)
    requires NoTargetBefore(ptx, d, |done|)
    ensures run != [] ==> HasTarget(ptx, d)
    ensures run == [] ==> NoTargetBefore(ptx, d, |done + (pre + d)|) && (done + (pre + d)) + rest == ptx
  {
    StepTarget(ptx, d, |done|, |done| + |pre|);
    Regroup(done, pre, d, run + rest);
    BehindIsDigit(done + (pre + d), run, rest);
    hide *;
    if run == [] {
      assert run + rest == rest;
    }
  }

  lemma ScanStep(ptx: seq<byte>, done: seq<byte>, d: Directive, digits: seq<byte>, rewritten: bool,
                 pre: seq<byte>, run: seq<byte>, rest: seq<byte>)
    requires AllDigits(digits) && AllDigits(run) && !DigitFirst(rest) && Clear(pre, d + (run + rest), d)
    requires Scanned(ptx, done, pre + (d + (run + rest)), d, digits, rewritten)
    requires NextAt(done + (pre + (d + (run + rest))), d, |done|, |done| + |pre|)
    ensures Scanned(ptx, done + (pre + d), Mid(|run|, digits) + rest, d, digits, rewritten || run != [])
  {
    StepValue(pre, d, run, rest, digits);
    ConcatAssoc(done, pre + d, Rewrite(Mid(|run|, digits) + rest, d, digits));
    if !rewritten {
      ScanTarget(ptx, done, d, pre, run, rest);
      assert run == [] ==> Mid(|run|, digits) + rest == rest;
    }
    hide Rewrite, NextAt, NoTargetBefore, HasTarget, Clear;
  }

  lemma ScanDone(ptx: seq<byte>, done: seq<byte>, todo: seq<byte>, d: Directive, digits: seq<byte>, rewritten: bool)
    requires Scanned(ptx, done, todo, d, digits, rewritten) && NoneIn(done + todo, d, |done|, |done + todo| + 1)
    ensures done + todo == Rewrite(ptx, d, digits)
    ensures rewritten <==> HasTarget(ptx, d)
  {
    assert todo + [] == todo;
    ClearTo(done, todo, [], d);
    Skip(todo, [], d, digits);
  }

  // The in-place loop, for any directive longer than the replacement. The buffer
  // may grow at every occurrence; the search still ends, because a replacement
  // is shorter than the directive the search has just stepped over.
  method RewriteDirective(ptx: seq<byte>, d: Directive, replacement: seq<byte>)
    returns (out: seq<byte>, rewritten: bool)
    requires AllDigits(replacement) && |replacement| < |d|
    ensures out == Rewrite(ptx, d, replacement)
    ensures rewritten <==> HasTarget(ptx, d)
  {
    hide *;
    var text := ptx;
    rewritten := false;
    ghost var done, todo := [], ptx;
    FromStart(ptx, d, replacement);
    var at := Find(text, d, 0);
    while at.Some?
      invariant text == done + todo
      invariant at == Find(text, d, |done|)
      invariant Scanned(ptx, done, todo, d, replacement, rewritten)
      decreases |todo|
    {
      ghost var pre, run, rest := TakeApart(done, todo, d, at.value);
      ScanStep(ptx, done, d, replacement, rewritten, pre, run, rest);
      Together(done, pre, d, run, rest, replacement);
      var digits := at.value + |d|;
      var count := DigitRun(text[digits..]);
      if count > 0 {
        text := ReplaceRange(text, digits, count, replacement);
        rewritten := true;
      }
      done, todo := done + (pre + d), Mid(|run|, replacement) + rest;
      at := Find(text, d, digits);
    }
    ScanDone(ptx, done, todo, d, replacement, rewritten);
    out := text;
  }

  // The buffer after one step.
  lemma Together(done: seq<byte>, pre: seq<byte>, d: Directive, run: seq<byte>, rest: seq<byte>, digits: seq<byte>)
    ensures var text := done + (pre + (d + (run + rest))); var at := |done| + |pre| + |d|;
            && at + |run| <= |text|
            && (|run| > 0 ==> ReplaceRange(text, at, |run|, digits) == (done + (pre + d)) + (Mid(|run|, digits) + rest))
            && (|run| == 0 ==> text == (done + (pre + d)) + (Mid(|run|, digits) + rest))
            && |Mid(|run|, digits)| <= |digits|
  {
  }

  function Retargeted(ptx: seq<byte>, arch: nat): seq<byte>
  {
    Rewrite(ptx, DIRECTIVE, Decimal(arch))
  }

  method RewriteTargetDirective(ptx: seq<byte>, arch: nat) returns (out: seq<byte>, rewritten: bool)
    requires arch < 0x1_0000_0000
    ensures out == Retargeted(ptx, arch)
    ensures rewritten <==> HasTarget(ptx, DIRECTIVE)
  {
    DecimalShort(arch);
    out, rewritten := RewriteDirective(ptx, DIRECTIVE, Decimal(arch));
  }

  // ---- What the rewrite means ---------------------------------------------

  // Dot-free text at the front is copied, so it is there after exactly when it
  // was there before.
  lemma {:induction false} FrontPreserved(text: seq<byte>, d: Directive, digits: seq<byte>, w: seq<byte>)
    requires DotFree(w)
    ensures Starts(Rewrite(text, d, digits), w) <==> Starts(text, w)
    decreases |text|
  {
    if w != [] && text != [] {
      var run, rest := Shape(text, d);
      if Starts(text, d) {
        Hit(d, run, rest, digits);
        assert d == [DOT] + d[1..];
        StartsCons(DOT, d[1..] + (run + rest), w);
        StartsCons(DOT, d[1..] + (Mid(|run|, digits) + Rewrite(rest, d, digits)), w);
        ConcatAssoc([DOT], d[1..], run + rest);
        ConcatAssoc([DOT], d[1..], Mid(|run|, digits) + Rewrite(rest, d, digits));
      } else {
        Copy(text[0], rest, d, digits);
        FrontPreserved(rest, d, digits, w[1..]);
        hide *;
        StartsCons(text[0], rest, w);
        StartsCons(text[0], Rewrite(rest, d, digits), w);
      }
    }
  }

  // A directive is not made where there was none.
  lemma CopyPreserved(c: byte, text: seq<byte>, d: Directive, digits: seq<byte>)
    ensures Starts([c] + Rewrite(text, d, digits), d) <==> Starts([c] + text, d)
  {
    FrontPreserved(text, d, digits, d[1..]);
    StartsCons(c, text, d);
    StartsCons(c, Rewrite(text, d, digits), d);
  }

  lemma NoDigitFirst(text: seq<byte>, d: Directive, digits: seq<byte>)
    requires !DigitFirst(text)
    ensures !DigitFirst(Rewrite(text, d, digits))
  {
  }

  // Rewriting to one architecture and then to another is rewriting to the other.
  // With no second digits at all, this says the text outside the digit runs is
  // the same before and after.
  lemma {:induction false} RewriteTwice(text: seq<byte>, d: Directive, a: seq<byte>, b: seq<byte>)
    requires AllDigits(a) && a != []
    ensures Rewrite(Rewrite(text, d, a), d, b) == Rewrite(text, d, b)
    decreases |text|
  {
    if text != [] {
      var run, rest := Shape(text, d);
      RewriteTwice(rest, d, a, b);
      if Starts(text, d) {
        Hit(d, run, rest, a);
        Hit(d, run, rest, b);
        NoDigitFirst(rest, d, a);
        Hit(d, Mid(|run|, a), Rewrite(rest, d, a), b);
        hide Rewrite;
      } else {
        Copy(text[0], rest, d, a);
        Copy(text[0], rest, d, b);
        CopyPreserved(text[0], rest, d, a);
        Copy(text[0], Rewrite(rest, d, a), d, b);
        hide Rewrite;
      }
    }
  }

  // The text behind a directive opens with exactly the new digits, or with none.
  ghost predicate SetBehind(behind: seq<byte>, digits: seq<byte>)
  {
    DigitRun(behind) == 0 || (DigitRun(behind) == |digits| && Starts(behind, digits))
  }

  ghost predicate AllSet(text: seq<byte>, d: Directive, digits: seq<byte>)
  {
    && (Starts(text, d) ==> SetBehind(text[|d|..], digits))
    && (text != [] ==> AllSet(text[1..], d, digits))
  }

  lemma {:induction false} AllSetSkip(pre: seq<byte>, rest: seq<byte>, d: Directive, digits: seq<byte>)
    requires Clear(pre, rest, d) && AllSet(rest, d, digits)
    ensures AllSet(pre + rest, d, digits)
  {
    if pre == [] {
      assert pre + rest == rest;
    } else {
      AllSetSkip(pre[1..], rest, d, digits);
      assert (pre + rest)[1..] == pre[1..] + rest;
    }
  }

  lemma {:induction false} RewriteSets(text: seq<byte>, d: Directive, digits: seq<byte>)
    requires AllDigits(digits) && digits != []
    ensures AllSet(Rewrite(text, d, digits), d, digits)
    decreases |text|
  {
    if text != [] {
      var run, rest := Shape(text, d);
      RewriteSets(rest, d, digits);
      if Starts(text, d) {
        Hit(d, run, rest, digits);
        NoDigitFirst(rest, d, digits);
        SetAfterHit(d, digits, Mid(|run|, digits), Rewrite(rest, d, digits));
      } else {
        Copy(text[0], rest, d, digits);
        CopyPreserved(text[0], rest, d, digits);
        hide Rewrite;
        assert ([text[0]] + Rewrite(rest, d, digits))[1..] == Rewrite(rest, d, digits);
      }
    }
  }

  lemma SetHere(d: Directive, digits: seq<byte>, mid: seq<byte>, rest: seq<byte>)
    requires AllDigits(mid) && (mid == [] || mid == digits) && !DigitFirst(rest)
    ensures (d + (mid + rest))[|d|..] == mid + rest && SetBehind(mid + rest, digits)
  {
    RunIs(mid, rest);
    StartsCat(mid, rest);
    hide DigitRun, AllDigits, DigitFirst;
  }

  lemma SetLater(d: Directive, digits: seq<byte>, mid: seq<byte>, rest: seq<byte>)
    requires AllDigits(mid) && !DigitFirst(rest) && AllSet(rest, d, digits)
    ensures AllSet(d[1..] + mid + rest, d, digits)
  {
    var pre := d[1..] + mid;
    DotFreeClear(pre, rest, d);
    hide Clear, AllSet, DigitFirst;
    AllSetSkip(pre, rest, d, digits);
  }

  lemma SetAfterHit(d: Directive, digits: seq<byte>, mid: seq<byte>, rest: seq<byte>)
    requires AllDigits(mid) && (mid == [] || mid == digits) && !DigitFirst(rest) && AllSet(rest, d, digits)
    ensures AllSet(d + (mid + rest), d, digits)
  {
    hide AllDigits, DigitFirst, DigitRun, Clear;
    var text := d + (mid + rest);
    SetHere(d, digits, mid, rest);
    SetLater(d, digits, mid, rest);
    assert text[1..] == d[1..] + mid + rest;
  }

  lemma {:induction false} AllSetAt(text: seq<byte>, d: Directive, digits: seq<byte>, p: nat)
    requires AllSet(text, d, digits) && OccursAt(text, d, p)
    ensures SetBehind(text[p + |d|..], digits)
  {
    if p == 0 {
      OccursFront(text, d);
    } else {
      assert text == [text[0]] + text[1..];
      OccursBehind([text[0]], text[1..], d, p - 1);
      AllSetAt(text[1..], d, digits, p - 1);
      assert text[1..][p - 1 + |d|..] == text[p + |d|..];
    }
  }

  // Every directive in the result is followed by the new digits and no other
  // digit, or by no digit at all.
  lemma EveryTargetSet(text: seq<byte>, d: Directive, digits: seq<byte>, p: nat)
    requires AllDigits(digits) && digits != [] && OccursAt(Rewrite(text, d, digits), d, p)
    ensures SetBehind(Rewrite(text, d, digits)[p + |d|..], digits)
  {
    RewriteSets(text, d, digits);
    AllSetAt(Rewrite(text, d, digits), d, digits, p);
  }

  // A character that a directive and its digits cannot run across.
  predicate Boundary(text: seq<byte>, d: Directive)
  {
    text != [] ==> !IsDigit(text[0]) && forall i :: 0 < i < |d| ==> d[i] != text[0]
  }

  // The rewrite works on each side of a boundary by itself.
  lemma {:induction false} SplitAt(x: seq<byte>, y: seq<byte>, d: Directive, digits: seq<byte>)
    requires Boundary(y, d)
    ensures Rewrite(x + y, d, digits) == Rewrite(x, d, digits) + Rewrite(y, d, digits)
    decreases |x|
  {
    if x == [] {
      assert x + y == y && Rewrite(x, d, digits) + Rewrite(y, d, digits) == Rewrite(y, d, digits);
    } else {
      var run, rest := Shape(x, d);
      SplitAt(rest, y, d, digits);
      if Starts(x, d) {
        Hit(d, run, rest, digits);
        assert rest == [] ==> rest + y == y;
        assert rest != [] ==> (rest + y)[0] == rest[0];
        Hit(d, run, rest + y, digits);
        hide *;
        ConcatAssoc(d, run + rest, y);
        ConcatAssoc(run, rest, y);
        ConcatAssoc(Mid(|run|, digits), Rewrite(rest, d, digits), Rewrite(y, d, digits));
        ConcatAssoc(d, Mid(|run|, digits) + Rewrite(rest, d, digits), Rewrite(y, d, digits));
      } else {
        NoStraddle(x, y, d);
        Copy(x[0], rest, d, digits);
        ConcatAssoc([x[0]], rest, y);
        Copy(x[0], rest + y, d, digits);
        hide *;
        ConcatAssoc([x[0]], Rewrite(rest, d, digits), Rewrite(y, d, digits));
      }
    }
  }

  lemma NoStraddle(x: seq<byte>, y: seq<byte>, d: Directive)
    requires Boundary(y, d) && x != [] && !Starts(x, d)
    ensures !Starts(x + y, d)
  {
    if |d| <= |x| {
      assert (x + y)[..|d|] == x[..|d|];
    } else if |d| <= |x + y| {
      assert (x + y)[..|d|][|x|] == y[0] != d[|x|];
    }
  }

  // ---- What a rewrite changes, told by occurrences -----------------------------------

  // The text taken apart at its first directive.
  lemma FirstCut(text: seq<byte>, d: Directive, at: nat) returns (pre: seq<byte>, run: seq<byte>, rest: seq<byte>)
    requires NextAt(text, d, 0, at)
    ensures text == pre + (d + (run + rest)) && |pre| == at
    ensures AllDigits(run) && !DigitFirst(rest) && Clear(pre, d + (run + rest), d)
    ensures at + |d| <= |text| && |run| == DigitRun(text[at + |d|..])
    ensures text[..at + |d|] == pre + d && at + |d| + |run| <= |text| && text[at + |d| + |run|..] == rest
  {
    hide DigitRun, Clear, AllDigits, NoneIn;
    NothingBefore(text, d, at);
    pre, run, rest := TakeApart([], text, d, at);
    Parts(pre, d, run, rest);
  }

  lemma NothingBefore(text: seq<byte>, d: Directive, at: nat)
    requires NextAt(text, d, 0, at)
    ensures [] + text == text && NextAt([] + text, d, 0, at)
  {
    assert [] + text == text;
  }

  lemma Parts(pre: seq<byte>, d: seq<byte>, run: seq<byte>, rest: seq<byte>)
    ensures var text := pre + (d + (run + rest));
            text[..|pre| + |d|] == pre + d && text[|pre| + |d| + |run|..] == rest
  {
  }

  // Up to the first directive, and through it, the text is copied. The maximal run of
  // digits behind it, if there is one, gives way to the number, and the rest is rewritten
  // on its own.
  lemma UpToTheFirst(text: seq<byte>, d: Directive, digits: seq<byte>, at: nat)
    requires NextAt(text, d, 0, at)
    ensures at + |d| <= |text|
    ensures var n := DigitRun(text[at + |d|..]);
            at + |d| + n <= |text| &&
            Rewrite(text, d, digits) == text[..at + |d|] + (Mid(n, digits) + Rewrite(text[at + |d| + n..], d, digits))
  {
    hide *;
    var pre, run, rest := FirstCut(text, d, at);
    Skip(pre, d + (run + rest), d, digits);
    Hit(d, run, rest, digits);
    ConcatAssoc(pre, d, Mid(|run|, digits) + Rewrite(rest, d, digits));
  }

  // A text without a directive is left as it is.
  lemma NoDirectiveNoChange(text: seq<byte>, d: Directive, digits: seq<byte>)
    requires NoneIn(text, d, 0, |text|)
    ensures Rewrite(text, d, digits) == text
  {
    assert [] + (text + []) == text && text + [] == text;
    ClearTo([], text, [], d);
    Skip(text, [], d, digits);
  }

  lemma NoTargetBehind(text: seq<byte>, d: Directive, at: nat)
    requires !HasTarget(text, d) && OccursAt(text, d, at)
    ensures at + |d| <= |text| && DigitRun(text[at + |d|..]) == 0 && !HasTarget(text[at + |d|..], d)
  {
    var front, rest := text[..at + |d|], text[at + |d|..];
    assert text == front + rest;
    assert !TargetAt(text, d, at);
    forall p: nat
      ensures !TargetAt(rest, d, p)
    {
      OccursBehind(front, rest, d, p);
      assert !TargetAt(text, d, |front| + p);
    }
  }

  // So is one whose directives name no number.
  lemma {:induction false} NoTargetNoChange(text: seq<byte>, d: Directive, digits: seq<byte>)
    requires !HasTarget(text, d)
    ensures Rewrite(text, d, digits) == text
    decreases |text|
  {
    hide Rewrite, HasTarget, OccursAt, DigitRun;
    var found := Find(text, d, 0);
    if found == None {
      NoDirectiveNoChange(text, d, digits);
    } else {
      var at := found.value;
      NoTargetBehind(text, d, at);
      UpToTheFirst(text, d, digits, at);
      NoTargetNoChange(text[at + |d|..], d, digits);
      assert text[..at + |d|] + ([] + text[at + |d|..]) == text;
    }
  }

  // A number shorter than the directive at most doubles the text.
  lemma {:induction false} AtMostDoubles(text: seq<byte>, d: Directive, digits: seq<byte>)
    requires |digits| < |d|
    ensures |Rewrite(text, d, digits)| <= 2 * |text|
    decreases |text|
  {
    if text != [] {
      var run, rest := Shape(text, d);
      AtMostDoubles(rest, d, digits);
      if Starts(text, d) {
        Hit(d, run, rest, digits);
      }
    }
  }
}
