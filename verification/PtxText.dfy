/** Plain PTX text handed over as a module (src/kernels/fatbin.cpp:267-301). */
module PtxText {
  import opened Bytes
  import opened PtxTarget
  import opened Images

  function Head(blob: seq<byte>): (head: seq<byte>)
    ensures |head| <= |blob|
  {
    if |blob| <= HEADER_WINDOW then blob else blob[..HEADER_WINDOW]
  }

  // The architecture the text names, or 0 when the opening bytes do not read as PTX.
  function PtxTextArch(blob: seq<byte>): nat
  {
    var head := Head(blob);
    var target := Find(head, DIRECTIVE, 0);
    if Find(head, VERSION, 0) == None || target == None then 0
    else FromChars(head[target.value + |DIRECTIVE|..])
  }

  datatype TextResult = TextResult(out: Option<seq<byte>>, report: Report)

  function RetargetTextResult(blob: seq<byte>, arch: nat): TextResult
  {
    var source := PtxTextArch(blob);
    if source == 0 then TextResult(None, NO_REPORT)
    else if CanRun(true, source, arch) then TextResult(None, Report(1, 0, true, false))
    else TextResult(Some(Retargeted(blob, arch)), Report(1, source, false, false))
  }

  // ---- The window ----------------------------------------------------------

  lemma WindowOccurs(text: seq<byte>, w: seq<byte>, q: nat)
    ensures OccursAt(Head(text), w, q) <==> OccursAt(text, w, q) && q + |w| <= |Head(text)|
  {
  }

  // The first occurrence in the window is the first one in the text, if the window
  // reaches it.
  lemma WindowFind(text: seq<byte>, w: seq<byte>, at: nat)
    requires NextAt(text, w, 0, at)
    ensures Find(Head(text), w, 0) == (if at + |w| <= |Head(text)| then Some(at) else None)
  {
    forall q: nat ensures OccursAt(Head(text), w, q) <==> OccursAt(text, w, q) && q + |w| <= |Head(text)| {
      WindowOccurs(text, w, q);
    }
    var found := Find(Head(text), w, 0);
    if at + |w| <= |Head(text)| {
      assert OccursAt(Head(text), w, at);
    }
    if found.Some? {
      assert OccursAt(text, w, found.value);
    }
  }

  lemma WindowFound(text: seq<byte>, w: seq<byte>)
    requires Find(Head(text), w, 0).Some?
    ensures NextAt(text, w, 0, Find(Head(text), w, 0).value)
  {
  }

  // ---- Occurrences around a clear prefix -----------------------------------

  lemma {:induction false} ClearNone(pre: seq<byte>, rest: seq<byte>, d: Directive)
    requires Clear(pre, rest, d)
    ensures NoneIn(pre + rest, d, 0, |pre|)
  {
    if pre != [] {
      ClearNone(pre[1..], rest, d);
      assert pre + rest == [pre[0]] + (pre[1..] + rest);
      forall q | 0 <= q < |pre| ensures !OccursAt(pre + rest, d, q) {
        if q == 0 {
          OccursFront(pre + rest, d);
        } else {
          OccursBehind([pre[0]], pre[1..] + rest, d, q - 1);
          assert !OccursAt(pre[1..] + rest, d, q - 1);
        }
      }
    }
  }

  lemma ClearFirst(pre: seq<byte>, rest: seq<byte>, d: Directive)
    requires Clear(pre, rest, d) && Starts(rest, d)
    ensures NextAt(pre + rest, d, 0, |pre|)
  {
    ClearNone(pre, rest, d);
    OccursBehind(pre, rest, d, 0);
    OccursFront(rest, d);
  }

  // What follows the first directive does not decide what is before it.
  lemma {:induction false} ClearBefore(pre: seq<byte>, d: Directive, y: seq<byte>, z: seq<byte>)
    requires Clear(pre, d + y, d)
    ensures Clear(pre, d + z, d)
  {
    if pre != [] {
      ClearBefore(pre[1..], d, y, z);
      if |d| <= |pre + (d + z)| {
        assert (pre + (d + z))[..|d|] == (pre + d)[..|d|] == (pre + (d + y))[..|d|];
      }
    }
  }

  // ---- Feeding the result back ---------------------------------------------

  // Behind the first directive of PTX text, in the window, there is a digit.
  lemma DigitBehind(blob: seq<byte>) returns (at: nat)
    requires PtxTextArch(blob) != 0
    ensures Find(Head(blob), DIRECTIVE, 0) == Some(at)
    ensures at + |DIRECTIVE| < |Head(blob)| && IsDigit(blob[at + |DIRECTIVE|])
  {
    hide FromChars, DigitRun, OccursAt, AllDigits;
    at := Find(Head(blob), DIRECTIVE, 0).value;
    var behind := Head(blob)[at + |DIRECTIVE|..];
    NoDigitsNoNumber(behind);
    DigitsRun(behind, 0);
  }

  // What is before the first directive of PTX text, the digits behind it, and the
  // text after those.
  lemma Anatomy(blob: seq<byte>) returns (pre: seq<byte>, run: seq<byte>, rest: seq<byte>)
    requires PtxTextArch(blob) != 0
    ensures blob == pre + (DIRECTIVE + (run + rest)) && run != [] && AllDigits(run) && !DigitFirst(rest)
    ensures Clear(pre, DIRECTIVE + (run + rest), DIRECTIVE)
    ensures |pre| + |DIRECTIVE| < |Head(blob)|
  {
    hide PtxTextArch, Clear, Head, AllDigits;
    var d := DIRECTIVE;
    var at := DigitBehind(blob);
    WindowFound(blob, d);
    assert [] + blob == blob;
    pre, run, rest := TakeApart([], blob, d, at);
    var tail := run + rest;
    assert blob[at + |d|..] == tail;
  }

  lemma NoDigitsNoNumber(text: seq<byte>)
    ensures FromChars(text) != 0 ==> DigitRun(text) > 0
  {
  }

  lemma OutIs(pre: seq<byte>, run: seq<byte>, rest: seq<byte>, d: Directive, digits: seq<byte>)
    requires run != [] && AllDigits(run) && !DigitFirst(rest) && Clear(pre, d + (run + rest), d)
    ensures Rewrite(pre + (d + (run + rest)), d, digits) == pre + (d + (digits + Rewrite(rest, d, digits)))
    ensures !DigitFirst(Rewrite(rest, d, digits))
    ensures Clear(pre, d + (digits + Rewrite(rest, d, digits)), d)
  {
    Skip(pre, d + (run + rest), d, digits);
    Hit(d, run, rest, digits);
    NoDigitFirst(rest, d, digits);
    ClearBefore(pre, d, run + rest, digits + Rewrite(rest, d, digits));
  }

  // A number that the window may cut short is read as its leading part.
  lemma CutNumber(digits: seq<byte>, rest: seq<byte>, m: nat)
    requires AllDigits(digits) && digits != [] && digits[0] != 0x30 && !DigitFirst(rest)
    requires 0 < m <= |digits + rest| && Value(digits) < 0x1_0000_0000
    ensures 0 < FromChars((digits + rest)[..m]) <= Value(digits)
  {
    var seen := (digits + rest)[..m];
    var n := if m <= |digits| then m else |digits|;
    assert seen[..n] == digits[..n];
    assert n < |seen| ==> seen[n] == rest[0];
    PrefixValue(digits, n);
    DigitRunIs(seen, n);
  }

  // The rewritten text still names an architecture, and one the GPU can run,
  // though the window may show only the leading digits of it.
  lemma TargetReadsBack(blob: seq<byte>, arch: nat)
    requires PtxTextArch(blob) != 0 && 0 < arch < 0x1_0000_0000
    ensures var head := Head(Retargeted(blob, arch)); var target := Find(head, DIRECTIVE, 0);
            && target.Some?
            && 0 < FromChars(head[target.value + |DIRECTIVE|..]) <= arch
  {
    hide Rewrite, FromChars, DigitRun, AllDigits, Value, Decimal, Clear, OccursAt, Find;
    var d := DIRECTIVE;
    var digits := Decimal(arch);
    var pre, run, rest := Anatomy(blob);
    OutIs(pre, run, rest, d, digits);
    var after := Rewrite(rest, d, digits);
    var out := pre + (d + (digits + after));
    DecimalValue(arch);
    StartsCat(d, digits + after);
    ClearFirst(pre, d + (digits + after), d);
    WindowFind(out, d, |pre|);
    var m := |Head(out)| - |pre| - |d|;
    CutNumber(digits, after, m);
    CutBehind(pre, d, digits + after, m);
  }

  lemma CutBehind(a: seq<byte>, b: seq<byte>, c: seq<byte>, m: nat)
    requires m <= |c| && |Head(a + (b + c))| == |a| + |b| + m
    ensures Head(a + (b + c))[|a| + |b|..] == c[..m]
  {
  }

  lemma VersionCopied(z: seq<byte>, digits: seq<byte>)
    ensures Starts(Rewrite(VERSION + z, DIRECTIVE, digits), VERSION)
  {
    var w := VERSION[1..];
    assert VERSION == [DOT] + w;
    ConcatAssoc([DOT], w, z);
    assert !Starts([DOT] + (w + z), DIRECTIVE) by {
      StartsCons(DOT, w + z, DIRECTIVE);
      assert (w + z)[0] == 0x76;
      if |DIRECTIVE[1..]| <= |w + z| {
        assert (w + z)[..|DIRECTIVE[1..]|][0] != DIRECTIVE[1..][0];
      }
    }
    Copy(DOT, w + z, DIRECTIVE, digits);
    SkipDotFree(w, z, DIRECTIVE, digits);
    ConcatAssoc([DOT], w, Rewrite(z, DIRECTIVE, digits));
    StartsCat(VERSION, Rewrite(z, DIRECTIVE, digits));
  }

  lemma NotBoth(text: seq<byte>)
    ensures !(Starts(text, DIRECTIVE) && Starts(text, VERSION))
  {
    if Starts(text, DIRECTIVE) {
      assert text[1] == text[..|DIRECTIVE|][1];
      assert |VERSION| <= |text| ==> text[1] == text[..|VERSION|][1];
    }
  }

  // No ".version " is made or lost before the first one.
  lemma {:induction false} VersionStillFirst(x: seq<byte>, y: seq<byte>, digits: seq<byte>)
    requires AllDigits(digits) && Clear(x, y, VERSION) && Boundary(y, DIRECTIVE)
    ensures Clear(Rewrite(x, DIRECTIVE, digits), Rewrite(y, DIRECTIVE, digits), VERSION)
    decreases |x|
  {
    var d := DIRECTIVE;
    if x != [] {
      var run, rest := Shape(x, d);
      var y' := Rewrite(y, d, digits);
      if Starts(x, d) {
        ClearDrop(d, run + rest, y, VERSION);
        ClearDrop(run, rest, y, VERSION);
        VersionStillFirst(rest, y, digits);
        Hit(d, run, rest, digits);
        ClearJoinHit(d, Mid(|run|, digits), Rewrite(rest, d, digits), y');
      } else {
        assert Clear(rest, y, VERSION);
        VersionStillFirst(rest, y, digits);
        Copy(x[0], rest, d, digits);
        SplitAt(rest, y, d, digits);
        FrontPreserved(rest + y, d, digits, VERSION[1..]);
        VersionHead(x[0], rest, y, Rewrite(rest, d, digits), y');
        assert ([x[0]] + Rewrite(rest, d, digits))[1..] == Rewrite(rest, d, digits);
      }
    }
  }

  lemma VersionHead(c: byte, rest: seq<byte>, y: seq<byte>, rest': seq<byte>, y': seq<byte>)
    requires !Starts(([c] + rest) + y, VERSION)
    requires Starts(rest' + y', VERSION[1..]) <==> Starts(rest + y, VERSION[1..])
    ensures !Starts(([c] + rest') + y', VERSION)
  {
    ConcatAssoc([c], rest, y);
    ConcatAssoc([c], rest', y');
    StartsCons(c, rest + y, VERSION);
    StartsCons(c, rest' + y', VERSION);
  }

  lemma {:induction false} ClearDrop(a: seq<byte>, b: seq<byte>, y: seq<byte>, w: Directive)
    requires Clear(a + b, y, w)
    ensures Clear(b, y, w)
    decreases |a|
  {
    if a == [] {
      assert a + b == b;
    } else {
      assert (a + b)[1..] == a[1..] + b;
      ClearDrop(a[1..], b, y, w);
    }
  }

  lemma {:induction false} ClearJoin(a: seq<byte>, b: seq<byte>, y: seq<byte>, w: Directive)
    requires DotFree(a) && Clear(b, y, w)
    ensures Clear(a + b, y, w)
    decreases |a|
  {
    if a == [] {
      assert a + b == b;
    } else {
      assert (a + b)[1..] == a[1..] + b;
      NeedsDot((a + b) + y, w);
      ClearJoin(a[1..], b, y, w);
    }
  }

  lemma ClearJoinHit(d: Directive, mid: seq<byte>, rest: seq<byte>, y: seq<byte>)
    requires d == DIRECTIVE && AllDigits(mid) && Clear(rest, y, VERSION)
    ensures Clear(d + (mid + rest), y, VERSION)
  {
    ClearJoin(mid, rest, y, VERSION);
    ClearJoin(d[1..], mid + rest, y, VERSION);
    var x := d + (mid + rest);
    assert x[1..] == d[1..] + (mid + rest);
    ConcatAssoc(d, mid + rest, y);
    StartsCat(d, (mid + rest) + y);
    NotBoth(x + y);
  }

  // Where the first ".version " of the rewritten text is.
  lemma VersionMoves(blob: seq<byte>, at: nat, digits: seq<byte>)
    requires AllDigits(digits) && NextAt(blob, VERSION, 0, at)
    ensures NextAt(Rewrite(blob, DIRECTIVE, digits), VERSION, 0, |Rewrite(blob[..at], DIRECTIVE, digits)|)
  {
    var x, y := blob[..at], blob[at..];
    assert blob == x + y && [] + blob == blob;
    OccursBehind(x, y, VERSION, 0);
    OccursFront(y, VERSION);
    assert y == VERSION + y[|VERSION|..];
    ClearTo([], x, y, VERSION);
    VersionCopied(y[|VERSION|..], digits);
    assert y[0] == DOT;
    SplitAt(x, y, DIRECTIVE, digits);
    VersionStillFirst(x, y, digits);
    ClearFirst(Rewrite(x, DIRECTIVE, digits), Rewrite(y, DIRECTIVE, digits), VERSION);
  }

  // The caller can tell beforehand: the rewrite of what precedes the first
  // ".version " must leave room for it in the window.
  predicate VersionStays(blob: seq<byte>, arch: nat)
  {
    var version := Find(Head(blob), VERSION, 0);
    version.Some? && |Retargeted(blob[..version.value], arch)| + |VERSION| <= HEADER_WINDOW
  }

  // The rewritten text reads as PTX for an architecture the GPU can run exactly
  // when its version directive is still in the window; otherwise it does not
  // read as PTX at all.
  lemma ReadsBack(blob: seq<byte>, arch: nat)
    requires PtxTextArch(blob) != 0 && 0 < arch < 0x1_0000_0000
    ensures var back := PtxTextArch(Retargeted(blob, arch));
            && (VersionStays(blob, arch) <==> back != 0)
            && (back != 0 ==> CanRun(true, back, arch))
  {
    var digits := Decimal(arch);
    TargetReadsBack(blob, arch);
    WindowFound(blob, VERSION);
    var at := Find(Head(blob), VERSION, 0).value;
    VersionMoves(blob, at, digits);
    WindowFind(Retargeted(blob, arch), VERSION, |Rewrite(blob[..at], DIRECTIVE, digits)|);
  }

  // Rewrites the target of plain PTX text. A text that names an architecture always
  // has digits to rewrite.
  method RetargetPtxText(blob: seq<byte>, arch: nat) returns (out: Option<seq<byte>>, report: Report)
    requires arch < 0x1_0000_0000
    ensures TextResult(out, report) == RetargetTextResult(blob, arch)
  {
    report := NO_REPORT;
    out := None;
    var source := PtxTextArch(blob);
    if source == 0 {
      return;
    }
    report := report.(images := 1);
    if CanRun(true, source, arch) {
      report := report.(alreadyRunnable := true);
      return;
    }
    ghost var pre, run, rest := Anatomy(blob);
    var ptx, rewritten := RewriteTargetDirective(blob, arch);
    AnatomyHasTarget(blob, pre, run, rest);
    if !rewritten {
      return;
    }
    report := report.(sourceArch := source);
    out := Some(ptx);
  }

  lemma AnatomyHasTarget(blob: seq<byte>, pre: seq<byte>, run: seq<byte>, rest: seq<byte>)
    requires blob == pre + (DIRECTIVE + (run + rest)) && run != [] && AllDigits(run)
    ensures HasTarget(blob, DIRECTIVE)
  {
    OccursBehind(pre, DIRECTIVE + (run + rest), DIRECTIVE, 0);
    OccursFront(DIRECTIVE + (run + rest), DIRECTIVE);
    StartsCat(DIRECTIVE, run + rest);
    assert blob[|pre| + |DIRECTIVE|] == run[0];
    assert TargetAt(blob, DIRECTIVE, |pre|);
  }

  // The image handed on is never the one that came in.
  lemma TextChanges(blob: seq<byte>, arch: nat)
    requires 0 < arch < 0x1_0000_0000 && RetargetTextResult(blob, arch).out.Some?
    ensures RetargetTextResult(blob, arch).out.value != blob
  {
    ReadsBack(blob, arch);
  }

  // ---- A text that grows out of the window ----------------------------------------------

  function LineEnds(n: nat): (s: seq<byte>)
    ensures |s| == n && DotFree(s) && !DigitFirst(s)
  {
    seq(n, i => NEWLINE)
  }

  // Two targets, the second of them one digit short, and behind n line ends the version
  // directive and m more.
  function TwoTargets(first: seq<byte>, second: seq<byte>, n: nat, m: nat): seq<byte>
  {
    DIRECTIVE + (first + (DIRECTIVE + (second + (LineEnds(n) + (VERSION + LineEnds(m))))))
  }

  const NINETY: seq<byte> := [0x39, 0x30]
  const ONE: seq<byte> := [0x31]
  const EIGHTY_NINE: seq<byte> := [0x38, 0x39]

  lemma VersionIsCopied(z: seq<byte>, digits: seq<byte>)
    requires DotFree(z)
    ensures Rewrite(VERSION + z, DIRECTIVE, digits) == VERSION + z
  {
    var tail := VERSION[1..] + z;
    assert VERSION + z == [DOT] + tail && tail + [] == tail;
    StartsCat(VERSION, z);
    NotBoth(VERSION + z);
    Copy(DOT, tail, DIRECTIVE, digits);
    SkipDotFree(tail, [], DIRECTIVE, digits);
  }

  // Retargeted from sm_90 to sm_89, the text grows by one byte.
  lemma TwoTargetsGrow(n: nat, m: nat)
    ensures Retargeted(TwoTargets(NINETY, ONE, n, m), 89) == TwoTargets(EIGHTY_NINE, EIGHTY_NINE, n, m)
  {
    hide Rewrite;
    var last := VERSION + LineEnds(m);
    var lines := LineEnds(n) + last;
    var second := DIRECTIVE + (ONE + lines);
    assert Decimal(89) == EIGHTY_NINE;
    assert !DigitFirst(lines) && !DigitFirst(second);
    VersionIsCopied(LineEnds(m), EIGHTY_NINE);
    SkipDotFree(LineEnds(n), last, DIRECTIVE, EIGHTY_NINE);
    Hit(DIRECTIVE, ONE, lines, EIGHTY_NINE);
    Hit(DIRECTIVE, NINETY, second, EIGHTY_NINE);
  }

  lemma TwoTargetsLength(first: seq<byte>, second: seq<byte>, n: nat, m: nat)
    ensures |TwoTargets(first, second, n, m)| == 31 + |first| + |second| + n + m
  {
  }

  lemma FrontNumber(text: seq<byte>, rest: seq<byte>)
    requires text == DIRECTIVE + (NINETY + rest) && !DigitFirst(rest) && |Head(text)| > 13
    ensures Find(Head(text), DIRECTIVE, 0) == Some(0) && FromChars(Head(text)[11..]) == 90
  {
    StartsCat(DIRECTIVE, NINETY + rest);
    OccursFront(text, DIRECTIVE);
    WindowFind(text, DIRECTIVE, 0);
    var behind := Head(text)[11..];
    assert behind[0] == 0x39 && behind[1] == 0x30 && (|behind| > 2 ==> behind[2] == rest[0]);
    assert behind[..2] == NINETY;
    DigitRunIs(behind, 2);
    assert NINETY[..1] == [0x39] && [0x39][..0] == [];
    assert Value([0x39]) == 9;
  }

  lemma VersionAt(first: seq<byte>, second: seq<byte>, n: nat, m: nat)
    ensures OccursAt(TwoTargets(first, second, n, m), VERSION, 22 + |first| + |second| + n)
  {
    var a := DIRECTIVE + (first + (DIRECTIVE + (second + LineEnds(n))));
    var text := TwoTargets(first, second, n, m);
    assert text == a + (VERSION + LineEnds(m));
    StartsCat(VERSION, LineEnds(m));
    OccursFront(VERSION + LineEnds(m), VERSION);
    OccursBehind(a, VERSION + LineEnds(m), VERSION, 0);
  }

  // With the version directive in the window, the text reads as PTX for sm_90.
  lemma TwoTargetsRead(n: nat, m: nat)
    requires n <= HEADER_WINDOW - 34
    ensures PtxTextArch(TwoTargets(NINETY, ONE, n, m)) == 90
  {
    var text := TwoTargets(NINETY, ONE, n, m);
    TwoTargetsLength(NINETY, ONE, n, m);
    FrontNumber(text, DIRECTIVE + (ONE + (LineEnds(n) + (VERSION + LineEnds(m)))));
    VersionAt(NINETY, ONE, n, m);
    WindowOccurs(text, VERSION, 25 + n);
    hide TwoTargets, FromChars, OccursAt;
  }

  lemma VersionStarts(text: seq<byte>, p: nat)
    requires OccursAt(text, VERSION, p)
    ensures p + 9 <= |text| && text[p] == DOT && text[p + 1] == 0x76
  {
    assert text[p..p + 9][0] == text[p] && text[p..p + 9][1] == text[p + 1];
  }

  // Both targets, and what is between them and the version directive.
  function Lead(n: nat): (lead: seq<byte>)
    ensures |lead| == 26 + n
    ensures forall p: nat :: p < 26 + n && lead[p] == DOT ==> p + 1 < 26 + n && lead[p + 1] == 0x74
  {
    var front := DIRECTIVE + EIGHTY_NINE + DIRECTIVE + EIGHTY_NINE;
    front + LineEnds(n)
  }

  lemma LeadIs(n: nat, m: nat)
    ensures TwoTargets(EIGHTY_NINE, EIGHTY_NINE, n, m) == Lead(n) + (VERSION + LineEnds(m))
  {
  }

  lemma NoEarlierVersion(n: nat, m: nat, p: nat)
    requires p < 26 + n
    ensures !OccursAt(TwoTargets(EIGHTY_NINE, EIGHTY_NINE, n, m), VERSION, p)
  {
    hide TwoTargets, Lead, OccursAt;
    LeadIs(n, m);
    var text := TwoTargets(EIGHTY_NINE, EIGHTY_NINE, n, m);
    assert text[p] == Lead(n)[p] && (p + 1 < 26 + n ==> text[p + 1] == Lead(n)[p + 1]);
    if OccursAt(text, VERSION, p) {
      VersionStarts(text, p);
      assert false;
    }
  }

  lemma NoVersionInWindow()
    ensures Find(Head(TwoTargets(EIGHTY_NINE, EIGHTY_NINE, HEADER_WINDOW - 34, 0)), VERSION, 0) == None
  {
    hide TwoTargets, OccursAt;
    var n := HEADER_WINDOW - 34;
    var out := TwoTargets(EIGHTY_NINE, EIGHTY_NINE, n, 0);
    forall p: nat
      ensures !OccursAt(Head(out), VERSION, p)
    {
      WindowOccurs(out, VERSION, p);
      if p < 26 + n {
        NoEarlierVersion(n, 0, p);
      }
    }
  }

  // A text that has its version directive at the end of the window no longer reads as PTX
  // once its rewrite has grown by a byte: the condition above is one that can fail.
  lemma WindowMissed() returns (blob: seq<byte>)
    ensures PtxTextArch(blob) == 90 && RetargetTextResult(blob, 89).out.Some?
    ensures !VersionStays(blob, 89) && PtxTextArch(Retargeted(blob, 89)) == 0
  {
    hide TwoTargets, OccursAt, Rewrite, Retargeted, Head;
    var n := HEADER_WINDOW - 34;
    blob := TwoTargets(NINETY, ONE, n, 0);
    TwoTargetsRead(n, 0);
    TwoTargetsGrow(n, 0);
    NoVersionInWindow();
    ReadsBack(blob, 89);
  }

  // A text of less than half of what 32 bits can count stays within 32 bits.
  lemma RewrittenShort(blob: seq<byte>, arch: nat)
    requires |blob| < 0x8000_0000 && arch < 0x1_0000_0000
    ensures |Retargeted(blob, arch)| < 0x1_0000_0000
  {
    DecimalShort(arch);
    AtMostDoubles(blob, DIRECTIVE, Decimal(arch));
  }
}
