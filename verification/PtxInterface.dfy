/** The launch interface of a PTX module: its declaration lines
    (src/kernels/fatbin.cpp:118-144). */
module PtxInterface {
  import opened Bytes
  import opened PtxTarget

  predicate Blank(b: byte) { b == 0x20 || b == 0x09 }
  predicate BlankEnd(b: byte) { Blank(b) || b == 0x0D }

  // A declaration keyword: a dotted word that no target directive opens with.
  type Keyword = w: seq<byte> | IsKeyword(w) witness [0x2E, 0x76]

  predicate IsKeyword(w: seq<byte>)
  {
    && |w| > 1 && w[0] == DOT && w[1] != DIRECTIVE[1]
    && forall i :: 0 < i < |w| ==> w[i] != DOT && !BlankEnd(w[i])
  }

  const VISIBLE: Keyword := [0x2E, 0x76, 0x69, 0x73, 0x69, 0x62, 0x6C, 0x65]
  const ENTRY: Keyword := [0x2E, 0x65, 0x6E, 0x74, 0x72, 0x79]
  const PARAM: Keyword := [0x2E, 0x70, 0x61, 0x72, 0x61, 0x6D]
  const MAXNTID: Keyword := [0x2E, 0x6D, 0x61, 0x78, 0x6E, 0x74, 0x69, 0x64]
  const REQNTID: Keyword := [0x2E, 0x72, 0x65, 0x71, 0x6E, 0x74, 0x69, 0x64]
  const MINNCTAPERSM: Keyword := [0x2E, 0x6D, 0x69, 0x6E, 0x6E, 0x63, 0x74, 0x61, 0x70, 0x65, 0x72, 0x73, 0x6D]
  const MAXNREG: Keyword := [0x2E, 0x6D, 0x61, 0x78, 0x6E, 0x72, 0x65, 0x67]
  const SHARED: Keyword := [0x2E, 0x73, 0x68, 0x61, 0x72, 0x65, 0x64]
  const EXTERN: Keyword := [0x2E, 0x65, 0x78, 0x74, 0x65, 0x72, 0x6E]
  const GLOBAL: Keyword := [0x2E, 0x67, 0x6C, 0x6F, 0x62, 0x61, 0x6C]
  const CONST: Keyword := [0x2E, 0x63, 0x6F, 0x6E, 0x73, 0x74]
  const KEYWORDS: seq<Keyword> :=
    [VISIBLE, ENTRY, PARAM, MAXNTID, REQNTID, MINNCTAPERSM, MAXNREG, SHARED, EXTERN, GLOBAL, CONST]

  // The keywords as the source spells them, and no others.
  lemma KeywordsSpelled()
    ensures |KEYWORDS| == 11
    ensures KEYWORDS[0] == Ascii(".visible")
    ensures KEYWORDS[1] == Ascii(".entry")
    ensures KEYWORDS[2] == Ascii(".param")
    ensures KEYWORDS[3] == Ascii(".maxntid")
  {
    assert KEYWORDS[0] == VISIBLE;
    assert KEYWORDS[1] == ENTRY;
    assert KEYWORDS[2] == PARAM;
    assert KEYWORDS[3] == MAXNTID;
  }

  lemma MoreKeywordsSpelled()
    ensures KEYWORDS[4] == Ascii(".reqntid")
    ensures KEYWORDS[5] == Ascii(".minnctapersm")
    ensures KEYWORDS[6] == Ascii(".maxnreg")
    ensures KEYWORDS[7] == Ascii(".shared")
  {
    assert KEYWORDS[4] == REQNTID;
    assert KEYWORDS[5] == MINNCTAPERSM;
    assert KEYWORDS[6] == MAXNREG;
    assert KEYWORDS[7] == SHARED;
  }

  lemma LastKeywordsSpelled()
    ensures KEYWORDS[8] == Ascii(".extern")
    ensures KEYWORDS[9] == Ascii(".global")
    ensures KEYWORDS[10] == Ascii(".const")
  {
    assert KEYWORDS[8] == EXTERN;
    assert KEYWORDS[9] == GLOBAL;
    assert KEYWORDS[10] == CONST;
  }

  // ---- Lines -----------------------------------------------------------------

  function TrimLeft(line: seq<byte>): (t: seq<byte>)
    ensures |t| <= |line|
  {
    if line == [] || !Blank(line[0]) then line else TrimLeft(line[1..])
  }

  function TrimRight(line: seq<byte>): (t: seq<byte>)
    ensures |t| <= |line| && t == line[..|t|]
    ensures t != [] ==> !BlankEnd(t[|t| - 1])
    ensures forall i :: |t| <= i < |line| ==> BlankEnd(line[i])
  {
    if line == [] || !BlankEnd(line[|line| - 1]) then line else TrimRight(line[..|line| - 1])
  }

  function Trim(line: seq<byte>): seq<byte> { TrimRight(TrimLeft(line)) }

  lemma {:induction false} TrimLeftIs(line: seq<byte>)
    ensures var n := |line| - |TrimLeft(line)|;
            TrimLeft(line) == line[n..] && (forall i :: 0 <= i < n ==> Blank(line[i])) &&
            (n < |line| ==> !Blank(line[n]))
  {
    if line != [] && Blank(line[0]) {
      TrimLeftIs(line[1..]);
    }
  }

  // A trimmed line is what is between its leading blanks and its trailing ones.
  lemma TrimIs(line: seq<byte>) returns (before: nat, end: nat)
    ensures before <= end <= |line| && Trim(line) == line[before..end]
    ensures forall i :: 0 <= i < before ==> line[i] in {0x20, 0x09}
    ensures forall i :: end <= i < |line| ==> line[i] in {0x20, 0x09, 0x0D}
    ensures before < end ==> line[before] !in {0x20, 0x09} && line[end - 1] !in {0x20, 0x09, 0x0D}
  {
    TrimLeftIs(line);
    var left := TrimLeft(line);
    before := |line| - |left|;
    end := before + |TrimRight(left)|;
  }

  predicate Declares(line: seq<byte>)
  {
    exists i :: 0 <= i < |KEYWORDS| && Starts(Trim(line), KEYWORDS[i])
  }

  // A line declares something when one of the eleven words opens what is left of it.
  lemma DeclaresWhen(line: seq<byte>)
    ensures Declares(line) <==>
            var t := Trim(line);
            Starts(t, VISIBLE) || Starts(t, ENTRY) || Starts(t, PARAM) || Starts(t, MAXNTID) || Starts(t, REQNTID) ||
            Starts(t, MINNCTAPERSM) || Starts(t, MAXNREG) || Starts(t, SHARED) || Starts(t, EXTERN) ||
            Starts(t, GLOBAL) || Starts(t, CONST)
  {
    hide Trim, Starts;
    assert KEYWORDS[0] == VISIBLE && KEYWORDS[1] == ENTRY && KEYWORDS[2] == PARAM && KEYWORDS[3] == MAXNTID &&
      KEYWORDS[4] == REQNTID && KEYWORDS[5] == MINNCTAPERSM;
    assert KEYWORDS[6] == MAXNREG && KEYWORDS[7] == SHARED && KEYWORDS[8] == EXTERN && KEYWORDS[9] == GLOBAL &&
      KEYWORDS[10] == CONST;
  }

  // What one line adds to the interface.
  function Declared(line: seq<byte>): seq<byte>
  {
    if Declares(line) then Trim(line) + [NEWLINE] else []
  }

  function LineEnd(text: seq<byte>): (n: nat)
    ensures n <= |text|
  {
    if text == [] || text[0] == NEWLINE then 0 else 1 + LineEnd(text[1..])
  }

  function After(text: seq<byte>, n: nat): (rest: seq<byte>)
    ensures text != [] ==> |rest| < |text|
  {
    if n + 1 <= |text| then text[n + 1..] else []
  }

  function InterfaceOf(text: seq<byte>): seq<byte>
    decreases |text|
  {
    if text == [] then []
    else
      var n := LineEnd(text);
      Declared(text[..n]) + InterfaceOf(After(text, n))
  }

  // ---- The loop ----------------------------------------------------------------

  // std::string_view::find('\n', start), or the end of the text.
  lemma {:induction false} LineEndFrom(text: seq<byte>, start: nat, n: nat)
    requires start <= |text| && n == LineEnd(text[start..])
    ensures forall i :: start <= i < start + n ==> text[i] != NEWLINE
    ensures start + n < |text| ==> text[start + n] == NEWLINE
    decreases |text| - start
  {
    if start < |text| && text[start] != NEWLINE {
      assert text[start..][1..] == text[start + 1..];
      LineEndFrom(text, start + 1, n - 1);
    }
  }

  lemma LineEndIs(text: seq<byte>, start: nat, end: nat)
    requires start <= end <= |text|
    requires forall i :: start <= i < end ==> text[i] != NEWLINE
    requires end < |text| ==> text[end] == NEWLINE
    ensures LineEnd(text[start..]) == end - start
  {
    LineEndFrom(text, start, LineEnd(text[start..]));
  }

  // The interface of the lines from `start` on; the cursor passes the end by one
  // when the last line has no line end.
  function InterfaceFrom(text: seq<byte>, start: nat): seq<byte>
  {
    if start <= |text| then InterfaceOf(text[start..]) else []
  }

  // What the loop keeps: the declarations of the lines before `start`.
  ghost predicate Gathered(text: seq<byte>, start: nat, declarations: seq<byte>)
  {
    declarations + InterfaceFrom(text, start) == InterfaceOf(text)
  }

  lemma GatheredNone(text: seq<byte>)
    ensures Gathered(text, 0, [])
  {
    hide InterfaceOf, InterfaceFrom;
    InterfaceFromIs(text, 0);
    assert [] + InterfaceOf(text) == InterfaceOf(text);
  }

  lemma GatheredAll(text: seq<byte>, start: nat, declarations: seq<byte>)
    requires start >= |text| && Gathered(text, start, declarations)
    ensures declarations == InterfaceOf(text)
  {
    hide InterfaceOf, InterfaceFrom;
    InterfaceFromIs(text, start);
    assert declarations + [] == declarations;
  }

  // The line at `start`, and where the next one begins.
  function LineAt(text: seq<byte>, start: nat): seq<byte>
    requires start <= |text|
  {
    text[start..][..LineEnd(text[start..])]
  }

  function NextLine(text: seq<byte>, start: nat): (next: nat)
    requires start <= |text|
    ensures next > start
  {
    start + LineEnd(text[start..]) + 1
  }

  lemma AfterLine(text: seq<byte>, start: nat)
    requires start < |text|
    ensures InterfaceOf(After(text[start..], LineEnd(text[start..]))) == InterfaceFrom(text, NextLine(text, start))
  {
    assert InterfaceOf([]) == [];
    var next := NextLine(text, start);
    InterfaceFromIs(text, next);
    hide InterfaceOf, InterfaceFrom;
    assert After(text[start..], LineEnd(text[start..])) == (if next <= |text| then text[next..] else []);
  }

  lemma InterfaceLine(text: seq<byte>, start: nat)
    requires start < |text|
    ensures InterfaceFrom(text, start) == Declared(LineAt(text, start)) + InterfaceFrom(text, NextLine(text, start))
  {
    AfterLine(text, start);
  }

  lemma GatheredStep(text: seq<byte>, start: nat, declarations: seq<byte>)
    requires start < |text| && Gathered(text, start, declarations)
    ensures var line := LineAt(text, start);
            Gathered(text, NextLine(text, start),
                     if Declares(line) then declarations + (Trim(line) + [NEWLINE]) else declarations)
  {
    InterfaceLine(text, start);
    var line := LineAt(text, start);
    DeclaredIs(line, declarations);
    ConcatAssoc(declarations, Declared(line), InterfaceFrom(text, NextLine(text, start)));
    hide InterfaceFrom, InterfaceOf, Declares, Trim, Declared, LineEnd, LineAt, NextLine;
  }

  lemma InterfaceFromIs(text: seq<byte>, start: nat)
    ensures start <= |text| ==> InterfaceFrom(text, start) == InterfaceOf(text[start..])
    ensures start == 0 ==> InterfaceFrom(text, start) == InterfaceOf(text)
    ensures start >= |text| ==> InterfaceFrom(text, start) == []
  {
  }

  lemma DeclaredIs(line: seq<byte>, declarations: seq<byte>)
    ensures declarations + Declared(line) == if Declares(line) then declarations + (Trim(line) + [NEWLINE])
      else declarations
  {
  }

  // The declarations that fix how a PTX module is launched.
  method Interface(ptx: seq<byte>) returns (declarations: seq<byte>)
    ensures declarations == InterfaceOf(ptx)
  {
    hide *;
    declarations := [];
    var start := 0;
    GatheredNone(ptx);
    while start < |ptx|
      invariant Gathered(ptx, start, declarations)
    {
      GatheredStep(ptx, start, declarations);
      var line := LineAt(ptx, start);
      start := NextLine(ptx, start);
      if Declares(line) {
        declarations := declarations + (Trim(line) + [NEWLINE]);
      }
    }
    GatheredAll(ptx, start, declarations);
  }

  // ---- The rewrite leaves the interface alone ------------------------------------

  lemma {:induction false} TrimLeftApart(line: seq<byte>) returns (lead: seq<byte>)
    ensures line == lead + TrimLeft(line)
    ensures forall i :: 0 <= i < |lead| ==> Blank(lead[i])
    ensures TrimLeft(line) != [] ==> !Blank(TrimLeft(line)[0])
  {
    if line == [] || !Blank(line[0]) {
      lead := [];
    } else {
      var more := TrimLeftApart(line[1..]);
      lead := [line[0]] + more;
      assert TrimLeft(line) == TrimLeft(line[1..]);
      hide *;
      assert line == [line[0]] + line[1..];
      ConcatAssoc([line[0]], more, TrimLeft(line));
    }
  }

  lemma {:induction false} TrimLeftJoin(lead: seq<byte>, core: seq<byte>)
    requires forall i :: 0 <= i < |lead| ==> Blank(lead[i])
    requires core != [] ==> !Blank(core[0])
    ensures TrimLeft(lead + core) == core
    decreases |lead|
  {
    if lead == [] {
      assert lead + core == core;
    } else {
      assert (lead + core)[1..] == lead[1..] + core;
      TrimLeftJoin(lead[1..], core);
    }
  }

  // A keyword ends in a letter, so trimming the end does not touch it.
  lemma TrimKeepsKeyword(core: seq<byte>, w: Keyword)
    ensures Starts(TrimRight(core), w) <==> Starts(core, w)
  {
  }

  lemma KeywordPreserved(core: seq<byte>, digits: seq<byte>, w: Keyword)
    ensures Starts(Rewrite(core, DIRECTIVE, digits), w) <==> Starts(core, w)
  {
    var d := DIRECTIVE;
    if core != [] {
      var run, rest := Shape(core, d);
      if Starts(core, d) {
        Hit(d, run, rest, digits);
        SecondDiffers(d, run + rest, w);
        SecondDiffers(d, Mid(|run|, digits) + Rewrite(rest, d, digits), w);
      } else {
        Copy(core[0], rest, d, digits);
        FrontPreserved(rest, d, digits, w[1..]);
        hide Rewrite;
        StartsCons(core[0], rest, w);
        StartsCons(core[0], Rewrite(rest, d, digits), w);
      }
    }
  }

  lemma SecondDiffers(d: Directive, rest: seq<byte>, w: Keyword)
    requires d == DIRECTIVE
    ensures !Starts(d + rest, w)
  {
  }

  // A line declares something after the rewrite exactly when it did before.
  lemma DeclaresPreserved(line: seq<byte>, digits: seq<byte>)
    ensures Declares(Rewrite(line, DIRECTIVE, digits)) <==> Declares(line)
  {
    var lead := TrimLeftApart(line);
    var core := TrimLeft(line);
    var out := Rewrite(core, DIRECTIVE, digits);
    SkipDotFree(lead, core, DIRECTIVE, digits);
    FirstKept(core, digits);
    TrimLeftJoin(lead, out);
    hide Rewrite;
    forall i | 0 <= i < |KEYWORDS|
      ensures Starts(Trim(Rewrite(line, DIRECTIVE, digits)), KEYWORDS[i]) <==> Starts(Trim(line), KEYWORDS[i])
    {
      KeywordPreserved(core, digits, KEYWORDS[i]);
      TrimKeepsKeyword(core, KEYWORDS[i]);
      TrimKeepsKeyword(out, KEYWORDS[i]);
    }
  }

  lemma FirstKept(core: seq<byte>, digits: seq<byte>)
    ensures var out := Rewrite(core, DIRECTIVE, digits);
            (out == [] <==> core == []) && (core != [] ==> out[0] == core[0])
  {
  }

  // No declaration line holds a directive that the rewrite would change.
  ghost predicate DeclarationsKept(text: seq<byte>, digits: seq<byte>)
    decreases |text|
  {
    text != [] ==>
      var n := LineEnd(text);
      && (Declares(text[..n]) ==> Rewrite(text[..n], DIRECTIVE, digits) == text[..n])
      && DeclarationsKept(After(text, n), digits)
  }

  predicate OneLine(text: seq<byte>) { forall i :: 0 <= i < |text| ==> text[i] != NEWLINE }

  lemma {:induction false} OneLineKept(line: seq<byte>, digits: seq<byte>)
    requires OneLine(line) && AllDigits(digits)
    ensures OneLine(Rewrite(line, DIRECTIVE, digits))
    decreases |line|
  {
    if line != [] {
      var run, rest := Shape(line, DIRECTIVE);
      if Starts(line, DIRECTIVE) {
        Hit(DIRECTIVE, run, rest, digits);
        OneLineSplit(DIRECTIVE, run, rest);
        OneLineKept(rest, digits);
        hide Rewrite;
        OneLineSplit(DIRECTIVE, Mid(|run|, digits), Rewrite(rest, DIRECTIVE, digits));
      } else {
        Copy(line[0], rest, DIRECTIVE, digits);
        OneLineKept(rest, digits);
      }
    }
  }

  lemma OneLineSplit(d: Directive, b: seq<byte>, c: seq<byte>)
    ensures AllDigits(b) ==> (OneLine(d + (b + c)) <==> OneLine(c))
  {
    var text := d + (b + c);
    assert forall i :: 0 <= i < |c| ==> c[i] == text[|d| + |b| + i];
  }

  // The first line of a text, with the line end behind it when there is one.
  lemma TakeLine(text: seq<byte>) returns (line: seq<byte>, tail: seq<byte>)
    requires text != []
    ensures text == line + tail && OneLine(line) && line == text[..LineEnd(text)]
    ensures tail == [] || tail == [NEWLINE] + After(text, LineEnd(text))
    ensures tail == [] ==> After(text, LineEnd(text)) == []
  {
    var n := LineEnd(text);
    assert text[0..] == text;
    LineEndFrom(text, 0, n);
    line, tail := text[..n], text[n..];
  }

  lemma LineEndJoin(line: seq<byte>, tail: seq<byte>)
    requires OneLine(line) && (tail != [] ==> tail[0] == NEWLINE)
    ensures LineEnd(line + tail) == |line|
  {
    assert (line + tail)[0..] == line + tail;
    LineEndIs(line + tail, 0, |line|);
  }

  lemma InterfaceJoin(line: seq<byte>, rest: seq<byte>)
    requires OneLine(line)
    ensures InterfaceOf(line + ([NEWLINE] + rest)) == Declared(line) + InterfaceOf(rest)
    ensures InterfaceOf(line) == Declared(line) + []
  {
    LineEndJoin(line, [NEWLINE] + rest);
    LineEndJoin(line, []);
    assert line + [] == line;
    var text := line + ([NEWLINE] + rest);
    assert text[..|line|] == line && text[|line| + 1..] == rest;
    assert line[..|line|] == line;
    assert Declared([]) == [] by { EmptyLine(); }
  }

  lemma EmptyLine()
    ensures Declared([]) == []
  {
  }

  // The rewrite works line by line.
  lemma RewriteLine(line: seq<byte>, rest: seq<byte>, digits: seq<byte>)
    ensures Rewrite(line + ([NEWLINE] + rest), DIRECTIVE, digits) ==
            Rewrite(line, DIRECTIVE, digits) + ([NEWLINE] + Rewrite(rest, DIRECTIVE, digits))
  {
    SplitAt(line, [NEWLINE] + rest, DIRECTIVE, digits);
    NeedsDot([NEWLINE] + rest, DIRECTIVE);
    Copy(NEWLINE, rest, DIRECTIVE, digits);
  }

  // Retargeting a module does not change how it is launched.
  lemma {:induction false} InterfaceUnchanged(text: seq<byte>, digits: seq<byte>)
    requires AllDigits(digits) && DeclarationsKept(text, digits)
    ensures InterfaceOf(Rewrite(text, DIRECTIVE, digits)) == InterfaceOf(text)
    decreases |text|
  {
    if text != [] {
      var line, tail := TakeLine(text);
      var rest := After(text, LineEnd(text));
      DeclaresPreserved(line, digits);
      OneLineKept(line, digits);
      var line' := Rewrite(line, DIRECTIVE, digits);
      assert Declared(line') == Declared(line);
      if tail == [] {
        assert line + [] == line;
        InterfaceJoin(line, []);
        InterfaceJoin(line', []);
      } else {
        InterfaceUnchanged(rest, digits);
        RewriteLine(line, rest, digits);
        InterfaceJoin(line, rest);
        InterfaceJoin(line', Rewrite(rest, DIRECTIVE, digits));
      }
    }
  }

  // A declaration line that never says `.target sm_` is kept.
  ghost predicate NoTargetDeclared(text: seq<byte>)
    decreases |text|
  {
    text != [] ==>
      var n := LineEnd(text);
      && (Declares(text[..n]) ==> forall p: nat :: !OccursAt(text[..n], DIRECTIVE, p))
      && NoTargetDeclared(After(text, n))
  }

  lemma {:induction false} NoTargetKept(text: seq<byte>, digits: seq<byte>)
    requires NoTargetDeclared(text)
    ensures DeclarationsKept(text, digits)
    decreases |text|
  {
    if text != [] {
      var n := LineEnd(text);
      NoTargetKept(After(text, n), digits);
      if Declares(text[..n]) {
        var line := text[..n];
        assert [] + line == line && line + [] == line;
        ClearTo([], line, [], DIRECTIVE);
        Skip(line, [], DIRECTIVE, digits);
      }
    }
  }

  lemma InterfaceOfRetargeted(text: seq<byte>, arch: nat)
    requires NoTargetDeclared(text)
    ensures InterfaceOf(Retargeted(text, arch)) == InterfaceOf(text)
  {
    NoTargetKept(text, Decimal(arch));
    InterfaceUnchanged(text, Decimal(arch));
  }
}
