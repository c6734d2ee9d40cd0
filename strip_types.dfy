/** `strip_types` of strip_types.py: the earlier variant of the type stripper.
    It removes every client directive, drops declarations with a brace counter
    that accumulates across the whole file, strips a narrower set of
    annotations and always prepends one client directive. */
module StripTypes {
  import opened Common
  import opened TsPatterns
  import opened LineScan

  const Directive := "'use client';\n"
  const SingleQuoted := "'use client';"
  const DoubleQuoted := "\"use client\";"

  /** `line.count('{') - line.count('}')` */
  function NetBraces(line: string): int
  {
    CountChar(line, '{') - CountChar(line, '}')
  }

  /** Both spellings of the directive are removed from the whole text (strip_types.py:6-7). */
  function RemoveDirectives(content: string): string
  {
    ReplaceAll(ReplaceAll(content, SingleQuoted, ""), DoubleQuoted, "")
  }

  function UseStateAt(t: string): Option<nat> { HookGeneric("useState", t) }

  function NarrowCastAt(t: string): Option<nat> { AsCast(t, false) }

  /** The rewrites of a kept line, in the order the script applies them
      (strip_types.py:29-41): `React.FC` and other `React.` annotations, the
      listed simple annotations, `useState` type arguments (`useRef` keeps
      its own), type assertions on every line, imports included, and type
      parameters in front of a call. */
  function RewriteLine(line: string): (r: string)
    ensures |r| <= |line|
    ensures '\n' !in line ==> '\n' !in r
  {
    var l1 := Sub(line, ReactFc, "");
    var l2 := Sub(l1, ReactType, "");
    var l3 := Sub(l2, SimpleAnnotation, "");
    var l4 := Sub(l3, UseStateAt, "useState");
    var l5 := Sub(l4, NarrowCastAt, "");
    RewritesShrink(line);
    RewritesKeepNoNewline(line);
    Sub(l5, GenericBeforeParen, "")
  }

  lemma RewritesShrink(line: string)
    ensures var l5 := Sub(Sub(Sub(Sub(Sub(line, ReactFc, ""), ReactType, ""), SimpleAnnotation, ""), UseStateAt, "useState"), NarrowCastAt, "");
      |Sub(l5, GenericBeforeParen, "")| <= |line|
  {
    var l1 := Sub(line, ReactFc, "");
    var l2 := Sub(l1, ReactType, "");
    var l3 := Sub(l2, SimpleAnnotation, "");
    var l4 := Sub(l3, UseStateAt, "useState");
    var l5 := Sub(l4, NarrowCastAt, "");
    SubShrinks(line, ReactFc, "");
    SubShrinks(l1, ReactType, "");
    SubShrinks(l2, SimpleAnnotation, "");
    assert forall u: string :: MatchLen(u, UseStateAt) == 0 || MatchLen(u, UseStateAt) >= 8;
    SubShrinks(l3, UseStateAt, "useState");
    SubShrinks(l4, NarrowCastAt, "");
    SubShrinks(l5, GenericBeforeParen, "");
  }

  lemma RewritesKeepNoNewline(line: string)
    ensures var l5 := Sub(Sub(Sub(Sub(Sub(line, ReactFc, ""), ReactType, ""), SimpleAnnotation, ""), UseStateAt, "useState"), NarrowCastAt, "");
      '\n' !in line ==> '\n' !in Sub(l5, GenericBeforeParen, "")
  {
    var l1 := Sub(line, ReactFc, "");
    var l2 := Sub(l1, ReactType, "");
    var l3 := Sub(l2, SimpleAnnotation, "");
    var l4 := Sub(l3, UseStateAt, "useState");
    var l5 := Sub(l4, NarrowCastAt, "");
    SubKeepsNoNewline(line, ReactFc, "");
    SubKeepsNoNewline(l1, ReactType, "");
    SubKeepsNoNewline(l2, SimpleAnnotation, "");
    SubKeepsNoNewline(l3, UseStateAt, "useState");
    SubKeepsNoNewline(l4, NarrowCastAt, "");
    SubKeepsNoNewline(l5, GenericBeforeParen, "");
  }

  /** One pass of the loop body (strip_types.py:17-48): the next state and the
      input line to be written, if any. */
  function LoopStep(st: Scan, line: string): (Scan, Option<string>)
  {
    if !st.skipping then ScanStep(st, line) else SkipStep(st, line)
  }

  /** Outside a declaration: a declaration line adds its braces to the running
      depth and is dropped; it ends its own span only when the depth is not
      positive and it holds `;` or `}`. Any other line is written. */
  function ScanStep(st: Scan, line: string): (Scan, Option<string>)
  {
    if IsDeclLine(line) then
      var d := st.depth + NetBraces(line);
      (Scan(!(d <= 0 && (';' in line || '}' in line)), d), None)
    else
      (st, Some(line))
  }

  /** Inside a skipped declaration: the depth accumulates and the span ends as
      soon as it is not positive, whatever the line holds. */
  function SkipStep(st: Scan, line: string): (Scan, Option<string>)
  {
    var d := st.depth + NetBraces(line);
    (Scan(d > 0, d), None)
  }

  const Start := Scan(false, 0)

  /** The text one pass writes: the rewritten line and a newline, or nothing. */
  function Written(kept: Option<string>): string
  {
    if kept.Some? then RewriteLine(kept.value) + "\n" else ""
  }

  /** The text the loop writes for `lines` when it starts in state `st`. */
  function Emitted(lines: seq<string>, st: Scan): string
    decreases |lines|
  {
    if lines == [] then ""
    else
      var next := LoopStep(st, lines[0]);
      Written(next.1) + Emitted(lines[1..], next.0)
  }

  /** Every kept line, rewritten. */
  function RewriteAll(ls: seq<string>): (r: seq<string>)
    ensures |r| == |ls| && forall k :: 0 <= k < |ls| ==> r[k] == RewriteLine(ls[k])
  {
    if ls == [] then [] else [RewriteLine(ls[0])] + RewriteAll(ls[1..])
  }

  /** The lines of `content` the loop keeps, after the directives are removed. */
  function KeptLinesOf(content: string): seq<string>
  {
    Kept(Split(RemoveDirectives(content), '\n'), Start, LoopStep)
  }

  /** The text the script returns for `content`: it always opens with the
      `'use client';` directive. */
  function Stripped(content: string): (r: string)
    ensures StartsWith(r, Directive)
  {
    Directive + Render(RewriteAll(KeptLinesOf(content)))
  }

  lemma EmittedStep(lines: seq<string>, st: Scan)
    requires lines != []
    ensures Emitted(lines, st) == Written(LoopStep(st, lines[0]).1) + Emitted(lines[1..], LoopStep(st, lines[0]).0)
  {
  }

  lemma RewriteAllCons(line: string, ls: seq<string>)
    ensures Render(RewriteAll([line] + ls)) == RewriteLine(line) + "\n" + Render(RewriteAll(ls))
  {
    assert RewriteAll([line] + ls) == [RewriteLine(line)] + RewriteAll(ls);
  }

  /** What the loop writes is the rendering of the rewritten kept lines. */
  lemma {:induction false} EmittedRendersKept(lines: seq<string>, st: Scan)
    ensures Emitted(lines, st) == Render(RewriteAll(Kept(lines, st, LoopStep)))
    decreases |lines|
  {
    if lines != [] {
      var next := LoopStep(st, lines[0]);
      var tail := Kept(lines[1..], next.0, LoopStep);
      EmittedRendersKept(lines[1..], next.0);
      EmittedStep(lines, st);
      if next.1.Some? {
        KeptWritten(lines, st, LoopStep);
        RewriteAllCons(next.1.value, tail);
        AppendAssoc(RewriteLine(next.1.value), "\n", Render(RewriteAll(tail)));
      } else {
        KeptDropped(lines, st, LoopStep);
        assert "" + Emitted(lines[1..], next.0) == Emitted(lines[1..], next.0);
      }
    }
  }

  /** `strip_types(content)` (strip_types.py:4-50). */
  method StripTypes(content: string) returns (out: string)
    ensures out == Stripped(content)
    ensures StartsWith(out, Directive)
  {
    var text := ReplaceAll(content, SingleQuoted, "");
    text := ReplaceAll(text, DoubleQuoted, "");
    var newContent := "";
    var lines := Split(text, '\n');
    var skipMode := false;
    var braceCount := 0;
    var i := 0;
    while i < |lines|
      invariant 0 <= i <= |lines|
      invariant newContent + Emitted(lines[i..], Scan(skipMode, braceCount)) == Emitted(lines, Start)
    {
      ghost var st := Scan(skipMode, braceCount);
      EmittedStep(lines[i..], st);
      assert lines[i..][0] == lines[i] && lines[i..][1..] == lines[i + 1..];
      var written;
      skipMode, braceCount, written := ProcessLine(lines[i], skipMode, braceCount);
      AppendAssoc(newContent, written, Emitted(lines[i + 1..], Scan(skipMode, braceCount)));
      newContent := newContent + written;
      i := i + 1;
    }
    assert lines[i..] == [];
    EmittedRendersKept(lines, Start);
    out := Directive + newContent;
  }

  /** The body of the loop (strip_types.py:17-48): the new scanning state and
      the text written for `line`. */
  method ProcessLine(line: string, skipMode: bool, braceCount: int)
    returns (skip: bool, depth: int, text: string)
    ensures Scan(skip, depth) == LoopStep(Scan(skipMode, braceCount), line).0
    ensures text == Written(LoopStep(Scan(skipMode, braceCount), line).1)
  {
    skip, depth, text := skipMode, braceCount, "";
    if !skip {
      if IsDeclLine(line) {
        skip := true;
        depth := depth + CountChar(line, '{') - CountChar(line, '}');
        if depth <= 0 && (';' in line || '}' in line) {
          skip := false;
        }
      } else {
        var l := Sub(line, ReactFc, "");
        l := Sub(l, ReactType, "");
        l := Sub(l, SimpleAnnotation, "");
        l := Sub(l, UseStateAt, "useState");
        l := Sub(l, NarrowCastAt, "");
        l := Sub(l, GenericBeforeParen, "");
        text := l + "\n";
      }
    } else {
      depth := depth + CountChar(line, '{') - CountChar(line, '}');
      if depth <= 0 {
        skip := false;
      }
    }
  }

  // ------------------------------------------------------------------
  // Properties of the line loop
  // ------------------------------------------------------------------

  /** A pass writes its own line exactly when it is scanning and the line does
      not start a declaration. */
  lemma LoopStepWrites(st: Scan, line: string)
    ensures LoopStep(st, line).1 == (if !st.skipping && !IsDeclLine(line) then Some(line) else None)
  {
  }

  /** Kept lines keep their order and are never repeated; line `k` is written
      exactly when the loop reaches it outside a skipped declaration and it
      does not itself start a declaration. */
  lemma KeptLines(lines: seq<string>)
    ensures var ks := Kept(lines, Start, LoopStep); var ka := KeptAt(lines, Start, LoopStep);
      |ka| == |ks| &&
      (forall j :: 0 <= j < |ka| ==> ka[j] < |lines| && ks[j] == lines[ka[j]]) &&
      (forall j1, j2 :: 0 <= j1 < j2 < |ka| ==> ka[j1] < ka[j2]) &&
      (forall k :: 0 <= k < |lines| ==>
        (k in ka <==> !StateAt(lines, Start, LoopStep, k).skipping && !IsDeclLine(lines[k])))
  {
    KeptValues(lines, Start, LoopStep);
    KeptIncreasing(lines, Start, LoopStep);
    KeptExactly(lines, Start, LoopStep);
    var ka := KeptAt(lines, Start, LoopStep);
    var ks := Kept(lines, Start, LoopStep);
    forall j | 0 <= j < |ka| ensures ks[j] == lines[ka[j]] {
      LoopStepWrites(StateAt(lines, Start, LoopStep, ka[j]), lines[ka[j]]);
    }
    forall k | 0 <= k < |lines|
      ensures k in ka <==> !StateAt(lines, Start, LoopStep, k).skipping && !IsDeclLine(lines[k])
    {
      LoopStepWrites(StateAt(lines, Start, LoopStep, k), lines[k]);
    }
  }

  /** The braces the loop counts from state `st` on: those of declaration
      lines and of lines inside a skipped span. */
  function CountedNets(lines: seq<string>, st: Scan): int
    decreases |lines|
  {
    if lines == [] then 0
    else
      (if st.skipping || IsDeclLine(lines[0]) then NetBraces(lines[0]) else 0)
      + CountedNets(lines[1..], LoopStep(st, lines[0]).0)
  }

  /** The depth is never reset: after the loop it is the starting depth plus
      every counted line's net braces. */
  lemma {:induction false} DepthAccumulates(lines: seq<string>, st: Scan)
    ensures StateAt(lines, st, LoopStep, |lines|).depth == st.depth + CountedNets(lines, st)
    decreases |lines|
  {
    if lines != [] {
      var next := LoopStep(st, lines[0]).0;
      assert next.depth == st.depth + (if st.skipping || IsDeclLine(lines[0]) then NetBraces(lines[0]) else 0);
      assert StateAt(lines, st, LoopStep, |lines|) == StateAt(lines[1..], next, LoopStep, |lines[1..]|);
      DepthAccumulates(lines[1..], next);
    }
  }

  /** A braced declaration block opened at depth 0 is dropped whole: an opening
      declaration line with one more `{` than `}`, body lines with balanced
      braces, and a closing line with one more `}` than `{`. */
  lemma {:induction false} BlockDropped(open: string, body: seq<string>, close: string, rest: seq<string>)
    requires IsDeclLine(open) && NetBraces(open) == 1
    requires forall k :: 0 <= k < |body| ==> NetBraces(body[k]) == 0
    requires NetBraces(close) == -1
    ensures Kept([open] + body + [close] + rest, Start, LoopStep) == Kept(rest, Scan(false, 0), LoopStep)
  {
    var lines := [open] + body + [close] + rest;
    assert lines[0] == open && lines[1..] == body + [close] + rest;
    assert LoopStep(Start, open) == (Scan(true, 1), None);
    KeptDropped(lines, Start, LoopStep);
    SkipBody(body, close, rest);
  }

  lemma {:induction false} SkipBody(body: seq<string>, close: string, rest: seq<string>)
    requires forall k :: 0 <= k < |body| ==> NetBraces(body[k]) == 0
    requires NetBraces(close) == -1
    ensures Kept(body + [close] + rest, Scan(true, 1), LoopStep) == Kept(rest, Scan(false, 0), LoopStep)
    decreases |body|
  {
    var lines := body + [close] + rest;
    if body == [] {
      assert lines[0] == close && lines[1..] == rest;
      assert LoopStep(Scan(true, 1), close) == (Scan(false, 0), None);
      KeptDropped(lines, Scan(true, 1), LoopStep);
    } else {
      assert lines[0] == body[0] && lines[1..] == body[1..] + [close] + rest;
      assert LoopStep(Scan(true, 1), body[0]) == (Scan(true, 1), None);
      KeptDropped(lines, Scan(true, 1), LoopStep);
      SkipBody(body[1..], close, rest);
    }
  }

  /** A brace-less type alias over several lines leaks: the declaration line
      opens a span, but the span ends after the very next line (the depth is
      not positive and no terminator is needed), so the alias's third line is
      written as if it were code. */
  lemma AliasLeaks(decl: string, second: string, third: string, rest: seq<string>, d: int)
    requires d <= 0
    requires IsDeclLine(decl) && '{' !in decl && '}' !in decl && ';' !in decl
    requires '{' !in second && '}' !in second
    requires !IsDeclLine(third)
    ensures Kept([decl, second, third] + rest, Scan(false, d), LoopStep) == [third] + Kept(rest, Scan(false, d), LoopStep)
  {
    var lines := [decl, second, third] + rest;
    assert lines[0] == decl && lines[1..] == [second, third] + rest;
    BracelessDeclStartsSpan(decl, d);
    KeptDropped(lines, Scan(false, d), LoopStep);
    SpanEndsAfterOneLine(second, third, rest, d);
  }

  lemma SpanEndsAfterOneLine(second: string, third: string, rest: seq<string>, d: int)
    requires d <= 0
    requires '{' !in second && '}' !in second
    requires !IsDeclLine(third)
    ensures Kept([second, third] + rest, Scan(true, d), LoopStep) == [third] + Kept(rest, Scan(false, d), LoopStep)
  {
    var lines := [second, third] + rest;
    BracelessLineEndsSpan(second, d);
    KeptDropped(lines, Scan(true, d), LoopStep);
    assert lines[1..] == [third] + rest && lines[1..][1..] == rest;
    assert LoopStep(Scan(false, d), third) == (Scan(false, d), Some(third));
    KeptWritten(lines[1..], Scan(false, d), LoopStep);
  }

  /** A declaration line without braces or `;` opens a span at the same
      depth. */
  lemma BracelessDeclStartsSpan(decl: string, d: int)
    requires IsDeclLine(decl) && '{' !in decl && '}' !in decl && ';' !in decl
    ensures LoopStep(Scan(false, d), decl) == (Scan(true, d), None)
  {
    CountAbsent(decl, '{');
    CountAbsent(decl, '}');
  }

  /** Inside a span at a depth that is not positive, a line without braces
      ends the span. */
  lemma BracelessLineEndsSpan(line: string, d: int)
    requires d <= 0 && '{' !in line && '}' !in line
    ensures LoopStep(Scan(true, d), line) == (Scan(false, d), None)
  {
    CountAbsent(line, '{');
    CountAbsent(line, '}');
  }

  lemma CountAbsent(s: string, c: char)
    requires c !in s
    ensures CountChar(s, c) == 0
  {
    if s != [] { CountAbsent(s[1..], c); }
  }

  /** The output begins with exactly the directive, then one line per kept
      line: reading the body back at newlines gives the rewritten kept lines
      and a final empty piece. */
  lemma {:induction false} OutputLines(content: string)
    ensures StartsWith(Stripped(content), Directive)
    ensures var ks := RewriteAll(KeptLinesOf(content));
      Split(Stripped(content)[|Directive|..], '\n') == ks + [""]
  {
    var lines := Split(RemoveDirectives(content), '\n');
    SplitJoin(RemoveDirectives(content), '\n');
    KeptLines(lines);
    var ka := KeptAt(lines, Start, LoopStep);
    var ks := RewriteAll(KeptLinesOf(content));
    forall k | 0 <= k < |ks| ensures '\n' !in ks[k] {
      assert '\n' !in lines[ka[k]];
    }
    RenderSplit(ks);
    assert Stripped(content)[|Directive|..] == Render(ks);
  }

  /** A line without `:`, `<` or whitespace has nothing to strip. */
  lemma PlainLineUnchanged(line: string)
    requires ':' !in line && '<' !in line
    requires forall i :: 0 <= i < |line| ==> !IsSpace(line[i])
    ensures RewriteLine(line) == line
  {
    forall i | 0 <= i < |line|
      ensures MatchLen(line[i..], ReactFc) == 0 && MatchLen(line[i..], ReactType) == 0
      ensures MatchLen(line[i..], SimpleAnnotation) == 0 && MatchLen(line[i..], UseStateAt) == 0
      ensures MatchLen(line[i..], NarrowCastAt) == 0 && MatchLen(line[i..], GenericBeforeParen) == 0
    {
      assert line[i..][0] == line[i];
    }
    SubNoMatch(line, ReactFc, "");
    SubNoMatch(line, ReactType, "");
    SubNoMatch(line, SimpleAnnotation, "");
    SubNoMatch(line, UseStateAt, "useState");
    SubNoMatch(line, NarrowCastAt, "");
    SubNoMatch(line, GenericBeforeParen, "");
  }

  /** The three annotation patterns all start with `:`. */
  lemma AnnotationsStartWithColon()
    ensures StartsWithAll(ReactFc, ':') && StartsWithAll(ReactType, ':') && StartsWithAll(SimpleAnnotation, ':')
  {
  }

  /** A line without `:` goes through the three annotation removals as it is. */
  lemma AnnotationsIdle(line: string)
    requires ':' !in line
    ensures Sub(Sub(Sub(line, ReactFc, ""), ReactType, ""), SimpleAnnotation, "") == line
  {
    AnnotationsStartWithColon();
    SubWithoutChar(line, ReactFc, "", ':');
    SubWithoutChar(line, ReactType, "", ':');
    SubWithoutChar(line, SimpleAnnotation, "", ':');
  }

  /** A `useState` match holds `<` right after the hook's name. */
  lemma StateHookHoldsAngle()
    ensures HoldsCharAt(UseStateAt, '<', 8)
  {
    forall u: string | MatchLen(u, UseStateAt) > 0 ensures 8 < |u| && u[8] == '<' {
      assert UseStateAt(u).Some?;
    }
  }

  /** ` as T` matches up to the end of the word `T`. */
  lemma NarrowCastMatched(w: string, b: string)
    requires |w| >= 2 && IsUpper(w[0]) && Word(w) && (b == [] || !IsWordChar(b[0]))
    ensures NarrowCastAt(" as " + w + b) == Some(4 + |w|)
  {
    var t := " as " + w + b;
    assert t[1..][0] == 'a';
    assert WsLen(t) == 1;
    assert t[1..3] == "as";
    assert t[3..][0] == ' ' && t[3..][1..][0] == w[0];
    assert WsLen(t[3..]) == 1;
    assert t[5..] == w[1..] + b;
    WordRun(w[1..], b);
  }

  /** The assertion removal takes ` as T` out from between a head and a
      tail that hold no assertion of their own. */
  lemma NarrowCastStep(a: string, w: string, b: string)
    requires NoSpaceThenA(a) && a != [] && !IsSpace(a[|a| - 1])
    requires NoSpaceThenA(b) && (b == [] || !IsWordChar(b[0]))
    requires |w| >= 2 && IsUpper(w[0]) && Word(w)
    ensures Sub(a + " as " + w + b, NarrowCastAt, "") == a + b
  {
    var x := " as " + w + b;
    assert a + " as " + w + b == a + x;
    NoCastStartsIn(a, x, false);
    forall i | 0 <= i < |a| ensures MatchLen((a + x)[i..], NarrowCastAt) == 0 {
      assert NarrowCastAt((a + x)[i..]) == None;
    }
    SubSkips(a, x, NarrowCastAt, "");
    NarrowCastMatched(w, b);
    assert x[4 + |w|..] == b;
    SubMatched(x, NarrowCastAt, "", 4 + |w|);
    NoCastIn(b, false);
    forall i | 0 <= i < |b| ensures MatchLen(b[i..], NarrowCastAt) == 0 {
      assert NarrowCastAt(b[i..]) == None;
    }
    SubNoMatch(b, NarrowCastAt, "");
    assert "" + b == b;
  }

  /** Type assertions are removed from every line, an import line included
      (`import { A as Bc } from 'x';` loses ` as Bc`), where the other
      script leaves import lines alone. */
  lemma CastRemovedAnywhere(a: string, w: string, b: string)
    requires ':' !in a && '<' !in a && NoSpaceThenA(a) && a != [] && !IsSpace(a[|a| - 1])
    requires ':' !in b && '<' !in b && NoSpaceThenA(b) && (b == [] || !IsWordChar(b[0]))
    requires |w| >= 2 && IsUpper(w[0]) && Word(w)
    ensures RewriteLine(a + " as " + w + b) == a + b
  {
    var line := a + " as " + w + b;
    CastLineChars(a, w, b);
    AnnotationsIdle(line);
    StateHookHoldsAngle();
    SubWithoutCharAt(line, UseStateAt, "useState", '<', 8);
    NarrowCastStep(a, w, b);
    GenericBeforeParenStartsWithAngle();
    SubWithoutChar(a + b, GenericBeforeParen, "", '<');
  }

  lemma CastLineChars(a: string, w: string, b: string)
    requires ':' !in a && '<' !in a && ':' !in b && '<' !in b && Word(w)
    ensures var line := a + " as " + w + b; ':' !in line && '<' !in line && '<' !in a + b
  {
    var line := a + " as " + w + b;
    forall i | 0 <= i < |line| ensures line[i] != ':' && line[i] != '<' {
      if i < |a| {
        assert line[i] == a[i];
      } else if i < |a| + 4 {
        assert line[i] == " as "[i - |a|];
      } else if i < |a| + 4 + |w| {
        assert line[i] == w[i - |a| - 4];
      } else {
        assert line[i] == b[i - |a| - 4 - |w|];
      }
    }
  }

  lemma GenericBeforeParenStartsWithAngle()
    ensures StartsWithAll(GenericBeforeParen, '<')
  {
  }

  /** `: React.FC` without type arguments is matched whole. */
  lemma ReactFcMatched(b: string)
    requires b == [] || b[0] != '<'
    ensures ReactFc(": React.FC" + b) == Some(10)
  {
    var t := ": React.FC" + b;
    assert t[1..][0] == ' ' && t[1..][1..][0] == 'R';
    assert WsLen(t[1..]) == 1;
    assert t[2..10] == "React.FC";
    assert t[10..] == b;
  }

  /** `: React.FC` goes, and the scan resumes after it. */
  lemma ReactFcRemoved(b: string)
    requires b == [] || b[0] != '<'
    ensures Sub(": React.FC" + b, ReactFc, "") == Sub(b, ReactFc, "")
  {
    var t := ": React.FC" + b;
    ReactFcMatched(b);
    assert t[10..] == b;
    SubMatched(t, ReactFc, "", 10);
  }

  /** `: React.FC<P>` goes with its type arguments, up to the first `>`. */
  lemma ReactFcGenericRemoved(p: string, b: string)
    requires '>' !in p && '\n' !in p
    ensures Sub(": React.FC<" + p + ">" + b, ReactFc, "") == Sub(b, ReactFc, "")
  {
    var t := ": React.FC<" + p + ">" + b;
    ReactFcGenericMatched(p, b);
    assert t[12 + |p|..] == b;
    SubMatched(t, ReactFc, "", 12 + |p|);
  }

  lemma ReactFcGenericMatched(p: string, b: string)
    requires '>' !in p && '\n' !in p
    ensures ReactFc(": React.FC<" + p + ">" + b) == Some(12 + |p|)
  {
    var t := ": React.FC<" + p + ">" + b;
    assert t[1..][0] == ' ' && t[1..][1..][0] == 'R';
    assert WsLen(t[1..]) == 1;
    assert t[2..10] == "React.FC";
    assert t[10] == '<' && t[11 + |p|] == '>';
    forall i | 11 <= i < 11 + |p| ensures t[i] != '>' && t[i] != '\n' {
      assert t[i] == p[i - 11];
    }
    FirstCloseAt(t, 11, 11 + |p|);
  }

  /** `: string` followed by `,`, `;`, `)`, whitespace or the end of the
      line is matched whole. */
  lemma StringAnnotationMatched(b: string)
    requires StripFollow(b, 0)
    ensures SimpleAnnotation(": string" + b) == Some(8)
  {
    var t := ": string" + b;
    assert t[1..][0] == ' ' && t[1..][1..][0] == 's';
    assert WsLen(t[1..]) == 1;
    assert t[2..8] == "string";
    assert t[8..] == b;
    assert StripTypeNames[0] == "string";
    if b != [] {
      assert t[8] == b[0];
    }
  }

  /** `: string` goes when the lookahead holds after it. */
  lemma StringAnnotationRemoved(b: string)
    requires StripFollow(b, 0)
    ensures Sub(": string" + b, SimpleAnnotation, "") == Sub(b, SimpleAnnotation, "")
  {
    var t := ": string" + b;
    StringAnnotationMatched(b);
    assert t[8..] == b;
    SubMatched(t, SimpleAnnotation, "", 8);
  }

  /** A line where no whitespace is followed by `a` holds no assertion. */
  lemma NarrowCastsIdle(line: string)
    requires NoSpaceThenA(line)
    ensures Sub(line, NarrowCastAt, "") == line
  {
    NoCastIn(line, false);
    forall i | 0 <= i < |line| ensures MatchLen(line[i..], NarrowCastAt) == 0 {
      assert NarrowCastAt(line[i..]) == None;
    }
    SubNoMatch(line, NarrowCastAt, "");
  }

  /** `useRef` keeps a type argument that does not start with a capital:
      the script collapses only `useState`, and the type parameter pattern
      wants a capital after `<`. */
  lemma RefTypeArgsKept(ty: string, b: string)
    requires ty != [] && !IsUpper(ty[0]) && ':' !in ty && '<' !in ty
    requires forall i :: 0 <= i < |ty| ==> !IsSpace(ty[i])
    requires ':' !in b && '<' !in b && NoSpaceThenA(b)
    ensures RewriteLine("useRef<" + ty + ">" + b) == "useRef<" + ty + ">" + b
  {
    RefLineShape(ty, b);
    RefGenericUnmatched(ty, b);
    NothingToStrip("useRef<" + ty + ">" + b);
  }

  /** A line where no rewrite finds a match is left as it is. */
  lemma NothingToStrip(line: string)
    requires ':' !in line && NoSpaceThenA(line)
    requires forall j :: 0 <= j < |line| && line[j] == '<' ==> j < 8
    requires forall i :: 0 <= i < |line| ==> MatchLen(line[i..], GenericBeforeParen) == 0
    ensures RewriteLine(line) == line
  {
    AnnotationsIdle(line);
    StateHookHoldsAngle();
    SubCharOnlyBefore(line, UseStateAt, "useState", '<', 8);
    NarrowCastsIdle(line);
    SubNoMatch(line, GenericBeforeParen, "");
  }

  /** The line's only `<` is the one after `useRef`, no `:` occurs and no
      whitespace is followed by `a`. */
  lemma RefLineShape(ty: string, b: string)
    requires ':' !in ty && '<' !in ty && (forall i :: 0 <= i < |ty| ==> !IsSpace(ty[i]))
    requires ':' !in b && '<' !in b && NoSpaceThenA(b)
    ensures var line := "useRef<" + ty + ">" + b;
      ':' !in line && (forall j :: 0 <= j < |line| && line[j] == '<' ==> j == 6) && NoSpaceThenA(line)
  {
    var line := "useRef<" + ty + ">" + b;
    var n := 8 + |ty|;
    forall j | 0 <= j < |line|
      ensures line[j] != ':' && (line[j] == '<' ==> j == 6)
      ensures j > 0 && IsSpace(line[j - 1]) ==> line[j] != 'a'
    {
      if j < 7 {
        assert line[j] == "useRef<"[j];
      } else if j < 7 + |ty| {
        assert line[j] == ty[j - 7];
      } else if j == 7 + |ty| {
        assert line[j] == '>';
      } else {
        assert line[j] == b[j - n];
      }
      if j > 0 && j - 1 < n {
        if j - 1 < 7 {
          assert line[j - 1] == "useRef<"[j - 1];
        } else if j - 1 < 7 + |ty| {
          assert line[j - 1] == ty[j - 8];
        } else {
          assert line[j - 1] == '>';
        }
      } else if j > 0 {
        assert line[j - 1] == b[j - 1 - n];
      }
    }
  }

  lemma RefGenericUnmatched(ty: string, b: string)
    requires ty != [] && !IsUpper(ty[0]) && !IsSpace(ty[0])
    requires forall j :: 0 <= j < |"useRef<" + ty + ">" + b| && ("useRef<" + ty + ">" + b)[j] == '<' ==> j == 6
    ensures var line := "useRef<" + ty + ">" + b;
      forall i :: 0 <= i < |line| ==> MatchLen(line[i..], GenericBeforeParen) == 0
  {
    var line := "useRef<" + ty + ">" + b;
    forall i | 0 <= i < |line| ensures MatchLen(line[i..], GenericBeforeParen) == 0 {
      var t := line[i..];
      if i == 6 {
        assert t[1..][0] == ty[0];
        assert WsLen(t[1..]) == 0;
        assert t[1] == ty[0];
      } else {
        assert t[0] == line[i];
      }
    }
  }

  /** Removing the directives is the identity on a text that holds neither. */
  lemma NoDirectiveUnchanged(content: string)
    requires !Contains(content, SingleQuoted) && !Contains(content, DoubleQuoted)
    ensures RemoveDirectives(content) == content
  {
    ReplaceAbsent(content, SingleQuoted, "");
    ReplaceAbsent(content, DoubleQuoted, "");
  }
}
