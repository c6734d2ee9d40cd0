/** `transform_content` of transform_ts.py: strips TypeScript declarations and
    annotations from a source file line by line and, for JSX files, rewrites
    react-router routing into Next.js routing and prepends the client
    directive. */
module TransformTs {
  import opened Common
  import opened TsPatterns
  import opened LineScan

  const Directive := "'use client';\n"

  const RouterImportHead := "import { Link, useNavigate } from "
  const RouterImportSingle := RouterImportHead + "'react-router-dom';"
  const NextLinkSingle := "import Link from 'next/link';"
  const NextRouterSingle := "import { useRouter } from 'next/navigation';"
  const NextImportsSingle := NextLinkSingle + " " + NextRouterSingle
  const RouterImportDouble := RouterImportHead + "\"react-router-dom\";"
  const NextLinkDouble := "import Link from \"next/link\";"
  const NextRouterDouble := "import { useRouter } from \"next/navigation\";"
  const NextImportsDouble := NextLinkDouble + " " + NextRouterDouble
  const NavigateCall := "useNavigate()"
  const RouterCall := "useRouter()"
  const LinkHref := "<Link href="

  /** `line.count('{') - line.count('}')` */
  function NetBraces(line: string): int
  {
    CountChar(line, '{') - CountChar(line, '}')
  }

  function UseStateAt(t: string): Option<nat> { HookGeneric("useState", t) }

  function UseRefAt(t: string): Option<nat> { HookGeneric("useRef", t) }

  function WideCastAt(t: string): Option<nat> { AsCast(t, true) }

  /** Annotation stripping (transform_ts.py:28). */
  function StripAnnotations(line: string): (r: string)
    ensures |r| <= |line| && ('\n' !in line ==> '\n' !in r)
  {
    SubShrinks(line, AnnotationTs, "");
    SubKeepsNoNewline(line, AnnotationTs, "");
    Sub(line, AnnotationTs, "")
  }

  /** Every annotation match starts with `:`. */
  lemma AnnotationStartsWithColon()
    ensures StartsWithAll(AnnotationTs, ':')
  {
  }

  /** A head without `:` passes through the annotation removal. */
  lemma StripAnnotationsSkips(a: string, x: string)
    requires ':' !in a
    ensures StripAnnotations(a + x) == a + StripAnnotations(x)
  {
    AnnotationStartsWithColon();
    SubSkipsChar(a, x, AnnotationTs, "", ':');
  }

  /** `: T` goes, colon and type, when the word `T` is followed by one of
      `,;)}=`, whitespace or the end of the line. */
  lemma AnnotationRemoved(w: string, b: string)
    requires w != [] && Word(w) && TsFollow(b, 0)
    ensures StripAnnotations(": " + w + b) == StripAnnotations(b)
  {
    var t := ": " + w + b;
    AnnotationMatched(w, b);
    assert t[2 + |w|..] == b;
    SubMatched(t, AnnotationTs, "", 2 + |w|);
    assert "" + Sub(b, AnnotationTs, "") == Sub(b, AnnotationTs, "");
  }

  /** `useState<…>` and `useRef<…>` lose their type arguments (transform_ts.py:31-32). */
  function CollapseHooks(line: string): (r: string)
    ensures |r| <= |line| && ('\n' !in line ==> '\n' !in r)
  {
    var l := Sub(line, UseStateAt, "useState");
    assert forall u: string :: MatchLen(u, UseStateAt) == 0 || MatchLen(u, UseStateAt) >= 8;
    assert forall u: string :: MatchLen(u, UseRefAt) == 0 || MatchLen(u, UseRefAt) >= 6;
    SubShrinks(line, UseStateAt, "useState");
    SubShrinks(l, UseRefAt, "useRef");
    SubKeepsNoNewline(line, UseStateAt, "useState");
    SubKeepsNoNewline(l, UseRefAt, "useRef");
    Sub(l, UseRefAt, "useRef")
  }

  /** A hook match starts with the hook's name, so with `u`. */
  lemma HooksStartWithU()
    ensures StartsWithAll(UseStateAt, 'u') && StartsWithAll(UseRefAt, 'u')
  {
    forall u: string | MatchLen(u, UseStateAt) > 0 ensures u[0] == 'u' {
      assert u[..9] == "useState<";
      assert u[0] == u[..9][0];
    }
    forall u: string | MatchLen(u, UseRefAt) > 0 ensures u[0] == 'u' {
      assert u[..7] == "useRef<";
      assert u[0] == u[..7][0];
    }
  }

  /** A head without `u` holds no hook call and passes through unchanged. */
  lemma CollapseHooksSkips(a: string, x: string)
    requires 'u' !in a
    ensures CollapseHooks(a + x) == a + CollapseHooks(x)
  {
    HooksStartWithU();
    SubSkipsChar(a, x, UseStateAt, "useState", 'u');
    SubSkipsChar(a, Sub(x, UseStateAt, "useState"), UseRefAt, "useRef", 'u');
  }

  /** `useState<T>` loses its type arguments, whatever they are, up to the
      first `>`; the rest of the line is rewritten on its own. */
  lemma StateHookCollapsed(ty: string, b: string)
    requires '>' !in ty && '\n' !in ty
    ensures CollapseHooks("useState<" + ty + ">" + b) == "useState" + CollapseHooks(b)
  {
    var x := "useState<" + ty + ">" + b;
    StateHookMatched(ty, b);
    assert x[|ty| + 10..] == b;
    SubMatched(x, UseStateAt, "useState", |ty| + 10);
    var y := Sub(b, UseStateAt, "useState");
    NoRefInStateHead(y);
    SubSkips("useState", y, UseRefAt, "useRef");
  }

  lemma StateHookMatched(ty: string, b: string)
    requires '>' !in ty && '\n' !in ty
    ensures UseStateAt("useState<" + ty + ">" + b) == Some(|ty| + 10)
  {
    HookMatch("useState", ty, b);
    assert "useState" + "<" + ty + ">" + b == "useState<" + ty + ">" + b;
  }

  /** No `useRef<` starts inside the word `useState`. */
  lemma NoRefInStateHead(y: string)
    ensures NoMatchBefore("useState" + y, UseRefAt, 8)
  {
    var t := "useState" + y;
    HooksStartWithU();
    forall i | 0 <= i < 8 ensures MatchLen(t[i..], UseRefAt) == 0 {
      if i == 0 {
        assert t[0..] == t;
        assert t[..7][3] == t[3] == 'S';
      } else {
        assert t[i..][0] == t[i];
      }
    }
  }

  /** `useRef<T>` loses its type arguments too, when they hold no `u` (a
      `useState<` inside them would be collapsed first). */
  lemma RefHookCollapsed(ty: string, b: string)
    requires '>' !in ty && '\n' !in ty && 'u' !in ty
    ensures CollapseHooks("useRef<" + ty + ">" + b) == "useRef" + CollapseHooks(b)
  {
    var head := "useRef<" + ty + ">";
    NoStateInRefHead(ty, b);
    SubSkips(head, b, UseStateAt, "useState");
    var y := Sub(b, UseStateAt, "useState");
    RefHookMatched(ty, y);
    assert (head + y)[|ty| + 8..] == y;
    SubMatched(head + y, UseRefAt, "useRef", |ty| + 8);
  }

  lemma RefHookMatched(ty: string, y: string)
    requires '>' !in ty && '\n' !in ty
    ensures UseRefAt("useRef<" + ty + ">" + y) == Some(|ty| + 8)
  {
    HookMatch("useRef", ty, y);
    assert "useRef" + "<" + ty + ">" + y == "useRef<" + ty + ">" + y;
  }

  /** No `useState<` starts inside `useRef<T>` when `T` holds no `u`. */
  lemma NoStateInRefHead(ty: string, b: string)
    requires 'u' !in ty
    ensures NoMatchBefore("useRef<" + ty + ">" + b, UseStateAt, |ty| + 8)
  {
    var head := "useRef<" + ty + ">";
    var x := head + b;
    assert x == "useRef<" + ty + ">" + b;
    HooksStartWithU();
    forall i | 0 <= i < |head| ensures MatchLen(x[i..], UseStateAt) == 0 {
      if i == 0 {
        assert x[0..] == x;
        if |x| >= 9 {
          assert x[..9][3] == x[3] == 'R';
        }
      } else {
        assert x[i..][0] == head[i];
        if i < 7 {
          assert head[i] == "useRef<"[i];
        } else if i < 7 + |ty| {
          assert head[i] == ty[i - 7];
        }
      }
    }
  }

  /** Type assertions are removed except on lines holding `import ` (transform_ts.py:35-36). */
  function DropCasts(line: string): (r: string)
    ensures |r| <= |line| && ('\n' !in line ==> '\n' !in r)
    ensures Contains(line, "import ") ==> r == line
  {
    SubShrinks(line, WideCastAt, "");
    SubKeepsNoNewline(line, WideCastAt, "");
    if Contains(line, "import ") then line else Sub(line, WideCastAt, "")
  }

  /** A run of the class `[\w<>\[\]\|]` that starts with a capital and
      that a character outside the class ends: the type an assertion names. */
  predicate CastType(w: string, b: string)
  {
    |w| >= 2 && IsUpper(w[0]) && (forall i :: 0 <= i < |w| ==> IsCastChar(w[i]))
    && (b == [] || !IsCastChar(b[0]))
  }

  /** ` as T` matches up to the end of the type `T`. */
  lemma CastMatched(w: string, b: string)
    requires CastType(w, b)
    ensures WideCastAt(" as " + w + b) == Some(4 + |w|)
  {
    var t := " as " + w + b;
    assert t[1..][0] == 'a';
    assert WsLen(t) == 1;
    assert t[1..3] == "as";
    assert t[3..][0] == ' ' && t[3..][1..][0] == w[0];
    assert WsLen(t[3..]) == 1;
    assert t[5..] == w[1..] + b;
    CastRun(w[1..], b);
  }

  /** A type assertion at the start of the text is removed. */
  lemma CastAtStart(w: string, b: string)
    requires CastType(w, b)
    ensures Sub(" as " + w + b, WideCastAt, "") == Sub(b, WideCastAt, "")
  {
    var t := " as " + w + b;
    CastMatched(w, b);
    assert t[4 + |w|..] == b;
    SubMatched(t, WideCastAt, "", 4 + |w|);
    assert "" + Sub(b, WideCastAt, "") == Sub(b, WideCastAt, "");
  }

  /** ` as T` is removed from a line without `import `. */
  lemma CastRemoved(w: string, b: string)
    requires CastType(w, b) && !Contains(" as " + w + b, "import ")
    ensures DropCasts(" as " + w + b) == DropCasts(b)
  {
    var t := " as " + w + b;
    assert t[4 + |w|..] == b;
    AbsentFromSuffix(t, "import ", 4 + |w|);
    CastAtStart(w, b);
  }

  /** A head without whitespace holds no assertion. */
  lemma DropCastsSkips(a: string, x: string)
    requires (forall i :: 0 <= i < |a| ==> !IsSpace(a[i])) && !Contains(a + x, "import ")
    ensures DropCasts(a + x) == a + DropCasts(x)
  {
    CastSubSkips(a, x);
    assert (a + x)[|a|..] == x;
    AbsentFromSuffix(a + x, "import ", |a|);
  }

  lemma CastSubSkips(a: string, x: string)
    requires forall i :: 0 <= i < |a| ==> !IsSpace(a[i])
    ensures Sub(a + x, WideCastAt, "") == a + Sub(x, WideCastAt, "")
  {
    forall i | 0 <= i < |a| ensures MatchLen((a + x)[i..], WideCastAt) == 0 {
      assert (a + x)[i..][0] == a[i];
    }
    SubSkips(a, x, WideCastAt, "");
  }

  /** A double assertion `v as unknown as T` loses only its last step: the
      pattern wants a capital after `as`, so ` as unknown` stays. */
  lemma DoubleAssertionHalfKept(v: string, w: string)
    requires (forall i :: 0 <= i < |v| ==> !IsSpace(v[i])) && CastType(w, [])
    requires !Contains(v + " as unknown as " + w, "import ")
    ensures DropCasts(v + " as unknown as " + w) == v + " as unknown"
  {
    var x0 := " as unknown as " + w;
    assert v + " as unknown as " + w == v + x0;
    CastSubSkips(v, x0);
    UnknownTailKept(w);
    assert v + (" as unknown" + []) == v + " as unknown";
  }

  /** The scan over ` as unknown as T`: the pattern fails at both spaces
      before `T`'s assertion, which it removes. */
  lemma UnknownTailKept(w: string)
    requires CastType(w, [])
    ensures Sub(" as unknown as " + w, WideCastAt, "") == " as unknown"
  {
    var y := " as " + w;
    assert " as unknown as " + w == " as unknown" + y;
    AsUnknownScanned(y);
    UnknownScanned(y);
    CastAlone(w);
    AsUnknownJoined();
  }

  lemma AsUnknownJoined() ensures " as" + (" unknown" + []) == " as unknown" {}

  /** A line that is only an assertion becomes empty. */
  lemma CastAlone(w: string)
    requires CastType(w, [])
    ensures Sub(" as " + w, WideCastAt, "") == []
  {
    CastAtStart(w, []);
    assert " as " + w + [] == " as " + w;
  }

  lemma AsUnknownScanned(y: string)
    ensures Sub(" as unknown" + y, WideCastAt, "") == " as" + Sub(" unknown" + y, WideCastAt, "")
  {
    var z := " unknown" + y;
    UnknownNotCast(y);
    AsHasNoSpace();
    SpaceAsUnknownSplit(y);
    SpacedWordCopied(' ', "as", z);
    SpaceAsSplit(Sub(z, WideCastAt, ""));
  }

  lemma UnknownScanned(y: string)
    ensures Sub(" unknown" + y, WideCastAt, "") == " unknown" + Sub(y, WideCastAt, "")
  {
    UnknownWordNotCast(y);
    UnknownHasNoSpace();
    SpaceUnknownSplit(y);
    SpacedWordCopied(' ', "unknown", y);
    SpaceUnknownSplit(Sub(y, WideCastAt, ""));
  }

  /** A space the pattern does not match at, followed by characters that
      are not whitespace, is copied. */
  lemma SpacedWordCopied(c: char, h: string, y: string)
    requires (forall i :: 0 <= i < |h| ==> !IsSpace(h[i])) && WideCastAt([c] + (h + y)) == None
    ensures Sub([c] + (h + y), WideCastAt, "") == [c] + (h + Sub(y, WideCastAt, ""))
  {
    SubUnmatched(c, h + y, WideCastAt, "");
    CastSubSkips(h, y);
  }

  lemma SpaceAsSplit(y: string) ensures " as" + y == [' '] + ("as" + y) {}

  lemma SpaceAsUnknownSplit(y: string) ensures " as unknown" + y == [' '] + ("as" + (" unknown" + y)) {}

  lemma SpaceUnknownSplit(y: string) ensures " unknown" + y == [' '] + ("unknown" + y) {}

  lemma AsHasNoSpace() ensures forall i :: 0 <= i < |"as"| ==> !IsSpace("as"[i]) {}

  lemma UnknownHasNoSpace() ensures forall i :: 0 <= i < |"unknown"| ==> !IsSpace("unknown"[i]) {}

  lemma UnknownNotCast(x: string)
    ensures WideCastAt(" as unknown" + x) == None
  {
    var t := " as unknown" + x;
    assert t[1..][0] == 'a';
    assert WsLen(t) == 1;
    assert t[3..][0] == ' ' && t[3..][1..][0] == 'u';
    assert WsLen(t[3..]) == 1;
    assert t[4] == 'u';
  }

  lemma UnknownWordNotCast(x: string)
    ensures WideCastAt(" unknown" + x) == None
  {
    var t := " unknown" + x;
    assert t[1..][0] == 'u';
    assert WsLen(t) == 1;
    assert t[1] == 'u';
  }

  /** Type parameters in front of a call are removed (transform_ts.py:39). */
  function DropTypeParams(line: string): (r: string)
    ensures |r| <= |line| && ('\n' !in line ==> '\n' !in r)
  {
    SubShrinks(line, GenericBeforeParen, "");
    SubKeepsNoNewline(line, GenericBeforeParen, "");
    Sub(line, GenericBeforeParen, "")
  }

  /** Every match of the type parameter pattern starts with `<`. */
  lemma GenericStartsWithAngle()
    ensures StartsWithAll(GenericBeforeParen, '<')
  {
  }

  /** A head without `<` passes through the type parameter removal. */
  lemma DropTypeParamsSkips(a: string, x: string)
    requires '<' !in a
    ensures DropTypeParams(a + x) == a + DropTypeParams(x)
  {
    GenericStartsWithAngle();
    SubSkipsChar(a, x, GenericBeforeParen, "", '<');
  }

  /** `<T>(` loses its `<T>` for a capitalised type name `T`; the call's
      parenthesis stays and the rest is rewritten on its own. */
  lemma TypeParamsDropped(w: string, b: string)
    requires w != [] && IsUpper(w[0]) && Word(w)
    ensures DropTypeParams("<" + w + ">(" + b) == "(" + DropTypeParams(b)
  {
    var t := "<" + w + ">(" + b;
    GenericMatched(w, b);
    assert t[|w| + 2..] == "(" + b;
    SubMatched(t, GenericBeforeParen, "", |w| + 2);
    assert "" + Sub("(" + b, GenericBeforeParen, "") == Sub("(" + b, GenericBeforeParen, "");
    DropTypeParamsSkips("(", b);
  }

  lemma GenericMatched(w: string, b: string)
    requires w != [] && IsUpper(w[0]) && Word(w)
    ensures GenericBeforeParen("<" + w + ">(" + b) == Some(|w| + 2)
  {
    var t := "<" + w + ">(" + b;
    GenericParts(w, b);
    assert WsLen(t[1..]) == 0;
    WordRun(w[1..], ">(" + b);
    assert WsLen(t[|w| + 1..]) == 0;
    assert WsLen(t[|w| + 2..]) == 0;
  }

  lemma GenericParts(w: string, b: string)
    requires w != []
    ensures var t := "<" + w + ">(" + b;
      t[0] == '<' && t[1..][0] == w[0] && t[1] == w[0] && t[2..] == w[1..] + (">(" + b)
      && t[|w| + 1..][0] == '>' && t[|w| + 1] == '>' && t[|w| + 2..][0] == '(' && t[|w| + 2] == '('
  {
  }

  /** The react-router to Next.js rewrites of a JSX line (transform_ts.py:43-46). */
  function RouterRewrite(line: string): (r: string)
    ensures '\n' !in line ==> '\n' !in r
  {
    var l1 := ReplaceAll(line, RouterImportSingle, NextImportsSingle);
    var l2 := ReplaceAll(l1, RouterImportDouble, NextImportsDouble);
    var l3 := ReplaceAll(l2, NavigateCall, RouterCall);
    ReplacementsHaveNoNewline();
    ReplaceKeepsCharAbsent(line, RouterImportSingle, NextImportsSingle, '\n');
    ReplaceKeepsCharAbsent(l1, RouterImportDouble, NextImportsDouble, '\n');
    ReplaceKeepsCharAbsent(l2, NavigateCall, RouterCall, '\n');
    SubKeepsNoNewline(l3, LinkTo, LinkHref);
    Sub(l3, LinkTo, LinkHref)
  }

  /** A `<Link\s+to=` match starts with `<`. */
  lemma LinkStartsWithAngle()
    ensures StartsWithAll(LinkTo, '<')
  {
  }

  /** `<Link`, any whitespace and `to=` are matched together. */
  lemma LinkMatched(sp: string, b: string)
    requires sp != [] && forall i :: 0 <= i < |sp| ==> IsSpace(sp[i])
    ensures LinkTo("<Link" + sp + "to=" + b) == Some(|sp| + 8)
  {
    var t := "<Link" + sp + "to=" + b;
    assert t[..5] == "<Link";
    assert t[5..] == sp + ("to=" + b);
    WsRun(sp, "to=" + b);
    assert t[5 + |sp|..5 + |sp| + 3] == "to=";
  }

  /** A link's `to=` becomes `href=`, whatever whitespace separated it from
      `<Link`; the rest of the line is rewritten on its own. This holds for a
      line without the router import or a `useNavigate()` call, and whose
      head before the link holds no `<`. */
  lemma LinkRewritten(a: string, sp: string, b: string)
    requires '<' !in a && sp != [] && forall i :: 0 <= i < |sp| ==> IsSpace(sp[i])
    requires var line := a + "<Link" + sp + "to=" + b;
      !Contains(line, RouterImportSingle) && !Contains(line, RouterImportDouble) && !Contains(line, NavigateCall)
    ensures RouterRewrite(a + "<Link" + sp + "to=" + b) == a + LinkHref + Sub(b, LinkTo, LinkHref)
  {
    LiteralRewritesIdle(a + "<Link" + sp + "to=" + b);
    LinkSubstituted(a, sp, b);
  }

  /** The link substitution itself, on such a line. */
  lemma LinkSubstituted(a: string, sp: string, b: string)
    requires '<' !in a && sp != [] && forall i :: 0 <= i < |sp| ==> IsSpace(sp[i])
    ensures Sub(a + "<Link" + sp + "to=" + b, LinkTo, LinkHref) == a + LinkHref + Sub(b, LinkTo, LinkHref)
  {
    var x := "<Link" + sp + "to=" + b;
    assert a + x == a + "<Link" + sp + "to=" + b;
    LinkSkips(a, x);
    LinkAtStart(sp, b);
  }

  /** A head without `<` holds no link. */
  lemma LinkSkips(a: string, x: string)
    requires '<' !in a
    ensures Sub(a + x, LinkTo, LinkHref) == a + Sub(x, LinkTo, LinkHref)
  {
    LinkStartsWithAngle();
    SubSkipsChar(a, x, LinkTo, LinkHref, '<');
  }

  /** A link at the start of the text is substituted first. */
  lemma LinkAtStart(sp: string, b: string)
    requires sp != [] && forall i :: 0 <= i < |sp| ==> IsSpace(sp[i])
    ensures Sub("<Link" + sp + "to=" + b, LinkTo, LinkHref) == LinkHref + Sub(b, LinkTo, LinkHref)
  {
    var x := "<Link" + sp + "to=" + b;
    LinkMatched(sp, b);
    assert x[|sp| + 8..] == b;
    SubMatched(x, LinkTo, LinkHref, |sp| + 8);
  }

  /** The three literal replacements leave a line without their patterns as
      it is. */
  lemma LiteralRewritesIdle(line: string)
    requires !Contains(line, RouterImportSingle) && !Contains(line, RouterImportDouble) && !Contains(line, NavigateCall)
    ensures RouterRewrite(line) == Sub(line, LinkTo, LinkHref)
  {
    ReplaceAbsent(line, RouterImportSingle, NextImportsSingle);
    ReplaceAbsent(line, RouterImportDouble, NextImportsDouble);
    ReplaceAbsent(line, NavigateCall, RouterCall);
  }

  /** No `useNavigate()` survives the JSX rewrites: every one becomes
      `useRouter()`, and neither that nor `<Link href=` can complete a new
      one with the text around it. */
  lemma NoNavigateRemains(line: string)
    ensures !Contains(RouterRewrite(line), NavigateCall)
  {
    var l1 := ReplaceAll(line, RouterImportSingle, NextImportsSingle);
    var l2 := ReplaceAll(l1, RouterImportDouble, NextImportsDouble);
    var l3 := ReplaceAll(l2, NavigateCall, RouterCall);
    NavigateSeams();
    NoneAfterReplace(l2, NavigateCall, RouterCall, NavigateCall);
    NoneAfterSub(l3, LinkTo, LinkHref, NavigateCall);
  }

  /** Neither replacement text can complete a `useNavigate()`. */
  lemma NavigateSeams()
    ensures SeamFree(NavigateCall, RouterCall) && SeamFree(NavigateCall, LinkHref)
  {
    NavigateCallEnds();
    NoUAfterNavigateHead();
    NoCloseBeforeNavigateEnd();
    CapitalNOnlyInNavigate();
    ReplacementHeads();
    SeamFreeByEnds(NavigateCall, RouterCall, 'N', 'u');
    SeamFreeByEnds(NavigateCall, LinkHref, 'u', '<');
  }

  // Character facts about the literals, one per lemma so that each stays
  // cheap for the solver.

  lemma NavigateCallEnds()
    ensures NavigateCall[1..] == "seNavigate()" && NavigateCall[..|NavigateCall| - 1] == "useNavigate("
    ensures NavigateCall[|NavigateCall| - 1] == ')' && 'N' in NavigateCall && 'u' in NavigateCall
  {
    assert NavigateCall[3] == 'N';
  }

  lemma NoUAfterNavigateHead() ensures 'u' !in "seNavigate()" && '<' !in "seNavigate()" {}

  lemma NoCloseBeforeNavigateEnd() ensures ')' !in "useNavigate(" && '=' !in "useNavigate(" {}

  lemma CapitalNOnlyInNavigate() ensures 'N' !in RouterCall && 'u' !in LinkHref {}

  lemma ReplacementHeads()
    ensures RouterCall[..2] == "us" && LinkHref[..2] == "<L"
    ensures RouterCall[|RouterCall| - 1] == ')' && LinkHref[|LinkHref| - 1] == '='
  {
  }

  /** The router import, in either quoting, becomes the two Next.js imports
      in the same quoting. */
  lemma ImportsRewritten()
    ensures RouterRewrite(RouterImportSingle) == NextImportsSingle
    ensures RouterRewrite(RouterImportDouble) == NextImportsDouble
  {
    SingleImportRewritten();
    DoubleImportRewritten();
  }

  lemma SingleImportRewritten()
    ensures RouterRewrite(RouterImportSingle) == NextImportsSingle
  {
    NoDoubleQuoteInNextSingle();
    DoubleQuoteInRouterDouble();
    NoCapitalNInNext();
    NavigateCallEnds();
    NoAngleInNext();
    LinkStartsWithAngle();
    ReplaceWhole(RouterImportSingle, NextImportsSingle);
    ContainsCharOf(NextImportsSingle, RouterImportDouble, '"');
    ReplaceAbsent(NextImportsSingle, RouterImportDouble, NextImportsDouble);
    ContainsCharOf(NextImportsSingle, NavigateCall, 'N');
    ReplaceAbsent(NextImportsSingle, NavigateCall, RouterCall);
    SubWithoutChar(NextImportsSingle, LinkTo, LinkHref, '<');
  }

  lemma DoubleImportRewritten()
    ensures RouterRewrite(RouterImportDouble) == NextImportsDouble
  {
    SingleQuoteOnlyInRouterSingle();
    NoCapitalNInNext();
    NavigateCallEnds();
    NoAngleInNext();
    LinkStartsWithAngle();
    ContainsCharOf(RouterImportDouble, RouterImportSingle, '\'');
    ReplaceAbsent(RouterImportDouble, RouterImportSingle, NextImportsSingle);
    ReplaceWhole(RouterImportDouble, NextImportsDouble);
    ContainsCharOf(NextImportsDouble, NavigateCall, 'N');
    ReplaceAbsent(NextImportsDouble, NavigateCall, RouterCall);
    SubWithoutChar(NextImportsDouble, LinkTo, LinkHref, '<');
  }

  lemma DoubleQuoteInRouterDouble()
    ensures '"' in RouterImportDouble
  {
    assert RouterImportDouble[|RouterImportHead|] == '"';
  }

  lemma SingleQuoteOnlyInRouterSingle()
    ensures '\'' in RouterImportSingle && '\'' !in RouterImportDouble
  {
    assert RouterImportSingle[|RouterImportHead|] == '\'';
    assert '\'' !in RouterImportHead;
    assert '\'' !in "\"react-router-dom\";";
  }

  lemma NoDoubleQuoteInNextSingle()
    ensures '"' !in NextImportsSingle
  {
    NextLinkSingleChars();
    NextRouterSingleChars();
  }

  lemma NoCapitalNInNext()
    ensures 'N' !in NextImportsSingle && 'N' !in NextImportsDouble
  {
    NextLinkSingleChars();
    NextRouterSingleChars();
    NextLinkDoubleChars();
    NextRouterDoubleChars();
  }

  lemma NoAngleInNext()
    ensures '<' !in NextImportsSingle && '<' !in NextImportsDouble
  {
    NextLinkSingleChars();
    NextRouterSingleChars();
    NextLinkDoubleChars();
    NextRouterDoubleChars();
  }

  lemma NextLinkSingleChars()
    ensures 'N' !in NextLinkSingle && '<' !in NextLinkSingle && '"' !in NextLinkSingle
  {
    NextLinkSingleLacksN();
    NextLinkSingleLacksAngle();
    NextLinkSingleLacksQuote();
  }

  lemma NextLinkSingleLacksN() ensures 'N' !in NextLinkSingle {}

  lemma NextLinkSingleLacksAngle() ensures '<' !in NextLinkSingle {}

  lemma NextLinkSingleLacksQuote() ensures '"' !in NextLinkSingle {}

  lemma NextRouterSingleChars()
    ensures 'N' !in NextRouterSingle && '<' !in NextRouterSingle && '"' !in NextRouterSingle
  {
    NextRouterSingleLacksN();
    NextRouterSingleLacksAngle();
    NextRouterSingleLacksQuote();
  }

  lemma NextRouterSingleLacksN() ensures 'N' !in NextRouterSingle {}

  lemma NextRouterSingleLacksAngle() ensures '<' !in NextRouterSingle {}

  lemma NextRouterSingleLacksQuote() ensures '"' !in NextRouterSingle {}

  lemma NextLinkDoubleChars() ensures 'N' !in NextLinkDouble && '<' !in NextLinkDouble {}

  lemma NextRouterDoubleChars()
    ensures 'N' !in NextRouterDouble && '<' !in NextRouterDouble
  {
    NextRouterDoubleLacksN();
    NextRouterDoubleLacksAngle();
  }

  lemma NextRouterDoubleLacksN() ensures 'N' !in NextRouterDouble {}

  lemma NextRouterDoubleLacksAngle() ensures '<' !in NextRouterDouble {}

  lemma ReplacementsHaveNoNewline()
    ensures '\n' !in NextImportsSingle && '\n' !in NextImportsDouble && '\n' !in RouterCall && '\n' !in LinkHref
  {
    SingleQuotedHasNoNewline();
    DoubleQuotedHasNoNewline();
  }

  lemma SingleQuotedHasNoNewline()
    ensures '\n' !in NextLinkSingle && '\n' !in NextRouterSingle
  {
  }

  lemma DoubleQuotedHasNoNewline()
    ensures '\n' !in NextLinkDouble && '\n' !in NextRouterDouble
  {
    assert '\n' !in NextLinkDouble;
  }

  /** The rewrites of a kept line, in the order the script applies them. A
      line without a newline stays without one, and outside JSX mode every
      rewrite deletes or shortens, so the line never grows. */
  function RewriteLine(line: string, jsx: bool): (r: string)
    ensures '\n' !in line ==> '\n' !in r
    ensures !jsx ==> |r| <= |line|
  {
    var l := DropTypeParams(DropCasts(CollapseHooks(StripAnnotations(line))));
    if jsx then RouterRewrite(l) else l
  }

  /** A line with no `:`, no `<`, either `import ` or no whitespace followed
      by `a`, and, for JSX, none of the router texts comes out of every
      rewrite as it went in: an import line such as
      `import { A as B } from './a';` keeps its ` as B`. */
  lemma PlainLineUnchanged(line: string, jsx: bool)
    requires ':' !in line && '<' !in line && (NoSpaceThenA(line) || Contains(line, "import "))
    requires jsx ==> !Contains(line, RouterImportSingle) && !Contains(line, RouterImportDouble) && !Contains(line, NavigateCall)
    ensures RewriteLine(line, jsx) == line
  {
    AnnotationStartsWithColon();
    SubWithoutChar(line, AnnotationTs, "", ':');
    HooksIdle(line);
    if !Contains(line, "import ") {
      CastsIdle(line);
    }
    GenericStartsWithAngle();
    SubWithoutChar(line, GenericBeforeParen, "", '<');
    if jsx {
      LiteralRewritesIdle(line);
      LinkStartsWithAngle();
      SubWithoutChar(line, LinkTo, LinkHref, '<');
    }
  }

  /** Through the whole pipeline, a `useRef<T>` call loses its type
      argument and the rest of a plain line stays as it is. */
  lemma RefLineRewritten(ty: string, b: string)
    requires '>' !in ty && '\n' !in ty && 'u' !in ty && ':' !in ty
    requires ':' !in b && '<' !in b && NoSpaceThenA(b)
    ensures RewriteLine("useRef<" + ty + ">" + b, false) == "useRef" + b
  {
    var line := "useRef<" + ty + ">" + b;
    RefHeadHasNoColon(ty);
    assert line == ("useRef<" + ty + ">") + b;
    AnnotationStartsWithColon();
    SubWithoutChar(line, AnnotationTs, "", ':');
    RefHookCollapsed(ty, b);
    HooksIdle(b);
    RefTailPlain(b);
    CastsIdle("useRef" + b);
    GenericStartsWithAngle();
    SubWithoutChar("useRef" + b, GenericBeforeParen, "", '<');
  }

  lemma RefHeadHasNoColon(ty: string)
    requires ':' !in ty
    ensures ':' !in "useRef<" + ty + ">"
  {
    assert "useRef<" + ty + ">" == "useRef<" + (ty + ">");
  }

  /** `useRef` followed by a plain rest is plain. */
  lemma RefTailPlain(b: string)
    requires '<' !in b && NoSpaceThenA(b)
    ensures '<' !in "useRef" + b && NoSpaceThenA("useRef" + b)
  {
    var t := "useRef" + b;
    forall j | 0 < j < |t| && IsSpace(t[j - 1]) ensures t[j] != 'a' {
      if j <= 6 {
        assert t[j - 1] == "useRef"[j - 1];
      } else {
        assert t[j - 1] == b[j - 7] && t[j] == b[j - 6];
      }
    }
  }

  /** Without `<` there is no hook call to collapse. */
  lemma HooksIdle(x: string)
    requires '<' !in x
    ensures CollapseHooks(x) == x
  {
    HooksHoldAngle();
    SubWithoutCharAt(x, UseStateAt, "useState", '<', 8);
    SubWithoutCharAt(x, UseRefAt, "useRef", '<', 6);
  }

  /** A hook match holds `<` right after the hook's name. */
  lemma HooksHoldAngle()
    ensures HoldsCharAt(UseStateAt, '<', 8) && HoldsCharAt(UseRefAt, '<', 6)
  {
    StateHookHoldsAngle();
    RefHookHoldsAngle();
  }

  lemma StateHookHoldsAngle()
    ensures HoldsCharAt(UseStateAt, '<', 8)
  {
    forall u: string | MatchLen(u, UseStateAt) > 0 ensures 8 < |u| && u[8] == '<' {
      assert UseStateAt(u).Some?;
    }
  }

  lemma RefHookHoldsAngle()
    ensures HoldsCharAt(UseRefAt, '<', 6)
  {
    forall u: string | MatchLen(u, UseRefAt) > 0 ensures 6 < |u| && u[6] == '<' {
      assert UseRefAt(u).Some?;
    }
  }

  /** A line where no whitespace is followed by `a` keeps every character
      through the assertion removal. */
  lemma CastsIdle(line: string)
    requires NoSpaceThenA(line)
    ensures DropCasts(line) == line
  {
    NoCastIn(line, true);
    forall i | 0 <= i < |line| ensures MatchLen(line[i..], WideCastAt) == 0 {
      assert WideCastAt(line[i..]) == None;
    }
    SubNoMatch(line, WideCastAt, "");
  }

  /** One pass of the loop body (transform_ts.py:13-54): the next state and
      the input line to be written, if any. The rewrites applied to a written
      line do not influence the state, so they are applied afterwards, by
      `RewriteAll`. */
  function LoopStep(st: Scan, line: string): (Scan, Option<string>)
  {
    if !st.skipping then ScanStep(st, line) else SkipStep(st, line)
  }

  /** Outside a declaration: a declaration line is dropped and may open a
      skipped span; any other line is written. */
  function ScanStep(st: Scan, line: string): (Scan, Option<string>)
  {
    if IsDeclLine(line) then
      if '{' in line then
        var d := NetBraces(line);
        (Scan(d > 0, d), None)
      else if '=' in line && ';' !in line then
        (Scan(true, st.depth), None)
      else
        (st, None)
    else
      (st, Some(line))
  }

  /** Inside a skipped declaration: the line is dropped and the depth updated;
      the span ends once the depth is not positive and the line holds `;` or
      `}` or is blank. */
  function SkipStep(st: Scan, line: string): (Scan, Option<string>)
  {
    var d := st.depth + NetBraces(line);
    (Scan(!(d <= 0 && (';' in line || '}' in line || IsBlank(line))), d), None)
  }

  /** Every kept line, rewritten. */
  function RewriteAll(ls: seq<string>, jsx: bool): (r: seq<string>)
    ensures |r| == |ls| && forall k :: 0 <= k < |ls| ==> r[k] == RewriteLine(ls[k], jsx)
  {
    if ls == [] then [] else [RewriteLine(ls[0], jsx)] + RewriteAll(ls[1..], jsx)
  }

  const Start := Scan(false, 0)

  /** The lines of `content` the loop keeps. */
  function KeptLinesOf(content: string): seq<string>
  {
    Kept(Split(content, '\n'), Start, LoopStep)
  }

  /** The text the script writes for `content`: a JSX file's output opens
      with the `'use client';` directive. */
  function Transformed(content: string, jsx: bool): (r: string)
    ensures jsx ==> StartsWith(r, Directive)
  {
    (if jsx then Directive else "") + Render(RewriteAll(KeptLinesOf(content), jsx))
  }

  /** The text one pass writes: the rewritten line and a newline, or nothing. */
  function Written(kept: Option<string>, jsx: bool): string
  {
    if kept.Some? then RewriteLine(kept.value, jsx) + "\n" else ""
  }

  /** The text the loop writes for `lines` when it starts in state `st`. */
  function Emitted(lines: seq<string>, st: Scan, jsx: bool): string
    decreases |lines|
  {
    if lines == [] then ""
    else
      var next := LoopStep(st, lines[0]);
      Written(next.1, jsx) + Emitted(lines[1..], next.0, jsx)
  }

  /** What the loop writes is the rendering of the rewritten kept lines. */
  lemma {:induction false} EmittedRendersKept(lines: seq<string>, st: Scan, jsx: bool)
    ensures Emitted(lines, st, jsx) == Render(RewriteAll(Kept(lines, st, LoopStep), jsx))
    decreases |lines|
  {
    if lines != [] {
      var next := LoopStep(st, lines[0]);
      var tail := Kept(lines[1..], next.0, LoopStep);
      EmittedRendersKept(lines[1..], next.0, jsx);
      EmittedStep(lines, st, jsx);
      if next.1.Some? {
        KeptWritten(lines, st, LoopStep);
        RewriteAllCons(next.1.value, tail, jsx);
        AppendAssoc(RewriteLine(next.1.value, jsx), "\n", Render(RewriteAll(tail, jsx)));
      } else {
        KeptDropped(lines, st, LoopStep);
        assert "" + Emitted(lines[1..], next.0, jsx) == Emitted(lines[1..], next.0, jsx);
      }
    }
  }

  lemma RewriteAllCons(line: string, ls: seq<string>, jsx: bool)
    ensures Render(RewriteAll([line] + ls, jsx)) == RewriteLine(line, jsx) + "\n" + Render(RewriteAll(ls, jsx))
  {
    assert RewriteAll([line] + ls, jsx) == [RewriteLine(line, jsx)] + RewriteAll(ls, jsx);
  }

  lemma EmittedStep(lines: seq<string>, st: Scan, jsx: bool)
    requires lines != []
    ensures Emitted(lines, st, jsx) == Written(LoopStep(st, lines[0]).1, jsx) + Emitted(lines[1..], LoopStep(st, lines[0]).0, jsx)
  {
  }

  /** `transform_content(content, is_jsx)` (transform_ts.py:4-58). */
  method TransformContent(content: string, isJsx: bool) returns (out: string)
    ensures out == Transformed(content, isJsx)
    ensures isJsx ==> StartsWith(out, Directive)
  {
    var newContent := "";
    var lines := Split(content, '\n');
    var skipMode := false;
    var braceCount := 0;
    var i := 0;
    while i < |lines|
      invariant 0 <= i <= |lines|
      invariant newContent + Emitted(lines[i..], Scan(skipMode, braceCount), isJsx)
        == Emitted(lines, Start, isJsx)
    {
      ghost var st := Scan(skipMode, braceCount);
      EmittedStep(lines[i..], st, isJsx);
      assert lines[i..][0] == lines[i] && lines[i..][1..] == lines[i + 1..];
      var text;
      skipMode, braceCount, text := ProcessLine(lines[i], skipMode, braceCount, isJsx);
      AppendAssoc(newContent, text, Emitted(lines[i + 1..], Scan(skipMode, braceCount), isJsx));
      newContent := newContent + text;
      i := i + 1;
    }
    assert lines[i..] == [];
    assert newContent + "" == newContent;
    EmittedRendersKept(lines, Start, isJsx);
    if isJsx {
      out := Directive + newContent;
      assert out[..|Directive|] == Directive;
    } else {
      out := newContent;
      assert "" + newContent == newContent;
    }
  }

  /** The body of the loop (transform_ts.py:14-54): the new scanning state and
      the text written for `line`. */
  method ProcessLine(line: string, skipMode: bool, braceCount: int, isJsx: bool)
    returns (skip: bool, depth: int, text: string)
    ensures Scan(skip, depth) == LoopStep(Scan(skipMode, braceCount), line).0
    ensures text == Written(LoopStep(Scan(skipMode, braceCount), line).1, isJsx)
  {
    skip, depth, text := skipMode, braceCount, "";
    if !skip {
      if IsDeclLine(line) {
        if '{' in line {
          skip := true;
          depth := CountChar(line, '{') - CountChar(line, '}');
          if depth <= 0 {
            skip := false;
          }
        } else if '=' in line && ';' !in line {
          skip := true;
        }
      } else {
        var l := RewriteKept(line, isJsx);
        text := l + "\n";
      }
    } else {
      depth := depth + CountChar(line, '{') - CountChar(line, '}');
      if depth <= 0 && (';' in line || '}' in line || IsBlank(line)) {
        skip := false;
      }
    }
  }

  /** The rewrites of a kept line, applied one after another as the loop
      body does (transform_ts.py:27-46). */
  method RewriteKept(line: string, isJsx: bool) returns (l: string)
    ensures l == RewriteLine(line, isJsx)
  {
    l := StripAnnotations(line);
    l := CollapseHooks(l);
    l := DropCasts(l);
    l := DropTypeParams(l);
    if isJsx {
      l := RouterRewrite(l);
    }
  }

  // ------------------------------------------------------------------
  // Properties of the line loop
  // ------------------------------------------------------------------

  /** Lines are never reordered or repeated: the written lines are the lines
      at strictly increasing indices, and line `k` is written exactly when the
      loop reaches it outside a skipped declaration and it does not itself
      start a declaration. */
  lemma KeptLines(lines: seq<string>)
    ensures var ks := Kept(lines, Start, LoopStep); var ka := KeptAt(lines, Start, LoopStep);
      |ka| == |ks| &&
      (forall j :: 0 <= j < |ka| ==> ka[j] < |lines| && ks[j] == lines[ka[j]]) &&
      (forall j1, j2 :: 0 <= j1 < j2 < |ka| ==> ka[j1] < ka[j2]) &&
      (forall k :: 0 <= k < |lines| ==>
        (k in ka <==> !StateAt(lines, Start, LoopStep, k).skipping && !IsDeclLine(lines[k])))
  {
    KeptValues(lines, Start, LoopStep);
    KeptIncreasing(lines, Start, LoopStep);
    KeptExactly(lines, Start, LoopStep);
    var ka := KeptAt(lines, Start, LoopStep);
    var ks := Kept(lines, Start, LoopStep);
    forall j | 0 <= j < |ka| ensures ks[j] == lines[ka[j]] {
      LoopStepWrites(StateAt(lines, Start, LoopStep, ka[j]), lines[ka[j]]);
    }
    forall k | 0 <= k < |lines|
      ensures k in ka <==> !StateAt(lines, Start, LoopStep, k).skipping && !IsDeclLine(lines[k])
    {
      LoopStepWrites(StateAt(lines, Start, LoopStep, k), lines[k]);
    }
  }

  /** A pass writes its own line, unchanged, exactly when it is scanning and
      the line does not start a declaration. */
  lemma LoopStepWrites(st: Scan, line: string)
    ensures LoopStep(st, line).1 == (if !st.skipping && !IsDeclLine(line) then Some(line) else None)
  {
  }

  /** The body of the output holds one line per kept input line, in order:
      reading it back at newlines gives the rewritten kept lines and a final
      empty piece. */
  lemma {:induction false} OutputLines(content: string, jsx: bool)
    ensures var ks := RewriteAll(KeptLinesOf(content), jsx);
      Split(Render(ks), '\n') == ks + [""]
  {
    var lines := Split(content, '\n');
    SplitJoin(content, '\n');
    KeptLines(lines);
    var kept := KeptLinesOf(content);
    var ka := KeptAt(lines, Start, LoopStep);
    var ks := RewriteAll(kept, jsx);
    forall k | 0 <= k < |ks| ensures '\n' !in ks[k] {
      assert '\n' !in lines[ka[k]];
    }
    RenderSplit(ks);
  }

  /** Outside a skipped declaration the depth is never positive. */
  predicate Settled(st: Scan) { !st.skipping ==> st.depth <= 0 }

  /** Every state the loop reaches is settled. */
  lemma {:induction false} ReachedSettled(lines: seq<string>, st: Scan, k: nat)
    requires Settled(st) && k <= |lines|
    ensures Settled(StateAt(lines, st, LoopStep, k))
    decreases k
  {
    if k > 0 {
      var next := LoopStep(st, lines[0]).0;
      assert Settled(next);
      ReachedSettled(lines[1..], next, k - 1);
    }
  }

  /** A declaration line is dropped and ends scanning at once when its own
      braces balance or close more than they open. */
  lemma BalancedDeclarationAlone(line: string, rest: seq<string>, st: Scan)
    requires !st.skipping && IsDeclLine(line) && '{' in line && NetBraces(line) <= 0
    ensures Kept([line] + rest, st, LoopStep) == Kept(rest, Scan(false, NetBraces(line)), LoopStep)
  {
    assert ([line] + rest)[1..] == rest;
  }

  /** A brace-less declaration that ends with its own `;` is dropped alone. */
  lemma OneLineAliasAlone(line: string, rest: seq<string>, st: Scan)
    requires !st.skipping && IsDeclLine(line) && '{' !in line && ';' in line
    ensures Kept([line] + rest, st, LoopStep) == Kept(rest, st, LoopStep)
  {
    assert ([line] + rest)[1..] == rest;
  }

  /** A braced declaration block is dropped whole: an opening declaration line
      with one more `{` than `}`, body lines with balanced braces, and a
      closing line with one more `}` than `{`. Scanning resumes after it at
      depth 0. */
  lemma {:induction false} BlockDropped(open: string, body: seq<string>, close: string, rest: seq<string>, st: Scan)
    requires !st.skipping && IsDeclLine(open) && NetBraces(open) == 1
    requires forall k :: 0 <= k < |body| ==> NetBraces(body[k]) == 0
    requires NetBraces(close) == -1
    ensures Kept([open] + body + [close] + rest, st, LoopStep) == Kept(rest, Scan(false, 0), LoopStep)
  {
    assert '{' in open by {
      if '{' !in open { CountAbsent(open, '{'); }
    }
    assert '}' in close by {
      if '}' !in close { CountAbsent(close, '}'); }
    }
    assert ([open] + body + [close] + rest)[1..] == body + [close] + rest;
    SkipBody(body, close, rest);
  }

  lemma {:induction false} SkipBody(body: seq<string>, close: string, rest: seq<string>)
    requires forall k :: 0 <= k < |body| ==> NetBraces(body[k]) == 0
    requires NetBraces(close) == -1 && '}' in close
    ensures Kept(body + [close] + rest, Scan(true, 1), LoopStep) == Kept(rest, Scan(false, 0), LoopStep)
    decreases |body|
  {
    var lines := body + [close] + rest;
    if body == [] {
      assert lines[0] == close && lines[1..] == rest;
      assert LoopStep(Scan(true, 1), close) == (Scan(false, 0), None);
      KeptDropped(lines, Scan(true, 1), LoopStep);
    } else {
      assert lines[0] == body[0] && lines[1..] == body[1..] + [close] + rest;
      assert LoopStep(Scan(true, 1), body[0]) == (Scan(true, 1), None);
      KeptDropped(lines, Scan(true, 1), LoopStep);
      SkipBody(body[1..], close, rest);
    }
  }

  lemma CountAbsent(s: string, c: char)
    requires c !in s
    ensures CountChar(s, c) == 0
  {
    if s != [] { CountAbsent(s[1..], c); }
  }

  /** A brace-less type alias that spans several lines (a declaration line with
      `=` and no `;`) is dropped up to and including the first line with a
      `;`, provided no line in between is blank or holds a brace. */
  lemma {:induction false} MultiLineAliasDropped(decl: string, body: seq<string>, last: string, rest: seq<string>, st: Scan)
    requires Settled(st) && !st.skipping
    requires IsDeclLine(decl) && '{' !in decl && '}' !in decl && '=' in decl && ';' !in decl
    requires forall k :: 0 <= k < |body| ==>
      '{' !in body[k] && '}' !in body[k] && ';' !in body[k] && !IsBlank(body[k])
    requires '{' !in last && '}' !in last && ';' in last
    ensures Kept([decl] + body + [last] + rest, st, LoopStep) == Kept(rest, st, LoopStep)
  {
    assert ([decl] + body + [last] + rest)[1..] == body + [last] + rest;
    SkipAlias(body, last, rest, st.depth);
  }

  lemma {:induction false} SkipAlias(body: seq<string>, last: string, rest: seq<string>, d: int)
    requires d <= 0
    requires forall k :: 0 <= k < |body| ==>
      '{' !in body[k] && '}' !in body[k] && ';' !in body[k] && !IsBlank(body[k])
    requires '{' !in last && '}' !in last && ';' in last
    ensures Kept(body + [last] + rest, Scan(true, d), LoopStep) == Kept(rest, Scan(false, d), LoopStep)
    decreases |body|
  {
    var lines := body + [last] + rest;
    if body == [] {
      assert lines[0] == last && lines[1..] == rest;
      assert LoopStep(Scan(true, d), last) == (Scan(false, d), None) by {
        CountAbsent(last, '{');
        CountAbsent(last, '}');
      }
      KeptDropped(lines, Scan(true, d), LoopStep);
    } else {
      assert lines[0] == body[0] && lines[1..] == body[1..] + [last] + rest;
      assert LoopStep(Scan(true, d), body[0]) == (Scan(true, d), None) by {
        CountAbsent(body[0], '{');
        CountAbsent(body[0], '}');
      }
      KeptDropped(lines, Scan(true, d), LoopStep);
      SkipAlias(body[1..], last, rest, d);
    }
  }

  /** On a text without any declaration line every line is kept, in order. */
  lemma {:induction false} NoDeclarationsKeepsAll(lines: seq<string>)
    requires forall k :: 0 <= k < |lines| ==> !IsDeclLine(lines[k])
    ensures Kept(lines, Start, LoopStep) == lines
    decreases |lines|
  {
    if lines != [] {
      NoDeclarationsKeepsAll(lines[1..]);
      assert lines == [lines[0]] + lines[1..];
    }
  }
}
