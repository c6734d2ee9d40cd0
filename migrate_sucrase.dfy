/** The fix-up pass of migrate_sucrase.py: after sucrase has compiled the
    TypeScript sources to JavaScript, each output file is renamed, deleted or
    rewritten by a fixed chain of literal replacements that moves routing from
    react-router to Next.js. */
module MigrateSucrase {
  import opened Common
  import TransformTs

  const Directive := TransformTs.Directive

  const UseNavigateCall := "useNavigate()"
  const UseRouterCall := "useRouter()"
  const DeclHead := "const navigate = "
  /** The declaration sucrase emits for the navigate hook. */
  const HookDecl := DeclHead + UseNavigateCall + ";"
  const NavigateDecl := DeclHead + UseRouterCall + ";"
  const RouterDecl := "const router = " + UseRouterCall + ";"
  const NavigateCall := "navigate("
  const RouterPush := "router.push("
  const ImportDouble := TransformTs.RouterImportDouble
  const ImportSingle := TransformTs.RouterImportSingle
  /** Both import forms become this double-quoted pair. */
  const NextImports := TransformTs.NextImportsDouble
  const LinkTo := "<Link to="
  const LinkHref := "<Link href="

  /** Steps 1-3 of the chain: the navigate hook, its variable and its calls
      (migrate_sucrase.py:53-55). */
  function RenameNavigate(s: string): string
  {
    var s1 := ReplaceAll(s, UseNavigateCall, UseRouterCall);
    var s2 := ReplaceAll(s1, NavigateDecl, RouterDecl);
    ReplaceAll(s2, NavigateCall, RouterPush)
  }

  /** Steps 4-6 of the chain: both import forms, then links
      (migrate_sucrase.py:56-58). */
  function RewriteImports(s: string): string
  {
    var s4 := ReplaceAll(s, ImportDouble, NextImports);
    var s5 := ReplaceAll(s4, ImportSingle, NextImports);
    ReplaceAll(s5, LinkTo, LinkHref)
  }

  /** The replacement chain of migrate_sucrase.py:53-58, in source order. */
  function FixNavigation(s: string): string
  {
    RewriteImports(RenameNavigate(s))
  }

  /** The text written back for a file: the client directive for components,
      then the replacement chain over the whole text (migrate_sucrase.py:48-58). */
  function FixedUp(content: string, isComponent: bool): string
  {
    FixNavigation((if isComponent then Directive else "") + content)
  }

  /** What happens to one file found under `subdir`. */
  datatype FileAction =
    | Delete(name: string)
    | Rewrite(name: string, component: bool)
    | Leave(name: string)

  /** The rename and clean-up rule (migrate_sucrase.py:32-44): a component
      `.js` output is renamed `.jsx`; a `.ts`/`.tsx` original is deleted, judged
      by its name before any rename; a `.js`/`.jsx` file is rewritten. */
  function Plan(subdir: string, file: string): FileAction
  {
    var name := if subdir == "components" && EndsWith(file, ".js") then file + "x" else file;
    if EndsWith(file, ".ts") || EndsWith(file, ".tsx") then Delete(name)
    else if EndsWith(name, ".js") || EndsWith(name, ".jsx") then Rewrite(name, subdir == "components")
    else Leave(name)
  }

  /** The per-file fix-up of migrate_sucrase.py:48-58, reassigning the text
      step by step as the script does. */
  method FixContent(content: string, isComponent: bool) returns (out: string)
    ensures out == FixedUp(content, isComponent)
    ensures isComponent ==> StartsWith(out, Directive)
    ensures !Contains(out, NavigateCall)
  {
    out := content;
    if isComponent {
      out := Directive + out;
    }
    ghost var start := out;
    assert start == (if isComponent then Directive else "") + content;
    out := ReplaceAll(out, UseNavigateCall, UseRouterCall);
    out := ReplaceAll(out, NavigateDecl, RouterDecl);
    out := ReplaceAll(out, NavigateCall, RouterPush);
    out := ReplaceAll(out, ImportDouble, NextImports);
    out := ReplaceAll(out, ImportSingle, NextImports);
    out := ReplaceAll(out, LinkTo, LinkHref);
    assert out == RewriteImports(RenameNavigate(start));
    NoNavigateCallRemains(start);
    if isComponent {
      DirectiveKept(content);
    }
  }

  // ------------------------------------------------------------------
  // Properties of the chain
  // ------------------------------------------------------------------

  // Character facts about the literals, one per lemma so that each stays
  // cheap for the solver.

  lemma NavigateCallEnds()
    ensures NavigateCall[1..] == "avigate(" && NavigateCall[..|NavigateCall| - 1] == "navigate"
  {
  }

  lemma ReplacementStarts()
    ensures RouterPush[..2] == "ro" && LinkHref[..2] == "<L"
  {
  }

  lemma NoParenInImportHead() ensures '(' !in TransformTs.RouterImportHead {}

  lemma NoDoubleQuoteInImportHead() ensures '"' !in TransformTs.RouterImportHead {}

  lemma NoNewlineInImportHead() ensures '\n' !in TransformTs.RouterImportHead {}

  lemma NoParenInNextImports() ensures '(' !in NextImports
  {
    assert '(' !in TransformTs.NextLinkDouble;
    assert '(' !in TransformTs.NextRouterDouble;
  }

  lemma NoSingleQuoteInNextImports() ensures '\'' !in NextImports
  {
    assert '\'' !in TransformTs.NextLinkDouble;
    assert '\'' !in TransformTs.NextRouterDouble;
  }

  lemma NoAngleInNextImports() ensures '<' !in NextImports
  {
    assert '<' !in TransformTs.NextLinkDouble;
    assert '<' !in TransformTs.NextRouterDouble;
  }

  lemma NextImportsEnds()
    ensures NextImports[|NextImports| - 1] == ';' && NextImports[..2] == "im"
  {
  }

  lemma RouterPushSeamFree()
    ensures SeamFree(NavigateCall, RouterPush)
  {
    NavigateCallEnds();
    ReplacementStarts();
    SeamFreeByEnds(NavigateCall, RouterPush, 'n', 'r');
  }

  lemma NextImportsSeamFree()
    ensures SeamFree(NavigateCall, NextImports)
  {
    NavigateCallEnds();
    NoParenInNextImports();
    NextImportsEnds();
    SeamFreeByEnds(NavigateCall, NextImports, '(', 'm');
  }

  lemma LinkHrefSeamFree()
    ensures SeamFree(NavigateCall, LinkHref)
  {
    NavigateCallEnds();
    ReplacementStarts();
    SeamFreeByEnds(NavigateCall, LinkHref, 'v', '<');
  }

  /** After the chain no `navigate(` is left: step 3 removes every one, and
      no later replacement text contains or completes one. */
  lemma NoNavigateCallRemains(s: string)
    ensures !Contains(FixNavigation(s), NavigateCall)
  {
    var s1 := ReplaceAll(s, UseNavigateCall, UseRouterCall);
    var s2 := ReplaceAll(s1, NavigateDecl, RouterDecl);
    var s3 := RenameNavigate(s);
    var s4 := ReplaceAll(s3, ImportDouble, NextImports);
    var s5 := ReplaceAll(s4, ImportSingle, NextImports);
    RouterPushSeamFree();
    NextImportsSeamFree();
    LinkHrefSeamFree();
    NoneAfterReplace(s2, NavigateCall, RouterPush, NavigateCall);
    NoneAfterReplace(s3, ImportDouble, NextImports, NavigateCall);
    NoneAfterReplace(s4, ImportSingle, NextImports, NavigateCall);
    NoneAfterReplace(s5, LinkTo, LinkHref, NavigateCall);
  }

  lemma DirectiveChars()
    ensures 'N' !in Directive && 'v' !in Directive && '{' !in Directive && '<' !in Directive
    ensures Directive != [] && Directive[|Directive| - 1] == '\n'
  {
  }

  lemma NoNewlineInShortPatterns()
    ensures '\n' !in UseNavigateCall && '\n' !in NavigateDecl && '\n' !in NavigateCall && '\n' !in LinkTo
  {
  }

  lemma NoNewlineInImports()
    ensures '\n' !in ImportDouble && '\n' !in ImportSingle
  {
    NoNewlineInImportHead();
  }

  /** One replacement step leaves a leading directive in place when its
      pattern has no newline and a character the directive lacks. */
  lemma KeepsDirective(t: string, p: string, r: string, c: char)
    requires |p| > 0 && '\n' !in p && c in p
    requires c !in Directive && Directive != [] && Directive[|Directive| - 1] == '\n'
    ensures ReplaceAll(Directive + t, p, r) == Directive + ReplaceAll(t, p, r)
  {
    ContainsCharOf(Directive, p, c);
    ReplaceKeepsHead(Directive, t, p, r);
  }

  lemma DirectiveBeforeRename(content: string)
    ensures RenameNavigate(Directive + content) == Directive + RenameNavigate(content)
  {
    DirectiveChars();
    NoNewlineInShortPatterns();
    var s1 := ReplaceAll(content, UseNavigateCall, UseRouterCall);
    var s2 := ReplaceAll(s1, NavigateDecl, RouterDecl);
    KeepsDirective(content, UseNavigateCall, UseRouterCall, 'N');
    KeepsDirective(s1, NavigateDecl, RouterDecl, 'v');
    KeepsDirective(s2, NavigateCall, RouterPush, 'v');
  }

  lemma DirectiveBeforeImports(content: string)
    ensures RewriteImports(Directive + content) == Directive + RewriteImports(content)
  {
    DirectiveChars();
    NoNewlineInShortPatterns();
    NoNewlineInImports();
    assert '{' in ImportDouble && '{' in ImportSingle by {
      assert TransformTs.RouterImportHead[7] == '{';
    }
    var s4 := ReplaceAll(content, ImportDouble, NextImports);
    var s5 := ReplaceAll(s4, ImportSingle, NextImports);
    KeepsDirective(content, ImportDouble, NextImports, '{');
    KeepsDirective(s4, ImportSingle, NextImports, '{');
    KeepsDirective(s5, LinkTo, LinkHref, '<');
  }

  /** The chain leaves a leading client directive in place: no pattern
      occurs in it or reaches across its final newline. */
  lemma DirectiveKept(content: string)
    ensures FixNavigation(Directive + content) == Directive + FixNavigation(content)
    ensures StartsWith(FixedUp(content, true), Directive)
  {
    DirectiveBeforeRename(content);
    DirectiveBeforeImports(RenameNavigate(content));
  }

  /** Steps 1-3 find nothing in either import form. */
  lemma ImportFormsUntouched(s: string)
    requires s == ImportDouble || s == ImportSingle
    ensures !Contains(s, UseNavigateCall) && !Contains(s, NavigateDecl) && !Contains(s, NavigateCall)
  {
    NoParenInImportHead();
    ContainsCharOf(s, UseNavigateCall, '(');
    ContainsCharOf(s, NavigateDecl, '(');
    ContainsCharOf(s, NavigateCall, '(');
  }

  /** The last two steps find nothing in the Next.js imports. */
  lemma NextImportsSettled()
    ensures !Contains(NextImports, ImportSingle) && !Contains(NextImports, LinkTo)
  {
    NoSingleQuoteInNextImports();
    NoAngleInNextImports();
    ContainsCharOf(NextImports, ImportSingle, '\'');
    ContainsCharOf(NextImports, LinkTo, '<');
  }

  /** The double-quoted react-router import becomes the Next.js pair. */
  lemma DoubleImportRewritten()
    ensures FixNavigation(ImportDouble) == NextImports
  {
    ImportFormsUntouched(ImportDouble);
    ReplaceAbsent(ImportDouble, UseNavigateCall, UseRouterCall);
    ReplaceAbsent(ImportDouble, NavigateDecl, RouterDecl);
    ReplaceAbsent(ImportDouble, NavigateCall, RouterPush);
    assert RenameNavigate(ImportDouble) == ImportDouble;
    NextImportsSettled();
    ReplaceWhole(ImportDouble, NextImports);
    ReplaceAbsent(NextImports, ImportSingle, NextImports);
    ReplaceAbsent(NextImports, LinkTo, LinkHref);
  }

  /** The single-quoted react-router import becomes the same double-quoted pair. */
  lemma SingleImportRewritten()
    ensures FixNavigation(ImportSingle) == NextImports
  {
    ImportFormsUntouched(ImportSingle);
    ReplaceAbsent(ImportSingle, UseNavigateCall, UseRouterCall);
    ReplaceAbsent(ImportSingle, NavigateDecl, RouterDecl);
    ReplaceAbsent(ImportSingle, NavigateCall, RouterPush);
    assert RenameNavigate(ImportSingle) == ImportSingle;
    NextImportsSettled();
    NoDoubleQuoteInImportHead();
    ContainsCharOf(ImportSingle, ImportDouble, '"');
    ReplaceAbsent(ImportSingle, ImportDouble, NextImports);
    ReplaceWhole(ImportSingle, NextImports);
    ReplaceAbsent(NextImports, LinkTo, LinkHref);
  }

  /** Both quote forms of the react-router import give the same text. */
  lemma ImportFormsAgree()
    ensures FixNavigation(ImportSingle) == FixNavigation(ImportDouble) == NextImports
  {
    DoubleImportRewritten();
    SingleImportRewritten();
  }

  /** Step 1 turns the usual hook declaration into the text step 2 looks for. */
  lemma HookCallRenamedFirst()
    ensures ReplaceAll(HookDecl, UseNavigateCall, UseRouterCall) == NavigateDecl
  {
    var tail := UseNavigateCall + ";";
    assert HookDecl == DeclHead + tail;
    assert ' ' !in UseNavigateCall;
    ContainsCharOf(DeclHead, UseNavigateCall, 'N');
    ReplaceKeepsHead(DeclHead, tail, UseNavigateCall, UseRouterCall);
    assert tail[..|UseNavigateCall|] == UseNavigateCall;
    assert tail[|UseNavigateCall|..] == ";";
    assert ReplaceAll(tail, UseNavigateCall, UseRouterCall) == UseRouterCall + ";";
    assert DeclHead + (UseRouterCall + ";") == NavigateDecl;
  }

  lemma RouterDeclChars()
    ensures 'v' !in RouterDecl && '{' !in RouterDecl && '<' !in RouterDecl
  {
  }

  /** The router declaration is left alone by the rest of the chain. */
  lemma RouterDeclSettled()
    ensures ReplaceAll(RouterDecl, NavigateCall, RouterPush) == RouterDecl
    ensures RewriteImports(RouterDecl) == RouterDecl
  {
    RouterDeclChars();
    ContainsCharOf(RouterDecl, NavigateCall, 'v');
    ReplaceAbsent(RouterDecl, NavigateCall, RouterPush);
    ContainsCharOf(RouterDecl, ImportDouble, '{');
    ReplaceAbsent(RouterDecl, ImportDouble, NextImports);
    ContainsCharOf(RouterDecl, ImportSingle, '{');
    ReplaceAbsent(RouterDecl, ImportSingle, NextImports);
    ContainsCharOf(RouterDecl, LinkTo, '<');
    ReplaceAbsent(RouterDecl, LinkTo, LinkHref);
  }

  /** Because `useNavigate()` is rewritten before the declaration pattern is
      looked for, the usual hook declaration ends as the router declaration. */
  lemma NavigateDeclarationBecomesRouter()
    ensures FixNavigation(HookDecl) == RouterDecl
  {
    HookCallRenamedFirst();
    ReplaceWhole(NavigateDecl, RouterDecl);
    RouterDeclSettled();
    assert RenameNavigate(HookDecl) == RouterDecl;
  }

  // ------------------------------------------------------------------
  // Properties of the rename rule
  // ------------------------------------------------------------------

  /** `.ts`/`.tsx` originals are deleted, never rewritten, and keep their name. */
  lemma TypeScriptDeleted(subdir: string, file: string)
    ensures Plan(subdir, file).Delete? <==> EndsWith(file, ".ts") || EndsWith(file, ".tsx")
    ensures Plan(subdir, file).Delete? ==> Plan(subdir, file).name == file
  {
    if EndsWith(file, ".js") {
      assert file[|file| - 1] == file[|file| - 3..][2] == 's';
      assert file[|file| - 2] == file[|file| - 3..][1] == 'j';
    }
  }

  /** A component `.js` output is rewritten under its `.jsx` name with the
      directive; every rewritten component ends in `.jsx`, and only files
      under `components` get the directive. */
  lemma RewriteRule(subdir: string, file: string)
    ensures subdir == "components" && EndsWith(file, ".js") ==> Plan(subdir, file) == Rewrite(file + "x", true)
    ensures Plan(subdir, file).Rewrite? ==> Plan(subdir, file).component == (subdir == "components")
    ensures Plan(subdir, file).Rewrite? && subdir == "components" ==> EndsWith(Plan(subdir, file).name, ".jsx")
    ensures Plan(subdir, file).Rewrite? && subdir != "components" ==> Plan(subdir, file).name == file
  {
    if subdir == "components" && EndsWith(file, ".js") {
      TypeScriptDeleted(subdir, file);
      var n := file + "x";
      assert n[|n| - 4..] == file[|file| - 3..] + "x";
      assert EndsWith(n, ".jsx");
    }
  }
}
