# pdfx core, modelled in Dafny

pdfx turns an uploaded PDF, slide deck or text into study material: a
summary, notes, insights, flashcards, a quiz. Each of these "modules" can be
regenerated, edited, kept as local drafts or saved revisions, previewed, and
exported to PDF, DOCX, HTML, Markdown or CSV. This project models the
deterministic core of that system and proves properties of the model.

The model covers four groups of code.

- **The migration scripts** `transform_ts.py`, `strip_types.py` and
  `migrate_sucrase.py` turn TypeScript sources into JavaScript.
  - The line loop, with its scanning/skipping state and brace counter, is an
    imperative method proved against a recursive specification
    (`line_scan.dfy`, `transform_ts.dfy`, `strip_types.dfy`).
  - The regular expressions the scripts use are written out as matchers
    (`ts_patterns.dfy`).
  - The chain of text fix-ups is in `migrate_sucrase.dfy`.
- **The client store**.
  - Each zustand slice is a class whose fields the setters replace:
    `tab_slice.dfy`, `content_slice.dfy`, `slide_slice.dfy`,
    `settings_slice.dfy`, `project_slice.dfy`, `ui_slice.dfy`, and
    `store_state.dfy` for the combined state.
  - `legacy_store.dfy` models the older single store (`useStore.ts`), with
    the `page.tsx` handlers that drive it in `page_handlers.dfy`.
  - `use_chat.dfy` holds the streaming-chat history updaters.
- **The client's pure pipelines**.
  - The two generations of preview transformers: `content_transformer_ts.dfy`
    and `content_transformer_js.dfy`, over the shared `preview_model.dfy`.
  - The content-visibility predicate, the SRS scheduler, the rectangle
    maths and the PDF page-cache status machine.
  - The list-edit handlers of the Notes, Insights, Flashcards and Summary
    views, over the shared `list_edit.dfy`.
  - Quiz scoring, the mode switcher, the scope selector, the template
    filter, and the export renderers and option choices.
- **The server's pure utilities**.
  - Content merging for append mode, and the extraction of JSON from AI
    output.
  - Scoped text selection.
  - The document graph (classes whose `addNode`/`addPage` update in place),
    the structured chunker and the plain-text derivation, with its stable
    sort.
  - The base64 image extractor.
  - The PPTX slide ordering and title rule.
  - The upload type decision and text cleaning.
  - The vector-store cache with its thirty-minute lifetime and FIFO
    eviction at fifty entries.
  - The export route's entity decoding and CSV assembly.
  - The quiz route's density numbers and truncation.

JavaScript values whose shape the code does not check are modelled by one
dynamic value type, `JsValue.Js`, with JavaScript truthiness and property
reads (`js_value.dfy`). Reading a property of `null` or `undefined` throws a
`TypeError` in JavaScript; the modelled sites that can meet such a value
test it with `JsValue.Nullish` and throws there. Clocks,
random ids, UUIDs, the file system, the network and foreign libraries are
parameters of the operations that use them. Two behaviours of the code that
a reader may not expect are modelled as written:

- `transform_ts.py` prepends `'use client';` to every JSX output without
  checking for one already present. Only `strip_types.py` removes existing
  directives first.
- `PdfCacheManager.clearDoc` removes only the statuses of pages that are in
  the page cache. A document's pending or failed pages keep their status.

## Model

| member | source | states |
|---|---|---|
| LineScan.KeptValues | transform_ts.py:12-54 | each line the loop writes is the line the loop body wrote at the matching input index |
| LineScan.KeptIncreasing | transform_ts.py:12-54 | written lines come from strictly increasing input indices: no line is repeated or reordered |
| LineScan.KeptExactly | transform_ts.py:12-54 | line `k` is written exactly when the body writes something for it in the state the loop reaches it in |
| LineScan.RenderSplit | transform_ts.py:48 | the output (each kept line followed by `\n`) splits back at newlines into the kept lines and a final empty piece |
| TransformTs.StripAnnotations | transform_ts.py:28 | removing `: Type` annotations never lengthens a line nor adds a newline |
| TransformTs.CollapseHooks | transform_ts.py:31-32 | dropping the type arguments of `useState`/`useRef` never lengthens a line nor adds a newline |
| TransformTs.DropCasts | transform_ts.py:35-36 | a line containing `import ` is left exactly as it is; no line grows or gains a newline |
| TransformTs.DropTypeParams | transform_ts.py:39 | removing `<T>` before a call never lengthens a line nor adds a newline |
| TransformTs.RouterRewrite | transform_ts.py:42-46 | the react-router to Next.js rewrites of a JSX line never add a newline |
| TransformTs.RewriteLine | transform_ts.py:27-46 | a kept line keeps having no newline, and outside JSX mode it never grows |
| TransformTs.AnnotationStartsWithColon | transform_ts.py:28 | every annotation match starts with `:` |
| TransformTs.StripAnnotationsSkips | transform_ts.py:28 | text before any `:` is copied by the annotation removal, which goes on with the rest alone |
| TransformTs.AnnotationRemoved | transform_ts.py:28 | `: T` for a word `T` followed by one of `,;)}=`, whitespace or the end of the line is removed, colon included, and the rest is processed on its own (`(x: number)` becomes `(x)`) |
| TransformTs.HooksStartWithU | transform_ts.py:31-32 | every `useState<…>` and `useRef<…>` match starts with `u` |
| TransformTs.CollapseHooksSkips | transform_ts.py:31-32 | text without `u` passes through both hook collapses and the rest is collapsed on its own |
| TransformTs.StateHookCollapsed | transform_ts.py:31 | `useState<T>` with `T` free of `>` and newlines becomes `useState`, and the rest of the line is collapsed on its own |
| TransformTs.RefHookCollapsed | transform_ts.py:32 | `useRef<T>` with `T` free of `>`, newlines and `u` becomes `useRef`, and the rest of the line is collapsed on its own |
| TransformTs.HooksHoldAngle | transform_ts.py:31-32 | every hook match holds `<` right after the hook's name |
| TransformTs.HooksIdle | transform_ts.py:31-32 | a line without `<` has no hook call to collapse |
| TransformTs.CastMatched | transform_ts.py:36 | ` as T`, for a run of two or more word characters, angle brackets, square brackets and bars starting with a capital, matches exactly through the end of `T` |
| TransformTs.CastRemoved | transform_ts.py:35-36 | on a line without `import `, ` as T` is removed and the rest is processed on its own |
| TransformTs.DropCastsSkips | transform_ts.py:35-36 | on a line without `import `, a head without whitespace is copied and the rest is processed on its own |
| TransformTs.CastsIdle | transform_ts.py:36 | a line where no whitespace is directly followed by `a` passes the assertion removal unchanged |
| TransformTs.DoubleAssertionHalfKept | transform_ts.py:36 | `v as unknown as T` becomes `v as unknown`: the pattern wants a capital after `as`, so only the last step goes |
| TransformTs.GenericStartsWithAngle | transform_ts.py:39 | every type parameter match starts with `<` |
| TransformTs.DropTypeParamsSkips | transform_ts.py:39 | a head without `<` is copied by the removal, which goes on with the rest alone |
| TransformTs.GenericMatched | transform_ts.py:39 | `<T>` for a capitalised word `T` is matched through its `>` when `(` follows |
| TransformTs.TypeParamsDropped | transform_ts.py:39 | `<T>(` for a capitalised word `T` becomes `(`, and the rest is processed on its own |
| TransformTs.ImportsRewritten | transform_ts.py:43-44 | each quoting of the react-router import becomes the `next/link` and `next/navigation` imports in the same quoting |
| TransformTs.NoNavigateRemains | transform_ts.py:45 | no `useNavigate()` is left on a line after the router rewrites |
| TransformTs.LiteralRewritesIdle | transform_ts.py:43-46 | a line with neither router import nor `useNavigate()` only has its links rewritten |
| TransformTs.LinkMatched | transform_ts.py:46 | `<Link`, whitespace and `to=` are matched whole |
| TransformTs.LinkRewritten | transform_ts.py:42-46 | on a JSX line with neither router import nor `useNavigate()`, the first `<Link … to=` becomes `<Link href=` and the rest is rewritten on its own |
| TransformTs.PlainLineUnchanged | transform_ts.py:27-46 | a line with no `:` and no `<` that contains `import ` or has no whitespace followed by `a` (and, for JSX, no router text) is written as it is, so an import keeps its ` as B` |
| TransformTs.RefLineRewritten | transform_ts.py:27-39 | outside JSX, `useRef<T>` followed by a plain rest becomes `useRef` followed by the same rest |
| TransformTs.RewriteAll | transform_ts.py:27-46 | every kept line is rewritten on its own, position for position |
| TransformTs.EmittedRendersKept | transform_ts.py:12-54 | what the loop accumulates is the rendering of the rewritten kept lines |
| TransformTs.TransformContent | transform_ts.py:4-58 | the method computes the specification function, and a JSX file's output starts with the `'use client';` directive |
| TransformTs.Transformed | transform_ts.py:4-58 | a JSX file's output opens with the `'use client';` directive |
| TransformTs.ProcessLine | transform_ts.py:13-54 | one pass of the loop body gives the next scanning state and the text written for the line as the step function does |
| TransformTs.RewriteKept | transform_ts.py:27-46 | the in-place rewrites of a kept line, applied in order, give `RewriteLine` |
| TransformTs.KeptLines | transform_ts.py:12-54 | written lines are exactly the lines reached outside a skipped declaration that do not start one, in input order, unchanged before rewriting |
| TransformTs.LoopStepWrites | transform_ts.py:13-22 | a pass writes its line exactly when it is scanning and the line does not start an `interface`/`type` declaration |
| TransformTs.OutputLines | transform_ts.py:48-58 | reading the output back at newlines gives one rewritten line per kept input line, in order, then an empty piece |
| TransformTs.ReachedSettled | transform_ts.py:16-54 | every state the loop reaches has skipping off only at depth at most 0 |
| TransformTs.BalancedDeclarationAlone | transform_ts.py:16-22 | a declaration line whose braces balance or close more than they open is dropped alone and scanning resumes |
| TransformTs.OneLineAliasAlone | transform_ts.py:15-22 | a brace-less declaration ending with its `;` is dropped alone |
| TransformTs.BlockDropped | transform_ts.py:16-54 | a braced declaration block is dropped whole, from its opening line through its closing line, and scanning resumes at depth 0 |
| TransformTs.MultiLineAliasDropped | transform_ts.py:20-54 | a multi-line brace-less alias is dropped up to and including the first line with `;` |
| TransformTs.NoDeclarationsKeepsAll | transform_ts.py:12-54 | a text with no declaration line keeps every line, in order |
| StripTypes.RewriteAll | strip_types.py:28-41 | every kept line is rewritten on its own, position for position |
| StripTypes.EmittedRendersKept | strip_types.py:16-48 | what the loop accumulates is the rendering of the rewritten kept lines |
| StripTypes.StripTypes | strip_types.py:4-50 | the method computes the specification function, and the output always starts with the `'use client';` directive |
| StripTypes.Stripped | strip_types.py:4-50 | the output always opens with the `'use client';` directive |
| StripTypes.ProcessLine | strip_types.py:17-48 | one pass of the loop body gives the next scanning state and the written text as the step function does |
| StripTypes.LoopStepWrites | strip_types.py:17-43 | a pass writes its line exactly when it is scanning and the line does not start a declaration |
| StripTypes.KeptLines | strip_types.py:16-48 | kept lines keep their order and are never repeated; line `k` is written exactly when reached outside a skipped declaration and not itself a declaration |
| StripTypes.DepthAccumulates | strip_types.py:20-45 | the brace counter is never reset: after the loop it is the start depth plus every counted line's net braces |
| StripTypes.BlockDropped | strip_types.py:18-48 | a braced declaration block opened at depth 0 is dropped whole |
| StripTypes.AliasLeaks | strip_types.py:19-47 | a brace-less alias spanning three lines ends its skip after the second line, so the third line is written |
| StripTypes.OutputLines | strip_types.py:43-50 | the output is the directive followed by one line per kept line, read back at newlines |
| StripTypes.RewriteLine | strip_types.py:28-41 | the rewrites never lengthen a line nor add a newline to it |
| StripTypes.AnnotationsIdle | strip_types.py:29-33 | a line without `:` passes the three annotation removals unchanged |
| StripTypes.ReactFcRemoved | strip_types.py:29 | `: React.FC` not followed by `<` is removed and the scan resumes after it |
| StripTypes.ReactFcGenericRemoved | strip_types.py:29 | `: React.FC<P>` is removed through the first `>`, type arguments included |
| StripTypes.StringAnnotationRemoved | strip_types.py:33 | `: string` followed by `,`, `;`, `)`, whitespace or the end of the line is removed |
| StripTypes.NarrowCastMatched | strip_types.py:37 | ` as T` for a capitalised word `T` of two or more characters matches through the end of `T` |
| StripTypes.NarrowCastStep | strip_types.py:37 | ` as T` between a head and a tail that hold no assertion is removed and nothing else is |
| StripTypes.NarrowCastsIdle | strip_types.py:37 | a line where no whitespace is directly followed by `a` passes the assertion removal unchanged |
| StripTypes.CastRemovedAnywhere | strip_types.py:28-41 | ` as T` is removed from every line, an import line such as `import { A as Bc } from 'x';` included |
| StripTypes.RefTypeArgsKept | strip_types.py:35-41 | `useRef<t>` with a type argument that does not start with a capital is written unchanged, as only `useState` is collapsed |
| StripTypes.NothingToStrip | strip_types.py:28-41 | a line where no rewrite finds a match is written as it is |
| StripTypes.PlainLineUnchanged | strip_types.py:28-41 | a line without `:`, `<` or whitespace is left as it is |
| StripTypes.NoDirectiveUnchanged | strip_types.py:6-7 | removing the directives is the identity on a text holding neither |
| TsPatterns.SubKeepsNoNewline | transform_ts.py:28 | `re.sub` with a newline-free replacement adds no newline to a newline-free line |
| TsPatterns.SubShrinks | transform_ts.py:28 | `re.sub` whose every match is at least as long as its replacement never lengthens the text |
| TsPatterns.SubNoMatch | strip_types.py:29-41 | `re.sub` whose pattern matches nowhere leaves the text as it is |
| TsPatterns.SubSkips | transform_ts.py:28 | `re.sub` copies a head in which no match starts and goes on with the rest alone |
| TsPatterns.SubSkipsChar | transform_ts.py:28 | a head without the character every match starts with is copied |
| TsPatterns.SubWithoutChar | transform_ts.py:28 | a text without the character every match starts with is left as it is |
| TsPatterns.SubWithoutCharAt | transform_ts.py:31-32 | a text without the character every match holds at a fixed offset is left as it is |
| TsPatterns.SubCharOnlyBefore | strip_types.py:35 | a text whose every occurrence of that character lies before the offset is left as it is |
| TsPatterns.SubUnmatched | transform_ts.py:36 | where no match starts, `re.sub` copies the first character and goes on |
| TsPatterns.SubMatched | transform_ts.py:28 | a match at the start is replaced and the scan resumes right after it |
| TsPatterns.SubStartsWith | transform_ts.py:46 | with a replacement that lets no `q` form across its edges, the result starts with a proper suffix of `q` only if the text does |
| TsPatterns.NoneAfterSub | transform_ts.py:46 | `re.sub` whose replacement lets no `q` form across its edges brings no `q` into a text without one |
| TsPatterns.FirstCloseAt | transform_ts.py:31 | `.*?>` stops at the first `>` when no newline comes before it |
| TsPatterns.HookMatch | transform_ts.py:31-32 | a hook call's type arguments free of `>` and newlines are matched through their `>` |
| TsPatterns.WsRun | transform_ts.py:28 | `\s*` takes a whole whitespace run that a non-space character ends |
| TsPatterns.WordRun | transform_ts.py:28 | `\w+` takes a whole word that a non-word character ends |
| TsPatterns.WordOrDotRun | transform_ts.py:28 | `[\w.]+` takes a whole word that neither a word character nor a dot ends |
| TsPatterns.CastRun | transform_ts.py:36 | the assertion class (word characters, angle brackets, square brackets, the bar) takes a whole run that a character outside it ends |
| TsPatterns.NoCastStartsIn | transform_ts.py:36 | no assertion starts in a head that has no whitespace followed by `a` and does not end in whitespace |
| TsPatterns.NoCastIn | transform_ts.py:36 | a line where no whitespace is followed by `a` holds no assertion |
| TsPatterns.FollowEndsRuns | transform_ts.py:28 | a character the lookahead accepts ends every run of the type classes |
| TsPatterns.NamedTsWithin | transform_ts.py:28 | no named type alternative reaches past the end of a word run |
| TsPatterns.TsTypeNamesAreWords | transform_ts.py:28 | every listed type name is a word |
| TsPatterns.AnnotationMatched | transform_ts.py:28 | `: w` for a word `w` followed by the lookahead is matched whole, whichever alternative takes it |
| TsPatterns.WsLen | transform_ts.py:28 | `\s*` consumes exactly the leading whitespace run |
| TsPatterns.WordLen | transform_ts.py:15 | `\w+` consumes exactly the leading word-character run |
| TsPatterns.FirstClose | transform_ts.py:31 | the lazy `.*?>` stops at the first reachable `>` before any newline |
| TsPatterns.HookGeneric | transform_ts.py:31-32 | a `useState<…>`/`useRef<…>` match starts with the hook name and `<` |
| TsPatterns.GenericBeforeParen | transform_ts.py:39 | a `<\s*[A-Z]\w*\s*>` match before `(` starts with `<` and ends with `>` |
| TsPatterns.AsCast | transform_ts.py:36 | an `\s+as\s+Type` match starts with whitespace and is at least six characters |
| TsPatterns.LinkTo | transform_ts.py:46 | a `<Link\s+to=` match starts with `<` |
| TsPatterns.AnnotationTs | transform_ts.py:28 | an annotation match starts with `:` and is followed by one of `,;)\s}=` or the end of the line |
| TsPatterns.NamedTs | transform_ts.py:28 | the first named type alternative that matches is followed by the lookahead |
| TsPatterns.LazyCloseTs | transform_ts.py:28 | `<.*?>` (with optional `[]`) takes the first `>` after which the lookahead holds |
| TsPatterns.HtmlElementAlternative | transform_ts.py:28 | the `HTML\w+Element` alternative ends where the lookahead holds |
| TsPatterns.DottedAlternative | transform_ts.py:28 | the `[\w.]+(<.*?>)?(\[\])?` alternative ends where the lookahead holds |
| TsPatterns.ReactAlternative | transform_ts.py:28 | the `React\.\w+(<.*?>)?` alternative ends where the lookahead holds |
| TsPatterns.ReactFc | strip_types.py:29 | a `:\s*React\.FC(<.*?>)?` match starts with `:` and is at least nine characters |
| TsPatterns.ReactType | strip_types.py:31 | a `:\s*React\.\w+(<.*?>)?` match starts with `:` |
| TsPatterns.NamedStrip | strip_types.py:33 | the first listed primitive name, with optional `[]`, ends where the lookahead holds |
| TsPatterns.SimpleAnnotation | strip_types.py:33 | a simple annotation match starts with `:` and is followed by `,`, `;`, `)`, whitespace or the end of the line |
| MigrateSucrase.FixContent | migrate_sucrase.py:48-58 | the per-file fix-up equals the replacement chain on the (directive-prefixed) text; a component's output starts with the client directive and no `navigate(` call is left |
| MigrateSucrase.NoNavigateCallRemains | migrate_sucrase.py:53-58 | after the chain no `navigate(` is left, since no later replacement text contains or completes one |
| MigrateSucrase.DirectiveKept | migrate_sucrase.py:49-58 | the replacement chain leaves a leading `'use client';` line in place and works on the rest of the text alone |
| MigrateSucrase.ImportFormsUntouched | migrate_sucrase.py:53-55 | the first three replacements find nothing in either quote form of the react-router import |
| MigrateSucrase.NextImportsSettled | migrate_sucrase.py:57-58 | the last two replacements find nothing in the Next.js imports the import rewrite produced |
| MigrateSucrase.DoubleImportRewritten | migrate_sucrase.py:56 | the double-quoted react-router import ends as the Next.js `Link`/`useRouter` imports |
| MigrateSucrase.SingleImportRewritten | migrate_sucrase.py:57 | the single-quoted react-router import ends as the same double-quoted Next.js imports |
| MigrateSucrase.ImportFormsAgree | migrate_sucrase.py:56-57 | both quote forms of the import give the same text |
| MigrateSucrase.HookCallRenamedFirst | migrate_sucrase.py:53-54 | the first replacement turns `const navigate = useNavigate();` into exactly the text the second looks for |
| MigrateSucrase.RouterDeclSettled | migrate_sucrase.py:55-58 | `const router = useRouter();` is left alone by every later replacement |
| MigrateSucrase.NavigateDeclarationBecomesRouter | migrate_sucrase.py:53-55 | the usual navigate-hook declaration ends as the router declaration, not as `router.push(` |
| MigrateSucrase.TypeScriptDeleted | migrate_sucrase.py:38-41 | a `.ts`/`.tsx` file is deleted (and never rewritten) exactly when its name ends that way |
| MigrateSucrase.RewriteRule | migrate_sucrase.py:32-36 | a component `.js` output is rewritten under its `.jsx` name with the directive; only files under `components` get the directive, and others keep their name |
| StoreState.ModeNamed | src/store/types.ts:2 | a name gives back only the mode that has that name |
| StoreState.ModeNamedInverse | src/store/types.ts:2 | every mode is found again from its name, so the names are distinct |
| StoreState.InitialMaps | src/store/slices/tabSlice.ts:32-43 | the initial drafts and revisions maps hold an empty list for exactly the six content modules, and the active revision id is `''` for every mode |
| StoreState.AppStore.constructor | src/store/slices/contentSlice.ts:51-64 | the store starts with no drafts, revisions, data or chat, nothing generated and slide mode off |
| TabSlice.Tabs | src/store/slices/tabSlice.ts:45-54 | the tab list is every draft as a `'draft'` tab followed by every revision as a `'revision'` tab, each keeping its id, name and data; its length is the sum |
| TabSlice.GetTabs | src/store/slices/tabSlice.ts:45-54 | the module's tab ids are its draft ids followed by its revision ids |
| TabSlice.TabIdsAreDraftThenRevisionIds | src/store/slices/tabSlice.ts:152 | the ids `reconcileProjectTabs` collects are exactly the tab list's ids, in the same order |
| TabSlice.FindDraft | src/store/slices/tabSlice.ts:201 | `find` gives the first draft with the id, or none when no draft has it |
| TabSlice.FindRevision | src/store/slices/tabSlice.ts:205 | `find` gives the first revision with the id, or none when no revision has it |
| TabSlice.SwitchContent | src/store/slices/tabSlice.ts:199-206 | the content a switch shows is `null` or a truthy value |
| TabSlice.SwitchRevision | src/store/slices/tabSlice.ts:189-218 | an empty id changes nothing; otherwise the module's data becomes the draft's (`draft-` prefix) or revision's data or `null`, its generated flag says whether that is truthy, its active id becomes the id, and no other module's drafts, data, flag or active id change |
| TabSlice.SwitchToDraftShowsItsData | src/store/slices/tabSlice.ts:200-202 | switching to a draft shows that draft's data (or `null` when it is falsy) |
| TabSlice.DraftNamesDiffer | src/store/slices/tabSlice.ts:82 | different counters give different `Draft k` names |
| TabSlice.DraftNamesCount | src/store/slices/tabSlice.ts:81-90 | `n` consecutive counters give `n` different names |
| TabSlice.TakenNamesBound | src/store/slices/tabSlice.ts:84-90 | the tabs cannot hold more consecutive default names than there are tabs, so the naming loop ends |
| TabSlice.PickDraftName | src/store/slices/tabSlice.ts:79-91 | the default name is `Draft k` for the least `k` above the number of tabs that no draft or revision of the module uses |
| TabSlice.FindDuplicate | src/store/slices/tabSlice.ts:65-67 | gives the first draft whose truthy data equals the given data, or none when no draft has it |
| TabSlice.NewDraftId | src/store/slices/tabSlice.ts:93 | every new draft id starts with `draft-` |
| TabSlice.AppendedDraftShown | src/store/slices/tabSlice.ts:94-99 | a freshly appended draft with a new id is what switching to it shows |
| TabSlice.AddLocalDraft | src/store/slices/tabSlice.ts:56-101 | a truthy duplicate of an existing draft's data returns that draft's id, adds nothing and switches to it; otherwise exactly one draft (named as given or by the naming rule, id starting `draft-`) is appended to that module and switched to; revisions and other modules never change |
| TabSlice.Renamed | src/store/slices/tabSlice.ts:138 | only drafts with the id change, and only their name |
| TabSlice.RenameKeepsContent | src/store/slices/tabSlice.ts:134-141 | renaming never changes what any switch shows |
| TabSlice.RenameTwice | src/store/slices/tabSlice.ts:134-141 | a second rename of the same draft overrides the first |
| TabSlice.RenameLocalDraft | src/store/slices/tabSlice.ts:134-141 | only the module's draft list changes, by the rename |
| TabSlice.Without | src/store/slices/tabSlice.ts:105 | the kept drafts are exactly those with another id, in order |
| TabSlice.WithoutAbsent | src/store/slices/tabSlice.ts:105 | closing a draft that is not there keeps the list |
| TabSlice.BlankIsNotContent | src/store/slices/tabSlice.ts:162-165 | string server content counts as content exactly when it is not blank |
| TabSlice.ReconcileProjectTabs | src/store/slices/tabSlice.ts:143-175 | revisions are kept, and the maps change only as ReconcileOutcome allows. With tabs present, no draft is added, and the first tab (drafts before revisions) is switched to exactly when the active id is empty or unknown; otherwise nothing changes. With no tabs, valid server content becomes the one draft, named `Imported Content`, made active and shown. Otherwise nothing changes. Other modules are kept |
| TabSlice.ReconciledSlots | src/store/slices/tabSlice.ts:143-175 | a reconcile changes only its own module's entries (drafts, data, flag and active id), and to exactly the reconciled entries of `ReconciledSlot` |
| TabSlice.ReconciledOwnSlot | src/store/slices/tabSlice.ts:145-170 | the module's own entries after a reconcile are those of its three cases: kept, switched to the first tab, or the imported draft |
| TabSlice.ReconciledShowsATab | src/store/slices/tabSlice.ts:151-169 | after a reconcile the active id is one of the module's tabs whenever there are tabs and the first has an id, and whatever it changed shows the active tab's content with a matching generated flag |
| TabSlice.EnsureMinimumOneTab | src/store/slices/tabSlice.ts:177-187 | afterwards the module has at least one tab; a `Draft 1` is added only when both lists were empty; other modules are kept |
| TabSlice.CloseLocalDraft | src/store/slices/tabSlice.ts:103-132 | the draft is removed and the other drafts kept in order. When no tab is left, the module's data is cleared and a fresh `Draft 1` is opened and made active. Otherwise the first remaining tab is switched to exactly when the active id is gone or empty. Revisions and other modules are kept |
| TabSlice.SyncTarget | src/store/slices/tabSlice.ts:305-312 | only a key with a `.` names a sync target |
| TabSlice.SyncKeyNamesModule | src/store/slices/tabSlice.ts:306-307 | the keys `<module>Data.<field>` the server writes lead back to their module and field |
| TabSlice.SyncKeepsUnnamed | src/store/slices/tabSlice.ts:304-315 | a module that no entry names keeps its revisions |
| TabSlice.SyncData | src/store/slices/tabSlice.ts:302-316 | no module's data is ever removed by a sync |
| TabSlice.SyncDataKeepsUnnamed | src/store/slices/tabSlice.ts:304-315 | a module that no entry names as `content` keeps its data |
| TabSlice.SyncDataLastWins | src/store/slices/tabSlice.ts:304-315 | a module's data is the value of the last entry naming its `content` |
| TabSlice.SyncRevisionsLastWins | src/store/slices/tabSlice.ts:304-315 | a module's revisions are read from the last entry naming its `revisions` |
| TabSlice.UpdateRevisionsFromSync | src/store/slices/tabSlice.ts:302-316 | each dotted `revisions` or `content` key overwrites that module's revisions or data, later entries winning |
| ContentSlice.Mirror | src/store/slices/contentSlice.ts:79 | the draft with the active id takes the new data; every other draft, and every id and name, is unchanged |
| ContentSlice.MirrorThenSwitchShowsEdit | src/store/slices/contentSlice.ts:75-82 | after an edit, switching back to the active draft shows the edited data (or `null` when it is falsy) |
| ContentSlice.MirrorKeepsTabs | src/store/slices/contentSlice.ts:79 | an edit leaves the tab list's ids, names and kinds as they were |
| ContentSlice.MirrorTwice | src/store/slices/contentSlice.ts:79 | writing twice is writing the second value |
| ContentSlice.SetModuleData | src/store/slices/contentSlice.ts:73-144 | the module's data becomes the value, and when the active id is a draft id that draft of that module is mirrored; nothing else changes |
| ContentSlice.MirrorTouchesOneModule | src/store/slices/contentSlice.ts:80 | only the edited module's drafts can change |
| ContentSlice.SetChatHistory | src/store/slices/contentSlice.ts:148-150 | a value replaces the chat history |
| ContentSlice.UpdateChatHistory | src/store/slices/contentSlice.ts:146-147 | an updater function is applied to the previous history |
| ContentSlice.SetGenerated | src/store/slices/contentSlice.ts:153-158 | only the module's generated flag changes |
| ContentSlice.SetGenerating | src/store/slices/contentSlice.ts:160-165 | only the module's generating flag changes |
| SlideSlice.NextIndex | src/store/slices/slideSlice.ts:53 | the next index is one more, capped at the last slide |
| SlideSlice.PrevIndex | src/store/slices/slideSlice.ts:57 | the previous index is one less, floored at zero |
| SlideSlice.NavigationStaysInDeck | src/store/slices/slideSlice.ts:52-59 | on a non-empty deck both moves keep a valid index valid; `next` stays put exactly at the last slide and `prev` exactly at the first |
| SlideSlice.NextThenPrev | src/store/slices/slideSlice.ts:52-59 | forward then back returns to the slide, except from the last |
| SlideSlice.NextOnEmptyDeck | src/store/slices/slideSlice.ts:53 | with no slides `next` moves a valid index to -1 |
| SlideSlice.SetCurrentSlideIndex | src/store/slices/slideSlice.ts:51 | sets the index and clears the selection |
| SlideSlice.NextSlide | src/store/slices/slideSlice.ts:52-55 | moves to the next index and clears the selection |
| SlideSlice.PrevSlide | src/store/slices/slideSlice.ts:56-59 | moves to the previous index and clears the selection |
| SlideSlice.SetSelectionMode | src/store/slices/slideSlice.ts:60 | sets only the selection mode |
| SlideSlice.SetActiveSelection | src/store/slices/slideSlice.ts:61 | sets only the active selection |
| SlideSlice.SetSlides | src/store/slices/slideSlice.ts:50 | sets only the slides |
| SlideSlice.SetIsSlideMode | src/store/slices/slideSlice.ts:47 | sets only the slide-mode flag |
| SlideSlice.SetIsProcessingSlides | src/store/slices/slideSlice.ts:48 | sets only the processing flag |
| SlideSlice.SetRenderingProgress | src/store/slices/slideSlice.ts:49 | sets only the rendering progress |
| SettingsSlice.FindDate | src/store/slices/settingsSlice.ts:103 | `findIndex` gives the first entry dated today, or none when no entry is |
| SettingsSlice.SumBump | src/store/slices/settingsSlice.ts:105 | adding to one count adds the same to the log's total |
| SettingsSlice.SumAppend | src/store/slices/settingsSlice.ts:107 | appending a count adds it to the total |
| SettingsSlice.NewDayKeepsDatesDistinct | src/store/slices/settingsSlice.ts:107 | pushing a day not yet logged keeps the dates distinct |
| SettingsSlice.BumpEntry | src/store/slices/settingsSlice.ts:105 | only the bumped entry's count moves, by `count`; no date changes |
| SettingsSlice.LoggedCounts | src/store/slices/settingsSlice.ts:103-108 | a logged day keeps the number of entries; a new day appends `count` |
| SettingsSlice.LoggedDates | src/store/slices/settingsSlice.ts:103-108 | afterwards today is logged, at most one date is added, and no other date appears |
| SettingsSlice.LoggedSum | src/store/slices/settingsSlice.ts:100-110 | logging adds exactly `count` to the total |
| SettingsSlice.LoggedKeepsDays | src/store/slices/settingsSlice.ts:100-110 | logging keeps one entry per day and moves only today's count |
| SettingsSlice.AppendEntry | src/store/slices/settingsSlice.ts:107 | the log keeps its entries and gains one fresh entry `{today, count}` at the end |
| SettingsSlice.Log | src/store/slices/settingsSlice.ts:102-108 | today's entry object is bumped in place (the array is the same), or a new entry is appended; counts and dates follow the logged-log functions |
| SettingsSlice.LogActivity | src/store/slices/settingsSlice.ts:100-110 | the store's log becomes the logged log: one entry per day, total up by `count` |
| SettingsSlice.OpenEmbeddedChat | src/store/slices/settingsSlice.ts:112-114 | the item's chat is set open with its type and data; other chats stay |
| SettingsSlice.CloseEmbeddedChat | src/store/slices/settingsSlice.ts:115-118 | the item's chat is removed and the rest of the map is kept |
| SettingsSlice.CloseAllEmbeddedChats | src/store/slices/settingsSlice.ts:119 | the chat map is emptied |
| SettingsSlice.SetGenerationScope | src/store/slices/settingsSlice.ts:95 | sets only the generation scope |
| UiSlice.SetIsLoading | src/store/slices/uiSlice.ts:48 | sets only the loading flag |
| UiSlice.SetIsPageLoading | src/store/slices/uiSlice.ts:49 | sets only the page-loading flag |
| UiSlice.SetIsDocumentLoading | src/store/slices/uiSlice.ts:50 | sets only the document-loading flag |
| UiSlice.SetView | src/store/slices/uiSlice.ts:51 | sets only the view |
| UiSlice.SetMode | src/store/slices/uiSlice.ts:52 | sets only the mode; the preview flag is left as it is |
| UiSlice.SetLeftPanelView | src/store/slices/uiSlice.ts:53 | sets only the left panel view |
| UiSlice.SetPreviewMode | src/store/slices/uiSlice.ts:54 | sets only the preview flag |
| UiSlice.SetIsTyping | src/store/slices/uiSlice.ts:55 | sets only the typing flag |
| UiSlice.SetHeadersLoaded | src/store/slices/uiSlice.ts:56 | sets only the headers-loaded flag |
| UiSlice.SetAuthHeaders | src/store/slices/uiSlice.ts:57 | sets only the auth headers |
| UiSlice.OpenExportModal | src/store/slices/uiSlice.ts:58 | shows the modal with the given mode and content |
| UiSlice.CloseExportModal | src/store/slices/uiSlice.ts:59 | hides the modal; mode and content stay |
| ProjectSlice.StatWords | src/store/slices/projectSlice.ts:46 | the word count is the number of whitespace-separated words of the trimmed text, except that a blank text still counts one |
| ProjectSlice.BlankTextCountsOne | src/store/slices/projectSlice.ts:46 | a blank text counts one word |
| ProjectSlice.UpdateStats | src/store/slices/projectSlice.ts:45-58 | words, characters and reading time (`ceil(words/200)`, at least one) are recomputed, the page count changes only when one is given, and the line count is kept |
| ProjectSlice.ResetLeavesNoTabs | src/store/slices/projectSlice.ts:60-99 | after a reset every module shows no tab, no data and no active id |
| ProjectSlice.ResetWorkspace | src/store/slices/projectSlice.ts:60-99 | every field the reset names takes its initial value |
| ProjectSlice.ResetModules | src/store/slices/projectSlice.ts:63-97 | module data, flags, chat, drafts, revisions and active ids are back to empty |
| ProjectSlice.ResetDocument | src/store/slices/projectSlice.ts:62-79 | no preview, file or file type, preview off, zero statistics |
| ProjectSlice.ResetLayout | src/store/slices/projectSlice.ts:80-85 | no slides, first slide, slide mode off, import view, editor mode and panel |
| ProjectSlice.FormatUuidAccepted | src/store/slices/projectSlice.ts:150 | laying out 32 hex digits as 8-4-4-4-12 gives an id the guard accepts, and removing the hyphens gives the digits back |
| ProjectSlice.AcceptedIsFormatted | src/store/slices/projectSlice.ts:150 | every id the guard accepts is such a layout of its own 32 hex digits |
| ProjectSlice.FirstNonEmpty | src/store/slices/projectSlice.ts:111 | of two strings, the first non-empty one, or none when both are empty |
| ProjectSlice.ContentModesAreContent | src/store/slices/projectSlice.ts:120 | the loader's module list is exactly the content modules |
| ProjectSlice.SetServerRevisions | src/store/slices/projectSlice.ts:120-124 | each content module's revisions are written from the fetched document, in the loader's order |
| ProjectSlice.WrittenFrom | src/store/slices/projectSlice.ts:121-124 | the writes from a position on give the remaining modules their server revisions and keep every other module's |
| ProjectSlice.ServerRevisionsWritten | src/store/slices/projectSlice.ts:120-124 | afterwards every content module holds exactly its server revisions and every other mode keeps its own |
| ProjectSlice.ReconcileAll | src/store/slices/projectSlice.ts:133-137 | every content module's entries become one reconcile of its own (TabsLoaded), using the fetched content and the revisions in the store; the other modes keep theirs, and revisions are not touched |
| ProjectSlice.LoadedWithServerRevisions | src/store/slices/projectSlice.ts:120-137 | since only content modules are reconciled, the revisions the loader wrote read as the document's own |
| ProjectSlice.ApplyDocument | src/store/slices/projectSlice.ts:110-117 | the store shows the fetched document's id, type (default `pdf`), statistics, preview URL and the editor view |
| ProjectSlice.Hydrate | src/store/slices/projectSlice.ts:109-137 | the document is shown, and each content module holds its server revisions. Each content module's tabs are reconciled from the saved drafts when given (else the drafts before) with the document's content and revisions |
| ProjectSlice.LoadProject | src/store/slices/projectSlice.ts:101-145 | a call during hydration changes nothing. Otherwise the flags end cleared, and a failed fetch leaves the reset workspace. A successful fetch shows the document with its server revisions, and each content module's tabs are reconciled, starting from a reset workspace with the saved drafts when given |
| ProjectSlice.Begin | src/store/slices/projectSlice.ts:104-107 | hydrating and loading are set around a full reset |
| ProjectSlice.LoadFailed | src/store/slices/projectSlice.ts:139-144 | a failed fetch keeps the reset workspace and clears both flags |
| ProjectSlice.LoadFetched | src/store/slices/projectSlice.ts:108-144 | a successful fetch shows the document with its server revisions and clears both flags. Each content module's tabs are those of a reconcile from a reset workspace, with the saved drafts when given |
| ProjectSlice.FreshModuleLoaded | src/store/slices/projectSlice.ts:133-137 | a content module loaded with no saved drafts either shows its first server revision as the active one, or (with no revisions) makes valid content the one active `Imported Content` draft, or else stays empty |
| ProjectSlice.RefreshCurrentProject | src/store/slices/projectSlice.ts:147-163 | an id (given, else the current file id) failing the UUID guard changes nothing; otherwise each content module's revisions become the fetched ones |
| ProjectSlice.LoadProjectModule | src/store/slices/projectSlice.ts:165-183 | with no file id, one failing the guard, or a failed fetch, nothing changes. Otherwise the module's revisions are replaced, its own entries become the reconciled ones, and every other module is kept |
| LegacyStore.Store.constructor | src/store/useStore.ts:122-201 | the store starts in `initialState` |
| LegacyStore.Store.ResetAll | src/store/useStore.ts:244 | every field is back to `initialState` |
| LegacyStore.Store.ResetDocument | src/store/useStore.ts:123-197 | the navigation, document, preview and modal fields take their initial values |
| LegacyStore.Store.ResetContent | src/store/useStore.ts:131-193 | statistics are zero, module data `null`, chat empty, nothing generated, settings initial |
| LegacyStore.Store.SetView | src/store/useStore.ts:203 | sets only the view |
| LegacyStore.Store.SetMode | src/store/useStore.ts:204 | sets the mode and also leaves the preview |
| LegacyStore.Store.SetHtmlPreview | src/store/useStore.ts:205 | sets only the preview HTML |
| LegacyStore.Store.SetFileId | src/store/useStore.ts:206 | sets only the file id |
| LegacyStore.Store.SetIsLoading | src/store/useStore.ts:207 | sets only the loading flag |
| LegacyStore.Store.SetPrompt | src/store/useStore.ts:208 | sets only the prompt |
| LegacyStore.Store.SetLeftPanelView | src/store/useStore.ts:209 | sets only the left panel view |
| LegacyStore.Store.SetStats | src/store/useStore.ts:210 | sets only the statistics |
| LegacyStore.Store.SetModuleData | src/store/useStore.ts:212-217 | sets only that module's data; no draft mirroring in this store |
| LegacyStore.Store.SetChatHistory | src/store/useStore.ts:218 | the history becomes the updater applied to the previous one |
| LegacyStore.Store.SetSettings | src/store/useStore.ts:220-227 | sets only the named settings entry |
| LegacyStore.Store.SetGenerated | src/store/useStore.ts:229-234 | sets only that module's generated flag |
| LegacyStore.Store.SetPreviewMode | src/store/useStore.ts:236 | sets only the preview flag |
| LegacyStore.Store.SetPreviewPreset | src/store/useStore.ts:237 | sets only the preview preset |
| LegacyStore.Store.SetIsTyping | src/store/useStore.ts:239 | sets only the typing flag |
| LegacyStore.Store.SetExportModalOpen | src/store/useStore.ts:241 | sets only the modal flag; the export context is kept |
| LegacyStore.Store.OpenExportModal | src/store/useStore.ts:242 | opens the modal with the given mode and data as context |
| UseChat.DropLast | src/hooks/useChat.ts:59-76 | `slice(0, -1)` is the history without its last message, and empty for an empty history |
| UseChat.ReplaceLast | src/hooks/useChat.ts:59-76 | the last message is replaced by the new one (or the new one is the only message of an empty history) |
| UseChat.StreamChunk | src/hooks/useChat.ts:44-55 | a streaming AI message at the end gets the text so far in place; otherwise one streaming message with it is appended |
| UseChat.ChunksGrowOneMessage | src/hooks/useChat.ts:40-55 | after a history not ending in a streaming message, a run of chunks leaves exactly one streaming message holding their concatenation |
| UseChat.SentKeepsUserMessage | src/hooks/useChat.ts:18-76 | once a chunk has arrived, the user's message stays and the final text or the error message follows it |
| UseChat.NoChunkReplacesUserMessage | src/hooks/useChat.ts:18-76 | when the stream ends before any chunk, the final text or error message replaces the user's own message |
| UseChat.SendMessage | src/hooks/useChat.ts:11-78 | the user's message is appended; with no file id the apology follows and nothing streams; otherwise the history is the chunk updates then the outcome, typing ends cleared and the streamed text is the chunks' concatenation |
| PreviewModel.ListSections | src/utils/contentTransformer.ts:55-57 | one `list` section per point, in order, each holding the point |
| PreviewModel.PushPoints | src/utils/contentTransformer.ts:160-162 | pushing the points appends exactly their list sections |
| PreviewModel.NumberedLabelsDiffer | src/utils/contentTransformer.ts:196-234 | two `Q{n}: …` or `Card {n}: …` labels with different numbers differ, whatever follows them |
| PreviewTs.TotalWords | src/utils/contentTransformer.ts:66-68 | the word total exists exactly when every section's content can be split, and is then at least one per section |
| PreviewTs.SummaryPreview | src/utils/contentTransformer.ts:33-78 | `null` for falsy data or missing content; an array content that reaches the word count throws; shown previews are titled `Document Summary` with the string (or `(Empty summary)`), the points, or the fallback paragraph |
| PreviewTs.TransformSummary | src/utils/contentTransformer.ts:33-78 | building the sections with `push` gives the summary preview |
| PreviewTs.PushSummarySections | src/utils/contentTransformer.ts:49-64 | the pushed sections are the summary's sections: the text, one list item per key point, or the fixed message for an empty list or another type |
| PreviewTs.QuestionLine | src/utils/contentTransformer.ts:176 | the `Q: …` line is a plain, non-empty paragraph |
| PreviewTs.HintLine | src/utils/contentTransformer.ts:177 | the `Hint: …` line is a plain, non-empty paragraph |
| PreviewTs.FormulaLine | src/utils/contentTransformer.ts:180 | the formula line is a plain, non-empty paragraph |
| PreviewTs.ItemPlain | src/utils/contentTransformer.ts:168-182 | one block item gives at most five sections, none with a heading field and none empty |
| PreviewTs.ItemsPlain | src/utils/contentTransformer.ts:167-183 | a block's items give at most five sections each, all plain |
| PreviewTs.BlockPart | src/utils/contentTransformer.ts:154-184 | a block throws exactly when it is `null` or `undefined`, or has truthy items that are not an array or that hold a `null` or `undefined` item |
| PreviewTs.BlockSections | src/utils/contentTransformer.ts:152-186 | the blocks throw exactly when some block does: a `null` or `undefined` block, or items that cannot be gone through |
| PreviewTs.AddItem | src/utils/contentTransformer.ts:168-182 | pushing one item's sections appends exactly its sections |
| PreviewTs.AddBlock | src/utils/contentTransformer.ts:154-184 | one pass of the block loop appends the block's sections, or throws when its items do |
| PreviewTs.BlockPartOfItems | src/utils/contentTransformer.ts:155-183 | a block with an array of items gives its title and content sections, then its items' sections |
| PreviewTs.PushHead | src/utils/contentTransformer.ts:155-166 | the block's title is pushed as a heading, then its content as list items or one paragraph |
| PreviewTs.PushItems | src/utils/contentTransformer.ts:168-182 | the item loop appends every item's sections, in order |
| PreviewTs.TransformAdaptiveBlocks | src/utils/contentTransformer.ts:152-186 | the block loop gives the blocks' sections, in order, or throws |
| PreviewTs.BlocksThrowLater | src/utils/contentTransformer.ts:154 | once some block throws, the whole transformation throws |
| PreviewTs.BlocksPreview | src/utils/contentTransformer.ts:84-123 | a blocks preview is always produced (or throws), with the given title and the number of blocks as its count |
| PreviewTs.TransformInsights | src/utils/contentTransformer.ts:83-110 | blocks when present; otherwise `null` for no insights, a throw exactly when some insight is `null` or `undefined`, and else one paragraph per insight headed by its title, with the count and titles as metadata |
| PreviewTs.NoteSection | src/utils/contentTransformer.ts:129-134 | a `null` or `undefined` note throws; any other note gives a list section exactly when its `section` and `points` are truthy, headed by its section |
| PreviewTs.NoteSections | src/utils/contentTransformer.ts:128-136 | the counted notes, in order: none more than the notes, empty exactly when no note counts, each a headed list section |
| PreviewTs.CollectNotes | src/utils/contentTransformer.ts:128-136 | the note loop collects exactly the counted notes' sections |
| PreviewTs.NotesPreview | src/utils/contentTransformer.ts:115-147 | blocks when present; a `notes` field that is not an array throws; otherwise a throw exactly when some note is `null` or `undefined`, `null` when no note counts, and else the counted notes with their number |
| PreviewTs.TransformNotes | src/utils/contentTransformer.ts:115-147 | collecting the notes with `push` gives the notes preview |
| PreviewTs.NullNoteThrows | src/utils/contentTransformer.ts:129 | notes `[null]` make the notes preview throw |
| PreviewTs.OptionLine | src/utils/contentTransformer.ts:200-201 | an option's line starts with `✓` exactly when its value strictly equals the correct answer, and ends with a newline |
| PreviewTs.QuestionTail | src/utils/contentTransformer.ts:198-208 | the text after the head throws exactly when a multiple-choice question's options cannot be iterated |
| PreviewTs.QuestionText | src/utils/contentTransformer.ts:196-208 | a question's text throws exactly when the question is `null` or `undefined`, or is multiple-choice with truthy options that are not an array or that hold a `null` or `undefined` option |
| PreviewTs.BuildQuestion | src/utils/contentTransformer.ts:196-208 | building the text with `+=` gives the question text |
| PreviewTs.PushOptions | src/utils/contentTransformer.ts:199-202 | the option loop appends every option's line, in order |
| PreviewTs.QuizSections | src/utils/contentTransformer.ts:195-214 | one paragraph per question, or a throw exactly when some question throws (a `null` or `undefined` question, or options that cannot be gone through) |
| PreviewTs.QuizShape | src/utils/contentTransformer.ts:196 | question `i` gives a paragraph starting `Q{i+1}: {question}` |
| PreviewTs.QuizPreview | src/utils/contentTransformer.ts:191-223 | `null` for no questions; otherwise the question paragraphs titled `Assessment Quiz` with their number |
| PreviewTs.TransformQuiz | src/utils/contentTransformer.ts:191-223 | the question-by-question loop gives the quiz preview |
| PreviewTs.QuestionLabelsDiffer | src/utils/contentTransformer.ts:195-196 | different questions of a quiz give different paragraphs |
| PreviewTs.TransformFlashcards | src/utils/contentTransformer.ts:228-246 | `null` for no cards; a throw exactly when some card is `null` or `undefined`; otherwise one paragraph per card headed `Card {i+1}: {question}` holding its answer, with the card count |
| PreviewTs.CardHeadingsDiffer | src/utils/contentTransformer.ts:234 | no two cards of a deck share a heading, whatever their questions |
| PreviewTs.NullCardThrows | src/utils/contentTransformer.ts:234 | flashcards `[null]` make the flashcard preview throw |
| PreviewTs.TransformModeContent | src/utils/contentTransformer.ts:252-279 | falsy data gives `null`; a revision wrapper whose first revision is `null` or `undefined` throws; unknown modes give `null`; a revision wrapper gives its first revision's content's preview, or `null` when there is none; other data goes to the mode's transformer |
| PreviewTs.NullRevisionThrows | src/utils/contentTransformer.ts:258 | a revision wrapper holding `[null]` makes the preview throw, whatever the mode |
| PreviewJs.Words | src/utils/contentTransformer.js:64-66 | the word total exists exactly when every section's content is a string, and is then at least one per section |
| PreviewJs.SummaryPreview | src/utils/contentTransformer.js:31-76 | `null` exactly for falsy data or when no section is made; a string `summary` gives one paragraph and an array one list item per point |
| PreviewJs.TransformSummary | src/utils/contentTransformer.js:31-76 | pushing the sections gives the summary preview |
| PreviewJs.TransformInsights | src/utils/contentTransformer.js:81-105 | `null` or `undefined` data, and an array, throw (the metadata reads `insightsData.insights`); no insights array gives `null`; a wrapped array is shown exactly when none of its insights is `null` or `undefined`, one paragraph per insight headed by its title, with the count and titles as metadata |
| PreviewJs.InsightsAgree | src/utils/contentTransformer.js:81-105 | on wrapped insights without blocks the two transformers agree |
| PreviewJs.NoteSectionsOf | src/utils/contentTransformer.js:121-141 | the counted notes of the notes array, throwing exactly when one is `null` or `undefined`; else the key concepts as one section joined by newlines; else none |
| PreviewJs.NotesPreview | src/utils/contentTransformer.js:110-155 | throws exactly when truthy data has a notes array holding a `null` or `undefined` note; `null` exactly for falsy data or no sections; otherwise `Study Notes` with those sections |
| PreviewJs.KeyConceptsFallback | src/utils/contentTransformer.js:135-141 | without a notes array, the key concepts give one `Key Concepts` section holding all of them, one per line |
| PreviewJs.TransformNotes | src/utils/contentTransformer.js:110-155 | collecting the notes with `push` gives the notes preview |
| PreviewJs.NullNoteThrows | src/utils/contentTransformer.js:125 | a notes array `[null]` makes the notes preview throw |
| PreviewJs.TrueFalseAnswer | src/utils/contentTransformer.js:173 | the answer line says `True` exactly when the answer is truthy, else `False` |
| PreviewJs.QuestionTail | src/utils/contentTransformer.js:166-176 | the text after the head throws exactly when a multiple-choice question's options cannot be iterated |
| PreviewJs.QuestionText | src/utils/contentTransformer.js:164-176 | a question's text starts with its `Q{n}: ` head, and throws exactly when the question is `null` or `undefined` or its multiple-choice options cannot be gone through |
| PreviewJs.BuildQuestion | src/utils/contentTransformer.js:164-176 | building the text with `+=` gives the question text |
| PreviewJs.QuizSections | src/utils/contentTransformer.js:163-182 | one paragraph per question, or a throw exactly when some question throws (a `null` or `undefined` question, or options that cannot be gone through) |
| PreviewJs.QuizPreview | src/utils/contentTransformer.js:160-192 | `null` exactly without data or quiz; an empty quiz is shown with no sections; the difficulty defaults to `medium` |
| PreviewJs.QuizSectionsStep | src/utils/contentTransformer.js:163 | one more question's paragraph follows those of the questions before it |
| PreviewJs.TransformQuiz | src/utils/contentTransformer.js:160-192 | mapping the questions one at a time gives the quiz preview |
| PreviewJs.TransformFlashcards | src/utils/contentTransformer.js:197-215 | `null`/`undefined` data and arrays throw (the metadata reads `flashcardsData.flashcards`); no cards array gives `null`; a `null` or `undefined` card throws; otherwise one numbered paragraph per card |
| PreviewJs.TransformModeContent | src/utils/contentTransformer.js:220-248 | each of the five modes goes to its transformer with the data as given (no unwrapping), and any other mode gives `null` |
| PreviewJs.MissingDataDiffers | src/utils/contentTransformer.js:84-198 | unlike the typed dispatcher, which gives `null` for missing data, this one throws on missing insights or flashcards |
| ContentVisibility.HasProjectContent | src/utils/contentVisibility.ts:5-40 | falsy data has no content; it throws exactly when the data's active version does (a revision wrapper whose first revision is `null` or `undefined`); falsy active data has no content; string data has content exactly when it is not blank; other data is judged by the mode's own rule |
| ContentVisibility.ModeIgnoresCase | src/utils/contentVisibility.ts:24 | modes that agree after lower-casing give the same answer |
| ContentVisibility.LowerModeSame | src/utils/contentVisibility.ts:24 | a mode already in lower case checks the same as any spelling of it |
| ContentVisibility.SummaryContent | src/utils/contentVisibility.ts:26 | a summary counts when it has a summary text or some key points |
| ContentVisibility.WrapperJudgedByContent | src/utils/contentVisibility.ts:10-12 | wrapping data that is not itself a wrapper in `{content: …}` changes nothing |
| ContentVisibility.UnknownModeShows | src/utils/contentVisibility.ts:37-38 | a mode without its own rule shows any truthy non-string data |
| ContentVisibility.NullRevisionThrows | src/utils/contentVisibility.ts:14 | a revision wrapper holding `[null]` makes the check throw, whatever the mode |
| SrsEngine.AddDays | src/utils/srsEngine.ts:83-87 | the result lies exactly `days` days after the date |
| SrsEngine.CalculateNextReview | src/utils/srsEngine.ts:16-81 | a card without a state is treated as new; a new card gets the fixed interval, ease and state of its rating; a reviewed card follows the again/hard/good/easy update, due `interval` days after today |
| SrsEngine.GoodKeepsInterval | src/utils/srsEngine.ts:65 | `good` never shortens the interval of a reviewed card whose ease is at least 1 |
| SrsEngine.EaseStaysInBounds | src/utils/srsEngine.ts:56-71 | the ease of a reviewed card stays within [1.3, 5.0] when it started there |
| CoordinateMath.IsIntersecting | src/utils/coordinateMath.ts:15-22 | two rectangles meet exactly when their ranges meet on both axes, shared edges included |
| CoordinateMath.IntersectingSymmetric | src/utils/coordinateMath.ts:15-22 | intersection does not depend on the order of the rectangles |
| CoordinateMath.SelfIntersecting | src/utils/coordinateMath.ts:15-22 | a rectangle of non-negative size meets itself |
| CoordinateMath.TouchingEdgesMeet | src/utils/coordinateMath.ts:17-18 | rectangles that only share an edge still meet |
| CoordinateMath.GetRelativeRect | src/utils/coordinateMath.ts:27-39 | no finite result exactly when the container has no width or height; otherwise the spanned box, of non-negative size, in percent |
| CoordinateMath.RelativeRectSymmetric | src/utils/coordinateMath.ts:28-31 | dragging from either end gives the same rectangle |
| CoordinateMath.RelativeRectInside | src/utils/coordinateMath.ts:27-39 | two points inside the container give a rectangle inside [0, 100] on both axes |
| CoordinateMath.AxisInside | src/utils/coordinateMath.ts:34-37 | on one axis, positions inside the span give an offset and extent whose percentages stay within [0, 100] |
| PdfCache.CacheKey | src/utils/PdfCacheManager.ts:36-38 | a page's key starts with its URL followed by `-` |
| PdfCache.SharedPrefixMatches | src/utils/PdfCacheManager.ts:106-107 | the keys of any URL that extends another also start with the shorter URL, so clearing the shorter one matches them |
| PdfCache.OtherPagesAscending | src/utils/PdfCacheManager.ts:94-97 | the pages after the start page are 1..n without the start page, ascending |
| PdfCache.BackgroundOrder | src/utils/PdfCacheManager.ts:89-98 | the start page is asked for first, then every page of the document once, none twice |
| PdfCache.CacheManager.constructor | src/utils/PdfCacheManager.ts:8-12 | the three maps start empty |
| PdfCache.CacheManager.GetDocument | src/utils/PdfCacheManager.ts:24-31 | a cached document is returned as is; otherwise the loaded one is returned and cached |
| PdfCache.CacheManager.GetCachedPage | src/utils/PdfCacheManager.ts:43-45 | a bitmap is returned exactly when the page's key is cached, and then the page's status is `completed` |
| PdfCache.CacheManager.BeginRender | src/utils/PdfCacheManager.ts:51-55 | a completed or pending key starts nothing; otherwise the key becomes pending |
| PdfCache.CacheManager.FinishRender | src/utils/PdfCacheManager.ts:57-83 | the page is completed with its bitmap stored when the document was at hand and the page rendered, failed otherwise; a newly loaded document is cached |
| PdfCache.CacheManager.RenderToCache | src/utils/PdfCacheManager.ts:50-84 | a completed or pending page is left alone; otherwise it ends completed (with its bitmap) or failed |
| PdfCache.CacheManager.StartBackgroundRendering | src/utils/PdfCacheManager.ts:89-98 | the pages are asked for in the background order, each ends with a status, and no status is lost |
| PdfCache.CacheManager.ClearDoc | src/utils/PdfCacheManager.ts:103-113 | the document is forgotten and every cached page whose key starts with the URL loses its bitmap and status; a status without a bitmap stays |
| PdfCache.DropStep | src/utils/PdfCacheManager.ts:106-111 | one more visited key is dropped exactly when it is a matching cached page |
| PdfCache.DropAll | src/utils/PdfCacheManager.ts:106-112 | once every page key is visited the status map is exactly the old one without the matching cached pages |
| PageHandlers.EditorWords | src/app/page.tsx:156 | a blank text has no words and any other text at least one |
| PageHandlers.EditorWordsAgainstStatWords | src/app/page.tsx:156 | the editor counts words as the store's `updateStats` does, except for a blank text: 0 here, 1 there |
| PageHandlers.EditorStats | src/app/page.tsx:155-160 | words, characters, lines (newlines plus one) and reading time `ceil(words/200)`, which is zero exactly for a blank text |
| PageHandlers.HandleEditorChange | src/app/page.tsx:154-161 | the preview becomes the HTML and the statistics those of the text |
| PageHandlers.TargetWordCount | src/app/page.tsx:255-256 | the summary target is a share of a third of the document: within `[0, words/3]`, the whole third at 100 and nothing at 0 |
| PageHandlers.TargetGrowsWithLength | src/app/page.tsx:256 | a longer summary setting never asks for fewer words |
| PageHandlers.SettingsName | src/app/page.tsx:244-251 | five modes have their own settings; flashcards and the rest get `{}` |
| PageHandlers.GeneratePayload | src/app/page.tsx:231-258 | nothing is sent without a preview, or without a file and text; the source is the file id when there is one, else the text; the summary settings gain the target word count and keep every other setting |
| PageHandlers.HandleGenerate | src/app/page.tsx:230-301 | an early return changes nothing; otherwise loading ends cleared and an answer for a content module becomes its data with its generated flag set, no other module changing |
| PageHandlers.ExportChoice | src/app/page.tsx:303-328 | the editor exports a non-empty preview; any other mode exports its module's data when that is truthy; otherwise an alert |
| PageHandlers.HandleExport | src/app/page.tsx:303-328 | the modal opens exactly as the export choice says; otherwise the store is unchanged |
| ModeSwitcher.DistinctModesDistinctIds | src/components/ModeSwitcher.tsx:4-13 | entries with distinct modes have distinct ids |
| ModeSwitcher.IndexOfId | src/components/ModeSwitcher.tsx:35-41 | the position of the first hidden entry with the id, or none when no entry has it |
| ModeSwitcher.SwapIn | src/components/ModeSwitcher.tsx:31-47 | a hidden mode trades places with the fourth visible one; the first three stay, the lengths stay, the eight modes are only permuted; an id not hidden changes nothing |
| ModeSwitcher.SwapKeepsElements | src/components/ModeSwitcher.tsx:40-42 | trading an element of one list for one of the other keeps the elements of both together |
| ModeSwitcher.SwapBackRestores | src/components/ModeSwitcher.tsx:26-48 | clicking the mode just swapped out swaps it back, restoring both lists |
| ModeSwitcher.InitialSplit | src/components/ModeSwitcher.tsx:21-22 | the first four of the eight modes are the ones shown at first, and the other four are the ones in the dropdown |
| ModeSwitcher.Switcher.constructor | src/components/ModeSwitcher.tsx:21-23 | the first four modes are shown, the last four hidden, the dropdown closed |
| ModeSwitcher.Switcher.HandleModeClick | src/components/ModeSwitcher.tsx:26-48 | the parent is told the id, the dropdown closes and the lists become the swapped lists |
| QuizView.AnswerKey | src/components/Quiz.tsx:44 | an answer is stored under `q` followed by the index |
| QuizView.AnswerKeysDiffer | src/components/Quiz.tsx:44 | different questions store their answers under different keys |
| QuizView.Counts | src/components/Quiz.tsx:53-61 | for a question that is not `null` or `undefined`: only true/false, multiple-choice and fill-in questions can score, and a fill-in one only when both answers are strings |
| QuizView.Marks | src/components/Quiz.tsx:51-62 | one mark per question, true exactly when it scores |
| QuizView.CountTrueIsSize | src/components/Quiz.tsx:55-59 | counting the true marks counts their positions |
| QuizView.Score | src/components/Quiz.tsx:50-62 | the score never exceeds the number of questions |
| QuizView.CorrectIndices | src/components/Quiz.tsx:51-62 | exactly the indices of the questions that score |
| QuizView.ScoreCountsCorrect | src/components/Quiz.tsx:50-63 | the score is the number of questions answered correctly |
| QuizView.AllCorrectFullMarks | src/components/Quiz.tsx:50-63 | every question answered correctly gives full marks |
| QuizView.AnsweringAllEnablesSubmit | src/components/Quiz.tsx:198 | answering every question enables submit |
| QuizView.EditQuestion | src/components/Quiz.tsx:28-39 | no change without quiz data; otherwise only question `index` gets the new text |
| QuizView.QuizState.constructor | src/components/Quiz.tsx:18-20 | no answers, no results, score zero |
| QuizView.QuizState.OnQuizDataChange | src/components/Quiz.tsx:22-26 | new quiz data resets answers, results and score |
| QuizView.QuizState.HandleAnswerChange | src/components/Quiz.tsx:41-46 | only that question's answer changes |
| QuizView.QuizState.CheckQuiz | src/components/Quiz.tsx:48-65 | nothing without quiz data; a quiz field that is not an array, or that holds a `null` or `undefined` question, throws before anything changes; otherwise the score is the number answered correctly and the results show |
| ListEdit.WorkingList | src/components/Insights.tsx:25 | the data when it is an array, else its list field, else an empty list |
| ListEdit.WriteBack | src/components/Insights.tsx:31-35 | a bare array stays an array, a wrapper keeps its other fields, and the list read back is exactly the list written |
| ListEdit.RemoveAt | src/components/Insights.tsx:52 | the item at `i` is removed and the rest kept in order; an index outside the list removes nothing |
| ListEdit.EditItemField | src/components/Insights.tsx:27-37 | nothing without data; a list field that is not an array throws; otherwise only that field of item `i` changes, in the data's own shape |
| ListEdit.AppendItem | src/components/Insights.tsx:39-48 | nothing without data; a list field that is not an array throws; otherwise the item is appended, in the data's own shape |
| ListEdit.DeleteItem | src/components/Insights.tsx:50-59 | nothing without data; a list field that is not an array throws; otherwise item `i` is removed, in the data's own shape |
| ListEdit.AppendThenDelete | src/components/Insights.tsx:39-59 | adding an item and then deleting it gives the list back |
| NotesView.WithPoints | src/components/Notes.tsx:41-53 | a copy of the data in which only the points of section `i` are replaced; the section's other fields, the other sections and the wrapper's other fields are kept |
| NotesView.SectionTitleChange | src/components/Notes.tsx:29-39 | nothing without data; a TypeError when the notes list is not an array; otherwise section `i` gets the edited title, keeps its points, and the other sections are unchanged |
| NotesView.PointChange | src/components/Notes.tsx:41-53 | point `j` of section `i` gets the edited text and every other point, section and field is kept; nothing without data, a TypeError when the list or its points are not arrays |
| NotesView.AddPoint | src/components/Notes.tsx:66-77 | the default point is appended to section `i` and nothing else changes |
| NotesView.DeletePoint | src/components/Notes.tsx:90-101 | point `j` of section `i` is removed, the other points kept in order, nothing else changes |
| NotesView.AddSection | src/components/Notes.tsx:55-64 | the default section is appended to the notes list; the data keeps its array-or-wrapper shape |
| NotesView.DeleteSection | src/components/Notes.tsx:79-88 | section `i` is removed, the others kept in order; an index outside the list removes nothing |
| InsightsView.FieldName | src/components/Insights.tsx:27 | the two editable fields are `title` and `description` |
| InsightsView.ContentChange | src/components/Insights.tsx:27-37 | that field of insight `i` gets the edited text; the other field, the other insights and the wrapper's fields are kept; nothing without data, a TypeError on a non-array list |
| InsightsView.AddInsight | src/components/Insights.tsx:39-48 | the list grows by one and its last item is the default insight |
| InsightsView.DeleteInsight | src/components/Insights.tsx:50-59 | insight `i` is removed, the others kept in order; an index outside the list removes nothing |
| FlashcardsView.CardClick | src/components/Flashcards.tsx:24-31 | a click on editable text never flips; any other click flips exactly card `i`, leaving every other card's state alone |
| FlashcardsView.FieldName | src/components/Flashcards.tsx:33 | the two editable sides are `question` and `answer` |
| FlashcardsView.ContentChange | src/components/Flashcards.tsx:33-43 | that side of card `i` gets the edited text; the other side and the other cards are kept |
| FlashcardsView.AddCard | src/components/Flashcards.tsx:45-54 | the list becomes the old list followed by the default card |
| FlashcardsView.DeleteCard | src/components/Flashcards.tsx:56-65 | card `i` is removed, the others kept in order; an index outside the list removes nothing |
| SummaryView.FirstIndex | src/components/Summary.tsx:22 | the position of the first occurrence of the character, with no earlier occurrence |
| SummaryView.StripTags | src/components/Summary.tsx:22 | the result has no complete tag left, uses only characters of the input, and is the input itself when it has no `<` |
| SummaryView.NoTagUnchanged | src/components/Summary.tsx:22 | a text without a complete tag is left as it is |
| SummaryView.StripTagsIdempotent | src/components/Summary.tsx:22 | stripping tags twice gives what stripping once gives |
| SummaryView.CopyText | src/components/Summary.tsx:19-27 | nothing is copied without a summary; otherwise the copied text has no tag, and is the summary itself when it has no `<` |
| SummaryView.HtmlHasTag | src/components/Summary.tsx:33 | any summary the view treats as HTML has a tag for the copy to strip |
| SummaryView.SummaryHtml | src/components/Summary.tsx:30-38 | `''` without a summary; an HTML-looking summary is shown as it is; anything else goes through the Markdown renderer |
| SummaryView.WithKeyPoints | src/components/Summary.tsx:51 | the key points are replaced and every other field is kept |
| SummaryView.SummaryChange | src/components/Summary.tsx:40-44 | nothing without data; otherwise the summary text is replaced and the other fields are kept |
| SummaryView.KeyPointChange | src/components/Summary.tsx:47-53 | only key point `i` changes; a TypeError when the key points are not an array |
| SummaryView.AddKeyPoint | src/components/Summary.tsx:55-62 | the default key point is appended, nothing else changes |
| SummaryView.DeleteKeyPoint | src/components/Summary.tsx:64-69 | key point `i` is removed, the rest kept in order |
| LeftSidebar.KeepMatching | src/components/LeftSidebar.tsx:91-96 | exactly the templates whose name or description contains the term, ignoring case, in list order |
| LeftSidebar.Filtered | src/components/LeftSidebar.tsx:88-99 | an empty term shows every template; a non-empty one shows exactly the matching templates, as an order-preserving subsequence of the list |
| LeftSidebar.SubsequenceRefl | src/components/LeftSidebar.tsx:89 | the unfiltered list is a subsequence of itself |
| LeftSidebar.EmptyTermMatchesAll | src/components/LeftSidebar.tsx:91-96 | an empty term is contained in every name, so the empty-term shortcut agrees with filtering |
| LeftSidebar.OnMount | src/components/LeftSidebar.tsx:69-86 | a fetch happens exactly when the store holds no templates; held templates are shown as they are; fetched ones are stored and shown; a failed fetch changes nothing |
| ScopeSelector.LastPage | src/components/dashboard/GenerationScopeSelector.tsx:20 | a page count of 0 counts as one page; any other count is itself |
| ScopeSelector.InitialRange | src/components/dashboard/GenerationScopeSelector.tsx:18-25 | the whole document, from page 1 to the last page |
| ScopeSelector.TypeChange | src/components/dashboard/GenerationScopeSelector.tsx:33-41 | 'all' carries no value, 'pages' the current range, 'topics' an empty selection, and the kind is the one chosen |
| ScopeSelector.PageChange | src/components/dashboard/GenerationScopeSelector.tsx:43-46 | the local range and the scope both become the new pair |
| ScopeSelector.SliderValue | src/components/dashboard/GenerationScopeSelector.tsx:96-98 | a range input reports a value between 1 and the last page, and any value already there unchanged |
| ScopeSelector.MoveStart | src/components/dashboard/GenerationScopeSelector.tsx:95-102 | the start becomes the slider value and the end is pushed up to it when it would fall below, so start never exceeds end |
| ScopeSelector.MoveEnd | src/components/dashboard/GenerationScopeSelector.tsx:103-110 | the end becomes the slider value and the start is pulled down to it when it would rise above, so start never exceeds end |
| ScopeSelector.SelectedTopics | src/components/dashboard/GenerationScopeSelector.tsx:49-51 | the selection of a topic scope, and none for any other scope |
| ScopeSelector.ToggleTopic | src/components/dashboard/GenerationScopeSelector.tsx:48-58 | the result is a topic scope in which the toggled topic changed membership and every other topic kept it |
| ScopeSelector.ToggleFromOtherScope | src/components/dashboard/GenerationScopeSelector.tsx:49-57 | from a scope that is not a topic scope a toggle selects exactly that topic |
| ScopeSelector.ToggleTopicTwice | src/components/dashboard/GenerationScopeSelector.tsx:53-55 | two toggles of the same topic restore the selection: its membership always, the list itself when the topic was absent |
| ExportRender.Both | src/components/ExportModal.tsx:29-36 | two parts concatenated, and a throw in either part throws |
| ExportRender.BothAssoc | src/components/ExportModal.tsx:29-36 | joining three rendered parts does not depend on grouping |
| ExportRender.ConcatMap | src/components/ExportModal.tsx:34 | `map(f).join('')` succeeds exactly when every element renders |
| ExportRender.ListPart | src/components/ExportModal.tsx:33-35 | a missing or empty list gives the fallback text; a non-empty non-array throws; an array renders each element in order |
| ExportRender.PointItems | src/components/ExportModal.tsx:43 | the points of a section render unless they are present and not an array |
| ExportRender.NoteSection | src/components/ExportModal.tsx:41-44 | a section renders exactly when it is an object whose points are absent or an array |
| ExportRender.InsightBlock | src/components/ExportModal.tsx:50-53 | an insight renders exactly when it is not null or undefined |
| ExportRender.CardRow | src/components/ExportModal.tsx:60-65 | a flashcard row renders exactly when the card is not null or undefined |
| ExportRender.OptionItem | src/components/ExportModal.tsx:77 | an option renders exactly when it is not null or undefined |
| ExportRender.OptionsPart | src/components/ExportModal.tsx:77 | absent options render as nothing; present ones render when they form an array of options |
| ExportRender.QuestionBlock | src/components/ExportModal.tsx:72-81 | a missing question throws; options are listed only for a multiple-choice question; every block opens with its 1-based question number |
| ExportRender.NumberedConcatDefined | src/components/ExportModal.tsx:72 | rendering each element with its position counted from the start number succeeds exactly when every element does |
| ExportRender.NumberedConcatAppend | src/components/ExportModal.tsx:72 | numbering runs on across a split of the list |
| ExportRender.NumberedConcatSingle | src/components/ExportModal.tsx:72 | a one-element list renders as its element at the start number |
| ExportRender.QuizItems | src/components/ExportModal.tsx:71-82 | the questions numbered from 1, succeeding exactly when every question block renders |
| ExportRender.QuizNumbering | src/components/ExportModal.tsx:72-74 | the questions after the first `n` are numbered from `n + 1`, and a single question is numbered 1 |
| ExportRender.MindmapItem | src/components/ExportModal.tsx:88 | a node renders exactly when it is not null or undefined |
| ExportRender.Heading | src/components/ExportModal.tsx:27-90 | exactly the six known modes have a heading |
| ExportRender.Body | src/components/ExportModal.tsx:26-93 | a known mode renders its heading and body, throwing when the body throws; any other mode gives the string itself or the value's JSON text |
| ExportRender.EmptyListBody | src/components/ExportModal.tsx:40-44 | a list module whose list is missing or empty renders only its empty-list line |
| ExportRender.RenderDataToHtml | src/components/ExportModal.tsx:22-98 | editor data passes through (`''` when falsy); other falsy data gives the no-content heading; a throw gives the error heading followed by the JSON text |
| ExportRender.WellFormedQuizRenders | src/components/ExportModal.tsx:71-82 | a quiz whose questions are objects with array or absent options always renders |
| ExportModal.FormatName | src/components/ExportModal.tsx:100 | the three export formats are `pdf`, `docx` and `csv` |
| ExportModal.Options | src/components/ExportModal.tsx:163-174 | PDF then Word always; CSV third exactly for quiz data |
| ExportModal.ModalHtmlAsWritten | src/components/ExportModal.tsx:22-98 | the dialog's renderer as written: editor data passes through and falsy data gives the no-content heading |
| ExportModal.ModalHtml | src/components/ExportModal.tsx:22-98 | the corrected renderer, reading a flashcard's question and answer, with the same editor and no-content cases |
| ExportModal.FlashcardCellsEmptyAsWritten | src/components/ExportModal.tsx:62-63 | a card with a question and an answer renders two empty cells as written, and its two sides once read by its own fields |
| ExportModal.OnlyFlashcardsDiffer | src/components/ExportModal.tsx:55-67 | outside flashcards the as-written and corrected renderers give the same page |
| ExportModal.WrapInStyle | src/components/ExportModal.tsx:143-161 | the fragment is exactly the body of the styled page |
| ExportModal.RequestBody | src/components/ExportModal.tsx:100-114 | the corrected request (its page comes from ExportModal.ModalHtml, not from the as-written renderer; see Findings): PDF and Word carry the styled page and no data; CSV carries the data and no page; the file name is `pdfy-<mode>-<time>` |
| ProjectExport.ToggleDropdown | src/components/dashboard/ProjectExportAction.tsx:26-34 | this module's dropdown is open afterwards exactly when it was not before; opening it closes any other |
| ProjectExport.FindTopic | src/components/dashboard/ProjectExportAction.tsx:43 | the topic with the id when there is one, and none only when no topic has it |
| ProjectExport.ScopeTopicIds | src/components/dashboard/ProjectExportAction.tsx:40 | the topic ids of a scope value: none for null, the ids for a list, two numbers for a page pair |
| ProjectExport.ScopeLabel | src/components/dashboard/ProjectExportAction.tsx:36-49 | `Full Document` for no scope or the whole file; a page label, throwing on a null page value; the topic's label, `Selected Topics`, `Selected Topic` or the count for a topic scope |
| ProjectExport.TopicCountLabelsDiffer | src/components/dashboard/ProjectExportAction.tsx:46 | selections of different sizes above one get different labels |
| ProjectExport.FindPreset | src/components/dashboard/ProjectExportAction.tsx:58 | the preset with the value when there is one, and none only when no preset has it |
| ProjectExport.CurrentPreset | src/components/dashboard/ProjectExportAction.tsx:51-58 | the stored preset when it is one of the four, else the first |
| ProjectExport.FindRevision | src/components/dashboard/ProjectExportAction.tsx:193 | the revision with the id when there is one, and none only when no revision has it |
| ProjectExport.ExportDataAsWritten | src/components/dashboard/ProjectExportAction.tsx:191-197 | as written, a matching revision yields `undefined` because it is read through a field revisions do not have |
| ProjectExport.ExportData | src/components/dashboard/ProjectExportAction.tsx:191-197 | the selected revision's data when a version other than `current` matches one, else the module's current data |
| ProjectExport.RevisionExportLosesData | src/components/dashboard/ProjectExportAction.tsx:195 | a saved notes version exports the no-content page as written and its own notes once corrected |
| ProjectExport.ProjectHtml | src/components/dashboard/ProjectExportAction.tsx:60-154 | this component's renderer: editor data passes through and falsy data gives the no-content heading |
| ProjectExport.WrapInStyle | src/components/dashboard/ProjectExportAction.tsx:156-184 | the fragment is exactly the body of the styled page |
| ProjectExport.HasContent | src/components/dashboard/ProjectExportAction.tsx:238-251 | falsy data and blank strings have nothing; a known module checks its own list, a summary its text or key points; other data counts |
| ProjectExport.NoContentRendersPlaceholder | src/components/dashboard/ProjectExportAction.tsx:238-251 | when the button is disabled for a list module's object data, its page would show only the heading and the empty-list line |
| ProjectExport.ExportBody | src/components/dashboard/ProjectExportAction.tsx:186-205 | the corrected request (its data comes from ProjectExport.ExportData, not from the as-written lookup; see Findings): it carries the format, the mode and the styled page of the exported version |
| Merging.MergeSummary | server/src/utils/merging.js:35-42 | a single `summary` field holding the old text, the `<hr />` separator, then the new text |
| Merging.Dedupe | server/src/utils/merging.js:57-58 | the same values without repeats, by strict equality, in first-occurrence order |
| Merging.DedupeNoRepeats | server/src/utils/merging.js:57-58 | a list without repeats is its own de-duplication |
| Merging.DedupeExtends | server/src/utils/merging.js:57-58 | de-duplicating a longer list keeps the de-duplicated prefix in front |
| Merging.UnionKeepsFirst | server/src/utils/merging.js:57-58 | the union keeps every existing point, in order and in front, when the existing points have no repeats |
| Merging.SectionKey | server/src/utils/merging.js:54 | the lower-cased section title, throwing when the title is not a string |
| Merging.FindSectionFrom | server/src/utils/merging.js:54 | the first section from position `k` whose title matches the new one, ignoring case; none only when no later title matches; no throw when every title is a string |
| Merging.MergePoints | server/src/utils/merging.js:57-58 | succeeds exactly when both point lists are arrays or strings. Arrays give their elements and strings their characters, and the result is that concatenation de-duplicated |
| Merging.Spread | server/src/utils/merging.js:51 | spreading succeeds exactly for arrays and strings. An array gives its elements, a string one one-character string per character |
| Merging.SpreadJoinsBack | server/src/utils/merging.js:51 | joining the characters a string spreads into gives back the string |
| Merging.StringPointsUnion | server/src/utils/merging.js:57 | a string of points is spread into its characters in the union |
| Merging.StringPointsSpread | server/src/utils/merging.js:54-58 | merging a section whose points are a string into a matching section adds the string's characters as points |
| Merging.NotesStep | server/src/utils/merging.js:53-63 | one new section adds at most one section |
| Merging.MergeSections | server/src/utils/merging.js:53-63 | the merged list is at least as long as the old one and at most one section longer per new section |
| Merging.MergeSectionsLoop | server/src/utils/merging.js:51-63 | the `forEach` loop computes the step-by-step merge of the sections |
| Merging.MergeSectionsThrown | server/src/utils/merging.js:53-63 | once a step throws, the whole merge throws |
| Merging.UnmatchedSectionAppended | server/src/utils/merging.js:59-62 | a new section whose title matches none is appended as it is |
| Merging.FindSectionAt | server/src/utils/merging.js:54 | the search finds the first matching section |
| Merging.MatchedSectionUnion | server/src/utils/merging.js:54-58 | a matching new section changes only the first matching section, whose points become the union, existing points first and in order |
| Merging.NotesList | server/src/utils/merging.js:48-51 | an array is the list itself, and a wrapper without notes gives the empty list. A string of notes is spread into characters that join back to it. Any other truthy notes value throws |
| Merging.StringNotesSpread | server/src/utils/merging.js:48-53 | old notes that are a string are spread into their characters, while new notes that are a string throw at `forEach` |
| Merging.MergeNotes | server/src/utils/merging.js:47-66 | the result is a `notes` wrapper holding an array |
| Merging.ItemKey | server/src/utils/merging.js:76 | the lower-cased key of an item; none when the key is missing; a throw on a missing item or a non-string key |
| Merging.KeyList | server/src/utils/merging.js:78 | the keys of the map in insertion order |
| Merging.MapGet | server/src/utils/merging.js:78 | a lookup misses exactly for a key not in the map |
| Merging.MapSet | server/src/utils/merging.js:76-77 | after a `set` the key holds the value, and the map gains at most one entry |
| Merging.MapSetGet | server/src/utils/merging.js:76-77 | after a `set` the key holds the new value and every other key keeps its value |
| Merging.MapSetKeys | server/src/utils/merging.js:76-77 | a known key keeps its place; a new key goes last |
| Merging.MapSetDistinct | server/src/utils/merging.js:76-77 | a `set` never makes a key occur twice |
| Merging.Fill | server/src/utils/merging.js:76-77 | filling the map succeeds exactly when every item's key can be read |
| Merging.FillSize | server/src/utils/merging.js:76-77 | filling adds at most one entry per item, and at least one when there are items |
| Merging.FillLaterWins | server/src/utils/merging.js:76-77 | after filling, a key holds the last item given for it, or its earlier value when no item has it; keys stay distinct |
| Merging.Values | server/src/utils/merging.js:78 | the values of the map in insertion order |
| Merging.MergeKeyedProperties | server/src/utils/merging.js:74-79 | each key's item is the last new one with that key, else the last old one |
| Merging.MergeKeyed | server/src/utils/merging.js:74-79 | the merge throws exactly when some old or new item's key cannot be read; otherwise there are at most as many items as given, and at least one when any was given |
| Merging.MergeKeyedArray | server/src/utils/merging.js:74-79 | the two `forEach` loops over the map compute the keyed merge |
| Merging.FillThrowsOn | server/src/utils/merging.js:76-77 | a fill that throws on a prefix throws on the whole list |
| Merging.ArrayOr | server/src/utils/merging.js:82-83 | an array is the list itself and a falsy field gives the empty list. Any other truthy field that is not an array throws |
| Merging.MergeByKey | server/src/utils/merging.js:81-97 | the result is a wrapper whose only field is the module's list |
| Merging.MergeContent | server/src/utils/merging.js:12-30 | a falsy side yields the other, and an unknown type keeps the new data. A summary goes to the summary merge and notes to the section merge. Insights are merged by `title` and flashcards by `question`, and a quiz reads and writes `questions` keyed by `question` |
| AiJson.FenceFrom | server/src/utils/aiUtils.js:28 | the first code fence at or after `k`, none only when there is none |
| AiJson.FenceFoundAt | server/src/utils/aiUtils.js:28 | the fence after a stretch without backticks is the one found |
| AiJson.FenceAbsent | server/src/utils/aiUtils.js:28 | text without backticks has no fence |
| AiJson.IndexOfChar | server/src/utils/aiUtils.js:39 | the first position of the character, none exactly when it is absent |
| AiJson.LastIndexOfChar | server/src/utils/aiUtils.js:40 | the last position of the character, none exactly when it is absent |
| AiJson.AfterTag | server/src/utils/aiUtils.js:28 | the body starts after the fence and after its `json` tag when there is one |
| AiJson.FenceBody | server/src/utils/aiUtils.js:28-29 | the text between the first fence and the next, if any; there is a body only when there is a fence |
| AiJson.FenceBodyTagged | server/src/utils/aiUtils.js:28 | a tagged fence after text without backticks yields its trimmed contents |
| AiJson.FenceBodyUntagged | server/src/utils/aiUtils.js:28 | an untagged fence yields its trimmed contents unless they begin with `json` |
| AiJson.StripTrailingCommas | server/src/utils/aiUtils.js:47 | the cleaned text is never longer than the input |
| AiJson.StripRemovesOnlyCommas | server/src/utils/aiUtils.js:47 | only commas are removed; all else is kept in order |
| AiJson.StripCommaFree | server/src/utils/aiUtils.js:47 | comma-free text passes through unchanged |
| AiJson.StripDropsTrailingComma | server/src/utils/aiUtils.js:47 | a comma before whitespace and a closing bracket disappears; the whitespace and bracket stay |
| AiJson.StripKeepsOtherComma | server/src/utils/aiUtils.js:47 | a comma not followed by whitespace and a closing bracket is kept where it is |
| AiJson.ClosesAfterBlank | server/src/utils/aiUtils.js:47 | whitespace then a closing bracket is what the pattern looks for after a comma |
| AiJson.BraceCandidate | server/src/utils/aiUtils.js:39-43 | the text from the first `{` to the last `}`, none exactly when either is missing or they are out of order |
| AiJson.BraceCandidateOf | server/src/utils/aiUtils.js:39-43 | prose before the first brace and after the last is ignored |
| AiJson.BraceCandidateAt | server/src/utils/aiUtils.js:39-43 | the braced text runs from the first `{` to the last `}` |
| AiJson.FencedBraceCandidate | server/src/utils/aiUtils.js:39-43 | the braces of a fenced reply are found inside the fence, the fence markers holding none |
| AiJson.SafeParseAiJson | server/src/utils/aiUtils.js:11-59 | empty or non-string input gives null; a reply that parses whole is returned; with no fence, the braced candidate without trailing commas is parsed, or null when there is none |
| AiJson.TrimKeeps | server/src/utils/aiUtils.js:17 | a text without surrounding space trims to itself |
| AiJson.FencedReplyParsed | server/src/utils/aiUtils.js:26-36 | a reply that is exactly a tagged code fence is parsed from its contents |
| AiJson.FenceStep | server/src/utils/aiUtils.js:30-32 | a reply that does not parse whole but has a non-empty fence that does gives the fence's value |
| AiJson.BraceStep | server/src/utils/aiUtils.js:38-58 | a reply that does not parse whole and has no fence whose contents parse is parsed from its braces, trailing commas removed, or gives null without braces |
| AiJson.TrimOfTrimmed | server/src/utils/aiUtils.js:17 | trimming is idempotent |
| AiJson.BracedReplyParsed | server/src/utils/aiUtils.js:38-50 | one braced object inside prose, with no fence and no direct parse, is parsed from the braces, trailing commas removed |
| AiJson.UnparsedFenceUsesBraces | server/src/utils/aiUtils.js:26-50 | a tagged fence whose contents do not parse falls back to the braces inside it, trailing commas removed |
| AiJson.UnparsedFenceFallback | server/src/utils/aiUtils.js:26-50 | a fenced reply whose contents do not parse is parsed from the braces found in the whole reply |
| AiJson.ProseReplyIsNull | server/src/utils/aiUtils.js:57-58 | a reply with no fence, no opening brace and no direct parse gives null |
| Scoping.PagesOf | server/src/utils/scoping.js:29 | the pages, else the nested pages, else none |
| Scoping.FormatContent | server/src/utils/scoping.js:17-23 | the text, tagged with the node's id when ids are asked for and the id is present; the text always ends the result |
| Scoping.AllNodes | server/src/utils/scoping.js:31 | exactly the nodes of the pages |
| Scoping.FilterNodes | server/src/utils/scoping.js:32 | exactly the nodes that pass the test |
| Scoping.TextNodes | server/src/utils/scoping.js:32 | exactly the text nodes |
| Scoping.AsList | server/src/utils/scoping.js:38 | an array as it is, anything else as a one-element list |
| Scoping.KeptIndices | server/src/utils/scoping.js:42 | exactly the accepted indices, increasing |
| Scoping.PickPages | server/src/utils/scoping.js:42 | the pages at the accepted indices, in order |
| Scoping.TopicNodeIds | server/src/utils/scoping.js:53-54 | exactly the node ids covered by a chosen topic |
| Scoping.ResolveScopedText | server/src/utils/scoping.js:11-69 | a missing document is a 404; the whole text for no scope or `all` without ids, an unknown scope, or an empty topic list |
| Scoping.AllWithIds | server/src/utils/scoping.js:25-35 | with ids, the whole document is every text node of every page, tagged, one per line |
| Scoping.ListedPagesKept | server/src/utils/scoping.js:37-47 | the page scope keeps exactly the pages whose 1-based number is listed, in page order |
| Scoping.TopicNodeKept | server/src/utils/scoping.js:49-66 | a text node is kept exactly when a chosen topic covers its id |
| Scoping.PagePairSkipsMiddle | server/src/utils/scoping.js:42 | the `[start, end]` pair the range selector sends keeps both ends but not a page between them |
| Scoping.RangedPagesKept | server/src/utils/scoping.js:42 | read as a range, `[start, end]` keeps exactly the pages numbered from start to end |
| DocumentGraph.TextNode | server/src/models/DocumentGraph.js:38-48 | a text node holding the given text, style, id and position |
| DocumentGraph.ImageNode | server/src/models/DocumentGraph.js:53-63 | an image node holding the URL, id and position, with an empty alternative text unless one is given |
| DocumentGraph.DocumentPage.constructor | server/src/models/DocumentGraph.js:74-79 | a page with the given index and dimensions, typed `page` unless a type is given, and no nodes |
| DocumentGraph.DocumentPage.AddNode | server/src/models/DocumentGraph.js:81-83 | the node goes last and nothing else about the page changes |
| DocumentGraph.Views | server/src/models/DocumentGraph.js:68-84 | the pages read as values, one per page in order |
| DocumentGraph.DetectType | server/src/models/DocumentGraph.js:114-119 | `pdf` exactly when the type mentions pdf; otherwise `pptx` exactly when it mentions a presentation or PowerPoint; otherwise `docx` exactly when it mentions word or document; else `unknown` |
| DocumentGraph.NoPdPairJoin | server/src/models/DocumentGraph.js:115 | joining two texts without a `p` followed by `d`, where none is formed at the seam, forms none |
| DocumentGraph.NoPdfIn | server/src/models/DocumentGraph.js:115 | a text without a `p` followed by `d` does not mention pdf |
| DocumentGraph.PptxMimeDetected | server/src/models/DocumentGraph.js:114-117 | the PowerPoint MIME type is detected as `pptx` |
| DocumentGraph.DocumentRoot.constructor | server/src/models/DocumentGraph.js:96-112 | a root with no pages and a count of 0, the detected type, language `en`, and the title given when non-empty else the file name |
| DocumentGraph.DocumentRoot.AddPage | server/src/models/DocumentGraph.js:121-124 | the page goes last, the page count follows the list, and nothing else changes |
| DocumentProcessor.SortNodes | server/src/services/DocumentProcessor.js:70-72 | the page's nodes are stably sorted in place by `y`, and nothing else about the page changes |
| DocumentProcessor.TextLines | server/src/services/DocumentProcessor.js:74-78 | one line per text node, so never more lines than nodes |
| DocumentProcessor.PageLinesShape | server/src/services/DocumentProcessor.js:67-79 | a page's lines are its header, then its text nodes' texts in ascending `y` (a sorted permutation of its nodes), then a line break |
| DocumentProcessor.DerivePlainText | server/src/services/DocumentProcessor.js:63-83 | one header per page in page order, its text nodes in ascending `y`, and a line break per page, joined by line breaks; each page's nodes are left sorted and its index unchanged |
| DocumentProcessor.SortPage | server/src/services/DocumentProcessor.js:66-80 | one page of the loop produces that page's lines and leaves its nodes sorted |
| DocumentProcessor.AllLinesStep | server/src/services/DocumentProcessor.js:66-80 | each further page appends its own lines |
| DocumentProcessor.AllLinesEnds | server/src/services/DocumentProcessor.js:66-80 | the lines begin with the first page's header and end with the last page's line break |
| DocumentProcessor.PlainText | server/src/services/DocumentProcessor.js:63-83 | no pages give the empty text; otherwise the text opens with the first page's header and ends with a line break |
| DocumentProcessor.ChooseExtractor | server/src/services/DocumentProcessor.js:33-43 | exactly `application/pdf` goes to the PDF extractor; otherwise a type mentioning a presentation or PowerPoint goes to the slide extractor; anything else throws |
| DocumentProcessor.PptxMimeChosen | server/src/services/DocumentProcessor.js:35-40 | the PowerPoint MIME type goes to the slide extractor |
| DocumentProcessor.ProcessFile | server/src/services/DocumentProcessor.js:24-58 | an unsupported type throws before any graph is touched; otherwise the result carries the chosen graph's id and its plain text |
| StructuredChunker.OfKind | server/src/services/StructuredChunker.js:41-42 | exactly the nodes of the given type, never more than the page has |
| StructuredChunker.PageTexts | server/src/services/StructuredChunker.js:45-47 | the texts of the text nodes, none of them blank |
| StructuredChunker.CreateChunk | server/src/services/StructuredChunker.js:40-69 | the chunk's text is the page's non-blank texts joined by line breaks; its node ids are the page's, in order; one image URL per image node; a slide title exactly for a slide with a non-empty title |
| StructuredChunker.KindsDisjoint | server/src/services/StructuredChunker.js:41-42 | a node is counted as text or as image, never both |
| StructuredChunker.JoinNotBlank | server/src/services/StructuredChunker.js:45-48 | joined texts are not blank when the first is not |
| StructuredChunker.PageHasTextIff | server/src/services/StructuredChunker.js:26 | a page's chunk is kept exactly when it has a text node with non-blank text |
| StructuredChunker.Chunks | server/src/services/StructuredChunker.js:24-29 | at most one chunk per page |
| StructuredChunker.ChunkByStructure | server/src/services/StructuredChunker.js:16-32 | the loop over the pages collects exactly the chunks of the pages with text, in page order |
| StructuredChunker.ChunksStep | server/src/services/StructuredChunker.js:24-29 | each further page adds its chunk exactly when its text is not blank |
| StructuredChunker.TextFlags | server/src/services/StructuredChunker.js:26 | which pages have text, page by page |
| StructuredChunker.SetPositions | server/src/services/StructuredChunker.js:24-29 | exactly the positions of the set flags, increasing |
| StructuredChunker.ChunksOfTextPages | server/src/services/StructuredChunker.js:24-29 | the chunks are those of the pages with text, one each, in page order |
| StructuredChunker.Contents | server/src/services/StructuredChunker.js:78 | the chunks' texts, in order |
| StructuredChunker.DeriveTextFromGraph | server/src/services/StructuredChunker.js:76-79 | the chunk texts of the pages with text, a blank line apart |
| StructuredChunker.NoPagesNoChunks | server/src/services/StructuredChunker.js:19-22 | a graph without pages gives no chunks and an empty text |
| ImageExtractor.WordRun | server/src/services/ImageExtractor.js:82 | the length of the maximal run of word characters from the position |
| ImageExtractor.ParseDataUrl | server/src/services/ImageExtractor.js:82-88 | a match splits the URL into a non-empty word extension and non-empty one-line data, and the parts rebuild the URL |
| ImageExtractor.ParseDataUrlOf | server/src/services/ImageExtractor.js:82-88 | every well-formed data URL parses back into its parts |
| ImageExtractor.WordRunOf | server/src/services/ImageExtractor.js:82 | a word run ended by a non-word character has exactly its length |
| ImageExtractor.NumeralLength | server/src/services/ImageExtractor.js:92 | the numeral at the start is never longer than the text |
| ImageExtractor.NumeralLengthOf | server/src/services/ImageExtractor.js:92 | a numeral followed by a non-digit is read back whole |
| ImageExtractor.NumeralThenDelimiter | server/src/services/ImageExtractor.js:92 | a numeral ended by a delimiter is read back unambiguously |
| ImageExtractor.IntToStringInjective | server/src/services/ImageExtractor.js:92 | different page indices render differently |
| ImageExtractor.IntToStringNumeral | server/src/services/ImageExtractor.js:92 | a page index renders as a numeral |
| ImageExtractor.FileNamesDistinct | server/src/services/ImageExtractor.js:92 | two images get the same file name only when they are the same image of the same page with the same extension, so no file overwrites another |
| ImageExtractor.NatToStringNumeral | server/src/services/ImageExtractor.js:92 | an image index renders as a numeral |
| ImageExtractor.NamePartsEqual | server/src/services/ImageExtractor.js:92 | names built from numerals split back into their parts |
| ImageExtractor.SaveBase64Image | server/src/services/ImageExtractor.js:80-102 | a URL the pattern rejects throws; otherwise the save succeeds exactly when the write does, and the paths name the file after the page, the image and the extension |
| ImageExtractor.ImageCount | server/src/services/ImageExtractor.js:34 | the number of image nodes, never more than the nodes |
| ImageExtractor.RewriteNodes | server/src/services/ImageExtractor.js:34-59 | the page keeps its number of nodes |
| ImageExtractor.RewriteChangesOnlyDataImages | server/src/services/ImageExtractor.js:41-52 | only data-URL image nodes change, and a changed node keeps its id, type, position and alternative text and points at the document's image API |
| ImageExtractor.NoDataImagesNoChange | server/src/services/ImageExtractor.js:41 | a page without data-URL images is left as it is and saves nothing |
| ImageExtractor.PathsPerImage | server/src/services/ImageExtractor.js:36-58 | at most one file per image node |
| ImageExtractor.RewriteKeepsImageCount | server/src/services/ImageExtractor.js:36-52 | every node keeps its type, so the image indices stay put |
| ImageExtractor.NodeStepTwice | server/src/services/ImageExtractor.js:41-57 | a node already handled is left alone the second time |
| ImageExtractor.RewriteTwice | server/src/services/ImageExtractor.js:33-60 | extracting a page a second time changes nothing and saves nothing |
| ImageExtractor.ExtractPage | server/src/services/ImageExtractor.js:34-59 | the inner loop rewrites the page's nodes as the page-level rewrite does and collects its paths; nothing else about the page changes |
| ImageExtractor.SaveImageNode | server/src/services/ImageExtractor.js:41-57 | a saved image's node points at the file's API path; a failed save leaves the node as it is |
| ImageExtractor.RewriteStep | server/src/services/ImageExtractor.js:36-59 | the rewrite of a prefix grows by one node's step, and the image count by one exactly for an image node |
| ImageExtractor.ReplaceNext | server/src/services/ImageExtractor.js:52 | replacing the next node in place splits the list as the rewrite expects |
| ImageExtractor.PagesBefore | server/src/services/ImageExtractor.js:33 | every page among the first ones visited is collected |
| ImageExtractor.ExtractAndSave | server/src/services/ImageExtractor.js:18-69 | the count is the number of saved files; each page's nodes become their rewrite; the graph is written back exactly when a file was saved |
| ImageExtractor.ExtractPageStep | server/src/services/ImageExtractor.js:33-60 | one page of the outer loop adds that page's paths the first time it is met |
| ImageExtractor.NoPagesNothingExtracted | server/src/services/ImageExtractor.js:29-31 | a graph without pages extracts nothing |
| ImageExtractor.HasBase64Images | server/src/services/ImageExtractor.js:109-124 | true exactly when some image node of some page has a data URL |
| ImageExtractor.NothingToExtract | server/src/services/ImageExtractor.js:33-60 | without data-URL images no page changes and nothing is saved |
| StableSorting.WithKey | server/src/services/DocumentProcessor.js:70-72 | the elements with one key, in order, never more than the list |
| StableSorting.Insert | server/src/services/DocumentProcessor.js:70-72 | insertion adds exactly the element |
| StableSorting.StableSort | server/src/services/DocumentProcessor.js:70-72 | the sort is a permutation of its input |
| StableSorting.InsertSorted | server/src/services/DocumentProcessor.js:70-72 | inserting into a sorted list keeps it sorted |
| StableSorting.InsertStable | server/src/services/DocumentProcessor.js:70-72 | an inserted element goes after those with its key, and the order within every key is kept |
| StableSorting.StableSortSorted | server/src/services/DocumentProcessor.js:70-72 | the sort is in ascending order of the key |
| StableSorting.StableSortStable | server/src/services/DocumentProcessor.js:70-72 | elements with equal keys keep their order |
| StableSorting.SortedInit | server/src/services/DocumentProcessor.js:70-72 | a prefix of a sorted list is sorted |
| StableSorting.StableSortOfSorted | server/src/services/DocumentProcessor.js:70-72 | a sorted list is its own sort |
| StableSorting.InsertAfterAll | server/src/services/DocumentProcessor.js:70-72 | the last element of a sorted list goes last when inserted into the others |
| StableSorting.StableSortIdempotent | server/src/services/DocumentProcessor.js:70-72 | sorting twice is sorting once |
| PptxSlide.Children | server/src/services/pptxService.js:102-114 | only children with the tag, never more than the element has |
| PptxSlide.WithTag | server/src/services/pptxService.js:102-114 | only elements with the tag, never more than given |
| PptxSlide.ChildrenMembers | server/src/services/pptxService.js:102-114 | the children with a tag are exactly the element's children carrying that tag |
| PptxSlide.WithTagMembers | server/src/services/pptxService.js:102-114 | the elements kept are exactly the given ones carrying the tag |
| PptxSlide.TextValue | server/src/services/pptxService.js:119-121 | a run's text is its text when present; an element with no text, attributes or children gives the empty string |
| PptxSlide.RunsText | server/src/services/pptxService.js:114-124 | a paragraph without runs has empty text |
| PptxSlide.ParagraphTexts | server/src/services/pptxService.js:112-128 | one text per paragraph, in order |
| PptxSlide.BodyText | server/src/services/pptxService.js:130 | the shape's text is trimmed: empty, or starting and ending with a non-space |
| PptxSlide.RoleOf | server/src/services/pptxService.js:107-152 | a shape that contributes text contributes a non-empty text |
| PptxSlide.PlaceholderType | server/src/services/pptxService.js:135-141 | a shape without `nvSpPr` has no type; a type read comes from a `ph` element under `nvSpPr` and `nvPr`; reading throws only on such a `ph` element without attributes |
| PptxSlide.RoleOfShape | server/src/services/pptxService.js:107-152 | a shape is skipped exactly when it has no text body or blank text; otherwise its text is kept, and reading it throws exactly when its placeholder cannot be read |
| PptxSlide.TitleShape | server/src/services/pptxService.js:135-149 | a shape's text becomes the title exactly when it is not blank and its placeholder type is `ctrTitle` or `title` |
| PptxSlide.PartsOf | server/src/services/pptxService.js:105-154 | every content line is non-empty, and so is the title |
| PptxSlide.ReadParagraph | server/src/services/pptxService.js:114-124 | the loop over the runs computes the paragraph's text |
| PptxSlide.ReadBody | server/src/services/pptxService.js:108-130 | the loop over the paragraphs, then the trim, computes the shape's text |
| PptxSlide.ReadShape | server/src/services/pptxService.js:107-152 | one shape of the loop computes that shape's role |
| PptxSlide.LinesStep | server/src/services/pptxService.js:125-127 | each further paragraph adds its text and a line break exactly when it is not blank |
| PptxSlide.ParseSlide | server/src/services/pptxService.js:95-160 | the loop over the shapes computes the slide the title rule gives |
| PptxSlide.PartsStep | server/src/services/pptxService.js:105-154 | each further shape updates the title or adds a content line as its role says |
| PptxSlide.PartsThrownStays | server/src/services/pptxService.js:105-154 | once reading a slide has thrown, further shapes change nothing |
| PptxSlide.BodyTextEmptyIff | server/src/services/pptxService.js:125-131 | a shape's text is empty exactly when each of its paragraphs is blank |
| PptxSlide.LinesBlankIff | server/src/services/pptxService.js:125-130 | the joined lines are blank exactly when every paragraph is blank |
| PptxSlide.BlankConcat | server/src/services/pptxService.js:125-130 | a concatenation is blank exactly when both parts are |
| PptxSlide.Roles | server/src/services/pptxService.js:105 | one role per shape |
| PptxSlide.PartsOfRoles | server/src/services/pptxService.js:105-154 | reading the shapes throws exactly when some shape's role throws, and otherwise keeps the last title text and every other text in order |
| PptxSlide.TitleRule | server/src/services/pptxService.js:156-159 | the last title text unless it is the default; otherwise the first content line, which then leaves the content; otherwise the default title and no content |
| PptxSlide.TitleNotEmpty | server/src/services/pptxService.js:156-159 | a slide read without error never has an empty title |
| PptxSlide.SlideOf | server/src/services/pptxService.js:95-160 | a text the XML reader rejects throws; a slide read has a title; a slide without shapes is `Untitled Slide` with no content |
| PptxService.StripPrefix | server/src/services/pptxService.js:7 | the result holds no colon |
| PptxService.StripPrefixPlain | server/src/services/pptxService.js:7 | a name without a prefix is kept |
| PptxService.StripPrefixQualified | server/src/services/pptxService.js:7 | a prefixed name loses its prefix, however many colons the prefix holds |
| PptxService.SplitLastPiece | server/src/services/pptxService.js:7 | the last piece of a split is what follows the last separator |
| PptxService.SlidePath | server/src/services/pptxService.js:49-52 | every slide path lies under `ppt/` |
| PptxService.SlidePathAbsolute | server/src/services/pptxService.js:49-52 | an absolute target under `ppt/` loses its leading slash |
| PptxService.SlidePathAbsoluteOutside | server/src/services/pptxService.js:49-52 | an absolute target outside `ppt/` is moved under it |
| PptxService.SlidePathRelative | server/src/services/pptxService.js:49-52 | a relative target not under `ppt/` is taken under it |
| PptxService.RelMapOf | server/src/services/pptxService.js:32-39 | building the map throws exactly when a relationship has no attributes; otherwise every relationship's id is a key |
| PptxService.SlideIdList | server/src/services/pptxService.js:24 | a document that is not a presentation lists no slide; every listed entry has the entry tag and is a child of a list element of the presentation |
| PptxService.Relationships | server/src/services/pptxService.js:33 | a document that is not a relationships part gives none; otherwise exactly its `Relationship` children |
| PptxService.DigitRun | server/src/services/pptxService.js:72 | the length of the maximal run of digits from the position |
| PptxService.FirstMatch | server/src/services/pptxService.js:72 | the first position from which the pattern matches, none only when it matches nowhere |
| PptxService.SlideFilePattern | server/src/services/pptxService.js:71-73 | the first pattern adds nothing to the second: a name is kept exactly when `slides/slide` digits `.xml` occurs in it |
| PptxService.DigitValue | server/src/services/pptxService.js:79 | one digit is worth less than ten |
| PptxService.SlideFiles | server/src/services/pptxService.js:71-73 | exactly the archive names that look like slide files |
| PptxService.FallbackNames | server/src/services/pptxService.js:71-82 | every fallback file is in the archive and looks like a slide file |
| PptxService.ParseAll | server/src/services/pptxService.js:85-89 | one slide per file when none fails |
| PptxService.BuildRelMap | server/src/services/pptxService.js:32-39 | the `forEach` over the relationships builds the map |
| PptxService.RelMapThrownStays | server/src/services/pptxService.js:34-39 | once a relationship has thrown, the map is never built |
| PptxService.ReadListed | server/src/services/pptxService.js:41-60 | the loop over the slide list reads what the listed pass reads |
| PptxService.PassUnfold | server/src/services/pptxService.js:41-60 | one more entry of the slide list is one more step of the pass |
| PptxService.PassBounded | server/src/services/pptxService.js:41-60 | the pass reads at most one slide per entry, each with a title |
| PptxService.Primary | server/src/services/pptxService.js:19-64 | a missing or unreadable presentation or relationships part gives no slide (the error is caught); otherwise never more slides than listed entries, each with a title |
| PptxService.FailedPassStays | server/src/services/pptxService.js:41-64 | once the pass has thrown, later entries add nothing |
| PptxService.ReadPresentation | server/src/services/pptxService.js:19-64 | the `try` block reads the slides of the presentation pass |
| PptxService.ExtractSlides | server/src/services/pptxService.js:14-93 | the method returns the slides the model of `extractSlides` gives |
| PptxService.ReadFiles | server/src/services/pptxService.js:85-89 | the fallback's loop reads every file in turn |
| PptxService.ParseAllThrownStays | server/src/services/pptxService.js:85-89 | once a file cannot be read, the whole reading throws |
| PptxService.FallbackOnlyWhenEmpty | server/src/services/pptxService.js:66-90 | slides read from the presentation are returned as they are; only when none were read are the slide files scanned, in number order |
| PptxService.DigitCharValue | server/src/services/pptxService.js:79 | each digit character stands for its digit |
| PptxService.DigitsValueOfNat | server/src/services/pptxService.js:79 | reading a rendered number gives the number back |
| PptxService.DigitRunOf | server/src/services/pptxService.js:77-78 | a run of digits followed by a non-digit is counted exactly |
| PptxService.SlideFileNumber | server/src/services/pptxService.js:71-80 | the file of slide `n` is a slide file numbered `n` |
| PptxService.NumberedNameMatches | server/src/services/pptxService.js:72-78 | in a numbered slide file name, both patterns find the number where it is |
| PptxService.NoEarlierSlideWord | server/src/services/pptxService.js:77 | before the file part, `slide` only occurs in `slides/`, which no digit follows |
| PptxService.SlideWordAt | server/src/services/pptxService.js:77 | in `ppt/slides/slide`, `sl` starts only at positions 4 and 11 |
| PptxService.FirstMatchAt | server/src/services/pptxService.js:77 | the first match is the first position that matches |
| PptxService.FallbackByNumber | server/src/services/pptxService.js:76-82 | in the fallback, a file with a smaller number comes first, whatever the archive order |
| PptxService.SmallerSlideFirst | server/src/services/pptxService.js:76-82 | `slide2.xml` is read before `slide10.xml`: slide files come in numeric, not lexical, order |
| PptxService.ListedSlides | server/src/services/pptxService.js:41-60 | one slide per listed entry, in list order |
| PptxService.PassInListOrder | server/src/services/pptxService.js:41-60 | when every entry resolves, the pass reads one slide per entry in the presentation's order |
| PptxService.StandardListOrderKept | server/src/services/pptxService.js:24-60 | with the names PresentationML uses, a presentation whose listed slides all resolve is read in its own order |
| PptxService.WrittenNamesMissStandardList | server/src/services/pptxService.js:24-43 | with the names as written, a presentation listing its slides under `sldIdLst` gives no list, so the slides always come from the fallback in number order |
| FileProcessing.CheckFileType | server/src/services/fileProcessingService.js:23-51 | an accepted file is either of an allowed type or reported as a PPTX file |
| FileProcessing.CheckFileTypeDecision | server/src/services/fileProcessingService.js:36-50 | an allowed type is returned as detected; any other is accepted, as PPTX, exactly when it is a zip archive or unrecognised and its path ends in `.pptx` or `.ppt` in any case; everything else throws |
| FileProcessing.GenericBinaryKept | server/src/services/fileProcessingService.js:33-36 | a generic binary file is allowed as it is, whatever its extension |
| FileProcessing.ZippedDeckAccepted | server/src/services/fileProcessingService.js:39-45 | `deck.PPTX` reported as a zip archive is a PPTX file |
| FileProcessing.ExtractTextFromPdf | server/src/services/fileProcessingService.js:58-69 | the loop over the pages builds the pages' text |
| FileProcessing.PdfTextAppend | server/src/services/fileProcessingService.js:63-67 | the text of two runs of pages is the first's followed by the second's |
| FileProcessing.PdfTextPage | server/src/services/fileProcessingService.js:66 | one page gives its items joined by spaces and a line break |
| FileProcessing.Collapse | server/src/services/fileProcessingService.js:81 | no two whitespace characters in a row and only plain spaces remain; the result is empty, or starts with whitespace, exactly when the input does |
| FileProcessing.CleanText | server/src/services/fileProcessingService.js:76-85 | the cleaned text has no whitespace at either end |
| FileProcessing.SliceKeeps | server/src/services/fileProcessingService.js:81 | a slice keeps the absence of doubled whitespace |
| FileProcessing.TrimKeeps | server/src/services/fileProcessingService.js:81 | trimming keeps the absence of doubled whitespace |
| FileProcessing.CleanTextShape | server/src/services/fileProcessingService.js:81 | the cleaned text has no whitespace at either end, no two whitespace characters in a row, and only plain spaces |
| FileProcessing.CollapseFixed | server/src/services/fileProcessingService.js:81 | text already in that shape is left alone by collapsing |
| FileProcessing.TrimFixed | server/src/services/fileProcessingService.js:81 | a trimmed text is its own trim |
| FileProcessing.CleanTextIdempotent | server/src/services/fileProcessingService.js:76-85 | cleaning twice is cleaning once |
| FileProcessing.NonSpacesTrimStart | server/src/services/fileProcessingService.js:81 | leading whitespace holds no other character |
| FileProcessing.NonSpacesAppend | server/src/services/fileProcessingService.js:81 | the non-space characters of a concatenation are those of its parts |
| FileProcessing.NonSpacesTrimEnd | server/src/services/fileProcessingService.js:81 | trailing whitespace holds no other character |
| FileProcessing.NonSpacesCollapse | server/src/services/fileProcessingService.js:81 | collapsing keeps every non-space character, in order |
| FileProcessing.CleanTextKeepsText | server/src/services/fileProcessingService.js:76-85 | cleaning keeps every non-space character, in order |
| ExportRoute.DecodeEntities | server/src/api/v1/export.routes.js:12-21 | decoding never lengthens a text: each entity becomes one character |
| ExportRoute.ReplaceShortens | server/src/api/v1/export.routes.js:14-20 | replacing a pattern with a shorter text never lengthens a text |
| ExportRoute.DecodeWithoutAmpersand | server/src/api/v1/export.routes.js:12-21 | a text with no ampersand is left as it is |
| ExportRoute.ReplaceMissesHead | server/src/api/v1/export.routes.js:14-20 | a pattern that does not match at the only ampersand leaves the text as it is |
| ExportRoute.AmpersandDecodedLast | server/src/api/v1/export.routes.js:20 | `&amp;` is decoded last, so `&amp;lt;` becomes `&lt;`, not `<` |
| ExportRoute.PreparedHtml | server/src/api/v1/export.routes.js:25-31 | HTML that does not look encoded, or has no ampersand, is used as it is |
| ExportRoute.FindFrom | server/src/api/v1/export.routes.js:88 | the first occurrence from a position, none only when there is none |
| ExportRoute.LastBefore | server/src/api/v1/export.routes.js:88 | the last occurrence before a bound, none only when there is none |
| ExportRoute.LowerAppend | server/src/api/v1/export.routes.js:88 | lower case distributes over concatenation |
| ExportRoute.LowerBody | server/src/api/v1/export.routes.js:88 | lower-casing a body element lower-cases its tags, attributes and content in place |
| ExportRoute.BodyPositions | server/src/api/v1/export.routes.js:88 | the pattern finds the parts of a lower-cased body element where they are |
| ExportRoute.BodyInner | server/src/api/v1/export.routes.js:88 | no match without a `<body` tag in any case; a match implies both tags occur, and the content is shorter than the HTML by at least both tags |
| ExportRoute.DocxHtml | server/src/api/v1/export.routes.js:87-91 | without a `<body` tag the whole HTML is converted; what is converted is never longer than the HTML |
| ExportRoute.DocxTakesBody | server/src/api/v1/export.routes.js:87-91 | a body element in any case and with any attributes gives exactly its content |
| ExportRoute.EscapeChar | server/src/api/v1/export.routes.js:123 | one escaped character is never empty and holds no line break |
| ExportRoute.Escape | server/src/api/v1/export.routes.js:123 | an escaped string holds no line break |
| ExportRoute.Quote | server/src/api/v1/export.routes.js:123 | a quoted string is enclosed in double quotes and holds no line break |
| ExportRoute.HexValue | server/src/api/v1/export.routes.js:123 | a hexadecimal digit is read back as its value |
| ExportRoute.Step | server/src/api/v1/export.routes.js:123 | reading one escaped character takes a positive number of characters, never more than there are |
| ExportRoute.StepEscaped | server/src/api/v1/export.routes.js:123 | an escaped character is read back in one step |
| ExportRoute.StepControl | server/src/api/v1/export.routes.js:123 | a control character without a one-letter escape is read back from its six-character form |
| ExportRoute.UnescapeChar | server/src/api/v1/export.routes.js:123 | an escaped character followed by escaped text is read back one character at a time |
| ExportRoute.UnescapeEscape | server/src/api/v1/export.routes.js:123 | unescaping undoes escaping: a quoted cell stands for exactly its string |
| ExportRoute.QuoteEscapesWithBackslash | server/src/api/v1/export.routes.js:123 | a double quote inside a cell is escaped with a backslash, as JSON does, where RFC 4180 section 2 doubles it |
| ExportRoute.Stringify | server/src/api/v1/export.routes.js:123 | the JSON text of a value holds no line break |
| ExportRoute.ItemsText | server/src/api/v1/export.routes.js:123 | the JSON text of array elements holds no line break |
| ExportRoute.FieldsText | server/src/api/v1/export.routes.js:123 | the JSON text of object fields holds no line break |
| ExportRoute.Cell | server/src/api/v1/export.routes.js:123 | a cell holds no line break |
| ExportRoute.Cells | server/src/api/v1/export.routes.js:123 | one cell per header, in header order |
| ExportRoute.RowLine | server/src/api/v1/export.routes.js:123 | a row's line holds no line break |
| ExportRoute.JoinAvoids | server/src/api/v1/export.routes.js:122-125 | joining pieces and a separator free of a character gives text free of it |
| ExportRoute.CsvText | server/src/api/v1/export.routes.js:120-125 | building the CSV of a non-empty list throws exactly when the first row is `null`/`undefined` (`Object.keys` throws), or the first row has keys and some row is `null`/`undefined` (`row[header]` throws) |
| ExportRoute.SplitJoined | server/src/api/v1/export.routes.js:125 | splitting on a separator that no piece contains gives the pieces back |
| ExportRoute.CsvLines | server/src/api/v1/export.routes.js:120-125 | one line more than there are rows: the first names the first row's keys, and each further one is that row's cells in header order |
| ExportRoute.ExportRows | server/src/api/v1/export.routes.js:105-109 | the rows are the data, its quiz or its cards |
| ExportRoute.PreparedEmpty | server/src/api/v1/export.routes.js:25-31 | the prepared HTML is empty exactly when the request's is |
| ExportRoute.ReplaceNonEmpty | server/src/api/v1/export.routes.js:14-20 | replacing with non-empty text never empties a text |
| ExportRoute.DecodeNonEmpty | server/src/api/v1/export.routes.js:12-21 | decoding never empties a text |
| ExportRoute.ExportRefusals | server/src/api/v1/export.routes.js:34-37 | a PDF or Word export without HTML is refused with 400, and so is an unknown format |
| ExportRoute.Export | server/src/api/v1/export.routes.js:23-137 | each kind of answer comes only from its format: a PDF only when rendered, a CSV or a throw only for CSV; every refusal is 400 except the 500 of a PDF that did not render |
| ExportRoute.CsvOutcome | server/src/api/v1/export.routes.js:103-129 | not a list: 400; an empty list: 400; a list whose CSV throws: the error reaches `next`; otherwise the CSV is sent as `<name>.csv` |
| ExportRoute.CsvExport | server/src/api/v1/export.routes.js:103-129 | a CSV request: data that is not a list, or an empty list, is refused with 400; it throws exactly when the first row is `null` or `undefined`, or the first row has keys and some row is `null` or `undefined`; otherwise the rows' CSV is sent |
| ExportRoute.NullRowThrows | server/src/api/v1/export.routes.js:123 | a `null` second row under a first row with keys makes the export throw |
| ExportRoute.QuizRowsUnwrapped | server/src/api/v1/export.routes.js:108 | a quiz export lists the quiz's questions when the data holds any |
| ExportRoute.DocxExport | server/src/api/v1/export.routes.js:83-101 | a Word export converts only the body's content when there is a body, after decoding when the HTML looks encoded |
| QuizRoute.AnalyzeText | server/src/api/v1/quiz.routes.js:24-47 | an empty text has no words, no reading time, a suggestion of 5 and no maximum |
| QuizRoute.Analyze | server/src/api/v1/quiz.routes.js:15-52 | without a file id the given text is analysed; with one, the request fails exactly when the document is missing |
| QuizRoute.DensityBounds | server/src/api/v1/quiz.routes.js:32-40 | for a non-empty text the reading time is the word count over 200 rounded up, the suggestion lies in 5..50, the maximum in 20..100, and the suggestion never exceeds the maximum |
| QuizRoute.EmptyAgreesExceptMax | server/src/api/v1/quiz.routes.js:24-40 | the empty text's answer agrees with the formula at no words, except that it leaves out the maximum the formula puts at 20 |
| QuizRoute.DensityMonotone | server/src/api/v1/quiz.routes.js:32-40 | more words never lower the reading time, the suggestion or the maximum |
| QuizRoute.Density | server/src/api/v1/quiz.routes.js:32-40 | the reading time is the word count over 200 rounded up; the suggestion lies in 5..50 and the maximum in 20..100 |
| QuizRoute.BlocksIffRequested | server/src/api/v1/quiz.routes.js:65-77 | each type's instruction block is included exactly when the type is requested, once, in the fixed order |
| QuizRoute.ChoicesOf | server/src/api/v1/quiz.routes.js:63 | without settings the defaults are multiple choice, medium and 10; a given count is used, else 10 |
| QuizRoute.Truncated | server/src/api/v1/quiz.routes.js:128-130 | a longer quiz is cut to its first `count` questions; a shorter one is kept |
| QuizRoute.LongTextQueued | server/src/api/v1/quiz.routes.js:105-116 | a long text or a background request is queued with the text and the prompt when the queue is reachable, and the AI service is not asked |
| QuizRoute.QuizReply | server/src/api/v1/quiz.routes.js:119-132 | otherwise the parsed reply comes back with its quiz truncated |
| QuizRoute.QuizTruncated | server/src/api/v1/quiz.routes.js:119-132 | the quiz sent back is the first `min(count, n)` questions the AI service wrote, and the reply's other fields are unchanged |
| QuizRoute.NoQuizFails | server/src/api/v1/quiz.routes.js:121-125 | a reply that does not parse, or has no quiz, is an error |
| QuizRoute.Answer | server/src/api/v1/quiz.routes.js:119-132 | no parsed reply or no quiz is an error; a quiz reply carries the parsed quiz cut to `count` questions and every other field as parsed; an answer is never a queued job |
| QuizRoute.Generate | server/src/api/v1/quiz.routes.js:54-137 | a missing document fails; a queued job only happens with the queue reachable, carrying the job id and the prompt of the settings, and for a text only when it is long or in the background; without the queue the reply is the parsed AI answer |
| VectorStoreCache.WithoutDistinct | server/src/services/vectorStoreService.js:23 | removing a key keeps the others distinct |
| VectorStoreCache.GetKeepsWellFormed | server/src/services/vectorStoreService.js:15-45 | every lookup keeps each key listed once and never more than 50 entries |
| VectorStoreCache.GetVectorStore | server/src/services/vectorStoreService.js:15-45 | a live entry is served and only its time refreshed, other entries and the key order unchanged; otherwise the disk's answer is returned, and with nothing on disk the key is not cached |
| VectorStoreCache.DropFirstKeeps | server/src/services/vectorStoreService.js:37-40 | evicting the oldest key leaves exactly the other keys, distinct |
| VectorStoreCache.GetLive | server/src/services/vectorStoreService.js:17-22 | an entry younger than thirty minutes is served without the disk, and only its time is refreshed; the key order is unchanged |
| VectorStoreCache.GetNothingOnDisk | server/src/services/vectorStoreService.js:23-44 | with no live entry and no index on disk the result is null and an expired entry is gone |
| VectorStoreCache.GetLoads | server/src/services/vectorStoreService.js:27-42 | a loaded index is returned and cached as the newest entry, timed now |
| VectorStoreCache.EvictsEarliestInserted | server/src/services/vectorStoreService.js:36-40 | a load into a full cache evicts the key inserted earliest, even when it was served most recently: the eviction is first in, first out |
| VectorStoreCache.ServedEntryStillEvicted | server/src/services/vectorStoreService.js:17-40 | serving the oldest entry and then loading a new document into the full cache still evicts the entry just served |
| VectorStoreCache.VectorStoreCacheMap.constructor | server/src/services/vectorStoreService.js:7 | the cache starts empty |
| VectorStoreCache.VectorStoreCacheMap.Get | server/src/services/vectorStoreService.js:15-45 | the method returns and leaves the cache as the lookup specifies, and keeps it well formed |
| Common.Toggle | src/components/Flashcards.tsx:28-30 | the element changes membership and every other element keeps its membership |
| Common.ToggleTwice | src/components/Flashcards.tsx:28-30 | two toggles of the same element restore membership, and restore the list itself when the element was absent |
| Common.CeilDiv | server/src/api/v1/quiz.routes.js:33 | `a / b` rounded up: the least `r` with `r * b >= a` |
| Common.TrimEmptyIffBlank | server/src/services/StructuredChunker.js:26 | a string trims to nothing exactly when every character is whitespace |
| Common.SplitJoin | server/src/api/v1/export.routes.js:125 | splitting then joining with the same separator gives the text back, with one piece more than there are separators |

## Left out

- File and process plumbing in the migration scripts (walking directories, copying, reading, writing and deleting files, running `npx sucrase`): only the per-file text functions are modelled.
- Regular expressions are not modelled in general. Each pattern the scripts use is written out as a matcher.
- Common.IsSpace narrows Python's Unicode `\s` and `str.strip()` and JavaScript's `\s` and `trim()` to the six characters space, `\t`, `\n`, `\r`, `\v` and `\f`. A no-break space (U+00A0) counts in all of the source's classes and not in the model's. The ASCII separators U+001C to U+001F count as whitespace for Python, so in the transform_ts.py and strip_types.py matchers, but not for JavaScript or the model.
- Common.IsWordChar narrows Python's Unicode `\w` to ASCII letters, digits and `_`: an accented letter counts in the source's class and not in the model's. `toLowerCase` is narrowed to ASCII letters in the same way.
- TransformTs.AnnotationRemoved: states the removal of a one-word annotation. The `React.X<…>`, dotted, generic and `[]` forms of the pattern are modelled, but no lemma states their removal.
- StripTypes.RewriteLine: the `React.X` pass (strip_types.py:31) and the strip script's own `useState<…>` and type parameter passes (:35, :41) have no removal lemma of their own. The last two use the same matchers as transform_ts.py, where `StateHookCollapsed` and `TypeParamsDropped` state them.
- Strings are sequences of characters. JavaScript lengths count UTF-16 code units, and lone surrogates are not modelled.
- Network and asynchronous I/O are left out: `fetch`, project sync, the streaming API and `setTimeout`. Only the state these calls produce is modelled, with what they return as a parameter. The interleaving of concurrent calls is not modelled.
- TabSlice.UpdateRevisionsFromSync: a dotted sync key whose module part names no mode is skipped. The source writes it to a stray `<x>Revisions`/`<x>Data` store field that nothing reads (src/store/slices/tabSlice.ts:306-311); those stray fields are not modelled.
- The revision delete and rename calls and `deleteTab` are left out (src/store/slices/tabSlice.ts:221-300). They are server requests followed by a reload.
- Some one-field setters have nothing to prove beyond the assignment and are left out: the other settings setters (src/store/slices/settingsSlice.ts:88-98), and `setFileId`, `setFileType`, `setStats` and `setPdfSearchText` (src/store/slices/projectSlice.ts:40-43).
- Toasts, alerts, console output and the error log are not modelled.
- In the left sidebar, formatting with a template, applying a template and going back to the import screen are API calls and navigation, and are left out.
- The summary view's clipboard write and its Markdown rendering (`marked`) are left out. The rendered Markdown is a parameter.
- Clocks, random draft ids and UUIDs are parameters: SRS due dates, "today" in the activity log, the cache clock and timestamps. `getVectorStore` reads the clock once per call. A project load takes one random part and one time for all content modules, so every module's imported draft gets the same id, where the source draws `Date.now()`/`Math.random()` once per module; no modelled property depends on these ids differing.
- SRS ease and the rectangle maths use `real`; IEEE rounding is not reproduced.
- `JsValue.NumberText` prints an integral number as its digits. For a non-integral number it prints only the integer part and the point, not the fraction digits JavaScript prints.
- `JSON.parse` is a parameter of the AI-JSON extraction: it gives `None` where the parser throws.
- The PDF and PPTX extractors (pdfjs, JSZip and xml2js) are left out. A document graph, a slide's parsed XML or a relationships map arrives as a value.
- Relationship keys that name `Object.prototype` members are not modelled.
- `parseInt` is modelled on digit runs, with unbounded precision.
- Shapes nested inside group shapes on a slide are not visited.
- The `file-type` sniffer is a parameter: the type it reports.
- The `application/octet-stream` clause at server/src/services/fileProcessingService.js:43 can never be reached: `application/octet-stream` is an allowed type, so such an upload is accepted as detected before the extension test (`FileProcessing.GenericBinaryKept`). It is modelled as written.
- Base64 decoding (`Buffer.from`) and `path.join` normalisation are not modelled. An image's bytes are its base64 text, and paths are joined with `/`.
- Whether writing an image file succeeds is a parameter.
- ImageExtractor: the node filter and the save loop are fused into one pass, which is observably the same.
- Puppeteer and html-to-docx are left out. The `rendered` parameter of `ExportRoute.Export` says whether the PDF renderer succeeded. A DOCX body is the extracted HTML.
- Content or HTML that is not a string in an export request is not modelled.
- ExportModal.RequestBody: posts the page of the corrected renderer (ExportModal.ModalHtml). The code as written posts flashcard rows with empty cells (ExportModal.FlashcardCellsEmptyAsWritten, under Findings).
- ProjectExport.ExportBody: posts the page of the corrected lookup (ProjectExport.ExportData). The code as written posts the no-content page for a saved revision (ProjectExport.RevisionExportLosesData, under Findings).
- ExportRoute.CsvText: `Object.keys` of a first row that is an array or a string lists its indices; the model's `Keys` gives none for anything but an object.
- Template-literal whitespace, CSS and `style` attributes in the HTML renderers are dropped: the model keeps the tags and the text.
- JSX rendering and layout are left out throughout. Only the handlers and the values they compute are modelled.
- QuizRoute.ChoicesOf: `questionCount` is a natural number; a non-integral or negative count is not modelled.
- The quiz route's fixed prompt wording is left out; the instruction blocks it assembles are modelled.
- FaissStore and the disk are parameters of the vector-store cache: the index a load finds, or none.
- Merging.MergeNotes: its own contract states the result's shape only. The section contents are stated by `Merging.MatchedSectionUnion` and `Merging.UnmatchedSectionAppended`.
- Merging: `mergeNotes` assigns `existingSec.points` on the old section objects in place. The model returns new values, so the aliasing is not modelled.
- DocumentGraph: `ContentNode` is a value, not an object. A node shared between two pages is not modelled. `ContentNode` also leaves out the node's `source`, and `Position` its `width` and `height` (server/src/models/DocumentGraph.js:5-6, 26-31); no modelled operation reads them.
- Writing a processed document's graph to disk is left out.

## Findings

| source | as written | input that shows it | evidently intended | confidence | as-written member | corrected member |
|---|---|---|---|---|---|---|
| src/components/ExportModal.tsx:62-63 | flashcard table rows read `front` and `back` | a card `{question: "Q", answer: "A"}`: both cells are empty | the rows show the card's `question` and `answer` | not executed | ExportModal.FlashcardCellsEmptyAsWritten | ExportModal.ModalHtml |
| src/components/dashboard/ProjectExportAction.tsx:195 | exporting a saved revision reads `revision.content`, a field revisions do not have | any selected revision: the exported data is `undefined`, so the rendered page shows no content | the revision's `data` is exported | not executed | ProjectExport.RevisionExportLosesData | ProjectExport.ExportData |
| server/src/utils/scoping.js:42 | a pages scope keeps page `i` when the scope's list contains `i + 1` | the range selector sends `[2, 5]`: only pages 2 and 5 are kept, and pages 3 and 4 are dropped | every page from the first to the last | not executed | Scoping.PagePairSkipsMiddle | Scoping.RangedPagesKept |
| server/src/services/pptxService.js:24-43 | the slide list is read from `slideIdLst`, `slideId` and the `id` attribute | `<p:presentation><p:sldIdLst><p:sldId id="256" r:id="rId2"/></p:sldIdLst></p:presentation>`: no slide is found in the list, so the file-name fallback order is used | the PresentationML names `sldIdLst`, `sldId` and `r:id` give the slide order | not executed | PptxService.WrittenNamesMissStandardList | PptxService.StandardListOrderKept |
