# TypeComposer documentation site: verified model of its logic

This project models, in Dafny, the parts of the TypeComposer documentation site that carry logic. It proves properties of each.

- **The playground's in-browser compiler** (`BrowserCompiler`, `browser_compiler.dfy`):
  - `resolvePath`, which collapses `.` and `..`;
  - the `onResolve` and `onLoad` hooks of the virtual-file plugin, over a file store;
  - `findEntryPoint` and `getLoader`;
  - the error shape of `compileFiles`;
  - the once-only `initializeEsbuild`.
  The esbuild engine is an uninterpreted function parameter: it produces output files or throws a message. The failure of `esbuild.initialize` is a parameter too.
- **The playground's preview controller** (`Playground`, `playground_view.dfy`):
  - a class holding `isCompiling`, the error panel's class and text, the file sets handed to the compiler, and the documents injected into the iframe;
  - the re-entrancy guard of `compileAndRun`, which is split at its `await` into `StartCompile` and `FinishCompile`;
  - `showError`, `hideError` and `updateFiles`;
  - the preview document of `createIframeHTML`.
- **The previous/next page links** (`Navigation`, `navigation.dfy`):
  - the lookup key taken from the location hash;
  - `getPath` as a method over the sidebar array. It rewrites, in place, each section that has a link. It is specified by a left-to-right fold `Scan` over the flattened items.
- **The search indexer's text helpers** (`SearchIndex`, `index_algolia.dfy`):
  - `extractTitle`, `extractContent` and `extractHierarchy`;
  - the record that `indexDocumentation` builds for each page, including its `docPath`, `objectID`, `path` and `url`.
- `Strings` (`strings.dfy`) writes out the JavaScript string primitives the code calls, on `seq<char>`. `Wrappers` (`wrappers.dfy`) holds the `Option` type.

The model follows the code as written:
- An import that no probe resolves does not fail. `onResolve` hands it back in namespace `virtual`, and `onLoad` serves it as an empty JavaScript module (`UnresolvedLoadsEmpty`).
- The playground has no debounce. Every `updateFiles` call that does not overlap a compilation in flight compiles at once. One that overlaps is dropped, not queued.

## Model

| member | source | states |
|---|---|---|
| Strings.SplitOn | src/utils/browserCompiler.ts:221-222 | `split('/')` yields at least one piece, no piece contains the separator, and joining the pieces with the separator gives the input back |
| Strings.SplitOnJoin | src/utils/browserCompiler.ts:232 | splitting the `join` of separator-free pieces gives the pieces back |
| Strings.JoinWith | src/utils/browserCompiler.ts:232 | `parts.join(c)`, a specification: `SplitOn` and `SplitOnJoin` state that it and `split` undo each other |
| Strings.IndexOf | src/utils/browserCompiler.ts:87 | `indexOf` finds an occurrence of the pattern, and no earlier position holds one; `None` means it occurs nowhere |
| Strings.ReplaceFirst | src/utils/browserCompiler.ts:87 | `s.replace(pat, rep)` with a string pattern, a specification: the first occurrence `IndexOf` finds is replaced, an empty pattern at 0; `AliasRewrite` and `DocPathOfPage` state what it gives for `'@/'` and `'.mdx'` |
| Strings.Trim | scripts/index-algolia.js:47 | `trim()` is no longer than its input, and neither its first nor its last character is white space |
| Strings.TrimCut | scripts/index-algolia.js:47 | `trim()` is a slice `s[a..a + n]` of its input, and every character cut before and after it is white space |
| Strings.TrimKeeps | scripts/index-algolia.js:62 | every character of `trim()`'s result is a character of the input, so any property of all input characters carries over |
| Strings.TrimDropSpaces | scripts/index-algolia.js:79 | dropping leading white space before `trim()` does not change the result |
| Strings.Lower | scripts/index-algolia.js:120 | `toLowerCase()` on ASCII letters: the length is kept, `A`-`Z` become `a`-`z` in place, and every other character is left as it is |
| BrowserCompiler.NonEmpty | src/utils/browserCompiler.ts:221-222 | `filter(Boolean)` keeps only non-empty strings, each taken from the input, and keeps every non-empty string of the input |
| BrowserCompiler.Segments | src/utils/browserCompiler.ts:221-222 | the segments are exactly the non-empty pieces of `split('/')`: each is such a piece, none is empty or holds a slash, and every non-empty piece is among them |
| BrowserCompiler.Step | src/utils/browserCompiler.ts:224-230 | one turn of the loop, a specification: `ApplyOrigin` and `DotDotAtRoot` state its cases |
| BrowserCompiler.Apply | src/utils/browserCompiler.ts:223-231 | the loop as a fold of `Step`, a specification: `ResolvePath` is proved equal to it, and `ApplyOrigin` and `ResolvedWithoutDotDot` state what it keeps |
| BrowserCompiler.ResolvedPath | src/utils/browserCompiler.ts:220-233 | the returned path, a specification: `ResolvePath` returns it, and `ResolvedSegments`, `ResolvedSegmentOrigin` and `ResolveIdempotent` state its segments |
| BrowserCompiler.ResolvePath | src/utils/browserCompiler.ts:220-233 | the push/pop loop computes the fold of `..` (pop, a no-op at the root), `.` (skip) and push over the relative segments; the result starts with `/` |
| BrowserCompiler.ApplyOrigin | src/utils/browserCompiler.ts:224-230 | every segment the loop leaves is a base segment, or a relative segment other than `.` and `..` |
| BrowserCompiler.ResolvedSegments | src/utils/browserCompiler.ts:221-232 | the segments of the returned path are exactly the array the loop left |
| BrowserCompiler.ResolvedSegmentOrigin | src/utils/browserCompiler.ts:224-232 | no segment of the result is empty or holds a slash; every segment is from the base or is a relative segment other than `.` and `..` |
| BrowserCompiler.ResolvedWithoutDotDot | src/utils/browserCompiler.ts:224-232 | without `..`, the result's segments are the base segments followed by the relative segments other than `.`, in order |
| BrowserCompiler.DotDotAtRoot | src/utils/browserCompiler.ts:225-226 | at the root, a leading `../` changes nothing, because popping an empty array does nothing |
| BrowserCompiler.ResolveIdempotent | src/utils/browserCompiler.ts:220-233 | resolving `.` against a resolved path gives that path back |
| BrowserCompiler.Candidates | src/utils/browserCompiler.ts:56-58 | the probed paths are `base + ext` for each suffix, in list order |
| BrowserCompiler.FirstPresent | src/utils/browserCompiler.ts:57-62 | the probe's result is a key, no earlier candidate is a key, and there is no result exactly when no candidate is a key |
| BrowserCompiler.Probe | src/utils/browserCompiler.ts:57-62 | the early-return loop returns the first candidate that is a key of the store |
| BrowserCompiler.ParentDir | src/utils/browserCompiler.ts:52 | `replace(/\/[^/]*$/, '')` cuts at the last slash: the result is the part before it, no slash follows it, and an importer without a slash is unchanged |
| BrowserCompiler.SpecifierClasses | src/utils/browserCompiler.ts:51-98 | the `startsWith` tests for `.` and `/` are decided by the first character, and `@/` implies a first `@`, so a specifier falls in at most one class |
| BrowserCompiler.ProbeRelative | src/utils/browserCompiler.ts:51-71 | a relative import probes the five extension suffixes of the resolved path, then the four index files |
| BrowserCompiler.Resolution | src/utils/browserCompiler.ts:49-103 | what `onResolve` returns, a specification: `OnResolve` is proved equal to it, and `RelativeResolution`, `NoIndexProbing`, `BareIsExternal` and `VirtualIsKeyOrSpecifier` state its cases |
| BrowserCompiler.OnResolve | src/utils/browserCompiler.ts:49-103 | the hook, branch by branch, equals the specification `Resolution` of the specifier, the importer and the store |
| BrowserCompiler.RelativeTargetIsAbsolute | src/utils/browserCompiler.ts:52-53 | the resolved target of a relative import starts with `/` |
| BrowserCompiler.RelativeResolution | src/utils/browserCompiler.ts:51-71 | a relative import resolves to the first key among the extension probes followed by the index probes, else to itself in namespace `virtual` |
| BrowserCompiler.NoIndexProbing | src/utils/browserCompiler.ts:75-95 | absolute and `@/` imports are virtual and are either themselves or `p + ext` for one of the five extensions, with `p` the path or its `/src/` rewrite; never an index file |
| BrowserCompiler.AliasRewrite | src/utils/browserCompiler.ts:87 | `@/` is replaced once, at the front, by `/src/` |
| BrowserCompiler.BareIsExternal | src/utils/browserCompiler.ts:98-100 | a result is external exactly for a specifier not starting with `.`, `/` or `@/`, and then its path is the specifier unchanged |
| BrowserCompiler.VirtualIsKeyOrSpecifier | src/utils/browserCompiler.ts:102 | a virtual result is a key of the store or else the specifier itself (the fall-through) |
| BrowserCompiler.UnresolvedLoadsEmpty | src/utils/browserCompiler.ts:102-119 | an unmatched relative, absolute or alias import resolves to itself in namespace `virtual`; if it is not a key, `onLoad` gives empty `js` contents |
| BrowserCompiler.OnLoad | src/utils/browserCompiler.ts:106-119 | the `onLoad` hook, a specification: `ResolvedLoadsFile` and `UnresolvedLoadsEmpty` state that a key loads its code with `getLoader` and anything else loads as empty `js` |
| BrowserCompiler.ResolvedLoadsFile | src/utils/browserCompiler.ts:106-115 | a path resolved to a key, by a probe or as the specifier itself, loads that key's code with `getLoader` of the path |
| BrowserCompiler.FoundIsAbsoluteKey | src/utils/browserCompiler.ts:51-95 | a path found by probing is a key and starts with `/` |
| BrowserCompiler.ReResolveKey | src/utils/browserCompiler.ts:75-80 | an absolute specifier that is a key resolves to itself, from any importer: the `''` probe finds it first |
| BrowserCompiler.ReResolution | src/utils/browserCompiler.ts:51-95 | resolving again, from any importer, the path found by probing, or an absolute specifier that is a key, gives that same file |
| BrowserCompiler.GetLoader | src/utils/browserCompiler.ts:209-215 | `ts`, `tsx`, `jsx` and `json` each hold exactly when the path ends with that extension; `js` holds exactly when it ends with none of them |
| BrowserCompiler.ProbeLoader | src/utils/browserCompiler.ts:209-215 | every probed extension and index file selects the loader of its own extension (`.js` selects `js`) |
| BrowserCompiler.FirstSourceFile | src/utils/browserCompiler.ts:199-203 | the fallback is the first key, in key order, under `/src/` with a `.ts/.tsx/.js/.jsx` ending; there is none exactly when no key passes the filter |
| BrowserCompiler.FindEntryPoint | src/utils/browserCompiler.ts:179-204 | the loops return the first present candidate in the priority order, else the first source key, else null |
| BrowserCompiler.EntryPoint | src/utils/browserCompiler.ts:179-204 | what `findEntryPoint` returns, a specification: `FindEntryPoint` is proved equal to it, and `EntryPointIsKey` and `EntryPointFallback` state its cases |
| BrowserCompiler.EntryPointIsKey | src/utils/browserCompiler.ts:179-204 | a non-null entry point is a key of the store |
| BrowserCompiler.EntryPointFallback | src/utils/browserCompiler.ts:198-203 | with no candidate present, the entry is the fallback, and it is null exactly when no key is a `/src/` source file |
| BrowserCompiler.ChosenEntry | src/utils/browserCompiler.ts:36 | `entryPoint || findEntryPoint(files)`, a specification: `CompileSuccess` and `NoEntryFailure` state how the choice decides the result |
| BrowserCompiler.RequestFor | src/utils/browserCompiler.ts:125-131 | the stdin request handed to esbuild, a specification: `CompileSuccess` and `ThrownBecomesFailure` state the result in terms of the engine's answer to it |
| BrowserCompiler.CompileWith | src/utils/browserCompiler.ts:35-173 | the body of `compileFiles` after initialisation, a specification: `CompileSuccess`, `NoEntryFailure` and `ThrownBecomesFailure` state each outcome, and `Esbuild.CompileFiles` returns it |
| BrowserCompiler.CompileSuccess | src/utils/browserCompiler.ts:125-167 | `compileFiles` succeeds exactly when an entry is chosen, is a key, and the engine emits at least one output file; the code is the first output file; with no output file the failure is "Compilation produced no output"; an entry that is not a key fails with the `TypeError` of `files[entry].code` |
| BrowserCompiler.NoEntryFailure | src/utils/browserCompiler.ts:36-42 | with no explicit entry and no entry found, the result is the fixed "No entry point found" failure |
| BrowserCompiler.ThrownBecomesFailure | src/utils/browserCompiler.ts:168-173 | an exception of the engine becomes a failure carrying its message |
| BrowserCompiler.Esbuild.constructor | src/utils/browserCompiler.ts:3 | the module starts with the flag cleared and no initialisation done |
| BrowserCompiler.Esbuild.InitializeEsbuild | src/utils/browserCompiler.ts:8-17 | the engine is initialised only while the flag is clear, so at most once; a rejection escapes and leaves the flag clear |
| BrowserCompiler.Esbuild.CompileFiles | src/utils/browserCompiler.ts:25-174 | never throws: an initialisation failure becomes `Failed(message)`, and otherwise the result is the specification `CompileWith` on the engine |
| Navigation.GetURL | src/components/navigation/Navigation.ts:5-7 | the hash is the result with one `#` put back in front exactly when the hash began with `#` |
| Navigation.LookupKey | src/components/navigation/Navigation.ts:43 | the key `getPath` looks for, a specification: `LookupKeyCases` states all four of its cases |
| Navigation.LookupKeyCases | src/components/navigation/Navigation.ts:43 | the key is the hash without one leading `#` and then one leading `/`, and nothing else is removed |
| Navigation.Normalized | src/components/navigation/Navigation.ts:49 | a section with a truthy link gets the single item `{title, link}`; any other section is unchanged |
| Navigation.Flatten | src/components/navigation/Navigation.ts:48-50 | the items the two loops visit, section by section after the rewrite, a specification: `FlattenSection`, `FlattenSameNormalForms` and `NormalFormsKept` state what each section adds |
| Navigation.FlattenSection | src/components/navigation/Navigation.ts:49-50 | a linked section contributes exactly `{title, link}` to the visited items; an unlinked one contributes its own items |
| Navigation.FlattenSameNormalForms | src/components/navigation/Navigation.ts:49 | sections with the same normal forms visit the same items |
| Navigation.Scan | src/components/navigation/Navigation.ts:43-62 | the locals `prevew`, `item` and `next` after a left-to-right pass over the items, a specification: `GetPath` returns its `prevew` and `next`, and `ScanPrevew`, `ScanNext`, `ScanNoNext`, `ScanNoMatch`, `ScanStops` and `ScanMembers` state their values |
| Navigation.ScanStops | src/components/navigation/Navigation.ts:56-58 | once `next` is set, the early return means later items change nothing |
| Navigation.ScanNoMatch | src/components/navigation/Navigation.ts:48-62 | with no item matching the key, `prevew` is the last item (or undefined for none), and `item` and `next` are undefined |
| Navigation.ScanAfterMatch | src/components/navigation/Navigation.ts:51-55 | after the first match, `prevew` is frozen and `item` stays set |
| Navigation.ScanPrevew | src/components/navigation/Navigation.ts:48-55 | with the first match at flattened index `k`, `prevew` is item `k - 1`, or undefined when `k` is 0 |
| Navigation.ScanNext | src/components/navigation/Navigation.ts:51-58 | `next` is the first item after the first match whose link differs from the key |
| Navigation.ScanNoNext | src/components/navigation/Navigation.ts:51-62 | if every item after the first match also matches, `next` is undefined |
| Navigation.ScanMembers | src/components/navigation/Navigation.ts:47-62 | any returned `prevew` or `next` is one of the visited items |
| Navigation.ScanItems | src/components/navigation/Navigation.ts:50-60 | the inner loop over one section's items continues the scan of the items before it, stopping at the first `next` |
| Navigation.RewriteOne | src/components/navigation/Navigation.ts:49 | the rewrite of section `i` touches that section only, and only before it is read |
| Navigation.ReturnedEarly | src/components/navigation/Navigation.ts:56-58 | a scan that returned within section `i` is the scan of the whole sidebar |
| Navigation.NormalFormsKept | src/components/navigation/Navigation.ts:49 | sections rewritten up to a point, and untouched after it, are each kept or normalised and visit the same items |
| Navigation.GetPath | src/components/navigation/Navigation.ts:39-63 | `prevew` and `next` are those of the scan over the flattened sidebar; every section is kept or rewritten to its normal form; the visited items are unchanged, so a second call gives the same links |
| SearchIndex.Lines | scripts/index-algolia.js:76 | the lines under the multi-line flag hold no `\n`, there is at least one, and joined with `\n` they give the text back |
| SearchIndex.CharRun | scripts/index-algolia.js:78 | `h.match(/^#+/)[0].length`, and the run `\n+` takes: the length of the maximal run of one character at the start |
| SearchIndex.CharRunOf | scripts/index-algolia.js:61 | a run of the character followed by any other character is counted in full |
| SearchIndex.SpaceRun | scripts/index-algolia.js:79 | the greedy `\s+`: the maximal run of leading white space |
| SearchIndex.HeadingOf | scripts/index-algolia.js:77-80 | the level is the count of leading `#`, at least 1, followed by white space |
| SearchIndex.HeadingOfText | scripts/index-algolia.js:79 | the text is the line after the `#` run and the greedy white space run, trimmed: `h.replace(/^#+\s+/, '').trim()` |
| SearchIndex.MarkerThenTrim | scripts/index-algolia.js:79 | removing the `#` run with any part of the white space after it and then trimming gives the same text, so `replace(/^#+\s+/, '').trim()` equals the model's text |
| SearchIndex.Headings | scripts/index-algolia.js:76-81 | the heading lines, in order, mapped to `{level, text}`, a specification: `HeadingsConcat`, `HeadingsComplete` and `HeadingsSound` state that it holds exactly one entry per heading line, in document order |
| SearchIndex.ExtractHierarchy | scripts/index-algolia.js:75-82 | `extractHierarchy`, a specification: the `Headings` lemmas, with `HeadingOf` and `HeadingOfText`, state each entry's level and text; no match gives the empty outline |
| SearchIndex.HeadingsConcat | scripts/index-algolia.js:76 | the headings of consecutive lines are the headings of each part, in document order |
| SearchIndex.HeadingsComplete | scripts/index-algolia.js:76-81 | every heading line contributes its own entry, and each line adds one entry or none |
| SearchIndex.HeadingsSound | scripts/index-algolia.js:76-81 | every entry of the outline is the heading of some heading line, with that line's level and text |
| SearchIndex.TitleAmong | scripts/index-algolia.js:46-47 | the first line matching `^#\s+(.+)$`, its group trimmed, or `Untitled`, a specification: `TitleIsFirstLevelOne`, `TitleFromFirstLine` and `TitleSkipsSubheading` state its cases |
| SearchIndex.ExtractTitle | scripts/index-algolia.js:45-48 | `extractTitle`, a specification: `ExtractTitleFromOutline` states it is the text of the first level-1 entry of `extractHierarchy`, or `Untitled` |
| SearchIndex.TitleCapture | scripts/index-algolia.js:46 | the group `(.+)` is non-empty and, trimmed, is the line after its `#`, trimmed |
| SearchIndex.TitleIsFirstLevelOne | scripts/index-algolia.js:45-48 | the title of a list of lines is the text of the first level-1 heading of its outline, or `Untitled` |
| SearchIndex.ExtractTitleFromOutline | scripts/index-algolia.js:45-48 | `extractTitle` of a page is the text of the first level-1 entry of `extractHierarchy`, or `Untitled` |
| SearchIndex.TitleFromFirstLine | scripts/index-algolia.js:46-47 | a first line `#` + white space + text gives the title trimmed |
| SearchIndex.TitleSkipsSubheading | scripts/index-algolia.js:46 | a first line starting `##` never gives the title; the title comes from the rest |
| SearchIndex.HeadingMarker | scripts/index-algolia.js:58 | a match of `^#+\s+` begins with `#`, ends with white space, and stays within the text |
| SearchIndex.LinkAt | scripts/index-algolia.js:59 | a link match has a non-empty text before its `]` and ends within the string |
| SearchIndex.RemoveFormatting | scripts/index-algolia.js:60 | no `*`, `_`, `~` or backtick is left, and a character is in the result exactly when it is in the input and is none of these |
| SearchIndex.RemoveFormattingConcat | scripts/index-algolia.js:60 | the removal works piece by piece, so the kept characters stay in their order |
| SearchIndex.CollapseNewlines | scripts/index-algolia.js:61 | no `\n` is left; every other character of the input is kept; the result adds only spaces, and holds a space if the input held a newline; where each run goes is `CollapseNewlinesConcat` and `NewlinesBecomeSpace` |
| SearchIndex.CollapseNewlinesConcat | scripts/index-algolia.js:61 | text cut after a character other than `\n` collapses piece by piece, so the kept characters stay in their order |
| SearchIndex.NewlinesBecomeSpace | scripts/index-algolia.js:61 | a maximal run of newlines becomes exactly one space |
| SearchIndex.CollapseKeepsUnformatted | scripts/index-algolia.js:60-61 | collapsing newlines brings back no formatting character |
| SearchIndex.TrimKeepsClean | scripts/index-algolia.js:62 | trimming brings back no formatting character or newline |
| SearchIndex.CleanText | scripts/index-algolia.js:55-62 | the cleaned text holds no `*`, `_`, `~`, backtick or `\n`, and has no white space at either end |
| SearchIndex.ExtractContent | scripts/index-algolia.js:53-70 | a cleaned text of at most 500 characters is returned unchanged, and a longer one as its first 500 characters plus `...`; at most 503 characters, none of them formatting or `\n` |
| SearchIndex.StripFences | scripts/index-algolia.js:56 | the lazy fence replacement, a specification: `FenceRemoved` and `FencesPlain` state what it removes and what it leaves |
| SearchIndex.StripInline | scripts/index-algolia.js:57 | the inline-code replacement, a specification: `InlineCodeRemoved` and `InlinePlain` state what it removes and what it leaves |
| SearchIndex.StripHeadings | scripts/index-algolia.js:58 | the line-start marker replacement, a specification: `HeadingMarkerRemoved` and `HeadingsPlain` state what it removes and what it leaves |
| SearchIndex.ReplaceLinks | scripts/index-algolia.js:59 | the link replacement, a specification: `LinkFound`, `LinkBecomesText` and `LinksPlain` state what it matches, what it rewrites and what it leaves |
| SearchIndex.FenceFirstAt | scripts/index-algolia.js:56 | the lazy `[\s\S]*?` stops at the block's own closing fence when the code holds no ```` ``` ```` and does not end with a backtick |
| SearchIndex.FenceRemoved | scripts/index-algolia.js:56 | a fenced block whose code holds no ```` ``` ```` and does not end with a backtick, single backticks allowed, is removed from its opening fence through its closing one |
| SearchIndex.TemplateLiteralBlockRemoved | scripts/index-algolia.js:56 | a block holding a template literal, ```` ```const s = `hi`;\n``` ````, is removed whole |
| SearchIndex.InlineCodeRemoved | scripts/index-algolia.js:57 | inline code is removed with its backticks |
| SearchIndex.HeadingMarkerRemoved | scripts/index-algolia.js:58 | a heading marker `#…# ` at the start of a line is removed |
| SearchIndex.LinkFound | scripts/index-algolia.js:59 | the link pattern matches `[text](url)` at its start, with the closing bracket right after `text` |
| SearchIndex.LinkBecomesText | scripts/index-algolia.js:59 | a link `[text](url)` is replaced by `text` |
| SearchIndex.FencesPlain | scripts/index-algolia.js:56 | text without backticks has no fenced block to remove |
| SearchIndex.InlinePlain | scripts/index-algolia.js:57 | text without backticks has no inline code to remove |
| SearchIndex.HeadingsPlain | scripts/index-algolia.js:58 | text without `#` has no heading marker to remove |
| SearchIndex.LinksPlain | scripts/index-algolia.js:59 | text without `[` has no link to replace |
| SearchIndex.FormattingPlain | scripts/index-algolia.js:60 | text without formatting characters is unchanged |
| SearchIndex.NewlinesPlain | scripts/index-algolia.js:61 | text without `\n` is unchanged |
| SearchIndex.PlainText | scripts/index-algolia.js:55-62 | text free of markup characters is only trimmed |
| SearchIndex.DocPath | scripts/index-algolia.js:120 | the document path holds no upper-case ASCII letter |
| SearchIndex.MdxFoundAtEnd | scripts/index-algolia.js:120 | in `stem + ".mdx"` with no `.mdx` in the stem, the first `.mdx` is the final one |
| SearchIndex.DocPathOfPage | scripts/index-algolia.js:120 | the page `<stem>.mdx` gets the document path `stem`, lowered |
| SearchIndex.RecordOf | scripts/index-algolia.js:126-133 | the record's `objectID` is the document path; `path` equals `objectID`; `url` is `#/docs/` + `path`; title, content and hierarchy are those of the page's text |
| SearchIndex.RecordsOf | scripts/index-algolia.js:117-136 | one record per page |
| SearchIndex.RecordsDescribe | scripts/index-algolia.js:117-136 | record `i` describes page `i` |
| SearchIndex.IndexDocumentation | scripts/index-algolia.js:115-136 | the loop pushes one record per page, in page order, and record `i` describes page `i` |
| Playground.CreateIframeHTML | src/views/playground/PlaygroundView.ts:204-253 | the preview document, a specification: `DocumentShape`, `ImportMapPinned`, `EmbeddedCodeRoundTrip` and `CreateIframeHTMLInjective` state its shape, the pinned import map, and that the code can be recovered from it |
| Playground.Between | src/views/playground/PlaygroundView.ts:204-253 | the text between the document's fixed prefix and suffix: there is one exactly when the text starts with the prefix and ends with the suffix far enough apart, and then prefix, text and suffix make up the whole |
| Playground.EmbeddedCode | src/views/playground/PlaygroundView.ts:204-253 | what comes between the fixed prefix and suffix is code whose preview document is the given text |
| Playground.DocumentShape | src/views/playground/PlaygroundView.ts:206-251 | every preview document begins with `<!DOCTYPE html>\n` and ends with `</html>` |
| Playground.ImportMapPinned | src/views/playground/PlaygroundView.ts:212-218 | the import map entry maps `typecomposer` to `https://esm.sh/typecomposer@0.1.53`, at a fixed offset in every document |
| Playground.EmbeddedCodeRoundTrip | src/views/playground/PlaygroundView.ts:204-253 | the compiled code is recovered by stripping the fixed prefix and suffix from the document |
| Playground.CreateIframeHTMLInjective | src/views/playground/PlaygroundView.ts:204-253 | different bundles give different documents |
| Playground.PlaygroundView.constructor | src/views/playground/PlaygroundView.ts:143-152 | the view starts not compiling, with the panel hidden and empty, and has asked for nothing |
| Playground.PlaygroundView.ShowError | src/views/playground/PlaygroundView.ts:281-286 | the panel shows the message with its visible class |
| Playground.PlaygroundView.HideError | src/views/playground/PlaygroundView.ts:291-294 | the panel gets class `hidden` and empty text |
| Playground.PlaygroundView.StartCompile | src/views/playground/PlaygroundView.ts:172-180 | while a compilation is in flight nothing changes and nothing is asked for; otherwise the flag is set, the panel is cleared and the files go to the compiler |
| Playground.PlaygroundView.FinishCompile | src/views/playground/PlaygroundView.ts:180-198 | a failure shows `Compilation Error:\n` + error and injects nothing; an exception shows `Error: ` + message; a success injects the preview document of the code; the flag is cleared on every path |
| Playground.PlaygroundView.CompileAndRun | src/views/playground/PlaygroundView.ts:172-199 | a no-op while compiling; otherwise one compiler call, then the panel and iframe state for each outcome, with the flag cleared and the panel left hidden on success |
| Playground.PlaygroundView.UpdateFiles | src/views/playground/PlaygroundView.ts:299-301 | the same effect as `compileAndRun` on the new files |
| Playground.OverlappingRequests | src/views/playground/PlaygroundView.ts:172-176 | a request that overlaps a compilation in flight is refused, so the compiler is asked once, and the flag is clear once that compilation finishes |

## Left out

- BrowserCompiler.Esbuild.InitializeEsbuild: the `await esbuild.initialize(...)` is treated as atomic. At most one initialisation is proved only for calls that do not overlap. Two calls that overlap, from `onInit` or from the call inside `compileFiles`, both find the flag clear in the source and both initialise.
- Strings.Trim: its own contract gives the length bound and the non-space ends. That only leading and trailing white space is cut is the lemma Strings.TrimCut. It is kept apart so that proofs that merely mention `trim` need not reason about that existential.
- The esbuild-wasm engine. `esbuild.initialize` becomes an optional rejection message, `initError`. `esbuild.build`, its options, the plugin wiring and the `TextDecoder` become the function `build`. It maps the request (entry, code, loader, store) to output files as text, or to a thrown message. The importer string esbuild passes to `onResolve` is a parameter.
- `compileFiles` does not model the debug logging under `import.meta.env.DEV`, because it is console output only.
- `compileFiles` does not model the exact text of the `TypeError` raised by `files[entry].code` for an explicit entry that is not a key. It is the constant `MissingEntryError`, because the text is engine-specific. `error instanceof Error ? … : String(error)` is folded into one message string.
- `injectCode` of PlaygroundView.ts is left out: Blob URLs, iframe `onload`, `revokeObjectURL` and timers are browser I/O. An injection is recorded as the document appended to `documents`.
- `onInit` is left out. It is `initializeEsbuild` followed by `compileAndRun`, both modelled.
- The constant starter file set of PlaygroundView.ts is static data and is not modelled.
- Playground.PlaygroundView.ShowError: the inline `maxHeight` and `overflow` styles it sets are not modelled, because they are presentation only.
- Playground.PlaygroundView.CompileAndRun: the `await` is modelled as the split into `StartCompile` and `FinishCompile`. Overlap with other calls appears only as `OverlappingRequests` states it. The event loop is not modelled.
- The file store is a map with a separate key order (`Object.keys`). Key presence stands for truthiness of `files[p]`, since every value is an object. Prototype keys such as `constructor` are not modelled.
- Navigation: the rendering (`routerLink`, the DOM, `SidebarItem.removeSelected`) is not modelled. The JSON import becomes the array argument of `GetPath`. An item's missing `link` is not modelled: every item has a string link.
- Navigation.GetPath: states that each section is kept or normalised, not exactly which ones the early return leaves untouched. The method's invariant holds the exact prefix.
- SearchIndex.ExtractTitle and SearchIndex.ExtractHierarchy are modelled line by line, splitting on `\n` only. So they do not model `\s+` spanning a newline in `^#\s+(.+)$` and `^#+\s+.+$`. Nor do they model `\r`, U+2028 and U+2029 ending a line for `.`, `^` and `$`.
- SearchIndex.ExtractContent is modelled on the whole text with each regular expression's leftmost-match semantics. Its lengths count `char`s, not UTF-16 code units, so a surrogate pair cut by `substring(0, 500)` is not modelled.
- Strings.Lower: `toLowerCase` is modelled on ASCII letters only. JavaScript also lowers other letters, such as `É`, and can change the length: `İ` (U+0130) becomes two code units. Page paths are taken to be ASCII.
- SearchIndex.DocPath: `toLowerCase` is modelled on ASCII letters only, as for Strings.Lower.
- `path.relative` is not modelled: each page comes with its relative path already computed.
- The rest of scripts/index-algolia.js is not modelled: `getMDXFiles`, the file reads, the Algolia client (clearing, upload, settings), the environment checks and `process.exit`. They are filesystem, network and process I/O.
- The other source files of the repository are not part of this model: the MDX renderer, editors, search widgets, pages and router. They are presentation or foreign code.
