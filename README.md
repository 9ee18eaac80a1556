# ionic-app-scripts: transpile cache, ESLint diagnostics and lint gates in Dafny

This project models three parts of the build tooling of `@ionic/app-scripts`:

- **The in-memory file cache protocol of the transpile step** (`src/transpile.ts`).
  The cache is a `FileCache` class whose `files: map<string, string>` maps a path
  to its content.
  - A full build (`transpileWorker`) may rewrite deep-linking sources in place.
    Before that, it keeps a shadow copy of each rewritten file under
    `path + "original"`, hands the rewritten cache to the compiler, and then
    restores the shadow copies with `resetSourceFiles`.
  - The emit callback stores `.js` and `.js.map` outputs.
  - A single-file update (`transpileUpdateWorker`) writes back three entries, or
    fails and leaves the cache alone.
  - Each cache-changing method is proved against a function of the old cache.
    Lemmas about those functions state what the protocol promises:
    - copy, rewrite and reset is a round trip;
    - no `.tsoriginal` entry survives a reset;
    - emitting touches only output paths;
    - a failed update changes nothing;
    - a `ts.createProgram` throw leaves the shadow copies behind.
- **The ESLint diagnostic normaliser** (`src/logger/logger-eslint.ts`).
  - `LoadDiagnostic` builds the printed lines of one lint message with the
    source's two loops: over line indices, and over the characters of the error
    span.
  - It is proved equal to the specification function `DiagnosticOf`.
  - Lemmas about `DiagnosticOf` state when it throws, which lines it emits, where
    the context lines go and that line indices increase.
- **The lint gates and message builders** (`src/lint/lint-utils.ts`), and the
  one decision `typeCheck` makes (`src/lint/lint-factory.ts`).

Code the model cannot see is passed in as parameters:
- the TypeScript compiler;
- path resolution;
- the deep-link helpers;
- the template inliner;
- the environment lookups;
- the stop-character set `STOP_CHARS` and the line splitter `splitLineBreaks`,
  which the ESLint normaliser imports from other modules of the package.

Transpile takes these as the `Helpers` datatype, the logger as `TextHelpers`, and
the remaining results (compiler runs, lint results, type-check diagnostics) are
plain arguments.

A thrown exception or a rejected promise becomes `Fail(error)` of `Outcome`, or
`Failure(error)` of `Result`. A JavaScript `TypeError` from reading a property of
`undefined` is modelled with a fixed message text, "Cannot read property 'x' of
undefined", which is the wording of V8 before Node 16.9; newer engines word it
"Cannot read properties of undefined (reading 'x')". The text depends on the
JavaScript engine, which the source does not fix; the model only needs it to
name the property read.

Two behaviours of the source are modelled as written:
- **Start column.** The error marker starts at character 0 of the first and last
  line, not at the message's column (`start.character` and `end.character` are
  set to 0, src/logger/logger-eslint.ts:90-99). So the zero-width fix-up at
  src/logger/logger-eslint.ts:135-138 can never fire, as `ErrorLineSpan` shows.
- **Restoration on a throw.** Restoring the shadow copies is not in a `finally`
  block. If `ts.createProgram` throws, the shadow copies stay in the cache
  (`FullBuildThrowKeepsShadow`).

## Model

| member | source | states |
|---|---|---|
| Transpile.CanRunTranspileUpdate | src/transpile.ts:178-183 | an update can run iff the event is "change", a cache exists and it holds the resolved path |
| Transpile.TransformSource | src/transpile.ts:406-417 | a deep-linking file is only purged; otherwise the app module without deep-link config gets the config injected; anything else is returned unchanged |
| Transpile.DeepLinkFiles | src/transpile.ts:127 | the deep-link files are cache entries |
| Transpile.DeepLinkFilesAfterCopy | src/transpile.ts:125-127 | the rewrite's filter, which runs on the copied cache, finds the same files as the copy's filter at line 420, as long as no copy key is a deep-linking file |
| Transpile.ShadowKeys | src/transpile.ts:419-429 | a key is a shadow key iff it is `p + "original"` for one of the copied paths |
| Transpile.CopiedPath | src/transpile.ts:424 | the copied path followed by the copy suffix gives back the shadow key |
| Transpile.CopyKeyOf | src/transpile.ts:424 | the shadow key of `p` ends in the suffix and maps back to `p` |
| Transpile.CopyOriginals | src/transpile.ts:419-429 | copying adds exactly the shadow keys to the cache's keys |
| Transpile.CopyOriginalsContents | src/transpile.ts:422-428 | each shadow key holds its original's content; every other entry is unchanged |
| Transpile.CopyNone | src/transpile.ts:423 | copying no path leaves the cache as it was |
| Transpile.CopyStep | src/transpile.ts:423-428 | one more stored copy is the same as copying one more path, in any order |
| Transpile.PurgeSome | src/transpile.ts:128-130 | purging some entries keeps the cache's keys |
| Transpile.PurgeAll | src/transpile.ts:125-130 | every deep-linking entry is purged, every other entry unchanged, no key added or removed |
| Transpile.PurgeNone | src/transpile.ts:128 | purging nothing leaves the cache as it was |
| Transpile.PurgeStep | src/transpile.ts:128-130 | purging entries one at a time in any order gives the same cache |
| Transpile.PurgeAndInject | src/transpile.ts:125-139 | the live rewrite keeps the cache's keys |
| Transpile.PurgeAndInjectContents | src/transpile.ts:125-139 | the live rewrite keeps the keys, changes only deep-linking entries and the app module, and gives every entry other than an app module that is itself deep-linking what `transformSource` would |
| Transpile.PurgeAndInjectDeepLinkingApp | src/transpile.ts:125-139 | for an app module that is itself deep-linking, both the full build and `transformSource` (src/transpile.ts:406-410) purge it, but only the full build then injects the config when the purged text has none |
| Transpile.RestoreOfShadowKey | src/transpile.ts:433-434 | a `.tsoriginal` key ends in the copy suffix, and `changeExtension(k, ".ts")` is the path it is a copy of |
| Transpile.RestoredKeys | src/transpile.ts:431-442 | the restore targets are exactly the copied paths of the processed shadow entries |
| Transpile.KeptKeys | src/transpile.ts:439 | the deletes keep only cached keys, and never delete an entry that is not a shadow |
| Transpile.IsShadowPath | src/transpile.ts:433 | a `.tsoriginal` path ends in `.tsoriginal`, with at least one character before it |
| Transpile.RestorePath | src/transpile.ts:434 | the restore target of a `.tsoriginal` path is the `.ts` path that the copy suffix was appended to |
| Transpile.ResetSomeFrame | src/transpile.ts:431-442 | part way through the reset loop, unhandled entries are still cached, an entry that is neither a handled shadow nor a restore target keeps its content, and a handled shadow that is no restore target is gone |
| Transpile.ResetNone | src/transpile.ts:432 | resetting with nothing processed leaves the cache as it was |
| Transpile.ResetStep | src/transpile.ts:432-441 | processing one more entry: a shadow entry is written to its `.ts` path and deleted; any other entry changes nothing |
| Transpile.ResetStepShadow | src/transpile.ts:433-439 | processing a shadow entry writes its content to the path it is a copy of and deletes it |
| Transpile.ResetStepOther | src/transpile.ts:433 | processing an entry that is not a shadow changes nothing |
| Transpile.ShadowPathLaw | src/transpile.ts:433-434 | a `.tsoriginal` entry is never restored onto another `.tsoriginal` key |
| Transpile.ResetSourcesLeavesNoShadow | src/transpile.ts:431-442 | after `resetSourceFiles` no `.tsoriginal` entry remains |
| Transpile.ResetSourcesRestores | src/transpile.ts:433-438 | each `.tsoriginal` entry's content ends up under its `.ts` path |
| Transpile.ResetSourcesKeepsOthers | src/transpile.ts:431-442 | an entry that is neither a shadow nor a `.ts` path is untouched |
| Transpile.ResetSources | src/transpile.ts:431-442 | a reset removes no entry that is not a shadow, and every key it adds is a `.ts` path |
| Transpile.ResetSourcesIdentity | src/transpile.ts:431-442 | a cache without shadow entries is unchanged by a reset |
| Transpile.WriteTranspiledRouting | src/transpile.ts:320-350 | a `.js.map` output is stored verbatim, a `.js` output template-inlined or verbatim, and a `.d.ts` output leaves the cache alone |
| Transpile.WriteTranspiled | src/transpile.ts:320-350 | the callback stores at most the resolved path and changes no other entry |
| Transpile.EmitAll | src/transpile.ts:147-154 | emitting never removes an entry |
| Transpile.OutputPaths | src/transpile.ts:147-154 | the output paths hold every emitted `.js` and `.js.map` path |
| Transpile.EmitAllTouchesOnlyOutputs | src/transpile.ts:147-154 | emitting adds or changes only output paths |
| Transpile.UpdateText | src/transpile.ts:220-223 | the compiler gets the cached text unchanged when transforms or deep-link parsing are off, and for a file that is neither deep-linking nor the app module |
| Transpile.UpdateWorker | src/transpile.ts:189-263 | a failed update leaves the cache unchanged; it succeeds iff the config loads, the path is cached and there are no diagnostics; with diagnostics it fails with "Failed to transpile file - " and the path |
| Transpile.UpdateWriteBack | src/transpile.ts:239-257 | a successful update of a `.ts` path adds exactly the `.js` and `.js.map` entries with the compiler's output, keeps the source text, and changes nothing else |
| Transpile.RoundTripWith | src/transpile.ts:419-442 | copy, rewrite and reset give back the original cache, for any shadow test that recognises the copies |
| Transpile.CopyKeysAreShadows | src/transpile.ts:424-434 | the copy key of a `.ts` path has extension `.tsoriginal` |
| Transpile.CopyRewriteResetRoundTrip | src/transpile.ts:419-442 | with no `.tsoriginal` entry to start with, copying `.ts` paths, rewriting only them and resetting gives back the original cache |
| Transpile.RewriteKeepsCopies | src/transpile.ts:122-139 | the rewrite changes only copied paths and keeps the shadow copies |
| Transpile.CopiedPathsAreTs | src/transpile.ts:419-422 | the deep-linking files and the app module a full build copies are `.ts` paths |
| Transpile.CopiedPathsFacts | src/transpile.ts:419-439 | the copy keys of `.ts` paths are shadow paths, neither deep-linking files nor the app module, and not already cached |
| Transpile.CopyKeyFacts | src/transpile.ts:424-433 | the copy key of one `.ts` path is a shadow path that is neither a deep-linking file nor the app module |
| Transpile.NoCopyKeys | src/transpile.ts:419-429 | a cache without shadow entries holds no copy key |
| Transpile.RewriteThenReset | src/transpile.ts:122-143 | the deep-link rewrite of a full build is undone by `resetSourceFiles` |
| Transpile.FullBuildRestoresSources | src/transpile.ts:94-175 | once the compiler is created, the cache after a full build is the original cache plus the emitted outputs; the app module and `.ts` premises apply only when rewriting |
| Transpile.RewrittenSources | src/transpile.ts:119-139 | the cache the compiler sees holds the original keys plus the shadow key of every deep-linking file and of the app module |
| Transpile.FullBuild | src/transpile.ts:94-175 | a failed config load leaves the cache alone; the build succeeds iff the config loads, the app module is cached when rewriting, `ts.createProgram` returns and the program has no diagnostics |
| Transpile.FullBuildMissingAppModule | src/transpile.ts:419-429 | with rewriting on and no app module, the build fails with "Cannot read property 'path' of undefined", every entry keeps its content and the deep-linking files' shadow copies stay in the cache |
| Transpile.FullBuildThrowKeepsShadow | src/transpile.ts:122-143 | when `ts.createProgram` throws, the build fails with that error and the app module's shadow copy stays in the cache |
| Transpile.FileCache.WriteTranspiledFilesCallback | src/transpile.ts:320-350 | the emit callback updates the cache as `WriteTranspiled` says |
| Transpile.FileCache.CopyEach | src/transpile.ts:423-428 | the loop stores a copy of every path |
| Transpile.FileCache.CopyOriginalSourceFiles | src/transpile.ts:419-429 | succeeds iff the app module is cached, and then copies it and every deep-link file; otherwise copies the deep-link files and throws "Cannot read property 'path' of undefined" |
| Transpile.FileCache.PurgeEach | src/transpile.ts:128-130 | the loop purges every given deep-linking entry in place |
| Transpile.FileCache.RewriteDeepLinkSources | src/transpile.ts:125-139 | the live rewrite leaves the cache as `PurgeAndInject` says |
| Transpile.FileCache.ResetSourceFiles | src/transpile.ts:431-442 | the loop leaves the cache as `ResetSources` of the old cache |
| Transpile.FileCache.ResetEntry | src/transpile.ts:433-440 | one iteration moves a shadow entry back to its `.ts` path and deletes the shadow |
| Transpile.FileCache.EmitProgram | src/transpile.ts:147-154 | the emitted files are written in order when writing in memory; otherwise the cache is unchanged |
| Transpile.FileCache.TranspileWorker | src/transpile.ts:94-175 | the cache and outcome of a full build are those of `FullBuild` |
| Transpile.FileCache.TranspileUpdateWorker | src/transpile.ts:189-263 | the cache and outcome of an update are those of `UpdateWorker` |
| Paths.ExtStart | src/transpile.ts:433 | `path.extname`'s start is the last dot of the last segment, after the segment's first character; the path has no extension exactly when that segment has no such dot or is `..` |
| Paths.Extname | src/transpile.ts:433 | the extension is a suffix of the path that is empty or a dot followed by neither dot nor slash, and that starts after the first character of the last segment; it is empty exactly when the last segment has no dot after its first character or is `..` |
| Paths.ChangeExtension | src/transpile.ts:240 | the result ends in the new extension, removing it and appending the old extension gives back the path, and a path without extension just gets the new one appended |
| Paths.ShadowOfTs | src/transpile.ts:424-434 | appending "original" to a `.ts` path gives extension `.tsoriginal` |
| Paths.ShadowOfTsConverse | src/transpile.ts:433-434 | a `.tsoriginal` path is a `.ts` path with "original" appended |
| Paths.RestoreOfShadow | src/transpile.ts:434 | `changeExtension(p + "original", ".ts")` gives back the `.ts` path `p` |
| Paths.UpdateKeysDistinct | src/transpile.ts:240-256 | the `.js`, `.js.map` and source paths an update writes are pairwise distinct |
| Strings.ReplaceFirst | src/lint/lint-utils.ts:74 | `String.replace` with a string pattern replaces only the first occurrence |
| Strings.ReplaceLeadingOccurrence | src/lint/lint-utils.ts:74 | removing a leading pattern leaves the rest of the string |
| Strings.SplitJoin | src/lint/lint-utils.ts:70 | splitting a newline-joined list on newlines gives the list back |
| LoggerEslint.LevelOf | src/logger/logger-eslint.ts:104 | severity 0 gives 'off', 1 gives 'warn', and any other value gives 'error' |
| LoggerEslint.SpanLength | src/logger/logger-eslint.ts:128-133 | the span stays within the line, holds no stop character, and ends at a stop character or at the end of the line |
| LoggerEslint.FixZeroWidth | src/logger/logger-eslint.ts:135-138 | a zero-width span starting after the line start becomes (start - 1, 1); anything else is unchanged |
| LoggerEslint.ErrorCharStart | src/logger/logger-eslint.ts:125 | the marker starts at 0 on the first and last line and at -1 between |
| LoggerEslint.ErrorLineSpan | src/logger/logger-eslint.ts:125-138 | the fix-up never applies; each error marker is the scanned span, inside the line and free of stop characters |
| LoggerEslint.DiagnosticLines | src/logger/logger-eslint.ts:115-167 | a result without source text (absent or empty) gives no lines |
| LoggerEslint.ErrorLine | src/logger/logger-eslint.ts:120-140 | an error line carries its index, the next line number and the source text, and its marker starts at 0 or -1 |
| LoggerEslint.ErrorLines | src/logger/logger-eslint.ts:118-142 | no end line gives no error lines; building them throws iff start ≤ end and the range leaves the source |
| LoggerEslint.ErrorLinesUpTo | src/logger/logger-eslint.ts:118-142 | at most one error line per index of the range; a failure is the `.trim()` TypeError |
| LoggerEslint.ErrorLinesUpToFails | src/logger/logger-eslint.ts:118-119 | building the error lines throws iff an index of the range lies outside the source, and then with the `.trim()` TypeError |
| LoggerEslint.ErrorLinesUpToSound | src/logger/logger-eslint.ts:118-141 | each error line is in range, on a non-blank source line, with `lineNumber` one past `lineIndex` and the source text |
| LoggerEslint.ErrorLinesUpToIncreasing | src/logger/logger-eslint.ts:118-142 | error lines come in strictly increasing index order |
| LoggerEslint.ErrorLinesUpToComplete | src/logger/logger-eslint.ts:118-142 | every non-blank line of the range has an error line |
| LoggerEslint.ErrorLinesFailFrom | src/logger/logger-eslint.ts:118-119 | one index outside the source makes the whole range throw |
| LoggerEslint.NoEndLine | src/logger/logger-eslint.ts:118-166 | without an end line there are no error lines and no trailing line, only the leading one when the start line is positive |
| LoggerEslint.ContextLine | src/logger/logger-eslint.ts:144-165 | a context line carries its index, the next line number and -1 markers; it has text iff the index is a source line, and then that line's text |
| LoggerEslint.ContextLinesReversed | src/logger/logger-eslint.ts:118-166 | for start > end there are no error lines: the diagnostic always builds and holds only the context lines |
| LoggerEslint.ContextLines | src/logger/logger-eslint.ts:118-166 | for start ≤ end: the diagnostic builds iff both ends are source lines; the leading context line is there iff start > 0; the trailing one is always there, with no text iff end is the last line |
| LoggerEslint.IncreasingJoin | src/logger/logger-eslint.ts:144-166 | the leading line, error lines and trailing line, each in its index range, join in increasing order |
| LoggerEslint.LinesIncreasing | src/logger/logger-eslint.ts:118-166 | for start ≤ end the diagnostic's lines are in strictly increasing index order |
| LoggerEslint.DiagnosticOf | src/logger/logger-eslint.ts:89-170 | the level, file names, code and message text come from the message and result; a result without source text, or a message without an end line, always yields a diagnostic |
| LoggerEslint.LoadDiagnostic | src/logger/logger-eslint.ts:89-170 | the diagnostic built line by line is `DiagnosticOf` of the message and result |
| LoggerEslint.CollectErrorLines | src/logger/logger-eslint.ts:118-142 | the outer loop yields the error lines of the range, or the `.trim()` TypeError |
| LoggerEslint.ScanSpan | src/logger/logger-eslint.ts:128-133 | the inner loop counts `SpanLength` characters |
| LoggerEslint.RunEsLintDiagnostics | src/logger/logger-eslint.ts:85-87 | one diagnostic per message in message order; otherwise the error of the first message whose diagnostic throws |
| LintUtils.Header | src/lint/lint-utils.ts:70 | a non-empty message is the header; an absent or empty one gives the eslint default |
| LintUtils.GenerateErrorMessageForFiles | src/lint/lint-utils.ts:69-71 | the message is the header and the files joined by newlines |
| LintUtils.ErrorMessageLines | src/lint/lint-utils.ts:69-71 | read line by line, the message gives back the header and then each file |
| LintUtils.ErrorMessageExample | src/lint/lint-utils.spec.ts:6-8 | the tested message for two files under "Just testing:" |
| LintUtils.StripLeadingSlash | src/lint/lint-utils.ts:74 | at most one leading '/' is removed |
| LintUtils.StripRootDir | src/lint/lint-utils.ts:74 | the relative name is no longer than the original |
| LintUtils.StripRootDirUnder | src/lint/lint-utils.ts:74 | a name under the root loses the root and exactly one slash, even when more slashes follow |
| LintUtils.GetFileNames | src/lint/lint-utils.ts:73-75 | one relative name per failure, in order |
| LintUtils.GetFileNamesUnderRoot | src/lint/lint-utils.ts:73-75 | names under the root come out relative to it, as in the tested `/User/john/test.ts` case |
| LintUtils.RemoveDuplicateFileNames | src/lint/lint-utils.ts:77-79 | the result holds the same names as the input, each once |
| LintUtils.FirstIndex | src/lint/lint-utils.ts:78 | the index holds the name, and no earlier index does |
| LintUtils.FirstIndexUnique | src/lint/lint-utils.ts:78 | an index with the name and none before it is the first occurrence |
| LintUtils.RemoveDuplicatesOrder | src/lint/lint-utils.ts:77-79 | names come out in the order of their first occurrence |
| LintUtils.RemoveDuplicatesExample | src/lint/lint-utils.spec.ts:27-31 | the tested duplicate pair reduces to one name |
| LintUtils.TypeCheck | src/lint/lint-factory.ts:33-42 | the pre-emit diagnostics only when the options ask for type checking; otherwise none |
| LintUtils.ProcessTypeCheckDiagnostics | src/lint/lint-utils.ts:36-44 | no diagnostics pass; any diagnostic fails the build with a BuildError |
| LintUtils.TypeCheckMessage | src/lint/lint-utils.ts:36-44 | a failed type check's message is the type-check header, then each file with a diagnostic exactly once |
| LintUtils.LintOutcome | src/lint/lint-utils.ts:52-67 | passes iff the result is clean; a failure is a BuildError iff every diagnostic loads, and otherwise the `.trim()` TypeError |
| LintUtils.LintFailureMessage | src/lint/lint-utils.ts:63-65 | a failing result's message is the default header, a newline and the result's file path |
| LintUtils.LintFailureLines | src/lint/lint-utils.ts:63-66 | a failing result's message is the default header and exactly that result's file |
| LintUtils.DiagnosticFailure | src/lint/lint-utils.ts:58 | a diagnostic that cannot be built fails with the `.trim()` TypeError |
| LintUtils.ProcessLintResult | src/lint/lint-utils.ts:52-67 | a result passes iff it has no errors and no warnings; otherwise it fails with a BuildError naming its file, or with the TypeError from building its diagnostics |
| LintUtils.LintFiles | src/lint/lint-utils.ts:18-28 | the type-check gate passes because no options are given; then linting passes iff every result is clean, and otherwise fails with the outcome of the first unclean result |

## Left out

- The diagnostics-only worker (`transpileDiagnosticsOnly`, `runDiagnosticsWorker`): child processes and IPC.
- The TypeScript compiler is not modelled. `ts.createProgram`, `program.emit`, `ts.transpileModule` and their diagnostics are replaced by the results they return: `ProgramRun`, `TranspileOutput` and a diagnostic count.
- `getTsConfig` is not modelled; its success or failure is the `config` outcome.
- Parallel updates (`transpileUpdate`'s `Promise.all`) are not modelled; one update is modelled at a time.
- Transpile.DeepLinkFiles: models `filterTypescriptFilesForDeepLinks` as the set of cache keys that `isDeepLinkingFile` accepts. The order of the array the source builds is not kept; every loop over it is proved for any order.
- The rest of the deep-link module, `inlineTemplate`, `buildJsSourceMaps` and the environment lookups are uninterpreted fields of `Helpers`. The model claims nothing about the text they produce.
- `path.resolve` and `path.normalize` are one uninterpreted function, `resolve`.
- `changeExtension` is modelled concretely on `path.extname`'s rules, because its source is not part of this model.
- The module-level `cachedProgram` and `cachedTsConfig` hold opaque compiler objects and are left out.
- `printResults`, `isDirectory`, `Logger.formatHeader`, `printDiagnostics` and `clearDiagnostics` are left out; they only write output.
- The diagnostic's `header` and `html` fields are left out: `header` comes from `Logger.formatHeader`, and `html` repeats `text`.
- `STOP_CHARS` is a parameter set of strings, which may contain `""`. On a middle line the scan starts at -1, where `charAt` gives `""`, so the span there is empty exactly when `""` is in the set. Its source, `src/logger/logger-tslint.ts`, is not part of this model.
- `splitLineBreaks` is a parameter function. Its source is not part of this model.
- `runTypeScriptDiagnostics` is only the parameter `relFileNames`, which gives the relative file names of the diagnostics it returns.
- `src/lint.ts`, the worker dispatch, is left out.
- The other wrappers in `src/lint/lint-factory.ts` (`createLinter`, `createProgram`, `getTsLintConfig`) are left out. `linter.lintFiles` is replaced by the list of results it resolves to.
- The worker configuration's `sourceMaps`, `cache` and `configFile` fields are left out; they only feed the compiler.
- File objects are values, not shared references. The full build's in-place `file.content =` assignments are modelled as updates of the cache entry.
- The cache's insertion order is left out. Loops over the cache or over a set of paths run in any order, and each is proved correct for every order.
- Transpile.FileCache.constructor: starts an empty cache. The `FileCache` class, `src/util/file-cache.ts`, is not part of this model, so the constructor has no source lines.
- Every cache entry is keyed by its own path. The source reads `file.path` of the stored object (src/transpile.ts:424, 433-439), and the model assumes it equals the entry's key, which holds for every entry the modelled code stores.
- LoggerEslint.SpanLength: counts characters as Unicode scalar values, not UTF-16 code units as `text.length` and `charAt` do. A character outside the Basic Multilingual Plane before the first stop character counts once here and twice in the source. The same holds for LoggerEslint.ScanSpan and LoggerEslint.ErrorLine.
- Paths.Extname: paths are taken as normalized, with no trailing '/'. For `a/b.ts/`, Node's `path.extname` gives `.ts`, and the model gives "".
- Paths.ChangeExtension: leaves out the `path.join` of directory and file name inside `changeExtension`, which normalizes the path. The model keeps the part before the extension as it is.
- Transpile.FileCache.TranspileUpdateWorker: takes the `event` argument but does not use it, as in the source.
- Transpile.FileCache.RewriteDeepLinkSources: requires the app module to be cached. The source reads `file.path` without a check and throws otherwise, but `CopyOriginalSourceFiles` has already failed on that path by then.
