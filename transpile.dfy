/** The in-memory file cache protocol of the transpile step: which outputs the
    compiler's emit callback stores, the shadow copies kept while deep-link
    sources are rewritten for a full build, their restoration, and the
    write-back of a single-file update. The TypeScript compiler, the deep-link
    text helpers, template inlining and path resolution are oracles. */
module Transpile {
  import opened Common
  import opened Strings
  import opened Paths

  /** `inMemoryFileCopySuffix`: a shadow copy of `p` is kept under `p + "original"`. */
  const InMemoryFileCopySuffix := "original"

  /** The extension `resetSourceFiles` recognises shadow copies by. */
  const ShadowExtension := ".ts" + InMemoryFileCopySuffix

  /** Helpers the transpile step calls but which are not part of this model,
      taken as given functions and environment values. */
  datatype Helpers = Helpers(
    resolve: string -> string,                    // path.normalize(path.resolve(p))
    inlineTemplate: (string, string) -> string,   // inlineTemplate(text, path)
    isDeepLinkingFile: string -> bool,
    purgeDeepLinkDecorator: string -> string,
    hasExistingDeepLinkConfig: (string, string) -> bool,
    deepLinkConfigString: string,                 // convertDeepLinkConfigEntriesToString(getParsedDeepLinkConfig())
    getUpdatedAppNgModuleContentWithDeepLinkConfig: (string, string, string) -> string,
    appNgModulePath: string,                      // getStringPropertyValue(ENV_APP_NG_MODULE_PATH)
    parseDeepLinks: bool,                         // getBooleanPropertyValue(ENV_PARSE_DEEPLINKS)
    transpileModule: (string, string) -> TranspileOutput)  // ts.transpileModule(text, { fileName })

  /** The worker configuration fields the cache protocol depends on. */
  datatype WorkerConfig = WorkerConfig(writeInMemory: bool, inlineTemplate: bool, useTransforms: bool)

  /** What `ts.transpileModule` returns, with its diagnostics already counted
      by `runTypeScriptDiagnostics`. */
  datatype TranspileOutput = TranspileOutput(outputText: string, sourceMapText: string, diagnosticCount: nat)

  /** One file handed to the emit callback. */
  datatype EmittedFile = EmittedFile(path: string, data: string)

  /** What the compiler does in a full build: whether `ts.createProgram`
      returns or throws, the files `program.emit` hands to the callback, and
      how many diagnostics the program reports. */
  datatype ProgramRun = ProgramRun(created: Outcome<Error>, emitted: seq<EmittedFile>, diagnosticCount: nat)

  /** The cache after a worker has run, and how the worker's promise settles. */
  datatype CacheOutcome = CacheOutcome(files: map<string, string>, outcome: Outcome<Error>)

  /** The messages of the `TypeError` a property read on a missing cache
      entry throws. */
  const UndefinedPath := "Cannot read property 'path' of undefined"
  const UndefinedContent := "Cannot read property 'content' of undefined"

  const ProgramFailure := "Failed to transpile program"
  const FileFailurePrefix := "Failed to transpile file - "

  /** `path.extname(p) === '.tsoriginal'`: `p` ends in `.tsoriginal`, after
      at least one more character of its last segment. */
  predicate IsShadowPath(p: string): (b: bool)
    ensures b ==> |p| > |ShadowExtension| && p[|p| - |ShadowExtension|..] == ShadowExtension
  {
    Extname(p) == ShadowExtension
  }

  /** The path a shadow copy is restored to: `changeExtension(p, ".ts")`. */
  function RestorePath(s: string): (r: string)
    ensures IsShadowPath(s) ==> r + InMemoryFileCopySuffix == s && Extname(r) == ".ts"
  {
    if IsShadowPath(s) then RestoreOfShadow(s, InMemoryFileCopySuffix); ChangeExtension(s, ".ts")
    else ChangeExtension(s, ".ts")
  }

  // ---------------------------------------------------------------------------
  // Update eligibility and the single-file rewrite
  // ---------------------------------------------------------------------------

  /** `canRunTranspileUpdate`: only a "change" event on a path the cache
      already tracks may take the single-file path. */
  function CanRunTranspileUpdate(event: string, filePath: string, cache: FileCache?, h: Helpers): (r: bool)
    reads cache
    ensures r <==> event == "change" && cache != null && h.resolve(filePath) in cache.files
  {
    if event == "change" && cache != null then h.resolve(filePath) in cache.files else false
  }

  /** `transformSource`: a deep-linking file is only purged; the app module
      without an existing config gets one spliced in; anything else is kept. */
  function TransformSource(filePath: string, input: string, h: Helpers): (r: string)
    ensures h.isDeepLinkingFile(filePath) ==> r == h.purgeDeepLinkDecorator(input)
    ensures !h.isDeepLinkingFile(filePath) && filePath == h.appNgModulePath
            && !h.hasExistingDeepLinkConfig(filePath, input)
            ==> r == h.getUpdatedAppNgModuleContentWithDeepLinkConfig(filePath, input, h.deepLinkConfigString)
    ensures !h.isDeepLinkingFile(filePath)
            && (filePath != h.appNgModulePath || h.hasExistingDeepLinkConfig(filePath, input))
            ==> r == input
  {
    if h.isDeepLinkingFile(filePath) then h.purgeDeepLinkDecorator(input)
    else if filePath == h.appNgModulePath && !h.hasExistingDeepLinkConfig(filePath, input) then
      h.getUpdatedAppNgModuleContentWithDeepLinkConfig(filePath, input, h.deepLinkConfigString)
    else input
  }

  // ---------------------------------------------------------------------------
  // Specification functions over the cache contents
  // ---------------------------------------------------------------------------

  /** What the emit callback leaves in the cache for one emitted file. */
  function WriteTranspiled(m: map<string, string>, sourcePath: string, data: string,
                           shouldInlineTemplate: bool, h: Helpers): (r: map<string, string>)
    ensures m.Keys <= r.Keys <= m.Keys + {h.resolve(sourcePath)}
    ensures forall k :: k in m && k != h.resolve(sourcePath) ==> r[k] == m[k]
  {
    var p := h.resolve(sourcePath);
    if EndsWith(p, ".js") then
      m[p := if shouldInlineTemplate then h.inlineTemplate(data, p) else data]
    else if EndsWith(p, ".js.map") then m[p := data]
    else m
  }

  /** The emit callback applied to every emitted file in order. */
  function EmitAll(m: map<string, string>, emitted: seq<EmittedFile>, shouldInlineTemplate: bool,
                   h: Helpers): (r: map<string, string>)
    ensures m.Keys <= r.Keys
    decreases |emitted|
  {
    if |emitted| == 0 then m
    else
      var last := emitted[|emitted| - 1];
      WriteTranspiled(EmitAll(m, emitted[..|emitted| - 1], shouldInlineTemplate, h),
                      last.path, last.data, shouldInlineTemplate, h)
  }

  lemma AppendCancel(p: string, q: string, s: string)
    ensures p + s == q + s ==> p == q
  {
    if p + s == q + s {
      assert p == (p + s)[..|p|];
      assert q == (q + s)[..|q|];
    }
  }

  /** The deep-linking files among the cache's entries
      (`filterTypescriptFilesForDeepLinks`). */
  function DeepLinkFiles(m: map<string, string>, h: Helpers): (r: set<string>)
    ensures r <= m.Keys
  {
    set p | p in m && h.isDeepLinkingFile(p)
  }

  /** `k` ends in the copy suffix. */
  predicate HasCopySuffix(k: string)
  {
    |k| >= |InMemoryFileCopySuffix| && k[|k| - |InMemoryFileCopySuffix|..] == InMemoryFileCopySuffix
  }

  /** The path a key ending in the copy suffix is a copy of. */
  function CopiedPath(k: string): (p: string)
    requires HasCopySuffix(k)
    ensures p + InMemoryFileCopySuffix == k
  {
    assert k == k[..|k| - |InMemoryFileCopySuffix|] + k[|k| - |InMemoryFileCopySuffix|..];
    k[..|k| - |InMemoryFileCopySuffix|]
  }

  /** `k` is the copy key of one of `paths`. */
  predicate IsCopyOf(k: string, paths: set<string>)
  {
    HasCopySuffix(k) && CopiedPath(k) in paths
  }

  lemma CopyKeyOf(p: string)
    ensures HasCopySuffix(p + InMemoryFileCopySuffix) && CopiedPath(p + InMemoryFileCopySuffix) == p
  {
    var k := p + InMemoryFileCopySuffix;
    assert k[|k| - |InMemoryFileCopySuffix|..] == InMemoryFileCopySuffix;
    assert k[..|p|] == p;
  }

  /** The copy keys of `paths`. */
  function ShadowKeys(paths: set<string>): (r: set<string>)
    ensures forall k :: k in r <==> IsCopyOf(k, paths)
  {
    var r := set p | p in paths :: p + InMemoryFileCopySuffix;
    forall k
      ensures k in r <==> IsCopyOf(k, paths)
    {
      if k in r {
        var p :| p in paths && k == p + InMemoryFileCopySuffix;
        CopyKeyOf(p);
      }
      if IsCopyOf(k, paths) {
        assert k == CopiedPath(k) + InMemoryFileCopySuffix;
      }
    }
    r
  }

  /** The cache after a copy of every path in `paths` has been stored under
      its copy key. */
  function CopyOriginals(m: map<string, string>, paths: set<string>): (r: map<string, string>)
    requires paths <= m.Keys
    ensures r.Keys == m.Keys + ShadowKeys(paths)
  {
    map k | k in m.Keys + ShadowKeys(paths) :: if IsCopyOf(k, paths) then m[CopiedPath(k)] else m[k]
  }

  /** Copying stores each path's content under its copy key and changes no
      other key that was present. */
  lemma CopyOriginalsContents(m: map<string, string>, paths: set<string>)
    requires paths <= m.Keys
    ensures forall p :: p in paths ==>
              p + InMemoryFileCopySuffix in CopyOriginals(m, paths)
              && CopyOriginals(m, paths)[p + InMemoryFileCopySuffix] == m[p]
    ensures forall k :: k in m && !IsCopyOf(k, paths) ==> CopyOriginals(m, paths)[k] == m[k]
  {
    forall p | p in paths
      ensures p + InMemoryFileCopySuffix in CopyOriginals(m, paths)
              && CopyOriginals(m, paths)[p + InMemoryFileCopySuffix] == m[p]
    {
      CopyKeyOf(p);
    }
  }

  /** Moving `x` out of the to-do part of `all` adds it to the done part. */
  lemma DoneStep<T>(all: set<T>, todo: set<T>, x: T)
    requires x in todo && todo <= all
    ensures (all - todo) + {x} == all - (todo - {x})
  {
  }

  lemma CopyNone(m: map<string, string>)
    ensures CopyOriginals(m, {}) == m
  {
    assert CopyOriginals(m, {}).Keys == m.Keys;
  }

  lemma CopyStep(m: map<string, string>, done: set<string>, p: string)
    requires done <= m.Keys && p in m
    ensures CopyOriginals(m, done)[p + InMemoryFileCopySuffix := m[p]] == CopyOriginals(m, done + {p})
  {
    CopyKeyOf(p);
    var a := CopyOriginals(m, done)[p + InMemoryFileCopySuffix := m[p]];
    var b := CopyOriginals(m, done + {p});
    assert a.Keys == b.Keys;
  }

  /** Filtering the copied cache, as the rewrite does, finds the same
      deep-linking files as filtering it before the copy, provided no copy
      key is itself a deep-linking file. */
  lemma DeepLinkFilesAfterCopy(m: map<string, string>, paths: set<string>, h: Helpers)
    requires paths <= m.Keys
    requires forall p :: p in paths ==> !h.isDeepLinkingFile(p + InMemoryFileCopySuffix)
    ensures DeepLinkFiles(CopyOriginals(m, paths), h) == DeepLinkFiles(m, h)
  {
  }

  /** The cache after the deep-linking entries among `done` have been purged. */
  function PurgeSome(m: map<string, string>, done: set<string>, h: Helpers): (r: map<string, string>)
    ensures r.Keys == m.Keys
  {
    map k | k in m :: if k in done then h.purgeDeepLinkDecorator(m[k]) else m[k]
  }

  /** Every deep-linking entry purged. */
  function PurgeAll(m: map<string, string>, h: Helpers): (r: map<string, string>)
    ensures r.Keys == m.Keys
    ensures forall k :: k in m && !h.isDeepLinkingFile(k) ==> r[k] == m[k]
    ensures forall k :: k in m && h.isDeepLinkingFile(k) ==> r[k] == h.purgeDeepLinkDecorator(m[k])
  {
    PurgeSome(m, DeepLinkFiles(m, h), h)
  }

  lemma PurgeNone(m: map<string, string>, h: Helpers)
    ensures PurgeSome(m, {}, h) == m
  {
    assert PurgeSome(m, {}, h).Keys == m.Keys;
  }

  lemma PurgeStep(m: map<string, string>, done: set<string>, p: string, purged: string, h: Helpers)
    requires p in m && purged == h.purgeDeepLinkDecorator(m[p])
    ensures PurgeSome(m, done, h)[p := purged] == PurgeSome(m, done + {p}, h)
  {
    var a := PurgeSome(m, done, h)[p := purged];
    var b := PurgeSome(m, done + {p}, h);
    assert a.Keys == b.Keys;
  }

  /** The live rewrite of a full build: every deep-linking entry is purged, then
      the app module gets the config spliced in unless it already has one. */
  function PurgeAndInject(m: map<string, string>, h: Helpers): (r: map<string, string>)
    requires h.appNgModulePath in m
    ensures r.Keys == m.Keys
  {
    var purged := PurgeAll(m, h);
    var app := h.appNgModulePath;
    if h.hasExistingDeepLinkConfig(app, purged[app]) then purged
    else purged[app := h.getUpdatedAppNgModuleContentWithDeepLinkConfig(app, purged[app], h.deepLinkConfigString)]
  }

  /** The rewrite keeps the keys, changes only deep-linking entries and the app
      module, and gives every entry other than an app module that is itself
      deep-linking the content `transformSource` would give it. */
  lemma PurgeAndInjectContents(m: map<string, string>, h: Helpers)
    requires h.appNgModulePath in m
    ensures PurgeAndInject(m, h).Keys == m.Keys
    ensures forall k :: k in m && !h.isDeepLinkingFile(k) && k != h.appNgModulePath ==>
              PurgeAndInject(m, h)[k] == m[k]
    ensures forall k :: k in m && (k != h.appNgModulePath || !h.isDeepLinkingFile(k)) ==>
              PurgeAndInject(m, h)[k] == TransformSource(k, m[k], h)
  {
  }

  /** The one entry where the full-build rewrite and `transformSource` part
      ways: an app module that is itself deep-linking is purged by both, but
      the full build then also splices the config into the purged text when it
      has none, while `transformSource` stops after the purge. */
  lemma PurgeAndInjectDeepLinkingApp(m: map<string, string>, h: Helpers)
    requires h.appNgModulePath in m && h.isDeepLinkingFile(h.appNgModulePath)
    ensures var app := h.appNgModulePath;
            var purged := TransformSource(app, m[app], h);
            purged == h.purgeDeepLinkDecorator(m[app])
            && PurgeAndInject(m, h)[app]
               == if h.hasExistingDeepLinkConfig(app, purged) then purged
                  else h.getUpdatedAppNgModuleContentWithDeepLinkConfig(app, purged, h.deepLinkConfigString)
  {
  }

  /** A key with the extension `.tsoriginal` ends in the copy suffix, and
      `changeExtension(s, ".ts")` is the `.ts` path it is a copy of. */
  lemma RestoreOfShadowKey(s: string)
    requires IsShadowPath(s)
    ensures HasCopySuffix(s) && RestorePath(s) == CopiedPath(s) && Extname(RestorePath(s)) == ".ts"
  {
    RestoreOfShadow(s, InMemoryFileCopySuffix);
    CopyKeyOf(RestorePath(s));
  }

  // The restore step is stated for any shadow test `isShadow`, so that its
  // proofs need nothing about extensions; `ResetSources` instantiates it
  // with `IsShadowPath`.

  /** `j` is the path a shadow entry among `done` restores to. */
  predicate Restores(j: string, m: map<string, string>, done: set<string>, isShadow: string -> bool)
  {
    var s := j + InMemoryFileCopySuffix;
    s in done && s in m && isShadow(s)
  }

  /** The paths the shadow entries among `done` are restored to. */
  function RestoredKeys(m: map<string, string>, done: set<string>, isShadow: string -> bool): (r: set<string>)
    ensures forall j :: j in r <==> Restores(j, m, done, isShadow)
  {
    var r := set s | s in done && s in m && isShadow(s) && HasCopySuffix(s) :: CopiedPath(s);
    forall j
      ensures j in r <==> Restores(j, m, done, isShadow)
    {
      if Restores(j, m, done, isShadow) {
        CopyKeyOf(j);
      }
    }
    r
  }

  /** The entries left in place once the shadow entries among `done` are deleted. */
  function KeptKeys(m: map<string, string>, done: set<string>, isShadow: string -> bool): (r: set<string>)
    ensures r <= m.Keys
    ensures forall k :: k in m && !isShadow(k) ==> k in r
  {
    set k | k in m && !(k in done && isShadow(k))
  }

  /** The cache after the shadow entries among `done` have been written back
      to the paths they are copies of and deleted. */
  function ResetSome(m: map<string, string>, done: set<string>, isShadow: string -> bool): map<string, string>
  {
    map k | k in KeptKeys(m, done, isShadow) + RestoredKeys(m, done, isShadow) ::
      if Restores(k, m, done, isShadow) then m[k + InMemoryFileCopySuffix] else m[k]
  }

  /** Part way through the reset, an entry not yet handled is still there;
      an entry that is neither a handled shadow
      nor the target of one keeps its content, and a handled shadow that is
      no target is gone. */
  lemma ResetSomeFrame(m: map<string, string>, done: set<string>, isShadow: string -> bool)
    ensures forall k :: k in m && k !in done ==> k in ResetSome(m, done, isShadow)
    ensures forall k :: k in m && !Restores(k, m, done, isShadow) && !(k in done && isShadow(k)) ==>
              k in ResetSome(m, done, isShadow) && ResetSome(m, done, isShadow)[k] == m[k]
    ensures forall k :: k in done && isShadow(k) && !Restores(k, m, done, isShadow) ==>
              k !in ResetSome(m, done, isShadow)
  {
  }

  /** No shadow entry is restored to a path that is itself a shadow entry. */
  ghost predicate ShadowLaw(isShadow: string -> bool)
  {
    forall s :: isShadow(s) ==> HasCopySuffix(s) && !isShadow(CopiedPath(s))
  }

  lemma ResetNone(m: map<string, string>, isShadow: string -> bool)
    ensures ResetSome(m, {}, isShadow) == m
  {
    assert ResetSome(m, {}, isShadow).Keys == m.Keys;
  }

  lemma ResetStep(m: map<string, string>, done: set<string>, k: string, isShadow: string -> bool)
    requires k in m && k !in done
    requires ShadowLaw(isShadow)
    ensures isShadow(k) ==>
              ResetSome(m, done + {k}, isShadow) == ResetSome(m, done, isShadow)[CopiedPath(k) := m[k]] - {k}
    ensures !isShadow(k) ==> ResetSome(m, done + {k}, isShadow) == ResetSome(m, done, isShadow)
  {
    if isShadow(k) {
      ResetStepShadow(m, done, k, isShadow);
    } else {
      ResetStepOther(m, done, k, isShadow);
    }
  }

  /** Handling a shadow entry writes it back and deletes it. */
  lemma ResetStepShadow(m: map<string, string>, done: set<string>, k: string, isShadow: string -> bool)
    requires k in m && k !in done
    requires isShadow(k) && ShadowLaw(isShadow)
    ensures ResetSome(m, done + {k}, isShadow) == ResetSome(m, done, isShadow)[CopiedPath(k) := m[k]] - {k}
  {
    var a := ResetSome(m, done, isShadow);
    var b := ResetSome(m, done + {k}, isShadow);
    var r := CopiedPath(k);
    var c := a[r := m[k]] - {k};
    assert r != k by {
      assert |r| < |k|;
    }
    forall j
      ensures Restores(j, m, done + {k}, isShadow) <==> Restores(j, m, done, isShadow) || j == r
    {
      AppendCancel(j, r, InMemoryFileCopySuffix);
    }
    assert b.Keys == c.Keys;
    assert b == c;
  }

  /** Handling any other entry changes nothing. */
  lemma ResetStepOther(m: map<string, string>, done: set<string>, k: string, isShadow: string -> bool)
    requires k in m && k !in done && !isShadow(k)
    ensures ResetSome(m, done + {k}, isShadow) == ResetSome(m, done, isShadow)
  {
    var a := ResetSome(m, done, isShadow);
    var b := ResetSome(m, done + {k}, isShadow);
    forall j
      ensures Restores(j, m, done + {k}, isShadow) <==> Restores(j, m, done, isShadow)
    {
    }
    assert a.Keys == b.Keys;
  }

  /** `.tsoriginal` keys are restored to `.ts` paths, never to shadow keys. */
  lemma ShadowPathLaw()
    ensures ShadowLaw(IsShadowPath)
  {
    forall s | IsShadowPath(s)
      ensures HasCopySuffix(s) && !IsShadowPath(CopiedPath(s))
    {
      RestoreOfShadowKey(s);
    }
  }

  /** `resetSourceFiles` as a function of the cache before it runs. */
  function ResetSources(m: map<string, string>): (r: map<string, string>)
    ensures forall k :: k in m && !IsShadowPath(k) ==> k in r
    ensures forall k :: k in r && k !in m ==> Extname(k) == ".ts"
  {
    var r := ResetSome(m, m.Keys, IsShadowPath);
    assert forall k :: k in r && k !in m ==> Extname(k) == ".ts" by {
      forall k | k in r && k !in m
        ensures Extname(k) == ".ts"
      {
        RestoreOfShadowKey(k + InMemoryFileCopySuffix);
        CopyKeyOf(k);
      }
    }
    r
  }

  /** After `resetSourceFiles` no `.tsoriginal` entry remains. */
  lemma ResetSourcesLeavesNoShadow(m: map<string, string>)
    ensures forall k :: k in ResetSources(m) ==> !IsShadowPath(k)
  {
    forall k | k in ResetSources(m)
      ensures !IsShadowPath(k)
    {
      if Restores(k, m, m.Keys, IsShadowPath) {
        ShadowOfTsConverse(k, InMemoryFileCopySuffix);
      }
    }
  }

  /** Every `.tsoriginal` entry's content is written back to its `.ts` path. */
  lemma ResetSourcesRestores(m: map<string, string>)
    ensures forall s :: s in m && IsShadowPath(s) ==>
              RestorePath(s) in ResetSources(m) && ResetSources(m)[RestorePath(s)] == m[s]
  {
    forall s | s in m && IsShadowPath(s)
      ensures RestorePath(s) in ResetSources(m) && ResetSources(m)[RestorePath(s)] == m[s]
    {
      RestoreOfShadowKey(s);
      assert Restores(RestorePath(s), m, m.Keys, IsShadowPath);
    }
  }

  /** An entry that is neither a shadow nor a `.ts` path is untouched. */
  lemma ResetSourcesKeepsOthers(m: map<string, string>)
    ensures forall k :: k in m && Extname(k) != ".ts" && !IsShadowPath(k) ==>
              k in ResetSources(m) && ResetSources(m)[k] == m[k]
  {
    forall k | k in m && Extname(k) != ".ts" && !IsShadowPath(k)
      ensures k in ResetSources(m) && ResetSources(m)[k] == m[k]
    {
      if Restores(k, m, m.Keys, IsShadowPath) {
        ShadowOfTsConverse(k, InMemoryFileCopySuffix);
      }
    }
  }

  // ---------------------------------------------------------------------------
  // Emit routing
  // ---------------------------------------------------------------------------

  /** The emit callback stores a `.js.map` output verbatim whatever the
      template setting, stores a `.js` output (template-inlined if asked), and
      leaves the cache unchanged for a declaration file. */
  lemma WriteTranspiledRouting(m: map<string, string>, sourcePath: string, data: string,
                               shouldInlineTemplate: bool, h: Helpers)
    ensures var p := h.resolve(sourcePath);
            EndsWith(p, ".js.map") ==> WriteTranspiled(m, sourcePath, data, shouldInlineTemplate, h) == m[p := data]
    ensures var p := h.resolve(sourcePath);
            EndsWith(p, ".js") ==>
              WriteTranspiled(m, sourcePath, data, shouldInlineTemplate, h)
              == m[p := if shouldInlineTemplate then h.inlineTemplate(data, p) else data]
    ensures EndsWith(h.resolve(sourcePath), ".d.ts") ==> WriteTranspiled(m, sourcePath, data, shouldInlineTemplate, h) == m
  {
    var p := h.resolve(sourcePath);
    if EndsWith(p, ".js.map") {
      assert p[|p| - 1] == 'p';
    }
    if EndsWith(p, ".d.ts") {
      assert p[|p| - 2] == 't';
      assert p[|p| - 1] == 's';
    }
  }

  /** The resolved paths of the emitted `.js` and `.js.map` outputs. */
  function OutputPaths(emitted: seq<EmittedFile>, h: Helpers): (r: set<string>)
    ensures forall e :: e in emitted && (EndsWith(h.resolve(e.path), ".js") || EndsWith(h.resolve(e.path), ".js.map"))
                        ==> h.resolve(e.path) in r
  {
    set e | e in emitted && (EndsWith(h.resolve(e.path), ".js") || EndsWith(h.resolve(e.path), ".js.map"))
          :: h.resolve(e.path)
  }

  /** Emitting adds or overwrites only the `.js` and `.js.map` outputs: every
      other entry keeps its content. */
  lemma {:induction false} EmitAllTouchesOnlyOutputs(m: map<string, string>, emitted: seq<EmittedFile>,
                                                     shouldInlineTemplate: bool, h: Helpers)
    ensures EmitAll(m, emitted, shouldInlineTemplate, h).Keys <= m.Keys + OutputPaths(emitted, h)
    ensures forall k :: k in m && k !in OutputPaths(emitted, h) ==>
              k in EmitAll(m, emitted, shouldInlineTemplate, h) && EmitAll(m, emitted, shouldInlineTemplate, h)[k] == m[k]
    decreases |emitted|
  {
    if |emitted| > 0 {
      var init := emitted[..|emitted| - 1];
      var last := emitted[|emitted| - 1];
      EmitAllTouchesOnlyOutputs(m, init, shouldInlineTemplate, h);
      assert OutputPaths(init, h) <= OutputPaths(emitted, h) by {
        forall x | x in OutputPaths(init, h)
          ensures x in OutputPaths(emitted, h)
        {
          var e :| e in init && (EndsWith(h.resolve(e.path), ".js") || EndsWith(h.resolve(e.path), ".js.map"))
                    && x == h.resolve(e.path);
          assert e in emitted;
        }
      }
      assert last in emitted;
    }
  }

  // ---------------------------------------------------------------------------
  // Single-file update
  // ---------------------------------------------------------------------------

  /** The text a single-file update hands to the compiler. */
  function UpdateText(p: string, sourceText: string, wc: WorkerConfig, h: Helpers): (r: string)
    ensures !(wc.useTransforms && h.parseDeepLinks) ==> r == sourceText
    ensures !h.isDeepLinkingFile(p) && p != h.appNgModulePath ==> r == sourceText
  {
    if wc.useTransforms && h.parseDeepLinks then TransformSource(p, sourceText, h) else sourceText
  }

  /** `transpileUpdateWorker` as a function of the cache before it runs;
      `config` is how loading the tsconfig went. A failure writes nothing. */
  function UpdateWorker(m: map<string, string>, filePath: string, config: Outcome<Error>,
                        wc: WorkerConfig, h: Helpers): (r: CacheOutcome)
    ensures r.outcome.Fail? ==> r.files == m
    ensures var p := h.resolve(filePath);
            r.outcome.Pass? <==>
              config.Pass? && p in m && h.transpileModule(UpdateText(p, m[p], wc, h), p).diagnosticCount == 0
    ensures var p := h.resolve(filePath);
            config.Pass? && p in m && r.outcome.Fail? ==> r.outcome == Fail(BuildError(FileFailurePrefix + p))
  {
    var p := h.resolve(filePath);
    if config.Fail? then CacheOutcome(m, config)
    else if p !in m then CacheOutcome(m, Fail(TypeError(UndefinedContent)))
    else
      var sourceText := m[p];
      var out := h.transpileModule(UpdateText(p, sourceText, wc, h), p);
      if out.diagnosticCount > 0 then CacheOutcome(m, Fail(BuildError(FileFailurePrefix + p)))
      else
        var newPath := ChangeExtension(p, ".js");
        var jsContent := if wc.inlineTemplate then h.inlineTemplate(out.outputText, p) else out.outputText;
        CacheOutcome(m[newPath + ".map" := out.sourceMapText][newPath := jsContent][p := sourceText], Pass)
  }

  /** A successful update of a `.ts` path stores exactly three entries: the
      output under the `.js` path, the source map under that path + ".map",
      and the pristine source (read before any rewrite) under the `.ts` path. */
  lemma UpdateWriteBack(m: map<string, string>, filePath: string, config: Outcome<Error>,
                        wc: WorkerConfig, h: Helpers)
    requires UpdateWorker(m, filePath, config, wc, h).outcome.Pass?
    requires Extname(h.resolve(filePath)) == ".ts"
    ensures var p := h.resolve(filePath);
            var js := ChangeExtension(p, ".js");
            var out := h.transpileModule(UpdateText(p, m[p], wc, h), p);
            var r := UpdateWorker(m, filePath, config, wc, h).files;
            && r.Keys == m.Keys + {js, js + ".map"}
            && r[js] == (if wc.inlineTemplate then h.inlineTemplate(out.outputText, p) else out.outputText)
            && r[js + ".map"] == out.sourceMapText
            && r[p] == m[p]
            && forall k :: k in m && k != js && k != js + ".map" ==> r[k] == m[k]
  {
    UpdateKeysDistinct(h.resolve(filePath));
  }

  // ---------------------------------------------------------------------------
  // Full build
  // ---------------------------------------------------------------------------

  /** Copy, rewrite, reset, for any shadow test under which the cache holds
      no shadow entry and every copy key is one: if a copy of every path in
      `paths` was stored and then only those paths were rewritten, restoring
      gives back exactly the cache before the copy. */
  lemma RoundTripWith(m: map<string, string>, paths: set<string>, live: map<string, string>,
                      isShadow: string -> bool)
    requires paths <= m.Keys
    requires forall k :: k in m ==> !isShadow(k)
    requires forall p :: p in paths ==> isShadow(p + InMemoryFileCopySuffix)
    requires live.Keys == m.Keys + ShadowKeys(paths)
    requires forall p :: p in paths ==> live[p + InMemoryFileCopySuffix] == m[p]
    requires forall k :: k in m && k !in paths ==> live[k] == m[k]
    ensures ResetSome(live, live.Keys, isShadow) == m
  {
    var r := ResetSome(live, live.Keys, isShadow);
    forall j | Restores(j, live, live.Keys, isShadow)
      ensures j in paths
    {
      CopyKeyOf(j);
    }
    forall p | p in paths
      ensures Restores(p, live, live.Keys, isShadow)
    {
      CopyKeyOf(p);
    }
    forall j | j in live && !isShadow(j)
      ensures j in m
    {
    }
    assert r.Keys == m.Keys;
  }

  /** The copy key of a `.ts` path is a `.tsoriginal` key, so it is neither a
      `.ts` path nor any other `.ts` path. */
  lemma CopyKeysAreShadows(paths: set<string>)
    requires forall p :: p in paths ==> Extname(p) == ".ts"
    ensures forall p :: p in paths ==> IsShadowPath(p + InMemoryFileCopySuffix)
    ensures forall p :: p in paths ==> Extname(p + InMemoryFileCopySuffix) != ".ts"
  {
    forall p | p in paths
      ensures IsShadowPath(p + InMemoryFileCopySuffix) && Extname(p + InMemoryFileCopySuffix) != ".ts"
    {
      ShadowOfTs(p, InMemoryFileCopySuffix);
    }
  }

  /** Copy, rewrite, reset: if the cache held no `.tsoriginal` entry, a copy
      of every `.ts` path in `paths` was stored, and then only those paths
      were rewritten, `resetSourceFiles` gives back exactly the cache before
      the copy. */
  lemma CopyRewriteResetRoundTrip(m: map<string, string>, paths: set<string>, live: map<string, string>)
    requires paths <= m.Keys
    requires forall k :: k in m ==> !IsShadowPath(k)
    requires forall p :: p in paths ==> Extname(p) == ".ts"
    requires live.Keys == m.Keys + ShadowKeys(paths)
    requires forall p :: p in paths ==> live[p + InMemoryFileCopySuffix] == m[p]
    requires forall k :: k in m && k !in paths ==> live[k] == m[k]
    ensures ResetSources(live) == m
  {
    CopyKeysAreShadows(paths);
    RoundTripWith(m, paths, live, IsShadowPath);
  }

  /** A cache without shadow entries is left as it is by `resetSourceFiles`. */
  lemma ResetSourcesIdentity(m: map<string, string>)
    requires forall k :: k in m ==> !IsShadowPath(k)
    ensures ResetSources(m) == m
  {
    RoundTripWith(m, {}, m, IsShadowPath);
  }

  /** What the full build's rewrite does to the copied cache, given that
      no copy key is a deep-linking file or the app module: the copies and
      every entry outside `paths` keep their content. */
  lemma RewriteKeepsCopies(m: map<string, string>, paths: set<string>, h: Helpers)
    requires DeepLinkFiles(m, h) + {h.appNgModulePath} <= paths <= m.Keys
    requires forall p :: p in paths ==>
               !h.isDeepLinkingFile(p + InMemoryFileCopySuffix) && p + InMemoryFileCopySuffix != h.appNgModulePath
    ensures var live := PurgeAndInject(CopyOriginals(m, paths), h);
            && live.Keys == m.Keys + ShadowKeys(paths)
            && (forall p :: p in paths ==> live[p + InMemoryFileCopySuffix] == m[p])
            && (forall k :: k in m && k !in paths && !IsCopyOf(k, paths) ==> live[k] == m[k])
  {
    CopyOriginalsContents(m, paths);
    PurgeAndInjectContents(CopyOriginals(m, paths), h);
  }

  /** The cache the compiler sees in a full build with deep-link parsing on:
      the originals copied, then the live sources rewritten. */
  function RewrittenSources(m: map<string, string>, h: Helpers): (r: map<string, string>)
    requires h.appNgModulePath in m
    ensures r.Keys == m.Keys + ShadowKeys(DeepLinkFiles(m, h) + {h.appNgModulePath})
  {
    PurgeAndInject(CopyOriginals(m, DeepLinkFiles(m, h) + {h.appNgModulePath}), h)
  }

  /** A full build as a function of the cache before it runs: `config` is
      how loading the tsconfig went and `run` what the compiler did. */
  function FullBuild(m: map<string, string>, config: Outcome<Error>, wc: WorkerConfig, h: Helpers,
                     run: ProgramRun): (r: CacheOutcome)
    ensures config.Fail? ==> r == CacheOutcome(m, config)
    ensures r.outcome.Pass? <==>
              && config.Pass? && run.created.Pass? && run.diagnosticCount == 0
              && (wc.useTransforms && h.parseDeepLinks ==> h.appNgModulePath in m)
  {
    var rewriting := wc.useTransforms && h.parseDeepLinks;
    var deepLinkFiles := DeepLinkFiles(m, h);
    if config.Fail? then CacheOutcome(m, config)
    else if rewriting && h.appNgModulePath !in m then
      CacheOutcome(CopyOriginals(m, deepLinkFiles), Fail(TypeError(UndefinedPath)))
    else
      var live := if rewriting then RewrittenSources(m, h) else m;
      if run.created.Fail? then CacheOutcome(live, run.created)
      else
        var reset := ResetSources(live);
        var emitted := if wc.writeInMemory then EmitAll(reset, run.emitted, wc.inlineTemplate, h) else reset;
        CacheOutcome(emitted, if run.diagnosticCount > 0 then Fail(BuildError(ProgramFailure)) else Pass)
  }

  /** What a full build assumes for its rewrite to be undone: the cache
      holds no shadow entry, and the app module and every deep-linking file
      are `.ts` paths. */
  ghost predicate RewriteUndoable(m: map<string, string>, h: Helpers)
  {
    && (forall k :: k in m ==> !IsShadowPath(k))
    && Extname(h.appNgModulePath) == ".ts"
    && (forall k :: h.isDeepLinkingFile(k) ==> Extname(k) == ".ts")
  }

  /** The paths a full build copies are `.ts` paths. */
  lemma CopiedPathsAreTs(m: map<string, string>, h: Helpers)
    requires RewriteUndoable(m, h)
    ensures forall p :: p in DeepLinkFiles(m, h) + {h.appNgModulePath} ==> Extname(p) == ".ts"
  {
  }

  /** The facts about copied `.ts` paths a full build relies on: their copy
      keys are shadow paths, neither deep-linking files nor the app module,
      and not yet in the cache. */
  lemma CopiedPathsFacts(m: map<string, string>, paths: set<string>, h: Helpers)
    requires RewriteUndoable(m, h)
    requires forall p :: p in paths ==> Extname(p) == ".ts"
    ensures forall p :: p in paths ==> IsShadowPath(p + InMemoryFileCopySuffix)
    ensures forall p :: p in paths ==>
              !h.isDeepLinkingFile(p + InMemoryFileCopySuffix) && p + InMemoryFileCopySuffix != h.appNgModulePath
    ensures forall k :: k in m ==> !IsCopyOf(k, paths)
  {
    forall p | p in paths
      ensures IsShadowPath(p + InMemoryFileCopySuffix)
      ensures !h.isDeepLinkingFile(p + InMemoryFileCopySuffix) && p + InMemoryFileCopySuffix != h.appNgModulePath
    {
      CopyKeyFacts(p, h);
    }
    NoCopyKeys(m, paths);
  }

  /** The copy key of a `.ts` path is a shadow path, so neither a
      deep-linking file nor the app module when both are `.ts` paths. */
  lemma CopyKeyFacts(p: string, h: Helpers)
    requires Extname(p) == ".ts" && Extname(h.appNgModulePath) == ".ts"
    requires forall k :: h.isDeepLinkingFile(k) ==> Extname(k) == ".ts"
    ensures IsShadowPath(p + InMemoryFileCopySuffix)
    ensures !h.isDeepLinkingFile(p + InMemoryFileCopySuffix) && p + InMemoryFileCopySuffix != h.appNgModulePath
  {
    ShadowOfTs(p, InMemoryFileCopySuffix);
  }

  /** A cache without shadow entries holds no copy key of a `.ts` path. */
  lemma NoCopyKeys(m: map<string, string>, paths: set<string>)
    requires forall k :: k in m ==> !IsShadowPath(k)
    requires forall p :: p in paths ==> IsShadowPath(p + InMemoryFileCopySuffix)
    ensures forall k :: k in m ==> !IsCopyOf(k, paths)
  {
    forall k | k in m && HasCopySuffix(k)
      ensures CopiedPath(k) !in paths
    {
      assert k == CopiedPath(k) + InMemoryFileCopySuffix;
    }
  }

  /** Once the compiler has been created, the rewritten sources are put back:
      the cache ends as it was before the build, plus the emitted outputs. */
  lemma FullBuildRestoresSources(m: map<string, string>, config: Outcome<Error>, wc: WorkerConfig, h: Helpers,
                                 run: ProgramRun)
    requires config.Pass? && run.created.Pass?
    requires forall k :: k in m ==> !IsShadowPath(k)
    requires wc.useTransforms && h.parseDeepLinks ==> h.appNgModulePath in m && RewriteUndoable(m, h)
    ensures FullBuild(m, config, wc, h, run).files
            == if wc.writeInMemory then EmitAll(m, run.emitted, wc.inlineTemplate, h) else m
  {
    if wc.useTransforms && h.parseDeepLinks {
      RewriteThenReset(m, h);
    } else {
      ResetSourcesIdentity(m);
    }
  }

  /** The deep-link rewrite of a full build is undone by `resetSourceFiles`. */
  lemma RewriteThenReset(m: map<string, string>, h: Helpers)
    requires h.appNgModulePath in m
    requires RewriteUndoable(m, h)
    ensures ResetSources(RewrittenSources(m, h)) == m
  {
    var paths := DeepLinkFiles(m, h) + {h.appNgModulePath};
    CopiedPathsAreTs(m, h);
    CopiedPathsFacts(m, paths, h);
    RewriteKeepsCopies(m, paths, h);
    CopyRewriteResetRoundTrip(m, paths, PurgeAndInject(CopyOriginals(m, paths), h));
  }

  /** With deep-link parsing on and no app module in the cache, the copy
      throws once the deep-linking files have been copied: the build fails
      with the `TypeError`, and their shadow copies stay in the cache beside
      the untouched entries. */
  lemma FullBuildMissingAppModule(m: map<string, string>, config: Outcome<Error>, wc: WorkerConfig, h: Helpers,
                                  run: ProgramRun)
    requires config.Pass? && wc.useTransforms && h.parseDeepLinks
    requires h.appNgModulePath !in m
    requires forall k :: k in m ==> !IsShadowPath(k)
    requires forall k :: h.isDeepLinkingFile(k) ==> Extname(k) == ".ts"
    ensures var r := FullBuild(m, config, wc, h, run);
            && r.outcome == Fail(TypeError(UndefinedPath))
            && (forall p :: p in m && h.isDeepLinkingFile(p) ==>
                  p + InMemoryFileCopySuffix in r.files && r.files[p + InMemoryFileCopySuffix] == m[p])
            && (forall k :: k in m ==> k in r.files && r.files[k] == m[k])
  {
    var paths := DeepLinkFiles(m, h);
    CopyKeysAreShadows(paths);
    NoCopyKeys(m, paths);
    CopyOriginalsContents(m, paths);
  }

  /** If `ts.createProgram` throws, `resetSourceFiles` is never reached: the
      `.tsoriginal` copy of the app module stays in the cache. */
  lemma FullBuildThrowKeepsShadow(m: map<string, string>, config: Outcome<Error>, wc: WorkerConfig, h: Helpers,
                                  run: ProgramRun)
    requires config.Pass? && run.created.Fail?
    requires wc.useTransforms && h.parseDeepLinks
    requires h.appNgModulePath in m
    requires RewriteUndoable(m, h)
    ensures var r := FullBuild(m, config, wc, h, run);
            var s := h.appNgModulePath + InMemoryFileCopySuffix;
            && r.outcome == run.created
            && IsShadowPath(s) && s in r.files && r.files[s] == m[h.appNgModulePath]
  {
    var paths := DeepLinkFiles(m, h) + {h.appNgModulePath};
    CopiedPathsAreTs(m, h);
    CopiedPathsFacts(m, paths, h);
    RewriteKeepsCopies(m, paths, h);
  }

  /** The in-memory file cache: a path maps to the content last stored for it. */
  class FileCache {
    var files: map<string, string>

    constructor ()
      ensures files == map[]
    {
      files := map[];
    }

    /** `writeTranspiledFilesCallback`: `.js` outputs are stored, template-inlined
        if asked; `.js.map` outputs are stored verbatim; anything else is dropped. */
    method WriteTranspiledFilesCallback(sourcePath: string, data: string, shouldInlineTemplate: bool, h: Helpers)
      modifies this
      ensures files == WriteTranspiled(old(files), sourcePath, data, shouldInlineTemplate, h)
    {
      var p := h.resolve(sourcePath);
      if EndsWith(p, ".js") {
        var content := if shouldInlineTemplate then h.inlineTemplate(data, p) else data;
        files := files[p := content];
      } else if EndsWith(p, ".js.map") {
        files := files[p := data];
      }
    }

    /** Stores a copy of each of `paths` under its copy key, in any order. */
    method CopyEach(paths: set<string>)
      requires paths <= files.Keys
      modifies this
      ensures files == CopyOriginals(old(files), paths)
    {
      var snapshot := files;
      var todo := paths;
      CopyNone(snapshot);
      while todo != {}
        invariant todo <= paths
        invariant files == CopyOriginals(snapshot, paths - todo)
        decreases |todo|
      {
        var p :| p in todo;
        CopyStep(snapshot, paths - todo, p);
        files := files[p + InMemoryFileCopySuffix := snapshot[p]];
        DoneStep(paths, todo, p);
        todo := todo - {p};
      }
      assert paths - todo == paths;
    }

    /** `copyOriginalSourceFiles`: a shadow copy of every deep-linking file and
        of the app module. A missing app module is read as `undefined`, which
        throws after the deep-linking files have been copied. */
    method CopyOriginalSourceFiles(h: Helpers) returns (o: Outcome<Error>)
      modifies this
      ensures o.Pass? <==> h.appNgModulePath in old(files)
      ensures o.Pass? ==>
                files == CopyOriginals(old(files), DeepLinkFiles(old(files), h) + {h.appNgModulePath})
      ensures o.Fail? ==>
                o.error == TypeError(UndefinedPath) && files == CopyOriginals(old(files), DeepLinkFiles(old(files), h))
    {
      var snapshot := files;
      var deepLinkFiles := DeepLinkFiles(snapshot, h);
      CopyEach(deepLinkFiles);
      var app := h.appNgModulePath;
      if app !in snapshot {
        o := Fail(TypeError(UndefinedPath));
        return;
      }
      CopyStep(snapshot, deepLinkFiles, app);
      files := files[app + InMemoryFileCopySuffix := snapshot[app]];
      o := Pass;
    }

    /** Purges each of the entries `paths` in place, in any order. */
    method PurgeEach(paths: set<string>, h: Helpers)
      requires paths <= files.Keys
      modifies this
      ensures files == PurgeSome(old(files), paths, h)
    {
      var snapshot := files;
      var todo := paths;
      PurgeNone(snapshot, h);
      while todo != {}
        invariant todo <= paths
        invariant files == PurgeSome(snapshot, paths - todo, h)
        decreases |todo|
      {
        var p :| p in todo;
        var purged := h.purgeDeepLinkDecorator(snapshot[p]);
        PurgeStep(snapshot, paths - todo, p, purged, h);
        files := files[p := purged];
        DoneStep(paths, todo, p);
        todo := todo - {p};
      }
      assert paths - todo == paths;
    }

    /** The live rewrite of a full build (`transpileWorker`, deep-link branch):
        purge every deep-linking entry in place, then splice the config into
        the app module unless it already has one. */
    method RewriteDeepLinkSources(h: Helpers)
      requires h.appNgModulePath in files
      modifies this
      ensures files == PurgeAndInject(old(files), h)
    {
      PurgeEach(DeepLinkFiles(files, h), h);
      var app := h.appNgModulePath;
      if !h.hasExistingDeepLinkConfig(app, files[app]) {
        files := files[app := h.getUpdatedAppNgModuleContentWithDeepLinkConfig(app, files[app], h.deepLinkConfigString)];
      }
    }

    /** `resetSourceFiles`: every `.tsoriginal` entry is written back to its
        `.ts` path and deleted. */
    method ResetSourceFiles()
      modifies this
      ensures files == ResetSources(old(files))
    {
      var snapshot := files;
      var todo := files.Keys;
      ResetNone(snapshot, IsShadowPath);
      while todo != {}
        invariant todo <= snapshot.Keys
        invariant files == ResetSome(snapshot, snapshot.Keys - todo, IsShadowPath)
        decreases |todo|
      {
        var k :| k in todo;
        ResetEntry(snapshot, snapshot.Keys - todo, k, snapshot[k]);
        DoneStep(snapshot.Keys, todo, k);
        todo := todo - {k};
      }
      assert snapshot.Keys - todo == snapshot.Keys;
    }

    /** One iteration of `resetSourceFiles`, on the entry `k` of the cache as
        it was when the iteration started, whose content was `content`. */
    method ResetEntry(ghost snapshot: map<string, string>, ghost done: set<string>, k: string, content: string)
      requires k in snapshot && k !in done && content == snapshot[k]
      requires files == ResetSome(snapshot, done, IsShadowPath)
      modifies this
      ensures files == ResetSome(snapshot, done + {k}, IsShadowPath)
    {
      ShadowPathLaw();
      ResetStep(snapshot, done, k, IsShadowPath);
      if Extname(k) == ShadowExtension {
        RestoreOfShadowKey(k);
        var originalExtension := ChangeExtension(k, ".ts");
        files := files[originalExtension := content];
        files := files - {k};
      }
    }

    /** `program.emit` handing each emitted file to the callback in order;
        the callback stores only when `writeInMemory` is set. */
    method EmitProgram(emitted: seq<EmittedFile>, writeInMemory: bool, shouldInlineTemplate: bool, h: Helpers)
      modifies this
      ensures files == if writeInMemory then EmitAll(old(files), emitted, shouldInlineTemplate, h) else old(files)
    {
      ghost var start := files;
      for i := 0 to |emitted|
        invariant files == if writeInMemory then EmitAll(start, emitted[..i], shouldInlineTemplate, h) else start
      {
        if writeInMemory {
          WriteTranspiledFilesCallback(emitted[i].path, emitted[i].data, shouldInlineTemplate, h);
        }
        assert emitted[..i + 1][..i] == emitted[..i];
      }
      assert emitted[..|emitted|] == emitted;
    }

    /** `transpileWorker`, the full build: with deep-link parsing on, copy the
        originals and rewrite the live sources; create the program; restore
        the originals; emit; reject if the program reports diagnostics. A
        throw from `ts.createProgram` skips the restore. */
    method TranspileWorker(config: Outcome<Error>, wc: WorkerConfig, h: Helpers, run: ProgramRun)
      returns (o: Outcome<Error>)
      modifies this
      ensures CacheOutcome(files, o) == FullBuild(old(files), config, wc, h, run)
    {
      if config.Fail? {
        return config;
      }
      if wc.useTransforms && h.parseDeepLinks {
        o := CopyOriginalSourceFiles(h);
        if o.Fail? {
          return;
        }
        RewriteDeepLinkSources(h);
      }
      if run.created.Fail? {
        return run.created;
      }
      ResetSourceFiles();
      EmitProgram(run.emitted, wc.writeInMemory, wc.inlineTemplate, h);
      o := if run.diagnosticCount > 0 then Fail(BuildError(ProgramFailure)) else Pass;
    }

    /** `transpileUpdateWorker`: the single-file update of the path `filePath`
        resolves to; `config` is how loading the tsconfig went. */
    method TranspileUpdateWorker(event: string, filePath: string, config: Outcome<Error>, wc: WorkerConfig,
                                 h: Helpers)
      returns (o: Outcome<Error>)
      modifies this
      ensures CacheOutcome(files, o) == UpdateWorker(old(files), filePath, config, wc, h)
    {
      var p := h.resolve(filePath);
      if config.Fail? {
        return config;
      }
      if p !in files {
        return Fail(TypeError(UndefinedContent));
      }
      var sourceText := files[p];
      var textToTranspile := if wc.useTransforms && h.parseDeepLinks then TransformSource(p, sourceText, h) else sourceText;
      var transpileOutput := h.transpileModule(textToTranspile, p);
      if transpileOutput.diagnosticCount > 0 {
        return Fail(BuildError(FileFailurePrefix + p));
      }
      var newPath := ChangeExtension(p, ".js");
      var jsContent := transpileOutput.outputText;
      if wc.inlineTemplate {
        jsContent := h.inlineTemplate(transpileOutput.outputText, p);
      }
      files := files[newPath + ".map" := transpileOutput.sourceMapText];
      files := files[newPath := jsContent];
      files := files[p := sourceText];
      o := Pass;
    }
  }
}
