/** The lint gates and their error messages: type-check diagnostics fail the
    build before linting starts, then each ESLint result with errors or
    warnings fails it, the first such result ending the run. */
module LintUtils {
  import opened Common
  import opened Strings
  import opened LoggerEslint

  const DefaultHeader := "The following files did not pass eslint:"
  const TypeCheckHeader := "The following files failed type checking:"

  // ---------------------------------------------------------------------------
  // Message builders
  // ---------------------------------------------------------------------------

  /** `message || 'The following files did not pass eslint:'`. */
  function Header(message: Option<string>): (h: string)
    ensures Truthy(message) ==> h == message.value
    ensures !Truthy(message) ==> h == DefaultHeader
  {
    if Truthy(message) then message.value else DefaultHeader
  }

  /** The header, a newline, then the failing files one per line. */
  function GenerateErrorMessageForFiles(failingFiles: seq<string>, message: Option<string>): (r: string)
    ensures |failingFiles| > 0 ==> r == Join([Header(message)] + failingFiles, "\n")
    ensures |failingFiles| == 0 ==> r == Header(message) + "\n"
  {
    var parts := [Header(message)] + failingFiles;
    assert |failingFiles| > 0 ==> parts[1..] == failingFiles;
    Header(message) + "\n" + Join(failingFiles, "\n")
  }

  /** Read back line by line, the message gives the header, then each failing
      file, provided none of them holds a newline. */
  lemma ErrorMessageLines(failingFiles: seq<string>, message: Option<string>)
    requires |failingFiles| > 0
    requires '\n' !in Header(message)
    requires forall i :: 0 <= i < |failingFiles| ==> '\n' !in failingFiles[i]
    ensures Split(GenerateErrorMessageForFiles(failingFiles, message), '\n') == [Header(message)] + failingFiles
  {
    var parts := [Header(message)] + failingFiles;
    assert forall i :: 0 <= i < |parts| ==> '\n' !in parts[i] by {
      forall i | 0 <= i < |parts|
        ensures '\n' !in parts[i]
      {
        if i > 0 {
          assert parts[i] == failingFiles[i - 1];
        }
      }
    }
    SplitJoin(parts, '\n');
  }

  /** The case pinned by the module's tests. */
  lemma ErrorMessageExample()
    ensures GenerateErrorMessageForFiles(["test_one.ts", "test_two.ts"], Some("Just testing:"))
            == "Just testing:\ntest_one.ts\ntest_two.ts"
  {
    var files := ["test_one.ts", "test_two.ts"];
    assert files[1..] == ["test_two.ts"];
    var joined := Join(files, "\n");
    assert joined == "test_one.ts" + "\n" + "test_two.ts";
    var msg := "Just testing:" + "\n" + joined;
    assert |msg| == 37;
    forall k | 0 <= k < 37
      ensures msg[k] == "Just testing:\ntest_one.ts\ntest_two.ts"[k]
    {
    }
  }

  // ---------------------------------------------------------------------------
  // File names
  // ---------------------------------------------------------------------------

  /** `.replace(/^\//g, '')`: the anchored pattern matches at most once, so at
      most one leading slash goes. */
  function StripLeadingSlash(s: string): (r: string)
    ensures s == "/" + r || (r == s && (|s| == 0 || s[0] != '/'))
  {
    if |s| > 0 && s[0] == '/' then s[1..] else s
  }

  /** A failure's file name made relative: the first occurrence of `rootDir`
      removed, then one leading slash. */
  function StripRootDir(rootDir: string, fileName: string): (r: string)
    ensures |r| <= |fileName|
  {
    StripLeadingSlash(ReplaceFirst(fileName, rootDir, ""))
  }

  /** A file under the root loses the root and exactly one separating slash,
      whatever follows it, further slashes included. */
  lemma StripRootDirUnder(rootDir: string, rest: string)
    ensures StripRootDir(rootDir, rootDir + "/" + rest) == rest
  {
    assert rootDir + "/" + rest == rootDir + ("/" + rest);
    ReplaceLeadingOccurrence(rootDir, "/" + rest);
  }

  /** `getFileNames`: one relative name per failure, in order. */
  function GetFileNames(rootDir: string, failureFileNames: seq<string>): (r: seq<string>)
    ensures |r| == |failureFileNames|
    ensures forall i :: 0 <= i < |r| ==> r[i] == StripRootDir(rootDir, failureFileNames[i])
  {
    seq(|failureFileNames|, i requires 0 <= i < |failureFileNames| => StripRootDir(rootDir, failureFileNames[i]))
  }

  /** Names all under the root directory come out relative to it, as for
      `/User/john/test.ts` under `/User/john`, which gives `test.ts`. */
  lemma GetFileNamesUnderRoot(rootDir: string, failureFileNames: seq<string>, relative: seq<string>)
    requires |failureFileNames| == |relative|
    requires forall i :: 0 <= i < |relative| ==> failureFileNames[i] == rootDir + "/" + relative[i]
    ensures GetFileNames(rootDir, failureFileNames) == relative
  {
    forall i | 0 <= i < |relative|
      ensures StripRootDir(rootDir, failureFileNames[i]) == relative[i]
    {
      StripRootDirUnder(rootDir, relative[i]);
    }
  }

  /** No name occurs twice. */
  predicate Distinct(names: seq<string>)
  {
    forall i, j :: 0 <= i < j < |names| ==> names[i] != names[j]
  }

  /** `Array.from(new Set(fileNames))`: each name once, where it first occurs. */
  function RemoveDuplicateFileNames(fileNames: seq<string>): (r: seq<string>)
    ensures forall x :: x in r <==> x in fileNames
    ensures Distinct(r)
  {
    if |fileNames| == 0 then []
    else
      var init := fileNames[..|fileNames| - 1];
      var last := fileNames[|fileNames| - 1];
      assert fileNames == init + [last];
      var prev := RemoveDuplicateFileNames(init);
      if last in prev then prev else prev + [last]
  }

  /** The index of the first occurrence of `x` in `s`. */
  function FirstIndex(s: seq<string>, x: string): (i: nat)
    requires x in s
    ensures i < |s| && s[i] == x && x !in s[..i]
  {
    if s[0] == x then 0
    else
      assert s == [s[0]] + s[1..];
      var k := FirstIndex(s[1..], x);
      assert s[..k + 1] == [s[0]] + s[1..][..k];
      k + 1
  }

  /** An index holding `x` with no `x` before it is the first occurrence. */
  lemma FirstIndexUnique(s: seq<string>, x: string, i: nat)
    requires i < |s| && s[i] == x && x !in s[..i]
    ensures FirstIndex(s, x) == i
  {
  }

  /** The names of `r`, all taken from `fileNames`, are in the order of
      their first occurrence there. */
  predicate InFirstOccurrenceOrder(fileNames: seq<string>, r: seq<string>)
  {
    && (forall x :: x in r ==> x in fileNames)
    && forall i, j :: 0 <= i < j < |r| ==> FirstIndex(fileNames, r[i]) < FirstIndex(fileNames, r[j])
  }

  /** The names come out in the order of their first occurrence. */
  lemma {:induction false} RemoveDuplicatesOrder(fileNames: seq<string>)
    ensures InFirstOccurrenceOrder(fileNames, RemoveDuplicateFileNames(fileNames))
  {
    if |fileNames| > 0 {
      var n := |fileNames|;
      var init := fileNames[..n - 1];
      var last := fileNames[n - 1];
      var prev := RemoveDuplicateFileNames(init);
      var r := RemoveDuplicateFileNames(fileNames);
      RemoveDuplicatesOrder(init);
      forall x | x in init
        ensures FirstIndex(fileNames, x) == FirstIndex(init, x)
      {
        var k := FirstIndex(init, x);
        assert fileNames[..k] == init[..k];
        FirstIndexUnique(fileNames, x, k);
      }
      if last !in prev {
        assert fileNames[..n - 1] == init;
        FirstIndexUnique(fileNames, last, n - 1);
        assert r == prev + [last];
      } else {
        assert r == prev;
      }
      forall i, j | 0 <= i < j < |r|
        ensures FirstIndex(fileNames, r[i]) < FirstIndex(fileNames, r[j])
      {
        assert r[i] == prev[i] && prev[i] in init;
        assert FirstIndex(fileNames, r[i]) == FirstIndex(init, prev[i]) < |init|;
        if j < |prev| {
          assert r[j] == prev[j] && prev[j] in init;
          assert FirstIndex(fileNames, r[j]) == FirstIndex(init, prev[j]);
        } else {
          assert r[j] == last;
          assert FirstIndex(fileNames, r[j]) == n - 1;
        }
      }
    }
  }

  /** The case pinned by the module's tests. */
  lemma RemoveDuplicatesExample()
    ensures RemoveDuplicateFileNames(["test.ts", "test.ts"]) == ["test.ts"]
  {
    assert ["test.ts", "test.ts"][..1] == ["test.ts"];
    assert ["test.ts"][..0] == [];
  }

  // ---------------------------------------------------------------------------
  // The gates
  // ---------------------------------------------------------------------------

  /** The lint options of the type checker. */
  datatype LinterOptions = LinterOptions(typeCheck: bool)

  /** `typeCheck`: the program's pre-emit diagnostics when the options ask for
      type checking, and none otherwise. */
  function TypeCheck<D>(linterOptions: Option<LinterOptions>, preEmitDiagnostics: seq<D>): (r: seq<D>)
    ensures linterOptions.Some? && linterOptions.value.typeCheck ==> r == preEmitDiagnostics
    ensures !(linterOptions.Some? && linterOptions.value.typeCheck) ==> r == []
  {
    if linterOptions.Some? && linterOptions.value.typeCheck then preEmitDiagnostics else []
  }

  /** `processTypeCheckDiagnostics`: no diagnostics pass; otherwise the build
      fails, listing the files of the diagnostics once each. The diagnostics'
      relative file names come from `relFileNames`. */
  function ProcessTypeCheckDiagnostics<D>(tsDiagnostics: seq<D>, relFileNames: seq<D> -> seq<string>)
    : (o: Outcome<Error>)
    ensures o.Pass? <==> |tsDiagnostics| == 0
    ensures o.Fail? ==> o.error.BuildError?
  {
    if |tsDiagnostics| > 0 then
      var files := RemoveDuplicateFileNames(relFileNames(tsDiagnostics));
      Fail(BuildError(GenerateErrorMessageForFiles(files, Some(TypeCheckHeader))))
    else Pass
  }

  /** A failed type check's message is the type-check header followed by each
      file with a diagnostic exactly once. */
  lemma TypeCheckMessage<D>(tsDiagnostics: seq<D>, relFileNames: seq<D> -> seq<string>)
    requires |tsDiagnostics| > 0
    requires var names := relFileNames(tsDiagnostics);
             |names| > 0 && forall i :: 0 <= i < |names| ==> '\n' !in names[i]
    ensures var lines := Split(ProcessTypeCheckDiagnostics(tsDiagnostics, relFileNames).error.message, '\n');
            && lines[0] == TypeCheckHeader
            && Distinct(lines[1..])
            && forall x :: x in lines[1..] <==> x in relFileNames(tsDiagnostics)
  {
    var names := relFileNames(tsDiagnostics);
    var files := RemoveDuplicateFileNames(names);
    assert names[0] in files;
    forall i | 0 <= i < |files|
      ensures '\n' !in files[i]
    {
      assert files[i] in names;
    }
    ErrorMessageLines(files, Some(TypeCheckHeader));
    assert ([TypeCheckHeader] + files)[1..] == files;
  }

  /** A result with neither errors nor warnings. */
  predicate Clean(result: LintResult)
  {
    result.errorCount == 0 && result.warningCount == 0
  }

  /** Every message of `result` has a diagnostic. */
  predicate AllLoad(result: LintResult, th: TextHelpers)
  {
    forall i :: 0 <= i < |result.messages| ==> DiagnosticOf(result.messages[i], result, th).Success?
  }

  /** The message a failing lint result is reported with. */
  function LintFailureMessage(filePath: string): (r: string)
    ensures r == DefaultHeader + "\n" + filePath
  {
    GenerateErrorMessageForFiles([filePath], None)
  }

  /** The outcome of processing one lint result. */
  function LintOutcome(result: LintResult, th: TextHelpers): (o: Outcome<Error>)
    ensures o.Pass? <==> Clean(result)
    ensures o.Fail? ==> (o.error.BuildError? <==> AllLoad(result, th))
    ensures o.Fail? && !AllLoad(result, th) ==> o.error == TypeError(UndefinedTrim)
  {
    if Clean(result) then Pass
    else if AllLoad(result, th) then Fail(BuildError(LintFailureMessage(result.filePath)))
    else Fail(TypeError(UndefinedTrim))
  }

  /** The message of a failing result names the default header and exactly
      that result's file. */
  lemma LintFailureLines(filePath: string)
    requires '\n' !in filePath
    ensures Split(LintFailureMessage(filePath), '\n') == [DefaultHeader, filePath]
  {
    ErrorMessageLines([filePath], None);
  }

  /** A diagnostic that cannot be built fails with the `.trim()` TypeError. */
  lemma DiagnosticFailure(message: LintMessage, result: LintResult, th: TextHelpers)
    requires DiagnosticOf(message, result, th).Failure?
    ensures DiagnosticOf(message, result, th).error == TypeError(UndefinedTrim)
  {
    var srcLines := th.splitLineBreaks(result.source.value);
    ErrorLinesUpToFails(srcLines, message.line, message.endLine.value, message.endLine.value + 1, th.stopChars);
  }

  /** `processLintResult`: a result with errors or warnings fails the build
      with a message naming its file, once its diagnostics are built; a clean
      result passes. */
  method ProcessLintResult(result: LintResult, th: TextHelpers) returns (o: Outcome<Error>)
    ensures o.Pass? <==> Clean(result)
    ensures !Clean(result) && AllLoad(result, th) ==> o == Fail(BuildError(LintFailureMessage(result.filePath)))
    ensures !Clean(result) && !AllLoad(result, th) ==> o == Fail(TypeError(UndefinedTrim))
  {
    var files: seq<string> := [];
    if result.errorCount != 0 || result.warningCount != 0 {
      var diagnostics := RunEsLintDiagnostics(result, th);
      if diagnostics.Failure? {
        var i :| 0 <= i < |result.messages|
                 && (forall k :: 0 <= k < i ==> DiagnosticOf(result.messages[k], result, th).Success?)
                 && DiagnosticOf(result.messages[i], result, th) == Failure(diagnostics.error);
        DiagnosticFailure(result.messages[i], result, th);
        return Fail(diagnostics.error);
      }
      files := files + [result.filePath];
    }
    if |files| > 0 {
      return Fail(BuildError(GenerateErrorMessageForFiles(files, None)));
    }
    o := Pass;
  }

  /** `lintFiles`: type checking without options yields no diagnostics, so the
      type-check gate passes; then the results are processed in order, and
      the first result that is not clean ends the run with its outcome. */
  method LintFiles<D>(preEmitDiagnostics: seq<D>, relFileNames: seq<D> -> seq<string>,
                      results: seq<LintResult>, th: TextHelpers)
    returns (o: Outcome<Error>)
    ensures o.Pass? <==> forall i :: 0 <= i < |results| ==> Clean(results[i])
    ensures o.Fail? ==>
              exists i :: 0 <= i < |results|
                          && (forall k :: 0 <= k < i ==> Clean(results[k]))
                          && !Clean(results[i])
                          && o == LintOutcome(results[i], th)
  {
    var diagnostics := TypeCheck(None, preEmitDiagnostics);
    var gate := ProcessTypeCheckDiagnostics(diagnostics, relFileNames);
    if gate.Fail? {
      o := gate;
    } else {
      o := Pass;
      for i := 0 to |results|
        invariant o == Pass
        invariant forall k :: 0 <= k < i ==> Clean(results[k])
      {
        var outcome := ProcessLintResult(results[i], th);
        if outcome.Fail? {
          assert outcome == LintOutcome(results[i], th);
          return outcome;
        }
      }
    }
  }
}
