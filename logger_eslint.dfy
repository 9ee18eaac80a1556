/** The ESLint diagnostic normaliser: each lint message of a result becomes a
    diagnostic whose `lines` hold the source lines the message spans, each
    with an error marker, plus one context line before and one after.
    The line splitter and the set of stop characters are parameters. */
module LoggerEslint {
  import opened Common
  import opened Strings

  /** A diagnostic's level: 'off', 'warn' or 'error'. */
  datatype Level = LevelOff | LevelWarn | LevelError

  /** An ESLint message; `endLine` and `endColumn` may be absent. */
  datatype LintMessage = LintMessage(
    ruleId: Option<string>, severity: int, message: string,
    line: int, column: int, endLine: Option<int>, endColumn: Option<int>)

  /** An ESLint result for one file; `source` may be absent. */
  datatype LintResult = LintResult(
    filePath: string, messages: seq<LintMessage>, errorCount: int, warningCount: int, source: Option<string>)

  /** One printed line of a diagnostic. `text` is absent when the index is
      past the end of the source (JavaScript reads `undefined` there). */
  datatype PrintLine = PrintLine(lineIndex: int, lineNumber: int, text: Option<string>,
                                 errorCharStart: int, errorLength: int)

  datatype Diagnostic = Diagnostic(
    level: Level, diagnosticType: string, language: string, absFileName: string, relFileName: string,
    code: Option<string>, messageText: string, lines: seq<PrintLine>)

  /** The helpers the normaliser imports: `STOP_CHARS` and `splitLineBreaks`. */
  datatype TextHelpers = TextHelpers(stopChars: set<string>, splitLineBreaks: string -> seq<string>)

  /** The `character` of the start and end positions, which the normaliser
      sets to 0 whatever the message's columns are. */
  const StartCharacter := 0
  const EndCharacter := 0

  /** The message of the `TypeError` thrown by `.trim()` on a line index
      outside the source. */
  const UndefinedTrim := "Cannot read property 'trim' of undefined"

  /** `message.severity === 0 ? 'off' : message.severity === 1 ? 'warn' : 'error'`. */
  function LevelOf(severity: int): (l: Level)
    ensures l == LevelOff <==> severity == 0
    ensures l == LevelWarn <==> severity == 1
    ensures l == LevelError <==> severity != 0 && severity != 1
  {
    if severity == 0 then LevelOff else if severity == 1 then LevelWarn else LevelError
  }

  // ---------------------------------------------------------------------------
  // The error span of one line
  // ---------------------------------------------------------------------------

  /** The number of characters from `start` up to the first stop character or
      the end of `text`. A start of -1 reads `charAt(-1)`, which is "". */
  function SpanLength(text: string, start: int, stop: set<string>): (n: nat)
    ensures start + n <= if start < |text| then |text| else start
    ensures forall j :: start <= j < start + n ==> CharAt(text, j) !in stop
    ensures start + n < |text| ==> CharAt(text, start + n) in stop
    decreases |text| - start
  {
    if start >= |text| then 0
    else if CharAt(text, start) in stop then 0
    else 1 + SpanLength(text, start + 1, stop)
  }

  /** The zero-width fix-up: an empty span after the line start is widened to
      the one character before it. */
  function FixZeroWidth(start: int, length: nat): (r: (int, nat))
    ensures length == 0 && start > 0 ==> r == (start - 1, 1)
    ensures length > 0 || start <= 0 ==> r == (start, length)
    ensures r.0 + r.1 == start + length || (r.0 == start - 1 && r.1 == 1)
    ensures start > 0 ==> r.1 > 0
  {
    if length == 0 && start > 0 then (start - 1, 1) else (start, length)
  }

  /** Where the error marker of line `i` starts: the start position's
      character on the first line, the end position's on the last, -1 between. */
  function ErrorCharStart(i: int, startLine: int, endLine: int): (c: int)
    ensures c == 0 || c == -1
    ensures c == 0 <==> i == startLine || i == endLine
  {
    if i == startLine then StartCharacter else if i == endLine then EndCharacter else -1
  }

  /** The printed error line for index `i`. */
  function ErrorLine(srcLines: seq<string>, i: int, startLine: int, endLine: int, stop: set<string>): (r: PrintLine)
    requires 0 <= i < |srcLines|
    ensures r.lineIndex == i && r.lineNumber == i + 1 && r.text == Some(srcLines[i])
    ensures r.errorCharStart == 0 || r.errorCharStart == -1
  {
    var charStart := ErrorCharStart(i, startLine, endLine);
    var span := FixZeroWidth(charStart, SpanLength(srcLines[i], charStart, stop));
    PrintLine(i, i + 1, Some(srcLines[i]), span.0, span.1)
  }

  /** The fix-up never applies, since a marker starts at 0 or -1: the marker
      starts where `ErrorCharStart` says, and its length is the scanned span,
      which stays within the line and holds no stop character. */
  lemma ErrorLineSpan(srcLines: seq<string>, i: int, startLine: int, endLine: int, stop: set<string>)
    requires 0 <= i < |srcLines|
    ensures var l := ErrorLine(srcLines, i, startLine, endLine, stop);
            var c := ErrorCharStart(i, startLine, endLine);
            && l.errorCharStart == c
            && l.errorLength == SpanLength(srcLines[i], c, stop)
            && c + l.errorLength <= |srcLines[i]|
            && forall j :: c <= j < c + l.errorLength ==> CharAt(srcLines[i], j) !in stop
  {
    var c := ErrorCharStart(i, startLine, endLine);
    assert c <= 0;
  }

  // ---------------------------------------------------------------------------
  // The lines of a diagnostic
  // ---------------------------------------------------------------------------

  /** The error lines for the indices `startLine <= i < upTo`: blank lines are
      skipped, and an index outside the source throws from `.trim()`. */
  function ErrorLinesUpTo(srcLines: seq<string>, startLine: int, endLine: int, upTo: int, stop: set<string>)
    : (r: Result<seq<PrintLine>, Error>)
    ensures r.Success? ==> |r.value| <= if startLine < upTo then upTo - startLine else 0
    ensures r.Failure? ==> r.error == TypeError(UndefinedTrim)
    decreases upTo - startLine
  {
    if upTo <= startLine then Success([])
    else
      var prev := ErrorLinesUpTo(srcLines, startLine, endLine, upTo - 1, stop);
      var i := upTo - 1;
      if prev.Failure? then prev
      else if !(0 <= i < |srcLines|) then Failure(TypeError(UndefinedTrim))
      else if Blank(srcLines[i]) then prev
      else Success(prev.value + [ErrorLine(srcLines, i, startLine, endLine, stop)])
  }

  /** The error lines of a message: none when it has no end line. */
  function ErrorLines(srcLines: seq<string>, startLine: int, endLine: Option<int>, stop: set<string>)
    : (r: Result<seq<PrintLine>, Error>)
    ensures endLine.None? ==> r == Success([])
    ensures r.Failure? <==> endLine.Some? && startLine <= endLine.value
                            && (startLine < 0 || endLine.value >= |srcLines|)
  {
    if endLine.None? then Success([])
    else
      ErrorLinesUpToFails(srcLines, startLine, endLine.value, endLine.value + 1, stop);
      ErrorLinesUpTo(srcLines, startLine, endLine.value, endLine.value + 1, stop)
  }

  /** A context line: its markers are -1/-1. */
  function ContextLine(srcLines: seq<string>, i: int): (r: PrintLine)
    ensures r.lineIndex == i && r.lineNumber == i + 1 && r.errorCharStart == -1 && r.errorLength == -1
    ensures r.text.Some? <==> 0 <= i < |srcLines|
    ensures r.text.Some? ==> r.text.value == srcLines[i]
  {
    PrintLine(i, i + 1, if 0 <= i < |srcLines| then Some(srcLines[i]) else None, -1, -1)
  }

  /** The lines of the diagnostic for `message`: none without source text;
      otherwise the error lines, after a leading context line when the start
      line is positive and before a trailing one when the end line is below
      the line count. */
  function DiagnosticLines(message: LintMessage, source: Option<string>, th: TextHelpers)
    : (r: Result<seq<PrintLine>, Error>)
    ensures !Truthy(source) ==> r == Success([])
  {
    if !Truthy(source) then Success([])
    else
      var srcLines := th.splitLineBreaks(source.value);
      var errorLines := ErrorLines(srcLines, message.line, message.endLine, th.stopChars);
      if errorLines.Failure? then errorLines
      else
        var before := if message.line > 0 then [ContextLine(srcLines, message.line - 1)] else [];
        var after := if message.endLine.Some? && message.endLine.value < |srcLines|
                     then [ContextLine(srcLines, message.endLine.value + 1)] else [];
        Success(before + errorLines.value + after)
  }

  /** `loadDiagnostic` as a function of the message and its result. */
  function DiagnosticOf(message: LintMessage, result: LintResult, th: TextHelpers): (r: Result<Diagnostic, Error>)
    ensures !Truthy(result.source) ==> r.Success? && r.value.lines == []
    ensures message.endLine.None? ==> r.Success?
    ensures r.Success? ==> && r.value.level == LevelOf(message.severity)
                           && r.value.absFileName == result.filePath && r.value.relFileName == result.filePath
                           && r.value.code == message.ruleId && r.value.messageText == message.message
  {
    var lines := DiagnosticLines(message, result.source, th);
    if lines.Failure? then Failure(lines.error)
    else Success(Diagnostic(LevelOf(message.severity), "eslint", "typescript", result.filePath, result.filePath,
                            message.ruleId, message.message, lines.value))
  }

  /** The error lines throw exactly when some index of the range lies outside
      the source. */
  lemma {:induction false} ErrorLinesUpToFails(srcLines: seq<string>, startLine: int, endLine: int, upTo: int,
                                               stop: set<string>)
    ensures ErrorLinesUpTo(srcLines, startLine, endLine, upTo, stop).Failure?
            <==> startLine < upTo && (startLine < 0 || upTo > |srcLines|)
    ensures ErrorLinesUpTo(srcLines, startLine, endLine, upTo, stop).Failure? ==>
              ErrorLinesUpTo(srcLines, startLine, endLine, upTo, stop).error == TypeError(UndefinedTrim)
    decreases upTo - startLine
  {
    if upTo > startLine {
      ErrorLinesUpToFails(srcLines, startLine, endLine, upTo - 1, stop);
    }
  }

  /** Line indices strictly increase along `lines`. */
  predicate Increasing(lines: seq<PrintLine>)
  {
    forall k1, k2 :: 0 <= k1 < k2 < |lines| ==> lines[k1].lineIndex < lines[k2].lineIndex
  }

  /** Every line index of `lines` lies in `lo..hi`. */
  predicate IndicesWithin(lines: seq<PrintLine>, lo: int, hi: int)
  {
    forall k :: 0 <= k < |lines| ==> lo <= lines[k].lineIndex <= hi
  }

  /** Each error line lies in the range, on a non-blank line of the source,
      and is the `ErrorLine` of its index (numbered one past it). */
  lemma {:induction false} ErrorLinesUpToSound(srcLines: seq<string>, startLine: int, endLine: int, upTo: int,
                                               stop: set<string>)
    requires ErrorLinesUpTo(srcLines, startLine, endLine, upTo, stop).Success?
    ensures var lines := ErrorLinesUpTo(srcLines, startLine, endLine, upTo, stop).value;
            forall k :: 0 <= k < |lines| ==>
              && startLine <= lines[k].lineIndex < upTo
              && 0 <= lines[k].lineIndex < |srcLines|
              && !Blank(srcLines[lines[k].lineIndex])
              && lines[k] == ErrorLine(srcLines, lines[k].lineIndex, startLine, endLine, stop)
    decreases upTo - startLine
  {
    if upTo > startLine {
      ErrorLinesUpToSound(srcLines, startLine, endLine, upTo - 1, stop);
    }
  }

  /** The error lines come in strictly increasing index order. */
  lemma {:induction false} ErrorLinesUpToIncreasing(srcLines: seq<string>, startLine: int, endLine: int, upTo: int,
                                                    stop: set<string>)
    requires ErrorLinesUpTo(srcLines, startLine, endLine, upTo, stop).Success?
    ensures Increasing(ErrorLinesUpTo(srcLines, startLine, endLine, upTo, stop).value)
    decreases upTo - startLine
  {
    if upTo > startLine {
      ErrorLinesUpToIncreasing(srcLines, startLine, endLine, upTo - 1, stop);
      ErrorLinesUpToSound(srcLines, startLine, endLine, upTo - 1, stop);
      var prev := ErrorLinesUpTo(srcLines, startLine, endLine, upTo - 1, stop).value;
      var lines := ErrorLinesUpTo(srcLines, startLine, endLine, upTo, stop).value;
      if lines != prev {
        var i := upTo - 1;
        assert lines == prev + [ErrorLine(srcLines, i, startLine, endLine, stop)];
        forall k1, k2 | 0 <= k1 < k2 < |lines|
          ensures lines[k1].lineIndex < lines[k2].lineIndex
        {
          assert lines[k1] == prev[k1];
          if k2 < |prev| {
            assert lines[k2] == prev[k2];
          }
        }
      }
    }
  }

  /** Every index of the range is a line of the source, and each non-blank
      one has an error line. */
  lemma {:induction false} ErrorLinesUpToComplete(srcLines: seq<string>, startLine: int, endLine: int, upTo: int,
                                                  stop: set<string>)
    requires ErrorLinesUpTo(srcLines, startLine, endLine, upTo, stop).Success?
    ensures startLine < upTo ==> 0 <= startLine && upTo <= |srcLines|
    ensures forall i :: startLine <= i < upTo && 0 <= i < |srcLines| && !Blank(srcLines[i]) ==>
              HasLine(ErrorLinesUpTo(srcLines, startLine, endLine, upTo, stop).value, i)
    decreases upTo - startLine
  {
    if upTo > startLine {
      var prev := ErrorLinesUpTo(srcLines, startLine, endLine, upTo - 1, stop).value;
      ErrorLinesUpToComplete(srcLines, startLine, endLine, upTo - 1, stop);
      var lines := ErrorLinesUpTo(srcLines, startLine, endLine, upTo, stop).value;
      var i := upTo - 1;
      assert 0 <= i < |srcLines|;
      assert lines == prev || lines == prev + [ErrorLine(srcLines, i, startLine, endLine, stop)];
      forall j | startLine <= j < upTo && 0 <= j < |srcLines| && !Blank(srcLines[j])
        ensures HasLine(lines, j)
      {
        if j == i {
          assert lines == prev + [ErrorLine(srcLines, i, startLine, endLine, stop)];
          assert lines[|lines| - 1].lineIndex == i;
        } else {
          assert HasLine(prev, j);
          var k :| 0 <= k < |prev| && prev[k].lineIndex == j;
          assert lines[k] == prev[k];
        }
      }
    }
  }

  /** Without an end line there are no error lines and no trailing line. */
  lemma NoEndLine(message: LintMessage, source: Option<string>, th: TextHelpers)
    requires message.endLine.None? && Truthy(source)
    ensures var srcLines := th.splitLineBreaks(source.value);
            DiagnosticLines(message, source, th)
            == Success(if message.line > 0 then [ContextLine(srcLines, message.line - 1)] else [])
  {
    var srcLines := th.splitLineBreaks(source.value);
    var before: seq<PrintLine> := if message.line > 0 then [ContextLine(srcLines, message.line - 1)] else [];
    assert ErrorLines(srcLines, message.line, message.endLine, th.stopChars) == Success([]);
    assert before + [] + [] == before;
  }

  /** A message spanning lines `s..e` (s <= e) yields a diagnostic exactly
      when `0 <= s` and `e` is a line of the source; the leading context line
      is there iff `s > 0`; the trailing one is then always there, and its
      text is absent iff `e` is the last line. */
  lemma ContextLines(message: LintMessage, source: Option<string>, th: TextHelpers)
    requires Truthy(source) && message.endLine.Some? && message.line <= message.endLine.value
    ensures var srcLines := th.splitLineBreaks(source.value);
            var r := DiagnosticLines(message, source, th);
            && (r.Success? <==> 0 <= message.line && message.endLine.value < |srcLines|)
            && (r.Failure? ==> r.error == TypeError(UndefinedTrim))
            && (r.Success? ==>
                  && ((message.line > 0) <==> (|r.value| > 0 && r.value[0] == ContextLine(srcLines, message.line - 1)))
                  && |r.value| > 0 && r.value[|r.value| - 1] == ContextLine(srcLines, message.endLine.value + 1)
                  && (r.value[|r.value| - 1].text.None? <==> message.endLine.value + 1 == |srcLines|))
  {
    var srcLines := th.splitLineBreaks(source.value);
    var s, e := message.line, message.endLine.value;
    ErrorLinesUpToFails(srcLines, s, e, e + 1, th.stopChars);
    var errs := ErrorLinesUpTo(srcLines, s, e, e + 1, th.stopChars);
    if errs.Success? {
      ErrorLinesUpToSound(srcLines, s, e, e + 1, th.stopChars);
      var r := DiagnosticLines(message, source, th).value;
      if s <= 0 && |r| > 0 {
        if |errs.value| > 0 {
          assert r[0] == errs.value[0];
          ErrorLineSpan(srcLines, errs.value[0].lineIndex, s, e, th.stopChars);
        }
      }
    }
  }

  /** With the start line past the end line there are no error lines: the
      diagnostic always builds and holds only the context lines. */
  lemma ContextLinesReversed(message: LintMessage, source: Option<string>, th: TextHelpers)
    requires Truthy(source) && message.endLine.Some? && message.line > message.endLine.value
    ensures var srcLines := th.splitLineBreaks(source.value);
            var r := DiagnosticLines(message, source, th);
            && r.Success?
            && |r.value| == (if message.line > 0 then 1 else 0) + (if message.endLine.value < |srcLines| then 1 else 0)
            && forall k :: 0 <= k < |r.value| ==> r.value[k].errorCharStart == -1 && r.value[k].errorLength == -1
  {
  }

  /** Some line of `lines` has index `i`. */
  predicate HasLine(lines: seq<PrintLine>, i: int)
  {
    exists k :: 0 <= k < |lines| && lines[k].lineIndex == i
  }

  /** Increasing runs over consecutive index ranges join into one. */
  lemma IncreasingJoin(xs: seq<PrintLine>, ys: seq<PrintLine>, lo: int, mid: int, hi: int)
    requires Increasing(xs) && Increasing(ys)
    requires IndicesWithin(xs, lo, mid) && IndicesWithin(ys, mid + 1, hi) && lo - 1 <= mid <= hi
    ensures Increasing(xs + ys) && IndicesWithin(xs + ys, lo, hi)
  {
    var zs := xs + ys;
    forall k1, k2 | 0 <= k1 < k2 < |zs|
      ensures zs[k1].lineIndex < zs[k2].lineIndex
    {
      if k2 < |xs| {
        assert zs[k1] == xs[k1] && zs[k2] == xs[k2];
      } else if k1 >= |xs| {
        assert zs[k1] == ys[k1 - |xs|] && zs[k2] == ys[k2 - |xs|];
      } else {
        assert zs[k1] == xs[k1] && zs[k2] == ys[k2 - |xs|];
      }
    }
    forall k | 0 <= k < |zs|
      ensures lo <= zs[k].lineIndex <= hi
    {
      if k >= |xs| {
        assert zs[k] == ys[k - |xs|];
      } else {
        assert zs[k] == xs[k];
      }
    }
  }

  /** When the message's start line is not after its end line, the lines of
      its diagnostic are in strictly increasing index order. */
  lemma LinesIncreasing(message: LintMessage, source: Option<string>, th: TextHelpers)
    requires message.endLine.Some? && message.line <= message.endLine.value
    requires DiagnosticLines(message, source, th).Success?
    ensures Increasing(DiagnosticLines(message, source, th).value)
  {
    if Truthy(source) {
      var srcLines := th.splitLineBreaks(source.value);
      var s, e := message.line, message.endLine.value;
      ErrorLinesUpToSound(srcLines, s, e, e + 1, th.stopChars);
      ErrorLinesUpToIncreasing(srcLines, s, e, e + 1, th.stopChars);
      var errs := ErrorLinesUpTo(srcLines, s, e, e + 1, th.stopChars).value;
      assert Increasing(errs) && IndicesWithin(errs, s, e);
      var before := if s > 0 then [ContextLine(srcLines, s - 1)] else [];
      var after := [ContextLine(srcLines, e + 1)];
      ErrorLinesUpToFails(srcLines, s, e, e + 1, th.stopChars);
      assert DiagnosticLines(message, source, th).value == before + errs + after;
      IncreasingJoin(before, errs, s - 1, s - 1, e);
      IncreasingJoin(before + errs, after, s - 1, e, e + 1);
    }
  }

  // ---------------------------------------------------------------------------
  // The normaliser
  // ---------------------------------------------------------------------------

  /** `loadDiagnostic`: builds the diagnostic line by line, scanning each
      error line's span and pushing the context lines around them. */
  method LoadDiagnostic(message: LintMessage, result: LintResult, th: TextHelpers)
    returns (r: Result<Diagnostic, Error>)
    ensures r == DiagnosticOf(message, result, th)
  {
    var lines: seq<PrintLine> := [];
    if Truthy(result.source) {
      var srcLines := th.splitLineBreaks(result.source.value);
      if message.endLine.Some? {
        var errorLines := CollectErrorLines(srcLines, message.line, message.endLine.value, th.stopChars);
        if errorLines.Failure? {
          return Failure(errorLines.error);
        }
        lines := errorLines.value;
      }
      ghost var errs := lines;
      assert ErrorLines(srcLines, message.line, message.endLine, th.stopChars) == Success(errs);
      ghost var before := if message.line > 0 then [ContextLine(srcLines, message.line - 1)] else [];
      if message.line > 0 {
        lines := [ContextLine(srcLines, message.line - 1)] + lines;
      }
      assert lines == before + errs;
      ghost var after := if message.endLine.Some? && message.endLine.value < |srcLines|
                         then [ContextLine(srcLines, message.endLine.value + 1)] else [];
      if message.endLine.Some? && message.endLine.value < |srcLines| {
        lines := lines + [ContextLine(srcLines, message.endLine.value + 1)];
      }
      assert lines == before + errs + after;
    }
    r := Success(Diagnostic(LevelOf(message.severity), "eslint", "typescript", result.filePath, result.filePath,
                            message.ruleId, message.message, lines));
  }

  /** The outer loop of `loadDiagnostic`: one error line per non-blank line
      from `startLine` to `endLine`, each with its scanned and fixed-up span. */
  method CollectErrorLines(srcLines: seq<string>, startLine: int, endLine: int, stop: set<string>)
    returns (r: Result<seq<PrintLine>, Error>)
    ensures r == ErrorLinesUpTo(srcLines, startLine, endLine, endLine + 1, stop)
  {
    var lines: seq<PrintLine> := [];
    var i := startLine;
    while i <= endLine
      invariant startLine <= i <= endLine + 1 || (i == startLine && endLine < startLine)
      invariant ErrorLinesUpTo(srcLines, startLine, endLine, i, stop) == Success(lines)
      decreases endLine - i
    {
      if !(0 <= i < |srcLines|) {
        ErrorLinesFailFrom(srcLines, startLine, endLine, i, stop);
        return Failure(TypeError(UndefinedTrim));
      }
      if !Blank(srcLines[i]) {
        var text := srcLines[i];
        var errorCharStart := if i == startLine then StartCharacter else if i == endLine then EndCharacter else -1;
        var errorLength: int := ScanSpan(text, errorCharStart, stop);
        if errorLength == 0 && errorCharStart > 0 {
          errorLength := 1;
          errorCharStart := errorCharStart - 1;
        }
        lines := lines + [PrintLine(i, i + 1, Some(text), errorCharStart, errorLength)];
      }
      i := i + 1;
    }
    r := Success(lines);
  }

  /** Once an index of the range lies outside the source, the error lines throw. */
  lemma {:induction false} ErrorLinesFailFrom(srcLines: seq<string>, startLine: int, endLine: int, i: int,
                                              stop: set<string>)
    requires startLine <= i <= endLine && !(0 <= i < |srcLines|)
    ensures ErrorLinesUpTo(srcLines, startLine, endLine, endLine + 1, stop) == Failure(TypeError(UndefinedTrim))
  {
    ErrorLinesUpToFails(srcLines, startLine, endLine, endLine + 1, stop);
  }

  /** The inner loop of `loadDiagnostic`: counts the characters from `start`
      up to the first stop character or the end of the line. */
  method ScanSpan(text: string, start: int, stop: set<string>) returns (length: nat)
    ensures length == SpanLength(text, start, stop)
  {
    length := 0;
    var j := start;
    while j < |text|
      invariant start <= j
      invariant length == j - start
      invariant SpanLength(text, start, stop) == length + SpanLength(text, j, stop)
      decreases |text| - j
    {
      if CharAt(text, j) in stop {
        break;
      }
      length := length + 1;
      j := j + 1;
    }
  }

  /** `runEsLintDiagnostics`: one diagnostic per message, in message order;
      the first message whose diagnostic throws ends the mapping. */
  method RunEsLintDiagnostics(result: LintResult, th: TextHelpers) returns (r: Result<seq<Diagnostic>, Error>)
    ensures r.Success? <==> forall i :: 0 <= i < |result.messages| ==> DiagnosticOf(result.messages[i], result, th).Success?
    ensures r.Success? ==>
              |r.value| == |result.messages|
              && forall i :: 0 <= i < |result.messages| ==> r.value[i] == DiagnosticOf(result.messages[i], result, th).value
    ensures r.Failure? ==>
              exists i :: 0 <= i < |result.messages|
                          && (forall k :: 0 <= k < i ==> DiagnosticOf(result.messages[k], result, th).Success?)
                          && DiagnosticOf(result.messages[i], result, th) == Failure(r.error)
  {
    var diagnostics: seq<Diagnostic> := [];
    for i := 0 to |result.messages|
      invariant |diagnostics| == i
      invariant forall k :: 0 <= k < i ==>
                  DiagnosticOf(result.messages[k], result, th).Success?
                  && diagnostics[k] == DiagnosticOf(result.messages[k], result, th).value
    {
      var d := LoadDiagnostic(result.messages[i], result, th);
      if d.Failure? {
        return Failure(d.error);
      }
      diagnostics := diagnostics + [d.value];
    }
    r := Success(diagnostics);
  }
}
