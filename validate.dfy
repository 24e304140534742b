/**
 * `validate_srt_content` (validator/rules.py): the pre-parse scan, the gate
 * that stops early on blank text, on text without any index line and on
 * malformed timecode lines, the call to the external SRT parser (given here
 * as its outcome), the line map and the per-record checks.
 */
module Validator {
  import opened Models
  import opened SrtText
  import opened PreScanner
  import opened LineMap
  import opened RecordRules

  /** `content[:n]`. */
  function Prefix(s: string, n: nat): (p: string)
    ensures |p| == if |s| <= n then |s| else n
    ensures p <= s
  {
    if |s| <= n then s else s[..n]
  }

  /** `any(e.error_type == "Timecode Format Error" for e in errors)`. */
  predicate HasTimecodeFormatError(errors: seq<Diagnostic>) {
    exists i :: 0 <= i < |errors| && errors[i].errorType == TimecodeFormatError
  }

  /** `any(e.line_number == line and e.error_type == "Timecode Format Error" for e in errors)`. */
  predicate HasTimecodeFormatErrorAt(errors: seq<Diagnostic>, line: int) {
    exists i :: 0 <= i < |errors| && errors[i].lineNumber == Some(line) && errors[i].errorType == TimecodeFormatError
  }

  function EmptyFileReport(filePath: string): Diagnostic {
    Diagnostic(filePath, None, Some(1), ContentError, FileEmpty, None)
  }

  function NoBlocksReport(filePath: string, content: string): Diagnostic {
    Diagnostic(filePath, None, Some(1), ParsingError, NoBlocksFound, Some(Prefix(content, 100)))
  }

  function NothingParsedReport(filePath: string, content: string): Diagnostic {
    Diagnostic(filePath, None, Some(1), ParsingError, NoSubtitlesParsed, Some(content))
  }

  /** The report for a parser that raised; the exception carries no line number, so `lineno` falls back to 1. */
  function ParseFailedReport(filePath: string, content: string): Diagnostic {
    Diagnostic(filePath, None, Some(1), ParsingError, ParserRaised, Some(Prefix(content, 500)))
  }

  /** The diagnostics `validate_srt_content` returns for `content`, given what the parser does with it. */
  function Validation(filePath: string, content: string, parse: ParseOutcome, limits: Limits): seq<Diagnostic> {
    var lines := SplitLines(content);
    var scan := PreScan(filePath, lines, |lines|);
    if Strip(content) == [] then scan.errors + [EmptyFileReport(filePath)]
    else if !scan.foundSubs then scan.errors + [NoBlocksReport(filePath, content)]
    else if HasTimecodeFormatError(scan.errors) then scan.errors
    else match parse
      case ParseFailure =>
        if HasTimecodeFormatErrorAt(scan.errors, 1) then scan.errors
        else scan.errors + [ParseFailedReport(filePath, content)]
      case Parsed(records) =>
        scan.errors + (if records == [] then [NothingParsedReport(filePath, content)] else []) +
        RuleDiagnostics(filePath, records, LastIndexLines(lines, |lines|), limits, |records|)
  }

  /** The function itself, step by step as the source runs. */
  method ValidateSrtContent(filePath: string, content: string, parse: ParseOutcome, limits: Limits)
    returns (errors: seq<Diagnostic>)
    ensures errors == Validation(filePath, content, parse, limits)
  {
    var originalLines := SplitLines(content);
    var foundSubs;
    errors, foundSubs := ScanLines(filePath, originalLines);
    if Strip(content) == [] {
      errors := errors + [EmptyFileReport(filePath)];
      return;
    } else if !foundSubs {
      errors := errors + [NoBlocksReport(filePath, content)];
      return;
    }
    if HasTimecodeFormatError(errors) {
      return;
    }
    var subtitles: seq<Record>;
    match parse {
      case ParseFailure =>
        if !HasTimecodeFormatErrorAt(errors, 1) {
          errors := errors + [ParseFailedReport(filePath, content)];
        }
        return;
      case Parsed(parsedSubs) =>
        if parsedSubs == [] {
          errors := errors + [NothingParsedReport(filePath, content)];
        }
        subtitles := parsedSubs;
    }
    var subtitleLineMap := BuildLineMap(originalLines);
    var ruleErrors := CheckSubtitles(filePath, subtitles, subtitleLineMap, limits);
    errors := errors + ruleErrors;
  }

  // ---------------------------------------------------------------------------
  // What the gate guarantees
  // ---------------------------------------------------------------------------

  /** A line of blank text strips to nothing. */
  lemma BlankTextHasNoIndexLine(content: string)
    requires Strip(content) == []
    ensures forall l :: !DigitsLine(SplitLines(content), l)
  {
    var lines := SplitLines(content);
    StripEnds(content);
    SplitLinesChars(content);
    forall l | 1 <= l <= |lines|
      ensures !DigitsLine(lines, l)
    {
      var line := lines[l - 1];
      forall i | 0 <= i < |line| ensures IsSpace(line[i]) {
        var p :| 0 <= p < |content| && content[p] == line[i];
      }
      StripEnds(line);
    }
  }

  /** Blank or empty text yields exactly one Content Error, whatever the parser does. */
  lemma BlankContent(filePath: string, content: string, parse: ParseOutcome, limits: Limits)
    requires Strip(content) == []
    ensures Validation(filePath, content, parse, limits) == [EmptyFileReport(filePath)]
  {
    BlankTextHasNoIndexLine(content);
    PreScanWithoutIndexLines(filePath, SplitLines(content));
  }

  /** Non-blank text without a digits-only line yields exactly one Parsing Error, whatever the parser does. */
  lemma NoIndexLine(filePath: string, content: string, parse: ParseOutcome, limits: Limits)
    requires Strip(content) != []
    requires forall l :: !DigitsLine(SplitLines(content), l)
    ensures Validation(filePath, content, parse, limits) == [NoBlocksReport(filePath, content)]
  {
    PreScanWithoutIndexLines(filePath, SplitLines(content));
  }

  /**
   * When the text is non-blank and has an index line, any malformed timecode
   * line stops the run before parsing: the result is exactly the scan's
   * reports, whatever the parser does, and is non-empty.
   */
  lemma MalformedTimecodeStops(filePath: string, content: string, parse: ParseOutcome, limits: Limits)
    requires Strip(content) != []
    requires exists l :: DigitsLine(SplitLines(content), l)
    requires PreScan(filePath, SplitLines(content), |SplitLines(content)|).errors != []
    ensures var errors := PreScan(filePath, SplitLines(content), |SplitLines(content)|).errors;
      Validation(filePath, content, parse, limits) == errors &&
      forall j :: 0 <= j < |errors| ==> ReportsMalformedLine(filePath, SplitLines(content), errors[j])
  {
    var lines := SplitLines(content);
    PreScanFindsBlocks(filePath, lines);
    PreScanReports(filePath, lines);
    ReportIsFormatError(filePath, lines, PreScan(filePath, lines, |lines|).errors[0]);
  }

  /** The text gets past the gate: non-blank, with an index line, and no malformed timecode line. */
  ghost predicate PassesGate(filePath: string, content: string) {
    Strip(content) != [] && (exists l :: DigitsLine(SplitLines(content), l)) &&
    PreScan(filePath, SplitLines(content), |SplitLines(content)|).errors == []
  }

  /**
   * A parser failure past the gate yields exactly one Parsing Error at line 1
   * with the first 500 characters: the guard against a duplicate report at the
   * same line can never suppress it, since no timecode format error is left.
   */
  lemma ParserFailure(filePath: string, content: string, limits: Limits)
    requires PassesGate(filePath, content)
    ensures Validation(filePath, content, ParseFailure, limits) == [ParseFailedReport(filePath, content)]
  {
    PreScanFindsBlocks(filePath, SplitLines(content));
  }

  /** Past the gate, an empty parse yields exactly one Parsing Error carrying the whole text. */
  lemma NothingParsed(filePath: string, content: string, limits: Limits)
    requires PassesGate(filePath, content)
    ensures Validation(filePath, content, Parsed([]), limits) == [NothingParsedReport(filePath, content)]
  {
    PreScanFindsBlocks(filePath, SplitLines(content));
  }

  /** Past the gate, parsed records are checked one by one against the line map of the text. */
  lemma ParsedRecords(filePath: string, content: string, records: seq<Record>, limits: Limits)
    requires PassesGate(filePath, content) && records != []
    ensures var lines := SplitLines(content);
      Validation(filePath, content, Parsed(records), limits) ==
        RuleDiagnostics(filePath, records, LastIndexLines(lines, |lines|), limits, |records|)
  {
    var lines := SplitLines(content);
    PreScanFindsBlocks(filePath, lines);
    var rd := RuleDiagnostics(filePath, records, LastIndexLines(lines, |lines|), limits, |records|);
    assert Validation(filePath, content, Parsed(records), limits) == [] + [] + rd;
  }

  /** Past the gate, each once-per-record rule is reported exactly once for every parsed record that breaks it. */
  lemma ParsedRuleCounts(filePath: string, content: string, records: seq<Record>, limits: Limits, rule: Rule)
    requires PassesGate(filePath, content) && records != []
    requires OncePerRecord(rule)
    ensures CountRule(Validation(filePath, content, Parsed(records), limits), rule) ==
            Violations(rule, records, |records|, limits)
  {
    var lines := SplitLines(content);
    ParsedRecords(filePath, content, records, limits);
    RuleCounts(filePath, records, LastIndexLines(lines, |lines|), limits, |records|, rule);
  }

  // ---------------------------------------------------------------------------
  // Every report names the file and carries its check's error type
  // ---------------------------------------------------------------------------

  /** Some record among the first `n` is the one `e` reports about. */
  ghost predicate AboutSomeRecord(e: Diagnostic, filePath: string, records: seq<Record>,
                                  lineMap: map<int, int>, n: nat)
    requires n <= |records|
  {
    exists j :: 0 <= j < n && Attributed(e, filePath, records[j], StartLine(lineMap, records[j]))
  }

  ghost predicate AllAboutRecords(ds: seq<Diagnostic>, filePath: string, records: seq<Record>,
                                  lineMap: map<int, int>, n: nat)
    requires n <= |records|
  {
    forall e :: e in ds ==> AboutSomeRecord(e, filePath, records, lineMap, n)
  }

  lemma AboutAppend(a: seq<Diagnostic>, b: seq<Diagnostic>, filePath: string, records: seq<Record>,
                    lineMap: map<int, int>, n: nat)
    requires 0 < n <= |records|
    requires AllAboutRecords(a, filePath, records, lineMap, n - 1)
    requires AllAttributed(b, filePath, records[n - 1], StartLine(lineMap, records[n - 1]))
    ensures AllAboutRecords(a + b, filePath, records, lineMap, n)
  {
    forall e | e in a + b
      ensures AboutSomeRecord(e, filePath, records, lineMap, n)
    {
      if e in a {
        var j :| 0 <= j < n - 1 && Attributed(e, filePath, records[j], StartLine(lineMap, records[j]));
      }
    }
  }

  lemma AttributedStep(filePath: string, records: seq<Record>, lineMap: map<int, int>, limits: Limits, n: nat)
    requires 0 < n <= |records|
    requires AllAboutRecords(RuleDiagnostics(filePath, records, lineMap, limits, n - 1), filePath, records, lineMap, n - 1)
    ensures AllAboutRecords(RuleDiagnostics(filePath, records, lineMap, limits, n), filePath, records, lineMap, n)
  {
    RuleDiagnosticsStep(filePath, records, lineMap, limits, n);
    var r := records[n - 1];
    var startLine := StartLine(lineMap, r);
    RecordAttribution(filePath, r, n, PrevEnd(records, n - 1), startLine, limits);
    AboutAppend(RuleDiagnostics(filePath, records, lineMap, limits, n - 1),
                RecordDiagnostics(filePath, r, n, PrevEnd(records, n - 1), startLine, limits),
                filePath, records, lineMap, n);
  }

  /** Each report of the per-record checks is about one of the records checked. */
  lemma {:induction false} RuleDiagnosticsAttributed(filePath: string, records: seq<Record>,
                                                    lineMap: map<int, int>, limits: Limits, n: nat)
    requires n <= |records|
    ensures AllAboutRecords(RuleDiagnostics(filePath, records, lineMap, limits, n), filePath, records, lineMap, n)
  {
    if n > 0 {
      RuleDiagnosticsAttributed(filePath, records, lineMap, limits, n - 1);
      AttributedStep(filePath, records, lineMap, limits, n);
    }
  }

  /** A report of the right file whose error type is its check's. */
  predicate Consistent(e: Diagnostic, filePath: string) {
    e.filePath == filePath && e.errorType == e.message.Rule().ErrorType()
  }

  ghost predicate AllConsistent(ds: seq<Diagnostic>, filePath: string) {
    forall e :: e in ds ==> Consistent(e, filePath)
  }

  lemma ConsistentAppend(a: seq<Diagnostic>, b: seq<Diagnostic>, filePath: string)
    requires AllConsistent(a, filePath) && AllConsistent(b, filePath)
    ensures AllConsistent(a + b, filePath)
  {
  }

  lemma RuleDiagnosticsConsistent(filePath: string, records: seq<Record>, lineMap: map<int, int>, limits: Limits)
    ensures AllConsistent(RuleDiagnostics(filePath, records, lineMap, limits, |records|), filePath)
  {
    var ds := RuleDiagnostics(filePath, records, lineMap, limits, |records|);
    RuleDiagnosticsAttributed(filePath, records, lineMap, limits, |records|);
    assert AllAboutRecords(ds, filePath, records, lineMap, |records|);
    forall e | e in ds
      ensures Consistent(e, filePath)
    {
      var j :| 0 <= j < |records| && Attributed(e, filePath, records[j], StartLine(lineMap, records[j]));
    }
  }

  /** The reports the gate and the parse step add. */
  lemma ReportsConsistent(filePath: string, content: string)
    ensures AllConsistent([EmptyFileReport(filePath)], filePath)
    ensures AllConsistent([NoBlocksReport(filePath, content)], filePath)
    ensures AllConsistent([ParseFailedReport(filePath, content)], filePath)
    ensures AllConsistent([NothingParsedReport(filePath, content)], filePath)
    ensures AllConsistent([], filePath)
  {
  }

  /** Every diagnostic returned names the file and carries the error type of the check that produced it. */
  lemma ValidationConsistent(filePath: string, content: string, parse: ParseOutcome, limits: Limits)
    ensures forall e :: e in Validation(filePath, content, parse, limits) ==> Consistent(e, filePath)
  {
    var lines := SplitLines(content);
    var scan := PreScan(filePath, lines, |lines|);
    PreScanReports(filePath, lines);
    assert AllConsistent(scan.errors, filePath);
    ReportsConsistent(filePath, content);
    ConsistentAppend(scan.errors, [EmptyFileReport(filePath)], filePath);
    ConsistentAppend(scan.errors, [NoBlocksReport(filePath, content)], filePath);
    ConsistentAppend(scan.errors, [ParseFailedReport(filePath, content)], filePath);
    if parse.Parsed? {
      var records := parse.records;
      var rules := RuleDiagnostics(filePath, records, LastIndexLines(lines, |lines|), limits, |records|);
      var head := scan.errors + (if records == [] then [NothingParsedReport(filePath, content)] else []);
      ConsistentAppend(scan.errors, if records == [] then [NothingParsedReport(filePath, content)] else [], filePath);
      RuleDiagnosticsConsistent(filePath, records, LastIndexLines(lines, |lines|), limits);
      ConsistentAppend(head, rules, filePath);
    }
    assert AllConsistent(Validation(filePath, content, parse, limits), filePath);
  }
}
