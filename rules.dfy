/**
 * The per-record checks of `validate_srt_content` (validator/rules.py): index
 * sequence, timing order, overlap, duration bounds, content emptiness, line
 * count, line length and tag balance, run over the parsed records in order.
 */
module RecordRules {
  import opened Models
  import opened SrtText

  /** The tags whose opening and closing occurrences are compared. */
  const CommonTags: seq<string> := ["i", "b", "u", "font"]

  /** `subtitle_line_map.get(sub.index)`. */
  function StartLine(lineMap: map<int, int>, r: Record): Option<int> {
    if r.index in lineMap then Some(lineMap[r.index]) else None
  }

  /** `last_end_time` when record `j` is checked: zero, then the previous record's end. */
  function PrevEnd(records: seq<Record>, j: nat): int
    requires j < |records|
  {
    if j == 0 then 0 else records[j - 1].end
  }

  /** A diagnostic about record `r`. */
  function Report(filePath: string, r: Record, lineNumber: Option<int>, errorType: ErrorType,
                  message: Message, content: Option<string>): Diagnostic
  {
    Diagnostic(filePath, Some(r.index), lineNumber, errorType, message, content)
  }

  // ---------------------------------------------------------------------------
  // Specification of the checks on one record
  // ---------------------------------------------------------------------------

  /** Check 1: the index is the expected one. */
  function IndexCheck(filePath: string, r: Record, expected: int, startLine: Option<int>): seq<Diagnostic> {
    if r.index != expected then [Report(filePath, r, startLine, IndexError, ExpectedIndex(expected, r.index), None)] else []
  }

  /** Check 2: the start is before the end. */
  function OrderCheck(filePath: string, r: Record, startLine: Option<int>): seq<Diagnostic> {
    if r.start >= r.end then [Report(filePath, r, startLine, TimecodeError, StartNotBeforeEnd(r.start, r.end), None)] else []
  }

  /** Check 3: the start is not before the previous end. */
  function OverlapCheck(filePath: string, r: Record, prevEnd: int, startLine: Option<int>): seq<Diagnostic> {
    if r.start < prevEnd then [Report(filePath, r, startLine, TimecodeError, OverlapsPrevious(prevEnd, r.start), None)] else []
  }

  /** Check 4, lower bound. */
  function MinDurationCheck(filePath: string, r: Record, startLine: Option<int>, limits: Limits): seq<Diagnostic> {
    var duration := r.end - r.start;
    if duration < limits.minDurationMs
    then [Report(filePath, r, startLine, DurationError, DurationBelowMinimum(duration, limits.minDurationMs), None)]
    else []
  }

  /** Check 4, upper bound. */
  function MaxDurationCheck(filePath: string, r: Record, startLine: Option<int>, limits: Limits): seq<Diagnostic> {
    var duration := r.end - r.start;
    if duration > limits.maxDurationMs
    then [Report(filePath, r, startLine, DurationError, DurationAboveMaximum(duration, limits.maxDurationMs), None)]
    else []
  }

  /** Checks 1-4: index, start before end, overlap, minimum and maximum duration. */
  function TimingDiagnostics(filePath: string, r: Record, expected: int, prevEnd: int,
                             startLine: Option<int>, limits: Limits): seq<Diagnostic>
  {
    IndexCheck(filePath, r, expected, startLine) + OrderCheck(filePath, r, startLine) +
    OverlapCheck(filePath, r, prevEnd, startLine) + MinDurationCheck(filePath, r, startLine, limits) +
    MaxDurationCheck(filePath, r, startLine, limits)
  }

  /** `sub.content.strip().split("\n")`. */
  function ContentLines(content: string): seq<string> {
    SplitOn(Strip(content), '\n')
  }

  /** The line number of content line `i`: `start_line + i + 1`, or none when the start line is absent or zero. */
  function LongLineNumber(startLine: Option<int>, i: int): Option<int> {
    if startLine.Some? && startLine.value != 0 then Some(startLine.value + i + 1) else None
  }

  /** The report for content line `i` being too long. */
  function LongLine(filePath: string, r: Record, startLine: Option<int>, limits: Limits,
                    lines: seq<string>, i: nat): Diagnostic
    requires i < |lines|
  {
    Report(filePath, r, LongLineNumber(startLine, i), FormatError,
           LineTooLong(|StripTags(lines[i])|, limits.maxCharsPerLine), Some(lines[i]))
  }

  /** Check 5b over the first `n` content lines. */
  function LineLengthDiagnostics(filePath: string, r: Record, startLine: Option<int>, limits: Limits,
                                 lines: seq<string>, n: nat): seq<Diagnostic>
    requires n <= |lines|
  {
    if n == 0 then []
    else LineLengthDiagnostics(filePath, r, startLine, limits, lines, n - 1) +
         (if |StripTags(lines[n - 1])| > limits.maxCharsPerLine
          then [LongLine(filePath, r, startLine, limits, lines, n - 1)] else [])
  }

  /** Check 5a on the content lines of `r`. */
  function LineCountCheck(filePath: string, r: Record, startLine: Option<int>, limits: Limits,
                          lines: seq<string>): seq<Diagnostic>
  {
    if |lines| > limits.maxLinesPerSub
    then [Report(filePath, r, startLine, FormatError, TooManyLines(|lines|, limits.maxLinesPerSub), Some(r.content))]
    else []
  }

  /** Check 5: empty content, or else line count (5a) and line lengths (5b). */
  function ContentDiagnostics(filePath: string, r: Record, startLine: Option<int>, limits: Limits): seq<Diagnostic> {
    var lines := ContentLines(r.content);
    if Strip(r.content) == [] then [Report(filePath, r, startLine, ContentError, ContentEmpty, None)]
    else LineCountCheck(filePath, r, startLine, limits, lines) + LineLengthDiagnostics(filePath, r, startLine, limits, lines, |lines|)
  }

  /** Opening occurrences of `tag` (`<tag>` and `<tag `) in the lower-cased content. */
  function OpenCount(content: string, tag: string): nat {
    Count(Lower(content), "<" + tag + ">") + Count(Lower(content), "<" + tag + " ")
  }

  /** Closing occurrences of `tag` (`</tag>`) in the lower-cased content. */
  function CloseCount(content: string, tag: string): nat {
    Count(Lower(content), "</" + tag + ">")
  }

  function UnclosedTagReport(filePath: string, r: Record, startLine: Option<int>, tag: string): Diagnostic {
    Report(filePath, r, startLine, FormatError, UnclosedTag(tag), Some(r.content))
  }

  /** Check 6 over the first `n` common tags. */
  function TagDiagnostics(filePath: string, r: Record, startLine: Option<int>, n: nat): seq<Diagnostic>
    requires n <= |CommonTags|
  {
    if n == 0 then []
    else TagDiagnostics(filePath, r, startLine, n - 1) +
         (if OpenCount(r.content, CommonTags[n - 1]) != CloseCount(r.content, CommonTags[n - 1])
          then [UnclosedTagReport(filePath, r, startLine, CommonTags[n - 1])] else [])
  }

  /** Everything reported about one record, in the order the checks run. */
  function RecordDiagnostics(filePath: string, r: Record, expected: int, prevEnd: int,
                             startLine: Option<int>, limits: Limits): seq<Diagnostic>
  {
    TimingDiagnostics(filePath, r, expected, prevEnd, startLine, limits) +
    ContentDiagnostics(filePath, r, startLine, limits) +
    TagDiagnostics(filePath, r, startLine, |CommonTags|)
  }

  /** Everything reported about the first `n` records. */
  function RuleDiagnostics(filePath: string, records: seq<Record>, lineMap: map<int, int>,
                           limits: Limits, n: nat): seq<Diagnostic>
    requires n <= |records|
  {
    if n == 0 then []
    else RuleDiagnostics(filePath, records, lineMap, limits, n - 1) +
         RecordDiagnostics(filePath, records[n - 1], n, PrevEnd(records, n - 1),
                           StartLine(lineMap, records[n - 1]), limits)
  }

  // ---------------------------------------------------------------------------
  // The loops
  // ---------------------------------------------------------------------------

  /** The loop of check 5b. */
  method CheckLineLengths(filePath: string, r: Record, startLine: Option<int>, limits: Limits,
                          lines: seq<string>) returns (errors: seq<Diagnostic>)
    ensures errors == LineLengthDiagnostics(filePath, r, startLine, limits, lines, |lines|)
  {
    errors := [];
    for i := 0 to |lines|
      invariant errors == LineLengthDiagnostics(filePath, r, startLine, limits, lines, i)
    {
      var lineNoTags := StripTags(lines[i]);
      if |lineNoTags| > limits.maxCharsPerLine {
        var lineNumber := if startLine.Some? && startLine.value != 0 then Some(startLine.value + i + 1) else None;
        errors := errors + [Report(filePath, r, lineNumber, FormatError,
                                   LineTooLong(|lineNoTags|, limits.maxCharsPerLine), Some(lines[i]))];
      }
    }
  }

  /** The loop of check 6. */
  method CheckTags(filePath: string, r: Record, startLine: Option<int>) returns (errors: seq<Diagnostic>)
    ensures errors == TagDiagnostics(filePath, r, startLine, |CommonTags|)
  {
    errors := [];
    var lowered := Lower(r.content);
    for k := 0 to |CommonTags|
      invariant errors == TagDiagnostics(filePath, r, startLine, k)
    {
      var tag := CommonTags[k];
      var openCount := Count(lowered, "<" + tag + ">") + Count(lowered, "<" + tag + " ");
      var closeCount := Count(lowered, "</" + tag + ">");
      if openCount != closeCount {
        errors := errors + [Report(filePath, r, startLine, FormatError, UnclosedTag(tag), Some(r.content))];
      }
    }
  }

  /** Checks 1-4 on one record. */
  method CheckTiming(filePath: string, r: Record, expectedIndex: int, lastEndTime: int,
                     startLine: Option<int>, limits: Limits) returns (errors: seq<Diagnostic>)
    ensures errors == TimingDiagnostics(filePath, r, expectedIndex, lastEndTime, startLine, limits)
  {
    errors := [];
    if r.index != expectedIndex {
      errors := errors + [Report(filePath, r, startLine, IndexError, ExpectedIndex(expectedIndex, r.index), None)];
    }
    assert errors == IndexCheck(filePath, r, expectedIndex, startLine);
    ghost var done := errors;
    if r.start >= r.end {
      errors := errors + [Report(filePath, r, startLine, TimecodeError, StartNotBeforeEnd(r.start, r.end), None)];
    }
    assert errors == done + OrderCheck(filePath, r, startLine);
    done := errors;
    if r.start < lastEndTime {
      errors := errors + [Report(filePath, r, startLine, TimecodeError, OverlapsPrevious(lastEndTime, r.start), None)];
    }
    assert errors == done + OverlapCheck(filePath, r, lastEndTime, startLine);
    done := errors;
    var durationMs := r.end - r.start;
    if durationMs < limits.minDurationMs {
      errors := errors + [Report(filePath, r, startLine, DurationError,
                                 DurationBelowMinimum(durationMs, limits.minDurationMs), None)];
    }
    assert errors == done + MinDurationCheck(filePath, r, startLine, limits);
    done := errors;
    if durationMs > limits.maxDurationMs {
      errors := errors + [Report(filePath, r, startLine, DurationError,
                                 DurationAboveMaximum(durationMs, limits.maxDurationMs), None)];
    }
    assert errors == done + MaxDurationCheck(filePath, r, startLine, limits);
  }

  /** Check 5 on one record. */
  method CheckContent(filePath: string, r: Record, startLine: Option<int>, limits: Limits)
    returns (errors: seq<Diagnostic>)
    ensures errors == ContentDiagnostics(filePath, r, startLine, limits)
  {
    var stripped := Strip(r.content);
    var lines := SplitOn(stripped, '\n');
    if stripped == [] {
      errors := [Report(filePath, r, startLine, ContentError, ContentEmpty, None)];
    } else {
      errors := [];
      if |lines| > limits.maxLinesPerSub {
        errors := errors + [Report(filePath, r, startLine, FormatError,
                                   TooManyLines(|lines|, limits.maxLinesPerSub), Some(r.content))];
      }
      assert errors == LineCountCheck(filePath, r, startLine, limits, lines);
      var lengthErrors := CheckLineLengths(filePath, r, startLine, limits, lines);
      errors := errors + lengthErrors;
    }
  }

  /** The checks on one record, in source order. */
  method CheckSubtitle(filePath: string, r: Record, expectedIndex: int, lastEndTime: int,
                       startLine: Option<int>, limits: Limits) returns (errors: seq<Diagnostic>)
    ensures errors == RecordDiagnostics(filePath, r, expectedIndex, lastEndTime, startLine, limits)
  {
    errors := CheckTiming(filePath, r, expectedIndex, lastEndTime, startLine, limits);
    var contentErrors := CheckContent(filePath, r, startLine, limits);
    var tagErrors := CheckTags(filePath, r, startLine);
    errors := errors + contentErrors + tagErrors;
  }

  /** The loop over the parsed records, with `expected_index` and `last_end_time`. */
  method CheckSubtitles(filePath: string, records: seq<Record>, lineMap: map<int, int>, limits: Limits)
    returns (errors: seq<Diagnostic>)
    ensures errors == RuleDiagnostics(filePath, records, lineMap, limits, |records|)
  {
    errors := [];
    var lastEndTime := 0;
    var expectedIndex := 1;
    for j := 0 to |records|
      invariant errors == RuleDiagnostics(filePath, records, lineMap, limits, j)
      invariant expectedIndex == j + 1
      invariant lastEndTime == (if j == 0 then 0 else records[j - 1].end)
    {
      var sub := records[j];
      var startLine := if sub.index in lineMap then Some(lineMap[sub.index]) else None;
      var subErrors := CheckSubtitle(filePath, sub, expectedIndex, lastEndTime, startLine, limits);
      errors := errors + subErrors;
      expectedIndex := expectedIndex + 1;
      lastEndTime := sub.end;
    }
  }

  // ---------------------------------------------------------------------------
  // What the checks report
  // ---------------------------------------------------------------------------

  /** The rules that report at most once per record. */
  predicate OncePerRecord(rule: Rule) {
    rule.IndexSequence? || rule.StartBeforeEnd? || rule.Overlap? || rule.MinDuration? ||
    rule.MaxDuration? || rule.EmptyContent? || rule.LineCount?
  }

  /**
   * The condition under which record `j` of `records` breaks `rule`, stated on
   * the records alone: the index differs from its 1-based position, the end
   * is not after the start, the start is before the previous end (zero for
   * the first record), the duration is out of bounds, the content is all
   * whitespace, or the non-blank content has too many lines.
   */
  predicate Breaks(rule: Rule, records: seq<Record>, j: nat, limits: Limits)
    requires j < |records|
  {
    TimingBreaks(rule, records[j], j + 1, PrevEnd(records, j), limits) || ContentBreaks(rule, records[j].content, limits)
  }

  /** The conditions of checks 1-4 for a record at 1-based position `position` after a record ending at `prevEnd`. */
  predicate TimingBreaks(rule: Rule, r: Record, position: int, prevEnd: int, limits: Limits) {
    match rule
    case IndexSequence => r.index != position
    case StartBeforeEnd => r.end <= r.start
    case Overlap => r.start < prevEnd
    case MinDuration => r.end - r.start < limits.minDurationMs
    case MaxDuration => r.end - r.start > limits.maxDurationMs
    case _ => false
  }

  /** The conditions of checks 5 and 5a. */
  predicate ContentBreaks(rule: Rule, content: string, limits: Limits) {
    match rule
    case EmptyContent => AllSpace(content)
    case LineCount => !AllSpace(content) && |ContentLines(content)| > limits.maxLinesPerSub
    case _ => false
  }

  /** How many of the first `n` records break `rule`. */
  function Violations(rule: Rule, records: seq<Record>, n: nat, limits: Limits): (v: nat)
    requires n <= |records|
    ensures v <= n
  {
    if n == 0 then 0
    else Violations(rule, records, n - 1, limits) + (if Breaks(rule, records, n - 1, limits) then 1 else 0)
  }

  lemma {:induction false} ViolationsZero(rule: Rule, records: seq<Record>, n: nat, limits: Limits)
    requires n <= |records|
    ensures Violations(rule, records, n, limits) == 0 <==> forall j :: 0 <= j < n ==> !Breaks(rule, records, j, limits)
  {
    if n > 0 {
      ViolationsZero(rule, records, n - 1, limits);
    }
  }

  /** Line-length reports name the file and the record, and are all of the line-length check. */
  lemma {:induction false} LineLengthRules(filePath: string, r: Record, startLine: Option<int>, limits: Limits,
                                           lines: seq<string>, n: nat)
    requires n <= |lines|
    ensures forall e :: e in LineLengthDiagnostics(filePath, r, startLine, limits, lines, n) ==>
      e.filePath == filePath && e.subtitleIndex == Some(r.index) && e.errorType == FormatError &&
      e.message.Rule() == LineLength
  {
    if n > 0 {
      LineLengthRules(filePath, r, startLine, limits, lines, n - 1);
    }
  }

  /** Tag reports name the file, the record and its start line, and are all of the tag check. */
  lemma {:induction false} TagRules(filePath: string, r: Record, startLine: Option<int>, n: nat)
    requires n <= |CommonTags|
    ensures forall e :: e in TagDiagnostics(filePath, r, startLine, n) ==>
      e.filePath == filePath && e.subtitleIndex == Some(r.index) && e.lineNumber == startLine &&
      e.errorType == FormatError && e.message.Rule() == TagBalance
  {
    if n > 0 {
      TagRules(filePath, r, startLine, n - 1);
    }
  }

  lemma CountRuleNone(ds: seq<Diagnostic>, rule: Rule)
    requires forall e :: e in ds ==> e.message.Rule() != rule
    ensures CountRule(ds, rule) == 0
  {
    CountRuleZero(ds, rule);
  }

  /** 1 when a check that fires under `c` with a report of `checkRule` counts towards `rule`. */
  function Flag(c: bool, checkRule: Rule, rule: Rule): nat {
    if c && checkRule == rule then 1 else 0
  }

  lemma CountRuleSingle(ds: seq<Diagnostic>, rule: Rule, c: bool, d: Diagnostic, dRule: Rule)
    requires ds == if c then [d] else []
    requires d.message.Rule() == dRule
    ensures CountRule(ds, rule) == Flag(c, dRule, rule)
  {
    if c {
      assert ds[..0] == [];
    }
  }

  /** Counting over five consecutive parts adds their counts. */
  lemma CountFive(t1: seq<Diagnostic>, t2: seq<Diagnostic>, t3: seq<Diagnostic>, t4: seq<Diagnostic>,
                  t5: seq<Diagnostic>, rule: Rule)
    ensures CountRule(t1 + t2 + t3 + t4 + t5, rule) ==
            CountRule(t1, rule) + CountRule(t2, rule) + CountRule(t3, rule) + CountRule(t4, rule) + CountRule(t5, rule)
  {
    CountRuleAppend(t1 + t2 + t3 + t4, t5, rule);
    CountRuleAppend(t1 + t2 + t3, t4, rule);
    CountRuleAppend(t1 + t2, t3, rule);
    CountRuleAppend(t1, t2, rule);
  }

  lemma IndexCount(filePath: string, r: Record, position: int, startLine: Option<int>, rule: Rule)
    ensures CountRule(IndexCheck(filePath, r, position, startLine), rule) == Flag(r.index != position, IndexSequence, rule)
  {
    CountRuleSingle(IndexCheck(filePath, r, position, startLine), rule, r.index != position,
                    Report(filePath, r, startLine, IndexError, ExpectedIndex(position, r.index), None), IndexSequence);
  }

  lemma OrderCount(filePath: string, r: Record, startLine: Option<int>, rule: Rule)
    ensures CountRule(OrderCheck(filePath, r, startLine), rule) == Flag(r.start >= r.end, StartBeforeEnd, rule)
  {
    CountRuleSingle(OrderCheck(filePath, r, startLine), rule, r.start >= r.end,
                    Report(filePath, r, startLine, TimecodeError, StartNotBeforeEnd(r.start, r.end), None), StartBeforeEnd);
  }

  lemma OverlapCount(filePath: string, r: Record, prevEnd: int, startLine: Option<int>, rule: Rule)
    ensures CountRule(OverlapCheck(filePath, r, prevEnd, startLine), rule) == Flag(r.start < prevEnd, Overlap, rule)
  {
    CountRuleSingle(OverlapCheck(filePath, r, prevEnd, startLine), rule, r.start < prevEnd,
                    Report(filePath, r, startLine, TimecodeError, OverlapsPrevious(prevEnd, r.start), None), Overlap);
  }

  lemma MinDurationCount(filePath: string, r: Record, startLine: Option<int>, limits: Limits, rule: Rule)
    ensures CountRule(MinDurationCheck(filePath, r, startLine, limits), rule) ==
            Flag(r.end - r.start < limits.minDurationMs, MinDuration, rule)
  {
    var d := r.end - r.start;
    CountRuleSingle(MinDurationCheck(filePath, r, startLine, limits), rule, d < limits.minDurationMs,
                    Report(filePath, r, startLine, DurationError, DurationBelowMinimum(d, limits.minDurationMs), None),
                    MinDuration);
  }

  lemma MaxDurationCount(filePath: string, r: Record, startLine: Option<int>, limits: Limits, rule: Rule)
    ensures CountRule(MaxDurationCheck(filePath, r, startLine, limits), rule) ==
            Flag(r.end - r.start > limits.maxDurationMs, MaxDuration, rule)
  {
    var d := r.end - r.start;
    CountRuleSingle(MaxDurationCheck(filePath, r, startLine, limits), rule, d > limits.maxDurationMs,
                    Report(filePath, r, startLine, DurationError, DurationAboveMaximum(d, limits.maxDurationMs), None),
                    MaxDuration);
  }

  lemma TimingFlags(rule: Rule, r: Record, position: int, prevEnd: int, limits: Limits)
    ensures Flag(r.index != position, IndexSequence, rule) + Flag(r.start >= r.end, StartBeforeEnd, rule) +
            Flag(r.start < prevEnd, Overlap, rule) + Flag(r.end - r.start < limits.minDurationMs, MinDuration, rule) +
            Flag(r.end - r.start > limits.maxDurationMs, MaxDuration, rule)
            == if TimingBreaks(rule, r, position, prevEnd, limits) then 1 else 0
  {
  }

  /** Checks 1-4 report about a record once for each rule it breaks. */
  lemma TimingRuleCount(filePath: string, r: Record, position: int, prevEnd: int, startLine: Option<int>,
                        limits: Limits, rule: Rule)
    ensures CountRule(TimingDiagnostics(filePath, r, position, prevEnd, startLine, limits), rule)
            == if TimingBreaks(rule, r, position, prevEnd, limits) then 1 else 0
  {
    CountFive(IndexCheck(filePath, r, position, startLine), OrderCheck(filePath, r, startLine),
              OverlapCheck(filePath, r, prevEnd, startLine), MinDurationCheck(filePath, r, startLine, limits),
              MaxDurationCheck(filePath, r, startLine, limits), rule);
    IndexCount(filePath, r, position, startLine, rule);
    OrderCount(filePath, r, startLine, rule);
    OverlapCount(filePath, r, prevEnd, startLine, rule);
    MinDurationCount(filePath, r, startLine, limits, rule);
    MaxDurationCount(filePath, r, startLine, limits, rule);
    TimingFlags(rule, r, position, prevEnd, limits);
  }

  lemma ContentFlags(rule: Rule, content: string, limits: Limits)
    ensures (if Strip(content) == [] then Flag(true, EmptyContent, rule)
             else Flag(|ContentLines(content)| > limits.maxLinesPerSub, LineCount, rule))
            == if ContentBreaks(rule, content, limits) then 1 else 0
  {
    StripEnds(content);
  }

  lemma LineCountCount(filePath: string, r: Record, startLine: Option<int>, limits: Limits, lines: seq<string>, rule: Rule)
    ensures CountRule(LineCountCheck(filePath, r, startLine, limits, lines), rule)
            == Flag(|lines| > limits.maxLinesPerSub, LineCount, rule)
  {
    CountRuleSingle(LineCountCheck(filePath, r, startLine, limits, lines), rule, |lines| > limits.maxLinesPerSub,
                    Report(filePath, r, startLine, FormatError, TooManyLines(|lines|, limits.maxLinesPerSub), Some(r.content)),
                    LineCount);
  }

  lemma LineLengthCount(filePath: string, r: Record, startLine: Option<int>, limits: Limits, lines: seq<string>, rule: Rule)
    requires rule != LineLength
    ensures CountRule(LineLengthDiagnostics(filePath, r, startLine, limits, lines, |lines|), rule) == 0
  {
    LineLengthRules(filePath, r, startLine, limits, lines, |lines|);
    CountRuleNone(LineLengthDiagnostics(filePath, r, startLine, limits, lines, |lines|), rule);
  }

  lemma FilledContentRuleCount(filePath: string, r: Record, startLine: Option<int>, limits: Limits, rule: Rule)
    requires rule != LineLength && Strip(r.content) != []
    ensures CountRule(ContentDiagnostics(filePath, r, startLine, limits), rule)
            == Flag(|ContentLines(r.content)| > limits.maxLinesPerSub, LineCount, rule)
  {
    var lines := ContentLines(r.content);
    var count := LineCountCheck(filePath, r, startLine, limits, lines);
    var lengths := LineLengthDiagnostics(filePath, r, startLine, limits, lines, |lines|);
    LineCountCount(filePath, r, startLine, limits, lines, rule);
    LineLengthCount(filePath, r, startLine, limits, lines, rule);
    CountRuleAppend(count, lengths, rule);
  }

  lemma ContentRuleCount(filePath: string, r: Record, startLine: Option<int>, limits: Limits, rule: Rule)
    requires rule != LineLength
    ensures CountRule(ContentDiagnostics(filePath, r, startLine, limits), rule)
            == if ContentBreaks(rule, r.content, limits) then 1 else 0
  {
    if Strip(r.content) == [] {
      CountRuleSingle(ContentDiagnostics(filePath, r, startLine, limits), rule, true,
                      Report(filePath, r, startLine, ContentError, ContentEmpty, None), EmptyContent);
    } else {
      FilledContentRuleCount(filePath, r, startLine, limits, rule);
    }
    ContentFlags(rule, r.content, limits);
  }

  lemma TagCount(filePath: string, r: Record, startLine: Option<int>, rule: Rule)
    requires rule != TagBalance
    ensures CountRule(TagDiagnostics(filePath, r, startLine, |CommonTags|), rule) == 0
  {
    TagRules(filePath, r, startLine, |CommonTags|);
    CountRuleNone(TagDiagnostics(filePath, r, startLine, |CommonTags|), rule);
  }

  lemma CountThree(a: seq<Diagnostic>, b: seq<Diagnostic>, c: seq<Diagnostic>, rule: Rule)
    ensures CountRule(a + b + c, rule) == CountRule(a, rule) + CountRule(b, rule) + CountRule(c, rule)
  {
    CountRuleAppend(a + b, c, rule);
    CountRuleAppend(a, b, rule);
  }

  /** Each once-per-record rule reports about a record exactly when the record breaks it. */
  lemma RecordRuleCountOf(filePath: string, r: Record, position: int, prevEnd: int, startLine: Option<int>,
                          limits: Limits, rule: Rule)
    requires OncePerRecord(rule)
    ensures CountRule(RecordDiagnostics(filePath, r, position, prevEnd, startLine, limits), rule)
            == if TimingBreaks(rule, r, position, prevEnd, limits) || ContentBreaks(rule, r.content, limits) then 1 else 0
  {
    CountThree(TimingDiagnostics(filePath, r, position, prevEnd, startLine, limits),
               ContentDiagnostics(filePath, r, startLine, limits),
               TagDiagnostics(filePath, r, startLine, |CommonTags|), rule);
    TagCount(filePath, r, startLine, rule);
    ContentRuleCount(filePath, r, startLine, limits, rule);
    TimingRuleCount(filePath, r, position, prevEnd, startLine, limits, rule);
    BreaksExclusive(rule, r, position, prevEnd, limits);
  }

  /** No rule is both a timing rule and a content rule. */
  lemma BreaksExclusive(rule: Rule, r: Record, position: int, prevEnd: int, limits: Limits)
    ensures !(TimingBreaks(rule, r, position, prevEnd, limits) && ContentBreaks(rule, r.content, limits))
  {
  }

  /** Each once-per-record rule reports about the record at 1-based `position` exactly when that record breaks it. */
  lemma RecordRuleCount(filePath: string, records: seq<Record>, position: nat, startLine: Option<int>,
                        limits: Limits, rule: Rule)
    requires 0 < position <= |records| && OncePerRecord(rule)
    ensures CountRule(RecordDiagnostics(filePath, records[position - 1], position, PrevEnd(records, position - 1),
                                        startLine, limits), rule)
            == if Breaks(rule, records, position - 1, limits) then 1 else 0
  {
    RecordRuleCountOf(filePath, records[position - 1], position, PrevEnd(records, position - 1), startLine, limits, rule);
  }

  lemma RuleDiagnosticsStep(filePath: string, records: seq<Record>, lineMap: map<int, int>, limits: Limits, n: nat)
    requires 0 < n <= |records|
    ensures RuleDiagnostics(filePath, records, lineMap, limits, n) ==
            RuleDiagnostics(filePath, records, lineMap, limits, n - 1) +
            RecordDiagnostics(filePath, records[n - 1], n, PrevEnd(records, n - 1), StartLine(lineMap, records[n - 1]), limits)
  {
  }

  lemma ViolationsStep(rule: Rule, records: seq<Record>, n: nat, limits: Limits)
    requires 0 < n <= |records|
    ensures Violations(rule, records, n, limits) == Violations(rule, records, n - 1, limits) + if Breaks(rule, records, n - 1, limits) then 1 else 0
  {}

  /** One record more: its once-per-record reports add one exactly when it breaks the rule. */
  lemma RuleCountsStep(filePath: string, records: seq<Record>, lineMap: map<int, int>,
                       limits: Limits, n: nat, rule: Rule)
    requires 0 < n <= |records| && OncePerRecord(rule)
    ensures CountRule(RuleDiagnostics(filePath, records, lineMap, limits, n), rule) - Violations(rule, records, n, limits) ==
            CountRule(RuleDiagnostics(filePath, records, lineMap, limits, n - 1), rule) - Violations(rule, records, n - 1, limits)
  {
    RuleDiagnosticsStep(filePath, records, lineMap, limits, n);
    RecordRuleCount(filePath, records, n, StartLine(lineMap, records[n - 1]), limits, rule);
    CountRuleAppend(RuleDiagnostics(filePath, records, lineMap, limits, n - 1),
                    RecordDiagnostics(filePath, records[n - 1], n, PrevEnd(records, n - 1), StartLine(lineMap, records[n - 1]), limits),
                    rule);
    ViolationsStep(rule, records, n, limits);
  }

  /** Over the whole run, each once-per-record rule reports exactly once per record that breaks it. */
  lemma {:induction false} RuleCounts(filePath: string, records: seq<Record>, lineMap: map<int, int>,
                                      limits: Limits, n: nat, rule: Rule)
    requires n <= |records| && OncePerRecord(rule)
    ensures CountRule(RuleDiagnostics(filePath, records, lineMap, limits, n), rule) == Violations(rule, records, n, limits)
  {
    if n == 0 {
      RuleCountsBase(filePath, records, lineMap, limits, rule);
    } else {
      RuleCounts(filePath, records, lineMap, limits, n - 1, rule);
      RuleCountsStep(filePath, records, lineMap, limits, n, rule);
    }
  }

  lemma RuleCountsBase(filePath: string, records: seq<Record>, lineMap: map<int, int>, limits: Limits, rule: Rule)
    ensures CountRule(RuleDiagnostics(filePath, records, lineMap, limits, 0), rule) == 0 == Violations(rule, records, 0, limits)
  {
    assert RuleDiagnostics(filePath, records, lineMap, limits, 0) == [];
  }

  lemma LineLengthStep(filePath: string, r: Record, startLine: Option<int>, limits: Limits, lines: seq<string>, n: nat)
    requires 0 < n <= |lines|
    ensures LineLengthDiagnostics(filePath, r, startLine, limits, lines, n) ==
            LineLengthDiagnostics(filePath, r, startLine, limits, lines, n - 1) +
            (if |StripTags(lines[n - 1])| > limits.maxCharsPerLine
             then [LongLine(filePath, r, startLine, limits, lines, n - 1)] else [])
  {
  }

  /** Every line-length report is the report for some content line whose tag-stripped text is over the limit. */
  lemma {:induction false} LineLengthSound(filePath: string, r: Record, startLine: Option<int>, limits: Limits,
                                           lines: seq<string>, n: nat)
    requires n <= |lines|
    ensures forall e :: e in LineLengthDiagnostics(filePath, r, startLine, limits, lines, n) ==>
      exists i :: 0 <= i < n && e == LongLine(filePath, r, startLine, limits, lines, i) &&
                  |StripTags(lines[i])| > limits.maxCharsPerLine
  {
    if n > 0 {
      LineLengthStep(filePath, r, startLine, limits, lines, n);
      LineLengthSound(filePath, r, startLine, limits, lines, n - 1);
    }
  }

  /** Every content line whose tag-stripped text is over the limit is reported. */
  lemma {:induction false} LineLengthComplete(filePath: string, r: Record, startLine: Option<int>, limits: Limits,
                                              lines: seq<string>, n: nat)
    requires n <= |lines|
    ensures forall i :: 0 <= i < n && |StripTags(lines[i])| > limits.maxCharsPerLine ==>
      LongLine(filePath, r, startLine, limits, lines, i) in LineLengthDiagnostics(filePath, r, startLine, limits, lines, n)
  {
    if n > 0 {
      LineLengthStep(filePath, r, startLine, limits, lines, n);
      LineLengthComplete(filePath, r, startLine, limits, lines, n - 1);
    }
  }

  /**
   * Line lengths: the report for content line `i` is present exactly when the
   * line's tag-stripped text is over the limit, and there is no other report.
   */
  lemma LineLengthReports(filePath: string, r: Record, startLine: Option<int>, limits: Limits, lines: seq<string>)
    ensures var ds := LineLengthDiagnostics(filePath, r, startLine, limits, lines, |lines|);
      (forall i :: 0 <= i < |lines| ==>
         (LongLine(filePath, r, startLine, limits, lines, i) in ds <==> |StripTags(lines[i])| > limits.maxCharsPerLine)) &&
      (forall e :: e in ds ==> exists i :: 0 <= i < |lines| && e == LongLine(filePath, r, startLine, limits, lines, i))
  {
    var ds := LineLengthDiagnostics(filePath, r, startLine, limits, lines, |lines|);
    LineLengthSound(filePath, r, startLine, limits, lines, |lines|);
    LineLengthComplete(filePath, r, startLine, limits, lines, |lines|);
    forall i | 0 <= i < |lines| && LongLine(filePath, r, startLine, limits, lines, i) in ds
      ensures |StripTags(lines[i])| > limits.maxCharsPerLine
    {
      var e := LongLine(filePath, r, startLine, limits, lines, i);
      var i' :| 0 <= i' < |lines| && e == LongLine(filePath, r, startLine, limits, lines, i') &&
                |StripTags(lines[i'])| > limits.maxCharsPerLine;
      assert lines[i] == e.content.value == lines[i'];
    }
  }

  lemma TagStep(filePath: string, r: Record, startLine: Option<int>, n: nat)
    requires 0 < n <= |CommonTags|
    ensures TagDiagnostics(filePath, r, startLine, n) ==
            TagDiagnostics(filePath, r, startLine, n - 1) +
            (if OpenCount(r.content, CommonTags[n - 1]) != CloseCount(r.content, CommonTags[n - 1])
             then [UnclosedTagReport(filePath, r, startLine, CommonTags[n - 1])] else [])
  {
  }

  /** Every tag report is the report for a common tag whose opening and closing counts differ. */
  lemma {:induction false} TagSound(filePath: string, r: Record, startLine: Option<int>, n: nat)
    requires n <= |CommonTags|
    ensures forall e :: e in TagDiagnostics(filePath, r, startLine, n) ==>
      exists k :: 0 <= k < n && e == UnclosedTagReport(filePath, r, startLine, CommonTags[k]) &&
                  OpenCount(r.content, CommonTags[k]) != CloseCount(r.content, CommonTags[k])
  {
    if n > 0 {
      TagStep(filePath, r, startLine, n);
      TagSound(filePath, r, startLine, n - 1);
    }
  }

  /** Every common tag whose opening and closing counts differ is reported. */
  lemma {:induction false} TagComplete(filePath: string, r: Record, startLine: Option<int>, n: nat)
    requires n <= |CommonTags|
    ensures forall k :: 0 <= k < n && OpenCount(r.content, CommonTags[k]) != CloseCount(r.content, CommonTags[k]) ==>
      UnclosedTagReport(filePath, r, startLine, CommonTags[k]) in TagDiagnostics(filePath, r, startLine, n)
  {
    if n > 0 {
      TagStep(filePath, r, startLine, n);
      TagComplete(filePath, r, startLine, n - 1);
    }
  }

  /**
   * Tag balance: the report for a common tag is present exactly when its
   * opening and closing counts differ, and there is no other report, so
   * balanced content gets none.
   */
  lemma TagReports(filePath: string, r: Record, startLine: Option<int>)
    ensures var ds := TagDiagnostics(filePath, r, startLine, |CommonTags|);
      (forall k :: 0 <= k < |CommonTags| ==>
        (UnclosedTagReport(filePath, r, startLine, CommonTags[k]) in ds <==>
         OpenCount(r.content, CommonTags[k]) != CloseCount(r.content, CommonTags[k]))) &&
      ((forall k :: 0 <= k < |CommonTags| ==> OpenCount(r.content, CommonTags[k]) == CloseCount(r.content, CommonTags[k])) ==>
         ds == [])
  {
    var ds := TagDiagnostics(filePath, r, startLine, |CommonTags|);
    TagSound(filePath, r, startLine, |CommonTags|);
    TagComplete(filePath, r, startLine, |CommonTags|);
    forall k | 0 <= k < |CommonTags| && UnclosedTagReport(filePath, r, startLine, CommonTags[k]) in ds
      ensures OpenCount(r.content, CommonTags[k]) != CloseCount(r.content, CommonTags[k])
    {
      var e := UnclosedTagReport(filePath, r, startLine, CommonTags[k]);
      var k' :| 0 <= k' < |CommonTags| && e == UnclosedTagReport(filePath, r, startLine, CommonTags[k']) &&
                OpenCount(r.content, CommonTags[k']) != CloseCount(r.content, CommonTags[k']);
      assert CommonTags[k] == e.message.tag == CommonTags[k'];
    }
    if ds != [] {
      assert ds[0] in ds;
    }
  }

  /** Content without `<` has no opening or closing tag, so it never fails the tag check. */
  lemma TaglessContentBalanced(content: string, tag: string)
    requires forall i :: 0 <= i < |content| ==> content[i] != '<'
    ensures OpenCount(content, tag) == 0 && CloseCount(content, tag) == 0
  {
    var lowered := Lower(content);
    forall p | |p| > 0 && p[0] == '<'
      ensures Count(lowered, p) == 0
    {
      forall i: nat | i <= |lowered| ensures !OccursAt(lowered, p, i) {
        if i + |p| <= |lowered| {
          assert lowered[i..i + |p|][0] == lowered[i];
        }
      }
      CountSpec(lowered, p);
    }
    assert ("<" + tag + ">")[0] == '<';
    assert ("<" + tag + " ")[0] == '<';
    assert ("</" + tag + ">")[0] == '<';
  }

  /**
   * A report about record `r` names the file and the record's index, has the
   * error type of its check, and carries the record's mapped line number
   * unless it is a line-length report.
   */
  predicate Attributed(e: Diagnostic, filePath: string, r: Record, startLine: Option<int>) {
    e.filePath == filePath && e.subtitleIndex == Some(r.index) &&
    e.errorType == e.message.Rule().ErrorType() &&
    (e.message.Rule() != LineLength ==> e.lineNumber == startLine)
  }

  ghost predicate AllAttributed(ds: seq<Diagnostic>, filePath: string, r: Record, startLine: Option<int>) {
    forall e :: e in ds ==> Attributed(e, filePath, r, startLine)
  }

  lemma AttributedAppend(a: seq<Diagnostic>, b: seq<Diagnostic>, filePath: string, r: Record, startLine: Option<int>)
    requires AllAttributed(a, filePath, r, startLine) && AllAttributed(b, filePath, r, startLine)
    ensures AllAttributed(a + b, filePath, r, startLine)
  {
  }

  lemma TimingAttribution(filePath: string, r: Record, expected: int, prevEnd: int,
                          startLine: Option<int>, limits: Limits)
    ensures AllAttributed(TimingDiagnostics(filePath, r, expected, prevEnd, startLine, limits), filePath, r, startLine)
  {
    var t1 := IndexCheck(filePath, r, expected, startLine);
    var t2 := OrderCheck(filePath, r, startLine);
    var t3 := OverlapCheck(filePath, r, prevEnd, startLine);
    var t4 := MinDurationCheck(filePath, r, startLine, limits);
    var t5 := MaxDurationCheck(filePath, r, startLine, limits);
    TimingChecksAttributed(filePath, r, expected, prevEnd, startLine, limits);
    AttributedFive(t1, t2, t3, t4, t5, filePath, r, startLine);
  }

  lemma TimingChecksAttributed(filePath: string, r: Record, expected: int, prevEnd: int,
                               startLine: Option<int>, limits: Limits)
    ensures AllAttributed(IndexCheck(filePath, r, expected, startLine), filePath, r, startLine)
    ensures AllAttributed(OrderCheck(filePath, r, startLine), filePath, r, startLine)
    ensures AllAttributed(OverlapCheck(filePath, r, prevEnd, startLine), filePath, r, startLine)
    ensures AllAttributed(MinDurationCheck(filePath, r, startLine, limits), filePath, r, startLine)
    ensures AllAttributed(MaxDurationCheck(filePath, r, startLine, limits), filePath, r, startLine)
  {
  }

  lemma AttributedFive(t1: seq<Diagnostic>, t2: seq<Diagnostic>, t3: seq<Diagnostic>, t4: seq<Diagnostic>,
                       t5: seq<Diagnostic>, filePath: string, r: Record, startLine: Option<int>)
    requires AllAttributed(t1, filePath, r, startLine) && AllAttributed(t2, filePath, r, startLine)
    requires AllAttributed(t3, filePath, r, startLine) && AllAttributed(t4, filePath, r, startLine)
    requires AllAttributed(t5, filePath, r, startLine)
    ensures AllAttributed(t1 + t2 + t3 + t4 + t5, filePath, r, startLine)
  {
    AttributedAppend(t1, t2, filePath, r, startLine);
    AttributedAppend(t1 + t2, t3, filePath, r, startLine);
    AttributedAppend(t1 + t2 + t3, t4, filePath, r, startLine);
    AttributedAppend(t1 + t2 + t3 + t4, t5, filePath, r, startLine);
  }

  lemma ContentAttribution(filePath: string, r: Record, startLine: Option<int>, limits: Limits)
    ensures AllAttributed(ContentDiagnostics(filePath, r, startLine, limits), filePath, r, startLine)
  {
    var lines := ContentLines(r.content);
    if Strip(r.content) != [] {
      var count := LineCountCheck(filePath, r, startLine, limits, lines);
      var lengths := LineLengthDiagnostics(filePath, r, startLine, limits, lines, |lines|);
      assert AllAttributed(lengths, filePath, r, startLine) by {
        LineLengthRules(filePath, r, startLine, limits, lines, |lines|);
      }
      assert AllAttributed(count, filePath, r, startLine);
      AttributedAppend(count, lengths, filePath, r, startLine);
    }
  }

  /** Every report about a record is attributed to it. */
  lemma RecordAttribution(filePath: string, r: Record, expected: int, prevEnd: int,
                          startLine: Option<int>, limits: Limits)
    ensures AllAttributed(RecordDiagnostics(filePath, r, expected, prevEnd, startLine, limits), filePath, r, startLine)
  {
    var timing := TimingDiagnostics(filePath, r, expected, prevEnd, startLine, limits);
    var content := ContentDiagnostics(filePath, r, startLine, limits);
    var tags := TagDiagnostics(filePath, r, startLine, |CommonTags|);
    TimingAttribution(filePath, r, expected, prevEnd, startLine, limits);
    ContentAttribution(filePath, r, startLine, limits);
    assert AllAttributed(tags, filePath, r, startLine) by {
      TagRules(filePath, r, startLine, |CommonTags|);
    }
    AttributedAppend(timing, content, filePath, r, startLine);
    AttributedAppend(timing + content, tags, filePath, r, startLine);
  }

  /** Content without `<` passes the tag check. */
  lemma TaglessPasses(filePath: string, r: Record, startLine: Option<int>)
    requires forall i :: 0 <= i < |r.content| ==> r.content[i] != '<'
    ensures TagDiagnostics(filePath, r, startLine, |CommonTags|) == []
  {
    forall k | 0 <= k < |CommonTags|
      ensures OpenCount(r.content, CommonTags[k]) == CloseCount(r.content, CommonTags[k])
    {
      TaglessContentBalanced(r.content, CommonTags[k]);
    }
    TagReports(filePath, r, startLine);
  }
}
