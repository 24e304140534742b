/**
 * The values the checker works on: a parsed subtitle record, the diagnostic
 * record every check produces, the outcome of the external SRT parser and the
 * four numeric thresholds.
 */
module Models {

  datatype Option<T> = None | Some(value: T)

  /** The `error_type` strings a diagnostic can carry. */
  datatype ErrorType =
    | TimecodeFormatError
    | ContentError
    | ParsingError
    | IndexError
    | TimecodeError
    | DurationError
    | FormatError
  {
    function Name(): string {
      match this
      case TimecodeFormatError => "Timecode Format Error"
      case ContentError => "Content Error"
      case ParsingError => "Parsing Error"
      case IndexError => "Index Error"
      case TimecodeError => "Timecode Error"
      case DurationError => "Duration Error"
      case FormatError => "Format Error"
    }
  }

  /** Which check produced a diagnostic. */
  datatype Rule =
    | TimecodeSyntax
    | EmptyFile
    | NoBlocks
    | NothingParsed
    | ParseFailed
    | IndexSequence
    | StartBeforeEnd
    | Overlap
    | MinDuration
    | MaxDuration
    | EmptyContent
    | LineCount
    | LineLength
    | TagBalance
  {
    /** The `error_type` every diagnostic of this check carries. */
    function ErrorType(): ErrorType {
      match this
      case TimecodeSyntax => TimecodeFormatError
      case EmptyFile => ContentError
      case NoBlocks => ParsingError
      case NothingParsed => ParsingError
      case ParseFailed => ParsingError
      case IndexSequence => IndexError
      case StartBeforeEnd => TimecodeError
      case Overlap => TimecodeError
      case MinDuration => DurationError
      case MaxDuration => DurationError
      case EmptyContent => ContentError
      case LineCount => FormatError
      case LineLength => FormatError
      case TagBalance => FormatError
    }
  }

  /**
   * The `message` of a diagnostic: which sentence it is and the values it
   * embeds (the exact wording and the time rendering are not modelled).
   */
  datatype Message =
    | TimecodeLineMalformed
    | FileEmpty
    | NoBlocksFound
    | NoSubtitlesParsed
    | ParserRaised
    | ExpectedIndex(expected: int, found: int)
    | StartNotBeforeEnd(start: int, end: int)
    | OverlapsPrevious(previousEnd: int, start: int)
    | DurationBelowMinimum(durationMs: int, minimumMs: int)
    | DurationAboveMaximum(durationMs: int, maximumMs: int)
    | ContentEmpty
    | TooManyLines(lineCount: int, maximum: int)
    | LineTooLong(length: int, maximum: int)
    | UnclosedTag(tag: string)
  {
    function Rule(): Rule {
      match this
      case TimecodeLineMalformed => TimecodeSyntax
      case FileEmpty => EmptyFile
      case NoBlocksFound => NoBlocks
      case NoSubtitlesParsed => NothingParsed
      case ParserRaised => ParseFailed
      case ExpectedIndex(_, _) => IndexSequence
      case StartNotBeforeEnd(_, _) => StartBeforeEnd
      case OverlapsPrevious(_, _) => Overlap
      case DurationBelowMinimum(_, _) => MinDuration
      case DurationAboveMaximum(_, _) => MaxDuration
      case ContentEmpty => EmptyContent
      case TooManyLines(_, _) => LineCount
      case LineTooLong(_, _) => LineLength
      case UnclosedTag(_) => TagBalance
    }
  }

  /** One reported problem: `ValidationError(file_path, subtitle_index, line_number, error_type, message, content)`. */
  datatype Diagnostic = Diagnostic(
    filePath: string,
    subtitleIndex: Option<int>,
    lineNumber: Option<int>,
    errorType: ErrorType,
    message: Message,
    content: Option<string>)

  /** A parsed subtitle; `start` and `end` are offsets in milliseconds. */
  datatype Record = Record(index: int, start: int, end: int, content: string)

  /** What the external parser did with the whole text: raised, or returned records. */
  datatype ParseOutcome = ParseFailure | Parsed(records: seq<Record>)

  /** The four thresholds the rule engine is configured with. */
  datatype Limits = Limits(
    maxCharsPerLine: int,
    maxLinesPerSub: int,
    minDurationMs: int,
    maxDurationMs: int)

  /** How many diagnostics in `ds` were produced by `rule`. */
  function CountRule(ds: seq<Diagnostic>, rule: Rule): (c: nat)
    ensures c <= |ds|
  {
    if ds == [] then 0
    else CountRule(ds[..|ds| - 1], rule) + if ds[|ds| - 1].message.Rule() == rule then 1 else 0
  }

  /** Counting over a concatenation adds the counts of the parts. */
  lemma {:induction false} CountRuleAppend(a: seq<Diagnostic>, b: seq<Diagnostic>, rule: Rule)
    ensures CountRule(a + b, rule) == CountRule(a, rule) + CountRule(b, rule)
    decreases |b|
  {
    if b == [] {
      assert a + b == a;
    } else {
      CountRuleAppend(a, b[..|b| - 1], rule);
      assert (a + b)[..|a + b| - 1] == a + b[..|b| - 1];
    }
  }

  /** A rule that produced no diagnostic in `ds` has none there at all, and conversely. */
  lemma {:induction false} CountRuleZero(ds: seq<Diagnostic>, rule: Rule)
    ensures CountRule(ds, rule) == 0 <==> forall i :: 0 <= i < |ds| ==> ds[i].message.Rule() != rule
    decreases |ds|
  {
    if ds != [] {
      var init := ds[..|ds| - 1];
      CountRuleZero(init, rule);
      assert forall i :: 0 <= i < |init| ==> init[i] == ds[i];
    }
  }
}
