# validate_srt_script — a Dafny model of the SRT checker and fixer

This project models the two core routines of the SRT subtitle validator:

- `validate_srt_content` (validator/rules.py). It runs in six stages:
  1. It pre-scans the raw lines for block structure and checks each block's
     timecode line against the strict `HH:MM:SS,mmm --> HH:MM:SS,mmm` grammar.
  2. It stops early on a blank file, on a file without index lines, or after a
     timecode format error.
  3. It hands the text to the external SRT parser.
  4. It maps subtitle indices to the source line of their index line.
  5. It runs the per-subtitle checks: index sequence, start before end,
     overlap, minimum and maximum duration, empty content, line count, line
     length after tag stripping, and balanced common tags.
  6. It returns the list of diagnostics.
- `fix_srt_subtitles` (validator/fixer.py). It makes one pass over the parsed
  subtitles:
  - it moves an overlapping start to one millisecond after the previous end;
  - it gives every subtitle at least one millisecond;
  - it cleans the text: carriage returns are removed, runs of three or more
    newlines become two, and surrounding whitespace is stripped;
  - then, if any index was out of place, it renumbers all subtitles 1..N.

  It reports the fix labels "Timecode Fix", "Formatting Fix" and "Numbering
  Fix", each at most once.

Modules:

| module | file | contents |
|---|---|---|
| `Models` | models.dfy | diagnostics, error types, messages, records, parse outcome, limits |
| `SrtText` | text.dfy | Python string operations the checks use: `strip`, `splitlines`, `split`, `count`, `lower`, the strict timecode grammar, and tag removal (`re.sub(r"<[^>]+>", "", …)`) |
| `PreScanner` | prescan.dfy | the pre-parse scan, as a transition function and as a loop |
| `LineMap` | linemap.dfy | the index-to-line map, as a loop and as an independent reference definition |
| `RecordRules` | rules.dfy | the per-subtitle checks, as functions and as the loops of the source |
| `Validator` | validate.dfy | the whole of `validate_srt_content`: the early returns, the parse step, the composition |
| `Normalization` | normalize.dfy | the text clean-up of the fixer |
| `Fixer` | fixer.dfy | the fixer: a value-level specification `Fixed` and a `Subtitle` class whose objects the methods update in place |

Each loop in the source is a `method` with a `for` loop. Its postcondition
equates its result to a recursive specification function. The properties are
lemmas about those functions.

Times are whole milliseconds, as `int`.

## Model

| member | source | states |
|---|---|---|
| SrtText.StripEnds | validator/rules.py:33 | `strip()` leaves no whitespace at either end, and it yields the empty string exactly when the text is all whitespace |
| SrtText.StripIsSlice | validator/rules.py:33 | the stripped text is a contiguous piece of the line, and every character `strip()` drops before or after it is whitespace |
| SrtText.StripIdempotent | validator/rules.py:33 | stripping twice is stripping once |
| SrtText.SplitLinesEmpty | validator/rules.py:19 | `splitlines()` gives no line exactly for the empty text |
| SrtText.SplitLinesChars | validator/rules.py:19 | every character of a split line comes from the text and is not a line boundary |
| SrtText.SplitOnJoin | validator/rules.py:245 | joining the parts of `split("\n")` with newlines gives back the text |
| SrtText.SplitOnCount | validator/rules.py:245 | `split("\n")` gives one more part than the text has newlines |
| SrtText.CountSpec | validator/rules.py:293-296 | `count` of a non-empty pattern is zero exactly when the pattern does not occur |
| SrtText.CountBound | validator/rules.py:293-296 | non-overlapping occurrences fit in the text: count × pattern length ≤ text length |
| SrtText.DigitsNotBlank | validator/rules.py:35 | a digits-only line is its own strip, is not blank and holds no arrow, so the scanner's branches do not overlap |
| SrtText.StrictTimecodeHasArrow | validator/rules.py:21-23 | every line the strict timecode grammar accepts contains `-->` |
| SrtText.StrictTimecodeAccepted | validator/rules.py:21-23 | `00:00:01,000 --> 00:00:03,500` matches the grammar |
| SrtText.StrictTimecodeRejected | validator/rules.py:21-23 | `00:00:01 --> 00:00:03,000`, which lacks the milliseconds, does not match |
| SrtText.StripTagsChars | validator/rules.py:273 | the result is a subsequence of the text: removing tags only deletes characters, and keeps the others in order |
| SrtText.StripTagsTagFree | validator/rules.py:273 | no `<…>` tag, meaning a `<` followed by at least one non-`>` character and then `>`, is left after removal |
| SrtText.StripTagsIdentity | validator/rules.py:273 | removing tags from tag-free text changes nothing |
| SrtText.StripTagsIdempotent | validator/rules.py:273 | removing tags twice is removing them once |
| PreScanner.ScanLines | validator/rules.py:26-66 | the pre-scan loop returns the errors and the found-blocks flag of the transition function over all lines |
| PreScanner.ScanLineErrors | validator/rules.py:41-58 | one line adds at most one Timecode Format Error, and only on the block's first arrow line |
| PreScanner.LastBlank | validator/rules.py:59-63 | the last blank line up to line n (0 if none): it is blank and no later line up to n is |
| PreScanner.OpenerExists | validator/rules.py:35-40 | a block is open after line n exactly when some digits-only line follows the last blank line |
| PreScanner.OpenerUnique | validator/rules.py:35-40 | the opener of the open block, the first digits-only line after the last blank line, is unique |
| PreScanner.PreScanInvariant | validator/rules.py:26-66 | after n lines the scanner is in a block exactly when a digits-only line follows the last blank line; then its index is the value of the first such line, and it is past its timecode line exactly when an arrow line has followed that line; the found flag, every report is owed, every owed report up to n is made, and reports are separated by a blank line |
| PreScanner.PreScanFindsBlocks | validator/rules.py:31-40 | `found_subs` holds exactly when some line strips to digits only |
| PreScanner.PreScanReports | validator/rules.py:41-58 | the errors are exactly the reports owed: for every line n that is the first arrow line after the opener m (the first digits-only line after the last blank line before n) and fails the grammar, one report with m's value, n and the raw line, and nothing else; they come in line order with a blank line between any two |
| PreScanner.PreScanWithoutIndexLines | validator/rules.py:26-66 | without a digits-only line nothing is found and nothing is reported |
| PreScanner.PreScanExample | validator/rules.py:41-58 | an index line followed by `00:00:01 --> 00:00:03,000` gives exactly one Timecode Format Error, at line 2, with index 1 and the raw line |
| LineMap.BuildLineMap | validator/rules.py:149-177 | the line-map loop computes the reference map |
| LineMap.LastIndexLinesCharacterised | validator/rules.py:149-177 | the map sends every index value written on a digits-only line to the last such line, and holds nothing else |
| LineMap.LastIndexLinesUnique | validator/rules.py:149-177 | that characterisation determines the map |
| RecordRules.CheckTiming | validator/rules.py:182-242 | checks 1-4 on one subtitle, in source order |
| RecordRules.CheckLineLengths | validator/rules.py:270-284 | the loop of check 5b computes the line-length reports |
| RecordRules.CheckContent | validator/rules.py:244-284 | check 5: empty content, or else the line count and the line lengths |
| RecordRules.CheckTags | validator/rules.py:286-307 | the loop of check 6 computes the tag reports |
| RecordRules.CheckSubtitle | validator/rules.py:182-307 | all reports about one subtitle |
| RecordRules.CheckSubtitles | validator/rules.py:179-309 | the per-subtitle loop carries `expected_index` and `last_end_time` and concatenates the per-subtitle reports |
| RecordRules.IndexCount | validator/rules.py:182-192 | check 1 reports once exactly when the index differs from the expected one |
| RecordRules.OrderCount | validator/rules.py:196-206 | check 2 reports once exactly when the start is not before the end |
| RecordRules.OverlapCount | validator/rules.py:208-218 | check 3 reports once exactly when the start is before the previous end |
| RecordRules.MinDurationCount | validator/rules.py:220-232 | the lower duration check reports once exactly when the duration is below the minimum |
| RecordRules.MaxDurationCount | validator/rules.py:233-242 | the upper duration check reports once exactly when the duration is above the maximum |
| RecordRules.LineCountCount | validator/rules.py:257-268 | check 5a reports once exactly when there are more lines than allowed |
| RecordRules.TimingRuleCount | validator/rules.py:182-242 | for each timing rule, checks 1-4 report once or never, according to the rule's condition |
| RecordRules.ContentRuleCount | validator/rules.py:244-268 | the content checks report "empty" once exactly for all-whitespace content, and "too many lines" once exactly for non-blank content with too many lines |
| RecordRules.RecordRuleCount | validator/rules.py:179-309 | each once-per-record rule reports about a subtitle once when the subtitle breaks it and otherwise never |
| RecordRules.RuleCounts | validator/rules.py:179-309 | over all subtitles, each once-per-record rule reports exactly as many times as there are subtitles breaking it |
| RecordRules.ViolationsZero | validator/rules.py:179-309 | the number of subtitles breaking a rule is zero exactly when none does |
| RecordRules.LineLengthSound | validator/rules.py:270-284 | every line-length report is for a content line longer than allowed after tag removal |
| RecordRules.LineLengthComplete | validator/rules.py:270-284 | every content line longer than allowed after tag removal is reported |
| RecordRules.LineLengthReports | validator/rules.py:270-284 | line i is reported exactly when it is too long, and there are no other reports |
| RecordRules.LineLengthRules | validator/rules.py:270-284 | line-length reports are Format Errors about this subtitle |
| RecordRules.TagSound | validator/rules.py:286-307 | every tag report is for a common tag whose open and close counts differ |
| RecordRules.TagComplete | validator/rules.py:286-307 | every common tag with differing counts is reported |
| RecordRules.TagReports | validator/rules.py:286-307 | a tag is reported exactly when its counts differ; balanced content gives no report |
| RecordRules.TagRules | validator/rules.py:286-307 | tag reports are Format Errors about this subtitle carrying its start line |
| RecordRules.TaglessContentBalanced | validator/rules.py:288-296 | content without `<` has no opening and no closing tags |
| RecordRules.TimingAttribution | validator/rules.py:182-242 | each timing report names the file and the subtitle index, carries the mapped start line and has its check's error type |
| RecordRules.ContentAttribution | validator/rules.py:244-284 | the same for content reports; line-length reports carry their own line number |
| RecordRules.RecordAttribution | validator/rules.py:179-307 | the same for every report about a subtitle |
| RecordRules.TaglessPasses | validator/rules.py:286-307 | any content without `<` passes the tag check |
| Validator.ValidateSrtContent | validator/rules.py:8-311 | the routine, step by step, returns the diagnostics of the specification function |
| Validator.Prefix | validator/rules.py:92 | `content[:n]` has length min(len, n) and is a prefix |
| Validator.BlankContent | validator/rules.py:72-82 | blank text gives exactly one Content Error at line 1 |
| Validator.BlankTextHasNoIndexLine | validator/rules.py:26-40 | blank text has no index line, so the scan reports nothing before the blank-file report |
| Validator.NoIndexLine | validator/rules.py:83-95 | non-blank text without a digits-only line gives exactly one Parsing Error at line 1 |
| Validator.MalformedTimecodeStops | validator/rules.py:97-99 | once the scan has reported, its Timecode Format Errors are the whole result and the parser is never consulted |
| Validator.ParserFailure | validator/rules.py:123-144 | past the early returns, a parser that raises gives exactly one Parsing Error at line 1 |
| Validator.NothingParsed | validator/rules.py:104-121 | past the early returns, a parse with no subtitles gives exactly one Parsing Error with the whole text |
| Validator.ParsedRecords | validator/rules.py:146-309 | past the early returns, the result is exactly the per-subtitle reports under the line map of the text |
| Validator.ParsedRuleCounts | validator/rules.py:179-309 | past the early returns, each once-per-record rule is reported once for each parsed subtitle breaking it |
| Validator.RuleDiagnosticsAttributed | validator/rules.py:179-309 | every per-subtitle report is about one of the parsed subtitles, with that subtitle's index and start line |
| Validator.ValidationConsistent | validator/rules.py:8-311 | every diagnostic names the file and has the error type of the check that produced it |
| Normalization.Without | validator/fixer.py:37 | removing a character leaves none of it |
| Normalization.WithoutKeepsOthers | validator/fixer.py:37 | removing a character keeps every other character's count |
| Normalization.WithoutIdentity | validator/fixer.py:37 | removal changes nothing exactly when the character is absent |
| Normalization.CollapseNewlines | validator/fixer.py:38-40 | collapsing keeps the first character and the emptiness of the text |
| Normalization.CollapseNoTriple | validator/fixer.py:38-40 | after collapsing, no three newlines are adjacent |
| Normalization.NoTripleNewlineContains | validator/fixer.py:38-40 | "no three adjacent newlines" is "does not contain `\n\n\n`" |
| Normalization.CollapseKeepsText | validator/fixer.py:38-40 | collapsing only removes newlines |
| Normalization.CollapseIdentity | validator/fixer.py:38-40 | text without three adjacent newlines is left alone |
| Normalization.CollapseChars | validator/fixer.py:38-40 | collapsing introduces no character |
| Normalization.NormalizeClean | validator/fixer.py:36-43 | cleaned text has no carriage return, no three adjacent newlines and no surrounding whitespace |
| Normalization.NormalizeIdentity | validator/fixer.py:36-45 | cleaning leaves the text unchanged exactly when it is already clean, which decides "Formatting Fix" |
| Normalization.NormalizeIdempotent | validator/fixer.py:36-43 | cleaning twice is cleaning once |
| Fixer.AddLabel | validator/fixer.py:23-24 | adding a label keeps the earlier labels in order, adds the new one, and keeps the list free of duplicates |
| Fixer.StepLabelsMembers | validator/fixer.py:19-48 | after one subtitle, "Timecode Fix" is present exactly when it was before or the timing moved, and "Formatting Fix" exactly when it was before or the text changed |
| Fixer.FixPassRepaired | validator/fixer.py:15-32 | each subtitle of the first loop is repaired against the end of the fixed subtitle before it |
| Fixer.FixPassLabels | validator/fixer.py:12-52 | after n subtitles the labels have no duplicates and no "Numbering Fix"; the timing label, the formatting label and `needs_reindex` each hold exactly when some subtitle so far needed that fix |
| Fixer.FixedRecords | validator/fixer.py:7-61 | the result has one subtitle per input subtitle, in order; each is repaired against the one before it and carries its 1-based position as index, by renumbering or because it already had it |
| Fixer.FixedTiming | validator/fixer.py:19-32 | every fixed subtitle lasts at least 1 ms, starts no earlier than the previous end, and the first does not start before 0 |
| Fixer.NonOverlappingOrdered | validator/fixer.py:19-32 | subtitles that each end after they start and each start no earlier than the previous end are pairwise non-overlapping |
| Fixer.FixedOrdered | validator/fixer.py:19-32 | the fixed subtitles are in strictly increasing start order and do not overlap |
| Fixer.FixedShift | validator/fixer.py:21-28 | an overlapping start moves to the previous end + 1 ms; a subtitle that neither overlaps nor has a non-positive duration keeps its times |
| Fixer.FixedContent | validator/fixer.py:34-48 | every fixed text is clean, and it equals the input text exactly when that text was already clean |
| Fixer.FixPassOrder | validator/fixer.py:15-52 | after n subtitles "Timecode Fix" precedes "Formatting Fix" exactly when some text changed and some timing moved with no text changed before it |
| Fixer.FixedLabels | validator/fixer.py:12-59 | no label is duplicated; each label is present exactly when some subtitle needed that fix; "Numbering Fix" comes last; "Timecode Fix" comes before "Formatting Fix" exactly when the first subtitle whose timing moved is at or before the first whose text changed, and otherwise, when both are present, after it |
| Fixer.FixedSettled | validator/fixer.py:7-61 | the output is in the form the pass leaves alone |
| Fixer.FixPassSettled | validator/fixer.py:15-52 | on settled subtitles the first loop changes nothing and reports nothing |
| Fixer.FixedIdempotent | validator/fixer.py:7-61 | fixing fixed subtitles changes nothing and reports no fix |
| Fixer.FixExample | validator/fixer.py:7-61 | the fixer's test case: subtitles 2 then 1 with an overlap and dirty text become 1, 2 with the second start at 3501 ms and labels Formatting, Timecode, Numbering |
| Fixer.FixSubtitle | validator/fixer.py:17-52 | one iteration updates the subtitle object in place to its repair and returns the new `last_end_time`, labels and `needs_reindex` |
| Fixer.FixEach | validator/fixer.py:15-52 | the first loop leaves the objects holding the first-pass values and returns its labels and flag |
| Fixer.Renumber | validator/fixer.py:55-57 | the second loop numbers every object by its 1-based position |
| Fixer.FixSrtSubtitles | validator/fixer.py:7-61 | the routine returns the same objects, now holding the fixed values, and the labels of the specification |

## Left out

- The SRT parser `srt.parse` is not part of this model. Its outcome is an input of `Validator.Validation`: either it raised or it returned a list of records. The model does not check that the records agree with the text.
- The exception's `lineno` attribute: the parser raises no exception that carries one, so the line number falls back to 1. Consequently the suppression test at validator/rules.py:130-133 always looks for a report at line 1, and past the early returns no report exists.
- Error message wording and the rendering of times. A message is a datatype holding the values the text embeds.
- Times. `timedelta` and `total_seconds() * 1000` are modelled as exact whole milliseconds, so floating-point rounding is not modelled.
- Character classes. `str.strip`, `str.isspace`, `str.splitlines`, `str.lower` and the regex classes `\d` and `\s` are modelled on ASCII only. Unicode whitespace, Unicode digits and Unicode case mapping are not modelled.
- validator/io.py, validate_srt.py and validator/models.py are not part of this model. They cover file reading and writing, `srt.compose`, the command line and reporting; only the `ValidationError` fields are modelled, in `Models.Diagnostic`.
- Fixer.FixSrtSubtitles, Fixer.FixEach and Fixer.Renumber require the subtitle objects in the list to be distinct. The parser creates one object per record. The model does not cover a list that holds the same object twice.
- Validator.ValidateSrtContent: the `elif not parsed_subs and not content.strip()` branch (validator/rules.py:116-119) cannot be taken, because blank text has returned earlier, so it has no counterpart.
- SrtText.DigitsValue: treats every digit string as convertible. Python 3.11 and later (and the 3.10.7, 3.9.14 and 3.8.14 releases) refuse `int()` on a decimal string of more than 4300 digits with a ValueError. On such an index line the scan's `int(stripped_line)` (validator/rules.py:38) raises out of `validate_srt_content`, and the line map's `except ValueError` handlers (validator/rules.py:157-177) skip the entry. Neither outcome is modelled.
- Two behaviours of the code are modelled as written.
  - A too-long content line is reported at `start_line + i + 1` (validator/rules.py:279), where i is the 0-based line offset. The content line actually sits at the index line + 2 + i, but the code reports +1, and so does `RecordRules.LongLineNumber`. A start line of 0 or no start line gives no line number.
  - The line map is built in a second pass, not during the scan. It maps each index value to the last line that strips to digits only. That includes a digits-only content line, and a line of the form `\d+\s*`, which strips to the same thing.
