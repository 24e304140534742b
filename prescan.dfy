/**
 * The pre-parse scan of `validate_srt_content` (validator/rules.py): one pass
 * over the raw lines that recognises block structure (index line, timecode
 * line, blank separator) and reports every block whose first `-->` line does
 * not match the strict timecode grammar.
 */
module PreScanner {
  import opened Models
  import opened SrtText

  /** The scanner's variables: `in_subtitle_block`, `current_index`, `current_timecode_line`, `found_subs` and the errors so far. */
  datatype ScanState = ScanState(
    inSubtitleBlock: bool,
    currentIndex: Option<int>,
    currentTimecodeLine: Option<string>,
    foundSubs: bool,
    errors: seq<Diagnostic>)

  const Initial: ScanState := ScanState(false, None, None, false, [])

  /** The diagnostic for a malformed timecode line; `content` is the line as read, not stripped. */
  function MalformedTimecode(filePath: string, index: Option<int>, lineNum: int, line: string): Diagnostic {
    Diagnostic(filePath, index, Some(lineNum), TimecodeFormatError, TimecodeLineMalformed, Some(line))
  }

  /** The transition on one line (1-based number `lineNum`). */
  function ScanLine(filePath: string, st: ScanState, line: string, lineNum: int): ScanState {
    var stripped := Strip(line);
    if IsDigits(stripped) && !st.inSubtitleBlock then
      // an index line opens a block
      st.(inSubtitleBlock := true, currentIndex := Some(DigitsValue(stripped)),
          currentTimecodeLine := None, foundSubs := true)
    else if Contains(stripped, "-->") && st.inSubtitleBlock && st.currentTimecodeLine.None? then
      // the first arrow line of the block is its timecode line
      var errors := if IsStrictTimecode(stripped) then st.errors
                    else st.errors + [MalformedTimecode(filePath, st.currentIndex, lineNum, line)];
      st.(currentTimecodeLine := Some(stripped), errors := errors)
    else if stripped == [] && st.inSubtitleBlock then
      // a blank line closes the block
      st.(inSubtitleBlock := false, currentIndex := None, currentTimecodeLine := None)
    else
      st
  }

  /** The state after the first `n` lines. */
  function PreScan(filePath: string, lines: seq<string>, n: nat): ScanState
    requires n <= |lines|
  {
    if n == 0 then Initial
    else ScanLine(filePath, PreScan(filePath, lines, n - 1), lines[n - 1], n)
  }

  /** The pre-scan loop; returns the timecode format errors and whether any block was opened. */
  method ScanLines(filePath: string, lines: seq<string>) returns (errors: seq<Diagnostic>, foundSubs: bool)
    ensures errors == PreScan(filePath, lines, |lines|).errors
    ensures foundSubs == PreScan(filePath, lines, |lines|).foundSubs
  {
    errors, foundSubs := [], false;
    var inSubtitleBlock := false;
    var currentIndex: Option<int> := None;
    var currentTimecodeLine: Option<string> := None;
    for i := 0 to |lines|
      invariant ScanState(inSubtitleBlock, currentIndex, currentTimecodeLine, foundSubs, errors)
                == PreScan(filePath, lines, i)
    {
      var lineNum := i + 1;
      var line := lines[i];
      var strippedLine := Strip(line);
      if IsDigits(strippedLine) && !inSubtitleBlock {
        inSubtitleBlock := true;
        currentIndex := Some(DigitsValue(strippedLine));
        currentTimecodeLine := None;
        foundSubs := true;
      } else if Contains(strippedLine, "-->") && inSubtitleBlock && currentTimecodeLine.None? {
        currentTimecodeLine := Some(strippedLine);
        if !IsStrictTimecode(strippedLine) {
          errors := errors + [MalformedTimecode(filePath, currentIndex, lineNum, line)];
        }
      } else if strippedLine == [] && inSubtitleBlock {
        inSubtitleBlock := false;
        currentIndex := None;
        currentTimecodeLine := None;
      }
    }
  }

  // ---------------------------------------------------------------------------
  // What the scan guarantees, in terms of the lines (numbered from 1)
  // ---------------------------------------------------------------------------

  predicate DigitsLine(lines: seq<string>, l: int) {
    1 <= l <= |lines| && IsDigits(Strip(lines[l - 1]))
  }

  predicate BlankLine(lines: seq<string>, l: int) {
    1 <= l <= |lines| && Strip(lines[l - 1]) == []
  }

  predicate ArrowLine(lines: seq<string>, l: int) {
    1 <= l <= |lines| && Contains(Strip(lines[l - 1]), "-->")
  }

  /** The value written on index line `l` (`int(stripped_line)`). */
  function IndexValue(lines: seq<string>, l: int): nat
    requires 1 <= l <= |lines|
  {
    DigitsValue(Strip(lines[l - 1]))
  }

  /** The last blank line among lines 1..n, or 0 when there is none. */
  function LastBlank(lines: seq<string>, n: nat): (b: nat)
    requires n <= |lines|
    ensures b <= n
    ensures b > 0 ==> BlankLine(lines, b)
    ensures forall l :: b < l <= n ==> !BlankLine(lines, l)
  {
    if n == 0 then 0 else if BlankLine(lines, n) then n else LastBlank(lines, n - 1)
  }

  /**
   * Line `m` opened the block that is still open after line `n`: it is the
   * first digits-only line after the last blank line up to `n`.
   */
  ghost predicate OpenerAt(lines: seq<string>, m: int, n: nat)
    requires n <= |lines|
  {
    LastBlank(lines, n) < m <= n && DigitsLine(lines, m) &&
    forall d :: LastBlank(lines, n) < d < m ==> !DigitsLine(lines, d)
  }

  /** No line after `m` up to `n` contains an arrow. */
  ghost predicate NoArrowBetween(lines: seq<string>, m: int, n: int) {
    forall l :: m < l <= n ==> !ArrowLine(lines, l)
  }

  /**
   * Line `n` is the first arrow line of the block opened at line `m`, and its
   * stripped text fails the strict grammar.
   */
  ghost predicate MalformedAt(lines: seq<string>, n: int, m: int) {
    1 < n <= |lines| && OpenerAt(lines, m, n - 1) && NoArrowBetween(lines, m, n - 1) &&
    ArrowLine(lines, n) && !IsStrictTimecode(Strip(lines[n - 1]))
  }

  /** The report owed for such a line: its number, the opener's value and the line as read. */
  function MalformedReport(filePath: string, lines: seq<string>, n: int, m: int): Diagnostic
    requires 1 <= n <= |lines| && 1 <= m <= |lines|
  {
    MalformedTimecode(filePath, Some(IndexValue(lines, m)), n, lines[n - 1])
  }

  /** `e` is the report owed for some malformed first arrow line. */
  ghost predicate ReportsMalformedLine(filePath: string, lines: seq<string>, e: Diagnostic) {
    exists n, m :: MalformedAt(lines, n, m) && e == MalformedReport(filePath, lines, n, m)
  }

  /** Reported lines are separated by a blank line: at most one report per block, in line order. */
  ghost predicate SeparatedByBlank(lines: seq<string>, errors: seq<Diagnostic>)
    requires forall j :: 0 <= j < |errors| ==> errors[j].lineNumber.Some?
  {
    forall a, b :: 0 <= a < b < |errors| ==>
      exists l :: errors[a].lineNumber.value < l < errors[b].lineNumber.value && BlankLine(lines, l)
  }

  // The invariant of the scan after `n` lines, in six parts.

  predicate Shape(st: ScanState) {
    (st.inSubtitleBlock <==> st.currentIndex.Some?) &&
    (st.currentTimecodeLine.Some? ==> st.inSubtitleBlock) &&
    (st.inSubtitleBlock ==> st.foundSubs)
  }

  /** The block state is the one the lines determine: open exactly when there is an opener, with its value, past its timecode line exactly when an arrow line followed it. */
  ghost predicate InBlock(lines: seq<string>, n: nat, st: ScanState)
    requires n <= |lines|
  {
    (st.inSubtitleBlock <==> exists m :: OpenerAt(lines, m, n)) &&
    forall m :: OpenerAt(lines, m, n) ==>
      st.currentIndex == Some(IndexValue(lines, m)) &&
      (st.currentTimecodeLine.None? <==> NoArrowBetween(lines, m, n))
  }

  ghost predicate Found(lines: seq<string>, n: nat, st: ScanState) {
    st.foundSubs <==> exists l :: 1 <= l <= n && DigitsLine(lines, l)
  }

  /** Every report carries a line number, at most `n`. */
  predicate LineNumbered(errors: seq<Diagnostic>, n: nat) {
    forall j :: 0 <= j < |errors| ==> errors[j].lineNumber.Some? && errors[j].lineNumber.value <= n
  }

  ghost predicate Reported(filePath: string, lines: seq<string>, n: nat, st: ScanState) {
    LineNumbered(st.errors, n) &&
    forall j :: 0 <= j < |st.errors| ==> ReportsMalformedLine(filePath, lines, st.errors[j])
  }

  ghost predicate Complete(filePath: string, lines: seq<string>, n: nat, st: ScanState) {
    forall l, m :: l <= n && MalformedAt(lines, l, m) ==> MalformedReport(filePath, lines, l, m) in st.errors
  }

  /** Since the last report either the block is still past its timecode line or a blank line was seen. */
  ghost predicate Pending(lines: seq<string>, n: nat, st: ScanState)
    requires forall j :: 0 <= j < |st.errors| ==> st.errors[j].lineNumber.Some?
  {
    st.errors != [] ==>
      st.currentTimecodeLine.Some? ||
      exists l :: st.errors[|st.errors| - 1].lineNumber.value < l <= n && BlankLine(lines, l)
  }

  ghost predicate ScanInvariant(filePath: string, lines: seq<string>, n: nat, st: ScanState)
    requires n <= |lines|
  {
    Shape(st) && InBlock(lines, n, st) && Found(lines, n, st) && Reported(filePath, lines, n, st) &&
    Complete(filePath, lines, n, st) && SeparatedByBlank(lines, st.errors) && Pending(lines, n, st)
  }

  lemma ContainsIsLonger(s: string, p: string)
    requires Contains(s, p)
    ensures |s| >= |p|
  {
    var i: nat :| i <= |s| && OccursAt(s, p, i);
  }

  /** Blank, digits-only and arrow lines are three disjoint kinds. */
  lemma LineKinds(lines: seq<string>, l: int)
    requires 1 <= l <= |lines|
    ensures ArrowLine(lines, l) ==> !BlankLine(lines, l) && !DigitsLine(lines, l)
    ensures DigitsLine(lines, l) ==> !BlankLine(lines, l)
  {
    var s := Strip(lines[l - 1]);
    if Contains(s, "-->") {
      ContainsIsLonger(s, "-->");
    }
    if IsDigits(s) {
      DigitsNotBlank(s);
    }
  }

  /** The first digits-only line after `lo`, given one at `d`. */
  function FirstDigitsAfter(lines: seq<string>, lo: nat, d: nat): (m: nat)
    requires lo < d <= |lines| && DigitsLine(lines, d)
    ensures lo < m <= d && DigitsLine(lines, m)
    ensures forall e :: lo < e < m ==> !DigitsLine(lines, e)
    decreases d - lo
  {
    if DigitsLine(lines, lo + 1) then lo + 1 else FirstDigitsAfter(lines, lo + 1, d)
  }

  /** A block is open after line `n` exactly when a digits-only line follows the last blank line. */
  lemma OpenerExists(lines: seq<string>, n: nat)
    requires n <= |lines|
    ensures (exists m :: OpenerAt(lines, m, n)) <==>
            exists d :: LastBlank(lines, n) < d <= n && DigitsLine(lines, d)
  {
    if d :| LastBlank(lines, n) < d <= n && DigitsLine(lines, d) {
      var m := FirstDigitsAfter(lines, LastBlank(lines, n), d);
      assert OpenerAt(lines, m, n);
    }
  }

  /** At most one line opened the block open after line `n`. */
  lemma OpenerUnique(lines: seq<string>, m1: int, m2: int, n: nat)
    requires n <= |lines| && OpenerAt(lines, m1, n) && OpenerAt(lines, m2, n)
    ensures m1 == m2
  {
  }

  /** A line that is not blank keeps the last blank line and the opener. */
  lemma OpenerKept(lines: seq<string>, n: nat)
    requires 1 <= n <= |lines| && !BlankLine(lines, n)
    ensures LastBlank(lines, n) == LastBlank(lines, n - 1)
    ensures forall m :: OpenerAt(lines, m, n - 1) ==> OpenerAt(lines, m, n)
  {
  }

  /** Some block is open after line `n`. */
  ghost predicate Open(lines: seq<string>, n: nat)
    requires n <= |lines|
  {
    exists m :: OpenerAt(lines, m, n)
  }

  /** With no block open before a non-blank line, that line opens one exactly when it is an index line. */
  lemma OpenerFresh(lines: seq<string>, n: nat)
    requires 1 <= n <= |lines| && !BlankLine(lines, n)
    requires !Open(lines, n - 1)
    ensures forall m :: OpenerAt(lines, m, n) <==> m == n && DigitsLine(lines, n)
  {
    OpenerKept(lines, n);
    OpenerExists(lines, n - 1);
    if DigitsLine(lines, n) {
      assert OpenerAt(lines, n, n);
    }
  }

  /** A blank line closes every block. */
  lemma BlankCloses(lines: seq<string>, n: nat)
    requires 1 <= n <= |lines| && BlankLine(lines, n)
    ensures forall m :: !OpenerAt(lines, m, n)
  {
  }

  lemma StepBlank(filePath: string, lines: seq<string>, n: nat, st: ScanState)
    requires 1 <= n <= |lines| && BlankLine(lines, n) && Shape(st)
    ensures var st' := ScanLine(filePath, st, lines[n - 1], n);
      Shape(st') && InBlock(lines, n, st') && st'.errors == st.errors && !st'.inSubtitleBlock
  {
    BlankCloses(lines, n);
    LineKinds(lines, n);
  }

  lemma StepOpen(filePath: string, lines: seq<string>, n: nat, st: ScanState)
    requires 1 <= n <= |lines| && !BlankLine(lines, n) && Shape(st) && InBlock(lines, n - 1, st)
    requires !st.inSubtitleBlock
    ensures var st' := ScanLine(filePath, st, lines[n - 1], n);
      Shape(st') && InBlock(lines, n, st') && st'.errors == st.errors
  {
    OpenerFresh(lines, n);
    LineKinds(lines, n);
    if DigitsLine(lines, n) {
      assert OpenerAt(lines, n, n);
    }
  }

  lemma StepWithin(filePath: string, lines: seq<string>, n: nat, st: ScanState, m: int)
    requires 1 <= n <= |lines| && !BlankLine(lines, n) && Shape(st) && InBlock(lines, n - 1, st)
    requires OpenerAt(lines, m, n - 1)
    ensures var st' := ScanLine(filePath, st, lines[n - 1], n);
      Shape(st') && InBlock(lines, n, st')
  {
    var st' := ScanLine(filePath, st, lines[n - 1], n);
    OpenerKept(lines, n);
    LineKinds(lines, n);
    assert OpenerAt(lines, m, n);
    assert st'.currentIndex == st.currentIndex == Some(IndexValue(lines, m));
    assert NoArrowBetween(lines, m, n) <==> NoArrowBetween(lines, m, n - 1) && !ArrowLine(lines, n);
    assert st'.currentTimecodeLine.None? <==> NoArrowBetween(lines, m, n);
    forall m' | OpenerAt(lines, m', n)
      ensures m' == m
    {
      OpenerUnique(lines, m', m, n);
    }
  }

  lemma StepInBlock(filePath: string, lines: seq<string>, n: nat, st: ScanState)
    requires 1 <= n <= |lines| && Shape(st) && InBlock(lines, n - 1, st)
    ensures Shape(ScanLine(filePath, st, lines[n - 1], n))
    ensures InBlock(lines, n, ScanLine(filePath, st, lines[n - 1], n))
  {
    if BlankLine(lines, n) {
      StepBlank(filePath, lines, n, st);
    } else if st.inSubtitleBlock {
      var m :| OpenerAt(lines, m, n - 1);
      StepWithin(filePath, lines, n, st, m);
    } else {
      StepOpen(filePath, lines, n, st);
    }
  }

  lemma StepFound(filePath: string, lines: seq<string>, n: nat, st: ScanState)
    requires 1 <= n <= |lines| && Shape(st) && Found(lines, n - 1, st)
    ensures Found(lines, n, ScanLine(filePath, st, lines[n - 1], n))
  {
    var st' := ScanLine(filePath, st, lines[n - 1], n);
    if DigitsLine(lines, n) {
      assert st'.foundSubs;
    } else {
      assert st'.foundSubs == st.foundSubs;
      if st.foundSubs {
        var l :| 1 <= l <= n - 1 && DigitsLine(lines, l);
      } else {
        assert forall l :: 1 <= l <= n - 1 ==> !DigitsLine(lines, l);
      }
    }
  }

  /** A line either leaves the errors alone or appends one report for itself, at a block's first arrow line. */
  lemma ScanLineErrors(filePath: string, st: ScanState, line: string, n: int)
    ensures var st' := ScanLine(filePath, st, line, n);
      st'.errors == st.errors ||
      (st'.errors == st.errors + [MalformedTimecode(filePath, st.currentIndex, n, line)] &&
       st.currentTimecodeLine.None? && st'.currentTimecodeLine.Some? && st.inSubtitleBlock &&
       Contains(Strip(line), "-->") && !IsStrictTimecode(Strip(line)))
  {
  }

  lemma StepReported(filePath: string, lines: seq<string>, n: nat, st: ScanState)
    requires 1 <= n <= |lines| && Shape(st) && InBlock(lines, n - 1, st)
    requires Reported(filePath, lines, n - 1, st)
    ensures Reported(filePath, lines, n, ScanLine(filePath, st, lines[n - 1], n))
  {
    var line := lines[n - 1];
    var st' := ScanLine(filePath, st, line, n);
    ScanLineErrors(filePath, st, line, n);
    if st'.errors != st.errors {
      var m :| OpenerAt(lines, m, n - 1);
      assert MalformedAt(lines, n, m);
      assert ReportsMalformedLine(filePath, lines, MalformedReport(filePath, lines, n, m));
    }
  }

  lemma StepComplete(filePath: string, lines: seq<string>, n: nat, st: ScanState)
    requires 1 <= n <= |lines| && Shape(st) && InBlock(lines, n - 1, st)
    requires Complete(filePath, lines, n - 1, st)
    ensures Complete(filePath, lines, n, ScanLine(filePath, st, lines[n - 1], n))
  {
    var line := lines[n - 1];
    var st' := ScanLine(filePath, st, line, n);
    ScanLineErrors(filePath, st, line, n);
    LineKinds(lines, n);
    forall l, m | l <= n && MalformedAt(lines, l, m)
      ensures MalformedReport(filePath, lines, l, m) in st'.errors
    {
      if l < n {
        assert MalformedReport(filePath, lines, l, m) in st.errors;
      } else {
        assert st.inSubtitleBlock && st.currentTimecodeLine.None?;
        assert st'.errors == st.errors + [MalformedReport(filePath, lines, l, m)];
      }
    }
  }

  lemma StepSeparated(filePath: string, lines: seq<string>, n: nat, st: ScanState)
    requires 1 <= n <= |lines|
    requires LineNumbered(st.errors, n - 1)
    requires SeparatedByBlank(lines, st.errors)
    requires Pending(lines, n - 1, st)
    requires LineNumbered(ScanLine(filePath, st, lines[n - 1], n).errors, n)
    ensures SeparatedByBlank(lines, ScanLine(filePath, st, lines[n - 1], n).errors)
  {
    var errors' := ScanLine(filePath, st, lines[n - 1], n).errors;
    ScanLineErrors(filePath, st, lines[n - 1], n);
    if errors' != st.errors && st.errors != [] {
      assert errors'[|st.errors|].lineNumber.value == n;
      var b :| st.errors[|st.errors| - 1].lineNumber.value < b <= n - 1 && BlankLine(lines, b);
      forall a | 0 <= a < |st.errors|
        ensures st.errors[a].lineNumber.value < b
      {
        if a < |st.errors| - 1 {
          var l :| st.errors[a].lineNumber.value < l < st.errors[|st.errors| - 1].lineNumber.value
                   && BlankLine(lines, l);
        }
      }
      assert SeparatedByBlank(lines, errors');
    }
  }

  lemma StepPending(filePath: string, lines: seq<string>, n: nat, st: ScanState)
    requires 1 <= n <= |lines| && Shape(st)
    requires LineNumbered(st.errors, n - 1)
    requires Pending(lines, n - 1, st)
    requires LineNumbered(ScanLine(filePath, st, lines[n - 1], n).errors, n)
    ensures Pending(lines, n, ScanLine(filePath, st, lines[n - 1], n))
  {
    var st' := ScanLine(filePath, st, lines[n - 1], n);
    ScanLineErrors(filePath, st, lines[n - 1], n);
    if st'.errors == st.errors && st.errors != [] && st'.currentTimecodeLine.None? {
      if st.currentTimecodeLine.None? {
        var b :| st.errors[|st.errors| - 1].lineNumber.value < b <= n - 1 && BlankLine(lines, b);
      } else {
        assert BlankLine(lines, n);
      }
    }
  }

  lemma {:induction false} PreScanInvariant(filePath: string, lines: seq<string>, n: nat)
    requires n <= |lines|
    ensures ScanInvariant(filePath, lines, n, PreScan(filePath, lines, n))
  {
    if n > 0 {
      PreScanInvariant(filePath, lines, n - 1);
      var st := PreScan(filePath, lines, n - 1);
      assert PreScan(filePath, lines, n) == ScanLine(filePath, st, lines[n - 1], n);
      StepInBlock(filePath, lines, n, st);
      StepFound(filePath, lines, n, st);
      StepReported(filePath, lines, n, st);
      StepComplete(filePath, lines, n, st);
      StepSeparated(filePath, lines, n, st);
      StepPending(filePath, lines, n, st);
    }
  }

  /** A block was opened exactly when some stripped line is a digit string. */
  lemma PreScanFindsBlocks(filePath: string, lines: seq<string>)
    ensures PreScan(filePath, lines, |lines|).foundSubs <==> exists l :: DigitsLine(lines, l)
  {
    PreScanInvariant(filePath, lines, |lines|);
  }

  /**
   * The timecode format errors are exactly the reports owed: one for every
   * first arrow line of a block whose stripped text fails the grammar, carrying
   * the value of the first index line after the last blank line before it and
   * the line as read. They come in line order, with a blank line between any
   * two of them (at most one per block).
   */
  lemma PreScanReports(filePath: string, lines: seq<string>)
    ensures var errors := PreScan(filePath, lines, |lines|).errors;
      (forall e :: e in errors <==> ReportsMalformedLine(filePath, lines, e)) &&
      (forall n, m :: MalformedAt(lines, n, m) ==> MalformedReport(filePath, lines, n, m) in errors) &&
      (forall j :: 0 <= j < |errors| ==> errors[j].lineNumber.Some?) &&
      SeparatedByBlank(lines, errors)
  {
    PreScanInvariant(filePath, lines, |lines|);
    var errors := PreScan(filePath, lines, |lines|).errors;
    forall e | ReportsMalformedLine(filePath, lines, e)
      ensures e in errors
    {
      var n, m :| MalformedAt(lines, n, m) && e == MalformedReport(filePath, lines, n, m);
    }
  }

  /** Every report owed is a timecode format error. */
  lemma ReportIsFormatError(filePath: string, lines: seq<string>, e: Diagnostic)
    requires ReportsMalformedLine(filePath, lines, e)
    ensures e.errorType == TimecodeFormatError && e.message == TimecodeLineMalformed
  {
  }

  /** Without any index line no block is opened and nothing is reported. */
  lemma PreScanWithoutIndexLines(filePath: string, lines: seq<string>)
    requires forall l :: !DigitsLine(lines, l)
    ensures !PreScan(filePath, lines, |lines|).foundSubs
    ensures PreScan(filePath, lines, |lines|).errors == []
  {
    PreScanInvariant(filePath, lines, |lines|);
    assert forall e :: !ReportsMalformedLine(filePath, lines, e);
  }

  /** A block whose timecode line lacks the millisecond field is reported once, at that line. */
  lemma PreScanExample(filePath: string)
    ensures PreScan(filePath, ["1", "00:00:01 --> 00:00:03,000", "Hello"], 3).errors ==
            [MalformedTimecode(filePath, Some(1), 2, "00:00:01 --> 00:00:03,000")]
  {
    var lines := ["1", "00:00:01 --> 00:00:03,000", "Hello"];
    assert Strip(lines[0]) == "1" by { StripOfStripped(lines[0]); }
    assert DigitsValue("1") == 1;
    assert Strip(lines[1]) == lines[1] by { StripOfStripped(lines[1]); }
    assert OccursAt(lines[1], "-->", 9);
    assert Strip(lines[2]) == lines[2] by { StripOfStripped(lines[2]); }
    assert !IsDigits(lines[2]) by { assert !IsDigit(lines[2][0]); }
    assert !Contains(lines[2], "-->") by {
      forall i: nat | i <= |lines[2]| ensures !OccursAt(lines[2], "-->", i) {
        if i + 3 <= |lines[2]| {
          assert lines[2][i..i + 3][0] == lines[2][i];
        }
      }
    }
    assert |lines[1]| == 25;
    assert !IsStrictTimecode(lines[1]);
    assert IsDigits(lines[0]);
    assert lines[0][..0] == [];
    assert PreScan(filePath, lines, 0) == Initial;
    var s1 := PreScan(filePath, lines, 1);
    assert s1 == ScanState(true, Some(1), None, true, []);
    var s2 := PreScan(filePath, lines, 2);
    assert s2.errors == [MalformedTimecode(filePath, Some(1), 2, lines[1])];
    assert s2.currentTimecodeLine.Some?;
  }
}
