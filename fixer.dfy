/**
 * `fix_srt_subtitles` (validator/fixer.py): one forward pass over the parsed
 * subtitles that pushes an overlapping start past the previous end, gives
 * every subtitle at least one millisecond, cleans up its text, and then
 * renumbers all of them 1..N when any index was out of place. The subtitle
 * objects are updated in place and a list of fix labels, each at most once,
 * is returned.
 */
module Fixer {
  import opened Models
  import opened SrtText
  import opened Normalization

  /** The fix labels the pass reports. */
  datatype FixLabel = TimecodeFix | FormattingFix | NumberingFix
  {
    function Name(): string {
      match this
      case TimecodeFix => "Timecode Fix"
      case FormattingFix => "Formatting Fix"
      case NumberingFix => "Numbering Fix"
    }
  }

  /** `if fix not in labels: labels.append(fix)`. */
  function AddLabel(labels: seq<FixLabel>, fix: FixLabel): (r: seq<FixLabel>)
    ensures forall l :: l in r <==> l in labels || l == fix
    ensures NoDuplicates(labels) ==> NoDuplicates(r)
    ensures labels <= r
  {
    if fix in labels then labels else labels + [fix]
  }

  predicate NoDuplicates(labels: seq<FixLabel>) {
    forall i, j :: 0 <= i < j < |labels| ==> labels[i] != labels[j]
  }

  // ---------------------------------------------------------------------------
  // The pass on values
  // ---------------------------------------------------------------------------

  /**
   * One subtitle after the first pass, given the end of the subtitle fixed
   * before it (0 for the first): a start before that end moves to one
   * millisecond after it, an end not after the start moves to one millisecond
   * after the start, and the text is cleaned up.
   */
  function Repair(r: Record, prevEnd: int): Record {
    var start := if r.start < prevEnd then prevEnd + 1 else r.start;
    var end := if r.end <= start then start + 1 else r.end;
    Record(r.index, start, end, Normalize(r.content))
  }

  /** The loop variables of the first pass: the subtitles fixed so far, `last_end_time`, `fixes_applied`, `needs_reindex`. */
  datatype Pass = Pass(done: seq<Record>, lastEnd: int, labels: seq<FixLabel>, needsReindex: bool)

  /** The labels after repairing `r`: a shifted start or a moved end, then a changed text, each add its label. */
  function StepLabels(labels: seq<FixLabel>, r: Record, prevEnd: int): seq<FixLabel> {
    var fixed := Repair(r, prevEnd);
    var labels1 := if r.start < prevEnd then AddLabel(labels, TimecodeFix) else labels;
    var labels2 := if r.end <= fixed.start then AddLabel(labels1, TimecodeFix) else labels1;
    if fixed.content != r.content then AddLabel(labels2, FormattingFix) else labels2
  }

  /** The first pass on the subtitle at 1-based `position`. */
  function FixStep(p: Pass, r: Record, position: int): Pass {
    var fixed := Repair(r, p.lastEnd);
    Pass(p.done + [fixed], fixed.end, StepLabels(p.labels, r, p.lastEnd), p.needsReindex || r.index != position)
  }

  /** The first pass over the first `n` subtitles. */
  function FixPass(input: seq<Record>, n: nat): (p: Pass)
    requires n <= |input|
    ensures |p.done| == n
    ensures p.lastEnd == if n == 0 then 0 else p.done[n - 1].end
  {
    if n == 0 then Pass([], 0, [], false)
    else FixStep(FixPass(input, n - 1), input[n - 1], n)
  }

  /** Every subtitle numbered by its 1-based position. */
  function Renumbered(rs: seq<Record>): seq<Record> {
    seq(|rs|, i requires 0 <= i < |rs| => rs[i].(index := i + 1))
  }

  datatype FixResult = FixResult(records: seq<Record>, labels: seq<FixLabel>)

  /** The subtitles and labels `fix_srt_subtitles` returns. */
  function Fixed(input: seq<Record>): FixResult {
    var p := FixPass(input, |input|);
    if p.needsReindex then FixResult(Renumbered(p.done), AddLabel(p.labels, NumberingFix))
    else FixResult(p.done, p.labels)
  }

  // ---------------------------------------------------------------------------
  // What the pass guarantees
  // ---------------------------------------------------------------------------

  /** The end of the subtitle before position `k` of `rs` (0 before the first). */
  function PrevEndOf(rs: seq<Record>, k: nat): int
    requires k <= |rs|
  {
    if k == 0 then 0 else rs[k - 1].end
  }

  /** Subtitle `k` of `out` is subtitle `k` of `input` repaired against the end of the one before it in `out`. */
  predicate RepairedAt(input: seq<Record>, out: seq<Record>, k: nat)
    requires k < |input| && k < |out|
  {
    out[k] == Repair(input[k], PrevEndOf(out, k))
  }

  /** Each subtitle of the first pass is repaired against the fixed subtitle just before it. */
  lemma {:induction false} FixPassRepaired(input: seq<Record>, n: nat)
    requires n <= |input|
    ensures forall k :: 0 <= k < n ==> RepairedAt(input, FixPass(input, n).done, k)
  {
    if n > 0 {
      FixPassRepaired(input, n - 1);
      var before := FixPass(input, n - 1).done;
      RepairedExtend(input, before, Repair(input[n - 1], PrevEndOf(before, n - 1)), n);
    }
  }

  /** Appending the repair of the next subtitle keeps every earlier subtitle repaired. */
  lemma RepairedExtend(input: seq<Record>, before: seq<Record>, r: Record, n: nat)
    requires 0 < n <= |input| && |before| == n - 1
    requires forall k :: 0 <= k < n - 1 ==> RepairedAt(input, before, k)
    requires r == Repair(input[n - 1], PrevEndOf(before, n - 1))
    ensures forall k :: 0 <= k < n ==> RepairedAt(input, before + [r], k)
  {
    var done := before + [r];
    forall k | 0 <= k < n
      ensures RepairedAt(input, done, k)
    {
      if k < n - 1 {
        assert RepairedAt(input, before, k);
        assert done[k] == before[k];
        assert PrevEndOf(done, k) == PrevEndOf(before, k);
      } else {
        assert PrevEndOf(done, k) == PrevEndOf(before, n - 1);
      }
    }
  }

  /** Repairing moved the start or the end. */
  predicate TimingChanged(r: Record, fixed: Record) {
    fixed.start != r.start || fixed.end != r.end
  }

  /** The labels one subtitle adds: a timing label exactly when its timing moved, a text label exactly when its text changed. */
  lemma StepLabelsMembers(labels: seq<FixLabel>, r: Record, prevEnd: int)
    ensures var fixed := Repair(r, prevEnd);
      forall l :: l in StepLabels(labels, r, prevEnd) <==>
        l in labels || (l == TimecodeFix && TimingChanged(r, fixed)) || (l == FormattingFix && fixed.content != r.content)
    ensures NoDuplicates(labels) ==> NoDuplicates(StepLabels(labels, r, prevEnd))
  {
  }

  /** Some subtitle among the first `n` had its timing moved. */
  ghost predicate SomeTimingMoved(input: seq<Record>, done: seq<Record>, n: nat)
    requires n <= |input| && n <= |done|
  {
    exists k :: 0 <= k < n && TimingChanged(input[k], done[k])
  }

  /** Some subtitle among the first `n` had its text changed. */
  ghost predicate SomeTextChanged(input: seq<Record>, done: seq<Record>, n: nat)
    requires n <= |input| && n <= |done|
  {
    exists k :: 0 <= k < n && done[k].content != input[k].content
  }

  /** Some subtitle among the first `n` has an index other than its position. */
  ghost predicate SomeMisnumbered(input: seq<Record>, n: nat)
    requires n <= |input|
  {
    exists k :: 0 <= k < n && input[k].index != k + 1
  }

  /** After `n` subtitles, the labels so far and `needs_reindex`. */
  ghost predicate PassLabels(input: seq<Record>, n: nat, p: Pass)
    requires n <= |input| && |p.done| == n
  {
    NoDuplicates(p.labels) && NumberingFix !in p.labels &&
    (TimecodeFix in p.labels <==> SomeTimingMoved(input, p.done, n)) &&
    (FormattingFix in p.labels <==> SomeTextChanged(input, p.done, n)) &&
    (p.needsReindex <==> SomeMisnumbered(input, n))
  }

  lemma SomeTimingMovedStep(input: seq<Record>, before: seq<Record>, r: Record, n: nat)
    requires 0 < n <= |input| && |before| == n - 1
    ensures SomeTimingMoved(input, before + [r], n) <==>
      SomeTimingMoved(input, before, n - 1) || TimingChanged(input[n - 1], r)
  {
    var done := before + [r];
    if SomeTimingMoved(input, done, n) {
      var k :| 0 <= k < n && TimingChanged(input[k], done[k]);
      if k < n - 1 {
        assert done[k] == before[k];
      }
    }
    if SomeTimingMoved(input, before, n - 1) {
      var k :| 0 <= k < n - 1 && TimingChanged(input[k], before[k]);
      assert done[k] == before[k];
    }
    assert done[n - 1] == r;
  }

  lemma SomeTextChangedStep(input: seq<Record>, before: seq<Record>, r: Record, n: nat)
    requires 0 < n <= |input| && |before| == n - 1
    ensures SomeTextChanged(input, before + [r], n) <==>
      SomeTextChanged(input, before, n - 1) || r.content != input[n - 1].content
  {
    var done := before + [r];
    if SomeTextChanged(input, done, n) {
      var k :| 0 <= k < n && done[k].content != input[k].content;
      if k < n - 1 {
        assert done[k] == before[k];
      }
    }
    if SomeTextChanged(input, before, n - 1) {
      var k :| 0 <= k < n - 1 && before[k].content != input[k].content;
      assert done[k] == before[k];
    }
    assert done[n - 1] == r;
  }

  lemma FixPassLabelsStep(input: seq<Record>, n: nat)
    requires 0 < n <= |input|
    requires PassLabels(input, n - 1, FixPass(input, n - 1))
    ensures PassLabels(input, n, FixPass(input, n))
  {
    var p := FixPass(input, n - 1);
    var r := input[n - 1];
    var fixed := Repair(r, p.lastEnd);
    assert FixPass(input, n) == Pass(p.done + [fixed], fixed.end, StepLabels(p.labels, r, p.lastEnd), p.needsReindex || r.index != n);
    StepLabelsFacts(p.labels, r, p.lastEnd);
    SomeTimingMovedStep(input, p.done, fixed, n);
    SomeTextChangedStep(input, p.done, fixed, n);
    SomeMisnumberedStep(input, n);
  }

  lemma StepLabelsFacts(labels: seq<FixLabel>, r: Record, prevEnd: int)
    requires NoDuplicates(labels) && NumberingFix !in labels
    ensures var fixed := Repair(r, prevEnd);
      var out := StepLabels(labels, r, prevEnd);
      NoDuplicates(out) && NumberingFix !in out &&
      (TimecodeFix in out <==> TimecodeFix in labels || TimingChanged(r, fixed)) &&
      (FormattingFix in out <==> FormattingFix in labels || fixed.content != r.content)
  {
    StepLabelsMembers(labels, r, prevEnd);
  }

  lemma SomeMisnumberedStep(input: seq<Record>, n: nat)
    requires 0 < n <= |input|
    ensures SomeMisnumbered(input, n) <==> SomeMisnumbered(input, n - 1) || input[n - 1].index != n
  {
  }

  lemma {:induction false} FixPassLabels(input: seq<Record>, n: nat)
    requires n <= |input|
    ensures PassLabels(input, n, FixPass(input, n))
  {
    if n > 0 {
      FixPassLabels(input, n - 1);
      FixPassLabelsStep(input, n);
    }
  }

  // The order of the two labels of the first pass.

  /** Label `a` occurs in `labels` before label `b`. */
  ghost predicate Before(labels: seq<FixLabel>, a: FixLabel, b: FixLabel) {
    exists i, j :: 0 <= i < j < |labels| && labels[i] == a && labels[j] == b
  }

  /** Appending a label puts it after every label already there. */
  lemma AddLabelBefore(labels: seq<FixLabel>, fix: FixLabel, a: FixLabel, b: FixLabel)
    requires a != b
    ensures Before(AddLabel(labels, fix), a, b) <==> Before(labels, a, b) || (fix == b && b !in labels && a in labels)
  {
    if fix !in labels {
      var out := labels + [fix];
      if Before(out, a, b) {
        var i, j :| 0 <= i < j < |out| && out[i] == a && out[j] == b;
        if j < |labels| {
          assert labels[i] == a && labels[j] == b;
        } else {
          assert labels[i] == a;
        }
      }
      if Before(labels, a, b) {
        var i, j :| 0 <= i < j < |labels| && labels[i] == a && labels[j] == b;
        assert out[i] == a && out[j] == b;
      }
      if fix == b && a in labels {
        var i :| 0 <= i < |labels| && labels[i] == a;
        assert out[i] == a && out[|labels|] == b;
      }
    }
  }

  /** Two distinct labels, both present once, come in one order or the other. */
  lemma BeforeEitherWay(labels: seq<FixLabel>, a: FixLabel, b: FixLabel)
    requires NoDuplicates(labels) && a != b
    ensures Before(labels, a, b) ==> !Before(labels, b, a)
    ensures a in labels && b in labels ==> Before(labels, a, b) || Before(labels, b, a)
  {
    if a in labels && b in labels {
      var i :| 0 <= i < |labels| && labels[i] == a;
      var j :| 0 <= j < |labels| && labels[j] == b;
      assert i < j ==> Before(labels, a, b);
      assert j < i ==> Before(labels, b, a);
    }
  }

  /** One subtitle puts the timing label before the text label when its text changes and the timing label is there by then. */
  lemma StepLabelsBefore(labels: seq<FixLabel>, r: Record, prevEnd: int)
    ensures var fixed := Repair(r, prevEnd);
      Before(StepLabels(labels, r, prevEnd), TimecodeFix, FormattingFix) <==>
        Before(labels, TimecodeFix, FormattingFix) ||
        (FormattingFix !in labels && fixed.content != r.content && (TimecodeFix in labels || TimingChanged(r, fixed)))
  {
    var fixed := Repair(r, prevEnd);
    var labels1 := if r.start < prevEnd then AddLabel(labels, TimecodeFix) else labels;
    var labels2 := if r.end <= fixed.start then AddLabel(labels1, TimecodeFix) else labels1;
    AddLabelBefore(labels, TimecodeFix, TimecodeFix, FormattingFix);
    AddLabelBefore(labels1, TimecodeFix, TimecodeFix, FormattingFix);
    AddLabelBefore(labels2, FormattingFix, TimecodeFix, FormattingFix);
    assert TimecodeFix in labels2 <==> TimecodeFix in labels || TimingChanged(r, fixed);
  }

  /** Some subtitle among the first `n` had its timing moved while no text before it had changed. */
  ghost predicate TimingFirst(input: seq<Record>, done: seq<Record>, n: nat)
    requires n <= |input| && n <= |done|
  {
    exists k :: 0 <= k < n && TimingChanged(input[k], done[k]) && !SomeTextChanged(input, done, k)
  }

  /** After `n` subtitles the timing label precedes the text label exactly when the first moved timing is no later than the first changed text. */
  ghost predicate PassOrder(input: seq<Record>, n: nat, p: Pass)
    requires n <= |input| && |p.done| == n
  {
    Before(p.labels, TimecodeFix, FormattingFix) <==>
      TimingFirst(input, p.done, n) && SomeTextChanged(input, p.done, n)
  }

  lemma TimingFirstFacts(input: seq<Record>, done: seq<Record>, n: nat)
    requires n <= |input| && n <= |done|
    ensures TimingFirst(input, done, n) ==> SomeTimingMoved(input, done, n)
    ensures !SomeTextChanged(input, done, n) && SomeTimingMoved(input, done, n) ==> TimingFirst(input, done, n)
  {
    if !SomeTextChanged(input, done, n) && SomeTimingMoved(input, done, n) {
      var k :| 0 <= k < n && TimingChanged(input[k], done[k]);
      assert !SomeTextChanged(input, done, k);
    }
  }

  lemma SomeTextChangedPrefix(input: seq<Record>, before: seq<Record>, r: Record, k: nat)
    requires k <= |before| < |input|
    ensures SomeTextChanged(input, before + [r], k) <==> SomeTextChanged(input, before, k)
  {
    var done := before + [r];
    if SomeTextChanged(input, done, k) {
      var i :| 0 <= i < k && done[i].content != input[i].content;
      assert done[i] == before[i];
    }
    if SomeTextChanged(input, before, k) {
      var i :| 0 <= i < k && before[i].content != input[i].content;
      assert done[i] == before[i];
    }
  }

  lemma TimingFirstStep(input: seq<Record>, before: seq<Record>, r: Record, n: nat)
    requires 0 < n <= |input| && |before| == n - 1
    ensures TimingFirst(input, before + [r], n) <==>
      TimingFirst(input, before, n - 1) || (TimingChanged(input[n - 1], r) && !SomeTextChanged(input, before, n - 1))
  {
    var done := before + [r];
    if TimingFirst(input, done, n) {
      var k :| 0 <= k < n && TimingChanged(input[k], done[k]) && !SomeTextChanged(input, done, k);
      SomeTextChangedPrefix(input, before, r, k);
      if k < n - 1 {
        assert done[k] == before[k];
      }
    }
    if TimingFirst(input, before, n - 1) {
      var k :| 0 <= k < n - 1 && TimingChanged(input[k], before[k]) && !SomeTextChanged(input, before, k);
      SomeTextChangedPrefix(input, before, r, k);
      assert done[k] == before[k];
    }
    if TimingChanged(input[n - 1], r) && !SomeTextChanged(input, before, n - 1) {
      SomeTextChangedPrefix(input, before, r, n - 1);
      assert done[n - 1] == r;
    }
  }

  lemma FixPassOrderStep(input: seq<Record>, n: nat)
    requires 0 < n <= |input|
    requires PassLabels(input, n - 1, FixPass(input, n - 1))
    requires PassOrder(input, n - 1, FixPass(input, n - 1))
    ensures PassOrder(input, n, FixPass(input, n))
  {
    var p := FixPass(input, n - 1);
    var r := input[n - 1];
    var fixed := Repair(r, p.lastEnd);
    assert FixPass(input, n).done == p.done + [fixed];
    assert FixPass(input, n).labels == StepLabels(p.labels, r, p.lastEnd);
    StepLabelsBefore(p.labels, r, p.lastEnd);
    TimingFirstStep(input, p.done, fixed, n);
    SomeTextChangedStep(input, p.done, fixed, n);
    SomeTimingMovedStep(input, p.done, fixed, n);
    TimingFirstFacts(input, p.done, n - 1);
  }

  lemma {:induction false} FixPassOrder(input: seq<Record>, n: nat)
    requires n <= |input|
    ensures PassOrder(input, n, FixPass(input, n))
  {
    if n > 0 {
      FixPassOrder(input, n - 1);
      FixPassLabels(input, n - 1);
      FixPassOrderStep(input, n);
    }
  }

  /** Output subtitle `k` is input `k` repaired against the output before it, numbered `k + 1`. */
  predicate FixedAt(input: seq<Record>, out: seq<Record>, k: nat)
    requires k < |input| && k < |out|
  {
    out[k] == Repair(input[k], PrevEndOf(out, k)).(index := k + 1)
  }

  /**
   * Each output subtitle is its input repaired against the output subtitle
   * before it and numbered by its 1-based position; there are as many as in
   * the input, in the same order.
   */
  lemma FixedRecords(input: seq<Record>)
    ensures |Fixed(input).records| == |input|
    ensures forall k :: 0 <= k < |input| ==> FixedAt(input, Fixed(input).records, k)
  {
    var p := FixPass(input, |input|);
    var out := Fixed(input).records;
    FixPassRepaired(input, |input|);
    FixPassLabels(input, |input|);
    forall k | 0 <= k < |input|
      ensures FixedAt(input, out, k)
    {
      assert RepairedAt(input, p.done, k);
      assert PrevEndOf(out, k) == PrevEndOf(p.done, k);
      if !p.needsReindex {
        assert input[k].index == k + 1;
      }
    }
  }

  /** Each subtitle of `rs` ends no later than the next one starts. */
  ghost predicate Adjacent(rs: seq<Record>) {
    forall i, j :: 0 <= i && j == i + 1 && j < |rs| ==> rs[i].end <= rs[j].start
  }

  /** Every output subtitle lasts at least 1 ms, none starts before the one before it ends, and the first starts at 0 or later. */
  lemma FixedTiming(input: seq<Record>)
    ensures forall k :: 0 <= k < |Fixed(input).records| ==> Fixed(input).records[k].start + 1 <= Fixed(input).records[k].end
    ensures Adjacent(Fixed(input).records)
    ensures |Fixed(input).records| > 0 ==> Fixed(input).records[0].start >= 0
  {
    var out := Fixed(input).records;
    FixedRecords(input);
    forall k | 0 <= k < |out|
      ensures out[k].start + 1 <= out[k].end
    {
      assert FixedAt(input, out, k);
    }
    forall i, j | 0 <= i && j == i + 1 && j < |out|
      ensures out[i].end <= out[j].start
    {
      assert FixedAt(input, out, j);
    }
    if |out| > 0 {
      assert FixedAt(input, out, 0);
    }
  }

  /** Subtitles that last and do not overlap are ordered: an earlier one ends before a later one starts. */
  lemma {:induction false} NonOverlappingOrdered(rs: seq<Record>, i: nat, j: nat)
    requires forall k :: 0 <= k < |rs| ==> rs[k].start < rs[k].end
    requires Adjacent(rs)
    requires i < j < |rs|
    ensures rs[i].end <= rs[j].start
    decreases j
  {
    if i < j - 1 {
      NonOverlappingOrdered(rs, i, j - 1);
      assert rs[j - 1].end <= rs[j].start;
    }
  }

  /** Output starts strictly increase, and each output subtitle ends before any later one starts. */
  lemma FixedOrdered(input: seq<Record>)
    ensures forall i, j :: 0 <= i < j < |Fixed(input).records| ==>
      Fixed(input).records[i].end <= Fixed(input).records[j].start &&
      Fixed(input).records[i].start < Fixed(input).records[j].start
  {
    var out := Fixed(input).records;
    FixedTiming(input);
    forall i, j | 0 <= i < j < |out|
      ensures out[i].end <= out[j].start && out[i].start < out[j].start
    {
      NonOverlappingOrdered(out, i, j);
    }
  }

  /**
   * A start before the previous output end becomes that end plus 1 ms; a
   * subtitle starting at or after the previous output end and lasting keeps
   * its timing.
   */
  lemma FixedShift(input: seq<Record>, k: nat)
    requires k < |input|
    ensures var out := Fixed(input).records;
      k < |out| &&
      (input[k].start < PrevEndOf(out, k) ==> out[k].start == PrevEndOf(out, k) + 1) &&
      (input[k].start >= PrevEndOf(out, k) && input[k].end > input[k].start ==>
         out[k].start == input[k].start && out[k].end == input[k].end)
  {
    FixedRecords(input);
    assert FixedAt(input, Fixed(input).records, k);
  }

  /** Output text is clean, and a subtitle keeps its text exactly when the text was already clean. */
  lemma FixedContent(input: seq<Record>)
    ensures |Fixed(input).records| == |input|
    ensures forall k :: 0 <= k < |input| ==>
      Clean(Fixed(input).records[k].content) &&
      (Fixed(input).records[k].content == input[k].content <==> Clean(input[k].content))
  {
    var out := Fixed(input).records;
    FixedRecords(input);
    forall k | 0 <= k < |input|
      ensures Clean(out[k].content) && (out[k].content == input[k].content <==> Clean(input[k].content))
    {
      assert FixedAt(input, out, k);
      NormalizeClean(input[k].content);
      NormalizeIdentity(input[k].content);
    }
  }

  /**
   * The labels: no label twice; the timing label exactly when some start or
   * end moved, the text label exactly when some text was not clean, the
   * numbering label exactly when some index differed from its position, and
   * then it is the last. The timing label comes before the text label exactly
   * when the first subtitle whose timing moved is at or before the first one
   * whose text changed.
   */
  lemma FixedLabels(input: seq<Record>)
    ensures var out := Fixed(input).records;
      var labels := Fixed(input).labels;
      |out| == |input| &&
      NoDuplicates(labels) &&
      (TimecodeFix in labels <==> exists k :: 0 <= k < |input| && TimingChanged(input[k], out[k])) &&
      (FormattingFix in labels <==> exists k :: 0 <= k < |input| && !Clean(input[k].content)) &&
      (NumberingFix in labels <==> exists k :: 0 <= k < |input| && input[k].index != k + 1) &&
      (NumberingFix in labels ==> labels[|labels| - 1] == NumberingFix) &&
      (Before(labels, TimecodeFix, FormattingFix) <==>
         FormattingFix in labels &&
         exists k :: 0 <= k < |input| && TimingChanged(input[k], out[k]) &&
           forall k' :: 0 <= k' < k ==> Clean(input[k'].content)) &&
      (TimecodeFix in labels && FormattingFix in labels ==>
         (Before(labels, FormattingFix, TimecodeFix) <==> !Before(labels, TimecodeFix, FormattingFix)))
  {
    var p := FixPass(input, |input|);
    var out := Fixed(input).records;
    FixPassLabels(input, |input|);
    FixPassRepaired(input, |input|);
    FixPassOrder(input, |input|);
    AddLabelBefore(p.labels, NumberingFix, TimecodeFix, FormattingFix);
    BeforeEitherWay(Fixed(input).labels, TimecodeFix, FormattingFix);
    forall k | 0 <= k < |input|
      ensures TimingChanged(input[k], out[k]) == TimingChanged(input[k], p.done[k])
      ensures p.done[k].content != input[k].content <==> !Clean(input[k].content)
    {
      assert RepairedAt(input, p.done, k);
      NormalizeIdentity(input[k].content);
    }
  }

  /** Subtitle `k` of `rs` is its own repair and carries its position. */
  predicate SettledAt(rs: seq<Record>, k: nat)
    requires k < |rs|
  {
    Repair(rs[k], PrevEndOf(rs, k)) == rs[k] && rs[k].index == k + 1
  }

  /** A sequence the pass leaves alone. */
  predicate Settled(rs: seq<Record>) {
    forall k :: 0 <= k < |rs| ==> SettledAt(rs, k)
  }

  lemma {:induction false} FixPassSettled(rs: seq<Record>, n: nat)
    requires n <= |rs| && Settled(rs)
    ensures FixPass(rs, n) == Pass(rs[..n], PrevEndOf(rs, n), [], false)
  {
    if n > 0 {
      FixPassSettled(rs, n - 1);
      SettledStep(rs, n);
    }
  }

  /** On a settled sequence one more step of the pass appends the next subtitle unchanged and reports nothing. */
  lemma SettledStep(rs: seq<Record>, n: nat)
    requires 0 < n <= |rs| && Settled(rs)
    ensures FixStep(Pass(rs[..n - 1], PrevEndOf(rs, n - 1), [], false), rs[n - 1], n) ==
            Pass(rs[..n], PrevEndOf(rs, n), [], false)
  {
    assert SettledAt(rs, n - 1);
    assert rs[..n] == rs[..n - 1] + [rs[n - 1]];
  }

  /** The output of the pass is settled. */
  lemma FixedSettled(input: seq<Record>)
    ensures Settled(Fixed(input).records)
  {
    var out := Fixed(input).records;
    FixedRecords(input);
    forall k | 0 <= k < |out|
      ensures SettledAt(out, k)
    {
      assert FixedAt(input, out, k);
      NormalizeIdempotent(input[k].content);
    }
  }

  /** Fixing fixed subtitles changes nothing and reports no fix. */
  lemma FixedIdempotent(input: seq<Record>)
    ensures Fixed(Fixed(input).records) == FixResult(Fixed(input).records, [])
  {
    var out := Fixed(input).records;
    FixedSettled(input);
    FixPassSettled(out, |out|);
    assert out[..|out|] == out;
  }

  /**
   * The fixer's test case: two subtitles numbered 2 and 1, the second starting
   * before the first ends, the first with text to clean. The second start moves
   * to 3501 ms, both are renumbered, and all three labels are reported.
   */
  lemma FixExample(first: string, second: string)
    requires !Clean(first)
    ensures Fixed([Record(2, 1000, 3500, first), Record(1, 3000, 5000, second)]) ==
      FixResult([Record(1, 1000, 3500, Normalize(first)), Record(2, 3501, 5000, Normalize(second))],
                [FormattingFix, TimecodeFix, NumberingFix])
  {
    FixExampleSecond(first, second);
    var done := FixPass([Record(2, 1000, 3500, first), Record(1, 3000, 5000, second)], 2).done;
    RenumberTwo(done[0], done[1]);
    assert [done[0], done[1]] == done;
    LabelsExample();
  }

  lemma LabelsExample()
    ensures AddLabel([FormattingFix, TimecodeFix], NumberingFix) == [FormattingFix, TimecodeFix, NumberingFix]
  {
  }

  lemma RenumberTwo(a: Record, b: Record)
    ensures Renumbered([a, b]) == [a.(index := 1), b.(index := 2)]
  {
  }

  /** The first subtitle keeps its timing, has its text cleaned and is out of place. */
  lemma FixExampleFirst(first: string, second: string)
    requires !Clean(first)
    ensures FixPass([Record(2, 1000, 3500, first), Record(1, 3000, 5000, second)], 1) ==
      Pass([Record(2, 1000, 3500, Normalize(first))], 3500, [FormattingFix], true)
  {
    NormalizeIdentity(first);
    var input := [Record(2, 1000, 3500, first), Record(1, 3000, 5000, second)];
    var p0 := FixPass(input, 0);
    assert p0 == Pass([], 0, [], false);
    assert Repair(input[0], 0) == Record(2, 1000, 3500, Normalize(first));
    assert StepLabels([], input[0], 0) == [FormattingFix];
    assert FixPass(input, 1) == FixStep(p0, input[0], 1);
  }

  /** The second subtitle starts 1 ms after the first ends. */
  lemma FixExampleSecond(first: string, second: string)
    requires !Clean(first)
    ensures FixPass([Record(2, 1000, 3500, first), Record(1, 3000, 5000, second)], 2) ==
      Pass([Record(2, 1000, 3500, Normalize(first)), Record(1, 3501, 5000, Normalize(second))], 5000,
           [FormattingFix, TimecodeFix], true)
  {
    var input := [Record(2, 1000, 3500, first), Record(1, 3000, 5000, second)];
    FixExampleFirst(first, second);
    var p1 := Pass([Record(2, 1000, 3500, Normalize(first))], 3500, [FormattingFix], true);
    assert Repair(input[1], 3500) == Record(1, 3501, 5000, Normalize(second));
    assert StepLabels([FormattingFix], input[1], 3500) == [FormattingFix, TimecodeFix];
    assert FixPass(input, 2) == FixStep(p1, input[1], 2);
  }

  // ---------------------------------------------------------------------------
  // The pass on objects
  // ---------------------------------------------------------------------------

  /** A parsed subtitle object, whose fields the fixer overwrites. */
  class Subtitle {
    var index: int
    var start: int
    var end: int
    var content: string

    constructor (r: Record)
      ensures Value() == r
    {
      index, start, end, content := r.index, r.start, r.end, r.content;
    }

    function Value(): Record
      reads this
    {
      Record(index, start, end, content)
    }
  }

  function Values(subs: seq<Subtitle>): (rs: seq<Record>)
    reads set s | s in subs
    ensures |rs| == |subs|
    ensures forall i :: 0 <= i < |subs| ==> rs[i] == subs[i].Value()
  {
    seq(|subs|, i reads set s | s in subs requires 0 <= i < |subs| => subs[i].Value())
  }

  /** Each subtitle object appears once in the list. */
  predicate DistinctObjects(subs: seq<Subtitle>) {
    forall i, j :: 0 <= i < j < |subs| ==> subs[i] != subs[j]
  }

  /** The body of the first loop on the subtitle at 1-based `position`. */
  method FixSubtitle(sub: Subtitle, position: int, lastEndTime: int, fixesApplied: seq<FixLabel>, needsReindex: bool)
    returns (lastEndTime': int, fixesApplied': seq<FixLabel>, needsReindex': bool)
    modifies sub
    ensures sub.Value() == Repair(old(sub.Value()), lastEndTime)
    ensures lastEndTime' == sub.end
    ensures fixesApplied' == StepLabels(fixesApplied, old(sub.Value()), lastEndTime)
    ensures needsReindex' == (needsReindex || sub.index != position)
  {
    fixesApplied', needsReindex' := fixesApplied, needsReindex;
    var originalContent := sub.content;
    if sub.start < lastEndTime {
      sub.start := lastEndTime + 1;
      if TimecodeFix !in fixesApplied' {
        fixesApplied' := fixesApplied' + [TimecodeFix];
      }
    }
    if sub.end <= sub.start {
      sub.end := sub.start + 1;
      if TimecodeFix !in fixesApplied' {
        fixesApplied' := fixesApplied' + [TimecodeFix];
      }
    }
    lastEndTime' := sub.end;
    var newContent := RemoveCR(sub.content);
    newContent := CollapseNewlines(newContent);
    newContent := Strip(newContent);
    assert newContent == Normalize(originalContent);
    if newContent != originalContent {
      sub.content := newContent;
      if FormattingFix !in fixesApplied' {
        fixesApplied' := fixesApplied' + [FormattingFix];
      }
    }
    if sub.index != position {
      needsReindex' := true;
    }
  }

  /** One more subtitle through the first pass. */
  lemma FixPassStep(input: seq<Record>, n: nat)
    requires 0 < n <= |input|
    ensures var p := FixPass(input, n - 1);
      var fixed := Repair(input[n - 1], p.lastEnd);
      FixPass(input, n) == Pass(p.done + [fixed], fixed.end, StepLabels(p.labels, input[n - 1], p.lastEnd),
                                p.needsReindex || input[n - 1].index != n)
  {
  }

  /** The first loop: timing and text of every subtitle, in order. */
  method FixEach(subtitles: seq<Subtitle>) returns (fixesApplied: seq<FixLabel>, needsReindex: bool)
    requires DistinctObjects(subtitles)
    modifies set s | s in subtitles
    ensures var p := FixPass(old(Values(subtitles)), |subtitles|);
      Values(subtitles) == p.done && fixesApplied == p.labels && needsReindex == p.needsReindex
  {
    ghost var input := Values(subtitles);
    ghost var done: seq<Record> := [];
    fixesApplied := [];
    needsReindex := false;
    var lastEndTime := 0;
    for i := 0 to |subtitles|
      invariant FixPass(input, i) == Pass(done, lastEndTime, fixesApplied, needsReindex)
      invariant forall k :: 0 <= k < i ==> subtitles[k].Value() == done[k]
      invariant forall k :: i <= k < |subtitles| ==> subtitles[k].Value() == input[k]
    {
      FixPassStep(input, i + 1);
      var sub := subtitles[i];
      label BeforeFix:
      lastEndTime, fixesApplied, needsReindex := FixSubtitle(sub, i + 1, lastEndTime, fixesApplied, needsReindex);
      forall k | 0 <= k < |subtitles| && k != i
        ensures subtitles[k].Value() == old@BeforeFix(subtitles[k].Value())
      {
        assert subtitles[k] != sub;
      }
      done := done + [sub.Value()];
    }
    assert Values(subtitles) == done;
  }

  /** The second loop: every subtitle gets its 1-based position as index. */
  method Renumber(subtitles: seq<Subtitle>)
    requires DistinctObjects(subtitles)
    modifies set s | s in subtitles
    ensures Values(subtitles) == Renumbered(old(Values(subtitles)))
  {
    ghost var before := Values(subtitles);
    for i := 0 to |subtitles|
      invariant forall k :: 0 <= k < i ==> subtitles[k].Value() == Renumbered(before)[k]
      invariant forall k :: i <= k < |subtitles| ==> subtitles[k].Value() == before[k]
    {
      var sub := subtitles[i];
      label BeforeRenumber:
      sub.index := i + 1;
      forall k | 0 <= k < |subtitles| && k != i
        ensures subtitles[k].Value() == old@BeforeRenumber(subtitles[k].Value())
      {
        assert subtitles[k] != sub;
      }
    }
    assert Values(subtitles) == Renumbered(before);
  }

  /**
   * `fix_srt_subtitles`: returns the same objects in the same order, now
   * holding the fixed values, and the labels of the fixes applied.
   */
  method FixSrtSubtitles(subtitles: seq<Subtitle>) returns (fixedSubs: seq<Subtitle>, fixesApplied: seq<FixLabel>)
    requires DistinctObjects(subtitles)
    modifies set s | s in subtitles
    ensures fixedSubs == subtitles
    ensures Values(fixedSubs) == Fixed(old(Values(subtitles))).records
    ensures fixesApplied == Fixed(old(Values(subtitles))).labels
  {
    fixedSubs := subtitles;
    var needsReindex;
    fixesApplied, needsReindex := FixEach(fixedSubs);
    if needsReindex {
      Renumber(fixedSubs);
      if NumberingFix !in fixesApplied {
        fixesApplied := fixesApplied + [NumberingFix];
      }
    }
  }
}
