/**
 * The string primitives the SRT checker relies on, written out for ASCII text:
 * Python's `str.strip`, `str.splitlines`, `str.split("\n")`, `str.lower`,
 * `str.count`, the `in` substring test, `int()` on a digit string, the
 * digits-only test `^\d+$`, the tag-stripping substitution `<[^>]+>` and the
 * strict timecode grammar `^\d{2}:\d{2}:\d{2},\d{3}\s+-->\s+\d{2}:\d{2}:\d{2},\d{3}$`.
 */
module SrtText {

  /** Python's `str.isspace` on the ASCII range: space, \t \n \v \f \r and \x1c-\x1f. */
  predicate IsSpace(c: char) {
    c == ' ' || (9 <= c as int <= 13) || (28 <= c as int <= 31)
  }

  /** The ASCII line boundaries of `str.splitlines`: \n \r \v \f \x1c \x1d \x1e. */
  predicate IsLineBreak(c: char) {
    c == '\n' || c == '\r' || c as int == 11 || c as int == 12 || (28 <= c as int <= 30)
  }

  predicate IsDigit(c: char) {
    '0' <= c <= '9'
  }

  predicate AllSpace(s: string) {
    forall i :: 0 <= i < |s| ==> IsSpace(s[i])
  }

  // ---------------------------------------------------------------------------
  // strip
  // ---------------------------------------------------------------------------

  /** `s.strip()`: drops whitespace from both ends. */
  function Strip(s: string): string
    decreases |s|
  {
    if s == [] then []
    else if IsSpace(s[0]) then Strip(s[1..])
    else if IsSpace(s[|s| - 1]) then Strip(s[..|s| - 1])
    else s
  }

  /** The stripped text does not start or end with whitespace, and it is empty exactly for all-whitespace input. */
  lemma {:induction false} StripEnds(s: string)
    ensures var r := Strip(s); r != [] ==> !IsSpace(r[0]) && !IsSpace(r[|r| - 1])
    ensures Strip(s) == [] <==> AllSpace(s)
    decreases |s|
  {
    if s == [] {
    } else if IsSpace(s[0]) {
      StripEnds(s[1..]);
      assert AllSpace(s) <==> AllSpace(s[1..]) by {
        if AllSpace(s[1..]) {
          forall i | 0 <= i < |s| ensures IsSpace(s[i]) {
            if i > 0 { assert s[i] == s[1..][i - 1]; }
          }
        }
      }
    } else if IsSpace(s[|s| - 1]) {
      StripEnds(s[..|s| - 1]);
    } else {
      assert !AllSpace(s);
    }
  }

  /** Number of whitespace characters `Strip` removes from the front of `s`. */
  function StripOffset(s: string): nat
    decreases |s|
  {
    if s == [] then 0
    else if IsSpace(s[0]) then 1 + StripOffset(s[1..])
    else if IsSpace(s[|s| - 1]) then StripOffset(s[..|s| - 1])
    else 0
  }

  /** The stripped text is a contiguous piece of the original, and only whitespace lies before and after it. */
  lemma {:induction false} StripIsSlice(s: string)
    ensures StripOffset(s) + |Strip(s)| <= |s|
    ensures Strip(s) == s[StripOffset(s)..StripOffset(s) + |Strip(s)|]
    ensures forall i :: 0 <= i < StripOffset(s) ==> IsSpace(s[i])
    ensures forall i :: StripOffset(s) + |Strip(s)| <= i < |s| ==> IsSpace(s[i])
    decreases |s|
  {
    if s == [] {
    } else if IsSpace(s[0]) {
      var t := s[1..];
      StripIsSlice(t);
      forall i | 0 < i < |s| ensures s[i] == t[i - 1] { }
    } else if IsSpace(s[|s| - 1]) {
      var t := s[..|s| - 1];
      StripIsSlice(t);
      forall i | 0 <= i < |s| - 1 ensures s[i] == t[i] { }
    } else {
      assert s == s[0..|s|];
    }
  }

  /** A string whose ends are not whitespace is its own strip. */
  lemma StripOfStripped(s: string)
    requires s != [] ==> !IsSpace(s[0]) && !IsSpace(s[|s| - 1])
    ensures Strip(s) == s
  {
  }

  /** Stripping is idempotent: a stripped string has nothing left to strip. */
  lemma StripIdempotent(s: string)
    ensures Strip(Strip(s)) == Strip(s)
  {
    StripEnds(s);
    StripOfStripped(Strip(s));
  }

  // ---------------------------------------------------------------------------
  // splitlines and split("\n")
  // ---------------------------------------------------------------------------

  /** Position of the first line boundary in `s`, or `|s|` when there is none. */
  function LineBreakAt(s: string): (k: nat)
    ensures k <= |s|
    ensures k < |s| ==> IsLineBreak(s[k])
    ensures forall i :: 0 <= i < k ==> !IsLineBreak(s[i])
    decreases |s|
  {
    if s == [] || IsLineBreak(s[0]) then 0 else 1 + LineBreakAt(s[1..])
  }

  /**
   * `s.splitlines()`: the lines of `s` without their boundaries; "\r\n" is one
   * boundary, and a final boundary does not start an extra empty line.
   */
  function SplitLines(s: string): seq<string>
    decreases |s|
  {
    if s == [] then []
    else
      var k := LineBreakAt(s);
      if k == |s| then [s]
      else [s[..k]] + SplitLines(s[LineBreakEnd(s)..])
  }

  /** The next line boundary ends at `LineBreakEnd(s)`: "\r\n" counts as one boundary. */
  function LineBreakEnd(s: string): (next: nat)
    requires LineBreakAt(s) < |s|
    ensures LineBreakAt(s) < next <= |s|
  {
    var k := LineBreakAt(s);
    if s[k] == '\r' && k + 1 < |s| && s[k + 1] == '\n' then k + 2 else k + 1
  }

  lemma SplitLinesStep(s: string)
    requires s != [] && LineBreakAt(s) < |s|
    ensures SplitLines(s) == [s[..LineBreakAt(s)]] + SplitLines(s[LineBreakEnd(s)..])
  {
  }

  /** There are no lines exactly when the text is empty. */
  lemma SplitLinesEmpty(s: string)
    ensures SplitLines(s) == [] <==> s == []
  {
  }

  /** Lines hold only characters of the text, and no line boundary. */
  lemma {:induction false} SplitLinesChars(s: string)
    ensures var lines := SplitLines(s);
      forall j, i :: 0 <= j < |lines| && 0 <= i < |lines[j]| ==> lines[j][i] in s && !IsLineBreak(lines[j][i])
    decreases |s|
  {
    if s != [] && LineBreakAt(s) < |s| {
      var k := LineBreakAt(s);
      var next := LineBreakEnd(s);
      var rest := SplitLines(s[next..]);
      SplitLinesStep(s);
      SplitLinesChars(s[next..]);
      var lines := [s[..k]] + rest;
      forall j, i | 0 <= j < |lines| && 0 <= i < |lines[j]|
        ensures lines[j][i] in s && !IsLineBreak(lines[j][i])
      {
        if j == 0 {
          assert lines[j][i] == s[i];
        } else {
          assert lines[j] == rest[j - 1];
          var p :| 0 <= p < |s[next..]| && s[next..][p] == lines[j][i];
          assert s[next + p] == lines[j][i];
        }
      }
    }
  }

  /** Position of the first `c` in `s`, or `|s|` when there is none. */
  function IndexOf(s: string, c: char): (k: nat)
    ensures k <= |s|
    ensures k < |s| ==> s[k] == c
    ensures forall i :: 0 <= i < k ==> s[i] != c
    decreases |s|
  {
    if s == [] || s[0] == c then 0 else 1 + IndexOf(s[1..], c)
  }

  /** `s.split(sep)` for a one-character separator: never empty, one more part than separators. */
  function SplitOn(s: string, sep: char): (parts: seq<string>)
    ensures |parts| >= 1
    decreases |s|
  {
    var k := IndexOf(s, sep);
    if k == |s| then [s] else [s[..k]] + SplitOn(s[k + 1..], sep)
  }

  /** `sep.join(parts)`. */
  function Join(parts: seq<string>, sep: char): string
  {
    if parts == [] then []
    else if |parts| == 1 then parts[0]
    else parts[0] + [sep] + Join(parts[1..], sep)
  }

  /** Number of occurrences of the character `c` in `s`. */
  function CountChar(s: string, c: char): nat
    decreases |s|
  {
    if s == [] then 0 else (if s[0] == c then 1 else 0) + CountChar(s[1..], c)
  }

  lemma CountCharAppend(a: string, b: string, c: char)
    ensures CountChar(a + b, c) == CountChar(a, c) + CountChar(b, c)
  {
    if a == [] {
      assert a + b == b;
    } else {
      assert (a + b)[1..] == a[1..] + b;
      CountCharAppend(a[1..], b, c);
    }
  }

  lemma CountCharAbsent(s: string, c: char)
    requires forall i :: 0 <= i < |s| ==> s[i] != c
    ensures CountChar(s, c) == 0
  {
    if s != [] {
      CountCharAbsent(s[1..], c);
    }
  }

  lemma SplitOnStep(s: string, sep: char)
    requires IndexOf(s, sep) < |s|
    ensures SplitOn(s, sep) == [s[..IndexOf(s, sep)]] + SplitOn(s[IndexOf(s, sep) + 1..], sep)
  {
  }

  /** Splitting and joining again gives back the original text. */
  lemma {:induction false} SplitOnJoin(s: string, sep: char)
    ensures Join(SplitOn(s, sep), sep) == s
    decreases |s|
  {
    var k := IndexOf(s, sep);
    if k < |s| {
      var rest := SplitOn(s[k + 1..], sep);
      SplitOnStep(s, sep);
      SplitOnJoin(s[k + 1..], sep);
      assert ([s[..k]] + rest)[1..] == rest;
      assert Join([s[..k]] + rest, sep) == s[..k] + [sep] + s[k + 1..];
      assert s == s[..k] + [sep] + s[k + 1..];
    }
  }

  /** There is one part more than separators. */
  lemma {:induction false} SplitOnCount(s: string, sep: char)
    ensures |SplitOn(s, sep)| == CountChar(s, sep) + 1
    decreases |s|
  {
    var k := IndexOf(s, sep);
    if k == |s| {
      CountCharAbsent(s, sep);
    } else {
      SplitOnStep(s, sep);
      SplitOnCount(s[k + 1..], sep);
      assert s == s[..k] + [sep] + s[k + 1..];
      CountCharAppend(s[..k] + [sep], s[k + 1..], sep);
      CountCharAppend(s[..k], [sep], sep);
      CountCharAbsent(s[..k], sep);
    }
  }

  // ---------------------------------------------------------------------------
  // substrings, lower-case, counting
  // ---------------------------------------------------------------------------

  predicate OccursAt(s: string, p: string, i: nat) {
    i + |p| <= |s| && s[i..i + |p|] == p
  }

  /** The substring test `p in s`. */
  predicate Contains(s: string, p: string) {
    exists i: nat | i <= |s| :: OccursAt(s, p, i)
  }

  function LowerChar(c: char): char {
    if 'A' <= c <= 'Z' then (c as int + 32) as char else c
  }

  /** `s.lower()` on ASCII letters. */
  function Lower(s: string): string
  {
    seq(|s|, i requires 0 <= i < |s| => LowerChar(s[i]))
  }

  /** `s.count(p)`: non-overlapping occurrences, scanning from the left. */
  function Count(s: string, p: string): nat
    requires |p| > 0
    decreases |s|
  {
    if |s| < |p| then 0
    else if s[..|p|] == p then 1 + Count(s[|p|..], p)
    else Count(s[1..], p)
  }

  /** An occurrence after the first character is an occurrence in the rest, and conversely. */
  lemma ContainsTail(s: string, p: string)
    requires |s| > 0 && !OccursAt(s, p, 0)
    ensures Contains(s, p) <==> Contains(s[1..], p)
  {
    if Contains(s, p) {
      var i: nat :| i <= |s| && OccursAt(s, p, i);
      assert OccursAt(s[1..], p, i - 1) by {
        assert s[1..][i - 1..i - 1 + |p|] == s[i..i + |p|];
      }
    }
    if Contains(s[1..], p) {
      var i: nat :| i <= |s[1..]| && OccursAt(s[1..], p, i);
      assert s[1..][i..i + |p|] == s[i + 1..i + 1 + |p|];
      assert OccursAt(s, p, i + 1);
    }
  }

  /** The count is zero exactly when `p` does not occur. */
  lemma {:induction false} CountSpec(s: string, p: string)
    requires |p| > 0
    ensures Count(s, p) == 0 <==> !Contains(s, p)
    decreases |s|
  {
    if |s| < |p| {
      assert forall i: nat | i <= |s| :: !OccursAt(s, p, i);
    } else if s[..|p|] == p {
      assert OccursAt(s, p, 0);
    } else {
      CountSpec(s[1..], p);
      ContainsTail(s, p);
    }
  }

  /** The non-overlapping matches fit in the text. */
  lemma {:induction false} CountBound(s: string, p: string)
    requires |p| > 0
    ensures Count(s, p) * |p| <= |s|
    decreases |s|
  {
    if |s| >= |p| {
      if s[..|p|] == p {
        CountBound(s[|p|..], p);
      } else {
        CountBound(s[1..], p);
      }
    }
  }

  // ---------------------------------------------------------------------------
  // digits
  // ---------------------------------------------------------------------------

  /** The digits-only test `^\d+$` (ASCII digits). */
  predicate IsDigits(s: string) {
    |s| > 0 && forall i :: 0 <= i < |s| ==> IsDigit(s[i])
  }

  /** `int(s)` for a string of ASCII digits (leading zeros allowed). */
  function DigitsValue(s: string): (v: nat)
    decreases |s|
  {
    if s == [] then 0
    else 10 * DigitsValue(s[..|s| - 1]) + (s[|s| - 1] as int - '0' as int) % 10
  }

  /** A digits-only string is not blank and has no arrow in it. */
  lemma DigitsNotBlank(s: string)
    requires IsDigits(s)
    ensures Strip(s) == s && s != [] && !Contains(s, "-->")
  {
    StripOfStripped(s);
    forall i: nat | i <= |s| ensures !OccursAt(s, "-->", i) {
      if i + 3 <= |s| {
        assert s[i..i + 3][0] == s[i];
      }
    }
  }

  // ---------------------------------------------------------------------------
  // the strict timecode grammar
  // ---------------------------------------------------------------------------

  /** `\d{2}:\d{2}:\d{2},\d{3}` */
  predicate IsStamp(s: string) {
    |s| == 12 &&
    IsDigit(s[0]) && IsDigit(s[1]) && s[2] == ':' &&
    IsDigit(s[3]) && IsDigit(s[4]) && s[5] == ':' &&
    IsDigit(s[6]) && IsDigit(s[7]) && s[8] == ',' &&
    IsDigit(s[9]) && IsDigit(s[10]) && IsDigit(s[11])
  }

  predicate ArrowSplitAt(m: string, k: nat) {
    1 <= k && k + 3 < |m| &&
    AllSpace(m[..k]) && m[k..k + 3] == "-->" && AllSpace(m[k + 3..])
  }

  /** `\s+-->\s+` */
  predicate IsArrowSeparator(m: string) {
    exists k: nat | k <= |m| :: ArrowSplitAt(m, k)
  }

  /**
   * The whole (stripped) line matches
   * `^\d{2}:\d{2}:\d{2},\d{3}\s+-->\s+\d{2}:\d{2}:\d{2},\d{3}$`: both stamps have
   * a fixed width, so they are the first and the last twelve characters.
   */
  predicate IsStrictTimecode(s: string) {
    |s| >= 29 &&
    IsStamp(s[..12]) && IsStamp(s[|s| - 12..]) && IsArrowSeparator(s[12..|s| - 12])
  }

  /** Every line the grammar accepts contains the arrow that makes the scanner test it. */
  lemma StrictTimecodeHasArrow(s: string)
    requires IsStrictTimecode(s)
    ensures Contains(s, "-->")
  {
    var m := s[12..|s| - 12];
    var k: nat :| k <= |m| && ArrowSplitAt(m, k);
    assert s[12 + k..12 + k + 3] == m[k..k + 3] by {
      forall t | k <= t < k + 3 ensures m[t] == s[12 + t] { }
    }
    assert OccursAt(s, "-->", 12 + k);
  }

  /** The well-formed line of a block is accepted. */
  lemma StrictTimecodeAccepted()
    ensures IsStrictTimecode("00:00:01,000 --> 00:00:03,500")
  {
    var s := "00:00:01,000 --> 00:00:03,500";
    StampExample(s[..12]);
    StampExample2(s[|s| - 12..]);
    var m := s[12..|s| - 12];
    assert m == " --> ";
    assert ArrowSplitAt(m, 1);
  }

  lemma StampExample(s: string)
    requires s == "00:00:01,000"
    ensures IsStamp(s)
  {
  }

  lemma StampExample2(s: string)
    requires s == "00:00:03,500"
    ensures IsStamp(s)
  {
  }

  /** A line without milliseconds on its start is rejected. */
  lemma StrictTimecodeRejected()
    ensures !IsStrictTimecode("00:00:01 --> 00:00:03,000")
  {
  }

  // ---------------------------------------------------------------------------
  // tag stripping: re.sub(r"<[^>]+>", "", s)
  // ---------------------------------------------------------------------------

  /** `<` at `i`, `>` at `j`, at least one character between them and no `>` among those. */
  predicate IsTagAt(s: string, i: nat, j: nat) {
    i + 2 <= j < |s| && s[i] == '<' && s[j] == '>' &&
    forall k :: i < k < j ==> s[k] != '>'
  }

  ghost predicate TagFree(s: string) {
    forall i: nat, j: nat :: !IsTagAt(s, i, j)
  }

  /**
   * Removes every match of `<[^>]+>`, scanning left to right: a `<` starts a
   * match exactly when the first `>` after it is not the next character.
   */
  function StripTags(s: string): (r: string)
    ensures |r| <= |s|
    decreases |s|
  {
    if s == [] then []
    else if s[0] == '<' then
      var j := IndexOf(s[1..], '>');
      if 1 <= j < |s| - 1 then StripTags(s[j + 2..])
      else [s[0]] + StripTags(s[1..])
    else [s[0]] + StripTags(s[1..])
  }

  /** `r` is a subsequence of `s`: `s` with some characters removed. */
  predicate Subsequence(r: string, s: string)
    decreases |s|
  {
    r == [] ||
    (s != [] && ((r[0] == s[0] && Subsequence(r[1..], s[1..])) || Subsequence(r, s[1..])))
  }

  /** A subsequence of a suffix is a subsequence of the whole. */
  lemma {:induction false} SubsequenceOfSuffix(r: string, s: string, k: nat)
    requires k <= |s| && Subsequence(r, s[k..])
    ensures Subsequence(r, s)
    decreases k
  {
    if k > 0 {
      assert s[k..] == s[1..][k - 1..];
      SubsequenceOfSuffix(r, s[1..], k - 1);
    }
  }

  /** Stripping tags only removes characters: the result is a subsequence of the input. */
  lemma {:induction false} StripTagsChars(s: string)
    ensures Subsequence(StripTags(s), s)
    ensures forall c :: c in StripTags(s) ==> c in s
    decreases |s|
  {
    if s != [] {
      var j := IndexOf(s[1..], '>');
      var from := if s[0] == '<' && 1 <= j < |s| - 1 then j + 2 else 1;
      StripTagsChars(s[from..]);
      if from == 1 {
        var r := StripTags(s);
        assert r == [s[0]] + StripTags(s[1..]);
        assert r[1..] == StripTags(s[1..]);
      } else {
        SubsequenceOfSuffix(StripTags(s), s, from);
      }
      forall c | c in s[from..] ensures c in s {
        var q :| 0 <= q < |s[from..]| && s[from..][q] == c;
        assert s[from + q] == c;
      }
    }
  }

  /** A `<` that does not start a tag is kept, and no tag starts there after stripping. */
  lemma NoTagAtStart(s: string)
    requires s != [] && s[0] == '<' && !(1 <= IndexOf(s[1..], '>') < |s| - 1)
    ensures forall j: nat :: !IsTagAt(StripTags(s), 0, j)
  {
    var r := StripTags(s);
    var rest := StripTags(s[1..]);
    assert r == [s[0]] + rest;
    if |s| > 1 && IndexOf(s[1..], '>') == 0 {
      assert s[1..][1..] == s[2..];
      assert rest == [s[1]] + StripTags(s[2..]);
      assert r[1] == '>';
    } else {
      StripTagsChars(s[1..]);
      forall j: nat | 1 <= j < |r| ensures r[j] != '>' {
        assert r[j] == rest[j - 1];
        assert rest[j - 1] in rest;
      }
    }
  }

  /** After stripping, no complete tag is left. */
  lemma {:induction false} StripTagsTagFree(s: string)
    ensures TagFree(StripTags(s))
    decreases |s|
  {
    if s == [] {
    } else if s[0] == '<' && 1 <= IndexOf(s[1..], '>') < |s| - 1 {
      StripTagsTagFree(s[IndexOf(s[1..], '>') + 2..]);
    } else {
      var rest := StripTags(s[1..]);
      StripTagsTagFree(s[1..]);
      var r := StripTags(s);
      assert r == [s[0]] + rest;
      if s[0] == '<' {
        NoTagAtStart(s);
      }
      forall i: nat, j: nat ensures !IsTagAt(r, i, j) {
        if IsTagAt(r, i, j) {
          if i != 0 {
            forall k | i - 1 < k < j - 1 ensures rest[k] != '>' {
              assert rest[k] == r[k + 1];
            }
            assert IsTagAt(rest, i - 1, j - 1);
          }
        }
      }
    }
  }

  /** On tag-free text stripping changes nothing; so stripping twice is stripping once. */
  lemma {:induction false} StripTagsIdentity(s: string)
    requires TagFree(s)
    ensures StripTags(s) == s
    decreases |s|
  {
    if s != [] {
      TagFreeTail(s);
      if s[0] == '<' {
        TagFreeNoMatch(s);
      }
      StripTagsIdentity(s[1..]);
    }
  }

  lemma TagFreeTail(s: string)
    requires TagFree(s) && s != []
    ensures TagFree(s[1..])
  {
    forall i: nat, j: nat ensures !IsTagAt(s[1..], i, j) {
      assert !IsTagAt(s, i + 1, j + 1);
    }
  }

  /** In tag-free text a leading `<` never starts a match. */
  lemma TagFreeNoMatch(s: string)
    requires TagFree(s) && s != [] && s[0] == '<'
    ensures !(1 <= IndexOf(s[1..], '>') < |s| - 1)
  {
    var j := IndexOf(s[1..], '>');
    assert !IsTagAt(s, 0, j + 1);
  }

  lemma StripTagsIdempotent(s: string)
    ensures StripTags(StripTags(s)) == StripTags(s)
  {
    StripTagsTagFree(s);
    StripTagsIdentity(StripTags(s));
  }
}
