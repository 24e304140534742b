/**
 * The second pass of `validate_srt_content` (validator/rules.py): a map from
 * each subtitle index value to the 1-based number of the raw line where that
 * index appears, used to attach line numbers to the per-record diagnostics.
 */
module LineMap {
  import opened SrtText
  import opened PreScanner

  /**
   * Reference definition: after the first `n` lines, each index value seen on
   * a digits-only line is mapped to the last such line.
   */
  function LastIndexLines(lines: seq<string>, n: nat): map<int, int>
    requires n <= |lines|
  {
    if n == 0 then map[]
    else if DigitsLine(lines, n) then LastIndexLines(lines, n - 1)[IndexValue(lines, n) := n]
    else LastIndexLines(lines, n - 1)
  }

  /**
   * The map `m` relates exactly the index values written on lines 1..n, each
   * to the last line carrying it.
   */
  ghost predicate MapsToLastIndexLine(lines: seq<string>, n: nat, m: map<int, int>)
    requires n <= |lines|
  {
    (forall k :: k in m ==> 1 <= m[k] <= n && DigitsLine(lines, m[k]) && IndexValue(lines, m[k]) == k) &&
    (forall l :: 1 <= l <= n && DigitsLine(lines, l) ==> IndexValue(lines, l) in m && l <= m[IndexValue(lines, l)])
  }

  lemma {:induction false} LastIndexLinesCharacterised(lines: seq<string>, n: nat)
    requires n <= |lines|
    ensures MapsToLastIndexLine(lines, n, LastIndexLines(lines, n))
  {
    if n > 0 {
      LastIndexLinesCharacterised(lines, n - 1);
    }
  }

  /** The characterisation determines the map: any map with that property is the reference one. */
  lemma LastIndexLinesUnique(lines: seq<string>, n: nat, m: map<int, int>)
    requires n <= |lines|
    requires MapsToLastIndexLine(lines, n, m)
    ensures m == LastIndexLines(lines, n)
  {
    var r := LastIndexLines(lines, n);
    LastIndexLinesCharacterised(lines, n);
    forall k | k in m
      ensures k in r && r[k] == m[k]
    {
      assert IndexValue(lines, m[k]) == k;
      assert IndexValue(lines, r[k]) == k;
    }
    forall k | k in r
      ensures k in m
    {
      assert IndexValue(lines, r[k]) == k;
    }
  }

  /** The map with the index still pending (`current_sub_index_str`) stored. */
  function Committed(lineMap: map<int, int>, currentSubIndexStr: string, currentSubStartLine: int): map<int, int> {
    if currentSubIndexStr == [] then lineMap
    else lineMap[DigitsValue(currentSubIndexStr) := currentSubStartLine]
  }

  /**
   * The loop that builds `subtitle_line_map`: a digits-only line stores the
   * pending index and makes itself pending, a line containing `-->` (tested
   * on the line as read) stores the pending index and clears it, and the
   * index still pending at the end is stored.
   */
  method BuildLineMap(lines: seq<string>) returns (lineMap: map<int, int>)
    ensures lineMap == LastIndexLines(lines, |lines|)
  {
    lineMap := map[];
    var currentSubIndexStr := "";
    var currentSubStartLine := 0;
    for i := 0 to |lines|
      invariant Committed(lineMap, currentSubIndexStr, currentSubStartLine) == LastIndexLines(lines, i)
    {
      var lineNum := i + 1;
      var strippedLine := Strip(lines[i]);
      if IsDigits(strippedLine) {
        if currentSubIndexStr != [] {
          lineMap := lineMap[DigitsValue(currentSubIndexStr) := currentSubStartLine];
        }
        currentSubIndexStr := strippedLine;
        currentSubStartLine := lineNum;
      } else if Contains(lines[i], "-->") && currentSubIndexStr != [] {
        lineMap := lineMap[DigitsValue(currentSubIndexStr) := currentSubStartLine];
        currentSubIndexStr := "";
      }
    }
    if currentSubIndexStr != [] {
      lineMap := lineMap[DigitsValue(currentSubIndexStr) := currentSubStartLine];
    }
  }
}
