/**
 * The text clean-up of `fix_srt_subtitles` (validator/fixer.py): remove every
 * carriage return, collapse each run of three or more newlines to two, and
 * strip whitespace from both ends.
 */
module Normalization {
  import opened SrtText

  /** `s` with every `c` removed. */
  function Without(s: string, c: char): (r: string)
    ensures c !in r
    ensures |r| <= |s|
    decreases |s|
  {
    if s == [] then []
    else (if s[0] == c then [] else [s[0]]) + Without(s[1..], c)
  }

  /** Every other character keeps its number of occurrences. */
  lemma {:induction false} WithoutKeepsOthers(s: string, c: char)
    ensures forall d :: d != c ==> multiset(Without(s, c))[d] == multiset(s)[d]
    decreases |s|
  {
    if s != [] {
      WithoutKeepsOthers(s[1..], c);
      assert s == [s[0]] + s[1..];
    }
  }

  /** Removing a character the text does not hold changes nothing, and only then. */
  lemma {:induction false} WithoutIdentity(s: string, c: char)
    ensures Without(s, c) == s <==> c !in s
    decreases |s|
  {
    if s != [] {
      WithoutIdentity(s[1..], c);
      assert s == [s[0]] + s[1..];
    }
  }

  /** `re.sub(r"\r", "", s)`. */
  function RemoveCR(s: string): string {
    Without(s, '\r')
  }

  /** Length of the run of newlines at the front of `s`. */
  function NewlineRun(s: string): (k: nat)
    ensures k <= |s|
    ensures forall i :: 0 <= i < k ==> s[i] == '\n'
    ensures k < |s| ==> s[k] != '\n'
    decreases |s|
  {
    if s != [] && s[0] == '\n' then 1 + NewlineRun(s[1..]) else 0
  }

  /** `re.sub(r"\n{3,}", "\n\n", s)`: each run of newlines longer than two becomes two newlines. */
  function CollapseNewlines(s: string): (r: string)
    ensures |r| <= |s|
    ensures r == [] <==> s == []
    ensures r != [] ==> r[0] == s[0]
    decreases |s|
  {
    if s == [] then []
    else
      var k := NewlineRun(s);
      if k >= 3 then "\n\n" + CollapseNewlines(s[k..])
      else if k > 0 then s[..k] + CollapseNewlines(s[k..])
      else [s[0]] + CollapseNewlines(s[1..])
  }

  /** No three newlines in a row. */
  predicate NoTripleNewline(s: string) {
    forall i :: 0 <= i < |s| - 2 ==> !(s[i] == '\n' && s[i + 1] == '\n' && s[i + 2] == '\n')
  }

  /** The index form above is the substring test `"\n\n\n" not in s`. */
  lemma NoTripleNewlineContains(s: string)
    ensures NoTripleNewline(s) <==> !Contains(s, "\n\n\n")
  {
    if !NoTripleNewline(s) {
      var i :| 0 <= i < |s| - 2 && s[i] == '\n' && s[i + 1] == '\n' && s[i + 2] == '\n';
      assert OccursAt(s, "\n\n\n", i);
    }
    if Contains(s, "\n\n\n") {
      var i: nat :| i <= |s| && OccursAt(s, "\n\n\n", i);
      assert s[i..i + 3][0] == s[i] && s[i..i + 3][1] == s[i + 1] && s[i..i + 3][2] == s[i + 2];
    }
  }

  /** At most two newlines followed by text that does not start with a newline. */
  lemma NoTripleAfterShortRun(p: string, q: string)
    requires |p| <= 2 && (forall i :: 0 <= i < |p| ==> p[i] == '\n')
    requires q != [] ==> q[0] != '\n'
    requires NoTripleNewline(q)
    ensures NoTripleNewline(p + q)
  {
    var r := p + q;
    forall i | 0 <= i < |r| - 2
      ensures !(r[i] == '\n' && r[i + 1] == '\n' && r[i + 2] == '\n')
    {
      if i >= |p| {
        assert r[i] == q[i - |p|] && r[i + 1] == q[i - |p| + 1] && r[i + 2] == q[i - |p| + 2];
      } else {
        assert r[|p|] == q[0];
      }
    }
  }

  /** After collapsing there are never three newlines in a row. */
  lemma {:induction false} CollapseNoTriple(s: string)
    ensures NoTripleNewline(CollapseNewlines(s))
    decreases |s|
  {
    if s != [] {
      var k := NewlineRun(s);
      if k >= 3 {
        CollapseNoTriple(s[k..]);
        NoTripleAfterShortRun("\n\n", CollapseNewlines(s[k..]));
      } else if k > 0 {
        CollapseNoTriple(s[k..]);
        NoTripleAfterShortRun(s[..k], CollapseNewlines(s[k..]));
      } else {
        CollapseNoTriple(s[1..]);
        var q := CollapseNewlines(s[1..]);
        var r := [s[0]] + q;
        forall i | 0 <= i < |r| - 2
          ensures !(r[i] == '\n' && r[i + 1] == '\n' && r[i + 2] == '\n')
        {
          if i > 0 {
            assert r[i] == q[i - 1] && r[i + 1] == q[i] && r[i + 2] == q[i + 1];
          }
        }
      }
    }
  }

  /** Collapsing only drops newlines: every other character is kept, in order. */
  lemma {:induction false} CollapseKeepsText(s: string)
    ensures Without(CollapseNewlines(s), '\n') == Without(s, '\n')
    decreases |s|
  {
    if s != [] {
      var k := NewlineRun(s);
      WithoutAppendNewlines(s[..k], s[k..]);
      assert s == s[..k] + s[k..];
      if k >= 3 {
        CollapseKeepsText(s[k..]);
        WithoutAppendNewlines("\n\n", CollapseNewlines(s[k..]));
      } else if k > 0 {
        CollapseKeepsText(s[k..]);
        WithoutAppendNewlines(s[..k], CollapseNewlines(s[k..]));
      } else {
        CollapseKeepsText(s[1..]);
        WithoutAppend([s[0]], CollapseNewlines(s[1..]), '\n');
        WithoutAppend([s[0]], s[1..], '\n');
        assert s == [s[0]] + s[1..];
      }
    }
  }

  lemma {:induction false} WithoutAppend(a: string, b: string, c: char)
    ensures Without(a + b, c) == Without(a, c) + Without(b, c)
    decreases |a|
  {
    if a != [] {
      WithoutAppend(a[1..], b, c);
      var head := if a[0] == c then [] else [a[0]];
      calc {
        Without(a + b, c);
        { assert (a + b)[0] == a[0]; assert (a + b)[1..] == a[1..] + b; }
        head + Without(a[1..] + b, c);
        head + (Without(a[1..], c) + Without(b, c));
        (head + Without(a[1..], c)) + Without(b, c);
        Without(a, c) + Without(b, c);
      }
    } else {
      assert a + b == b;
    }
  }

  /** A prefix made of newlines only vanishes when newlines are removed. */
  lemma WithoutAppendNewlines(p: string, q: string)
    requires forall i :: 0 <= i < |p| ==> p[i] == '\n'
    ensures Without(p + q, '\n') == Without(q, '\n')
  {
    WithoutAppend(p, q, '\n');
    WithoutNewlinesOnly(p);
  }

  lemma {:induction false} WithoutNewlinesOnly(p: string)
    requires forall i :: 0 <= i < |p| ==> p[i] == '\n'
    ensures Without(p, '\n') == []
    decreases |p|
  {
    if p != [] {
      WithoutNewlinesOnly(p[1..]);
    }
  }

  /** Text with no three newlines in a row is left as it is. */
  lemma {:induction false} CollapseIdentity(s: string)
    requires NoTripleNewline(s)
    ensures CollapseNewlines(s) == s
    decreases |s|
  {
    if s != [] {
      var k := NewlineRun(s);
      assert k < 3 by {
        if |s| >= 3 {
          assert !(s[0] == '\n' && s[1] == '\n' && s[2] == '\n');
        }
      }
      if k > 0 {
        NoTripleSuffix(s, k);
        CollapseIdentity(s[k..]);
        assert s == s[..k] + s[k..];
      } else {
        NoTripleSuffix(s, 1);
        CollapseIdentity(s[1..]);
        assert s == [s[0]] + s[1..];
      }
    }
  }

  lemma NoTripleSuffix(s: string, k: nat)
    requires k <= |s| && NoTripleNewline(s)
    ensures NoTripleNewline(s[k..])
  {
    var t := s[k..];
    forall i | 0 <= i < |t| - 2
      ensures !(t[i] == '\n' && t[i + 1] == '\n' && t[i + 2] == '\n')
    {
      assert t[i] == s[k + i] && t[i + 1] == s[k + i + 1] && t[i + 2] == s[k + i + 2];
    }
  }

  /** Every character of the collapsed text comes from the original. */
  lemma {:induction false} CollapseChars(s: string)
    ensures forall c :: c in CollapseNewlines(s) ==> c in s
    decreases |s|
  {
    if s != [] {
      var k := NewlineRun(s);
      if k > 0 {
        CollapseChars(s[k..]);
        assert s[0] == '\n';
      } else {
        CollapseChars(s[1..]);
      }
    }
  }

  /** `re.sub` for `\r`, then for `\n{3,}`, then `strip()`. */
  function Normalize(s: string): string {
    Strip(CollapseNewlines(RemoveCR(s)))
  }

  /** Text the clean-up leaves alone: no carriage return, no three newlines in a row, nothing to strip. */
  predicate Clean(s: string) {
    '\r' !in s && NoTripleNewline(s) && Strip(s) == s
  }

  /** A piece of clean-able text keeps its cleanliness. */
  lemma SliceKeepsClean(s: string, i: nat, j: nat)
    requires i <= j <= |s| && '\r' !in s && NoTripleNewline(s)
    ensures '\r' !in s[i..j] && NoTripleNewline(s[i..j])
  {
    NoTripleSuffix(s[..j], i);
    assert s[..j][i..] == s[i..j];
    var t := s[..j];
    forall k | 0 <= k < |t| - 2
      ensures !(t[k] == '\n' && t[k + 1] == '\n' && t[k + 2] == '\n')
    {
      assert t[k] == s[k] && t[k + 1] == s[k + 1] && t[k + 2] == s[k + 2];
    }
    NoTripleSuffix(t, i);
    forall k | 0 <= k < j - i ensures s[i..j][k] != '\r' {
      assert s[i..j][k] == s[i + k];
    }
  }

  /** The clean-up always produces clean text. */
  lemma NormalizeClean(s: string)
    ensures Clean(Normalize(s))
  {
    var a := RemoveCR(s);
    var b := CollapseNewlines(a);
    CollapseChars(a);
    CollapseNoTriple(a);
    StripIsSlice(b);
    SliceKeepsClean(b, StripOffset(b), StripOffset(b) + |Strip(b)|);
    StripIdempotent(b);
  }

  /** The clean-up changes exactly the text that is not clean. */
  lemma NormalizeIdentity(s: string)
    ensures Normalize(s) == s <==> Clean(s)
  {
    if Clean(s) {
      WithoutIdentity(s, '\r');
      CollapseIdentity(s);
    }
    NormalizeClean(s);
  }

  /** Cleaning twice is cleaning once. */
  lemma NormalizeIdempotent(s: string)
    ensures Normalize(Normalize(s)) == Normalize(s)
  {
    NormalizeClean(s);
    NormalizeIdentity(Normalize(s));
  }
}
