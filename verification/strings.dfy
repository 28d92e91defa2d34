/**
 * Go's `strings.Replace(s, old, new, -1)` for a non-empty `old`: every
 * non-overlapping occurrence, scanning left to right, is replaced, and the
 * inserted text is never scanned again.
 */
module Strings {
  import opened Wrappers

  /** `pat` occurs in `s` starting at position `i`. */
  predicate MatchAt(s: string, pat: string, i: nat)
    requires i <= |s|
  {
    pat <= s[i..]
  }

  /** `pat` occurs somewhere in `s`. */
  predicate Occurs(s: string, pat: string)
  {
    exists i: nat | i <= |s| :: MatchAt(s, pat, i)
  }

  /** The replacement, scanning from the left; a match consumes its characters. */
  function ReplaceAll(s: string, pat: string, rep: string): string
    requires |pat| > 0
    decreases |s|
  {
    if |s| < |pat| then s
    else if pat <= s then rep + ReplaceAll(s[|pat|..], pat, rep)
    else [s[0]] + ReplaceAll(s[1..], pat, rep)
  }

  /** The first position at which `pat` occurs in `s`, if any, counted in characters; the role `strings.Index` plays in the replacement loop. */
  function Index(s: string, pat: string): (r: Option<nat>)
    ensures r.Some? ==> r.value <= |s| && MatchAt(s, pat, r.value)
    ensures r.Some? ==> forall i: nat | i < r.value :: !MatchAt(s, pat, i)
    ensures r.None? <==> !Occurs(s, pat)
    decreases |s|
  {
    assert s[0..] == s;
    if pat <= s then
      assert MatchAt(s, pat, 0);
      Some(0)
    else if |s| == 0 then None
    else
      var rest := Index(s[1..], pat);
      IndexStep(s, pat, rest);
      if rest.Some? then Some(rest.value + 1) else None
  }

  /** A match in `s[1..]` at `i` is a match in `s` at `i + 1`. */
  lemma ShiftMatchAt(s: string, pat: string, i: nat)
    requires |s| > 0 && i <= |s| - 1
    ensures MatchAt(s[1..], pat, i) <==> MatchAt(s, pat, i + 1)
  {
    assert s[1..][i..] == s[i + 1..];
  }

  /** The first match in `s` is one past the first match in `s[1..]` when `s` does not start with `pat`. */
  lemma IndexStep(s: string, pat: string, rest: Option<nat>)
    requires |s| > 0 && !(pat <= s)
    requires rest.Some? ==> rest.value <= |s| - 1 && MatchAt(s[1..], pat, rest.value)
    requires rest.Some? ==> forall i: nat | i < rest.value :: !MatchAt(s[1..], pat, i)
    requires rest.None? <==> !Occurs(s[1..], pat)
    ensures rest.Some? ==> MatchAt(s, pat, rest.value + 1)
    ensures rest.Some? ==> forall i: nat | i < rest.value + 1 :: !MatchAt(s, pat, i)
    ensures rest.None? <==> !Occurs(s, pat)
  {
    assert s[0..] == s;
    assert !MatchAt(s, pat, 0);
    if rest.Some? {
      ShiftMatchAt(s, pat, rest.value);
      forall i: nat | i < rest.value + 1
        ensures !MatchAt(s, pat, i)
      {
        if i > 0 {
          ShiftMatchAt(s, pat, i - 1);
        }
      }
    } else {
      forall i: nat | i <= |s|
        ensures !MatchAt(s, pat, i)
      {
        if i > 0 {
          ShiftMatchAt(s, pat, i - 1);
        }
      }
    }
  }

  /** A string with no occurrence of the pattern comes back unchanged. */
  lemma {:induction false} ReplaceAllNoMatch(s: string, pat: string, rep: string)
    requires |pat| > 0
    requires !Occurs(s, pat)
    ensures ReplaceAll(s, pat, rep) == s
    decreases |s|
  {
    if |s| >= |pat| {
      assert !MatchAt(s, pat, 0);
      assert s[0..] == s;
      forall i: nat | i <= |s[1..]|
        ensures !MatchAt(s[1..], pat, i)
      {
        ShiftMatchAt(s, pat, i);
        assert !MatchAt(s, pat, i + 1);
      }
      ReplaceAllNoMatch(s[1..], pat, rep);
      assert [s[0]] + s[1..] == s;
    }
  }

  /** Replacing a pattern by itself changes nothing. */
  lemma {:induction false} ReplaceAllSelf(s: string, pat: string)
    requires |pat| > 0
    ensures ReplaceAll(s, pat, pat) == s
    decreases |s|
  {
    if |s| >= |pat| {
      if pat <= s {
        ReplaceAllSelf(s[|pat|..], pat);
        assert pat + s[|pat|..] == s;
      } else {
        ReplaceAllSelf(s[1..], pat);
        assert [s[0]] + s[1..] == s;
      }
    }
  }

  /** Before the first occurrence of `pat`, the text is copied unchanged. */
  lemma {:induction false} ReplaceAllCopiesPrefix(s: string, pat: string, rep: string, j: nat)
    requires |pat| > 0
    requires j <= |s|
    requires forall i: nat | i < j :: !MatchAt(s, pat, i)
    ensures ReplaceAll(s, pat, rep) == s[..j] + ReplaceAll(s[j..], pat, rep)
    decreases j
  {
    if j == 0 {
      assert s[0..] == s;
    } else if |s| < |pat| {
      assert |s[j..]| < |pat|;
      assert s[..j] + s[j..] == s;
    } else {
      assert !MatchAt(s, pat, 0);
      ReplaceAllSkipHead(s, pat, rep);
      NoMatchBeforeShift(s, pat, j);
      ReplaceAllCopiesPrefix(s[1..], pat, rep, j - 1);
      CopiesPrefixStep(s, pat, rep, j);
    }
  }

  /** The copied prefix grows by the head character that was skipped. */
  lemma CopiesPrefixStep(s: string, pat: string, rep: string, j: nat)
    requires |pat| > 0 && 0 < j <= |s|
    requires ReplaceAll(s, pat, rep) == [s[0]] + ReplaceAll(s[1..], pat, rep)
    requires ReplaceAll(s[1..], pat, rep) == s[1..][..j - 1] + ReplaceAll(s[1..][j - 1..], pat, rep)
    ensures ReplaceAll(s, pat, rep) == s[..j] + ReplaceAll(s[j..], pat, rep)
  {
    var t := s[1..];
    HeadAndTake(s, j);
    assert t[j - 1..] == s[j..];
    ConsAssoc(s[0], t[..j - 1], ReplaceAll(s[j..], pat, rep));
  }

  /** Without a match at the front, the first character is copied and scanning moves on by one. */
  lemma ReplaceAllSkipHead(s: string, pat: string, rep: string)
    requires |pat| > 0 && |s| >= |pat|
    requires !MatchAt(s, pat, 0)
    ensures ReplaceAll(s, pat, rep) == [s[0]] + ReplaceAll(s[1..], pat, rep)
  {
    assert s[0..] == s;
  }

  /** No match before `j` in `s` means no match before `j - 1` in `s[1..]`. */
  lemma NoMatchBeforeShift(s: string, pat: string, j: nat)
    requires 0 < j <= |s|
    requires forall i: nat | i < j :: !MatchAt(s, pat, i)
    ensures forall i: nat | i < j - 1 :: !MatchAt(s[1..], pat, i)
  {
    forall i: nat | i < j - 1
      ensures !MatchAt(s[1..], pat, i)
    {
      ShiftMatchAt(s, pat, i);
    }
  }

  /** Prepending a character regroups. */
  lemma ConsAssoc(c: char, a: string, b: string)
    ensures [c] + (a + b) == ([c] + a) + b
  {
  }

  /** Concatenation regroups. */
  lemma ConcatAssoc(a: string, b: string, c: string, d: string)
    ensures a + (b + c + d) == (a + b + c) + d
  {
  }

  /** Taking `j > 0` characters is the first character followed by `j - 1` of the rest. */
  lemma HeadAndTake(s: string, j: nat)
    requires 0 < j <= |s|
    ensures s[..j] == [s[0]] + s[1..][..j - 1]
  {
  }

  /** When `pat` first occurs at `j`, the text before it is copied, then `rep`, then the rest is replaced. */
  lemma ReplaceAllAtFirstMatch(s: string, pat: string, rep: string, j: nat)
    requires |pat| > 0
    requires j <= |s| && MatchAt(s, pat, j)
    requires forall i: nat | i < j :: !MatchAt(s, pat, i)
    ensures ReplaceAll(s, pat, rep) == s[..j] + rep + ReplaceAll(s[j + |pat|..], pat, rep)
  {
    ReplaceAllCopiesPrefix(s, pat, rep, j);
    var u := s[j..];
    assert pat <= u && |u| >= |pat|;
    assert u[|pat|..] == s[j + |pat|..];
    assert ReplaceAll(u, pat, rep) == rep + ReplaceAll(u[|pat|..], pat, rep);
  }

  /**
   * A character that does not appear in the pattern separates the replacement:
   * no occurrence can straddle it, so each side is replaced on its own.
   */
  lemma {:induction false} ReplaceAllAcrossSeparator(a: string, c: char, b: string, pat: string, rep: string)
    requires |pat| > 0
    requires c !in pat
    ensures ReplaceAll(a + [c] + b, pat, rep) == ReplaceAll(a, pat, rep) + [c] + ReplaceAll(b, pat, rep)
    decreases |a|
  {
    var s := a + [c] + b;
    if |s| < |pat| {
      assert ReplaceAll(a, pat, rep) == a && ReplaceAll(b, pat, rep) == b;
    } else if |a| >= |pat| && pat <= a {
      assert pat <= s;
      assert s[|pat|..] == a[|pat|..] + [c] + b;
      ReplaceAllAcrossSeparator(a[|pat|..], c, b, pat, rep);
    } else {
      NoMatchAtFront(a, c, b, pat);
      ReplaceAllSkipHead(s, pat, rep);
      if |a| == 0 {
        assert s[1..] == b;
      } else {
        assert s[1..] == a[1..] + [c] + b;
        ReplaceAllAcrossSeparator(a[1..], c, b, pat, rep);
        if |a| < |pat| {
          assert ReplaceAll(a, pat, rep) == a && ReplaceAll(a[1..], pat, rep) == a[1..];
          assert [a[0]] + a[1..] == a;
        } else {
          ReplaceAllSkipHead(a, pat, rep);
        }
      }
    }
  }

  /**
   * `a + [c] + b` does not start with `pat` when `a` does not, or is too short
   * for `pat` to reach past the separator it lacks.
   */
  lemma NoMatchAtFront(a: string, c: char, b: string, pat: string)
    requires |pat| > 0 && c !in pat
    requires |a| < |pat| || !(pat <= a)
    requires |a + [c] + b| >= |pat|
    ensures !MatchAt(a + [c] + b, pat, 0)
    ensures |a| >= |pat| ==> !MatchAt(a, pat, 0)
  {
    var s := a + [c] + b;
    assert s[0..] == s && a[0..] == a;
    if |a| < |pat| {
      assert s[|a|] == c && pat[|a|] in pat;
    } else {
      assert s[..|pat|] == a[..|pat|];
    }
  }

  /** A string lacking one of the pattern's characters cannot contain the pattern. */
  lemma NoOccurrenceWithoutChar(s: string, pat: string, k: nat)
    requires k < |pat| && pat[k] !in s
    ensures !Occurs(s, pat)
  {
    forall i: nat | i <= |s|
      ensures !MatchAt(s, pat, i)
    {
      if i + k < |s| {
        assert s[i + k] in s;
        assert s[i..][k] == s[i + k];
      }
    }
  }

  /** The pattern alone is replaced by the replacement alone. */
  lemma ReplaceAllWhole(pat: string, rep: string)
    requires |pat| > 0
    ensures ReplaceAll(pat, pat, rep) == rep
  {
    assert pat[|pat|..] == [];
    assert ReplaceAll([], pat, rep) == [];
  }

  /**
   * In a path of three `/`-separated segments, a pattern without `/` is
   * replaced in each segment on its own.
   */
  lemma ReplaceAllInPath(x: string, y: string, z: string, pat: string, rep: string)
    requires |pat| > 0 && '/' !in pat
    ensures ReplaceAll(x + "/" + y + "/" + z, pat, rep)
            == ReplaceAll(x, pat, rep) + "/" + ReplaceAll(y, pat, rep) + "/" + ReplaceAll(z, pat, rep)
  {
    assert x + "/" + y + "/" + z == x + ['/'] + (y + ['/'] + z);
    ReplaceAllAcrossSeparator(x, '/', y + ['/'] + z, pat, rep);
    ReplaceAllAcrossSeparator(y, '/', z, pat, rep);
  }

  /**
   * The replacement as Go's `strings.Replace` computes it: find the next match
   * with `Index`, copy the text before it, append the replacement, and resume
   * after the match; copy the remainder once no match is left.
   */
  method ReplaceAllByIndex(s: string, pat: string, rep: string) returns (r: string)
    requires |pat| > 0
    ensures r == ReplaceAll(s, pat, rep)
  {
    r := [];
    var start := 0;
    while true
      invariant start <= |s|
      invariant r + ReplaceAll(s[start..], pat, rep) == ReplaceAll(s, pat, rep)
      decreases |s| - start
    {
      var j := Index(s[start..], pat);
      if j.None? {
        ReplaceAllNoMatch(s[start..], pat, rep);
        r := r + s[start..];
        return;
      }
      var t := s[start..];
      ReplaceAllAtFirstMatch(t, pat, rep, j.value);
      var next := start + j.value + |pat|;
      assert t[j.value + |pat|..] == s[next..];
      ConcatAssoc(r, t[..j.value], rep, ReplaceAll(s[next..], pat, rep));
      r := r + t[..j.value] + rep;
      start := next;
    }
  }
}
